/** Name patterns of the host filter (src/domain/host_filter.rs:201-226): the
    two-pointer walk that remembers the last `*`, and what a pattern means. */
module HostFilter {
  import opened Json

  /** What a pattern means: `*` is any run, `?` any one character, anything else
      itself. */
  predicate Means(p: string, t: string)
    decreases |p| + |t|
  {
    if p == "" then t == ""
    else if p[0] == '*' then Means(p[1..], t) || (t != "" && Means(p, t[1..]))
    else t != "" && (p[0] == '?' || p[0] == t[0]) && Means(p[1..], t[1..])
  }

  /** Where the last `*` is, and where the text was when it last gave way. */
  datatype Star = Star(pos: nat, text: nat)

  predicate InBounds(p: string, t: string, pi: nat, ti: nat, star: Option<Star>) {
    && pi <= |p| && ti <= |t|
    && (star.Some? ==> star.value.pos < pi && star.value.text <= ti && p[star.value.pos] == '*')
  }

  /** The walk from any of its states. Each turn moves the last star to the right,
      or leaves it and moves where it gives way, or leaves both and reads on. */
  predicate Walk(p: string, t: string, pi: nat, ti: nat, star: Option<Star>)
    requires InBounds(p, t, pi, ti, star)
    decreases |p| - (if star.Some? then star.value.pos + 1 else 0),
              |t| - (if star.Some? then star.value.text else 0),
              |t| - ti
  {
    if ti == |t| then forall k | pi <= k < |p| :: p[k] == '*'
    else if pi < |p| && (p[pi] == '?' || p[pi] == t[ti]) then Walk(p, t, pi + 1, ti + 1, star)
    else if pi < |p| && p[pi] == '*' then Walk(p, t, pi + 1, ti, Some(Star(pi, ti)))
    else if star.Some? then
      Walk(p, t, star.value.pos + 1, star.value.text + 1, Some(Star(star.value.pos, star.value.text + 1)))
    else false
  }

  /** The program's loop computes the walk. */
  method Glob(p: string, t: string) returns (matched: bool)
    ensures matched == Walk(p, t, 0, 0, None)
  {
    var pi: nat, ti: nat := 0, 0;
    var star: Option<Star> := None;
    while ti < |t|
      invariant InBounds(p, t, pi, ti, star)
      invariant Walk(p, t, pi, ti, star) == Walk(p, t, 0, 0, None)
      decreases |p| - (if star.Some? then star.value.pos + 1 else 0),
                |t| - (if star.Some? then star.value.text else 0),
                |t| - ti
    {
      if pi < |p| && (p[pi] == '?' || p[pi] == t[ti]) {
        pi, ti := pi + 1, ti + 1;
      } else if pi < |p| && p[pi] == '*' {
        star := Some(Star(pi, ti));
        pi := pi + 1;
      } else if star.Some? {
        var s := star.value;
        pi, ti, star := s.pos + 1, s.text + 1, Some(Star(s.pos, s.text + 1));
      } else {
        return false;
      }
    }
    matched := forall k | pi <= k < |p| :: p[k] == '*';
  }

  // ----- the walk is sound, for any text -----

  lemma {:induction false} StarsMeanNothing(p: string)
    ensures Means(p, "") <==> forall k | 0 <= k < |p| :: p[k] == '*'
  {
    if p != "" {
      StarsMeanNothing(p[1..]);
      if p[0] == '*' {
        assert forall k | 1 <= k < |p| :: p[k] == p[1..][k - 1];
      }
    }
  }

  /** A star may swallow any prefix. */
  lemma {:induction false} StarSwallows(p: string, t: string, n: nat)
    requires p != "" && p[0] == '*' && n <= |t|
    requires Means(p, t[n..])
    ensures Means(p, t)
  {
    if n > 0 {
      assert t[1..][n - 1..] == t[n..];
      StarSwallows(p, t[1..], n - 1);
    } else {
      assert t[0..] == t;
    }
  }

  /** The walk never accepts more than the meaning, from where it stands or from
      where its star would give way. */
  lemma {:induction false} WalkSound(p: string, t: string, pi: nat, ti: nat, star: Option<Star>)
    requires InBounds(p, t, pi, ti, star)
    requires Walk(p, t, pi, ti, star)
    ensures Means(p[pi..], t[ti..]) || (star.Some? && Means(p[star.value.pos..], t[star.value.text..]))
    decreases |p| - (if star.Some? then star.value.pos + 1 else 0),
              |t| - (if star.Some? then star.value.text else 0),
              |t| - ti
  {
    if ti == |t| {
      StarsMeanNothing(p[pi..]);
    } else if pi < |p| && (p[pi] == '?' || p[pi] == t[ti]) {
      WalkSound(p, t, pi + 1, ti + 1, star);
      assert p[pi..][1..] == p[pi + 1..] && t[ti..][1..] == t[ti + 1..];
      if Means(p[pi + 1..], t[ti + 1..]) && p[pi] == '*' {
        assert t[ti..][1..] == t[ti + 1..];
        assert Means(p[pi..], t[ti + 1..]);
      }
    } else if pi < |p| && p[pi] == '*' {
      WalkSound(p, t, pi + 1, ti, Some(Star(pi, ti)));
      assert p[pi..][1..] == p[pi + 1..];
    } else {
      var s := star.value;
      WalkSound(p, t, s.pos + 1, s.text + 1, Some(Star(s.pos, s.text + 1)));
      assert p[s.pos..][1..] == p[s.pos + 1..] && t[s.text..][1..] == t[s.text + 1..];
    }
  }

  // ----- it is complete, for a text without stars -----

  /** Since the star at `s.pos`, pattern and text advanced together, through
      pattern characters that are not stars. */
  predicate Aligned(p: string, t: string, pi: nat, ti: nat, s: Star)
    requires InBounds(p, t, pi, ti, Some(s))
  {
    && pi - s.pos - 1 == ti - s.text
    && forall j | s.pos < j < pi :: p[j] != '*'
  }

  /** A star-free stretch of pattern consumes as many characters as it has. */
  lemma {:induction false} PlainConsumes(p: string, n: nat, t: string)
    requires n <= |p| && forall k | 0 <= k < n :: p[k] != '*'
    requires Means(p, t)
    ensures n <= |t| && Means(p[n..], t[n..])
  {
    if n > 0 {
      PlainConsumes(p[1..], n - 1, t[1..]);
      assert p[1..][n - 1..] == p[n..] && t[1..][n - 1..] == t[n..];
    } else {
      assert p[0..] == p && t[0..] == t;
    }
  }

  /** Where a star can match at all, it gives way at some point. */
  lemma {:induction false} StarGivesWay(p: string, t: string) returns (n: nat)
    requires p != "" && p[0] == '*' && Means(p, t)
    ensures n <= |t| && Means(p[1..], t[n..])
  {
    if Means(p[1..], t) {
      n := 0;
      assert t[0..] == t;
    } else {
      n := StarGivesWay(p, t[1..]);
      assert t[1..][n..] == t[n + 1..];
      n := n + 1;
    }
  }

  /** Reaching a second star, the first one need not give way any later: the new
      one can swallow whatever the old one would have. */
  lemma LastStarSuffices(p: string, t: string, pi: nat, ti: nat, s: Star)
    requires InBounds(p, t, pi, ti, Some(s)) && Aligned(p, t, pi, ti, s)
    requires pi < |p| && p[pi] == '*'
    requires s.text < |t| && Means(p[s.pos..], t[s.text + 1..])
    ensures Means(p[pi..], t[ti..])
  {
    var n := StarGivesWay(p[s.pos..], t[s.text + 1..]);
    var from := s.text + 1 + n;
    assert p[s.pos..][1..] == p[s.pos + 1..] && t[s.text + 1..][n..] == t[from..];
    var len := pi - s.pos - 1;
    var segment := p[s.pos + 1..];
    assert forall k | 0 <= k < len :: segment[k] != '*';
    PlainConsumes(segment, len, t[from..]);
    assert segment[len..] == p[pi..] && t[from..][len..] == t[from + len..];
    assert t[ti..][from + len - ti..] == t[from + len..];
    StarSwallows(p[pi..], t[ti..], from + len - ti);
  }

  predicate StarFree(t: string) {
    forall k | 0 <= k < |t| :: t[k] != '*'
  }

  lemma {:induction false} WalkComplete(p: string, t: string, pi: nat, ti: nat, star: Option<Star>)
    requires InBounds(p, t, pi, ti, star) && StarFree(t)
    requires star.Some? ==> Aligned(p, t, pi, ti, star.value)
    requires || Means(p[pi..], t[ti..])
             || (star.Some? && star.value.text < |t| && Means(p[star.value.pos..], t[star.value.text + 1..]))
    ensures Walk(p, t, pi, ti, star)
    decreases |p| - (if star.Some? then star.value.pos + 1 else 0),
              |t| - (if star.Some? then star.value.text else 0),
              |t| - ti
  {
    hide Means, Aligned;
    if ti < |t| {
      MeansFrom(p, t, pi, ti);
    }
    if ti == |t| {
      if star.Some? && star.value.text < |t| {
        NothingLeftToSwallow(p, t, pi, ti, star.value);
      }
      assert t[ti..] == "";
      StarsMeanNothing(p[pi..]);
      assert forall k | pi <= k < |p| :: p[k] == p[pi..][k - pi];
    } else if pi < |p| && (p[pi] == '?' || p[pi] == t[ti]) {
      StaysAligned(p, t, pi, ti, star);
      WalkComplete(p, t, pi + 1, ti + 1, star);
    } else if pi < |p| && p[pi] == '*' {
      if !Means(p[pi..], t[ti..]) {
        LastStarSuffices(p, t, pi, ti, star.value);
      }
      NewlyAligned(p, t, pi, ti);
      WalkComplete(p, t, pi + 1, ti, Some(Star(pi, ti)));
    } else {
      var s := star.value;
      StarMovesOn(p, t, s);
      NewlyAligned(p, t, s.pos, s.text + 1);
      WalkComplete(p, t, s.pos + 1, s.text + 1, Some(Star(s.pos, s.text + 1)));
    }
  }

  lemma MeansFrom(p: string, t: string, pi: nat, ti: nat)
    requires pi <= |p| && ti < |t|
    ensures Means(p[pi..], t[ti..]) <==>
      && pi < |p|
      && if p[pi] == '*' then Means(p[pi + 1..], t[ti..]) || Means(p[pi..], t[ti + 1..])
         else (p[pi] == '?' || p[pi] == t[ti]) && Means(p[pi + 1..], t[ti + 1..])
  {
    assert pi < |p| ==> p[pi..][1..] == p[pi + 1..];
    assert t[ti..][1..] == t[ti + 1..];
  }

  lemma StaysAligned(p: string, t: string, pi: nat, ti: nat, star: Option<Star>)
    requires InBounds(p, t, pi, ti, star) && pi < |p| && ti < |t| && p[pi] != '*'
    requires star.Some? ==> Aligned(p, t, pi, ti, star.value)
    ensures star.Some? ==> Aligned(p, t, pi + 1, ti + 1, star.value)
  {
  }

  lemma NewlyAligned(p: string, t: string, pos: nat, text: nat)
    requires pos < |p| && text <= |t| && p[pos] == '*'
    ensures Aligned(p, t, pos + 1, text, Star(pos, text))
  {
  }

  /** A star that can match from one place can give way or be retried a place on. */
  lemma StarMovesOn(p: string, t: string, s: Star)
    requires s.pos < |p| && p[s.pos] == '*' && s.text < |t|
    requires Means(p[s.pos..], t[s.text + 1..])
    ensures || Means(p[s.pos + 1..], t[s.text + 1..])
            || (s.text + 1 < |t| && Means(p[s.pos..], t[s.text + 2..]))
  {
    assert p[s.pos..][1..] == p[s.pos + 1..];
    assert t[s.text + 1..] != "" ==> t[s.text + 1..][1..] == t[s.text + 2..];
  }

  /** With the text used up, a star that gave way later would leave too little. */
  lemma NothingLeftToSwallow(p: string, t: string, pi: nat, ti: nat, s: Star)
    requires InBounds(p, t, pi, ti, Some(s)) && Aligned(p, t, pi, ti, s) && ti == |t|
    requires s.text < |t|
    ensures !Means(p[s.pos..], t[s.text + 1..])
  {
    if Means(p[s.pos..], t[s.text + 1..]) {
      var n := StarGivesWay(p[s.pos..], t[s.text + 1..]);
      assert p[s.pos..][1..] == p[s.pos + 1..];
      var len := pi - s.pos - 1;
      var segment := p[s.pos + 1..];
      assert forall k | 0 <= k < len :: segment[k] != '*';
      PlainConsumes(segment, len, t[s.text + 1..][n..]);
    }
  }

  // ----- a text with a star -----

  /** A literal stretch is read character by character. */
  lemma {:induction false} LiteralWalk(p: string, t: string, n: nat)
    requires n <= |p| && n <= |t| && p[..n] == t[..n]
    ensures Walk(p, t, 0, 0, None) == Walk(p, t, n, n, None)
  {
    if n > 0 {
      assert p[..n][..n - 1] == p[..n - 1] && t[..n][..n - 1] == t[..n - 1];
      LiteralWalk(p, t, n - 1);
      assert p[n - 1] == p[..n][n - 1] && t[n - 1] == t[..n][n - 1];
    }
  }

  lemma {:induction false} LiteralMeans(u: string, p: string, t: string)
    requires StarFree(u) && Means(p, t)
    ensures Means(u + p, u + t)
  {
    if u == "" {
      assert u + p == p && u + t == t;
    } else {
      LiteralMeans(u[1..], p, t);
      assert (u + p)[1..] == u[1..] + p && (u + t)[1..] == u[1..] + t;
    }
  }

  /** A text with a `*` in it has a pattern the walk gets wrong: the `*` of the
      pattern is read as a literal, and cannot give way any more. */
  lemma StarredTextIsMisread(t: string) returns (p: string)
    requires !StarFree(t)
    ensures Means(p, t) && !Walk(p, t, 0, 0, None)
  {
    var i := FirstStar(t);
    var u, v := t[..i], t[i + 1..];
    assert t == u + ("*" + v);
    if v != "" {
      p := u + "*";
      assert Means("*"[1..], ("*" + v)[|v| + 1..]);
      StarSwallows("*", "*" + v, |v| + 1);
      LiteralMeans(u, "*", "*" + v);
      LiteralWalk(p, t, i);
      assert !Walk(p, t, i + 1, i + 1, None);
    } else {
      p := u + "*?";
      assert t == u + "*";
      assert "*?"[1..] == "?" && "?"[1..] == "" && "*"[1..] == "";
      assert Means("", "") && Means("?", "*") && Means("*?", "*");
      LiteralMeans(u, "*?", "*");
      LiteralWalk(p, t, i);
      assert p[i + 1] == '?';
      assert !Walk(p, t, i + 1, i + 1, None);
    }
  }

  lemma {:induction false} FirstStar(t: string) returns (i: nat)
    requires !StarFree(t)
    ensures i < |t| && t[i] == '*' && StarFree(t[..i])
  {
    if t[0] == '*' {
      i := 0;
    } else {
      var k :| 0 <= k < |t| && t[k] == '*';
      assert t[1..][k - 1] == '*';
      i := FirstStar(t[1..]);
      assert t[..i + 1] == [t[0]] + t[1..][..i];
      i := i + 1;
    }
  }

  // ----- results -----

  /** Whatever the pattern and the text, an accepted name matches the pattern;
      and a text without `*` is accepted exactly when it matches. */
  lemma GlobMeans(p: string, t: string)
    ensures Walk(p, t, 0, 0, None) ==> Means(p, t)
    ensures StarFree(t) ==> (Walk(p, t, 0, 0, None) <==> Means(p, t))
  {
    assert p[0..] == p && t[0..] == t;
    if Walk(p, t, 0, 0, None) {
      WalkSound(p, t, 0, 0, None);
    }
    if StarFree(t) && Means(p, t) {
      WalkComplete(p, t, 0, 0, None);
    }
  }

  /** Exactly when the program's matching is the meaning of patterns, for a given
      name: when the name has no `*` in it. The literal comparison is tried before
      the star, so a `*` of the pattern that meets one in the name is used up. */
  lemma GlobIsExactIffStarFree(t: string)
    ensures (forall p :: Walk(p, t, 0, 0, None) <==> Means(p, t)) <==> StarFree(t)
  {
    forall p
      ensures StarFree(t) ==> (Walk(p, t, 0, 0, None) <==> Means(p, t))
    {
      GlobMeans(p, t);
    }
    if !StarFree(t) {
      var p := StarredTextIsMisread(t);
    }
  }

  /** What one character of a pattern means: a star any text, a question mark any one
      character, anything else itself. */
  lemma {:induction false} OneCharacterMeans(c: char, t: string)
    ensures Means([c], t) <==> c == '*' || (|t| == 1 && (c == '?' || t[0] == c))
  {
    if c == '*' && t != "" {
      OneCharacterMeans(c, t[1..]);
    }
  }

  /** And two patterns in a row mean a text of the one, then a text of the other. */
  lemma {:induction false} PatternsInARowMean(p: string, q: string, t: string)
    ensures Means(p + q, t) <==> exists i | 0 <= i <= |t| :: Means(p, t[..i]) && Means(q, t[i..])
    decreases |p| + |t|
  {
    if p == "" {
      assert p + q == q && t[0..] == t && t[..0] == "";
    } else {
      assert (p + q)[1..] == p[1..] + q;
      if p[0] == '*' {
        PatternsInARowMean(p[1..], q, t);
      }
      if t != "" {
        PatternsInARowMean(if p[0] == '*' then p else p[1..], q, t[1..]);
      }
      forall i | 0 <= i <= |t|
        ensures i > 0 ==> t[..i][1..] == t[1..][..i - 1] && t[i..] == t[1..][i - 1..]
      {
      }
      forall j | 0 <= j <= |t| - 1
        ensures t[..j + 1][1..] == t[1..][..j] && t[1..][j..] == t[j + 1..]
      {
      }
    }
  }
}
