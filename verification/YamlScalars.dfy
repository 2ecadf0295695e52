/** What YAML scalars read as: whole numbers in each radix read back as themselves
    exactly within 64 bits, the words of null and of the booleans are theirs alone,
    digits with leading zeros stay text, and so does whatever is quoted or tagged as a
    string (src/domain/yaml.rs:12-27, 194-283). */
module YamlScalars {
  import opened Json
  import opened Yaml

  /** The digit of that value, letters from ten on, in either case. */
  function Digit(n: nat, upper: bool): char
    requires n < 16
  {
    if n < 10 then '0' + n as char else if upper then 'A' + (n - 10) as char else 'a' + (n - 10) as char
  }

  function InRadix(n: nat, radix: nat, upper: bool): string
    requires 2 <= radix <= 16
  {
    if n < radix then [Digit(n, upper)] else InRadix(n / radix, radix, upper) + [Digit(n % radix, upper)]
  }

  datatype Sign = Plus | Minus | NoSign

  function SignText(sign: Sign): string {
    match sign case Plus => "+" case Minus => "-" case NoSign => ""
  }

  function PrefixText(radix: nat): string {
    if radix == 16 then "0x" else if radix == 8 then "0o" else if radix == 2 then "0b" else ""
  }

  /** A number as it is usually written, with the prefix of its radix. */
  function Printed(sign: Sign, n: nat, radix: nat, upper: bool): string
    requires radix in {2, 8, 10, 16}
  {
    SignText(sign) + (PrefixText(radix) + InRadix(n, radix, upper))
  }

  predicate AllDigits(text: string) {
    forall i | 0 <= i < |text| :: '0' <= text[i] <= '9'
  }

  lemma {:induction false} DigitReads(n: nat, upper: bool)
    requires n < 16
    ensures DigitValue(Digit(n, upper)) == n && Digit(n, upper) != '+' && Digit(n, upper) != '-'
    ensures n < 10 ==> '0' <= Digit(n, upper) <= '9'
    ensures Digit(n, upper) == '0' <==> n == 0
    ensures Digit(n, upper) != 'x' && Digit(n, upper) != 'o'
  {
  }

  lemma {:induction false} OneMoreDigit(text: string, c: char, radix: nat)
    ensures Magnitude(text + [c], radix) == Magnitude(text, radix) * radix + DigitValue(c)
  {
    assert (text + [c])[..|text|] == text;
  }

  lemma {:induction false} DigitsRead(n: nat, radix: nat, upper: bool)
    requires radix in {2, 8, 10, 16}
    ensures Magnitude(InRadix(n, radix, upper), radix) == n
  {
    hide Digit, DigitValue, Magnitude;
    QuotientAndRest(n, radix);
    DigitReads(n % radix, upper);
    if n >= radix {
      DigitsRead(n / radix, radix, upper);
      OneMoreDigit(InRadix(n / radix, radix, upper), Digit(n % radix, upper), radix);
    } else {
      OneMoreDigit("", Digit(n, upper), radix);
      NoDigits(radix);
      assert "" + [Digit(n, upper)] == [Digit(n, upper)];
    }
  }

  lemma {:induction false} NoDigits(radix: nat)
    ensures Magnitude("", radix) == 0
  {
  }

  lemma QuotientAndRest(n: nat, radix: nat)
    requires radix in {2, 8, 10, 16}
    ensures n / radix * radix + n % radix == n
  {
  }

  predicate Fits(text: string, radix: nat) {
    forall c | c in text :: DigitValue(c) < radix && c != '+' && c != '-' && (radix == 10 ==> '0' <= c <= '9')
  }

  lemma {:induction false} DigitsFit(n: nat, radix: nat, upper: bool)
    requires radix in {2, 8, 10, 16}
    ensures InRadix(n, radix, upper) != "" && Fits(InRadix(n, radix, upper), radix)
  {
    hide Digit, DigitValue;
    DigitReads(n % radix, upper);
    if n >= radix {
      DigitsFit(n / radix, radix, upper);
    }
  }

  lemma {:induction false} NoLeadingZero(n: nat, radix: nat, upper: bool)
    requires 2 <= radix <= 16
    ensures InRadix(n, radix, upper)[0] == '0' ==> |InRadix(n, radix, upper)| == 1
  {
    hide Digit;
    if n >= radix {
      NotZero(n / radix, radix, upper);
    }
  }

  lemma {:induction false} NotZero(n: nat, radix: nat, upper: bool)
    requires 2 <= radix <= 16 && n > 0
    ensures InRadix(n, radix, upper)[0] != '0'
  {
    if n >= radix {
      NotZero(n / radix, radix, upper);
    } else {
      DigitReads(n, upper);
    }
  }

  lemma DigitsHaveNoPrefix(digits: string)
    requires digits != "" && AllDigits(digits)
    ensures !Signed(digits)
    ensures !StartsWith(digits, "0x") && !StartsWith(digits, "0o") && !StartsWith(digits, "0b")
  {
    if |digits| > 1 {
      assert digits[1] != 'x' && digits[1] != 'o' && digits[1] != 'b';
      assert "0x"[1] == 'x' && "0o"[1] == 'o' && "0b"[1] == 'b';
    }
  }

  lemma {:induction false} FittingDigits(digits: string, radix: nat)
    requires digits != "" && Fits(digits, radix)
    ensures FromRadix(digits, radix) == if Magnitude(digits, radix) <= MAX_UNSIGNED then Some(Magnitude(digits, radix)) else None
    ensures !Signed(digits) && (radix == 10 ==> AllDigits(digits))
  {
    assert forall i | 0 <= i < |digits| :: digits[i] in digits;
  }

  lemma {:induction false} SignReads(sign: Sign, body: string)
    requires body != "" && !Signed(body)
    ensures var text := SignText(sign) + body;
            && (StartsWith(text, "-") <==> sign.Minus?)
            && (if Signed(text) then text[1..] else text) == body
  {
    var text := SignText(sign) + body;
    assert "-"[0] == '-' && "+"[0] == '+';
    assert sign == NoSign ==> text == body && text[0] == body[0];
    assert sign != NoSign ==> text[1..] == body && text[0] == SignText(sign)[0];
  }

  lemma {:induction false} PlainDigitsAreNumbers(sign: Sign, digits: string)
    requires digits != "" && !Signed(digits) && (digits[0] == '0' ==> |digits| == 1)
    ensures !DigitsButNotNumber(SignText(sign) + digits)
  {
    SignReads(sign, digits);
  }

  /** A sign or none, a radix prefix or none, and digits. */
  lemma {:induction false} SignedDigitsRead(sign: Sign, digits: string, radix: nat)
    requires radix in {2, 8, 10, 16} && digits != "" && Fits(digits, radix)
    requires digits[0] == '0' ==> |digits| == 1
    ensures IntOf(SignText(sign) + (PrefixText(radix) + digits)) ==
            if Magnitude(digits, radix) <= MAX_UNSIGNED then WithSign(sign.Minus?, Magnitude(digits, radix)) else None
  {
    hide Magnitude, FromRadix, Fits, DigitsButNotNumber, SignText, WithSign, AllDigits;
    var body := PrefixText(radix) + digits;
    FittingDigits(digits, radix);
    assert radix != 10 ==> body[0] == '0';
    if radix == 10 {
      DigitsHaveNoPrefix(digits);
      assert body == digits;
      PlainDigitsAreNumbers(sign, digits);
    } else {
      PrefixReads(radix, digits);
      assert body[2..] == digits;
    }
    SignReads(sign, body);
  }

  lemma PrefixReads(radix: nat, digits: string)
    requires radix in {2, 8, 16}
    ensures var body := PrefixText(radix) + digits;
            && (StartsWith(body, "0x") <==> radix == 16)
            && (StartsWith(body, "0o") <==> radix == 8)
            && (StartsWith(body, "0b") <==> radix == 2)
  {
    var body := PrefixText(radix) + digits;
    assert body[1] == PrefixText(radix)[1];
    assert "0x"[1] == 'x' && "0o"[1] == 'o' && "0b"[1] == 'b';
  }

  /** A whole number, in decimal or in a radix with its prefix, in either case and with
      either sign, reads as itself exactly when it fits 64 bits, unsigned above zero and
      signed below. */
  lemma {:induction false} IntegersReadBack(sign: Sign, n: nat, radix: nat, upper: bool)
    requires radix in {2, 8, 10, 16}
    ensures IntOf(Printed(sign, n, radix, upper)) ==
            if sign.Minus? then if n <= 0x8000_0000_0000_0000 then Some(0 - n) else None
            else if n <= 0xFFFF_FFFF_FFFF_FFFF then Some(n) else None
  {
    hide InRadix, Magnitude, Fits, IntOf;
    DigitsRead(n, radix, upper);
    DigitsFit(n, radix, upper);
    NoLeadingZero(n, radix, upper);
    SignedDigitsRead(sign, InRadix(n, radix, upper), radix);
  }

  // ----- words -----

  /** The three cases a word may be written in. */
  predicate NullText(text: string) {
    text == "" || text == "~" || text == "null" || text == "Null" || text == "NULL"
  }

  predicate BoolText(text: string, value: bool) {
    if value then text == "true" || text == "True" || text == "TRUE"
    else text == "false" || text == "False" || text == "FALSE"
  }

  /** An infinity or not a number, signed or not. */
  predicate NonFiniteText(text: string) {
    || text == ".inf" || text == ".Inf" || text == ".INF" || text == "+.inf" || text == "+.Inf" || text == "+.INF"
    || text == "-.inf" || text == "-.Inf" || text == "-.INF"
    || text == ".nan" || text == ".NaN" || text == ".NAN" || text == "+.nan" || text == "+.NaN" || text == "+.NAN"
  }

  /** Only a tag that says so makes a plain scalar a string; any other is dropped. */
  predicate TaggedStr(tag: Option<Tag>) {
    tag.Some? && tag.value.handle == "tag:yaml.org,2002:" && tag.value.suffix == "str"
  }

  /** A text without a digit is no whole number. */
  lemma {:induction false} WordsAreNoNumbers(text: string)
    requires NonFiniteText(text) || NullText(text) || BoolText(text, true) || BoolText(text, false)
    ensures IntOf(text) == None && !DigitsButNotNumber(text)
  {
    var digits := if Signed(text) then text[1..] else text;
    assert digits != "" ==> digits[0] != '0' && DigitValue(digits[0]) >= 10;
    assert digits != "" ==> digits[0] in digits;
    assert "0x"[0] == '0' && "0o"[0] == '0' && "0b"[0] == '0';
    assert !Signed(digits) by {
      if Signed(text) {
        assert digits[0] == '.';
      }
    }
  }

  lemma {:induction false} NonFiniteReads(finite: string -> Option<nat>, text: string)
    ensures FloatOf(finite, text) == Some(None) <==> NonFiniteText(text)
  {
    if StartsWith(text, "+") {
      PlusWord(text);
    } else {
      assert text != "" ==> text[0] != '+';
      NoPlus(text);
    }
  }

  lemma PlusWord(text: string)
    requires StartsWith(text, "+")
    ensures var rest := text[1..];
            NonFiniteText(text) <==> rest == ".inf" || rest == ".Inf" || rest == ".INF" || rest == ".nan" || rest == ".NaN" || rest == ".NAN"
    ensures !Signed(text[1..]) ==> text[1..] != "-.inf" && text[1..] != "-.Inf" && text[1..] != "-.INF"
  {
    var rest := text[1..];
    assert text == "+" + rest && text[0] == '+';
    assert "+.inf" == "+" + ".inf" && "+.Inf" == "+" + ".Inf" && "+.INF" == "+" + ".INF";
    assert "+.nan" == "+" + ".nan" && "+.NaN" == "+" + ".NaN" && "+.NAN" == "+" + ".NAN";
    assert "+.inf"[1..] == ".inf" && "+.Inf"[1..] == ".Inf" && "+.INF"[1..] == ".INF";
    assert "+.nan"[1..] == ".nan" && "+.NaN"[1..] == ".NaN" && "+.NAN"[1..] == ".NAN";
  }

  lemma NoPlus(text: string)
    requires text == "" || text[0] != '+'
    ensures text != "+.inf" && text != "+.Inf" && text != "+.INF" && text != "+.nan" && text != "+.NaN" && text != "+.NAN"
  {
  }

  /** A plain scalar is null exactly for a null word, nothing, or a number that JSON has
      not; a boolean exactly for that boolean's words. */
  lemma {:induction false} WordsReadAs(env: Env, text: string, tag: Option<Tag>)
    requires !TaggedStr(tag)
    ensures ScalarValue(env, text, Plain, tag) == Null <==> NullText(text) || NonFiniteText(text)
    ensures ScalarValue(env, text, Plain, tag) == Bool(true) <==> BoolText(text, true)
    ensures ScalarValue(env, text, Plain, tag) == Bool(false) <==> BoolText(text, false)
  {
    hide IntOf, FloatOf, DigitsButNotNumber;
    NonFiniteReads(env.finite, text);
    if NonFiniteText(text) || NullText(text) || BoolText(text, true) || BoolText(text, false) {
      WordsAreNoNumbers(text);
    }
    if NonFiniteText(text) {
      NonFiniteIsNoWord(text);
    }
  }

  lemma NonFiniteIsNoWord(text: string)
    requires NonFiniteText(text)
    ensures !NullText(text) && !BoolText(text, true) && !BoolText(text, false)
  {
    NonFiniteStarts(text);
    if NullText(text) || BoolText(text, true) || BoolText(text, false) {
      WordStarts(text);
    }
  }

  lemma NonFiniteStarts(text: string)
    requires NonFiniteText(text)
    ensures text != "" && (text[0] == '.' || text[0] == '+' || text[0] == '-')
  {
  }

  lemma WordStarts(text: string)
    requires NullText(text) || BoolText(text, true) || BoolText(text, false)
    ensures text == "" || (text[0] != '.' && text[0] != '+' && text[0] != '-')
  {
  }

  /** A quoted or block scalar, or one tagged as a string, is its text. */
  lemma QuotedIsText(env: Env, text: string, style: Style, tag: Option<Tag>)
    requires style == QuotedOrBlock || TaggedStr(tag)
    ensures ScalarValue(env, text, style, tag) == Str(text)
  {
  }

  /** Any other plain scalar is a whole number if it is one; if not, and it is no digits
      after a leading zero, the finite number that its text less a plus sign denotes, if
      it denotes one and has no second sign; and else its text. */
  lemma {:induction false} OtherScalarsReadAs(env: Env, text: string, tag: Option<Tag>)
    requires !TaggedStr(tag) && !NullText(text) && !NonFiniteText(text) && !BoolText(text, true) && !BoolText(text, false)
    ensures var bare := if text[0] == '+' then text[1..] else text;
            ScalarValue(env, text, Plain, tag) ==
              if IntOf(text).Some? then Num(Int(IntOf(text).value))
              else if DigitsButNotNumber(text) then Str(text)
              else if text[0] == '+' && bare != "" && (bare[0] == '+' || bare[0] == '-') then Str(text)
              else match env.finite(bare)
                   case Some(bits) => Num(Float(bits))
                   case None => Str(text)
  {
    hide IntOf, DigitsButNotNumber;
    NonFiniteReads(env.finite, text);
    assert StartsWith(text, "+") <==> text[0] == '+';
  }

  /** Digits after a leading zero, `007` or `-08001`, are text, whatever a float
      parser would make of them. */
  lemma LeadingZerosStayText(env: Env, text: string, style: Style, tag: Option<Tag>)
    requires DigitsButNotNumber(text)
    ensures LeafValue(env, text, style, tag) == Str(text)
  {
    var digits := if Signed(text) then text[1..] else text;
    assert AllDigits(digits) by {
      forall i | 0 <= i < |digits|
        ensures '0' <= digits[i] <= '9'
      {
        assert i > 0 ==> digits[i] in digits[1..] by {
          if i > 0 { assert digits[1..][i - 1] == digits[i]; }
        }
      }
    }
    DigitsHaveNoPrefix(digits);
    assert IntOf(text) == None;
    WordsHaveNoDigits(text, digits);
  }

  lemma WordsHaveNoDigits(text: string, digits: string)
    requires |digits| > 1 && AllDigits(digits) && |digits| <= |text| <= |digits| + 1
    requires text[|text| - 1] == digits[|digits| - 1]
    ensures text !in {"", "~", "null", "Null", "NULL", "true", "True", "TRUE", "false", "False", "FALSE"}
  {
    var last := text[|text| - 1];
    assert '0' <= last <= '9';
  }

  /** Which texts those are: a sign or none, a zero, and digits. */
  lemma {:induction false} LeadingZeroTexts(text: string)
    ensures DigitsButNotNumber(text) <==>
            exists sign, digits | digits != "" && AllDigits(digits) :: text == SignText(sign) + ("0" + digits)
  {
    if sign, digits :| digits != "" && AllDigits(digits) && text == SignText(sign) + ("0" + digits) {
      assert ("0" + digits)[0] == '0' && ("0" + digits)[1..] == digits;
      SignReads(sign, "0" + digits);
    }
    if DigitsButNotNumber(text) {
      var rest := if Signed(text) then text[1..] else text;
      var sign := if text[0] == '+' then Plus else if text[0] == '-' then Minus else NoSign;
      assert AllDigits(rest[1..]) by {
        forall i | 0 <= i < |rest[1..]|
          ensures '0' <= rest[1..][i] <= '9'
        {
          assert rest[1..][i] in rest[1..];
        }
      }
      assert rest == "0" + rest[1..];
      assert text == SignText(sign) + ("0" + rest[1..]);
    }
  }

  /** An encrypted value is refused, whatever its text; a scalar with any other tag is
      read, and costs one node. */
  lemma {:induction false} OnlyVaultsAreRefused(env: Env, s: State<Json>, text: string, style: Style, anchor: nat, tag: Option<Tag>, depth: nat)
    requires depth <= 128
    ensures var vault := tag.Some? && tag.value.suffix == "vault" && tag.value.handle != "tag:yaml.org,2002:";
            var r := ReadNode(env, s, Scalar(text, style, anchor, tag), depth);
            if vault then r == Err(Encrypted)
            else r.Ok? && r.value.value == LeafValue(env, text, style, tag) && r.value.size == 1
                 && r.value.after.pos == s.pos && r.value.after.copied == s.copied
  {
    hide LeafValue;
  }
}
