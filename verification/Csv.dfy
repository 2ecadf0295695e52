/** CSV output, and a reader for it (src/application/output.rs:376-446). The text of a
    structured JSON value is a parameter. */
module Csv {
  import opened Text
  import opened Json
  import opened VarPath

  // ----- printing -----

  /** A cell is quoted only when it has to be, and then its quotes are doubled. */
  function Field(raw: string): string {
    if ',' in raw || '"' in raw || '\n' in raw || '\r' in raw then ['"'] + Doubled(raw) + ['"'] else raw
  }

  function Doubled(raw: string): string {
    if raw == "" then ""
    else (if raw[0] == '"' then ['"', '"'] else [raw[0]]) + Doubled(raw[1..])
  }

  function Value(jsonText: Json -> string, value: Option<Json>): string {
    match value
    case None => ""
    case Some(Null) => ""
    case Some(Str(text)) => text
    case Some(other) => jsonText(other)
  }

  function Cells(row: seq<string>): string {
    if row == [] then ""
    else if |row| == 1 then Field(row[0])
    else Cells(row[..|row| - 1]) + [','] + Field(row[|row| - 1])
  }

  function Line(row: seq<string>): string {
    Cells(row) + ['\n']
  }

  function Written(rows: seq<seq<string>>): string {
    if rows == [] then "" else Written(rows[..|rows| - 1]) + Line(rows[|rows| - 1])
  }

  /** The host, then a cell for each column, which may be a dotted path. */
  function Row(jsonText: Json -> string, columns: seq<string>, host: string, vars: HostVars): (r: seq<string>)
    ensures |r| == 1 + |columns| && r[0] == host
    ensures forall k | 0 <= k < |columns| :: r[1 + k] == Value(jsonText, Lookup(vars, columns[k]))
  {
    [host] + seq(|columns|, k requires 0 <= k < |columns| => Value(jsonText, Lookup(vars, columns[k])))
  }

  ghost function Columns(fields: seq<string>, hostvars: map<string, HostVars>): seq<string> {
    if fields != [] then fields else Listing(set h, k | h in hostvars && k in hostvars[h] :: k)
  }

  ghost function HostRows(jsonText: Json -> string, columns: seq<string>, hostvars: map<string, HostVars>, hosts: seq<string>)
    : (rows: seq<seq<string>>)
    requires forall h | h in hosts :: h in hostvars
    ensures |rows| == |hosts|
    ensures forall i | 0 <= i < |hosts| :: rows[i] == Row(jsonText, columns, hosts[i], hostvars[hosts[i]])
  {
    seq(|hosts|, i requires 0 <= i < |hosts| => Row(jsonText, columns, hosts[i], hostvars[hosts[i]]))
  }

  /** The table to print: a header, and a row for each host, by name. */
  ghost function Table(jsonText: Json -> string, fields: seq<string>, hostvars: map<string, HostVars>): (table: seq<seq<string>>)
    ensures |table| == 1 + |Listing(hostvars.Keys)|
    ensures forall i | 0 <= i < |table| :: |table[i]| == 1 + |Columns(fields, hostvars)|
  {
    var columns := Columns(fields, hostvars);
    [["host"] + columns] + HostRows(jsonText, columns, hostvars, Listing(hostvars.Keys))
  }

  method WriteRow(first: string, rest: seq<string>) returns (out: string)
    ensures out == Line([first] + rest)
  {
    out := Field(first);
    for i := 0 to |rest|
      invariant out == Cells([first] + rest[..i])
    {
      assert ([first] + rest[..i + 1])[..i + 1] == [first] + rest[..i];
      out := out + [','] + Field(rest[i]);
    }
    assert rest[..|rest|] == rest;
    out := out + ['\n'];
  }

  method WriteHost(jsonText: Json -> string, columns: seq<string>, host: string, vars: HostVars) returns (out: string)
    ensures out == Line(Row(jsonText, columns, host, vars))
  {
    hide Line, Row;
    var row := Row(jsonText, columns, host, vars);
    assert row == [row[0]] + row[1..];
    out := WriteRow(row[0], row[1..]);
  }

  lemma WrittenOneMore(table: seq<seq<string>>, i: nat)
    requires i < |table|
    ensures Written(table[..i + 1]) == Written(table[..i]) + Line(table[i])
  {
    assert table[..i + 1][..i] == table[..i];
  }

  method RenderCsv(jsonText: Json -> string, fields: seq<string>, hostvars: map<string, HostVars>) returns (out: string)
    ensures out == Written(Table(jsonText, fields, hostvars))
  {
    hide Line, Row, Written, Ascending;
    var columns := fields;
    if columns == [] {
      columns := List(set h, k | h in hostvars && k in hostvars[h] :: k);
    }
    var hosts := List(hostvars.Keys);
    ghost var table := Table(jsonText, fields, hostvars);
    out := WriteRow("host", columns);
    WrittenHeader(table);
    for i := 0 to |hosts|
      invariant out == Written(table[..i + 1])
    {
      WrittenOneMore(table, i + 1);
      var line := WriteHost(jsonText, columns, hosts[i], hostvars[hosts[i]]);
      out := out + line;
    }
    assert table[..|hosts| + 1] == table;
  }

  lemma WrittenHeader(table: seq<seq<string>>)
    requires table != []
    ensures Written(table[..1]) == Line(table[0])
  {
    assert table[..1][..0] == [];
  }

  // ----- reading: section 2 of RFC 4180, with LF for a line break too -----

  /** Where the reader is: before a cell, in a bare one, in a quoted one, or after
      a quote inside a quoted one. */
  datatype Mode = AtStart | Bare | Quoted | AfterQuote

  /** The records of the text, given the cells of the current record, those before it,
      and the characters of the current cell. */
  function Scan(text: string, mode: Mode, cell: string, row: seq<string>, rows: seq<seq<string>>): Option<seq<seq<string>>>
    decreases |text|
  {
    if text == "" then
      if mode == Quoted then None
      else if mode == AtStart && row == [] then Some(rows)
      else Some(rows + [row + [cell]])
    else
      var c, rest := text[0], text[1..];
      if mode == Quoted then
        if c == '"' then Scan(rest, AfterQuote, cell, row, rows)
        else Scan(rest, Quoted, cell + [c], row, rows)
      else if c == '"' then
        if mode == AtStart then Scan(rest, Quoted, "", row, rows)
        else if mode == AfterQuote then Scan(rest, Quoted, cell + [c], row, rows)
        else None
      else if c == ',' then Scan(rest, AtStart, "", row + [cell], rows)
      else if c == '\n' then Scan(rest, AtStart, "", [], rows + [row + [cell]])
      else if c == '\r' then
        if rest != "" && rest[0] == '\n' then Scan(rest[1..], AtStart, "", [], rows + [row + [cell]]) else None
      else if mode == AfterQuote then None
      else Scan(rest, Bare, cell + [c], row, rows)
  }

  function Records(text: string): Option<seq<seq<string>>> {
    Scan(text, AtStart, "", [], [])
  }

  // ----- what is printed reads back -----

  predicate Plain(raw: string) {
    ',' !in raw && '"' !in raw && '\n' !in raw && '\r' !in raw
  }

  lemma {:induction false} BareReads(raw: string, mode: Mode, cell: string, text: string, row: seq<string>, rows: seq<seq<string>>)
    requires Plain(raw) && raw != "" && (mode == AtStart || mode == Bare)
    ensures Scan(raw + text, mode, cell, row, rows) == Scan(text, Bare, cell + raw, row, rows)
    decreases |raw|
  {
    assert (raw + text)[1..] == raw[1..] + text;
    assert raw[0] in raw;
    if |raw| == 1 {
      assert raw[1..] + text == text && cell + [raw[0]] == cell + raw;
    } else {
      forall c | c in raw[1..]
        ensures c in raw
      {
      }
      BareReads(raw[1..], Bare, cell + [raw[0]], text, row, rows);
      assert cell + [raw[0]] + raw[1..] == cell + raw;
    }
  }

  lemma {:induction false} QuotedReads(raw: string, cell: string, text: string, row: seq<string>, rows: seq<seq<string>>)
    ensures Scan(Doubled(raw) + ['"'] + text, Quoted, cell, row, rows) == Scan(text, AfterQuote, cell + raw, row, rows)
  {
    var whole := Doubled(raw) + ['"'] + text;
    if raw == "" {
      assert whole[1..] == text && cell + raw == cell;
    } else {
      var more := Doubled(raw[1..]) + ['"'] + text;
      QuotedReads(raw[1..], cell + [raw[0]], text, row, rows);
      assert cell + [raw[0]] + raw[1..] == cell + raw;
      if raw[0] == '"' {
        assert whole[1..] == ['"'] + more && whole[1..][1..] == more;
      } else {
        assert whole[1..] == more;
      }
    }
  }

  lemma EndReads(end: char, text: string, mode: Mode, cell: string, row: seq<string>, rows: seq<seq<string>>)
    requires (end == ',' || end == '\n') && mode != Quoted
    ensures Scan([end] + text, mode, cell, row, rows) ==
            if end == ',' then Scan(text, AtStart, "", row + [cell], rows)
            else Scan(text, AtStart, "", [], rows + [row + [cell]])
  {
    assert ([end] + text)[1..] == text;
  }

  lemma QuoteOpens(text: string, row: seq<string>, rows: seq<seq<string>>)
    ensures Scan(['"'] + text, AtStart, "", row, rows) == Scan(text, Quoted, "", row, rows)
  {
    assert (['"'] + text)[1..] == text;
  }

  /** A printed cell, with what ends it, reads as the cell. */
  lemma FieldReads(raw: string, end: char, text: string, row: seq<string>, rows: seq<seq<string>>)
    requires end == ',' || end == '\n'
    ensures Scan(Field(raw) + [end] + text, AtStart, "", row, rows) ==
            if end == ',' then Scan(text, AtStart, "", row + [raw], rows)
            else Scan(text, AtStart, "", [], rows + [row + [raw]])
  {
    hide Scan;
    var after := [end] + text;
    assert Field(raw) + [end] + text == Field(raw) + after;
    assert "" + raw == raw;
    if Plain(raw) {
      if raw == "" {
        assert raw + after == after;
        EndReads(end, text, AtStart, raw, row, rows);
      } else {
        BareReads(raw, AtStart, "", after, row, rows);
        EndReads(end, text, Bare, raw, row, rows);
      }
    } else {
      assert Field(raw) + after == ['"'] + (Doubled(raw) + ['"'] + after);
      QuoteOpens(Doubled(raw) + ['"'] + after, row, rows);
      QuotedReads(raw, "", after, row, rows);
      EndReads(end, text, AfterQuote, raw, row, rows);
    }
  }

  lemma {:induction false} OneCell(cells: seq<string>)
    requires |cells| == 1
    ensures Cells(cells) == Field(cells[0])
  {
  }

  lemma {:induction false} LastCellApart(cells: seq<string>, end: char, text: string)
    requires |cells| > 1
    ensures var n := |cells| - 1;
            Cells(cells) + [end] + text == Cells(cells[..n]) + [','] + (Field(cells[n]) + [end] + text)
  {
    hide Field;
  }

  lemma {:induction false} CellsRead(cells: seq<string>, end: char, text: string, row: seq<string>, rows: seq<seq<string>>)
    requires cells != [] && (end == ',' || end == '\n')
    ensures Scan(Cells(cells) + [end] + text, AtStart, "", row, rows) ==
            if end == ',' then Scan(text, AtStart, "", row + cells, rows)
            else Scan(text, AtStart, "", [], rows + [row + cells])
  {
    hide Scan, Field, Cells;
    if |cells| == 1 {
      OneCell(cells);
      FieldReads(cells[0], end, text, row, rows);
      assert [cells[0]] == cells;
    } else {
      var n := |cells| - 1;
      var later := Field(cells[n]) + [end] + text;
      LastCellApart(cells, end, text);
      CellsRead(cells[..n], ',', later, row, rows);
      FieldReads(cells[n], end, text, row + cells[..n], rows);
      assert row + cells[..n] + [cells[n]] == row + cells;
    }
  }

  lemma {:induction false} RowsRead(table: seq<seq<string>>, text: string, rows: seq<seq<string>>)
    requires forall i | 0 <= i < |table| :: table[i] != []
    ensures Scan(Written(table) + text, AtStart, "", [], rows) == Scan(text, AtStart, "", [], rows + table)
  {
    hide Scan;
    if table == [] {
      assert Written(table) + text == text && rows + table == rows;
    } else {
      var n := |table| - 1;
      var later := Line(table[n]) + text;
      assert Written(table) + text == Written(table[..n]) + later;
      RowsRead(table[..n], later, rows);
      assert later == Cells(table[n]) + ['\n'] + text;
      CellsRead(table[n], '\n', text, [], rows + table[..n]);
      assert [] + table[n] == table[n] && rows + table[..n] + [table[n]] == rows + table;
    }
  }

  /** Any table of strings with a cell in every row reads back as it was. */
  lemma {:induction false} TableReadsBack(table: seq<seq<string>>)
    requires forall i | 0 <= i < |table| :: table[i] != []
    ensures Records(Written(table)) == Some(table)
  {
    RowsRead(table, "", []);
    assert Written(table) + "" == Written(table) && [] + table == table;
  }

  /** The output of any hosts reads back as the header and the rows, every record with
      one more cell than there are columns. */
  lemma CsvReadsBack(jsonText: Json -> string, fields: seq<string>, hostvars: map<string, HostVars>)
    ensures Records(Written(Table(jsonText, fields, hostvars))) == Some(Table(jsonText, fields, hostvars))
    ensures forall i | 0 <= i < |Table(jsonText, fields, hostvars)| ::
              |Table(jsonText, fields, hostvars)[i]| == 1 + |Columns(fields, hostvars)|
  {
    hide Row, Records, Written, Table, Columns, Ascending;
    TableReadsBack(Table(jsonText, fields, hostvars));
  }

  /** A cell is quoted only if it has to be. */
  lemma QuotedOnlyIfNeeded(raw: string)
    ensures Field(raw) == raw <==> Plain(raw)
  {
    if !Plain(raw) {
      LongerWhenDoubled(raw);
    }
  }

  lemma {:induction false} LongerWhenDoubled(raw: string)
    ensures |Doubled(raw)| >= |raw|
  {
    if raw != "" {
      LongerWhenDoubled(raw[1..]);
    }
  }

  /** What the table shows: a header of `host` and the columns, then for each host, by
      name, its name and its values in those columns. See CellShows for a value. */
  lemma {:induction false} TableShows(jsonText: Json -> string, fields: seq<string>, hostvars: map<string, HostVars>, i: nat)
    requires i < |Listing(hostvars.Keys)|
    ensures var table, host := Table(jsonText, fields, hostvars), Listing(hostvars.Keys)[i];
            && table[0] == ["host"] + Columns(fields, hostvars)
            && host in hostvars
            && table[1 + i] == [host] + Cellular(jsonText, Columns(fields, hostvars), hostvars[host])
  {
    hide Ascending, Listing;
    assert Listing(hostvars.Keys)[i] in Listing(hostvars.Keys);
    CellularRow(jsonText, Columns(fields, hostvars), Listing(hostvars.Keys)[i], hostvars[Listing(hostvars.Keys)[i]]);
  }

  /** A host's cells, column by column. */
  function Cellular(jsonText: Json -> string, columns: seq<string>, vars: HostVars): seq<string> {
    if columns == [] then []
    else [Value(jsonText, Lookup(vars, columns[0]))] + Cellular(jsonText, columns[1..], vars)
  }

  lemma {:induction false} CellularAt(jsonText: Json -> string, columns: seq<string>, vars: HostVars, k: nat)
    requires k < |columns|
    ensures |Cellular(jsonText, columns, vars)| == |columns|
    ensures Cellular(jsonText, columns, vars)[k] == Value(jsonText, Lookup(vars, columns[k]))
  {
    hide Value, Lookup;
    if |columns| > 1 {
      CellularAt(jsonText, columns[1..], vars, if k == 0 then 0 else k - 1);
    }
  }

  lemma {:induction false} CellularRow(jsonText: Json -> string, columns: seq<string>, host: string, vars: HostVars)
    ensures Row(jsonText, columns, host, vars) == [host] + Cellular(jsonText, columns, vars)
  {
    hide Value, Lookup, Cellular, Row;
    var row, cells := Row(jsonText, columns, host, vars), Cellular(jsonText, columns, vars);
    NoCells(jsonText, vars);
    if columns != [] {
      CellularAt(jsonText, columns, vars, 0);
    }
    forall k | 0 <= k < |columns|
      ensures row[1 + k] == cells[k]
    {
      CellularAt(jsonText, columns, vars, k);
    }
    assert row == [host] + cells;
  }

  lemma {:induction false} NoCells(jsonText: Json -> string, vars: HostVars)
    ensures Cellular(jsonText, [], vars) == []
  {
  }

  lemma {:induction false} CellShows(jsonText: Json -> string, value: Option<Json>)
    ensures (value == None || value == Some(Null)) ==> Value(jsonText, value) == ""
    ensures value.Some? && value.value.Str? ==> Value(jsonText, value) == value.value.text
    ensures value.Some? && !value.value.Null? && !value.value.Str? ==> Value(jsonText, value) == jsonText(value.value)
  {
  }

  /** The columns: the fields asked for, in their order; else every variable of every host,
      sorted, each once. */
  lemma {:induction false} WhichColumns(fields: seq<string>, hostvars: map<string, HostVars>, key: string)
    ensures fields != [] ==> Columns(fields, hostvars) == fields
    ensures fields == [] ==>
              Ascending(Columns(fields, hostvars))
              && (key in Columns(fields, hostvars) <==> exists h | h in hostvars :: key in hostvars[h])
  {
    if key in Columns([], hostvars) {
      var h, k :| h in hostvars && k in hostvars[h] && k == key;
    }
  }
}
