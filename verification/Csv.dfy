/** The product import's CSV scanner, and the printer of section 2 of RFC 4180 that it inverts. */
module Csv {
  import opened Prelude

  type Row = seq<string>

  /** Where the scan stands: finished rows, fields of the current row, the current field, inside quotes or not. */
  datatype State = State(rows: seq<Row>, row: Row, field: string, quoted: bool)

  const START := State([], [], "", false)

  function StripCr(field: string): string {
    if field != "" && field[|field| - 1] == '\r' then field[..|field| - 1] else field
  }

  function EndRow(s: State): State { State(s.rows + [s.row + [StripCr(s.field)]], [], "", false) }

  function Put(s: State, c: char): State { s.(field := s.field + [c]) }

  predicate EscapedQuote(input: string, s: State) {
    s.quoted && |input| > 1 && input[0] == '"' && input[1] == '"'
  }

  /** How many characters one turn of the loop consumes. */
  function Width(input: string, s: State): nat { if EscapedQuote(input, s) then 2 else 1 }

  function Turn(input: string, s: State): State
    requires input != ""
  {
    var c := input[0];
    if s.quoted then
      if c == '"' && !EscapedQuote(input, s) then s.(quoted := false) else Put(s, c)
    else if c == '"' && s.field == "" then s.(quoted := true)
    else if c == ',' then s.(row := s.row + [s.field], field := "")
    else if c == '\n' then EndRow(s)
    else Put(s, c)
  }

  function Scan(input: string, s: State): State
    decreases |input|
  {
    if input == "" then s else Scan(input[Width(input, s)..], Turn(input, s))
  }

  /** The rows read, or None for an unterminated quoted field. */
  function Rows(end: State): Option<seq<Row>> {
    if end.quoted then None
    else if end.field != "" || end.row != [] then Some(EndRow(end).rows)
    else Some(end.rows)
  }

  method CsvRecords(input: string) returns (records: Option<seq<Row>>)
    ensures records == Rows(Scan(input, START))
  {
    var rows, row, field, quoted := [], [], "", false;
    var i := 0;
    while i < |input|
      invariant 0 <= i <= |input|
      invariant Scan(input[i..], State(rows, row, field, quoted)) == Scan(input, START)
    {
      var c := input[i];
      assert input[i..][0] == c && input[i..][1..] == input[i + 1..];
      if quoted {
        if c == '"' && i + 1 < |input| && input[i + 1] == '"' {
          assert input[i..][2..] == input[i + 2..];
          field := field + "\"";
          i := i + 1;
        } else if c == '"' {
          quoted := false;
        } else {
          field := field + [c];
        }
      } else if c == '"' && |field| == 0 {
        quoted := true;
      } else if c == ',' {
        row, field := row + [field], "";
      } else if c == '\n' {
        row := row + [StripCr(field)];
        rows, row, field := rows + [row], [], "";
      } else {
        field := field + [c];
      }
      i := i + 1;
    }
    if quoted { return None; }
    if |field| > 0 || |row| > 0 {
      row := row + [StripCr(field)];
      rows := rows + [row];
    }
    records := Some(rows);
  }

  // ---------- printing ----------

  datatype Cell = Raw(text: string) | Quoted(text: string)

  /** A raw field may not hold a comma or a line feed, nor begin with a quote. */
  predicate Printable(c: Cell) {
    c.Raw? ==> ',' !in c.text && '\n' !in c.text && (c.text != "" ==> c.text[0] != '"')
  }

  function EscapeChar(c: char): string { if c == '"' then "\"\"" else [c] }

  function Escape(text: string): string { if text == "" then "" else EscapeChar(text[0]) + Escape(text[1..]) }

  function PrintCell(c: Cell): string {
    if c.Raw? then c.text else "\"" + Escape(c.text) + "\""
  }

  function PrintRecord(cells: seq<Cell>): string
    requires |cells| > 0
  {
    if |cells| == 1 then PrintCell(cells[0]) else PrintCell(cells[0]) + "," + PrintRecord(cells[1..])
  }

  /** A record with its line end: CRLF, or a bare line feed. */
  datatype Line = Line(cells: seq<Cell>, crlf: bool)

  predicate PrintableLine(l: Line) { |l.cells| > 0 && forall i :: 0 <= i < |l.cells| ==> Printable(l.cells[i]) }

  function LineEnd(l: Line): string { if l.crlf then "\r\n" else "\n" }

  function Print(lines: seq<Line>): string
    requires forall i :: 0 <= i < |lines| ==> PrintableLine(lines[i])
  {
    if lines == [] then ""
    else
      assert PrintableLine(lines[0]);
      PrintRecord(lines[0].cells) + LineEnd(lines[0]) + Print(lines[1..])
  }

  function Texts(cells: seq<Cell>): (r: Row)
    ensures |r| == |cells| && forall i :: 0 <= i < |cells| ==> r[i] == cells[i].text
  {
    seq(|cells|, i requires 0 <= i < |cells| => cells[i].text)
  }

  function Last(row: Row): string
    requires |row| > 0
  {
    row[|row| - 1]
  }

  predicate EndsInCr(field: string) { field != "" && field[|field| - 1] == '\r' }

  function StripLast(row: Row): Row
    requires |row| > 0
  {
    row[..|row| - 1] + [StripCr(Last(row))]
  }

  /** What the scanner reads from a printed line. */
  function Read(l: Line): Row
    requires |l.cells| > 0
  {
    if l.crlf then Texts(l.cells) else StripLast(Texts(l.cells))
  }

  function ReadAll(lines: seq<Line>): seq<Row>
    requires forall i :: 0 <= i < |lines| ==> PrintableLine(lines[i])
  {
    if lines == [] then []
    else
      assert PrintableLine(lines[0]);
      [Read(lines[0])] + ReadAll(lines[1..])
  }

  function Records(lines: seq<Line>): (r: seq<Row>)
    ensures |r| == |lines| && forall i :: 0 <= i < |lines| ==> r[i] == Texts(lines[i].cells)
  {
    seq(|lines|, i requires 0 <= i < |lines| => Texts(lines[i].cells))
  }

  // ---------- scanning what was printed ----------

  lemma Assoc(a: string, b: string, c: string)
    ensures a + b + c == a + (b + c)
  {}

  lemma ScanOne(head: string, tail: string, s: State)
    requires head != "" && |head| == Width(head + tail, s)
    ensures Scan(head + tail, s) == Scan(tail, Turn(head + tail, s))
  {
    assert (head + tail)[|head|..] == tail;
  }

  lemma PutFirst(s: State, text: string)
    requires text != ""
    ensures Put(s, text[0]).field + text[1..] == s.field + text
  {}

  lemma ScanClosingQuote(rest: string, s: State)
    requires s.quoted && (rest != "" ==> rest[0] != '"')
    ensures Scan("" + ("\"" + rest), s) == Scan(rest, s.(quoted := false))
  {
    assert "" + ("\"" + rest) == "\"" + rest;
    ScanOne("\"", rest, s);
  }

  lemma ScanEscapedChar(c: char, tail: string, s: State)
    requires s.quoted
    ensures Scan(EscapeChar(c) + tail, s) == Scan(tail, Put(s, c))
  {
    ScanOne(EscapeChar(c), tail, s);
  }

  lemma {:induction false} ScanEscaped(text: string, rest: string, s: State)
    requires s.quoted && (rest != "" ==> rest[0] != '"')
    ensures Scan(Escape(text) + ("\"" + rest), s) == Scan(rest, s.(field := s.field + text, quoted := false))
    decreases |text|
  {
    if text == "" {
      ScanClosingQuote(rest, s);
      assert s.field + text == s.field;
    } else {
      var tail := Escape(text[1..]) + ("\"" + rest);
      Assoc(EscapeChar(text[0]), Escape(text[1..]), "\"" + rest);
      ScanEscapedChar(text[0], tail, s);
      ScanEscaped(text[1..], rest, Put(s, text[0]));
      PutFirst(s, text);
    }
  }

  lemma {:induction false} ScanRaw(text: string, rest: string, s: State)
    requires !s.quoted && ',' !in text && '\n' !in text
    requires s.field == "" && text != "" ==> text[0] != '"'
    ensures Scan(text + rest, s) == Scan(rest, s.(field := s.field + text))
    decreases |text|
  {
    if text == "" {
      assert text + rest == rest && s.field + text == s.field;
    } else {
      assert text + rest == [text[0]] + (text[1..] + rest);
      ScanOne([text[0]], text[1..] + rest, s);
      ScanRaw(text[1..], rest, Put(s, text[0]));
      PutFirst(s, text);
    }
  }

  /** A printed field is read back whole, whatever separator follows it. */
  lemma ScanCell(c: Cell, rest: string, s: State)
    requires Printable(c) && !s.quoted && s.field == "" && (rest != "" ==> rest[0] != '"')
    ensures Scan(PrintCell(c) + rest, s) == Scan(rest, s.(field := c.text))
  {
    if c.Raw? {
      ScanRaw(c.text, rest, s);
      assert s.field + c.text == c.text;
    } else {
      var body := Escape(c.text) + ("\"" + rest);
      assert PrintCell(c) + rest == "\"" + body;
      ScanOne("\"", body, s);
      ScanEscaped(c.text, rest, s.(quoted := true));
      assert s.field + c.text == c.text;
    }
  }

  lemma ScanCellAndComma(c: Cell, rest: string, s: State)
    requires Printable(c) && !s.quoted && s.field == ""
    ensures Scan(PrintCell(c) + "," + rest, s) == Scan(rest, s.(row := s.row + [c.text]))
  {
    assert PrintCell(c) + "," + rest == PrintCell(c) + ("," + rest);
    ScanCell(c, "," + rest, s);
    ScanOne(",", rest, s.(field := c.text));
  }

  lemma PrintMore(cells: seq<Cell>, rest: string)
    requires |cells| > 1
    ensures PrintRecord(cells) + rest == PrintCell(cells[0]) + "," + (PrintRecord(cells[1..]) + rest)
  {
    Assoc(PrintCell(cells[0]) + ",", PrintRecord(cells[1..]), rest);
  }

  /** A record leaves all but its last field in the row, and the last in the field. */
  function AfterCells(s: State, cells: seq<Cell>): State
    requires |cells| > 0
  {
    s.(row := s.row + Texts(cells)[..|cells| - 1], field := cells[|cells| - 1].text)
  }

  lemma AfterMore(s: State, cells: seq<Cell>)
    requires |cells| > 1
    ensures AfterCells(s.(row := s.row + [cells[0].text]), cells[1..]) == AfterCells(s, cells)
  {
    var n := |cells| - 1;
    assert s.row + [cells[0].text] + Texts(cells[1..])[..n - 1] == s.row + Texts(cells)[..n];
  }

  lemma {:induction false} ScanRecord(cells: seq<Cell>, rest: string, s: State)
    requires |cells| > 0 && (forall i :: 0 <= i < |cells| ==> Printable(cells[i]))
    requires !s.quoted && s.field == "" && (rest != "" ==> rest[0] != '"')
    ensures Scan(PrintRecord(cells) + rest, s) == Scan(rest, AfterCells(s, cells))
    decreases |cells|
  {
    if |cells| == 1 {
      ScanCell(cells[0], rest, s);
      assert s.row + Texts(cells)[..0] == s.row;
    } else {
      PrintMore(cells, rest);
      ScanCellAndComma(cells[0], PrintRecord(cells[1..]) + rest, s);
      ScanRecord(cells[1..], rest, s.(row := s.row + [cells[0].text]));
      AfterMore(s, cells);
    }
  }

  lemma StripAfterCr(field: string)
    ensures StripCr(field + "\r") == field
  {
    assert (field + "\r")[..|field|] == field;
  }

  lemma ScanLineEnd(l: Line, rest: string, s: State)
    requires !s.quoted
    ensures Scan(LineEnd(l) + rest, s) == Scan(rest, EndRow(if l.crlf then Put(s, '\r') else s))
  {
    if l.crlf {
      assert LineEnd(l) + rest == "\r" + ("\n" + rest);
      ScanOne("\r", "\n" + rest, s);
      ScanOne("\n", rest, Put(s, '\r'));
    } else {
      ScanOne("\n", rest, s);
    }
  }

  lemma EndRowReads(l: Line, rows: seq<Row>)
    requires |l.cells| > 0
    ensures var row := Texts(l.cells);
            var s := State(rows, row[..|row| - 1], Last(row), false);
            EndRow(if l.crlf then Put(s, '\r') else s) == State(rows + [Read(l)], [], "", false)
  {
    var row := Texts(l.cells);
    StripAfterCr(Last(row));
    assert row[..|row| - 1] + [Last(row)] == row;
  }

  lemma ScanFirstRecord(cells: seq<Cell>, rest: string, rows: seq<Row>)
    requires |cells| > 0 && (forall i :: 0 <= i < |cells| ==> Printable(cells[i])) && (rest != "" ==> rest[0] != '"')
    ensures var row := Texts(cells);
            Scan(PrintRecord(cells) + rest, State(rows, [], "", false)) ==
                Scan(rest, State(rows, row[..|row| - 1], Last(row), false))
  {
    var row := Texts(cells);
    ScanRecord(cells, rest, State(rows, [], "", false));
    assert [] + row[..|row| - 1] == row[..|row| - 1];
  }

  lemma ScanLine(l: Line, rest: string, rows: seq<Row>)
    requires PrintableLine(l)
    ensures Scan(PrintRecord(l.cells) + LineEnd(l) + rest, State(rows, [], "", false)) ==
              Scan(rest, State(rows + [Read(l)], [], "", false))
  {
    var row := Texts(l.cells);
    Assoc(PrintRecord(l.cells), LineEnd(l), rest);
    ScanFirstRecord(l.cells, LineEnd(l) + rest, rows);
    ScanLineEnd(l, rest, State(rows, row[..|row| - 1], Last(row), false));
    EndRowReads(l, rows);
  }

  lemma {:induction false} ScanLines(lines: seq<Line>, rest: string, rows: seq<Row>)
    requires forall i :: 0 <= i < |lines| ==> PrintableLine(lines[i])
    ensures Scan(Print(lines) + rest, State(rows, [], "", false)) ==
              Scan(rest, State(rows + ReadAll(lines), [], "", false))
    decreases |lines|
  {
    if lines == [] {
      assert Print(lines) + rest == rest && rows + ReadAll(lines) == rows;
    } else {
      var more := Print(lines[1..]) + rest;
      assert Print(lines) + rest == PrintRecord(lines[0].cells) + LineEnd(lines[0]) + more;
      ScanLine(lines[0], more, rows);
      ScanLines(lines[1..], rest, rows + [Read(lines[0])]);
      assert rows + [Read(lines[0])] + ReadAll(lines[1..]) == rows + ReadAll(lines);
    }
  }

  lemma {:induction false} ReadAllAt(lines: seq<Line>)
    requires forall i :: 0 <= i < |lines| ==> PrintableLine(lines[i])
    ensures |ReadAll(lines)| == |lines| && forall i :: 0 <= i < |lines| ==> ReadAll(lines)[i] == Read(lines[i])
    decreases |lines|
  {
    if lines != [] { ReadAllAt(lines[1..]); }
  }

  /** A bare line feed takes a carriage return before it for its own. */
  predicate Kept(l: Line)
    requires |l.cells| > 0
  {
    l.crlf || !EndsInCr(Last(Texts(l.cells)))
  }

  lemma ReadWholeIff(l: Line)
    requires |l.cells| > 0
    ensures Read(l) == Texts(l.cells) <==> Kept(l)
  {
    var row := Texts(l.cells);
    assert row == row[..|row| - 1] + [Last(row)];
    assert Last(StripLast(row)) == StripCr(Last(row));
  }

  lemma ReadAllIff(lines: seq<Line>)
    requires forall i :: 0 <= i < |lines| ==> PrintableLine(lines[i])
    ensures ReadAll(lines) == Records(lines) <==> forall i :: 0 <= i < |lines| ==> Kept(lines[i])
  {
    ReadAllAt(lines);
    forall i | 0 <= i < |lines| ensures Read(lines[i]) == Texts(lines[i].cells) <==> Kept(lines[i]) {
      ReadWholeIff(lines[i]);
    }
    if !(forall i :: 0 <= i < |lines| ==> Kept(lines[i])) {
      var i :| 0 <= i < |lines| && !Kept(lines[i]);
      assert ReadAll(lines)[i] != Records(lines)[i];
    }
  }

  lemma ScanWhole(lines: seq<Line>)
    requires forall i :: 0 <= i < |lines| ==> PrintableLine(lines[i])
    ensures Rows(Scan(Print(lines), START)) == Some(ReadAll(lines))
  {
    assert Print(lines) + "" == Print(lines) && [] + ReadAll(lines) == ReadAll(lines);
    ScanLines(lines, "", []);
  }

  /** Printing and scanning gives the records back exactly when no record that ends in a bare line feed has a
      last field ending in a carriage return; with CRLF line ends, always. */
  lemma RoundTripIff(lines: seq<Line>)
    requires forall i :: 0 <= i < |lines| ==> PrintableLine(lines[i])
    ensures Rows(Scan(Print(lines), START)) == Some(Records(lines)) <==> forall i :: 0 <= i < |lines| ==> Kept(lines[i])
  {
    ScanWhole(lines);
    ReadAllIff(lines);
  }

  lemma ScanUnended(lines: seq<Line>, last: seq<Cell>)
    requires forall i :: 0 <= i < |lines| ==> PrintableLine(lines[i])
    requires PrintableLine(Line(last, false))
    ensures var row := Texts(last);
            Scan(Print(lines) + PrintRecord(last), START) == State(ReadAll(lines), row[..|row| - 1], Last(row), false)
  {
    ScanFirstRecord(last, "", ReadAll(lines));
    assert PrintRecord(last) + "" == PrintRecord(last);
    ScanLines(lines, PrintRecord(last), []);
    assert [] + ReadAll(lines) == ReadAll(lines);
  }

  lemma RowsOfUnended(before: seq<Row>, row: Row)
    requires |row| > 0
    ensures Rows(State(before, row[..|row| - 1], Last(row), false)) ==
              Some(if row == [""] then before else before + [StripLast(row)])
  {
    assert row == row[..|row| - 1] + [Last(row)];
  }

  lemma AppendedIff(before: seq<Row>, read: Row, row: Row)
    ensures before + [read] == before + [row] <==> read == row
    ensures before != before + [row]
  {
    assert (before + [read])[|before|] == read && (before + [row])[|before|] == row;
    assert |before| != |before + [row]|;
  }

  /** A last record without a line end is read back exactly when it is not a single empty field, which leaves
      no trace, and its last field does not end in a carriage return, which is taken for half a line end. */
  lemma UnendedRoundTripIff(lines: seq<Line>, last: seq<Cell>)
    requires forall i :: 0 <= i < |lines| ==> PrintableLine(lines[i])
    requires PrintableLine(Line(last, false))
    ensures var row := Texts(last);
            Rows(Scan(Print(lines) + PrintRecord(last), START)) == Some(ReadAll(lines) + [row]) <==>
              row != [""] && Kept(Line(last, false))
  {
    var l := Line(last, false);
    ScanUnended(lines, last);
    RowsOfUnended(ReadAll(lines), Texts(last));
    AppendedIff(ReadAll(lines), Read(l), Texts(last));
    ReadWholeIff(l);
  }

  lemma {:induction false} ScanOpen(text: string, s: State)
    requires s.quoted
    ensures Scan(Escape(text), s) == s.(field := s.field + text)
    decreases |text|
  {
    if text == "" {
      assert s.field + text == s.field;
    } else {
      ScanEscapedChar(text[0], Escape(text[1..]), s);
      ScanOpen(text[1..], Put(s, text[0]));
      PutFirst(s, text);
    }
  }

  /** After any records, a quoted field that is never closed is refused, whatever it holds. */
  lemma UnclosedIsRefused(lines: seq<Line>, text: string)
    requires forall i :: 0 <= i < |lines| ==> PrintableLine(lines[i])
    ensures Rows(Scan(Print(lines) + ("\"" + Escape(text)), START)) == None
  {
    var s := State(ReadAll(lines), [], "", false);
    ScanLines(lines, "\"" + Escape(text), []);
    assert [] + ReadAll(lines) == ReadAll(lines);
    ScanOne("\"", Escape(text), s);
    ScanOpen(text, s.(quoted := true));
  }

  // ---------- what is not read back ----------

  /** A field that ends in a carriage return, quoted or not, loses it before a bare line feed. */
  lemma CarriageReturnLost(quoted: bool)
    ensures var cell := if quoted then Quoted("a\r") else Raw("a\r");
            && PrintableLine(Line([cell], false)) && Records([Line([cell], false)]) == [["a\r"]]
            && Rows(Scan(Print([Line([cell], false)]), START)) == Some([["a"]])
  {
    var l := Line([if quoted then Quoted("a\r") else Raw("a\r")], false);
    assert Texts(l.cells) == ["a\r"] && "a\r"[..1] == "a";
    assert Read(l) == ["a"];
    ScanWhole([l]);
    assert ReadAll([l]) == [Read(l)] + ReadAll([]) == [["a"]];
    assert Records([l]) == [["a\r"]];
  }

  /** And at the end of the input. */
  lemma LastCarriageReturnLost()
    ensures Rows(Scan(PrintRecord([Quoted("a\r")]), START)) == Some([["a"]])
  {
    var cells := [Quoted("a\r")];
    assert Texts(cells) == ["a\r"] && "a\r"[..1] == "a";
    ScanUnended([], cells);
    assert Print([]) + PrintRecord(cells) == PrintRecord(cells);
    RowsOfUnended([], Texts(cells));
    assert StripLast(["a\r"]) == ["a"] && [] + [["a"]] == [["a"]];
  }

  /** A last record of one empty field, quoted or not, leaves no row. */
  lemma EmptyRecordLost(quoted: bool)
    ensures Rows(Scan(PrintRecord([if quoted then Quoted("") else Raw("")]), START)) == Some([])
  {
    var cells := [if quoted then Quoted("") else Raw("")];
    assert Texts(cells) == [""];
    ScanUnended([], cells);
    assert Print([]) + PrintRecord(cells) == PrintRecord(cells);
    RowsOfUnended([], Texts(cells));
  }
}
