/** The CSV reader of the list loaders, and that it reads back everything RFC 4180 can print. */
module Csv {

  type Row = seq<string>

  datatype State = State(rows: seq<Row>, row: Row, field: string, inQuotes: bool, sawAny: bool)

  // ---------------------------------------------------------------------
  // The reader
  // ---------------------------------------------------------------------

  function AtRowStart(rows: seq<Row>): State {
    State(rows, [], "", false, false)
  }

  /** The rows once the current line is over: a line without a field character is no row. */
  function Finish(s: State): seq<Row> {
    if s.sawAny || |s.field| > 0 then s.rows + [s.row + [s.field]] else s.rows
  }

  /** What reading the remaining text from a state gives. */
  function Run(rest: string, s: State): seq<Row>
    decreases |rest|
  {
    if rest == "" then Finish(s)
    else
      var ch := rest[0];
      if s.inQuotes then
        if ch == '\"' then
          if |rest| > 1 && rest[1] == '\"' then Run(rest[2..], s.(field := s.field + "\""))
          else Run(rest[1..], s.(inQuotes := false))
        else Run(rest[1..], s.(field := s.field + [ch]))
      else if ch == '\"' then Run(rest[1..], s.(inQuotes := true, sawAny := true))
      else if ch == ',' then Run(rest[1..], s.(row := s.row + [s.field], field := "", sawAny := true))
      else if ch == '\n' || ch == '\r' then
        Run(if ch == '\r' && |rest| > 1 && rest[1] == '\n' then rest[2..] else rest[1..], AtRowStart(Finish(s)))
      else Run(rest[1..], s.(field := s.field + [ch], sawAny := true))
  }

  function Parse(text: string): seq<Row> {
    Run(text, AtRowStart([]))
  }

  method ParseCsv(text: string) returns (rows: seq<Row>)
    ensures rows == Parse(text)
  {
    rows := [];
    var row: Row := [];
    var field := "";
    var inQuotes, sawAny := false, false;
    var i := 0;
    while i < |text|
      invariant 0 <= i <= |text|
      invariant Run(text[i..], State(rows, row, field, inQuotes, sawAny)) == Parse(text)
    {
      var ch := text[i];
      var follows := i + 1 < |text|;
      assert text[i..][1..] == text[i + 1..];
      assert follows ==> text[i..][2..] == text[i + 2..];
      if inQuotes {
        if ch == '\"' {
          if follows && text[i + 1] == '\"' {
            field := field + "\"";
            i := i + 1;
          } else {
            inQuotes := false;
          }
        } else {
          field := field + [ch];
        }
      } else if ch == '\"' {
        inQuotes := true;
        sawAny := true;
      } else if ch == ',' {
        row := row + [field];
        field := "";
        sawAny := true;
      } else if ch == '\n' || ch == '\r' {
        if ch == '\r' && follows && text[i + 1] == '\n' {
          i := i + 1;
        }
        if sawAny || |field| > 0 {
          row := row + [field];
          rows := rows + [row];
        }
        row, field, sawAny := [], "", false;
      } else {
        field := field + [ch];
        sawAny := true;
      }
      i := i + 1;
    }
    if sawAny || |field| > 0 {
      row := row + [field];
      rows := rows + [row];
    }
  }

  // ---------------------------------------------------------------------
  // The printer of RFC 4180, section 2
  // ---------------------------------------------------------------------

  /** A field, and whether it is written in quotes. */
  datatype Cell = Cell(text: string, quoted: bool)

  /** RFC 4180 ends lines with CRLF; the reader also takes a lone LF or CR. */
  datatype Break = CrLf | Lf | Cr

  datatype Line = Line(cells: seq<Cell>, end: Break)

  predicate Plain(text: string) {
    forall i :: 0 <= i < |text| ==> text[i] != '\"' && text[i] != ',' && text[i] != '\n' && text[i] != '\r'
  }

  function Doubled(text: string): string {
    if text == "" then ""
    else (if text[0] == '\"' then "\"\"" else [text[0]]) + Doubled(text[1..])
  }

  function CellText(c: Cell): string {
    if c.quoted then "\"" + Doubled(c.text) + "\"" else c.text
  }

  function LineText(cells: seq<Cell>): string
    requires cells != []
  {
    if |cells| == 1 then CellText(cells[0]) else CellText(cells[0]) + "," + LineText(cells[1..])
  }

  function BreakText(b: Break): string {
    match b
    case CrLf => "\r\n"
    case Lf => "\n"
    case Cr => "\r"
  }

  /** Lines have fields, and only plain fields go unquoted. */
  predicate Printable(lines: seq<Line>) {
    forall i :: 0 <= i < |lines| ==> PrintableCells(lines[i].cells)
  }

  predicate PrintableCells(cells: seq<Cell>) {
    cells != [] && forall j :: 0 <= j < |cells| ==> cells[j].quoted || Plain(cells[j].text)
  }

  /** The break after the last line may be left out. */
  function Print(lines: seq<Line>, lastBreak: bool): string
    requires Printable(lines)
  {
    if lines == [] then ""
    else
      LineText(lines[0].cells)
      + (if |lines| > 1 || lastBreak then BreakText(lines[0].end) else "")
      + Print(lines[1..], lastBreak)
  }

  // ---------------------------------------------------------------------
  // What was printed
  // ---------------------------------------------------------------------

  function Texts(cells: seq<Cell>): (r: Row)
    ensures |r| == |cells|
  {
    seq(|cells|, j requires 0 <= j < |cells| => cells[j].text)
  }

  function Table(lines: seq<Line>): (r: seq<Row>)
    ensures |r| == |lines|
  {
    seq(|lines|, i requires 0 <= i < |lines| => Texts(lines[i].cells))
  }

  /** A lone empty field without quotes prints as an empty line. */
  predicate Blank(line: Line) {
    line.cells == [Cell("", false)]
  }

  /** The rows of the lines that are not blank. */
  function Kept(lines: seq<Line>): seq<Row> {
    if lines == [] then []
    else (if Blank(lines[0]) then [] else [Texts(lines[0].cells)]) + Kept(lines[1..])
  }

  // ---------------------------------------------------------------------
  // Reading back
  // ---------------------------------------------------------------------

  lemma {:induction false} ReadPlain(text: string, rest: string, s: State)
    requires Plain(text) && !s.inQuotes
    ensures Run(text + rest, s) == Run(rest, s.(field := s.field + text, sawAny := s.sawAny || text != ""))
    decreases |text|
  {
    if text == "" {
      assert text + rest == rest && s.field + text == s.field;
      assert s.(field := s.field + text, sawAny := s.sawAny || text != "") == s;
    } else {
      var next := s.(field := s.field + [text[0]], sawAny := true);
      assert (text + rest)[0] == text[0] && (text + rest)[1..] == text[1..] + rest;
      ReadPlain(text[1..], rest, next);
      assert next.field + text[1..] == s.field + text;
    }
  }

  lemma {:induction false} ReadDoubled(text: string, rest: string, s: State)
    requires s.inQuotes && (rest == "" || rest[0] != '\"')
    ensures Run(Doubled(text) + ("\"" + rest), s) == Run(rest, s.(field := s.field + text, inQuotes := false))
    decreases |text|
  {
    var all := Doubled(text) + ("\"" + rest);
    if text == "" {
      assert all == "\"" + rest && all[1..] == rest;
      assert s.(field := s.field + text) == s by { assert s.field + text == s.field; }
    } else {
      var next := s.(field := s.field + [text[0]]);
      var tail := Doubled(text[1..]) + ("\"" + rest);
      ReadDoubled(text[1..], rest, next);
      assert next.field + text[1..] == s.field + text;
      if text[0] == '\"' {
        assert all == "\"\"" + tail && all[0] == '\"' && all[1] == '\"' && all[2..] == tail;
      } else {
        assert all == [text[0]] + tail && all[0] == text[0] && all[1..] == tail;
      }
    }
  }

  lemma ReadCell(c: Cell, rest: string, s: State)
    requires c.quoted || Plain(c.text)
    requires !s.inQuotes && (rest == "" || rest[0] != '\"')
    ensures Run(CellText(c) + rest, s) ==
            Run(rest, s.(field := s.field + c.text, sawAny := s.sawAny || c.quoted || c.text != ""))
  {
    hide Run, Doubled, Plain;
    if c.quoted {
      var inside := Doubled(c.text) + ("\"" + rest);
      assert CellText(c) + rest == "\"" + inside;
      ReadQuote(inside, s);
      ReadDoubled(c.text, rest, s.(inQuotes := true, sawAny := true));
    } else {
      ReadPlain(c.text, rest, s);
    }
  }

  lemma ReadQuote(rest: string, s: State)
    requires !s.inQuotes
    ensures Run("\"" + rest, s) == Run(rest, s.(inQuotes := true, sawAny := true))
  {
    assert ("\"" + rest)[1..] == rest;
  }

  predicate EndsLine(rest: string) {
    rest == "" || rest[0] == '\n' || rest[0] == '\r'
  }

  lemma {:induction false} ReadLine(cells: seq<Cell>, rest: string, s: State)
    requires PrintableCells(cells) && EndsLine(rest) && s.field == "" && !s.inQuotes
    ensures var last := |cells| - 1;
            Run(LineText(cells) + rest, s) ==
            Run(rest, State(s.rows, s.row + Texts(cells)[..last], cells[last].text, false, s.sawAny || cells != [Cell("", false)]))
    decreases |cells|
  {
    hide Run, CellText, Plain;
    if |cells| == 1 {
      ReadCell(cells[0], rest, s);
      assert s.row + Texts(cells)[..0] == s.row && s.field + cells[0].text == cells[0].text;
      assert cells == [cells[0]];
    } else {
      var tail := "," + (LineText(cells[1..]) + rest);
      assert LineText(cells) + rest == CellText(cells[0]) + tail;
      ReadCell(cells[0], tail, s);
      assert s.field + cells[0].text == cells[0].text;
      var mid := s.(field := cells[0].text, sawAny := s.sawAny || cells[0].quoted || cells[0].text != "");
      ReadComma(LineText(cells[1..]) + rest, mid);
      var next := State(s.rows, s.row + [cells[0].text], "", false, true);
      ReadLine(cells[1..], rest, next);
      assert next.row + Texts(cells[1..])[..|cells| - 2] == s.row + Texts(cells)[..|cells| - 1];
    }
  }

  lemma ReadComma(rest: string, s: State)
    requires !s.inQuotes
    ensures Run("," + rest, s) == Run(rest, State(s.rows, s.row + [s.field], "", false, true))
  {
    assert ("," + rest)[1..] == rest;
  }

  /** Every line break ends the row, whatever follows: a lone CR before an LF included. */
  lemma ReadBreak(b: Break, rest: string, s: State)
    requires !s.inQuotes
    ensures Run(BreakText(b) + rest, s) == Run(rest, AtRowStart(Finish(s)))
  {
    var all := BreakText(b) + rest;
    var start := AtRowStart(Finish(s));
    match b
    case CrLf => assert all[0] == '\r' && all[1] == '\n' && all[2..] == rest;
    case Lf => assert all[0] == '\n' && all[1..] == rest;
    case Cr =>
      assert all[0] == '\r' && all[1..] == rest;
      if rest != "" && rest[0] == '\n' {
        assert all[1] == '\n' && all[2..] == rest[1..];
        assert Finish(start) == start.rows;
      }
  }

  lemma {:induction false} ReadLines(lines: seq<Line>, lastBreak: bool, rows: seq<Row>)
    requires Printable(lines)
    ensures Run(Print(lines, lastBreak), AtRowStart(rows)) == rows + Kept(lines)
    decreases |lines|
  {
    if lines == [] {
      assert Run("", AtRowStart(rows)) == rows;
      assert rows + Kept(lines) == rows;
    } else {
      var row := if Blank(lines[0]) then [] else [Texts(lines[0].cells)];
      OneMoreLine(lines, lastBreak);
      hide Run, Print, Kept, LineText, Finish, Texts, Blank, BreakText, AtRowStart;
      ReadOneLine(lines[0], |lines| > 1 || lastBreak, Print(lines[1..], lastBreak), rows);
      ReadLines(lines[1..], lastBreak, rows + row);
      Regroup(rows, row, Kept(lines[1..]));
    }
  }

  lemma Regroup(a: seq<Row>, b: seq<Row>, c: seq<Row>)
    ensures (a + b) + c == a + (b + c)
  {
  }

  lemma OneMoreLine(lines: seq<Line>, lastBreak: bool)
    requires Printable(lines) && lines != []
    ensures Printable(lines[1..]) && (|lines| > 1 || lastBreak || Print(lines[1..], lastBreak) == "")
    ensures Print(lines, lastBreak) ==
            LineText(lines[0].cells) + (if |lines| > 1 || lastBreak then BreakText(lines[0].end) else "") + Print(lines[1..], lastBreak)
    ensures Kept(lines) == (if Blank(lines[0]) then [] else [Texts(lines[0].cells)]) + Kept(lines[1..])
  {
  }

  /** Reading one line, its break (if any) and what follows. */
  lemma ReadOneLine(line: Line, broken: bool, others: string, rows: seq<Row>)
    requires PrintableCells(line.cells) && (broken || others == "")
    ensures Run(LineText(line.cells) + (if broken then BreakText(line.end) else "") + others, AtRowStart(rows)) ==
            Run(others, AtRowStart(rows + if Blank(line) then [] else [Texts(line.cells)]))
  {
    var cells, last := line.cells, |line.cells| - 1;
    var tail := (if broken then BreakText(line.end) else "") + others;
    assert LineText(cells) + (if broken then BreakText(line.end) else "") + others == LineText(cells) + tail;
    ReadLine(cells, tail, AtRowStart(rows));
    var end := State(rows, [] + Texts(cells)[..last], cells[last].text, false, !Blank(line));
    LineDone(rows, line, end);
    if broken {
      hide Run, Finish, LineText;
      ReadBreak(line.end, others, end);
    } else {
      assert tail == "" && Run(others, AtRowStart(Finish(end))) == Finish(end);
    }
  }

  lemma LineDone(rows: seq<Row>, line: Line, end: State)
    requires line.cells != []
    requires end == State(rows, [] + Texts(line.cells)[..|line.cells| - 1], line.cells[|line.cells| - 1].text, false, !Blank(line))
    ensures Finish(end) == rows + if Blank(line) then [] else [Texts(line.cells)]
  {
    var cells, last := line.cells, |line.cells| - 1;
    assert [] + Texts(cells)[..last] + [cells[last].text] == Texts(cells);
  }

  /** The reader gives back exactly the rows of the lines that are not blank. */
  lemma ParsePrint(lines: seq<Line>, lastBreak: bool)
    requires Printable(lines)
    ensures Parse(Print(lines, lastBreak)) == Kept(lines)
  {
    ReadLines(lines, lastBreak, []);
  }

  lemma {:induction false} KeptSize(lines: seq<Line>)
    ensures |Kept(lines)| <= |lines|
    ensures |Kept(lines)| == |lines| <==> forall i :: 0 <= i < |lines| ==> !Blank(lines[i])
    ensures |Kept(lines)| == |lines| ==> Kept(lines) == Table(lines)
  {
    if lines != [] {
      KeptSize(lines[1..]);
      assert forall i :: 0 <= i < |lines| - 1 ==> lines[1..][i] == lines[i + 1];
      assert (forall i :: 0 <= i < |lines| ==> !Blank(lines[i])) <==> !Blank(lines[0]) && forall i :: 0 <= i < |lines| - 1 ==> !Blank(lines[1..][i]) by {
        if !Blank(lines[0]) && forall i :: 0 <= i < |lines| - 1 ==> !Blank(lines[1..][i]) {
          forall i | 0 <= i < |lines| ensures !Blank(lines[i]) {
            assert i == 0 || lines[i] == lines[1..][i - 1];
          }
        }
      }
      if |Kept(lines)| == |lines| {
        assert Table(lines) == [Texts(lines[0].cells)] + Table(lines[1..]);
      }
    }
  }

  /** The round trip: the table comes back exactly when no line was printed blank. */
  lemma RoundTripExactly(lines: seq<Line>, lastBreak: bool)
    requires Printable(lines)
    ensures Parse(Print(lines, lastBreak)) == Table(lines) <==> forall i :: 0 <= i < |lines| ==> !Blank(lines[i])
  {
    ParsePrint(lines, lastBreak);
    KeptSize(lines);
  }

  // ---------------------------------------------------------------------
  // Every table has a printing, and reading is idempotent through it
  // ---------------------------------------------------------------------

  function QuotedLine(row: Row): Line {
    Line(seq(|row|, j requires 0 <= j < |row| => Cell(row[j], true)), CrLf)
  }

  function QuotedLines(table: seq<Row>): (lines: seq<Line>)
    requires forall i :: 0 <= i < |table| ==> table[i] != []
    ensures |lines| == |table| && Printable(lines)
  {
    seq(|table|, i requires 0 <= i < |table| => QuotedLine(table[i]))
  }

  lemma EveryTableRoundTrips(table: seq<Row>, lastBreak: bool)
    requires forall i :: 0 <= i < |table| ==> table[i] != []
    ensures Parse(Print(QuotedLines(table), lastBreak)) == table
  {
    var lines := QuotedLines(table);
    forall i | 0 <= i < |table| ensures Texts(lines[i].cells) == table[i] && !Blank(lines[i]) {
      assert lines[i] == QuotedLine(table[i]);
      assert lines[i].cells[0].quoted;
    }
    RoundTripExactly(lines, lastBreak);
    assert Table(lines) == table;
  }

  lemma {:induction false} RowsHaveFields(rest: string, s: State)
    requires forall i :: 0 <= i < |s.rows| ==> s.rows[i] != []
    ensures forall i :: 0 <= i < |Run(rest, s)| ==> Run(rest, s)[i] != []
    decreases |rest|
  {
    if rest != "" {
      var ch := rest[0];
      if s.inQuotes {
        if ch == '\"' {
          if |rest| > 1 && rest[1] == '\"' { RowsHaveFields(rest[2..], s.(field := s.field + "\"")); }
          else { RowsHaveFields(rest[1..], s.(inQuotes := false)); }
        } else { RowsHaveFields(rest[1..], s.(field := s.field + [ch])); }
      } else if ch == '\"' { RowsHaveFields(rest[1..], s.(inQuotes := true, sawAny := true)); }
      else if ch == ',' { RowsHaveFields(rest[1..], s.(row := s.row + [s.field], field := "", sawAny := true)); }
      else if ch == '\n' || ch == '\r' {
        RowsHaveFields(if ch == '\r' && |rest| > 1 && rest[1] == '\n' then rest[2..] else rest[1..], AtRowStart(Finish(s)));
      } else { RowsHaveFields(rest[1..], s.(field := s.field + [ch], sawAny := true)); }
    }
  }

  /** Printing what was read from any text, and reading again, changes nothing. */
  lemma ReadingNormalises(text: string, lastBreak: bool)
    ensures forall i :: 0 <= i < |Parse(text)| ==> Parse(text)[i] != []
    ensures Parse(Print(QuotedLines(Parse(text)), lastBreak)) == Parse(text)
  {
    RowsHaveFields(text, AtRowStart([]));
    EveryTableRoundTrips(Parse(text), lastBreak);
  }
}
