/** Which texts the record parser accepts, and as what: cells that are a quoted part, a plain part or
    one after the other, parted by commas into lines and by line feeds into a table. */
module CsvGrammar {
  import opened Wrappers
  import opened Csv

  /** A cell as it is written. */
  datatype Cell = Cell(quoted: Option<Text>, plain: Text)

  /** The lines that end with a line feed, and what is written after the last of them. */
  datatype Table = Table(lines: seq<seq<Cell>>, last: seq<Cell>)

  predicate IsPlain(x: Unit) { x != QUOTE && x != COMMA && x != LF }

  predicate CellOk(c: Cell) { forall x | x in c.plain :: IsPlain(x) }

  predicate LineOk(line: seq<Cell>) { line != [] && forall c | c in line :: CellOk(c) }

  predicate TableOk(t: Table) { LineOk(t.last) && forall line | line in t.lines :: LineOk(line) }

  // What is written.

  /** Quotes stand around the quoted part, and a quote inside it is doubled. */
  function Source(c: Cell): Text {
    (match c.quoted case Some(q) => [QUOTE] + (Escape(q) + [QUOTE]) case None => []) + c.plain
  }

  function LineSource(line: seq<Cell>): Text {
    if line == [] then []
    else if |line| == 1 then Source(line[0])
    else Source(line[0]) + ([COMMA] + LineSource(line[1..]))
  }

  function LinesSource(lines: seq<seq<Cell>>, last: seq<Cell>): Text {
    if lines == [] then LineSource(last) else LineSource(lines[0]) + ([LF] + LinesSource(lines[1..], last))
  }

  // What it means.

  function Content(c: Cell): Text { (match c.quoted case Some(q) => q case None => []) + c.plain }

  /** The contents of a line; a carriage return at its end is left out, even a quoted one. */
  function Values(line: seq<Cell>): (r: seq<Text>)
    ensures line != [] ==> |r| == |line|
  {
    if line == [] then []
    else if |line| == 1 then [StripCr(Content(line[0]))]
    else [Content(line[0])] + Values(line[1..])
  }

  /** After the last line feed a single empty cell is no line. */
  predicate Ends(last: seq<Cell>) { |last| == 1 && Content(last[0]) == [] }

  function Rows(lines: seq<seq<Cell>>, last: seq<Cell>): seq<seq<Text>> {
    if lines == [] then (if Ends(last) then [] else [Values(last)]) else [Values(lines[0])] + Rows(lines[1..], last)
  }

  predicate LineFits(line: seq<Cell>) { forall c | c in line :: |Content(c)| <= 2_048 }

  predicate LinesFit(lines: seq<seq<Cell>>) { forall line | line in lines :: LineFits(line) }

  /** At most 2001 line feeds outside quotes, and no cell over 2048 units. */
  predicate TableFits(t: Table) { LinesFit(t.lines) && LineFits(t.last) && |t.lines| <= 2_001 }

  // What is written is parsed as what it means.

  lemma {:induction false} ParsePlain(plain: Text, rest: Text, s: State)
    requires !s.quoted && |s.cell| <= MAX_CELL && forall x | x in plain :: IsPlain(x)
    ensures Parse(plain + rest, s) ==
      if |s.cell| + |plain| > MAX_CELL then Err(CellTooLong) else Parse(rest, s.(cell := s.cell + plain))
    decreases |plain|
  {
    if plain == [] {
      assert plain + rest == rest && s.cell + plain == s.cell;
    } else {
      assert IsPlain(plain[0]) && (plain + rest)[0] == plain[0] && (plain + rest)[1..] == plain[1..] + rest;
      if |s.cell| + 1 <= MAX_CELL {
        ParsePlain(plain[1..], rest, s.(cell := s.cell + [plain[0]]));
        assert s.cell + [plain[0]] + plain[1..] == s.cell + plain;
      }
    }
  }

  lemma ParseSource(c: Cell, rest: Text, s: State)
    requires !s.quoted && s.cell == [] && CellOk(c) && (rest == [] || rest[0] != QUOTE)
    ensures Parse(Source(c) + rest, s) ==
      if |Content(c)| > MAX_CELL then Err(CellTooLong) else Parse(rest, s.(cell := Content(c)))
  {
    match c.quoted
    case None =>
      assert Source(c) == c.plain && s.cell + c.plain == Content(c);
      ParsePlain(c.plain, rest, s);
    case Some(q) =>
      var text := Source(c) + rest;
      assert text[0] == QUOTE && text[1..] == Escape(q) + [QUOTE] + (c.plain + rest);
      assert c.plain != [] ==> (c.plain + rest)[0] == c.plain[0] && IsPlain(c.plain[0]);
      assert c.plain == [] ==> c.plain + rest == rest;
      ParseEscaped(q, c.plain + rest, s.(quoted := true));
      assert s.cell + q == q;
      if |q| <= MAX_CELL { ParsePlain(c.plain, rest, s.(cell := q)); }
  }

  lemma ParseFirst(c: Cell, tail: Text, s: State)
    requires !s.quoted && s.cell == [] && CellOk(c)
    ensures Parse(Source(c) + ([COMMA] + tail), s) ==
      if |Content(c)| > MAX_CELL then Err(CellTooLong) else Parse(tail, s.(record := s.record + [Content(c)]))
  {
    ParseSource(c, [COMMA] + tail, s);
    ParseComma(tail, s.(cell := Content(c)));
  }

  /** The contents of all cells but the last, whole. */
  function Front(line: seq<Cell>): seq<Text> { if |line| <= 1 then [] else [Content(line[0])] + Front(line[1..]) }

  /** What the parse of a line comes to. */
  function LineOutcome(line: seq<Cell>, rest: Text, s: State): Result<seq<seq<Text>>, CsvError>
    requires line != []
  {
    if !LineFits(line) then Err(CellTooLong)
    else Parse(rest, State(s.records, s.record + Front(line), Content(line[|line| - 1]), false))
  }

  lemma NextCell(line: seq<Cell>, rest: Text, s: State)
    requires |line| > 1
    ensures LineOutcome(line, rest, s) ==
      if |Content(line[0])| > MAX_CELL then Err(CellTooLong)
      else LineOutcome(line[1..], rest, s.(record := s.record + [Content(line[0])]))
  {
    assert line == [line[0]] + line[1..];
    assert s.record + [Content(line[0])] + Front(line[1..]) == s.record + Front(line);
  }

  lemma SourceSplit(line: seq<Cell>, rest: Text)
    requires |line| > 1
    ensures LineSource(line) + rest == Source(line[0]) + ([COMMA] + (LineSource(line[1..]) + rest))
  {
    var first, tail := Source(line[0]), LineSource(line[1..]);
    assert (first + ([COMMA] + tail)) + rest == first + ([COMMA] + (tail + rest));
  }

  lemma ParseOneCell(line: seq<Cell>, rest: Text, s: State)
    requires !s.quoted && s.cell == [] && LineOk(line) && |line| == 1 && (rest == [] || rest[0] == LF)
    ensures Parse(LineSource(line) + rest, s) == LineOutcome(line, rest, s)
  {
    ParseSource(line[0], rest, s);
    assert s.record + [] == s.record && line == [line[0]];
  }

  lemma {:induction false} ParseLine(line: seq<Cell>, rest: Text, s: State)
    requires !s.quoted && s.cell == [] && LineOk(line) && (rest == [] || rest[0] == LF)
    ensures Parse(LineSource(line) + rest, s) == LineOutcome(line, rest, s)
    decreases |line|
  {
    if |line| == 1 {
      ParseOneCell(line, rest, s);
    } else {
      SourceSplit(line, rest);
      ParseFirst(line[0], LineSource(line[1..]) + rest, s);
      ParseLine(line[1..], rest, s.(record := s.record + [Content(line[0])]));
      NextCell(line, rest, s);
    }
  }

  lemma {:induction false} ValuesAre(line: seq<Cell>)
    requires line != []
    ensures Values(line) == Front(line) + [StripCr(Content(line[|line| - 1]))]
  {
    if |line| > 1 { ValuesAre(line[1..]); }
  }

  lemma ParseEndedLine(line: seq<Cell>, rest: Text, before: seq<seq<Text>>)
    requires LineOk(line)
    ensures Parse(LineSource(line) + ([LF] + rest), State(before, [], [], false)) ==
      if !LineFits(line) then Err(CellTooLong)
      else if |before| + 1 > MAX_ROWS + 1 then Err(RowLimit)
      else Parse(rest, State(before + [Values(line)], [], [], false))
  {
    ParseLine(line, [LF] + rest, State(before, [], [], false));
    ValuesAre(line);
    assert ([LF] + rest)[1..] == rest && [] + Front(line) == Front(line);
  }

  lemma ParseLastLine(line: seq<Cell>, before: seq<seq<Text>>)
    requires LineOk(line)
    ensures Parse(LineSource(line), State(before, [], [], false)) ==
      if !LineFits(line) then Err(CellTooLong) else Ok(before + Rows([], line))
  {
    ParseLine(line, [], State(before, [], [], false));
    ValuesAre(line);
    assert LineSource(line) + [] == LineSource(line) && [] + Front(line) == Front(line);
    assert before + [] == before;
  }

  lemma {:induction false} ParseTable(t: Table, before: seq<seq<Text>>)
    requires TableOk(t) && |before| <= MAX_ROWS + 1
    ensures var r := Parse(LinesSource(t.lines, t.last), State(before, [], [], false));
      match r
      case Ok(records) =>
        TableFits(t) && |before| + |t.lines| <= MAX_ROWS + 1 && records == before + Rows(t.lines, t.last)
      case Err(CellTooLong) => !(LinesFit(t.lines) && LineFits(t.last))
      case Err(RowLimit) => |before| + |t.lines| > MAX_ROWS + 1
      case Err(CsvInvalid) => false
    decreases |t.lines|
  {
    if t.lines == [] {
      ParseLastLine(t.last, before);
    } else {
      var line, rest := t.lines[0], t.(lines := t.lines[1..]);
      TableTail(t);
      ParseEndedLine(line, LinesSource(rest.lines, t.last), before);
      if |before| + 1 <= MAX_ROWS + 1 {
        ParseTable(rest, before + [Values(line)]);
        assert before + [Values(line)] + Rows(rest.lines, t.last) == before + Rows(t.lines, t.last);
      }
    }
  }

  lemma TableTail(t: Table)
    requires t.lines != []
    ensures TableOk(t) <==> LineOk(t.lines[0]) && TableOk(t.(lines := t.lines[1..]))
    ensures LinesFit(t.lines) <==> LineFits(t.lines[0]) && LinesFit(t.lines[1..])
  {
    assert t.lines == [t.lines[0]] + t.lines[1..];
  }

  // Nothing else is parsed.

  predicate AtEnd(rest: Text) { rest == [] || rest[0] == COMMA || rest[0] == LF }

  lemma {:induction false} TakeQuoted(text: Text, s: State) returns (q: Text, rest: Text)
    requires s.quoted && Parse(text, s).Ok?
    ensures text == Escape(q) + [QUOTE] + rest && (rest == [] || rest[0] != QUOTE)
    decreases |text|
  {
    if text[0] == QUOTE && !(|text| > 1 && text[1] == QUOTE) {
      q, rest := [], text[1..];
      assert text == [QUOTE] + rest;
    } else if text[0] == QUOTE {
      var after;
      after, rest := TakeQuoted(text[2..], s.(cell := s.cell + [QUOTE]));
      q := [QUOTE] + after;
      assert q[1..] == after && text == [QUOTE, QUOTE] + text[2..];
    } else {
      var after;
      after, rest := TakeQuoted(text[1..], s.(cell := s.cell + [text[0]]));
      q := [text[0]] + after;
      assert q[1..] == after && text == [text[0]] + text[1..];
    }
  }

  lemma {:induction false} TakePlain(text: Text, s: State) returns (plain: Text, rest: Text)
    requires !s.quoted && Parse(text, s).Ok? && (s.cell != [] || text == [] || text[0] != QUOTE)
    ensures text == plain + rest && AtEnd(rest) && forall x | x in plain :: IsPlain(x)
    decreases |text|
  {
    if AtEnd(text) {
      plain, rest := [], text;
    } else {
      var after;
      after, rest := TakePlain(text[1..], s.(cell := s.cell + [text[0]]));
      plain := [text[0]] + after;
    }
  }

  lemma TakeQuotedCell(text: Text, s: State) returns (c: Cell, rest: Text)
    requires !s.quoted && s.cell == [] && Parse(text, s).Ok? && text != [] && text[0] == QUOTE
    ensures text == Source(c) + rest && AtEnd(rest) && CellOk(c)
  {
    var q, after := TakeQuoted(text[1..], s.(quoted := true));
    assert text[1..] == Escape(q) + [QUOTE] + after;
    ParseEscaped(q, after, s.(quoted := true));
    assert s.cell + q == q;
    var plain;
    plain, rest := TakePlain(after, s.(cell := q));
    c := Cell(Some(q), plain);
    assert text == [QUOTE] + text[1..];
  }

  lemma TakeCell(text: Text, s: State) returns (c: Cell, rest: Text)
    requires !s.quoted && s.cell == [] && Parse(text, s).Ok?
    ensures text == Source(c) + rest && AtEnd(rest) && CellOk(c) && |Content(c)| <= MAX_CELL
    ensures Parse(rest, s.(cell := Content(c))) == Parse(text, s)
  {
    if text != [] && text[0] == QUOTE {
      c, rest := TakeQuotedCell(text, s);
    } else {
      var plain;
      plain, rest := TakePlain(text, s);
      c := Cell(None, plain);
    }
    ParseSource(c, rest, s);
  }

  lemma {:induction false} TakeLine(text: Text, s: State) returns (line: seq<Cell>, rest: Text)
    requires !s.quoted && s.cell == [] && Parse(text, s).Ok?
    ensures text == LineSource(line) + rest && (rest == [] || rest[0] == LF) && LineOk(line)
    decreases |text|
  {
    var c, after := TakeCell(text, s);
    if after == [] || after[0] == LF {
      line, rest := [c], after;
    } else {
      var tail;
      assert after == [COMMA] + after[1..];
      ParseComma(after[1..], s.(cell := Content(c)));
      tail, rest := TakeLine(after[1..], s.(record := s.record + [Content(c)]));
      line := [c] + tail;
      assert line[1..] == tail;
      assert text == Source(c) + ([COMMA] + LineSource(tail)) + rest;
    }
  }

  lemma {:induction false} TakeTable(text: Text, before: seq<seq<Text>>) returns (t: Table)
    requires Parse(text, State(before, [], [], false)).Ok?
    ensures text == LinesSource(t.lines, t.last) && TableOk(t)
    decreases |text|
  {
    var line, rest := TakeLine(text, State(before, [], [], false));
    if rest == [] {
      t := Table([], line);
    } else {
      assert rest == [LF] + rest[1..];
      ParseEndedLine(line, rest[1..], before);
      var after := TakeTable(rest[1..], before + [Values(line)]);
      t := Table([line] + after.lines, after.last);
      assert t.lines[1..] == after.lines;
      TableTail(t);
      assert text == LineSource(line) + ([LF] + LinesSource(after.lines, after.last));
    }
  }

  /** The text is this table, within the limits, and these are the contents of its cells. */
  predicate Writes(text: Text, t: Table, records: seq<seq<Text>>) {
    TableOk(t) && TableFits(t) && LinesSource(t.lines, t.last) == text && Rows(t.lines, t.last) == records
  }

  /** A text parses exactly if it is a table written with cells of these forms, within the limits, and
      then to the contents of its cells; no other text and no other records. */
  lemma ParsesExactly(text: Text, records: seq<seq<Text>>)
    ensures Parse(text, Fresh) == Ok(records) <==> exists t: Table :: Writes(text, t, records)
  {
    if Parse(text, Fresh) == Ok(records) {
      var t := TakeTable(text, []);
      TableParses(t);
      assert Writes(text, t, records);
    }
    if t: Table :| Writes(text, t, records) { TableParses(t); }
  }

  lemma TableParses(t: Table)
    requires TableOk(t)
    ensures var r := Parse(LinesSource(t.lines, t.last), Fresh);
      match r
      case Ok(records) => TableFits(t) && records == Rows(t.lines, t.last)
      case Err(CellTooLong) => !(LinesFit(t.lines) && LineFits(t.last))
      case Err(RowLimit) => |t.lines| > 2_001
      case Err(CsvInvalid) => false
  {
    ParseTable(t, []);
    assert [] + Rows(t.lines, t.last) == Rows(t.lines, t.last);
  }

  /** A text refused as malformed is no such table, of whatever size; one refused for its size has too
      long a cell, or too many line feeds. */
  lemma RefusesExactly(text: Text, t: Table)
    requires TableOk(t) && LinesSource(t.lines, t.last) == text
    ensures match Parse(text, Fresh)
      case Ok(_) => TableFits(t)
      case Err(CellTooLong) => !(LinesFit(t.lines) && LineFits(t.last))
      case Err(RowLimit) => |t.lines| > 2_001
      case Err(CsvInvalid) => false
  {
    TableParses(t);
  }
}
