/** The record parser of the catalogue import: one pass over UTF-16 code units, aware of quotes.
    Its inverse prints every cell quoted and every record ended by CR LF, the strictest form of
    section 2 of RFC 4180. */
module Csv {
  import opened Wrappers

  newtype Unit = x: int | 0 <= x < 0x1_0000

  type Text = seq<Unit>

  const QUOTE: Unit := 0x22
  const COMMA: Unit := 0x2C
  const LF: Unit := 0x0A
  const CR: Unit := 0x0D

  const MAX_CELL := 2_048
  const MAX_ROWS := 2_000

  datatype CsvError = CellTooLong | CsvInvalid | RowLimit

  datatype State = State(records: seq<seq<Text>>, record: seq<Text>, cell: Text, quoted: bool)

  const Fresh := State([], [], [], false)

  function StripCr(cell: Text): Text {
    if cell != [] && cell[|cell| - 1] == CR then cell[..|cell| - 1] else cell
  }

  function Append(s: State, x: Unit): Result<State, CsvError> {
    if |s.cell| + 1 > MAX_CELL then Err(CellTooLong) else Ok(s.(cell := s.cell + [x]))
  }

  function EndRecord(s: State): State { State(s.records + [s.record + [StripCr(s.cell)]], [], [], false) }

  /** What is left of the parse when `text` is still to be read. */
  function Parse(text: Text, s: State): Result<seq<seq<Text>>, CsvError>
    decreases |text|
  {
    if text == [] then
      if s.quoted then Err(CsvInvalid)
      else if |s.cell| > 0 || |s.record| > 0 then Ok(EndRecord(s).records)
      else Ok(s.records)
    else
      var x := text[0];
      if s.quoted then
        if x == QUOTE && |text| > 1 && text[1] == QUOTE then
          var next :- Append(s, QUOTE);
          Parse(text[2..], next)
        else if x == QUOTE then
          if |s.cell| > MAX_CELL then Err(CellTooLong) else Parse(text[1..], s.(quoted := false))
        else
          var next :- Append(s, x);
          Parse(text[1..], next)
      else if x == QUOTE then
        if |s.cell| > 0 then Err(CsvInvalid) else Parse(text[1..], s.(quoted := true))
      else if x == COMMA then Parse(text[1..], s.(record := s.record + [s.cell], cell := []))
      else if x == LF then
        if |s.records| + 1 > MAX_ROWS + 1 then Err(RowLimit) else Parse(text[1..], EndRecord(s))
      else
        var next :- Append(s, x);
        Parse(text[1..], next)
  }

  method ParseCsvRecords(text: Text) returns (r: Result<seq<seq<Text>>, CsvError>)
    ensures r == Parse(text, Fresh)
  {
    var records: seq<seq<Text>> := [];
    var record: seq<Text> := [];
    var cell: Text := [];
    var quoted := false;
    var index := 0;
    assert text[0..] == text;
    while index < |text|
      invariant 0 <= index <= |text|
      invariant |cell| <= MAX_CELL
      invariant Parse(text, Fresh) == Parse(text[index..], State(records, record, cell, quoted))
    {
      var character := text[index];
      assert text[index..][1..] == text[index + 1..];
      if quoted {
        if character == QUOTE {
          if index + 1 < |text| && text[index + 1] == QUOTE {
            assert text[index..][2..] == text[index + 2..];
            cell := cell + [QUOTE];
            index := index + 1;
          } else {
            quoted := false;
          }
        } else {
          cell := cell + [character];
        }
        if |cell| > MAX_CELL { return Err(CellTooLong); }
        index := index + 1;
        continue;
      }
      if character == QUOTE {
        if |cell| > 0 { return Err(CsvInvalid); }
        quoted := true;
      } else if character == COMMA {
        record := record + [cell];
        cell := [];
      } else if character == LF {
        record := record + [StripCr(cell)];
        records := records + [record];
        record := [];
        cell := [];
        if |records| > MAX_ROWS + 1 { return Err(RowLimit); }
      } else {
        cell := cell + [character];
        if |cell| > MAX_CELL { return Err(CellTooLong); }
      }
      index := index + 1;
    }
    if quoted { return Err(CsvInvalid); }
    if |cell| > 0 || |record| > 0 {
      record := record + [StripCr(cell)];
      records := records + [record];
    }
    return Ok(records);
  }

  // Printing.

  function Escape(cell: Text): Text {
    if cell == [] then [] else (if cell[0] == QUOTE then [QUOTE, QUOTE] else [cell[0]]) + Escape(cell[1..])
  }

  function PrintCell(cell: Text): Text { [QUOTE] + (Escape(cell) + [QUOTE]) }

  function PrintRecord(record: seq<Text>): Text {
    if record == [] then [CR, LF]
    else if |record| == 1 then PrintCell(record[0]) + [CR, LF]
    else PrintCell(record[0]) + ([COMMA] + PrintRecord(record[1..]))
  }

  function Print(records: seq<seq<Text>>): Text {
    if records == [] then [] else PrintRecord(records[0]) + Print(records[1..])
  }

  /** Cells within the limit; the last one leaves room for the CR that is stripped after it is counted. */
  predicate RecordFits(record: seq<Text>) {
    forall k | 0 <= k < |record| :: |record[k]| <= if k == |record| - 1 then MAX_CELL - 1 else MAX_CELL
  }

  predicate AllFit(records: seq<seq<Text>>) { forall k | 0 <= k < |records| :: RecordFits(records[k]) }

  predicate Fits(records: seq<seq<Text>>) {
    |records| <= MAX_ROWS + 1 && AllFit(records)
  }

  // Parsing what was printed.

  /** A quoted cell followed by anything but a quote. */
  lemma {:induction false} ParseEscaped(cell: Text, rest: Text, s: State)
    requires s.quoted && |s.cell| <= MAX_CELL && (rest == [] || rest[0] != QUOTE)
    ensures Parse(Escape(cell) + [QUOTE] + rest, s) ==
      if |s.cell| + |cell| > MAX_CELL then Err(CellTooLong) else Parse(rest, s.(cell := s.cell + cell, quoted := false))
    decreases |cell|
  {
    var text := Escape(cell) + [QUOTE] + rest;
    if cell == [] {
      assert text == [QUOTE] + rest && text[1..] == rest;
      assert s.cell + [] == s.cell;
    } else {
      var tail := Escape(cell[1..]) + [QUOTE] + rest;
      var x := cell[0];
      if |s.cell| + 1 <= MAX_CELL {
        ParseEscaped(cell[1..], rest, s.(cell := s.cell + [x]));
        assert s.cell + [x] + cell[1..] == s.cell + cell;
      }
      if x == QUOTE {
        assert text == [QUOTE, QUOTE] + tail && text[2..] == tail;
      } else {
        assert text == [x] + tail && text[1..] == tail;
      }
    }
  }

  lemma ParseCell(cell: Text, rest: Text, s: State)
    requires !s.quoted && s.cell == [] && rest != [] && rest[0] != QUOTE
    ensures Parse(PrintCell(cell) + rest, s) ==
      if |cell| > MAX_CELL then Err(CellTooLong) else Parse(rest, s.(cell := cell))
  {
    var text := PrintCell(cell) + rest;
    assert text[0] == QUOTE && text[1..] == Escape(cell) + [QUOTE] + rest;
    ParseEscaped(cell, rest, s.(quoted := true));
    assert s.cell + cell == cell;
  }

  /** The CR LF that ends a record; the CR is counted in the cell before it is stripped. */
  lemma ParseEnd(rest: Text, s: State)
    requires !s.quoted && |s.cell| <= MAX_CELL
    ensures Parse([CR, LF] + rest, s) ==
      if |s.cell| + 1 > MAX_CELL then Err(CellTooLong)
      else if |s.records| + 1 > MAX_ROWS + 1 then Err(RowLimit)
      else Parse(rest, State(s.records + [s.record + [s.cell]], [], [], false))
  {
    var text := [CR, LF] + rest;
    assert text[1..] == [LF] + rest;
    if |s.cell| + 1 <= MAX_CELL {
      var t := s.(cell := s.cell + [CR]);
      assert StripCr(t.cell) == s.cell;
      assert ([LF] + rest)[1..] == rest;
      assert Parse([LF] + rest, t) ==
        if |t.records| + 1 > MAX_ROWS + 1 then Err(RowLimit) else Parse(rest, EndRecord(t));
    }
  }

  /** A record parses to itself, an empty one to a single empty cell. */
  function Padded(record: seq<Text>): seq<Text> { if record == [] then [[]] else record }

  /** What the parse of a printed record comes to. */
  function RecordOutcome(record: seq<Text>, rest: Text, s: State): Result<seq<seq<Text>>, CsvError> {
    if !RecordFits(record) then Err(CellTooLong)
    else if |s.records| + 1 > MAX_ROWS + 1 then Err(RowLimit)
    else Parse(rest, State(s.records + [s.record + Padded(record)], [], [], false))
  }

  lemma ParseComma(rest: Text, s: State)
    requires !s.quoted
    ensures Parse([COMMA] + rest, s) == Parse(rest, s.(record := s.record + [s.cell], cell := []))
  {
    assert ([COMMA] + rest)[1..] == rest;
  }

  lemma ParseLastCell(cell: Text, rest: Text, s: State)
    requires !s.quoted && s.cell == []
    ensures Parse(PrintCell(cell) + ([CR, LF] + rest), s) == RecordOutcome([cell], rest, s)
  {
    ParseCell(cell, [CR, LF] + rest, s);
    if |cell| <= MAX_CELL { ParseEnd(rest, s.(cell := cell)); }
    assert [cell][0] == cell;
  }

  lemma ParseNextCell(cell: Text, tail: Text, s: State)
    requires !s.quoted && s.cell == []
    ensures Parse(PrintCell(cell) + ([COMMA] + tail), s) ==
      if |cell| > MAX_CELL then Err(CellTooLong) else Parse(tail, s.(record := s.record + [cell]))
  {
    ParseCell(cell, [COMMA] + tail, s);
    ParseComma(tail, s.(cell := cell));
  }

  lemma {:induction false} ParseRecord(record: seq<Text>, rest: Text, s: State)
    requires !s.quoted && s.cell == []
    ensures Parse(PrintRecord(record) + rest, s) == RecordOutcome(record, rest, s)
    decreases |record|
  {
    if record == [] {
      ParseEnd(rest, s);
    } else if |record| == 1 {
      assert PrintRecord(record) + rest == PrintCell(record[0]) + ([CR, LF] + rest);
      ParseLastCell(record[0], rest, s);
      assert record == [record[0]];
    } else {
      var tail := PrintRecord(record[1..]) + rest;
      assert PrintRecord(record) + rest == PrintCell(record[0]) + ([COMMA] + tail);
      ParseNextCell(record[0], tail, s);
      var t := s.(record := s.record + [record[0]]);
      ParseRecord(record[1..], rest, t);
      NextOutcome(record, rest, s);
    }
  }

  lemma NextOutcome(record: seq<Text>, rest: Text, s: State)
    requires |record| > 1
    ensures RecordOutcome(record, rest, s) ==
      if |record[0]| > MAX_CELL
        then Err(CellTooLong) else RecordOutcome(record[1..], rest, s.(record := s.record + [record[0]]))
  {
    FitsTail(record);
    assert s.record + [record[0]] + record[1..] == s.record + record;
  }

  lemma FitsTail(record: seq<Text>)
    requires |record| > 1
    ensures RecordFits(record) <==> |record[0]| <= MAX_CELL && RecordFits(record[1..])
  {
    var tail := record[1..];
    assert forall k | 0 <= k < |tail| :: tail[k] == record[k + 1];
    if RecordFits(tail) && |record[0]| <= MAX_CELL {
      forall k | 0 <= k < |record| ensures |record[k]| <= if k == |record| - 1 then MAX_CELL - 1 else MAX_CELL {
        if k > 0 { assert record[k] == tail[k - 1]; }
      }
    }
  }

  function PaddedAll(records: seq<seq<Text>>): (r: seq<seq<Text>>)
    ensures |r| == |records|
  {
    seq(|records|, k requires 0 <= k < |records| => Padded(records[k]))
  }

  lemma AllFitTail(records: seq<seq<Text>>)
    requires records != []
    ensures AllFit(records) <==> RecordFits(records[0]) && AllFit(records[1..])
  {
    assert forall k | 0 <= k < |records[1..]| :: records[1..][k] == records[k + 1];
    if RecordFits(records[0]) && AllFit(records[1..]) {
      forall k | 0 <= k < |records| ensures RecordFits(records[k]) {
        if k > 0 { assert records[k] == records[1..][k - 1]; }
      }
    }
  }

  lemma {:induction false} ParseRecords(records: seq<seq<Text>>, before: seq<seq<Text>>)
    ensures var r := Parse(Print(records), State(before, [], [], false));
      if records == [] || (|before| + |records| <= MAX_ROWS + 1 && AllFit(records))
      then r == Ok(before + PaddedAll(records)) else r.Err?
    decreases |records|
  {
    if records == [] {
      assert before + PaddedAll(records) == before;
    } else {
      var rest := records[1..];
      ParseRecord(records[0], Print(rest), State(before, [], [], false));
      assert [] + Padded(records[0]) == Padded(records[0]);
      ParseRecords(rest, before + [Padded(records[0])]);
      assert before + PaddedAll(records) == before + [Padded(records[0])] + PaddedAll(rest);
      AllFitTail(records);
    }
  }

  /** Printing and parsing gives a table back exactly when it has at most 2001 records, none empty,
      no cell over 2048 units and no last cell over 2047. */
  lemma RoundTrip(records: seq<seq<Text>>)
    ensures Parse(Print(records), Fresh) == Ok(records) <==>
      Fits(records) && forall k | 0 <= k < |records| :: records[k] != []
  {
    ParseRecords(records, []);
    assert [] + PaddedAll(records) == PaddedAll(records);
    if forall k | 0 <= k < |records| :: records[k] != [] {
      assert PaddedAll(records) == records;
    } else {
      var k :| 0 <= k < |records| && records[k] == [];
      assert PaddedAll(records)[k] != records[k];
    }
  }

  // What a successful parse gives.

  predicate WithinLimits(record: seq<Text>) { forall c | c in record :: |c| <= MAX_CELL }

  predicate StateOk(s: State) {
    && |s.cell| <= MAX_CELL && WithinLimits(s.record) && |s.records| <= MAX_ROWS + 1
    && forall r | r in s.records :: r != [] && WithinLimits(r)
  }

  /** Whatever the text, a parsed table has no empty record and no cell over the limit, and at most
      one record, an unterminated last one, beyond the row limit. */
  lemma {:induction false} ParsedWithinLimits(text: Text, s: State)
    requires StateOk(s) && Parse(text, s).Ok?
    ensures var records := Parse(text, s).value;
      |records| <= MAX_ROWS + 2 && forall r | r in records :: r != [] && WithinLimits(r)
    decreases |text|
  {
    if text != [] {
      var x := text[0];
      if s.quoted {
        if x == QUOTE && |text| > 1 && text[1] == QUOTE {
          ParsedWithinLimits(text[2..], Append(s, QUOTE).value);
        } else if x == QUOTE {
          ParsedWithinLimits(text[1..], s.(quoted := false));
        } else {
          ParsedWithinLimits(text[1..], Append(s, x).value);
        }
      } else if x == QUOTE {
        ParsedWithinLimits(text[1..], s.(quoted := true));
      } else if x == COMMA {
        ParsedWithinLimits(text[1..], s.(record := s.record + [s.cell], cell := []));
      } else if x == LF {
        ParsedWithinLimits(text[1..], EndRecord(s));
      } else {
        ParsedWithinLimits(text[1..], Append(s, x).value);
      }
    }
  }

  /** Any text that parses can be printed again in the strict form and parses to the same table,
      as long as its rows and last cells leave the strict form its room. */
  lemma Canonical(text: Text, records: seq<seq<Text>>)
    requires Parse(text, Fresh) == Ok(records) && |records| <= MAX_ROWS + 1
    requires forall r | r in records && r != [] :: |r[|r| - 1]| < MAX_CELL
    ensures Parse(Print(records), Fresh) == Ok(records)
  {
    ParsedWithinLimits(text, Fresh);
    forall k | 0 <= k < |records| ensures records[k] != [] && RecordFits(records[k]) {
      assert records[k] in records && WithinLimits(records[k]);
      assert forall j | 0 <= j < |records[k]| :: records[k][j] in records[k];
    }
    RoundTrip(records);
  }

  // How many records a text has.

  /** Line ends outside quotes; every quote character opens or closes, doubled ones both. */
  function LineEnds(text: Text, quoted: bool): nat {
    if text == [] then 0
    else if text[0] == QUOTE then LineEnds(text[1..], !quoted)
    else (if text[0] == LF && !quoted then 1 else 0) + LineEnds(text[1..], quoted)
  }

  /** What follows the last line end. */
  function Remainder(text: Text, quoted: bool): Text {
    if LineEnds(text, quoted) == 0 then text
    else Remainder(text[1..], if text[0] == QUOTE then !quoted else quoted)
  }

  /** Nothing, or a pair of quotes, makes no record of its own. */
  predicate MakesNoRecord(remainder: Text) { remainder == [] || remainder == [QUOTE, QUOTE] }

  /** The rest of the text adds nothing to an empty record. */
  predicate Idle(text: Text, s: State) {
    s.record == [] && s.cell == [] && if s.quoted then text == [QUOTE] else MakesNoRecord(text)
  }

  lemma {:induction false} LastRecord(text: Text, s: State)
    requires Parse(text, s).Ok? && LineEnds(text, s.quoted) == 0
    ensures |Parse(text, s).value| == |s.records| + if Idle(text, s) then 0 else 1
    decreases |text|
  {
    if text != [] {
      var x := text[0];
      if s.quoted {
        if x == QUOTE && |text| > 1 && text[1] == QUOTE {
          assert text[1..][1..] == text[2..];
          LastRecord(text[2..], Append(s, QUOTE).value);
        } else if x == QUOTE {
          LastRecord(text[1..], s.(quoted := false));
          ClosedQuote(text);
        } else {
          LastRecord(text[1..], Append(s, x).value);
        }
      } else if x == QUOTE {
        LastRecord(text[1..], s.(quoted := true));
        assert text == [QUOTE, QUOTE] <==> text[1..] == [QUOTE];
      } else if x == COMMA {
        LastRecord(text[1..], s.(record := s.record + [s.cell], cell := []));
      } else {
        LastRecord(text[1..], Append(s, x).value);
      }
    }
  }

  lemma ClosedQuote(text: Text)
    requires text != [] && text[0] == QUOTE && !(|text| > 1 && text[1] == QUOTE)
    ensures MakesNoRecord(text[1..]) <==> text == [QUOTE]
  {
    assert |text| > 1 ==> text[1..][0] == text[1];
  }

  lemma {:induction false} RecordCount(text: Text, s: State)
    requires Parse(text, s).Ok? && LineEnds(text, s.quoted) > 0
    ensures |Parse(text, s).value| ==
      |s.records| + LineEnds(text, s.quoted) + if MakesNoRecord(Remainder(text, s.quoted)) then 0 else 1
    decreases |text|
  {
    var x := text[0];
    if s.quoted {
      if x == QUOTE && |text| > 1 && text[1] == QUOTE {
        assert text[1..][1..] == text[2..];
        RecordCount(text[2..], Append(s, QUOTE).value);
      } else if x == QUOTE {
        RecordCount(text[1..], s.(quoted := false));
      } else {
        RecordCount(text[1..], Append(s, x).value);
      }
    } else if x == QUOTE {
      RecordCount(text[1..], s.(quoted := true));
    } else if x == COMMA {
      RecordCount(text[1..], s.(record := s.record + [s.cell], cell := []));
    } else if x == LF {
      if LineEnds(text[1..], false) > 0 { RecordCount(text[1..], EndRecord(s)); } else {
        LastRecord(text[1..], EndRecord(s));
      }
    } else {
      RecordCount(text[1..], Append(s, x).value);
    }
  }

  /** A parsed text has one record for each line end outside quotes, at most 2001 of them, and one
      more for what follows the last of them, unless that is nothing or a pair of quotes. It is the
      2002nd record exactly when 2001 line ends came before. */
  lemma RecordsExactly(text: Text, records: seq<seq<Text>>)
    requires Parse(text, Fresh) == Ok(records)
    ensures |records| == LineEnds(text, false) + if MakesNoRecord(Remainder(text, false)) then 0 else 1
    ensures LineEnds(text, false) <= MAX_ROWS + 1
    ensures |records| == MAX_ROWS + 2 <==>
      LineEnds(text, false) == MAX_ROWS + 1 && !MakesNoRecord(Remainder(text, false))
  {
    if LineEnds(text, false) > 0 { RecordCount(text, Fresh); } else { LastRecord(text, Fresh); }
    LineEndsBounded(text, Fresh);
  }

  lemma {:induction false} LineEndsBounded(text: Text, s: State)
    requires Parse(text, s).Ok? && |s.records| <= MAX_ROWS + 1
    ensures |s.records| + LineEnds(text, s.quoted) <= MAX_ROWS + 1
    decreases |text|
  {
    if text != [] {
      var x := text[0];
      if s.quoted {
        if x == QUOTE && |text| > 1 && text[1] == QUOTE {
          assert text[1..][1..] == text[2..];
          LineEndsBounded(text[2..], Append(s, QUOTE).value);
        } else if x == QUOTE {
          LineEndsBounded(text[1..], s.(quoted := false));
        } else {
          LineEndsBounded(text[1..], Append(s, x).value);
        }
      } else if x == QUOTE {
        LineEndsBounded(text[1..], s.(quoted := true));
      } else if x == COMMA {
        LineEndsBounded(text[1..], s.(record := s.record + [s.cell], cell := []));
      } else if x == LF {
        LineEndsBounded(text[1..], EndRecord(s));
      } else {
        LineEndsBounded(text[1..], Append(s, x).value);
      }
    }
  }

  /** A line of one letter without its end, after n empty lines. */
  function EmptyLines(n: nat): Text { if n == 0 then [0x61] else [LF] + EmptyLines(n - 1) }

  lemma {:induction false} EmptyLinesParse(n: nat, before: seq<seq<Text>>)
    requires |before| + n <= MAX_ROWS + 1
    ensures var r := Parse(EmptyLines(n), State(before, [], [], false)); r.Ok? && |r.value| == |before| + n + 1
    decreases n
  {
    var s := State(before, [], [], false);
    if n == 0 {
      assert EmptyLines(0)[1..] == [];
      assert Parse([], s.(cell := [0x61])) == Ok(EndRecord(s.(cell := [0x61])).records);
    } else {
      assert EmptyLines(n)[1..] == EmptyLines(n - 1);
      EmptyLinesParse(n - 1, EndRecord(s).records);
    }
  }

  /** The limit on rows can be passed by one. */
  lemma OneRecordTooMany() returns (text: Text, records: seq<seq<Text>>)
    ensures Parse(text, Fresh) == Ok(records) && |records| == MAX_ROWS + 2
  {
    text := EmptyLines(MAX_ROWS + 1);
    EmptyLinesParse(MAX_ROWS + 1, []);
    records := Parse(text, Fresh).value;
  }
}
