/** Which texts the writer has to quote. */
module Quoting {
  const COMMA: char := ','
  const QUOTE: char := '\"'
  const LF: char := '\n'

  type Record = seq<string>

  predicate NeedsQuotes(s: string)
  {
    COMMA in s || QUOTE in s || LF in s
  }

  predicate PlainHeaders(headers: Record)
  {
    headers != [] && forall i :: 0 <= i < |headers| ==> !NeedsQuotes(headers[i])
  }
}

/**
 * The CSV writer behind every admin export, and an independent reader for it.
 *
 * The writer follows backend/src/modules/admin/admin.service.ts. The reader follows section 2 of RFC 4180
 * with LF in place of CRLF: records separated by LF, fields by commas, a field that starts with a double
 * quote ends at the next undoubled one. It treats a bare CR as ordinary text, as the writer does.
 */
module Csv {
  import opened Basics
  import opened Quoting
  import opened Text

  /** A cell as the service passes it: null, undefined, or a value whose `String(value)` is `text`. */
  datatype Cell = Null | Undefined | Value(text: string)

  // ------------------------------------------------------------------ the writer

  function CellText(cell: Cell): string
  {
    match cell
    case Null => ""
    case Undefined => ""
    case Value(text) => text
  }

  function RowText(row: seq<Cell>): Record
  {
    seq(|row|, i requires 0 <= i < |row| => CellText(row[i]))
  }

  function RowTexts(rows: seq<seq<Cell>>): seq<Record>
  {
    seq(|rows|, i requires 0 <= i < |rows| => RowText(rows[i]))
  }

  /** `str.replace(/"/g, '""')`. */
  function DoubleQuotes(s: string): string
  {
    if s == "" then ""
    else (if s[0] == QUOTE then [QUOTE, QUOTE] else [s[0]]) + DoubleQuotes(s[1..])
  }

  function EscapeText(s: string): string
  {
    if NeedsQuotes(s) then [QUOTE] + DoubleQuotes(s) + [QUOTE] else s
  }

  function CsvEscape(cell: Cell): string
  {
    EscapeText(CellText(cell))
  }

  function EscapeAll(fields: Record): seq<string>
  {
    seq(|fields|, i requires 0 <= i < |fields| => EscapeText(fields[i]))
  }

  /** One printed data row. */
  function Line(fields: Record): string
  {
    Join(EscapeAll(fields), [COMMA])
  }

  function Lines(rows: seq<Record>): seq<string>
  {
    seq(|rows|, i requires 0 <= i < |rows| => Line(rows[i]))
  }

  /** What `toCsv` prints: the header row unescaped, then one escaped line per row. */
  function CsvText(headers: Record, rows: seq<Record>): string
  {
    Join([Join(headers, [COMMA])] + Lines(rows), [LF])
  }

  /** Field by field: the text of the cell, and nothing at all for null and undefined. */
  ghost predicate Shows(records: seq<Record>, rows: seq<seq<Cell>>)
  {
    && |records| == |rows|
    && forall i :: 0 <= i < |rows| ==>
         && |records[i]| == |rows[i]|
         && forall j :: 0 <= j < |rows[i]| ==> records[i][j] == if rows[i][j].Value? then rows[i][j].text else ""
  }

  lemma RowTextsShow(rows: seq<seq<Cell>>)
    ensures Shows(RowTexts(rows), rows)
    ensures (forall i :: 0 <= i < |rows| ==> rows[i] != []) ==> NoEmptyRow(RowTexts(rows))
  {
  }

  /** `toCsv`, with its loop that pushes one line per row. */
  method ToCsv(headers: seq<string>, rows: seq<seq<Cell>>) returns (text: string)
    ensures text == CsvText(headers, RowTexts(rows))
    ensures PlainHeaders(headers) && (forall i :: 0 <= i < |rows| ==> rows[i] != []) ==>
              ReadCsv(text).Some? && |ReadCsv(text).value| == |rows| + 1
              && ReadCsv(text).value[0] == headers && Shows(ReadCsv(text).value[1..], rows)
  {
    RowTextsShow(rows);
    RoundTripExactly(headers, RowTexts(rows));
    var lines := [Join(headers, [COMMA])];
    for i := 0 to |rows|
      invariant lines == [Join(headers, [COMMA])] + Lines(RowTexts(rows[..i]))
    {
      var cells := [];
      for j := 0 to |rows[i]|
        invariant cells == EscapeAll(RowText(rows[i][..j]))
      {
        cells := cells + [CsvEscape(rows[i][j])];
      }
      assert rows[i][..|rows[i]|] == rows[i];
      lines := lines + [Join(cells, [COMMA])];
      assert RowTexts(rows[..i + 1]) == RowTexts(rows[..i]) + [RowText(rows[i])];
    }
    assert rows[..|rows|] == rows;
    text := Join(lines, [LF]);
  }

  // ------------------------------------------------------------------ the reader

  /** A field read off the front of a text, and the text left after it. */
  datatype Field = Field(value: string, rest: string)
  datatype Row = Row(fields: Record, rest: string)

  /** The inside of a quoted field, up to and including its closing quote. */
  function ReadQuoted(s: string): (f: Option<Field>)
    ensures f.Some? ==> |f.value.rest| < |s|
  {
    if s == "" then None
    else if s[0] == '\"' && (|s| == 1 || s[1] != '\"') then Some(Field("", s[1..]))
    else
      var after := if s[0] == '\"' then s[2..] else s[1..];
      match ReadQuoted(after)
      case None => None
      case Some(f) => Some(Field([s[0]] + f.value, f.rest))
  }

  /** An unquoted field: text up to the next comma, LF or end, with no quote in it. */
  function ReadPlain(s: string): (f: Option<Field>)
    ensures f.Some? ==> |f.value.rest| <= |s|
  {
    if s == "" || s[0] == ',' || s[0] == '\n' then Some(Field("", s))
    else if s[0] == '\"' then None
    else
      match ReadPlain(s[1..])
      case None => None
      case Some(f) => Some(Field([s[0]] + f.value, f.rest))
  }

  function ReadField(s: string): (f: Option<Field>)
    ensures f.Some? ==> |f.value.rest| <= |s|
  {
    if s != "" && s[0] == '\"' then ReadQuoted(s[1..]) else ReadPlain(s)
  }

  /** One record; what is left is empty or starts with a line break. */
  function ReadRecord(s: string): (r: Option<Row>)
    ensures r.Some? ==> |r.value.rest| <= |s| && |r.value.fields| >= 1
    ensures r.Some? && r.value.rest != "" ==> r.value.rest[0] == '\n'
    decreases |s|
  {
    match ReadField(s)
    case None => None
    case Some(f) =>
      if f.rest == "" || f.rest[0] == LF then Some(Row([f.value], f.rest))
      else if f.rest[0] != ',' then None
      else
        match ReadRecord(f.rest[1..])
        case None => None
        case Some(r) => Some(Row([f.value] + r.fields, r.rest))
  }

  /** A whole text as records; every LF outside quotes separates two records. */
  function ReadCsv(s: string): (records: Option<seq<Record>>)
    decreases |s|
  {
    match ReadRecord(s)
    case None => None
    case Some(r) =>
      if r.rest == "" then Some([r.fields])
      else
        match ReadCsv(r.rest[1..])
        case None => None
        case Some(records) => Some([r.fields] + records)
  }

  /** The variant that takes the optional line break RFC 4180 allows after the last record. */
  function ReadCsvOptionalEnd(s: string): Option<seq<Record>>
  {
    match ReadCsv(s)
    case None => None
    case Some(records) =>
      if |records| > 1 && records[|records| - 1] == [""] then Some(records[..|records| - 1])
      else Some(records)
  }

  // ------------------------------------------------------------------ printed fields read back

  predicate FieldEnd(rest: string)
  {
    rest == "" || rest[0] == COMMA || rest[0] == LF
  }

  lemma {:induction false} QuotedReadsBack(v: string, rest: string)
    requires FieldEnd(rest)
    ensures ReadQuoted(DoubleQuotes(v) + [QUOTE] + rest) == Some(Field(v, rest))
  {
    var s := DoubleQuotes(v) + [QUOTE] + rest;
    if v == "" {
      assert s[1..] == rest;
    } else {
      QuotedReadsBack(v[1..], rest);
      var t := DoubleQuotes(v[1..]) + [QUOTE] + rest;
      var printed := if v[0] == QUOTE then [QUOTE, QUOTE] else [v[0]];
      assert s == printed + t;
      assert s[|printed|..] == t;
      assert [v[0]] + v[1..] == v;
    }
  }

  lemma {:induction false} PlainReadsBack(v: string, rest: string)
    requires !NeedsQuotes(v) && FieldEnd(rest)
    ensures ReadPlain(v + rest) == Some(Field(v, rest))
  {
    if v == "" {
      assert v + rest == rest;
    } else {
      PlainReadsBack(v[1..], rest);
      assert (v + rest)[1..] == v[1..] + rest;
      assert [v[0]] + v[1..] == v;
    }
  }

  lemma FieldReadsBack(v: string, rest: string)
    requires FieldEnd(rest)
    ensures ReadField(EscapeText(v) + rest) == Some(Field(v, rest))
  {
    hide DoubleQuotes, ReadQuoted, ReadPlain;
    if NeedsQuotes(v) {
      QuotedReadsBack(v, rest);
      assert (EscapeText(v) + rest)[1..] == DoubleQuotes(v) + [QUOTE] + rest;
    } else {
      PlainReadsBack(v, rest);
      assert v != "" ==> (v + rest)[0] == v[0] != QUOTE;
    }
  }

  lemma EscapeAllSplit(fields: Record)
    requires |fields| >= 1
    ensures EscapeAll(fields) == [EscapeText(fields[0])] + EscapeAll(fields[1..])
  {
  }

  lemma FirstField(fields: Record)
    requires |fields| >= 2
    ensures Line(fields) == EscapeText(fields[0]) + ([COMMA] + Line(fields[1..]))
  {
    EscapeAllSplit(fields);
  }

  lemma {:induction false} LineReadsBack(fields: Record, rest: string)
    requires |fields| >= 1
    requires rest == "" || rest[0] == LF
    ensures ReadRecord(Line(fields) + rest) == Some(Row(fields, rest))
  {
    hide EscapeText, ReadField;
    if |fields| == 1 {
      FieldReadsBack(fields[0], rest);
      assert EscapeAll(fields) == [EscapeText(fields[0])];
      assert fields == [fields[0]];
    } else {
      hide Line;
      var tail := [COMMA] + (Line(fields[1..]) + rest);
      FieldReadsBack(fields[0], tail);
      FirstField(fields);
      assert Line(fields) + rest == EscapeText(fields[0]) + tail;
      LineReadsBack(fields[1..], rest);
      assert tail[1..] == Line(fields[1..]) + rest;
      assert [fields[0]] + fields[1..] == fields;
    }
  }

  lemma FirstLine(rows: seq<Record>)
    requires |rows| >= 2
    ensures Join(Lines(rows), [LF]) == Line(rows[0]) + ([LF] + Join(Lines(rows[1..]), [LF]))
  {
    assert Lines(rows) == [Line(rows[0])] + Lines(rows[1..]);
  }

  lemma {:induction false} LinesReadBack(rows: seq<Record>)
    requires |rows| >= 1
    requires forall i :: 0 <= i < |rows| ==> rows[i] != []
    ensures ReadCsv(Join(Lines(rows), [LF])) == Some(rows)
  {
    if |rows| == 1 {
      LineReadsBack(rows[0], "");
      assert Lines(rows) == [Line(rows[0])];
      assert Line(rows[0]) + "" == Line(rows[0]);
      assert rows == [rows[0]];
    } else {
      var tail := [LF] + Join(Lines(rows[1..]), [LF]);
      LineReadsBack(rows[0], tail);
      FirstLine(rows);
      LinesReadBack(rows[1..]);
      assert tail[1..] == Join(Lines(rows[1..]), [LF]);
      assert [rows[0]] + rows[1..] == rows;
    }
  }

  // ------------------------------------------------------------------ printing is the shortest text

  lemma {:induction false} DoubleQuotesLength(v: string)
    ensures |v| <= |DoubleQuotes(v)|
  {
    if v != "" {
      DoubleQuotesLength(v[1..]);
    }
  }

  lemma {:induction false} QuotedLength(s: string)
    requires ReadQuoted(s).Some?
    ensures |s| == |DoubleQuotes(ReadQuoted(s).value.value)| + 1 + |ReadQuoted(s).value.rest|
  {
    if s[0] == QUOTE && (|s| == 1 || s[1] != QUOTE) {
    } else {
      var after := if s[0] == QUOTE then s[2..] else s[1..];
      QuotedLength(after);
      var v := ReadQuoted(s).value.value;
      assert v[1..] == ReadQuoted(after).value.value;
    }
  }

  lemma {:induction false} PlainLength(s: string)
    requires ReadPlain(s).Some?
    ensures !NeedsQuotes(ReadPlain(s).value.value)
    ensures |s| == |ReadPlain(s).value.value| + |ReadPlain(s).value.rest|
  {
    if !(s == "" || s[0] == COMMA || s[0] == LF) {
      PlainLength(s[1..]);
    }
  }

  /** Whatever text a field was read from, printing its value is no longer than that text. */
  lemma FieldLength(s: string)
    requires ReadField(s).Some?
    ensures |EscapeText(ReadField(s).value.value)| + |ReadField(s).value.rest| <= |s|
  {
    if s != "" && s[0] == QUOTE {
      QuotedLength(s[1..]);
      DoubleQuotesLength(ReadField(s).value.value);
    } else {
      PlainLength(s);
    }
  }

  lemma {:induction false} RecordLength(s: string)
    requires ReadRecord(s).Some?
    ensures |Line(ReadRecord(s).value.fields)| + |ReadRecord(s).value.rest| <= |s|
    decreases |s|
  {
    FieldLength(s);
    var f := ReadField(s).value;
    if f.rest == "" || f.rest[0] == LF {
      assert Line([f.value]) == EscapeText(f.value);
    } else {
      RecordLength(f.rest[1..]);
      var r := ReadRecord(f.rest[1..]).value;
      EscapeAllSplit([f.value] + r.fields);
      assert ([f.value] + r.fields)[1..] == r.fields;
    }
  }

  /** The reader never returns an empty table or an empty record. */
  lemma {:induction false} ReadsNoEmptyRecord(s: string)
    requires ReadCsv(s).Some?
    ensures |ReadCsv(s).value| >= 1 && NoEmptyRow(ReadCsv(s).value)
    decreases |s|
  {
    var r := ReadRecord(s).value;
    if r.rest != "" {
      ReadsNoEmptyRecord(r.rest[1..]);
    }
  }

  /** Among all texts that read as a given table, the fully escaped one is the shortest. */
  lemma {:induction false} PrintingIsShortest(s: string)
    requires ReadCsv(s).Some?
    ensures |Join(Lines(ReadCsv(s).value), [LF])| <= |s|
    decreases |s|
  {
    RecordLength(s);
    var r := ReadRecord(s).value;
    if r.rest == "" {
      CsvTextAsLines(r.fields, []);
      assert [r.fields] + [] == [r.fields];
    } else {
      PrintingIsShortest(r.rest[1..]);
      var records := ReadCsv(r.rest[1..]).value;
      ReadsNoEmptyRecord(r.rest[1..]);
      CsvTextAsLines(r.fields, records);
      assert ([Line(r.fields)] + Lines(records))[1..] == Lines(records);
    }
  }

  // ------------------------------------------------------------------ the round trip, exactly

  predicate NoEmptyRow(rows: seq<Record>)
  {
    forall i :: 0 <= i < |rows| ==> rows[i] != []
  }

  lemma HeaderLine(headers: Record)
    requires forall i :: 0 <= i < |headers| ==> !NeedsQuotes(headers[i])
    ensures Line(headers) == Join(headers, [COMMA])
  {
    assert EscapeAll(headers) == headers;
  }

  lemma CsvTextAsLines(headers: Record, rows: seq<Record>)
    ensures Lines([headers] + rows) == [Line(headers)] + Lines(rows)
  {
  }

  lemma {:induction false} JoinLength(parts: seq<string>, other: seq<string>, sep: string)
    requires |parts| == |other|
    requires forall i :: 0 <= i < |parts| ==> |parts[i]| <= |other[i]|
    ensures |Join(parts, sep)| <= |Join(other, sep)|
    ensures (exists i :: 0 <= i < |parts| && |parts[i]| < |other[i]|) ==> |Join(parts, sep)| < |Join(other, sep)|
  {
    if |parts| > 1 {
      JoinLength(parts[1..], other[1..], sep);
      if i :| 0 <= i < |parts| && |parts[i]| < |other[i]| {
        if i > 0 {
          assert |parts[1..][i - 1]| < |other[1..][i - 1]|;
        }
      }
    }
  }

  /** A header that needs quotes is printed shorter than any text it could be read from. */
  lemma UnescapedHeaderIsShorter(headers: Record, rows: seq<Record>)
    requires !(forall i :: 0 <= i < |headers| ==> !NeedsQuotes(headers[i]))
    ensures |CsvText(headers, rows)| < |Join(Lines([headers] + rows), [LF])|
  {
    forall i | 0 <= i < |headers|
      ensures |headers[i]| <= |EscapeAll(headers)[i]|
      ensures NeedsQuotes(headers[i]) ==> |headers[i]| < |EscapeAll(headers)[i]|
    {
      DoubleQuotesLength(headers[i]);
    }
    JoinLength(headers, EscapeAll(headers), [COMMA]);
    CsvTextAsLines(headers, rows);
    var unescaped, escaped := [Join(headers, [COMMA])] + Lines(rows), [Line(headers)] + Lines(rows);
    JoinLength(unescaped, escaped, [LF]);
    assert |unescaped[0]| < |escaped[0]|;
  }

  /**
   * The round trip holds for exactly the tables whose header names contain no comma, quote or LF and whose
   * header list and rows are not empty: the header row is the one place the writer does not escape.
   */
  lemma RoundTripExactly(headers: Record, rows: seq<Record>)
    ensures ReadCsv(CsvText(headers, rows)) == Some([headers] + rows)
            <==> PlainHeaders(headers) && NoEmptyRow(rows)
  {
    var table := [headers] + rows;
    var text := CsvText(headers, rows);
    CsvTextAsLines(headers, rows);
    if PlainHeaders(headers) && NoEmptyRow(rows) {
      HeaderLine(headers);
      LinesReadBack(table);
    } else if ReadCsv(text) == Some(table) {
      ReadsNoEmptyRecord(text);
      PrintingIsShortest(text);
      assert table[0] == headers && forall i :: 0 <= i < |rows| ==> rows[i] == table[i + 1];
      UnescapedHeaderIsShorter(headers, rows);
    }
  }

  /** Two tables that print alike are the same table. */
  lemma WriterIsInjective(headers: Record, rows: seq<Record>, headers': Record, rows': seq<Record>)
    requires PlainHeaders(headers) && NoEmptyRow(rows)
    requires PlainHeaders(headers') && NoEmptyRow(rows')
    requires CsvText(headers, rows) == CsvText(headers', rows')
    ensures headers == headers' && rows == rows'
  {
    RoundTripExactly(headers, rows);
    RoundTripExactly(headers', rows');
    assert ([headers] + rows)[1..] == rows && ([headers'] + rows')[1..] == rows';
  }

  /**
   * A reader that takes the optional final line break gives back the same table except for the one shape
   * it cannot tell from that line break: a last row that is a single empty cell.
   */
  lemma OptionalEndRoundTripExactly(headers: Record, rows: seq<Record>)
    requires PlainHeaders(headers) && NoEmptyRow(rows)
    ensures ReadCsvOptionalEnd(CsvText(headers, rows)) == Some([headers] + rows)
            <==> (rows != [] ==> rows[|rows| - 1] != [""])
  {
    RoundTripExactly(headers, rows);
  }
}
