/** The CSV printer of the LLM document, and a reader of section 2 of RFC 4180 for it. A text stands for
    its UTF-8 bytes, one character a byte; the printer only looks at ASCII characters. */
module Csv {
  import opened Wrappers

  type Text = string
  type Cells = seq<Text>

  predicate IsSpecial(c: char) {
    c == ',' || c == '"' || c == '\n' || c == '\r'
  }

  predicate NeedsQuotes(value: Text) {
    exists i :: 0 <= i < |value| && IsSpecial(value[i])
  }

  function DoubleQuotes(value: Text): Text {
    if value == "" then ""
    else (if value[0] == '"' then "\"\"" else [value[0]]) + DoubleQuotes(value[1..])
  }

  function CsvEscape(value: Text): Text {
    if NeedsQuotes(value) then "\"" + DoubleQuotes(value) + "\"" else value
  }

  /** Escaped cells joined by commas. */
  function CsvLine(cells: Cells): Text {
    if cells == [] then ""
    else if |cells| == 1 then CsvEscape(cells[0])
    else CsvEscape(cells[0]) + "," + CsvLine(cells[1..])
  }

  // ---- reader ----

  /** The field inside an opened quote, up to its closing quote; two quotes stand for one. */
  function ReadQuoted(text: Text): (r: Option<(Text, Text)>)
    ensures r.Some? ==> |r.value.1| < |text|
  {
    if text == "" then None
    else if text[0] != '"' then
      match ReadQuoted(text[1..])
      case None => None
      case Some((field, rest)) => Some(([text[0]] + field, rest))
    else if |text| > 1 && text[1] == '"' then
      match ReadQuoted(text[2..])
      case None => None
      case Some((field, rest)) => Some((['"'] + field, rest))
    else Some(("", text[1..]))
  }

  function ReadPlain(text: Text): (r: (Text, Text))
    ensures |r.1| <= |text|
  {
    if text == "" || IsSpecial(text[0]) then ("", text)
    else
      var (field, rest) := ReadPlain(text[1..]);
      ([text[0]] + field, rest)
  }

  function ReadField(text: Text): (r: Option<(Text, Text)>)
    ensures r.Some? ==> |r.value.1| <= |text|
  {
    if text != "" && text[0] == '"' then ReadQuoted(text[1..]) else Some(ReadPlain(text))
  }

  /** One record and the text after its line break; the break may be a bare line feed. */
  function ReadRecord(text: Text): (r: Option<(Cells, Text)>)
    ensures r.Some? && text != "" ==> |r.value.1| < |text|
    decreases |text|
  {
    match ReadField(text)
    case None => None
    case Some((field, rest)) =>
      if rest == "" then Some(([field], ""))
      else if rest[0] == '\n' then Some(([field], rest[1..]))
      else if |rest| > 1 && rest[0] == '\r' && rest[1] == '\n' then Some(([field], rest[2..]))
      else if rest[0] != ',' then None
      else
        match ReadRecord(rest[1..])
        case None => None
        case Some((cells, after)) => Some(([field] + cells, after))
  }

  function ReadDocument(text: Text): Option<seq<Cells>>
    decreases |text|
  {
    if text == "" then Some([])
    else
      match ReadRecord(text)
      case None => None
      case Some((record, rest)) =>
        match ReadDocument(rest)
        case None => None
        case Some(records) => Some([record] + records)
  }

  // ---- the reader inverts the printer ----

  lemma {:induction false} QuotedReadsBack(value: Text, after: Text)
    requires after == "" || after[0] != '"'
    ensures ReadQuoted(DoubleQuotes(value) + "\"" + after) == Some((value, after))
  {
    if value != "" {
      var head := if value[0] == '"' then "\"\"" else [value[0]];
      var tail := DoubleQuotes(value[1..]) + "\"" + after;
      assert DoubleQuotes(value) + "\"" + after == head + tail;
      QuotedReadsBack(value[1..], after);
      assert (head + tail)[|head|..] == tail;
      assert value == [value[0]] + value[1..];
    } else {
      assert DoubleQuotes(value) + "\"" + after == ['"'] + after;
    }
  }

  lemma {:induction false} PlainReadsBack(value: Text, after: Text)
    requires !NeedsQuotes(value) && (after == "" || IsSpecial(after[0]))
    ensures ReadPlain(value + after) == (value, after)
  {
    if value == "" {
      assert value + after == after;
    } else {
      var tail := value[1..];
      assert !IsSpecial(value[0]);
      assert forall i :: 0 <= i < |tail| ==> tail[i] == value[i + 1];
      PlainReadsBack(tail, after);
      assert (value + after)[1..] == tail + after;
      assert value == [value[0]] + tail;
    }
  }

  lemma FieldReadsBack(value: Text, after: Text)
    requires after == "" || after[0] == ',' || after[0] == '\n'
    ensures ReadField(CsvEscape(value) + after) == Some((value, after))
  {
    hide ReadQuoted, ReadPlain, DoubleQuotes;
    if NeedsQuotes(value) {
      var rest := DoubleQuotes(value) + "\"" + after;
      assert CsvEscape(value) + after == ['"'] + rest;
      QuotedReadsBack(value, after);
    } else {
      assert value != "" ==> !IsSpecial(value[0]);
      PlainReadsBack(value, after);
    }
  }

  /** A printed record followed by the end of the text or a line feed reads back cell by cell, whatever
      commas, quotes and line breaks its cells contain. */
  lemma {:induction false} RecordReadsBack(cells: Cells, after: Text)
    requires cells != [] && (after == "" || after[0] == '\n')
    ensures ReadRecord(CsvLine(cells) + after) == Some((cells, if after == "" then "" else after[1..]))
  {
    hide ReadField, CsvEscape;
    if |cells| == 1 {
      FieldReadsBack(cells[0], after);
      assert cells == [cells[0]];
    } else {
      var tail := CsvLine(cells[1..]) + after;
      var rest := "," + tail;
      assert CsvLine(cells) + after == CsvEscape(cells[0]) + rest;
      FieldReadsBack(cells[0], rest);
      assert rest[0] == ',' && rest[1..] == tail;
      RecordReadsBack(cells[1..], after);
      assert cells == [cells[0]] + cells[1..];
    }
  }

  /** The printer loses nothing but the difference between no cell and one empty cell. */
  lemma PrinterIsInjective(a: Cells, b: Cells)
    ensures CsvLine(a) == CsvLine(b) <==> a == b || (a == [] && b == [""]) || (a == [""] && b == [])
  {
    var empty: Cells := [""];
    assert CsvLine(empty) == CsvEscape("") == "";
    if CsvLine(a) == CsvLine(b) {
      assert CsvLine(a) + "" == CsvLine(a) && CsvLine(b) + "" == CsvLine(b);
      if a != [] { RecordReadsBack(a, ""); } else { RecordReadsBack(empty, ""); }
      if b != [] { RecordReadsBack(b, ""); } else { RecordReadsBack(empty, ""); }
      assert "" + "" == "";
    }
  }

  /** Every line followed by a line feed. */
  function Emit(lines: seq<Text>): Text {
    if lines == [] then "" else lines[0] + "\n" + Emit(lines[1..])
  }

  function CsvLines(records: seq<Cells>): seq<Text> {
    seq(|records|, i requires 0 <= i < |records| => CsvLine(records[i]))
  }

  lemma CsvLinesTail(records: seq<Cells>)
    requires records != []
    ensures Emit(CsvLines(records)) == CsvLine(records[0]) + ("\n" + Emit(CsvLines(records[1..])))
  {
    hide CsvLine;
    assert CsvLines(records)[1..] == CsvLines(records[1..]);
  }

  /** A whole document of printed records reads back record by record. */
  lemma {:induction false} DocumentReadsBack(records: seq<Cells>)
    requires forall i :: 0 <= i < |records| ==> records[i] != []
    ensures ReadDocument(Emit(CsvLines(records))) == Some(records)
  {
    hide ReadRecord, CsvLine, CsvLines;
    if records == [] {
      assert CsvLines(records) == [] by { NoLines(); }
    } else {
      var tail := records[1..];
      DocumentReadsBack(tail);
      CsvLinesTail(records);
      var rest := "\n" + Emit(CsvLines(tail));
      RecordReadsBack(records[0], rest);
      assert rest[1..] == Emit(CsvLines(tail));
      assert records == [records[0]] + tail;
    }
  }

  lemma NoLines()
    ensures CsvLines([]) == []
  {
  }
}
