/** Reading an LLM document back: what its own lines tell a reader about rows kept and failures. */
module RenderReading {
  import opened Wrappers
  import opened Csv
  import opened Numerals
  import opened LlmRender

  /** The cells of a line that holds a single record. */
  function ReadLine(line: Text): Option<Cells> {
    match ReadRecord(line)
    case None => None
    case Some((cells, rest)) => if rest == "" then Some(cells) else None
  }

  lemma LineReadsBack(cells: Cells)
    requires cells != []
    ensures ReadLine(CsvLine(cells)) == Some(cells)
  {
    hide ReadRecord, CsvLine;
    RecordReadsBack(cells, "");
    assert CsvLine(cells) + "" == CsvLine(cells);
  }

  function ReadNumber(cell: Text): Option<nat> {
    if cell != "" && AllDigits(cell) then Some(ValueOf(cell)) else None
  }

  lemma NumberReadsBack(n: nat)
    ensures ReadNumber(Decimal(n)) == Some(n)
  {
    DecimalReadsBack(n);
  }

  /** The cell after `name` in a list of names and values. */
  function Field(cells: Cells, name: Text): Option<Text> {
    if |cells| < 2 then None
    else if cells[0] == name then Some(cells[1])
    else Field(cells[2..], name)
  }

  lemma FieldCons(name: Text, value: Text, rest: Cells, wanted: Text)
    ensures Field([name, value] + rest, wanted) == if name == wanted then Some(value) else Field(rest, wanted)
  {
    assert ([name, value] + rest)[2..] == rest;
  }

  // ---- blocks ----

  /** How many rows a block has and how many of them follow, from its data line. */
  function ReadCounts(line: Text): Option<(nat, nat)> {
    match ReadLine(line)
    case None => None
    case Some(cells) =>
      if cells == [] || cells[0] != "data" then None
      else
        var fields := cells[1..];
        match Field(fields, "rows")
        case Some(n) => if ReadNumber(n).Some? then Some((ReadNumber(n).value, ReadNumber(n).value)) else None
        case None =>
          match (Field(fields, "rows_original"), Field(fields, "rows_emitted"))
          case (Some(n), Some(k)) =>
            if ReadNumber(n).Some? && ReadNumber(k).Some? then Some((ReadNumber(n).value, ReadNumber(k).value))
            else None
          case _ => None
  }

  lemma DataLineReadsBack(total: nat, kept: nat, compression: Text)
    ensures ReadCounts(DataLine(total, kept, compression)) == Some((total, kept))
  {
    hide ReadLine, CsvLine, ReadNumber, Decimal;
    NumberReadsBack(total);
    NumberReadsBack(kept);
    var head := ["data", "compression", compression];
    if kept == total {
      LineReadsBack(head + ["rows", Decimal(kept)]);
      assert (head + ["rows", Decimal(kept)])[1..] == ["compression", compression, "rows", Decimal(kept)];
      AllRowsField(compression, Decimal(kept));
    } else {
      var tail := ["rows_original", Decimal(total), "rows_emitted", Decimal(kept)];
      LineReadsBack(head + tail);
      assert (head + tail)[1..] == ["compression", compression] + tail;
      SomeRowsFields(compression, Decimal(total), Decimal(kept));
    }
  }

  lemma AllRowsField(compression: Text, n: Text)
    ensures Field(["compression", compression, "rows", n], "rows") == Some(n)
  {
    assert ["compression", compression, "rows", n][2..] == ["rows", n];
  }

  lemma SomeRowsFields(compression: Text, n: Text, k: Text)
    ensures var fields := ["compression", compression] + ["rows_original", n, "rows_emitted", k];
            && Field(fields, "rows") == None
            && Field(fields, "rows_original") == Some(n) && Field(fields, "rows_emitted") == Some(k)
  {
    var last := ["rows_emitted", k] + [];
    var tail := ["rows_original", n] + last;
    assert ["rows_original", n, "rows_emitted", k] == tail;
    hide Field;
    forall wanted | wanted in {"rows", "rows_original", "rows_emitted"}
      ensures Field(["compression", compression] + tail, wanted)
           == if wanted == "rows_original" then Some(n) else if wanted == "rows_emitted" then Some(k) else None
    {
      FieldCons("compression", compression, tail, wanted);
      FieldCons("rows_original", n, last, wanted);
      FieldCons("rows_emitted", k, [], wanted);
      NoField(wanted);
    }
  }

  lemma NoField(wanted: Text)
    ensures Field([], wanted) == None
  {
  }

  /** The number of rows that the last line of a block tells. */
  function ReadEnd(line: Text): Option<nat> {
    match ReadLine(line)
    case None => None
    case Some(cells) =>
      if |cells| == 3 && cells[0] == "block_end" && cells[1] == "rows" then ReadNumber(cells[2]) else None
  }

  lemma BlockEndReadsBack(k: nat)
    ensures ReadEnd(CsvLine(["block_end", "rows", Decimal(k)])) == Some(k)
  {
    hide ReadLine, CsvLine, ReadNumber, Decimal;
    LineReadsBack(["block_end", "rows", Decimal(k)]);
    NumberReadsBack(k);
  }

  /** What a reader finds in a block: the lines before its data line, how many rows it has, its header and the
      rows kept. */
  datatype Reading = Reading(prefix: seq<Text>, total: nat, header: Text, rows: seq<Text>)

  /** Reads a block with `p` lines in front of its data line. The data line and the last line must both tell how
      many rows follow. */
  function ReadBlock(lines: seq<Text>, p: nat): Option<Reading> {
    if |lines| < p + 3 then None
    else
      match ReadCounts(lines[p])
      case None => None
      case Some((total, kept)) =>
        if |lines| == p + 3 + kept && ReadEnd(lines[p + 2 + kept]) == Some(kept)
        then Some(Reading(lines[..p], total, lines[p + 1], lines[p + 2..p + 2 + kept]))
        else None
  }

  /** A reader who trusts the counts finds the number of rows of the block and exactly the rows kept. */
  lemma BlockReadsBack(b: Block, selected: seq<nat>, compression: Text)
    requires SelectsRows(b, selected)
    ensures ReadBlock(BlockLines(b, selected, compression), |b.prefixLines|)
         == Some(Reading(b.prefixLines, |b.rowLines|, b.header, Rows(b, selected)))
  {
    hide ReadCounts, ReadEnd, DataLine, CsvLine, Rows, Decimal;
    var p, n, k := |b.prefixLines|, |b.rowLines|, |selected|;
    var lines := BlockLines(b, selected, compression);
    DataLineReadsBack(n, k, compression);
    BlockEndReadsBack(k);
    assert |lines| == p + 3 + k;
    assert lines[p] == DataLine(n, k, compression) && lines[p + 1] == b.header;
    assert lines[p + 2 + k] == CsvLine(["block_end", "rows", Decimal(k)]);
    assert lines[p + 2..p + 2 + k] == Rows(b, selected);
    assert lines[..p] == b.prefixLines;
  }

  /** How many lines the blocks take. */
  function BlocksSize(blocks: seq<Block>, selections: seq<seq<nat>>): nat
    requires |blocks| == |selections|
  {
    if blocks == [] then 0
    else |blocks[0].prefixLines| + 3 + |selections[0]| + BlocksSize(blocks[1..], selections[1..])
  }

  /** The lines of one block among those of all. */
  lemma {:induction false} BlockIsFound(blocks: seq<Block>, selections: seq<seq<nat>>, compression: Text, i: nat)
    requires SelectsAll(blocks, selections) && i < |blocks|
    ensures var from := BlocksSize(blocks[..i], selections[..i]);
            var lines := BlocksLines(blocks, selections, compression);
            var own := BlockLines(blocks[i], selections[i], compression);
            from + |own| <= |lines| && lines[from..from + |own|] == own
  {
    hide BlockLines;
    BlockSize(blocks[0], selections[0], compression);
    if i > 0 {
      BlockIsFound(blocks[1..], selections[1..], compression, i - 1);
      assert blocks[..i][1..] == blocks[1..][..i - 1] && selections[..i][1..] == selections[1..][..i - 1];
      var first := BlockLines(blocks[0], selections[0], compression);
      var rest := BlocksLines(blocks[1..], selections[1..], compression);
      var from := BlocksSize(blocks[1..][..i - 1], selections[1..][..i - 1]);
      var own := BlockLines(blocks[i], selections[i], compression);
      assert (first + rest)[|first| + from..|first| + from + |own|] == rest[from..from + |own|];
    }
  }

  lemma BlockSize(b: Block, selected: seq<nat>, compression: Text)
    requires SelectsRows(b, selected)
    ensures |BlockLines(b, selected, compression)| == |b.prefixLines| + 3 + |selected|
  {
  }

  /** From the document's lines every block reads back: after two lines of frame and the blocks before it. */
  lemma DocumentBlocksReadBack(artifact: Artifact, blocks: seq<Block>, selections: seq<seq<nat>>, compression: Text,
                               i: nat)
    requires SelectsAll(blocks, selections) && i < |blocks|
    ensures var from := 2 + BlocksSize(blocks[..i], selections[..i]);
            var to := from + |blocks[i].prefixLines| + 3 + |selections[i]|;
            var lines := DocumentLines(artifact, blocks, selections, compression);
            && to <= |lines|
            && ReadBlock(lines[from..to], |blocks[i].prefixLines|)
               == Some(Reading(blocks[i].prefixLines, |blocks[i].rowLines|, blocks[i].header,
                               Rows(blocks[i], selections[i])))
  {
    hide ReadBlock, BlockLines, Rows, MetaLine, CsvLine, GapLine, BlocksSize, BlocksLines;
    BlockIsFound(blocks, selections, compression, i);
    BlockSize(blocks[i], selections[i], compression);
    BlockReadsBack(blocks[i], selections[i], compression);
    var all := BlocksLines(blocks, selections, compression);
    var lines := DocumentLines(artifact, blocks, selections, compression);
    assert lines[2..2 + |all|] == all;
    var from := BlocksSize(blocks[..i], selections[..i]);
    var size := |blocks[i].prefixLines| + 3 + |selections[i]|;
    assert lines[2 + from..2 + from + size] == all[from..from + size];
  }

  // ---- the frame ----

  /** The meta line tells the compression, whether there were failures, and the focus of a lossy document. */
  lemma MetaReadsBack(artifact: Artifact, compression: Text)
    ensures ReadLine(MetaLine(artifact, compression)).Some?
    ensures var cells := ReadLine(MetaLine(artifact, compression)).value;
            && cells != [] && cells[0] == "meta"
            && Field(cells[1..], "numbers") == Some(artifact.numberFormat)
            && Field(cells[1..], "compression") == Some(compression)
            && (Field(cells[1..], "partial") == Some("true") <==> artifact.failures != [])
            && (Field(cells[1..], "partial") == Some("false") <==> artifact.failures == [])
            && Field(cells[1..], "focus") == if compression == "lossy" then Some(artifact.focus) else None
  {
    hide ReadLine, CsvLine;
    var flag := BoolText(artifact.failures != []);
    var focus := if compression == LOSSY then ["focus", artifact.focus] else [];
    var fields := ["model", "gpt-5.6", "numbers", artifact.numberFormat, "compression", compression,
                   "partial", flag] + focus;
    LineReadsBack(["meta"] + fields);
    assert ["meta"] + fields == ["meta", "model", "gpt-5.6", "numbers", artifact.numberFormat,
                                 "compression", compression, "partial", flag] + focus;
    assert (["meta"] + fields)[1..] == fields;
    MetaFields(artifact.numberFormat, compression, flag, focus);
    assert focus != [] ==> focus[2..] == [];
  }

  lemma MetaFields(numbers: Text, compression: Text, flag: Text, focus: Cells)
    ensures var fields := ["model", "gpt-5.6", "numbers", numbers, "compression", compression, "partial", flag] + focus;
            && Field(fields, "numbers") == Some(numbers)
            && Field(fields, "compression") == Some(compression)
            && Field(fields, "partial") == Some(flag)
            && Field(fields, "focus") == Field(focus, "focus")
  {
    var a := ["partial", flag] + focus;
    var b := ["compression", compression] + a;
    var c := ["numbers", numbers] + b;
    assert ["model", "gpt-5.6"] + c
        == ["model", "gpt-5.6", "numbers", numbers, "compression", compression, "partial", flag] + focus;
    hide Field;
    assert "numbers"[0] != "partial"[0] && "model"[0] != "focus"[0];
    forall wanted | wanted in {"numbers", "compression", "partial", "focus"}
      ensures Field(["model", "gpt-5.6"] + c, wanted)
           == if wanted == "numbers" then Some(numbers) else if wanted == "compression" then Some(compression)
              else if wanted == "partial" then Some(flag) else Field(focus, wanted)
    {
      FieldCons("model", "gpt-5.6", c, wanted);
      FieldCons("numbers", numbers, b, wanted);
      FieldCons("compression", compression, a, wanted);
      FieldCons("partial", flag, focus, wanted);
    }
  }

  function ReadGap(line: Text): Option<Failure> {
    match ReadLine(line)
    case None => None
    case Some(cells) =>
      if |cells| == 5 && cells[0] == "gap" && ReadNumber(cells[1]).Some?
      then Some(Failure(ReadNumber(cells[1]).value, cells[2], cells[3], cells[4]))
      else None
  }

  lemma GapReadsBack(f: Failure)
    ensures ReadGap(GapLine(f)) == Some(f)
  {
    hide ReadLine, CsvLine, ReadNumber, Decimal;
    LineReadsBack(["gap", Decimal(f.requestId), f.symbol, f.code, f.message]);
    NumberReadsBack(f.requestId);
  }

  /** The lines before the last read back as the failures, in order, and the last tells whether there were any. */
  lemma FailuresReadBack(artifact: Artifact, blocks: seq<Block>, selections: seq<seq<nat>>, compression: Text)
    requires SelectsAll(blocks, selections)
    ensures var lines, n := DocumentLines(artifact, blocks, selections, compression), |artifact.failures|;
            && |lines| >= n + 1
            && (forall i :: 0 <= i < n ==> ReadGap(lines[|lines| - 1 - n + i]) == Some(artifact.failures[i]))
            && ReadLine(lines[|lines| - 1])
               == Some(["document_end", "status", if artifact.failures == [] then "success" else "partial"])
  {
    hide ReadLine, CsvLine, ReadGap, GapLine, MetaLine;
    var lines, n := DocumentLines(artifact, blocks, selections, compression), |artifact.failures|;
    forall i | 0 <= i < n ensures ReadGap(lines[|lines| - 1 - n + i]) == Some(artifact.failures[i]) {
      assert lines[|lines| - 1 - n + i] == GapLine(artifact.failures[i]);
      GapReadsBack(artifact.failures[i]);
    }
    LineReadsBack(["document_end", "status", if artifact.failures == [] then "success" else "partial"]);
  }
}
