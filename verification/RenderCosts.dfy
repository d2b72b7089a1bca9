/** What each part of an LLM document costs, in thirds of a token: its bytes, and three for every line. */
module RenderCosts {
  import opened Csv
  import opened Numerals
  import opened LlmRender

  function LinesCost(lines: seq<Text>): nat {
    |Emit(lines)| + 3 * |lines|
  }

  lemma LinesCostAdds(a: seq<Text>, b: seq<Text>)
    ensures LinesCost(a + b) == LinesCost(a) + LinesCost(b)
  {
    EmitAppend(a, b);
  }

  lemma LineCost(line: Text)
    ensures LinesCost([line]) == |line| + 4
  {
    EmitOne(line);
  }

  // ---- digits and cells ----

  lemma LineLength2(a: Text, b: Text)
    ensures |CsvLine([a, b])| == |CsvEscape(a)| + 1 + |CsvEscape(b)|
  {
    assert [a, b][1..] == [b];
  }

  lemma LineLengthCons(a: Text, rest: Cells)
    requires rest != []
    ensures |CsvLine([a] + rest)| == |CsvEscape(a)| + 1 + |CsvLine(rest)|
  {
    hide CsvEscape;
    assert ([a] + rest)[1..] == rest;
  }

  lemma CommonHead(c: Text, rest: Cells)
    requires rest != []
    ensures |CsvLine(["data", "compression", c] + rest)|
         == |CsvEscape("data")| + |CsvEscape("compression")| + |CsvEscape(c)| + 3 + |CsvLine(rest)|
  {
    hide CsvLine, CsvEscape;
    LineLengthCons(c, rest);
    LineLengthCons("compression", [c] + rest);
    LineLengthCons("data", ["compression"] + ([c] + rest));
    assert ["data"] + (["compression"] + ([c] + rest)) == ["data", "compression", c] + rest;
  }

  lemma {:induction false} DigitsGrow(a: nat, b: nat)
    requires a <= b
    ensures 1 <= |Decimal(a)| <= |Decimal(b)|
  {
    if b >= 10 && a >= 10 { DigitsGrow(a / 10, b / 10); }
  }

  lemma DigitsArePlain(n: nat)
    ensures |CsvEscape(Decimal(n))| == |Decimal(n)|
  {
    assert !NeedsQuotes(Decimal(n));
  }

  /** Digits of a number. */
  function Digits(n: nat): (d: nat)
    ensures d >= 1
  {
    |Decimal(n)|
  }

  lemma PlainCell(value: Text)
    requires !NeedsQuotes(value)
    ensures |CsvEscape(value)| == |value|
  {
  }

  lemma CountCells(name: Text, n: nat)
    requires !NeedsQuotes(name)
    ensures |CsvLine([name, Decimal(n)])| == |name| + 1 + Digits(n)
  {
    hide CsvEscape, CsvLine, Decimal;
    PlainCell(name);
    DigitsArePlain(n);
    LineLength2(name, Decimal(n));
  }

  lemma BlockEndLength(k: nat)
    ensures |CsvLine(["block_end", "rows", Decimal(k)])| == 15 + Digits(k)
  {
    hide CsvEscape, CsvLine, Decimal;
    CountCells("rows", k);
    PlainCell("block_end");
    LineLengthCons("block_end", ["rows", Decimal(k)]);
    assert ["block_end"] + ["rows", Decimal(k)] == ["block_end", "rows", Decimal(k)];
  }

  /** The part of the data line that tells how many rows are kept. */
  function CountLength(n: nat, k: nat): nat {
    if k == n then 5 + Digits(k) else 28 + Digits(n) + Digits(k)
  }

  lemma DataLineLength(n: nat, k: nat, compression: Text)
    ensures |DataLine(n, k, compression)| == 18 + |CsvEscape(compression)| + CountLength(n, k)
  {
    hide CsvEscape, CsvLine, Decimal;
    PlainCell("data");
    PlainCell("compression");
    PlainCell("rows_original");
    CountCells("rows", k);
    CountCells("rows_emitted", k);
    DigitsArePlain(n);
    CommonHead(compression, ["rows", Decimal(k)]);
    var tail := ["rows_emitted", Decimal(k)];
    LineLengthCons(Decimal(n), tail);
    LineLengthCons("rows_original", [Decimal(n)] + tail);
    assert ["rows_original"] + ([Decimal(n)] + tail) == ["rows_original", Decimal(n), "rows_emitted", Decimal(k)];
    CommonHead(compression, ["rows_original", Decimal(n), "rows_emitted", Decimal(k)]);
  }

  // ---- blocks ----

  /** What a block costs whatever rows are kept. */
  function Shell(b: Block, compression: Text): nat {
    LinesCost(b.prefixLines) + |b.header| + 45 + |CsvEscape(compression)|
  }

  /** What depends on the number of rows kept: the counts in the data line and in the block's end. */
  function KeepCost(n: nat, k: nat): nat {
    CountLength(n, k) + Digits(k)
  }

  function BlockCost(b: Block, selected: seq<nat>, compression: Text): nat
    requires SelectsRows(b, selected)
  {
    Shell(b, compression) + KeepCost(|b.rowLines|, |selected|) + LinesCost(Rows(b, selected))
  }

  lemma BlockLinesCost(b: Block, selected: seq<nat>, compression: Text)
    requires SelectsRows(b, selected)
    ensures LinesCost(BlockLines(b, selected, compression)) == BlockCost(b, selected, compression)
  {
    hide CsvLine, CsvEscape, Decimal, LinesCost, DataLine, Emit;
    var n, k := |b.rowLines|, |selected|;
    var data, end := DataLine(n, k, compression), CsvLine(["block_end", "rows", Decimal(k)]);
    LinesCostAdds(b.prefixLines + [data, b.header] + Rows(b, selected), [end]);
    LinesCostAdds(b.prefixLines + [data, b.header], Rows(b, selected));
    LinesCostAdds(b.prefixLines, [data, b.header]);
    LinesCostAdds([data], [b.header]);
    assert [data] + [b.header] == [data, b.header];
    LineCost(data);
    LineCost(b.header);
    LineCost(end);
    DataLineLength(n, k, compression);
    BlockEndLength(k);
  }

  function BlocksCost(blocks: seq<Block>, selections: seq<seq<nat>>, compression: Text): nat
    requires SelectsAll(blocks, selections)
  {
    if blocks == [] then 0
    else BlockCost(blocks[0], selections[0], compression) + BlocksCost(blocks[1..], selections[1..], compression)
  }

  lemma {:induction false} BlocksLinesCost(blocks: seq<Block>, selections: seq<seq<nat>>, compression: Text)
    requires SelectsAll(blocks, selections)
    ensures LinesCost(BlocksLines(blocks, selections, compression)) == BlocksCost(blocks, selections, compression)
  {
    hide BlockLines, BlockCost;
    if blocks != [] {
      LinesCostAdds(BlockLines(blocks[0], selections[0], compression),
                    BlocksLines(blocks[1..], selections[1..], compression));
      BlockLinesCost(blocks[0], selections[0], compression);
      BlocksLinesCost(blocks[1..], selections[1..], compression);
    }
  }

  // ---- the document ----

  function GapLines(artifact: Artifact): seq<Text> {
    seq(|artifact.failures|, i requires 0 <= i < |artifact.failures| => GapLine(artifact.failures[i]))
  }

  function EndLine(artifact: Artifact): Text {
    CsvLine(["document_end", "status", if artifact.failures == [] then "success" else "partial"])
  }

  /** What the document costs apart from its blocks. */
  function FrameCost(artifact: Artifact, compression: Text): nat {
    LinesCost([CsvLine(["protocol", "tqllm-csv/3"])]) + LinesCost([MetaLine(artifact, compression)])
    + LinesCost(GapLines(artifact)) + LinesCost([EndLine(artifact)])
  }

  /** The token estimate is a third of the cost, rounded up. */
  lemma DocumentCost(artifact: Artifact, blocks: seq<Block>, selections: seq<seq<nat>>, compression: Text)
    requires SelectsAll(blocks, selections)
    ensures DocumentTokens(artifact, blocks, selections, compression)
         == (FrameCost(artifact, compression) + BlocksCost(blocks, selections, compression) + 2) / 3
  {
    hide CsvLine, MetaLine, Emit, SelectsAll, BlocksCost;
    var protocol, meta := [CsvLine(["protocol", "tqllm-csv/3"])], [MetaLine(artifact, compression)];
    var body, gaps, end := BlocksLines(blocks, selections, compression), GapLines(artifact), [EndLine(artifact)];
    assert DocumentLines(artifact, blocks, selections, compression) == protocol + meta + body + gaps + end;
    LinesCostAdds(protocol + meta + body + gaps, end);
    LinesCostAdds(protocol + meta + body, gaps);
    LinesCostAdds(protocol + meta, body);
    LinesCostAdds(protocol, meta);
    BlocksLinesCost(blocks, selections, compression);
  }

  /** The lossy meta line names the focus; "lossless" is three characters longer. */
  lemma MetaLines(artifact: Artifact)
    ensures FrameCost(artifact, LOSSY) == FrameCost(artifact, LOSSLESS) + 4 + |CsvEscape(artifact.focus)|
  {
    hide CsvEscape, CsvLine, Emit, LinesCost;
    LineCost(MetaLine(artifact, LOSSY));
    LineCost(MetaLine(artifact, LOSSLESS));
    MetaLength(artifact, LOSSY, ["partial", BoolText(artifact.failures != []), "focus", artifact.focus]);
    MetaLength(artifact, LOSSLESS, ["partial", BoolText(artifact.failures != [])]);
    PlainCell("focus");
    PlainCell("partial");
    PlainCell(LOSSY);
    PlainCell(LOSSLESS);
    var flag := BoolText(artifact.failures != []);
    LineLength2("partial", flag);
    LineLength2("focus", artifact.focus);
    LineLengthCons(flag, ["focus", artifact.focus]);
    LineLengthCons("partial", [flag] + ["focus", artifact.focus]);
    assert ["partial"] + ([flag] + ["focus", artifact.focus]) == ["partial", flag, "focus", artifact.focus];
  }

  /** Length of a record whose first cells are those of the meta line. */
  lemma MetaLength(artifact: Artifact, compression: Text, rest: Cells)
    requires rest == ["partial", BoolText(artifact.failures != [])]
                     + if compression == LOSSY then ["focus", artifact.focus] else []
    ensures |MetaLine(artifact, compression)|
         == HeadLength(artifact) + |CsvEscape(compression)| + 1 + |CsvLine(rest)|
  {
    hide CsvEscape, CsvLine;
    var a := [compression] + rest;
    var b := ["compression"] + a;
    var c := [artifact.numberFormat] + b;
    var d := ["numbers"] + c;
    var e := ["gpt-5.6"] + d;
    var f := ["model"] + e;
    LineLengthCons(compression, rest);
    LineLengthCons("compression", a);
    LineLengthCons(artifact.numberFormat, b);
    LineLengthCons("numbers", c);
    LineLengthCons("gpt-5.6", d);
    LineLengthCons("model", e);
    LineLengthCons("meta", f);
    var focus := if compression == LOSSY then ["focus", artifact.focus] else [];
    assert ["meta"] + f == ["meta", "model", "gpt-5.6", "numbers", artifact.numberFormat, "compression", compression,
                            "partial", BoolText(artifact.failures != [])] + focus;
  }

  function HeadLength(artifact: Artifact): nat {
    |CsvEscape("meta")| + |CsvEscape("model")| + |CsvEscape("gpt-5.6")| + |CsvEscape("numbers")|
    + |CsvEscape(artifact.numberFormat)| + |CsvEscape("compression")| + 6
  }
}
