/** Two families of requests for which the search for a scale ends below one that fits. */
module RenderMisses {
  import opened Wrappers
  import opened Csv
  import opened RowSelection
  import opened Bisection
  import opened LlmRender
  import opened RenderCosts
  import opened RenderSearch

  /** The same request under a lossy budget that is just what the given selection costs. */
  function Budgeted(artifact: Artifact, blocks: seq<Block>, selections: seq<seq<nat>>): Artifact
    requires SelectsAll(blocks, selections)
  {
    artifact.(budget := Some(DocumentTokens(artifact, blocks, selections, LOSSY)), compressionOff := false)
  }

  /** A request that has to be compressed, for which the full scale fits and keeps the rows `fitting`, while
      the search ends below it with `returned`. */
  ghost predicate SearchMisses(request: Artifact, blocks: seq<Block>, fitting: seq<seq<nat>>, returned: seq<seq<nat>>)
    requires WellFormedBlocks(blocks) && request.budget.Some?
  {
    && !FitsWhole(request, blocks) && Compressible(request, blocks)
    && var budget := request.budget.value;
       var counts := AllowancesFor(request, blocks, budget);
       var chosen := ChosenScale(request, blocks, counts, budget);
       && chosen < SCALE
       && Fits(request, blocks, counts, budget, SCALE) && SelectionsAt(blocks, counts, SCALE) == fitting
       && SelectionsAt(blocks, counts, chosen) == returned
  }

  /** A miss shows that the fit test of the request is not downward closed. */
  lemma MissesAreNotDownwardClosed(request: Artifact, blocks: seq<Block>, fitting: seq<seq<nat>>,
                                   returned: seq<seq<nat>>)
    requires WellFormedBlocks(blocks) && request.budget.Some? && SearchMisses(request, blocks, fitting, returned)
    ensures !DownwardClosed(request, blocks, AllowancesFor(request, blocks, request.budget.value), request.budget.value)
  {
    hide DocumentTokens, SelectionsAt, Fits, Allowances, FitsWhole, ChosenScale;
    var budget := request.budget.value;
    var counts := AllowancesFor(request, blocks, budget);
    NothingSelectedAtZero(blocks, counts);
    FitsMeans(request, blocks, counts, budget, 0);
    ChosenScaleIsEdge(request, blocks, counts, budget);
    var next: nat := ChosenScale(request, blocks, counts, budget) + 1;
    assert !Fits(request, blocks, counts, budget, next);
  }

  lemma BudgetDoesNotShow(artifact: Artifact, other: Artifact, c: Text)
    requires other == artifact.(budget := other.budget, compressionOff := other.compressionOff)
    ensures FrameCost(other, c) == FrameCost(artifact, c)
  {
    hide Emit, CsvLine, LinesCost;
    assert GapLines(other) == GapLines(artifact);
  }

  lemma LinesCostCons(line: Text, rest: seq<Text>)
    ensures LinesCost([line] + rest) == |line| + 4 + LinesCost(rest)
  {
    LineCost(line);
    LinesCostAdds([line], rest);
  }

  lemma NoLinesCost()
    ensures LinesCost([]) == 0
  {
  }

  lemma CompressionNames()
    ensures |CsvEscape(LOSSY)| == 5 && |CsvEscape(LOSSLESS)| == 8
  {
    PlainCell(LOSSY);
    PlainCell(LOSSLESS);
  }

  lemma OneDigit(n: nat)
    requires n < 10
    ensures Digits(n) == 1
  {
  }

  /** Cost of a block with fewer than ten rows, over the cost of keeping none of them. */
  lemma SmallBlockCost(b: Block, selected: seq<nat>, c: Text)
    requires SelectsRows(b, selected) && 1 <= |selected| <= |b.rowLines| < 10
    ensures SelectsRows(b, [])
    ensures BlockCost(b, selected, c) == BlockCost(b, [], LOSSY) + |CsvEscape(c)| - 5
              + LinesCost(Rows(b, selected)) - (if |selected| == |b.rowLines| then 24 else 0)
  {
    hide LinesCost, Digits, CsvEscape;
    CompressionNames();
    NoLinesCost();
    OneDigit(|b.rowLines|);
    OneDigit(|selected|);
    OneDigit(0);
    assert Rows(b, []) == [];
  }

  // ---- the data line shortens when a block keeps all its rows ----

  /** A block of a long and a short row, and one of a single very long row. */
  predicate LongAndShort(b: Block) {
    |b.rowLines| == 2 && |b.rowLines[0]| == 60 && |b.rowLines[1]| == 5 && b.important == []
  }

  predicate VeryLong(b: Block) {
    |b.rowLines| == 1 && |b.rowLines[0]| >= 200 && b.important == []
  }

  /** Keeping both rows of a two-row block with a short second row is cheaper than keeping one. */
  lemma BothRowsCostLess(artifact: Artifact, b: Block)
    requires |b.rowLines| == 2 && |b.rowLines[1]| <= 17
    ensures SelectsAll([b], [[0]]) && SelectsAll([b], [[0, 1]])
    ensures DocumentTokens(artifact, [b], [[0]], LOSSY) > DocumentTokens(artifact, [b], [[0, 1]], LOSSY)
  {
    hide LinesCost, FrameCost, DocumentTokens, BlockCost;
    TwoRowCosts(b);
    assert [b][1..] == [] && [[0]][1..] == [] && [[0, 1]][1..] == [];
    DocumentCost(artifact, [b], [[0]], LOSSY);
    DocumentCost(artifact, [b], [[0, 1]], LOSSY);
  }

  lemma TwoRowCosts(b: Block)
    requires |b.rowLines| == 2
    ensures SelectsRows(b, []) && SelectsRows(b, [0]) && SelectsRows(b, [0, 1])
    ensures BlockCost(b, [0], LOSSY) == BlockCost(b, [], LOSSY) + |b.rowLines[0]| + 4
    ensures BlockCost(b, [0, 1], LOSSY) == BlockCost(b, [], LOSSY) + |b.rowLines[0]| + |b.rowLines[1]| + 8 - 24
    ensures BlockCost(b, [0, 1], LOSSLESS) == BlockCost(b, [0, 1], LOSSY) + 3
    ensures LinesCost(b.rowLines) == |b.rowLines[0]| + |b.rowLines[1]| + 8
  {
    hide LinesCost, BlockCost;
    var x, y := b.rowLines[0], b.rowLines[1];
    assert Rows(b, [0]) == [x] + [] && Rows(b, [0, 1]) == [x] + ([y] + []) && b.rowLines == [x] + ([y] + []);
    NoLinesCost();
    LinesCostCons(x, []);
    LinesCostCons(y, []);
    LinesCostCons(x, [y] + []);
    CompressionNames();
    SmallBlockCost(b, [0], LOSSY);
    SmallBlockCost(b, [0, 1], LOSSY);
    SmallBlockCost(b, [0, 1], LOSSLESS);
  }

  lemma PairCost(b: Block, d: Block, s: seq<nat>, t: seq<nat>, c: Text)
    requires SelectsRows(b, s) && SelectsRows(d, t)
    ensures SelectsAll([b, d], [s, t])
    ensures BlocksCost([b, d], [s, t], c) == BlockCost(b, s, c) + BlockCost(d, t, c)
  {
    hide BlockCost;
    assert [b, d][1..] == [d] && [s, t][1..] == [t] && [d][1..] == [] && [t][1..] == [];
    assert BlocksCost([d], [t], c) == BlockCost(d, t, c) + BlocksCost([d][1..], [t][1..], c);
  }

  /** Cost of the two blocks with nothing kept. */
  function PairBase(artifact: Artifact, b: Block, d: Block): nat {
    FrameCost(artifact, LOSSY) + BlockCost(b, [], LOSSY) + BlockCost(d, [], LOSSY)
  }

  lemma PairTokens(artifact: Artifact, b: Block, d: Block)
    requires LongAndShort(b) && VeryLong(d)
    ensures SelectsAll([b, d], [[], []]) && SelectsAll([b, d], [[0], []]) && SelectsAll([b, d], [[0, 1], []])
    ensures SelectsAll([b, d], [[0, 1], [0]])
    ensures var base := PairBase(artifact, b, d);
            && DocumentTokens(artifact, [b, d], [[], []], LOSSY) == (base + 2) / 3
            && DocumentTokens(artifact, [b, d], [[0], []], LOSSY) == (base + 66) / 3
            && DocumentTokens(artifact, [b, d], [[0, 1], []], LOSSY) == (base + 51) / 3
            && (|CsvEscape(artifact.focus)| <= 100 ==>
                  DocumentTokens(artifact, [b, d], [[0, 1], [0]], LOSSLESS) >= (base + 133) / 3)
  {
    hide LinesCost, FrameCost, DocumentTokens, BlockCost, BlocksCost, CsvEscape;
    TwoRowCosts(b);
    PairCost(b, d, [], [], LOSSY);
    PairCost(b, d, [0], [], LOSSY);
    PairCost(b, d, [0, 1], [], LOSSY);
    PairCost(b, d, [0, 1], [0], LOSSLESS);
    SmallBlockCost(d, [0], LOSSLESS);
    CompressionNames();
    NoLinesCost();
    LinesCostCons(d.rowLines[0], []);
    assert Rows(d, [0]) == [d.rowLines[0]] + [];
    MetaLines(artifact);
    DocumentCost(artifact, [b, d], [[], []], LOSSY);
    DocumentCost(artifact, [b, d], [[0], []], LOSSY);
    DocumentCost(artifact, [b, d], [[0, 1], []], LOSSY);
    DocumentCost(artifact, [b, d], [[0, 1], [0]], LOSSLESS);
  }

  /** Nearly the whole residual budget of 16 or 17 tokens goes to the first block and allows both rows. */
  lemma PairAllowances(b: Block, d: Block, residual: nat)
    requires LongAndShort(b) && VeryLong(d) && 16 <= residual <= 17
    requires 1 <= d.weight && 20 * d.weight <= b.weight <= 0xFFFF_FFFF
    ensures Allowances([b, d], residual, b.weight + d.weight) == [2, 0]
  {
    hide RowAllowance;
    var total := b.weight + d.weight;
    assert 15 * total <= residual * b.weight by { MulMonotone(16, residual, b.weight); }
    assert residual * d.weight < total by { MulMonotone(residual, 17, d.weight); }
    BothRowsAllowed(b, residual, total);
    NoRowAllowed(d, residual, total);
    assert [b, d][0] == b && [b, d][1] == d;
  }

  lemma BothRowsAllowed(b: Block, residual: nat, total: nat)
    requires LongAndShort(b) && residual <= 17 && 0 < total && b.weight <= total
    requires b.weight <= 0xFFFF_FFFF && 15 * total <= residual * b.weight
    ensures RowAllowance(b, residual, total) == 2
  {
    TwoRowCosts(b);
    EstimateOf(b.rowLines, 73);
    hide LinesTokens;
    var share := residual * b.weight;
    assert share <= 17 * b.weight by { MulMonotone(residual, 17, b.weight); }
    assert share <= 17 * total by { MulMonotone(b.weight, total, 17); }
    QuotientBound(share, total, 17);
    QuotientAtLeast(share, total, 15);
    var q := share / total;
    assert SatMul(2, q) == 2 * q && CeilDiv(2 * q, 24) == 2;
  }

  lemma NoRowAllowed(d: Block, residual: nat, total: nat)
    requires residual * d.weight < total <= USIZE_MAX
    ensures RowAllowance(d, residual, total) == 0
  {
    hide LinesTokens;
    QuotientIs(residual * d.weight, total, 0);
    var estimated := if LinesTokens(d.rowLines) >= 1 then LinesTokens(d.rowLines) else 1;
    QuotientIs(estimated - 1, estimated, 0);
  }

  lemma QuotientAtLeast(a: nat, d: nat, q: nat)
    requires d >= 1 && q * d <= a
    ensures a / d >= q
  {
    var k := a / d;
    assert a < k * d + d;
    if k < q { MulMonotone(k + 1, q, d); }
  }

  lemma EstimateOf(lines: seq<Text>, cost: nat)
    requires lines != [] && LinesCost(lines) == cost
    ensures LinesTokens(lines) == (cost - 3 * |lines| + 1) / 3 + |lines|
  {
  }

  lemma PairSelections(b: Block, d: Block, scale: nat)
    requires LongAndShort(b) && VeryLong(d) && scale <= SCALE
    ensures SelectionsAt([b, d], [2, 0], scale)
         == [if scale == SCALE then [0, 1] else if scale >= SCALE / 2 then [0] else [], []]
  {
    hide Select;
    var k := 2 * scale / SCALE;
    assert SatMul(2, scale) / SCALE == k && SatMul(0, scale) / SCALE == 0;
    assert k == if scale == SCALE then 2 else if scale >= SCALE / 2 then 1 else 0;
    SmallSelections();
    assert [2, 0][0] == 2 && [2, 0][1] == 0 && [b, d][0] == b && [b, d][1] == d;
    assert SelectionsAt([b, d], [2, 0], scale) == [Select(2, [], k), Select(1, [], 0)];
  }

  lemma SmallSelections()
    ensures Select(2, [], 2) == [0, 1] && Select(2, [], 1) == [0] && Select(2, [], 0) == [] && Select(1, [], 0) == []
  {
    assert Upto(2) == [0, 1];
    SelectKeeps(2, [], 1);
  }

  lemma BudgetedTokens(artifact: Artifact, blocks: seq<Block>, selections: seq<seq<nat>>)
    requires SelectsAll(blocks, selections)
    ensures var request := Budgeted(artifact, blocks, selections);
            request.budget == Some(DocumentTokens(request, blocks, selections, LOSSY))
  {
    hide DocumentTokens, FrameCost, BlocksCost;
    var request := Budgeted(artifact, blocks, selections);
    BudgetDoesNotShow(artifact, request, LOSSY);
    DocumentCost(artifact, blocks, selections, LOSSY);
    DocumentCost(request, blocks, selections, LOSSY);
  }

  lemma PairWeight(b: Block, d: Block)
    ensures TotalWeight([b, d]) == b.weight + d.weight
  {
    assert [b, d][..1] == [b] && [b][..0] == [];
    assert TotalWeight([b]) == TotalWeight([b][..0]) + b.weight;
  }

  lemma PairSelectionLists(b: Block, d: Block)
    requires LongAndShort(b) && VeryLong(d)
    ensures EmptySelections(2) == [[], []] && FullSelections([b, d]) == [[0, 1], [0]]
  {
    assert Upto(2) == [0, 1] && Upto(1) == [0];
  }

  lemma PairIsCompressed(request: Artifact, b: Block, d: Block)
    requires LongAndShort(b) && VeryLong(d) && |CsvEscape(request.focus)| <= 100
    requires 1 <= d.weight && 20 * d.weight <= b.weight <= 0xFFFF_FFFF
    requires request.budget == Some((PairBase(request, b, d) + 51) / 3) && !request.compressionOff
    ensures !FitsWhole(request, [b, d]) && Compressible(request, [b, d])
    ensures AllowancesFor(request, [b, d], request.budget.value) == [2, 0]
  {
    hide DocumentTokens, Allowances, PairBase, TotalWeight, CsvEscape, LongAndShort, VeryLong;
    PairBaseTokens(request, b, d);
    PairWeight(b, d);
    var residual := request.budget.value - BaseTokens(request, [b, d]);
    PairAllowances(b, d, residual);
  }

  lemma PairBaseTokens(artifact: Artifact, b: Block, d: Block)
    requires LongAndShort(b) && VeryLong(d) && |CsvEscape(artifact.focus)| <= 100
    ensures BaseTokens(artifact, [b, d]) == (PairBase(artifact, b, d) + 2) / 3
    ensures FullTokens(artifact, [b, d]) >= (PairBase(artifact, b, d) + 133) / 3
  {
    hide DocumentTokens, PairBase, CsvEscape;
    PairTokens(artifact, b, d);
    PairSelectionLists(b, d);
  }

  lemma PairFits(artifact: Artifact, b: Block, d: Block, budget: nat)
    requires LongAndShort(b) && VeryLong(d) && budget == (PairBase(artifact, b, d) + 51) / 3
    ensures WellFormedBlocks([b, d])
    ensures forall s: nat :: s < SCALE / 2 ==> Fits(artifact, [b, d], [2, 0], budget, s)
    ensures !Fits(artifact, [b, d], [2, 0], budget, SCALE / 2) && Fits(artifact, [b, d], [2, 0], budget, SCALE)
  {
    hide DocumentTokens, SelectionsAt, PairBase, Fits;
    PairTokens(artifact, b, d);
    forall s: nat | s < SCALE / 2 || s == SCALE / 2 || s == SCALE
      ensures Fits(artifact, [b, d], [2, 0], budget, s) <==> s != SCALE / 2
    {
      PairSelections(b, d, s);
      FitsMeans(artifact, [b, d], [2, 0], budget, s);
    }
  }

  lemma PairChosen(artifact: Artifact, b: Block, d: Block, budget: nat)
    requires LongAndShort(b) && VeryLong(d) && budget == (PairBase(artifact, b, d) + 51) / 3
    ensures WellFormedBlocks([b, d])
    ensures ChosenScale(artifact, [b, d], [2, 0], budget) == SCALE / 2 - 1
  {
    hide Fits, FitTest, Bisect, PairBase;
    PairFits(artifact, b, d, budget);
    FitTestIs(artifact, [b, d], [2, 0], budget);
    var fits := FitTest(artifact, [b, d], [2, 0], budget);
    BisectStep(fits, 0, SCALE);
    BisectOverFitting(fits, 0, SCALE / 2 - 1);
  }

  /** A budget that holds both rows of the first block, but not the first of them alone, and none of the
      second block: the search rejects its first midpoint and ends below it with no rows at all, although
      the full scale fits with two. */
  lemma FittingNeedNotBeDownwardClosed(artifact: Artifact, b: Block, d: Block)
    requires LongAndShort(b) && VeryLong(d) && |CsvEscape(artifact.focus)| <= 100
    requires 1 <= d.weight && 20 * d.weight <= b.weight <= 0xFFFF_FFFF
    ensures WellFormedBlocks([b, d]) && SelectsAll([b, d], [[0, 1], []])
    ensures SearchMisses(Budgeted(artifact, [b, d], [[0, 1], []]), [b, d], [[0, 1], []], [[], []])
  {
    hide SearchMisses, DocumentTokens, PairBase, CsvEscape;
    PairRequest(artifact, b, d);
    PairMisses(Budgeted(artifact, [b, d], [[0, 1], []]), b, d);
  }

  lemma PairRequest(artifact: Artifact, b: Block, d: Block)
    requires LongAndShort(b) && VeryLong(d)
    ensures SelectsAll([b, d], [[0, 1], []])
    ensures var request := Budgeted(artifact, [b, d], [[0, 1], []]);
            request.budget == Some((PairBase(request, b, d) + 51) / 3)
  {
    hide DocumentTokens, PairBase;
    PairTokens(artifact, b, d);
    BudgetedTokens(artifact, [b, d], [[0, 1], []]);
    PairTokens(Budgeted(artifact, [b, d], [[0, 1], []]), b, d);
  }

  lemma PairMisses(request: Artifact, b: Block, d: Block)
    requires LongAndShort(b) && VeryLong(d) && |CsvEscape(request.focus)| <= 100
    requires 1 <= d.weight && 20 * d.weight <= b.weight <= 0xFFFF_FFFF
    requires request.budget == Some((PairBase(request, b, d) + 51) / 3) && !request.compressionOff
    ensures WellFormedBlocks([b, d])
    ensures SearchMisses(request, [b, d], [[0, 1], []], [[], []])
  {
    hide SelectionsAt, AllowancesFor, PairBase, CsvEscape, FitsWhole, Compressible, Fits, ChosenScale;
    var budget := request.budget.value;
    PairFits(request, b, d, budget);
    PairIsCompressed(request, b, d);
    PairChosen(request, b, d, budget);
    PairSelections(b, d, SCALE);
    PairSelections(b, d, SCALE / 2 - 1);
  }

  // ---- the rows of a longer grid need not include those of a shorter one ----

  /** Seven rows of equal length except the middle one, which is longer. */
  predicate LongMiddle(b: Block) {
    && |b.rowLines| == 7 && b.important == []
    && (forall i :: 0 <= i < 7 ==> |b.rowLines[i]| == if i == 3 then 80 else 30)
  }

  lemma GridSelections(scale: nat)
    requires SCALE / 2 <= scale <= SCALE
    ensures Select(7, [], SatMul(4, scale) / SCALE)
         == if scale == SCALE then [0, 2, 4, 6] else if scale >= 750_000 then [0, 3, 6] else [0, 6]
  {
    hide Select;
    var k := 4 * scale / SCALE;
    assert SatMul(4, scale) / SCALE == k;
    assert k == if scale == SCALE then 4 else if scale >= 750_000 then 3 else 2;
    SelectIsGrid(7, k);
  }

  lemma MiddleCosts(b: Block)
    requires LongMiddle(b)
    ensures SelectsRows(b, [0, 6]) && SelectsRows(b, [0, 3, 6]) && SelectsRows(b, [0, 2, 4, 6])
    ensures SelectsRows(b, Upto(7))
    ensures LinesCost(Rows(b, [0, 6])) == 68 && LinesCost(Rows(b, [0, 3, 6])) == 152
    ensures LinesCost(Rows(b, [0, 2, 4, 6])) == 136 && LinesCost(Rows(b, Upto(7))) == 288
    ensures LinesCost(b.rowLines) == 288
  {
    hide LinesCost;
    var r := b.rowLines;
    ShortRows(Rows(b, [0, 6]));
    ShortRows(Rows(b, [0, 2, 4, 6]));
    assert Rows(b, [0, 3, 6]) == [r[0]] + ([r[3]] + [r[6]]);
    LineCost(r[6]);
    LinesCostCons(r[3], [r[6]]);
    LinesCostCons(r[0], [r[3]] + [r[6]]);
    assert Rows(b, Upto(7)) == r;
    ShortRows(r[..3]);
    ShortRows(r[4..]);
    LinesCostCons(r[3], r[4..]);
    LinesCostAdds(r[..3], [r[3]] + r[4..]);
    assert r == r[..3] + ([r[3]] + r[4..]);
  }

  lemma ShortRows(lines: seq<Text>)
    requires forall i :: 0 <= i < |lines| ==> |lines[i]| == 30
    ensures LinesCost(lines) == 34 * |lines|
  {
    RowsCostBetween(lines, 30, 30);
  }

  function SingleBase(artifact: Artifact, b: Block): nat {
    FrameCost(artifact, LOSSY) + BlockCost(b, [], LOSSY)
  }

  lemma SingleTokens(artifact: Artifact, b: Block, selected: seq<nat>, c: Text)
    requires SelectsRows(b, selected)
    ensures SelectsAll([b], [selected])
    ensures DocumentTokens(artifact, [b], [selected], c) == (FrameCost(artifact, c) + BlockCost(b, selected, c) + 2) / 3
  {
    hide DocumentTokens, FrameCost, BlockCost;
    assert [b][1..] == [] && [selected][1..] == [];
    DocumentCost(artifact, [b], [selected], c);
  }

  lemma MiddleTokens(artifact: Artifact, b: Block)
    requires LongMiddle(b)
    ensures SelectsAll([b], [[]]) && SelectsAll([b], [[0, 6]]) && SelectsAll([b], [[0, 3, 6]])
    ensures SelectsAll([b], [[0, 2, 4, 6]]) && SelectsAll([b], [Upto(7)])
    ensures var base := SingleBase(artifact, b);
            && DocumentTokens(artifact, [b], [[]], LOSSY) == (base + 2) / 3
            && DocumentTokens(artifact, [b], [[0, 6]], LOSSY) == (base + 70) / 3
            && DocumentTokens(artifact, [b], [[0, 3, 6]], LOSSY) == (base + 154) / 3
            && DocumentTokens(artifact, [b], [[0, 2, 4, 6]], LOSSY) == (base + 138) / 3
            && (|CsvEscape(artifact.focus)| <= 100 ==>
                  DocumentTokens(artifact, [b], [Upto(7)], LOSSLESS) >= (base + 165) / 3)
  {
    hide LinesCost, FrameCost, DocumentTokens, BlockCost, CsvEscape;
    MiddleCosts(b);
    SmallBlockCost(b, [0, 6], LOSSY);
    SmallBlockCost(b, [0, 3, 6], LOSSY);
    SmallBlockCost(b, [0, 2, 4, 6], LOSSY);
    SmallBlockCost(b, Upto(7), LOSSLESS);
    CompressionNames();
    MetaLines(artifact);
    SingleTokens(artifact, b, [], LOSSY);
    SingleTokens(artifact, b, [0, 6], LOSSY);
    SingleTokens(artifact, b, [0, 3, 6], LOSSY);
    SingleTokens(artifact, b, [0, 2, 4, 6], LOSSY);
    SingleTokens(artifact, b, Upto(7), LOSSLESS);
  }

  lemma MiddleAllowance(b: Block, residual: nat)
    requires LongMiddle(b) && 45 <= residual <= 46 && 1 <= b.weight <= 0xFFFF_FFFF
    ensures Allowances([b], residual, b.weight) == [4]
  {
    MiddleCosts(b);
    EstimateOf(b.rowLines, 288);
    hide LinesTokens;
    assert SatMul(residual, b.weight) == residual * b.weight by { MulMonotone(residual, 46, b.weight); }
    QuotientIs(residual * b.weight, b.weight, residual);
    assert CeilDiv(7 * residual, 96) == 4;
    assert [b][0] == b && RowAllowance(b, residual, b.weight) == 4;
  }

  lemma MiddleFits(artifact: Artifact, b: Block, budget: nat)
    requires LongMiddle(b) && budget == (SingleBase(artifact, b) + 138) / 3
    ensures WellFormedBlocks([b])
    ensures forall s: nat :: SCALE / 2 <= s < 750_000 ==> Fits(artifact, [b], [4], budget, s)
    ensures !Fits(artifact, [b], [4], budget, 750_000) && Fits(artifact, [b], [4], budget, SCALE)
  {
    hide DocumentTokens, SingleBase, Fits, Select, SatMul;
    MiddleTokens(artifact, b);
    forall s: nat | SCALE / 2 <= s <= 750_000 || s == SCALE
      ensures Fits(artifact, [b], [4], budget, s) <==> s != 750_000
    {
      GridSelections(s);
      assert SelectionsAt([b], [4], s) == [Select(7, [], SatMul(4, s) / SCALE)];
      FitsMeans(artifact, [b], [4], budget, s);
    }
  }

  lemma MiddleChosen(artifact: Artifact, b: Block, budget: nat)
    requires LongMiddle(b) && budget == (SingleBase(artifact, b) + 138) / 3
    ensures WellFormedBlocks([b])
    ensures ChosenScale(artifact, [b], [4], budget) == 749_999
  {
    hide Fits, FitTest, Bisect, SingleBase;
    MiddleFits(artifact, b, budget);
    FitTestIs(artifact, [b], [4], budget);
    var fits := FitTest(artifact, [b], [4], budget);
    BisectStep(fits, 0, SCALE);
    BisectStep(fits, SCALE / 2, SCALE);
    BisectOverFitting(fits, SCALE / 2, 749_999);
  }

  lemma MiddleSelections(b: Block)
    requires LongMiddle(b)
    ensures SelectionsAt([b], [4], SCALE) == [[0, 2, 4, 6]] && SelectionsAt([b], [4], 749_999) == [[0, 6]]
    ensures EmptySelections(1) == [[]] && FullSelections([b]) == [Upto(7)]
  {
    hide Select, SatMul;
    GridSelections(SCALE);
    GridSelections(749_999);
    assert SelectionsAt([b], [4], SCALE) == [Select(7, [], SatMul(4, SCALE) / SCALE)];
    assert SelectionsAt([b], [4], 749_999) == [Select(7, [], SatMul(4, 749_999) / SCALE)];
  }

  lemma MiddleIsCompressed(request: Artifact, b: Block)
    requires LongMiddle(b) && |CsvEscape(request.focus)| <= 100 && 1 <= b.weight <= 0xFFFF_FFFF
    requires request.budget == Some((SingleBase(request, b) + 138) / 3) && !request.compressionOff
    ensures !FitsWhole(request, [b]) && Compressible(request, [b])
    ensures AllowancesFor(request, [b], request.budget.value) == [4]
  {
    hide DocumentTokens, Allowances, SingleBase, TotalWeight, CsvEscape, LongMiddle;
    MiddleBaseTokens(request, b);
    SingleWeight(b);
    var residual := request.budget.value - BaseTokens(request, [b]);
    MiddleAllowance(b, residual);
  }

  lemma SingleWeight(b: Block)
    ensures TotalWeight([b]) == b.weight
  {
    assert [b][..0] == [] && TotalWeight([b]) == TotalWeight([b][..0]) + b.weight;
  }

  lemma MiddleBaseTokens(artifact: Artifact, b: Block)
    requires LongMiddle(b) && |CsvEscape(artifact.focus)| <= 100
    ensures BaseTokens(artifact, [b]) == (SingleBase(artifact, b) + 2) / 3
    ensures FullTokens(artifact, [b]) >= (SingleBase(artifact, b) + 165) / 3
  {
    hide DocumentTokens, SingleBase, CsvEscape, SelectionsAt;
    MiddleTokens(artifact, b);
    MiddleSelections(b);
  }

  /** A budget that holds four rows spread evenly, but not the three spread evenly, because those include
      the long one: the search returns two rows although the full scale fits with four. */
  lemma GridsNeedNotBeNested(artifact: Artifact, b: Block)
    requires LongMiddle(b) && |CsvEscape(artifact.focus)| <= 100 && 1 <= b.weight <= 0xFFFF_FFFF
    ensures WellFormedBlocks([b]) && SelectsAll([b], [[0, 2, 4, 6]])
    ensures SearchMisses(Budgeted(artifact, [b], [[0, 2, 4, 6]]), [b], [[0, 2, 4, 6]], [[0, 6]])
  {
    hide SearchMisses, DocumentTokens, SingleBase, CsvEscape;
    MiddleRequest(artifact, b);
    MiddleMisses(Budgeted(artifact, [b], [[0, 2, 4, 6]]), b);
  }

  lemma MiddleRequest(artifact: Artifact, b: Block)
    requires LongMiddle(b)
    ensures SelectsAll([b], [[0, 2, 4, 6]])
    ensures var request := Budgeted(artifact, [b], [[0, 2, 4, 6]]);
            request.budget == Some((SingleBase(request, b) + 138) / 3)
  {
    hide DocumentTokens, SingleBase;
    MiddleTokens(artifact, b);
    BudgetedTokens(artifact, [b], [[0, 2, 4, 6]]);
    MiddleTokens(Budgeted(artifact, [b], [[0, 2, 4, 6]]), b);
  }

  lemma MiddleMisses(request: Artifact, b: Block)
    requires LongMiddle(b) && |CsvEscape(request.focus)| <= 100 && 1 <= b.weight <= 0xFFFF_FFFF
    requires request.budget == Some((SingleBase(request, b) + 138) / 3) && !request.compressionOff
    ensures WellFormedBlocks([b])
    ensures SearchMisses(request, [b], [[0, 2, 4, 6]], [[0, 6]])
  {
    hide SelectionsAt, AllowancesFor, SingleBase, CsvEscape, FitsWhole, Compressible, Fits, ChosenScale;
    var budget := request.budget.value;
    MiddleFits(request, b, budget);
    MiddleIsCompressed(request, b);
    MiddleChosen(request, b, budget);
    MiddleSelections(b);
  }
}
