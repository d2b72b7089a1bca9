/** Rendering query blocks as an LLM document under a token budget. */
module LlmRender {
  import opened Wrappers
  import opened Extremes
  import opened Csv
  import opened Numerals
  import opened RowSelection
  import opened Bisection

  /** A prepared block; `important` are the row indices the focus mode singles out. */
  datatype Block = Block(weight: nat, rowLines: seq<Text>, important: seq<nat>, prefixLines: seq<Text>, header: Text)

  datatype Failure = Failure(requestId: nat, symbol: Text, code: Text, message: Text)

  datatype Artifact = Artifact(numberFormat: Text, focus: Text, budget: Option<nat>, compressionOff: bool,
                               failures: seq<Failure>)

  datatype RenderError =
    | OverBudget(tokens: nat)
    | MetadataOverBudget(tokens: nat)
    | ZeroWeights

  datatype Plan = Plan(selections: seq<seq<nat>>, compression: Text)

  const LOSSLESS: Text := "lossless"
  const LOSSY: Text := "lossy"
  const SCALE: nat := 1_000_000

  // ---- the document ----

  function DataLine(total: nat, kept: nat, compression: Text): Text {
    CsvLine(["data", "compression", compression] +
      if kept == total then ["rows", Decimal(kept)]
      else ["rows_original", Decimal(total), "rows_emitted", Decimal(kept)])
  }

  predicate SelectsRows(b: Block, selected: seq<nat>) {
    forall x :: x in selected ==> x < |b.rowLines|
  }

  function Rows(b: Block, selected: seq<nat>): (r: seq<Text>)
    requires SelectsRows(b, selected)
    ensures |r| == |selected|
  {
    seq(|selected|, i requires 0 <= i < |selected| => assert selected[i] in selected; b.rowLines[selected[i]])
  }

  function BlockLines(b: Block, selected: seq<nat>, compression: Text): seq<Text>
    requires SelectsRows(b, selected)
  {
    b.prefixLines + [DataLine(|b.rowLines|, |selected|, compression), b.header] + Rows(b, selected)
    + [CsvLine(["block_end", "rows", Decimal(|selected|)])]
  }

  ghost predicate SelectsAll(blocks: seq<Block>, selections: seq<seq<nat>>) {
    |blocks| == |selections| && forall i :: 0 <= i < |blocks| ==> SelectsRows(blocks[i], selections[i])
  }

  function BlocksLines(blocks: seq<Block>, selections: seq<seq<nat>>, compression: Text): seq<Text>
    requires SelectsAll(blocks, selections)
  {
    if blocks == [] then []
    else BlockLines(blocks[0], selections[0], compression) + BlocksLines(blocks[1..], selections[1..], compression)
  }

  function BoolText(b: bool): Text {
    if b then "true" else "false"
  }

  function MetaLine(artifact: Artifact, compression: Text): Text {
    CsvLine(["meta", "model", "gpt-5.6", "numbers", artifact.numberFormat, "compression", compression,
             "partial", BoolText(artifact.failures != [])]
            + if compression == LOSSY then ["focus", artifact.focus] else [])
  }

  function GapLine(f: Failure): Text {
    CsvLine(["gap", Decimal(f.requestId), f.symbol, f.code, f.message])
  }

  /** The lines handed to a visitor, in order. */
  function DocumentLines(artifact: Artifact, blocks: seq<Block>, selections: seq<seq<nat>>,
                         compression: Text): seq<Text>
    requires SelectsAll(blocks, selections)
  {
    [CsvLine(["protocol", "tqllm-csv/3"]), MetaLine(artifact, compression)]
    + BlocksLines(blocks, selections, compression)
    + seq(|artifact.failures|, i requires 0 <= i < |artifact.failures| => GapLine(artifact.failures[i]))
    + [CsvLine(["document_end", "status", if artifact.failures == [] then "success" else "partial"])]
  }

  /** Token estimate of a text that took the given number of visited lines. */
  function TokenCost(text: Text, lines: nat): nat {
    (|text| + 2) / 3 + lines
  }

  function DocumentTokens(artifact: Artifact, blocks: seq<Block>, selections: seq<seq<nat>>, compression: Text): nat
    requires SelectsAll(blocks, selections)
  {
    var lines := DocumentLines(artifact, blocks, selections, compression);
    TokenCost(Emit(lines), |lines|)
  }

  lemma {:induction false} EmitAppend(lines: seq<Text>, more: seq<Text>)
    ensures Emit(lines + more) == Emit(lines) + Emit(more)
  {
    if lines == [] {
      assert lines + more == more;
    } else {
      EmitAppend(lines[1..], more);
      assert (lines + more)[1..] == lines[1..] + more;
    }
  }

  lemma EmitNone()
    ensures Emit([]) == ""
  {
  }

  lemma EmitOne(line: Text)
    ensures Emit([line]) == line + "\n"
  {
    assert [line][1..] == [];
    assert line + "\n" + "" == line + "\n";
  }

  lemma EmitGrows(lines: seq<Text>, line: Text)
    ensures Emit(lines + [line]) == Emit(lines) + line + "\n"
  {
    EmitAppend(lines, [line]);
    EmitOne(line);
  }

  /** The streaming estimator: bytes and lines are counted as lines are visited, a separator before
      every line but the first and one at the end. It agrees with the text the writer emits. */
  method EstimateLlmDocument(artifact: Artifact, blocks: seq<Block>, selections: seq<seq<nat>>, compression: Text)
      returns (tokens: nat)
    requires SelectsAll(blocks, selections)
    ensures tokens == DocumentTokens(artifact, blocks, selections, compression)
  {
    hide DocumentLines, Emit;
    EmitNone();
    var visited := DocumentLines(artifact, blocks, selections, compression);
    var bytes, lines := 0, 0;
    for i := 0 to |visited|
      invariant lines == i
      invariant |Emit(visited[..i])| == if i == 0 then 0 else bytes + 1
      invariant i == 0 ==> bytes == 0
    {
      EmitGrows(visited[..i], visited[i]);
      assert visited[..i] + [visited[i]] == visited[..i + 1];
      bytes := bytes + |visited[i]|;
      if lines > 0 {
        bytes := bytes + 1;
      }
      lines := lines + 1;
    }
    if lines > 0 {
      bytes := bytes + 1;
    }
    assert visited[..|visited|] == visited;
    tokens := (bytes + 2) / 3 + lines;
  }

  /** The writer puts a line feed in front of every line but the first and one at the end. */
  method WriteLlmDocument(artifact: Artifact, blocks: seq<Block>, selections: seq<seq<nat>>, compression: Text)
      returns (text: Text)
    requires SelectsAll(blocks, selections)
    ensures text == Emit(DocumentLines(artifact, blocks, selections, compression))
  {
    hide DocumentLines, Emit;
    EmitNone();
    var visited := DocumentLines(artifact, blocks, selections, compression);
    var first := true;
    text := "";
    for i := 0 to |visited|
      invariant first == (i == 0)
      invariant Emit(visited[..i]) == if first then text else text + "\n"
      invariant first ==> text == ""
    {
      EmitGrows(visited[..i], visited[i]);
      assert visited[..i] + [visited[i]] == visited[..i + 1];
      if !first {
        text := text + "\n";
      }
      text := text + visited[i];
      first := false;
    }
    assert visited[..|visited|] == visited;
    if !first {
      text := text + "\n";
    }
  }

  // ---- row budgets ----

  function CeilDiv(a: nat, b: nat): nat
    requires b >= 1
  {
    (a + b - 1) / b
  }

  /** Size of the lines joined by line feeds: the emitted text without its last one. */
  function JoinedLength(lines: seq<Text>): nat {
    if lines == [] then 0 else |Emit(lines)| - 1
  }

  function LinesTokens(lines: seq<Text>): nat {
    (JoinedLength(lines) + 2) / 3 + |lines|
  }

  /** Token estimate of a list of lines joined by line feeds, accumulated line by line. */
  method EstimateLines(lines: seq<Text>) returns (tokens: nat)
    ensures tokens == LinesTokens(lines)
  {
    hide Emit;
    var bytes, count := 0, 0;
    EmitNone();
    for i := 0 to |lines|
      invariant count == i && bytes + (if i > 0 then 1 else 0) == |Emit(lines[..i])|
    {
      assert lines[..i + 1] == lines[..i] + [lines[i]];
      EmitGrows(lines[..i], lines[i]);
      bytes := bytes + |lines[i]|;
      if count > 0 {
        bytes := bytes + 1;
      }
      count := count + 1;
    }
    assert lines[..|lines|] == lines;
    tokens := (bytes + 2) / 3 + count;
  }

  function TotalWeight(blocks: seq<Block>): nat {
    if blocks == [] then 0 else TotalWeight(blocks[..|blocks| - 1]) + blocks[|blocks| - 1].weight
  }

  /** Rows a block may keep for its share of the residual budget. */
  function RowAllowance(b: Block, residual: nat, totalWeight: nat): (r: nat)
    requires totalWeight > 0
    ensures r <= |b.rowLines|
  {
    if b.rowLines == [] then 0
    else
      var allowance := SatMul(residual, b.weight) / totalWeight;
      var tokens := LinesTokens(b.rowLines);
      var estimated := if tokens >= 1 then tokens else 1;
      Min(CeilDiv(SatMul(|b.rowLines|, allowance), estimated), |b.rowLines|)
  }

  function Allowances(blocks: seq<Block>, residual: nat, totalWeight: nat): (r: seq<nat>)
    requires totalWeight > 0
    ensures |r| == |blocks|
  {
    seq(|blocks|, i requires 0 <= i < |blocks| => RowAllowance(blocks[i], residual, totalWeight))
  }

  ghost predicate WellFormedBlock(b: Block) {
    forall x :: x in b.important ==> x < |b.rowLines|
  }

  ghost predicate WellFormedBlocks(blocks: seq<Block>) {
    forall i :: 0 <= i < |blocks| ==> WellFormedBlock(blocks[i])
  }

  /** The selection when every allowance is scaled by `scale` millionths. */
  ghost function SelectionsAt(blocks: seq<Block>, counts: seq<nat>, scale: nat): (r: seq<seq<nat>>)
    requires |counts| == |blocks|
    ensures |r| == |blocks|
  {
    seq(|blocks|, i requires 0 <= i < |blocks| =>
      Select(|blocks[i].rowLines|, blocks[i].important, SatMul(counts[i], scale) / SCALE))
  }

  lemma SelectionsAreValid(blocks: seq<Block>, counts: seq<nat>, scale: nat)
    requires |counts| == |blocks| && WellFormedBlocks(blocks)
    ensures SelectsAll(blocks, SelectionsAt(blocks, counts, scale))
  {
    hide Select, SatMul;
    forall i | 0 <= i < |blocks| ensures SelectsRows(blocks[i], SelectionsAt(blocks, counts, scale)[i]) {
      SelectKeeps(|blocks[i].rowLines|, blocks[i].important, SatMul(counts[i], scale) / SCALE);
    }
  }

  ghost function EmptySelections(n: nat): seq<seq<nat>> {
    seq(n, _ => [])
  }

  ghost predicate Fits(artifact: Artifact, blocks: seq<Block>, counts: seq<nat>, budget: nat, scale: nat)
    requires |counts| == |blocks| && WellFormedBlocks(blocks)
  {
    SelectionsAreValid(blocks, counts, scale);
    DocumentTokens(artifact, blocks, SelectionsAt(blocks, counts, scale), LOSSY) <= budget
  }

  /** `scale` fits, and the next one does not. */
  ghost predicate IsEdge(artifact: Artifact, blocks: seq<Block>, counts: seq<nat>, budget: nat, scale: nat)
    requires |counts| == |blocks| && WellFormedBlocks(blocks)
  {
    scale <= SCALE && Fits(artifact, blocks, counts, budget, scale)
    && (scale < SCALE ==> !Fits(artifact, blocks, counts, budget, scale + 1))
  }

  ghost predicate DownwardClosed(artifact: Artifact, blocks: seq<Block>, counts: seq<nat>, budget: nat)
    requires |counts| == |blocks| && WellFormedBlocks(blocks)
  {
    forall a: nat, b: nat :: a <= b <= SCALE && Fits(artifact, blocks, counts, budget, b)
      ==> Fits(artifact, blocks, counts, budget, a)
  }

  /** When smaller scales of a fitting scale fit, an edge is the greatest fitting scale. */
  lemma {:induction false} EdgeIsGreatest(artifact: Artifact, blocks: seq<Block>, counts: seq<nat>, budget: nat,
                                          edge: nat, other: nat)
    requires |counts| == |blocks| && WellFormedBlocks(blocks)
    requires IsEdge(artifact, blocks, counts, budget, edge) && DownwardClosed(artifact, blocks, counts, budget)
    requires other <= SCALE && Fits(artifact, blocks, counts, budget, other)
    ensures other <= edge
  {
    hide Fits;
    var next: nat := edge + 1;
    assert edge < SCALE ==> !Fits(artifact, blocks, counts, budget, next);
  }

  ghost function FitTest(artifact: Artifact, blocks: seq<Block>, counts: seq<nat>, budget: nat): nat -> bool
    requires |counts| == |blocks| && WellFormedBlocks(blocks)
  {
    (scale: nat) => Fits(artifact, blocks, counts, budget, scale)
  }

  lemma FitTestIs(artifact: Artifact, blocks: seq<Block>, counts: seq<nat>, budget: nat)
    requires |counts| == |blocks| && WellFormedBlocks(blocks)
    ensures forall scale ::
      FitTest(artifact, blocks, counts, budget)(scale) == Fits(artifact, blocks, counts, budget, scale)
  {
    hide Fits;
  }

  /** The scale at which the search ends. */
  ghost function ChosenScale(artifact: Artifact, blocks: seq<Block>, counts: seq<nat>, budget: nat): (scale: nat)
    requires |counts| == |blocks| && WellFormedBlocks(blocks)
    ensures scale <= SCALE
  {
    Bisect(FitTest(artifact, blocks, counts, budget), 0, SCALE)
  }

  /** The chosen scale fits, and the next one does not. */
  lemma ChosenScaleIsEdge(artifact: Artifact, blocks: seq<Block>, counts: seq<nat>, budget: nat)
    requires |counts| == |blocks| && WellFormedBlocks(blocks) && Fits(artifact, blocks, counts, budget, 0)
    ensures IsEdge(artifact, blocks, counts, budget, ChosenScale(artifact, blocks, counts, budget))
  {
    hide Fits, FitTest, Bisect;
    FitTestIs(artifact, blocks, counts, budget);
    BisectIsEdge(FitTest(artifact, blocks, counts, budget), 0, SCALE);
  }

  /** The search finds the greatest fitting scale if and only if the scales that it probes below it, on
      the way to it, fit. */
  lemma SearchIsExactIff(artifact: Artifact, blocks: seq<Block>, counts: seq<nat>, budget: nat, greatest: nat)
    requires |counts| == |blocks| && WellFormedBlocks(blocks)
    requires IsGreatestFit(FitTest(artifact, blocks, counts, budget), SCALE, greatest)
    ensures ChosenScale(artifact, blocks, counts, budget) == greatest
       <==> forall m :: m in Probes(0, SCALE, greatest) && m <= greatest ==> Fits(artifact, blocks, counts, budget, m)
  {
    hide Fits, FitTest, Bisect, Probes;
    FitTestIs(artifact, blocks, counts, budget);
    BisectIsGreatestIff(FitTest(artifact, blocks, counts, budget), 0, SCALE, greatest);
  }

  method SelectedRows(blocks: seq<Block>, counts: seq<nat>, scale: nat) returns (selections: seq<seq<nat>>)
    requires |counts| == |blocks| && WellFormedBlocks(blocks)
    ensures selections == SelectionsAt(blocks, counts, scale)
  {
    hide Select, SatMul;
    selections := [];
    for i := 0 to |blocks|
      invariant |selections| == i
      invariant forall j :: 0 <= j < i ==> selections[j] == SelectionsAt(blocks, counts, scale)[j]
    {
      var rows := SelectRowIndices(|blocks[i].rowLines|, blocks[i].important, SatMul(counts[i], scale) / SCALE);
      selections := selections + [rows];
    }
  }

  lemma NothingSelectedAtZero(blocks: seq<Block>, counts: seq<nat>)
    requires |counts| == |blocks|
    ensures SelectionsAt(blocks, counts, 0) == EmptySelections(|blocks|)
  {
    forall i | 0 <= i < |blocks| ensures SelectionsAt(blocks, counts, 0)[i] == [] {
      assert SatMul(counts[i], 0) == 0;
    }
  }

  ghost function BaseTokens(artifact: Artifact, blocks: seq<Block>): nat {
    DocumentTokens(artifact, blocks, EmptySelections(|blocks|), LOSSY)
  }

  ghost function AllowancesFor(artifact: Artifact, blocks: seq<Block>, budget: nat): (r: seq<nat>)
    requires BaseTokens(artifact, blocks) <= budget && TotalWeight(blocks) > 0
    ensures |r| == |blocks|
  {
    Allowances(blocks, budget - BaseTokens(artifact, blocks), TotalWeight(blocks))
  }

  /** Binary search over the scale. It fails only when the metadata alone is over budget or no block has
      weight; otherwise it returns the selection of the scale where the bisection of the fit test ends. */
  method AllocateCompressedRows(artifact: Artifact, blocks: seq<Block>, budget: nat)
      returns (r: Result<seq<seq<nat>>, RenderError>)
    requires WellFormedBlocks(blocks)
    ensures BaseTokens(artifact, blocks) > budget ==> r == Err(MetadataOverBudget(BaseTokens(artifact, blocks)))
    ensures BaseTokens(artifact, blocks) <= budget && TotalWeight(blocks) == 0 ==> r == Err(ZeroWeights)
    ensures BaseTokens(artifact, blocks) <= budget && TotalWeight(blocks) > 0 ==>
      r.Ok? && IsChosenSelection(artifact, blocks, budget, r.value)
  {
    hide DocumentTokens, SelectionsAt, RowAllowance, ChosenScale;
    var empty: seq<seq<nat>> := seq(|blocks|, _ => []);
    assert empty == EmptySelections(|blocks|);
    var baseTokens := EstimateLlmDocument(artifact, blocks, empty, LOSSY);
    if baseTokens > budget {
      return Err(MetadataOverBudget(baseTokens));
    }
    var totalWeight := SumWeights(blocks);
    if totalWeight == 0 {
      return Err(ZeroWeights);
    }
    var counts := Allowances(blocks, budget - baseTokens, totalWeight);
    NothingSelectedAtZero(blocks, counts);
    SelectionsAreValid(blocks, counts, 0);
    var best := SearchScale(artifact, blocks, counts, budget, empty);
    r := Ok(best);
    assert counts == AllowancesFor(artifact, blocks, budget);
  }

  method SumWeights(blocks: seq<Block>) returns (total: nat)
    ensures total == TotalWeight(blocks)
  {
    total := 0;
    for i := 0 to |blocks|
      invariant total == TotalWeight(blocks[..i])
    {
      assert blocks[..i + 1][..i] == blocks[..i];
      total := total + blocks[i].weight;
    }
    assert blocks[..|blocks|] == blocks;
  }

  method SearchScale(artifact: Artifact, blocks: seq<Block>, counts: seq<nat>, budget: nat, empty: seq<seq<nat>>)
      returns (best: seq<seq<nat>>)
    requires |counts| == |blocks| && WellFormedBlocks(blocks)
    requires empty == SelectionsAt(blocks, counts, 0)
    ensures best == SelectionsAt(blocks, counts, ChosenScale(artifact, blocks, counts, budget))
  {
    hide SelectionsAt, DocumentTokens, Fits, FitTest, Bisect;
    ghost var fits := FitTest(artifact, blocks, counts, budget);
    FitTestIs(artifact, blocks, counts, budget);
    var low, high := 0, SCALE;
    best := empty;
    while low < high
      invariant 0 <= low <= high <= SCALE
      invariant best == SelectionsAt(blocks, counts, low)
      invariant Bisect(fits, low, high) == ChosenScale(artifact, blocks, counts, budget)
      decreases high - low
    {
      var midpoint := low + (high - low + 1) / 2;
      BisectStep(fits, low, high);
      var selections := SelectedRows(blocks, counts, midpoint);
      SelectionsAreValid(blocks, counts, midpoint);
      var tokens := EstimateLlmDocument(artifact, blocks, selections, LOSSY);
      FitsMeans(artifact, blocks, counts, budget, midpoint);
      if tokens <= budget {
        low := midpoint;
        best := selections;
      } else {
        high := midpoint - 1;
      }
    }
    BisectStep(fits, low, high);
  }

  lemma FitsMeans(artifact: Artifact, blocks: seq<Block>, counts: seq<nat>, budget: nat, scale: nat)
    requires |counts| == |blocks| && WellFormedBlocks(blocks)
    ensures SelectsAll(blocks, SelectionsAt(blocks, counts, scale))
    ensures Fits(artifact, blocks, counts, budget, scale)
       <==> DocumentTokens(artifact, blocks, SelectionsAt(blocks, counts, scale), LOSSY) <= budget
  {
    SelectionsAreValid(blocks, counts, scale);
  }

  // ---- the plan ----

  ghost function FullSelections(blocks: seq<Block>): seq<seq<nat>> {
    seq(|blocks|, i requires 0 <= i < |blocks| => Upto(|blocks[i].rowLines|))
  }

  lemma FullSelectionsAreValid(blocks: seq<Block>)
    ensures SelectsAll(blocks, FullSelections(blocks))
  {
  }

  ghost function FullTokens(artifact: Artifact, blocks: seq<Block>): nat {
    FullSelectionsAreValid(blocks);
    DocumentTokens(artifact, blocks, FullSelections(blocks), LOSSLESS)
  }

  ghost predicate FitsWhole(artifact: Artifact, blocks: seq<Block>) {
    artifact.budget.None? || FullTokens(artifact, blocks) <= artifact.budget.value
  }

  ghost predicate Compressible(artifact: Artifact, blocks: seq<Block>)
    requires artifact.budget.Some?
  {
    !artifact.compressionOff && BaseTokens(artifact, blocks) <= artifact.budget.value && TotalWeight(blocks) > 0
  }

  /** Everything without loss when it fits, otherwise the rows of the chosen scale. */
  ghost predicate IsPlan(artifact: Artifact, blocks: seq<Block>, plan: Plan)
    requires WellFormedBlocks(blocks)
  {
    && SelectsAll(blocks, plan.selections)
    && if FitsWhole(artifact, blocks) then plan == Plan(FullSelections(blocks), LOSSLESS)
       else
         && Compressible(artifact, blocks) && plan.compression == LOSSY
         && IsChosenSelection(artifact, blocks, artifact.budget.value, plan.selections)
  }

  ghost predicate IsChosenSelection(artifact: Artifact, blocks: seq<Block>, budget: nat, selections: seq<seq<nat>>)
    requires WellFormedBlocks(blocks) && BaseTokens(artifact, blocks) <= budget && TotalWeight(blocks) > 0
  {
    var counts := AllowancesFor(artifact, blocks, budget);
    selections == SelectionsAt(blocks, counts, ChosenScale(artifact, blocks, counts, budget))
  }

  /** Why there is no plan. */
  ghost function RenderFailure(artifact: Artifact, blocks: seq<Block>): RenderError
    requires artifact.budget.Some?
  {
    if artifact.compressionOff then OverBudget(FullTokens(artifact, blocks))
    else if BaseTokens(artifact, blocks) > artifact.budget.value then MetadataOverBudget(BaseTokens(artifact, blocks))
    else ZeroWeights
  }

  /** Chooses the rows to render. A plan exists exactly when everything fits, or compression is on, the
      metadata fits and some block has weight; a plan under a budget never exceeds it. The final
      over-budget check of the program can therefore not fire. */
  method PrepareLlmRender(artifact: Artifact, blocks: seq<Block>) returns (r: Result<Plan, RenderError>)
    requires WellFormedBlocks(blocks)
    ensures r.Ok? <==> FitsWhole(artifact, blocks) || Compressible(artifact, blocks)
    ensures r.Ok? ==> IsPlan(artifact, blocks, r.value)
    ensures r.Ok? && artifact.budget.Some? ==>
      DocumentTokens(artifact, blocks, r.value.selections, r.value.compression) <= artifact.budget.value
    ensures r.Err? ==> r.error == RenderFailure(artifact, blocks)
  {
    hide DocumentTokens, SelectionsAt;
    FullSelectionsAreValid(blocks);
    var full := seq(|blocks|, i requires 0 <= i < |blocks| => Upto(|blocks[i].rowLines|));
    assert full == FullSelections(blocks);
    var fullTokens := EstimateLlmDocument(artifact, blocks, full, LOSSLESS);
    if artifact.budget.None? {
      return Ok(Plan(full, LOSSLESS));
    }
    var budget := artifact.budget.value;
    if fullTokens <= budget {
      return Ok(Plan(full, LOSSLESS));
    }
    if artifact.compressionOff {
      return Err(OverBudget(fullTokens));
    }
    var outcome := AllocateCompressedRows(artifact, blocks, budget);
    match outcome
    case Err(e) => return Err(e);
    case Ok(selections) =>
      ChosenSelectionFits(artifact, blocks, budget, selections);
      var tokens := EstimateLlmDocument(artifact, blocks, selections, LOSSY);
      if tokens > budget {
        assert false;
      }
      return Ok(Plan(selections, LOSSY));
  }

  /** The chosen selection is that of a fitting scale whose successor does not fit. */
  lemma ChosenSelectionFits(artifact: Artifact, blocks: seq<Block>, budget: nat, selections: seq<seq<nat>>)
    requires WellFormedBlocks(blocks) && BaseTokens(artifact, blocks) <= budget && TotalWeight(blocks) > 0
    requires IsChosenSelection(artifact, blocks, budget, selections)
    ensures SelectsAll(blocks, selections) && DocumentTokens(artifact, blocks, selections, LOSSY) <= budget
    ensures exists scale ::
      && IsEdge(artifact, blocks, AllowancesFor(artifact, blocks, budget), budget, scale)
      && selections == SelectionsAt(blocks, AllowancesFor(artifact, blocks, budget), scale)
  {
    hide DocumentTokens, SelectionsAt, Fits, Allowances;
    var counts := AllowancesFor(artifact, blocks, budget);
    NothingSelectedAtZero(blocks, counts);
    FitsMeans(artifact, blocks, counts, budget, 0);
    ChosenScaleIsEdge(artifact, blocks, counts, budget);
    FitsMeans(artifact, blocks, counts, budget, ChosenScale(artifact, blocks, counts, budget));
  }

  /** End to end: the bytes written for a budgeted plan cost at most the budget. */
  method WriteRawOutput(artifact: Artifact, blocks: seq<Block>) returns (r: Result<Text, RenderError>, ghost lines: nat)
    requires WellFormedBlocks(blocks)
    ensures r.Ok? <==> FitsWhole(artifact, blocks) || Compressible(artifact, blocks)
    ensures r.Ok? && artifact.budget.Some? ==> (|r.value| + 2) / 3 + lines <= artifact.budget.value
    ensures r.Ok? ==> exists plan ::
      IsPlan(artifact, blocks, plan)
      && r.value == Emit(DocumentLines(artifact, blocks, plan.selections, plan.compression))
      && lines == |DocumentLines(artifact, blocks, plan.selections, plan.compression)|
  {
    hide DocumentLines, SelectsAll, FitsWhole, IsChosenSelection;
    lines := 0;
    var plan := PrepareLlmRender(artifact, blocks);
    match plan
    case Err(e) => r := Err(e);
    case Ok(p) =>
      var text := WriteLlmDocument(artifact, blocks, p.selections, p.compression);
      lines := |DocumentLines(artifact, blocks, p.selections, p.compression)|;
      r := Ok(text);
  }

  // ---- the emitted document can be read back ----

  ghost predicate IsPrinted(line: Text) {
    exists cells: Cells :: cells != [] && line == CsvLine(cells)
  }

  ghost predicate AllPrinted(lines: seq<Text>) {
    forall i :: 0 <= i < |lines| ==> IsPrinted(lines[i])
  }

  ghost predicate PrintedBlock(b: Block) {
    AllPrinted(b.rowLines) && AllPrinted(b.prefixLines) && IsPrinted(b.header)
  }

  lemma Printed(cells: Cells)
    requires cells != []
    ensures IsPrinted(CsvLine(cells))
  {
  }

  lemma BlockLinesPrinted(b: Block, selected: seq<nat>, compression: Text)
    requires PrintedBlock(b) && SelectsRows(b, selected)
    ensures AllPrinted(BlockLines(b, selected, compression))
  {
    hide CsvLine, IsPrinted;
    var data := ["data", "compression", compression] +
      if |selected| == |b.rowLines| then ["rows", Decimal(|selected|)]
      else ["rows_original", Decimal(|b.rowLines|), "rows_emitted", Decimal(|selected|)];
    Printed(data);
    Printed(["block_end", "rows", Decimal(|selected|)]);
    assert forall i :: 0 <= i < |selected| ==> selected[i] in selected;
  }

  lemma {:induction false} BlocksLinesPrinted(blocks: seq<Block>, selections: seq<seq<nat>>, compression: Text)
    requires SelectsAll(blocks, selections) && forall i :: 0 <= i < |blocks| ==> PrintedBlock(blocks[i])
    ensures AllPrinted(BlocksLines(blocks, selections, compression))
  {
    hide IsPrinted, BlockLines, PrintedBlock;
    if blocks != [] {
      BlockLinesPrinted(blocks[0], selections[0], compression);
      BlocksLinesPrinted(blocks[1..], selections[1..], compression);
    }
  }

  lemma DocumentLinesPrinted(artifact: Artifact, blocks: seq<Block>, selections: seq<seq<nat>>, compression: Text)
    requires SelectsAll(blocks, selections) && forall i :: 0 <= i < |blocks| ==> PrintedBlock(blocks[i])
    ensures AllPrinted(DocumentLines(artifact, blocks, selections, compression))
  {
    hide CsvLine, IsPrinted, BlocksLines, PrintedBlock, Decimal;
    BlocksLinesPrinted(blocks, selections, compression);
    Printed(["protocol", "tqllm-csv/3"]);
    Printed(["meta", "model", "gpt-5.6", "numbers", artifact.numberFormat, "compression", compression,
             "partial", BoolText(artifact.failures != [])]
            + if compression == LOSSY then ["focus", artifact.focus] else []);
    Printed(["document_end", "status", if artifact.failures == [] then "success" else "partial"]);
    forall i | 0 <= i < |artifact.failures| ensures IsPrinted(GapLine(artifact.failures[i])) {
      var f := artifact.failures[i];
      Printed(["gap", Decimal(f.requestId), f.symbol, f.code, f.message]);
    }
  }

  lemma {:induction false} PrintedRecords(lines: seq<Text>) returns (records: seq<Cells>)
    requires AllPrinted(lines)
    ensures CsvLines(records) == lines && forall i :: 0 <= i < |records| ==> records[i] != []
  {
    hide CsvLine;
    if lines == [] {
      records := [];
    } else {
      var rest := PrintedRecords(lines[1..]);
      assert IsPrinted(lines[0]);
      var first: Cells :| first != [] && lines[0] == CsvLine(first);
      records := [first] + rest;
      assert forall i :: 1 <= i < |records| ==> CsvLines(records)[i] == CsvLines(rest)[i - 1] == lines[1..][i - 1];
    }
  }

  /** If the blocks' own lines were printed as records, an RFC 4180 reader splits the emitted document
      into exactly one record per visited line and recovers every cell. */
  lemma DocumentIsRecovered(artifact: Artifact, blocks: seq<Block>, selections: seq<seq<nat>>, compression: Text)
    requires SelectsAll(blocks, selections) && forall i :: 0 <= i < |blocks| ==> PrintedBlock(blocks[i])
    ensures var lines := DocumentLines(artifact, blocks, selections, compression);
            exists records :: ReadDocument(Emit(lines)) == Some(records) && CsvLines(records) == lines
  {
    hide DocumentLines, PrintedBlock;
    DocumentLinesPrinted(artifact, blocks, selections, compression);
    var records := PrintedRecords(DocumentLines(artifact, blocks, selections, compression));
    DocumentReadsBack(records);
  }
}
