/** A condition on the rows under which the search for a scale finds the greatest one that fits. */
module RenderSearch {
  import opened Csv
  import opened RowSelection
  import opened Bisection
  import opened LlmRender
  import opened RenderCosts

  // ---- blocks of even rows: every smaller scale costs less ----

  ghost predicate RowsWithin(lines: seq<Text>, least: nat, most: nat) {
    forall i :: 0 <= i < |lines| ==> least <= |lines[i]| <= most
  }

  /** The shortest and the longest row are so close that all `n` rows, with the shorter data line that
      keeping all of them brings, cost no less than any `n - 1`. */
  ghost predicate EvenRows(b: Block) {
    var n := |b.rowLines|;
    n > 0 ==> exists least: nat, most: nat ::
      RowsWithin(b.rowLines, least, most) && (n - 1) * (most + 4) + 23 + Digits(n) <= n * (least + 4)
  }

  lemma {:induction false} RowsCostBetween(lines: seq<Text>, least: nat, most: nat)
    requires RowsWithin(lines, least, most)
    ensures |lines| * (least + 4) <= LinesCost(lines) <= |lines| * (most + 4)
  {
    if lines != [] {
      RowsCostBetween(lines[1..], least, most);
      LineCost(lines[0]);
      LinesCostAdds([lines[0]], lines[1..]);
      assert [lines[0]] + lines[1..] == lines;
      Distribute(|lines| - 1, least + 4);
      Distribute(|lines| - 1, most + 4);
    }
  }

  lemma Distribute(k: nat, x: nat)
    ensures (k + 1) * x == k * x + x
  {
  }

  lemma SelectedWithin(b: Block, selected: seq<nat>, least: nat, most: nat)
    requires SelectsRows(b, selected) && RowsWithin(b.rowLines, least, most)
    ensures RowsWithin(Rows(b, selected), least, most)
  {
    forall i | 0 <= i < |selected| ensures least <= |Rows(b, selected)[i]| <= most {
      assert selected[i] in selected;
    }
  }

  /** If `n - 1` long rows cost no more than `n` short ones, the same holds of fewer rows. */
  lemma FewerStayBelow(n: nat, k: nat, longer: nat, shorter: nat)
    requires k < n && (n - 1) * longer <= n * shorter
    ensures k * longer <= (k + 1) * shorter
  {
    if n > 1 {
      var m := n - 1;
      assert m * (k * longer) == k * (m * longer);
      MulMonotone(m * longer, n * shorter, k);
      assert k * (m * longer) <= k * (n * shorter);
      assert k * n <= (k + 1) * m by { assert (k + 1) * m == k * n + n - k - 1; }
      MulMonotone(k * n, (k + 1) * m, shorter);
      assert k * (n * shorter) == k * n * shorter;
      assert (k + 1) * m * shorter == m * ((k + 1) * shorter);
      Cancel(m, k * longer, (k + 1) * shorter);
    }
  }

  lemma Cancel(m: nat, x: nat, y: nat)
    requires m > 0 && m * x <= m * y
    ensures x <= y
  {
    if x > y { MulMonotone(y + 1, x, m); }
  }

  lemma FewerRowsCostLess(b: Block, s: seq<nat>, t: seq<nat>)
    requires SelectsRows(b, s) && SelectsRows(b, t) && |s| < |t| <= |b.rowLines| && EvenRows(b)
    ensures BlockCost(b, s, LOSSY) <= BlockCost(b, t, LOSSY)
  {
    hide LinesCost, Rows, Digits;
    var n, k, j := |b.rowLines|, |s|, |t|;
    var least: nat, most: nat :| RowsWithin(b.rowLines, least, most)
                                 && (n - 1) * (most + 4) + 23 + Digits(n) <= n * (least + 4);
    SelectedWithin(b, s, least, most);
    SelectedWithin(b, t, least, most);
    RowsCostBetween(Rows(b, s), least, most);
    RowsCostBetween(Rows(b, t), least, most);
    DigitsGrowTo(k, j, n);
    if j < n {
      FewerStayBelow(n, k, most + 4, least + 4);
      MulMonotone(k + 1, j, least + 4);
    } else {
      MulMonotone(k, n - 1, most + 4);
    }
  }

  lemma DigitsGrowTo(k: nat, j: nat, n: nat)
    requires k <= j <= n
    ensures Digits(k) <= Digits(j) <= Digits(n)
  {
    DigitsGrow(k, j);
    DigitsGrow(j, n);
  }

  ghost predicate AllEven(blocks: seq<Block>) {
    forall i :: 0 <= i < |blocks| ==> EvenRows(blocks[i])
  }

  lemma ScaledCountsGrow(count: nat, a: nat, b: nat)
    requires a <= b
    ensures SatMul(count, a) / SCALE <= SatMul(count, b) / SCALE
  {
    MulMonotone(a, b, count);
    QuotientBelow(SatMul(count, a), SatMul(count, b), SCALE);
  }

  lemma QuotientBelow(x: nat, y: nat, d: nat)
    requires x <= y && d > 0
    ensures x / d <= y / d
  {
    if x / d > y / d { MulMonotone(y / d + 1, x / d, d); }
  }

  lemma SmallerSelectionCostsLess(b: Block, c: nat, d: nat)
    requires WellFormedBlock(b) && EvenRows(b) && c <= d
    ensures var n := |b.rowLines|;
            && SelectsRows(b, Select(n, b.important, c)) && SelectsRows(b, Select(n, b.important, d))
            && BlockCost(b, Select(n, b.important, c), LOSSY) <= BlockCost(b, Select(n, b.important, d), LOSSY)
  {
    hide BlockCost, EvenRows;
    var n := |b.rowLines|;
    SelectKeeps(n, b.important, c);
    SelectKeeps(n, b.important, d);
    if c < d && c < n {
      FewerRowsCostLess(b, Select(n, b.important, c), Select(n, b.important, d));
    } else if c < d {
      assert Select(n, b.important, c) == Select(n, b.important, d);
    }
  }

  lemma SelectionsTail(blocks: seq<Block>, counts: seq<nat>, scale: nat)
    requires |counts| == |blocks| && blocks != []
    ensures SelectionsAt(blocks, counts, scale)[0]
         == Select(|blocks[0].rowLines|, blocks[0].important, SatMul(counts[0], scale) / SCALE)
    ensures SelectionsAt(blocks, counts, scale)[1..] == SelectionsAt(blocks[1..], counts[1..], scale)
  {
    hide Select, SatMul;
  }

  lemma {:induction false} SmallerScaleCostsLess(blocks: seq<Block>, counts: seq<nat>, a: nat, b: nat)
    requires |counts| == |blocks| && WellFormedBlocks(blocks) && AllEven(blocks) && a <= b
    ensures SelectsAll(blocks, SelectionsAt(blocks, counts, a)) && SelectsAll(blocks, SelectionsAt(blocks, counts, b))
    ensures BlocksCost(blocks, SelectionsAt(blocks, counts, a), LOSSY)
         <= BlocksCost(blocks, SelectionsAt(blocks, counts, b), LOSSY)
    decreases |blocks|
  {
    hide BlockCost, SatMul, Select, SelectionsAt, EvenRows, WellFormedBlock;
    SelectionsAreValid(blocks, counts, a);
    SelectionsAreValid(blocks, counts, b);
    if blocks != [] {
      SelectionsTail(blocks, counts, a);
      SelectionsTail(blocks, counts, b);
      ScaledCountsGrow(counts[0], a, b);
      SmallerSelectionCostsLess(blocks[0], SatMul(counts[0], a) / SCALE, SatMul(counts[0], b) / SCALE);
      SmallerScaleCostsLess(blocks[1..], counts[1..], a, b);
    }
  }

  /** With even rows in every block, every scale below a fitting one fits. */
  lemma EvenRowsAreDownwardClosed(artifact: Artifact, blocks: seq<Block>, counts: seq<nat>, budget: nat)
    requires |counts| == |blocks| && WellFormedBlocks(blocks) && AllEven(blocks)
    ensures DownwardClosed(artifact, blocks, counts, budget)
  {
    hide DocumentTokens, BlocksCost, SelectionsAt, FrameCost, AllEven, WellFormedBlocks;
    forall a: nat, b: nat | a <= b <= SCALE && Fits(artifact, blocks, counts, budget, b)
      ensures Fits(artifact, blocks, counts, budget, a)
    {
      FitsMeans(artifact, blocks, counts, budget, a);
      FitsMeans(artifact, blocks, counts, budget, b);
      SmallerScaleCostsLess(blocks, counts, a, b);
      DocumentCost(artifact, blocks, SelectionsAt(blocks, counts, a), LOSSY);
      DocumentCost(artifact, blocks, SelectionsAt(blocks, counts, b), LOSSY);
    }
  }

  /** So with even rows the search finds the greatest scale that fits. */
  lemma EvenRowsAreSearchedExactly(artifact: Artifact, blocks: seq<Block>, budget: nat)
    requires WellFormedBlocks(blocks) && AllEven(blocks)
    requires BaseTokens(artifact, blocks) <= budget && TotalWeight(blocks) > 0
    ensures var counts := AllowancesFor(artifact, blocks, budget);
            IsGreatestFit(FitTest(artifact, blocks, counts, budget), SCALE,
              ChosenScale(artifact, blocks, counts, budget))
  {
    hide AllEven, Fits, FitTest, DownwardClosed, DocumentTokens, ChosenScale, SelectionsAt, Allowances;
    var counts := AllowancesFor(artifact, blocks, budget);
    var chosen := ChosenScale(artifact, blocks, counts, budget);
    NothingSelectedAtZero(blocks, counts);
    FitsMeans(artifact, blocks, counts, budget, 0);
    ChosenScaleIsEdge(artifact, blocks, counts, budget);
    FitTestIs(artifact, blocks, counts, budget);
    EvenRowsAreDownwardClosed(artifact, blocks, counts, budget);
    forall other: nat | chosen < other <= SCALE ensures !Fits(artifact, blocks, counts, budget, other) {
      if Fits(artifact, blocks, counts, budget, other) {
        EdgeIsGreatest(artifact, blocks, counts, budget, chosen, other);
      }
    }
  }
}
