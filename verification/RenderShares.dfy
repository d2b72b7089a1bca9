/** How the residual budget is shared out among the blocks, and what a scale makes of the shares. */
module RenderShares {
  import opened RowSelection
  import opened LlmRender

  /** Estimated tokens of all rows of a block, at least one. */
  function RowTokens(b: Block): nat {
    if LinesTokens(b.rowLines) >= 1 then LinesTokens(b.rowLines) else 1
  }

  /** The part of the residual budget that goes to a block. */
  function Share(b: Block, residual: nat, totalWeight: nat): nat
    requires totalWeight > 0
  {
    SatMul(residual, b.weight) / totalWeight
  }

  lemma QuotientBounds(x: nat, d: nat)
    requires d > 0
    ensures x / d * d <= x < x / d * d + d
  {
  }

  lemma CeilBounds(x: nat, d: nat)
    requires d > 0
    ensures x <= CeilDiv(x, d) * d < x + d
  {
    QuotientBounds(x + d - 1, d);
  }

  lemma ScaleLess(a: nat, b: nat, c: nat)
    requires a < b && c > 0
    ensures a * c < b * c
  {
  }

  /** A share is proportional to the weight, rounded down. */
  lemma ShareBounds(b: Block, residual: nat, totalWeight: nat)
    requires totalWeight > 0 && residual * b.weight <= USIZE_MAX
    ensures Share(b, residual, totalWeight) * totalWeight <= residual * b.weight
    ensures residual * b.weight < (Share(b, residual, totalWeight) + 1) * totalWeight
  {
    QuotientBounds(residual * b.weight, totalWeight);
  }

  /** The allowance is the proportion of the rows that the share pays for, rounded up, but no more rows
      than there are. */
  lemma AllowanceOfShare(b: Block, residual: nat, totalWeight: nat)
    requires totalWeight > 0 && |b.rowLines| * Share(b, residual, totalWeight) <= USIZE_MAX
    ensures var k, n, share := RowAllowance(b, residual, totalWeight), |b.rowLines|, Share(b, residual, totalWeight);
            && k <= n
            && (k > 0 ==> (k - 1) * RowTokens(b) < n * share)
            && (k < n ==> n * share <= k * RowTokens(b))
  {
    hide LinesTokens;
    var n, share := |b.rowLines|, Share(b, residual, totalWeight);
    CeilBounds(n * share, RowTokens(b));
    var q := CeilDiv(n * share, RowTokens(b));
    var k := RowAllowance(b, residual, totalWeight);
    if n > 0 {
      assert k <= q;
      if k > 0 {
        MulMonotone(k - 1, q - 1, RowTokens(b));
        assert (q - 1) * RowTokens(b) == q * RowTokens(b) - RowTokens(b);
      }
    }
  }

  /** The allowance of a block is by weight: within one row from above and one token from below it is the
      proportion residual x weight / (total weight x estimated tokens) of its rows. */
  lemma AllowanceByWeight(b: Block, residual: nat, totalWeight: nat)
    requires totalWeight > 0 && residual * b.weight <= USIZE_MAX
    requires |b.rowLines| * Share(b, residual, totalWeight) <= USIZE_MAX
    ensures var k, n := RowAllowance(b, residual, totalWeight), |b.rowLines|;
            && k <= n
            && (k > 0 ==> (k - 1) * RowTokens(b) * totalWeight < n * (residual * b.weight))
            && (k < n ==> k * RowTokens(b) * totalWeight > n * (residual * b.weight - totalWeight))
  {
    hide RowAllowance, RowTokens, Share;
    AllowanceOfShare(b, residual, totalWeight);
    ShareBounds(b, residual, totalWeight);
    var k, n, share := RowAllowance(b, residual, totalWeight), |b.rowLines|, Share(b, residual, totalWeight);
    if k > 0 { NotAbove(k - 1, RowTokens(b), totalWeight, n, share, residual * b.weight); }
    if k < n { NotBelow(k, RowTokens(b), totalWeight, n, share, residual * b.weight); }
  }

  lemma NotAbove(k: nat, tokens: nat, w: nat, n: nat, share: nat, due: nat)
    requires k * tokens < n * share && share * w <= due && w > 0
    ensures k * tokens * w < n * due
  {
    ScaleLess(k * tokens, n * share, w);
    Regroup(n, share, w);
    MulMonotone(share * w, due, n);
  }

  lemma NotBelow(k: nat, tokens: nat, w: nat, n: nat, share: nat, due: nat)
    requires n * share <= k * tokens && due < (share + 1) * w && n > 0
    ensures k * tokens * w > n * (due - w)
  {
    MulMonotone(n * share, k * tokens, w);
    Regroup(n, share, w);
    Distribute(share, 1, w);
    ScaleInt(n, due - w, share * w);
  }

  lemma ScaleInt(n: int, x: int, y: int)
    requires n > 0 && x < y
    ensures n * x < n * y
  {
  }

  lemma Distribute(a: nat, b: nat, c: nat)
    ensures (a + b) * c == a * c + b * c
  {
  }

  lemma Regroup(n: nat, share: nat, w: nat)
    ensures n * share * w == n * (share * w)
  {
  }

  /** The same of the allowances that the search for a scale starts from. */
  lemma AllowancesAreByWeight(artifact: Artifact, blocks: seq<Block>, budget: nat, i: nat)
    requires BaseTokens(artifact, blocks) <= budget && TotalWeight(blocks) > 0 && i < |blocks|
    requires var residual := budget - BaseTokens(artifact, blocks);
             && residual * blocks[i].weight <= USIZE_MAX
             && |blocks[i].rowLines| * Share(blocks[i], residual, TotalWeight(blocks)) <= USIZE_MAX
    ensures var k, n := AllowancesFor(artifact, blocks, budget)[i], |blocks[i].rowLines|;
            var due := (budget - BaseTokens(artifact, blocks)) * blocks[i].weight;
            && k <= n
            && (k > 0 ==> (k - 1) * RowTokens(blocks[i]) * TotalWeight(blocks) < n * due)
            && (k < n ==> k * RowTokens(blocks[i]) * TotalWeight(blocks) > n * (due - TotalWeight(blocks)))
  {
    hide RowAllowance, RowTokens, Share, TotalWeight, BaseTokens;
    AllowanceByWeight(blocks[i], budget - BaseTokens(artifact, blocks), TotalWeight(blocks));
  }

  // ---- all shares together ----

  function Shares(blocks: seq<Block>, residual: nat, totalWeight: nat): nat
    requires totalWeight > 0
  {
    if blocks == [] then 0
    else Shares(blocks[..|blocks| - 1], residual, totalWeight) + Share(blocks[|blocks| - 1], residual, totalWeight)
  }

  lemma {:induction false} SharesWithin(blocks: seq<Block>, residual: nat, totalWeight: nat)
    requires totalWeight > 0
    ensures Shares(blocks, residual, totalWeight) * totalWeight <= residual * TotalWeight(blocks)
  {
    hide Share;
    if blocks != [] {
      var init, last := blocks[..|blocks| - 1], blocks[|blocks| - 1];
      SharesWithin(init, residual, totalWeight);
      Distribute(Shares(init, residual, totalWeight), Share(last, residual, totalWeight), totalWeight);
      Distribute(TotalWeight(init), last.weight, residual);
      ShareIsDue(last, residual, totalWeight);
    }
  }

  lemma ShareIsDue(b: Block, residual: nat, totalWeight: nat)
    requires totalWeight > 0
    ensures Share(b, residual, totalWeight) * totalWeight <= b.weight * residual
  {
    QuotientBounds(SatMul(residual, b.weight), totalWeight);
  }

  /** The shares of all blocks add up to at most the residual budget. */
  lemma SharesAddUp(blocks: seq<Block>, residual: nat)
    requires TotalWeight(blocks) > 0
    ensures Shares(blocks, residual, TotalWeight(blocks)) <= residual
  {
    hide Shares;
    var w, sum := TotalWeight(blocks), Shares(blocks, residual, TotalWeight(blocks));
    SharesWithin(blocks, residual, w);
    if sum > residual { ScaleLess(residual, sum, w); }
  }

  // ---- scaling ----

  /** At a scale every block keeps that many millionths of its allowance, rounded down; at the full scale
      all of it. */
  lemma ScaledAllowance(blocks: seq<Block>, counts: seq<nat>, scale: nat, i: nat)
    requires |counts| == |blocks| && i < |blocks| && WellFormedBlock(blocks[i]) && scale <= 1_000_000
    requires counts[i] <= |blocks[i].rowLines| && counts[i] * scale <= USIZE_MAX
    ensures var kept := |SelectionsAt(blocks, counts, scale)[i]|;
            && kept * 1_000_000 <= counts[i] * scale < (kept + 1) * 1_000_000
            && (scale == 1_000_000 ==> kept == counts[i])
  {
    hide Select;
    var b, c := blocks[i], counts[i] * scale / SCALE;
    QuotientBounds(counts[i] * scale, SCALE);
    MulMonotone(scale, 1_000_000, counts[i]);
    assert c <= counts[i];
    SelectKeeps(|b.rowLines|, b.important, c);
  }
}
