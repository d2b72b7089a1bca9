/** Choosing which rows of a block survive lossy compression. */
module RowSelection {
  import opened Lists

  const USIZE_MAX: nat := 0xFFFF_FFFF_FFFF_FFFF

  /** Multiplication that saturates at the largest machine integer. */
  function SatMul(a: nat, b: nat): (r: nat) {
    if a * b <= USIZE_MAX then a * b else USIZE_MAX
  }

  ghost predicate StrictlyIncreasing(s: seq<nat>) {
    forall i, j :: 0 <= i < j < |s| ==> s[i] < s[j]
  }

  function Upto(n: nat): (r: seq<nat>)
    ensures |r| == n && forall i :: 0 <= i < n ==> r[i] == i
  {
    seq(n, i requires 0 <= i < n => i)
  }

  /** The elements below a bound, in the order in which an ordered set is read out. */
  function Ascending(s: set<nat>, below: nat): (r: seq<nat>)
    ensures StrictlyIncreasing(r)
    ensures forall x :: x in r <==> x in s && x < below
  {
    if below == 0 then []
    else
      var rest := Ascending(s, below - 1);
      assert forall i :: 0 <= i < |rest| ==> rest[i] in rest;
      if below - 1 in s then rest + [below - 1] else rest
  }

  /** Adds candidates in order for as long as fewer than `count` rows are selected. */
  function AddWhileRoom(selected: set<nat>, candidates: seq<nat>, count: nat): (r: set<nat>)
    ensures selected <= r
    ensures forall x :: x in r ==> x in selected || x in candidates
    ensures |selected| <= count ==> |r| <= count
    ensures |selected| >= count ==> r == selected
    ensures |r| < count ==> forall x :: x in candidates ==> x in r
    decreases |candidates|
  {
    if candidates == [] || |selected| >= count then selected
    else
      var r := AddWhileRoom(selected + {candidates[0]}, candidates[1..], count);
      assert forall x :: x in candidates <==> x == candidates[0] || x in candidates[1..];
      r
  }

  lemma MulMonotone(a: nat, b: nat, c: nat)
    requires a <= b
    ensures a * c <= b * c
  {
  }

  lemma QuotientIs(a: nat, d: nat, q: nat)
    requires d >= 1 && q * d <= a < q * d + d
    ensures a / d == q
  {
    var k := a / d;
    assert k * d <= a < k * d + d;
    if k < q { MulMonotone(k + 1, q, d); }
    if q < k { MulMonotone(q + 1, k, d); }
  }

  lemma QuotientBound(a: nat, d: nat, q: nat)
    requires d >= 1 && a <= q * d
    ensures a / d <= q
  {
    var k := a / d;
    assert k * d <= a;
    if q < k { MulMonotone(q + 1, k, d); }
  }

  /** The row at one of `steps` equal steps along `span`, rounded down. */
  function GridRow(offset: nat, span: nat, steps: nat): (r: nat)
    requires steps >= 1
    ensures offset <= steps ==> r <= span
  {
    if offset <= steps then
      MulMonotone(offset, steps, span);
      QuotientBound(SatMul(offset, span), steps, span);
      SatMul(offset, span) / steps
    else
      SatMul(offset, span) / steps
  }

  function Steps(count: nat): (r: nat)
    ensures r >= 1
  {
    if count > 1 then count - 1 else 1
  }

  /** Evenly spaced rows from the first to the last. */
  function Grid(n: nat, count: nat): (r: seq<nat>)
    requires n >= 1
    ensures |r| == count && forall i :: 0 <= i < count ==> r[i] == GridRow(i, n - 1, Steps(count)) < n
  {
    seq(count, i requires 0 <= i < count => GridRow(i, n - 1, Steps(count)))
  }

  function Seed(n: nat, count: nat): set<nat>
    requires n >= 1
  {
    if count > 1 then {0, n - 1} else {0}
  }

  /** The rows kept of `n` when `count` are asked for: both ends, then the important rows, then a grid,
      then the earliest rows. */
  function Select(n: nat, important: seq<nat>, count: nat): seq<nat> {
    if count == 0 || n == 0 then []
    else if count >= n then Upto(n)
    else
      var marked := AddWhileRoom(Seed(n, count), important, count);
      var spread := AddWhileRoom(marked, Grid(n, count), count);
      Ascending(AddWhileRoom(spread, Upto(n), count), n)
  }

  method SelectRowIndices(n: nat, important: seq<nat>, count: nat) returns (rows: seq<nat>)
    requires forall x :: x in important ==> x < n
    ensures rows == Select(n, important, count)
  {
    if count == 0 || n == 0 {
      return [];
    }
    if count >= n {
      return Upto(n);
    }
    rows := SelectSome(n, important, count);
  }

  method SelectSome(n: nat, important: seq<nat>, count: nat) returns (rows: seq<nat>)
    requires 0 < count < n && forall x :: x in important ==> x < n
    ensures rows == Select(n, important, count)
  {
    var selected: set<nat> := {0};
    if count > 1 {
      selected := selected + {n - 1};
    }
    assert selected == Seed(n, count);
    SelectedSize(n, important, count);
    hide Ascending, Grid, AddWhileRoom, Seed;
    selected := AddListed(selected, important, count);
    selected := AddGridRows(selected, n, count);
    if |selected| < count {
      selected := AddListed(selected, Upto(n), count);
    }
    rows := Ascending(selected, n);
    rows := rows[..if |rows| < count then |rows| else count];
  }

  method AddListed(before: set<nat>, candidates: seq<nat>, count: nat) returns (selected: set<nat>)
    ensures selected == AddWhileRoom(before, candidates, count)
  {
    selected := before;
    for i := 0 to |candidates|
      invariant AddWhileRoom(before, candidates, count) == AddWhileRoom(selected, candidates[i..], count)
    {
      if |selected| >= count {
        break;
      }
      assert candidates[i..][1..] == candidates[i + 1..];
      selected := selected + {candidates[i]};
    }
  }

  method AddGridRows(before: set<nat>, n: nat, count: nat) returns (selected: set<nat>)
    requires n >= 1
    ensures selected == AddWhileRoom(before, Grid(n, count), count)
  {
    selected := before;
    ghost var g := Grid(n, count);
    for offset := 0 to count
      invariant AddWhileRoom(before, g, count) == AddWhileRoom(selected, g[offset..], count)
    {
      if |selected| >= count {
        break;
      }
      assert g[offset..][1..] == g[offset + 1..];
      selected := selected + {GridRow(offset, n - 1, Steps(count))};
    }
  }

  // ---- what is kept ----

  lemma AscendingSize(s: set<nat>, below: nat)
    requires forall x :: x in s ==> x < below
    ensures |Ascending(s, below)| == |s|
  {
    ElementsSize(Ascending(s, below));
    assert Elements(Ascending(s, below)) == s;
  }

  lemma Inhabited(s: set<nat>, n: nat)
    requires forall x :: x in Upto(n) ==> x in s
    ensures |s| >= n
  {
    ElementsSize(Upto(n));
    SubsetSize(Elements(Upto(n)), s);
  }

  /** Short of taking every row, exactly `count` rows are selected. */
  lemma SelectedSize(n: nat, important: seq<nat>, count: nat)
    requires 0 < count < n && forall x :: x in important ==> x < n
    ensures var marked := AddWhileRoom(Seed(n, count), important, count);
            var final := AddWhileRoom(AddWhileRoom(marked, Grid(n, count), count), Upto(n), count);
            |final| == count == |Ascending(final, n)| && forall x :: x in final ==> x < n
  {
    var marked := AddWhileRoom(Seed(n, count), important, count);
    var final := AddWhileRoom(AddWhileRoom(marked, Grid(n, count), count), Upto(n), count);
    assert |Seed(n, count)| <= count;
    if |final| < count {
      Inhabited(final, n);
    }
    AscendingSize(final, n);
  }

  /** Exactly min(count, n) distinct rows in order, with the first row, the last row when two or more
      are asked for, and every important row that comes while there is room. */
  lemma SelectKeeps(n: nat, important: seq<nat>, count: nat)
    requires forall x :: x in important ==> x < n
    ensures var rows := Select(n, important, count);
            && |rows| == (if count < n then count else n)
            && StrictlyIncreasing(rows)
            && (forall x :: x in rows ==> x < n)
            && (rows != [] ==> rows[0] == 0)
            && (rows != [] && count > 1 ==> rows[|rows| - 1] == n - 1)
  {
    var rows := Select(n, important, count);
    if 0 < count < n {
      SelectedSize(n, important, count);
      assert 0 in rows;
      assert rows[0] in rows && rows[|rows| - 1] in rows;
      if count > 1 {
        assert n - 1 in rows;
      }
    }
  }

  /** An important row is kept whenever the ends and the important rows up to it fit into `count`. */
  lemma SelectKeepsImportant(n: nat, important: seq<nat>, count: nat, k: nat)
    requires n > 0 && k < |important| && forall x :: x in important ==> x < n
    requires |Seed(n, count) + Elements(important[..k + 1])| <= count
    ensures important[k] in Select(n, important, count)
  {
    if count >= n {
      assert important[k] in important;
      assert Upto(n)[important[k]] == important[k];
    } else {
      FitsWhileRoom(Seed(n, count), important, count, k);
    }
  }

  lemma {:induction false} FitsWhileRoom(selected: set<nat>, candidates: seq<nat>, count: nat, k: nat)
    requires k < |candidates|
    requires |selected + Elements(candidates[..k + 1])| <= count
    ensures candidates[k] in AddWhileRoom(selected, candidates, count)
    decreases k
  {
    var wanted := selected + Elements(candidates[..k + 1]);
    assert candidates[k] == candidates[..k + 1][k] && candidates[k] in wanted;
    SubsetSize(selected, wanted);
    if |selected| < count && k > 0 {
      var next := selected + {candidates[0]};
      assert candidates[..k + 1] == [candidates[0]] + candidates[1..][..k];
      assert next + Elements(candidates[1..][..k]) == wanted;
      FitsWhileRoom(next, candidates[1..], count, k - 1);
    }
  }

  // ---- the grid ----

  lemma {:induction false} IncreasingAreEqual(a: seq<nat>, b: seq<nat>)
    requires StrictlyIncreasing(a) && StrictlyIncreasing(b)
    requires Elements(a) == Elements(b)
    ensures a == b
  {
    ElementsSize(a);
    ElementsSize(b);
    if a != [] {
      var x := a[|a| - 1];
      assert x in Elements(b) && b[|b| - 1] in Elements(a);
      var p, q := a[..|a| - 1], b[..|b| - 1];
      forall y ensures y in p <==> y in q {
        InitOf(a, y);
        InitOf(b, y);
        assert y in Elements(a) <==> y in Elements(b);
      }
      IncreasingAreEqual(p, q);
      assert a == p + [x] && b == q + [x];
    }
  }

  lemma InitOf(a: seq<nat>, y: nat)
    requires StrictlyIncreasing(a) && a != []
    ensures y in a[..|a| - 1] <==> y in a && y != a[|a| - 1]
  {
  }

  lemma Divide(a: nat, d: nat) returns (q: nat, r: nat)
    requires d >= 1
    ensures a == q * d + r && r < d && a / d == q
  {
    q, r := a / d, a % d;
  }

  lemma SumQuotient(a: nat, b: nat, x: nat, y: nat, q: nat, r: nat, d: nat)
    requires a == x * d + y && y < d && b == q * d + r && r < d
    ensures (a + b) / d == if y + r < d then x + q else x + q + 1
  {
    var k := if y + r < d then x + q else x + q + 1;
    assert k * d == if y + r < d then x * d + q * d else x * d + q * d + d;
    QuotientIs(a + b, d, k);
  }

  lemma CeilQuotient(b: nat, q: nat, r: nat, d: nat)
    requires b == q * d + r && r < d
    ensures (b + d - 1) / d == if r == 0 then q else q + 1
  {
    var k := if r == 0 then q else q + 1;
    assert k * d == if r == 0 then q * d else q * d + d;
    QuotientIs(b + d - 1, d, k);
  }

  lemma DivAdd(a: nat, b: nat, d: nat)
    requires d >= 1
    ensures a / d + b / d <= (a + b) / d <= a / d + (b + d - 1) / d
  {
    var x, y := Divide(a, d);
    var q, r := Divide(b, d);
    SumQuotient(a, b, x, y, q, r, d);
    CeilQuotient(b, q, r, d);
  }

  lemma GridValue(i: nat, span: nat, steps: nat)
    requires steps >= 1 && i <= steps && steps * span <= USIZE_MAX
    ensures GridRow(i, span, steps) == i * span / steps
  {
    MulMonotone(i, steps, span);
  }

  /** Neighbouring grid rows are at least one row and at most ceil(span / steps) rows apart. */
  lemma GridGap(i: nat, span: nat, steps: nat)
    requires 1 <= steps <= span && i < steps && steps * span <= USIZE_MAX
    ensures 1 <= GridRow(i + 1, span, steps) - GridRow(i, span, steps) <= (span + steps - 1) / steps
  {
    GridValue(i, span, steps);
    GridValue(i + 1, span, steps);
    hide GridRow;
    assert (i + 1) * span == i * span + span;
    DivAdd(i * span, span, steps);
    QuotientAtLeastOne(span, steps);
  }

  lemma GridEnds(span: nat, steps: nat)
    requires steps >= 1 && steps * span <= USIZE_MAX
    ensures GridRow(0, span, steps) == 0 && GridRow(steps, span, steps) == span
  {
    assert SatMul(0, span) == 0;
    QuotientIs(0, steps, 0);
    QuotientIs(steps * span, steps, span);
  }

  lemma GridIncreases(n: nat, count: nat)
    requires 2 <= count <= n && (count - 1) * (n - 1) <= USIZE_MAX
    ensures StrictlyIncreasing(Grid(n, count))
    ensures Grid(n, count)[0] == 0 && Grid(n, count)[count - 1] == n - 1
    ensures forall i :: 0 <= i < count - 1 ==>
      1 <= Grid(n, count)[i + 1] - Grid(n, count)[i] <= (n - 1 + count - 2) / (count - 1)
  {
    hide GridRow;
    var g, span, steps := Grid(n, count), n - 1, count - 1;
    GridEnds(span, steps);
    forall i | 0 <= i < count - 1 ensures 1 <= g[i + 1] - g[i] <= (span + steps - 1) / steps {
      GridGap(i, span, steps);
    }
    StepwiseIncreasing(g);
  }

  lemma QuotientAtLeastOne(a: nat, d: nat)
    requires 1 <= d <= a
    ensures a / d >= 1
  {
  }

  lemma {:induction false} StepwiseIncreasing(s: seq<nat>)
    requires forall i :: 0 <= i < |s| - 1 ==> s[i] < s[i + 1]
    ensures StrictlyIncreasing(s)
  {
    forall i, j | 0 <= i < j < |s| ensures s[i] < s[j] {
      Climb(s, i, j);
    }
  }

  lemma {:induction false} Climb(s: seq<nat>, i: nat, j: nat)
    requires forall k :: 0 <= k < |s| - 1 ==> s[k] < s[k + 1]
    requires i < j < |s|
    ensures s[i] < s[j]
    decreases j
  {
    assert s[j - 1] < s[j - 1 + 1];
    if i < j - 1 { Climb(s, i, j - 1); }
  }

  // ---- what is kept beside the important rows ----

  lemma {:induction false} AllFit(selected: set<nat>, candidates: seq<nat>, count: nat)
    requires |selected + Elements(candidates)| <= count
    ensures AddWhileRoom(selected, candidates, count) == selected + Elements(candidates)
  {
    var all := selected + Elements(candidates);
    forall k | 0 <= k < |candidates| ensures candidates[k] in AddWhileRoom(selected, candidates, count) {
      SubsetSize(selected + Elements(candidates[..k + 1]), all);
      FitsWhileRoom(selected, candidates, count, k);
    }
    assert forall x :: x in candidates ==> x in AddWhileRoom(selected, candidates, count);
  }

  /** Candidates are taken in order: with one that was not selected before, all before it are in. */
  lemma {:induction false} TakenInOrder(selected: set<nat>, candidates: seq<nat>, count: nat, j: nat, k: nat)
    requires j <= k < |candidates| && candidates[k] !in selected
    requires candidates[k] in AddWhileRoom(selected, candidates, count)
    requires forall i :: 0 <= i < k ==> candidates[i] != candidates[k]
    ensures candidates[j] in AddWhileRoom(selected, candidates, count)
    decreases k
  {
    if j > 0 {
      var next := selected + {candidates[0]};
      assert candidates[k] == candidates[1..][k - 1] && candidates[j] == candidates[1..][j - 1];
      TakenInOrder(next, candidates[1..], count, j - 1, k - 1);
    }
  }

  /** The sets of rows after the important rows, after the grid and at the end. */
  function Marked(n: nat, important: seq<nat>, count: nat): set<nat>
    requires n > 0
  {
    AddWhileRoom(Seed(n, count), important, count)
  }

  lemma SelectedRowsAre(n: nat, important: seq<nat>, count: nat)
    requires 0 < count < n && forall x :: x in important ==> x < n
    ensures forall x :: x in Select(n, important, count) ==> x < n
    ensures var spread := AddWhileRoom(Marked(n, important, count), Grid(n, count), count);
            forall x :: x in Select(n, important, count) <==> x in AddWhileRoom(spread, Upto(n), count)
  {
    SelectedSize(n, important, count);
  }

  /** The i-th of `count` rows spread evenly over `n`. */
  function EvenRow(n: nat, count: nat, i: nat): nat
    requires 2 <= count && 1 <= n
  {
    i * (n - 1) / (count - 1)
  }

  ghost function EvenRows(n: nat, count: nat, upto: nat): set<nat>
    requires 2 <= count && 1 <= n
  {
    set j | 0 <= j < upto :: EvenRow(n, count, j)
  }

  lemma GridIsEven(n: nat, count: nat, k: nat)
    requires 2 <= count < n && (count - 1) * (n - 1) <= USIZE_MAX && k <= count
    ensures Elements(Grid(n, count)[..k]) == EvenRows(n, count, k)
    ensures forall i :: 0 <= i < count ==> Grid(n, count)[i] == EvenRow(n, count, i)
  {
    var grid := Grid(n, count);
    forall j | 0 <= j < count ensures grid[j] == EvenRow(n, count, j) {
      GridValue(j, n - 1, count - 1);
    }
    assert forall j :: 0 <= j < k ==> grid[..k][j] == EvenRow(n, count, j);
    forall x | x in EvenRows(n, count, k) ensures x in grid[..k] {
      var j :| 0 <= j < k && x == EvenRow(n, count, j);
      assert grid[..k][j] == x;
    }
  }

  /** With important rows too, the i-th evenly spaced row is kept whenever the ends, the important rows and
      the evenly spaced rows up to it fit into `count`. */
  lemma SelectKeepsGrid(n: nat, important: seq<nat>, count: nat, i: nat)
    requires 2 <= count < n && (count - 1) * (n - 1) <= USIZE_MAX && i < count
    requires forall x :: x in important ==> x < n
    requires |{0, n - 1} + Elements(important) + EvenRows(n, count, i + 1)| <= count
    ensures EvenRow(n, count, i) in Select(n, important, count)
  {
    hide *;
    GridIsEven(n, count, i + 1);
    SeedOfTwo(n, count);
    KeepsCandidate(n, important, count, i, Seed(n, count), Elements(Grid(n, count)[..i + 1]));
  }

  lemma SeedOfTwo(n: nat, count: nat)
    requires n > 0 && count > 1
    ensures Seed(n, count) == {0, n - 1}
  {
  }

  lemma KeepsCandidate(n: nat, important: seq<nat>, count: nat, i: nat, ends: set<nat>, upto: set<nat>)
    requires 2 <= count < n && i < count && forall x :: x in important ==> x < n
    requires ends == Seed(n, count) && upto == Elements(Grid(n, count)[..i + 1])
    requires |ends + Elements(important) + upto| <= count
    ensures Grid(n, count)[i] in Select(n, important, count)
  {
    hide Grid, Select, Seed, AddWhileRoom, Elements;
    var wanted := ends + Elements(important);
    SubsetSize(wanted, wanted + upto);
    AllFit(ends, important, count);
    FitsWhileRoom(wanted, Grid(n, count), count, i);
    SelectedRowsAre(n, important, count);
  }

  /** A row that is no end, no important row and not evenly spaced is kept only to fill up: then all of
      those are kept, and every earlier row is. */
  lemma SelectFillsLast(n: nat, important: seq<nat>, count: nat, x: nat)
    requires 2 <= count < n && (count - 1) * (n - 1) <= USIZE_MAX
    requires forall y :: y in important ==> y < n
    requires x in Select(n, important, count)
    requires x != 0 && x != n - 1 && x !in important && x !in EvenRows(n, count, count)
    ensures forall y :: y in important ==> y in Select(n, important, count)
    ensures forall y :: y in EvenRows(n, count, count) ==> y in Select(n, important, count)
    ensures forall y: nat :: y < x ==> y in Select(n, important, count)
  {
    hide Select, Grid, Seed;
    SelectedRowsAre(n, important, count);
    GridIsEven(n, count, count);
    var grid := Grid(n, count);
    assert grid[..count] == grid;
    var spread := AddWhileRoom(Marked(n, important, count), grid, count);
    NotMarked(n, important, count, x);
    hide EvenRows;
    assert x !in spread;
    FillsInOrder(spread, n, count, x);
    SubsetSize(Marked(n, important, count), spread);
  }

  lemma NotMarked(n: nat, important: seq<nat>, count: nat, x: nat)
    requires n > 0 && x != 0 && x != n - 1 && x !in important
    ensures x !in Marked(n, important, count)
    ensures |Marked(n, important, count)| < count ==> forall y :: y in important ==> y in Marked(n, important, count)
  {
  }

  lemma FillsInOrder(spread: set<nat>, n: nat, count: nat, x: nat)
    requires x < n && x !in spread && x in AddWhileRoom(spread, Upto(n), count)
    ensures |spread| < count
    ensures forall y: nat :: y < x ==> y in AddWhileRoom(spread, Upto(n), count)
  {
    forall y: nat | y < x ensures y in AddWhileRoom(spread, Upto(n), count) {
      assert Upto(n)[x] == x && Upto(n)[y] == y;
      TakenInOrder(spread, Upto(n), count, y, x);
    }
  }

  lemma UnmarkedSelectIsGrid(n: nat, count: nat)
    requires 2 <= count < n && (count - 1) * (n - 1) <= USIZE_MAX
    ensures Select(n, [], count) == Grid(n, count)
  {
    GridIncreases(n, count);
    hide Grid, Ascending;
    var g := Grid(n, count);
    ElementsSize(g);
    var all := Elements(g);
    var spread := AddWhileRoom(Seed(n, count), g, count);
    assert g[0] in all && g[count - 1] in all;
    assert AddWhileRoom(Seed(n, count), [], count) == Seed(n, count);
    SubsetSize(spread, all);
    if |spread| < count {
      SubsetSize(all, spread);
    }
    assert AddWhileRoom(spread, Upto(n), count) == spread;
    assert Elements(Ascending(spread, n)) == Elements(g);
    IncreasingAreEqual(Ascending(spread, n), g);
  }

  /** Without important rows the selection is exactly the evenly spaced grid, and consecutive rows are
      never further apart than the rounded-up spacing. */
  lemma SelectIsGrid(n: nat, count: nat)
    requires 2 <= count < n && (count - 1) * (n - 1) <= USIZE_MAX
    ensures var rows := Select(n, [], count);
            && |rows| == count
            && (forall i :: 0 <= i < count ==> rows[i] == i * (n - 1) / (count - 1))
            && (forall i :: 0 <= i < count - 1 ==> 1 <= rows[i + 1] - rows[i] <= (n - 1 + count - 2) / (count - 1))
  {
    hide Select, GridRow;
    UnmarkedSelectIsGrid(n, count);
    GridIncreases(n, count);
    var rows := Select(n, [], count);
    forall i | 0 <= i < count ensures rows[i] == i * (n - 1) / (count - 1) {
      GridValue(i, n - 1, count - 1);
    }
  }
}
