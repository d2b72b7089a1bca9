/** Stock result types shared by the other modules. */
module Wrappers {
  datatype Option<+T> = None | Some(value: T)

  datatype Result<+T, +E> = Ok(value: T) | Err(error: E)
}

/** The smaller and the larger of two integers. */
module Extremes {
  function Min(a: int, b: int): int {
    if a <= b then a else b
  }

  function Max(a: int, b: int): int {
    if a >= b then a else b
  }
}

/** Lists seen as sets. */
module Lists {
  ghost function Elements<T>(s: seq<T>): set<T> {
    set x | x in s
  }

  ghost predicate Distinct<T>(s: seq<T>) {
    forall i, j :: 0 <= i < j < |s| ==> s[i] != s[j]
  }

  /** A list is exactly as long as its element set when it has no repetition, and longer otherwise. */
  lemma {:induction false} ElementsSize<T>(s: seq<T>)
    ensures |Elements(s)| <= |s|
    ensures |Elements(s)| == |s| <==> Distinct(s)
  {
    if s != [] {
      ElementsSize(s[1..]);
      var rest := Elements(s[1..]);
      assert Elements(s) == {s[0]} + rest;
      if s[0] in s[1..] {
        assert Elements(s) == rest;
        var k :| 0 <= k < |s[1..]| && s[1..][k] == s[0];
        assert s[0] == s[k + 1];
      } else {
        assert Distinct(s) <==> Distinct(s[1..]) by {
          if Distinct(s[1..]) {
            forall i, j | 0 <= i < j < |s| ensures s[i] != s[j] {
              assert s[j] == s[1..][j - 1];
              if i > 0 { assert s[i] == s[1..][i - 1]; }
            }
          }
          if Distinct(s) {
            forall i, j | 0 <= i < j < |s[1..]| ensures s[1..][i] != s[1..][j] {
              assert s[1..][i] == s[i + 1] && s[1..][j] == s[j + 1];
            }
          }
        }
      }
    }
  }

  lemma SubsetSize<T>(a: set<T>, b: set<T>)
    requires a <= b
    ensures |a| <= |b|
    ensures |a| >= |b| ==> a == b
  {
    assert b == a + (b - a);
  }
}

/** Half-open integer ranges, as the cache keeps them: nanoseconds `[start, end)` or inclusive day pairs. */
module Ranges {
  type Range = (int, int)

  /** The order of `sort_unstable` on pairs. */
  predicate LexLeq(a: Range, b: Range) {
    a.0 < b.0 || (a.0 == b.0 && a.1 <= b.1)
  }

  ghost predicate SortedByStart(s: seq<Range>) {
    forall i, j :: 0 <= i < j < |s| ==> s[i].0 <= s[j].0
  }

  ghost predicate SameElements(a: seq<Range>, b: seq<Range>) {
    forall x :: x in a <==> x in b
  }

  ghost predicate AllFrom(low: int, s: seq<Range>) {
    forall y :: y in s ==> low <= y.0
  }

  lemma ConsSorted(x: Range, s: seq<Range>)
    requires SortedByStart(s) && AllFrom(x.0, s)
    ensures SortedByStart([x] + s)
  {
    assert forall k :: 0 <= k < |s| ==> s[k] in s;
  }

  lemma SortedTail(s: seq<Range>)
    requires s != [] && SortedByStart(s)
    ensures SortedByStart(s[1..]) && AllFrom(s[0].0, s)
  {
    assert forall y :: y in s ==> exists k :: 0 <= k < |s| && s[k] == y;
  }

  /** Inserts a pair into a list ordered by start. */
  function Insert(x: Range, s: seq<Range>): (r: seq<Range>)
    requires SortedByStart(s)
    ensures SortedByStart(r)
    ensures forall y :: y in r <==> y == x || y in s
  {
    if s == [] then [x]
    else
      SortedTail(s);
      assert forall y :: y in s <==> y == s[0] || y in s[1..];
      if LexLeq(x, s[0]) then
        ConsSorted(x, s);
        [x] + s
      else
        var rest := Insert(x, s[1..]);
        ConsSorted(s[0], rest);
        [s[0]] + rest
  }

  /** Stands for the standard library's unstable sort of pairs. */
  function Sort(s: seq<Range>): (r: seq<Range>)
    ensures SortedByStart(r)
    ensures SameElements(r, s)
  {
    if s == [] then
      []
    else
      assert forall y :: y in s <==> y == s[0] || y in s[1..];
      Insert(s[0], Sort(s[1..]))
  }
}

/** Finite sums over maps of counters. */
module Sums {
  ghost function Pick<K>(s: set<K>): (k: K)
    requires s != {}
    ensures k in s
  {
    var k :| k in s; k
  }

  /** Sum of all values of a finite map. */
  ghost function MapSum<K>(m: map<K, nat>): nat {
    if m == map[] then 0
    else
      var k := Pick(m.Keys);
      m[k] + MapSum(m - {k})
  }

  lemma {:induction false} MapSumSplit<K>(m: map<K, nat>, k: K)
    requires k in m
    ensures MapSum(m) == m[k] + MapSum(m - {k})
    decreases |m|
  {
    var p := Pick(m.Keys);
    if p != k {
      var rest := m - {p};
      MapSumSplit(rest, k);
      assert rest - {k} == m - {k} - {p};
      MapSumSplit(m - {k}, p);
    }
  }

  /** Overwriting or inserting one entry changes the sum by exactly the difference. */
  lemma MapSumUpdate<K>(m: map<K, nat>, k: K, v: nat)
    ensures MapSum(m[k := v]) == MapSum(m) + v - (if k in m then m[k] else 0)
  {
    MapSumSplit(m[k := v], k);
    assert m[k := v] - {k} == m - {k};
    if k in m {
      MapSumSplit(m, k);
    } else {
      assert m - {k} == m;
    }
  }

  lemma {:induction false} MapSumAdds<K>(a: map<K, nat>, b: map<K, nat>, c: map<K, nat>)
    requires a.Keys == b.Keys == c.Keys
    requires forall k :: k in c ==> c[k] == a[k] + b[k]
    ensures MapSum(c) == MapSum(a) + MapSum(b)
    decreases |c|
  {
    if c == map[] {
      assert a == map[] && b == map[];
    } else {
      var k := Pick(c.Keys);
      MapSumSplit(a, k);
      MapSumSplit(b, k);
      MapSumAdds(a - {k}, b - {k}, c - {k});
    }
  }

  lemma {:induction false} MapSumMonotone<K>(a: map<K, nat>, b: map<K, nat>)
    requires a.Keys <= b.Keys
    requires forall k :: k in a ==> a[k] <= b[k]
    ensures MapSum(a) <= MapSum(b)
    decreases |a|
  {
    if a != map[] {
      var k := Pick(a.Keys);
      MapSumSplit(b, k);
      MapSumMonotone(a - {k}, b - {k});
    }
  }

  lemma {:induction false} MapSumZero<K>(a: map<K, nat>)
    requires forall k :: k in a ==> a[k] == 0
    ensures MapSum(a) == 0
    decreases |a|
  {
    if a != map[] {
      var k := Pick(a.Keys);
      MapSumZero(a - {k});
    }
  }

  lemma UnionLess<K>(a: map<K, nat>, b: map<K, nat>, k: K)
    requires k in a && k !in b
    ensures (a + b) - {k} == (a - {k}) + b && (a + b)[k] == a[k]
  {
  }

  lemma {:induction false} MapSumDisjoint<K>(a: map<K, nat>, b: map<K, nat>)
    requires forall k :: k in a ==> k !in b
    ensures MapSum(a + b) == MapSum(a) + MapSum(b)
    decreases |a|
  {
    if a == map[] {
      assert a + b == b;
    } else {
      hide MapSum;
      var k := Pick(a.Keys);
      UnionLess(a, b, k);
      MapSumSplit(a, k);
      MapSumSplit(a + b, k);
      MapSumDisjoint(a - {k}, b);
    }
  }

  /** Adds up the values of a map in whatever order its keys come. */
  method SumValues<K(==)>(m: map<K, nat>) returns (total: nat)
    ensures total == MapSum(m)
  {
    total := 0;
    var rest := m;
    while rest != map[]
      invariant total + MapSum(rest) == MapSum(m)
      decreases |rest|
    {
      assert rest.Keys != {};
      var k :| k in rest.Keys;
      MapSumSplit(rest, k);
      total := total + rest[k];
      rest := rest - {k};
    }
  }
}
