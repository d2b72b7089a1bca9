/** What the provisional mark means, told in instants: which ones the cache holds and how far the checkpoints
    reach. */
module ProvisionalMarks {
  import opened Wrappers
  import opened Extremes
  import opened TradingDays
  import opened Ranges
  import opened Coverage
  import opened Provisional

  /** An instant of the symbol's range before the open day, and one inside the open day. */
  ghost predicate IsClosed(s: SymbolAfter, day: OpenDay, t: int) {
    s.start <= t < s.end && t < day.dayStart
  }

  ghost predicate IsOpen(s: SymbolAfter, day: OpenDay, t: int) {
    s.start <= t < s.end && day.dayStart <= t < day.asOf
  }

  ghost predicate HasClosed(s: SymbolAfter, day: OpenDay) {
    exists t :: IsClosed(s, day, t)
  }

  ghost predicate HasOpen(s: SymbolAfter, day: OpenDay) {
    exists t :: IsOpen(s, day, t)
  }

  /** A single cached range holds all those instants. */
  ghost predicate HoldsClosed(s: SymbolAfter, day: OpenDay) {
    exists r :: r in s.cached && forall t :: IsClosed(s, day, t) ==> Contains(r, t)
  }

  ghost predicate HoldsOpen(s: SymbolAfter, day: OpenDay) {
    exists r :: r in s.cached && forall t :: IsOpen(s, day, t) ==> Contains(r, t)
  }

  /** The checkpoint of the open day is at `u` or later. */
  ghost predicate CheckpointReaches(s: SymbolAfter, u: int) {
    s.checkpoint.Ok? && s.checkpoint.value.Some? && u <= s.checkpoint.value.value
  }

  /** The symbol's open part goes as far as `u` and is known to be complete up to there. */
  ghost predicate CompleteTo(s: SymbolAfter, day: OpenDay, u: int) {
    u <= s.end && u <= day.asOf && (HoldsOpen(s, day) || CheckpointReaches(s, u))
  }

  lemma OpenMeans(s: SymbolAfter, day: OpenDay)
    ensures HasOpenPart(s, day) <==> HasOpen(s, day)
    ensures HasOpen(s, day) ==> (OpenPartCached(s, day) <==> HoldsOpen(s, day))
  {
    if HasOpenPart(s, day) {
      var a, b := Max(s.start, day.dayStart), Min(s.end, day.asOf);
      assert IsOpen(s, day, a) && IsOpen(s, day, b - 1);
      if OpenPartCached(s, day) {
        var r :| r in s.cached && r.0 <= OpenStart(s, day) && OpenEnd(s, day) <= r.1;
        assert forall t :: IsOpen(s, day, t) ==> Contains(r, t);
      }
    }
  }

  lemma ClosedMeans(s: SymbolAfter, day: OpenDay)
    ensures ClosedPartCached(s, day) <==> (HasClosed(s, day) ==> HoldsClosed(s, day))
  {
    var b := Min(s.end, day.dayStart);
    if s.start < b {
      assert IsClosed(s, day, s.start) && IsClosed(s, day, b - 1);
      if ClosedPartCached(s, day) {
        var r :| r in s.cached && r.0 <= s.start && ClosedEnd(s, day) <= r.1;
        assert forall t :: IsClosed(s, day, t) ==> Contains(r, t);
      }
    }
  }

  /** A symbol lets the computation go on exactly when a single cached range holds its closed part, if it has
      one, and its open part, if it has one, is held by one too or has a checkpoint. */
  lemma PassesMeans(s: SymbolAfter, day: OpenDay)
    ensures Passes(s, day) <==>
      && (HasClosed(s, day) ==> HoldsClosed(s, day))
      && (HasOpen(s, day) ==> HoldsOpen(s, day) || (s.checkpoint.Ok? && s.checkpoint.value.Some?))
  {
    hide HasClosed, HoldsClosed, HasOpen, HoldsOpen, ClosedPartCached, OpenPartCached, HasOpenPart;
    ClosedMeans(s, day);
    OpenMeans(s, day);
  }

  lemma LookupFailsMeans(s: SymbolAfter, day: OpenDay)
    ensures LookupFails(s, day) <==> HasOpen(s, day) && !HoldsOpen(s, day) && s.checkpoint.Err?
  {
    OpenMeans(s, day);
  }

  /** The mark of an open part is the last instant up to which it is known to be complete. */
  lemma MarkMeans(s: SymbolAfter, day: OpenDay, u: int)
    requires HasOpenPart(s, day) && MarkOf(s, day).Some?
    ensures u <= MarkValue(s, day) <==> CompleteTo(s, day, u)
  {
    hide HoldsOpen, HasOpen;
    OpenMeans(s, day);
  }

  ghost predicate AllCompleteTo(symbols: seq<SymbolAfter>, day: OpenDay, u: int) {
    forall i :: 0 <= i < |symbols| && HasOpen(symbols[i], day) ==> CompleteTo(symbols[i], day, u)
  }

  /** The shared mark is the last instant up to which every open part is known to be complete. */
  lemma MarkIsLastComplete(symbols: seq<SymbolAfter>, day: OpenDay, mark: int, u: int)
    requires forall j :: 0 <= j < |symbols| ==> Passes(symbols[j], day)
    requires IsLeastMark(symbols, day, mark)
    ensures u <= mark <==> AllCompleteTo(symbols, day, u)
  {
    hide CompleteTo, HasOpen, MarkOf, MarkValue, HasOpenPart;
    forall i | 0 <= i < |symbols|
      ensures HasOpenPart(symbols[i], day) <==> HasOpen(symbols[i], day)
      ensures HasOpen(symbols[i], day) ==> (u <= MarkValue(symbols[i], day) <==> CompleteTo(symbols[i], day, u))
    {
      OpenMeans(symbols[i], day);
      if HasOpenPart(symbols[i], day) {
        assert Passes(symbols[i], day);
        MarkMeans(symbols[i], day, u);
      }
    }
  }

  /** A mark before the end of every open part is a checkpoint that some symbol has not gone beyond. */
  lemma MarkStopsAtCheckpoint(symbols: seq<SymbolAfter>, day: OpenDay, mark: int)
    requires forall j :: 0 <= j < |symbols| ==> Passes(symbols[j], day)
    requires IsLeastMark(symbols, day, mark)
    requires forall i :: 0 <= i < |symbols| && HasOpen(symbols[i], day) ==> mark < symbols[i].end && mark < day.asOf
    ensures exists i :: 0 <= i < |symbols| && HasOpen(symbols[i], day) && !HoldsOpen(symbols[i], day)
                     && !CheckpointReaches(symbols[i], mark + 1)
  {
    hide HasOpen, HoldsOpen, IsLeastMark, Passes, CheckpointReaches;
    MarkIsLastComplete(symbols, day, mark, mark + 1);
  }

  /** A provisional fill is complete exactly when every symbol passes, some open part exists, and each goes as
      far as `asOf` and is held by a single cached range or has its checkpoint there or later. */
  lemma CompleteFillMeans(symbols: seq<SymbolAfter>, day: OpenDay, r: Option<int>)
    requires r.Some? <==>
      (forall i :: 0 <= i < |symbols| ==> Passes(symbols[i], day))
      && exists i :: 0 <= i < |symbols| && HasOpenPart(symbols[i], day)
    requires r.Some? ==> IsLeastMark(symbols, day, r.value)
    ensures FillOperationComplete(false, Some(day), r) <==>
      && (forall i :: 0 <= i < |symbols| ==> Passes(symbols[i], day))
      && (exists i :: 0 <= i < |symbols| && HasOpen(symbols[i], day))
      && forall i :: 0 <= i < |symbols| && HasOpen(symbols[i], day) ==>
           symbols[i].end >= day.asOf && (HoldsOpen(symbols[i], day) || CheckpointReaches(symbols[i], day.asOf))
  {
    hide HasOpen, HoldsOpen, IsLeastMark, Passes, CheckpointReaches, HasOpenPart;
    forall i | 0 <= i < |symbols| ensures HasOpenPart(symbols[i], day) <==> HasOpen(symbols[i], day) {
      OpenMeans(symbols[i], day);
    }
    if r.Some? {
      MarkIsLastComplete(symbols, day, r.value, day.asOf);
    }
  }

  // ---- day statistics ----

  /** A day is planned exactly when all of its instants lie in the window. */
  lemma InWindowMeans(d: Day, start: int, end: int)
    ensures InWindow(d, start, end) <==> forall t :: Contains(TradingDayRange(d), t) ==> start <= t < end
  {
    var r := TradingDayRange(d);
    assert Contains(r, r.0) && Contains(r, r.1 - 1);
  }

  /** A day is cached exactly when a single cached range holds all of its instants. */
  lemma DayCachedMeans(d: Day, cached: seq<Range>)
    ensures DayCached(d, cached) <==>
      exists r :: r in cached && forall t :: Contains(TradingDayRange(d), t) ==> Contains(r, t)
  {
    var day := TradingDayRange(d);
    assert Contains(day, day.0) && Contains(day, day.1 - 1);
    if DayCached(d, cached) {
      var r :| r in cached && r.0 <= day.0 && day.1 <= r.1;
      assert forall t :: Contains(day, t) ==> Contains(r, t);
    }
  }
}
