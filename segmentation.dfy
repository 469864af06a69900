/**
  Gait-cycle segmentation (gaitalytics/segmentation.py): the times of the
  boundary events are grouped by context, consecutive boundaries delimit the
  cycles, and each cycle gets the slice of every category between its
  boundaries, stamped with its frames, id and context, plus the events that
  fall strictly inside it.
*/
module Segmentation {
  import opened Outcomes
  import opened Dict
  import opened Paths
  import opened Model
  import Events

  /** The label whose events delimit the cycles unless another is given. */
  const DefaultLabel := Events.FootStrike

  // ---------------------------------------------------------------------
  // Boundary times per context
  // ---------------------------------------------------------------------

  /** `events["context"].unique()`: every context once, in order of first appearance. */
  function UniqueContexts(e: EventTable): (r: seq<string>)
    ensures Distinct(r)
  {
    if e == [] then []
    else
      var prev := UniqueContexts(e[..|e| - 1]);
      var c := e[|e| - 1].context;
      if c in prev then prev else prev + [c]
  }

  /** A context is listed exactly when some event carries it. */
  lemma {:induction false} UniqueContextsMembers(e: EventTable, c: string)
    ensures c in UniqueContexts(e) <==> exists i :: 0 <= i < |e| && e[i].context == c
  {
    if e != [] {
      var p := e[..|e| - 1];
      UniqueContextsMembers(p, c);
      if exists i :: 0 <= i < |p| && p[i].context == c {
        var i :| 0 <= i < |p| && p[i].context == c;
        assert e[i] == p[i];
      }
      if exists i :: 0 <= i < |e| && e[i].context == c {
        var i :| 0 <= i < |e| && e[i].context == c;
        if i < |p| {
          assert p[i] == e[i];
        }
      }
    }
  }

  /** The event is a boundary of context `ctx`: it has the segmentation label and that context. */
  predicate IsBoundary(ev: Event, eventLabel: string, ctx: string) {
    ev.name == eventLabel && ev.context == ctx
  }

  /** The times of the boundaries of `ctx`, in table order. */
  function BoundaryTimes(e: EventTable, eventLabel: string, ctx: string): (r: seq<real>)
    ensures |r| <= |e|
  {
    if e == [] then []
    else
      var last := e[|e| - 1];
      BoundaryTimes(e[..|e| - 1], eventLabel, ctx) + (if IsBoundary(last, eventLabel, ctx) then [last.time] else [])
  }

  /** A time is a boundary time of `ctx` exactly when some boundary event of `ctx` has it. */
  lemma {:induction false} BoundaryTimesMembers(e: EventTable, eventLabel: string, ctx: string, t: real)
    ensures t in BoundaryTimes(e, eventLabel, ctx) <==>
      exists i :: 0 <= i < |e| && IsBoundary(e[i], eventLabel, ctx) && e[i].time == t
  {
    if e != [] {
      var p := e[..|e| - 1];
      BoundaryTimesMembers(p, eventLabel, ctx, t);
      if exists i :: 0 <= i < |p| && IsBoundary(p[i], eventLabel, ctx) && p[i].time == t {
        var i :| 0 <= i < |p| && IsBoundary(p[i], eventLabel, ctx) && p[i].time == t;
        assert e[i] == p[i];
      }
      if exists i :: 0 <= i < |e| && IsBoundary(e[i], eventLabel, ctx) && e[i].time == t {
        var i :| 0 <= i < |e| && IsBoundary(e[i], eventLabel, ctx) && e[i].time == t;
        if i < |p| {
          assert p[i] == e[i];
        }
      }
    }
  }

  /** The boundary times of each of `contexts`, in that order. */
  function Splits(e: EventTable, eventLabel: string, contexts: seq<string>): (r: seq<(string, seq<real>)>)
    ensures Keys(r) == contexts
    ensures forall i :: 0 <= i < |r| ==> r[i].1 == BoundaryTimes(e, eventLabel, contexts[i])
  {
    seq(|contexts|, i requires 0 <= i < |contexts| => (contexts[i], BoundaryTimes(e, eventLabel, contexts[i])))
  }

  /** `_get_times_of_events`: context -> boundary times, every context of the table included. */
  function TimesOfEvents(e: EventTable, eventLabel: string): (r: seq<(string, seq<real>)>)
    ensures Keys(r) == UniqueContexts(e) && DistinctKeys(r)
  {
    Splits(e, eventLabel, UniqueContexts(e))
  }

  /** `_get_times_of_events`, filling the `splits` dict in a loop. */
  method GetTimesOfEvents(e: EventTable, eventLabel: string) returns (splits: seq<(string, seq<real>)>)
    ensures splits == TimesOfEvents(e, eventLabel)
  {
    splits := [];
    var contexts := UniqueContexts(e);
    for i := 0 to |contexts|
      invariant splits == Splits(e, eventLabel, contexts[..i])
    {
      var context := contexts[i];
      assert !HasKey(splits, context) by {
        assert Keys(splits) == contexts[..i];
        assert context !in contexts[..i];
      }
      splits := Put(splits, context, BoundaryTimes(e, eventLabel, context));
      assert splits == Splits(e, eventLabel, contexts[..i + 1]);
    }
    assert contexts[..|contexts|] == contexts;
  }

  // ---------------------------------------------------------------------
  // Slicing a category and stamping it
  // ---------------------------------------------------------------------

  /** The positions of the first `n` samples whose time lies in `[start, end]`. */
  function KeptIndices(times: seq<real>, start: real, end: real, n: nat): (r: seq<nat>)
    requires n <= |times|
    ensures forall k :: 0 <= k < |r| ==> r[k] < n
    ensures forall k, l :: 0 <= k < l < |r| ==> r[k] < r[l]
    ensures forall i :: 0 <= i < n ==> (i in r <==> start <= times[i] <= end)
  {
    if n == 0 then []
    else
      var prev := KeptIndices(times, start, end, n - 1);
      if start <= times[n - 1] <= end then prev + [n - 1] else prev
  }

  function PickTimes(times: seq<real>, idx: seq<nat>): (r: seq<real>)
    requires forall k :: 0 <= k < |idx| ==> idx[k] < |times|
    ensures |r| == |idx| && forall k :: 0 <= k < |idx| ==> r[k] == times[idx[k]]
  {
    seq(|idx|, k requires 0 <= k < |idx| => times[idx[k]])
  }

  /** The samples of a series at the kept positions. */
  function PickSeries(s: Series, idx: seq<nat>): (r: Series)
    ensures |r| == |idx|
    ensures forall k :: 0 <= k < |idx| && idx[k] < |s| ==> r[k] == s[idx[k]]
  {
    seq(|idx|, k requires 0 <= k < |idx| => if idx[k] < |s| then s[idx[k]] else None)
  }

  /** `data.sel(time=slice(start, end))`: the samples with `start <= time <= end`, both ends included. */
  function SliceArray(a: CategoryArray, start: real, end: real): (r: CategoryArray)
    ensures r.channels == a.channels && r.axes == a.axes && r.meta == a.meta
    ensures r.values.Keys == a.values.Keys
  {
    var idx := KeptIndices(a.times, start, end, |a.times|);
    CategoryArray(
      a.channels,
      a.axes,
      PickTimes(a.times, idx),
      map k | k in a.values :: PickSeries(a.values[k], idx),
      a.meta)
  }

  /** A slice holds exactly the samples whose time lies between the bounds, in their order. */
  lemma SliceTimes(a: CategoryArray, start: real, end: real)
    ensures var r := SliceArray(a, start, end);
      && (forall t :: t in r.times <==> t in a.times && start <= t <= end)
      && (forall k, l :: 0 <= k < l < |r.times| ==>
            (exists i, j :: 0 <= i < j < |a.times| && r.times[k] == a.times[i] && r.times[l] == a.times[j]))
  {
    var idx := KeptIndices(a.times, start, end, |a.times|);
    var r := SliceArray(a, start, end);
    forall t | t in a.times && start <= t <= end ensures t in r.times {
      var i :| 0 <= i < |a.times| && a.times[i] == t;
      var k :| 0 <= k < |idx| && idx[k] == i;
      assert r.times[k] == t;
    }
  }

  /** A slice of a well-formed array is well formed. */
  lemma SliceWellFormed(a: CategoryArray, start: real, end: real)
    requires WellFormed(a)
    ensures WellFormed(SliceArray(a, start, end))
  {
  }

  /**
    `round(x, 0)`: the nearest integer, halves going to the even neighbour
    (the result is an integer-valued float in the library; here an `int`).
  */
  function RoundHalfEven(x: real): (r: int)
    ensures x - 0.5 <= r as real <= x + 0.5
    ensures x - 0.5 == r as real || r as real == x + 0.5 ==> r % 2 == 0
  {
    var f := x.Floor;
    var diff := x - f as real;
    if diff < 0.5 then f
    else if diff > 0.5 then f + 1
    else if f % 2 == 0 then f else f + 1
  }

  /** `round(time / (1 / rate), 0)`: the frame at which a sample sits. */
  function Frame(time: real, rate: real): int
    requires rate != 0.0
  {
    RoundHalfEven(time / (1.0 / rate))
  }

  /**
    `_update_attrs`: stamps the frames of the first and last sample, the cycle
    id and the context. An empty slice has no first sample; a zero rate
    cannot be inverted.
  */
  function Stamp(a: CategoryArray, cycleId: nat, ctx: string): (r: Result<CategoryArray>)
    ensures a.times == [] ==> r.Err? && r.error.kind == IndexError
    ensures a.times != [] && a.meta.rate == 0.0 ==> r.Err? && r.error.kind == ZeroDivisionError
    ensures r.Ok? ==>
      && a.times != [] && a.meta.rate != 0.0
      && r.value == a.(meta := a.meta.(
           startFrame := Some(Frame(a.times[0], a.meta.rate)),
           endFrame := Some(Frame(a.times[|a.times| - 1], a.meta.rate)),
           cycleId := Some(cycleId),
           context := Some(ctx)))
  {
    if a.times == [] then
      Err(Error(IndexError, "index 0 is out of bounds for axis 0 with size 0"))
    else if a.meta.rate == 0.0 then
      Err(Error(ZeroDivisionError, "float division by zero"))
    else
      var startFrame := Frame(a.times[0], a.meta.rate);
      var endFrame := Frame(a.times[|a.times| - 1], a.meta.rate);
      Ok(a.(meta := a.meta.(startFrame := Some(startFrame), endFrame := Some(endFrame),
                            cycleId := Some(cycleId), context := Some(ctx))))
  }

  /** `_segment_events`: the events strictly between the two bounds, in table order. */
  function Between(e: EventTable, start: real, end: real): (r: EventTable)
    ensures |r| <= |e|
  {
    if e == [] then []
    else
      var last := e[|e| - 1];
      Between(e[..|e| - 1], start, end) + (if start < last.time < end then [last] else [])
  }

  /** An event is kept exactly when it is in the table and strictly inside the bounds. */
  lemma {:induction false} BetweenMembers(e: EventTable, start: real, end: real, ev: Event)
    ensures ev in Between(e, start, end) <==> ev in e && start < ev.time < end
  {
    if e != [] {
      var p := e[..|e| - 1];
      BetweenMembers(p, start, end, ev);
      assert e == p + [e[|e| - 1]];
    }
  }

  function SegmentEvents(events: Option<EventTable>, start: real, end: real): (r: Result<EventTable>)
    ensures events.None? <==> r.Err?
    ensures events.Some? ==> r == Ok(Between(events.value, start, end))
  {
    match events
    case None => Err(Error(ValueError, "Events are not set."))
    case Some(e) => Ok(Between(e, start, end))
  }

  // ---------------------------------------------------------------------
  // Cutting one cycle
  // ---------------------------------------------------------------------

  /** One category of a cycle: its slice between the boundaries, stamped. */
  function Cut(a: CategoryArray, start: real, end: real, cycleId: nat, ctx: string): Result<CategoryArray> {
    Stamp(SliceArray(a, start, end), cycleId, ctx)
  }

  /** The cut `_get_segment` applies to every category of a cycle. */
  function CutWith(start: real, end: real, cycleId: nat, ctx: string): CategoryArray -> Result<CategoryArray> {
    a => Cut(a, start, end, cycleId, ctx)
  }

  /** The loop of `_get_segment` from category `i` on, having built `acc`. */
  function SegmentDataFrom(
    data: seq<(DataCategory, CategoryArray)>, i: nat, acc: seq<(DataCategory, CategoryArray)>,
    cut: CategoryArray -> Result<CategoryArray>)
    : Result<seq<(DataCategory, CategoryArray)>>
    requires i <= |data|
    decreases |data| - i
  {
    if i == |data| then Ok(acc)
    else
      var segment :- cut(data[i].1);
      SegmentDataFrom(data, i + 1, AddCategory(acc, data[i].0, segment), cut)
  }

  /** One turn of the loop of `_get_segment`: an error stops it, a stamped slice is added. */
  lemma SegmentDataStep(
    data: seq<(DataCategory, CategoryArray)>, i: nat, acc: seq<(DataCategory, CategoryArray)>,
    cut: CategoryArray -> Result<CategoryArray>)
    requires i < |data|
    ensures var segment := cut(data[i].1);
      SegmentDataFrom(data, i, acc, cut)
        == if segment.Err? then Err(segment.error)
           else SegmentDataFrom(data, i + 1, AddCategory(acc, data[i].0, segment.value), cut)
  {
  }

  /** `_get_segment`: every category sliced and stamped, then the events inside the cycle. */
  function GetSegment(t: TrialData, start: real, end: real, cycleId: nat, ctx: string)
    : Result<TrialData>
  {
    var data :- SegmentDataFrom(t.data, 0, [], CutWith(start, end, cycleId, ctx));
    var events :- SegmentEvents(t.events, start, end);
    Ok(TrialData(data, Some(events)))
  }

  lemma GetSegmentOfData(t: TrialData, start: real, end: real, cycleId: nat, ctx: string)
    ensures var data := SegmentDataFrom(t.data, 0, [], CutWith(start, end, cycleId, ctx));
      GetSegment(t, start, end, cycleId, ctx)
        == if data.Err? then Err(data.error)
           else if t.events.None? then Err(Error(ValueError, "Events are not set."))
           else Ok(TrialData(data.value, Some(Between(t.events.value, start, end))))
  {
  }

  /** `_get_segment`, filling a fresh `Trial` in a loop. */
  method GetSegmentMethod(trial: Trial, start: real, end: real, cycleId: nat, ctx: string)
    returns (r: Result<TrialData>)
    ensures r == GetSegment(trial.Value(), start, end, cycleId, ctx)
  {
    var all := trial.data;
    var trialSegment := new Trial();
    for i := 0 to |all|
      invariant SegmentDataFrom(all, 0, [], CutWith(start, end, cycleId, ctx))
        == SegmentDataFrom(all, i, trialSegment.data, CutWith(start, end, cycleId, ctx))
      invariant trialSegment.events == None
    {
      var (category, data) := all[i];
      var sliced := SliceArray(data, start, end);
      var segment := Stamp(sliced, cycleId, ctx);
      SegmentDataStep(all, i, trialSegment.data, CutWith(start, end, cycleId, ctx));
      if segment.Err? {
        GetSegmentOfData(trial.Value(), start, end, cycleId, ctx);
        return Err(segment.error);
      }
      trialSegment.AddData(category, segment.value);
    }
    GetSegmentOfData(trial.Value(), start, end, cycleId, ctx);
    var events := SegmentEvents(trial.events, start, end);
    if events.Err? {
      return Err(events.error);
    }
    trialSegment.SetEvents(Some(events.value));
    return Ok(trialSegment.Value());
  }

  // ---------------------------------------------------------------------
  // Cutting all cycles
  // ---------------------------------------------------------------------

  /** `range(len(times) - 1)`: `N` boundaries delimit `N - 1` cycles, and none delimit none. */
  function CycleCount(times: seq<real>): nat {
    if |times| > 0 then |times| - 1 else 0
  }

  /** The inner loop of `segment` from cycle `k` on: cycle `k` runs from boundary `k` to boundary `k + 1`. */
  function CyclesFrom(
    t: TrialData, ctx: string, times: seq<real>, k: nat, acc: seq<(string, Node)>)
    : Result<seq<(string, Node)>>
    decreases CycleCount(times) - k
  {
    if k >= CycleCount(times) then Ok(acc)
    else
      var segment :- GetSegment(t, times[k], times[k + 1], k, ctx);
      CyclesFrom(t, ctx, times, k + 1, Put(acc, NatToString(k), Leaf(segment)))
  }

  /** The outer loop of `segment` from context `j` on. */
  function ContextsFrom(
    t: TrialData, splits: seq<(string, seq<real>)>, j: nat, acc: seq<(string, Node)>)
    : Result<seq<(string, Node)>>
    requires j <= |splits|
    decreases |splits| - j
  {
    if j == |splits| then Ok(acc)
    else
      var cycles :- CyclesFrom(t, splits[j].0, splits[j].1, 0, []);
      ContextsFrom(t, splits, j + 1, Put(acc, splits[j].0, Branch(cycles)))
  }

  /** One turn of the inner loop: an error stops it, a cut cycle is stored under its id. */
  lemma CyclesStep(t: TrialData, ctx: string, times: seq<real>, k: nat, acc: seq<(string, Node)>)
    requires k < CycleCount(times)
    ensures var segment := GetSegment(t, times[k], times[k + 1], k, ctx);
      CyclesFrom(t, ctx, times, k, acc)
        == if segment.Err? then Err(segment.error)
           else CyclesFrom(t, ctx, times, k + 1, Put(acc, NatToString(k), Leaf(segment.value)))
  {
  }

  /** One turn of the outer loop: an error stops it, the cycles of a context are stored under it. */
  lemma ContextsStep(t: TrialData, splits: seq<(string, seq<real>)>, j: nat, acc: seq<(string, Node)>)
    requires j < |splits|
    ensures var cycles := CyclesFrom(t, splits[j].0, splits[j].1, 0, []);
      ContextsFrom(t, splits, j, acc)
        == if cycles.Err? then Err(cycles.error)
           else ContextsFrom(t, splits, j + 1, Put(acc, splits[j].0, Branch(cycles.value)))
  {
  }

  /** `GaitEventsSegmentation(label).segment(trial)`. */
  function Segment(t: TrialData, eventLabel: string): (r: Result<Node>)
    ensures t.events.None? ==> r == Err(Error(ValueError, "Trial does not have events."))
    ensures r.Ok? ==> r.value.Branch?
  {
    match t.events
    case None => Err(Error(ValueError, "Trial does not have events."))
    case Some(e) =>
      var contexts :- ContextsFrom(t, TimesOfEvents(e, eventLabel), 0, []);
      Ok(Branch(contexts))
  }

  /** `segment`, building the context and cycle containers in two nested loops. */
  method SegmentMethod(trial: Trial, eventLabel: string) returns (r: Result<Node>)
    ensures r == Segment(trial.Value(), eventLabel)
  {
    var t := trial.Value();
    var events := trial.events;
    if events.None? {
      return Err(Error(ValueError, "Trial does not have events."));
    }
    var eventsTimes := GetTimesOfEvents(events.value, eventLabel);
    ghost var result := ContextsFrom(t, eventsTimes, 0, []);
    assert Segment(t, eventLabel) == if result.Err? then Err(result.error) else Ok(Branch(result.value));
    var contextSegments := new SegmentedTrial();
    for j := 0 to |eventsTimes|
      invariant result == ContextsFrom(t, eventsTimes, j, contextSegments.segments)
    {
      var (context, times) := eventsTimes[j];
      ghost var acc := contextSegments.segments;
      ContextsStep(t, eventsTimes, j, acc);
      ghost var cycles := CyclesFrom(t, context, times, 0, []);
      var cycleSegments := new SegmentedTrial();
      var count := CycleCount(times);
      for k := 0 to count
        modifies cycleSegments
        invariant cycles == CyclesFrom(t, context, times, k, cycleSegments.segments)
      {
        var startTime := times[k];
        var endTime := times[k + 1];
        CyclesStep(t, context, times, k, cycleSegments.segments);
        var segment := GetSegmentMethod(trial, startTime, endTime, k, context);
        if segment.Err? {
          return Err(segment.error);
        }
        cycleSegments.AddSegment(NatToString(k), Leaf(segment.value));
      }
      assert cycles == Ok(cycleSegments.segments);
      assert result == ContextsFrom(t, eventsTimes, j + 1, Put(acc, context, Branch(cycleSegments.segments)));
      contextSegments.AddSegment(context, cycleSegments.Value());
    }
    assert result == Ok(contextSegments.segments);
    return Ok(contextSegments.Value());
  }

  // ---------------------------------------------------------------------
  // What segmentation produces
  // ---------------------------------------------------------------------

  /** The cycle ids "0", "1", ... of the first `n` cycles. */
  function CycleKeys(n: nat): (r: seq<string>)
    ensures |r| == n && forall k :: 0 <= k < n ==> r[k] == NatToString(k)
  {
    seq(n, k requires 0 <= k < n => NatToString(k))
  }

  /**
    `cycles` holds the first `|cycles|` cycles of context `ctx`, under the ids
    "0", "1", ...: cycle `i` is the trial cut from boundary `i` to boundary `i + 1`.
  */
  ghost predicate CutCycles(t: TrialData, ctx: string, times: seq<real>, cycles: seq<(string, Node)>) {
    && |cycles| <= CycleCount(times)
    && Keys(cycles) == CycleKeys(|cycles|)
    && forall i :: 0 <= i < |cycles| ==>
         && cycles[i].1.Leaf?
         && GetSegment(t, times[i], times[i + 1], i, ctx) == Ok(cycles[i].1.trial)
  }

  /** The next cycle id is not among the ids already used. */
  lemma FreshCycleKey(acc: seq<(string, Node)>, k: nat)
    requires Keys(acc) == CycleKeys(k)
    ensures !HasKey(acc, NatToString(k))
  {
    forall i | 0 <= i < k ensures acc[i].0 != NatToString(k) {
      assert acc[i].0 == NatToString(i) by {
        assert Keys(acc)[i] == acc[i].0;
      }
      if NatToString(i) == NatToString(k) {
        NatToStringInjective(i, k);
      }
    }
  }

  /** Appending the next cycle, under the next id, keeps the cycles cut so far. */
  lemma CutCyclesSnoc(t: TrialData, ctx: string, times: seq<real>, acc: seq<(string, Node)>, segment: TrialData)
    requires CutCycles(t, ctx, times, acc) && |acc| < CycleCount(times)
    requires GetSegment(t, times[|acc|], times[|acc| + 1], |acc|, ctx) == Ok(segment)
    ensures CutCycles(t, ctx, times, acc + [(NatToString(|acc|), Leaf(segment))])
  {
    var next := acc + [(NatToString(|acc|), Leaf(segment))];
    assert Keys(next) == CycleKeys(|acc| + 1) by {
      forall i | 0 <= i < |next| ensures Keys(next)[i] == CycleKeys(|acc| + 1)[i] {
        if i < |acc| {
          assert next[i] == acc[i] && Keys(acc)[i] == CycleKeys(|acc|)[i];
        }
      }
    }
    forall i | 0 <= i < |next|
      ensures next[i].1.Leaf? && GetSegment(t, times[i], times[i + 1], i, ctx) == Ok(next[i].1.trial)
    {
      if i < |acc| {
        assert next[i] == acc[i];
      } else {
        assert i == |acc| && next[i].1 == Leaf(segment);
      }
    }
  }

  lemma {:induction false} CyclesFromShape(t: TrialData, ctx: string, times: seq<real>, k: nat, acc: seq<(string, Node)>)
    requires |acc| == k && CutCycles(t, ctx, times, acc)
    ensures var r := CyclesFrom(t, ctx, times, k, acc);
      r.Ok? ==> |r.value| == CycleCount(times) && CutCycles(t, ctx, times, r.value)
    decreases CycleCount(times) - k
  {
    if k < CycleCount(times) {
      var segment := GetSegment(t, times[k], times[k + 1], k, ctx);
      if segment.Ok? {
        var key := NatToString(k);
        FreshCycleKey(acc, k);
        var next := Put(acc, key, Leaf(segment.value));
        assert next == acc + [(key, Leaf(segment.value))];
        CutCyclesSnoc(t, ctx, times, acc, segment.value);
        assert CyclesFrom(t, ctx, times, k, acc) == CyclesFrom(t, ctx, times, k + 1, next);
        CyclesFromShape(t, ctx, times, k + 1, next);
      }
    }
  }

  /**
    `contexts` holds the first `|contexts|` contexts of `splits`, each with all
    of its cycles.
  */
  ghost predicate CutContexts(t: TrialData, splits: seq<(string, seq<real>)>, contexts: seq<(string, Node)>) {
    && |contexts| <= |splits|
    && forall j :: 0 <= j < |contexts| ==>
         && contexts[j].0 == splits[j].0
         && contexts[j].1.Branch?
         && |contexts[j].1.segments| == CycleCount(splits[j].1)
         && CutCycles(t, splits[j].0, splits[j].1, contexts[j].1.segments)
  }

  lemma {:induction false} ContextsFromShape(
    t: TrialData, splits: seq<(string, seq<real>)>, j: nat, acc: seq<(string, Node)>)
    requires DistinctKeys(splits)
    requires |acc| == j && CutContexts(t, splits, acc)
    ensures var r := ContextsFrom(t, splits, j, acc);
      r.Ok? ==> |r.value| == |splits| && CutContexts(t, splits, r.value)
    decreases |splits| - j
  {
    if j < |splits| {
      var cycles := CyclesFrom(t, splits[j].0, splits[j].1, 0, []);
      CyclesFromShape(t, splits[j].0, splits[j].1, 0, []);
      if cycles.Ok? {
        var key := splits[j].0;
        FreshContextKey(t, splits, acc);
        var next := Put(acc, key, Branch(cycles.value));
        assert next == acc + [(key, Branch(cycles.value))];
        CutContextsSnoc(t, splits, acc, cycles.value);
        assert ContextsFrom(t, splits, j, acc) == ContextsFrom(t, splits, j + 1, next);
        ContextsFromShape(t, splits, j + 1, next);
      }
    }
  }

  /** The next context is not among those already stored. */
  lemma FreshContextKey(t: TrialData, splits: seq<(string, seq<real>)>, acc: seq<(string, Node)>)
    requires DistinctKeys(splits) && |acc| < |splits| && CutContexts(t, splits, acc)
    ensures !HasKey(acc, splits[|acc|].0)
  {
    forall i | 0 <= i < |acc| ensures acc[i].0 != splits[|acc|].0 {
      assert acc[i].0 == splits[i].0;
    }
  }

  /** Appending the next context with all of its cycles keeps the contexts cut so far. */
  lemma CutContextsSnoc(t: TrialData, splits: seq<(string, seq<real>)>, acc: seq<(string, Node)>, cycles: seq<(string, Node)>)
    requires CutContexts(t, splits, acc) && |acc| < |splits|
    requires |cycles| == CycleCount(splits[|acc|].1) && CutCycles(t, splits[|acc|].0, splits[|acc|].1, cycles)
    ensures CutContexts(t, splits, acc + [(splits[|acc|].0, Branch(cycles))])
  {
    var next := acc + [(splits[|acc|].0, Branch(cycles))];
    forall j | 0 <= j < |next|
      ensures && next[j].0 == splits[j].0
        && next[j].1.Branch?
        && |next[j].1.segments| == CycleCount(splits[j].1)
        && CutCycles(t, splits[j].0, splits[j].1, next[j].1.segments)
    {
      if j < |acc| {
        assert next[j] == acc[j];
      } else {
        assert j == |acc| && next[j] == (splits[|acc|].0, Branch(cycles));
      }
    }
  }

  /**
    A successful segmentation has one container per context of the event
    table, in order of first appearance; the container of a context with `N`
    boundaries holds `N - 1` cycles (none when it has none) under the ids
    "0" ... "N-2", and cycle `i` is the trial cut between boundaries `i` and
    `i + 1`.
  */
  lemma SegmentShape(t: TrialData, eventLabel: string)
    requires t.events.Some?
    ensures var r := Segment(t, eventLabel);
      r.Ok? ==>
        && IsTrialCycles(r.value)
        && Keys(r.value.segments) == UniqueContexts(t.events.value)
        && forall j :: 0 <= j < |r.value.segments| ==>
             var ctx := r.value.segments[j].0;
             var times := BoundaryTimes(t.events.value, eventLabel, ctx);
             CutCycles(t, ctx, times, r.value.segments[j].1.segments)
             && |r.value.segments[j].1.segments| == CycleCount(times)
  {
    var splits := TimesOfEvents(t.events.value, eventLabel);
    ContextsFromShape(t, splits, 0, []);
  }

  // ---------------------------------------------------------------------
  // The categories of a cycle
  // ---------------------------------------------------------------------

  /** Every category of `data` can be cut between the bounds. */
  predicate AllCut(data: seq<(DataCategory, CategoryArray)>, cut: CategoryArray -> Result<CategoryArray>) {
    forall m :: 0 <= m < |data| ==> cut(data[m].1).Ok?
  }

  /** The cut of every category of `data`, in order. */
  function Cuts(data: seq<(DataCategory, CategoryArray)>, cut: CategoryArray -> Result<CategoryArray>)
    : (r: seq<CategoryArray>)
    requires AllCut(data, cut)
    ensures |r| == |data|
  {
    seq(|data|, m requires 0 <= m < |data| => cut(data[m].1).value)
  }

  /** `acc` holds the cut of each of the first `i` categories, under its category. */
  ghost predicate CutSoFar(
    data: seq<(DataCategory, CategoryArray)>, i: nat, acc: seq<(DataCategory, CategoryArray)>,
    cut: CategoryArray -> Result<CategoryArray>)
    requires i <= |data|
  {
    && AllCut(data[..i], cut)
    && Stores(acc, Keys(data[..i]), Cuts(data[..i], cut))
  }

  lemma CutSoFarStep(
    data: seq<(DataCategory, CategoryArray)>, i: nat, acc: seq<(DataCategory, CategoryArray)>,
    cut: CategoryArray -> Result<CategoryArray>)
    requires DistinctKeys(data) && i < |data|
    requires CutSoFar(data, i, acc, cut)
    requires cut(data[i].1).Ok?
    ensures CutSoFar(data, i + 1, AddCategory(acc, data[i].0, cut(data[i].1).value),
                     cut)
  {
    var c := data[i].0;
    var segment := cut(data[i].1).value;
    var before, after := data[..i], data[..i + 1];
    AllCutSnoc(data, i, cut);
    KeysCutsSnoc(data, i, cut);
    FreshCategory(data, i, acc, cut);
    StoresSnoc(acc, Keys(before), Cuts(before, cut), c, segment);
  }

  lemma AllCutSnoc(data: seq<(DataCategory, CategoryArray)>, i: nat, cut: CategoryArray -> Result<CategoryArray>)
    requires i < |data| && AllCut(data[..i], cut)
    requires cut(data[i].1).Ok?
    ensures AllCut(data[..i + 1], cut)
  {
    var before, after := data[..i], data[..i + 1];
    forall m | 0 <= m < |after| ensures cut(after[m].1).Ok? {
      if m < i {
        assert after[m] == before[m];
      }
    }
  }

  lemma KeysCutsSnoc(data: seq<(DataCategory, CategoryArray)>, i: nat, cut: CategoryArray -> Result<CategoryArray>)
    requires i < |data| && AllCut(data[..i + 1], cut)
    ensures AllCut(data[..i], cut)
    ensures Keys(data[..i + 1]) == Keys(data[..i]) + [data[i].0]
    ensures cut(data[i].1).Ok?
    ensures Cuts(data[..i + 1], cut)
      == Cuts(data[..i], cut) + [cut(data[i].1).value]
  {
    var before, after := data[..i], data[..i + 1];
    assert after == before + [data[i]];
    assert after[i] == data[i];
    assert AllCut(before, cut) by {
      forall m | 0 <= m < |before| ensures cut(before[m].1).Ok? {
        assert before[m] == after[m];
      }
    }
    var cs, ds := Cuts(after, cut), Cuts(before, cut);
    forall m | 0 <= m < |after| ensures cs[m] == (ds + [cut(data[i].1).value])[m] {
      if m < i {
        assert before[m] == after[m];
      }
    }
    var ks, ls := Keys(after), Keys(before);
    forall m | 0 <= m < |after| ensures ks[m] == (ls + [data[i].0])[m] {
      if m < i {
        assert before[m] == after[m];
      }
    }
  }

  /** With distinct keys, the category of entry `i` is not among those cut so far. */
  lemma FreshCategory(
    data: seq<(DataCategory, CategoryArray)>, i: nat, acc: seq<(DataCategory, CategoryArray)>,
    cut: CategoryArray -> Result<CategoryArray>)
    requires DistinctKeys(data) && i < |data|
    requires CutSoFar(data, i, acc, cut)
    ensures data[i].0 !in Keys(data[..i]) && Keys(acc) == Keys(data[..i])
    ensures forall v :: AddCategory(acc, data[i].0, v) == acc + [(data[i].0, v)]
  {
    var before := data[..i];
    forall j | 0 <= j < |before| ensures Keys(before)[j] != data[i].0 {
      assert before[j] == data[j];
    }
    assert Get(acc, data[i].0).None?;
  }

  /** Once every category is cut, the result holds each category's cut under its key. */
  lemma CutSoFarAll(
    data: seq<(DataCategory, CategoryArray)>, acc: seq<(DataCategory, CategoryArray)>,
    cut: CategoryArray -> Result<CategoryArray>)
    requires CutSoFar(data, |data|, acc, cut)
    ensures Keys(acc) == Keys(data)
    ensures forall m :: 0 <= m < |data| ==>
      var a := Get(acc, data[m].0).value;
      && Get(acc, data[m].0).Some?
      && cut(data[m].1).Ok? && a == cut(data[m].1).value
  {
    assert data[..|data|] == data;
    forall m | 0 <= m < |data|
      ensures var a := Get(acc, data[m].0).value;
      && Get(acc, data[m].0).Some?
      && cut(data[m].1).Ok? && a == cut(data[m].1).value
    {
      assert Keys(data)[m] == data[m].0;
      assert Cuts(data, cut)[m] == cut(data[m].1).value;
    }
  }

  /** The loop over the categories succeeds exactly when every remaining category can be cut. */
  lemma {:induction false} SegmentDataFromOk(
    data: seq<(DataCategory, CategoryArray)>, i: nat, acc: seq<(DataCategory, CategoryArray)>,
    cut: CategoryArray -> Result<CategoryArray>)
    requires i <= |data|
    ensures SegmentDataFrom(data, i, acc, cut).Ok?
      <==> forall m :: i <= m < |data| ==> cut(data[m].1).Ok?
    decreases |data| - i
  {
    if i < |data| {
      var segment := cut(data[i].1);
      SegmentDataStep(data, i, acc, cut);
      if segment.Ok? {
        SegmentDataFromOk(data, i + 1, AddCategory(acc, data[i].0, segment.value), cut);
        AllCutFromStep(data, i, cut);
      } else {
        assert SegmentDataFrom(data, i, acc, cut).Err?;
        assert !cut(data[i].1).Ok?;
      }
    }
  }

  lemma AllCutFromStep(data: seq<(DataCategory, CategoryArray)>, i: nat, cut: CategoryArray -> Result<CategoryArray>)
    requires i < |data| && cut(data[i].1).Ok?
    ensures (forall m :: i <= m < |data| ==> cut(data[m].1).Ok?)
      <==> (forall m :: i + 1 <= m < |data| ==> cut(data[m].1).Ok?)
  {
  }

  lemma {:induction false} SegmentDataFromGet(
    data: seq<(DataCategory, CategoryArray)>, i: nat, acc: seq<(DataCategory, CategoryArray)>,
    cut: CategoryArray -> Result<CategoryArray>)
    requires DistinctKeys(data) && i <= |data|
    requires CutSoFar(data, i, acc, cut)
    ensures var r := SegmentDataFrom(data, i, acc, cut);
      && (r.Ok? <==> forall m :: i <= m < |data| ==> cut(data[m].1).Ok?)
      && (r.Ok? ==> CutSoFar(data, |data|, r.value, cut))
    decreases |data| - i
  {
    SegmentDataFromOk(data, i, acc, cut);
    if i < |data| {
      var segment := cut(data[i].1);
      SegmentDataStep(data, i, acc, cut);
      if segment.Ok? {
        CutSoFarStep(data, i, acc, cut);
        SegmentDataFromGet(data, i + 1, AddCategory(acc, data[i].0, segment.value), cut);
      }
    }
  }

  /**
    A cycle holds every category of the trial, each sliced between the
    boundaries and stamped with the cycle's frames, id and context; the cut
    fails exactly when the slice of some category fails.
  */
  lemma CycleCategories(t: TrialData, start: real, end: real, cycleId: nat, ctx: string)
    requires DistinctKeys(t.data)
    ensures var r := GetSegment(t, start, end, cycleId, ctx);
      && (r.Ok? <==> t.events.Some? && forall m :: 0 <= m < |t.data| ==> Cut(t.data[m].1, start, end, cycleId, ctx).Ok?)
      && (r.Ok? ==>
            && Keys(r.value.data) == Keys(t.data)
            && r.value.events == Some(Between(t.events.value, start, end))
            && forall m :: 0 <= m < |t.data| ==>
                 var a := Get(r.value.data, t.data[m].0).value;
                 && Get(r.value.data, t.data[m].0).Some?
                 && a == Cut(t.data[m].1, start, end, cycleId, ctx).value
                 && a.meta.cycleId == Some(cycleId) && a.meta.context == Some(ctx))
  {
    assert t.data[..0] == [];
    SegmentDataFromGet(t.data, 0, [], CutWith(start, end, cycleId, ctx));
    GetSegmentOfData(t, start, end, cycleId, ctx);
    var data := SegmentDataFrom(t.data, 0, [], CutWith(start, end, cycleId, ctx));
    if data.Ok? {
      CutSoFarAll(t.data, data.value, CutWith(start, end, cycleId, ctx));
      forall m | 0 <= m < |t.data| && Cut(t.data[m].1, start, end, cycleId, ctx).Ok?
        ensures Cut(t.data[m].1, start, end, cycleId, ctx).value.meta.cycleId == Some(cycleId)
        ensures Cut(t.data[m].1, start, end, cycleId, ctx).value.meta.context == Some(ctx)
      {
      }
      if t.events.Some? {
        assert GetSegment(t, start, end, cycleId, ctx) == Ok(TrialData(data.value, Some(Between(t.events.value, start, end))));
      }
    }
  }

  // ---------------------------------------------------------------------
  // Frames of adjacent cycles
  // ---------------------------------------------------------------------

  /** The samples of `a` sit on its frame grid: sample `i` at time `(first + i) / rate`. */
  predicate OnFrameGrid(a: CategoryArray, first: int) {
    && a.meta.rate > 0.0
    && forall i :: 0 <= i < |a.times| ==> a.times[i] == (first + i) as real / a.meta.rate
  }

  lemma FrameOnGrid(a: CategoryArray, first: int, i: nat)
    requires OnFrameGrid(a, first) && i < |a.times|
    ensures Frame(a.times[i], a.meta.rate) == first + i
  {
    var r := a.meta.rate;
    var x := (first + i) as real;
    assert a.times[i] / (1.0 / r) == x by {
      assert a.times[i] == x / r;
      assert (x / r) / (1.0 / r) == x;
    }
  }

  lemma GridIncreasing(a: CategoryArray, first: int, i: nat, j: nat)
    requires OnFrameGrid(a, first) && i < j < |a.times|
    ensures a.times[i] < a.times[j]
  {
    var r := a.meta.rate;
    assert (first + i) as real / r < (first + j) as real / r;
  }

  /** The last kept sample of a slice is the last sample of `a` up to `end`. */
  lemma SliceLast(a: CategoryArray, first: int, start: real, end: real)
    requires OnFrameGrid(a, first)
    requires SliceArray(a, start, end).times != []
    ensures exists p :: (0 <= p < |a.times|
      && SliceArray(a, start, end).times[|SliceArray(a, start, end).times| - 1] == a.times[p]
      && start <= a.times[p] <= end
      && forall i :: p < i < |a.times| && start <= a.times[i] ==> a.times[i] > end)
  {
    var idx := KeptIndices(a.times, start, end, |a.times|);
    var p := idx[|idx| - 1];
    assert SliceArray(a, start, end).times[|idx| - 1] == a.times[p];
    forall i | p < i < |a.times| && start <= a.times[i]
      ensures a.times[i] > end
    {
      AfterLastNotIn(idx, i);
    }
  }

  /** In an increasing sequence, nothing past the last element occurs. */
  lemma AfterLastNotIn(idx: seq<nat>, i: nat)
    requires idx != [] && forall k, l :: 0 <= k < l < |idx| ==> idx[k] < idx[l]
    requires i > idx[|idx| - 1]
    ensures i !in idx
  {
    forall k | 0 <= k < |idx| ensures idx[k] != i {
      if k < |idx| - 1 {
        assert idx[k] < idx[|idx| - 1];
      }
    }
  }

  /** In an increasing sequence, nothing before the first element occurs. */
  lemma BeforeFirstNotIn(idx: seq<nat>, i: nat)
    requires idx != [] && forall k, l :: 0 <= k < l < |idx| ==> idx[k] < idx[l]
    requires i < idx[0]
    ensures i !in idx
  {
    forall k | 0 <= k < |idx| ensures idx[k] != i {
      if k > 0 {
        assert idx[0] < idx[k];
      }
    }
  }

  /** The first kept sample of a slice is the first sample of `a` from `start` on. */
  lemma SliceFirst(a: CategoryArray, first: int, start: real, end: real)
    requires OnFrameGrid(a, first)
    requires SliceArray(a, start, end).times != []
    ensures exists q :: (0 <= q < |a.times|
      && SliceArray(a, start, end).times[0] == a.times[q]
      && start <= a.times[q] <= end
      && forall i :: 0 <= i < q && a.times[i] <= end ==> a.times[i] < start)
  {
    var idx := KeptIndices(a.times, start, end, |a.times|);
    var q := idx[0];
    forall i | 0 <= i < q && a.times[i] <= end
      ensures a.times[i] < start
    {
      BeforeFirstNotIn(idx, i);
    }
  }

  /**
    Consecutive cycles of one category meet: on the frame grid, the next
    cycle starts at the frame where the current one ends or at the one after
    it (they share the boundary sample when the boundary falls on a sample).
  */
  lemma AdjacentCutsMeet(
    a: CategoryArray, first: int, start: real, boundary: real, end: real, k: nat, ctx: string)
    requires OnFrameGrid(a, first)
    requires Cut(a, start, boundary, k, ctx).Ok? && Cut(a, boundary, end, k + 1, ctx).Ok?
    ensures var current := Cut(a, start, boundary, k, ctx).value.meta;
      var next := Cut(a, boundary, end, k + 1, ctx).value.meta;
      0 <= next.startFrame.value - current.endFrame.value <= 1
  {
    var current := SliceArray(a, start, boundary);
    var next := SliceArray(a, boundary, end);
    SliceLast(a, first, start, boundary);
    SliceFirst(a, first, boundary, end);
    var p :| 0 <= p < |a.times| && current.times[|current.times| - 1] == a.times[p]
      && start <= a.times[p] <= boundary
      && forall i :: p < i < |a.times| && start <= a.times[i] ==> a.times[i] > boundary;
    var q :| 0 <= q < |a.times| && next.times[0] == a.times[q]
      && boundary <= a.times[q] <= end
      && forall i :: 0 <= i < q && a.times[i] <= end ==> a.times[i] < boundary;
    if q < p {
      GridIncreasing(a, first, q, p);
    }
    if q > p + 1 {
      GridIncreasing(a, first, p, p + 1);
      GridIncreasing(a, first, p + 1, q);
    }
    FrameOnGrid(a, first, p);
    FrameOnGrid(a, first, q);
  }

  /** The cut of one category, as a cycle holds it. */
  lemma CycleCategoryAt(t: TrialData, start: real, end: real, cycleId: nat, ctx: string, m: nat)
    requires DistinctKeys(t.data) && m < |t.data|
    requires GetSegment(t, start, end, cycleId, ctx).Ok?
    ensures Cut(t.data[m].1, start, end, cycleId, ctx).Ok?
    ensures Get(GetSegment(t, start, end, cycleId, ctx).value.data, t.data[m].0)
      == Some(Cut(t.data[m].1, start, end, cycleId, ctx).value)
  {
    CycleCategories(t, start, end, cycleId, ctx);
  }

  /**
    Consecutive cycles meet in every category sampled on its frame grid: the
    next cycle starts at most one frame after the current one ends, and
    never before.
  */
  lemma ConsecutiveCyclesMeet(
    t: TrialData, ctx: string, times: seq<real>, i: nat, current: TrialData, next: TrialData, m: nat, first: int)
    requires DistinctKeys(t.data) && i + 2 < |times|
    requires GetSegment(t, times[i], times[i + 1], i, ctx) == Ok(current)
    requires GetSegment(t, times[i + 1], times[i + 2], i + 1, ctx) == Ok(next)
    requires m < |t.data| && OnFrameGrid(t.data[m].1, first)
    ensures var c := t.data[m].0;
      && Get(current.data, c).Some? && Get(next.data, c).Some?
      && Get(current.data, c).value.meta.endFrame.Some?
      && Get(next.data, c).value.meta.startFrame.Some?
      && 0 <= Get(next.data, c).value.meta.startFrame.value - Get(current.data, c).value.meta.endFrame.value <= 1
  {
    CycleCategoryAt(t, times[i], times[i + 1], i, ctx, m);
    CycleCategoryAt(t, times[i + 1], times[i + 2], i + 1, ctx, m);
    AdjacentCutsMeet(t.data[m].1, first, times[i], times[i + 1], times[i + 2], i, ctx);
  }

  /** Cycle `b` starts at most one frame after cycle `a` ends in category `c`, and not before. */
  predicate PairMeets(a: Node, b: Node, c: DataCategory) {
    && a.Leaf? && b.Leaf?
    && var current := Get(a.trial.data, c);
       var next := Get(b.trial.data, c);
       && current.Some? && next.Some?
       && current.value.meta.endFrame.Some? && next.value.meta.startFrame.Some?
       && 0 <= next.value.meta.startFrame.value - current.value.meta.endFrame.value <= 1
  }

  /** Consecutive cycles of `cycles` meet in category `c`. */
  ghost predicate CyclesMeet(cycles: seq<(string, Node)>, c: DataCategory) {
    forall i :: 0 <= i && i + 1 < |cycles| ==> PairMeets(cycles[i].1, cycles[i + 1].1, c)
  }

  lemma ContextCyclesMeet(t: TrialData, ctx: string, times: seq<real>, cycles: seq<(string, Node)>, m: nat, first: int)
    requires DistinctKeys(t.data) && CutCycles(t, ctx, times, cycles) && |cycles| == CycleCount(times)
    requires m < |t.data| && OnFrameGrid(t.data[m].1, first)
    ensures CyclesMeet(cycles, t.data[m].0)
  {
    forall i | 0 <= i && i + 1 < |cycles|
      ensures PairMeets(cycles[i].1, cycles[i + 1].1, t.data[m].0)
    {
      ConsecutiveCyclesMeet(t, ctx, times, i, cycles[i].1.trial, cycles[i + 1].1.trial, m, first);
    }
  }

  /**
    In a segmentation, consecutive cycles of every context meet in each
    category sampled on its frame grid.
  */
  lemma SegmentFramesMeet(t: TrialData, eventLabel: string, m: nat, first: int)
    requires t.events.Some? && DistinctKeys(t.data)
    requires m < |t.data| && OnFrameGrid(t.data[m].1, first)
    ensures var r := Segment(t, eventLabel);
      r.Ok? ==>
        && IsTrialCycles(r.value)
        && forall j :: 0 <= j < |r.value.segments| ==> CyclesMeet(r.value.segments[j].1.segments, t.data[m].0)
  {
    var r := Segment(t, eventLabel);
    SegmentShape(t, eventLabel);
    if r.Ok? {
      forall j | 0 <= j < |r.value.segments|
        ensures CyclesMeet(r.value.segments[j].1.segments, t.data[m].0)
      {
        var ctx := r.value.segments[j].0;
        ContextCyclesMeet(t, ctx, BoundaryTimes(t.events.value, eventLabel, ctx), r.value.segments[j].1.segments, m, first);
      }
    }
  }

  // ---------------------------------------------------------------------
  // Events of the cycles
  // ---------------------------------------------------------------------

  /** No two events of the table share a time, and they are in time order. */
  predicate StrictlyIncreasing(e: EventTable) {
    forall i, j :: 0 <= i < j < |e| ==> e[i].time < e[j].time
  }

  function Clamp(x: nat, n: nat): nat {
    if x < n then x else n
  }

  lemma {:induction false} BetweenIncreasingPrefix(e: EventTable, p: nat, q: nat, n: nat)
    requires StrictlyIncreasing(e) && p < q < |e| && n <= |e|
    ensures Between(e[..n], e[p].time, e[q].time) == e[Clamp(p + 1, n)..Clamp(q, n)]
  {
    if n > 0 {
      BetweenIncreasingPrefix(e, p, q, n - 1);
      BetweenIncreasingStep(e, p, q, n);
    }
  }

  /** One more event of the table: the prefix's slice grows by that event
      exactly when it lies between the two boundaries. */
  lemma BetweenIncreasingStep(e: EventTable, p: nat, q: nat, n: nat)
    requires StrictlyIncreasing(e) && p < q < |e| && 0 < n <= |e|
    requires Between(e[..n - 1], e[p].time, e[q].time) == e[Clamp(p + 1, n - 1)..Clamp(q, n - 1)]
    ensures Between(e[..n], e[p].time, e[q].time) == e[Clamp(p + 1, n)..Clamp(q, n)]
  {
    StepTimes(e, p, q, n - 1);
    BetweenStep(e, p, q, n);
  }

  /** Where the event at `m` lies relative to the boundaries `p < q` of an increasing table. */
  lemma StepTimes(e: EventTable, p: nat, q: nat, m: nat)
    requires StrictlyIncreasing(e) && p < q < |e| && m < |e|
    ensures m <= p ==> e[m].time <= e[p].time
    ensures p < m < q ==> e[p].time < e[m].time < e[q].time
    ensures q <= m ==> e[q].time <= e[m].time
  {
  }

  /** The step of `BetweenIncreasingStep`, given where the new event lies. */
  lemma BetweenStep(e: EventTable, p: nat, q: nat, n: nat)
    requires p < q < |e| && 0 < n <= |e|
    requires n - 1 <= p ==> e[n - 1].time <= e[p].time
    requires p < n - 1 < q ==> e[p].time < e[n - 1].time < e[q].time
    requires q <= n - 1 ==> e[q].time <= e[n - 1].time
    requires Between(e[..n - 1], e[p].time, e[q].time) == e[Clamp(p + 1, n - 1)..Clamp(q, n - 1)]
    ensures Between(e[..n], e[p].time, e[q].time) == e[Clamp(p + 1, n)..Clamp(q, n)]
  {
    var s, t := e[p].time, e[q].time;
    var last := e[n - 1];
    assert e[..n][..n - 1] == e[..n - 1];
    assert Between(e[..n], s, t) == Between(e[..n - 1], s, t) + (if s < last.time < t then [last] else []);
    if n - 1 <= p {
      assert Clamp(p + 1, n) == Clamp(q, n) == n && Clamp(p + 1, n - 1) == Clamp(q, n - 1) == n - 1;
    } else if n - 1 < q {
      assert Clamp(p + 1, n) == Clamp(p + 1, n - 1) == p + 1 && Clamp(q, n) == n && Clamp(q, n - 1) == n - 1;
      SliceSnoc(e, p + 1, n - 1);
    } else {
      assert Clamp(p + 1, n) == Clamp(p + 1, n - 1) == p + 1 && Clamp(q, n) == Clamp(q, n - 1) == q;
    }
  }

  /** A slice extended by the next element. */
  lemma SliceSnoc<T>(s: seq<T>, a: nat, b: nat)
    requires a <= b < |s|
    ensures s[a..b + 1] == s[a..b] + [s[b]]
  {
  }

  /** In a table ordered by time, the events strictly between two events are those listed between them. */
  lemma BetweenEvents(e: EventTable, p: nat, q: nat)
    requires StrictlyIncreasing(e) && p < q < |e|
    ensures Between(e, e[p].time, e[q].time) == e[p + 1..q]
  {
    BetweenIncreasingPrefix(e, p, q, |e|);
    assert e[..|e|] == e;
  }

  /**
    In the regular pattern the strikes of the right foot are the events
    0, 4, 8, ... and those of the left foot the events 2, 6, 10, ...
  */
  lemma {:induction false} PatternBoundaryTimes(e: EventTable, off: nat, n: nat)
    requires (off == 0 || off == 2) && n <= |e| && StrikesEveryFour(e, off)
    ensures var times := BoundaryTimes(e[..n], Events.FootStrike, Events.PatternContext(off));
      && n <= 4 * |times| + off
      && forall k :: 0 <= k < |times| ==> 4 * k + off < n && times[k] == e[4 * k + off].time
  {
    if n > 0 {
      var x := n - 1;
      var ctx := Events.PatternContext(off);
      var prev := BoundaryTimes(e[..x], Events.FootStrike, ctx);
      var times := BoundaryTimes(e[..n], Events.FootStrike, ctx);
      assert e[..n][..x] == e[..x];
      PatternBoundaryTimes(e, off, x);
      var last := e[x];
      var boundary := IsBoundary(last, Events.FootStrike, ctx);
      assert times == prev + (if boundary then [last.time] else []);
      if |prev| > 0 {
        assert 4 * (|prev| - 1) + off < x;
      }
      NextBoundaryPosition(|prev|, x, off, boundary);
      forall k | 0 <= k < |times|
        ensures 4 * k + off < n && times[k] == e[4 * k + off].time
      {
        if k < |prev| {
          assert times[k] == prev[k];
        } else {
          assert times[k] == last.time;
        }
      }
    }
  }

  /** The strikes of the foot of position `off` are exactly the events at `off`, `off + 4`, ... */
  predicate StrikesEveryFour(e: EventTable, off: nat) {
    forall x :: 0 <= x < |e| ==> (IsBoundary(e[x], Events.FootStrike, Events.PatternContext(off)) <==> x % 4 == off)
  }

  lemma PatternStrikes(e: EventTable, off: nat)
    requires Events.FollowsPattern(e) && (off == 0 || off == 2)
    ensures StrikesEveryFour(e, off)
  {
    forall x | 0 <= x < |e|
      ensures IsBoundary(e[x], Events.FootStrike, Events.PatternContext(off)) <==> x % 4 == off
    {
      PatternBoundaryAt(e, off, x);
    }
  }

  /** In the regular pattern, event `x` is a strike of the foot of position `off` when `x` is `off` modulo 4. */
  lemma PatternBoundaryAt(e: EventTable, off: nat, x: nat)
    requires Events.FollowsPattern(e) && (off == 0 || off == 2) && x < |e|
    ensures IsBoundary(e[x], Events.FootStrike, Events.PatternContext(off)) <==> x % 4 == off
  {
    assert e[x].name == Events.PatternLabel(x) && e[x].context == Events.PatternContext(x);
    ParityOfPosition(x);
  }

  /**
    The boundaries before position `x` are the positions `off`, `off + 4`, ...
    below it; position `x` is the next one exactly when it is `off` modulo 4.
  */
  lemma NextBoundaryPosition(count: nat, x: nat, off: nat, boundary: bool)
    requires off < 4 && x <= 4 * count + off
    requires count > 0 ==> 4 * (count - 1) + off < x
    requires boundary <==> x % 4 == off
    ensures boundary ==> x == 4 * count + off
    ensures !boundary ==> x + 1 <= 4 * count + off
  {
    if x == 4 * count + off {
      assert x % 4 == off;
    }
  }

  /** A position is even exactly when its remainder modulo 4 is 0 or 2. */
  lemma {:induction false} ParityOfPosition(x: nat)
    ensures x % 2 == 0 <==> x % 4 == 0 || x % 4 == 2
  {
    if x >= 4 {
      ParityOfPosition(x - 4);
    }
  }

  /** A cycle of a table in the regular pattern holds the three events between its strikes. */
  lemma PatternCycleEvents(t: TrialData, off: nat, i: nat, cycle: TrialData)
    requires t.events.Some? && StrictlyIncreasing(t.events.value)
    requires (off == 0 || off == 2) && StrikesEveryFour(t.events.value, off)
    requires var ctx := Events.PatternContext(off);
      var times := BoundaryTimes(t.events.value, DefaultLabel, ctx);
      i + 1 < |times| && GetSegment(t, times[i], times[i + 1], i, ctx) == Ok(cycle)
    ensures 4 * i + off + 4 < |t.events.value|
    ensures cycle.events == Some(t.events.value[4 * i + off + 1..4 * i + off + 4])
  {
    var e := t.events.value;
    var ctx := Events.PatternContext(off);
    var times := BoundaryTimes(e, DefaultLabel, ctx);
    var p, q := 4 * i + off, 4 * (i + 1) + off;
    StrikeTimes(e, off, i);
    SegmentEventsOf(t, times[i], times[i + 1], i, ctx, cycle);
    BetweenEvents(e, p, q);
    assert q == p + 4;
  }

  /** Boundaries `i` and `i + 1` of a foot are the strikes at positions `4 * i + off` and `4 * (i + 1) + off`. */
  lemma StrikeTimes(e: EventTable, off: nat, i: nat)
    requires (off == 0 || off == 2) && StrikesEveryFour(e, off)
    requires i + 1 < |BoundaryTimes(e, Events.FootStrike, Events.PatternContext(off))|
    ensures var times := BoundaryTimes(e, Events.FootStrike, Events.PatternContext(off));
      && 4 * (i + 1) + off < |e|
      && times[i] == e[4 * i + off].time && times[i + 1] == e[4 * (i + 1) + off].time
  {
    PatternBoundaryTimes(e, off, |e|);
    assert e[..|e|] == e;
  }

  /** A cycle that was cut holds the events of the trial between its bounds. */
  lemma SegmentEventsOf(t: TrialData, start: real, end: real, cycleId: nat, ctx: string, cycle: TrialData)
    requires GetSegment(t, start, end, cycleId, ctx) == Ok(cycle)
    ensures t.events.Some? && cycle.events == Some(Between(t.events.value, start, end))
  {
    GetSegmentOfData(t, start, end, cycleId, ctx);
  }

  /** The contexts of a table in the regular pattern are the two feet. */
  lemma PatternContexts(e: EventTable, ctx: string)
    requires Events.FollowsPattern(e) && ctx in UniqueContexts(e)
    ensures ctx == Events.PatternContext(0) || ctx == Events.PatternContext(2)
  {
    UniqueContextsMembers(e, ctx);
    var w :| 0 <= w < |e| && e[w].context == ctx;
    assert e[w].context == Events.PatternContext(w);
  }

  /**
    The events of a gait cycle of context `ctx`: the other foot's off, the
    other foot's strike, then this foot's off.
  */
  predicate GaitCycleEvents(ev: EventTable, ctx: string) {
    && |ev| == 3
    && ev[0].name == Events.FootOff && ev[0].context != ctx
    && ev[1].name == Events.FootStrike && ev[1].context != ctx
    && ev[2].name == Events.FootOff && ev[2].context == ctx
  }

  /** In the regular pattern, the three events after a strike of a foot are those of its gait cycle. */
  lemma PatternWindow(e: EventTable, off: nat, p: nat)
    requires Events.FollowsPattern(e) && (off == 0 || off == 2)
    requires p % 4 == off && p + 3 < |e|
    ensures GaitCycleEvents(e[p + 1..p + 4], Events.PatternContext(off))
  {
    PositionsAfterStrike(p, off);
    PatternEventAt(e, p + 1);
    PatternEventAt(e, p + 2);
    PatternEventAt(e, p + 3);
  }

  lemma PatternEventAt(e: EventTable, x: nat)
    requires Events.FollowsPattern(e) && x < |e|
    ensures e[x].name == Events.PatternLabel(x) && e[x].context == Events.PatternContext(x)
  {
  }

  lemma PositionsAfterStrike(p: nat, off: nat)
    requires (off == 0 || off == 2) && p % 4 == off
    ensures Events.PatternLabel(p + 1) == Events.FootOff && Events.PatternLabel(p + 3) == Events.FootOff
    ensures Events.PatternLabel(p + 2) == Events.FootStrike
    ensures Events.PatternContext(p + 1) != Events.PatternContext(off)
    ensures Events.PatternContext(p + 2) != Events.PatternContext(off)
    ensures Events.PatternContext(p + 3) == Events.PatternContext(off)
  {
    var q := p / 4;
    assert p == 4 * q + off;
    if off == 0 {
      PositionInFour(q, 1);
      PositionInFour(q, 2);
      PositionInFour(q, 3);
    } else {
      PositionInFour(q, 3);
      PositionInFour(q + 1, 0);
      PositionInFour(q + 1, 1);
      assert p + 2 == 4 * (q + 1) && p + 3 == 4 * (q + 1) + 1;
    }
  }

  /** Position `r` of the `q`-th group of four. */
  lemma PositionInFour(q: nat, r: nat)
    requires r < 4
    ensures (4 * q + r) % 4 == r && (4 * q + r) % 2 == r % 2
  {
  }

  /** The foot of a context of a table in the regular pattern: its offset in the pattern. */
  lemma PatternFoot(e: EventTable, ctx: string) returns (off: nat)
    requires Events.FollowsPattern(e) && ctx in UniqueContexts(e)
    ensures (off == 0 || off == 2) && ctx == Events.PatternContext(off) && StrikesEveryFour(e, off)
  {
    PatternContexts(e, ctx);
    off := if ctx == Events.PatternContext(0) then 0 else 2;
    PatternStrikes(e, off);
  }

  /** Cycle `i` of the foot at offset `off` holds the three events after its `i`-th strike. */
  lemma CutCycleEvents(t: TrialData, off: nat, cycles: seq<(string, Node)>, i: nat)
    requires t.events.Some? && StrictlyIncreasing(t.events.value)
    requires (off == 0 || off == 2) && StrikesEveryFour(t.events.value, off)
    requires var ctx := Events.PatternContext(off);
      CutCycles(t, ctx, BoundaryTimes(t.events.value, DefaultLabel, ctx), cycles) && i < |cycles|
    ensures 4 * i + off + 4 < |t.events.value|
    ensures cycles[i].1.trial.events == Some(t.events.value[4 * i + off + 1..4 * i + off + 4])
  {
    PatternCycleEvents(t, off, i, cycles[i].1.trial);
  }

  /** Cycle `i` of context `ctx` of a table in the regular pattern holds that context's gait-cycle events. */
  lemma PatternContextCycle(t: TrialData, ctx: string, cycles: seq<(string, Node)>, i: nat)
    requires t.events.Some? && Events.FollowsPattern(t.events.value) && StrictlyIncreasing(t.events.value)
    requires ctx in UniqueContexts(t.events.value)
    requires CutCycles(t, ctx, BoundaryTimes(t.events.value, DefaultLabel, ctx), cycles) && i < |cycles|
    ensures cycles[i].1.trial.events.Some? && GaitCycleEvents(cycles[i].1.trial.events.value, ctx)
  {
    var off := PatternFoot(t.events.value, ctx);
    FootCycle(t, off, cycles, i);
  }

  /** Cycle `i` of the foot at offset `off` holds that foot's gait-cycle events. */
  lemma FootCycle(t: TrialData, off: nat, cycles: seq<(string, Node)>, i: nat)
    requires t.events.Some? && Events.FollowsPattern(t.events.value) && StrictlyIncreasing(t.events.value)
    requires (off == 0 || off == 2) && StrikesEveryFour(t.events.value, off)
    requires var ctx := Events.PatternContext(off);
      CutCycles(t, ctx, BoundaryTimes(t.events.value, DefaultLabel, ctx), cycles) && i < |cycles|
    ensures cycles[i].1.trial.events.Some? && GaitCycleEvents(cycles[i].1.trial.events.value, Events.PatternContext(off))
  {
    CutCycleEvents(t, off, cycles, i);
    WindowCycle(t.events.value, off, i, cycles[i].1.trial.events);
  }

  /** The three events after the `i`-th strike of the foot at offset `off` are its gait-cycle events. */
  lemma WindowCycle(e: EventTable, off: nat, i: nat, events: Option<EventTable>)
    requires Events.FollowsPattern(e) && (off == 0 || off == 2)
    requires 4 * i + off + 4 < |e| && events == Some(e[4 * i + off + 1..4 * i + off + 4])
    ensures events.Some? && GaitCycleEvents(events.value, Events.PatternContext(off))
  {
    StrikePosition(i, off);
    PatternWindow(e, off, 4 * i + off);
  }

  lemma StrikePosition(i: nat, off: nat)
    requires off < 4
    ensures (4 * i + off) % 4 == off
  {
  }

  /**
    Segmenting a table in the regular pattern at the foot strikes gives
    cycles that each hold exactly three events: the opposite foot's off and
    strike and the same foot's off.
  */
  lemma PatternCyclesHoldThreeEvents(t: TrialData)
    requires t.events.Some? && Events.FollowsPattern(t.events.value) && StrictlyIncreasing(t.events.value)
    ensures var r := Segment(t, DefaultLabel);
      r.Ok? ==>
        && IsTrialCycles(r.value)
        && forall j, i :: 0 <= j < |r.value.segments| && 0 <= i < |r.value.segments[j].1.segments| ==>
             var cycle := r.value.segments[j].1.segments[i].1.trial;
             cycle.events.Some? && GaitCycleEvents(cycle.events.value, r.value.segments[j].0)
  {
    var r := Segment(t, DefaultLabel);
    SegmentShape(t, DefaultLabel);
    if r.Ok? {
      var e := t.events.value;
      forall j, i | 0 <= j < |r.value.segments| && 0 <= i < |r.value.segments[j].1.segments|
        ensures r.value.segments[j].1.segments[i].1.trial.events.Some?
        ensures GaitCycleEvents(r.value.segments[j].1.segments[i].1.trial.events.value, r.value.segments[j].0)
      {
        var ctx := r.value.segments[j].0;
        assert ctx == Keys(r.value.segments)[j];
        assert CutCycles(t, ctx, BoundaryTimes(e, DefaultLabel, ctx), r.value.segments[j].1.segments);
        PatternContextCycle(t, ctx, r.value.segments[j].1.segments, i);
      }
    }
  }
}
