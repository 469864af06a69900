/**
  The trial data model of gaitalytics/model.py: data categories, category
  arrays (channel x axis x time), event tables, trials, and the recursive
  container of segmented trials, with the `Trial` and `SegmentedTrial`
  objects whose methods update them in place.
*/
module Model {
  import opened Outcomes
  import opened Dict

  /** `DataCategory`; its value names the HDF5 group a category is saved in. */
  datatype DataCategory = Markers | Analogs | Analysis {
    function Value(): string {
      match this
      case Markers => "markers"
      case Analogs => "analogs"
      case Analysis => "analysis"
    }
  }

  /** Iterating over the enum visits its members in declaration order. */
  const AllCategories: seq<DataCategory> := [Markers, Analogs, Analysis]

  predicate Distinct<T(==)>(s: seq<T>) {
    forall i, j :: 0 <= i < j < |s| ==> s[i] != s[j]
  }

  /** Every category is listed, once. */
  lemma AllCategoriesListed()
    ensures Distinct(AllCategories)
    ensures forall c :: c in AllCategories
  {
    forall c ensures c in AllCategories {
      assert c == AllCategories[0] || c == AllCategories[1] || c == AllCategories[2];
    }
  }

  lemma AppendAssoc<T>(a: seq<T>, b: seq<T>, c: seq<T>)
    ensures a + b + c == a + (b + c)
  {
  }

  /** Dropping the first element of a sequence without repetitions. */
  lemma DistinctTail<T>(s: seq<T>)
    requires Distinct(s) && s != []
    ensures Distinct(s[1..]) && s[0] !in s[1..]
    ensures forall x :: x in s <==> x == s[0] || x in s[1..]
  {
    forall i, j | 0 <= i < j < |s[1..]| ensures s[1..][i] != s[1..][j] {
      assert s[1..][i] == s[i + 1] && s[1..][j] == s[j + 1];
    }
    assert s == [s[0]] + s[1..];
  }

  /** One (channel, axis) series over time; `None` stands for a missing (NaN) sample. */
  type Series = seq<Option<real>>

  /**
    The attributes of a category array: the frame rate and units the readers
    set, and the stamps segmentation adds to each cycle's arrays.
  */
  datatype Meta = Meta(
    rate: real,
    units: string,
    startFrame: Option<int>,
    endFrame: Option<int>,
    cycleId: Option<nat>,
    context: Option<string>)

  /** A labelled array with dimensions channel x axis x time. */
  datatype CategoryArray = CategoryArray(
    channels: seq<string>,
    axes: seq<string>,
    times: seq<real>,
    values: map<(string, string), Series>,
    meta: Meta)

  function Grid(channels: seq<string>, axes: seq<string>): set<(string, string)> {
    set c, x | c in channels && x in axes :: (c, x)
  }

  /** Coordinates are unique, every cell has a series, every series spans the time axis. */
  predicate WellFormed(a: CategoryArray) {
    && Distinct(a.channels)
    && Distinct(a.axes)
    && a.values.Keys == Grid(a.channels, a.axes)
    && forall k :: k in a.values ==> |a.values[k]| == |a.times|
  }

  function Missing(n: nat): (s: Series)
    ensures |s| == n && forall i :: 0 <= i < n ==> s[i] == None
  {
    seq(n, _ => None)
  }

  /** The series of cell `k`, or an all-missing series when `a` has no such cell. */
  function SeriesOr(a: CategoryArray, k: (string, string)): Series {
    if k in a.values then a.values[k] else Missing(|a.times|)
  }

  /** The coordinates of `ys` that `xs` lacks, in their order. */
  function Extra(xs: seq<string>, ys: seq<string>): (r: seq<string>)
    ensures forall y :: y in r <==> y in ys && y !in xs
    ensures (forall y :: y in ys ==> y !in xs) ==> r == ys
    ensures Distinct(ys) ==> Distinct(r)
  {
    if ys == [] then []
    else if ys[0] in xs then Extra(xs, ys[1..])
    else [ys[0]] + Extra(xs, ys[1..])
  }

  /** The outer join of two coordinate axes. */
  function Union(xs: seq<string>, ys: seq<string>): (r: seq<string>)
    ensures forall z :: z in r <==> z in xs || z in ys
    ensures Distinct(xs) && Distinct(ys) ==> Distinct(r)
  {
    var e := Extra(xs, ys);
    var r := xs + e;
    assert Distinct(xs) && Distinct(ys) ==> Distinct(r) by {
      if Distinct(xs) && Distinct(ys) {
        forall i, j | 0 <= i < j < |r| ensures r[i] != r[j] {
          if j >= |xs| && i < |xs| {
            assert r[j] in e;
          }
        }
      }
    }
    r
  }

  /**
    `xr.concat([a, b], dim="time")`: the time axes are appended; channels and
    axes are outer-joined and cells missing on one side are filled with NaN;
    the attributes are those of `a`.
  */
  function ConcatTime(a: CategoryArray, b: CategoryArray): (r: CategoryArray) {
    var channels := Union(a.channels, b.channels);
    var axes := Union(a.axes, b.axes);
    CategoryArray(
      channels,
      axes,
      a.times + b.times,
      map k | k in Grid(channels, axes) :: SeriesOr(a, k) + SeriesOr(b, k),
      a.meta)
  }

  /**
    Concatenation along time keeps arrays well formed: the channel set is the
    union of both, the time axis is `a`'s followed by `b`'s, and each cell
    holds `a`'s samples (or NaN) followed by `b`'s (or NaN).
  */
  lemma ConcatTimeWellFormed(a: CategoryArray, b: CategoryArray)
    requires WellFormed(a) && WellFormed(b)
    ensures WellFormed(ConcatTime(a, b))
    ensures var r := ConcatTime(a, b);
      && r.times == a.times + b.times
      && (forall c :: c in r.channels <==> c in a.channels || c in b.channels)
      && (forall k :: k in r.values ==>
            && r.values[k][..|a.times|] == SeriesOr(a, k)
            && r.values[k][|a.times|..] == SeriesOr(b, k))
  {
    var r := ConcatTime(a, b);
    forall k | k in r.values
      ensures |r.values[k]| == |r.times|
      ensures r.values[k][..|a.times|] == SeriesOr(a, k)
      ensures r.values[k][|a.times|..] == SeriesOr(b, k)
    {
    }
  }

  /**
    Appending an array whose channels are all new adds exactly its channels:
    two 191-marker arrays with disjoint labels give 382 channels.
  */
  lemma {:induction false} ConcatDisjointChannelCount(a: CategoryArray, b: CategoryArray)
    requires forall c :: c in b.channels ==> c !in a.channels
    ensures |ConcatTime(a, b).channels| == |a.channels| + |b.channels|
  {
  }

  /** A row of the event table; `name` is the `label` column ("Foot Strike", "Foot Off"). */
  datatype Event = Event(time: real, name: string, context: string, iconId: int)

  /** The event table, one row per event, in table order. */
  type EventTable = seq<Event>

  /** The value of a `Trial`: its categories in insertion order and its optional event table. */
  datatype TrialData = TrialData(data: seq<(DataCategory, CategoryArray)>, events: Option<EventTable>)

  /**
    `Trial.add_data`: a category already present is extended along time,
    a new one is stored as given, after the others.
  */
  function AddCategory(data: seq<(DataCategory, CategoryArray)>, c: DataCategory, a: CategoryArray)
    : (r: seq<(DataCategory, CategoryArray)>)
    ensures Get(data, c).None? ==> r == data + [(c, a)] && Get(r, c) == Some(a)
    ensures Get(data, c).Some? ==>
      Keys(r) == Keys(data) && Get(r, c) == Some(ConcatTime(Get(data, c).value, a))
    ensures forall c' :: c' != c ==> Get(r, c') == Get(data, c')
    ensures DistinctKeys(data) ==> DistinctKeys(r)
  {
    match Get(data, c)
    case Some(prev) => Put(data, c, ConcatTime(prev, a))
    case None => Put(data, c, a)
  }

  /** A trial or a segmented trial: `BaseTrial` as a tagged union. */
  datatype Node = Leaf(trial: TrialData) | Branch(segments: seq<(string, Node)>)

  /**
    `TrialCycles`: the shape segmentation produces, context -> cycle id -> trial.
  */
  predicate IsTrialCycles(n: Node) {
    && n.Branch?
    && forall i :: 0 <= i < |n.segments| ==>
         && n.segments[i].1.Branch?
         && forall j :: 0 <= j < |n.segments[i].1.segments| ==> n.segments[i].1.segments[j].1.Leaf?
  }

  type TrialCycles = n: Node | IsTrialCycles(n) witness Branch([])

  /** The cycles of one context, with their trials. */
  function ContextCycles(context: Node): (r: seq<(string, TrialData)>)
    requires context.Branch?
    requires forall j :: 0 <= j < |context.segments| ==> context.segments[j].1.Leaf?
    ensures Keys(r) == Keys(context.segments)
    ensures forall j :: 0 <= j < |r| ==> Leaf(r[j].1) == context.segments[j].1
  {
    var s := context.segments;
    seq(|s|, j requires 0 <= j < |s| => (s[j].0, s[j].1.trial))
  }

  /** `get_all_cycles()`: context -> (cycle id -> trial), in container order. */
  function AllCycles(tc: TrialCycles): (r: seq<(string, seq<(string, TrialData)>)>)
    ensures Keys(r) == Keys(tc.segments)
    ensures forall i :: 0 <= i < |r| ==> Keys(r[i].1) == Keys(tc.segments[i].1.segments)
    ensures forall i, j :: 0 <= i < |r| && 0 <= j < |tc.segments[i].1.segments| ==>
      j < |r[i].1| && tc.segments[i].1.segments[j].1 == Leaf(r[i].1[j].1)
  {
    var s := tc.segments;
    seq(|s|, i requires 0 <= i < |s| => (s[i].0, ContextCycles(s[i].1)))
  }

  /** `get_cycles_per_context(context)`: a missing context raises KeyError. */
  function CyclesPerContext(tc: TrialCycles, context: string): (r: Result<seq<(string, TrialData)>>)
    ensures r.Ok? <==> context in Keys(tc.segments)
    ensures r.Ok? ==> Get(AllCycles(tc), context) == Some(r.value)
  {
    match Get(AllCycles(tc), context)
    case Some(cycles) => Ok(cycles)
    case None => Err(Error(KeyError, context))
  }

  /** A `Trial` object: categories and events updated in place. */
  class Trial {
    var data: seq<(DataCategory, CategoryArray)>
    var events: Option<EventTable>

    /** A fresh trial has no categories and no events. */
    constructor ()
      ensures data == [] && events == None
    {
      data := [];
      events := None;
    }

    function Value(): TrialData
      reads this
    {
      TrialData(data, events)
    }

    /** The `events` setter. */
    method SetEvents(e: Option<EventTable>)
      modifies this
      ensures events == e && data == old(data)
    {
      events := e;
    }

    method AddData(c: DataCategory, a: CategoryArray)
      modifies this
      ensures data == AddCategory(old(data), c, a)
      ensures events == old(events)
    {
      if HasKey(data, c) {
        data := Put(data, c, ConcatTime(Get(data, c).value, a));
      } else {
        data := Put(data, c, a);
      }
    }

    /** `get_data(category)`: an absent category raises KeyError. */
    function GetData(c: DataCategory): (r: Result<CategoryArray>)
      reads this
      ensures r.Ok? <==> c in Keys(data)
      ensures r.Ok? ==> Get(data, c) == Some(r.value)
    {
      match Get(data, c)
      case Some(a) => Ok(a)
      case None => Err(Error(KeyError, c.Value()))
    }
  }

  /** A `SegmentedTrial` object: an insertion-ordered dict of child containers. */
  class SegmentedTrial {
    var segments: seq<(string, Node)>

    constructor ()
      ensures segments == []
    {
      segments := [];
    }

    function Value(): Node
      reads this
    {
      Branch(segments)
    }

    method AddSegment(key: string, segment: Node)
      modifies this
      ensures segments == Put(old(segments), key, segment)
    {
      segments := Put(segments, key, segment);
    }

    /** `get_segment(key)`: an absent key raises KeyError. */
    function GetSegment(key: string): (r: Result<Node>)
      reads this
      ensures r.Ok? <==> key in Keys(segments)
      ensures r.Ok? ==> Get(segments, key) == Some(r.value)
    {
      match Get(segments, key)
      case Some(n) => Ok(n)
      case None => Err(Error(KeyError, key))
    }
  }
}
