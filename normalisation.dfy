/**
  Time normalisation (gaitalytics/normalisation.py): every category of every
  trial in a container is resampled to a fixed number of frames by a library
  call, into fresh containers of the same shape. The resampling itself is
  the parameter `timeNormalize`.
*/
module Normalisation {
  import opened Outcomes
  import opened Dict
  import opened Model

  /** The number of frames a normaliser resamples to unless told otherwise. */
  const DefaultFrames := 100

  /** `time_normalize(n_frames=..., norm_time=True)` of a category array. */
  type Resampler = (CategoryArray, int) -> CategoryArray

  /** The categories of a trial, each resampled, in the same order. */
  function NormaliseData(data: seq<(DataCategory, CategoryArray)>, nFrames: int, timeNormalize: Resampler)
    : (r: seq<(DataCategory, CategoryArray)>)
  {
    seq(|data|, i requires 0 <= i < |data| => (data[i].0, timeNormalize(data[i].1, nFrames)))
  }

  /** `_normalise_trial`'s result: the resampled categories, without the events. */
  function NormaliseTrialData(t: TrialData, nFrames: int, timeNormalize: Resampler): TrialData {
    TrialData(NormaliseData(t.data, nFrames, timeNormalize), None)
  }

  /** `normalise`: a segmented trial is normalised child by child, a trial category by category. */
  function Normalised(n: Node, nFrames: int, timeNormalize: Resampler): Node
    decreases n, 1
  {
    match n
    case Leaf(t) => Leaf(NormaliseTrialData(t, nFrames, timeNormalize))
    case Branch(segments) => Branch(NormaliseSegments(n, segments, nFrames, timeNormalize))
  }

  /** The children of `parent`, each normalised, under the same keys. */
  function NormaliseSegments(parent: Node, segments: seq<(string, Node)>, nFrames: int, timeNormalize: Resampler)
    : (r: seq<(string, Node)>)
    requires parent.Branch? && segments == parent.segments
    decreases parent, 0
  {
    seq(|segments|, i requires 0 <= i < |segments| =>
      assert segments[i] in parent.segments;
      (segments[i].0, Normalised(segments[i].1, nFrames, timeNormalize)))
  }

  /** Resampling keeps the categories and their order, and holds the library's result for each. */
  lemma NormaliseDataSpec(data: seq<(DataCategory, CategoryArray)>, nFrames: int, timeNormalize: Resampler)
    ensures var r := NormaliseData(data, nFrames, timeNormalize);
      && Keys(r) == Keys(data)
      && forall i :: 0 <= i < |data| ==> r[i].1 == timeNormalize(data[i].1, nFrames)
  {
  }

  /** Every dict in the tree has distinct keys, as Python dicts do. */
  predicate WellKeyed(n: Node) {
    match n
    case Leaf(t) => DistinctKeys(t.data)
    case Branch(segments) =>
      && DistinctKeys(segments)
      && forall i :: 0 <= i < |segments| ==> WellKeyed(segments[i].1)
  }

  /**
    `m` has the shape of `n`: the same keys at every level, the same
    categories in every trial, and no events in any trial of `m`.
  */
  predicate ShapedAs(m: Node, n: Node) {
    match n
    case Leaf(t) => m.Leaf? && Keys(m.trial.data) == Keys(t.data) && m.trial.events.None?
    case Branch(segments) =>
      && m.Branch?
      && Keys(m.segments) == Keys(segments)
      && forall i :: 0 <= i < |segments| ==> ShapedAs(m.segments[i].1, segments[i].1)
  }

  /**
    Normalising keeps the container's shape: the same keys in the same order
    at every level, the same categories in each trial, and every trial
    without events.
  */
  lemma {:induction false} NormaliseShape(n: Node, nFrames: int, timeNormalize: Resampler)
    ensures ShapedAs(Normalised(n, nFrames, timeNormalize), n)
    ensures WellKeyed(n) ==> WellKeyed(Normalised(n, nFrames, timeNormalize))
  {
    match n
    case Leaf(t) =>
      NormaliseDataSpec(t.data, nFrames, timeNormalize);
    case Branch(segments) =>
      var m := Normalised(n, nFrames, timeNormalize);
      assert m.segments == NormaliseSegments(n, segments, nFrames, timeNormalize);
      assert Keys(m.segments) == Keys(segments);
      forall i | 0 <= i < |segments|
        ensures ShapedAs(m.segments[i].1, segments[i].1)
        ensures WellKeyed(segments[i].1) ==> WellKeyed(m.segments[i].1)
      {
        assert m.segments[i].1 == Normalised(segments[i].1, nFrames, timeNormalize);
        assert segments[i] in segments;
        NormaliseShape(segments[i].1, nFrames, timeNormalize);
      }
  }

  /** Normalised cycles are still cycles: context -> cycle id -> trial. */
  lemma NormaliseTrialCycles(tc: TrialCycles, nFrames: int, timeNormalize: Resampler)
    ensures IsTrialCycles(Normalised(tc, nFrames, timeNormalize))
  {
    var m := Normalised(tc, nFrames, timeNormalize);
    NormaliseShape(tc, nFrames, timeNormalize);
    forall i | 0 <= i < |m.segments|
      ensures m.segments[i].1.Branch?
      ensures forall j :: 0 <= j < |m.segments[i].1.segments| ==> m.segments[i].1.segments[j].1.Leaf?
    {
      assert ShapedAs(m.segments[i].1, tc.segments[i].1);
      forall j | 0 <= j < |m.segments[i].1.segments|
        ensures m.segments[i].1.segments[j].1.Leaf?
      {
        assert |m.segments[i].1.segments| == |Keys(tc.segments[i].1.segments)|;
        assert ShapedAs(m.segments[i].1.segments[j].1, tc.segments[i].1.segments[j].1);
      }
    }
  }

  /** `LinearTimeNormaliser`: resamples to a fixed number of frames. */
  class LinearTimeNormaliser {
    const nFrames: int

    constructor Default()
      ensures nFrames == DefaultFrames
    {
      nFrames := DefaultFrames;
    }

    constructor (nFrames: int)
      ensures this.nFrames == nFrames
    {
      this.nFrames := nFrames;
    }

    /** `_normalise_trial`: a fresh Trial filled with each category resampled. */
    method NormaliseTrial(trial: Node, timeNormalize: Resampler) returns (r: Trial)
      requires trial.Leaf? && DistinctKeys(trial.trial.data)
      ensures fresh(r)
      ensures r.Value() == Normalised(trial, nFrames, timeNormalize).trial
    {
      var all := trial.trial.data;
      r := new Trial();
      var i := 0;
      while i < |all|
        invariant i <= |all|
        invariant r.data == NormaliseData(all[..i], nFrames, timeNormalize) && r.events == None
      {
        var category := all[i].0;
        GetAt(all, i);
        var data := Get(all, category).value;
        var normData := timeNormalize(data, nFrames);
        NormaliseDataSpec(all[..i], nFrames, timeNormalize);
        assert category !in Keys(all[..i]);
        r.AddData(category, normData);
        assert all[..i + 1] == all[..i] + [all[i]];
        i := i + 1;
      }
      assert all[..i] == all;
    }

    /** `_normalise_segmented_trial`: a fresh SegmentedTrial with each child normalised under its key. */
    method NormaliseSegmentedTrial(trial: Node, timeNormalize: Resampler) returns (r: SegmentedTrial)
      requires trial.Branch? && WellKeyed(trial)
      ensures fresh(r)
      ensures r.Value() == Normalised(trial, nFrames, timeNormalize)
      decreases trial, 0
    {
      var all := trial.segments;
      ghost var normalised := NormaliseSegments(trial, all, nFrames, timeNormalize);
      r := new SegmentedTrial();
      var i := 0;
      while i < |all|
        invariant i <= |all|
        invariant r.segments == normalised[..i]
      {
        var key := all[i].0;
        var segment := all[i].1;
        assert all[i] in trial.segments;
        var normSegment := Normalise(segment, timeNormalize);
        assert key !in Keys(r.segments) by {
          assert forall m :: 0 <= m < i ==> r.segments[m].0 == all[m].0;
        }
        r.AddSegment(key, normSegment);
        assert normalised[..i + 1] == normalised[..i] + [normalised[i]];
        i := i + 1;
      }
      assert normalised[..i] == normalised;
    }

    /** `normalise`: dispatches on the kind of container; the input is left as it is. */
    method Normalise(trial: Node, timeNormalize: Resampler) returns (r: Node)
      requires WellKeyed(trial)
      ensures r == Normalised(trial, nFrames, timeNormalize)
      decreases trial, 1
    {
      if trial.Branch? {
        var segments := NormaliseSegmentedTrial(trial, timeNormalize);
        r := segments.Value();
      } else {
        var t := NormaliseTrial(trial, timeNormalize);
        r := Leaf(t.Value());
      }
    }
  }
}
