/**
  The plan of `_to_hdf5` in gaitalytics/model.py: the three parallel lists of
  target files, payloads and group names that saving a trial or a container
  of segmented trials computes before anything is written.
*/
module Hdf5Plan {
  import opened Outcomes
  import opened Paths
  import opened Model

  /** What is written into one group: a category array or the event table. */
  datatype Payload = ArrayPayload(array: CategoryArray) | EventsPayload(table: EventTable)

  /**
    The three lists `_to_hdf5` returns, in the order it returns them: for a
    correct plan `first` holds the file paths and `third` the group names.
  */
  datatype Lists = Lists(first: seq<string>, data: seq<Payload>, third: seq<string>)

  const NoLists := Lists([], [], [])

  function Append(l: Lists, m: Lists): Lists {
    Lists(l.first + m.first, l.data + m.data, l.third + m.third)
  }

  /** The three lists name, for each dataset, its target and its group. */
  predicate SameLengths(l: Lists) {
    |l.first| == |l.data| == |l.third|
  }

  function Swap(l: Lists): Lists {
    Lists(l.third, l.data, l.first)
  }

  const EventsGroup := "events"

  /** `Trial._to_hdf5` turns a missing base group into the root. */
  function TrialBase(base: Option<string>): string {
    match base
    case None => ""
    case Some(g) => g
  }

  /** One plan entry per category, in the trial's order. */
  function CategoryEntries(cats: seq<(DataCategory, CategoryArray)>, path: Path, b: string): Lists {
    if cats == [] then NoLists
    else
      var last := cats[|cats| - 1];
      Append(CategoryEntries(cats[..|cats| - 1], path, b),
             Lists([path], [ArrayPayload(last.1)], [b + last.0.Value()]))
  }

  /** The plan of `Trial._to_hdf5`: categories first, then the events group if present. */
  function TrialPlan(t: TrialData, path: Path, base: Option<string>): Lists {
    var b := TrialBase(base);
    var l := CategoryEntries(t.data, path, b);
    match t.events
    case None => l
    case Some(e) => Append(l, Lists([path], [EventsPayload(e)], [b + EventsGroup]))
  }

  /**
    A trial's plan has one entry per category, named `<base><category>`, and
    one more, `<base>events`, exactly when the trial has events; every entry
    targets the same file.
  */
  lemma {:induction false} TrialPlanShape(t: TrialData, path: Path, base: Option<string>)
    ensures var l := TrialPlan(t, path, base);
      var n := |t.data| + (if t.events.Some? then 1 else 0);
      && |l.first| == n && |l.data| == n && |l.third| == n
      && (forall i :: 0 <= i < n ==> l.first[i] == path)
      && (forall i :: 0 <= i < |t.data| ==>
            l.third[i] == TrialBase(base) + t.data[i].0.Value() && l.data[i] == ArrayPayload(t.data[i].1))
      && (t.events.Some? ==>
            l.third[n - 1] == TrialBase(base) + EventsGroup && l.data[n - 1] == EventsPayload(t.events.value))
  {
    CategoryEntriesShape(t.data, path, TrialBase(base));
  }

  /** `l` holds one entry per category of `cats`, in order, all targeting `path`. */
  predicate EntriesShape(l: Lists, cats: seq<(DataCategory, CategoryArray)>, path: Path, b: string) {
    && |l.first| == |cats| && |l.data| == |cats| && |l.third| == |cats|
    && (forall i :: 0 <= i < |cats| ==> l.first[i] == path)
    && (forall i :: 0 <= i < |cats| ==> l.third[i] == b + cats[i].0.Value() && l.data[i] == ArrayPayload(cats[i].1))
  }

  lemma {:induction false} CategoryEntriesShape(cats: seq<(DataCategory, CategoryArray)>, path: Path, b: string)
    ensures EntriesShape(CategoryEntries(cats, path, b), cats, path, b)
  {
    if cats != [] {
      var prefix, last := cats[..|cats| - 1], cats[|cats| - 1];
      CategoryEntriesShape(prefix, path, b);
      EntriesShapeSnoc(CategoryEntries(prefix, path, b), prefix, last, path, b);
      assert prefix + [last] == cats;
    }
  }

  lemma EntriesShapeSnoc(l: Lists, cats: seq<(DataCategory, CategoryArray)>, last: (DataCategory, CategoryArray), path: Path, b: string)
    requires EntriesShape(l, cats, path, b)
    ensures EntriesShape(Append(l, Lists([path], [ArrayPayload(last.1)], [b + last.0.Value()])), cats + [last], path, b)
  {
  }

  /** `Trial._to_hdf5`, filling the three lists in a loop. */
  method TrialToHdf5(trial: Trial, path: Path, base: Option<string>)
    returns (paths: seq<string>, data: seq<Payload>, groups: seq<string>)
    ensures Lists(paths, data, groups) == TrialPlan(trial.Value(), path, base)
  {
    var b := TrialBase(base);
    paths, data, groups := [], [], [];
    var cats := trial.data;
    for i := 0 to |cats|
      invariant Lists(paths, data, groups) == CategoryEntries(cats[..i], path, b)
    {
      assert cats[..i + 1][..i] == cats[..i];
      groups := groups + [b + cats[i].0.Value()];
      data := data + [ArrayPayload(cats[i].1)];
      paths := paths + [path];
    }
    assert cats[..|cats|] == cats;
    if trial.events.Some? {
      groups := groups + [b + EventsGroup];
      data := data + [EventsPayload(trial.events.value)];
      paths := paths + [path];
    }
  }

  /** `SegmentedTrial._to_hdf5` appends "/" to a given base group. */
  function BranchBase(base: Option<string>): string {
    match base
    case None => ""
    case Some(g) => g + "/"
  }

  /**
    Where a child keyed `key` is saved: a trial goes to its own file
    `<path>/<key>.h5` under the same base group; a segmented trial stays in
    `path` and extends the base group with its key.
  */
  function ChildTarget(key: string, child: Node, path: Path, b: string): (Path, Option<string>) {
    if child.Leaf? then (WithSuffix(Join(path, key), ".h5"), Some(b)) else (path, Some(b + key))
  }

  /**
    `_to_hdf5` exactly as written: each `SegmentedTrial` level unpacks the
    child's `(paths, data, groups)` as `(groups, data, paths)` and so returns
    its lists swapped.
  */
  function PlanAsWritten(n: Node, path: Path, base: Option<string>): (r: Lists)
    ensures SameLengths(r)
    decreases n, 1
  {
    match n
    case Leaf(t) => TrialPlanShape(t, path, base); TrialPlan(t, path, base)
    case Branch(segs) => ChildrenAsWritten(n, |segs|, path, BranchBase(base))
  }

  /** The lists after the loop of `SegmentedTrial._to_hdf5` has visited the first `k` children. */
  function ChildrenAsWritten(n: Node, k: nat, path: Path, b: string): (r: Lists)
    requires n.Branch? && k <= |n.segments|
    ensures SameLengths(r)
    decreases n, 0, k
  {
    if k == 0 then NoLists
    else
      var acc := ChildrenAsWritten(n, k - 1, path, b);
      var (key, child) := n.segments[k - 1];
      var target := ChildTarget(key, child, path, b);
      var c := PlanAsWritten(child, target.0, target.1);
      Lists(acc.first + c.third, acc.data + c.data, acc.third + c.first)
  }

  /** The plan as intended: every level keeps paths with paths and groups with groups. */
  function Plan(n: Node, path: Path, base: Option<string>): (r: Lists)
    ensures SameLengths(r)
    decreases n, 1
  {
    match n
    case Leaf(t) => TrialPlanShape(t, path, base); TrialPlan(t, path, base)
    case Branch(segs) => ChildrenPlan(n, |segs|, path, BranchBase(base))
  }

  function ChildrenPlan(n: Node, k: nat, path: Path, b: string): (r: Lists)
    requires n.Branch? && k <= |n.segments|
    ensures SameLengths(r)
    decreases n, 0, k
  {
    if k == 0 then NoLists
    else
      var (key, child) := n.segments[k - 1];
      var target := ChildTarget(key, child, path, b);
      Append(ChildrenPlan(n, k - 1, path, b), Plan(child, target.0, target.1))
  }

  /** A container whose leaves all sit exactly `depth` levels down. */
  predicate UniformDepth(n: Node, depth: nat)
    decreases n
  {
    if depth == 0 then n.Leaf?
    else n.Branch? && forall i :: 0 <= i < |n.segments| ==> UniformDepth(n.segments[i].1, depth - 1)
  }

  /** The intended lists at even depth, and with files and groups exchanged at odd depth. */
  function Parity(intended: Lists, depth: nat): Lists {
    if depth % 2 == 0 then intended else Swap(intended)
  }

  /**
    The swap cancels out at even depth and survives at odd depth: the
    as-written plan is the intended one with its file and group lists
    exchanged exactly when the leaves sit an odd number of levels down.
  */
  lemma {:induction false} PlanAsWrittenParity(n: Node, depth: nat, path: Path, base: Option<string>)
    requires UniformDepth(n, depth)
    ensures PlanAsWritten(n, path, base) == Parity(Plan(n, path, base), depth)
    decreases n, 2
  {
    if depth > 0 {
      ChildrenParity(n, depth, path, BranchBase(base));
    }
  }

  /** After the first `k` children, the as-written lists are the intended ones in the parity of `depth`. */
  predicate ChildrenParityHolds(n: Node, k: nat, depth: nat, path: Path, b: string)
    requires n.Branch? && k <= |n.segments|
  {
    ChildrenAsWritten(n, k, path, b) == Parity(ChildrenPlan(n, k, path, b), depth)
  }

  /** The loop of `SegmentedTrial._to_hdf5` keeps the parity relation child after child. */
  lemma ChildrenParity(n: Node, depth: nat, path: Path, b: string)
    requires depth > 0 && UniformDepth(n, depth)
    ensures ChildrenParityHolds(n, |n.segments|, depth, path, b)
    decreases n, 1
  {
    assert Swap(NoLists) == NoLists;
    var j := 0;
    while j < |n.segments|
      invariant j <= |n.segments| && ChildrenParityHolds(n, j, depth, path, b)
    {
      j := j + 1;
      ChildrenParityStep(n, j, depth, path, b);
    }
  }

  /** Child `k - 1` keeps the relation between the two plans of the children before it. */
  lemma ChildrenParityStep(n: Node, k: nat, depth: nat, path: Path, b: string)
    requires depth > 0 && UniformDepth(n, depth) && 0 < k <= |n.segments|
    requires ChildrenParityHolds(n, k - 1, depth, path, b)
    ensures ChildrenParityHolds(n, k, depth, path, b)
    decreases n, 0
  {
    var key, child := n.segments[k - 1].0, n.segments[k - 1].1;
    var target := ChildTarget(key, child, path, b);
    PlanAsWrittenParity(child, depth - 1, target.0, target.1);
    ChildrenPlanStep(n, k, path, b);
    ChildrenAsWrittenStep(n, k, path, b);
    ParityAppend(ChildrenAsWritten(n, k - 1, path, b), PlanAsWritten(child, target.0, target.1),
      ChildrenPlan(n, k - 1, path, b), Plan(child, target.0, target.1), depth);
  }

  /** For the context -> cycle -> trial containers segmentation builds, the plan is right. */
  lemma TrialCyclesPlanAsIntended(tc: TrialCycles, path: Path, base: Option<string>)
    ensures PlanAsWritten(tc, path, base) == Plan(tc, path, base)
  {
    assert UniformDepth(tc, 2) by {
      forall i | 0 <= i < |tc.segments|
        ensures UniformDepth(tc.segments[i].1, 1)
      {
        var ctx := tc.segments[i].1;
        forall j | 0 <= j < |ctx.segments|
          ensures UniformDepth(ctx.segments[j].1, 0)
        {
          assert ctx.segments[j].1.Leaf?;
        }
      }
    }
    PlanAsWrittenParity(tc, 2, path, base);
  }

  /**
    A segmented trial holding trials directly (depth one) is planned with its
    lists exchanged: `{"0": trial with markers}` saved to "out" targets the
    file "markers" with group "out/0.h5".
  */
  lemma DepthOneSwapsLists(a: CategoryArray)
    ensures var n := Branch([("0", Leaf(TrialData([(Markers, a)], None)))]);
      && PlanAsWritten(n, "out", None) == Lists(["markers"], [ArrayPayload(a)], ["out/0.h5"])
      && Plan(n, "out", None) == Lists(["out/0.h5"], [ArrayPayload(a)], ["markers"])
  {
    var t := TrialData([(Markers, a)], None);
    var n := Branch([("0", Leaf(t))]);
    DepthOnePlan(a);
    assert UniformDepth(n, 1);
    PlanAsWrittenParity(n, 1, "out", None);
  }

  lemma DepthOnePlan(a: CategoryArray)
    ensures Plan(Branch([("0", Leaf(TrialData([(Markers, a)], None)))]), "out", None)
      == Lists(["out/0.h5"], [ArrayPayload(a)], ["markers"])
  {
    var t := TrialData([(Markers, a)], None);
    var n := Branch([("0", Leaf(t))]);
    CycleZeroTarget(t);
    MarkersOnlyPlan(a);
    var leaf := Lists(["out/0.h5"], [ArrayPayload(a)], ["markers"]);
    assert Plan(Leaf(t), "out/0.h5", Some("")) == leaf;
    ChildrenPlanStep(n, 1, "out", "");
    assert Append(ChildrenPlan(n, 0, "out", ""), leaf) == leaf;
  }

  lemma CycleZeroTarget(t: TrialData)
    ensures ChildTarget("0", Leaf(t), "out", "") == ("out/0.h5", Some(""))
  {
    CycleFile("out", "0");
    assert Join("out", "0") + ".h5" == "out/0.h5";
  }

  lemma MarkersOnlyPlan(a: CategoryArray)
    ensures TrialPlan(TrialData([(Markers, a)], None), "out/0.h5", Some(""))
      == Lists(["out/0.h5"], [ArrayPayload(a)], ["markers"])
  {
    var cats := [(Markers, a)];
    assert cats[..0] == [];
    assert CategoryEntries([], "out/0.h5", "") == NoLists;
    assert "" + Markers.Value() == "markers";
  }

  /** A plain key: non-empty, and neither a "/" nor a "." in it. */
  predicate PlainKey(k: string) {
    k != "" && '/' !in k && '.' !in k
  }

  /** Every key at every level of the container is plain, as the cycle ids and contexts of a segmentation are. */
  predicate PlainKeys(n: Node) {
    match n
    case Leaf(_) => true
    case Branch(segments) =>
      forall i :: 0 <= i < |segments| ==> PlainKey(segments[i].0) && PlainKeys(segments[i].1)
  }

  /** Every list entry `l.first[i]` names an ".h5" file and every `l.third[i]` is a dot-free group name. */
  predicate FilesAndGroups(l: Lists) {
    && |l.first| == |l.third|
    && forall i :: 0 <= i < |l.first| ==> Suffix(l.first[i]) == ".h5" && '.' !in l.third[i]
  }

  lemma FilesAndGroupsAppend(l: Lists, m: Lists)
    requires FilesAndGroups(l) && FilesAndGroups(m)
    ensures FilesAndGroups(Append(l, m))
  {
    var r := Append(l, m);
    forall i | 0 <= i < |r.first| ensures Suffix(r.first[i]) == ".h5" && '.' !in r.third[i] {
      if i >= |l.first| {
        assert r.first[i] == m.first[i - |l.first|] && r.third[i] == m.third[i - |l.first|];
      }
    }
  }

  lemma FilesAndGroupsJoin(whole: Lists, l: Lists, m: Lists)
    requires whole == Append(l, m)
    requires FilesAndGroups(l)
    requires FilesAndGroups(m)
    ensures FilesAndGroups(whole)
  {
    FilesAndGroupsAppend(l, m);
  }

  /**
    The intended plan keeps paths and groups apart: saving a container with
    plain keys into a folder, or a trial into an ".h5" file, plans only
    ".h5" files as targets and only dot-free names as groups.
  */
  lemma {:induction false} PlanTargetsFiles(n: Node, path: Path, base: Option<string>)
    requires PlainKeys(n)
    requires n.Leaf? ==> Suffix(path) == ".h5"
    requires base.Some? ==> '.' !in base.value
    ensures FilesAndGroups(Plan(n, path, base))
    decreases n, 1
  {
    match n
    case Leaf(t) =>
      TrialTargetsFile(t, path, base);
    case Branch(segs) =>
      ChildrenTargetFiles(n, |segs|, path, BranchBase(base));
  }

  lemma TrialTargetsFile(t: TrialData, path: Path, base: Option<string>)
    requires Suffix(path) == ".h5"
    requires base.Some? ==> '.' !in base.value
    ensures FilesAndGroups(TrialPlan(t, path, base))
  {
    var l := TrialPlan(t, path, base);
    var b := TrialBase(base);
    TrialPlanShape(t, path, base);
    forall i | 0 <= i < |l.first| ensures Suffix(l.first[i]) == ".h5" && '.' !in l.third[i] {
      assert l.first[i] == path;
      if i < |t.data| {
        GroupNameNoDot(t.data[i].0);
        assert l.third[i] == b + t.data[i].0.Value();
      } else {
        assert l.third[i] == b + EventsGroup;
      }
    }
  }

  lemma GroupNameNoDot(c: DataCategory)
    ensures '.' !in c.Value() && '.' !in EventsGroup
  {
    match c
    case Markers =>
    case Analogs =>
    case Analysis =>
  }

  lemma {:induction false} ChildrenTargetFiles(n: Node, k: nat, path: Path, b: string)
    requires n.Branch? && k <= |n.segments| && PlainKeys(n) && '.' !in b
    ensures FilesAndGroups(ChildrenPlan(n, k, path, b))
    decreases n, 0, k, 1, 0
  {
    if k > 0 {
      ChildrenTargetFiles(n, k - 1, path, b);
      ChildrenStepFiles(n, k, path, b);
    }
  }

  /** Adding child `k - 1` to the plan keeps its targets files and its groups dot-free. */
  lemma ChildrenStepFiles(n: Node, k: nat, path: Path, b: string)
    requires n.Branch? && 0 < k <= |n.segments| && PlainKeys(n) && '.' !in b
    requires FilesAndGroups(ChildrenPlan(n, k - 1, path, b))
    ensures FilesAndGroups(ChildrenPlan(n, k, path, b))
    decreases n, 0, k, 0
  {
    var prev := ChildrenPlan(n, k - 1, path, b);
    var target := ChildTarget(n.segments[k - 1].0, n.segments[k - 1].1, path, b);
    var last := Plan(n.segments[k - 1].1, target.0, target.1);
    assert FilesAndGroups(last) by {
      ChildTargetsFiles(n, k, path, b);
    }
    assert ChildrenPlan(n, k, path, b) == Append(prev, last) by {
      ChildrenPlanStep(n, k, path, b);
    }
    FilesAndGroupsJoin(ChildrenPlan(n, k, path, b), prev, last);
  }

  /** Child `k - 1` of a container with plain keys plans only ".h5" files and dot-free groups. */
  lemma ChildTargetsFiles(n: Node, k: nat, path: Path, b: string)
    requires n.Branch? && 0 < k <= |n.segments| && PlainKeys(n) && '.' !in b
    ensures var target := ChildTarget(n.segments[k - 1].0, n.segments[k - 1].1, path, b);
      FilesAndGroups(Plan(n.segments[k - 1].1, target.0, target.1))
    decreases n, 0, k, 0, 0
  {
    var key, child := n.segments[k - 1].0, n.segments[k - 1].1;
    assert PlainKey(key) && PlainKeys(child);
    var target := ChildTarget(key, child, path, b);
    if child.Leaf? {
      CycleFile(path, key);
    }
    PlanTargetsFiles(child, target.0, target.1);
  }

  /**
    The same depth-one container breaks the property as written: its first
    list names "markers", which is no ".h5" file, while the intended plan keeps it.
  */
  lemma DepthOneTargetsGroupName(a: CategoryArray)
    ensures var n := Branch([("0", Leaf(TrialData([(Markers, a)], None)))]);
      && PlainKeys(n)
      && !FilesAndGroups(PlanAsWritten(n, "out", None))
      && FilesAndGroups(Plan(n, "out", None))
  {
    var n := Branch([("0", Leaf(TrialData([(Markers, a)], None)))]);
    DepthOneNamesMarkers(a);
    assert PlainKeys(n);
    PlanTargetsFiles(n, "out", None);
  }

  /** The as-written plan of the depth-one container names the path "markers", which has no suffix. */
  lemma DepthOneNamesMarkers(a: CategoryArray)
    ensures var l := PlanAsWritten(Branch([("0", Leaf(TrialData([(Markers, a)], None)))]), "out", None);
      |l.first| == 1 && Suffix(l.first[0]) == ""
  {
    DepthOneSwapsLists(a);
    MarkersHasNoSuffix();
  }

  lemma MarkersHasNoSuffix()
    ensures Suffix("markers") == ""
  {
    var m := "markers";
    assert forall i :: 0 <= i < |m| ==> m[i] != '/' && m[i] != '.';
    PlainNameNoSuffix(m);
  }

  /** `SegmentedTrial._to_hdf5` as written, recursing into each child in a loop. */
  method NodeToHdf5(n: Node, path: Path, base: Option<string>)
    returns (paths: seq<string>, data: seq<Payload>, groups: seq<string>)
    ensures Lists(paths, data, groups) == PlanAsWritten(n, path, base)
    decreases n
  {
    match n
    case Leaf(t) =>
      var trial := new Trial();
      trial.data, trial.events := t.data, t.events;
      paths, data, groups := TrialToHdf5(trial, path, base);
    case Branch(segs) =>
      var b := BranchBase(base);
      paths, data, groups := [], [], [];
      for i := 0 to |segs|
        invariant Lists(paths, data, groups) == ChildrenAsWritten(n, i, path, b)
      {
        var (key, segment) := segs[i];
        var target := ChildTarget(key, segment, path, b);
        var segGroups, segData, segPath := NodeToHdf5(segment, target.0, target.1);
        groups := groups + segGroups;
        data := data + segData;
        paths := paths + segPath;
      }
  }

  /** The as-written lists of the first `k` children extend those of the first `k - 1` by child `k - 1`'s, swapped. */
  lemma ChildrenAsWrittenStep(n: Node, k: nat, path: Path, b: string)
    requires n.Branch? && 0 < k <= |n.segments|
    ensures var target := ChildTarget(n.segments[k - 1].0, n.segments[k - 1].1, path, b);
      var acc := ChildrenAsWritten(n, k - 1, path, b);
      var c := PlanAsWritten(n.segments[k - 1].1, target.0, target.1);
      ChildrenAsWritten(n, k, path, b) == Lists(acc.first + c.third, acc.data + c.data, acc.third + c.first)
  {
  }

  /** One step of the as-written loop keeps the parity relation, given it for the lists before and for the child. */
  lemma ParityAppend(acc: Lists, c: Lists, intended: Lists, child: Lists, depth: nat)
    requires depth > 0 && acc == Parity(intended, depth) && c == Parity(child, depth - 1)
    ensures Lists(acc.first + c.third, acc.data + c.data, acc.third + c.first) == Parity(Append(intended, child), depth)
  {
  }

  /** The plan of the first `k` children extends that of the first `k - 1` by child `k - 1`'s plan. */
  lemma ChildrenPlanStep(n: Node, k: nat, path: Path, b: string)
    requires n.Branch? && 0 < k <= |n.segments|
    ensures var target := ChildTarget(n.segments[k - 1].0, n.segments[k - 1].1, path, b);
      ChildrenPlan(n, k, path, b) == Append(ChildrenPlan(n, k - 1, path, b), Plan(n.segments[k - 1].1, target.0, target.1))
  {
  }
}
