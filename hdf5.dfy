/**
  Saving and loading trials (the `to_hdf5` / `_to_hdf5` / `trial_from_hdf5`
  half of gaitalytics/model.py). Saving first computes a plan, three parallel
  lists of target files, payloads and group names, and then writes them into
  an abstract store of HDF5 files; loading walks the store back into trials.
*/
module Hdf5 {
  import opened Outcomes
  import opened Dict
  import opened Paths
  import opened Model
  import opened Hdf5Plan

  /** The HDF5 files on disk: folders, and per file its groups in the order written. */
  datatype Store = Store(dirs: set<Path>, files: map<Path, seq<(string, Payload)>>)

  /** `Path.exists()` */
  predicate Exists(s: Store, p: Path) {
    p in s.dirs || p in s.files
  }

  function Entries(s: Store, f: Path): seq<(string, Payload)> {
    if f in s.files then s.files[f] else []
  }

  /** Writing one dataset into group `g` of file `f` in append mode. */
  function WriteOne(s: Store, f: Path, g: string, d: Payload): Store {
    s.(files := s.files[f := Put(Entries(s, f), g, d)])
  }

  /** `xr.save_mfdataset(data, paths, groups=groups, mode="a")`, entry by entry. */
  function WriteAll(s: Store, paths: seq<string>, data: seq<Payload>, groups: seq<string>): Store
    requires |paths| == |data| == |groups|
  {
    if paths == [] then s
    else
      var k := |paths| - 1;
      WriteOne(WriteAll(s, paths[..k], data[..k], groups[..k]), paths[k], groups[k], data[k])
  }

  /** No later entry of the lists writes the same group of the same file. */
  predicate LastWriteOf(ps: seq<string>, gs: seq<string>, i: nat)
    requires |ps| == |gs| && i < |ps|
  {
    forall j :: i < j < |ps| ==> ps[j] != ps[i] || gs[j] != gs[i]
  }

  /** What `WriteAll` leaves, as `WriteEffect` describes it. */
  lemma {:induction false} WriteAllEffect(s: Store, ps: seq<string>, ds: seq<Payload>, gs: seq<string>)
    requires |ps| == |ds| == |gs|
    ensures WriteEffect(s, WriteAll(s, ps, ds, gs), ps, ds, gs)
    decreases |ps|
  {
    if ps != [] {
      var k: nat := |ps| - 1;
      var pk, dk, gk := ps[..k], ds[..k], gs[..k];
      assert ps == pk + [ps[k]] && ds == dk + [ds[k]] && gs == gk + [gs[k]];
      var prev := WriteAll(s, pk, dk, gk);
      assert WriteAll(s, ps, ds, gs) == WriteOne(prev, ps[k], gs[k], ds[k]);
      WriteAllEffect(s, pk, dk, gk);
      WriteEffectStep(s, prev, pk, dk, gk, ps[k], ds[k], gs[k]);
    }
  }

  /**
    `w` is what writing the lists into `s` leaves: the folders as they were,
    every file outside the path list as it was, and in each listed file the
    group of each last write to it holding that write's payload.
  */
  ghost predicate WriteEffect(s: Store, w: Store, ps: seq<string>, ds: seq<Payload>, gs: seq<string>)
    requires |ps| == |ds| == |gs|
  {
    && w.dirs == s.dirs
    && (forall f :: f !in ps ==> Entries(w, f) == Entries(s, f))
    && (forall i :: 0 <= i < |ps| && LastWriteOf(ps, gs, i) ==> Get(Entries(w, ps[i]), gs[i]) == Some(ds[i]))
  }

  /** One more write keeps that description, with the write appended to the lists. */
  lemma WriteEffectStep(
    s: Store, prev: Store, ps: seq<string>, ds: seq<Payload>, gs: seq<string>, f0: Path, d0: Payload, g0: string)
    requires |ps| == |ds| == |gs|
    requires WriteEffect(s, prev, ps, ds, gs)
    ensures WriteEffect(s, WriteOne(prev, f0, g0, d0), ps + [f0], ds + [d0], gs + [g0])
  {
    var w := WriteOne(prev, f0, g0, d0);
    var ps', ds', gs' := ps + [f0], ds + [d0], gs + [g0];
    var k := |ps|;
    forall i | 0 <= i < |ps'| && LastWriteOf(ps', gs', i) ensures Get(Entries(w, ps'[i]), gs'[i]) == Some(ds'[i]) {
      if i < k {
        assert ps'[i] == ps[i] && gs'[i] == gs[i] && ds'[i] == ds[i];
        assert LastWriteOf(ps, gs, i) by {
          forall j | i < j < k ensures ps[j] != ps[i] || gs[j] != gs[i] {
            assert ps'[j] == ps[j] && gs'[j] == gs[j];
          }
        }
        assert ps'[k] != ps'[i] || gs'[k] != gs'[i];
      }
    }
  }

  /** The field after the last dot of a name, as `name.split(".")[-1]`. */
  function LastDotField(name: string): string {
    match LastIndexOf(name, '.')
    case None => name
    case Some(i) => name[i + 1..]
  }

  /**
    `_to_hdf5` of a segmented trial creates the target folder as soon as its
    loop visits a child, unless the folder's name ends in "h5".
  */
  predicate PlanMakesDir(n: Node, path: Path) {
    n.Branch? && |n.segments| > 0 && LastDotField(Name(path)) != "h5"
  }

  /** The store after a save, and the exception it raised, if any. */
  datatype Saved = Saved(store: Store, raised: Option<Error>)

  /** `BaseTrial.to_hdf5`: the guards in order, then the plan, then the write. */
  function Save(s: Store, n: Node, path: Path, base: Option<string>): (r: Saved)
    ensures r.raised.Some? ==> r.store.files == s.files
    ensures Exists(s, path) ==> r == Saved(s, Some(Error(FileExistsError, "File " + path + " already exists.")))
    ensures !Exists(s, path) && n.Branch? && HasSuffix(path) ==>
      r == Saved(s, Some(Error(ValueError, "Cannot save a segmented trial in a single file.")))
    ensures !Exists(s, path) && n.Leaf? && !HasSuffix(path) ==>
      r == Saved(s, Some(Error(ValueError, "Cannot save a trial in folder")))
    ensures !Exists(s, path) && (n.Leaf? <==> HasSuffix(path)) && |PlanAsWritten(n, path, base).data| == 0 ==>
      r.raised == Some(Error(ValueError, "No data to save."))
    ensures r.raised.None? <==> !Exists(s, path) && (n.Leaf? <==> HasSuffix(path)) && |PlanAsWritten(n, path, base).data| > 0
    ensures r.raised.None? ==> var l := PlanAsWritten(n, path, base);
      && r.store.dirs == s.dirs + (if PlanMakesDir(n, path) then {path} else {})
      && (forall f :: f !in l.first ==> Entries(r.store, f) == Entries(s, f))
      && (forall i :: 0 <= i < |l.first| && LastWriteOf(l.first, l.third, i) ==>
            Get(Entries(r.store, l.first[i]), l.third[i]) == Some(l.data[i]))
  {
    if Exists(s, path) then
      Saved(s, Some(Error(FileExistsError, "File " + path + " already exists.")))
    else if n.Branch? && HasSuffix(path) then
      Saved(s, Some(Error(ValueError, "Cannot save a segmented trial in a single file.")))
    else if n.Leaf? && !HasSuffix(path) then
      Saved(s, Some(Error(ValueError, "Cannot save a trial in folder")))
    else
      var s1 := if PlanMakesDir(n, path) then s.(dirs := s.dirs + {path}) else s;
      var l := PlanAsWritten(n, path, base);
      if |l.data| > 0 then
        WriteAllEffect(s1, l.first, l.data, l.third);
        Saved(WriteAll(s1, l.first, l.data, l.third), None)
      else
        Saved(s1, Some(Error(ValueError, "No data to save.")))
  }


  /**
    Saving the depth-one container `{"0": trial with markers}` to the folder
    "out" asks the write, as the code stands, to put group "out/0.h5" into a
    file named "markers". In the store of this model, which takes any string
    as a group name, that write goes through: it leaves a file "markers"
    holding the group "out/0.h5", and no file "out/0.h5".
  */
  lemma SaveDepthOneWritesGroupName(a: CategoryArray)
    ensures var n := Branch([("0", Leaf(TrialData([(Markers, a)], None)))]);
      var saved := Save(Store({}, map[]), n, "out", None);
      && saved.raised == None
      && saved.store.files == map["markers" := [("out/0.h5", ArrayPayload(a))]]
      && "out/0.h5" !in saved.store.files
  {
    var n := Branch([("0", Leaf(TrialData([(Markers, a)], None)))]);
    var s: Store := Store({}, map[]);
    DepthOneSwapsLists(a);
    OutIsFolder();
    var l := PlanAsWritten(n, "out", None);
    assert l == Lists(["markers"], [ArrayPayload(a)], ["out/0.h5"]);
    assert PlanMakesDir(n, "out");
    var s1 := s.(dirs := s.dirs + {"out"});
    assert Save(s, n, "out", None) == Saved(WriteAll(s1, l.first, l.data, l.third), None);
    WriteSingle(s1, "markers", "out/0.h5", ArrayPayload(a));
  }

  /** "out" names a folder: no suffix, and no "h5" after a dot. */
  lemma OutIsFolder()
    ensures !HasSuffix("out") && LastDotField(Name("out")) != "h5"
  {
    LastIndexOfSpec("out", '/');
    LastIndexOfSpec("out", '.');
    NoDotNoSuffix("out");
  }

  /** Writing one entry into a store with no files creates exactly that file. */
  lemma WriteSingle(s: Store, f: Path, g: string, d: Payload)
    requires s.files == map[]
    ensures WriteAll(s, [f], [d], [g]).files == map[f := [(g, d)]]
  {
    assert [f][..0] == [] && [d][..0] == [] && [g][..0] == [];
    assert Put([], g, d) == [(g, d)];
  }

  /** `s` starts with `p`. */
  predicate IsPrefix(p: string, s: string) {
    |p| <= |s| && s[..|p|] == p
  }

  /** The first component of a group path: everything before the first "/". */
  function Head(g: string): (r: string)
    ensures '/' !in g ==> r == g
  {
    if g == [] || g[0] == '/' then [] else [g[0]] + Head(g[1..])
  }

  /**
    `name in group.keys()` for the group at `prefix` ("" is the file's root):
    some dataset was written at `<prefix><name>` or below it.
  */
  predicate InGroup(entries: seq<(string, Payload)>, prefix: string, name: string) {
    exists i :: 0 <= i < |entries| && IsPrefix(prefix, entries[i].0) && Head(entries[i].0[|prefix|..]) == name
  }

  /** `f.keys()` of a file's root, in the order the groups were first written. */
  function RootKeys(entries: seq<(string, Payload)>): (r: seq<string>)
    ensures Distinct(r)
    ensures forall k :: k in r ==> InGroup(entries, "", k)
    ensures forall k :: InGroup(entries, "", k) ==> k in r
  {
    if entries == [] then []
    else
      var prev := entries[..|entries| - 1];
      var r := RootKeys(prev);
      var h := Head(entries[|entries| - 1].0);
      RootGroupSnoc(entries);
      if h in r then r else r + [h]
  }

  /** A root group of a file is one of the groups written before the last entry, or the last entry's. */
  lemma RootGroupSnoc(entries: seq<(string, Payload)>)
    requires entries != []
    ensures var prev := entries[..|entries| - 1];
      forall k :: InGroup(entries, "", k) <==> InGroup(prev, "", k) || k == Head(entries[|entries| - 1].0)
  {
    var n := |entries|;
    var prev := entries[..n - 1];
    forall k | InGroup(prev, "", k) ensures InGroup(entries, "", k) {
      var i :| 0 <= i < |prev| && IsPrefix("", prev[i].0) && Head(prev[i].0[0..]) == k;
      assert entries[i] == prev[i];
    }
    assert IsPrefix("", entries[n - 1].0) && entries[n - 1].0[0..] == entries[n - 1].0;
    forall k | InGroup(entries, "", k) && k != Head(entries[n - 1].0) ensures InGroup(prev, "", k) {
      var i :| 0 <= i < n && IsPrefix("", entries[i].0) && Head(entries[i].0[0..]) == k;
      assert i < n - 1 && prev[i] == entries[i];
    }
  }

  /** `xr.load_dataarray(file, group=...)`: the group must hold an array. */
  function LoadArray(entries: seq<(string, Payload)>, group: string, file: Path): Result<CategoryArray> {
    var stored: Option<Payload> := Get(entries, group);
    match stored
    case Some(ArrayPayload(a)) => Ok(a)
    case _ => Err(Error(OSError, "Unable to read group " + group + " of " + file))
  }

  /** `xr.load_dataset(file, group=...).to_dataframe()`: the group must hold an event table. */
  function LoadEvents(entries: seq<(string, Payload)>, group: string, file: Path): Result<EventTable> {
    var stored: Option<Payload> := Get(entries, group);
    match stored
    case Some(EventsPayload(e)) => Ok(e)
    case _ => Err(Error(OSError, "Unable to read group " + group + " of " + file))
  }

  /** The loop of `_load_trial` over the categories `cats`, adding each one the group holds. */
  function LoadCategories(
    acc: seq<(DataCategory, CategoryArray)>, entries: seq<(string, Payload)>, prefix: string,
    file: Path, cats: seq<DataCategory>): Result<seq<(DataCategory, CategoryArray)>>
    decreases |cats|
  {
    if cats == [] then Ok(acc)
    else if InGroup(entries, prefix, cats[0].Value()) then
      var a :- LoadArray(entries, prefix + cats[0].Value(), file);
      LoadCategories(AddCategory(acc, cats[0], a), entries, prefix, file, cats[1..])
    else
      LoadCategories(acc, entries, prefix, file, cats[1..])
  }

  /** The group holds at least one category or an events group. */
  predicate Recognised(entries: seq<(string, Payload)>, prefix: string) {
    || (exists i :: 0 <= i < |AllCategories| && InGroup(entries, prefix, AllCategories[i].Value()))
    || InGroup(entries, prefix, EventsGroup)
  }

  /** The events part of `_load_trial`: read only when the group has an events group. */
  function LoadTrialEvents(entries: seq<(string, Payload)>, prefix: string, file: Path)
    : (r: Result<Option<EventTable>>)
    ensures r.Ok? ==> (r.value.Some? <==> InGroup(entries, prefix, EventsGroup))
  {
    if InGroup(entries, prefix, EventsGroup) then
      var e :- LoadEvents(entries, prefix + EventsGroup, file);
      Ok(Some(e))
    else
      Ok(None)
  }

  /** `_load_trial`: the categories in enum order, then the events, else the format error. */
  function LoadTrial(entries: seq<(string, Payload)>, prefix: string, file: Path): (r: Result<TrialData>)
    ensures r.Ok? ==> Recognised(entries, prefix)
    ensures r.Ok? ==> (r.value.events.Some? <==> InGroup(entries, prefix, EventsGroup))
    ensures !Recognised(entries, prefix) ==>
      r == Err(Error(ValueError, "File " + file + " does not have the correct format."))
  {
    var cats :- LoadCategories([], entries, prefix, file, AllCategories);
    var events :- LoadTrialEvents(entries, prefix, file);
    if !Recognised(entries, prefix) then
      Err(Error(ValueError, "File " + file + " does not have the correct format."))
    else
      Ok(TrialData(cats, events))
  }

  /** `_load_trial_file`: a path that is not an HDF5 file cannot be opened. */
  function LoadTrialFile(s: Store, path: Path): Result<TrialData> {
    if path in s.files then LoadTrial(s.files[path], "", path)
    else Err(Error(OSError, "Unable to open file " + path))
  }

  /** A file `<cycle>.h5` holds cycle `<cycle>`: `file.name.replace(".h5", "")`. */
  function CycleIdOf(file: Path): string {
    RemoveAll(Name(file), ".h5")
  }

  function SegmentsOf(n: Node): seq<(string, Node)> {
    if n.Branch? then n.segments else []
  }

  /** `context_segments.get_segment(context).add_segment(cycle_id, trial)`, creating the context if needed. */
  function AddCycle(contexts: seq<(string, Node)>, context: string, cycleId: string, t: TrialData)
    : (r: seq<(string, Node)>)
    ensures Get(r, context) == Some(Branch(Put(
      match Get(contexts, context) case Some(n) => SegmentsOf(n) case None => [], cycleId, Leaf(t))))
    ensures forall c :: c != context ==> Get(r, c) == Get(contexts, c)
  {
    var cycles := match Get(contexts, context) case Some(n) => SegmentsOf(n) case None => [];
    Put(contexts, context, Branch(Put(cycles, cycleId, Leaf(t))))
  }

  /** The inner loop of `_load_segmented_trial_file`: one file's contexts, in order. */
  function LoadContexts(
    contexts: seq<(string, Node)>, entries: seq<(string, Payload)>, keys: seq<string>,
    cycleId: string, file: Path): Result<seq<(string, Node)>>
    decreases |keys|
  {
    if keys == [] then Ok(contexts)
    else
      var t :- LoadTrial(entries, keys[0] + "/", file);
      LoadContexts(AddCycle(contexts, keys[0], cycleId, t), entries, keys[1..], cycleId, file)
  }

  /** The outer loop of `_load_segmented_trial_file`, over the files the glob lists. */
  function LoadFiles(contexts: seq<(string, Node)>, s: Store, files: seq<Path>): Result<seq<(string, Node)>>
    decreases |files|
  {
    if files == [] then Ok(contexts)
    else
      var entries := Entries(s, files[0]);
      var next :- LoadContexts(contexts, entries, RootKeys(entries), CycleIdOf(files[0]), files[0]);
      LoadFiles(next, s, files[1..])
  }

  /**
    `trial_from_hdf5`: a missing path raises FileNotFoundError, a path with a
    suffix is one trial, anything else is a folder of cycle files. `listing`
    is the order in which the recursive glob for `*.h5` yields the folder's files.
  */
  function LoadPath(s: Store, path: Path, listing: seq<Path>): (r: Result<Node>)
    ensures !Exists(s, path) ==> r == Err(Error(FileNotFoundError, "File " + path + " does not exist."))
    ensures r.Ok? ==> (r.value.Leaf? <==> HasSuffix(path))
  {
    if !Exists(s, path) then
      Err(Error(FileNotFoundError, "File " + path + " does not exist."))
    else if HasSuffix(path) then
      var t :- LoadTrialFile(s, path);
      Ok(Leaf(t))
    else
      var contexts :- LoadFiles([], s, listing);
      Ok(Branch(contexts))
  }

  /** `_load_segmented_trial_file`, filling a fresh `SegmentedTrial` in two nested loops. */
  method LoadSegmentedTrialFile(s: Store, listing: seq<Path>) returns (r: Result<Node>)
    ensures r == (match LoadFiles([], s, listing) case Ok(c) => Ok(Branch(c)) case Err(e) => Err(e))
  {
    var contextSegments := new SegmentedTrial();
    for i := 0 to |listing|
      invariant LoadFiles([], s, listing) == LoadFiles(contextSegments.segments, s, listing[i..])
    {
      var file := listing[i];
      var entries := Entries(s, file);
      var cycleId := CycleIdOf(file);
      var keys := RootKeys(entries);
      ghost var start := contextSegments.segments;
      assert LoadFiles(start, s, listing[i..])
        == (match LoadContexts(start, entries, keys, cycleId, file)
            case Ok(next) => LoadFiles(next, s, listing[i + 1..])
            case Err(e) => Err(e)) by {
        assert listing[i..][0] == file && listing[i..][1..] == listing[i + 1..];
      }
      for j := 0 to |keys|
        invariant LoadContexts(start, entries, keys, cycleId, file)
          == LoadContexts(contextSegments.segments, entries, keys[j..], cycleId, file)
      {
        var context := keys[j];
        ghost var before := contextSegments.segments;
        assert keys[j..][0] == context && keys[j..][1..] == keys[j + 1..];
        if !HasKey(contextSegments.segments, context) {
          contextSegments.AddSegment(context, Branch([]));
        }
        var trial := LoadTrial(entries, context + "/", file);
        if trial.Err? {
          return Err(trial.error);
        }
        var cycles := SegmentsOf(Get(contextSegments.segments, context).value);
        contextSegments.AddSegment(context, Branch(Put(cycles, cycleId, Leaf(trial.value))));
        PutTwice(before, context, Branch([]), Branch(Put(cycles, cycleId, Leaf(trial.value))));
        assert contextSegments.segments == AddCycle(before, context, cycleId, trial.value);
      }
    }
    return Ok(contextSegments.Value());
  }

  /** Group names paired with what is stored in them, in writing order. */
  function Zip(gs: seq<string>, ds: seq<Payload>): (r: seq<(string, Payload)>)
    requires |gs| == |ds|
    ensures |r| == |gs| && forall i :: 0 <= i < |r| ==> r[i] == (gs[i], ds[i])
  {
    seq(|gs|, i requires 0 <= i < |gs| => (gs[i], ds[i]))
  }

  /**
    Writing a plan whose entries all target one new file creates that file
    holding exactly the planned groups, in plan order.
  */
  lemma {:induction false} WriteNewFile(s: Store, p: Path, ps: seq<string>, ds: seq<Payload>, gs: seq<string>)
    requires |ps| == |ds| == |gs|
    requires forall i :: 0 <= i < |ps| ==> ps[i] == p
    requires Distinct(gs) && p !in s.files
    ensures var w := WriteAll(s, ps, ds, gs);
      |ps| > 0 ==> p in w.files && w.files[p] == Zip(gs, ds)
  {
    var k := |ps| - 1;
    if k >= 0 {
      var w := WriteAll(s, ps[..k], ds[..k], gs[..k]);
      if k > 0 {
        assert Distinct(gs[..k]) by {
          forall i, j | 0 <= i < j < k ensures gs[..k][i] != gs[..k][j] {
            assert gs[..k][i] == gs[i] && gs[..k][j] == gs[j];
          }
        }
        WriteNewFile(s, p, ps[..k], ds[..k], gs[..k]);
      } else {
        assert ps[..0] == [] && w == s;
      }
      ZipSnoc(gs, ds);
      WriteFresh(w, p, Zip(gs[..k], ds[..k]), gs[k], ds[k]);
    }
  }

  /** The groups written so far do not hold the last, distinct, group name. */
  lemma ZipSnoc(gs: seq<string>, ds: seq<Payload>)
    requires |gs| == |ds| > 0 && Distinct(gs)
    ensures var k := |gs| - 1;
      && !HasKey(Zip(gs[..k], ds[..k]), gs[k])
      && Zip(gs[..k], ds[..k]) + [(gs[k], ds[k])] == Zip(gs, ds)
  {
    var k := |gs| - 1;
    var prev := Zip(gs[..k], ds[..k]);
    forall j | 0 <= j < |prev| ensures prev[j].0 != gs[k] {
      assert prev[j].0 == gs[j];
    }
    assert prev + [(gs[k], ds[k])] == Zip(gs, ds);
  }

  /** Writing a new group into a file that holds `prev` (or does not exist when `prev` is empty) appends it. */
  lemma WriteFresh(w: Store, p: Path, prev: seq<(string, Payload)>, g: string, d: Payload)
    requires Entries(w, p) == prev && !HasKey(prev, g)
    ensures p in WriteOne(w, p, g, d).files && WriteOne(w, p, g, d).files[p] == prev + [(g, d)]
  {
  }

  /** The categories of `d` in the order of `cats`: the order `_load_trial` restores. */
  function EnumOrder(d: seq<(DataCategory, CategoryArray)>, cats: seq<DataCategory>)
    : seq<(DataCategory, CategoryArray)>
  {
    if cats == [] then [] else Found(d, cats[0]) + EnumOrder(d, cats[1..])
  }

  /** The entry of category `c` in `d`, if it has one. */
  function Found(d: seq<(DataCategory, CategoryArray)>, c: DataCategory): seq<(DataCategory, CategoryArray)> {
    match Get(d, c)
    case Some(a) => [(c, a)]
    case None => []
  }

  /** Reordering by the enum keeps every category of `d` listed in `cats` with its array. */
  lemma {:induction false} EnumOrderGet(d: seq<(DataCategory, CategoryArray)>, cats: seq<DataCategory>)
    requires Distinct(cats)
    ensures forall c :: Get(EnumOrder(d, cats), c) == (if c in cats then Get(d, c) else None)
  {
    if cats != [] {
      var c0 := cats[0];
      var rest := EnumOrder(d, cats[1..]);
      DistinctTail(cats);
      EnumOrderGet(d, cats[1..]);
      match Get(d, c0)
      case None =>
        assert [] + rest == rest;
      case Some(a) =>
        forall c ensures Get([(c0, a)] + rest, c) == (if c in cats then Get(d, c) else None) {
          GetCons((c0, a), rest, c);
        }
    }
  }

  /** The reordered categories are still distinct. */
  lemma {:induction false} EnumOrderDistinct(d: seq<(DataCategory, CategoryArray)>, cats: seq<DataCategory>)
    requires Distinct(cats)
    ensures DistinctKeys(EnumOrder(d, cats))
  {
    if cats != [] {
      var c0 := cats[0];
      var rest := EnumOrder(d, cats[1..]);
      DistinctTail(cats);
      EnumOrderDistinct(d, cats[1..]);
      EnumOrderGet(d, cats[1..]);
      assert Get(rest, c0) == None;
      match Get(d, c0)
      case None =>
        assert [] + rest == rest;
      case Some(a) =>
        DistinctKeysCons((c0, a), rest);
    }
  }

  /** The groups under `prefix` and the trial they came from agree on every category. */
  predicate MatchesCategories(entries: seq<(string, Payload)>, prefix: string, d: seq<(DataCategory, CategoryArray)>) {
    && (forall c: DataCategory :: InGroup(entries, prefix, c.Value()) <==> c in Keys(d))
    && (forall c :: c in Keys(d) ==> Get(entries, prefix + c.Value()) == Some(ArrayPayload(Get(d, c).value)))
  }

  /** One round of the category loop over a saved trial's groups. */
  lemma LoadCategoryStep(
    acc: seq<(DataCategory, CategoryArray)>, entries: seq<(string, Payload)>, prefix: string, file: Path,
    d: seq<(DataCategory, CategoryArray)>, cats: seq<DataCategory>)
    requires cats != [] && Distinct(cats)
    requires forall c :: c in cats ==> c !in Keys(acc)
    requires MatchesCategories(entries, prefix, d)
    ensures LoadCategories(acc, entries, prefix, file, cats)
      == LoadCategories(acc + Found(d, cats[0]), entries, prefix, file, cats[1..])
  {
    var c := cats[0];
    assert Get(acc, c).None?;
    assert InGroup(entries, prefix, c.Value()) <==> c in Keys(d);
    if c in Keys(d) {
      var a := Get(d, c).value;
      assert LoadArray(entries, prefix + c.Value(), file) == Ok(a);
      assert AddCategory(acc, c, a) == acc + Found(d, c);
    } else {
      assert acc + [] == acc;
    }
  }

  /** The categories still to load stay distinct and absent from what was loaded. */
  lemma LoadCategoryFresh(acc: seq<(DataCategory, CategoryArray)>, d: seq<(DataCategory, CategoryArray)>, cats: seq<DataCategory>)
    requires cats != [] && Distinct(cats)
    requires forall c :: c in cats ==> c !in Keys(acc)
    ensures Distinct(cats[1..]) && forall c :: c in cats[1..] ==> c !in Keys(acc + Found(d, cats[0]))
  {
    DistinctTail(cats);
    var r := acc + Found(d, cats[0]);
    forall c | c in cats[1..] ensures c !in Keys(r) {
      forall i | 0 <= i < |r| ensures r[i].0 != c {
        if i >= |acc| {
          assert r[i].0 == cats[0];
        } else {
          assert r[i].0 == Keys(acc)[i];
        }
      }
    }
  }

  /** `_load_trial`'s category loop over the groups a saved trial left, by the enum order. */
  lemma {:induction false} LoadCategoriesOfSaved(
    acc: seq<(DataCategory, CategoryArray)>, entries: seq<(string, Payload)>, prefix: string, file: Path,
    d: seq<(DataCategory, CategoryArray)>, cats: seq<DataCategory>)
    requires Distinct(cats)
    requires forall c :: c in cats ==> c !in Keys(acc)
    requires MatchesCategories(entries, prefix, d)
    ensures LoadCategories(acc, entries, prefix, file, cats) == Ok(acc + EnumOrder(d, cats))
    decreases |cats|
  {
    if cats == [] {
      assert acc + [] == acc;
    } else {
      var f := Found(d, cats[0]);
      LoadCategoryStep(acc, entries, prefix, file, d, cats);
      LoadCategoryFresh(acc, d, cats);
      LoadCategoriesOfSaved(acc + f, entries, prefix, file, d, cats[1..]);
      assert EnumOrder(d, cats) == f + EnumOrder(d, cats[1..]);
      AppendAssoc(acc, f, EnumOrder(d, cats[1..]));
    }
  }

  /** Category group names never contain "/" and never clash with the events group or each other. */
  lemma NamesAreFlat(c: DataCategory)
    ensures '/' !in c.Value() && '/' !in EventsGroup && c.Value() != EventsGroup
    ensures forall c': DataCategory :: c'.Value() == c.Value() ==> c' == c
  {
  }

  /** At the root of a file, a flat group name is found exactly when some entry has that name. */
  lemma InRootGroup(entries: seq<(string, Payload)>, name: string)
    requires forall i :: 0 <= i < |entries| ==> '/' !in entries[i].0
    ensures InGroup(entries, "", name) <==> name in Keys(entries)
  {
    if name in Keys(entries) {
      var i :| 0 <= i < |entries| && entries[i].0 == name;
      assert entries[i].0[0..] == entries[i].0;
    }
    if InGroup(entries, "", name) {
      var i :| 0 <= i < |entries| && IsPrefix("", entries[i].0) && Head(entries[i].0[0..]) == name;
      assert entries[i].0[0..] == entries[i].0;
      assert Keys(entries)[i] == name;
    }
  }

  /** The groups a trial saved at the root of its file leaves: its categories in order, then its events. */
  predicate HoldsTrial(entries: seq<(string, Payload)>, t: TrialData) {
    && |entries| == |t.data| + (if t.events.Some? then 1 else 0)
    && (forall i :: 0 <= i < |t.data| ==> entries[i] == (t.data[i].0.Value(), ArrayPayload(t.data[i].1)))
    && (t.events.Some? ==> entries[|t.data|] == (EventsGroup, EventsPayload(t.events.value)))
  }

  lemma TrialPlanHolds(t: TrialData, path: Path)
    ensures var l := TrialPlan(t, path, None); |l.third| == |l.data| && HoldsTrial(Zip(l.third, l.data), t)
  {
    TrialPlanShape(t, path, None);
    var l := TrialPlan(t, path, None);
    forall i | 0 <= i < |t.data| ensures l.third[i] == t.data[i].0.Value() {
      assert "" + t.data[i].0.Value() == t.data[i].0.Value();
    }
    assert "" + EventsGroup == EventsGroup;
  }

  lemma HeldGroupsFlat(entries: seq<(string, Payload)>, t: TrialData)
    requires HoldsTrial(entries, t) && DistinctKeys(t.data)
    ensures forall i :: 0 <= i < |entries| ==> '/' !in entries[i].0
    ensures DistinctKeys(entries)
  {
    forall i | 0 <= i < |entries| ensures '/' !in entries[i].0 {
      if i < |t.data| { NamesAreFlat(t.data[i].0); } else { NamesAreFlat(Markers); }
    }
    forall i, j | 0 <= i < j < |entries| ensures entries[i].0 != entries[j].0 {
      NamesAreFlat(t.data[i].0);
      if j < |t.data| {
        NamesAreFlat(t.data[j].0);
      }
    }
  }

  lemma HeldCategories(entries: seq<(string, Payload)>, t: TrialData)
    requires HoldsTrial(entries, t) && DistinctKeys(t.data)
    ensures MatchesCategories(entries, "", t.data)
  {
    HeldCategoryGroups(entries, t);
    HeldCategoryArrays(entries, t);
  }

  /** A saved trial's file has a root group for exactly the trial's categories. */
  lemma HeldCategoryGroups(entries: seq<(string, Payload)>, t: TrialData)
    requires HoldsTrial(entries, t) && DistinctKeys(t.data)
    ensures forall c: DataCategory :: InGroup(entries, "", c.Value()) <==> c in Keys(t.data)
  {
    HeldGroupsFlat(entries, t);
    var n := |t.data|;
    forall c: DataCategory ensures InGroup(entries, "", c.Value()) <==> c in Keys(t.data) {
      InRootGroup(entries, c.Value());
      NamesAreFlat(c);
      if c in Keys(t.data) {
        var i :| 0 <= i < n && t.data[i].0 == c;
        assert Keys(entries)[i] == c.Value();
      }
      if c.Value() in Keys(entries) {
        var i :| 0 <= i < |entries| && entries[i].0 == c.Value();
        assert i < n;
        assert Keys(t.data)[i] == c;
      }
    }
  }

  /** Each category group of a saved trial's file holds that category's array. */
  lemma HeldCategoryArrays(entries: seq<(string, Payload)>, t: TrialData)
    requires HoldsTrial(entries, t) && DistinctKeys(t.data)
    ensures forall c :: c in Keys(t.data) ==> Get(entries, "" + c.Value()) == Some(ArrayPayload(Get(t.data, c).value))
  {
    HeldGroupsFlat(entries, t);
    forall c | c in Keys(t.data)
      ensures Get(entries, "" + c.Value()) == Some(ArrayPayload(Get(t.data, c).value))
    {
      assert "" + c.Value() == c.Value();
      var i :| 0 <= i < |t.data| && t.data[i].0 == c;
      GetAt(entries, i);
      GetAt(t.data, i);
    }
  }

  lemma HeldEvents(entries: seq<(string, Payload)>, t: TrialData)
    requires HoldsTrial(entries, t) && DistinctKeys(t.data)
    ensures InGroup(entries, "", EventsGroup) <==> t.events.Some?
    ensures t.events.Some? ==> Get(entries, EventsGroup) == Some(EventsPayload(t.events.value))
  {
    HeldGroupsFlat(entries, t);
    InRootGroup(entries, EventsGroup);
    if t.events.Some? {
      GetAt(entries, |t.data|);
      assert Keys(entries)[|t.data|] == EventsGroup;
    } else {
      forall i | 0 <= i < |entries| ensures entries[i].0 != EventsGroup {
        NamesAreFlat(t.data[i].0);
      }
    }
  }

  /** A file holding a trial with data or events has the format `_load_trial` expects. */
  lemma HeldRecognised(entries: seq<(string, Payload)>, t: TrialData)
    requires HoldsTrial(entries, t) && DistinctKeys(t.data)
    requires t.data != [] || t.events.Some?
    ensures Recognised(entries, "")
  {
    HeldCategories(entries, t);
    HeldEvents(entries, t);
    if t.data != [] {
      var c := t.data[0].0;
      assert c in Keys(t.data);
      assert c == AllCategories[0] || c == AllCategories[1] || c == AllCategories[2];
    }
  }

  /** `_load_trial` succeeds when its category loop and its events read both do. */
  lemma LoadTrialOfParts(
    entries: seq<(string, Payload)>, prefix: string, file: Path,
    cats: seq<(DataCategory, CategoryArray)>, events: Option<EventTable>)
    requires LoadCategories([], entries, prefix, file, AllCategories) == Ok(cats)
    requires LoadTrialEvents(entries, prefix, file) == Ok(events)
    requires Recognised(entries, prefix)
    ensures LoadTrial(entries, prefix, file) == Ok(TrialData(cats, events))
  {
  }

  /** The events group of a saved trial reads back as its event table. */
  lemma LoadHeldEvents(entries: seq<(string, Payload)>, t: TrialData, file: Path)
    requires HoldsTrial(entries, t) && DistinctKeys(t.data)
    ensures LoadTrialEvents(entries, "", file) == Ok(t.events)
  {
    HeldEvents(entries, t);
    assert "" + EventsGroup == EventsGroup;
  }

  /** The category groups of a saved trial read back in enum order. */
  lemma LoadHeldCategories(entries: seq<(string, Payload)>, t: TrialData, file: Path)
    requires HoldsTrial(entries, t) && DistinctKeys(t.data)
    ensures LoadCategories([], entries, "", file, AllCategories) == Ok(EnumOrder(t.data, AllCategories))
  {
    HeldCategories(entries, t);
    LoadMatchedCategories(entries, "", t.data, file);
  }

  /** Groups that match a trial's categories under `prefix` load as those categories, in enum order. */
  lemma LoadMatchedCategories(entries: seq<(string, Payload)>, prefix: string, d: seq<(DataCategory, CategoryArray)>, file: Path)
    requires MatchesCategories(entries, prefix, d)
    ensures LoadCategories([], entries, prefix, file, AllCategories) == Ok(EnumOrder(d, AllCategories))
  {
    AllCategoriesListed();
    var none: seq<(DataCategory, CategoryArray)> := [];
    assert Keys(none) == [];
    LoadCategoriesOfSaved(none, entries, prefix, file, d, AllCategories);
    assert none + EnumOrder(d, AllCategories) == EnumOrder(d, AllCategories);
  }

  /** Loading the root of a file holding a trial gives the trial back, categories in enum order. */
  lemma LoadHeldTrial(entries: seq<(string, Payload)>, t: TrialData, file: Path)
    requires HoldsTrial(entries, t) && DistinctKeys(t.data)
    requires t.data != [] || t.events.Some?
    ensures LoadTrial(entries, "", file) == Ok(TrialData(EnumOrder(t.data, AllCategories), t.events))
  {
    LoadHeldCategories(entries, t, file);
    LoadHeldEvents(entries, t, file);
    HeldRecognised(entries, t);
    LoadTrialOfParts(entries, "", file, EnumOrder(t.data, AllCategories), t.events);
  }

  /** `trial_from_hdf5` on an existing path with a suffix loads that one file. */
  lemma LoadPathOfFile(s: Store, path: Path, listing: seq<Path>)
    requires Exists(s, path) && HasSuffix(path)
    ensures LoadPath(s, path, listing)
      == match LoadTrialFile(s, path) case Ok(t) => Ok(Leaf(t)) case Err(e) => Err(e)
  {
  }

  /** A trial with data saved to a new ".h5" path is written as its plan. */
  lemma SaveNewTrialFile(s: Store, t: TrialData, path: Path)
    requires !Exists(s, path) && HasSuffix(path)
    requires t.data != [] || t.events.Some?
    ensures var l := TrialPlan(t, path, None);
      && |l.first| == |l.data| == |l.third|
      && Save(s, Leaf(t), path, None) == Saved(WriteAll(s, l.first, l.data, l.third), None)
  {
    TrialPlanShape(t, path, None);
  }

  /**
    Saving a trial to a new ".h5" file and loading that path back gives the
    same trial, with its categories listed in enum order.
  */
  lemma SaveLoadTrial(s: Store, t: TrialData, path: Path, listing: seq<Path>)
    requires !Exists(s, path) && HasSuffix(path)
    requires DistinctKeys(t.data)
    requires t.data != [] || t.events.Some?
    ensures var saved := Save(s, Leaf(t), path, None);
      && saved.raised == None
      && LoadPath(saved.store, path, listing) == Ok(Leaf(TrialData(EnumOrder(t.data, AllCategories), t.events)))
    ensures forall c :: Get(EnumOrder(t.data, AllCategories), c) == Get(t.data, c)
  {
    var l := TrialPlan(t, path, None);
    SavedTrialFile(s, t, path);
    TrialPlanHolds(t, path);
    LoadHeldTrial(Zip(l.third, l.data), t, path);
    LoadPathOfFile(Save(s, Leaf(t), path, None).store, path, listing);
    AllCategoriesListed();
    EnumOrderGet(t.data, AllCategories);
  }

  /** Saving the trial creates the file `path` holding the plan's groups, which loading reads back. */
  lemma SavedTrialFile(s: Store, t: TrialData, path: Path)
    requires !Exists(s, path) && HasSuffix(path)
    requires DistinctKeys(t.data)
    requires t.data != [] || t.events.Some?
    ensures var l := TrialPlan(t, path, None);
      var saved := Save(s, Leaf(t), path, None);
      && |l.third| == |l.data|
      && saved.raised == None && Exists(saved.store, path)
      && LoadTrialFile(saved.store, path) == LoadTrial(Zip(l.third, l.data), "", path)
  {
    var l := TrialPlan(t, path, None);
    SaveNewTrialFile(s, t, path);
    TrialPlanShape(t, path, None);
    TrialPlanHolds(t, path);
    var entries := Zip(l.third, l.data);
    HeldGroupsFlat(entries, t);
    assert Distinct(l.third) by {
      forall i, j | 0 <= i < j < |l.third| ensures l.third[i] != l.third[j] {
        assert entries[i].0 != entries[j].0;
      }
    }
    WriteNewFile(s, path, l.first, l.data, l.third);
  }
}
