/**
  Loading a folder of cycle files (`_load_segmented_trial_file` in
  gaitalytics/model.py): what the nested loops of `LoadFiles` build, stated
  as a lookup `tc[context][cycle_id]` over the files the glob lists.
*/
module Hdf5Folder {
  import opened Outcomes
  import opened Dict
  import opened Paths
  import opened Model
  import opened Hdf5Plan
  import opened Hdf5

  /** `tc[k][id]` of a loaded container, or `None` when either key is missing. */
  function Cycle(c: seq<(string, Node)>, k: string, id: string): Option<Node> {
    var context: Option<Node> := Get(c, k);
    match context
    case Some(Branch(cycles)) => Get(cycles, id)
    case _ => None
  }

  /** Every context holds trials under distinct cycle ids, and contexts are distinct. */
  predicate CycleContexts(c: seq<(string, Node)>) {
    && DistinctKeys(c)
    && forall e :: e in c ==>
         && e.1.Branch?
         && DistinctKeys(e.1.segments)
         && forall x :: x in e.1.segments ==> x.1.Leaf?
  }

  /** The trial `_load_trial` reads for context `k` of `file`, if it reads one. */
  function Loaded(entries: seq<(string, Payload)>, k: string, file: Path): Option<Node> {
    match LoadTrial(entries, k + "/", file)
    case Ok(t) => Some(Leaf(t))
    case Err(_) => None
  }

  /** The file holds context `k` and is named for cycle `id`. */
  predicate Holds(s: Store, f: Path, k: string, id: string) {
    k in RootKeys(Entries(s, f)) && CycleIdOf(f) == id
  }

  /**
    The last of `files` that holds context `k` and is named for cycle `id`:
    the file whose trial the loader keeps under `tc[k][id]`.
  */
  function LastFileOf(s: Store, files: seq<Path>, k: string, id: string): Option<Path>
    decreases |files|
  {
    if files == [] then None
    else match LastFileOf(s, files[1..], k, id)
      case Some(f) => Some(f)
      case None => if Holds(s, files[0], k, id) then Some(files[0]) else None
  }

  /**
    The last matching file is one of the listed files that matches, and no
    later file matches; there is none exactly when no listed file matches.
  */
  lemma {:induction false} LastFileOfSpec(s: Store, files: seq<Path>, k: string, id: string)
    ensures var r := LastFileOf(s, files, k, id);
      && (r.None? <==> forall f :: f in files ==> !Holds(s, f, k, id))
      && (r.Some? ==> exists i ::
            && 0 <= i < |files| && files[i] == r.value && Holds(s, files[i], k, id)
            && forall j :: i < j < |files| ==> !Holds(s, files[j], k, id))
    decreases |files|
  {
    if files != [] {
      var rest := files[1..];
      LastFileOfSpec(s, rest, k, id);
      assert forall f :: f in files <==> f == files[0] || f in rest;
      match LastFileOf(s, rest, k, id)
      case Some(f) =>
        var i :| 0 <= i < |rest| && rest[i] == f && Holds(s, rest[i], k, id)
          && forall j :: i < j < |rest| ==> !Holds(s, rest[j], k, id);
        assert files[i + 1] == f;
        forall j | i + 1 < j < |files| ensures !Holds(s, files[j], k, id) {
          assert files[j] == rest[j - 1];
        }
      case None =>
        if Holds(s, files[0], k, id) {
          forall j | 0 < j < |files| ensures !Holds(s, files[j], k, id) {
            assert files[j] in rest;
          }
        }
    }
  }

  /** Adding one loaded cycle sets `tc[k0][id0]` and keeps every other lookup. */
  lemma AddCycleLookup(c: seq<(string, Node)>, k0: string, id0: string, t: TrialData)
    requires CycleContexts(c)
    ensures var r := AddCycle(c, k0, id0, t);
      && CycleContexts(r)
      && forall k, id :: Cycle(r, k, id) == if k == k0 && id == id0 then Some(Leaf(t)) else Cycle(c, k, id)
  {
    AddCycleShape(c, k0, id0, t);
    forall k, id
      ensures Cycle(AddCycle(c, k0, id0, t), k, id) == if k == k0 && id == id0 then Some(Leaf(t)) else Cycle(c, k, id)
    {
      AddCycleAt(c, k0, id0, t, k, id);
    }
  }

  /** Adding one cycle keeps the lookup shape. */
  lemma AddCycleShape(c: seq<(string, Node)>, k0: string, id0: string, t: TrialData)
    requires CycleContexts(c)
    ensures CycleContexts(AddCycle(c, k0, id0, t))
  {
    var cycles := match Get(c, k0) case Some(n) => SegmentsOf(n) case None => [];
    GetEntry(c, k0);
    PutEntries(cycles, id0, Leaf(t));
    PutEntries(c, k0, Branch(Put(cycles, id0, Leaf(t))));
    assert DistinctKeys(cycles) && forall x :: x in cycles ==> x.1.Leaf?;
  }

  /** One lookup after adding a cycle. */
  lemma AddCycleAt(c: seq<(string, Node)>, k0: string, id0: string, t: TrialData, k: string, id: string)
    ensures Cycle(AddCycle(c, k0, id0, t), k, id) == if k == k0 && id == id0 then Some(Leaf(t)) else Cycle(c, k, id)
  {
    if k == k0 {
      var cycles := match Get(c, k0) case Some(n) => SegmentsOf(n) case None => [];
      assert Cycle(c, k0, id) == Get(cycles, id);
    }
  }

  /**
    The inner loop over one file's contexts: it succeeds exactly when every
    context's trial loads, and then sets `tc[k][id]` for each of them.
  */
  lemma {:induction false} LoadContextsLookup(
    c: seq<(string, Node)>, entries: seq<(string, Payload)>, keys: seq<string>, id: string, file: Path)
    requires CycleContexts(c)
    ensures var r := LoadContexts(c, entries, keys, id, file);
      && (r.Ok? <==> forall k :: k in keys ==> LoadTrial(entries, k + "/", file).Ok?)
      && (r.Ok? ==> CycleContexts(r.value))
      && (r.Ok? ==> forall k, id' ::
            Cycle(r.value, k, id') == if k in keys && id' == id then Loaded(entries, k, file) else Cycle(c, k, id'))
    decreases |keys|
  {
    if keys != [] {
      var k0 := keys[0];
      assert forall k :: k in keys <==> k == k0 || k in keys[1..];
      match LoadTrial(entries, k0 + "/", file)
      case Err(_) =>
      case Ok(t) =>
        var next := AddCycle(c, k0, id, t);
        AddCycleLookup(c, k0, id, t);
        LoadContextsLookup(next, entries, keys[1..], id, file);
    }
  }

  /**
    The outer loop over the listed files: it succeeds exactly when every
    context of every file loads, and then `tc[k][id]` is the trial of the
    last file that holds `k` and is named for `id`.
  */
  lemma {:induction false} LoadFilesLookup(c: seq<(string, Node)>, s: Store, files: seq<Path>)
    requires CycleContexts(c)
    ensures var r := LoadFiles(c, s, files);
      && (r.Ok? <==> forall f, k :: f in files && k in RootKeys(Entries(s, f)) ==>
            LoadTrial(Entries(s, f), k + "/", f).Ok?)
      && (r.Ok? ==> CycleContexts(r.value))
      && (r.Ok? ==> forall k, id ::
            Cycle(r.value, k, id)
            == match LastFileOf(s, files, k, id) case Some(f) => Loaded(Entries(s, f), k, f) case None => Cycle(c, k, id))
    decreases |files|
  {
    if files != [] {
      var f0 := files[0];
      var entries := Entries(s, f0);
      var keys := RootKeys(entries);
      assert forall f :: f in files <==> f == f0 || f in files[1..];
      LoadContextsLookup(c, entries, keys, CycleIdOf(f0), f0);
      match LoadContexts(c, entries, keys, CycleIdOf(f0), f0)
      case Err(_) =>
      case Ok(next) =>
        LoadFilesLookup(next, s, files[1..]);
    }
  }

  /** A lookup-shaped container is the context -> cycle -> trial shape segmentation builds. */
  lemma CycleContextsAreTrialCycles(c: seq<(string, Node)>)
    requires CycleContexts(c)
    ensures IsTrialCycles(Branch(c))
  {
    forall i | 0 <= i < |c|
      ensures c[i].1.Branch? && forall j :: 0 <= j < |c[i].1.segments| ==> c[i].1.segments[j].1.Leaf?
    {
      assert c[i] in c;
      forall j | 0 <= j < |c[i].1.segments| ensures c[i].1.segments[j].1.Leaf? {
        assert c[i].1.segments[j] in c[i].1.segments;
      }
    }
  }

  /**
    One lookup `tc[k][id]` after the loops: present exactly when some listed
    file holds `k` and is named for `id`, and then the trial of the last one.
  */
  lemma LookupAt(s: Store, listing: seq<Path>, c: seq<(string, Node)>, k: string, id: string)
    requires Cycle(c, k, id)
      == match LastFileOf(s, listing, k, id) case Some(f) => Loaded(Entries(s, f), k, f) case None => None
    requires forall f, k' :: f in listing && k' in RootKeys(Entries(s, f)) ==> LoadTrial(Entries(s, f), k' + "/", f).Ok?
    ensures Cycle(c, k, id).Some? <==> exists f :: f in listing && Holds(s, f, k, id)
    ensures forall f :: LastFileOf(s, listing, k, id) == Some(f) ==>
      && LoadTrial(Entries(s, f), k + "/", f).Ok?
      && Cycle(c, k, id) == Some(Leaf(LoadTrial(Entries(s, f), k + "/", f).value))
  {
    LastFileOfSpec(s, listing, k, id);
  }

  /**
    `trial_from_hdf5` on an existing folder succeeds exactly when every
    context of every listed file loads. The result is then a container of
    contexts of cycles, with distinct keys at both levels. It holds a trial
    under `tc[k][id]` exactly when some listed file named `<id>.h5` has a
    top-level group `k`, and that trial is what `_load_trial` reads from
    group `k` of the last such file.
  */
  lemma LoadFolder(s: Store, path: Path, listing: seq<Path>)
    ensures var r := LoadPath(s, path, listing);
      Exists(s, path) && !HasSuffix(path) ==>
        && (r.Ok? <==> forall f, k :: f in listing && k in RootKeys(Entries(s, f)) ==>
              LoadTrial(Entries(s, f), k + "/", f).Ok?)
        && (r.Ok? ==> IsTrialCycles(r.value) && CycleContexts(r.value.segments))
        && (r.Ok? ==> forall k, id ::
              Cycle(r.value.segments, k, id).Some? <==> exists f :: f in listing && Holds(s, f, k, id))
        && (r.Ok? ==> forall k, id, f :: LastFileOf(s, listing, k, id) == Some(f) ==>
              && LoadTrial(Entries(s, f), k + "/", f).Ok?
              && Cycle(r.value.segments, k, id) == Some(Leaf(LoadTrial(Entries(s, f), k + "/", f).value)))
  {
    if Exists(s, path) && !HasSuffix(path) {
      var none: seq<(string, Node)> := [];
      LoadFilesLookup(none, s, listing);
      var r := LoadFiles(none, s, listing);
      if r.Ok? {
        var c := r.value;
        CycleContextsAreTrialCycles(c);
        forall k, id
          ensures Cycle(c, k, id).Some? <==> exists f :: f in listing && Holds(s, f, k, id)
          ensures forall f :: LastFileOf(s, listing, k, id) == Some(f) ==>
            && LoadTrial(Entries(s, f), k + "/", f).Ok?
            && Cycle(c, k, id) == Some(Leaf(LoadTrial(Entries(s, f), k + "/", f).value))
        {
          LookupAt(s, listing, c, k, id);
        }
      }
    }
  }
}
