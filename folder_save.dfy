/**
  Saving a container of contexts of cycles into a folder and loading the
  folder back (`to_hdf5`, then `trial_from_hdf5`, in gaitalytics/model.py).
  Each cycle id gets one file `<folder>/<id>.h5`; in it, each context that
  has that cycle is a top-level group holding the cycle's trial.
*/
module Hdf5FolderSave {
  import opened Outcomes
  import opened Dict
  import opened Paths
  import opened Model
  import opened Hdf5Plan
  import opened Hdf5
  import opened Hdf5Folder

  /** The file `(path / id).with_suffix(".h5")` a cycle's trial is saved to. */
  function CycleFileOf(path: Path, id: string): Path {
    WithSuffix(Join(path, id), ".h5")
  }

  /** The (file, group, dataset) triples of parallel lists, in order. */
  function Triples(ps: seq<string>, ds: seq<Payload>, gs: seq<string>): (r: seq<(Path, string, Payload)>)
    requires |ps| == |ds| == |gs|
    ensures |r| == |ps|
    ensures forall i :: 0 <= i < |r| ==> r[i] == (ps[i], gs[i], ds[i])
  {
    seq(|ps|, i requires 0 <= i < |ps| => (ps[i], gs[i], ds[i]))
  }

  /** What a plan writes: for each entry, its file, its group and its dataset. */
  function Writes(l: Lists): seq<(Path, string, Payload)>
    requires SameLengths(l)
  {
    Triples(l.first, l.data, l.third)
  }

  lemma WritesAppend(l: Lists, m: Lists)
    requires SameLengths(l) && SameLengths(m)
    ensures Writes(Append(l, m)) == Writes(l) + Writes(m)
  {
    var r := Append(l, m);
    assert forall i :: |l.first| <= i < |r.first| ==> r.first[i] == m.first[i - |l.first|];
  }

  /** A trial writes `d` under `name`: one of its category arrays, or its event table. */
  predicate NamedEntry(t: TrialData, name: string, d: Payload) {
    || (exists i :: 0 <= i < |t.data| && name == t.data[i].0.Value() && d == ArrayPayload(t.data[i].1))
    || (t.events.Some? && name == EventsGroup && d == EventsPayload(t.events.value))
  }

  /** A trial saved under base group `p` writes `d` into group `g`. */
  predicate TrialEntry(t: TrialData, p: string, g: string, d: Payload) {
    IsPrefix(p, g) && NamedEntry(t, g[|p|..], d)
  }

  /** The lookup found a trial, and it writes `d` into group `g` under base group `p`. */
  predicate SavedIn(n: Option<Node>, p: string, g: string, d: Payload) {
    n.Some? && n.value.Leaf? && TrialEntry(n.value.trial, p, g, d)
  }

  /** The trial of cycle `id` in context `k` is saved with `d` in group `g` of the cycle's file. */
  predicate Saves(c: seq<(string, Node)>, id: string, k: string, g: string, d: Payload) {
    SavedIn(Cycle(c, k, id), k + "/", g, d)
  }

  /** The names a trial writes are flat: category names and "events". */
  lemma NamedEntryFlat(t: TrialData, name: string, d: Payload)
    requires NamedEntry(t, name, d)
    ensures '/' !in name
  {
    if exists i :: 0 <= i < |t.data| && name == t.data[i].0.Value() && d == ArrayPayload(t.data[i].1) {
      var i :| 0 <= i < |t.data| && name == t.data[i].0.Value() && d == ArrayPayload(t.data[i].1);
      NamesAreFlat(t.data[i].0);
    } else {
      NamesAreFlat(Markers);
    }
  }

  /** Under a category's name a trial writes exactly that category's array. */
  lemma CategoryEntry(t: TrialData, c: DataCategory, d: Payload)
    requires DistinctKeys(t.data)
    ensures NamedEntry(t, c.Value(), d) <==> c in Keys(t.data) && d == ArrayPayload(Get(t.data, c).value)
  {
    NamesAreFlat(c);
    if exists i :: 0 <= i < |t.data| && c.Value() == t.data[i].0.Value() && d == ArrayPayload(t.data[i].1) {
      var i :| 0 <= i < |t.data| && c.Value() == t.data[i].0.Value() && d == ArrayPayload(t.data[i].1);
      assert t.data[i].0 == c;
      assert Keys(t.data)[i] == c;
      GetAt(t.data, i);
    }
    if c in Keys(t.data) {
      var i :| 0 <= i < |t.data| && Keys(t.data)[i] == c;
      GetAt(t.data, i);
    }
  }

  /** Under "events" a trial writes exactly its event table. */
  lemma EventsEntry(t: TrialData, d: Payload)
    ensures NamedEntry(t, EventsGroup, d) <==> t.events.Some? && d == EventsPayload(t.events.value)
  {
    if exists i :: 0 <= i < |t.data| && EventsGroup == t.data[i].0.Value() && d == ArrayPayload(t.data[i].1) {
      var i :| 0 <= i < |t.data| && EventsGroup == t.data[i].0.Value() && d == ArrayPayload(t.data[i].1);
      NamesAreFlat(t.data[i].0);
    }
  }

  /** A group below `k/` has `k` as its first component. */
  lemma {:induction false} HeadOfGroup(k: string, rest: string)
    requires '/' !in k
    ensures Head(k + "/" + rest) == k
    decreases |k|
  {
    var g := k + "/" + rest;
    if k == [] {
      assert g[0] == '/';
    } else {
      assert g[0] == k[0];
      assert g[1..] == k[1..] + "/" + rest;
      HeadOfGroup(k[1..], rest);
    }
  }

  lemma PrefixHead(k: string, g: string)
    requires '/' !in k && IsPrefix(k + "/", g)
    ensures Head(g) == k
  {
    var p := k + "/";
    assert g == k + "/" + g[|p|..];
    HeadOfGroup(k, g[|p|..]);
  }

  /** Two cycle files of one folder are the same file exactly when their ids are the same. */
  lemma SameCycleFile(path: Path, id: string, key: string)
    requires PlainKey(id) && PlainKey(key)
    ensures CycleFileOf(path, id) == CycleFileOf(path, key) <==> id == key
  {
    CycleFile(path, id);
    CycleFile(path, key);
    if CycleFileOf(path, id) == CycleFileOf(path, key) {
      var a, b := id + ".h5", key + ".h5";
      assert a == b;
      assert id == a[..|a| - 3] && key == b[..|b| - 3];
    }
  }

  /** A cycle file is named for its cycle. */
  lemma CycleIdOfCycleFile(path: Path, id: string)
    requires PlainKey(id)
    ensures CycleIdOf(CycleFileOf(path, id)) == id
  {
    CycleFile(path, id);
    RemoveH5(id);
  }

  /** A trial's plan writes exactly its entries, all into its own file. */
  lemma TrialWrites(t: TrialData, file: Path, p: string, x: (Path, string, Payload))
    ensures x in Writes(Plan(Leaf(t), file, Some(p))) <==> x.0 == file && TrialEntry(t, p, x.1, x.2)
  {
    TrialPlanShape(t, file, Some(p));
    assert TrialBase(Some(p)) == p;
    if x in Writes(Plan(Leaf(t), file, Some(p))) {
      TrialWritesOnly(t, file, p, x);
    }
    if x.0 == file && TrialEntry(t, p, x.1, x.2) {
      TrialWritesAll(t, file, p, x);
    }
  }

  lemma TrialWritesOnly(t: TrialData, file: Path, p: string, x: (Path, string, Payload))
    requires x in Writes(Plan(Leaf(t), file, Some(p)))
    ensures x.0 == file && TrialEntry(t, p, x.1, x.2)
  {
    var w := Writes(Plan(Leaf(t), file, Some(p)));
    TrialPlanShape(t, file, Some(p));
    assert TrialBase(Some(p)) == p;
    var i :| 0 <= i < |w| && w[i] == x;
    if i < |t.data| {
      assert x.1 == p + t.data[i].0.Value();
      assert x.1[|p|..] == t.data[i].0.Value();
    } else {
      assert x.1 == p + EventsGroup;
      assert x.1[|p|..] == EventsGroup;
    }
  }

  lemma TrialWritesAll(t: TrialData, file: Path, p: string, x: (Path, string, Payload))
    requires x.0 == file && TrialEntry(t, p, x.1, x.2)
    ensures x in Writes(Plan(Leaf(t), file, Some(p)))
  {
    var w := Writes(Plan(Leaf(t), file, Some(p)));
    var n := |t.data|;
    TrialPlanShape(t, file, Some(p));
    assert TrialBase(Some(p)) == p;
    var name := x.1[|p|..];
    assert x.1 == p + name;
    if exists i :: 0 <= i < n && name == t.data[i].0.Value() && x.2 == ArrayPayload(t.data[i].1) {
      var i :| 0 <= i < n && name == t.data[i].0.Value() && x.2 == ArrayPayload(t.data[i].1);
      assert w[i] == x;
    } else {
      assert w[n] == x;
    }
  }

  /** Every child of `n` is a trial under a plain key. */
  predicate PlainLeaves(n: Node) {
    n.Branch? && forall j :: 0 <= j < |n.segments| ==> n.segments[j].1.Leaf? && PlainKey(n.segments[j].0)
  }

  /** The last key of a prefix of a dict with distinct keys is not among the keys before it. */
  lemma LastKeyFresh<V>(c: seq<(string, V)>, m: nat)
    requires DistinctKeys(c) && 0 < m <= |c|
    ensures c[..m] == c[..m - 1] + [c[m - 1]]
    ensures c[m - 1].0 !in Keys(c[..m - 1])
  {
    assert c[..m] == c[..m - 1] + [c[m - 1]];
    var pre, last := c[..m - 1], c[m - 1];
    forall j | 0 <= j < |pre| ensures Keys(pre)[j] != last.0 {
      assert c[j].0 != last.0;
    }
  }

  /**
    The plan of the first `m` cycles of a context writes into the file of
    cycle `id` exactly the entries of that cycle's trial.
  */
  lemma {:induction false} CyclesWrites(ctx: Node, m: nat, path: Path, b: string, id: string, g: string, d: Payload)
    requires PlainLeaves(ctx) && DistinctKeys(ctx.segments) && m <= |ctx.segments| && PlainKey(id)
    ensures (CycleFileOf(path, id), g, d) in Writes(ChildrenPlan(ctx, m, path, b))
      <==> SavedIn(Get(ctx.segments[..m], id), b, g, d)
    decreases m
  {
    if m > 0 {
      var k: nat := m - 1;
      CyclesWrites(ctx, k, path, b, id, g, d);
      CyclesStep(ctx, m, path, b, id, g, d);
    }
  }

  lemma CyclesStep(ctx: Node, m: nat, path: Path, b: string, id: string, g: string, d: Payload)
    requires PlainLeaves(ctx) && DistinctKeys(ctx.segments) && 0 < m <= |ctx.segments| && PlainKey(id)
    requires (CycleFileOf(path, id), g, d) in Writes(ChildrenPlan(ctx, m - 1, path, b))
      <==> SavedIn(Get(ctx.segments[..m - 1], id), b, g, d)
    ensures (CycleFileOf(path, id), g, d) in Writes(ChildrenPlan(ctx, m, path, b))
      <==> SavedIn(Get(ctx.segments[..m], id), b, g, d)
  {
    var key, child := ctx.segments[m - 1].0, ctx.segments[m - 1].1;
    var file := CycleFileOf(path, key);
    var x := (CycleFileOf(path, id), g, d);
    assert ChildTarget(key, child, path, b) == (file, Some(b));
    ChildrenPlanStep(ctx, m, path, b);
    WritesAppend(ChildrenPlan(ctx, m - 1, path, b), Plan(child, file, Some(b)));
    TrialWrites(child.trial, file, b, x);
    SameCycleFile(path, id, key);
    LastKeyFresh(ctx.segments, m);
    GetSnoc(ctx.segments[..m - 1], ctx.segments[m - 1], id);
  }

  /**
    The plan of the first `m` contexts writes into the file of cycle `id`
    exactly the entries of the trials those contexts hold under `id`, each
    under its context's group.
  */
  lemma {:induction false} ContextsWrites(tc: Node, m: nat, path: Path, id: string, g: string, d: Payload)
    requires IsTrialCycles(tc) && CycleContexts(tc.segments) && PlainKeys(tc) && PlainKey(id)
    requires m <= |tc.segments|
    ensures (CycleFileOf(path, id), g, d) in Writes(ChildrenPlan(tc, m, path, ""))
      <==> Saves(tc.segments[..m], id, Head(g), g, d)
    decreases m
  {
    if m > 0 {
      var k: nat := m - 1;
      ContextsWrites(tc, k, path, id, g, d);
      ContextsStep(tc, m, path, id, g, d);
    }
  }

  lemma ContextsStep(tc: Node, m: nat, path: Path, id: string, g: string, d: Payload)
    requires IsTrialCycles(tc) && CycleContexts(tc.segments) && PlainKeys(tc) && PlainKey(id)
    requires 0 < m <= |tc.segments|
    requires (CycleFileOf(path, id), g, d) in Writes(ChildrenPlan(tc, m - 1, path, ""))
      <==> Saves(tc.segments[..m - 1], id, Head(g), g, d)
    ensures (CycleFileOf(path, id), g, d) in Writes(ChildrenPlan(tc, m, path, ""))
      <==> Saves(tc.segments[..m], id, Head(g), g, d)
  {
    var key, ctx := tc.segments[m - 1].0, tc.segments[m - 1].1;
    ChildrenPlanStep(tc, m, path, "");
    assert "" + key == key;
    assert ChildTarget(key, ctx, path, "") == (path, Some(key));
    WritesAppend(ChildrenPlan(tc, m - 1, path, ""), Plan(ctx, path, Some(key)));
    ContextWrites(tc, m, path, id, g, d);
    ContextLookup(tc, m, id, Head(g), g, d);
  }

  /** What the plan of one context writes into the file of cycle `id`. */
  lemma ContextWrites(tc: Node, m: nat, path: Path, id: string, g: string, d: Payload)
    requires IsTrialCycles(tc) && CycleContexts(tc.segments) && PlainKeys(tc) && PlainKey(id)
    requires 0 < m <= |tc.segments|
    ensures var key, ctx := tc.segments[m - 1].0, tc.segments[m - 1].1;
      (CycleFileOf(path, id), g, d) in Writes(Plan(ctx, path, Some(key)))
      <==> Head(g) == key && SavedIn(Get(ctx.segments, id), key + "/", g, d)
  {
    var key, ctx := tc.segments[m - 1].0, tc.segments[m - 1].1;
    var n := |ctx.segments|;
    assert tc.segments[m - 1] in tc.segments;
    assert PlainKey(key) && PlainKeys(ctx);
    assert PlainLeaves(ctx) && DistinctKeys(ctx.segments);
    assert Plan(ctx, path, Some(key)) == ChildrenPlan(ctx, n, path, key + "/");
    CyclesWrites(ctx, n, path, key + "/", id, g, d);
    assert ctx.segments[..n] == ctx.segments;
    if SavedIn(Get(ctx.segments, id), key + "/", g, d) {
      PrefixHead(key, g);
    }
  }

  /** Looking up `tc[h][id]` in the first `m` contexts: the last one decides for its own key. */
  lemma ContextLookup(tc: Node, m: nat, id: string, h: string, g: string, d: Payload)
    requires IsTrialCycles(tc) && CycleContexts(tc.segments) && 0 < m <= |tc.segments|
    ensures var key, ctx := tc.segments[m - 1].0, tc.segments[m - 1].1;
      Saves(tc.segments[..m], id, h, g, d)
      <==> if h == key then SavedIn(Get(ctx.segments, id), key + "/", g, d) else Saves(tc.segments[..m - 1], id, h, g, d)
  {
    LastKeyFresh(tc.segments, m);
    GetSnoc(tc.segments[..m - 1], tc.segments[m - 1], h);
  }

  /**
    The folder plan writes into the file of cycle `id` exactly the entries
    of the trials the contexts hold under `id`.
  */
  lemma FolderWrites(tc: Node, path: Path, id: string, g: string, d: Payload)
    requires IsTrialCycles(tc) && CycleContexts(tc.segments) && PlainKeys(tc) && PlainKey(id)
    ensures (CycleFileOf(path, id), g, d) in Writes(Plan(tc, path, None)) <==> Saves(tc.segments, id, Head(g), g, d)
  {
    var m := |tc.segments|;
    assert Plan(tc, path, None) == ChildrenPlan(tc, m, path, "");
    ContextsWrites(tc, m, path, id, g, d);
    assert tc.segments[..m] == tc.segments;
  }

  // Writing the plan

  /** `e` holds, with distinct group names, exactly the groups the triples `w` write into file `f`. */
  ghost predicate Written(e: seq<(string, Payload)>, w: seq<(Path, string, Payload)>, f: Path) {
    && DistinctKeys(e)
    && (forall g :: g in Keys(e) <==> exists d :: (f, g, d) in w)
    && (forall g :: Get(e, g).Some? ==> (f, g, Get(e, g).value) in w)
  }

  /**
    Writing the entries one by one into a file that did not exist leaves in
    it exactly the groups written to it, each holding one of the datasets
    written to that group.
  */
  lemma {:induction false} WriteAllEntries(s: Store, ps: seq<string>, ds: seq<Payload>, gs: seq<string>, f: Path)
    requires |ps| == |ds| == |gs| && f !in s.files
    ensures Written(Entries(WriteAll(s, ps, ds, gs), f), Triples(ps, ds, gs), f)
    decreases |ps|
  {
    if ps != [] {
      var k := |ps| - 1;
      WriteAllEntries(s, ps[..k], ds[..k], gs[..k], f);
      WriteStep(s, ps, ds, gs, f);
    }
  }

  lemma WriteStep(s: Store, ps: seq<string>, ds: seq<Payload>, gs: seq<string>, f: Path)
    requires |ps| == |ds| == |gs| && ps != []
    requires var k := |ps| - 1; Written(Entries(WriteAll(s, ps[..k], ds[..k], gs[..k]), f), Triples(ps[..k], ds[..k], gs[..k]), f)
    ensures Written(Entries(WriteAll(s, ps, ds, gs), f), Triples(ps, ds, gs), f)
  {
    var k := |ps| - 1;
    var prev := WriteAll(s, ps[..k], ds[..k], gs[..k]);
    var e0 := Entries(prev, f);
    var w0 := Triples(ps[..k], ds[..k], gs[..k]);
    var last := (ps[k], gs[k], ds[k]);
    TriplesSnoc(ps, ds, gs);
    assert WriteAll(s, ps, ds, gs) == WriteOne(prev, ps[k], gs[k], ds[k]);
    if ps[k] != f {
      assert Entries(WriteAll(s, ps, ds, gs), f) == e0;
      WrittenOther(e0, w0, last, f);
    } else {
      assert Entries(WriteAll(s, ps, ds, gs), f) == Put(e0, gs[k], ds[k]);
      WrittenPut(e0, w0, gs[k], ds[k], f);
    }
  }

  lemma TriplesSnoc(ps: seq<string>, ds: seq<Payload>, gs: seq<string>)
    requires |ps| == |ds| == |gs| && ps != []
    ensures var k := |ps| - 1;
      Triples(ps, ds, gs) == Triples(ps[..k], ds[..k], gs[..k]) + [(ps[k], gs[k], ds[k])]
  {
  }

  /** A write into another file changes nothing in `f`. */
  lemma WrittenOther(e: seq<(string, Payload)>, w: seq<(Path, string, Payload)>, x: (Path, string, Payload), f: Path)
    requires Written(e, w, f) && x.0 != f
    ensures Written(e, w + [x], f)
  {
    forall g ensures g in Keys(e) <==> exists d :: (f, g, d) in w + [x] {
      if g in Keys(e) {
        var d :| (f, g, d) in w;
        assert (f, g, d) in w + [x];
      }
    }
  }

  /** A write into `f` adds or replaces its group. */
  lemma WrittenPut(e: seq<(string, Payload)>, w: seq<(Path, string, Payload)>, g0: string, d0: Payload, f: Path)
    requires Written(e, w, f)
    ensures Written(Put(e, g0, d0), w + [(f, g0, d0)], f)
  {
    var r := Put(e, g0, d0);
    var w1 := w + [(f, g0, d0)];
    forall g ensures (g in Keys(r) <==> exists d :: (f, g, d) in w1) && (Get(r, g).Some? ==> (f, g, Get(r, g).value) in w1) {
      if g == g0 {
        assert Get(r, g) == Some(d0);
        assert (f, g, d0) in w1;
      } else {
        assert Get(r, g) == Get(e, g);
        if exists d :: (f, g, d) in w1 {
          var d :| (f, g, d) in w1;
          assert (f, g, d) in w;
        }
        if g in Keys(e) {
          var d :| (f, g, d) in w;
          assert (f, g, d) in w1;
        }
        if Get(e, g).Some? {
          assert (f, g, Get(e, g).value) in w1;
        }
      }
    }
  }

  /**
    A saved cycle file holds, with distinct group names, exactly the groups
    the trials of that cycle write, each under its context's group.
  */
  ghost predicate SavedFile(e: seq<(string, Payload)>, c: seq<(string, Node)>, id: string) {
    && DistinctKeys(e)
    && (forall g :: g in Keys(e) <==> exists d :: Saves(c, id, Head(g), g, d))
    && (forall g :: Get(e, g).Some? ==> Saves(c, id, Head(g), g, Get(e, g).value))
  }

  lemma SavedCycleFile(s: Store, tc: Node, path: Path, id: string)
    requires IsTrialCycles(tc) && CycleContexts(tc.segments) && PlainKeys(tc) && PlainKey(id)
    requires Save(s, tc, path, None).raised == None
    requires CycleFileOf(path, id) !in s.files
    ensures SavedFile(Entries(Save(s, tc, path, None).store, CycleFileOf(path, id)), tc.segments, id)
  {
    var f := CycleFileOf(path, id);
    TrialCyclesPlanAsIntended(tc, path, None);
    var l := Plan(tc, path, None);
    var s1 := if PlanMakesDir(tc, path) then s.(dirs := s.dirs + {path}) else s;
    assert Save(s, tc, path, None).store == WriteAll(s1, l.first, l.data, l.third);
    WriteAllEntries(s1, l.first, l.data, l.third, f);
    assert Writes(l) == Triples(l.first, l.data, l.third);
    forall g, d ensures (f, g, d) in Writes(l) <==> Saves(tc.segments, id, Head(g), g, d) {
      FolderWrites(tc, path, id, g, d);
    }
  }

  // Reading a saved cycle file

  /** A group found under `k/` in a saved cycle file holds something the context's trial writes under that name. */
  lemma SavedGroupFound(e: seq<(string, Payload)>, c: seq<(string, Node)>, id: string, k: string, t: TrialData, name: string)
    requires SavedFile(e, c, id) && Cycle(c, k, id) == Some(Leaf(t)) && '/' !in k
    requires InGroup(e, k + "/", name)
    ensures exists d :: NamedEntry(t, name, d)
  {
    var p := k + "/";
    var i :| 0 <= i < |e| && IsPrefix(p, e[i].0) && Head(e[i].0[|p|..]) == name;
    var g := e[i].0;
    assert Keys(e)[i] == g;
    var d :| Saves(c, id, Head(g), g, d);
    PrefixHead(k, g);
    NamedEntryFlat(t, g[|p|..], d);
  }

  /** Whatever the context's trial writes under a flat name is a group of the saved cycle file under `k/`. */
  lemma SavedGroupWritten(e: seq<(string, Payload)>, c: seq<(string, Node)>, id: string, k: string, t: TrialData, name: string, d: Payload)
    requires SavedFile(e, c, id) && Cycle(c, k, id) == Some(Leaf(t)) && '/' !in k && '/' !in name
    requires NamedEntry(t, name, d)
    ensures k + "/" + name in Keys(e) && InGroup(e, k + "/", name)
  {
    var p := k + "/";
    var g := p + name;
    assert g[..|p|] == p && g[|p|..] == name;
    HeadOfGroup(k, name);
    assert Saves(c, id, Head(g), g, d);
    var i :| 0 <= i < |e| && Keys(e)[i] == g;
    assert IsPrefix(p, e[i].0) && Head(e[i].0[|p|..]) == name;
  }

  /** The dataset in group `k/name` of a saved cycle file is what the context's trial writes under `name`. */
  lemma SavedGroupGet(e: seq<(string, Payload)>, c: seq<(string, Node)>, id: string, k: string, t: TrialData, name: string)
    requires SavedFile(e, c, id) && Cycle(c, k, id) == Some(Leaf(t)) && '/' !in k
    requires Get(e, k + "/" + name).Some?
    ensures NamedEntry(t, name, Get(e, k + "/" + name).value)
  {
    var p := k + "/";
    var g := p + name;
    assert g[|p|..] == name;
    HeadOfGroup(k, name);
  }

  /** The groups under `k/` of a saved cycle file match the categories of the context's trial. */
  lemma SavedCategories(e: seq<(string, Payload)>, c: seq<(string, Node)>, id: string, k: string, t: TrialData)
    requires SavedFile(e, c, id) && Cycle(c, k, id) == Some(Leaf(t)) && '/' !in k && DistinctKeys(t.data)
    ensures MatchesCategories(e, k + "/", t.data)
  {
    forall cat: DataCategory
      ensures InGroup(e, k + "/", cat.Value()) <==> cat in Keys(t.data)
      ensures cat in Keys(t.data) ==> Get(e, k + "/" + cat.Value()) == Some(ArrayPayload(Get(t.data, cat).value))
    {
      NamesAreFlat(cat);
      if InGroup(e, k + "/", cat.Value()) {
        SavedGroupFound(e, c, id, k, t, cat.Value());
        var d :| NamedEntry(t, cat.Value(), d);
        CategoryEntry(t, cat, d);
      }
      if cat in Keys(t.data) {
        var d := ArrayPayload(Get(t.data, cat).value);
        CategoryEntry(t, cat, d);
        SavedGroupWritten(e, c, id, k, t, cat.Value(), d);
        SavedGroupGet(e, c, id, k, t, cat.Value());
        CategoryEntry(t, cat, Get(e, k + "/" + cat.Value()).value);
      }
    }
  }

  /** The events group under `k/` of a saved cycle file reads back as the context's trial's events. */
  lemma SavedEvents(e: seq<(string, Payload)>, c: seq<(string, Node)>, id: string, k: string, t: TrialData, file: Path)
    requires SavedFile(e, c, id) && Cycle(c, k, id) == Some(Leaf(t)) && '/' !in k
    ensures LoadTrialEvents(e, k + "/", file) == Ok(t.events)
  {
    NamesAreFlat(Markers);
    if InGroup(e, k + "/", EventsGroup) {
      SavedGroupFound(e, c, id, k, t, EventsGroup);
      var d :| NamedEntry(t, EventsGroup, d);
      EventsEntry(t, d);
      SavedGroupWritten(e, c, id, k, t, EventsGroup, d);
      SavedGroupGet(e, c, id, k, t, EventsGroup);
      EventsEntry(t, Get(e, k + "/" + EventsGroup).value);
    }
    if t.events.Some? {
      EventsEntry(t, EventsPayload(t.events.value));
      SavedGroupWritten(e, c, id, k, t, EventsGroup, EventsPayload(t.events.value));
    }
  }

  /** Something a trial with data or events writes, under a flat name. */
  lemma SomeEntry(t: TrialData) returns (name: string, d: Payload)
    requires t.data != [] || t.events.Some?
    ensures NamedEntry(t, name, d) && '/' !in name
  {
    if t.data != [] {
      name, d := t.data[0].0.Value(), ArrayPayload(t.data[0].1);
    } else {
      name, d := EventsGroup, EventsPayload(t.events.value);
    }
    NamedEntryFlat(t, name, d);
  }

  /** The group `k/` of a saved cycle file is recognised as a trial. */
  lemma SavedRecognised(e: seq<(string, Payload)>, c: seq<(string, Node)>, id: string, k: string, t: TrialData)
    requires SavedFile(e, c, id) && Cycle(c, k, id) == Some(Leaf(t)) && '/' !in k
    requires t.data != [] || t.events.Some?
    ensures Recognised(e, k + "/")
  {
    if t.data != [] {
      var cat := t.data[0].0;
      var d := ArrayPayload(t.data[0].1);
      assert NamedEntry(t, cat.Value(), d);
      NamesAreFlat(cat);
      SavedGroupWritten(e, c, id, k, t, cat.Value(), d);
      var j := if cat == Markers then 0 else if cat == Analogs then 1 else 2;
      assert AllCategories[j] == cat;
    } else {
      NamesAreFlat(Markers);
      SavedGroupWritten(e, c, id, k, t, EventsGroup, EventsPayload(t.events.value));
    }
  }

  /** `_load_trial` on group `k/` of a saved cycle file gives back the context's trial, categories in enum order. */
  lemma LoadSavedCycle(e: seq<(string, Payload)>, c: seq<(string, Node)>, id: string, k: string, t: TrialData, file: Path)
    requires SavedFile(e, c, id) && Cycle(c, k, id) == Some(Leaf(t)) && '/' !in k
    requires DistinctKeys(t.data) && (t.data != [] || t.events.Some?)
    ensures LoadTrial(e, k + "/", file) == Ok(TrialData(EnumOrder(t.data, AllCategories), t.events))
  {
    SavedCategories(e, c, id, k, t);
    LoadMatchedCategories(e, k + "/", t.data, file);
    SavedEvents(e, c, id, k, t, file);
    SavedRecognised(e, c, id, k, t);
    LoadTrialOfParts(e, k + "/", file, EnumOrder(t.data, AllCategories), t.events);
  }

  // The round trip

  /** A stored node that saves as a trial: distinct categories, and data or events to write. */
  predicate Savable(n: Node) {
    n.Leaf? && DistinctKeys(n.trial.data) && (n.trial.data != [] || n.trial.events.Some?)
  }

  /** Every cycle of the container saves as a trial. */
  ghost predicate SavableCycles(c: seq<(string, Node)>) {
    forall k, id :: Cycle(c, k, id).Some? ==> Savable(Cycle(c, k, id).value)
  }

  /**
    Saving `tc` into the folder `path`: a container of plain keys whose
    cycles all save as trials, a folder that does not exist yet and whose
    name does not end in "h5", no cycle file already stored, and a listing
    that names exactly the cycle files.
  */
  ghost predicate NewFolder(s: Store, tc: Node, path: Path, listing: seq<Path>) {
    && IsTrialCycles(tc) && PlainKeys(tc) && CycleContexts(tc.segments) && SavableCycles(tc.segments)
    && !Exists(s, path) && !HasSuffix(path) && LastDotField(Name(path)) != "h5"
    && (forall k, id :: Cycle(tc.segments, k, id).Some? ==> CycleFileOf(path, id) !in s.files)
    && (forall f :: f in listing <==> exists k, id :: Cycle(tc.segments, k, id).Some? && f == CycleFileOf(path, id))
  }

  /** What loading gives back for a saved lookup: the same trial, its categories in enum order. */
  function Reloaded(n: Option<Node>): Option<Node> {
    match n
    case Some(Leaf(t)) => Some(Leaf(TrialData(EnumOrder(t.data, AllCategories), t.events)))
    case _ => n
  }

  /** Both keys of a stored cycle are plain. */
  lemma CycleKeysPlain(tc: Node, k: string, id: string)
    requires IsTrialCycles(tc) && PlainKeys(tc) && Cycle(tc.segments, k, id).Some?
    ensures PlainKey(k) && PlainKey(id)
  {
    var c := tc.segments;
    GetEntry(c, k);
    var ctx := Get(c, k).value;
    var i :| 0 <= i < |c| && c[i] == (k, ctx);
    assert PlainKey(k) && PlainKeys(ctx);
    GetEntry(ctx.segments, id);
    var j :| 0 <= j < |ctx.segments| && ctx.segments[j] == (id, Get(ctx.segments, id).value);
  }

  /** In a saved cycle file, the top-level groups are exactly the contexts that hold that cycle. */
  lemma SavedRootKeys(e: seq<(string, Payload)>, tc: Node, id: string)
    requires IsTrialCycles(tc) && PlainKeys(tc) && SavableCycles(tc.segments) && SavedFile(e, tc.segments, id)
    ensures forall k :: k in RootKeys(e) <==> Cycle(tc.segments, k, id).Some?
  {
    forall k ensures k in RootKeys(e) <==> Cycle(tc.segments, k, id).Some? {
      if k in RootKeys(e) {
        RootGroupHolds(e, tc.segments, id, k);
      }
      if Cycle(tc.segments, k, id).Some? {
        HeldContextIsRoot(e, tc, id, k);
      }
    }
  }

  lemma RootGroupHolds(e: seq<(string, Payload)>, c: seq<(string, Node)>, id: string, k: string)
    requires SavedFile(e, c, id) && InGroup(e, "", k)
    ensures Cycle(c, k, id).Some?
  {
    var i :| 0 <= i < |e| && IsPrefix("", e[i].0) && Head(e[i].0[|""|..]) == k;
    var g := e[i].0;
    assert g[|""|..] == g;
    assert Keys(e)[i] == g;
    var d :| Saves(c, id, Head(g), g, d);
  }

  lemma HeldContextIsRoot(e: seq<(string, Payload)>, tc: Node, id: string, k: string)
    requires IsTrialCycles(tc) && PlainKeys(tc) && SavableCycles(tc.segments) && SavedFile(e, tc.segments, id)
    requires Cycle(tc.segments, k, id).Some?
    ensures InGroup(e, "", k)
  {
    var t := Cycle(tc.segments, k, id).value.trial;
    CycleKeysPlain(tc, k, id);
    var name, d := SomeEntry(t);
    SavedGroupWritten(e, tc.segments, id, k, t, name, d);
    var g := k + "/" + name;
    var i :| 0 <= i < |e| && Keys(e)[i] == g;
    assert g[|""|..] == g;
    HeadOfGroup(k, name);
    assert IsPrefix("", e[i].0) && Head(e[i].0[|""|..]) == k;
  }

  /** A container with a cycle to write saves without raising. */
  lemma SaveFolderSucceeds(s: Store, tc: Node, path: Path, k: string, id: string)
    requires IsTrialCycles(tc) && CycleContexts(tc.segments) && PlainKeys(tc) && SavableCycles(tc.segments)
    requires !Exists(s, path) && !HasSuffix(path) && Cycle(tc.segments, k, id).Some?
    ensures Save(s, tc, path, None).raised == None
  {
    var c := tc.segments;
    var t := Cycle(c, k, id).value.trial;
    CycleKeysPlain(tc, k, id);
    var name, d := SomeEntry(t);
    var p := k + "/";
    var g := p + name;
    assert g[..|p|] == p && g[|p|..] == name;
    HeadOfGroup(k, name);
    assert Saves(c, id, Head(g), g, d);
    FolderWrites(tc, path, id, g, d);
    TrialCyclesPlanAsIntended(tc, path, None);
    assert |Writes(Plan(tc, path, None))| > 0;
  }

  /** The save makes the folder. */
  lemma SavedFolderExists(s: Store, tc: Node, path: Path)
    requires tc.Branch? && |tc.segments| > 0 && !Exists(s, path) && !HasSuffix(path) && LastDotField(Name(path)) != "h5"
    requires Save(s, tc, path, None).raised == None
    ensures Exists(Save(s, tc, path, None).store, path)
  {
    assert PlanMakesDir(tc, path);
  }

  /** Each listed file is the cycle file of the cycle it is named for, as the save wrote it. */
  lemma ListedFile(s: Store, tc: Node, path: Path, listing: seq<Path>, f: Path)
    requires NewFolder(s, tc, path, listing) && Save(s, tc, path, None).raised == None
    requires f in listing
    ensures PlainKey(CycleIdOf(f)) && f == CycleFileOf(path, CycleIdOf(f))
    ensures SavedFile(Entries(Save(s, tc, path, None).store, f), tc.segments, CycleIdOf(f))
  {
    var k, id :| Cycle(tc.segments, k, id).Some? && f == CycleFileOf(path, id);
    CycleKeysPlain(tc, k, id);
    CycleIdOfCycleFile(path, id);
    SavedCycleFile(s, tc, path, id);
  }

  /** Each context of each listed file loads back as the trial saved for that context and cycle. */
  lemma ReloadListed(s: Store, tc: Node, path: Path, listing: seq<Path>, f: Path, k: string)
    requires NewFolder(s, tc, path, listing) && Save(s, tc, path, None).raised == None
    requires f in listing && k in RootKeys(Entries(Save(s, tc, path, None).store, f))
    ensures var e := Entries(Save(s, tc, path, None).store, f);
      && LoadTrial(e, k + "/", f).Ok?
      && Reloaded(Cycle(tc.segments, k, CycleIdOf(f))) == Some(Leaf(LoadTrial(e, k + "/", f).value))
  {
    var e := Entries(Save(s, tc, path, None).store, f);
    var id := CycleIdOf(f);
    ListedFile(s, tc, path, listing, f);
    SavedRootKeys(e, tc, id);
    assert Savable(Cycle(tc.segments, k, id).value);
    var t := Cycle(tc.segments, k, id).value.trial;
    CycleKeysPlain(tc, k, id);
    LoadSavedCycle(e, tc.segments, id, k, t, f);
  }

  /** The loaded lookup `tc[k][id]` is the saved one, reloaded. */
  lemma LookupReloaded(s: Store, tc: Node, path: Path, listing: seq<Path>, k: string, id: string)
    requires NewFolder(s, tc, path, listing) && Save(s, tc, path, None).raised == None
    requires Exists(Save(s, tc, path, None).store, path)
    requires LoadPath(Save(s, tc, path, None).store, path, listing).Ok?
    ensures Cycle(LoadPath(Save(s, tc, path, None).store, path, listing).value.segments, k, id)
      == Reloaded(Cycle(tc.segments, k, id))
  {
    var st := Save(s, tc, path, None).store;
    var r := LoadPath(st, path, listing).value;
    LoadFolder(st, path, listing);
    LastFileOfSpec(st, listing, k, id);
    if Cycle(tc.segments, k, id).Some? {
      CycleKeysPlain(tc, k, id);
      var f0 := CycleFileOf(path, id);
      assert f0 in listing;
      CycleIdOfCycleFile(path, id);
      ListedFile(s, tc, path, listing, f0);
      SavedRootKeys(Entries(st, f0), tc, id);
      assert Holds(st, f0, k, id);
      var f := LastFileOf(st, listing, k, id).value;
      var i :| 0 <= i < |listing| && listing[i] == f && Holds(st, listing[i], k, id);
      ListedFile(s, tc, path, listing, f);
      assert f == f0;
      ReloadListed(s, tc, path, listing, f0, k);
    } else {
      forall f | f in listing ensures !Holds(st, f, k, id) {
        ListedFile(s, tc, path, listing, f);
        SavedRootKeys(Entries(st, f), tc, CycleIdOf(f));
      }
    }
  }

  /**
    Saving a container of contexts of cycles into a new folder and loading
    the folder back, with the listing naming the cycle files, succeeds and
    gives back the same lookup `tc[context][cycle_id]`: every saved trial,
    with its categories in enum order, and nothing else.
  */
  lemma SaveLoadFolder(s: Store, tc: TrialCycles, path: Path, listing: seq<Path>)
    requires NewFolder(s, tc, path, listing)
    requires exists k, id :: Cycle(tc.segments, k, id).Some?
    ensures var saved := Save(s, tc, path, None);
      var r := LoadPath(saved.store, path, listing);
      && saved.raised == None
      && r.Ok? && IsTrialCycles(r.value) && CycleContexts(r.value.segments)
      && forall k, id :: Cycle(r.value.segments, k, id) == Reloaded(Cycle(tc.segments, k, id))
  {
    var c := tc.segments;
    var k0, id0 :| Cycle(c, k0, id0).Some?;
    SaveFolderSucceeds(s, tc, path, k0, id0);
    var st := Save(s, tc, path, None).store;
    GetEntry(c, k0);
    SavedFolderExists(s, tc, path);
    LoadFolder(st, path, listing);
    forall f, k | f in listing && k in RootKeys(Entries(st, f))
      ensures LoadTrial(Entries(st, f), k + "/", f).Ok?
    {
      ReloadListed(s, tc, path, listing, f, k);
    }
    forall k, id ensures Cycle(LoadPath(st, path, listing).value.segments, k, id) == Reloaded(Cycle(c, k, id)) {
      LookupReloaded(s, tc, path, listing, k, id);
    }
  }
}
