/**
  Insertion-ordered dictionaries, as Python's `dict`: a sequence of
  (key, value) entries. Assigning `d[k] = v` replaces the value in place when
  `k` is present and appends a new entry otherwise.
*/
module Dict {
  import opened Outcomes

  function Keys<K, V>(d: seq<(K, V)>): (ks: seq<K>)
    ensures |ks| == |d|
    ensures forall i :: 0 <= i < |d| ==> ks[i] == d[i].0
  {
    seq(|d|, i requires 0 <= i < |d| => d[i].0)
  }

  function Values<K, V>(d: seq<(K, V)>): (vs: seq<V>)
    ensures |vs| == |d|
    ensures forall i :: 0 <= i < |d| ==> vs[i] == d[i].1
  {
    seq(|d|, i requires 0 <= i < |d| => d[i].1)
  }

  /** Every key occurs at most once, as in a Python dict. */
  predicate DistinctKeys<K(==), V>(d: seq<(K, V)>) {
    forall i, j :: 0 <= i < j < |d| ==> d[i].0 != d[j].0
  }

  /** The position of the first entry with key `k`, if any. */
  function IndexOf<K(==), V>(d: seq<(K, V)>, k: K): (r: Option<nat>)
    ensures r.Some? ==> r.value < |d| && d[r.value].0 == k
    ensures r.Some? ==> forall j :: 0 <= j < r.value ==> d[j].0 != k
    ensures r.None? <==> forall j :: 0 <= j < |d| ==> d[j].0 != k
  {
    if |d| == 0 then None
    else if d[0].0 == k then Some(0)
    else match IndexOf(d[1..], k)
      case None => None
      case Some(i) => Some(i + 1)
  }

  predicate HasKey<K(==), V>(d: seq<(K, V)>, k: K) {
    IndexOf(d, k).Some?
  }

  /** `d.get(k)`: the value stored under `k`, or `None`. */
  function Get<K(==), V>(d: seq<(K, V)>, k: K): (r: Option<V>)
    ensures r.Some? <==> k in Keys(d)
  {
    match IndexOf(d, k)
    case None => None
    case Some(i) => Some(d[i].1)
  }

  /** `d[k] = v` */
  function Put<K(==,!new), V>(d: seq<(K, V)>, k: K, v: V): (r: seq<(K, V)>)
    ensures Get(r, k) == Some(v)
    ensures forall k' :: k' != k ==> Get(r, k') == Get(d, k')
    ensures HasKey(d, k) ==> Keys(r) == Keys(d)
    ensures !HasKey(d, k) ==> r == d + [(k, v)]
    ensures DistinctKeys(d) ==> DistinctKeys(r)
  {
    match IndexOf(d, k)
    case Some(i) =>
      PutExisting(d, k, v, i);
      d[i := (k, v)]
    case None =>
      PutFresh(d, k, v);
      d + [(k, v)]
  }

  /** Replacing entry `i`, the first with key `k`, changes the lookup of `k` only. */
  lemma PutExisting<K, V>(d: seq<(K, V)>, k: K, v: V, i: nat)
    requires IndexOf(d, k) == Some(i)
    ensures var r := d[i := (k, v)];
      && Keys(r) == Keys(d) && Get(r, k) == Some(v)
      && (forall k' :: k' != k ==> Get(r, k') == Get(d, k'))
      && (DistinctKeys(d) ==> DistinctKeys(r))
  {
    var r := d[i := (k, v)];
    assert Keys(r) == Keys(d);
    IndexOfFirst(r, k, i);
    forall k' | k' != k ensures Get(r, k') == Get(d, k') {
      match IndexOf(d, k')
      case Some(j) => IndexOfFirst(r, k', j);
      case None =>
    }
  }

  /** Appending an entry for a key `d` lacks changes the lookup of that key only. */
  lemma PutFresh<K, V>(d: seq<(K, V)>, k: K, v: V)
    requires IndexOf(d, k) == None
    ensures var r := d + [(k, v)];
      && Get(r, k) == Some(v)
      && (forall k' :: k' != k ==> Get(r, k') == Get(d, k'))
      && (DistinctKeys(d) ==> DistinctKeys(r))
  {
    var r := d + [(k, v)];
    assert forall j :: 0 <= j < |d| ==> r[j] == d[j];
    IndexOfFirst(r, k, |d|);
    forall k' | k' != k ensures Get(r, k') == Get(d, k') {
      match IndexOf(d, k')
      case Some(j) => IndexOfFirst(r, k', j);
      case None =>
    }
  }

  /** In a dict with distinct keys, looking up the key of entry `i` finds entry `i`. */
  lemma GetAt<K, V>(d: seq<(K, V)>, i: nat)
    requires DistinctKeys(d) && i < |d|
    ensures Get(d, d[i].0) == Some(d[i].1)
  {
    var j := IndexOf(d, d[i].0).value;
    assert j == i;
  }

  /** After `d[k] = v` every entry was already in `d`, or is the new one. */
  lemma PutEntries<K(!new), V>(d: seq<(K, V)>, k: K, v: V)
    ensures forall e :: e in Put(d, k, v) ==> e in d || e == (k, v)
  {
    match IndexOf(d, k)
    case Some(i) =>
      var r := d[i := (k, v)];
      forall e | e in r ensures e in d || e == (k, v) {
        var j :| 0 <= j < |r| && r[j] == e;
        if j != i {
          assert e == d[j];
        }
      }
    case None =>
  }

  /** What `d.get(k)` returns is stored in an entry of `d` under `k`. */
  lemma GetEntry<K, V>(d: seq<(K, V)>, k: K)
    ensures Get(d, k).Some? ==> (k, Get(d, k).value) in d
  {
    match IndexOf(d, k)
    case Some(i) =>
      assert d[i] == (k, Get(d, k).value);
    case None =>
  }

  /** Assigning a key twice keeps only the second value, at the first assignment's position. */
  lemma PutTwice<K(!new), V>(d: seq<(K, V)>, k: K, v: V, w: V)
    ensures Put(Put(d, k, v), k, w) == Put(d, k, w)
  {
    match IndexOf(d, k)
    case Some(i) =>
      var r := d[i := (k, v)];
      IndexOfFirst(r, k, i);
      assert r[i := (k, w)] == d[i := (k, w)];
    case None =>
      var r := d + [(k, v)];
      IndexOfFirst(r, k, |d|);
      assert r[|d| := (k, w)] == d + [(k, w)];
  }

  /** The first entry with key `k` is the one `IndexOf` finds. */
  lemma IndexOfFirst<K, V>(d: seq<(K, V)>, k: K, i: nat)
    requires i < |d| && d[i].0 == k && forall j :: 0 <= j < i ==> d[j].0 != k
    ensures IndexOf(d, k) == Some(i)
  {
  }

  /** Looking up a key in a dict given as its first entry followed by the rest. */
  lemma GetCons<K, V>(x: (K, V), rest: seq<(K, V)>, k: K)
    ensures Get([x] + rest, k) == if k == x.0 then Some(x.1) else Get(rest, k)
  {
    var d := [x] + rest;
    assert d[0] == x && d[1..] == rest;
    if k != x.0 {
      assert IndexOf(d, k) == match IndexOf(rest, k) case None => None case Some(i) => Some(i + 1);
      match IndexOf(rest, k)
      case None =>
      case Some(i) => assert d[i + 1] == rest[i];
    }
  }

  /** Putting a fresh key in front of a dict with distinct keys keeps them distinct. */
  lemma DistinctKeysCons<K, V>(x: (K, V), rest: seq<(K, V)>)
    requires DistinctKeys(rest) && x.0 !in Keys(rest)
    ensures DistinctKeys([x] + rest)
  {
    var r := [x] + rest;
    forall i, j | 0 <= i < j < |r| ensures r[i].0 != r[j].0 {
      if i == 0 {
        assert r[j].0 == Keys(rest)[j - 1];
      } else {
        assert r[i] == rest[i - 1] && r[j] == rest[j - 1];
      }
    }
  }

  /** Looking up a key in a dict with one entry appended at its end. */
  lemma GetSnoc<K, V>(d: seq<(K, V)>, x: (K, V), k: K)
    ensures Get(d + [x], k) == if k in Keys(d) then Get(d, k) else if k == x.0 then Some(x.1) else None
  {
    var r := d + [x];
    match IndexOf(d, k)
    case Some(i) =>
      assert r[i] == d[i];
      assert k in Keys(d) by {
        assert Keys(d)[i] == k;
      }
    case None =>
      if k == x.0 {
        assert r[|d|].0 == k;
      } else {
        assert forall j :: 0 <= j < |r| ==> r[j].0 != k by {
          assert forall j :: 0 <= j < |d| ==> r[j] == d[j];
        }
      }
  }

  /** `d` holds exactly the keys `keys`, in order, with `vals[m]` under `keys[m]`. */
  ghost predicate Stores<K, V>(d: seq<(K, V)>, keys: seq<K>, vals: seq<V>) {
    && |keys| == |vals|
    && Keys(d) == keys
    && forall m :: 0 <= m < |keys| ==> Get(d, keys[m]) == Some(vals[m])
  }

  /** Appending an entry under a fresh key extends what a dict stores. */
  lemma StoresSnoc<K, V>(d: seq<(K, V)>, keys: seq<K>, vals: seq<V>, k: K, v: V)
    requires Stores(d, keys, vals) && k !in keys
    ensures Stores(d + [(k, v)], keys + [k], vals + [v])
  {
    var r := d + [(k, v)];
    assert Keys(r) == keys + [k];
    forall m | 0 <= m < |keys| + 1
      ensures Get(r, (keys + [k])[m]) == Some((vals + [v])[m])
    {
      GetSnoc(d, (k, v), (keys + [k])[m]);
      if m < |keys| {
        assert keys[m] in Keys(d) by {
          assert Keys(d)[m] == keys[m];
        }
      }
    }
  }
}
