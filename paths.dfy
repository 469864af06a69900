/**
  File paths as strings, with the parts of Python's `pathlib.PurePath` the
  persistence layer relies on (`name`, `suffix`, `/`, `with_suffix`), plus
  `str(n)` for cycle ids and `str.replace(pat, "")` for file names.
*/
module Paths {
  import opened Outcomes

  type Path = string

  /** The position of the last occurrence of `c` in `s`, as `str.rfind`. */
  function LastIndexOf(s: string, c: char): (r: Option<nat>)
    ensures r.Some? ==> r.value < |s|
  {
    if |s| == 0 then None
    else if s[|s| - 1] == c then Some(|s| - 1)
    else LastIndexOf(s[..|s| - 1], c)
  }

  /** `rfind` finds the last occurrence, and finds nothing exactly when there is none. */
  lemma {:induction false} LastIndexOfSpec(s: string, c: char)
    ensures var r := LastIndexOf(s, c);
      && (r.Some? ==> s[r.value] == c && forall j :: r.value < j < |s| ==> s[j] != c)
      && (r.None? <==> c !in s)
  {
    if |s| > 0 && s[|s| - 1] != c {
      LastIndexOfSpec(s[..|s| - 1], c);
      assert s == s[..|s| - 1] + [s[|s| - 1]];
    }
  }

  /** The last `c` in `s` sits at `i` when `s[i]` is `c` and nothing after it is. */
  lemma {:induction false} LastIndexAt(s: string, c: char, i: nat)
    requires i < |s| && s[i] == c
    requires forall j :: i < j < |s| ==> s[j] != c
    ensures LastIndexOf(s, c) == Some(i)
  {
    if i < |s| - 1 {
      LastIndexAt(s[..|s| - 1], c, i);
    }
  }

  /** `PurePath.name`: the final component. */
  function Name(p: Path): (r: string)
    ensures |r| <= |p|
  {
    match LastIndexOf(p, '/')
    case None => p
    case Some(i) => p[i + 1..]
  }

  /** `PurePath.suffix`: the final component's extension, dot included, or "". */
  function Suffix(p: Path): (r: string)
    ensures |r| <= |p|
  {
    var name := Name(p);
    match LastIndexOf(name, '.')
    case Some(i) => if 0 < i < |name| - 1 then name[i..] else ""
    case None => ""
  }

  /** The final component holds no "/" and ends the path. */
  lemma NameSpec(p: Path)
    ensures '/' !in Name(p) && p[|p| - |Name(p)|..] == Name(p)
  {
    LastIndexOfSpec(p, '/');
  }

  /** A suffix is a dot followed by at least one character, strictly shorter than the name. */
  lemma SuffixSpec(p: Path)
    ensures var r := Suffix(p);
      r == [] || (r[0] == '.' && |r| >= 2 && |r| < |Name(p)|)
  {
    LastIndexOfSpec(Name(p), '.');
  }

  predicate HasSuffix(p: Path) {
    Suffix(p) != ""
  }

  /** `p / k`: an empty key leaves the path as it is. */
  function Join(p: Path, k: string): Path {
    if k == "" then p else if p == "" then k else p + "/" + k
  }

  /**
    `PurePath.with_suffix(suf)`: replaces the suffix of the final component,
    or appends `suf` when it has none.
  */
  function WithSuffix(p: Path, suf: string): Path {
    p[..|p| - |Suffix(p)|] + suf
  }

  /** The final component of `p / k` is `k` itself when `k` is a plain name. */
  lemma JoinName(p: Path, k: string)
    requires k != "" && '/' !in k
    ensures Name(Join(p, k)) == k
  {
    var s := Join(p, k);
    if p != "" {
      assert s == p + "/" + k;
      assert s[|p|] == '/';
      assert forall j :: |p| < j < |s| ==> s[j] == k[j - |p| - 1];
      LastIndexAt(s, '/', |p|);
      assert s[|p| + 1..] == k;
    } else {
      LastIndexOfSpec(k, '/');
    }
  }

  /** A final component without a dot has no suffix. */
  lemma NoDotNoSuffix(p: Path)
    requires '.' !in Name(p)
    ensures Suffix(p) == ""
  {
    LastIndexOfSpec(Name(p), '.');
  }

  /** A name without "/" or "." is its own final component and has no suffix. */
  lemma PlainNameNoSuffix(k: string)
    requires '/' !in k && '.' !in k
    ensures Name(k) == k && Suffix(k) == ""
  {
    LastIndexOfSpec(k, '/');
    LastIndexOfSpec(k, '.');
  }

  /** A final component `k.h5` with a non-empty dot-free `k` has suffix ".h5". */
  lemma H5Suffix(q: Path, k: string)
    requires k != "" && '.' !in k && Name(q) == k + ".h5"
    ensures Suffix(q) == ".h5"
  {
    var name := k + ".h5";
    assert name[|k|] == '.';
    assert forall j :: |k| < j < |name| ==> name[j] != '.';
    LastIndexAt(name, '.', |k|);
    assert name[|k|..] == ".h5";
  }

  /** Appending a suffix to a dot-free final component. */
  lemma WithSuffixPlain(p: Path, k: string)
    requires k != "" && '/' !in k && '.' !in k
    ensures WithSuffix(Join(p, k), ".h5") == Join(p, k) + ".h5"
  {
    JoinName(p, k);
    NoDotNoSuffix(Join(p, k));
  }

  lemma JoinH5Name(p: Path, k: string)
    requires k != "" && '/' !in k && '.' !in k
    ensures Name(Join(p, k) + ".h5") == k + ".h5"
  {
    assert '/' !in k + ".h5";
    JoinName(p, k + ".h5");
    assert Join(p, k + ".h5") == Join(p, k) + ".h5";
  }

  /**
    A Trial saved under key `k` inside folder `p` goes to `p/k.h5`, whose
    final component is `k.h5` and whose suffix is ".h5".
  */
  lemma CycleFile(p: Path, k: string)
    requires k != "" && '/' !in k && '.' !in k
    ensures WithSuffix(Join(p, k), ".h5") == Join(p, k) + ".h5"
    ensures Name(Join(p, k) + ".h5") == k + ".h5"
    ensures Suffix(Join(p, k) + ".h5") == ".h5"
  {
    WithSuffixPlain(p, k);
    JoinH5Name(p, k);
    H5Suffix(Join(p, k) + ".h5", k);
  }

  function Digit(d: nat): (c: char)
    requires d < 10
    ensures '0' <= c <= '9'
  {
    ('0' as int + d) as char
  }

  /** `str(n)` for a non-negative integer. */
  function NatToString(n: nat): (s: string)
    ensures |s| >= 1
    ensures forall i :: 0 <= i < |s| ==> '0' <= s[i] <= '9'
  {
    if n < 10 then [Digit(n)] else NatToString(n / 10) + [Digit(n % 10)]
  }

  /** Distinct cycle ids get distinct keys. */
  lemma {:induction false} NatToStringInjective(a: nat, b: nat)
    requires NatToString(a) == NatToString(b)
    ensures a == b
  {
    var sa, sb := NatToString(a), NatToString(b);
    if a < 10 && b < 10 {
      assert sa[0] == sb[0];
    } else if a < 10 || b < 10 {
      assert false;
    } else {
      assert sa[..|sa| - 1] == NatToString(a / 10);
      assert sb[..|sb| - 1] == NatToString(b / 10);
      NatToStringInjective(a / 10, b / 10);
      assert sa[|sa| - 1] == sb[|sb| - 1];
      assert a % 10 == b % 10;
    }
  }

  /** `s.replace(pat, "")`: removes every non-overlapping occurrence, left to right. */
  function RemoveAll(s: string, pat: string): string
    requires |pat| > 0
    decreases |s|
  {
    if |s| < |pat| then s
    else if s[..|pat|] == pat then RemoveAll(s[|pat|..], pat)
    else [s[0]] + RemoveAll(s[1..], pat)
  }

  /** Stripping ".h5" from `k.h5` gives back `k` when `k` has no dot. */
  lemma {:induction false} RemoveH5(k: string)
    requires '.' !in k
    ensures RemoveAll(k + ".h5", ".h5") == k
  {
    var s := k + ".h5";
    if k == [] {
      assert s[..3] == ".h5";
      assert s[3..] == [];
    } else {
      assert s[0] == k[0] && k[0] != '.';
      assert s[1..] == k[1..] + ".h5";
      RemoveH5(k[1..]);
    }
  }
}
