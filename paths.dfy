/** The parts of `pathlib` the modelled code uses. A path is the sequence of its
    components; `Path(s)` drops empty and "." components, `/` appends, and
    `name`, `stem`, `suffix` and `with_suffix` follow pathlib's rules. */
module Paths {
  import opened Wrappers
  import opened Text
  import Sorting

  type Path = seq<string>

  /** An entry of a directory listing or walk: its path and whether it is a
      regular file. */
  datatype Entry = Entry(path: Path, isFile: bool)

  function DropEmpty(parts: seq<string>): (r: seq<string>)
    ensures forall k :: 0 <= k < |r| ==> r[k] != "" && r[k] != "."
    ensures forall k :: 0 <= k < |r| ==> r[k] in parts
  {
    if |parts| == 0 then []
    else (if parts[0] == "" || parts[0] == "." then [] else [parts[0]]) + DropEmpty(parts[1..])
  }

  lemma DropEmptyOne(part: string)
    requires part != "" && part != "."
    ensures DropEmpty([part]) == [part]
  {
    assert [part][1..] == [];
  }

  /** `Path(s).parts` for a relative path. */
  function Parse(s: string): (p: Path)
    ensures forall k :: 0 <= k < |p| ==> p[k] != "" && p[k] != "." && '/' !in p[k]
  {
    DropEmpty(SplitOn(s, '/'))
  }

  /** `p / s` */
  function Join(p: Path, s: string): Path {
    p + Parse(s)
  }

  /** Joining a plain file name adds it as the last component. */
  lemma JoinName(p: Path, s: string)
    requires s != "" && s != "." && '/' !in s
    ensures Join(p, s) == p + [s]
    ensures Name(Join(p, s)) == s
  {
    SplitOnNone(s, '/');
    DropEmptyOne(s);
  }

  /** Joining the empty string gives the directory itself. */
  lemma JoinEmpty(p: Path)
    ensures Join(p, "") == p
  {
    assert SplitOn("", '/') == [""];
    assert [""][1..] == [];
  }

  /** `p.name`: the last component, or "" for the empty path. */
  function Name(p: Path): string {
    if |p| == 0 then "" else p[|p| - 1]
  }

  /** Position of the dot that starts the suffix, or -1 when there is none:
      the last dot counts unless it is the first or the last character. */
  function SuffixDot(name: string): (i: int)
    ensures -1 <= i < |name|
    ensures i >= 0 ==> 0 < i < |name| - 1 && name[i] == '.'
  {
    var i := RFind(name, '.');
    if 0 < i < |name| - 1 then i else -1
  }

  /** `PurePath(name).suffix` */
  function Suffix(name: string): string {
    var i := SuffixDot(name);
    if i >= 0 then name[i..] else ""
  }

  /** `PurePath(name).stem` */
  function Stem(name: string): string {
    var i := SuffixDot(name);
    if i >= 0 then name[..i] else name
  }

  /** A name is its stem followed by its suffix; a non-empty name has a non-empty stem. */
  lemma StemSuffixSplit(name: string)
    ensures Stem(name) + Suffix(name) == name
    ensures name != "" ==> Stem(name) != ""
    ensures Suffix(name) == "" || Suffix(name)[0] == '.'
  {
  }

  /** `p.with_suffix(suffix)`: the last component's suffix is replaced (or
      added); a path with an empty name is an error. */
  function WithSuffix(p: Path, suffix: string): (r: Result<Path, string>)
    ensures r.Ok? <==> Name(p) != ""
    ensures r.Ok? ==> |r.value| == |p| && r.value[..|p| - 1] == p[..|p| - 1]
    ensures r.Ok? ==> Name(r.value) == Stem(Name(p)) + suffix
  {
    if Name(p) == "" then Err("ValueError: path has an empty name")
    else Ok(p[..|p| - 1] + [Stem(Name(p)) + suffix])
  }

  /** Giving a non-empty stem the suffix ".ext" (no further dot) makes ".ext"
      its suffix and keeps its stem. */
  lemma SuffixOfWithSuffix(stem: string, ext: string)
    requires stem != "" && |ext| >= 2 && ext[0] == '.' && '.' !in ext[1..]
    ensures Suffix(stem + ext) == ext
    ensures Stem(stem + ext) == stem
  {
    var n := stem + ext;
    assert n[|stem|] == '.';
    forall k | |stem| < k < |n|
      ensures n[k] != '.'
    {
      assert n[k] == ext[1..][k - |stem| - 1];
    }
    assert RFind(n, '.') == |stem|;
  }

  /** Python's ordering of paths: component by component, each compared as
      a string. */
  predicate PathLeq(a: Path, b: Path) {
    if |a| == 0 then true
    else if |b| == 0 then false
    else if a[0] != b[0] then Sorting.StrLeq(a[0], b[0])
    else PathLeq(a[1..], b[1..])
  }

  lemma {:induction false} PathLeqTotal(a: Path, b: Path)
    ensures PathLeq(a, b) || PathLeq(b, a)
    decreases |a|
  {
    if |a| > 0 && |b| > 0 {
      if a[0] == b[0] {
        PathLeqTotal(a[1..], b[1..]);
      } else {
        Sorting.StrLeqTotal(a[0], b[0]);
      }
    }
  }

  lemma {:induction false} PathLeqTrans(a: Path, b: Path, c: Path)
    requires PathLeq(a, b) && PathLeq(b, c)
    ensures PathLeq(a, c)
    decreases |a|
  {
    if |a| > 0 && |b| > 0 && |c| > 0 {
      if a[0] == b[0] && b[0] == c[0] {
        PathLeqTrans(a[1..], b[1..], c[1..]);
      } else if a[0] == b[0] || b[0] == c[0] {
      } else {
        Sorting.StrLeqTrans(a[0], b[0], c[0]);
        if a[0] == c[0] {
          Sorting.StrLeqAntisymmetric(a[0], b[0]);
        }
      }
    }
  }

  lemma {:induction false} PathLeqAntisymmetric(a: Path, b: Path)
    requires PathLeq(a, b) && PathLeq(b, a)
    ensures a == b
    decreases |a|
  {
    if |a| > 0 && |b| > 0 {
      if a[0] == b[0] {
        PathLeqAntisymmetric(a[1..], b[1..]);
        assert a == [a[0]] + a[1..];
        assert b == [b[0]] + b[1..];
      } else {
        Sorting.StrLeqAntisymmetric(a[0], b[0]);
      }
    }
  }

  /** Sorting paths is well defined and leaves no tie between distinct paths. */
  lemma PathLeqOrder(s: seq<Path>)
    ensures Sorting.TotalPreorder(PathLeq)
    ensures Sorting.Strict(s, PathLeq)
  {
    forall a, b
      ensures PathLeq(a, b) || PathLeq(b, a)
    {
      PathLeqTotal(a, b);
    }
    forall a, b, c | PathLeq(a, b) && PathLeq(b, c)
      ensures PathLeq(a, c)
    {
      PathLeqTrans(a, b, c);
    }
    forall i, j | 0 <= i < |s| && 0 <= j < |s| && PathLeq(s[i], s[j]) && PathLeq(s[j], s[i])
      ensures s[i] == s[j]
    {
      PathLeqAntisymmetric(s[i], s[j]);
    }
  }
}
