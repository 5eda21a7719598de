/** Python's string operations, as the modelled code uses them: `str.isspace`,
    `strip`, `lower` (ASCII letters only), `join`, `replace`, `endswith`, `in`,
    `str(int)` and slicing with a possibly negative bound. */
module Text {

  /** The characters for which Python's `str.isspace` holds; `strip()`, `split()`
      and the regular expression `\s` use the same set. */
  predicate IsSpace(c: char) {
    c == ' ' || c == '\t' || c == '\n' || c == '\r' || c == '\U{000b}' || c == '\U{000c}'
    || ('\U{001c}' <= c <= '\U{001f}') || c == '\U{0085}' || c == '\U{00a0}' || c == '\U{1680}'
    || ('\U{2000}' <= c <= '\U{200a}') || c == '\U{2028}' || c == '\U{2029}'
    || c == '\U{202f}' || c == '\U{205f}' || c == '\U{3000}'
  }

  predicate NoSpaceAround(s: string) {
    |s| == 0 || (!IsSpace(s[0]) && !IsSpace(s[|s| - 1]))
  }

  /** `s.lstrip()` */
  function LStrip(s: string): (r: string)
    ensures |r| <= |s| && r == s[|s| - |r|..]
    ensures |r| == 0 || !IsSpace(r[0])
  {
    if |s| > 0 && IsSpace(s[0]) then LStrip(s[1..]) else s
  }

  /** `s.rstrip()` */
  function RStrip(s: string): (r: string)
    ensures |r| <= |s| && r == s[..|r|]
    ensures |r| == 0 || !IsSpace(r[|r| - 1])
  {
    if |s| > 0 && IsSpace(s[|s| - 1]) then RStrip(s[..|s| - 1]) else s
  }

  /** `s.strip()`: whitespace is removed from both ends. */
  function Strip(s: string): (r: string)
    ensures NoSpaceAround(r)
    ensures |r| <= |s|
  {
    if |s| > 0 && IsSpace(s[0]) then Strip(s[1..])
    else if |s| > 0 && IsSpace(s[|s| - 1]) then Strip(s[..|s| - 1])
    else s
  }

  /** `strip` is `lstrip` followed by `rstrip`. */
  lemma {:induction false} StripIsRStripLStrip(s: string)
    ensures Strip(s) == RStrip(LStrip(s))
    decreases |s|
  {
    if |s| > 0 && IsSpace(s[0]) {
      StripIsRStripLStrip(s[1..]);
    } else if |s| > 0 && IsSpace(s[|s| - 1]) {
      var t := s[..|s| - 1];
      StripIsRStripLStrip(t);
      assert |t| > 0 && t[0] == s[0];
    }
  }

  lemma {:induction false} LStripRemovesSpace(s: string)
    ensures forall i :: 0 <= i < |s| - |LStrip(s)| ==> IsSpace(s[i])
    decreases |s|
  {
    if |s| > 0 && IsSpace(s[0]) {
      LStripRemovesSpace(s[1..]);
      forall i | 1 <= i < |s| - |LStrip(s)|
        ensures IsSpace(s[i])
      {
        assert s[i] == s[1..][i - 1];
      }
    }
  }

  lemma StripOfClean(s: string)
    requires NoSpaceAround(s)
    ensures Strip(s) == s
  {
  }

  lemma StripIdempotent(s: string)
    ensures Strip(Strip(s)) == Strip(s)
  {
    StripOfClean(Strip(s));
  }

  /** `s.strip()` is empty exactly when `s` is whitespace only. */
  lemma {:induction false} StripEmptyIff(s: string)
    ensures Strip(s) == "" <==> forall i :: 0 <= i < |s| ==> IsSpace(s[i])
    decreases |s|
  {
    if |s| > 0 && IsSpace(s[0]) {
      StripEmptyIff(s[1..]);
      assert forall i :: 1 <= i < |s| ==> s[i] == s[1..][i - 1];
    } else if |s| > 0 && IsSpace(s[|s| - 1]) {
      StripEmptyIff(s[..|s| - 1]);
      assert forall i :: 0 <= i < |s| - 1 ==> s[i] == s[..|s| - 1][i];
    }
  }

  function LowerChar(c: char): char {
    if 'A' <= c <= 'Z' then (c as int + 32) as char else c
  }

  /** `s.lower()`, on ASCII letters. */
  function Lower(s: string): (r: string)
    ensures |r| == |s|
    ensures forall i :: 0 <= i < |s| ==> r[i] == LowerChar(s[i])
  {
    seq(|s|, i requires 0 <= i < |s| => LowerChar(s[i]))
  }

  lemma LowerIdempotent(s: string)
    ensures Lower(Lower(s)) == Lower(s)
  {
  }

  /** `sep.join(parts)` */
  function Join(sep: string, parts: seq<string>): string
  {
    if |parts| == 0 then ""
    else if |parts| == 1 then parts[0]
    else parts[0] + sep + Join(sep, parts[1..])
  }

  predicate StartsWith(s: string, prefix: string) {
    |prefix| <= |s| && s[..|prefix|] == prefix
  }

  predicate EndsWith(s: string, suffix: string) {
    |suffix| <= |s| && s[|s| - |suffix|..] == suffix
  }

  /** `sub in s` */
  predicate Contains(s: string, sub: string)
    decreases |s|
  {
    StartsWith(s, sub) || (|s| > 0 && Contains(s[1..], sub))
  }

  lemma ContainsAt(s: string, sub: string, i: nat)
    requires i + |sub| <= |s| && s[i..i + |sub|] == sub
    ensures Contains(s, sub)
    decreases i
  {
    if i > 0 {
      assert s[1..][i - 1..i - 1 + |sub|] == sub;
      ContainsAt(s[1..], sub, i - 1);
    }
  }

  /** `s.replace(pat, rep)`: every non-overlapping occurrence, left to right. */
  function ReplaceAll(s: string, pat: string, rep: string): string
    requires |pat| > 0
    decreases |s|
  {
    if |s| < |pat| then s
    else if s[..|pat|] == pat then rep + ReplaceAll(s[|pat|..], pat, rep)
    else [s[0]] + ReplaceAll(s[1..], pat, rep)
  }

  /** An occurrence of `pat` starts at position `i` of `s`. */
  predicate MatchAt(s: string, pat: string, i: nat) {
    i + |pat| <= |s| && s[i..i + |pat|] == pat
  }

  /** No occurrence of `pat` starts at a position before `n`. */
  predicate NoMatchBefore(s: string, pat: string, n: nat) {
    forall i: nat :: i < n ==> !MatchAt(s, pat, i)
  }

  /** Replacing in `a + b` leaves `a` alone when no occurrence starts inside `a`. */
  lemma {:induction false} ReplaceAllSkipsClean(a: string, b: string, pat: string, rep: string)
    requires |pat| > 0
    requires NoMatchBefore(a + b, pat, |a|)
    ensures ReplaceAll(a + b, pat, rep) == a + ReplaceAll(b, pat, rep)
    decreases |a|
  {
    if |a| > 0 {
      var s := a + b;
      if |s| < |pat| {
        ReplaceAllShort(b, pat, rep);
      } else {
        assert !MatchAt(s, pat, 0);
        assert s[1..] == a[1..] + b;
        forall i: nat | i < |a| - 1
          ensures !MatchAt(s[1..], pat, i)
        {
          assert !MatchAt(s, pat, i + 1);
          if i + |pat| <= |s[1..]| {
            assert s[1..][i..i + |pat|] == s[i + 1..i + 1 + |pat|];
          }
        }
        assert NoMatchBefore(a[1..] + b, pat, |a| - 1);
        ReplaceAllSkipsClean(a[1..], b, pat, rep);
        assert s[..|pat|] != pat;
        assert ReplaceAll(s, pat, rep) == [s[0]] + ReplaceAll(s[1..], pat, rep);
        assert a == [s[0]] + a[1..];
      }
    } else {
      assert a + b == b;
    }
  }

  /** Every character of the result comes from the input or the replacement. */
  lemma {:induction false} ReplaceAllChars(s: string, pat: string, rep: string)
    requires |pat| > 0
    ensures forall ch :: ch in ReplaceAll(s, pat, rep) ==> ch in s || ch in rep
    decreases |s|
  {
    if |s| >= |pat| {
      if s[..|pat|] == pat {
        ReplaceAllChars(s[|pat|..], pat, rep);
      } else {
        ReplaceAllChars(s[1..], pat, rep);
      }
    }
  }

  /** Replacing a character by a string that does not hold it removes it. */
  lemma {:induction false} ReplaceCharGone(s: string, c: char, rep: string)
    requires c !in rep
    ensures c !in ReplaceAll(s, [c], rep)
    decreases |s|
  {
    if |s| >= 1 {
      if s[..1] == [c] {
        ReplaceCharGone(s[1..], c, rep);
      } else {
        assert s[0] != c by { assert s[..1] == [s[0]]; }
        ReplaceCharGone(s[1..], c, rep);
      }
    }
  }

  /** Replacing a character the string does not hold changes nothing. */
  lemma {:induction false} ReplaceCharAbsent(s: string, c: char, rep: string)
    requires c !in s
    ensures ReplaceAll(s, [c], rep) == s
    decreases |s|
  {
    if |s| >= 1 {
      assert s[..1] == [s[0]];
      ReplaceCharAbsent(s[1..], c, rep);
      assert s == [s[0]] + s[1..];
    }
  }

  /** No proper suffix of `pat` is also a prefix of it, so two occurrences
      of `pat` never overlap. */
  predicate Unbordered(pat: string) {
    forall k :: 0 < k < |pat| ==> pat[k..] != pat[..|pat| - k]
  }

  /** A pattern whose first character does not come back is unbordered. */
  lemma UnborderedOfHead(pat: string)
    requires |pat| > 0 && pat[0] !in pat[1..]
    ensures Unbordered(pat)
  {
    forall k | 0 < k < |pat|
      ensures pat[k..] != pat[..|pat| - k]
    {
      assert pat[k] in pat[1..];
      assert pat[k..][0] == pat[k];
      assert pat[..|pat| - k][0] == pat[0];
    }
  }

  /** Occurrences at the start and at the end of `s` that overlap make the
      overlap a border of the pattern. */
  lemma OverlapBorder(s: string, pat: string)
    requires |pat| < |s| < 2 * |pat| && StartsWith(s, pat) && EndsWith(s, pat)
    ensures pat[|s| - |pat|..] == pat[..2 * |pat| - |s|]
  {
    var d := |s| - |pat|;
    forall j | 0 <= j < |pat| - d
      ensures pat[d..][j] == pat[..|pat| - d][j]
    {
      assert s[..|pat|][d + j] == s[d + j] == s[|s| - |pat|..][j];
    }
  }

  /** An occurrence at the start and one at the end of a longer string do
      not overlap when the pattern is unbordered. */
  lemma NoOverlap(s: string, pat: string)
    requires |s| > |pat| > 0 && StartsWith(s, pat) && EndsWith(s, pat) && Unbordered(pat)
    ensures |s| >= 2 * |pat|
  {
    if |s| < 2 * |pat| {
      OverlapBorder(s, pat);
    }
  }

  /** Replacing an unbordered pattern in a string that ends with it leaves a
      string that ends with the replacement. */
  lemma {:induction false} ReplaceAllEndsWith(s: string, pat: string, rep: string)
    requires |pat| > 0 && EndsWith(s, pat) && Unbordered(pat)
    ensures EndsWith(ReplaceAll(s, pat, rep), rep)
    decreases |s|
  {
    if s[..|pat|] == pat {
      var rest := s[|pat|..];
      if |rest| == 0 {
        assert ReplaceAll(s, pat, rep) == rep + rest;
        assert rep + rest == rep;
      } else {
        NoOverlap(s, pat);
        assert rest[|rest| - |pat|..] == s[|s| - |pat|..];
        ReplaceAllEndsWith(rest, pat, rep);
        var t := ReplaceAll(rest, pat, rep);
        assert (rep + t)[|rep + t| - |rep|..] == t[|t| - |rep|..];
      }
    } else {
      var rest := s[1..];
      assert rest[|rest| - |pat|..] == s[|s| - |pat|..];
      ReplaceAllEndsWith(rest, pat, rep);
      var t := ReplaceAll(rest, pat, rep);
      assert ([s[0]] + t)[|[s[0]] + t| - |rep|..] == t[|t| - |rep|..];
    }
  }

  /** When the only occurrence of `pat` in `a + pat` is the final one,
      replacing it swaps that ending. */
  lemma ReplaceEnding(a: string, pat: string, rep: string)
    requires |pat| > 0 && NoMatchBefore(a + pat, pat, |a|)
    ensures ReplaceAll(a + pat, pat, rep) == a + rep
  {
    ReplaceAllSkipsClean(a, pat, pat, rep);
    assert pat[|pat|..] == [];
    assert ReplaceAll(pat, pat, rep) == rep + ReplaceAll([], pat, rep);
  }

  lemma ReplaceAllShort(s: string, pat: string, rep: string)
    requires |pat| > 0 && |s| < |pat|
    ensures ReplaceAll(s, pat, rep) == s
  {
  }

  function DigitChar(d: nat): char
    requires d < 10
  {
    ('0' as int + d) as char
  }

  /** `str(n)` for a non-negative integer. */
  function NatToString(n: nat): (r: string)
    ensures |r| > 0
    ensures forall i :: 0 <= i < |r| ==> '0' <= r[i] <= '9'
  {
    if n < 10 then [DigitChar(n)] else NatToString(n / 10) + [DigitChar(n % 10)]
  }

  /** `str(i)` for any integer. */
  function IntToString(i: int): string {
    if i < 0 then "-" + NatToString(-i) else NatToString(i)
  }

  /** The cut point of the Python slice `s[:n]`. */
  function SliceIndex(len: nat, n: int): (k: nat)
    ensures k <= len
    ensures n >= 0 ==> k == if n < len then n else len
  {
    if n >= 0 then (if n < len then n else len)
    else if len + n > 0 then len + n else 0
  }

  /** `s[:n]` */
  function PyTake<T>(s: seq<T>, n: int): seq<T> {
    s[..SliceIndex(|s|, n)]
  }

  /** `s[n:]` */
  function PyDrop<T>(s: seq<T>, n: int): seq<T> {
    s[SliceIndex(|s|, n)..]
  }

  lemma PyTakeDrop<T>(s: seq<T>, n: int)
    ensures PyTake(s, n) + PyDrop(s, n) == s
  {
  }

  /** `s.rfind(c)`: the last position of `c`, or -1. */
  function RFind(s: string, c: char): (i: int)
    ensures -1 <= i < |s|
    ensures i >= 0 ==> s[i] == c
    ensures forall k :: i < k < |s| ==> s[k] != c
  {
    if |s| == 0 then -1
    else if s[|s| - 1] == c then |s| - 1
    else RFind(s[..|s| - 1], c)
  }

  /** `s.split(sep)` for a one-character separator. */
  function SplitOn(s: string, sep: char): (r: seq<string>)
    ensures |r| > 0
    ensures forall k :: 0 <= k < |r| ==> sep !in r[k]
  {
    if |s| == 0 then [""]
    else
      var rest := SplitOn(s[1..], sep);
      if s[0] == sep then [""] + rest else [[s[0]] + rest[0]] + rest[1..]
  }

  /** A string without the separator splits into itself alone. */
  lemma {:induction false} SplitOnNone(s: string, sep: char)
    requires sep !in s
    ensures SplitOn(s, sep) == [s]
    decreases |s|
  {
    if |s| > 0 {
      SplitOnNone(s[1..], sep);
      assert [s[0]] + s[1..] == s;
    }
  }

  /** `c.isalnum()`, on ASCII letters and digits. */
  predicate IsAlnum(c: char) {
    'a' <= c <= 'z' || 'A' <= c <= 'Z' || '0' <= c <= '9'
  }
}
