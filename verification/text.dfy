/**
 * The handful of Python `str` operations the line parser relies on:
 * `strip()`, `split(sep)`, `startswith`, `endswith`, `in` and `split(sep, 1)`.
 */
module Text {

  /** The characters Python's `str.isspace()` accepts; `strip()` removes exactly these. */
  predicate IsSpace(c: char) {
    || c == ' '
    || '\t' <= c <= '\r'
    || '\U{1c}' <= c <= '\U{1f}'
    || c == '\U{85}' || c == '\U{a0}' || c == '\U{1680}'
    || '\U{2000}' <= c <= '\U{200a}'
    || c == '\U{2028}' || c == '\U{2029}' || c == '\U{202f}' || c == '\U{205f}' || c == '\U{3000}'
  }

  /**
   * The two classes of whitespace Python removes around text: all of
   * `str.isspace()` for `strip()`, and for `float()` the same without the
   * four separators U+001C to U+001F, which CPython keeps as they are in an
   * ASCII string and then refuses.
   */
  datatype Spaces = StrSpaces | FloatSpaces

  predicate IsSpaceIn(c: char, space: Spaces) {
    IsSpace(c) && (space == FloatSpaces ==> !('\U{1c}' <= c <= '\U{1f}'))
  }

  /**
   * The first offset at or after `i` that does not hold a character of the
   * class `space` (`|s|` when there is none).
   */
  function SkipSpace(s: string, i: nat, space: Spaces): (k: nat)
    requires i <= |s|
    ensures i <= k <= |s|
    ensures k == |s| || !IsSpaceIn(s[k], space)
    decreases |s| - i
  {
    if i < |s| && IsSpaceIn(s[i], space) then SkipSpace(s, i + 1, space) else i
  }

  /**
   * The offset just after the last character of `s[lo..j]` that is not of
   * the class `space` (`lo` when there is none).
   */
  function TrimSpace(s: string, lo: nat, j: nat, space: Spaces): (k: nat)
    requires lo <= j <= |s|
    ensures lo <= k <= j
    ensures k == lo || !IsSpaceIn(s[k - 1], space)
    decreases j
  {
    if lo < j && IsSpaceIn(s[j - 1], space) then TrimSpace(s, lo, j - 1, space) else j
  }

  /** `s` without the characters of the class `space` at either end. */
  function StripBy(s: string, space: Spaces): (r: string)
    ensures r == [] || (!IsSpaceIn(r[0], space) && !IsSpaceIn(r[|r| - 1], space))
  {
    var a := SkipSpace(s, 0, space);
    s[a..TrimSpace(s, a, |s|, space)]
  }

  /** `s.strip()`: `s` without its leading and trailing whitespace. */
  function Strip(s: string): (r: string)
    ensures r == [] || (!IsSpace(r[0]) && !IsSpace(r[|r| - 1]))
  {
    StripBy(s, StrSpaces)
  }

  lemma {:induction false} SkipSpaceSkipsSpace(s: string, i: nat, space: Spaces)
    requires i <= |s|
    ensures forall k :: i <= k < SkipSpace(s, i, space) ==> IsSpaceIn(s[k], space)
    decreases |s| - i
  {
    if i < |s| && IsSpaceIn(s[i], space) {
      SkipSpaceSkipsSpace(s, i + 1, space);
    }
  }

  lemma {:induction false} TrimSpaceTrimsSpace(s: string, lo: nat, j: nat, space: Spaces)
    requires lo <= j <= |s|
    ensures forall k :: TrimSpace(s, lo, j, space) <= k < j ==> IsSpaceIn(s[k], space)
    decreases j
  {
    if lo < j && IsSpaceIn(s[j - 1], space) {
      TrimSpaceTrimsSpace(s, lo, j - 1, space);
    }
  }

  /** Trimming stops at or after a character of `s[lo..j]` that is not of the class `space`. */
  lemma {:induction false} TrimSpaceKeeps(s: string, lo: nat, j: nat, space: Spaces, m: nat)
    requires lo <= m < j <= |s| && !IsSpaceIn(s[m], space)
    ensures m < TrimSpace(s, lo, j, space)
    decreases j
  {
    if lo < j && IsSpaceIn(s[j - 1], space) {
      TrimSpaceKeeps(s, lo, j - 1, space, m);
    }
  }

  /**
   * `strip()` keeps a contiguous middle part of `s` and removes only
   * whitespace on either side of it.
   */
  lemma StripRemovesOnlySpace(s: string)
    ensures exists a, b ::
      && 0 <= a <= b <= |s| && Strip(s) == s[a..b]
      && (forall k :: 0 <= k < a ==> IsSpace(s[k]))
      && (forall k :: b <= k < |s| ==> IsSpace(s[k]))
  {
    var a := SkipSpace(s, 0, StrSpaces);
    var b := TrimSpace(s, a, |s|, StrSpaces);
    SkipSpaceSkipsSpace(s, 0, StrSpaces);
    TrimSpaceTrimsSpace(s, a, |s|, StrSpaces);
    assert Strip(s) == s[a..b];
  }

  /** A string that starts and ends with a character outside the class `space` is its own strip. */
  lemma StripUnchanged(s: string, space: Spaces)
    requires s != [] && !IsSpaceIn(s[0], space) && !IsSpaceIn(s[|s| - 1], space)
    ensures StripBy(s, space) == s
  {
    assert SkipSpace(s, 0, space) == 0;
    assert TrimSpace(s, 0, |s|, space) == |s|;
  }

  /** Stripping twice removes nothing more. */
  lemma StripIdempotent(s: string)
    ensures Strip(Strip(s)) == Strip(s)
  {
    var r := Strip(s);
    if r != [] {
      StripUnchanged(r, StrSpaces);
    }
  }

  /** `s.startswith(p)` */
  predicate StartsWith(s: string, p: string) {
    |p| <= |s| && s[..|p|] == p
  }

  /** `s.endswith(p)` */
  predicate EndsWith(s: string, p: string) {
    |p| <= |s| && s[|s| - |p|..] == p
  }

  /** `p in s` for strings: `p` occurs in `s` at some position. */
  predicate Contains(s: string, p: string)
    decreases |s|
  {
    StartsWith(s, p) || (s != [] && Contains(s[1..], p))
  }

  /** `p` occurs in `s` starting at offset `k`. */
  predicate OccursAt(s: string, p: string, k: int) {
    0 <= k && k + |p| <= |s| && s[k..k + |p|] == p
  }

  /** `Contains` holds exactly when `p` is found at some offset of `s`. */
  lemma {:induction false} ContainsAt(s: string, p: string)
    ensures Contains(s, p) <==> exists k :: OccursAt(s, p, k)
    decreases |s|
  {
    if StartsWith(s, p) {
      assert OccursAt(s, p, 0);
    }
    if s != [] {
      ContainsAt(s[1..], p);
      if Contains(s[1..], p) {
        var k :| OccursAt(s[1..], p, k);
        assert s[k + 1..k + 1 + |p|] == s[1..][k..k + |p|];
        assert OccursAt(s, p, k + 1);
      }
      if exists k :: OccursAt(s, p, k) {
        var k :| OccursAt(s, p, k);
        if k > 0 {
          assert s[1..][k - 1..k - 1 + |p|] == s[k..k + |p|];
          assert OccursAt(s[1..], p, k - 1);
        }
      }
    }
  }

  /** The index of the first `c` in `s`, where `s.split(c, 1)` cuts. */
  function FirstIndex(s: string, c: char): (k: nat)
    requires c in s
    ensures k < |s| && s[k] == c && c !in s[..k]
  {
    if s[0] == c then 0
    else
      assert c in s[1..] by { var j :| 0 <= j < |s| && s[j] == c; assert s[1..][j - 1] == c; }
      var k := FirstIndex(s[1..], c);
      assert s[..k + 1] == [s[0]] + s[1..][..k];
      k + 1
  }

  /** `s.split(sep)`: the pieces of `s` between consecutive occurrences of `sep`. */
  function Split(s: string, sep: char): (parts: seq<string>)
    ensures |parts| >= 1
    ensures forall i :: 0 <= i < |parts| ==> sep !in parts[i]
    decreases |s|
  {
    if s == [] then [[]]
    else
      var rest := Split(s[1..], sep);
      if s[0] == sep then [[]] + rest
      else [[s[0]] + rest[0]] + rest[1..]
  }

  /** `sep.join(parts)` */
  function Join(parts: seq<string>, sep: char): string
    requires |parts| >= 1
  {
    if |parts| == 1 then parts[0] else parts[0] + [sep] + Join(parts[1..], sep)
  }

  /** Number of occurrences of `c` in `s`. */
  function Count(s: string, c: char): nat {
    if s == [] then 0 else (if s[0] == c then 1 else 0) + Count(s[1..], c)
  }

  /** Joining the pieces back with the separator gives the original string. */
  lemma {:induction false} JoinSplit(s: string, sep: char)
    ensures Join(Split(s, sep), sep) == s
    decreases |s|
  {
    if s != [] {
      var rest := Split(s[1..], sep);
      JoinSplit(s[1..], sep);
      if s[0] != sep {
        if |rest| == 1 {
        } else {
          assert Join([[s[0]] + rest[0]] + rest[1..], sep)
              == [s[0]] + rest[0] + [sep] + Join(rest[1..], sep);
          assert Join(rest, sep) == rest[0] + [sep] + Join(rest[1..], sep);
        }
      }
    }
  }

  /** `s.split(sep)` has one more piece than `s` has separators. */
  lemma {:induction false} SplitCount(s: string, sep: char)
    ensures |Split(s, sep)| == Count(s, sep) + 1
    decreases |s|
  {
    if s != [] {
      SplitCount(s[1..], sep);
    }
  }

  /** Splitting a string that starts with a separator-free piece `p`. */
  lemma {:induction false} SplitPrefix(p: string, t: string, sep: char)
    requires sep !in p
    ensures Split(p + t, sep) == [p + Split(t, sep)[0]] + Split(t, sep)[1..]
    decreases |p|
  {
    if p != [] {
      SplitPrefix(p[1..], t, sep);
      assert (p + t)[1..] == p[1..] + t;
      assert (p + t)[0] == p[0];
      assert [p[0]] + (p[1..] + Split(t, sep)[0]) == p + Split(t, sep)[0];
    } else {
      var st := Split(t, sep);
      assert p + t == t;
      assert p + st[0] == st[0];
      assert [st[0]] + st[1..] == st;
    }
  }

  /** Splitting the join of separator-free pieces gives the pieces back. */
  lemma {:induction false} SplitJoin(parts: seq<string>, sep: char)
    requires |parts| >= 1
    requires forall i :: 0 <= i < |parts| ==> sep !in parts[i]
    ensures Split(Join(parts, sep), sep) == parts
    decreases |parts|
  {
    if |parts| == 1 {
      SplitPrefix(parts[0], [], sep);
      assert parts[0] + [] == parts[0];
    } else {
      var tail := Join(parts[1..], sep);
      SplitJoin(parts[1..], sep);
      assert Split([sep] + tail, sep) == [[]] + parts[1..];
      SplitPrefix(parts[0], [sep] + tail, sep);
      assert parts[0] + [sep] + tail == parts[0] + ([sep] + tail);
      assert parts[0] + [] == parts[0];
      assert [parts[0]] + parts[1..] == parts;
    }
  }
}
