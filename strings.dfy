/**
 * Text helpers with the meaning of the Python built-ins the download handler
 * relies on: the substring test `needle in hay`, `str.strip()` with no
 * argument, and the POSIX `os.path.join` / `os.path.basename`. The scans are
 * written over indices, as CPython and `posixpath` write them.
 */
module Strings {

  /** `needle` occurs in `hay` starting at position `i`. */
  predicate OccursAt(needle: string, hay: string, i: int)
  {
    0 <= i <= |hay| - |needle| && hay[i..i + |needle|] == needle
  }

  /** `needle` occurs somewhere in `hay`; the empty string occurs everywhere. */
  ghost predicate IsSubstring(needle: string, hay: string)
  {
    exists i :: OccursAt(needle, hay, i)
  }

  /** Searches `hay` for `needle` from position `from` on. */
  function FindFrom(hay: string, needle: string, from: nat): (found: bool)
    ensures found <==> exists i :: from <= i && OccursAt(needle, hay, i)
    decreases |hay| - from
  {
    if from + |needle| > |hay| then false
    else if hay[from..from + |needle|] == needle then
      assert OccursAt(needle, hay, from);
      true
    else
      FindFrom(hay, needle, from + 1)
  }

  /** Python's `needle in hay`. */
  function Contains(hay: string, needle: string): (found: bool)
    ensures found <==> IsSubstring(needle, hay)
  {
    FindFrom(hay, needle, 0)
  }

  /** An occurrence of an occurrence is an occurrence. */
  lemma SubstringTransitive(a: string, b: string, c: string)
    requires IsSubstring(a, b) && IsSubstring(b, c)
    ensures IsSubstring(a, c)
  {
    var i :| OccursAt(a, b, i);
    var j :| OccursAt(b, c, j);
    forall k | 0 <= k < |a|
      ensures c[j + i..j + i + |a|][k] == a[k]
    {
      assert c[j..j + |b|][i + k] == b[i..i + |a|][k];
    }
    assert OccursAt(a, c, j + i);
  }

  /**
   * The characters Python's `str.isspace()` accepts, which are the ones
   * `str.strip()` removes when called without an argument: U+0009 to U+000D,
   * U+001C to U+0020, U+0085, U+00A0, U+1680, U+2000 to U+200A, U+2028,
   * U+2029, U+202F, U+205F and U+3000.
   */
  const WHITESPACE: seq<char> := [
    '\U{9}', '\U{A}', '\U{B}', '\U{C}', '\U{D}', '\U{1C}', '\U{1D}', '\U{1E}',
    '\U{1F}', '\U{20}', '\U{85}', '\U{A0}', '\U{1680}', '\U{2000}', '\U{2001}', '\U{2002}',
    '\U{2003}', '\U{2004}', '\U{2005}', '\U{2006}', '\U{2007}', '\U{2008}', '\U{2009}', '\U{200A}',
    '\U{2028}', '\U{2029}', '\U{202F}', '\U{205F}', '\U{3000}'
  ]

  /**
   * `c` is one of `chars`, found by a linear scan. Written as a recursion so
   * that the verifier unfolds the table only where a proof asks for it.
   */
  predicate OneOf(c: char, chars: seq<char>)
  {
    chars != [] && (c == chars[0] || OneOf(c, chars[1..]))
  }

  lemma {:induction false} OneOfIsMembership(c: char, chars: seq<char>)
    ensures OneOf(c, chars) <==> c in chars
  {
    if chars != [] {
      OneOfIsMembership(c, chars[1..]);
      assert chars == [chars[0]] + chars[1..];
    }
  }

  predicate IsSpace(c: char)
  {
    OneOf(c, WHITESPACE)
  }

  /** Every position of `s` in `[lo, hi)` holds whitespace. */
  predicate SpacesBetween(s: string, lo: int, hi: int)
  {
    forall m :: lo <= m < hi && 0 <= m < |s| ==> IsSpace(s[m])
  }

  predicate AllSpace(s: string)
  {
    SpacesBetween(s, 0, |s|)
  }

  /** The first position at or after `i` that does not hold whitespace, or `|s|`. */
  function SkipSpaces(s: string, i: nat): (k: nat)
    requires i <= |s|
    ensures i <= k <= |s|
    ensures SpacesBetween(s, i, k)
    ensures k < |s| ==> !IsSpace(s[k])
    decreases |s| - i
  {
    if i < |s| && IsSpace(s[i]) then SkipSpaces(s, i + 1) else i
  }

  /** Moving left from `j` but not past `lo`, the end of the last stretch that does not end in whitespace. */
  function BackOverSpaces(s: string, lo: nat, j: nat): (k: nat)
    requires lo <= j <= |s|
    ensures lo <= k <= j
    ensures SpacesBetween(s, k, j)
    ensures k > lo ==> !IsSpace(s[k - 1])
    decreases j - lo
  {
    if j > lo && IsSpace(s[j - 1]) then BackOverSpaces(s, lo, j - 1) else j
  }

  /**
   * Python's `s.strip()`: skip whitespace from the left, then from the right
   * down to where the left scan stopped, and keep what lies between.
   */
  function Strip(s: string): (r: string)
    ensures IsSubstring(r, s)
    ensures r == [] <==> AllSpace(s)
    ensures r != [] ==> !IsSpace(r[0]) && !IsSpace(r[|r| - 1])
  {
    var i := SkipSpaces(s, 0);
    var j := BackOverSpaces(s, i, |s|);
    assert OccursAt(s[i..j], s, i);
    s[i..j]
  }

  /**
   * What `Strip` keeps is determined by where the text starts and ends
   * without whitespace.
   */
  lemma StripBetween(s: string, i: nat, j: nat)
    requires i < j <= |s|
    requires SpacesBetween(s, 0, i) && SpacesBetween(s, j, |s|)
    requires !IsSpace(s[i]) && !IsSpace(s[j - 1])
    ensures Strip(s) == s[i..j]
  {
    assert SkipSpaces(s, 0) == i;
    assert BackOverSpaces(s, i, |s|) == j;
  }

  /**
   * `Strip` removes exactly the surrounding whitespace: whatever text starts
   * and ends with a non-whitespace character comes back unchanged from
   * between any two runs of whitespace.
   */
  lemma StripSurrounded(before: string, x: string, after: string)
    requires AllSpace(before) && AllSpace(after)
    requires x != [] && !IsSpace(x[0]) && !IsSpace(x[|x| - 1])
    ensures Strip(before + x + after) == x
  {
    var s := before + x + after;
    var i, j := |before|, |before| + |x|;
    assert s[i] == x[0] && s[j - 1] == x[|x| - 1];
    assert SpacesBetween(s, 0, i) by {
      forall m | 0 <= m < i ensures IsSpace(s[m]) { assert s[m] == before[m]; }
    }
    assert SpacesBetween(s, j, |s|) by {
      forall m | j <= m < |s| ensures IsSpace(s[m]) { assert s[m] == after[m - j]; }
    }
    StripBetween(s, i, j);
    assert s[i..j] == x;
  }

  lemma AllSpaceConcat(a: string, b: string)
    requires AllSpace(a) && AllSpace(b)
    ensures AllSpace(a + b)
  {
    forall m | 0 <= m < |a + b| ensures IsSpace((a + b)[m]) {
      if m >= |a| { assert (a + b)[m] == b[m - |a|]; }
    }
  }

  /** Text that is not all whitespace is its stripped form between two runs of whitespace. */
  lemma StripSplit(s: string) returns (lead: string, trail: string)
    requires !AllSpace(s)
    ensures AllSpace(lead) && AllSpace(trail)
    ensures s == lead + Strip(s) + trail
  {
    var i := SkipSpaces(s, 0);
    var j := BackOverSpaces(s, i, |s|);
    lead, trail := s[..i], s[j..];
    SplitThree(s, i, j);
    assert AllSpace(lead) by {
      forall m | 0 <= m < |lead| ensures IsSpace(lead[m]) { assert lead[m] == s[m]; }
    }
    assert AllSpace(trail) by {
      forall m | 0 <= m < |trail| ensures IsSpace(trail[m]) { assert trail[m] == s[j + m]; }
    }
  }

  lemma SplitThree(s: string, i: nat, j: nat)
    requires i <= j <= |s|
    ensures s == s[..i] + s[i..j] + s[j..]
  {
  }

  lemma Regroup(a: string, b: string, c: string, d: string, e: string)
    ensures a + (b + c + d) + e == (a + b) + c + (d + e)
  {
  }

  /** Extra whitespace on either side makes no difference to `Strip`. */
  lemma StripIgnoresPadding(before: string, s: string, after: string)
    requires AllSpace(before) && AllSpace(after)
    ensures Strip(before + s + after) == Strip(s)
  {
    if AllSpace(s) {
      AllSpaceConcat(before, s);
      AllSpaceConcat(before + s, after);
    } else {
      var lead, trail := StripSplit(s);
      Regroup(before, lead, Strip(s), trail, after);
      AllSpaceConcat(before, lead);
      AllSpaceConcat(trail, after);
      StripSurrounded(before + lead, Strip(s), trail + after);
    }
  }

  /** Stripping twice is stripping once. */
  lemma StripIdempotent(s: string)
    ensures Strip(Strip(s)) == Strip(s)
  {
    var r := Strip(s);
    if r != [] {
      StripBetween(r, 0, |r|);
      assert r[0..|r|] == r;
    }
  }

  /**
   * POSIX `os.path.join(a, b)` for one extra component: an absolute `b`
   * replaces `a`; otherwise `b` is appended with a '/' unless `a` is empty or
   * already ends with one.
   */
  function Join(a: string, b: string): (r: string)
    ensures b != [] && b[0] == '/' ==> r == b
    ensures (b == [] || b[0] != '/') ==>
      |a| + |b| <= |r| <= |a| + |b| + 1 && r[..|a|] == a && r[|r| - |b|..] == b
    ensures (b == [] || b[0] != '/') && (a == [] || a[|a| - 1] == '/') ==>
      |r| == |a| + |b|
    ensures (b == [] || b[0] != '/') && a != [] && a[|a| - 1] != '/' ==>
      |r| == |a| + |b| + 1 && r[|a|] == '/'
  {
    if |b| > 0 && b[0] == '/' then b
    else if a == [] || a[|a| - 1] == '/' then a + b
    else a + "/" + b
  }

  /** One past the last '/' before position `j` of `p`, or 0 when there is none (`p.rfind('/', 0, j) + 1`). */
  function NameStart(p: string, j: nat): (k: nat)
    requires j <= |p|
    ensures k <= j
    ensures k > 0 ==> p[k - 1] == '/'
    ensures forall m :: k <= m < j ==> p[m] != '/'
    decreases j
  {
    if j == 0 || p[j - 1] == '/' then j else NameStart(p, j - 1)
  }

  /** POSIX `os.path.basename(p)`: the part of `p` after its last '/'. */
  function Basename(p: string): (r: string)
    ensures '/' !in r
    ensures |r| <= |p| && r == p[|p| - |r|..]
    ensures |r| == |p| || p[|p| - |r| - 1] == '/'
  {
    var k := NameStart(p, |p|);
    assert forall m :: 0 <= m < |p| - k ==> p[k..][m] == p[k + m];
    p[k..]
  }

  /** The base name of a slash-free name placed after a '/' (or at the start) is that name. */
  lemma BasenameAfterSlash(s: string, b: string)
    requires s == [] || s[|s| - 1] == '/'
    requires '/' !in b
    ensures Basename(s + b) == b
  {
    var p := s + b;
    var k := NameStart(p, |p|);
    assert forall m :: |s| <= m < |p| ==> p[m] == b[m - |s|];
    assert |s| > 0 ==> p[|s| - 1] == '/';
    assert forall m :: |s| <= m < |p| ==> p[m] != '/';
    assert k == |s|;
    assert p[|s|..] == b;
  }

  /** Joining a slash-free name onto a directory and taking the basename gives the name back. */
  lemma BasenameOfJoin(dir: string, name: string)
    requires name != [] && '/' !in name
    ensures Basename(Join(dir, name)) == name
  {
    assert name[0] != '/';
    if dir == [] || dir[|dir| - 1] == '/' {
      BasenameAfterSlash(dir, name);
    } else {
      assert dir + "/" + name == (dir + "/") + name;
      BasenameAfterSlash(dir + "/", name);
    }
  }
}
