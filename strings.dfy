/** The parts of Go's `strings` and `fmt` packages that the configuration
    library relies on, over strings of Unicode code points. */
module Strings {
  import opened Wrappers

  /** The characters Go's `unicode.IsSpace` accepts: the Unicode White_Space set. */
  predicate IsSpace(c: char) {
    c == ' ' || c == '\t' || c == '\n' || c == '\r' || c == '\U{B}' || c == '\U{C}'
    || c == '\U{85}' || c == '\U{A0}' || c == '\U{1680}'
    || ('\U{2000}' <= c && c <= '\U{200A}')
    || c == '\U{2028}' || c == '\U{2029}' || c == '\U{202F}' || c == '\U{205F}' || c == '\U{3000}'
  }

  predicate AllSpace(s: string) {
    forall k :: 0 <= k < |s| ==> IsSpace(s[k])
  }

  /** No white space at either end: what `strings.TrimSpace` leaves. */
  predicate Trimmed(s: string) {
    s == [] || (!IsSpace(s[0]) && !IsSpace(s[|s| - 1]))
  }

  /** First index at or after `i` that does not hold white space. */
  function SkipSpace(s: string, i: nat): (j: nat)
    requires i <= |s|
    ensures i <= j <= |s|
    ensures forall k :: i <= k < j ==> IsSpace(s[k])
    ensures j < |s| ==> !IsSpace(s[j])
    decreases |s| - i
  {
    if i < |s| && IsSpace(s[i]) then SkipSpace(s, i + 1) else i
  }

  /** Last end position at or before `j`, and not below `lo`, whose preceding character is not white space. */
  function SkipSpaceBack(s: string, lo: nat, j: nat): (r: nat)
    requires lo <= j <= |s|
    ensures lo <= r <= j
    ensures forall k :: r <= k < j ==> IsSpace(s[k])
    ensures lo < r ==> !IsSpace(s[r - 1])
    decreases j
  {
    if lo < j && IsSpace(s[j - 1]) then SkipSpaceBack(s, lo, j - 1) else j
  }

  /** `strings.TrimSpace`: drop leading and trailing white space. */
  function TrimSpace(s: string): (r: string)
    ensures |r| <= |s|
    ensures Trimmed(r)
    ensures Trimmed(s) ==> r == s
  {
    var lo := SkipSpace(s, 0);
    s[lo..SkipSpaceBack(s, lo, |s|)]
  }

  lemma {:induction false} SkipSpaceExact(s: string, i: nat, j: nat)
    requires i <= j <= |s|
    requires forall k :: i <= k < j ==> IsSpace(s[k])
    requires j < |s| ==> !IsSpace(s[j])
    ensures SkipSpace(s, i) == j
    decreases j - i
  {
    if i < j {
      SkipSpaceExact(s, i + 1, j);
    }
  }

  lemma {:induction false} SkipSpaceBackExact(s: string, lo: nat, j: nat, r: nat)
    requires lo <= r <= j <= |s|
    requires forall k :: r <= k < j ==> IsSpace(s[k])
    requires lo < r ==> !IsSpace(s[r - 1])
    ensures SkipSpaceBack(s, lo, j) == r
    decreases j - r
  {
    if r < j {
      SkipSpaceBackExact(s, lo, j - 1, r);
    }
  }

  /** TrimSpace undoes any white-space padding around a trimmed string. */
  lemma TrimSpacePadding(pre: string, t: string, post: string)
    requires AllSpace(pre) && AllSpace(post) && Trimmed(t)
    ensures TrimSpace(pre + t + post) == t
  {
    var s := pre + t + post;
    if t == [] {
      assert AllSpace(s);
      SkipSpaceExact(s, 0, |s|);
      assert s[|s|..|s|] == [];
    } else {
      SkipSpaceExact(s, 0, |pre|);
      SkipSpaceBackExact(s, |pre|, |s|, |pre| + |t|);
      assert s[|pre|..|pre| + |t|] == t;
    }
  }

  predicate IsUpper(c: char) {
    'A' <= c <= 'Z'
  }

  function LowerChar(c: char): (r: char)
    ensures !IsUpper(r)
    ensures IsSpace(r) <==> IsSpace(c)
    ensures !IsUpper(c) ==> r == c
  {
    if IsUpper(c) then (c as int + 32) as char else c
  }

  /** `strings.ToLower`, restricted to the ASCII case mapping. */
  function ToLower(s: string): (r: string)
    ensures |r| == |s|
    ensures forall k :: 0 <= k < |r| ==> !IsUpper(r[k])
    ensures forall k :: 0 <= k < |r| ==> r[k] == s[k] || (IsUpper(s[k]) && r[k] == s[k] + (32 as char))
    ensures (forall k :: 0 <= k < |s| ==> !IsUpper(s[k])) ==> r == s
    ensures Trimmed(s) ==> Trimmed(r)
  {
    seq(|s|, k requires 0 <= k < |s| => LowerChar(s[k]))
  }

  /** `strings.HasPrefix`. */
  predicate HasPrefix(s: string, prefix: string) {
    |prefix| <= |s| && s[..|prefix|] == prefix
  }

  /** Position of the first occurrence of `c` in `s` (`strings.IndexByte`). */
  function IndexOf(s: string, c: char): (r: Option<nat>)
    ensures r.None? <==> c !in s
    ensures r.Some? ==> r.value < |s| && s[r.value] == c && c !in s[..r.value]
  {
    if s == [] then None
    else if s[0] == c then Some(0)
    else
      assert s == [s[0]] + s[1..];
      match IndexOf(s[1..], c)
      case None => None
      case Some(i) =>
        assert s[..i + 1] == [s[0]] + s[1..][..i];
        Some(i + 1)
  }

  /** `strings.SplitN(s, sep, 2)` for a one-character separator: the text before the
      first separator and the text after it, or None when the separator is absent
      (SplitN then yields a single part). */
  function Cut(s: string, sep: char): (r: Option<(string, string)>)
    ensures r.None? <==> sep !in s
    ensures r.Some? ==> s == r.value.0 + [sep] + r.value.1 && sep !in r.value.0
  {
    match IndexOf(s, sep)
    case None => None
    case Some(i) =>
      assert s == s[..i] + [sep] + s[i + 1..];
      Some((s[..i], s[i + 1..]))
  }

  /** Cut splits at the first separator and nowhere else. */
  lemma CutFirst(before: string, sep: char, after: string)
    requires sep !in before
    ensures Cut(before + [sep] + after, sep) == Some((before, after))
  {
    var s := before + [sep] + after;
    var r := Cut(s, sep);
    assert s[|before|] == sep;
    var b := r.value.0;
    assert b == s[..|before|] == before;
    assert r.value.1 == s[|before| + 1..] == after;
  }

  /** `strings.Replace(s, string(c), "", -1)`: every occurrence of `c` removed. */
  function RemoveAll(s: string, c: char): (r: string)
    ensures c !in r
    ensures c !in s ==> r == s
  {
    if s == [] then []
    else (if s[0] == c then [] else [s[0]]) + RemoveAll(s[1..], c)
  }

  /** RemoveAll keeps every other character, as often as it occurs. */
  lemma {:induction false} RemoveAllCounts(s: string, c: char)
    ensures multiset(RemoveAll(s, c)) == multiset(s)[c := 0]
  {
    if s != [] {
      RemoveAllCounts(s[1..], c);
      assert s == [s[0]] + s[1..];
    }
  }

  /** RemoveAll keeps the order of what it keeps: it distributes over concatenation. */
  lemma {:induction false} RemoveAllAppend(a: string, b: string, c: char)
    ensures RemoveAll(a + b, c) == RemoveAll(a, c) + RemoveAll(b, c)
  {
    if a == [] {
      assert a + b == b;
    } else {
      var head := if a[0] == c then [] else [a[0]];
      assert (a + b)[0] == a[0] && (a + b)[1..] == a[1..] + b;
      var x, y := RemoveAll(a[1..], c), RemoveAll(b, c);
      RemoveAllAppend(a[1..], b, c);
      assert RemoveAll(a + b, c) == head + (x + y);
      assert RemoveAll(a, c) == head + x;
      assert head + (x + y) == (head + x) + y;
    }
  }

  function Spaces(n: nat): (r: string)
    ensures |r| == n && AllSpace(r)
    ensures forall k :: 0 <= k < n ==> r[k] == ' '
  {
    seq(n, _ => ' ')
  }

  /** `fmt` verb `%-<width>s`: left-justify `s`, padding with spaces up to `width` characters. */
  function PadRight(s: string, width: nat): (r: string)
    ensures |r| == if |s| < width then width else |s|
    ensures r[..|s|] == s
    ensures forall k :: |s| <= k < |r| ==> r[k] == ' '
  {
    if |s| < width then s + Spaces(width - |s|) else s
  }
}
