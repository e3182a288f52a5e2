/**
 * Character classes and string primitives the lead pipeline relies on
 * (Python's `str.strip`, `str.lower`, `str.isalnum`, the `\w` class of `re`,
 * substring `in`, and index search), modelled over ASCII.
 */
module Text {
  import opened Wrappers

  /** `str.isspace` on ASCII: space, tab, line feed, vertical tab, form feed,
      carriage return and the four separators 0x1C..0x1F. */
  predicate IsSpace(c: char) {
    c == ' ' || ('\U{9}' <= c <= '\U{D}') || ('\U{1C}' <= c <= '\U{1F}')
  }

  predicate IsUpper(c: char) { 'A' <= c <= 'Z' }

  predicate IsLower(c: char) { 'a' <= c <= 'z' }

  predicate IsDigit(c: char) { '0' <= c <= '9' }

  /** `str.isalnum` on ASCII. */
  predicate IsAlnum(c: char) { IsUpper(c) || IsLower(c) || IsDigit(c) }

  /** The regular-expression class `\w` on ASCII. */
  predicate IsWordChar(c: char) { IsAlnum(c) || c == '_' }

  /** `str.lower` on one ASCII character. */
  function LowerChar(c: char): (r: char)
    ensures !IsUpper(r)
    ensures IsAlnum(c) <==> IsAlnum(r)
    ensures IsSpace(c) <==> IsSpace(r)
    ensures !IsUpper(c) ==> r == c
  {
    if IsUpper(c) then (c as int + 32) as char else c
  }

  /** `str.lower`: maps every character, so the length is kept. */
  function Lower(s: string): (r: string)
    ensures |r| == |s|
  {
    seq(|s|, i requires 0 <= i < |s| => LowerChar(s[i]))
  }

  /** Drops leading whitespace. The result is the longest suffix that does not
      start with whitespace, and everything removed is whitespace. */
  function TrimLeft(s: string): (r: string)
    ensures |r| <= |s| && r == s[|s| - |r|..]
    ensures forall k :: 0 <= k < |s| - |r| ==> IsSpace(s[k])
    ensures r == [] || !IsSpace(r[0])
  {
    if s != [] && IsSpace(s[0]) then TrimLeft(s[1..]) else s
  }

  /** Drops trailing whitespace, symmetrically to TrimLeft. */
  function TrimRight(s: string): (r: string)
    ensures |r| <= |s| && r == s[..|r|]
    ensures forall k :: |r| <= k < |s| ==> IsSpace(s[k])
    ensures r == [] || !IsSpace(r[|r| - 1])
  {
    if s != [] && IsSpace(s[|s| - 1]) then TrimRight(s[..|s| - 1]) else s
  }

  /** `str.strip()` with no argument. */
  function Trim(s: string): string {
    TrimRight(TrimLeft(s))
  }

  /** A string strips to nothing exactly when all its characters are whitespace. */
  lemma TrimEmptyIffBlank(s: string)
    ensures Trim(s) == [] <==> forall k :: 0 <= k < |s| ==> IsSpace(s[k])
  {
  }

  /** A string with no whitespace at either end strips to itself. */
  lemma TrimUnchanged(t: string)
    requires t != [] && !IsSpace(t[0]) && !IsSpace(t[|t| - 1])
    ensures Trim(t) == t
  {
    assert TrimLeft(t) == t;
  }

  /** Whether `p` occurs in `s` starting exactly at index `i`, compared
      character by character from offset `j` on. */
  predicate MatchesAt(s: string, p: string, i: nat, j: nat)
    requires i + |p| <= |s|
    decreases |p| - j
  {
    j >= |p| || (s[i + j] == p[j] && MatchesAt(s, p, i, j + 1))
  }

  /** Whether `p` occurs in `s` at some index from `i` on. */
  predicate ContainsFrom(s: string, p: string, i: nat)
    decreases |s| - i
  {
    i + |p| <= |s| && (MatchesAt(s, p, i, 0) || ContainsFrom(s, p, i + 1))
  }

  /** Python's `p in s` on strings: a left-to-right search for `p`. */
  predicate Contains(s: string, p: string) {
    ContainsFrom(s, p, 0)
  }

  /** The slice of `s` of length |p| starting at `k` is `p`. */
  ghost predicate SliceIs(s: string, p: string, k: nat) {
    k + |p| <= |s| && s[k..k + |p|] == p
  }

  /** The reference meaning of `p in s`: some slice of `s` equals `p`. */
  ghost predicate IsSubstring(p: string, s: string) {
    exists k: nat :: SliceIs(s, p, k)
  }

  lemma {:induction false} MatchesAtIffSlice(s: string, p: string, i: nat, j: nat)
    requires i + |p| <= |s| && j <= |p|
    ensures MatchesAt(s, p, i, j) <==> s[i + j..i + |p|] == p[j..]
    decreases |p| - j
  {
    if j < |p| {
      MatchesAtIffSlice(s, p, i, j + 1);
      assert s[i + j..i + |p|] == [s[i + j]] + s[i + j + 1..i + |p|];
      assert p[j..] == [p[j]] + p[j + 1..];
    }
  }

  lemma {:induction false} ContainsFromIffSlice(s: string, p: string, i: nat)
    ensures ContainsFrom(s, p, i) <==> exists k: nat :: i <= k && SliceIs(s, p, k)
    decreases |s| - i
  {
    if i + |p| <= |s| {
      MatchesAtIffSlice(s, p, i, 0);
      assert p[0..] == p;
      ContainsFromIffSlice(s, p, i + 1);
      if MatchesAt(s, p, i, 0) {
        assert SliceIs(s, p, i);
      }
      if exists k: nat :: i <= k && SliceIs(s, p, k) {
        var k: nat :| i <= k && SliceIs(s, p, k);
        if k > i {
          assert i + 1 <= k;
        }
      }
    }
  }

  /** The search agrees with the reference meaning of substring membership. */
  lemma ContainsIsSubstring(s: string, p: string)
    ensures Contains(s, p) <==> IsSubstring(p, s)
  {
    ContainsFromIffSlice(s, p, 0);
  }

  /** A window of `s` that equals `p` makes `p in s` true. */
  lemma ContainsWindow(s: string, p: string, i: nat)
    requires i + |p| <= |s| && s[i..i + |p|] == p
    ensures Contains(s, p)
  {
    assert SliceIs(s, p, i);
    ContainsIsSubstring(s, p);
  }

  /** The search from `i` fails when no window of `s` from `i` on begins
      with the first two characters of `p`. */
  lemma {:induction false} NoWindowStartsWith(s: string, p: string, i: nat)
    requires |p| >= 2
    requires forall k :: i <= k && k + |p| <= |s| ==> s[k] != p[0] || s[k + 1] != p[1]
    ensures !ContainsFrom(s, p, i)
    decreases |s| - i
  {
    if i + |p| <= |s| {
      if s[i] == p[0] {
        assert !MatchesAt(s, p, i, 1);
      }
      NoWindowStartsWith(s, p, i + 1);
    }
  }

  /** The first index at or after `i` holding `c`. */
  function IndexFrom(s: string, c: char, i: nat): (r: Option<nat>)
    ensures r.None? ==> forall k :: i <= k < |s| ==> s[k] != c
    ensures r.Some? ==> i <= r.value < |s| && s[r.value] == c &&
                        forall k :: i <= k < r.value ==> s[k] != c
    decreases |s| - i
  {
    if i >= |s| then None
    else if s[i] == c then Some(i)
    else IndexFrom(s, c, i + 1)
  }

  /** The first index of `c` in `s`, if any. */
  function IndexOf(s: string, c: char): (r: Option<nat>)
    ensures r.None? <==> c !in s
    ensures r.Some? ==> r.value < |s| && s[r.value] == c && c !in s[..r.value]
  {
    IndexFrom(s, c, 0)
  }

  /** The last index below `n` holding `c`. */
  function LastIndexBelow(s: string, c: char, n: nat): (r: Option<nat>)
    requires n <= |s|
    ensures r.None? ==> forall k :: 0 <= k < n ==> s[k] != c
    ensures r.Some? ==> r.value < n && s[r.value] == c &&
                        forall k :: r.value < k < n ==> s[k] != c
  {
    if n == 0 then None
    else if s[n - 1] == c then Some(n - 1)
    else LastIndexBelow(s, c, n - 1)
  }

  /** The last index of `c` in `s`, if any. */
  function LastIndexOf(s: string, c: char): (r: Option<nat>)
    ensures r.None? <==> c !in s
    ensures r.Some? ==> r.value < |s| && s[r.value] == c && c !in s[r.value + 1..]
  {
    LastIndexBelow(s, c, |s|)
  }
}
