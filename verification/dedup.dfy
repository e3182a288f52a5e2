/**
 * deduplicate: sort by score, highest first, then keep the first row per
 * exact Email value and then the first row per exact Company value.
 */
module Dedup {
  import opened Leads

  function EmailOf(r: ScoredLead): string { r.email }

  function CompanyOf(r: ScoredLead): string { r.company }

  /** Ordered by score, highest first. */
  predicate NonIncreasing(s: seq<ScoredLead>) {
    forall i, j :: 0 <= i < j < |s| ==> s[i].score >= s[j].score
  }

  /** What any descending sort by score may return: the same rows, ordered.
      The tie order is left open. */
  predicate SortedPermutationOf(t: seq<ScoredLead>, s: seq<ScoredLead>) {
    multiset(t) == multiset(s) && NonIncreasing(t)
  }

  /** No two rows share a key. */
  predicate DistinctBy(s: seq<ScoredLead>, key: ScoredLead -> string) {
    forall i, j :: 0 <= i < j < |s| ==> key(s[i]) != key(s[j])
  }

  /** `a` is `b` with some rows left out and the rest in their order. */
  predicate IsSubseq<T(==)>(a: seq<T>, b: seq<T>)
    decreases |b|
  {
    a == [] || (b != [] && ((a[0] == b[0] && IsSubseq(a[1..], b[1..])) || IsSubseq(a, b[1..])))
  }

  // ---------------------------------------------------------------------
  // Sorting

  /** Places `x` before the first row of `s` that scores no more than it. */
  function Insert(x: ScoredLead, s: seq<ScoredLead>): (r: seq<ScoredLead>)
    ensures multiset(r) == multiset(s) + multiset{x}
    ensures |r| == |s| + 1
  {
    if s == [] || x.score >= s[0].score then [x] + s
    else
      assert s == [s[0]] + s[1..];
      [s[0]] + Insert(x, s[1..])
  }

  /** Inserting into ordered rows keeps them ordered. */
  lemma {:induction false} InsertOrdered(x: ScoredLead, s: seq<ScoredLead>)
    requires NonIncreasing(s)
    ensures NonIncreasing(Insert(x, s))
  {
    if s != [] && x.score < s[0].score {
      var rest := Insert(x, s[1..]);
      InsertOrdered(x, s[1..]);
      forall k | 0 <= k < |rest| ensures rest[k].score <= s[0].score {
        assert rest[k] in multiset(rest);
        assert rest[k] == x || rest[k] in s[1..];
      }
      assert Insert(x, s) == [s[0]] + rest;
    }
  }

  /** `sort_values(by="Lead Score", ascending=False)`, as an insertion sort
      that keeps equal-scored rows in their input order. */
  function SortByScore(s: seq<ScoredLead>): (r: seq<ScoredLead>)
    ensures SortedPermutationOf(r, s) && |r| == |s|
  {
    if s == [] then []
    else
      assert s == [s[0]] + s[1..];
      InsertOrdered(s[0], SortByScore(s[1..]));
      Insert(s[0], SortByScore(s[1..]))
  }

  /** One step of the sort: the row at `k` is inserted into the sorted rows after it. */
  lemma SortSuffix(s: seq<ScoredLead>, k: nat)
    requires k < |s|
    ensures SortByScore(s[k..]) == Insert(s[k], SortByScore(s[k + 1..]))
  {
    assert s[k..][1..] == s[k + 1..];
  }

  /** Inserting before a row with a lower or equal score. */
  lemma InsertFront(x: ScoredLead, s: seq<ScoredLead>)
    requires s == [] || x.score >= s[0].score
    ensures Insert(x, s) == [x] + s
  {
  }

  /** Inserting past a row with a higher score. */
  lemma InsertPast(x: ScoredLead, y: ScoredLead, s: seq<ScoredLead>)
    requires x.score < y.score
    ensures Insert(x, [y] + s) == [y] + Insert(x, s)
  {
    assert ([y] + s)[1..] == s;
  }

  /** A row goes after exactly the leading rows that score more than it. */
  lemma {:induction false} InsertAt(x: ScoredLead, s: seq<ScoredLead>, i: nat)
    requires i <= |s|
    requires forall k :: 0 <= k < i ==> x.score < s[k].score
    requires i == |s| || x.score >= s[i].score
    ensures Insert(x, s) == s[..i] + [x] + s[i..]
  {
    if i == 0 {
      assert s[..0] == [] && s[0..] == s;
    } else {
      InsertAt(x, s[1..], i - 1);
      InsertPast(x, s[0], s[1..]);
      assert [s[0]] + s[1..] == s;
      SplitAfterHead(s, i, x);
    }
  }

  lemma SplitAfterHead<T>(s: seq<T>, i: nat, x: T)
    requires 0 < i <= |s|
    ensures [s[0]] + (s[1..][..i - 1] + [x] + s[1..][i - 1..]) == s[..i] + [x] + s[i..]
  {
    assert s[1..][..i - 1] == s[1..i];
    assert s[1..][i - 1..] == s[i..];
    assert s[..i] == [s[0]] + s[1..i];
  }

  /** Sorting rows that are already ordered changes nothing. */
  lemma {:induction false} SortOrderedIsIdentity(s: seq<ScoredLead>)
    requires NonIncreasing(s)
    ensures SortByScore(s) == s
  {
    if s != [] {
      SortOrderedIsIdentity(s[1..]);
      InsertFront(s[0], s[1..]);
      assert s == [s[0]] + s[1..];
    }
  }

  // ---------------------------------------------------------------------
  // Subsequences

  lemma {:induction false} SubseqMultiset<T>(a: seq<T>, b: seq<T>)
    requires IsSubseq(a, b)
    ensures multiset(a) <= multiset(b)
    decreases |b|
  {
    if a != [] {
      assert b == [b[0]] + b[1..];
      if a[0] == b[0] && IsSubseq(a[1..], b[1..]) {
        SubseqMultiset(a[1..], b[1..]);
        assert a == [a[0]] + a[1..];
      } else {
        SubseqMultiset(a, b[1..]);
      }
    }
  }

  lemma {:induction false} SubseqTransitive<T>(a: seq<T>, b: seq<T>, c: seq<T>)
    requires IsSubseq(a, b) && IsSubseq(b, c)
    ensures IsSubseq(a, c)
    decreases |c|
  {
    if a != [] {
      if IsSubseq(b, c[1..]) {
        SubseqTransitive(a, b, c[1..]);
      } else {
        // b[0] == c[0] and IsSubseq(b[1..], c[1..])
        if a[0] == b[0] && IsSubseq(a[1..], b[1..]) {
          SubseqTransitive(a[1..], b[1..], c[1..]);
        } else {
          SubseqTransitive(a, b[1..], c[1..]);
        }
      }
    }
  }

  /** Leaving rows out keeps the order by score. */
  lemma {:induction false} SubseqNonIncreasing(a: seq<ScoredLead>, b: seq<ScoredLead>)
    requires IsSubseq(a, b) && NonIncreasing(b)
    ensures NonIncreasing(a)
    decreases |b|
  {
    if a != [] {
      if a[0] == b[0] && IsSubseq(a[1..], b[1..]) {
        SubseqNonIncreasing(a[1..], b[1..]);
        SubseqMultiset(a[1..], b[1..]);
        forall k | 1 <= k < |a| ensures a[0].score >= a[k].score {
          assert a[k] == a[1..][k - 1];
          assert a[k] in multiset(b[1..]);
        }
      } else {
        SubseqNonIncreasing(a, b[1..]);
      }
    }
  }

  /** Leaving rows out keeps keys distinct. */
  lemma {:induction false} SubseqDistinct(a: seq<ScoredLead>, b: seq<ScoredLead>, key: ScoredLead -> string)
    requires IsSubseq(a, b) && DistinctBy(b, key)
    ensures DistinctBy(a, key)
    decreases |b|
  {
    if a != [] {
      if a[0] == b[0] && IsSubseq(a[1..], b[1..]) {
        SubseqDistinct(a[1..], b[1..], key);
        SubseqMultiset(a[1..], b[1..]);
        forall k | 1 <= k < |a| ensures key(a[0]) != key(a[k]) {
          assert a[k] == a[1..][k - 1];
          assert a[k] in multiset(b[1..]);
        }
      } else {
        SubseqDistinct(a, b[1..], key);
      }
    }
  }

  // ---------------------------------------------------------------------
  // drop_duplicates(keep="first")

  /** Keeps a row when its key is neither in `seen` nor the key of an
      earlier row. The result leaves rows out of `s` without reordering,
      has distinct keys, and none of them is in `seen`. */
  function DropSeen(s: seq<ScoredLead>, key: ScoredLead -> string, seen: set<string>): (r: seq<ScoredLead>)
    ensures IsSubseq(r, s)
    ensures DistinctBy(r, key)
    ensures forall i :: 0 <= i < |r| ==> key(r[i]) !in seen
  {
    if s == [] then []
    else if key(s[0]) in seen then
      DropSeen(s[1..], key, seen)
    else
      var rest := DropSeen(s[1..], key, seen + {key(s[0])});
      assert ([s[0]] + rest)[1..] == rest;
      [s[0]] + rest
  }

  /** `drop_duplicates(subset=[key], keep="first")`. */
  function DropDuplicates(s: seq<ScoredLead>, key: ScoredLead -> string): seq<ScoredLead> {
    DropSeen(s, key, {})
  }

  /** Every first occurrence of a key not in `seen` is kept. */
  lemma {:induction false} FirstOccurrenceKept(s: seq<ScoredLead>, key: ScoredLead -> string, seen: set<string>, i: nat)
    requires i < |s| && key(s[i]) !in seen
    requires forall j :: 0 <= j < i ==> key(s[j]) != key(s[i])
    ensures s[i] in DropSeen(s, key, seen)
  {
    if i > 0 {
      var seen' := if key(s[0]) in seen then seen else seen + {key(s[0])};
      assert key(s[i]) !in seen';
      FirstOccurrenceKept(s[1..], key, seen', i - 1);
    }
  }

  /** On rows ordered by score, the row kept for a key scores at least as
      much as every row with that key. */
  lemma {:induction false} DropKeepsBestScore(s: seq<ScoredLead>, key: ScoredLead -> string, seen: set<string>)
    requires NonIncreasing(s)
    ensures forall y, x :: y in DropSeen(s, key, seen) && x in s && key(x) == key(y) ==> x.score <= y.score
  {
    if s != [] {
      var seen' := if key(s[0]) in seen then seen else seen + {key(s[0])};
      DropKeepsBestScore(s[1..], key, seen');
      var r := DropSeen(s, key, seen);
      forall y, x | y in r && x in s && key(x) == key(y) ensures x.score <= y.score {
        if y == s[0] {
          assert forall k :: 0 <= k < |s| ==> s[k].score <= s[0].score;
        } else {
          assert y in DropSeen(s[1..], key, seen');
          assert key(y) != key(s[0]);
          assert x in s[1..];
        }
      }
    }
  }

  /** Rows whose keys are already distinct, none of them in `seen`, are all kept. */
  lemma {:induction false} DropDistinctIsIdentity(s: seq<ScoredLead>, key: ScoredLead -> string, seen: set<string>)
    requires DistinctBy(s, key)
    requires forall i :: 0 <= i < |s| ==> key(s[i]) !in seen
    ensures DropSeen(s, key, seen) == s
  {
    if s != [] {
      DropDistinctIsIdentity(s[1..], key, seen + {key(s[0])});
      assert s == [s[0]] + s[1..];
    }
  }

  // ---------------------------------------------------------------------
  // deduplicate

  /** The two drop passes of deduplicate on a frame already sorted when the
      Email column exists. */
  function DropPasses(t: seq<ScoredLead>, emailColumn: bool): seq<ScoredLead> {
    DropDuplicates(if emailColumn then DropDuplicates(t, EmailOf) else t, CompanyOf)
  }

  /** deduplicate. `emailColumn` says whether the frame has an Email column;
      only then is it sorted and thinned by e-mail. */
  function Deduplicate(s: seq<ScoredLead>, emailColumn: bool): seq<ScoredLead> {
    DropPasses(if emailColumn then SortByScore(s) else s, emailColumn)
  }

  /** No row before index `n` has the key of the row at `n`. */
  predicate FirstAt(s: seq<ScoredLead>, key: ScoredLead -> string, n: nat)
    requires n < |s|
  {
    forall j :: 0 <= j < n ==> key(s[j]) != key(s[n])
  }

  /** The reference meaning of `keep="first"`, by position: the rows at the
      indices whose key occurs at no smaller index, in index order. */
  function KeepFirst(s: seq<ScoredLead>, key: ScoredLead -> string): (r: seq<ScoredLead>)
    ensures |r| <= |s|
    decreases |s|
  {
    if s == [] then []
    else
      var n := |s| - 1;
      KeepFirst(s[..n], key) + (if FirstAt(s, key, n) then [s[n]] else [])
  }

  /** A drop pass over rows followed by one more row keeps that row exactly
      when its key is neither seen nor earlier. */
  lemma {:induction false} DropSeenSnoc(s: seq<ScoredLead>, x: ScoredLead, key: ScoredLead -> string, seen: set<string>)
    ensures DropSeen(s + [x], key, seen) ==
            DropSeen(s, key, seen) +
            (if key(x) !in seen && forall j :: 0 <= j < |s| ==> key(s[j]) != key(x) then [x] else [])
  {
    if s == [] {
      assert [] + [x] == [x];
    } else {
      assert (s + [x])[0] == s[0] && (s + [x])[1..] == s[1..] + [x];
      var seen' := if key(s[0]) in seen then seen else seen + {key(s[0])};
      DropSeenSnoc(s[1..], x, key, seen');
      assert forall j :: 0 <= j < |s| - 1 ==> s[1..][j] == s[j + 1];
      if key(s[0]) !in seen {
        assert [s[0]] + (DropSeen(s[1..], key, seen') + [x]) == ([s[0]] + DropSeen(s[1..], key, seen')) + [x];
      }
    }
  }

  /** The drop pass computes the positional reference. */
  lemma {:induction false} DropDuplicatesIsKeepFirst(s: seq<ScoredLead>, key: ScoredLead -> string)
    ensures DropDuplicates(s, key) == KeepFirst(s, key)
    decreases |s|
  {
    if s != [] {
      var n := |s| - 1;
      DropDuplicatesIsKeepFirst(s[..n], key);
      assert s == s[..n] + [s[n]];
      DropSeenSnoc(s[..n], s[n], key, {});
    }
  }

  /** Every key of the input is the key of some kept row, unless it is seen. */
  lemma {:induction false} DropSeenKeepsKeys(s: seq<ScoredLead>, key: ScoredLead -> string, seen: set<string>)
    ensures forall x :: x in s && key(x) !in seen ==>
              exists y :: y in DropSeen(s, key, seen) && key(y) == key(x)
  {
    if s != [] {
      var seen' := if key(s[0]) in seen then seen else seen + {key(s[0])};
      DropSeenKeepsKeys(s[1..], key, seen');
      forall x | x in s && key(x) !in seen
        ensures exists y :: y in DropSeen(s, key, seen) && key(y) == key(x)
      {
        if key(x) == key(s[0]) {
          assert s[0] in DropSeen(s, key, seen);
        } else {
          assert x in s[1..];
        }
      }
    }
  }

  /** drop_duplicates keeps the first row of every key: the result is the
      positional reference, leaves rows out without reordering, its keys are
      distinct, every key of the input is kept, and every row whose key does
      not occur earlier is in it. */
  lemma DropDuplicatesSpec(s: seq<ScoredLead>, key: ScoredLead -> string)
    ensures DropDuplicates(s, key) == KeepFirst(s, key)
    ensures IsSubseq(DropDuplicates(s, key), s)
    ensures DistinctBy(DropDuplicates(s, key), key)
    ensures forall x :: x in s ==> exists y :: y in DropDuplicates(s, key) && key(y) == key(x)
    ensures forall i :: 0 <= i < |s| && FirstAt(s, key, i) ==> s[i] in DropDuplicates(s, key)
  {
    DropDuplicatesIsKeepFirst(s, key);
    DropSeenKeepsKeys(s, key, {});
    forall i | 0 <= i < |s| && FirstAt(s, key, i)
      ensures s[i] in DropDuplicates(s, key)
    {
      FirstOccurrenceKept(s, key, {}, i);
    }
  }

  /** The first row is always kept. */
  lemma DropKeepsHead(s: seq<ScoredLead>, key: ScoredLead -> string)
    requires s != []
    ensures DropDuplicates(s, key) != [] && DropDuplicates(s, key)[0] == s[0]
  {
  }

  /** The passes on any order a descending sort may give, ties included:
      the result leaves rows out without reordering, stays ordered by score,
      has distinct e-mails and distinct companies, and the row kept for an
      e-mail scores at least as much as every input row with that e-mail. */
  lemma DropPassesSpec(s: seq<ScoredLead>, t: seq<ScoredLead>)
    requires SortedPermutationOf(t, s)
    ensures IsSubseq(DropPasses(t, true), t)
    ensures multiset(DropPasses(t, true)) <= multiset(s)
    ensures NonIncreasing(DropPasses(t, true))
    ensures DistinctBy(DropPasses(t, true), EmailOf)
    ensures DistinctBy(DropPasses(t, true), CompanyOf)
    ensures forall y, x :: y in DropPasses(t, true) && x in s && x.email == y.email ==> x.score <= y.score
  {
    var e := DropDuplicates(t, EmailOf);
    var r := DropDuplicates(e, CompanyOf);
    SubseqTransitive(r, e, t);
    SubseqMultiset(r, t);
    SubseqNonIncreasing(r, t);
    SubseqDistinct(r, e, EmailOf);
    KeptEmailScoresBest(s, t);
  }

  lemma KeptEmailScoresBest(s: seq<ScoredLead>, t: seq<ScoredLead>)
    requires SortedPermutationOf(t, s)
    ensures forall y, x :: y in DropPasses(t, true) && x in s && x.email == y.email ==> x.score <= y.score
  {
    var e := DropDuplicates(t, EmailOf);
    var r := DropDuplicates(e, CompanyOf);
    DropKeepsBestScore(t, EmailOf, {});
    SubseqMultiset(r, e);
    forall y | y in r ensures y in e {
      assert y in multiset(r);
    }
    forall x | x in s ensures x in t {
      assert x in multiset(s);
    }
  }

  /** deduplicate, as the pipeline relies on it. The result is the
      positional keep-first reference applied per e-mail to the score-sorted
      rows and then per company. With an Email column it is drawn in order
      from the score-sorted rows, stays sorted, keeps the top-scoring row,
      has distinct e-mails ("" included) and distinct companies (exact
      match), and for each e-mail it keeps, the kept row has the highest
      score any input row with that e-mail has. Without one, only the
      company pass runs and every company of the input is kept. */
  lemma DeduplicateSpec(s: seq<ScoredLead>, emailColumn: bool)
    ensures Deduplicate(s, emailColumn) ==
            KeepFirst(if emailColumn then KeepFirst(SortByScore(s), EmailOf) else s, CompanyOf)
    ensures emailColumn && s != [] ==>
              Deduplicate(s, emailColumn) != [] && Deduplicate(s, emailColumn)[0] == SortByScore(s)[0]
    ensures !emailColumn ==> forall x :: x in s ==>
              exists y :: y in Deduplicate(s, emailColumn) && y.company == x.company
    ensures IsSubseq(Deduplicate(s, emailColumn), if emailColumn then SortByScore(s) else s)
    ensures multiset(Deduplicate(s, emailColumn)) <= multiset(s)
    ensures DistinctBy(Deduplicate(s, emailColumn), CompanyOf)
    ensures emailColumn ==> NonIncreasing(Deduplicate(s, emailColumn))
    ensures emailColumn ==> DistinctBy(Deduplicate(s, emailColumn), EmailOf)
    ensures emailColumn ==> forall y, x :: y in Deduplicate(s, emailColumn) && x in s && x.email == y.email ==>
                              x.score <= y.score
  {
    if emailColumn {
      var t := SortByScore(s);
      DropDuplicatesIsKeepFirst(t, EmailOf);
      DropDuplicatesIsKeepFirst(DropDuplicates(t, EmailOf), CompanyOf);
      DropPassesSpec(s, t);
      if s != [] {
        DropKeepsHead(t, EmailOf);
        DropKeepsHead(DropDuplicates(t, EmailOf), CompanyOf);
      }
    } else {
      DropDuplicatesIsKeepFirst(s, CompanyOf);
      DropSeenKeepsKeys(s, CompanyOf, {});
      SubseqMultiset(Deduplicate(s, false), s);
    }
  }

  /** Deduplicating twice gives what deduplicating once gives. */
  lemma DeduplicateIdempotent(s: seq<ScoredLead>, emailColumn: bool)
    ensures Deduplicate(Deduplicate(s, emailColumn), emailColumn) == Deduplicate(s, emailColumn)
  {
    var r := Deduplicate(s, emailColumn);
    DeduplicateSpec(s, emailColumn);
    if emailColumn {
      SortOrderedIsIdentity(r);
      DropDistinctIsIdentity(r, EmailOf, {});
    }
    DropDistinctIsIdentity(r, CompanyOf, {});
  }

  lemma {:induction false} NoRepeatedRow(r: seq<ScoredLead>, key: ScoredLead -> string)
    requires DistinctBy(r, key)
    ensures forall x :: multiset(r)[x] <= 1
  {
    if r != [] {
      NoRepeatedRow(r[1..], key);
      forall k | 0 <= k < |r| - 1 ensures r[1..][k] != r[0] {
        assert key(r[k + 1]) != key(r[0]);
      }
      assert r == [r[0]] + r[1..];
    }
  }

  lemma RepeatCounted(t: seq<ScoredLead>, i: nat, j: nat)
    requires i < j < |t|
    ensures t[i] == t[j] ==> multiset(t)[t[i]] >= 2
  {
    assert t == t[..j] + t[j..];
    assert t[i] in multiset(t[..j]);
    assert t[j] in multiset(t[j..]);
  }

  /** Distinct keys do not depend on the order of the rows. */
  lemma DistinctByPermutation(r: seq<ScoredLead>, t: seq<ScoredLead>, key: ScoredLead -> string)
    requires DistinctBy(r, key) && multiset(t) == multiset(r)
    ensures DistinctBy(t, key)
  {
    NoRepeatedRow(r, key);
    forall i, j | 0 <= i < j < |t| ensures key(t[i]) != key(t[j]) {
      RepeatCounted(t, i, j);
      assert t[i] in multiset(r) && t[j] in multiset(r);
      var p :| 0 <= p < |r| && r[p] == t[i];
      var q :| 0 <= q < |r| && r[q] == t[j];
    }
  }

  /** Deduplicating the result again removes nothing, whatever order the
      sort gives equal-scored rows the second time. */
  lemma SecondDeduplicateRemovesNothing(s: seq<ScoredLead>, t: seq<ScoredLead>)
    requires SortedPermutationOf(t, Deduplicate(s, true))
    ensures DropPasses(t, true) == t
  {
    var r := Deduplicate(s, true);
    DeduplicateSpec(s, true);
    DistinctByPermutation(r, t, EmailOf);
    DistinctByPermutation(r, t, CompanyOf);
    DropDistinctIsIdentity(t, EmailOf, {});
    DropDistinctIsIdentity(t, CompanyOf, {});
  }
}
