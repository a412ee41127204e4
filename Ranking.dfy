/**
 * Result aggregation of the tester: `merge` folds one search's per-tag scores into the
 * running map in place, and `sortByValue` ranks a map by descending score.
 */
module Ranking {
  import opened ScoreMaps

  // ---------------------------------------------------------------------------
  // merge
  // ---------------------------------------------------------------------------

  /** One iteration of the merge loop: add `e`'s score to its key, or insert the key. */
  function MergeStep(m: seq<Entry>, e: Entry): seq<Entry> {
    if HasKey(m, e.key) then PutEntry(m, e.key, Get(m, e.key) + e.score)
    else PutEntry(m, e.key, e.score)
  }

  /** The map `merge(map1, map2)` leaves in `map1`: `b`'s entries folded into `a`, in order. */
  function MergeInto(a: seq<Entry>, b: seq<Entry>): seq<Entry>
    decreases |b|
  {
    if b == [] then a else MergeStep(MergeInto(a, b[..|b| - 1]), b[|b| - 1])
  }

  /** The entries of `b` whose keys `a` lacks, in `b`'s order. */
  function Unseen(b: seq<Entry>, a: seq<Entry>): seq<Entry>
    decreases |b|
  {
    if b == [] then []
    else Unseen(b[..|b| - 1], a) + if HasKey(a, b[|b| - 1].key) then [] else [b[|b| - 1]]
  }

  /** `Unseen(b, a)` holds exactly the entries of `b` whose keys are not in `a`. */
  lemma {:induction false} UnseenMembers(b: seq<Entry>, a: seq<Entry>)
    ensures forall i :: 0 <= i < |Unseen(b, a)| ==> Unseen(b, a)[i] in b && !HasKey(a, Unseen(b, a)[i].key)
    ensures forall x :: x in b && !HasKey(a, x.key) ==> x in Unseen(b, a)
    decreases |b|
  {
    if b != [] {
      UnseenMembers(b[..|b| - 1], a);
      assert forall x :: x in b ==> x in b[..|b| - 1] || x == b[|b| - 1];
    }
  }

  /**
   * The merged map described directly: every key of `a` stays where it was and gains
   * `b`'s score for it; the keys new to `a` follow, in `b`'s order, with `b`'s scores.
   */
  function Merged(a: seq<Entry>, b: seq<Entry>): seq<Entry> {
    Raised(a, b) + Unseen(b, a)
  }

  lemma InKeys(s: seq<Entry>, x: Entry)
    requires x in s
    ensures HasKey(s, x.key)
  {
    var j :| 0 <= j < |s| && s[j] == x;
    assert Keys(s)[j] == x.key;
  }

  /** Appending an entry with a fresh key changes the score of that key only. */
  lemma ScoreOfSnoc(b: seq<Entry>, e: Entry, k: string)
    requires !HasKey(b, e.key)
    ensures ScoreOf(b + [e], k) == ScoreOf(b, k) + (if k == e.key then e.score else 0.0)
  {
    if k == e.key {
      IndexOfAppend(b, e, k);
    } else if HasKey(b, k) {
      IndexOfPrefix(b, [e], k);
    } else {
      assert Keys(b + [e]) == Keys(b) + [e.key];
    }
  }

  /** The prefix of `Merged`: the keys of `a`, each with `b`'s score added. */
  function Raised(a: seq<Entry>, b: seq<Entry>): (r: seq<Entry>)
    ensures |r| == |a| && Keys(r) == Keys(a)
  {
    seq(|a|, i requires 0 <= i < |a| => Entry(a[i].key, a[i].score + ScoreOf(b, a[i].key)))
  }

  /** `Merged` has no key outside `a` and `b`. */
  lemma MergedKeys(a: seq<Entry>, b: seq<Entry>, k: string)
    ensures HasKey(Merged(a, b), k) ==> HasKey(a, k) || HasKey(b, k)
  {
    var m := Merged(a, b);
    forall j | 0 <= j < |m| && m[j].key == k ensures HasKey(a, k) || HasKey(b, k) {
      if j < |a| {
        assert Keys(a)[j] == k;
      } else {
        assert m[j] == Unseen(b, a)[j - |a|];
        UnseenMembers(b, a);
        InKeys(b, m[j]);
      }
    }
  }

  /** The last entry of a map holds a key that the earlier entries lack. */
  lemma LastKeyIsNew(b: seq<Entry>)
    requires DistinctKeys(b) && b != []
    ensures !HasKey(b[..|b| - 1], b[|b| - 1].key)
  {
    var b' := b[..|b| - 1];
    forall j | 0 <= j < |b'| ensures Keys(b')[j] != b[|b| - 1].key {
      assert b'[j] == b[j];
    }
  }

  /** A merge step on a present key puts the sum of the old and the new score. */
  lemma MergeStepAdds(m: seq<Entry>, e: Entry)
    requires HasKey(m, e.key)
    ensures MergeStep(m, e) == PutEntry(m, e.key, Get(m, e.key) + e.score)
  {
  }

  /** A merge step on a present key rewrites that key's entry in place. */
  lemma MergeStepPresent(m: seq<Entry>, e: Entry)
    requires HasKey(m, e.key)
    ensures MergeStep(m, e) == m[IndexOf(m, e.key) := Entry(e.key, Get(m, e.key) + e.score)]
  {
    MergeStepAdds(m, e);
    PutEntryPresent(m, e.key, Get(m, e.key) + e.score);
  }

  /** A merge step on an absent key appends the entry. */
  lemma MergeStepAbsent(m: seq<Entry>, e: Entry)
    requires !HasKey(m, e.key)
    ensures MergeStep(m, e) == m + [e]
  {
    PutEntryAbsent(m, e.key, e.score);
  }

  /** Adding an entry for a key of `a` raises that key's score and no other. */
  lemma RaisedSnocOld(a: seq<Entry>, b': seq<Entry>, e: Entry)
    requires DistinctKeys(a) && HasKey(a, e.key) && !HasKey(b', e.key)
    ensures Raised(a, b' + [e])
         == Raised(a, b')[IndexOf(a, e.key) := Entry(e.key, Raised(a, b')[IndexOf(a, e.key)].score + e.score)]
  {
    var i := IndexOf(a, e.key);
    var r := Raised(a, b')[i := Entry(e.key, Raised(a, b')[i].score + e.score)];
    forall j | 0 <= j < |a| ensures Raised(a, b' + [e])[j] == r[j] {
      ScoreOfSnoc(b', e, a[j].key);
      if j != i {
        assert a[j].key != a[i].key;
      }
    }
  }

  /** Adding an entry for a key outside `a` leaves the scores of `a`'s keys alone. */
  lemma RaisedSnocNew(a: seq<Entry>, b': seq<Entry>, e: Entry)
    requires !HasKey(a, e.key) && !HasKey(b', e.key)
    ensures Raised(a, b' + [e]) == Raised(a, b')
  {
    forall j | 0 <= j < |a| ensures Raised(a, b' + [e])[j] == Raised(a, b')[j] {
      ScoreOfSnoc(b', e, a[j].key);
      if a[j].key == e.key {
        assert Keys(a)[j] == e.key;
      }
    }
  }

  /** Merge step on `Merged(a, b')` for a key of `a`: the entry at its position is raised. */
  lemma MergeStepOldShape(a: seq<Entry>, b': seq<Entry>, e: Entry, i: nat)
    requires HasKey(a, e.key) && i == IndexOf(a, e.key)
    ensures i < |Raised(a, b')|
    ensures MergeStep(Merged(a, b'), e)
         == Raised(a, b')[i := Entry(e.key, Raised(a, b')[i].score + e.score)] + Unseen(b', a)
  {
    var pre', u' := Raised(a, b'), Unseen(b', a);
    var m := pre' + u';
    IndexOfSame(a, pre', e.key);
    IndexOfPrefix(pre', u', e.key);
    assert IndexOf(m, e.key) == i;
    MergeStepPresent(m, e);
    assert Get(m, e.key) == pre'[i].score;
    var x := Entry(e.key, pre'[i].score + e.score);
    assert m[i := x] == pre'[i := x] + u';
  }

  /** An entry whose key `a` has does not join the unseen entries. */
  lemma UnseenSnocOld(a: seq<Entry>, b': seq<Entry>, e: Entry)
    requires HasKey(a, e.key)
    ensures Unseen(b' + [e], a) == Unseen(b', a)
  {
    var b := b' + [e];
    assert b[..|b| - 1] == b' && b[|b| - 1] == e;
  }

  /** `Merged` after one more entry for a key of `a`: that key's entry is raised. */
  lemma MergedSnocOld(a: seq<Entry>, b': seq<Entry>, e: Entry, i: nat)
    requires DistinctKeys(a) && HasKey(a, e.key) && !HasKey(b', e.key) && i == IndexOf(a, e.key)
    ensures i < |Raised(a, b')|
    ensures Merged(a, b' + [e])
         == Raised(a, b')[i := Entry(e.key, Raised(a, b')[i].score + e.score)] + Unseen(b', a)
  {
    RaisedSnocOld(a, b', e);
    UnseenSnocOld(a, b', e);
  }

  /** Merge step for a key that `a` already has: it is raised in place. */
  lemma MergeStepOld(a: seq<Entry>, b': seq<Entry>, e: Entry)
    requires DistinctKeys(a) && HasKey(a, e.key) && !HasKey(b', e.key)
    ensures MergeStep(Merged(a, b'), e) == Merged(a, b' + [e])
  {
    MergeStepOldShape(a, b', e, IndexOf(a, e.key));
    MergedSnocOld(a, b', e, IndexOf(a, e.key));
  }

  /** An entry whose key `a` lacks joins the unseen entries at the end. */
  lemma UnseenSnocNew(a: seq<Entry>, b': seq<Entry>, e: Entry)
    requires !HasKey(a, e.key)
    ensures Unseen(b' + [e], a) == Unseen(b', a) + [e]
  {
    var b := b' + [e];
    assert b[..|b| - 1] == b' && b[|b| - 1] == e;
  }

  /** Merge step for a key new to both maps: it is appended. */
  lemma MergeStepNew(a: seq<Entry>, b': seq<Entry>, e: Entry)
    requires !HasKey(a, e.key) && !HasKey(b', e.key)
    ensures MergeStep(Merged(a, b'), e) == Merged(a, b' + [e])
  {
    var b := b' + [e];
    var m := Merged(a, b');
    MergedKeys(a, b', e.key);
    MergeStepAbsent(m, e);
    UnseenSnocNew(a, b', e);
    RaisedSnocNew(a, b', e);
  }

  /** The fold the merge loop computes equals the direct description, for maps. */
  lemma {:induction false} MergeIntoIsMerged(a: seq<Entry>, b: seq<Entry>)
    requires DistinctKeys(a) && DistinctKeys(b)
    ensures MergeInto(a, b) == Merged(a, b)
    decreases |b|
  {
    if b == [] {
      assert Raised(a, b) == a;
    } else {
      var b', e := b[..|b| - 1], b[|b| - 1];
      assert b == b' + [e];
      MergeIntoIsMerged(a, b');
      LastKeyIsNew(b);
      if HasKey(a, e.key) {
        MergeStepOld(a, b', e);
      } else {
        MergeStepNew(a, b', e);
      }
    }
  }

  /** A merge of a map into a map is a map. */
  lemma {:induction false} MergeKeepsDistinct(a: seq<Entry>, b: seq<Entry>)
    requires DistinctKeys(a)
    ensures DistinctKeys(MergeInto(a, b))
    decreases |b|
  {
    if b != [] {
      MergeKeepsDistinct(a, b[..|b| - 1]);
    }
  }

  /**
   * What `merge` does to each key: it is present afterwards exactly when it was in
   * either map, and its score is the sum of its scores in the two maps (0 for absent).
   */
  lemma MergeScores(a: seq<Entry>, b: seq<Entry>, k: string)
    requires DistinctKeys(a) && DistinctKeys(b)
    ensures HasKey(MergeInto(a, b), k) <==> HasKey(a, k) || HasKey(b, k)
    ensures ScoreOf(MergeInto(a, b), k) == ScoreOf(a, k) + ScoreOf(b, k)
  {
    MergeIntoIsMerged(a, b);
    var pre, u := Raised(a, b), Unseen(b, a);
    var m := pre + u;
    if HasKey(a, k) {
      IndexOfSame(a, pre, k);
      IndexOfPrefix(pre, u, k);
    } else if HasKey(b, k) {
      UnseenMembers(b, a);
      var x := b[IndexOf(b, k)];
      assert x in u;
      InKeys(m, x);
      var j := IndexOf(m, k);
      assert m[j] == u[j - |a|];
      var jb :| 0 <= jb < |b| && b[jb] == m[j];
      GetAt(b, jb);
    } else {
      MergedKeys(a, b, k);
    }
  }

  /**
   * Order after `merge`: keys already in `map1` keep their positions, and the new keys
   * come after them in `map2`'s iteration order.
   */
  lemma MergeKeepsOrder(a: seq<Entry>, b: seq<Entry>)
    requires DistinctKeys(a) && DistinctKeys(b)
    ensures |MergeInto(a, b)| >= |a|
    ensures forall i :: 0 <= i < |a| ==> MergeInto(a, b)[i].key == a[i].key
    ensures MergeInto(a, b)[|a|..] == Unseen(b, a)
  {
    MergeIntoIsMerged(a, b);
    assert (Raised(a, b) + Unseen(b, a))[|a|..] == Unseen(b, a);
  }

  /** With non-negative scores, merging never lowers a score (the session's scores only grow). */
  lemma MergeMonotone(a: seq<Entry>, b: seq<Entry>)
    requires DistinctKeys(a) && DistinctKeys(b)
    requires forall i :: 0 <= i < |b| ==> b[i].score >= 0.0
    ensures |MergeInto(a, b)| >= |a|
    ensures forall i :: 0 <= i < |a| ==> MergeInto(a, b)[i].key == a[i].key && MergeInto(a, b)[i].score >= a[i].score
  {
    MergeIntoIsMerged(a, b);
    forall i | 0 <= i < |a| ensures ScoreOf(b, a[i].key) >= 0.0 {
      if HasKey(b, a[i].key) {
        var j := IndexOf(b, a[i].key);
      }
    }
  }

  /** `merge(map1, map2)`: every entry of `map2` is added into `map1`, in place. */
  method Merge(map1: ScoreMap, map2: seq<Entry>)
    requires map1.Valid()
    modifies map1
    ensures map1.Valid()
    ensures map1.entries == MergeInto(old(map1.entries), map2)
  {
    for i := 0 to |map2|
      invariant map1.Valid()
      invariant map1.entries == MergeInto(old(map1.entries), map2[..i])
    {
      assert map2[..i + 1][..i] == map2[..i];
      var key := map2[i].key;
      var value := map2[i].score;
      if map1.ContainsKey(key) {
        map1.Put(key, map1.GetValue(key) + value);
      } else {
        map1.Put(key, value);
      }
    }
    assert map2[..|map2|] == map2;
  }

  // ---------------------------------------------------------------------------
  // sortByValue
  // ---------------------------------------------------------------------------

  /** Scores are non-increasing along the sequence. */
  predicate SortedDesc(s: seq<Entry>) {
    forall i, j :: 0 <= i < j < |s| ==> s[i].score >= s[j].score
  }

  /** The entries holding score `v`, in order. */
  function WithScore(s: seq<Entry>, v: real): seq<Entry> {
    if s == [] then [] else (if s[0].score == v then [s[0]] else []) + WithScore(s[1..], v)
  }

  /** Place `e` in front of the first entry whose score it reaches. */
  function InsertDesc(e: Entry, s: seq<Entry>): seq<Entry> {
    if s == [] || s[0].score <= e.score then [e] + s else [s[0]] + InsertDesc(e, s[1..])
  }

  /**
   * The library's stable sort under the comparator `(a, b) -> b.getValue().compareTo(a.getValue())`:
   * descending by score, equal scores in their original order.
   */
  function SortDesc(s: seq<Entry>): seq<Entry> {
    if s == [] then [] else InsertDesc(s[0], SortDesc(s[1..]))
  }

  lemma {:induction false} InsertDescPermutes(e: Entry, s: seq<Entry>)
    ensures multiset(InsertDesc(e, s)) == multiset(s) + multiset{e}
  {
    if !(s == [] || s[0].score <= e.score) {
      InsertDescPermutes(e, s[1..]);
      assert s == [s[0]] + s[1..];
    }
  }

  lemma {:induction false} InsertDescSorted(e: Entry, s: seq<Entry>)
    requires SortedDesc(s)
    ensures SortedDesc(InsertDesc(e, s))
  {
    if !(s == [] || s[0].score <= e.score) {
      InsertDescSorted(e, s[1..]);
      InsertDescPermutes(e, s[1..]);
      var t := InsertDesc(e, s[1..]);
      var r := [s[0]] + t;
      forall j | 0 <= j < |t| ensures s[0].score >= t[j].score {
        assert t[j] in multiset(t);
        if t[j] != e {
          assert t[j] in multiset(s[1..]);
          var k :| 0 <= k < |s[1..]| && s[1..][k] == t[j];
          assert s[k + 1] == t[j];
        }
      }
    }
  }

  /** `WithScore` of a sequence with a known first entry. */
  lemma WithScoreCons(x: Entry, t: seq<Entry>, v: real)
    ensures WithScore([x] + t, v) == (if x.score == v then [x] else []) + WithScore(t, v)
  {
    assert ([x] + t)[1..] == t;
  }

  lemma {:induction false} InsertDescWithScore(e: Entry, s: seq<Entry>, v: real)
    ensures WithScore(InsertDesc(e, s), v) == (if e.score == v then [e] else []) + WithScore(s, v)
  {
    if s == [] || s[0].score <= e.score {
      WithScoreCons(e, s, v);
    } else {
      var t := InsertDesc(e, s[1..]);
      InsertDescWithScore(e, s[1..], v);
      WithScoreCons(s[0], t, v);
      WithScoreCons(s[0], s[1..], v);
      assert [s[0]] + s[1..] == s;
      var a, b := if e.score == v then [e] else [], if s[0].score == v then [s[0]] else [];
      assert WithScore(InsertDesc(e, s), v) == b + (a + WithScore(s[1..], v));
      assert b + a == a + b;
    }
  }

  /** Every entry after an insertion was either inserted or already there. */
  lemma InsertDescFrom(e: Entry, s: seq<Entry>, x: Entry)
    requires x in InsertDesc(e, s)
    ensures x == e || x in s
  {
    InsertDescPermutes(e, s);
    assert x in multiset(InsertDesc(e, s));
  }

  /** Inserting an entry whose key is new keeps the keys distinct. */
  lemma {:induction false} InsertDescDistinct(e: Entry, s: seq<Entry>)
    requires DistinctKeys(s) && !HasKey(s, e.key)
    ensures DistinctKeys(InsertDesc(e, s))
  {
    if s == [] || s[0].score <= e.score {
      var r := [e] + s;
      forall j | 0 < j < |r| ensures r[j].key != e.key {
        assert Keys(s)[j - 1] == r[j].key;
      }
    } else {
      var s' := s[1..];
      assert Keys(s) == [s[0].key] + Keys(s');
      assert Keys(s)[0] == s[0].key;
      InsertDescDistinct(e, s');
      var t := InsertDesc(e, s');
      forall j | 0 <= j < |t| ensures t[j].key != s[0].key {
        InsertDescFrom(e, s', t[j]);
        if t[j] != e {
          var k :| 0 <= k < |s'| && s'[k] == t[j];
          assert s[k + 1] == t[j];
        }
      }
      assert InsertDesc(e, s) == [s[0]] + t;
    }
  }

  /** The sort is a descending permutation of its input. */
  lemma {:induction false} SortDescIsSortedPermutation(s: seq<Entry>)
    ensures SortedDesc(SortDesc(s))
    ensures multiset(SortDesc(s)) == multiset(s)
  {
    if s != [] {
      SortDescIsSortedPermutation(s[1..]);
      InsertDescSorted(s[0], SortDesc(s[1..]));
      InsertDescPermutes(s[0], SortDesc(s[1..]));
      assert s == [s[0]] + s[1..];
    }
  }

  /** The sort is stable: the entries sharing any one score keep their relative order. */
  lemma {:induction false} SortDescIsStable(s: seq<Entry>, v: real)
    ensures WithScore(SortDesc(s), v) == WithScore(s, v)
  {
    if s != [] {
      SortDescIsStable(s[1..], v);
      InsertDescWithScore(s[0], SortDesc(s[1..]), v);
    }
  }

  /** Sorting a map that is already in descending order returns it unchanged. */
  lemma {:induction false} SortDescIdempotent(s: seq<Entry>)
    requires SortedDesc(s)
    ensures SortDesc(s) == s
  {
    if s != [] {
      SortDescIdempotent(s[1..]);
      assert [s[0]] + s[1..] == s;
    }
  }

  /** The sorted map still has distinct keys. */
  lemma {:induction false} SortDescKeepsDistinct(s: seq<Entry>)
    requires DistinctKeys(s)
    ensures DistinctKeys(SortDesc(s))
  {
    if s != [] {
      SortDescKeepsDistinct(s[1..]);
      SortDescIsSortedPermutation(s[1..]);
      var t := SortDesc(s[1..]);
      forall j | 0 <= j < |t| ensures Keys(t)[j] != s[0].key {
        assert t[j] in multiset(s[1..]);
        var k :| 0 <= k < |s[1..]| && s[1..][k] == t[j];
        assert s[k + 1] == t[j];
      }
      InsertDescDistinct(s[0], t);
    }
  }

  /** `sortByValue(map)`: a fresh map holding the entries of `map` by descending score. */
  method SortByValue(m: ScoreMap) returns (sorted: ScoreMap)
    requires m.Valid()
    ensures fresh(sorted) && sorted.Valid()
    ensures sorted.entries == SortDesc(m.entries)
  {
    // `new ArrayList<>(map.entrySet())` followed by the library's stable `List.sort`
    var entries := SortDesc(m.entries);
    SortDescKeepsDistinct(m.entries);
    sorted := new ScoreMap();
    for i := 0 to |entries|
      invariant sorted.Valid()
      invariant sorted.entries == entries[..i]
    {
      sorted.Put(entries[i].key, entries[i].score);
      assert entries[..i + 1] == entries[..i] + [entries[i]];
    }
    assert entries[..|entries|] == entries;
  }
}
