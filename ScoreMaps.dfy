/**
 * The insertion-ordered map from bookmark tag to score (`LinkedHashMap<String, Double>`).
 * A map is a sequence of entries whose keys are pairwise distinct; iteration order is
 * the sequence order. Scores are mathematical reals: floating-point rounding is not modelled.
 */
module ScoreMaps {

  /** One map entry: a bookmark tag and its accumulated score. */
  datatype Entry = Entry(key: string, score: real)

  /** The keys of a map, in iteration order. */
  function Keys(s: seq<Entry>): (ks: seq<string>)
    ensures |ks| == |s| && forall i :: 0 <= i < |s| ==> ks[i] == s[i].key
  {
    seq(|s|, i requires 0 <= i < |s| => s[i].key)
  }

  predicate HasKey(s: seq<Entry>, k: string) {
    k in Keys(s)
  }

  /** The invariant of every map: no key occurs twice. */
  predicate DistinctKeys(s: seq<Entry>) {
    forall i, j :: 0 <= i < j < |s| ==> s[i].key != s[j].key
  }

  /** A map value as it is handed over between components: distinct keys by construction. */
  type Bookmarks = s: seq<Entry> | DistinctKeys(s) witness []

  /** The position of key `k`: the first entry holding it. */
  function IndexOf(s: seq<Entry>, k: string): (i: nat)
    requires HasKey(s, k)
    ensures i < |s| && s[i].key == k
    ensures forall j :: 0 <= j < i ==> s[j].key != k
  {
    if s[0].key == k then 0
    else
      assert Keys(s)[1..] == Keys(s[1..]);
      IndexOf(s[1..], k) + 1
  }

  /** `map.get(k)` for a key that is present. */
  function Get(s: seq<Entry>, k: string): real
    requires HasKey(s, k)
  {
    s[IndexOf(s, k)].score
  }

  /** The score of `k`, or 0 when `k` is absent: the quantity the merge adds up. */
  function ScoreOf(s: seq<Entry>, k: string): real {
    if HasKey(s, k) then Get(s, k) else 0.0
  }

  /**
   * `map.put(k, v)`: an existing key keeps its position and takes the new value;
   * a new key is appended at the end of the iteration order.
   */
  function PutEntry(s: seq<Entry>, k: string, v: real): (r: seq<Entry>)
    ensures HasKey(r, k) && Get(r, k) == v
    ensures Keys(r) == if HasKey(s, k) then Keys(s) else Keys(s) + [k]
    ensures DistinctKeys(s) ==> DistinctKeys(r)
  {
    if HasKey(s, k) then
      var i := IndexOf(s, k);
      var r := s[i := Entry(k, v)];
      assert Keys(r) == Keys(s);
      IndexOfSame(s, r, k);
      r
    else
      var r := s + [Entry(k, v)];
      assert Keys(r) == Keys(s) + [k];
      IndexOfAppend(s, Entry(k, v), k);
      r
  }

  /** `put` leaves every other key where it was, with its value. */
  lemma PutEntryKeepsOthers(s: seq<Entry>, k: string, v: real, k': string)
    requires k' != k
    ensures HasKey(PutEntry(s, k, v), k') <==> HasKey(s, k')
    ensures HasKey(s, k') ==> Get(PutEntry(s, k, v), k') == Get(s, k')
  {
    var r := PutEntry(s, k, v);
    if HasKey(s, k') {
      if HasKey(s, k) {
        IndexOfSame(s, r, k');
      } else {
        IndexOfPrefix(s, [Entry(k, v)], k');
      }
    }
  }

  /** `put` on a present key replaces that key's entry in place. */
  lemma PutEntryPresent(s: seq<Entry>, k: string, v: real)
    requires HasKey(s, k)
    ensures PutEntry(s, k, v) == s[IndexOf(s, k) := Entry(k, v)]
  {
  }

  /** `put` on an absent key appends an entry. */
  lemma PutEntryAbsent(s: seq<Entry>, k: string, v: real)
    requires !HasKey(s, k)
    ensures PutEntry(s, k, v) == s + [Entry(k, v)]
  {
  }

  /** Two maps with the same key sequence find every key at the same position. */
  lemma IndexOfSame(s: seq<Entry>, r: seq<Entry>, k: string)
    requires Keys(s) == Keys(r) && HasKey(s, k)
    ensures HasKey(r, k) && IndexOf(r, k) == IndexOf(s, k)
  {
    var i, j := IndexOf(s, k), IndexOf(r, k);
    assert Keys(s)[i] == k && Keys(r)[j] == k;
  }

  /** A key present in `s` keeps its position when entries are appended. */
  lemma IndexOfPrefix(s: seq<Entry>, t: seq<Entry>, k: string)
    requires HasKey(s, k)
    ensures HasKey(s + t, k) && IndexOf(s + t, k) == IndexOf(s, k)
  {
    var i := IndexOf(s, k);
    assert Keys(s + t)[i] == k;
    var j := IndexOf(s + t, k);
    assert j <= i;
    assert (s + t)[j] == s[j];
  }

  /** A key absent from `s` is found at the appended entry. */
  lemma IndexOfAppend(s: seq<Entry>, e: Entry, k: string)
    requires !HasKey(s, k) && e.key == k
    ensures HasKey(s + [e], k) && IndexOf(s + [e], k) == |s|
  {
    assert Keys(s + [e])[|s|] == k;
  }

  /** In a map with distinct keys, the entry at position `i` is the one `Get` finds. */
  lemma GetAt(s: seq<Entry>, i: int)
    requires DistinctKeys(s) && 0 <= i < |s|
    ensures HasKey(s, s[i].key) && IndexOf(s, s[i].key) == i && Get(s, s[i].key) == s[i].score
  {
    assert Keys(s)[i] == s[i].key;
  }

  /**
   * The mutable map object. Its abstract value is `entries`; `Valid` is the invariant a
   * `LinkedHashMap` keeps by construction.
   */
  class ScoreMap {
    var entries: seq<Entry>

    ghost predicate Valid()
      reads this
    {
      DistinctKeys(entries)
    }

    /** `new LinkedHashMap<>()` */
    constructor ()
      ensures Valid() && entries == []
    {
      entries := [];
    }

    function ContainsKey(k: string): (b: bool)
      reads this
      ensures b <==> exists i :: 0 <= i < |entries| && entries[i].key == k
    {
      assert forall i :: 0 <= i < |entries| ==> Keys(entries)[i] == entries[i].key;
      HasKey(entries, k)
    }

    /** `get(k)` for a key that is present: the score stored under `k`. */
    function GetValue(k: string): (v: real)
      reads this
      requires HasKey(entries, k)
      ensures exists i :: 0 <= i < |entries| && entries[i] == Entry(k, v)
      ensures DistinctKeys(entries) ==> forall i :: 0 <= i < |entries| && entries[i].key == k ==> entries[i].score == v
    {
      var i := IndexOf(entries, k);
      assert entries[i] == Entry(k, Get(entries, k));
      Get(entries, k)
    }

    method Put(k: string, v: real)
      modifies this
      ensures entries == PutEntry(old(entries), k, v)
      ensures old(Valid()) ==> Valid()
    {
      entries := PutEntry(entries, k, v);
    }
  }
}
