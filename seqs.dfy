/** Generic sequence searches and an insertion-ordered dictionary on sequences. */
module Seqs {

  /** `pat` occurs in `s` starting at index `i`. */
  predicate OccursAt<T(==)>(s: seq<T>, pat: seq<T>, i: int)
  {
    0 <= i && i + |pat| <= |s| && s[i..i + |pat|] == pat
  }

  /** The first index at or after `k` where `pat` occurs, or -1. */
  function FindFrom<T(==)>(s: seq<T>, pat: seq<T>, k: nat): (r: int)
    ensures r == -1 || (k <= r && OccursAt(s, pat, r))
    ensures forall i :: k <= i && (r == -1 || i < r) ==> !OccursAt(s, pat, i)
    decreases |s| - k
  {
    if k + |pat| > |s| then -1
    else if s[k..k + |pat|] == pat then k
    else FindFrom(s, pat, k + 1)
  }

  /** Python's `find`: the lowest index where `pat` occurs, or -1. */
  function Find<T(==)>(s: seq<T>, pat: seq<T>): (r: int)
    ensures r == -1 || OccursAt(s, pat, r)
    ensures forall i :: 0 <= i && (r == -1 || i < r) ==> !OccursAt(s, pat, i)
  {
    FindFrom(s, pat, 0)
  }

  /** The last index at or before `k` where `pat` occurs, or -1. */
  function RFindAtOrBefore<T(==)>(s: seq<T>, pat: seq<T>, k: int): (r: int)
    ensures r == -1 || (r <= k && OccursAt(s, pat, r))
    ensures forall i :: i <= k && r < i ==> !OccursAt(s, pat, i)
    decreases k + 1
  {
    if k < 0 then -1
    else if OccursAt(s, pat, k) then k
    else RFindAtOrBefore(s, pat, k - 1)
  }

  /** Python's `rfind`: the highest index where `pat` occurs, or -1. */
  function RFind<T(==)>(s: seq<T>, pat: seq<T>): (r: int)
    ensures r == -1 || OccursAt(s, pat, r)
    ensures forall i :: r < i ==> !OccursAt(s, pat, i)
  {
    RFindAtOrBefore(s, pat, |s| - |pat|)
  }

  /** The position of the first entry with key `k`, or -1. */
  function KeyIndex<K(==), V>(entries: seq<(K, V)>, k: K): (r: int)
    ensures -1 <= r < |entries|
    ensures r >= 0 ==> entries[r].0 == k
    ensures forall i :: 0 <= i < |entries| && (r == -1 || i < r) ==> entries[i].0 != k
  {
    if |entries| == 0 then -1
    else if entries[0].0 == k then 0
    else
      var r := KeyIndex(entries[1..], k);
      if r == -1 then -1 else r + 1
  }

  /**
   * Assignment into an insertion-ordered dictionary (pandas `loc[k] = v` on a
   * unique index, or building an OrderedDict): an existing key keeps its
   * position and takes the new value; a new key goes last.
   */
  function Upsert<K(==), V>(entries: seq<(K, V)>, k: K, v: V): (r: seq<(K, V)>)
    ensures KeyIndex(entries, k) >= 0 ==> r == entries[KeyIndex(entries, k) := (k, v)]
    ensures KeyIndex(entries, k) == -1 ==> r == entries + [(k, v)]
  {
    var i := KeyIndex(entries, k);
    if i >= 0 then entries[i := (k, v)] else entries + [(k, v)]
  }

  /** The keys of an insertion-ordered dictionary, in order. */
  function KeysOf<K, V>(entries: seq<(K, V)>): (r: seq<K>)
    ensures |r| == |entries|
    ensures forall i :: 0 <= i < |entries| ==> r[i] == entries[i].0
  {
    if |entries| == 0 then [] else [entries[0].0] + KeysOf(entries[1..])
  }

  /** After an upsert the first entry with key `k` holds `v`. */
  lemma {:induction false} UpsertFinds<K, V>(entries: seq<(K, V)>, k: K, v: V)
    ensures var r := Upsert(entries, k, v);
      KeyIndex(r, k) >= 0 && r[KeyIndex(r, k)] == (k, v)
  {
    var i := KeyIndex(entries, k);
    var r := Upsert(entries, k, v);
    var j := KeyIndex(r, k);
    if i >= 0 {
      assert r[i].0 == k;
      assert j != -1 && j <= i;
      assert forall m :: 0 <= m < i ==> r[m] == entries[m];
      assert j == i;
    } else {
      assert r[|entries|].0 == k;
      assert j != -1;
      assert forall m :: 0 <= m < |entries| ==> r[m] == entries[m];
      assert j == |entries|;
    }
  }
}
