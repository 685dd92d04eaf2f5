/** Order-preserving mappings, as the document parser delivers them: a list
    of key/value pairs in declaration order. */
module OrderedMaps {

  datatype Option<T> = None | Some(value: T)

  predicate HasKey<V>(m: seq<(string, V)>, k: string)
  {
    exists i :: 0 <= i < |m| && m[i].0 == k
  }

  /** Position of the first pair whose key is `k` (Python's
      `list(m.keys()).index(k)`). */
  function KeyIndex<V>(m: seq<(string, V)>, k: string): (i: nat)
    requires HasKey(m, k)
    ensures i < |m| && m[i].0 == k
    ensures forall j :: 0 <= j < i ==> m[j].0 != k
  {
    if m[0].0 == k then 0
    else
      assert HasKey(m[1..], k) by {
        var i :| 0 <= i < |m| && m[i].0 == k;
        assert m[1..][i - 1].0 == k;
      }
      KeyIndex(m[1..], k) + 1
  }

  /** Python's `m.get(k)`: the value bound to `k`, if any. */
  function Get<V>(m: seq<(string, V)>, k: string): (r: Option<V>)
    ensures r.Some? <==> HasKey(m, k)
  {
    if HasKey(m, k) then Some(m[KeyIndex(m, k)].1) else None
  }

  /** The keys are pairwise distinct, as in any Python mapping. */
  predicate UniqueKeys<V>(m: seq<(string, V)>)
  {
    forall i, j :: 0 <= i < j < |m| ==> m[i].0 != m[j].0
  }

  lemma KeyIndexOfUnique<V>(m: seq<(string, V)>, i: nat)
    requires UniqueKeys(m) && i < |m|
    ensures HasKey(m, m[i].0) && KeyIndex(m, m[i].0) == i
  {
  }

  /** Looking a key up in a non-empty mapping: the first pair, or the rest. */
  lemma GetCons<V>(m: seq<(string, V)>, k: string)
    requires m != []
    ensures Get(m, k) == if m[0].0 == k then Some(m[0].1) else Get(m[1..], k)
  {
    if m[0].0 != k {
      if HasKey(m, k) {
        var i :| 0 <= i < |m| && m[i].0 == k;
        assert m[1..][i - 1].0 == k;
      }
      if HasKey(m[1..], k) {
        var i :| 0 <= i < |m[1..]| && m[1..][i].0 == k;
        assert m[i + 1].0 == k;
      }
    }
  }
}
