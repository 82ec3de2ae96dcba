/** PHP's ordered associative arrays with string keys, as a sequence of
    (key, value) entries. Assigning to an existing key keeps its position;
    assigning to a new key appends it, as `$a[$k] = $v` does in PHP. */
module PhpArrays {

  datatype Option<+T> = None | Some(value: T)

  type PhpArray<V> = seq<(string, V)>

  /** The keys of `a`, in iteration order. */
  function Keys<V>(a: PhpArray<V>): (ks: seq<string>)
    ensures |ks| == |a|
  {
    if a == [] then [] else [a[0].0] + Keys(a[1..])
  }

  /** `isset($a[$k]) ? $a[$k] : null` for a PHP array whose values are never null. */
  function Get<V>(a: PhpArray<V>, k: string): (r: Option<V>)
    ensures r.Some? <==> k in Keys(a)
  {
    if a == [] then None
    else if a[0].0 == k then Some(a[0].1)
    else Get(a[1..], k)
  }

  /** No key occurs twice: every PHP array satisfies this. */
  predicate DistinctKeys<V>(a: PhpArray<V>) {
    forall i, j :: 0 <= i < j < |a| ==> a[i].0 != a[j].0
  }

  /** `$a[$k] = $v`. */
  function Put<V>(a: PhpArray<V>, k: string, v: V): PhpArray<V> {
    if a == [] then [(k, v)]
    else if a[0].0 == k then [(k, v)] + a[1..]
    else [a[0]] + Put(a[1..], k, v)
  }

  /** After `$a[$k] = $v`, `k` reads `v`, every other key reads as before, an
      existing key keeps its position and a new key comes last. */
  lemma {:induction false} PutSpec<V>(a: PhpArray<V>, k: string, v: V)
    ensures Get(Put(a, k, v), k) == Some(v)
    ensures forall k' :: k' != k ==> Get(Put(a, k, v), k') == Get(a, k')
    ensures Keys(Put(a, k, v)) == if k in Keys(a) then Keys(a) else Keys(a) + [k]
  {
    if a != [] && a[0].0 != k {
      PutSpec(a[1..], k, v);
      var r := Put(a, k, v);
      assert r[1..] == Put(a[1..], k, v);
      assert Keys(r) == [a[0].0] + Keys(r[1..]);
    }
  }

  lemma {:induction false} KeysAt<V>(a: PhpArray<V>, i: nat)
    requires i < |a|
    ensures Keys(a)[i] == a[i].0
  {
    if i > 0 { KeysAt(a[1..], i - 1); }
  }

  /** Assignment keeps a PHP array free of duplicate keys. */
  lemma PutKeepsKeysDistinct<V>(a: PhpArray<V>, k: string, v: V)
    requires DistinctKeys(a)
    ensures DistinctKeys(Put(a, k, v))
  {
    var r := Put(a, k, v);
    PutSpec(a, k, v);
    var ka, kr := Keys(a), Keys(r);
    forall i, j | 0 <= i < j < |r| ensures r[i].0 != r[j].0 {
      KeysAt(r, i);
      KeysAt(r, j);
      KeysAt(a, i);
      if j < |a| { KeysAt(a, j); }
    }
  }

  /** A loop of assignments `foreach ($entries as [$k, $v]) $a[$k] = $v;`. */
  function PutAll<V>(a: PhpArray<V>, entries: seq<(string, V)>): PhpArray<V> {
    if entries == [] then a
    else
      var last := entries[|entries| - 1];
      Put(PutAll(a, entries[..|entries| - 1]), last.0, last.1)
  }

  lemma PutAllStep<V>(a: PhpArray<V>, entries: seq<(string, V)>, e: (string, V))
    ensures PutAll(a, entries + [e]) == Put(PutAll(a, entries), e.0, e.1)
  {
    assert (entries + [e])[..|entries|] == entries;
  }

  /** A key is assigned by a loop exactly when it is assigned before its last
      step or by that step. */
  lemma AssignedSnoc<V>(entries: seq<(string, V)>, init: seq<(string, V)>, k: string)
    requires entries != [] && init == entries[..|entries| - 1]
    ensures (exists i :: 0 <= i < |entries| && entries[i].0 == k) <==>
              (exists i :: 0 <= i < |init| && init[i].0 == k) || entries[|entries| - 1].0 == k
  {
    if exists i :: 0 <= i < |entries| && entries[i].0 == k {
      var i :| 0 <= i < |entries| && entries[i].0 == k;
      if i < |init| {
        assert init[i] == entries[i];
      }
    }
    if exists i :: 0 <= i < |init| && init[i].0 == k {
      var i :| 0 <= i < |init| && init[i].0 == k;
      assert entries[i] == init[i];
    }
  }

  /** After the loop the keys are the old ones and those assigned. */
  lemma {:induction false} PutAllKeys<V>(a: PhpArray<V>, entries: seq<(string, V)>, k: string)
    ensures k in Keys(PutAll(a, entries)) <==>
              k in Keys(a) || exists i :: 0 <= i < |entries| && entries[i].0 == k
  {
    if entries != [] {
      var init := entries[..|entries| - 1];
      var last := entries[|entries| - 1];
      PutAllKeys(a, init, k);
      PutSpec(PutAll(a, init), last.0, last.1);
      AssignedSnoc(entries, init, k);
    }
  }

  /** Last assignment wins: a key ends up bound to the value of its last assignment. */
  lemma {:induction false} PutAllLastWins<V>(a: PhpArray<V>, entries: seq<(string, V)>, i: nat)
    requires i < |entries|
    requires forall j :: i < j < |entries| ==> entries[j].0 != entries[i].0
    ensures Get(PutAll(a, entries), entries[i].0) == Some(entries[i].1)
  {
    var init := entries[..|entries| - 1];
    var last := entries[|entries| - 1];
    PutSpec(PutAll(a, init), last.0, last.1);
    if i < |entries| - 1 {
      assert init[i] == entries[i];
      PutAllLastWins(a, init, i);
    }
  }

  /** A key never assigned keeps its old binding (or stays absent). */
  lemma {:induction false} PutAllUntouched<V>(a: PhpArray<V>, entries: seq<(string, V)>, k: string)
    requires forall i :: 0 <= i < |entries| ==> entries[i].0 != k
    ensures Get(PutAll(a, entries), k) == Get(a, k)
  {
    if entries != [] {
      var init := entries[..|entries| - 1];
      var last := entries[|entries| - 1];
      assert forall i :: 0 <= i < |init| ==> init[i] == entries[i];
      PutAllUntouched(a, init, k);
      PutSpec(PutAll(a, init), last.0, last.1);
    }
  }

  lemma {:induction false} PutAllKeepsKeysDistinct<V>(a: PhpArray<V>, entries: seq<(string, V)>)
    requires DistinctKeys(a)
    ensures DistinctKeys(PutAll(a, entries))
  {
    if entries != [] {
      var last := entries[|entries| - 1];
      PutAllKeepsKeysDistinct(a, entries[..|entries| - 1]);
      PutKeepsKeysDistinct(PutAll(a, entries[..|entries| - 1]), last.0, last.1);
    }
  }
}
