/** JavaScript maps that count bytes: entries in insertion order, one per key. */
module OrderedMap {
  import opened Common
  import Utf16

  const MAX_AUXILIARY_MAP_BYTES: nat := 2 * 1024 * 1024

  /** A cache key; a number and its decimal string are different keys with one text. */
  datatype Key = Key(text: seq<Unit>, number: bool)

  /** What a map counts for an entry that holds a key and little else. */
  function KeyMetadataBytes(k: Key): (n: nat)
    ensures 96 <= n
  {
    Utf16.ByteLength(k.text) * 2 + 96
  }

  datatype Item<T> = Item(key: Key, bytes: nat, value: T)

  function ByteSum<T>(m: seq<Item<T>>): nat {
    if m == [] then 0 else m[0].bytes + ByteSum(m[1..])
  }

  predicate Has<T>(m: seq<Item<T>>, key: Key) {
    m != [] && (m[0].key == key || Has(m[1..], key))
  }

  function Get<T>(m: seq<Item<T>>, key: Key): (i: Item<T>)
    requires Has(m, key)
    ensures i.key == key && i in m
  {
    if m[0].key == key then m[0] else Get(m[1..], key)
  }

  predicate Distinct<T>(m: seq<Item<T>>) {
    m == [] || (!Has(m[1..], m[0].key) && Distinct(m[1..]))
  }

  function Without<T>(m: seq<Item<T>>, key: Key): seq<Item<T>> {
    if m == [] then [] else if m[0].key == key then m[1..] else [m[0]] + Without(m[1..], key)
  }

  lemma {:induction false} WithoutAt<T>(m: seq<Item<T>>, key: Key, k: Key)
    requires Distinct(m)
    ensures Has(Without(m, key), k) <==> Has(m, k) && k != key
    ensures Has(Without(m, key), k) ==> Get(Without(m, key), k) == Get(m, k)
  {
    if m != [] {
      WithoutAt(m[1..], key, k);
      if m[0].key != key { assert Without(m, key)[1..] == Without(m[1..], key); }
    }
  }

  /** Removing a key takes its one entry and its bytes. */
  lemma {:induction false} WithoutCounts<T>(m: seq<Item<T>>, key: Key)
    requires Distinct(m)
    ensures Distinct(Without(m, key)) && !Has(Without(m, key), key)
    ensures ByteSum(m) == ByteSum(Without(m, key)) + if Has(m, key) then Get(m, key).bytes else 0
    ensures |Without(m, key)| == |m| - if Has(m, key) then 1 else 0
  {
    if m != [] {
      WithoutCounts(m[1..], key);
      if m[0].key != key {
        assert Without(m, key)[1..] == Without(m[1..], key);
        WithoutAt(m[1..], key, m[0].key);
      }
    }
  }

  lemma {:induction false} AppendAt<T>(m: seq<Item<T>>, i: Item<T>, k: Key)
    ensures Has(m + [i], k) <==> Has(m, k) || k == i.key
    ensures Has(m, k) ==> Get(m + [i], k) == Get(m, k)
    ensures !Has(m, k) && k == i.key ==> Get(m + [i], k) == i
  {
    if m == [] {
      assert m + [i] == [i] && [i][1..] == [];
    } else {
      AppendAt(m[1..], i, k);
      assert (m + [i])[1..] == m[1..] + [i];
    }
  }

  lemma {:induction false} AppendCounts<T>(m: seq<Item<T>>, i: Item<T>)
    requires Distinct(m) && !Has(m, i.key)
    ensures Distinct(m + [i]) && ByteSum(m + [i]) == ByteSum(m) + i.bytes
  {
    if m == [] {
      assert m + [i] == [i] && [i][1..] == [];
    } else {
      AppendCounts(m[1..], i);
      assert (m + [i])[1..] == m[1..] + [i];
      AppendAt(m[1..], i, m[0].key);
    }
  }

  lemma {:induction false} AbsentStays<T>(m: seq<Item<T>>, key: Key)
    requires !Has(m, key)
    ensures Without(m, key) == m
  {
    if m != [] { AbsentStays(m[1..], key); }
  }

  /** Setting a key that is there keeps its place. */
  function Retagged<T>(m: seq<Item<T>>, key: Key, value: T): seq<Item<T>>
    requires Has(m, key)
  {
    if m[0].key == key then [m[0].(value := value)] + m[1..] else [m[0]] + Retagged(m[1..], key, value)
  }

  lemma {:induction false} RetaggedCounts<T>(m: seq<Item<T>>, key: Key, value: T)
    requires Has(m, key)
    ensures ByteSum(Retagged(m, key, value)) == ByteSum(m) && |Retagged(m, key, value)| == |m|
    ensures forall k :: Has(Retagged(m, key, value), k) == Has(m, k)
    ensures Distinct(m) ==> Distinct(Retagged(m, key, value))
    ensures (forall i | i in m :: 96 <= i.bytes) ==> forall i | i in Retagged(m, key, value) :: 96 <= i.bytes
  {
    var r := Retagged(m, key, value);
    if m[0].key == key {
      assert r[1..] == m[1..];
    } else {
      RetaggedCounts(m[1..], key, value);
      assert r[1..] == Retagged(m[1..], key, value);
    }
    forall k ensures Has(r, k) == Has(m, k) {}
  }

  lemma {:induction false} RetaggedAt<T>(m: seq<Item<T>>, key: Key, value: T)
    requires Has(m, key)
    ensures Has(Retagged(m, key, value), key) && Get(Retagged(m, key, value), key) == Get(m, key).(value := value)
  {
    if m[0].key != key { RetaggedAt(m[1..], key, value); }
  }

  /** The entries of the others are as they were. */
  lemma {:induction false} RetaggedItems<T>(m: seq<Item<T>>, key: Key, value: T)
    requires Has(m, key)
    ensures forall i | i in Retagged(m, key, value) :: i in m || i == Get(m, key).(value := value)
  {
    if m[0].key != key { RetaggedItems(m[1..], key, value); }
  }

  /** Each key is found as its one entry; removing it leaves the others. */
  lemma {:induction false} WithoutItems<T>(m: seq<Item<T>>, key: Key)
    requires Distinct(m)
    ensures forall i | i in m && i.key == key :: Has(m, key) && i == Get(m, key)
    ensures forall i | i in Without(m, key) :: i in m && i.key != key
  {
    if m != [] {
      WithoutItems(m[1..], key);
      NoneHeld(m[1..], m[0].key);
      if m[0].key == key { AbsentStays(m[1..], key); }
    }
  }

  lemma {:induction false} NoneHeld<T>(m: seq<Item<T>>, key: Key)
    ensures !Has(m, key) ==> forall i | i in m :: i.key != key
  {
    if m != [] { NoneHeld(m[1..], key); }
  }
}
