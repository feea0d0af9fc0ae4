/** The kernel-resident whitelist_map: a BPF_MAP_TYPE_HASH from a 32-bit IPv4
    key to an 8-bit "allowed" flag, with max_entries fixed when it is created.
    Besides its contents the map has an iteration order, which is what
    BPF_MAP_GET_NEXT_KEY walks (bpf(2) manual page); where a new key lands in
    that order is the kernel's choice. */
module BpfMap {
  import opened Wrappers
  import opened Packet

  /** errno values the map operations report (negated). */
  const ENOENT: int := 2
  const E2BIG: int := 7

  ghost predicate Distinct(s: seq<u32>)
  {
    forall i, j :: 0 <= i < j < |s| ==> s[i] != s[j]
  }

  /** order lists every key of entries exactly once. */
  ghost predicate IsOrderOf(order: seq<u32>, entries: map<u32, u8>)
  {
    Distinct(order) && forall a :: a in entries <==> a in order
  }

  lemma DistinctTail(s: seq<u32>)
    requires s != []
    ensures Distinct(s) ==> Distinct(s[1..]) && s[0] !in s[1..]
  {
    if Distinct(s) {
      forall j | 0 <= j < |s| - 1 ensures s[1..][j] != s[0] {
        assert s[1..][j] == s[j + 1];
      }
    }
  }

  lemma DistinctCons(x: u32, s: seq<u32>)
    ensures Distinct(s) && x !in s ==> Distinct([x] + s)
  {
    if Distinct(s) && x !in s {
      var t := [x] + s;
      forall i, j | 0 <= i < j < |t| ensures t[i] != t[j] {
        assert t[j] == s[j - 1];
        if i > 0 {
          assert t[i] == s[i - 1];
        }
      }
    }
  }

  /** The keys of s other than k, in the same relative order. */
  function Without(s: seq<u32>, k: u32): (r: seq<u32>)
    ensures forall a :: a in r <==> a in s && a != k
    ensures Distinct(s) ==> Distinct(r)
    ensures Distinct(s) && k in s ==> |r| == |s| - 1
    ensures k !in s ==> r == s
    ensures |r| <= |s|
  {
    if s == [] then []
    else
      var rest := Without(s[1..], k);
      DistinctTail(s);
      if s[0] == k then rest
      else
        DistinctCons(s[0], rest);
        assert s == [s[0]] + s[1..];
        [s[0]] + rest
  }

  /** Position of a key in a sequence that holds it. */
  function IndexOf(s: seq<u32>, k: u32): (i: nat)
    requires k in s
    ensures i < |s| && s[i] == k
    ensures forall j :: 0 <= j < i ==> s[j] != k
  {
    if s[0] == k then 0 else 1 + IndexOf(s[1..], k)
  }

  /** A map with a duplicate-free key order has as many entries as keys listed. */
  lemma {:induction false} OrderSize(order: seq<u32>, keys: set<u32>)
    requires Distinct(order)
    requires forall a :: a in keys <==> a in order
    ensures |keys| == |order|
  {
    if order == [] {
      assert forall a :: a !in keys;
      assert keys == {};
    } else {
      var rest := order[1..];
      assert Distinct(rest) by {
        forall i, j | 0 <= i < j < |rest| ensures rest[i] != rest[j] {
          assert rest[i] == order[i + 1] && rest[j] == order[j + 1];
        }
      }
      assert order[0] !in rest by {
        forall j | 0 <= j < |rest| ensures rest[j] != order[0] {
          assert rest[j] == order[j + 1];
        }
      }
      var keys' := keys - {order[0]};
      assert forall a :: a in keys' <==> a in rest by {
        forall a ensures a in keys' <==> a in rest {
          assert a in order <==> a == order[0] || a in rest by {
            assert order == [order[0]] + rest;
          }
        }
      }
      OrderSize(rest, keys');
    }
  }

  lemma OrderEmpty(order: seq<u32>, entries: map<u32, u8>)
    requires IsOrderOf(order, entries)
    ensures order == [] <==> entries == map[]
  {
    if order != [] {
      assert order[0] in order;
    } else {
      assert forall a :: a !in entries;
      assert entries == map[];
    }
  }

  lemma EntriesSize(order: seq<u32>, entries: map<u32, u8>)
    requires IsOrderOf(order, entries)
    ensures |entries| == |order|
  {
    OrderSize(order, entries.Keys);
    assert |entries| == |entries.Keys|;
  }

  /** Inserting a new key anywhere keeps the order duplicate-free and complete. */
  lemma InsertAt(order: seq<u32>, entries: map<u32, u8>, k: u32, v: u8, i: nat)
    requires IsOrderOf(order, entries) && k !in entries && i <= |order|
    ensures IsOrderOf(order[..i] + [k] + order[i..], entries[k := v])
  {
    var o := order[..i] + [k] + order[i..];
    assert forall a :: a in o <==> a in order || a == k by {
      assert order == order[..i] + order[i..];
    }
    forall p, q | 0 <= p < q < |o| ensures o[p] != o[q] {
      if p < i && q < i {
        assert o[p] == order[p] && o[q] == order[q];
      } else if p < i && q == i {
        assert o[p] == order[p];
      } else if p < i {
        assert o[p] == order[p] && o[q] == order[q - 1];
      } else if p == i {
        assert o[q] == order[q - 1];
      } else {
        assert o[p] == order[p - 1] && o[q] == order[q - 1];
      }
    }
  }

  /** Taking a key out and putting it back anywhere leaves the other keys in
      their relative order. */
  lemma {:induction false} WithoutInsert(s: seq<u32>, k: u32, i: nat)
    requires k !in s && i <= |s|
    ensures Without(s[..i] + [k] + s[i..], k) == s
  {
    if i > 0 {
      var t := s[..i] + [k] + s[i..];
      assert t[0] == s[0] && t[1..] == s[1..][..i - 1] + [k] + s[1..][i - 1..];
      WithoutInsert(s[1..], k, i - 1);
      assert s == [s[0]] + s[1..];
    } else {
      assert s[..0] + [k] + s[0..] == [k] + s;
      assert ([k] + s)[1..] == s;
    }
  }

  /** Moving or adding key k to position i of the order of the other keys. */
  lemma Reinsert(order: seq<u32>, entries: map<u32, u8>, k: u32, v: u8, i: nat)
    requires IsOrderOf(order, entries) && i <= |Without(order, k)|
    ensures var rest := Without(order, k);
      IsOrderOf(rest[..i] + [k] + rest[i..], entries[k := v])
  {
    var others := entries - {k};
    ReinsertOthers(order, entries, k);
    InsertAt(Without(order, k), others, k, v, i);
    var inserted, updated := others[k := v], entries[k := v];
    assert forall a :: a in inserted <==> a in updated;
  }

  /** The order of the keys other than k is the order of the map without k. */
  lemma ReinsertOthers(order: seq<u32>, entries: map<u32, u8>, k: u32)
    requires IsOrderOf(order, entries)
    ensures IsOrderOf(Without(order, k), entries - {k})
    ensures |Without(order, k)| == if k in entries then |order| - 1 else |order|
  {
  }

  class HashMap {
    var entries: map<u32, u8>
    /** The order in which BPF_MAP_GET_NEXT_KEY visits the keys. */
    var order: seq<u32>
    const maxEntries: nat

    ghost predicate Valid()
      reads this
    {
      IsOrderOf(order, entries) && |order| <= maxEntries
    }

    /** An empty map of the given capacity (WHITELIST_MAP_SIZE for whitelist_map). */
    constructor (maxEntries: nat)
      ensures Valid() && entries == map[] && this.maxEntries == maxEntries
    {
      entries := map[];
      order := [];
      this.maxEntries := maxEntries;
    }

    /** BPF_MAP_GET_NEXT_KEY. key None is a NULL key argument. A key that is
        not in the map (NULL included) yields the first key; a key in the map
        yields the one after it; the last key, or an empty map, yields ENOENT
        (None). */
    function GetNextKey(key: Option<u32>): (r: Option<u32>)
      reads this
      requires Valid()
      ensures r.Some? ==> r.value in entries
      ensures r.None? <==> entries == map[] || (key.Some? && key.value in entries && |order| > 0 && order[|order| - 1] == key.value)
      ensures r.Some? && key.Some? ==> r.value != key.value
      ensures (key.None? || key.value !in entries) && entries != map[] ==> r == Some(order[0])
      ensures key.Some? && key.value in entries && r.Some? ==>
        exists i :: 0 <= i < |order| - 1 && order[i] == key.value && r.value == order[i + 1]
    {
      OrderEmpty(order, entries);
      if key.Some? && key.value in entries then
        var i := IndexOf(order, key.value);
        if i + 1 < |order| then Some(order[i + 1]) else None
      else if |order| > 0 then Some(order[0])
      else None
    }

    /** BPF_MAP_UPDATE_ELEM with BPF_ANY: overwrite an existing key, insert a
        new one while the map has room, and fail with E2BIG when it is full.
        The written element is linked afresh, so its place in the iteration
        order is the kernel's choice even on an overwrite; every other key
        keeps its place relative to the rest. */
    method Update(key: u32, value: u8) returns (err: int)
      requires Valid()
      modifies this
      ensures Valid()
      ensures err == 0 <==> key in old(entries) || |old(entries)| < maxEntries
      ensures err == 0 ==> entries == old(entries)[key := value]
      ensures err == 0 ==> Without(order, key) == Without(old(order), key)
      ensures err != 0 ==> err == -E2BIG && entries == old(entries) && order == old(order)
    {
      EntriesSize(order, entries);
      if key in entries || |order| < maxEntries {
        var rest := Without(order, key);
        var i :| 0 <= i <= |rest|;
        Reinsert(order, entries, key, value, i);
        WithoutInsert(rest, key, i);
        ReinsertOthers(order, entries, key);
        order := rest[..i] + [key] + rest[i..];
        entries := entries[key := value];
        err := 0;
      } else {
        err := -E2BIG;
      }
    }

    /** BPF_MAP_DELETE_ELEM: remove the key, ENOENT when it is absent. */
    method Delete(key: u32) returns (err: int)
      requires Valid()
      modifies this
      ensures Valid()
      ensures err == 0 <==> key in old(entries)
      ensures err != 0 ==> err == -ENOENT && entries == old(entries) && order == old(order)
      ensures entries == old(entries) - {key}
      ensures key in old(entries) ==> |order| == |old(order)| - 1
    {
      if key in entries {
        order := Without(order, key);
        entries := entries - {key};
        err := 0;
      } else {
        err := -ENOENT;
      }
    }
  }
}
