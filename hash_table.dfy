/**
 * `Hash_Table<K, V>`: a chained hash table with lazy rehashing.
 *
 * The buckets live in a `Dynamic_Array` whose capacity (`get_size`) is the
 * bucket count. A new table has 4 buckets. When an insert would push the load
 * factor `(size + 1) / buckets` above 3 the array is doubled by appending
 * empty buckets; no entry is moved. Instead `search` and `remove` probe the
 * bucket counts S, S/2, S/4, ... down to the original 4, and `search` moves
 * a cell it finds away from an older bucket into its bucket under the
 * current count.
 */
module HashTables {
  import opened Wrappers
  import opened Sequences
  import opened DynamicArrays
  import opened HashChains

  // ---------------------------------------------------------------------------
  // The table
  // ---------------------------------------------------------------------------

  /**
   * The lazy rehashing step of `search`: the cell at position `i` of bucket
   * `b` is appended to the chain of bucket `e` and taken out of chain `b`.
   */
  method MoveCell<K(==), V(==)>(buckets: DynamicArray<seq<Cell<K, V>>>, ghost chains: seq<seq<Cell<K, V>>>, b: nat, i: nat, e: nat)
    requires buckets.Valid() && buckets.Elements() == chains
    requires b < |chains| && i < |chains[b]| && e < |chains| && e != b
    modifies buckets.arr
    ensures buckets.Valid() && buckets.Elements() == Relocate(chains, b, i, e)
  {
    var chain := buckets.Get(b);
    var target := buckets.Get(e);
    var found := chain.value[i];
    var _ := buckets.Replace(target.value + [found], e);
    var _ := buckets.Replace(Sequences.RemoveAt(chain.value, i), b);
  }

  /** Appends cell `c` to the chain of bucket `b`. */
  method AppendCell<K(==), V(==)>(buckets: DynamicArray<seq<Cell<K, V>>>, ghost chains: seq<seq<Cell<K, V>>>, b: nat, c: Cell<K, V>)
    requires buckets.Valid() && buckets.Elements() == chains && b < |chains|
    modifies buckets.arr
    ensures buckets.Valid() && buckets.Elements() == chains[b := chains[b] + [c]]
  {
    var chain := buckets.Get(b);
    var _ := buckets.Replace(chain.value + [c], b);
  }

  /** Takes the cell at position `i` out of the chain of bucket `b`. */
  method RemoveCell<K(==), V(==)>(buckets: DynamicArray<seq<Cell<K, V>>>, ghost chains: seq<seq<Cell<K, V>>>, b: nat, i: nat)
    requires buckets.Valid() && buckets.Elements() == chains && b < |chains| && i < |chains[b]|
    modifies buckets.arr
    ensures buckets.Valid() && buckets.Elements() == chains[b := Sequences.RemoveAt(chains[b], i)]
  {
    var chain := buckets.Get(b);
    var _ := buckets.Replace(Sequences.RemoveAt(chain.value, i), b);
  }

  /**
   * The growth loop of `insert`: on a full array of `n` chains, `n` empty
   * buckets are inserted at the end; the array doubles once, on the first.
   */
  method AppendEmpties<K(==), V(==)>(buckets: DynamicArray<seq<Cell<K, V>>>, ghost chains: seq<seq<Cell<K, V>>>)
    requires buckets.Valid() && buckets.Elements() == chains
    requires buckets.resizeFactor == RESIZE_FACTOR && 0 < |chains| == buckets.arr.Length
    modifies buckets
    ensures buckets.Valid() && fresh(buckets.Repr - old(buckets.Repr)) && buckets.resizeFactor == RESIZE_FACTOR
    ensures buckets.arr.Length == RESIZE_FACTOR * |chains|
    ensures buckets.Elements() == chains + Empties(|chains|)
  {
    var capacity := buckets.GetSize();
    var maximumIndex := buckets.GetMaximumIndex();
    var i := maximumIndex + 1;
    while i < capacity * RESIZE_FACTOR
      invariant capacity <= i <= capacity * RESIZE_FACTOR
      invariant buckets.Valid() && fresh(buckets.Repr - old(buckets.Repr)) && buckets.resizeFactor == RESIZE_FACTOR
      invariant buckets.arr.Length == if i == capacity then capacity else capacity * RESIZE_FACTOR
      invariant buckets.Elements() == chains + Empties(i - capacity)
    {
      var _ := buckets.Insert([], i);
      assert buckets.Elements() == chains + Empties(i + 1 - capacity);
      i := i + 1;
    }
  }

  class HashTable<K(==), V(==)> {
    /** `hash_function`: `std::hash<K>`, a deterministic function the model leaves abstract. */
    const hash: K -> nat
    var buckets: DynamicArray<seq<Cell<K, V>>>
    var originalNumOfBuckets: nat
    var size: nat

    /** The chains, bucket by bucket. */
    ghost var Chains: seq<seq<Cell<K, V>>>
    /** The stored key-value mapping. */
    ghost var Contents: map<K, V>
    /** How many times the bucket count has doubled. */
    ghost var Generation: nat
    ghost var Repr: set<object>

    /**
     * The bucket array is a dynamic array with resize factor 2 whose
     * capacity, 4 doubled `Generation` times, is the bucket count and whose
     * elements are `Chains`; the chains satisfy the table invariant with
     * `size` and `Contents`.
     */
    ghost predicate Valid()
      reads this, Repr
      ensures Valid() ==> this in Repr
    {
      && this in Repr && buckets in Repr && buckets.Repr <= Repr && this !in buckets.Repr
      && buckets.Valid()
      && buckets.resizeFactor == RESIZE_FACTOR
      && originalNumOfBuckets == DEFAULT_SIZE
      && buckets.arr.Length == BucketCount(Generation)
      && buckets.Elements() == Chains
      && TableInv(Chains, hash, Generation, size, Contents)
    }

    /** The bucket count, `ht->get_size()`. */
    ghost function Capacity(): nat
      reads this
    {
      BucketCount(Generation)
    }

    /** A new table: 4 null buckets, nothing stored, `size` 0. */
    constructor (hash: K -> nat)
      ensures Valid() && fresh(Repr)
      ensures this.hash == hash && Contents == map[] && size == 0 && Capacity() == DEFAULT_SIZE
    {
      this.hash := hash;
      var ht := new DynamicArray<seq<Cell<K, V>>>();
      ht.SetResizeFactor(RESIZE_FACTOR);
      var original := ht.GetSize();
      var maximumIndex := ht.GetMaximumIndex();
      var i := maximumIndex + 1;
      while i < ht.arr.Length
        invariant 0 <= i <= DEFAULT_SIZE
        invariant ht.Valid() && fresh(ht.Repr) && ht.resizeFactor == RESIZE_FACTOR
        invariant ht.arr.Length == DEFAULT_SIZE && ht.Elements() == Empties(i)
      {
        var _ := ht.Insert([], i);
        assert ht.Elements() == Empties(i + 1);
        i := i + 1;
      }
      buckets := ht;
      originalNumOfBuckets := original;
      size := 0;
      Generation := 0;
      Chains := Empties(DEFAULT_SIZE);
      Contents := map[];
      Repr := {this} + ht.Repr;
      TableInvEmpty<K, V>(hash);
    }

    /**
     * The probe loop shared by `search` and `remove`: for the bucket counts
     * S, S/2, ... down to the original 4, the chain at `hash(key)` modulo
     * that count is scanned from its start. Yields the bucket and position of
     * the first cell holding `key`, or nothing when the key is not stored.
     */
    method Probe(key: K) returns (r: Option<(nat, nat)>)
      requires Valid()
      ensures r.None? ==> key !in Contents
      ensures r.Some? ==> r.value.0 < |Chains| && r.value.1 < |Chains[r.value.0]|
      ensures r.Some? ==> Chains[r.value.0][r.value.1].key == key
    {
      ghost var chains := Chains;
      ghost var g := Generation;
      var sizeDivisorPower: nat := 0;
      while true
        invariant sizeDivisorPower <= g
        invariant forall q :: g - sizeDivisorPower < q <= g ==>
          hash(key) % BucketCount(q) < |chains| && Missing(chains[hash(key) % BucketCount(q)], key)
        decreases g - sizeDivisorPower
      {
        var capacity := buckets.GetSize();
        DividedSize(g, sizeDivisorPower);
        var dividedSize := capacity / Pow2(sizeDivisorPower);
        BucketCountMonotone(g - sizeDivisorPower, g);
        var bucketIndex := hash(key) % dividedSize;
        var chain := buckets.Get(bucketIndex);
        var i := ScanChain(chain.value, key);
        if i.Some? {
          return Some((bucketIndex, i.value));
        }
        if dividedSize == originalNumOfBuckets {
          break;
        }
        sizeDivisorPower := sizeDivisorPower + 1;
      }
      TableInvMiss(chains, hash, g, size, Contents, key);
      r := None;
    }

    /**
     * The lazy rehashing step of `search` on the table: the cell at position
     * `i` of bucket `b` moves to the end of the chain of its home bucket `e`;
     * the mapping stays the same.
     */
    method MoveHome(b: nat, i: nat, e: nat)
      requires Valid() && b < |Chains| && i < |Chains[b]|
      requires e == hash(Chains[b][i].key) % Capacity() && e != b
      modifies this, buckets.arr
      ensures Valid() && Repr == old(Repr) && buckets == old(buckets)
      ensures Generation == old(Generation) && size == old(size) && Contents == old(Contents)
      ensures Chains == Relocate(old(Chains), b, i, e)
    {
      MoveCell(buckets, Chains, b, i, e);
      TableInvRelocate(Chains, hash, Generation, size, Contents, b, i);
      Chains := Relocate(Chains, b, i, e);
    }

    /**
     * `search`: the value stored under `key`, or nothing. A cell found in a
     * bucket other than `hash(key)` modulo the current bucket count is moved
     * to the end of that bucket's chain, so that afterwards the key sits in
     * its home bucket; the mapping stays the same.
     */
    method Search(key: K) returns (r: Option<V>)
      requires Valid()
      modifies Repr
      ensures Valid() && Repr == old(Repr) && Generation == old(Generation)
      ensures size == old(size) && Contents == old(Contents)
      ensures key in Contents ==> r == Some(Contents[key])
      ensures key !in Contents ==> r == None
      ensures r.Some? ==> !Missing(Chains[hash(key) % Capacity()], key)
      ensures r.None? ==> Chains == old(Chains)
    {
      r := None;
      var location := Probe(key);
      if location.Some? {
        var (bucketIndex, i) := location.value;
        var capacity := buckets.GetSize();
        var expectedBucketIndex := hash(key) % capacity;
        var chain := buckets.Get(bucketIndex);
        var found := chain.value[i];
        ghost var chains := Chains;
        ghost var position := i;
        if expectedBucketIndex != bucketIndex {
          MoveHome(bucketIndex, i, expectedBucketIndex);
          position := |chains[expectedBucketIndex]|;
        }
        assert Chains[expectedBucketIndex][position] == found;
        TableInvLookup(Chains, hash, Generation, size, Contents, expectedBucketIndex, position);
        r := Some(found.value);
      }
    }

    /**
     * The growth step of `insert`: empty buckets are appended until the
     * bucket count has doubled. No cell moves.
     */
    method Grow()
      requires Valid()
      modifies Repr
      ensures Valid() && fresh(Repr - old(Repr))
      ensures Generation == old(Generation) + 1 && Capacity() == RESIZE_FACTOR * old(Capacity())
      ensures size == old(size) && Contents == old(Contents)
      ensures Chains == old(Chains) + Empties(old(Capacity()))
    {
      ghost var chains := Chains;
      var capacity := buckets.GetSize();
      AppendEmpties(buckets, chains);
      TableInvGrow(chains, hash, Generation, size, Contents);
      Generation := Generation + 1;
      Chains := chains + Empties(capacity);
      Repr := Repr + buckets.Repr;
    }

    /** The new-key branch of `insert`: the pair goes to the end of chain `b`, its home bucket, and is counted. */
    method AddPair(key: K, value: V, b: nat)
      requires Valid() && key !in Contents && size < MAX_LOAD_FACTOR * Capacity()
      requires b == hash(key) % Capacity()
      modifies this, buckets.arr
      ensures Valid() && Repr == old(Repr) && Generation == old(Generation)
      ensures size == old(size) + 1 && Contents == old(Contents)[key := value]
      ensures Chains == old(Chains)[b := old(Chains)[b] + [Cell(key, value)]]
    {
      AppendCell(buckets, Chains, b, Cell(key, value));
      TableInvAdd(Chains, hash, Generation, size, Contents, key, value, b);
      Chains := Chains[b := Chains[b] + [Cell(key, value)]];
      Contents := Contents[key := value];
      size := size + 1;
    }

    /** The duplicate-key branch of `insert`: nothing is stored, but `size` still counts the call. */
    method CountDuplicate()
      requires Valid() && size < MAX_LOAD_FACTOR * Capacity()
      modifies this
      ensures Valid() && Repr == old(Repr) && Generation == old(Generation)
      ensures size == old(size) + 1 && Contents == old(Contents)
    {
      TableInvCount(Chains, hash, Generation, size, Contents);
      size := size + 1;
    }

    /**
     * The load test of `insert`: the bucket count doubles when one more
     * insert would take `size / buckets` above `MAX_LOAD_FACTOR`.
     */
    method MakeRoom()
      requires Valid()
      modifies Repr
      ensures Valid() && fresh(Repr - old(Repr))
      ensures size == old(size) && Contents == old(Contents) && size < MAX_LOAD_FACTOR * Capacity()
      ensures Generation == if old(size) + 1 > MAX_LOAD_FACTOR * old(Capacity()) then old(Generation) + 1 else old(Generation)
      ensures Chains == if old(size) + 1 > MAX_LOAD_FACTOR * old(Capacity()) then old(Chains) + Empties(old(Capacity())) else old(Chains)
    {
      var capacity := buckets.GetSize();
      if size + 1 > MAX_LOAD_FACTOR * capacity {
        Grow();
      }
    }

    /**
     * `insert`: first makes room, then appends the pair to the end of the
     * chain of its home bucket, `hash(key)` modulo the bucket count after
     * growth, unless `search` finds the key already stored; `size` counts
     * the call either way.
     */
    method Insert(key: K, value: V)
      requires Valid()
      modifies Repr
      ensures Valid() && fresh(Repr - old(Repr))
      ensures size == old(size) + 1
      ensures Generation == if old(size) + 1 > MAX_LOAD_FACTOR * old(Capacity()) then old(Generation) + 1 else old(Generation)
      ensures Contents == if key in old(Contents) then old(Contents) else old(Contents)[key := value]
      ensures var grown := if old(size) + 1 > MAX_LOAD_FACTOR * old(Capacity()) then old(Chains) + Empties(old(Capacity())) else old(Chains);
        var b := hash(key) % Capacity();
        && |grown| == Capacity()
        && (key !in old(Contents) ==> Chains == grown[b := grown[b] + [Cell(key, value)]])
    {
      MakeRoom();
      var capacity := buckets.GetSize();
      var bucketIndex := hash(key) % capacity;
      var existing := Search(key);
      if existing.None? {
        AddPair(key, value, bucketIndex);
      } else {
        CountDuplicate();
      }
    }

    /** The hit branch of `remove`: the cell at position `i` of chain `b` is unlinked and counted off. */
    method TakeOut(b: nat, i: nat)
      requires Valid() && b < |Chains| && i < |Chains[b]|
      modifies this, buckets.arr
      ensures Valid() && Repr == old(Repr) && Generation == old(Generation)
      ensures size == old(size) - 1 && Contents == old(Contents) - {old(Chains)[b][i].key}
    {
      RemoveCell(buckets, Chains, b, i);
      TableInvRemove(Chains, hash, Generation, size, Contents, b, i);
      Chains := Chains[b := Sequences.RemoveAt(Chains[b], i)];
      Contents := Contents - {old(Chains)[b][i].key};
      size := size - 1;
    }

    /**
     * `remove`: probes for `key` as `search` does and takes the first cell
     * holding it out of its chain, counting it off `size`; does nothing when
     * the key is not stored.
     */
    method Remove(key: K)
      requires Valid()
      modifies Repr
      ensures Valid() && Repr == old(Repr) && Generation == old(Generation)
      ensures Contents == old(Contents) - {key}
      ensures size == if key in old(Contents) then old(size) - 1 else old(size)
    {
      var location := Probe(key);
      if location.Some? {
        var (bucketIndex, i) := location.value;
        TableInvLookup(Chains, hash, Generation, size, Contents, bucketIndex, i);
        TakeOut(bucketIndex, i);
      } else {
        assert Contents - {key} == Contents;
      }
    }

    /** `replace`: `remove` followed by `insert`; afterwards `key` maps to `value`. */
    method Replace(key: K, value: V)
      requires Valid()
      modifies Repr
      ensures Valid() && fresh(Repr - old(Repr))
      ensures Contents == old(Contents)[key := value]
      ensures size == if key in old(Contents) then old(size) else old(size) + 1
      ensures var removed := if key in old(Contents) then old(size) - 1 else old(size);
        Generation == if removed + 1 > MAX_LOAD_FACTOR * old(Capacity()) then old(Generation) + 1 else old(Generation)
    {
      ghost var contents, capacity := Contents, Capacity();
      Remove(key);
      assert key !in Contents && Capacity() == capacity;
      Insert(key, value);
      assert Contents == (contents - {key})[key := value] == contents[key := value];
    }
  }

  // ---------------------------------------------------------------------------
  // The behaviour the unit test exercises
  // ---------------------------------------------------------------------------

  /** The position where `keys[i]` first occurs. */
  function FirstIndex<K(==)>(keys: seq<K>, i: nat): (j: nat)
    requires i < |keys|
    ensures j <= i && keys[j] == keys[i]
    ensures forall k :: 0 <= k < j ==> keys[k] != keys[i]
  {
    if exists k :: 0 <= k < i && keys[k] == keys[i] then
      var k :| 0 <= k < i && keys[k] == keys[i];
      FirstIndex(keys, k)
    else i
  }

  /** The mapping that inserting `keys[k] := values[k]` in order leaves: each key keeps its first value. */
  ghost function FirstValues<K, V>(keys: seq<K>, values: seq<V>): map<K, V>
    requires |keys| == |values|
  {
    if keys == [] then map[]
    else
      var n := |keys| - 1;
      var m := FirstValues(keys[..n], values[..n]);
      if keys[n] in m then m else m[keys[n] := values[n]]
  }

  /** Every inserted key is mapped, to the value inserted with its first occurrence. */
  lemma {:induction false} FirstValuesLookup<K, V>(keys: seq<K>, values: seq<V>, i: nat)
    requires |keys| == |values| && i < |keys|
    ensures keys[i] in FirstValues(keys, values)
    ensures FirstValues(keys, values)[keys[i]] == values[FirstIndex(keys, i)]
  {
    var n := |keys| - 1;
    var f := FirstIndex(keys, i);
    if f < n {
      FirstValuesLookup(keys[..n], values[..n], f);
      assert FirstIndex(keys[..n], f) == f by {
        FirstIndexPrefix(keys, f, n);
      }
    } else {
      if keys[n] in FirstValues(keys[..n], values[..n]) {
        FirstValuesKeys(keys[..n], values[..n]);
        assert false;
      }
    }
  }

  /** A first occurrence in `keys` is a first occurrence in any prefix that holds it. */
  lemma FirstIndexPrefix<K>(keys: seq<K>, i: nat, n: nat)
    requires i < n <= |keys| && forall k :: 0 <= k < i ==> keys[k] != keys[i]
    ensures FirstIndex(keys[..n], i) == i
  {
  }

  /** The mapped keys are exactly the inserted ones. */
  lemma {:induction false} FirstValuesKeys<K, V>(keys: seq<K>, values: seq<V>)
    requires |keys| == |values|
    ensures forall key :: key in FirstValues(keys, values) <==> key in keys
  {
    if keys != [] {
      var n := |keys| - 1;
      FirstValuesKeys(keys[..n], values[..n]);
      assert keys == keys[..n] + [keys[n]];
    }
  }

  /** Inserts the pairs `keys[k] := values[k]` in order into an empty table. */
  method InsertAll<K(==), V(==)>(ht: HashTable<K, V>, keys: seq<K>, values: seq<V>)
    requires ht.Valid() && ht.Contents == map[] && |keys| == |values|
    modifies ht.Repr
    ensures ht.Valid() && fresh(ht.Repr - old(ht.Repr))
    ensures ht.Contents == FirstValues(keys, values)
  {
    var i := 0;
    while i < |keys|
      invariant 0 <= i <= |keys|
      invariant ht.Valid() && fresh(ht.Repr - old(ht.Repr))
      invariant ht.Contents == FirstValues(keys[..i], values[..i])
    {
      ht.Insert(keys[i], values[i]);
      assert keys[..i + 1][..i] == keys[..i] && values[..i + 1][..i] == values[..i];
      i := i + 1;
    }
    assert keys[..i] == keys && values[..i] == values;
  }

  /** Searches every key in turn; each result is what the mapping holds for it. */
  method SearchAll<K(==), V(==)>(ht: HashTable<K, V>, keys: seq<K>) returns (found: seq<Option<V>>)
    requires ht.Valid()
    modifies ht.Repr
    ensures ht.Valid() && ht.Repr == old(ht.Repr) && ht.Contents == old(ht.Contents)
    ensures |found| == |keys|
    ensures forall k :: 0 <= k < |keys| ==> found[k] == if keys[k] in ht.Contents then Some(ht.Contents[keys[k]]) else None
  {
    found := [];
    var j := 0;
    while j < |keys|
      invariant 0 <= j <= |keys| && |found| == j
      invariant ht.Valid() && ht.Repr == old(ht.Repr) && ht.Contents == old(ht.Contents)
      invariant forall k :: 0 <= k < j ==> found[k] == if keys[k] in ht.Contents then Some(ht.Contents[keys[k]]) else None
    {
      var r := ht.Search(keys[j]);
      found := found + [r];
      j := j + 1;
    }
  }

  /**
   * The `InsertData` test: the pairs `keys[k] := values[k]` are inserted in
   * order into a new table, then every key is searched; each search returns
   * the value inserted with the key's first occurrence, and so `values[k]`
   * itself when the keys are distinct.
   */
  method InsertDataScenario<K(==), V(==)>(hash: K -> nat, keys: seq<K>, values: seq<V>) returns (found: seq<Option<V>>)
    requires |keys| == |values|
    ensures |found| == |keys|
    ensures forall k :: 0 <= k < |keys| ==> found[k] == Some(values[FirstIndex(keys, k)])
  {
    var ht := new HashTable<K, V>(hash);
    InsertAll(ht, keys, values);
    found := SearchAll(ht, keys);
    forall k | 0 <= k < |keys|
      ensures found[k] == Some(values[FirstIndex(keys, k)])
    {
      FirstValuesLookup(keys, values, k);
    }
  }
}
