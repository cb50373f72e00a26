/**
 * The value-level theory of `Hash_Table<K, V>`: bucket counts under lazy
 * rehashing, the buckets the probe visits, the stored pairs of a bucket
 * array and the map they define, and the table invariant with one lemma per
 * operation that keeps it.
 *
 * Each chain is modelled as the sequence of cells of its `Linked_List`; a
 * null bucket and an empty list are both the empty sequence. The abstract
 * contents of the table are the multiset of stored cells, `Pairs`, and the
 * map from key to value they define, `MapOf`.
 */
module HashChains {
  import opened Wrappers
  import opened Sequences
  import DynamicArrays

  /** The bucket-array growth factor, `DYNAMIC_HASH_TABLE_RESIZE_FACTOR`. */
  const RESIZE_FACTOR := 2

  /** The load factor above which an insert first doubles the bucket count. */
  const MAX_LOAD_FACTOR := 3

  /** The source's `cell` struct: one stored key-value pair. */
  datatype Cell<K, V> = Cell(key: K, value: V)

  // ---------------------------------------------------------------------------
  // Bucket counts and the probe sequence
  // ---------------------------------------------------------------------------

  function Pow2(n: nat): (r: nat)
    ensures r >= 1
  {
    if n == 0 then 1 else 2 * Pow2(n - 1)
  }

  lemma {:induction false} Pow2Add(a: nat, b: nat)
    ensures Pow2(a + b) == Pow2(a) * Pow2(b)
  {
    if a > 0 {
      Pow2Add(a - 1, b);
    }
  }

  /** The number of buckets after `g` doublings of the original 4. */
  function BucketCount(g: nat): (n: nat)
    ensures n >= DynamicArrays.DEFAULT_SIZE
  {
    DynamicArrays.DEFAULT_SIZE * Pow2(g)
  }

  /** Fewer doublings mean fewer buckets, and only zero doublings give the original count. */
  lemma {:induction false} BucketCountMonotone(q: nat, g: nat)
    requires q <= g
    ensures BucketCount(q) <= BucketCount(g)
    ensures BucketCount(q) == BucketCount(g) <==> q == g
  {
    if q < g {
      BucketCountMonotone(q, g - 1);
    }
  }

  /** A positive multiple of `k` is at least `k`. */
  lemma {:induction false} MulAtLeast(x: nat, k: nat)
    requires x >= 1
    ensures x * k >= k
  {
    if x > 1 {
      MulAtLeast(x - 1, k);
      assert x * k == (x - 1) * k + k;
    }
  }

  lemma DivExact(q: nat, k: nat)
    requires k > 0
    ensures (q * k) / k == q
  {
    var d, m := (q * k) / k, (q * k) % k;
    assert d * k + m == q * k;
    if d < q {
      assert (q - d) * k == q * k - d * k;
      MulAtLeast(q - d, k);
    } else if d > q {
      assert (d - q) * k == d * k - q * k;
      MulAtLeast(d - q, k);
    }
  }

  /**
   * The probe size `size / pow(2, p)` of a table grown `g` times is the
   * bucket count of `g - p` doublings; it is the original count exactly at
   * `p == g`.
   */
  lemma DividedSize(g: nat, p: nat)
    requires p <= g
    ensures BucketCount(g) / Pow2(p) == BucketCount(g - p)
    ensures BucketCount(g - p) == DynamicArrays.DEFAULT_SIZE <==> p == g
  {
    Pow2Add(g - p, p);
    assert BucketCount(g) == BucketCount(g - p) * Pow2(p);
    DivExact(BucketCount(g - p), Pow2(p));
    BucketCountMonotone(0, g - p);
  }

  /**
   * Bucket `b` is one of those the probe for hash `h` visits in a table grown
   * `g` times: `h mod BucketCount(q)` for some `q <= g`.
   */
  predicate Probed(b: nat, h: nat, g: nat) {
    b == h % BucketCount(g) || (g > 0 && Probed(b, h, g - 1))
  }

  lemma {:induction false} ProbedWitness(b: nat, h: nat, g: nat) returns (q: nat)
    requires Probed(b, h, g)
    ensures q <= g && b == h % BucketCount(q)
  {
    if b == h % BucketCount(g) {
      q := g;
    } else {
      q := ProbedWitness(b, h, g - 1);
    }
  }

  lemma {:induction false} ProbedAt(h: nat, q: nat, g: nat)
    requires q <= g
    ensures Probed(h % BucketCount(q), h, g)
  {
    if q < g {
      ProbedAt(h, q, g - 1);
    }
  }

  // ---------------------------------------------------------------------------
  // Chains, the stored pairs and the map they define
  // ---------------------------------------------------------------------------

  /** The chain holds no cell with `key`. */
  predicate Missing<K(==), V>(chain: seq<Cell<K, V>>, key: K) {
    forall j :: 0 <= j < |chain| ==> chain[j].key != key
  }

  /** Every cell sits in a bucket the probe for its key visits. */
  ghost predicate Placed<K, V>(chains: seq<seq<Cell<K, V>>>, hash: K -> nat, g: nat) {
    forall b, j :: 0 <= b < |chains| && 0 <= j < |chains[b]| ==> Probed(b, hash(chains[b][j].key), g)
  }

  /** All stored cells, regardless of bucket and order. */
  ghost function Pairs<K, V>(chains: seq<seq<Cell<K, V>>>): multiset<Cell<K, V>> {
    if chains == [] then multiset{} else Pairs(chains[..|chains| - 1]) + multiset(chains[|chains| - 1])
  }

  /** Replacing one chain replaces its cells in `Pairs` and leaves the other chains' cells. */
  lemma {:induction false} PairsUpdate<K, V>(chains: seq<seq<Cell<K, V>>>, b: nat, chain: seq<Cell<K, V>>)
    requires b < |chains|
    ensures multiset(chains[b]) <= Pairs(chains)
    ensures Pairs(chains[b := chain]) == Pairs(chains) - multiset(chains[b]) + multiset(chain)
  {
    var n := |chains| - 1;
    var init, updated := chains[..n], chains[b := chain];
    assert Pairs(chains) == Pairs(init) + multiset(chains[n]);
    if b == n {
      assert updated[..n] == init;
      assert Pairs(updated) == Pairs(init) + multiset(chain);
    } else {
      assert updated[..n] == init[b := chain];
      PairsUpdate(init, b, chain);
      assert Pairs(updated) == Pairs(init) - multiset(chains[b]) + multiset(chain) + multiset(chains[n]);
    }
  }

  /** Every cell of every chain is stored, and every stored cell is in some chain. */
  lemma {:induction false} PairsLocate<K, V>(chains: seq<seq<Cell<K, V>>>, c: Cell<K, V>) returns (b: nat, j: nat)
    requires c in Pairs(chains)
    ensures b < |chains| && j < |chains[b]| && chains[b][j] == c
  {
    var n := |chains| - 1;
    if c in multiset(chains[n]) {
      b := n;
      j :| 0 <= j < |chains[n]| && chains[n][j] == c;
    } else {
      b, j := PairsLocate(chains[..n], c);
    }
  }

  lemma {:induction false} PairsContain<K, V>(chains: seq<seq<Cell<K, V>>>, b: nat, j: nat)
    requires b < |chains| && j < |chains[b]|
    ensures chains[b][j] in Pairs(chains)
  {
    PairsUpdate(chains, b, chains[b]);
    assert chains[b][j] in multiset(chains[b]);
  }

  /** Appending empty buckets stores no new cell. */
  lemma {:induction false} PairsEmpties<K, V>(chains: seq<seq<Cell<K, V>>>, n: nat)
    ensures Pairs(chains + Empties(n)) == Pairs(chains)
  {
    if n > 0 {
      assert (chains + Empties(n))[..|chains| + n - 1] == chains + Empties(n - 1);
      PairsEmpties(chains, n - 1);
    } else {
      assert chains + Empties(n) == chains;
    }
  }

  /** `n` empty buckets. */
  function Empties<K, V>(n: nat): (r: seq<seq<Cell<K, V>>>)
    ensures |r| == n && forall i :: 0 <= i < n ==> r[i] == []
  {
    seq(n, _ => [])
  }

  /** Cell `c` is among the stored `pairs`. */
  ghost predicate Stored<K, V>(pairs: multiset<Cell<K, V>>, c: Cell<K, V>) {
    c in pairs
  }

  /** No key is stored twice, and no cell is stored twice. */
  ghost predicate UniqueKeys<K, V>(pairs: multiset<Cell<K, V>>) {
    && (forall c {:trigger Stored(pairs, c)} :: c in pairs ==> pairs[c] == 1)
    && (forall c1, c2 {:trigger Stored(pairs, c1), Stored(pairs, c2)} :: c1 in pairs && c2 in pairs && c1.key == c2.key ==> c1 == c2)
  }

  /** The keys of the stored cells. */
  ghost function Keys<K, V>(pairs: multiset<Cell<K, V>>): set<K> {
    set c | c in pairs :: c.key
  }

  /** One of the stored cells. */
  ghost function Pick<K, V>(pairs: multiset<Cell<K, V>>): (c: Cell<K, V>)
    requires pairs != multiset{}
    ensures c in pairs
  {
    var c :| c in pairs; c
  }

  /**
   * The table's contents as a map: each stored cell in turn maps its key to
   * its value.
   */
  ghost function MapOf<K, V>(pairs: multiset<Cell<K, V>>): map<K, V>
    decreases |pairs|
  {
    if pairs == multiset{} then map[]
    else
      var c := Pick(pairs);
      MapOf(pairs - multiset{c})[c.key := c.value]
  }

  /** The map's keys are the stored keys. */
  lemma {:induction false} MapOfKeys<K, V>(pairs: multiset<Cell<K, V>>)
    ensures MapOf(pairs).Keys == Keys(pairs)
    decreases |pairs|
  {
    if pairs == multiset{} {
      assert Keys(pairs) == {};
    } else {
      var c := Pick(pairs);
      var rest := pairs - multiset{c};
      MapOfKeys(rest);
      KeysAdd(rest, c);
      assert rest + multiset{c} == pairs;
    }
  }

  /** A stored cell is found in the map under its key. */
  lemma {:induction false} MapOfLookup<K, V>(pairs: multiset<Cell<K, V>>, c: Cell<K, V>)
    requires UniqueKeys(pairs) && c in pairs
    ensures c.key in MapOf(pairs) && MapOf(pairs)[c.key] == c.value
    decreases |pairs|
  {
    var d := Pick(pairs);
    if d != c {
      assert Stored(pairs, c) && Stored(pairs, d);
      UniqueRemove(pairs, d);
      MapOfLookup(pairs - multiset{d}, c);
    }
  }

  lemma UniqueAdd<K, V>(pairs: multiset<Cell<K, V>>, c: Cell<K, V>)
    requires UniqueKeys(pairs) && c.key !in Keys(pairs)
    ensures UniqueKeys(pairs + multiset{c})
  {
    var bigger := pairs + multiset{c};
    forall d | d in pairs ensures d.key != c.key {
      assert d.key in Keys(pairs);
    }
    forall d | d in bigger ensures bigger[d] == 1 {
      if d != c {
        assert Stored(pairs, d);
      }
    }
    forall d1, d2 | d1 in bigger && d2 in bigger && d1.key == d2.key ensures d1 == d2 {
      if d1 != c && d2 != c {
        assert Stored(pairs, d1) && Stored(pairs, d2);
      }
    }
  }

  lemma KeysAdd<K, V>(pairs: multiset<Cell<K, V>>, c: Cell<K, V>)
    ensures Keys(pairs + multiset{c}) == Keys(pairs) + {c.key}
  {
    forall k | k in Keys(pairs + multiset{c}) ensures k in Keys(pairs) + {c.key} {
      var d :| d in pairs + multiset{c} && d.key == k;
    }
  }

  /** Adding a cell under a new key keeps keys unique and adds the key to the map. */
  lemma MapOfAdd<K, V>(pairs: multiset<Cell<K, V>>, c: Cell<K, V>)
    requires UniqueKeys(pairs) && c.key !in MapOf(pairs)
    ensures UniqueKeys(pairs + multiset{c})
    ensures MapOf(pairs + multiset{c}) == MapOf(pairs)[c.key := c.value]
  {
    var bigger := pairs + multiset{c};
    MapOfKeys(pairs);
    UniqueAdd(pairs, c);
    KeysAdd(pairs, c);
    MapOfKeys(bigger);
    var m1, m2 := MapOf(bigger), MapOf(pairs)[c.key := c.value];
    forall k | k in m1 ensures m1[k] == m2[k] {
      MapOfLookup(bigger, c);
      if k != c.key {
        var d :| d in pairs && d.key == k;
        MapOfLookup(bigger, d);
        MapOfLookup(pairs, d);
      }
    }
    assert m1 == m2;
  }

  lemma UniqueRemove<K, V>(pairs: multiset<Cell<K, V>>, c: Cell<K, V>)
    requires UniqueKeys(pairs) && c in pairs
    ensures UniqueKeys(pairs - multiset{c}) && c.key !in Keys(pairs - multiset{c})
  {
    var smaller := pairs - multiset{c};
    assert Stored(pairs, c);
    forall d | d in smaller ensures smaller[d] == 1 && d.key != c.key {
      assert Stored(pairs, d);
    }
    forall d1, d2 | d1 in smaller && d2 in smaller && d1.key == d2.key ensures d1 == d2 {
      assert Stored(pairs, d1) && Stored(pairs, d2);
    }
  }

  lemma KeysRemove<K, V>(pairs: multiset<Cell<K, V>>, c: Cell<K, V>)
    requires UniqueKeys(pairs) && c in pairs
    ensures Keys(pairs - multiset{c}) == Keys(pairs) - {c.key}
  {
    UniqueRemove(pairs, c);
    forall k | k in Keys(pairs) - {c.key} ensures k in Keys(pairs - multiset{c}) {
      var d :| d in pairs && d.key == k;
      assert d in pairs - multiset{c};
    }
  }

  /** Removing a stored cell keeps keys unique and removes its key from the map. */
  lemma MapOfRemove<K, V>(pairs: multiset<Cell<K, V>>, c: Cell<K, V>)
    requires UniqueKeys(pairs) && c in pairs
    ensures UniqueKeys(pairs - multiset{c})
    ensures MapOf(pairs - multiset{c}) == MapOf(pairs) - {c.key}
  {
    var smaller := pairs - multiset{c};
    UniqueRemove(pairs, c);
    var m1, m2 := MapOf(smaller), MapOf(pairs) - {c.key};
    MapOfKeys(smaller);
    assert m1.Keys == m2.Keys by {
      KeysRemove(pairs, c);
      MapOfKeys(pairs);
    }
    forall k | k in m1 ensures m1[k] == m2[k] {
      var d :| d in smaller && d.key == k;
      MapOfLookup(smaller, d);
      MapOfLookup(pairs, d);
    }
    assert m1 == m2;
  }

  /**
   * Completeness of the probe: when none of the chains the probe visits
   * holds `key`, no stored cell has that key.
   */
  lemma ProbeMiss<K, V>(chains: seq<seq<Cell<K, V>>>, hash: K -> nat, g: nat, key: K)
    requires |chains| == BucketCount(g) && Placed(chains, hash, g)
    requires forall q :: 0 <= q <= g ==> hash(key) % BucketCount(q) < |chains| && Missing(chains[hash(key) % BucketCount(q)], key)
    ensures forall c :: c in Pairs(chains) ==> c.key != key
  {
    forall c | c in Pairs(chains) ensures c.key != key {
      var b, j := PairsLocate(chains, c);
      if c.key == key {
        var q := ProbedWitness(b, hash(key), g);
        assert false;
      }
    }
  }

  /** The chains after `search` moves the cell at position `i` of bucket `b` to the end of bucket `e`. */
  function Relocate<K, V>(chains: seq<seq<Cell<K, V>>>, b: nat, i: nat, e: nat): (r: seq<seq<Cell<K, V>>>)
    requires b < |chains| && i < |chains[b]| && e < |chains| && e != b
    ensures |r| == |chains| && r[e] == chains[e] + [chains[b][i]] && r[b] == Sequences.RemoveAt(chains[b], i)
    ensures forall x :: 0 <= x < |r| && x != b && x != e ==> r[x] == chains[x]
  {
    chains[e := chains[e] + [chains[b][i]]][b := Sequences.RemoveAt(chains[b], i)]
  }

  /** Moving a cell between buckets keeps the multiset of stored pairs. */
  lemma RelocatePairs<K, V>(chains: seq<seq<Cell<K, V>>>, b: nat, i: nat, e: nat)
    requires b < |chains| && i < |chains[b]| && e < |chains| && e != b
    ensures Pairs(Relocate(chains, b, i, e)) == Pairs(chains)
  {
    var c := chains[b][i];
    var moved := chains[e := chains[e] + [c]];
    var all := Pairs(chains);
    var chain := multiset(chains[b]);
    assert Pairs(moved) == all + multiset{c} by {
      PairsUpdate(chains, e, chains[e] + [c]);
      assert multiset(chains[e] + [c]) == multiset(chains[e]) + multiset{c};
    }
    assert Pairs(Relocate(chains, b, i, e)) == all + multiset{c} - chain + (chain - multiset{c}) by {
      PairsUpdate(moved, b, Sequences.RemoveAt(chains[b], i));
      MultisetRemoveAt(chains[b], i);
      assert Relocate(chains, b, i, e) == moved[b := Sequences.RemoveAt(chains[b], i)];
    }
    assert chain <= all && c in chain by {
      PairsUpdate(chains, b, chains[b]);
    }
    MultisetMove(all, chain, c);
  }

  /** Adding `c` to the whole and then taking it out of the part `m` that holds it gives the whole back. */
  lemma MultisetMove<T>(all: multiset<T>, m: multiset<T>, c: T)
    requires m <= all && c in m
    ensures all + multiset{c} - m + (m - multiset{c}) == all
  {
    var r := all + multiset{c} - m + (m - multiset{c});
    forall x ensures r[x] == all[x] {
      assert m[x] <= all[x];
    }
    assert r == all;
  }

  /**
   * Moving a cell to its home bucket `e`, its key's hash modulo the current
   * bucket count, keeps every cell where the probe for its key looks.
   */
  lemma RelocatePlaced<K, V>(chains: seq<seq<Cell<K, V>>>, hash: K -> nat, g: nat, b: nat, i: nat, e: nat)
    requires |chains| == BucketCount(g) && Placed(chains, hash, g)
    requires b < |chains| && i < |chains[b]| && e == hash(chains[b][i].key) % BucketCount(g) && e != b
    ensures Placed(Relocate(chains, b, i, e), hash, g)
  {
    var c := chains[b][i];
    var result: seq<seq<Cell<K, V>>> := Relocate(chains, b, i, e);
    ProbedAt(hash(c.key), g, g);
    forall x: nat, j: nat | x < |result| && j < |result[x]| ensures Probed(x, hash(result[x][j].key), g) {
      if x == b {
        assert result[x][j] == if j < i then chains[b][j] else chains[b][j + 1];
      } else if x == e && j == |chains[e]| {
        assert result[x][j] == c;
      } else {
        assert result[x][j] == chains[x][j];
      }
    }
  }

  /** The scan of one chain in `search` and `remove`: the first position holding `key`. */
  method ScanChain<K(==), V>(chain: seq<Cell<K, V>>, key: K) returns (r: Option<nat>)
    ensures r.None? <==> Missing(chain, key)
    ensures r.Some? ==> r.value < |chain| && chain[r.value].key == key && Missing(chain[..r.value], key)
  {
    var i := 0;
    while i < |chain|
      invariant 0 <= i <= |chain| && Missing(chain[..i], key)
    {
      if chain[i].key == key {
        return Some(i);
      }
      i := i + 1;
    }
    assert chain[..i] == chain;
    r := None;
  }

  // ---------------------------------------------------------------------------
  // The table invariant and the operations that keep it
  // ---------------------------------------------------------------------------

  /**
   * The chains of a table grown `g` times, holding the key-value mapping
   * `contents`: one chain per bucket, every cell where the probe for its key
   * looks, no key stored twice, the map the cells define is `contents`, and
   * the `size` counter (which also counts inserts of keys already present)
   * is at least the number of cells and at most `MAX_LOAD_FACTOR` times the
   * bucket count.
   */
  ghost predicate TableInv<K, V>(chains: seq<seq<Cell<K, V>>>, hash: K -> nat, g: nat, size: nat, contents: map<K, V>) {
    && |chains| == BucketCount(g)
    && Placed(chains, hash, g)
    && UniqueKeys(Pairs(chains))
    && contents == MapOf(Pairs(chains))
    && |Pairs(chains)| <= size <= MAX_LOAD_FACTOR * BucketCount(g)
  }

  /** The 4 null buckets of a new table hold nothing and satisfy the invariant. */
  lemma TableInvEmpty<K, V>(hash: K -> nat)
    ensures TableInv(Empties<K, V>(DynamicArrays.DEFAULT_SIZE), hash, 0, 0, map[])
  {
    PairsEmpties<K, V>([], DynamicArrays.DEFAULT_SIZE);
    assert [] + Empties<K, V>(DynamicArrays.DEFAULT_SIZE) == Empties(DynamicArrays.DEFAULT_SIZE);
  }

  /**
   * Doubling the bucket count by appending empty buckets keeps every cell
   * where the longer probe looks and keeps the mapping.
   */
  lemma TableInvGrow<K, V>(chains: seq<seq<Cell<K, V>>>, hash: K -> nat, g: nat, size: nat, contents: map<K, V>)
    requires TableInv(chains, hash, g, size, contents)
    ensures BucketCount(g + 1) == RESIZE_FACTOR * BucketCount(g)
    ensures TableInv(chains + Empties(BucketCount(g)), hash, g + 1, size, contents)
  {
    var grown: seq<seq<Cell<K, V>>> := chains + Empties(BucketCount(g));
    assert BucketCount(g + 1) == DynamicArrays.DEFAULT_SIZE * (2 * Pow2(g));
    PairsEmpties(chains, BucketCount(g));
    forall b: int, j: int | 0 <= b < |grown| && 0 <= j < |grown[b]| ensures Probed(b, hash(grown[b][j].key), g + 1) {
      assert b < |chains| && grown[b][j] == chains[b][j];
    }
  }

  /** A cell in any chain is in the mapping under its key. */
  lemma TableInvLookup<K, V>(chains: seq<seq<Cell<K, V>>>, hash: K -> nat, g: nat, size: nat, contents: map<K, V>, b: nat, i: nat)
    requires TableInv(chains, hash, g, size, contents) && b < |chains| && i < |chains[b]|
    ensures chains[b][i].key in contents && contents[chains[b][i].key] == chains[b][i].value
  {
    PairsContain(chains, b, i);
    MapOfLookup(Pairs(chains), chains[b][i]);
  }

  /**
   * Completeness of the probe: when none of the chains the probe for `key`
   * visits holds the key, the mapping does not hold it.
   */
  lemma TableInvMiss<K, V>(chains: seq<seq<Cell<K, V>>>, hash: K -> nat, g: nat, size: nat, contents: map<K, V>, key: K)
    requires TableInv(chains, hash, g, size, contents)
    requires forall q :: 0 <= q <= g ==> hash(key) % BucketCount(q) < |chains| && Missing(chains[hash(key) % BucketCount(q)], key)
    ensures key !in contents
  {
    ProbeMiss(chains, hash, g, key);
    MapOfKeys(Pairs(chains));
  }

  /** Counting one more insert keeps the invariant while the load stays within bounds. */
  lemma TableInvCount<K, V>(chains: seq<seq<Cell<K, V>>>, hash: K -> nat, g: nat, size: nat, contents: map<K, V>)
    requires TableInv(chains, hash, g, size, contents) && size < MAX_LOAD_FACTOR * BucketCount(g)
    ensures TableInv(chains, hash, g, size + 1, contents)
  {
  }

  /** Moving a cell to its home bucket keeps the invariant and the mapping. */
  lemma TableInvRelocate<K, V>(chains: seq<seq<Cell<K, V>>>, hash: K -> nat, g: nat, size: nat, contents: map<K, V>, b: nat, i: nat)
    requires TableInv(chains, hash, g, size, contents) && b < |chains| && i < |chains[b]|
    requires hash(chains[b][i].key) % BucketCount(g) != b
    ensures TableInv(Relocate(chains, b, i, hash(chains[b][i].key) % BucketCount(g)), hash, g, size, contents)
  {
    var e := hash(chains[b][i].key) % BucketCount(g);
    RelocatePairs(chains, b, i, e);
    RelocatePlaced(chains, hash, g, b, i, e);
  }

  /**
   * Appending a cell with a key not yet stored to its home bucket keeps the
   * invariant with `size` one larger and the key added to the mapping.
   */
  lemma TableInvAdd<K, V>(chains: seq<seq<Cell<K, V>>>, hash: K -> nat, g: nat, size: nat, contents: map<K, V>, key: K, value: V, b: nat)
    requires TableInv(chains, hash, g, size, contents) && size < MAX_LOAD_FACTOR * BucketCount(g)
    requires key !in contents && b == hash(key) % BucketCount(g)
    ensures TableInv(chains[b := chains[b] + [Cell(key, value)]], hash, g, size + 1, contents[key := value])
  {
    var c := Cell(key, value);
    var added: seq<seq<Cell<K, V>>> := chains[b := chains[b] + [c]];
    PairsUpdate(chains, b, chains[b] + [c]);
    assert multiset(chains[b] + [c]) == multiset(chains[b]) + multiset{c};
    assert Pairs(added) == Pairs(chains) + multiset{c};
    MapOfAdd(Pairs(chains), c);
    ProbedAt(hash(key), g, g);
    forall x: int, j: int | 0 <= x < |added| && 0 <= j < |added[x]| ensures Probed(x, hash(added[x][j].key), g) {
      if x == b && j == |chains[b]| {
        assert added[x][j] == c;
      } else {
        assert added[x][j] == chains[x][j];
      }
    }
  }

  /**
   * Removing a stored cell keeps the invariant with `size` one smaller and
   * its key removed from the mapping.
   */
  lemma TableInvRemove<K, V>(chains: seq<seq<Cell<K, V>>>, hash: K -> nat, g: nat, size: nat, contents: map<K, V>, b: nat, i: nat)
    requires TableInv(chains, hash, g, size, contents) && b < |chains| && i < |chains[b]|
    ensures size >= 1
    ensures TableInv(chains[b := Sequences.RemoveAt(chains[b], i)], hash, g, size - 1, contents - {chains[b][i].key})
  {
    var c := chains[b][i];
    var removed: seq<seq<Cell<K, V>>> := chains[b := Sequences.RemoveAt(chains[b], i)];
    PairsContain(chains, b, i);
    PairsUpdate(chains, b, Sequences.RemoveAt(chains[b], i));
    MultisetRemoveAt(chains[b], i);
    assert Pairs(removed) == Pairs(chains) - multiset{c};
    MapOfRemove(Pairs(chains), c);
    forall x: int, j: int | 0 <= x < |removed| && 0 <= j < |removed[x]| ensures Probed(x, hash(removed[x][j].key), g) {
      if x == b {
        assert removed[x][j] == if j < i then chains[b][j] else chains[b][j + 1];
      } else {
        assert removed[x][j] == chains[x][j];
      }
    }
  }
}
