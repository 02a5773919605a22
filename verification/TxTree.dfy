// The transaction tree of scripts/fetch_meta_ledgers.py: a 16-way hash trie over (blob, metadata)
// pairs whose root is a ledger header's transaction_hash.
//
// SHA-512Half is a parameter `h`. Nothing is assumed of it: where two trees share a root, either
// they hold the same pairs or a collision is found among the strings the two builds hashed.
module TxTree {
  import opened Bytes
  import LengthPrefix

  datatype Tx = Tx(blob: Bytes, meta: Bytes)

  const TXN: Bytes := [0x54, 0x58, 0x4E, 0x00]
  const SND: Bytes := [0x53, 0x4E, 0x44, 0x00]
  const MIN: Bytes := [0x4D, 0x49, 0x4E, 0x00]

  type Dict = map<Hash, Tx>

  function IdText(tx: Tx): Bytes { TXN + tx.blob }

  function TxId(h: Bytes -> Hash, tx: Tx): Hash { h(IdText(tx)) }

  /** Whether both length prefixes exist; the script raises otherwise. */
  predicate Encodable(tx: Tx) {
    |tx.blob| <= LengthPrefix.MAX_LENGTH && |tx.meta| <= LengthPrefix.MAX_LENGTH
  }

  /** What is hashed into a leaf. */
  function LeafText(id: Hash, tx: Tx): Bytes
    requires Encodable(tx)
  {
    SND + (LengthPrefix.Write(|tx.blob|).value + tx.blob
           + (LengthPrefix.Write(|tx.meta|).value + tx.meta + id))
  }

  function LeafHash(h: Bytes -> Hash, id: Hash, tx: Tx): Hash
    requires Encodable(tx)
  {
    h(LeafText(id, tx))
  }

  /** The dictionary a list leaves behind: a repeated id keeps its last pair. */
  function DictOf(h: Bytes -> Hash, txs: seq<Tx>): Dict {
    if |txs| == 0 then map[]
    else DictOf(h, txs[..|txs| - 1])[TxId(h, txs[|txs| - 1]) := txs[|txs| - 1]]
  }

  predicate AllEncodable(txs: seq<Tx>) { forall tx <- txs :: Encodable(tx) }

  /** Every key of a dictionary is its pair's id, and every pair has a leaf. */
  ghost predicate Sound(h: Bytes -> Hash, d: Dict) {
    forall k <- d :: TxId(h, d[k]) == k && Encodable(d[k])
  }

  lemma {:induction false} DictSound(h: Bytes -> Hash, txs: seq<Tx>)
    requires AllEncodable(txs)
    ensures Sound(h, DictOf(h, txs))
    ensures forall k <- DictOf(h, txs) :: DictOf(h, txs)[k] in txs
    ensures forall tx <- txs :: TxId(h, tx) in DictOf(h, txs)
  {
    if |txs| > 0 { DictSound(h, txs[..|txs| - 1]); }
  }

  // ---- nibbles ----

  function Nibble(k: Hash, depth: nat): (n: int)
    requires depth < 64
    ensures 0 <= n < 16
  {
    if depth % 2 == 0 then k[depth / 2] / 16 % 16 else k[depth / 2] % 16
  }

  ghost predicate SharePrefix(keys: set<Hash>, depth: nat)
    requires depth <= 64
  {
    forall a <- keys, b <- keys, d | 0 <= d < depth :: Nibble(a, d) == Nibble(b, d)
  }

  lemma SameNibblesSameKey(a: Hash, b: Hash)
    requires forall d | 0 <= d < 64 :: Nibble(a, d) == Nibble(b, d)
    ensures a == b
  {
    forall i | 0 <= i < 32 ensures a[i] == b[i] {
      assert Nibble(a, 2 * i) == Nibble(b, 2 * i);
      assert Nibble(a, 2 * i + 1) == Nibble(b, 2 * i + 1);
      assert (2 * i) / 2 == i && (2 * i + 1) / 2 == i;
      var x: int, y: int := a[i], b[i];
      assert x / 16 == y / 16 && x % 16 == y % 16;
      assert x == 16 * (x / 16) + x % 16 && y == 16 * (y / 16) + y % 16;
    }
  }

  /** After 64 nibbles only one key is left: the recursion ends. */
  lemma FullPrefixIsOneKey(keys: set<Hash>)
    requires keys != {} && SharePrefix(keys, 64)
    ensures |keys| == 1
  {
    var k :| k in keys;
    forall x <- keys ensures x == k { SameNibblesSameKey(x, k); }
    assert keys == {k};
  }

  ghost function Branch(keys: set<Hash>, depth: nat, n: int): set<Hash>
    requires depth < 64
  {
    set k | k in keys && Nibble(k, depth) == n
  }

  // ---- the specification of `node`, over sets of keys ----

  ghost predicate Node(keys: set<Hash>, depth: nat) {
    keys != {} && depth <= 64 && SharePrefix(keys, depth)
  }

  ghost predicate IsLeaf(keys: set<Hash>, depth: nat) {
    |keys| == 1 && depth > 0
  }

  ghost function Only(keys: set<Hash>): Hash
    requires |keys| == 1
  {
    var k :| k in keys; k
  }

  lemma InnerHasRoom(keys: set<Hash>, depth: nat)
    requires Node(keys, depth) && !IsLeaf(keys, depth)
    ensures depth < 64
  {
    if depth == 64 { FullPrefixIsOneKey(keys); }
  }

  ghost function NodeHash(leaves: map<Hash, Hash>, h: Bytes -> Hash, keys: set<Hash>, depth: nat): Hash
    requires Node(keys, depth) && keys <= leaves.Keys
    decreases 64 - depth, 1
  {
    if IsLeaf(keys, depth) then leaves[Only(keys)]
    else
      InnerHasRoom(keys, depth);
      h(MIN + Flatten(Children(leaves, h, keys, depth)))
  }

  ghost function ChildHash(leaves: map<Hash, Hash>, h: Bytes -> Hash, keys: set<Hash>, depth: nat, n: int): Hash
    requires Node(keys, depth) && depth < 64 && keys <= leaves.Keys
    decreases 64 - depth, 0
  {
    if Branch(keys, depth, n) == {} then ZERO else NodeHash(leaves, h, Branch(keys, depth, n), depth + 1)
  }

  ghost function Children(leaves: map<Hash, Hash>, h: Bytes -> Hash, keys: set<Hash>, depth: nat): (cs: seq<Hash>)
    requires Node(keys, depth) && depth < 64 && keys <= leaves.Keys
    ensures |cs| == 16
    decreases 64 - depth, 1, 0
  {
    seq(16, n => ChildHash(leaves, h, keys, depth, n))
  }

  function Flatten(cs: seq<Hash>): Bytes {
    if |cs| == 0 then [] else cs[0] + Flatten(cs[1..])
  }

  lemma {:induction false} FlattenInjective(a: seq<Hash>, b: seq<Hash>)
    requires |a| == |b| && Flatten(a) == Flatten(b)
    ensures a == b
  {
    if |a| > 0 {
      assert a[0] == Flatten(a)[..32] == b[0];
      assert Flatten(a[1..]) == Flatten(a)[32..] == Flatten(b[1..]);
      FlattenInjective(a[1..], b[1..]);
      assert a == [a[0]] + a[1..] && b == [b[0]] + b[1..];
    }
  }

  // ---- what a build hashes ----

  function LeafHashes(h: Bytes -> Hash, d: Dict): map<Hash, Hash>
    requires forall k <- d :: Encodable(d[k])
  {
    map k | k in d :: LeafHash(h, k, d[k])
  }

  /** Every string hashed for the subtree of `keys`. */
  ghost function Hashed(h: Bytes -> Hash, d: Dict, keys: set<Hash>, depth: nat): set<Bytes>
    requires Node(keys, depth) && keys <= d.Keys && Sound(h, d)
    decreases 64 - depth, 1
  {
    if IsLeaf(keys, depth) then {LeafText(Only(keys), d[Only(keys)])}
    else
      InnerHasRoom(keys, depth);
      {MIN + Flatten(Children(LeafHashes(h, d), h, keys, depth))}
      + (set n, x | 0 <= n < 16 && x in ChildHashed(h, d, keys, depth, n) :: x)
  }

  ghost function ChildHashed(h: Bytes -> Hash, d: Dict, keys: set<Hash>, depth: nat, n: int): set<Bytes>
    requires Node(keys, depth) && depth < 64 && keys <= d.Keys && Sound(h, d)
    decreases 64 - depth, 0
  {
    if Branch(keys, depth, n) == {} then {} else Hashed(h, d, Branch(keys, depth, n), depth + 1)
  }

  /** SHA-512Half is broken on `s`: two of its strings collide, or one hashes to 32 zero bytes. */
  ghost predicate Broken(h: Bytes -> Hash, s: set<Bytes>) {
    || (exists x <- s, y <- s :: x != y && h(x) == h(y))
    || (exists x <- s :: h(x) == ZERO)
  }

  /** The string whose hash is the node's own hash. */
  ghost function OwnText(h: Bytes -> Hash, d: Dict, keys: set<Hash>, depth: nat): (x: Bytes)
    requires Node(keys, depth) && keys <= d.Keys && Sound(h, d)
    ensures x in Hashed(h, d, keys, depth)
    ensures h(x) == NodeHash(LeafHashes(h, d), h, keys, depth)
  {
    if IsLeaf(keys, depth) then LeafText(Only(keys), d[Only(keys)])
    else
      InnerHasRoom(keys, depth);
      MIN + Flatten(Children(LeafHashes(h, d), h, keys, depth))
  }

  lemma LeafTextInjective(id1: Hash, tx1: Tx, id2: Hash, tx2: Tx)
    requires Encodable(tx1) && Encodable(tx2)
    requires LeafText(id1, tx1) == LeafText(id2, tx2)
    ensures id1 == id2 && tx1 == tx2
  {
    var m1 := LengthPrefix.Write(|tx1.meta|).value + tx1.meta + id1;
    var m2 := LengthPrefix.Write(|tx2.meta|).value + tx2.meta + id2;
    var b1 := LengthPrefix.Write(|tx1.blob|).value + tx1.blob + m1;
    var b2 := LengthPrefix.Write(|tx2.blob|).value + tx2.blob + m2;
    assert b1 == LeafText(id1, tx1)[4..] == b2;
    LengthPrefix.PrefixedInjective(tx1.blob, m1, tx2.blob, m2);
    LengthPrefix.PrefixedInjective(tx1.meta, id1, tx2.meta, id2);
  }

  /** The pairs two subtrees hold, compared. */
  ghost predicate SamePairs(d1: Dict, k1: set<Hash>, d2: Dict, k2: set<Hash>)
    requires k1 <= d1.Keys && k2 <= d2.Keys
  {
    k1 == k2 && forall k <- k1 :: d1[k] == d2[k]
  }

  /** Two subtrees at one depth with one hash hold the same pairs, or their builds break h. */
  lemma {:induction false} NodeBinding(h: Bytes -> Hash, d1: Dict, k1: set<Hash>, d2: Dict, k2: set<Hash>, depth: nat)
    requires Sound(h, d1) && Sound(h, d2)
    requires Node(k1, depth) && Node(k2, depth) && k1 <= d1.Keys && k2 <= d2.Keys
    requires NodeHash(LeafHashes(h, d1), h, k1, depth) == NodeHash(LeafHashes(h, d2), h, k2, depth)
    ensures SamePairs(d1, k1, d2, k2) || Broken(h, Hashed(h, d1, k1, depth) + Hashed(h, d2, k2, depth))
    decreases 64 - depth
  {
    var all := Hashed(h, d1, k1, depth) + Hashed(h, d2, k2, depth);
    var x1, x2 := OwnText(h, d1, k1, depth), OwnText(h, d2, k2, depth);
    assert x1 in all && x2 in all && h(x1) == h(x2);
    if x1 == x2 {
      TextsTell(h, d1, k1, d2, k2, depth);
      hide Hashed, NodeHash, OwnText, Sound, Node, Branch, LeafHashes, Children, ChildHash;
      if IsLeaf(k1, depth) {
        OnlyMember(k1);
        OnlyMember(k2);
      } else {
        forall n | 0 <= n < 16
          ensures Broken(h, all) || Branch(k1, depth, n) == Branch(k2, depth, n)
          ensures Broken(h, all) || forall k <- Branch(k1, depth, n) :: k in d2 && d1[k] == d2[k]
        {
          ChildBinding(h, d1, k1, d2, k2, depth, n);
        }
        if !Broken(h, all) { BranchesCover(d1, k1, d2, k2, depth); }
      }
    }
  }

  /** Two nodes of one own text are two leaves of one pair, or two inner nodes of equal children. */
  lemma TextsTell(h: Bytes -> Hash, d1: Dict, k1: set<Hash>, d2: Dict, k2: set<Hash>, depth: nat)
    requires Sound(h, d1) && Sound(h, d2)
    requires Node(k1, depth) && Node(k2, depth) && k1 <= d1.Keys && k2 <= d2.Keys
    requires OwnText(h, d1, k1, depth) == OwnText(h, d2, k2, depth)
    ensures IsLeaf(k1, depth) <==> IsLeaf(k2, depth)
    ensures IsLeaf(k1, depth) ==> Only(k1) == Only(k2) && d1[Only(k1)] == d2[Only(k2)]
    ensures !IsLeaf(k1, depth) ==> depth < 64 && forall n | 0 <= n < 16 ::
              ChildHash(LeafHashes(h, d1), h, k1, depth, n) == ChildHash(LeafHashes(h, d2), h, k2, depth, n)
  {
    if IsLeaf(k1, depth) && IsLeaf(k2, depth) {
      LeafTextInjective(Only(k1), d1[Only(k1)], Only(k2), d2[Only(k2)]);
    } else if !IsLeaf(k1, depth) && !IsLeaf(k2, depth) {
      InnerHasRoom(k1, depth);
      var c1, c2 := Children(LeafHashes(h, d1), h, k1, depth), Children(LeafHashes(h, d2), h, k2, depth);
      assert Flatten(c1) == OwnText(h, d1, k1, depth)[4..] == OwnText(h, d2, k2, depth)[4..] == Flatten(c2);
      hide OwnText, Flatten, Sound, Branch, Node;
      FlattenInjective(c1, c2);
      forall n | 0 <= n < 16
        ensures ChildHash(LeafHashes(h, d1), h, k1, depth, n) == ChildHash(LeafHashes(h, d2), h, k2, depth, n)
      {
        assert c1[n] == c2[n];
      }
    }
  }

  lemma {:induction false} ChildBinding(h: Bytes -> Hash, d1: Dict, k1: set<Hash>, d2: Dict, k2: set<Hash>, depth: nat, n: int)
    requires Sound(h, d1) && Sound(h, d2) && depth < 64 && 0 <= n < 16
    requires Node(k1, depth) && Node(k2, depth) && k1 <= d1.Keys && k2 <= d2.Keys
    requires !IsLeaf(k1, depth) && !IsLeaf(k2, depth)
    requires ChildHash(LeafHashes(h, d1), h, k1, depth, n) == ChildHash(LeafHashes(h, d2), h, k2, depth, n)
    ensures SamePairs(d1, Branch(k1, depth, n), d2, Branch(k2, depth, n))
            || Broken(h, Hashed(h, d1, k1, depth) + Hashed(h, d2, k2, depth))
    decreases 64 - depth, 0
  {
    var all := Hashed(h, d1, k1, depth) + Hashed(h, d2, k2, depth);
    var b1, b2 := Branch(k1, depth, n), Branch(k2, depth, n);
    ChildIn(h, d1, k1, depth, n);
    ChildIn(h, d2, k2, depth, n);
    hide Hashed, NodeHash, Branch, Node, IsLeaf, Sound, LeafHashes;
    if b1 != {} && b2 != {} {
      NodeBinding(h, d1, b1, d2, b2, depth + 1);
    } else if b1 != {} {
      LoneChild(h, d1, b1, depth + 1, all);
    } else if b2 != {} {
      LoneChild(h, d2, b2, depth + 1, all);
    }
  }

  /** A child's strings are among its parent's. */
  lemma ChildIn(h: Bytes -> Hash, d: Dict, keys: set<Hash>, depth: nat, n: int)
    requires Sound(h, d) && depth < 64 && 0 <= n < 16 && Node(keys, depth) && keys <= d.Keys && !IsLeaf(keys, depth)
    ensures ChildHashed(h, d, keys, depth, n) <= Hashed(h, d, keys, depth)
    ensures Branch(keys, depth, n) != {} ==> Node(Branch(keys, depth, n), depth + 1) && Branch(keys, depth, n) <= d.Keys
  {
  }

  /** A subtree whose hash is 32 zero bytes breaks h. */
  lemma LoneChild(h: Bytes -> Hash, d: Dict, keys: set<Hash>, depth: nat, all: set<Bytes>)
    requires Sound(h, d) && Node(keys, depth) && keys <= d.Keys && Hashed(h, d, keys, depth) <= all
    requires NodeHash(LeafHashes(h, d), h, keys, depth) == ZERO
    ensures Broken(h, all)
  {
    var x := OwnText(h, d, keys, depth);
    assert x in all && h(x) == ZERO;
  }

  lemma OnlyMember(keys: set<Hash>)
    requires |keys| == 1
    ensures keys == {Only(keys)}
  {
    var k := Only(keys);
    assert |keys - {k}| == 0;
  }

  lemma BranchesCover(d1: Dict, k1: set<Hash>, d2: Dict, k2: set<Hash>, depth: nat)
    requires depth < 64 && k1 <= d1.Keys && k2 <= d2.Keys
    requires forall n | 0 <= n < 16 :: Branch(k1, depth, n) == Branch(k2, depth, n)
    requires forall n | 0 <= n < 16 :: forall k <- Branch(k1, depth, n) :: k in d2 && d1[k] == d2[k]
    ensures SamePairs(d1, k1, d2, k2)
  {
    forall k <- k1 ensures k in k2 && d1[k] == d2[k] {
      assert k in Branch(k1, depth, Nibble(k, depth));
    }
    forall k <- k2 ensures k in k1 {
      assert k in Branch(k2, depth, Nibble(k, depth));
    }
  }

  // ---- whole trees ----

  ghost function Root(h: Bytes -> Hash, d: Dict): Hash
    requires Sound(h, d)
  {
    if d == map[] then ZERO else NodeHash(LeafHashes(h, d), h, d.Keys, 0)
  }

  ghost function AllHashed(h: Bytes -> Hash, d: Dict): set<Bytes>
    requires Sound(h, d)
  {
    if d == map[] then {} else Hashed(h, d, d.Keys, 0)
  }

  /** A root binds the dictionary under it. */
  lemma RootBinding(h: Bytes -> Hash, d1: Dict, d2: Dict)
    requires Sound(h, d1) && Sound(h, d2)
    requires Root(h, d1) == Root(h, d2)
    ensures d1 == d2 || Broken(h, AllHashed(h, d1) + AllHashed(h, d2))
  {
    var all := AllHashed(h, d1) + AllHashed(h, d2);
    if d1 != map[] { assert d1.Keys != {}; }
    if d2 != map[] { assert d2.Keys != {}; }
    if d1 != map[] && d2 != map[] {
      NodeBinding(h, d1, d1.Keys, d2, d2.Keys, 0);
    } else if d1 != map[] {
      assert OwnText(h, d1, d1.Keys, 0) in all;
    } else if d2 != map[] {
      assert OwnText(h, d2, d2.Keys, 0) in all;
    }
  }

  predicate DistinctIds(h: Bytes -> Hash, txs: seq<Tx>) {
    forall i, j | 0 <= i < j < |txs| :: TxId(h, txs[i]) != TxId(h, txs[j])
  }

  ghost predicate Holds(h: Bytes -> Hash, d: Dict, tx: Tx) {
    TxId(h, tx) in d && d[TxId(h, tx)] == tx
  }

  /** With distinct ids the dictionary holds each pair of the list, each occurring once. */
  lemma {:induction false} DistinctDict(h: Bytes -> Hash, txs: seq<Tx>, tx: Tx)
    requires DistinctIds(h, txs)
    ensures multiset(txs)[tx] == if Holds(h, DictOf(h, txs), tx) then 1 else 0
  {
    if |txs| > 0 {
      var front, last := txs[..|txs| - 1], txs[|txs| - 1];
      assert txs == front + [last];
      DistinctDict(h, front, tx);
      assert forall i | 0 <= i < |front| :: TxId(h, front[i]) != TxId(h, last);
      KeysFromList(h, front);
    }
  }

  lemma {:induction false} KeysFromList(h: Bytes -> Hash, txs: seq<Tx>)
    ensures forall k <- DictOf(h, txs) :: exists i :: 0 <= i < |txs| && TxId(h, txs[i]) == k
  {
    if |txs| > 0 {
      var front := txs[..|txs| - 1];
      KeysFromList(h, front);
      forall k <- DictOf(h, txs)
        ensures exists i :: 0 <= i < |txs| && TxId(h, txs[i]) == k
      {
        if k != TxId(h, txs[|txs| - 1]) {
          assert k in DictOf(h, front);
          var i :| 0 <= i < |front| && TxId(h, front[i]) == k;
          assert TxId(h, txs[i]) == k;
        }
      }
    }
  }

  /** The header's transaction_hash binds the transaction set: two lists of distinct ids with one
      root are permutations of each other, or their builds break h. */
  lemma RootBindsLists(h: Bytes -> Hash, a: seq<Tx>, b: seq<Tx>)
    requires AllEncodable(a) && AllEncodable(b) && DistinctIds(h, a) && DistinctIds(h, b)
    requires Sound(h, DictOf(h, a)) && Sound(h, DictOf(h, b))
    requires Root(h, DictOf(h, a)) == Root(h, DictOf(h, b))
    ensures multiset(a) == multiset(b) || Broken(h, AllHashed(h, DictOf(h, a)) + AllHashed(h, DictOf(h, b)))
  {
    RootBinding(h, DictOf(h, a), DictOf(h, b));
    if DictOf(h, a) == DictOf(h, b) {
      forall tx: Tx ensures multiset(a)[tx] == multiset(b)[tx] {
        DistinctDict(h, a, tx);
        DistinctDict(h, b, tx);
      }
    }
  }

  // ---- repeated ids ----

  lemma {:induction false} DictJoin(h: Bytes -> Hash, a: seq<Tx>, b: seq<Tx>)
    ensures DictOf(h, a + b) == DictOf(h, a) + DictOf(h, b)
  {
    if |b| == 0 {
      assert a + b == a;
    } else {
      DictJoin(h, a, b[..|b| - 1]);
      assert (a + b)[..|a + b| - 1] == a + b[..|b| - 1];
    }
  }

  lemma {:induction false} IdInDict(h: Bytes -> Hash, txs: seq<Tx>, tx: Tx)
    requires tx in txs
    ensures TxId(h, tx) in DictOf(h, txs)
  {
    var front, last := txs[..|txs| - 1], txs[|txs| - 1];
    assert txs == front + [last];
    if tx != last { IdInDict(h, front, tx); }
  }

  /** A pair whose id comes again later leaves no trace. */
  lemma OverwrittenLeavesNoTrace(h: Bytes -> Hash, front: seq<Tx>, x: Tx, back: seq<Tx>)
    requires exists y <- back :: TxId(h, y) == TxId(h, x)
    ensures DictOf(h, front + [x] + back) == DictOf(h, front + back)
  {
    var y :| y in back && TxId(h, y) == TxId(h, x);
    IdInDict(h, back, y);
    assert (front + [x])[..|front|] == front;
    DictJoin(h, front + [x], back);
    DictJoin(h, front, back);
  }

  lemma SameBlobSameId(h: Bytes -> Hash, x: Tx, y: Tx)
    requires x.blob == y.blob
    ensures TxId(h, x) == TxId(h, y)
  {
  }

  /** The least instance: two pairs of one blob, of which only the later is there. */
  lemma RepeatedIdEscapes(h: Bytes -> Hash)
    ensures var honest := [Tx([1], [2])];
            var padded := [Tx([1], [3]), Tx([1], [2])];
            DictOf(h, honest) == DictOf(h, padded) && Tx([1], [3]) !in honest
  {
    hide *;
    var y, x := Tx([1], [2]), Tx([1], [3]);
    SameBlobSameId(h, y, x);
    assert y in [y];
    OverwrittenLeavesNoTrace(h, [], x, [y]);
    assert [] + [x] + [y] == [x, y] && [] + [y] == [y];
  }

  /** A list with a repeated id has the dictionary of a shorter list. */
  lemma RepeatedHasShorter(h: Bytes -> Hash, a: seq<Tx>) returns (b: seq<Tx>)
    requires !DistinctIds(h, a)
    ensures |b| < |a| && DictOf(h, b) == DictOf(h, a) && forall tx <- b :: tx in a
  {
    var i, j :| 0 <= i < j < |a| && TxId(h, a[i]) == TxId(h, a[j]);
    hide *;
    var front, back := a[..i], a[i + 1..];
    assert back[j - i - 1] == a[j];
    assert a[j] in back;
    Around(a, i);
    OverwrittenLeavesNoTrace(h, front, a[i], back);
    b := front + back;
  }

  lemma Around(a: seq<Tx>, i: nat)
    requires i < |a|
    ensures a[..i] + [a[i]] + a[i + 1..] == a
    ensures forall tx <- a[..i] + a[i + 1..] :: tx in a
  {
  }

  lemma {:induction false} DictSize(h: Bytes -> Hash, txs: seq<Tx>)
    ensures |DictOf(h, txs)| <= |txs|
    ensures DistinctIds(h, txs) ==> |DictOf(h, txs)| == |txs|
  {
    if |txs| > 0 {
      var front, last := txs[..|txs| - 1], txs[|txs| - 1];
      DictSize(h, front);
      if DistinctIds(h, txs) {
        KeysFromList(h, front);
        assert forall i | 0 <= i < |front| :: TxId(h, front[i]) != TxId(h, last);
      }
      assert DictOf(h, txs).Keys == DictOf(h, front).Keys + {TxId(h, last)};
    }
  }

  ghost function ListRoot(h: Bytes -> Hash, txs: seq<Tx>): Hash
    requires AllEncodable(txs)
  {
    DictSound(h, txs);
    Root(h, DictOf(h, txs))
  }

  /** The two builds are of different dictionaries and break h. */
  ghost predicate BrokenBetween(h: Bytes -> Hash, a: seq<Tx>, b: seq<Tx>)
    requires AllEncodable(a) && AllEncodable(b)
  {
    DictSound(h, a);
    DictSound(h, b);
    DictOf(h, a) != DictOf(h, b) && Broken(h, AllHashed(h, DictOf(h, a)) + AllHashed(h, DictOf(h, b)))
  }

  /** Every list no longer than this one with its root has its pairs, or breaks h against it. */
  ghost predicate BoundByRoot(h: Bytes -> Hash, a: seq<Tx>)
    requires AllEncodable(a)
  {
    forall b | AllEncodable(b) && |b| <= |a| && ListRoot(h, b) == ListRoot(h, a) ::
      multiset(a) == multiset(b) || BrokenBetween(h, a, b)
  }

  /** Of the lists with one dictionary those with distinct ids are the shortest, and they are
      permutations of each other. */
  lemma ShortestAreDistinct(h: Bytes -> Hash, a: seq<Tx>, b: seq<Tx>)
    requires DistinctIds(h, a) && DictOf(h, a) == DictOf(h, b) && |b| <= |a|
    ensures multiset(a) == multiset(b)
  {
    DictSize(h, a);
    if !DistinctIds(h, b) {
      var c := RepeatedHasShorter(h, b);
      DictSize(h, c);
    }
    forall tx: Tx ensures multiset(a)[tx] == multiset(b)[tx] {
      DistinctDict(h, a, tx);
      DistinctDict(h, b, tx);
    }
  }

  /** A list is bound by its root, up to a break of h, if and only if its ids are distinct. */
  lemma BoundExactly(h: Bytes -> Hash, a: seq<Tx>)
    requires AllEncodable(a)
    ensures BoundByRoot(h, a) <==> DistinctIds(h, a)
  {
    DictSound(h, a);
    if DistinctIds(h, a) {
      forall b | AllEncodable(b) && |b| <= |a| && ListRoot(h, b) == ListRoot(h, a)
        ensures multiset(a) == multiset(b) || BrokenBetween(h, a, b)
      {
        DictSound(h, b);
        RootBinding(h, DictOf(h, a), DictOf(h, b));
        if DictOf(h, a) == DictOf(h, b) { ShortestAreDistinct(h, a, b); }
      }
    } else {
      var b := RepeatedHasShorter(h, a);
      assert ListRoot(h, b) == ListRoot(h, a);
      assert |multiset(b)| == |b| && |multiset(a)| == |a|;
      assert !BrokenBetween(h, a, b);
    }
  }

  // ---- the build itself ----

  ghost function KeySet(keys: seq<Hash>): set<Hash> { set k | k in keys }

  lemma {:induction false} DistinctCount(keys: seq<Hash>)
    requires Distinct(keys)
    ensures |KeySet(keys)| == |keys|
  {
    if |keys| > 0 {
      DistinctCount(keys[1..]);
      KeySetHead(keys);
    }
  }

  predicate Ascending(keys: seq<Hash>) {
    forall i, j | 0 <= i < j < |keys| :: Less(keys[i], keys[j])
  }

  lemma AscendingIsDistinct(keys: seq<Hash>)
    requires Ascending(keys)
    ensures Distinct(keys)
  {
    forall i, j | 0 <= i < j < |keys| ensures keys[i] != keys[j] { LessIrreflexive(keys[i]); }
  }

  lemma AscendingFrom(k: Hash, keys: seq<Hash>)
    requires Ascending(keys) && (|keys| > 0 ==> Less(k, keys[0]))
    ensures Ascending([k] + keys) && KeySet([k] + keys) == KeySet(keys) + {k}
  {
    hide Less;
    forall i | 1 <= i < |keys| ensures Less(k, keys[i]) { LessTransitive(k, keys[0], keys[i]); }
    KeySetHead([k] + keys);
    assert ([k] + keys)[1..] == keys;
  }

  function Insert(k: Hash, keys: seq<Hash>): (r: seq<Hash>)
    requires Ascending(keys) && k !in keys
    ensures Ascending(r) && KeySet(r) == KeySet(keys) + {k}
    ensures |r| > 0 && (r[0] == k || (|keys| > 0 && r[0] == keys[0]))
  {
    if |keys| == 0 || Less(k, keys[0]) then
      AscendingFrom(k, keys);
      [k] + keys
    else
      var rest := Insert(k, keys[1..]);
      LessTotal(k, keys[0]);
      KeySetHead(keys);
      AscendingFrom(keys[0], rest);
      [keys[0]] + rest
  }

  /** `sorted(leaves)`. */
  method SortedKeys(leaves: map<Hash, Hash>) returns (keys: seq<Hash>)
    ensures Ascending(keys) && KeySet(keys) == leaves.Keys
  {
    keys := [];
    var rest := leaves.Keys;
    while rest != {}
      invariant Ascending(keys) && rest <= leaves.Keys && KeySet(keys) == leaves.Keys - rest
      decreases rest
    {
      var k :| k in rest;
      assert k !in KeySet(keys);
      keys := Insert(k, keys);
      rest := rest - {k};
    }
  }

  function Filter(keys: seq<Hash>, depth: nat, n: int): (r: seq<Hash>)
    requires depth < 64
    ensures KeySet(r) == Branch(KeySet(keys), depth, n)
    ensures Ascending(keys) ==> Ascending(r)
  {
    if |keys| == 0 then []
    else
      var rest := Filter(keys[1..], depth, n);
      assert forall x <- rest :: x in KeySet(rest) by { assert KeySet(rest) == set k | k in rest; }
      assert forall x <- rest :: x in KeySet(keys[1..]);
      KeySetHead(keys);
      if Nibble(keys[0], depth) == n then
        KeySetHead([keys[0]] + rest);
        assert Ascending(keys) ==> forall x <- rest :: Less(keys[0], x);
        [keys[0]] + rest
      else rest
  }

  lemma KeySetHead(keys: seq<Hash>)
    requires |keys| > 0
    ensures KeySet(keys) == {keys[0]} + KeySet(keys[1..])
  {
    assert keys == [keys[0]] + keys[1..];
  }

  /** `node`: the trie over sorted keys computes the specified hash and ends within 64 levels. */
  method BuildNode(h: Bytes -> Hash, leaves: map<Hash, Hash>, keys: seq<Hash>, depth: nat) returns (r: Hash)
    requires Ascending(keys) && Node(KeySet(keys), depth) && KeySet(keys) <= leaves.Keys
    ensures r == NodeHash(leaves, h, KeySet(keys), depth)
    decreases 64 - depth, 1
  {
    hide SharePrefix, Branch, Ascending, ChildHash;
    AscendingIsDistinct(keys);
    DistinctCount(keys);
    if |keys| == 1 && depth > 0 {
      OnlyMember(KeySet(keys));
      assert keys[0] in KeySet(keys);
      return leaves[keys[0]];
    }
    InnerHasRoom(KeySet(keys), depth);
    ghost var spec := Children(leaves, h, KeySet(keys), depth);
    var children: seq<Hash> := [];
    for nibble := 0 to 16
      invariant |children| == nibble
      invariant forall n | 0 <= n < nibble :: children[n] == ChildHash(leaves, h, KeySet(keys), depth, n)
    {
      var child := BuildChild(h, leaves, keys, depth, nibble);
      children := children + [child];
    }
    assert children == spec;
    r := h(MIN + Flatten(children));
  }

  /** One of a node's sixteen children. */
  method BuildChild(h: Bytes -> Hash, leaves: map<Hash, Hash>, keys: seq<Hash>, depth: nat, nibble: nat) returns (r: Hash)
    requires Ascending(keys) && Node(KeySet(keys), depth) && KeySet(keys) <= leaves.Keys && depth < 64
    ensures r == ChildHash(leaves, h, KeySet(keys), depth, nibble)
    decreases 64 - depth, 0
  {
    var branch := Filter(keys, depth, nibble);
    if |branch| == 0 {
      assert KeySet(branch) == {};
      return ZERO;
    }
    assert branch[0] in KeySet(branch);
    r := BuildNode(h, leaves, branch, depth + 1);
  }

  lemma DictStep(h: Bytes -> Hash, txs: seq<Tx>, i: nat)
    requires i < |txs| && AllEncodable(txs[..i]) && Encodable(txs[i])
    requires Sound(h, DictOf(h, txs[..i]))
    ensures AllEncodable(txs[..i + 1])
    ensures DictOf(h, txs[..i + 1]) == DictOf(h, txs[..i])[TxId(h, txs[i]) := txs[i]]
    ensures Sound(h, DictOf(h, txs[..i + 1]))
    ensures LeafHashes(h, DictOf(h, txs[..i + 1]))
            == LeafHashes(h, DictOf(h, txs[..i]))[TxId(h, txs[i]) := LeafHash(h, TxId(h, txs[i]), txs[i])]
  {
    assert txs[..i + 1][..i] == txs[..i];
    assert txs[..i + 1] == txs[..i] + [txs[i]];
  }

  /** The loop over the pairs: the leaf hashes of the dictionary, None if a pair has no leaf. */
  method FillLeaves(h: Bytes -> Hash, txs: seq<Tx>) returns (r: Option<map<Hash, Hash>>)
    ensures r.Some? <==> AllEncodable(txs)
    ensures r.Some? ==> Sound(h, DictOf(h, txs)) && r.value == LeafHashes(h, DictOf(h, txs))
  {
    var leaves: map<Hash, Hash> := map[];
    for i := 0 to |txs|
      invariant AllEncodable(txs[..i]) && Sound(h, DictOf(h, txs[..i]))
      invariant leaves == LeafHashes(h, DictOf(h, txs[..i]))
    {
      if !Encodable(txs[i]) { return None; }
      var id := TxId(h, txs[i]);
      leaves := leaves[id := LeafHash(h, id, txs[i])];
      DictStep(h, txs, i);
    }
    assert txs[..|txs|] == txs;
    r := Some(leaves);
  }

  /** `tx_tree`: (root, sorted ids), or None where a length prefix does not exist. */
  method Build(h: Bytes -> Hash, txs: seq<Tx>) returns (r: Option<(Hash, seq<Hash>)>)
    ensures r.Some? <==> AllEncodable(txs)
    ensures r.Some? ==> Sound(h, DictOf(h, txs)) && r.value.0 == Root(h, DictOf(h, txs))
    ensures r.Some? ==> Ascending(r.value.1) && KeySet(r.value.1) == DictOf(h, txs).Keys
  {
    var filled := FillLeaves(h, txs);
    if filled.None? { return None; }
    var keys := SortedKeys(filled.value);
    var root := ZERO;
    if |keys| > 0 {
      assert keys[0] in KeySet(keys);
      assert KeySet(keys) == DictOf(h, txs).Keys;
      assert keys[0] in DictOf(h, txs);
      root := BuildNode(h, filled.value, keys, 0);
    } else {
      assert DictOf(h, txs).Keys == KeySet(keys) == {};
      assert DictOf(h, txs) == map[];
    }
    r := Some((root, keys));
  }

  // ---- accepting a fetched ledger ----

  /** What `verify` reads of the JSON answer. */
  datatype JsonAnswer = JsonAnswer(
    validated: bool, ledgerHash: string, header: string, hashes: seq<string>, allHaveMeta: bool)

  /** What it reads of the binary answer; `pairs` is None when a transaction lacks its hex. */
  datatype BinaryAnswer = BinaryAnswer(validated: bool, ledgerHash: string, pairs: Option<seq<Tx>>)

  datatype Refusal =
    | NotValidated | DifferentLedgers | JsonWithoutMetadata | BinaryWithoutPair | TooLong | RootMismatch | DifferentLists

  /** What acceptance means. */
  ghost predicate Accepted(h: Bytes -> Hash, j: JsonAnswer, b: BinaryAnswer) {
    && j.validated && b.validated && Upper(j.ledgerHash) == Upper(b.ledgerHash) && j.allHaveMeta
    && b.pairs.Some? && AllEncodable(b.pairs.value)
    && var d := DictOf(h, b.pairs.value);
       && Sound(h, d)
       && HexUpper(Root(h, d)) == Upper(j.header)
       && multiset(Uppers(j.hashes)) == multiset(set k | k in d.Keys :: HexUpper(k))
  }

  function Uppers(hashes: seq<string>): seq<string> {
    seq(|hashes|, i requires 0 <= i < |hashes| => Upper(hashes[i]))
  }

  function Hexes(ids: seq<Hash>): (r: seq<string>)
    ensures |r| == |ids|
  {
    if |ids| == 0 then [] else [HexUpper(ids[0])] + Hexes(ids[1..])
  }

  ghost function HexSet(keys: set<Hash>): set<string> { set k | k in keys :: HexUpper(k) }

  lemma {:induction false} HexesOnce(ids: seq<Hash>)
    requires Distinct(ids)
    ensures multiset(Hexes(ids)) == multiset(HexSet(KeySet(ids)))
  {
    if |ids| > 0 {
      HexesOnce(ids[1..]);
      KeySetHead(ids);
      forall k <- ids[1..] ensures HexUpper(k) != HexUpper(ids[0]) {
        if HexUpper(k) == HexUpper(ids[0]) { HexInjective(k, ids[0]); }
      }
      assert HexUpper(ids[0]) !in HexSet(KeySet(ids[1..]));
      assert HexSet(KeySet(ids)) == {HexUpper(ids[0])} + HexSet(KeySet(ids[1..]));
    } else {
      assert HexSet(KeySet(ids)) == {};
    }
  }

  /** `verify`: None accepts. Comparing two sorted lists is comparing them as multisets. */
  method Verify(h: Bytes -> Hash, j: JsonAnswer, b: BinaryAnswer) returns (r: Option<Refusal>)
    ensures r.None? <==> Accepted(h, j, b)
  {
    if !(j.validated && b.validated) { return Some(NotValidated); }
    if Upper(j.ledgerHash) != Upper(b.ledgerHash) { return Some(DifferentLedgers); }
    if !j.allHaveMeta { return Some(JsonWithoutMetadata); }
    if b.pairs.None? { return Some(BinaryWithoutPair); }
    var built := Build(h, b.pairs.value);
    if built.None? { return Some(TooLong); }
    var (root, ids) := built.value;
    if HexUpper(root) != Upper(j.header) { return Some(RootMismatch); }
    AscendingIsDistinct(ids);
    HexesOnce(ids);
    assert HexSet(KeySet(ids)) == set k | k in DictOf(h, b.pairs.value).Keys :: HexUpper(k);
    if multiset(Uppers(j.hashes)) != multiset(Hexes(ids)) { return Some(DifferentLists); }
    r := None;
  }

  /** Two binary answers accepted under one header leave the same dictionary of pairs, or their
      builds break h: what is kept does not depend on which server answered. */
  lemma AcceptedUnderOneHeader(h: Bytes -> Hash, j1: JsonAnswer, b1: BinaryAnswer, j2: JsonAnswer, b2: BinaryAnswer)
    requires Accepted(h, j1, b1) && Accepted(h, j2, b2) && Upper(j1.header) == Upper(j2.header)
    ensures var d1, d2 := DictOf(h, b1.pairs.value), DictOf(h, b2.pairs.value);
            d1 == d2 || Broken(h, AllHashed(h, d1) + AllHashed(h, d2))
  {
    var d1, d2 := DictOf(h, b1.pairs.value), DictOf(h, b2.pairs.value);
    HexInjective(Root(h, d1), Root(h, d2));
    RootBinding(h, d1, d2);
  }

  /** An answer padded with an overwritten pair is accepted exactly if the answer is. */
  lemma OverwrittenIsAccepted(h: Bytes -> Hash, j: JsonAnswer, b: BinaryAnswer, front: seq<Tx>, x: Tx, back: seq<Tx>)
    requires b.pairs == Some(front + back) && Encodable(x) && exists y <- back :: TxId(h, y) == TxId(h, x)
    ensures Accepted(h, j, b) <==> Accepted(h, j, b.(pairs := Some(front + [x] + back)))
  {
    OverwrittenLeavesNoTrace(h, front, x, back);
    assert AllEncodable(front + [x] + back) <==> AllEncodable(front + back) by {
      assert forall tx :: tx in front + [x] + back <==> tx in front + back || tx == x;
    }
    hide DictOf, Root, Sound, Uppers;
  }
}
