// What the transaction tree is: the trie over its ids' hex text, the text each leaf hashes, and the
// answers `verify` of scripts/fetch_meta_ledgers.py accepts.
module TxTreeShape {
  import opened Bytes
  import LengthPrefix
  import opened TxTree

  // ---- the trie follows the ids' hex text ----

  /** The child a key goes to at each depth is the next digit of its hex text. */
  lemma NibbleIsHexDigit(k: Hash, depth: nat)
    requires depth < 64
    ensures HexUpper(k)[depth] == HexDigit(Nibble(k, depth))
  {
    HexUpperAt(k, depth / 2);
  }

  lemma DigitsApart(a: int, b: int)
    requires 0 <= a < 16 && 0 <= b < 16 && HexDigit(a) == HexDigit(b)
    ensures a == b
  {
    HexDigitValue(a);
    HexDigitValue(b);
  }

  /** The keys of a node that have one hex digit next. */
  ghost function WithDigit(keys: set<Hash>, depth: nat, n: int): set<Hash>
    requires depth < 64 && 0 <= n < 16
  {
    set k | k in keys && HexUpper(k)[depth] == HexDigit(n)
  }

  lemma BranchByDigit(keys: set<Hash>, depth: nat, n: int)
    requires depth < 64 && 0 <= n < 16
    ensures Branch(keys, depth, n) == WithDigit(keys, depth, n)
  {
    forall k ensures k in Branch(keys, depth, n) <==> k in WithDigit(keys, depth, n) {
      if k in keys {
        NibbleIsHexDigit(k, depth);
        if HexDigit(Nibble(k, depth)) == HexDigit(n) { DigitsApart(Nibble(k, depth), n); }
      }
    }
  }

  lemma {:induction false} FlattenSlices(cs: seq<Hash>, n: nat)
    requires n < |cs|
    ensures |Flatten(cs)| == 32 * |cs| && Flatten(cs)[32 * n..32 * n + 32] == cs[n]
    decreases |cs|
  {
    var first: Bytes, rest: Bytes := cs[0], Flatten(cs[1..]);
    FlattenSize(cs[1..]);
    assert Flatten(cs) == first + rest;
    if n > 0 {
      FlattenSlices(cs[1..], n - 1);
      assert (first + rest)[32 * n..32 * n + 32] == rest[32 * (n - 1)..32 * (n - 1) + 32];
    }
  }

  lemma {:induction false} FlattenSize(cs: seq<Hash>)
    ensures |Flatten(cs)| == 32 * |cs|
  {
    if |cs| > 0 { FlattenSize(cs[1..]); }
  }

  /** What stands at place n of an inner node: 32 zero bytes where no key has that digit next, its leaf
      where one has, and where more have, their node one digit further on. */
  ghost predicate IsChild(h: Bytes -> Hash, d: Dict, keys: set<Hash>, depth: nat, n: int, child: Hash)
    requires keys <= d.Keys && Sound(h, d) && depth < 64 && 0 <= n < 16
  {
    var group := WithDigit(keys, depth, n);
    && (group == {} ==> child == ZERO)
    && (forall k | group == {k} :: child == LeafHash(h, k, d[k]))
    && (|group| > 1 ==> Node(group, depth + 1) && child == NodeHash(LeafHashes(h, d), h, group, depth + 1))
  }

  /** The sixteen children of an inner node and what is hashed of them. */
  ghost predicate IsInner(h: Bytes -> Hash, d: Dict, keys: set<Hash>, depth: nat, text: Bytes)
    requires keys <= d.Keys && Sound(h, d) && depth < 64
  {
    && |text| == 4 + 16 * 32 && text[..4] == MIN
    && forall n | 0 <= n < 16 :: IsChild(h, d, keys, depth, n, text[4 + 32 * n..4 + 32 * n + 32])
  }

  lemma ChildIsChild(h: Bytes -> Hash, d: Dict, keys: set<Hash>, depth: nat, n: int)
    requires Sound(h, d) && Node(keys, depth) && keys <= d.Keys && depth < 64 && 0 <= n < 16
    ensures IsChild(h, d, keys, depth, n, ChildHash(LeafHashes(h, d), h, keys, depth, n))
  {
    BranchByDigit(keys, depth, n);
    var group := WithDigit(keys, depth, n);
    if |group| == 1 { OnlyMember(group); }
    hide WithDigit, LeafHash, HexUpper, SharePrefix;
  }

  /** An inner node is the hash of its sixteen children's text. */
  lemma InnerShape(h: Bytes -> Hash, d: Dict, keys: set<Hash>, depth: nat) returns (text: Bytes)
    requires Sound(h, d) && Node(keys, depth) && keys <= d.Keys && depth < 64 && !IsLeaf(keys, depth)
    ensures IsInner(h, d, keys, depth, text) && NodeHash(LeafHashes(h, d), h, keys, depth) == h(text)
  {
    var cs := Children(LeafHashes(h, d), h, keys, depth);
    text := MIN + Flatten(cs);
    assert NodeHash(LeafHashes(h, d), h, keys, depth) == h(text);
    FlattenSize(cs);
    forall n | 0 <= n < 16 ensures IsChild(h, d, keys, depth, n, text[4 + 32 * n..4 + 32 * n + 32]) {
      FlattenSlices(cs, n);
      ChildIsChild(h, d, keys, depth, n);
      assert text[4 + 32 * n..4 + 32 * n + 32] == Flatten(cs)[32 * n..32 * n + 32];
    }
    hide IsChild, Flatten, NodeHash, Children;
  }

  /** The root of any list with a pair in it, one pair included, is the hash of sixteen children, each
      for the ids that begin with its digit; of none, 32 zero bytes. */
  lemma RootShape(h: Bytes -> Hash, d: Dict) returns (text: Bytes)
    requires Sound(h, d)
    ensures d == map[] ==> Root(h, d) == ZERO
    ensures d != map[] ==> IsInner(h, d, d.Keys, 0, text) && Root(h, d) == h(text)
  {
    text := [];
    if d != map[] {
      assert d.Keys != {};
      text := InnerShape(h, d, d.Keys, 0);
    }
  }

  // ---- what is hashed ----

  /** The prefixes are three letters and a zero. */
  lemma PrefixText()
    ensures TXN == ['T' as int, 'X' as int, 'N' as int, 0]
    ensures SND == ['S' as int, 'N' as int, 'D' as int, 0]
    ensures MIN == ['M' as int, 'I' as int, 'N' as int, 0]
  {
  }

  /** At i stand a length and that many bytes; what follows them starts at the index returned. */
  function ReadPrefixed(b: Bytes, i: nat): Option<(Bytes, nat)> {
    var (n, past) :- LengthPrefix.ReadStrict(b, i);
    if past + n <= |b| then Some((b[past..past + n], past + n)) else None
  }

  lemma PrefixedReads(before: Bytes, bytes: Bytes, after: Bytes)
    requires |bytes| <= LengthPrefix.MAX_LENGTH
    ensures var p := LengthPrefix.Write(|bytes|).value;
            ReadPrefixed(before + (p + bytes + after), |before|) == Some((bytes, |before| + |p| + |bytes|))
  {
    hide LengthPrefix.Write, LengthPrefix.ReadStrict, LengthPrefix.Read, LengthPrefix.ReadConsumed;
    LengthPrefix.WriteThenRead(before, |bytes|, bytes + after);
    Between(before, LengthPrefix.Write(|bytes|).value, bytes, after);
  }

  lemma Between(a: Bytes, b: Bytes, c: Bytes, d: Bytes)
    ensures a + b + (c + d) == a + (b + c + d)
    ensures |a| + |b| + |c| <= |a + (b + c + d)| && (a + (b + c + d))[|a| + |b|..|a| + |b| + |c|] == c
  {
  }

  lemma LeafParts(id: Hash, tx: Tx)
    requires Encodable(tx)
    ensures var p, q := LengthPrefix.Write(|tx.blob|).value, LengthPrefix.Write(|tx.meta|).value;
            var text := LeafText(id, tx);
            && text == SND + (p + tx.blob + (q + tx.meta + id))
            && text == (SND + (p + tx.blob)) + (q + tx.meta + id)
            && text == (SND + (p + tx.blob) + (q + tx.meta)) + id
  {
    hide LengthPrefix.Write;
  }

  lemma Tail(front: Bytes, back: Bytes)
    ensures (front + back)[|front|..] == back && (front + back)[..|front|] == front
  {
  }

  /** A leaf's text reads back: after its prefix the blob, then the metadata, each behind its length,
      and at the end the id. */
  lemma LeafTextReads(id: Hash, tx: Tx)
    requires Encodable(tx)
    ensures var text := LeafText(id, tx);
            && |text| >= 4 && text[..4] == SND
            && ReadPrefixed(text, 4).Some?
            && var (blob, i) := ReadPrefixed(text, 4).value;
               && blob == tx.blob && ReadPrefixed(text, i).Some?
               && var (meta, j) := ReadPrefixed(text, i).value;
                  meta == tx.meta && j <= |text| && text[j..] == id
  {
    var p: Bytes, q: Bytes := LengthPrefix.Write(|tx.blob|).value, LengthPrefix.Write(|tx.meta|).value;
    var text := LeafText(id, tx);
    var i := 4 + |p| + |tx.blob|;
    var j := i + |q| + |tx.meta|;
    hide LeafText, ReadPrefixed, LengthPrefix.Write, Encodable;
    LeafParts(id, tx);
    assert ReadPrefixed(text, 4) == Some((tx.blob, i)) by { PrefixedReads(SND, tx.blob, q + tx.meta + id); }
    assert ReadPrefixed(text, i) == Some((tx.meta, j)) by { PrefixedReads(SND + (p + tx.blob), tx.meta, id); }
    assert text[..4] == SND by { Tail(SND, p + tx.blob + (q + tx.meta + id)); }
    assert text[j..] == id by { Tail(SND + (p + tx.blob) + (q + tx.meta), id); }
  }

  // ---- what is accepted ----

  /** Acceptance, without upper case: the header is hex text of the rebuilt root, in either case. */
  lemma AcceptedHeader(h: Bytes -> Hash, j: JsonAnswer, b: BinaryAnswer)
    requires Accepted(h, j, b)
    ensures HexDecode(j.header) == Some(ListRoot(h, b.pairs.value))
  {
    UpperDenotes(j.header, ListRoot(h, b.pairs.value));
    DictSound(h, b.pairs.value);
    hide HexUpper, HexDecode, Upper, Root;
  }

  /** An honest answer is accepted: validated, of one ledger, every pair with its leaf, the header the
      root and the list the ids, in any case and any order. */
  lemma HonestIsAccepted(h: Bytes -> Hash, j: JsonAnswer, b: BinaryAnswer, pairs: seq<Tx>)
    requires j.validated && b.validated && j.allHaveMeta && b.pairs == Some(pairs) && AllEncodable(pairs)
    requires Upper(j.ledgerHash) == Upper(b.ledgerHash)
    requires HexDecode(j.header) == Some(ListRoot(h, pairs))
    requires multiset(Uppers(j.hashes)) == multiset(HexSet(DictOf(h, pairs).Keys))
    ensures Accepted(h, j, b)
  {
    UpperDenotes(j.header, ListRoot(h, pairs));
    DictSound(h, pairs);
    hide HexUpper, HexDecode, Upper, Root, Sound, Uppers, DictOf;
  }
}
