// Rebuilding one ledger object as it stood in the middle of a ledger from the metadata of the
// transactions around it (`stamped`, `backward` and `forward` of scripts/fetch_tx_bundle.py).
module ObjectHistory {
  import opened Bytes
  import FieldWalker

  /** (type, field) codes. */
  type Field = (nat, nat)

  /** Raw header-and-value bytes by field. */
  type Fields = map<Field, Bytes>

  const LET: Field := (1, 1)   // LedgerEntryType
  const SEQ: Field := (2, 5)   // PreviousTxnLgrSeq
  const TXN: Field := (5, 5)   // PreviousTxnID

  predicate Thread(f: Field) { f == SEQ || f == TXN }

  predicate Content(f: Field) { f != LET && !Thread(f) }

  function SeqRaw(ledger: nat): Bytes {
    [0x25, ledger / 0x100_0000 % 256, ledger / 0x1_0000 % 256, ledger / 0x100 % 256, ledger % 256]
  }

  function TxnRaw(hash: Hash): Bytes { [0x55] + hash }

  // ---- the history of an object and the metadata it leaves ----

  lemma FourBytes(w: byte, x: byte, y: byte, z: byte)
    ensures Value256([w, x, y, z]) == 0x100_0000 * (w as int) + 0x1_0000 * (x as int) + 0x100 * (y as int) + (z as int)
  {
    hide Value256;
    OneMoreByte([], w);
    OneMoreByte([w], x);
    OneMoreByte([w, x], y);
    OneMoreByte([w, x, y], z);
    assert [] + [w] == [w] && [w] + [x] == [w, x] && [w, x] + [y] == [w, x, y] && [w, x, y] + [z] == [w, x, y, z];
  }

  lemma OneMoreByte(b: Bytes, x: byte)
    ensures Value256(b + [x]) == 256 * Value256(b) + x && Value256([]) == 0
  {
    assert (b + [x])[..|b|] == b;
  }

  lemma BytesOf(ledger: nat)
    requires ledger < 0x1_0000_0000
    ensures var raw := SeqRaw(ledger);
            |raw| == 5 && raw[0] == 0x25
            && 0x100_0000 * (raw[1] as int) + 0x1_0000 * (raw[2] as int) + 0x100 * (raw[3] as int) + (raw[4] as int) == ledger
            && raw[1..] == [raw[1], raw[2], raw[3], raw[4]]
  {
  }

  /** The stamp reads back: a field of type 2 and code 5 whose four bytes are the ledger's number, and
      one of type 5 and code 5 whose 32 bytes are the transaction's hash. */
  lemma StampReads(ledger: nat, hash: Hash)
    requires ledger < 0x1_0000_0000
    ensures var raw := SeqRaw(ledger);
            |raw| == 5 && FieldWalker.Header(raw, 0) == Some((SEQ.0, SEQ.1, 1)) && SEQ == (2, 5) && Value256(raw[1..]) == ledger
    ensures var raw := TxnRaw(hash);
            |raw| == 33 && FieldWalker.Header(raw, 0) == Some((TXN.0, TXN.1, 1)) && TXN == (5, 5) && raw[1..] == hash
  {
    var raw := SeqRaw(ledger);
    BytesOf(ledger);
    hide SeqRaw, Value256;
    FourBytes(raw[1], raw[2], raw[3], raw[4]);
  }

  /** What a transaction does to the object; contents are without type and thread. */
  datatype Act =
    | Create(kind: Bytes, content: Fields)
    | Modify(content: Fields)
    | ThreadOnly
    | Delete(content: Fields)

  datatype Touch = Touch(hash: Hash, act: Act)

  ghost predicate WellFormed(image: Fields) { LET in image && SEQ in image && TXN in image }

  ghost predicate IsContent(fields: Fields) { forall f <- fields :: Content(f) }

  ghost predicate Legal(s: Option<Fields>, act: Act) {
    match act
    case Create(_, content) => s.None? && IsContent(content)
    case Modify(content) => s.Some? && IsContent(content)
    case ThreadOnly => s.Some?
    case Delete(content) => s.Some? && IsContent(content)
  }

  function Restamped(image: Fields, hash: Hash, ledger: nat): Fields {
    image[SEQ := SeqRaw(ledger)][TXN := TxnRaw(hash)]
  }

  ghost function After(s: Option<Fields>, t: Touch, ledger: nat): Option<Fields>
    requires Legal(s, t.act) && (s.Some? ==> WellFormed(s.value))
  {
    match t.act
    case Create(kind, content) => Some(Restamped(content[LET := kind], t.hash, ledger))
    case Modify(content) => Some(Restamped(content[LET := s.value[LET]], t.hash, ledger))
    case ThreadOnly => Some(Restamped(s.value, t.hash, ledger))
    case Delete(_) => None
  }

  /** A ledger's touches of one object, from the image s. */
  ghost predicate LegalChain(s: Option<Fields>, chain: seq<Touch>, ledger: nat)
    decreases |chain|
  {
    && (s.Some? ==> WellFormed(s.value))
    && (|chain| > 0 ==> Legal(s, chain[0].act) && LegalChain(After(s, chain[0], ledger), chain[1..], ledger))
  }

  /** The image the chain leaves. */
  ghost function Final(s: Option<Fields>, chain: seq<Touch>, ledger: nat): Option<Fields>
    requires LegalChain(s, chain, ledger)
    decreases |chain|
  {
    if |chain| == 0 then s else Final(After(s, chain[0], ledger), chain[1..], ledger)
  }

  datatype NodeKind = CreatedNode | ModifiedNode | DeletedNode

  /** An AffectedNode as `meta_node` gives it; finals is None on a thread-only touch. */
  datatype Node = Node(kind: NodeKind, node: Fields, finals: Option<Fields>, prevs: Option<Fields>)

  /** The original fields with no equal field in the new content: PreviousFields. */
  ghost function Previous(image: Fields, content: Fields): Fields {
    map f | f in image && Content(f) && !(f in content && content[f] == image[f]) :: image[f]
  }

  ghost function NoneIfEmpty(fields: Fields): Option<Fields> {
    if fields == map[] then None else Some(fields)
  }

  /** The metadata a touch leaves. A modified node carries the thread it had; a deleted node's
      FinalFields do. */
  ghost function MetaOf(s: Option<Fields>, act: Act): Node
    requires Legal(s, act) && (s.Some? ==> WellFormed(s.value))
  {
    match act
    case Create(kind, content) => Node(CreatedNode, map[LET := kind], None, None)
    case Modify(content) =>
      Node(ModifiedNode, map[LET := s.value[LET], SEQ := s.value[SEQ], TXN := s.value[TXN]],
           Some(content), NoneIfEmpty(Previous(s.value, content)))
    case ThreadOnly =>
      Node(ModifiedNode, map[LET := s.value[LET], SEQ := s.value[SEQ], TXN := s.value[TXN]], None, None)
    case Delete(content) =>
      Node(DeletedNode, map[LET := s.value[LET]],
           Some(content[SEQ := s.value[SEQ]][TXN := s.value[TXN]]), NoneIfEmpty(Previous(s.value, content)))
  }

  /** `nodeOf` answers with the chain's own metadata. */
  ghost predicate Truthful(nodeOf: Hash -> Option<Node>, s: Option<Fields>, chain: seq<Touch>, ledger: nat)
    requires LegalChain(s, chain, ledger)
    decreases |chain|
  {
    |chain| > 0 ==>
      && nodeOf(chain[0].hash) == Some(MetaOf(s, chain[0].act))
      && Truthful(nodeOf, After(s, chain[0], ledger), chain[1..], ledger)
  }

  // ---- the script ----

  /** `stamped`. */
  function Stamped(fields: Fields, letRaw: Option<Bytes>, txHash: Option<Hash>, ledger: nat): Fields {
    var raw := if letRaw.Some? && LET !in fields then fields[LET := letRaw.value] else fields;
    if txHash.Some? then Restamped(raw, txHash.value, ledger) else raw
  }

  function Get(fields: Fields, f: Field): Option<Bytes> { if f in fields then Some(fields[f]) else None }

  function OrEmpty(fields: Option<Fields>): Fields { if fields.Some? then fields.value else map[] }

  /** The earlier touchers' hashes read from the last one back, `n` of them left. */
  function BackwardFrom(before: seq<Hash>, n: nat, nodeOf: Hash -> Option<Node>, parent: Option<Fields>, last: Hash, ledger: nat): Option<Fields>
    requires n <= |before|
  {
    if n == 0 then (if parent.Some? then Some(Stamped(parent.value, None, Some(last), ledger)) else None)
    else
      match nodeOf(before[n - 1])
      case None => None
      case Some(rec) =>
        if !rec.kind.ModifiedNode? then None
        else if rec.finals.Some? then Some(Stamped(rec.finals.value, Get(rec.node, LET), Some(last), ledger))
        else BackwardFrom(before, n - 1, nodeOf, parent, last, ledger)
  }

  /** `backward`: the image after the last earlier toucher. */
  method Backward(before: seq<Hash>, nodeOf: Hash -> Option<Node>, parent: Option<Fields>, ledger: nat) returns (r: Option<Fields>)
    requires |before| > 0
    ensures r == BackwardFrom(before, |before|, nodeOf, parent, before[|before| - 1], ledger)
  {
    var last := before[|before| - 1];
    var n: nat := |before|;
    while n > 0
      invariant n <= |before|
      invariant BackwardFrom(before, |before|, nodeOf, parent, last, ledger) == BackwardFrom(before, n, nodeOf, parent, last, ledger)
    {
      var rec := nodeOf(before[n - 1]);
      if rec.None? || !rec.value.kind.ModifiedNode? { return None; }
      if rec.value.finals.Some? {
        return Some(Stamped(rec.value.finals.value, Get(rec.value.node, LET), Some(last), ledger));
      }
      n := n - 1;
    }
    if parent.None? { return None; }
    r := Some(Stamped(parent.value, None, Some(last), ledger));
  }

  /** FinalFields with PreviousFields put back, and a modified node's own thread. */
  function Undone(rec: Node): Fields
    requires rec.finals.Some?
  {
    var raw := rec.finals.value + OrEmpty(rec.prevs);
    if rec.kind.ModifiedNode? then raw + (map f | f in rec.node && Thread(f) :: rec.node[f]) else raw
  }

  /** The touchers at or after this transaction, from the i-th on. */
  function ForwardFrom(after: seq<Hash>, i: nat, nodeOf: Hash -> Option<Node>, post: Option<Fields>, last: Option<Hash>, ledger: nat): Option<Fields>
    requires i <= |after|
    decreases |after| - i
  {
    if i == |after| then (if post.Some? then Some(Stamped(post.value, None, last, ledger)) else None)
    else
      match nodeOf(after[i])
      case None => None
      case Some(rec) =>
        if rec.kind.CreatedNode? then None
        else if rec.finals.None? then ForwardFrom(after, i + 1, nodeOf, post, last, ledger)
        else Some(Stamped(Undone(rec), Get(rec.node, LET), last, ledger))
  }

  /** The i-th toucher is the first whose metadata has final fields: those before it only stamped the
      thread, and it did not create the object. */
  predicate FirstFullAt(after: seq<Hash>, i: nat, nodeOf: Hash -> Option<Node>)
    requires i < |after|
  {
    && Full(nodeOf(after[i]))
    && forall j | 0 <= j < i :: Stamps(nodeOf(after[j]))
  }

  predicate Full(rec: Option<Node>) { rec.Some? && !rec.value.kind.CreatedNode? && rec.value.finals.Some? }

  predicate Stamps(rec: Option<Node>) { rec.Some? && !rec.value.kind.CreatedNode? && rec.value.finals.None? }

  /** `forward`: the image before the first full toucher at or after this transaction. `own` says
      that toucher is this transaction. */
  method Forward(after: seq<Hash>, nodeOf: Hash -> Option<Node>, post: Option<Fields>, last: Option<Hash>, ledger: nat, me: Hash)
    returns (r: Option<Fields>, own: bool)
    ensures r == ForwardFrom(after, 0, nodeOf, post, last, ledger)
    ensures own <==> exists i | 0 <= i < |after| :: FirstFullAt(after, i, nodeOf) && after[i] == me
  {
    for i := 0 to |after|
      invariant forall j | 0 <= j < i :: Stamps(nodeOf(after[j]))
      invariant ForwardFrom(after, 0, nodeOf, post, last, ledger) == ForwardFrom(after, i, nodeOf, post, last, ledger)
    {
      var rec := nodeOf(after[i]);
      if rec.None? || rec.value.kind.CreatedNode? { return None, false; }
      if rec.value.finals.None? { continue; }
      var raw := rec.value.finals.value + OrEmpty(rec.value.prevs);
      if rec.value.kind.ModifiedNode? {
        if SEQ in rec.value.node { raw := raw[SEQ := rec.value.node[SEQ]]; }
        if TXN in rec.value.node { raw := raw[TXN := rec.value.node[TXN]]; }
      }
      assert raw == Undone(rec.value);
      assert FirstFullAt(after, i, nodeOf);
      return Some(Stamped(raw, Get(rec.value.node, LET), last, ledger)), after[i] == me;
    }
    if post.None? { return None, false; }
    r, own := Some(Stamped(post.value, None, last, ledger)), false;
  }

  // ---- backward is exact ----

  function Hashes(chain: seq<Touch>): (r: seq<Hash>)
    ensures |r| == |chain| && forall i | 0 <= i < |r| :: r[i] == chain[i].hash
  {
    if |chain| == 0 then [] else [chain[0].hash] + Hashes(chain[1..])
  }

  /** The last touch that is more than a thread stamp is a modification, or there is none. */
  ghost predicate BackwardReaches(chain: seq<Touch>) {
    |chain| > 0 ==>
      match chain[|chain| - 1].act
      case Modify(_) => true
      case ThreadOnly => BackwardReaches(chain[..|chain| - 1])
      case _ => false
  }

  /** Splitting off the last touch of a chain. */
  lemma {:induction false} ChainLast(nodeOf: Hash -> Option<Node>, s: Option<Fields>, chain: seq<Touch>, ledger: nat)
    requires |chain| > 0 && LegalChain(s, chain, ledger) && Truthful(nodeOf, s, chain, ledger)
    ensures var front, t := chain[..|chain| - 1], chain[|chain| - 1];
            && LegalChain(s, front, ledger) && Truthful(nodeOf, s, front, ledger)
            && var mid := Final(s, front, ledger);
               && (mid.Some? ==> WellFormed(mid.value)) && Legal(mid, t.act)
               && Final(s, chain, ledger) == After(mid, t, ledger)
               && nodeOf(t.hash) == Some(MetaOf(mid, t.act))
    decreases |chain|
  {
    if |chain| > 1 {
      var rest := chain[1..];
      ChainLast(nodeOf, After(s, chain[0], ledger), rest, ledger);
      assert rest[..|rest| - 1] == chain[..|chain| - 1][1..];
      assert chain[..|chain| - 1][0] == chain[0];
    } else {
      assert chain[..0] == [];
      assert Final(s, chain, ledger) == Final(After(s, chain[0], ledger), chain[1..], ledger);
    }
  }

  lemma {:induction false} BackwardPrefix(before: seq<Hash>, n: nat, m: nat, nodeOf: Hash -> Option<Node>, parent: Option<Fields>, last: Hash, ledger: nat)
    requires n <= m <= |before|
    ensures BackwardFrom(before[..m], n, nodeOf, parent, last, ledger) == BackwardFrom(before, n, nodeOf, parent, last, ledger)
  {
    if n > 0 { BackwardPrefix(before, n - 1, m, nodeOf, parent, last, ledger); }
  }

  lemma RestampTwice(image: Fields, a: Hash, b: Hash, ledger: nat)
    ensures Restamped(Restamped(image, a, ledger), b, ledger) == Restamped(image, b, ledger)
  {
  }

  /** One step back over a touch, given the metadata it left. */
  lemma BackwardStep(before: seq<Hash>, n: nat, nodeOf: Hash -> Option<Node>, parent: Option<Fields>, last: Hash, ledger: nat, mid: Option<Fields>, act: Act)
    requires 0 < n <= |before| && (mid.Some? ==> WellFormed(mid.value)) && Legal(mid, act)
    requires nodeOf(before[n - 1]) == Some(MetaOf(mid, act))
    ensures BackwardFrom(before, n, nodeOf, parent, last, ledger)
            == match act
               case Create(_, _) => None
               case Delete(_) => None
               case Modify(content) => Some(Restamped(content[LET := mid.value[LET]], last, ledger))
               case ThreadOnly => BackwardFrom(before, n - 1, nodeOf, parent, last, ledger)
  {
  }

  /** The rebuilt image is the chain's final image under the stamp asked for, if one is rebuilt. */
  ghost predicate Rebuilt(r: Option<Fields>, s: Option<Fields>, chain: seq<Touch>, ledger: nat, last: Hash)
    requires LegalChain(s, chain, ledger)
  {
    if BackwardReaches(chain) && (|chain| > 0 || s.Some?)
    then Final(s, chain, ledger).Some? && r == Some(Restamped(Final(s, chain, ledger).value, last, ledger))
    else r == None
  }

  lemma {:induction false} BackwardStamps(nodeOf: Hash -> Option<Node>, s: Option<Fields>, chain: seq<Touch>, ledger: nat, last: Hash)
    requires LegalChain(s, chain, ledger) && Truthful(nodeOf, s, chain, ledger)
    ensures Rebuilt(BackwardFrom(Hashes(chain), |chain|, nodeOf, s, last, ledger), s, chain, ledger, last)
  {
    if |chain| > 0 {
      var front, t := chain[..|chain| - 1], chain[|chain| - 1];
      ChainLast(nodeOf, s, chain, ledger);
      var mid := Final(s, front, ledger);
      BackwardStep(Hashes(chain), |chain|, nodeOf, s, last, ledger, mid, t.act);
      if t.act.Modify? {
        RestampTwice(t.act.content[LET := mid.value[LET]], t.hash, last, ledger);
      } else if t.act.ThreadOnly? {
        BackwardStamps(nodeOf, s, front, ledger, last);
        assert Hashes(chain)[..|front|] == Hashes(front);
        BackwardPrefix(Hashes(chain), |front|, |front|, nodeOf, s, last, ledger);
        RestampTwice(mid.value, t.hash, last, ledger);
        if |front| == 0 { assert mid == s; }
        assert BackwardReaches(chain) <==> BackwardReaches(front);
      }
    }
  }

  lemma {:induction false} FinalStamp(nodeOf: Hash -> Option<Node>, s: Option<Fields>, chain: seq<Touch>, ledger: nat)
    requires |chain| > 0 && LegalChain(s, chain, ledger) && Truthful(nodeOf, s, chain, ledger)
    requires Final(s, chain, ledger).Some?
    ensures Restamped(Final(s, chain, ledger).value, chain[|chain| - 1].hash, ledger) == Final(s, chain, ledger).value
  {
    ChainLast(nodeOf, s, chain, ledger);
  }

  /** `backward` rebuilds the exact image this transaction found, whenever the last earlier touch
      beyond a thread stamp is a modification or there is none; otherwise it rebuilds nothing. */
  lemma BackwardExact(nodeOf: Hash -> Option<Node>, parent: Option<Fields>, before: seq<Touch>, ledger: nat)
    requires |before| > 0 && LegalChain(parent, before, ledger) && Truthful(nodeOf, parent, before, ledger)
    ensures BackwardFrom(Hashes(before), |before|, nodeOf, parent, before[|before| - 1].hash, ledger)
            == if BackwardReaches(before) then Final(parent, before, ledger) else None
    ensures BackwardReaches(before) ==> Final(parent, before, ledger).Some?
  {
    BackwardStamps(nodeOf, parent, before, ledger, before[|before| - 1].hash);
    if BackwardReaches(before) { FinalStamp(nodeOf, parent, before, ledger); }
  }

  // ---- forward is exact when nothing was added ----

  /** The first touch that is more than a thread stamp adds a field the object did not have. */
  ghost predicate FirstFullAdds(image: Fields, chain: seq<Touch>) {
    |chain| > 0 &&
      match chain[0].act
      case Modify(content) => exists f <- content :: f !in image
      case Delete(content) => exists f <- content :: f !in image
      case ThreadOnly => FirstFullAdds(image, chain[1..])
      case Create(_, _) => false
  }

  ghost predicate StampedBy(image: Fields, last: Hash, ledger: nat) { Restamped(image, last, ledger) == image }

  /** Putting PreviousFields back gives every field the object had, and the added ones. */
  lemma UndoneAt(image: Fields, act: Act, f: Field)
    requires WellFormed(image) && Legal(Some(image), act) && (act.Modify? || act.Delete?)
    ensures var rec := MetaOf(Some(image), act);
            Get(Stamped(Undone(rec), Get(rec.node, LET), None, 0), f) == if f in image then Some(image[f]) else Get(act.content, f)
  {
    var rec := MetaOf(Some(image), act);
    var previous := Previous(image, act.content);
    assert OrEmpty(rec.prevs) == previous;
    if f == LET {
      assert LET !in previous && LET !in act.content;
    } else if Thread(f) {
      assert f !in previous && f !in act.content;
    } else {
      assert f in previous <==> f in image && !(f in act.content && act.content[f] == image[f]);
    }
  }

  lemma StampedLast(fields: Fields, letRaw: Option<Bytes>, last: Option<Hash>, ledger: nat)
    ensures Stamped(fields, letRaw, last, ledger)
            == if last.Some? then Restamped(Stamped(fields, letRaw, None, 0), last.value, ledger) else Stamped(fields, letRaw, None, 0)
  {
  }

  lemma UndoneIs(image: Fields, act: Act, last: Option<Hash>, ledger: nat)
    requires WellFormed(image) && Legal(Some(image), act) && (act.Modify? || act.Delete?)
    ensures var rec := MetaOf(Some(image), act);
            var raw := Stamped(Undone(rec), Get(rec.node, LET), last, ledger);
            var base := if last.Some? then Restamped(image, last.value, ledger) else image;
            raw == base <==> forall f <- act.content :: f in image
  {
    var rec := MetaOf(Some(image), act);
    var raw := Stamped(Undone(rec), Get(rec.node, LET), None, 0);
    var base := if last.Some? then Restamped(image, last.value, ledger) else image;
    StampedLast(Undone(rec), Get(rec.node, LET), last, ledger);
    forall f: Field ensures Get(raw, f) == if f in image then Some(image[f]) else Get(act.content, f) {
      UndoneAt(image, act, f);
    }
    if forall f <- act.content :: f in image {
      SameGets(raw, image);
    } else {
      var f :| f in act.content && f !in image;
      assert Get(raw, f).Some? && f !in base;
    }
  }

  lemma SameGets(a: Fields, b: Fields)
    requires forall f: Field :: Get(a, f) == Get(b, f)
    ensures a == b
  {
    assert forall f: Field :: f in a <==> Get(a, f).Some?;
    assert forall f: Field :: f in b <==> Get(b, f).Some?;
    assert forall f: Field | f in a :: Some(a[f]) == Get(a, f);
    assert forall f: Field | f in b :: Some(b[f]) == Get(b, f);
  }

  lemma {:induction false} ForwardStamps(nodeOf: Hash -> Option<Node>, image: Fields, x: Fields, chain: seq<Touch>, ledger: nat, last: Hash, hashes: seq<Hash>, i: nat)
    requires WellFormed(image) && LegalChain(Some(x), chain, ledger) && Truthful(nodeOf, Some(x), chain, ledger)
    requires Restamped(x, last, ledger) == image
    requires i <= |hashes| && hashes[i..] == Hashes(chain)
    ensures var r := ForwardFrom(hashes, i, nodeOf, Final(Some(x), chain, ledger), Some(last), ledger);
            r.Some? && (r.value == image <==> !FirstFullAdds(image, chain))
    decreases |chain|
  {
    assert x.Keys == image.Keys;
    if |chain| == 0 {
      assert |hashes| == i;
    } else {
      assert hashes[i] == chain[0].hash;
      assert hashes[i + 1..] == Hashes(chain)[1..] == Hashes(chain[1..]);
      match chain[0].act {
        case Modify(content) => UndoneIs(x, chain[0].act, Some(last), ledger);
        case Delete(content) => UndoneIs(x, chain[0].act, Some(last), ledger);
        case ThreadOnly =>
          var y := Restamped(x, chain[0].hash, ledger);
          assert Restamped(y, last, ledger) == image;
          ForwardStamps(nodeOf, image, y, chain[1..], ledger, last, hashes, i + 1);
      }
    }
  }

  /** `forward` rebuilds the exact image this transaction found if and only if the first full
      toucher at or after it added no field. `last` is the last earlier toucher. */
  lemma ForwardExact(nodeOf: Hash -> Option<Node>, image: Fields, after: seq<Touch>, ledger: nat, last: Hash)
    requires LegalChain(Some(image), after, ledger) && Truthful(nodeOf, Some(image), after, ledger)
    requires StampedBy(image, last, ledger)
    ensures var r := ForwardFrom(Hashes(after), 0, nodeOf, Final(Some(image), after, ledger), Some(last), ledger);
            r.Some? && (r.value == image <==> !FirstFullAdds(image, after))
  {
    assert Hashes(after)[0..] == Hashes(after);
    ForwardStamps(nodeOf, image, image, after, ledger, last, Hashes(after), 0);
  }

  /** The self-check of an object nobody touched earlier: this transaction's own metadata gives
      back the parent image if and only if it added no field. */
  lemma ForwardOwn(nodeOf: Hash -> Option<Node>, image: Fields, after: seq<Touch>, ledger: nat, post: Option<Fields>)
    requires |after| > 0 && LegalChain(Some(image), after, ledger) && Truthful(nodeOf, Some(image), after, ledger)
    requires after[0].act.Modify? || after[0].act.Delete?
    ensures ForwardFrom(Hashes(after), 0, nodeOf, post, None, ledger) == Some(image) <==> !FirstFullAdds(image, after)
  {
    UndoneIs(image, after[0].act, None, ledger);
  }

  /** The two derivations of a stale image never disagree where both are exact: for any history
      before and after this transaction, if `backward` answers and the next full toucher added no
      field, both give the image this transaction found. */
  lemma DerivationsAgree(nodeOf: Hash -> Option<Node>, parent: Option<Fields>, before: seq<Touch>, after: seq<Touch>, ledger: nat)
    requires |before| > 0 && LegalChain(parent, before, ledger) && Truthful(nodeOf, parent, before, ledger)
    requires BackwardReaches(before)
    requires LegalChain(Final(parent, before, ledger), after, ledger) && Truthful(nodeOf, Final(parent, before, ledger), after, ledger)
    ensures var image := Final(parent, before, ledger);
            var last := before[|before| - 1].hash;
            var back := BackwardFrom(Hashes(before), |before|, nodeOf, parent, last, ledger);
            var fwd := ForwardFrom(Hashes(after), 0, nodeOf, Final(image, after, ledger), Some(last), ledger);
            image.Some? && back == image && (fwd == back <==> !FirstFullAdds(image.value, after))
  {
    BackwardExact(nodeOf, parent, before, ledger);
    FinalStamp(nodeOf, parent, before, ledger);
    ForwardExact(nodeOf, Final(parent, before, ledger).value, after, ledger, before[|before| - 1].hash);
  }

  /** An object deleted and made again is out of reach of both: `forward` from before a creation
      answers nothing. */
  lemma ForwardStopsAtCreation(nodeOf: Hash -> Option<Node>, after: seq<Touch>, ledger: nat, post: Option<Fields>, last: Option<Hash>)
    requires |after| > 0 && LegalChain(None, after, ledger) && Truthful(nodeOf, None, after, ledger)
    ensures ForwardFrom(Hashes(after), 0, nodeOf, post, last, ledger) == None
  {
  }
}
