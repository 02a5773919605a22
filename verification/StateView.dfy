// The ledger state one transaction sees: in-ledger mutations over an immutable snapshot, as
// OverlayedDbProvider in crates/xrpl-node/src/ffi_engine.rs answers `read` and `succ`.
module StateView {
  import opened Bytes

  /** Some(data): written this ledger. None: deleted this ledger. */
  type Overlay = map<Hash, Option<Bytes>>

  /** A ledger state as a plain map. */
  type State = map<Hash, Bytes>

  /** The database snapshot: entries in key order, keys of any length. */
  type Store = seq<(Bytes, Bytes)>

  ghost predicate Sorted(store: Store) {
    forall i, j | 0 <= i < j < |store| :: Less(store[i].0, store[j].0)
  }

  /** The ledger entries of a snapshot: those under 32-byte keys. */
  function Entries(store: Store): State {
    if |store| == 0 then map[]
    else
      var (k, v) := store[|store| - 1];
      if |k| == 32 then Entries(store[..|store| - 1])[k := v] else Entries(store[..|store| - 1])
  }

  predicate Live(overlay: Overlay, base: State, k: Hash) {
    if k in overlay then overlay[k].Some? else k in base
  }

  /** The materialised state: the snapshot minus tombstones plus the live overlay entries. */
  function Effective(overlay: Overlay, base: State): (s: State)
    ensures forall k :: k in s <==> Live(overlay, base, k)
    ensures forall k <- s :: Live(overlay, base, k) && s[k] == if k in overlay then overlay[k].value else base[k]
  {
    map k | k in base.Keys + overlay.Keys && Live(overlay, base, k) ::
      if k in overlay then overlay[k].value else base[k]
  }

  function Lookup(s: State, k: Hash): Option<Bytes> {
    if k in s then Some(s[k]) else None
  }

  /** The open interval (key, last); no `last` leaves it unbounded. */
  predicate Within(k: Hash, key: Hash, last: Option<Hash>) {
    Less(key, k) && (last.Some? ==> Less(k, last.value))
  }

  /** Neither end belongs to the interval; between its ends, as the numbers their bytes are, it holds every key. */
  lemma IntervalIsOpen(k: Hash, key: Hash, last: Hash)
    ensures Within(k, key, Some(last)) <==> Value256(key) < Value256(k) < Value256(last)
    ensures Within(k, key, None) <==> Value256(key) < Value256(k)
    ensures !Within(key, key, Some(last)) && !Within(last, key, Some(last))
  {
    LessIsNumeric(key, k);
    LessIsNumeric(k, last);
    LessIrreflexive(key);
    LessIrreflexive(last);
    hide Less, Value256;
  }

  /** r is the least key of `keys` in the interval, or None if it is empty. */
  ghost predicate IsLeast(keys: iset<Hash>, key: Hash, last: Option<Hash>, r: Option<Hash>) {
    match r
    case None => forall k: Hash :: !(k in keys && Within(k, key, last))
    case Some(s) =>
      s in keys && Within(s, key, last)
      && forall k: Hash :: k in keys && Within(k, key, last) && k != s ==> Less(s, k)
  }

  ghost function KeysOf(s: State): iset<Hash> { iset k | k in s }

  lemma LeastUnique(keys: iset<Hash>, key: Hash, last: Option<Hash>, a: Option<Hash>, b: Option<Hash>)
    requires IsLeast(keys, key, last, a) && IsLeast(keys, key, last, b)
    ensures a == b
  {
    if a.Some? && b.Some? && a != b { LessAsymmetric(a.value, b.value); }
  }

  // ---- the snapshot ----

  lemma {:induction false} EntriesOf(store: Store)
    requires Sorted(store)
    ensures forall k :: k in Entries(store) <==> exists i :: 0 <= i < |store| && store[i].0 == k
    ensures forall i | 0 <= i < |store| && |store[i].0| == 32 :: store[i].0 in Entries(store) && Entries(store)[store[i].0] == store[i].1
  {
    if |store| > 0 {
      var front, last := store[..|store| - 1], store[|store| - 1];
      EntriesOf(front);
      forall i | 0 <= i < |front| ensures store[i].0 != last.0 && store[i] == front[i] {
        LessIrreflexive(last.0);
      }
      forall k ensures k in Entries(store) <==> exists i :: 0 <= i < |store| && store[i].0 == k {
        if k in Entries(store) {
          if k != last.0 {
            assert k in Entries(front);
            var i :| 0 <= i < |front| && front[i].0 == k;
            assert store[i].0 == k;
          } else {
            assert store[|store| - 1].0 == k;
          }
        }
        if i :| 0 <= i < |store| && store[i].0 == k {
          if i < |front| { assert front[i].0 == k; }
        }
      }
    }
  }

  /** `snapshot.get`. */
  method Get(store: Store, key: Hash) returns (r: Option<Bytes>)
    requires Sorted(store)
    ensures r == Lookup(Entries(store), key)
  {
    EntriesOf(store);
    for i := 0 to |store|
      invariant forall j | 0 <= j < i :: store[j].0 != key
    {
      if store[i].0 == key { return Some(store[i].1); }
    }
    r := None;
  }

  ghost function Standing(overlay: Overlay, base: State): iset<Hash> {
    iset k | k in base && !(k in overlay && overlay[k].None?)
  }

  ghost function Written(overlay: Overlay): iset<Hash> {
    iset k | k in overlay && overlay[k].Some?
  }

  /** The forward scan: the first 32-byte key past `key` and before `last` that no tombstone hides. */
  method SnapshotCandidate(store: Store, overlay: Overlay, key: Hash, last: Option<Hash>) returns (r: Option<Hash>)
    requires Sorted(store)
    ensures IsLeast(Standing(overlay, Entries(store)), key, last, r)
  {
    EntriesOf(store);
    var i := 0;
    while i < |store| && Less(store[i].0, key)
      invariant 0 <= i <= |store|
      invariant forall j | 0 <= j < i :: Less(store[j].0, key)
    {
      i := i + 1;
    }
    assert forall j | 0 <= j < i :: !Less(key, store[j].0) by {
      forall j | 0 <= j < i ensures !Less(key, store[j].0) { LessAsymmetric(store[j].0, key); }
    }
    while i < |store|
      invariant 0 <= i <= |store|
      invariant forall j | 0 <= j < i :: store[j].0 !in Kept(overlay, store, key, last)
    {
      var k := store[i].0;
      if |k| != 32 { i := i + 1; continue; }
      if k == key || Less(k, key) {
        LessIrreflexive(key);
        if Less(key, k) { LessAsymmetric(key, k); }
        i := i + 1; continue;
      }
      LessTotal(key, k);
      if last.Some? && !Less(k, last.value) { break; }
      if k in overlay && overlay[k].None? { i := i + 1; continue; }
      StoreLeast(overlay, store, key, last, i);
      return Some(k);
    }
    NoneLeft(overlay, store, key, last, i);
    r := None;
  }

  ghost function Kept(overlay: Overlay, store: Store, key: Hash, last: Option<Hash>): iset<Bytes> {
    iset k: Bytes | |k| == 32 && k in Standing(overlay, Entries(store)) && Within(k, key, last)
  }

  lemma StoreLeast(overlay: Overlay, store: Store, key: Hash, last: Option<Hash>, i: nat)
    requires Sorted(store) && i < |store| && store[i].0 in Kept(overlay, store, key, last)
    requires forall j | 0 <= j < i :: store[j].0 !in Kept(overlay, store, key, last)
    ensures IsLeast(Standing(overlay, Entries(store)), key, last, Some(store[i].0))
  {
    EntriesOf(store);
    forall k: Hash | k in Standing(overlay, Entries(store)) && Within(k, key, last) && k != store[i].0
      ensures Less(store[i].0, k)
    {
      var j :| 0 <= j < |store| && store[j].0 == k;
      assert store[j].0 in Kept(overlay, store, key, last);
    }
  }

  lemma NoneLeft(overlay: Overlay, store: Store, key: Hash, last: Option<Hash>, i: nat)
    requires Sorted(store) && i <= |store|
    requires forall j | 0 <= j < i :: store[j].0 !in Kept(overlay, store, key, last)
    requires i < |store| ==> last.Some? && !Less(store[i].0, last.value)
    ensures IsLeast(Standing(overlay, Entries(store)), key, last, None)
  {
    EntriesOf(store);
    forall k: Hash ensures !(k in Standing(overlay, Entries(store)) && Within(k, key, last)) {
      if k in Standing(overlay, Entries(store)) && Within(k, key, last) {
        var j :| 0 <= j < |store| && store[j].0 == k;
        assert store[j].0 in Kept(overlay, store, key, last);
        if i < j { LessTransitive(store[i].0, k, last.value); }
      }
    }
  }

  /** The smallest live overlay key in the interval, over an unordered map. */
  method OverlayCandidate(overlay: Overlay, key: Hash, last: Option<Hash>) returns (r: Option<Hash>)
    ensures IsLeast(Written(overlay), key, last, r)
  {
    r := None;
    var rest := overlay.Keys;
    while rest != {}
      invariant rest <= overlay.Keys
      invariant IsLeast((iset k | k in Written(overlay) && k !in rest), key, last, r)
      decreases rest
    {
      var k :| k in rest;
      if overlay[k].Some? && Within(k, key, last) {
        if r.Some? { LessTotal(k, r.value); }
        if r.None? || Less(k, r.value) {
          if r.Some? {
            forall x: Hash | x in Written(overlay) && x !in rest && Within(x, key, last) ensures Less(k, x) {
              if x != r.value { LessTransitive(k, r.value, x); }
            }
          }
          r := Some(k);
        }
      }
      rest := rest - {k};
    }
    assert (iset k | k in Written(overlay) && k !in rest) == Written(overlay);
  }

  /** `succ`: the least key of the effective state in the open interval. */
  method Succ(store: Store, overlay: Overlay, key: Hash, last: Option<Hash>) returns (r: Option<Hash>)
    requires Sorted(store)
    ensures IsLeast(KeysOf(Effective(overlay, Entries(store))), key, last, r)
  {
    var s := SnapshotCandidate(store, overlay, key, last);
    var o := OverlayCandidate(overlay, key, last);
    ghost var state := Effective(overlay, Entries(store));
    assert forall k: Hash :: k in state <==> k in Standing(overlay, Entries(store)) || k in Written(overlay);
    match (s, o) {
      case (None, None) => r := None;
      case (Some(_), None) => r := s;
      case (None, Some(_)) => r := o;
      case (Some(a), Some(b)) =>
        LessTotal(a, b);
        r := if Less(b, a) then o else s;
        forall k: Hash | k in state && Within(k, key, last) && k != r.value ensures Less(r.value, k) {
          if k != a && Less(b, a) && Less(a, k) { LessTransitive(b, a, k); }
          if k != b && Less(a, b) && Less(b, k) { LessTransitive(a, b, k); }
        }
    }
  }
}
