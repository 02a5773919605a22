// Applying a ledger's transactions in order over a snapshot: the provider each transaction reads
// through, and the loop of apply_ledger_in_order_with_net (crates/xrpl-node/src/ffi_engine.rs).
//
// libxrpl is a parameter: a transactor is any function from the answers it has had so far to its
// next question or its outcome. It sees the ledger through `read` and `succ` and in no other way.
module LedgerApply {
  import opened Bytes
  import opened StateView

  datatype Kind = Created | Modified | Deleted

  datatype Mutation = Mutation(key: Hash, kind: Kind, data: Bytes)

  datatype Outcome = Outcome(ter: string, mutations: seq<Mutation>, fatal: string)

  datatype Question = Read(key: Hash) | Next(after: Hash, last: Option<Hash>)

  datatype Answer = Data(data: Option<Bytes>) | Key(key: Option<Hash>)

  /** Finish(None) is the null outcome of the foreign call. */
  datatype Action = Ask(question: Question) | Finish(outcome: Option<Outcome>)

  type Transactor = seq<Answer> -> Action

  datatype RpcReply = Hit(data: Bytes) | EntryNotFound | Exhausted

  /** tesSUCCESS or a claimed tec. */
  predicate Threads(ter: string) {
    ter == "tesSUCCESS" || (|ter| >= 3 && ter[..3] == "tec")
  }

  lemma FirstThree(ter: string, code: string)
    requires |code| == 3
    ensures code <= ter <==> |ter| >= 3 && ter[..3] == code
  {
  }

  /** By the result's text: success and every tec code thread, and the four kinds of refusal do not. */
  lemma ThreadsByText(ter: string)
    ensures Threads(ter) <==> ter == "tesSUCCESS" || "tec" <= ter
    ensures "ter" <= ter || "tef" <= ter || "tem" <= ter || "tel" <= ter ==> !Threads(ter)
  {
    FirstThree(ter, "tec");
    if "ter" <= ter || "tef" <= ter || "tem" <= ter || "tel" <= ter {
      assert ter[2] == 'r' || ter[2] == 'f' || ter[2] == 'm' || ter[2] == 'l';
      assert "tesSUCCESS"[2] == 's' && "tec"[2] == 'c';
    }
  }

  // ---- the specification: transactions over a plain state ----

  ghost function AnswerOf(s: State, q: Question): Answer {
    match q
    case Read(key) => Data(Lookup(s, key))
    case Next(after, last) =>
      Key(if exists r :: IsLeast(KeysOf(s), after, last, r) then (var r :| IsLeast(KeysOf(s), after, last, r); r) else None)
  }

  /** The transactor run against the whole state; asking more than `patience` questions is a null outcome. */
  ghost function Run(t: Transactor, s: State, answers: seq<Answer>, patience: nat): Option<Outcome>
    decreases patience
  {
    match t(answers)
    case Finish(outcome) => outcome
    case Ask(q) => if patience == 0 then None else Run(t, s, answers + [AnswerOf(s, q)], patience - 1)
  }

  function Mutate(s: State, m: Mutation): State {
    if m.kind.Deleted? then s - {m.key} else s[m.key := m.data]
  }

  function Mutated(s: State, ms: seq<Mutation>): State {
    if |ms| == 0 then s else Mutate(Mutated(s, ms[..|ms| - 1]), ms[|ms| - 1])
  }

  /** Mutations of other keys leave a key as it was. */
  lemma {:induction false} MutatedKeeps(s: State, ms: seq<Mutation>, k: Hash)
    requires forall m | m in ms :: m.key != k
    ensures Lookup(Mutated(s, ms), k) == Lookup(s, k)
  {
    if |ms| > 0 {
      assert ms[|ms| - 1] in ms && forall m :: m in ms[..|ms| - 1] ==> m in ms;
      MutatedKeeps(s, ms[..|ms| - 1], k);
    }
  }

  /** A key holds what the last mutation of it left. */
  lemma {:induction false} MutatedReads(s: State, ms: seq<Mutation>, i: nat)
    requires i < |ms| && forall j | i < j < |ms| :: ms[j].key != ms[i].key
    ensures Lookup(Mutated(s, ms), ms[i].key) == if ms[i].kind == Deleted then None else Some(ms[i].data)
  {
    if i < |ms| - 1 { MutatedReads(s, ms[..|ms| - 1], i); }
  }

  function Slot(m: Mutation): Option<Bytes> {
    if m.kind.Deleted? then None else Some(m.data)
  }

  function Threaded(overlay: Overlay, ms: seq<Mutation>): Overlay {
    if |ms| == 0 then overlay
    else Threaded(overlay, ms[..|ms| - 1])[ms[|ms| - 1].key := Slot(ms[|ms| - 1])]
  }

  lemma SlotApplies(overlay: Overlay, base: State, m: Mutation)
    ensures Effective(overlay[m.key := Slot(m)], base) == Mutate(Effective(overlay, base), m)
  {
    var after, want := Effective(overlay[m.key := Slot(m)], base), Mutate(Effective(overlay, base), m);
    assert forall k: Hash :: k in after <==> k in want;
    assert forall k: Hash | k in after :: after[k] == want[k];
  }

  /** Threading mutations into the overlay is applying them to the state under it. */
  lemma {:induction false} ThreadingApplies(overlay: Overlay, base: State, ms: seq<Mutation>)
    ensures Effective(Threaded(overlay, ms), base) == Mutated(Effective(overlay, base), ms)
  {
    if |ms| > 0 {
      ThreadingApplies(overlay, base, ms[..|ms| - 1]);
      SlotApplies(Threaded(overlay, ms[..|ms| - 1]), base, ms[|ms| - 1]);
    }
  }

  /** One transaction of a ledger: its id, the ids of the inner transactions it carries, its code. */
  datatype Tx = Tx(id: string, carries: set<string>, code: Transactor)

  /** What one transaction does to the state; inner entries are applied by their outer. */
  ghost function Step(inner: set<string>, tx: Tx, s: State, patience: nat): State {
    if tx.id in inner then s
    else
      match Run(tx.code, s, [], patience)
      case None => s
      case Some(o) => if Threads(o.ter) then Mutated(s, o.mutations) else s
  }

  ghost function Sequential(inner: set<string>, txs: seq<Tx>, s: State, patience: nat): State {
    if |txs| == 0 then s
    else Step(inner, txs[|txs| - 1], Sequential(inner, txs[..|txs| - 1], s, patience), patience)
  }

  // ---- the specification: one transactor behind the provider, consults included ----

  /** What answers a transactor but the overlay and the budget. */
  datatype Sources = Sources(base: State, rpc: Hash -> RpcReply, fallbackEnabled: bool)

  predicate Consults(src: Sources, budget: Option<nat>) {
    match budget case Some(left) => left > 0 case None => src.fallbackEnabled
  }

  /** A read's answer, and the budget it leaves. */
  function ReadAnswer(src: Sources, overlay: Overlay, budget: Option<nat>, key: Hash): (Option<Bytes>, Option<nat>) {
    if key in overlay then (overlay[key], budget)
    else if key in src.base then (Some(src.base[key]), budget)
    else if !Consults(src, budget) then (None, budget)
    else
      (if src.rpc(key).Hit? then Some(src.rpc(key).data) else None,
       if budget.Some? then Some(budget.value - 1) else None)
  }

  /** The transactor behind the provider: its outcome, and the budget it leaves. */
  ghost function Session(src: Sources, overlay: Overlay, budget: Option<nat>, t: Transactor, answers: seq<Answer>, patience: nat)
    : (Option<Outcome>, Option<nat>)
    decreases patience
  {
    match t(answers)
    case Finish(outcome) => (outcome, budget)
    case Ask(q) =>
      if patience == 0 then (None, budget)
      else
        match q
        case Read(key) =>
          var (data, left) := ReadAnswer(src, overlay, budget, key);
          Session(src, overlay, left, t, answers + [Data(data)], patience - 1)
        case Next(_, _) =>
          Session(src, overlay, budget, t, answers + [AnswerOf(Effective(overlay, src.base), q)], patience - 1)
  }

  /** With no consult allowed a transactor sees the materialised state and nothing else. */
  lemma {:induction false} NoConsultNoDifference(src: Sources, overlay: Overlay, budget: Option<nat>, t: Transactor, answers: seq<Answer>,
                                                 patience: nat)
    requires !Consults(src, budget)
    ensures Session(src, overlay, budget, t, answers, patience) == (Run(t, Effective(overlay, src.base), answers, patience), budget)
    decreases patience
  {
    var s := Effective(overlay, src.base);
    match t(answers) {
      case Finish(_) =>
      case Ask(q) =>
        if patience > 0 {
          match q {
            case Read(key) =>
              assert ReadAnswer(src, overlay, budget, key) == (Lookup(s, key), budget);
              NoConsultNoDifference(src, overlay, budget, t, answers + [Data(Lookup(s, key))], patience - 1);
            case Next(_, _) =>
              hide AnswerOf;
              NoConsultNoDifference(src, overlay, budget, t, answers + [AnswerOf(s, q)], patience - 1);
          }
        }
    }
  }

  /** Where a recovery ends: the last outcome, the entries fetched for it, the budget left. */
  datatype Repaired = Repaired(final: Outcome, fetched: seq<(Hash, Bytes)>, budget: Option<nat>)

  /** What stays the same while one transaction is tried. */
  datatype Trial = Trial(src: Sources, t: Transactor, repair: Hash -> Option<Bytes>, missing: string -> Option<Hash>, patience: nat)

  /** The entry a failed outcome asks for, if it is a new one and somebody has it. */
  function Wanted(a: Trial, outcome: Outcome, last: Option<Hash>): Option<(Hash, Bytes)> {
    var key := a.missing(outcome.fatal);
    if key.None? || key == last || a.repair(key.value).None? then None
    else Some((key.value, a.repair(key.value).value))
  }

  /** The recovery of a tefBAD_LEDGER: as long as rounds are left, the entry its error names is fetched,
      put in the overlay and the transactor tried again. It ends with an error that names no entry, or
      the entry just fetched, or one nobody has; with no outcome; or with any other outcome. */
  ghost function Recovery(a: Trial, overlay: Overlay, budget: Option<nat>, outcome: Outcome, last: Option<Hash>, rounds: nat): Repaired
    decreases rounds
  {
    var entry := Wanted(a, outcome, last);
    if rounds == 0 || entry.None? then Repaired(outcome, [], budget)
    else
      var more := overlay[entry.value.0 := Some(entry.value.1)];
      var (retry, left) := Session(a.src, more, budget, a.t, [], a.patience);
      if retry.None? then Repaired(outcome, [entry.value], left)
      else if retry.value.ter != "tefBAD_LEDGER" then Repaired(retry.value, [entry.value], left)
      else Prepended([entry.value], Recovery(a, more, left, retry.value, Some(entry.value.0), rounds - 1))
  }

  ghost function Prepended(fetched: seq<(Hash, Bytes)>, r: Repaired): Repaired { r.(fetched := fetched + r.fetched) }

  lemma PrependedTwice(a: seq<(Hash, Bytes)>, b: seq<(Hash, Bytes)>, r: Repaired)
    ensures Prepended(a, Prepended(b, r)) == Prepended(a + b, r)
    ensures Prepended([], r) == r
  {
    assert a + (b + r.fetched) == (a + b) + r.fetched;
  }

  const MAX_ITERATIONS: nat := 20

  /** One transaction, a recovery included: its final outcome, the entries fetched, the budget left. */
  ghost function Applied(a: Trial, overlay: Overlay, budget: Option<nat>, peers: bool)
    : (Option<Outcome>, seq<(Hash, Bytes)>, Option<nat>)
  {
    var (outcome, left) := Session(a.src, overlay, budget, a.t, [], a.patience);
    if outcome.None? || outcome.value.ter != "tefBAD_LEDGER" || peers then (outcome, [], left)
    else
      var r := Recovery(a, overlay, left, outcome.value, None, MAX_ITERATIONS);
      (Some(r.final), r.fetched, r.budget)
  }

  /** What a recovery keeps to: at most so many rounds, no entry fetched twice running, and an outcome
      of the transactor on the state with what was fetched, unless it ends as it began. */
  ghost predicate InOrder(a: Trial, overlay: Overlay, last: Option<Hash>, rounds: nat, r: Repaired) {
    && |r.fetched| <= rounds
    && (forall e <- r.fetched :: a.repair(e.0) == Some(e.1))
    && (|r.fetched| > 0 ==> Some(r.fetched[0].0) != last)
    && (forall i | 0 < i < |r.fetched| :: r.fetched[i].0 != r.fetched[i - 1].0)
    && (r.final.ter != "tefBAD_LEDGER" ==>
          Some(r.final) == Run(a.t, Effective(Injected(overlay, r.fetched), a.src.base), [], a.patience))
  }

  lemma OneMoreFetched(a: Trial, overlay: Overlay, last: Option<Hash>, rounds: nat, entry: (Hash, Bytes), r: Repaired)
    requires a.repair(entry.0) == Some(entry.1) && Some(entry.0) != last
    requires InOrder(a, overlay[entry.0 := Some(entry.1)], Some(entry.0), rounds, r)
    ensures InOrder(a, overlay, last, rounds + 1, Prepended([entry], r))
  {
    hide Run, Effective, Injected;
    InjectedFirst(overlay, entry, r.fetched);
  }

  lemma {:induction false} RecoveryEnds(a: Trial, overlay: Overlay, budget: Option<nat>, outcome: Outcome, last: Option<Hash>, rounds: nat)
    requires !Consults(a.src, budget) && outcome.ter == "tefBAD_LEDGER"
    ensures var r := Recovery(a, overlay, budget, outcome, last, rounds); r.budget == budget && InOrder(a, overlay, last, rounds, r)
    decreases rounds
  {
    hide *;
    var key := a.missing(outcome.fatal);
    PrependedTwice([], [], Recovery(a, overlay, budget, outcome, last, rounds));
    RecoveryRound(a, overlay, budget, outcome, last, rounds, []);
    if rounds == 0 || key.None? || key == last || a.repair(key.value).None? {
      FetchedNone(a, overlay, last, rounds, outcome, budget);
    } else {
      var entry := (key.value, a.repair(key.value).value);
      var more := overlay[entry.0 := Some(entry.1)];
      NoConsultNoDifference(a.src, more, budget, a.t, [], a.patience);
      var retry := Session(a.src, more, budget, a.t, [], a.patience).0;
      assert [] + [entry] == [entry];
      if retry.Some? && retry.value.ter == "tefBAD_LEDGER" {
        RecoveryEnds(a, more, budget, retry.value, key, rounds - 1);
        OneMoreFetched(a, overlay, last, rounds - 1, entry, Recovery(a, more, budget, retry.value, key, rounds - 1));
      } else {
        FetchedOne(a, overlay, last, rounds, entry, if retry.Some? then retry.value else outcome, budget);
      }
      RecoveryKeepsBudget(entry, Recovery(a, more, budget, if retry.Some? then retry.value else outcome, key, rounds - 1));
    }
  }

  /** A recovery does not stop early: one that ends as it began, in tefBAD_LEDGER, has no round left, or
      the error names no new entry that somebody has, or the last attempt gave no outcome. */
  lemma {:induction false} RecoveryGoesOn(a: Trial, overlay: Overlay, budget: Option<nat>, outcome: Outcome, last: Option<Hash>, rounds: nat)
    requires !Consults(a.src, budget) && outcome.ter == "tefBAD_LEDGER"
    ensures var r := Recovery(a, overlay, budget, outcome, last, rounds);
            var n := |r.fetched|;
            var latest := if n == 0 then last else Some(r.fetched[n - 1].0);
            r.final.ter == "tefBAD_LEDGER" ==>
              || n == rounds
              || a.missing(r.final.fatal) == None || a.missing(r.final.fatal) == latest
              || a.repair(a.missing(r.final.fatal).value) == None
              || (n > 0 && Run(a.t, Effective(Injected(overlay, r.fetched), a.src.base), [], a.patience) == None)
    decreases rounds
  {
    hide *;
    var key := a.missing(outcome.fatal);
    PrependedTwice([], [], Recovery(a, overlay, budget, outcome, last, rounds));
    RecoveryRound(a, overlay, budget, outcome, last, rounds, []);
    if rounds > 0 && key.Some? && key != last && a.repair(key.value).Some? {
      var entry := (key.value, a.repair(key.value).value);
      var more := overlay[entry.0 := Some(entry.1)];
      NoConsultNoDifference(a.src, more, budget, a.t, [], a.patience);
      var retry := Session(a.src, more, budget, a.t, [], a.patience).0;
      assert [] + [entry] == [entry];
      InjectedOne(overlay, entry);
      if retry.Some? && retry.value.ter == "tefBAD_LEDGER" {
        var rest := Recovery(a, more, budget, retry.value, key, rounds - 1);
        RecoveryGoesOn(a, more, budget, retry.value, key, rounds - 1);
        InjectedFirst(overlay, entry, rest.fetched);
        PrependedIs(entry, rest);
      }
    }
  }

  lemma PrependedIs(entry: (Hash, Bytes), r: Repaired)
    ensures var p := Prepended([entry], r);
            && p.final == r.final && p.fetched == [entry] + r.fetched && |p.fetched| == |r.fetched| + 1
            && p.fetched[|r.fetched|] == if |r.fetched| == 0 then entry else r.fetched[|r.fetched| - 1]
  {
  }

  lemma RecoveryKeepsBudget(entry: (Hash, Bytes), r: Repaired)
    ensures Prepended([entry], r).budget == r.budget
  {
  }

  lemma FetchedNone(a: Trial, overlay: Overlay, last: Option<Hash>, rounds: nat, outcome: Outcome, budget: Option<nat>)
    requires outcome.ter == "tefBAD_LEDGER"
    ensures InOrder(a, overlay, last, rounds, Repaired(outcome, [], budget))
  {
    hide Run, Effective, Injected;
  }

  lemma FetchedOne(a: Trial, overlay: Overlay, last: Option<Hash>, rounds: nat, entry: (Hash, Bytes), outcome: Outcome, budget: Option<nat>)
    requires rounds > 0 && a.repair(entry.0) == Some(entry.1) && Some(entry.0) != last
    requires outcome.ter != "tefBAD_LEDGER" ==>
               Some(outcome) == Run(a.t, Effective(overlay[entry.0 := Some(entry.1)], a.src.base), [], a.patience)
    ensures InOrder(a, overlay, last, rounds, Repaired(outcome, [entry], budget))
  {
    InjectedOne(overlay, entry);
    hide Run, Effective, Injected;
  }

  lemma InjectedOne(overlay: Overlay, entry: (Hash, Bytes))
    ensures Injected(overlay, [entry]) == overlay[entry.0 := Some(entry.1)]
  {
    assert [entry][..0] == [];
  }

  lemma {:induction false} InjectedFirst(overlay: Overlay, entry: (Hash, Bytes), rest: seq<(Hash, Bytes)>)
    ensures Injected(overlay, [entry] + rest) == Injected(overlay[entry.0 := Some(entry.1)], rest)
  {
    if |rest| == 0 {
      InjectedOne(overlay, entry);
      assert [entry] + rest == [entry];
    } else {
      InjectedFirst(overlay, entry, rest[..|rest| - 1]);
      assert ([entry] + rest)[..|rest|] == [entry] + rest[..|rest| - 1];
    }
  }

  // ---- the provider ----

  /** The three-tier provider. `rpc` stands for the remote server. */
  class Provider {
    const store: Store
    const rpc: Hash -> RpcReply
    const fallbackEnabled: bool
    var overlay: Overlay
    /** Consults left this ledger; None when no budget is attached. */
    var budget: Option<nat>
    var dbHits: nat
    var fallbacks: nat
    var missLegitimate: nat
    var missShouldExist: nat
    var missRpcError: nat
    /** The mutation lists threaded so far, in order. */
    ghost var threaded: seq<seq<Mutation>>
    /** The state each transactor began on, in order. */
    ghost var begun: seq<State>

    constructor (store: Store, rpc: Hash -> RpcReply, fallbackEnabled: bool, budget: Option<nat>)
      ensures this.store == store && this.rpc == rpc && this.fallbackEnabled == fallbackEnabled
      ensures this.budget == budget && overlay == map[] && threaded == [] && begun == []
      ensures dbHits == fallbacks == missLegitimate == missShouldExist == missRpcError == 0
    {
      this.store, this.rpc, this.fallbackEnabled, this.budget := store, rpc, fallbackEnabled, budget;
      overlay, threaded, begun := map[], [], [];
      dbHits, fallbacks, missLegitimate, missShouldExist, missRpcError := 0, 0, 0, 0, 0;
    }

    ghost function View(): State
      reads this
    {
      Effective(overlay, Entries(store))
    }

    ghost function Behind(): Sources { Sources(Entries(store), rpc, fallbackEnabled) }

    predicate MayConsult()
      reads this
    {
      match budget case Some(left) => left > 0 case None => fallbackEnabled
    }

    function Consulted(): nat
      reads this
    {
      missLegitimate + missShouldExist + missRpcError
    }

    /** `read`: the effective state's entry; a miss of both tiers is answered by the server only
        while a consult is allowed, and takes one from the budget. Every miss is counted. */
    method ReadKey(key: Hash) returns (r: Option<Bytes>)
      requires Sorted(store)
      modifies this
      ensures overlay == old(overlay) && threaded == old(threaded) && begun == old(begun)
      ensures (r, budget) == ReadAnswer(Behind(), overlay, old(budget), key)
      ensures key in View() ==> r == Some(View()[key]) && budget == old(budget)
      ensures key in overlay && overlay[key].None? ==> r == None && budget == old(budget) && fallbacks == old(fallbacks)
      ensures var missed := key !in overlay && key !in Entries(store);
              && fallbacks == old(fallbacks) + (if missed then 1 else 0)
              && dbHits == old(dbHits) + (if key !in overlay && !missed then 1 else 0)
              && Consulted() == old(Consulted()) + (if missed && old(MayConsult()) then 1 else 0)
              && budget == (if missed && old(MayConsult()) && old(budget).Some? then Some(old(budget).value - 1) else old(budget))
              && (missed ==> r == if old(MayConsult()) && rpc(key).Hit? then Some(rpc(key).data) else None)
              && missShouldExist == old(missShouldExist) + (if missed && old(MayConsult()) && rpc(key).Hit? then 1 else 0)
              && missLegitimate == old(missLegitimate) + (if missed && old(MayConsult()) && rpc(key).EntryNotFound? then 1 else 0)
    {
      if key in overlay {
        return overlay[key];
      }
      var found := Get(store, key);
      if found.Some? {
        dbHits := dbHits + 1;
        return found;
      }
      fallbacks := fallbacks + 1;
      var consult := MayConsult();
      if budget.Some? && budget.value > 0 { budget := Some(budget.value - 1); }
      if !consult { return None; }
      match rpc(key) {
        case Hit(data) =>
          missShouldExist := missShouldExist + 1;
          return Some(data);
        case EntryNotFound =>
          missLegitimate := missLegitimate + 1;
          return None;
        case Exhausted =>
          missRpcError := missRpcError + 1;
          return None;
      }
    }

    /** The foreign call: the transactor asks this provider until it finishes. With no consult
        allowed its outcome is its outcome against the materialised state. */
    method Apply(t: Transactor, patience: nat) returns (r: Option<Outcome>)
      requires Sorted(store)
      modifies this
      ensures overlay == old(overlay) && threaded == old(threaded) && begun == old(begun) + [View()]
      ensures (r, budget) == Session(Behind(), overlay, old(budget), t, [], patience)
      ensures !old(MayConsult()) ==> !MayConsult() && budget == old(budget) && r == Run(t, View(), [], patience)
    {
      begun := begun + [View()];
      var answers: seq<Answer> := [];
      var left: nat := patience;
      if !MayConsult() { NoConsultNoDifference(Behind(), overlay, budget, t, [], patience); }
      hide Run, Effective, Entries, ReadAnswer, AnswerOf, IsLeast, Sorted;
      while true
        invariant left <= patience && overlay == old(overlay) && threaded == old(threaded) && begun == old(begun) + [View()]
        invariant Session(Behind(), overlay, budget, t, answers, left) == Session(Behind(), overlay, old(budget), t, [], patience)
        decreases left
      {
        match t(answers) {
          case Finish(outcome) => return outcome;
          case Ask(q) =>
            if left == 0 { return None; }
            left := left - 1;
            match q {
              case Read(key) =>
                var data := ReadKey(key);
                answers := answers + [Data(data)];
              case Next(after, last) =>
                var key := Succ(store, overlay, after, last);
                LeastAnswer(View(), after, last, key);
                answers := answers + [Key(key)];
            }
        }
      }
    }

    /** Threading one outcome's mutations, in order, into the overlay. */
    method Thread(ms: seq<Mutation>)
      modifies this`overlay, this`threaded
      ensures overlay == Threaded(old(overlay), ms) && threaded == old(threaded) + [ms]
    {
      threaded := threaded + [ms];
      for i := 0 to |ms|
        invariant overlay == Threaded(old(overlay), ms[..i]) && threaded == old(threaded) + [ms]
      {
        assert ms[..i + 1][..i] == ms[..i];
        if ms[i].kind.Deleted? {
          overlay := overlay[ms[i].key := None];
        } else {
          overlay := overlay[ms[i].key := Some(ms[i].data)];
        }
      }
      assert ms[..|ms|] == ms;
    }
  }

  lemma LeastAnswer(s: State, after: Hash, last: Option<Hash>, r: Option<Hash>)
    requires IsLeast(KeysOf(s), after, last, r)
    ensures AnswerOf(s, Next(after, last)) == Key(r)
  {
    forall q | IsLeast(KeysOf(s), after, last, q) ensures q == r { LeastUnique(KeysOf(s), after, last, q, r); }
  }

  // ---- the ledger loop ----

  function Inners(txs: seq<Tx>): set<string> {
    if |txs| == 0 then {} else txs[0].carries + Inners(txs[1..])
  }

  /** The inner ids are those some transaction carries. */
  lemma {:induction false} InnersAre(txs: seq<Tx>, id: string)
    ensures id in Inners(txs) <==> exists tx | tx in txs :: id in tx.carries
  {
    if |txs| > 0 {
      InnersAre(txs[1..], id);
      assert txs == [txs[0]] + txs[1..];
      assert forall tx :: tx in txs <==> tx == txs[0] || tx in txs[1..];
    }
  }

  lemma BadLedgerDoesNotThread()
    ensures !Threads("tefBAD_LEDGER")
  {
    assert "tefBAD_LEDGER"[..3][2] == 'f' && "tec"[2] == 'c' && "tesSUCCESS"[2] == 's';
  }

  /** The overlay with fetched entries put in, in order. */
  function Injected(overlay: Overlay, entries: seq<(Hash, Bytes)>): Overlay {
    if |entries| == 0 then overlay
    else
      var (k, data) := entries[|entries| - 1];
      Injected(overlay, entries[..|entries| - 1])[k := Some(data)]
  }

  /** What one transaction leaves: `fetched` put in, then its mutations. */
  ghost function Left(overlay: Overlay, fetched: seq<(Hash, Bytes)>, final: Option<Outcome>): Overlay {
    if final.Some? && Threads(final.value.ter) then Threaded(Injected(overlay, fetched), final.value.mutations)
    else Injected(overlay, fetched)
  }

  /** The lists a transaction threads: its mutations once if its final result is tes or tec, none otherwise. */
  function ThreadedBy(final: Option<Outcome>): seq<seq<Mutation>> {
    if final.Some? && Threads(final.value.ter) then [final.value.mutations] else []
  }

  /** One entry put in the overlay, and the transactor tried again. */
  method TryAgain(provider: Provider, t: Transactor, key: Hash, data: Bytes, patience: nat) returns (retry: Option<Outcome>)
    requires Sorted(provider.store)
    modifies provider
    ensures (retry, provider.budget)
            == Session(provider.Behind(), old(provider.overlay)[key := Some(data)], old(provider.budget), t, [], patience)
    ensures var more := old(provider.overlay)[key := Some(data)];
            provider.overlay == if retry.Some? && Threads(retry.value.ter) then Threaded(more, retry.value.mutations) else more
    ensures provider.threaded == old(provider.threaded) + ThreadedBy(retry)
  {
    hide Session, Run, Effective, Entries, Sorted, Threads;
    provider.overlay := provider.overlay[key := Some(data)];
    retry := provider.Apply(t, patience);
    if retry.Some? && Threads(retry.value.ter) { provider.Thread(retry.value.mutations); }
  }

  /** The tefBAD_LEDGER recovery: fetch the entry the transactor missed, put it in the overlay, try
      again, for at most 20 rounds and never for the same entry twice running. */
  method Recover(provider: Provider, t: Transactor, first: Outcome, repair: Hash -> Option<Bytes>,
                 missing: string -> Option<Hash>, patience: nat)
    returns (final: Outcome, ghost fetched: seq<(Hash, Bytes)>)
    requires Sorted(provider.store) && first.ter == "tefBAD_LEDGER"
    modifies provider
    ensures Repaired(final, fetched, provider.budget)
            == Recovery(Trial(provider.Behind(), t, repair, missing, patience), old(provider.overlay), old(provider.budget), first, None,
                        MAX_ITERATIONS)
    ensures provider.overlay == Left(old(provider.overlay), fetched, Some(final))
    ensures provider.threaded == old(provider.threaded) + ThreadedBy(Some(final))
  {
    final, fetched := first, [];
    var iterations, lastMissing := 0, None;
    ghost var a := Trial(provider.Behind(), t, repair, missing, patience);
    ghost var all := Recovery(a, provider.overlay, provider.budget, first, None, MAX_ITERATIONS);
    PrependedTwice([], [], all);
    BadLedgerDoesNotThread();
    NothingInjected(provider.overlay);
    hide *;
    while iterations < MAX_ITERATIONS
      invariant iterations <= MAX_ITERATIONS && final.ter == "tefBAD_LEDGER" && !Threads("tefBAD_LEDGER")
      invariant a == Trial(provider.Behind(), t, repair, missing, patience)
      invariant provider.overlay == Injected(old(provider.overlay), fetched) && provider.threaded == old(provider.threaded)
      invariant Prepended(fetched, Recovery(a, provider.overlay, provider.budget, final, lastMissing, MAX_ITERATIONS - iterations)) == all
    {
      RecoveryRound(a, provider.overlay, provider.budget, final, lastMissing, MAX_ITERATIONS - iterations, fetched);
      var key := missing(final.fatal);
      if key.None? || key == lastMissing { LeftAsIs(old(provider.overlay), fetched, final); return; }
      var data := repair(key.value);
      if data.None? { LeftAsIs(old(provider.overlay), fetched, final); return; }
      lastMissing := key;
      ghost var before := fetched;
      fetched := fetched + [(key.value, data.value)];
      InjectedLast(old(provider.overlay), before, (key.value, data.value));
      iterations := iterations + 1;
      var retry := TryAgain(provider, t, key.value, data.value, patience);
      ThreadedLists(retry);
      if retry.None? { LeftAsIs(old(provider.overlay), fetched, final); return; }
      final := retry.value;
      if final.ter != "tefBAD_LEDGER" {
        LeftThreaded(old(provider.overlay), fetched, final);
        return;
      }
    }
    RecoveryRound(a, provider.overlay, provider.budget, final, lastMissing, 0, fetched);
    LeftAsIs(old(provider.overlay), fetched, final);
  }

  /** One round of a recovery, behind what was fetched before it. */
  lemma RecoveryRound(a: Trial, overlay: Overlay, budget: Option<nat>, outcome: Outcome, last: Option<Hash>, rounds: nat,
                      fetched: seq<(Hash, Bytes)>)
    ensures var all := Prepended(fetched, Recovery(a, overlay, budget, outcome, last, rounds));
            var key := a.missing(outcome.fatal);
            if rounds == 0 || key.None? || key == last || a.repair(key.value).None? then all == Repaired(outcome, fetched, budget)
            else
              var data := a.repair(key.value).value;
              var more, longer := overlay[key.value := Some(data)], fetched + [(key.value, data)];
              var (retry, left) := Session(a.src, more, budget, a.t, [], a.patience);
              if retry.None? then all == Repaired(outcome, longer, left)
              else if retry.value.ter != "tefBAD_LEDGER" then all == Repaired(retry.value, longer, left)
              else all == Prepended(longer, Recovery(a, more, left, retry.value, key, rounds - 1))
  {
    hide Session;
    assert fetched + [] == fetched;
    var entry := Wanted(a, outcome, last);
    if rounds > 0 && entry.Some? {
      var more := overlay[entry.value.0 := Some(entry.value.1)];
      var (retry, left) := Session(a.src, more, budget, a.t, [], a.patience);
      if retry.Some? && retry.value.ter == "tefBAD_LEDGER" {
        PrependedTwice(fetched, [entry.value], Recovery(a, more, left, retry.value, Some(entry.value.0), rounds - 1));
      }
    }
  }

  lemma InjectedLast(overlay: Overlay, fetched: seq<(Hash, Bytes)>, entry: (Hash, Bytes))
    ensures Injected(overlay, fetched + [entry]) == Injected(overlay, fetched)[entry.0 := Some(entry.1)]
  {
    assert (fetched + [entry])[..|fetched|] == fetched;
  }

  lemma LeftAsIs(overlay: Overlay, fetched: seq<(Hash, Bytes)>, final: Outcome)
    requires !Threads(final.ter)
    ensures Left(overlay, fetched, Some(final)) == Injected(overlay, fetched) && ThreadedBy(Some(final)) == []
  {
  }

  lemma ThreadedLists(final: Option<Outcome>)
    ensures final.None? || !Threads(final.value.ter) ==> ThreadedBy(final) == []
  {
  }

  lemma LeftThreaded(overlay: Overlay, fetched: seq<(Hash, Bytes)>, final: Outcome)
    ensures ThreadedBy(Some(final)) == if Threads(final.ter) then [final.mutations] else []
    ensures Left(overlay, fetched, Some(final))
            == if Threads(final.ter) then Threaded(Injected(overlay, fetched), final.mutations) else Injected(overlay, fetched)
  {
  }

  /** One transaction of the loop. Its mutations reach the overlay exactly once if its final result
      is tes or tec and never otherwise; from peers nothing else reaches it. */
  method ApplyOne(provider: Provider, t: Transactor, peers: bool, repair: Hash -> Option<Bytes>,
                  missing: string -> Option<Hash>, patience: nat)
    returns (final: Option<Outcome>, ghost fetched: seq<(Hash, Bytes)>)
    requires Sorted(provider.store)
    modifies provider
    ensures (final, fetched, provider.budget)
            == Applied(Trial(provider.Behind(), t, repair, missing, patience), old(provider.overlay), old(provider.budget), peers)
    ensures provider.overlay == Left(old(provider.overlay), fetched, final)
    ensures provider.threaded == old(provider.threaded) + ThreadedBy(final)
    ensures peers ==> fetched == [] && provider.begun == old(provider.begun) + [old(provider.View())]
    ensures !old(provider.MayConsult()) ==> !provider.MayConsult() && provider.budget == old(provider.budget)
    ensures !old(provider.MayConsult()) && (peers || (final.Some? && Threads(final.value.ter))) ==>
              final == Run(t, Effective(Injected(old(provider.overlay), fetched), Entries(provider.store)), [], patience)
  {
    fetched := [];
    final := provider.Apply(t, patience);
    hide Session, Run, Effective, Entries, Sorted, Recovery;
    if final.None? { return; }
    BadLedgerDoesNotThread();
    if Threads(final.value.ter) { provider.Thread(final.value.mutations); }
    if final.value.ter == "tefBAD_LEDGER" && !peers {
      var recovered;
      if !provider.MayConsult() {
        RecoveryEnds(Trial(provider.Behind(), t, repair, missing, patience), provider.overlay, provider.budget, final.value, None, MAX_ITERATIONS);
      }
      recovered, fetched := Recover(provider, t, final.value, repair, missing, patience);
      final := Some(recovered);
    }
  }

  // ---- a ledger from peers ----

  /** The states the transactions begin on, in sequence; inner entries do not begin. */
  ghost function Befores(inner: set<string>, txs: seq<Tx>, s: State, patience: nat): seq<State> {
    if |txs| == 0 then []
    else
      var init, tx := txs[..|txs| - 1], txs[|txs| - 1];
      Befores(inner, init, s, patience) + if tx.id in inner then [] else [Sequential(inner, init, s, patience)]
  }

  /** The mutation lists applied in sequence. */
  ghost function Lists(inner: set<string>, txs: seq<Tx>, s: State, patience: nat): seq<seq<Mutation>> {
    if |txs| == 0 then []
    else
      var init, tx := txs[..|txs| - 1], txs[|txs| - 1];
      Lists(inner, init, s, patience)
      + if tx.id in inner then [] else ThreadedBy(Run(tx.code, Sequential(inner, init, s, patience), [], patience))
  }

  lemma OneMoreBegins(inner: set<string>, txs: seq<Tx>, i: nat, s: State, patience: nat)
    requires i < |txs|
    ensures var before := Sequential(inner, txs[..i], s, patience);
            && Befores(inner, txs[..i + 1], s, patience)
               == Befores(inner, txs[..i], s, patience) + (if txs[i].id in inner then [] else [before])
            && Lists(inner, txs[..i + 1], s, patience)
               == Lists(inner, txs[..i], s, patience)
                  + (if txs[i].id in inner then [] else ThreadedBy(Run(txs[i].code, before, [], patience)))
  {
    assert txs[..i + 1][..i] == txs[..i];
    hide Run, Sequential, ThreadedBy;
  }

  /** One transaction of a ledger from peers; inner entries are skipped. */
  method ApplyNext(provider: Provider, inner: set<string>, tx: Tx, repair: Hash -> Option<Bytes>, missing: string -> Option<Hash>,
                   patience: nat)
    requires Sorted(provider.store) && !provider.MayConsult()
    modifies provider
    ensures provider.budget == old(provider.budget) && !provider.MayConsult()
    ensures provider.View() == Step(inner, tx, old(provider.View()), patience)
    ensures provider.begun == old(provider.begun) + if tx.id in inner then [] else [old(provider.View())]
    ensures provider.threaded
            == old(provider.threaded) + if tx.id in inner then [] else ThreadedBy(Run(tx.code, old(provider.View()), [], patience))
    ensures var result := Run(tx.code, old(provider.View()), [], patience);
            tx.id !in inner && result.Some? ==>
              && (result.value.ter == "tesSUCCESS" || "tec" <= result.value.ter ==>
                    && provider.View() == Mutated(old(provider.View()), result.value.mutations)
                    && provider.threaded == old(provider.threaded) + [result.value.mutations])
              && ("ter" <= result.value.ter || "tef" <= result.value.ter || "tem" <= result.value.ter || "tel" <= result.value.ter ==>
                    provider.View() == old(provider.View()) && provider.threaded == old(provider.threaded))
  {
    hide *;
    StepByText(inner, tx, provider.View(), patience);
    SkippedStep(inner, tx, provider.View(), patience);
    if tx.id in inner { return; }
    ViewIs(provider);
    ghost var before := provider.overlay;
    var outcome, _ := ApplyOne(provider, tx.code, true, repair, missing, patience);
    NothingInjected(before);
    StepLeaves(inner, tx, before, Entries(provider.store), patience, outcome);
    ViewIs(provider);
  }

  /** What a transaction does, by its result's text. */
  lemma StepByText(inner: set<string>, tx: Tx, s: State, patience: nat)
    ensures var result := Run(tx.code, s, [], patience);
            tx.id !in inner && result.Some? ==>
              && (result.value.ter == "tesSUCCESS" || "tec" <= result.value.ter ==>
                    Step(inner, tx, s, patience) == Mutated(s, result.value.mutations) && ThreadedBy(result) == [result.value.mutations])
              && ("ter" <= result.value.ter || "tef" <= result.value.ter || "tem" <= result.value.ter || "tel" <= result.value.ter ==>
                    Step(inner, tx, s, patience) == s && ThreadedBy(result) == [])
  {
    var result := Run(tx.code, s, [], patience);
    if result.Some? { ThreadsByText(result.value.ter); }
    hide Run, Mutated, Threads;
  }

  lemma SkippedStep(inner: set<string>, tx: Tx, s: State, patience: nat)
    ensures tx.id in inner ==> Step(inner, tx, s, patience) == s
  {
    hide Run, Mutated;
  }

  /** The ledger loop, with no consult allowed and no recovery: each transaction begins on the state
      left by all earlier ones in sequence, its mutations are threaded once if its result is tes or tec,
      and the provider ends on the state after all of them. */
  method ApplyInOrder(provider: Provider, txs: seq<Tx>, repair: Hash -> Option<Bytes>, missing: string -> Option<Hash>, patience: nat)
    requires Sorted(provider.store) && !provider.MayConsult()
    modifies provider
    ensures provider.View() == Sequential(Inners(txs), txs, old(provider.View()), patience)
    ensures provider.begun == old(provider.begun) + Befores(Inners(txs), txs, old(provider.View()), patience)
    ensures provider.threaded == old(provider.threaded) + Lists(Inners(txs), txs, old(provider.View()), patience)
    ensures provider.budget == old(provider.budget)
  {
    hide *;
    var inner := Inners(txs);
    ghost var s, begun, threaded := provider.View(), provider.begun, provider.threaded;
    NothingApplied(inner, txs, s, patience);
    for i := 0 to |txs|
      invariant provider.budget == old(provider.budget) && !provider.MayConsult()
      invariant provider.View() == Sequential(inner, txs[..i], s, patience)
      invariant provider.begun == begun + Befores(inner, txs[..i], s, patience)
      invariant provider.threaded == threaded + Lists(inner, txs[..i], s, patience)
    {
      SequentialStep(inner, txs, i, s, patience);
      OneMoreBegins(inner, txs, i, s, patience);
      ApplyNext(provider, inner, txs[i], repair, missing, patience);
    }
    assert txs[..|txs|] == txs;
  }

  /** Ledger application with peers as the source: consult budget 0 and no recovery. The returned
      overlay over the snapshot is the state after all transactions in sequence. */
  method ApplyLedger(store: Store, txs: seq<Tx>, rpc: Hash -> RpcReply, fallbackEnabled: bool,
                     repair: Hash -> Option<Bytes>, missing: string -> Option<Hash>, patience: nat)
    returns (overlay: Overlay)
    requires Sorted(store)
    ensures Effective(overlay, Entries(store)) == Sequential(Inners(txs), txs, Entries(store), patience)
  {
    var provider := new Provider(store, rpc, fallbackEnabled, Some(0));
    hide *;
    FreshView(provider);
    ApplyInOrder(provider, txs, repair, missing, patience);
    overlay := provider.overlay;
    ViewIs(provider);
  }

  lemma FreshView(provider: Provider)
    requires provider.overlay == map[] && provider.budget == Some(0)
    ensures provider.View() == Entries(provider.store) && !provider.MayConsult()
  {
    hide Entries;
  }

  lemma ViewIs(provider: Provider)
    ensures provider.View() == Effective(provider.overlay, Entries(provider.store))
  {
  }

  lemma StepLeaves(inner: set<string>, tx: Tx, before: Overlay, base: State, patience: nat, outcome: Option<Outcome>)
    requires outcome == Run(tx.code, Effective(before, base), [], patience) && tx.id !in inner
    ensures Effective(Left(before, [], outcome), base) == Step(inner, tx, Effective(before, base), patience)
  {
    hide Run, Effective, Threads, Threaded, Mutated;
    NothingInjected(before);
    if outcome.Some? { ThreadingApplies(before, base, outcome.value.mutations); }
  }

  lemma NothingApplied(inner: set<string>, txs: seq<Tx>, s: State, patience: nat)
    ensures Sequential(inner, txs[..0], s, patience) == s
    ensures Befores(inner, txs[..0], s, patience) == [] && Lists(inner, txs[..0], s, patience) == []
  {
  }

  lemma SequentialStep(inner: set<string>, txs: seq<Tx>, i: nat, s: State, patience: nat)
    requires i < |txs|
    ensures Sequential(inner, txs[..i + 1], s, patience) == Step(inner, txs[i], Sequential(inner, txs[..i], s, patience), patience)
  {
    assert txs[..i + 1][..i] == txs[..i];
    hide Step;
  }

  lemma NothingInjected(overlay: Overlay)
    ensures Injected(overlay, []) == overlay
  {
  }

  // ---- the compared mutation set ----

  /** A Modified whose bytes are those the entry already had: rippled's metadata skips it. */
  predicate NoOp(s: State, m: Mutation) {
    m.kind.Modified? && Lookup(s, m.key) == Some(m.data)
  }

  /** `pre` holds the state's entry for each Modified key that has one, and nothing else. */
  ghost predicate Captured(ms: seq<Mutation>, s: State, pre: State) {
    && (forall k :: k in pre <==> k in s && exists m <- ms :: m.kind.Modified? && m.key == k)
    && (forall k <- pre :: k in s && pre[k] == s[k])
  }

  lemma CaptureStep(ms: seq<Mutation>, s: State, pre: State, m: Mutation)
    requires Captured(ms, s, pre)
    ensures Captured(ms + [m], s, if m.kind.Modified? && m.key in s then pre[m.key := s[m.key]] else pre)
  {
    assert forall o :: o in ms + [m] <==> o in ms || o == m;
  }

  /** One entry as the chain under the overlay has it. */
  method LookUpBelow(overlay: Overlay, store: Store, key: Hash) returns (r: Option<Bytes>)
    requires Sorted(store)
    ensures r == Lookup(Effective(overlay, Entries(store)), key)
  {
    if key in overlay { return overlay[key]; }
    hide Sorted, Entries;
    r := Get(store, key);
  }

  /** `capture_pre_state_for_modified`: the overlay slot first, and never past a tombstone. */
  method CapturePreState(ms: seq<Mutation>, overlay: Overlay, store: Store) returns (pre: State)
    requires Sorted(store)
    ensures Captured(ms, Effective(overlay, Entries(store)), pre)
  {
    pre := map[];
    ghost var s := Effective(overlay, Entries(store));
    assert Captured(ms[..0], s, pre);
    hide Entries, Sorted, Effective;
    for i := 0 to |ms|
      invariant Captured(ms[..i], s, pre)
    {
      var m := ms[i];
      CaptureStep(ms[..i], s, pre, m);
      if m.key in pre { HeldEntry(ms[..i], s, pre, m.key); }
      hide Captured;
      assert ms[..i + 1] == ms[..i] + [m];
      if !m.kind.Modified? || m.key in pre { continue; }
      var bytes := LookUpBelow(overlay, store, m.key);
      if bytes.Some? { pre := pre[m.key := bytes.value]; }
    }
    assert ms[..|ms|] == ms;
  }

  lemma HeldEntry(ms: seq<Mutation>, s: State, pre: State, key: Hash)
    requires Captured(ms, s, pre) && key in pre
    ensures key in s && pre[key := s[key]] == pre
  {
  }

  function KindByte(k: Kind): nat {
    match k case Created => 0 case Modified => 1 case Deleted => 2
  }

  /** `build_ours_mutation_set`. */
  function OursSet(ms: seq<Mutation>, pre: State): set<(string, nat)> {
    set m | m in ms && !(m.kind.Modified? && m.key in pre && pre[m.key] == m.data) :: (HexUpper(m.key), KindByte(m.kind))
  }

  /** Capture followed by the filter drops exactly the no-ops, judged on the effective state. */
  lemma ComparedSet(ms: seq<Mutation>, s: State, pre: State, m: Mutation)
    requires Captured(ms, s, pre) && m in ms
    ensures (HexUpper(m.key), KindByte(m.kind)) in OursSet(ms, pre) <==>
              exists o <- ms :: o.key == m.key && o.kind == m.kind && !NoOp(s, o)
    ensures KindByte(m.kind) == if m.kind == Created then 0 else if m.kind == Modified then 1 else 2
  {
    forall o <- ms ensures (o.kind.Modified? && o.key in pre && pre[o.key] == o.data) == NoOp(s, o) {
      if o.kind.Modified? && o.key in s { assert o.key in pre; }
    }
    forall o <- ms | HexUpper(m.key) == HexUpper(o.key) && KindByte(m.kind) == KindByte(o.kind)
      ensures m.key == o.key && m.kind == o.kind
    {
      HexInjective(m.key, o.key);
    }
  }
}
