// Running a Batch transaction's inners on nested views (ffi/xrpl_shim.cpp).
module BatchModes {
  import opened Bytes
  import opened StateView

  const ALL_OR_NOTHING: bv32 := 0x0001_0000
  const ONLY_ONE: bv32 := 0x0002_0000
  const UNTIL_FAILURE: bv32 := 0x0004_0000

  predicate Has(mode: bv32, flag: bv32) { mode & flag != 0 }

  /** What xrpl::apply returns for one transaction on one view: the code, whether it was applied,
      and the writes it made. */
  datatype Applied = Applied(ter: int, applied: bool, writes: Overlay)

  /** An uninterpreted transaction engine. */
  type Engine<!Inner> = (Inner, State) -> Applied

  predicate IsTes(ter: int) { ter == 0 }

  predicate IsTec(ter: int) { 100 <= ter < 256 }

  /** Whether an inner's writes are folded into the batch's view. */
  predicate Kept(r: Applied) { r.applied && (IsTes(r.ter) || IsTec(r.ter)) }

  /** The mode flags are three bits of their own, from bit 16 on. */
  lemma FlagBits()
    ensures ALL_OR_NOTHING == 1 << 16 && ONLY_ONE == 1 << 17 && UNTIL_FAILURE == 1 << 18
  {
  }

  /** By code: what is applied is kept on tesSUCCESS (0) and on a claimed tec (100 to 255), and on no other result. */
  lemma KeptByCode(r: Applied)
    ensures Kept(r) <==> r.applied && (r.ter == 0 || 100 <= r.ter <= 255)
    ensures IsTes(r.ter) <==> r.ter == 0
  {
  }

  // ---- the reference: inners in order, each on what the kept ones before it left ----

  ghost function Fold<Inner>(apply: Engine<Inner>, inners: seq<Inner>, s: State): State {
    if |inners| == 0 then s
    else
      var before := Fold(apply, inners[..|inners| - 1], s);
      var r := apply(inners[|inners| - 1], before);
      if Kept(r) then Effective(r.writes, before) else before
  }

  /** The i-th inner's result when it is reached. */
  ghost function ResultAt<Inner>(apply: Engine<Inner>, inners: seq<Inner>, s: State, i: nat): Applied
    requires i < |inners|
  {
    apply(inners[i], Fold(apply, inners[..i], s))
  }

  ghost predicate SucceedsAt<Inner>(apply: Engine<Inner>, inners: seq<Inner>, s: State, i: nat)
    requires i < |inners|
  {
    IsTes(ResultAt(apply, inners, s, i).ter)
  }

  ghost predicate KeptAt<Inner>(apply: Engine<Inner>, inners: seq<Inner>, s: State, i: nat)
    requires i < |inners|
  {
    Kept(ResultAt(apply, inners, s, i))
  }

  /** Whether the loop ends with the i-th inner. */
  ghost predicate StopsAt<Inner>(apply: Engine<Inner>, inners: seq<Inner>, mode: bv32, s: State, i: nat)
    requires i < |inners|
  {
    if SucceedsAt(apply, inners, s, i) then Has(mode, ONLY_ONE)
    else Has(mode, ALL_OR_NOTHING) || Has(mode, UNTIL_FAILURE)
  }

  // ---- the views ----

  /** Writes over the state of the view below, which stands still while this view is open. */
  class OpenView {
    const below: State
    var writes: Overlay

    constructor (below: State)
      ensures this.below == below && writes == map[]
    {
      this.below := below;
      writes := map[];
    }

    function Visible(): State
      reads this
    {
      Effective(writes, below)
    }

    /** Folding this view into the one it stands on makes its state that view's state. */
    method FoldInto(parent: OpenView)
      requires parent != this && below == parent.Visible()
      modifies parent`writes
      ensures parent.Visible() == Visible()
    {
      MergedWrites(parent.writes, writes, parent.below);
      parent.writes := parent.writes + writes;
    }
  }

  lemma MergedWrites(lower: Overlay, upper: Overlay, base: State)
    ensures Effective(lower + upper, base) == Effective(upper, Effective(lower, base))
  {
    var a, b := Effective(lower + upper, base), Effective(upper, Effective(lower, base));
    assert forall k: Hash :: k in a <==> k in b;
    assert forall k: Hash | k in a :: a[k] == b[k];
  }

  /** One inner on a view of its own, folded into the batch's view if it is kept. */
  method RunInner<Inner>(apply: Engine<Inner>, view: OpenView, inner: Inner) returns (r: Applied)
    modifies view`writes
    ensures r == apply(inner, old(view.Visible()))
    ensures view.Visible() == if Kept(r) then Effective(r.writes, old(view.Visible())) else old(view.Visible())
  {
    var perTx := new OpenView(view.Visible());
    assert perTx.Visible() == perTx.below;
    r := apply(inner, perTx.Visible());
    perTx.writes := r.writes;
    if r.applied && (IsTes(r.ter) || IsTec(r.ter)) { perTx.FoldInto(view); }
  }

  /** The state of the loop after n inners. */
  ghost predicate Reached<Inner>(apply: Engine<Inner>, inners: seq<Inner>, mode: bv32, s: State, n: nat) {
    && n <= |inners|
    && (forall i | 0 <= i < n - 1 :: !StopsAt(apply, inners, mode, s, i))
  }

  ghost predicate AnyKept<Inner>(apply: Engine<Inner>, inners: seq<Inner>, s: State, n: nat)
    requires n <= |inners|
  {
    exists i :: 0 <= i < n && KeptAt(apply, inners, s, i)
  }

  ghost predicate AllSucceed<Inner>(apply: Engine<Inner>, inners: seq<Inner>, s: State, n: nat)
    requires n <= |inners|
  {
    forall i | 0 <= i < n :: SucceedsAt(apply, inners, s, i)
  }

  /** `apply_batch_inners`: `ran` inners are reached; the view is left holding their fold, and the
      answer is whether it should be kept. */
  method ApplyInners<Inner>(apply: Engine<Inner>, view: OpenView, inners: seq<Inner>, mode: bv32)
    returns (keep: bool, ghost ran: nat)
    modifies view`writes
    ensures Reached(apply, inners, mode, old(view.Visible()), ran)
    ensures ran < |inners| ==> ran > 0 && StopsAt(apply, inners, mode, old(view.Visible()), ran - 1)
    ensures view.Visible() == Fold(apply, inners[..ran], old(view.Visible()))
    ensures keep <==>
              && AnyKept(apply, inners, old(view.Visible()), ran)
              && (Has(mode, ALL_OR_NOTHING) ==> AllSucceed(apply, inners, old(view.Visible()), ran))
  {
    ghost var s := view.Visible();
    var applied := 0;
    ran := 0;
    for n := 0 to |inners|
      invariant ran == n && view.Visible() == Fold(apply, inners[..n], s)
      invariant applied > 0 <==> AnyKept(apply, inners, s, n)
      invariant forall i | 0 <= i < n :: !StopsAt(apply, inners, mode, s, i)
      invariant Has(mode, ALL_OR_NOTHING) ==> AllSucceed(apply, inners, s, n)
    {
      assert inners[..n + 1][..n] == inners[..n];
      ran := n + 1;
      var r := RunInner(apply, view, inners[n]);
      assert r == ResultAt(apply, inners, s, n);
      assert AnyKept(apply, inners, s, n + 1) <==> AnyKept(apply, inners, s, n) || KeptAt(apply, inners, s, n);
      if r.applied && (IsTes(r.ter) || IsTec(r.ter)) { applied := applied + 1; }
      if !IsTes(r.ter) {
        assert !SucceedsAt(apply, inners, s, n);
        if Has(mode, ALL_OR_NOTHING) { keep := false; return; }
        if Has(mode, UNTIL_FAILURE) { keep := applied != 0; return; }
      } else if Has(mode, ONLY_ONE) {
        keep := applied != 0;
        return;
      }
    }
    keep := applied != 0;
  }

  /** `apply_batch_if_needed`, for an outer that was applied with success: what the ledger's view
      holds afterwards. */
  method ApplyBatch<Inner>(apply: Engine<Inner>, view: OpenView, inners: seq<Inner>, mode: bv32)
    returns (ghost ran: nat)
    modifies view`writes
    ensures Outcome(apply, inners, mode, old(view.Visible()), view.Visible(), ran)
  {
    ghost var s := view.Visible();
    var whole := new OpenView(view.Visible());
    assert whole.Visible() == s;
    var keep;
    keep, ran := ApplyInners(apply, whole, inners, mode);
    if keep {
      whole.FoldInto(view);
    } else if !AnyKept(apply, inners, s, ran) {
      NothingKept(apply, inners, s, ran);
    }
  }

  /** The states and the number of inners reached that a batch can end with. */
  ghost predicate Outcome<Inner>(apply: Engine<Inner>, inners: seq<Inner>, mode: bv32, s: State, t: State, ran: nat) {
    && Reached(apply, inners, mode, s, ran)
    && (ran < |inners| ==> ran > 0 && StopsAt(apply, inners, mode, s, ran - 1))
    && t == if Has(mode, ALL_OR_NOTHING) && !AllSucceed(apply, inners, s, ran) then s
            else Fold(apply, inners[..ran], s)
  }

  lemma {:induction false} NothingKept<Inner>(apply: Engine<Inner>, inners: seq<Inner>, s: State, ran: nat)
    requires ran <= |inners| && forall i | 0 <= i < ran :: !KeptAt(apply, inners, s, i)
    ensures Fold(apply, inners[..ran], s) == s
  {
    if ran > 0 {
      NothingKept(apply, inners, s, ran - 1);
      assert inners[..ran][..ran - 1] == inners[..ran - 1];
      assert !KeptAt(apply, inners, s, ran - 1);
    }
  }

  // ---- the four modes ----

  ghost predicate AppliedAt<Inner>(apply: Engine<Inner>, inners: seq<Inner>, s: State, i: nat)
    requires i < |inners|
  {
    ResultAt(apply, inners, s, i).applied
  }

  /** The inners whose writes the ledger's view ends up with. */
  ghost function Committed<Inner>(apply: Engine<Inner>, inners: seq<Inner>, mode: bv32, s: State, ran: nat): set<nat>
    requires ran <= |inners|
  {
    if Has(mode, ALL_OR_NOTHING) && !AllSucceed(apply, inners, s, ran) then {}
    else set i: nat | i < ran && KeptAt(apply, inners, s, i)
  }

  /** The first n indexes and no others. */
  ghost predicate IsAll(c: set<nat>, n: nat) { forall i: nat :: i in c <==> i < n }

  /** The view holds the writes of the committed inners, in order, and no others. */
  lemma CommittedIsHeld<Inner>(apply: Engine<Inner>, inners: seq<Inner>, mode: bv32, s: State, t: State, ran: nat)
    requires Outcome(apply, inners, mode, s, t, ran)
    ensures Committed(apply, inners, mode, s, ran) == {} ==> t == s
    ensures Committed(apply, inners, mode, s, ran) != {} ==> t == Fold(apply, inners[..ran], s)
  {
    if Committed(apply, inners, mode, s, ran) == {} && !(Has(mode, ALL_OR_NOTHING) && !AllSucceed(apply, inners, s, ran)) {
      forall i: nat | i < ran ensures !KeptAt(apply, inners, s, i) {
        assert i !in Committed(apply, inners, mode, s, ran);
      }
      NothingKept(apply, inners, s, ran);
    }
  }

  /** All-or-nothing: the view is as the outer left it unless every inner succeeded, and then it
      holds the fold of those the engine applied. */
  lemma AllOrNothing<Inner>(apply: Engine<Inner>, inners: seq<Inner>, mode: bv32, s: State, t: State, ran: nat)
    requires Outcome(apply, inners, mode, s, t, ran)
    requires Has(mode, ALL_OR_NOTHING) && !Has(mode, ONLY_ONE)
    ensures if AllSucceed(apply, inners, s, |inners|) then ran == |inners| && t == Fold(apply, inners, s) else t == s
    ensures AllSucceed(apply, inners, s, |inners|) <==> AllSucceed(apply, inners, s, ran)
  {
    if AllSucceed(apply, inners, s, |inners|) {
      assert inners[..ran] == inners;
    } else {
      var i :| 0 <= i < |inners| && !SucceedsAt(apply, inners, s, i);
      if ran <= i { assert StopsAt(apply, inners, mode, s, ran - 1); }
    }
  }

  /** When all-or-nothing is: all inners are committed or none is if and only if, in a batch in which
      every inner succeeds, the engine applies all of them or none. */
  lemma AtomicExactly<Inner>(apply: Engine<Inner>, inners: seq<Inner>, mode: bv32, s: State, t: State, ran: nat)
    requires Outcome(apply, inners, mode, s, t, ran)
    requires Has(mode, ALL_OR_NOTHING) && !Has(mode, ONLY_ONE)
    ensures Committed(apply, inners, mode, s, ran) == {} || IsAll(Committed(apply, inners, mode, s, ran), |inners|)
            <==> (AllSucceed(apply, inners, s, |inners|) ==>
                    || (forall i | 0 <= i < |inners| :: AppliedAt(apply, inners, s, i))
                    || (forall i | 0 <= i < |inners| :: !AppliedAt(apply, inners, s, i)))
  {
    AllOrNothing(apply, inners, mode, s, t, ran);
    if AllSucceed(apply, inners, s, |inners|) {
      var c := Committed(apply, inners, mode, s, ran);
      forall i: nat | i < |inners| ensures i in c <==> AppliedAt(apply, inners, s, i) {
        assert SucceedsAt(apply, inners, s, i);
      }
    }
  }

  /** With an engine that applies what it calls a success, a batch of successes is held in full and
      any other leaves the view as it was. */
  lemma AllWhenSuccessIsApplied<Inner>(apply: Engine<Inner>, inners: seq<Inner>, mode: bv32, s: State, t: State, ran: nat)
    requires Outcome(apply, inners, mode, s, t, ran)
    requires Has(mode, ALL_OR_NOTHING) && !Has(mode, ONLY_ONE)
    requires forall i | 0 <= i < |inners| :: SucceedsAt(apply, inners, s, i) ==> AppliedAt(apply, inners, s, i)
    ensures var c := Committed(apply, inners, mode, s, ran);
            if AllSucceed(apply, inners, s, |inners|) then IsAll(c, |inners|) else c == {}
    ensures t == if AllSucceed(apply, inners, s, |inners|) then Fold(apply, inners, s) else s
  {
    AllOrNothing(apply, inners, mode, s, t, ran);
    if AllSucceed(apply, inners, s, |inners|) {
      forall i: nat | i < |inners| ensures KeptAt(apply, inners, s, i) {
        assert SucceedsAt(apply, inners, s, i);
      }
    }
  }

  /** Only-one: the inners reached before the last are all failures, so at most one success is
      kept, and nothing runs after it. */
  lemma OnlyOne<Inner>(apply: Engine<Inner>, inners: seq<Inner>, mode: bv32, s: State, t: State, ran: nat)
    requires Outcome(apply, inners, mode, s, t, ran)
    requires Has(mode, ONLY_ONE) && !Has(mode, ALL_OR_NOTHING) && !Has(mode, UNTIL_FAILURE)
    ensures t == Fold(apply, inners[..ran], s)
    ensures forall i | 0 <= i < ran - 1 :: !SucceedsAt(apply, inners, s, i)
    ensures ran < |inners| ==> SucceedsAt(apply, inners, s, ran - 1)
  {
    forall i | 0 <= i < ran - 1 ensures !SucceedsAt(apply, inners, s, i) {
      assert !StopsAt(apply, inners, mode, s, i);
    }
  }

  /** Until-failure: a prefix runs in which only the last inner may fail, and the run ends early
      only on a failure. */
  lemma UntilFailure<Inner>(apply: Engine<Inner>, inners: seq<Inner>, mode: bv32, s: State, t: State, ran: nat)
    requires Outcome(apply, inners, mode, s, t, ran)
    requires Has(mode, UNTIL_FAILURE) && !Has(mode, ALL_OR_NOTHING) && !Has(mode, ONLY_ONE)
    ensures t == Fold(apply, inners[..ran], s)
    ensures forall i | 0 <= i < ran - 1 :: SucceedsAt(apply, inners, s, i)
    ensures ran < |inners| ==> !SucceedsAt(apply, inners, s, ran - 1)
  {
    forall i | 0 <= i < ran - 1 ensures SucceedsAt(apply, inners, s, i) {
      assert !StopsAt(apply, inners, mode, s, i);
    }
  }

  /** Independent: every inner runs, and the view holds the fold of those kept. */
  lemma Independent<Inner>(apply: Engine<Inner>, inners: seq<Inner>, mode: bv32, s: State, t: State, ran: nat)
    requires Outcome(apply, inners, mode, s, t, ran)
    requires !Has(mode, ALL_OR_NOTHING) && !Has(mode, ONLY_ONE) && !Has(mode, UNTIL_FAILURE)
    ensures t == Fold(apply, inners, s)
  {
    assert inners[..|inners|] == inners;
  }

  /** An engine that calls both its inners a success and applies one of them. */
  function HalfApplied(k: Hash): Engine<bool> {
    (inner: bool, s: State) => if inner then Applied(0, true, map[k := Some([1])]) else Applied(0, false, map[])
  }

  /** "All" holds only of an engine that applies what it calls a success: this one ends an
      all-or-nothing batch of two successes with one of them committed. */
  lemma AllOrNothingNeedsApplied(k: Hash) returns (t: State, ran: nat)
    ensures Outcome(HalfApplied(k), [true, false], ALL_OR_NOTHING, map[], t, ran) && ran == 2 && t == map[k := [1]]
    ensures AllSucceed(HalfApplied(k), [true, false], map[], 2)
    ensures Committed(HalfApplied(k), [true, false], ALL_OR_NOTHING, map[], ran) == {0}
  {
    var apply, inners, s: State := HalfApplied(k), [true, false], map[];
    t, ran := map[k := [1]], 2;
    assert inners[..2] == inners && inners[..1] == [true] && inners[..1][..0] == [] && inners[..0] == [];
    assert Fold(apply, inners[..0], s) == s;
    assert Fold(apply, inners[..1], s) == Effective(map[k := Some([1])], s) == t;
    assert ResultAt(apply, inners, s, 0) == apply(true, s) && ResultAt(apply, inners, s, 1) == apply(false, t);
    assert Fold(apply, inners[..2], s) == t;
    assert !Has(ALL_OR_NOTHING, ONLY_ONE);
    assert KeptAt(apply, inners, s, 0) && !KeptAt(apply, inners, s, 1);
  }
}
