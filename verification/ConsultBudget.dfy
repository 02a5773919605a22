// The compare-and-swap loop by which concurrent misses share one consult budget
// (OverlayedDbProvider::read, crates/xrpl-node/src/ffi_engine.rs), as a state machine.
module ConsultBudget {
  import opened Numbers


  /** Where one miss stands: not started, holding the budget it last read, or finished. */
  datatype Pc = Idle | Loaded(current: nat) | Granted | Denied

  datatype Sys = Sys(budget: nat, misses: seq<Pc>)

  function Initial(budget: nat, n: nat): Sys { Sys(budget, seq(n, _ => Idle)) }

  datatype Action =
    | Load           // read the budget
    | GiveUp         // the value read was zero
    | SwapSucceeds   // the budget still is the value read
    | SwapFails      // it is not, or the weak exchange failed for no reason: the value is read again

  ghost predicate Step(s: Sys, t: Sys, i: nat, a: Action) {
    && i < |s.misses|
    && match a
       case Load => s.misses[i].Idle? && t == s.(misses := s.misses[i := Loaded(s.budget)])
       case GiveUp => s.misses[i] == Loaded(0) && t == s.(misses := s.misses[i := Denied])
       case SwapSucceeds =>
         && s.misses[i].Loaded? && s.misses[i].current > 0 && s.budget == s.misses[i].current
         && t == Sys(s.budget - 1, s.misses[i := Granted])
       case SwapFails =>
         && s.misses[i].Loaded? && s.misses[i].current > 0
         && t == s.(misses := s.misses[i := Loaded(s.budget)])
  }

  ghost predicate Next(s: Sys, t: Sys) { exists i, a :: Step(s, t, i, a) }

  ghost predicate IsRun(run: seq<Sys>, budget: nat, n: nat) {
    && |run| > 0 && run[0] == Initial(budget, n)
    && forall k | 0 <= k < |run| - 1 :: Next(run[k], run[k + 1])
  }

  function Count(ps: seq<Pc>, p: Pc): nat { multiset(ps)[p] }

  ghost predicate Invariant(s: Sys, budget: nat, n: nat) {
    && |s.misses| == n
    && Count(s.misses, Granted) + s.budget == budget
    && (forall p <- s.misses :: p.Loaded? ==> p.current >= s.budget)
    && (forall p <- s.misses :: p.Denied? ==> s.budget == 0)
  }

  lemma StepKeeps(s: Sys, t: Sys, i: nat, a: Action, budget: nat, n: nat)
    requires Invariant(s, budget, n) && Step(s, t, i, a)
    ensures Invariant(t, budget, n)
  {
    var p := t.misses[i];
    assert t.misses == s.misses[i := p];
    assert s.misses[i] in s.misses;
    assert multiset(t.misses) == multiset(s.misses) - multiset{s.misses[i]} + multiset{p};
    forall q <- t.misses ensures q == p || q in s.misses {
      var j :| 0 <= j < |t.misses| && t.misses[j] == q;
    }
  }

  lemma {:induction false} RunKeeps(run: seq<Sys>, budget: nat, n: nat)
    requires IsRun(run, budget, n)
    ensures Invariant(run[|run| - 1], budget, n)
  {
    if |run| == 1 {
      assert forall p <- run[0].misses :: p == Idle;
      assert Granted !in run[0].misses;
    } else {
      var front := run[..|run| - 1];
      RunKeeps(front, budget, n);
      var s, t := run[|run| - 2], run[|run| - 1];
      assert Next(s, t);
      var i, a :| Step(s, t, i, a);
      StepKeeps(s, t, i, a, budget, n);
    }
  }

  /** Under every interleaving: what was granted is what left the budget, and of the misses that
      have finished exactly min(finished, budget) were granted. */
  lemma GrantsAreExact(run: seq<Sys>, budget: nat, n: nat)
    requires IsRun(run, budget, n)
    ensures var s := run[|run| - 1];
            var granted, denied := Count(s.misses, Granted), Count(s.misses, Denied);
            granted == budget - s.budget && granted == Min(granted + denied, budget)
  {
    RunKeeps(run, budget, n);
    var s := run[|run| - 1];
    if Count(s.misses, Denied) > 0 { assert Denied in s.misses; }
  }
}
