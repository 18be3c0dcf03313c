/** The three "all" commands. Their loops stop one short of the last blinker,
    although their events announce all blinkers and a tick covers every one. The
    model keeps the bound; here it is compared with the intended one. */
module AllLoops {
  import opened Types
  import opened Machine
  import opened History

  function WithBound(cfg: Config, bound: nat): Config
    requires bound <= cfg.n
  {
    cfg.(allBound := bound)
  }

  // ----- what the commands promise -----

  /** Each "all" command keeps its promise exactly when the last blinker already met it. */
  lemma PromiseKeptIff(cfg: Config, s: State)
    requires Fits(cfg, s) && cfg.AsWritten()
    ensures (forall i | 0 <= i < cfg.n :: Act(cfg, s, ResetAll).counts[i] == 0) <==> s.counts[cfg.n - 1] == 0
    ensures (forall i | 0 <= i < cfg.n :: Act(cfg, s, EnableAll).statuses[i] != 0) <==> s.statuses[cfg.n - 1] != 0
    ensures (forall i | 0 <= i < cfg.n :: Act(cfg, s, DisableAll).statuses[i] == 0) <==> s.statuses[cfg.n - 1] == 0
  {
    assert Act(cfg, s, ResetAll).counts[cfg.n - 1] == s.counts[cfg.n - 1];
    assert Act(cfg, s, EnableAll).statuses[cfg.n - 1] == s.statuses[cfg.n - 1];
    assert Act(cfg, s, DisableAll).statuses[cfg.n - 1] == s.statuses[cfg.n - 1];
  }

  lemma RunTwo(cfg: Config, s: State, a: Action, b: Action)
    requires Fits(cfg, s) && a.InRange(cfg) && b.InRange(cfg)
    ensures Good(cfg, [a, b]) && Run(cfg, s, [a, b]) == Act(cfg, Act(cfg, s, a), b)
  {
    RunOne(cfg, s, a);
    RunSnoc(cfg, s, [a], b);
    assert [a] + [b] == [a, b];
  }

  /** From start-up, EnableAll leaves the last blinker disabled. */
  lemma EnableAllFails(cfg: Config)
    requires cfg.AsWritten()
    ensures Good(cfg, [EnableAll]) && Run(cfg, ZeroState(cfg), [EnableAll]).statuses[cfg.n - 1] == 0
  {
    RunOne(cfg, ZeroState(cfg), EnableAll);
  }

  /** Once it is enabled, DisableAll leaves it enabled. */
  lemma DisableAllFails(cfg: Config)
    requires cfg.AsWritten()
    ensures Good(cfg, [Enable(cfg.n - 1), DisableAll])
    ensures Run(cfg, ZeroState(cfg), [Enable(cfg.n - 1), DisableAll]).statuses[cfg.n - 1] == 1
  {
    RunTwo(cfg, ZeroState(cfg), Enable(cfg.n - 1), DisableAll);
  }

  /** Once it has counted a tick, ResetAll leaves its count. */
  lemma ResetAllFails(cfg: Config)
    requires cfg.AsWritten()
    ensures Good(cfg, [Enable(cfg.n - 1), Tick] + [ResetAll])
    ensures Run(cfg, ZeroState(cfg), [Enable(cfg.n - 1), Tick] + [ResetAll]).counts[cfg.n - 1] == 1
  {
    var z, last := ZeroState(cfg), cfg.n - 1;
    RunTwo(cfg, z, Enable(last), Tick);
    RunSnoc(cfg, z, [Enable(last), Tick], ResetAll);
    assert Act(cfg, z, Enable(last)).statuses[last] == 1;
  }

  /** With the intended bound they always do. */
  lemma PromiseKeptIfIntended(cfg: Config, s: State)
    requires Fits(cfg, s) && cfg.Intended()
    ensures forall i | 0 <= i < cfg.n ::
      && Act(cfg, s, ResetAll).counts[i] == 0
      && Act(cfg, s, EnableAll).statuses[i] == 1
      && Act(cfg, s, DisableAll).statuses[i] == 0
  {
  }

  // ----- whole runs under the two bounds -----

  /** The count found in slot i after t actions was never in the last slot. */
  ghost predicate AvoidsLast(cfg: Config, acts: seq<Action>, i: nat, t: nat)
    requires Good(cfg, acts) && i < cfg.n && t <= |acts|
  {
    forall k | 0 <= k <= t :: Slot(cfg, acts, i, k, t) != cfg.n - 1
  }

  lemma {:induction false} SlotIgnoresBound(cfg: Config, bound: nat, acts: seq<Action>, i: nat, k: nat, t: nat)
    requires bound <= cfg.n && Good(cfg, acts) && i < cfg.n && k <= t <= |acts|
    ensures Good(WithBound(cfg, bound), acts)
    ensures Slot(WithBound(cfg, bound), acts, i, k, t) == Slot(cfg, acts, i, k, t)
    decreases t
  {
    if k == t {
    } else {
      SlotIgnoresBound(cfg, bound, acts, Back(acts[t - 1], i), k, t - 1);
    }
  }

  /** Whether a value has been in the last slot does not depend on the bound. */
  lemma AvoidsLastIgnoresBound(cfg: Config, bound: nat, acts: seq<Action>, i: nat, t: nat)
    requires bound <= cfg.n && Good(cfg, acts) && i < cfg.n && t <= |acts|
    ensures Good(WithBound(cfg, bound), acts)
    ensures AvoidsLast(WithBound(cfg, bound), acts, i, t) <==> AvoidsLast(cfg, acts, i, t)
  {
    forall k | 0 <= k <= t
      ensures Slot(WithBound(cfg, bound), acts, i, k, t) == Slot(cfg, acts, i, k, t)
    {
      SlotIgnoresBound(cfg, bound, acts, i, k, t);
    }
  }

  /** In one action, the two machines treat alike any slot but the last. */
  lemma BoundsActAlike(cfg: Config, s: State, r: State, a: Action, i: nat)
    requires cfg.AsWritten() && Fits(cfg, s) && Fits(cfg, r) && a.InRange(cfg) && i < cfg.n - 1
    requires s.statuses[i] == r.statuses[i]
    ensures var w, f := Act(cfg, s, a), Act(WithBound(cfg, cfg.n), r, a);
      var j := Back(a, i);
      && w.statuses[i] == f.statuses[i]
      && (j < cfg.n - 1 && s.counts[j] == r.counts[j] && s.statuses[j] == r.statuses[j] ==> w.counts[i] == f.counts[i])
  {
  }

  lemma {:induction false} StatusesAgree(cfg: Config, s: State, acts: seq<Action>, i: nat, t: nat)
    requires cfg.AsWritten() && Fits(cfg, s) && Good(cfg, acts) && i < cfg.n - 1 && t <= |acts|
    ensures Good(WithBound(cfg, cfg.n), acts)
    ensures Run(cfg, s, acts[..t]).statuses[i] == Run(WithBound(cfg, cfg.n), s, acts[..t]).statuses[i]
  {
    var full := WithBound(cfg, cfg.n);
    if t == 0 {
    } else {
      StatusesAgree(cfg, s, acts, i, t - 1);
      RunPrefix(cfg, s, acts, t - 1);
      RunPrefix(full, s, acts, t - 1);
      BoundsActAlike(cfg, Run(cfg, s, acts[..t - 1]), Run(full, s, acts[..t - 1]), acts[t - 1], i);
    }
  }

  lemma AvoidsLastNow(cfg: Config, acts: seq<Action>, i: nat, t: nat)
    requires Good(cfg, acts) && i < cfg.n && t <= |acts| && AvoidsLast(cfg, acts, i, t)
    ensures i != cfg.n - 1
  {
    assert Slot(cfg, acts, i, t, t) == i;
  }

  lemma AvoidsLastStep(cfg: Config, acts: seq<Action>, i: nat, t: nat)
    requires Good(cfg, acts) && i < cfg.n && t < |acts| && AvoidsLast(cfg, acts, i, t + 1)
    ensures AvoidsLast(cfg, acts, Back(acts[t], i), t) && Back(acts[t], i) != cfg.n - 1
  {
    var j, t' := Back(acts[t], i), t + 1;
    forall k | 0 <= k <= t ensures Slot(cfg, acts, j, k, t) != cfg.n - 1 {
      assert Slot(cfg, acts, i, k, t') == Slot(cfg, acts, j, k, t);
    }
    AvoidsLastNow(cfg, acts, j, t);
  }

  /** At every moment of every run the two machines agree on all statuses but the
      last, and on every count whose value has never been in the last slot. */
  lemma {:induction false} BoundsAgree(cfg: Config, s: State, acts: seq<Action>, i: nat, t: nat)
    requires cfg.AsWritten() && Fits(cfg, s) && Good(cfg, acts) && i < cfg.n && t <= |acts|
    requires AvoidsLast(cfg, acts, i, t)
    ensures Good(WithBound(cfg, cfg.n), acts)
    ensures Run(cfg, s, acts[..t]).counts[i] == Run(WithBound(cfg, cfg.n), s, acts[..t]).counts[i]
    ensures Run(cfg, s, acts[..t]).statuses[i] == Run(WithBound(cfg, cfg.n), s, acts[..t]).statuses[i]
    decreases t
  {
    var full := WithBound(cfg, cfg.n);
    AvoidsLastNow(cfg, acts, i, t);
    if t == 0 {
    } else {
      var a := acts[t - 1];
      var j := Back(a, i);
      var t' := t - 1;
      AvoidsLastStep(cfg, acts, i, t');
      BoundsAgree(cfg, s, acts, j, t');
      StatusesAgree(cfg, s, acts, i, t');
      BoundsActAlike(cfg, Run(cfg, s, acts[..t']), Run(full, s, acts[..t']), a, i);
      RunPrefix(cfg, s, acts, t');
      RunPrefix(full, s, acts, t');
    }
  }

  /** No accepted swap moves a count into or out of the last slot. */
  ghost predicate NoSwapWithLast(cfg: Config, acts: seq<Action>) {
    forall k | 0 <= k < |acts| && acts[k].Swap? && acts[k].i != acts[k].j ::
      acts[k].i != cfg.n - 1 && acts[k].j != cfg.n - 1
  }

  lemma {:induction false} NoSwapAvoidsLast(cfg: Config, acts: seq<Action>, i: nat, k: nat, t: nat)
    requires Good(cfg, acts) && NoSwapWithLast(cfg, acts) && i < cfg.n - 1 && k <= t <= |acts|
    ensures Slot(cfg, acts, i, k, t) != cfg.n - 1
    decreases t
  {
    if k == t {
    } else {
      NoSwapAvoidsLast(cfg, acts, Back(acts[t - 1], i), k, t - 1);
    }
  }

  /** Without such swaps the machines agree at each step on every slot but the last. */
  lemma BoundsAgreeWithoutSwaps(cfg: Config, s: State, acts: seq<Action>, t: nat)
    requires cfg.AsWritten() && Fits(cfg, s) && Good(cfg, acts) && NoSwapWithLast(cfg, acts) && t <= |acts|
    ensures Good(WithBound(cfg, cfg.n), acts)
    ensures var w, f := Run(cfg, s, acts[..t]), Run(WithBound(cfg, cfg.n), s, acts[..t]);
      forall i | 0 <= i < cfg.n - 1 :: w.counts[i] == f.counts[i] && w.statuses[i] == f.statuses[i]
  {
    forall i | 0 <= i < cfg.n - 1
      ensures Run(cfg, s, acts[..t]).counts[i] == Run(WithBound(cfg, cfg.n), s, acts[..t]).counts[i]
      ensures Run(cfg, s, acts[..t]).statuses[i] == Run(WithBound(cfg, cfg.n), s, acts[..t]).statuses[i]
    {
      forall k | 0 <= k <= t ensures Slot(cfg, acts, i, k, t) != cfg.n - 1 {
        NoSwapAvoidsLast(cfg, acts, i, k, t);
      }
      BoundsAgree(cfg, s, acts, i, t);
    }
  }

  lemma RunFour(cfg: Config, s: State, a: Action, b: Action, c: Action, d: Action)
    requires Fits(cfg, s) && a.InRange(cfg) && b.InRange(cfg) && c.InRange(cfg) && d.InRange(cfg)
    ensures Good(cfg, [a, b, c, d])
    ensures Run(cfg, s, [a, b, c, d]) == Act(cfg, Act(cfg, Act(cfg, Act(cfg, s, a), b), c), d)
  {
    var ab, cd := [a, b], [c, d];
    assert ab == [a] + [b] && cd == [c] + [d] && [a, b, c, d] == ab + cd;
    var s2 := Run(cfg, s, ab);
    RunOne(cfg, s, a);
    RunSnoc(cfg, s, [a], b);
    RunOne(cfg, s2, c);
    RunSnoc(cfg, s2, [c], d);
    RunConcat(cfg, s, ab, cd);
  }

  lemma FourSteps(cfg: Config)
    requires cfg.n >= 2 && cfg.allBound >= cfg.n - 1
    ensures var last := cfg.n - 1; var acts := [Enable(last), Tick, ResetAll, Swap(0, last)];
      && Good(cfg, acts)
      && Run(cfg, ZeroState(cfg), acts).counts[0] == if cfg.Intended() then 0 else 1
  {
    var last := cfg.n - 1;
    RunFour(cfg, ZeroState(cfg), Enable(last), Tick, ResetAll, Swap(0, last));
    var s1 := Act(cfg, ZeroState(cfg), Enable(last));
    assert s1.statuses[last] == 1 && s1.counts[last] == 0;
    assert Act(cfg, s1, Tick).counts[last] == 1;
  }

  /** The swap restriction is needed: with two or more blinkers this run brings the
      difference into slot 0. */
  lemma SwapSpreadsDifference(cfg: Config)
    requires cfg.AsWritten() && cfg.n >= 2
    ensures var last := cfg.n - 1; var acts := [Enable(last), Tick, ResetAll, Swap(0, last)];
      && Good(cfg, acts)
      && Run(cfg, ZeroState(cfg), acts).counts[0] == 1
      && Run(WithBound(cfg, cfg.n), ZeroState(cfg), acts).counts[0] == 0
  {
    FourSteps(cfg);
    FourSteps(WithBound(cfg, cfg.n));
  }

  /** The action does the same under both bounds: it is no "all" command, or the last
      slot already is as the command would leave it. */
  predicate LastAlready(cfg: Config, s: State, a: Action)
    requires Fits(cfg, s)
  {
    match a
    case ResetAll => s.counts[cfg.n - 1] == 0
    case EnableAll => s.statuses[cfg.n - 1] == 1
    case DisableAll => s.statuses[cfg.n - 1] == 0
    case _ => true
  }

  lemma SameStepIff(cfg: Config, s: State, a: Action)
    requires cfg.AsWritten() && Fits(cfg, s) && a.InRange(cfg)
    ensures Act(cfg, s, a) == Act(WithBound(cfg, cfg.n), s, a) <==> LastAlready(cfg, s, a)
    ensures Emit(cfg, s, a) == Emit(WithBound(cfg, cfg.n), s, a)
  {
  }

  ghost predicate SameAfter(cfg: Config, s: State, acts: seq<Action>, t: nat)
    requires cfg.AsWritten() && Fits(cfg, s) && Good(cfg, acts) && t <= |acts|
  {
    Run(cfg, s, acts[..t]) == Run(WithBound(cfg, cfg.n), s, acts[..t])
  }

  ghost predicate AlwaysSame(cfg: Config, s: State, acts: seq<Action>, t: nat)
    requires cfg.AsWritten() && Fits(cfg, s) && Good(cfg, acts) && t <= |acts|
  {
    forall q | 0 <= q <= t :: SameAfter(cfg, s, acts, q)
  }

  ghost predicate ReadyAt(cfg: Config, s: State, acts: seq<Action>, t: nat)
    requires Fits(cfg, s) && Good(cfg, acts) && t < |acts|
  {
    LastAlready(cfg, Run(cfg, s, acts[..t]), acts[t])
  }

  ghost predicate AlwaysReady(cfg: Config, s: State, acts: seq<Action>, t: nat)
    requires Fits(cfg, s) && Good(cfg, acts) && t <= |acts|
  {
    forall q | 0 <= q < t :: ReadyAt(cfg, s, acts, q)
  }

  lemma AlwaysStep(cfg: Config, s: State, acts: seq<Action>, q: nat)
    requires cfg.AsWritten() && Fits(cfg, s) && Good(cfg, acts) && q < |acts|
    ensures AlwaysSame(cfg, s, acts, q + 1) <==> AlwaysSame(cfg, s, acts, q) && SameAfter(cfg, s, acts, q + 1)
    ensures AlwaysSame(cfg, s, acts, q) ==> SameAfter(cfg, s, acts, q)
    ensures AlwaysReady(cfg, s, acts, q + 1) <==> AlwaysReady(cfg, s, acts, q) && ReadyAt(cfg, s, acts, q)
  {
  }

  lemma LastStepIff(cfg: Config, s: State, acts: seq<Action>, t: nat)
    requires cfg.AsWritten() && Fits(cfg, s) && Good(cfg, acts) && t < |acts|
    ensures SameAfter(cfg, s, acts, t) ==> (SameAfter(cfg, s, acts, t + 1) <==> ReadyAt(cfg, s, acts, t))
    ensures var full := WithBound(cfg, cfg.n);
      SameAfter(cfg, s, acts, t) && Trace(cfg, s, acts[..t]) == Trace(full, s, acts[..t]) ==>
        Trace(cfg, s, acts[..t + 1]) == Trace(full, s, acts[..t + 1])
  {
    RunPrefix(cfg, s, acts, t);
    RunPrefix(WithBound(cfg, cfg.n), s, acts, t);
    SameStepIff(cfg, Run(cfg, s, acts[..t]), acts[t]);
  }

  /** The two machines are in the same state after each message exactly when every
      "all" command finds the last slot as it would leave it; then their outputs agree too. */
  lemma {:induction false} RunsIdenticalIff(cfg: Config, s: State, acts: seq<Action>, t: nat)
    requires cfg.AsWritten() && Fits(cfg, s) && Good(cfg, acts) && t <= |acts|
    ensures Good(WithBound(cfg, cfg.n), acts)
    ensures AlwaysSame(cfg, s, acts, t) <==> AlwaysReady(cfg, s, acts, t)
    ensures AlwaysSame(cfg, s, acts, t) ==>
      Trace(cfg, s, acts[..t]) == Trace(WithBound(cfg, cfg.n), s, acts[..t])
  {
    if t == 0 {
      assert SameAfter(cfg, s, acts, 0);
    } else {
      var q := t - 1;
      RunsIdenticalIff(cfg, s, acts, q);
      LastStepIff(cfg, s, acts, q);
      AlwaysStep(cfg, s, acts, q);
    }
  }

  // ----- decomposition into specific commands -----

  datatype Kind = ResetKind | EnableKind | DisableKind

  function AllOf(kind: Kind): Action {
    match kind
    case ResetKind => ResetAll
    case EnableKind => EnableAll
    case DisableKind => DisableAll
  }

  function SpecificOf(kind: Kind, i: uint16): Action {
    match kind
    case ResetKind => Reset(i)
    case EnableKind => Enable(i)
    case DisableKind => Disable(i)
  }

  /** The matching specific command for each index of `order` in turn. */
  function Specifics(kind: Kind, order: seq<uint16>): (acts: seq<Action>)
    ensures |acts| == |order| && forall k | 0 <= k < |order| :: acts[k] == SpecificOf(kind, order[k])
  {
    seq(|order|, k requires 0 <= k < |order| => SpecificOf(kind, order[k]))
  }

  function Cover<T>(xs: seq<T>, order: seq<uint16>, v: T): (r: seq<T>)
    ensures |r| == |xs| && forall k | 0 <= k < |xs| :: r[k] == if k in order then v else xs[k]
  {
    seq(|xs|, k requires 0 <= k < |xs| => if k in order then v else xs[k])
  }

  /** s, with the effect of the command on exactly the slots in `done`. */
  function Covered(cfg: Config, s: State, kind: Kind, order: seq<uint16>): (r: State)
    requires Fits(cfg, s)
    ensures Fits(cfg, r)
  {
    match kind
    case ResetKind => s.(counts := Cover(s.counts, order, 0))
    case EnableKind => s.(statuses := Cover(s.statuses, order, 1))
    case DisableKind => s.(statuses := Cover(s.statuses, order, 0))
  }

  lemma CoverSnoc<T>(xs: seq<T>, order: seq<uint16>, i: uint16, v: T)
    requires i < |xs|
    ensures Cover(xs, order + [i], v) == Cover(xs, order, v)[i := v]
  {
  }

  lemma CoveredSnoc(cfg: Config, s: State, kind: Kind, order: seq<uint16>, i: uint16)
    requires Fits(cfg, s) && i < cfg.n
    ensures Act(cfg, Covered(cfg, s, kind, order), SpecificOf(kind, i)) == Covered(cfg, s, kind, order + [i])
  {
    CoverSnoc(s.counts, order, i, 0);
    CoverSnoc(s.statuses, order, i, 0);
    CoverSnoc(s.statuses, order, i, 1);
  }

  lemma {:induction false} SpecificsCover(cfg: Config, s: State, kind: Kind, order: seq<uint16>)
    requires Fits(cfg, s) && forall k | 0 <= k < |order| :: order[k] < cfg.n
    ensures Good(cfg, Specifics(kind, order))
    ensures Run(cfg, s, Specifics(kind, order)) == Covered(cfg, s, kind, order)
  {
    if order == [] {
      assert Cover(s.counts, [], 0) == s.counts && Cover(s.statuses, [], 0) == s.statuses
          && Cover(s.statuses, [], 1) == s.statuses;
    } else {
      var before, i := order[..|order| - 1], order[|order| - 1];
      assert order == before + [i];
      SpecificsCover(cfg, s, kind, before);
      assert Specifics(kind, order) == Specifics(kind, before) + [SpecificOf(kind, i)];
      RunSnoc(cfg, s, Specifics(kind, before), SpecificOf(kind, i));
      CoveredSnoc(cfg, s, kind, before, i);
    }
  }

  ghost predicate SameEffect(cfg: Config, s: State, acts: seq<Action>, a: Action)
    requires Good(cfg, acts) && a.InRange(cfg)
  {
    Fits(cfg, s) ==> Run(cfg, s, acts) == Act(cfg, s, a)
  }

  ghost predicate CoversRange(cfg: Config, order: seq<uint16>) {
    forall i: uint16 | i < cfg.n :: i in order <==> i < cfg.allBound
  }

  lemma CoveredIsAll(cfg: Config, s: State, kind: Kind, order: seq<uint16>)
    requires Fits(cfg, s) && CoversRange(cfg, order)
    ensures Covered(cfg, s, kind, order) == Act(cfg, s, AllOf(kind))
  {
  }

  lemma CoveredIsNotAll(cfg: Config, kind: Kind, order: seq<uint16>) returns (s: State)
    requires !CoversRange(cfg, order)
    ensures Fits(cfg, s) && Covered(cfg, s, kind, order) != Act(cfg, s, AllOf(kind))
  {
    var i: uint16 :| i < cfg.n && !(i in order <==> i < cfg.allBound);
    var z := ZeroState(cfg);
    var ones: seq<uint8> := seq(cfg.n, _ => 1);
    s := z.(counts := seq(cfg.n, _ => 1), statuses := if kind == EnableKind then z.statuses else ones);
    var x, y := Covered(cfg, s, kind, order), Act(cfg, s, AllOf(kind));
    assert x.counts[i] != y.counts[i] || x.statuses[i] != y.statuses[i];
  }

  /** A run of specific commands is the "all" command, from every state, exactly when
      it covers the loop's range and nothing else; order and repetition are free. */
  lemma AllIsSpecifics(cfg: Config, kind: Kind, order: seq<uint16>)
    requires forall k | 0 <= k < |order| :: order[k] < cfg.n
    ensures Good(cfg, Specifics(kind, order))
    ensures (forall s :: SameEffect(cfg, s, Specifics(kind, order), AllOf(kind))) <==> CoversRange(cfg, order)
  {
    SpecificsCover(cfg, ZeroState(cfg), kind, order);
    if CoversRange(cfg, order) {
      forall s | Fits(cfg, s) ensures SameEffect(cfg, s, Specifics(kind, order), AllOf(kind)) {
        SpecificsCover(cfg, s, kind, order);
        CoveredIsAll(cfg, s, kind, order);
      }
    } else {
      var s := CoveredIsNotAll(cfg, kind, order);
      SpecificsCover(cfg, s, kind, order);
      assert !SameEffect(cfg, s, Specifics(kind, order), AllOf(kind));
    }
  }
}
