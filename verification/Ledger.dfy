/** Bookkeeping over whole runs: where the sum of the counts comes from, and how
    many events a run of the dispatcher sends. */
module Ledger {
  import opened Types
  import opened Machine

  // ----- sums over slots 0..k -----

  function SumTo(counts: seq<uint16>, k: nat): nat
    requires k <= |counts|
  {
    if k == 0 then 0 else SumTo(counts, k - 1) + counts[k - 1]
  }

  function EnabledTo(statuses: seq<uint8>, k: nat): nat
    requires k <= |statuses|
  {
    if k == 0 then 0 else EnabledTo(statuses, k - 1) + if statuses[k - 1] != 0 then 1 else 0
  }

  /** Enabled slots whose count is about to wrap. */
  function FullTo(counts: seq<uint16>, statuses: seq<uint8>, k: nat): nat
    requires k <= |counts| == |statuses|
  {
    if k == 0 then 0
    else FullTo(counts, statuses, k - 1) + if statuses[k - 1] != 0 && counts[k - 1] == 0xFFFF then 1 else 0
  }

  lemma {:induction false} SumTicked(counts: seq<uint16>, statuses: seq<uint8>, k: nat)
    requires k <= |counts| == |statuses|
    ensures SumTo(Ticked(counts, statuses), k)
         == SumTo(counts, k) + EnabledTo(statuses, k) - 0x1_0000 * FullTo(counts, statuses, k)
  {
    if k == 0 {
    } else {
      SumTicked(counts, statuses, k - 1);
    }
  }

  lemma {:induction false} SumUpdated(counts: seq<uint16>, i: nat, v: uint16, k: nat)
    requires i < |counts| && k <= |counts|
    ensures SumTo(counts[i := v], k) == SumTo(counts, k) + if i < k then v - counts[i] else 0
  {
    if k == 0 {
    } else {
      SumUpdated(counts, i, v, k - 1);
    }
  }

  lemma SumExchanged(counts: seq<uint16>, i: nat, j: nat)
    requires i < |counts| && j < |counts|
    ensures SumTo(Exchanged(counts, i, j), |counts|) == SumTo(counts, |counts|)
  {
    var half := counts[i := counts[j]];
    SumUpdated(counts, i, counts[j], |counts|);
    SumUpdated(half, j, counts[i], |counts|);
    assert Exchanged(counts, i, j) == half[j := counts[i]];
  }

  lemma {:induction false} SumFilled(counts: seq<uint16>, bound: nat, k: nat)
    requires bound <= |counts| && k <= |counts|
    ensures SumTo(Filled(counts, bound, 0), k) == SumTo(counts, k) - SumTo(counts, if bound < k then bound else k)
  {
    if k == 0 {
    } else {
      SumFilled(counts, bound, k - 1);
    }
  }

  // ----- conservation -----

  function Gained(cfg: Config, s: State, a: Action): nat
    requires Fits(cfg, s)
  {
    if a.Tick? then EnabledTo(s.statuses, cfg.n) else 0
  }

  function Wrapped(cfg: Config, s: State, a: Action): nat
    requires Fits(cfg, s)
  {
    if a.Tick? then FullTo(s.counts, s.statuses, cfg.n) else 0
  }

  function Cleared(cfg: Config, s: State, a: Action): nat
    requires Fits(cfg, s) && a.InRange(cfg)
  {
    match a
    case Reset(i) => s.counts[i]
    case ResetAll => SumTo(s.counts, cfg.allBound)
    case _ => 0
  }

  lemma ConservedByStep(cfg: Config, s: State, a: Action)
    requires Fits(cfg, s) && a.InRange(cfg)
    ensures SumTo(Act(cfg, s, a).counts, cfg.n)
         == SumTo(s.counts, cfg.n) + Gained(cfg, s, a) - Cleared(cfg, s, a) - 0x1_0000 * Wrapped(cfg, s, a)
  {
    match a
    case Tick => SumTicked(s.counts, s.statuses, cfg.n);
    case Reset(i) => SumUpdated(s.counts, i, 0, cfg.n);
    case ResetAll => SumFilled(s.counts, cfg.allBound, cfg.n);
    case Swap(i, j) => SumExchanged(s.counts, i, j);
    case _ =>
  }

  datatype Totals = Totals(gained: nat, cleared: nat, wrapped: nat)

  /** Ticks felt, counts thrown away and wrap-arounds, summed over a run. */
  function Account(cfg: Config, s: State, acts: seq<Action>): Totals
    requires Fits(cfg, s) && Good(cfg, acts)
  {
    if acts == [] then Totals(0, 0, 0)
    else
      var before, a := acts[..|acts| - 1], acts[|acts| - 1];
      var t := Account(cfg, s, before);
      var now := Run(cfg, s, before);
      Totals(t.gained + Gained(cfg, now, a), t.cleared + Cleared(cfg, now, a), t.wrapped + Wrapped(cfg, now, a))
  }

  /** Conservation of counts. */
  lemma {:induction false} CountsConserved(cfg: Config, s: State, acts: seq<Action>)
    requires Fits(cfg, s) && Good(cfg, acts)
    ensures var t := Account(cfg, s, acts);
      SumTo(Run(cfg, s, acts).counts, cfg.n) == SumTo(s.counts, cfg.n) + t.gained - t.cleared - 0x1_0000 * t.wrapped
  {
    if acts == [] {
    } else {
      var before, a := acts[..|acts| - 1], acts[|acts| - 1];
      CountsConserved(cfg, s, before);
      ConservedByStep(cfg, Run(cfg, s, before), a);
    }
  }

  // ----- events -----

  function Tally<T>(p: T -> bool, xs: seq<T>): nat {
    if xs == [] then 0 else Tally(p, xs[..|xs| - 1]) + if p(xs[|xs| - 1]) then 1 else 0
  }

  lemma {:induction false} TallyConcat<T>(p: T -> bool, xs: seq<T>, ys: seq<T>)
    ensures Tally(p, xs + ys) == Tally(p, xs) + Tally(p, ys)
  {
    if ys == [] {
      assert xs + ys == xs;
    } else {
      TallyConcat(p, xs, ys[..|ys| - 1]);
      assert (xs + ys)[..|xs + ys| - 1] == xs + ys[..|ys| - 1];
    }
  }

  lemma TallyOne<T>(p: T -> bool, x: T)
    ensures Tally(p, [x]) == if p(x) then 1 else 0
  {
    assert [x][..0] == [];
  }

  predicate IsEvent(o: Output) { o.Sent? }

  predicate IsErrorEvent(o: Output) { o.Sent? && o.event.IsError() }

  predicate IsPacket(o: Output) { o.Telemetry? }

  predicate Talks(a: Action) { !a.SendHk? && !a.Tick? && !a.Process? }

  predicate IsRejected(a: Action) { a.Rejected() }

  predicate AsksHk(a: Action) { a.SendHk? }

  /** An action puts out at most one thing. */
  lemma EmitOne(cfg: Config, s: State, a: Action)
    requires Fits(cfg, s) && a.InRange(cfg)
    ensures |Emit(cfg, s, a)| == if Talks(a) || AsksHk(a) then 1 else 0
    ensures AsksHk(a) ==> IsPacket(Emit(cfg, s, a)[0])
    ensures Talks(a) ==>
      var o := Emit(cfg, s, a)[0];
      o.Sent? && (o.event.IsError() <==> a.Rejected())
      && o.event.Id() in {2, 3, 4, 5, 6, 8, 16} && (o.event.IsError() <==> o.event.Id() in {2, 5, 6})
  {
  }

  lemma EmitTallies(cfg: Config, s: State, a: Action)
    requires Fits(cfg, s) && a.InRange(cfg)
    ensures Tally(IsEvent, Emit(cfg, s, a)) == if Talks(a) then 1 else 0
    ensures Tally(IsErrorEvent, Emit(cfg, s, a)) == if IsRejected(a) then 1 else 0
    ensures Tally(IsPacket, Emit(cfg, s, a)) == if AsksHk(a) then 1 else 0
  {
    var outs := Emit(cfg, s, a);
    EmitOne(cfg, s, a);
    if |outs| == 1 {
      assert outs == [outs[0]];
      TallyOne(IsEvent, outs[0]);
      TallyOne(IsErrorEvent, outs[0]);
      TallyOne(IsPacket, outs[0]);
    }
  }

  /** The events behind each ID but the shared 16. */
  lemma OwnIds(e: Event)
    ensures e.Id() == 1 <==> e.Initialized?
    ensures e.Id() == 2 <==> e.CodeError? || e.NumberError? || e.PairError?
    ensures e.Id() == 3 <==> e.NoopInfo?
    ensures e.Id() == 4 <==> e.CountersReset?
    ensures e.Id() == 5 <==> e.MidError?
    ensures e.Id() == 6 <==> e.LengthError?
    ensures e.Id() == 7 <==> e.PipeReadError?
    ensures e.Id() == 8 <==> e.ParamInfo?
    ensures e.Id() == 9 <==> e.PipeCreateError?
    ensures e.Id() == 10 <==> e.HkSubscribeError?
    ensures e.Id() == 11 <==> e.CmdSubscribeError?
    ensures e.Id() == 12 <==> e.TableRegisterError?
  {
  }

  /** Event IDs seen from the dispatcher: all blinker reports share ID 16, the IDs
      declared for the individual blinker commands are never used, and exactly the
      error events carry 2, 5 or 6. */
  lemma {:induction false} EventIds(cfg: Config, s: State, acts: seq<Action>)
    requires Fits(cfg, s) && Good(cfg, acts)
    ensures forall o | o in Trace(cfg, s, acts) && o.Sent? ::
      o.event.Id() in {2, 3, 4, 5, 6, 8, 16} && (o.event.IsError() <==> o.event.Id() in {2, 5, 6})
  {
    if acts == [] {
    } else {
      var before, a := acts[..|acts| - 1], acts[|acts| - 1];
      EventIds(cfg, s, before);
      EmitOne(cfg, Run(cfg, s, before), a);
    }
  }

  /** Over any run: one event for each message that is not a housekeeping request, a
      tick or a well-formed Process command; one error event for each rejected
      message; one packet for each housekeeping request. */
  lemma {:induction false} OutputAccounting(cfg: Config, s: State, acts: seq<Action>)
    requires Fits(cfg, s) && Good(cfg, acts)
    ensures Tally(IsEvent, Trace(cfg, s, acts)) == Tally(Talks, acts)
    ensures Tally(IsErrorEvent, Trace(cfg, s, acts)) == Tally(IsRejected, acts)
    ensures Tally(IsPacket, Trace(cfg, s, acts)) == Tally(AsksHk, acts)
  {
    if acts == [] {
    } else {
      var before, a := acts[..|acts| - 1], acts[|acts| - 1];
      OutputAccounting(cfg, s, before);
      var outs, more := Trace(cfg, s, before), Emit(cfg, Run(cfg, s, before), a);
      EmitTallies(cfg, Run(cfg, s, before), a);
      TallyConcat(IsEvent, outs, more);
      TallyConcat(IsErrorEvent, outs, more);
      TallyConcat(IsPacket, outs, more);
    }
  }
}
