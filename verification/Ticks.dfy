/** Long stretches of ticks: batching, wrap-around, and when two stretches of
    different length cannot be told apart. */
module Ticks {
  import opened Types
  import opened Wrapping
  import opened Machine
  import opened Distinguish

  function TickRun(k: nat): (acts: seq<Action>)
    ensures |acts| == k && forall j | 0 <= j < k :: acts[j] == Tick
  {
    seq(k, _ => Tick)
  }

  function Advance(enabled: bool, count: uint16, k: nat): uint16 {
    if enabled then Wrap16(count + k) else count
  }

  /** s, with k more on every enabled count. */
  function Later(cfg: Config, s: State, k: nat): (r: State)
    requires Fits(cfg, s)
    ensures Fits(cfg, r)
  {
    s.(counts := seq(cfg.n, i requires 0 <= i < cfg.n => Advance(s.statuses[i] != 0, s.counts[i], k)))
  }

  lemma LaterStep(cfg: Config, s: State, k: nat)
    requires Fits(cfg, s)
    ensures Act(cfg, Later(cfg, s, k), Tick) == Later(cfg, s, k + 1)
  {
    forall i | 0 <= i < cfg.n
      ensures Act(cfg, Later(cfg, s, k), Tick).counts[i] == Later(cfg, s, k + 1).counts[i]
    {
      WrapInc(s.counts[i] + k);
    }
    assert Act(cfg, Later(cfg, s, k), Tick).counts == Later(cfg, s, k + 1).counts;
  }

  lemma {:induction false} TickBatch(cfg: Config, s: State, k: nat)
    requires Fits(cfg, s)
    ensures Run(cfg, s, TickRun(k)) == Later(cfg, s, k) && Trace(cfg, s, TickRun(k)) == []
  {
    if k == 0 {
      assert Later(cfg, s, 0).counts == s.counts;
    } else {
      TickBatch(cfg, s, k - 1);
      assert TickRun(k) == TickRun(k - 1) + [Tick];
      RunSnoc(cfg, s, TickRun(k - 1), Tick);
      LaterStep(cfg, s, k - 1);
    }
  }

  /** A count as it would be after k ticks if it never wrapped. */
  function Grown(s: State, i: nat, k: nat): nat
    requires i < |s.counts| && i < |s.statuses|
  {
    s.counts[i] + if s.statuses[i] != 0 then k else 0
  }

  lemma LaterIsGrown(cfg: Config, s: State, k: nat, i: nat)
    requires Fits(cfg, s) && i < cfg.n
    ensures Later(cfg, s, k).counts[i] == Wrap16(Grown(s, i, k))
  {
  }

  /** Batching in ordinary arithmetic: k ticks add k to each enabled count, modulo 65536. */
  lemma TickBatchSlot(cfg: Config, s: State, k: nat, i: nat)
    requires Fits(cfg, s) && i < cfg.n
    ensures Run(cfg, s, TickRun(k)).counts[i] == Grown(s, i, k) % 0x1_0000
  {
    TickBatch(cfg, s, k);
    LaterIsGrown(cfg, s, k, i);
    Wrap16IsMod(Grown(s, i, k));
  }

  lemma SameAdvance(enabled: bool, count: uint16, j: nat, k: nat)
    ensures Advance(enabled, count, j) == Advance(enabled, count, k) <==> Wrap16(j) == Wrap16(k) || !enabled
  {
    WrapAdd(count, j);
    WrapAdd(count, k);
  }

  lemma SameLater(cfg: Config, s: State, j: nat, k: nat)
    requires Fits(cfg, s)
    ensures Later(cfg, s, j) == Later(cfg, s, k) <==>
      Wrap16(j) == Wrap16(k) || forall i | 0 <= i < cfg.n :: s.statuses[i] == 0
  {
    var x, y := Later(cfg, s, j).counts, Later(cfg, s, k).counts;
    forall i | 0 <= i < cfg.n
      ensures x[i] == y[i] <==> Wrap16(j) == Wrap16(k) || s.statuses[i] == 0
    {
      SameAdvance(s.statuses[i] != 0, s.counts[i], j, k);
    }
  }

  lemma SameTicksWrapped(cfg: Config, s: State, j: nat, k: nat)
    requires Fits(cfg, s)
    ensures Run(cfg, s, TickRun(j)) == Run(cfg, s, TickRun(k)) <==>
      Wrap16(j) == Wrap16(k) || forall i | 0 <= i < cfg.n :: s.statuses[i] == 0
  {
    assert Run(cfg, s, TickRun(j)) == Later(cfg, s, j) by { TickBatch(cfg, s, j); }
    assert Run(cfg, s, TickRun(k)) == Later(cfg, s, k) by { TickBatch(cfg, s, k); }
    SameLater(cfg, s, j, k);
  }

  lemma SameLengths(j: nat, k: nat)
    ensures Wrap16(j) == Wrap16(k) <==> j % 0x1_0000 == k % 0x1_0000
  {
    Wrap16IsMod(j);
    Wrap16IsMod(k);
  }

  /** Two stretches lead to the same state exactly when they agree modulo 65536
      or no blinker is enabled. */
  lemma SameTicks(cfg: Config, s: State, j: nat, k: nat)
    requires Fits(cfg, s)
    ensures Run(cfg, s, TickRun(j)) == Run(cfg, s, TickRun(k)) <==>
      j % 0x1_0000 == k % 0x1_0000 || forall i | 0 <= i < cfg.n :: s.statuses[i] == 0
  {
    SameLengths(j, k);
    SameTicksWrapped(cfg, s, j, k);
  }

  /** No observer of the whole run can tell such stretches apart, wherever they stand. */
  lemma TicksIndistinguishable(cfg: Config, s: State, before: seq<Action>, j: nat, k: nat, after: seq<Action>)
    requires Fits(cfg, s) && Good(cfg, before) && Good(cfg, after) && j % 0x1_0000 == k % 0x1_0000
    ensures Run(cfg, s, before + TickRun(j) + after) == Run(cfg, s, before + TickRun(k) + after)
    ensures Trace(cfg, s, before + TickRun(j) + after) == Trace(cfg, s, before + TickRun(k) + after)
  {
    SameTicks(cfg, Run(cfg, s, before), j, k);
    TickBatch(cfg, Run(cfg, s, before), j);
    TickBatch(cfg, Run(cfg, s, before), k);
    RunConcat3(cfg, s, before, TickRun(j), after);
    RunConcat3(cfg, s, before, TickRun(k), after);
  }

  ghost predicate SameSight(cfg: Config, s: State, j: nat, k: nat, ms: seq<Message>)
    requires Fits(cfg, s)
  {
    Trace(cfg, s, TickRun(j) + Decode(cfg, ms)) == Trace(cfg, s, TickRun(k) + Decode(cfg, ms))
  }

  lemma TicksThen(cfg: Config, s: State, k: nat, after: seq<Action>)
    requires Fits(cfg, s) && Good(cfg, after)
    ensures Good(cfg, TickRun(k) + after)
    ensures Trace(cfg, s, TickRun(k) + after) == Trace(cfg, Run(cfg, s, TickRun(k)), after)
  {
    assert Trace(cfg, s, TickRun(k)) == [] by { TickBatch(cfg, s, k); }
    RunConcat(cfg, s, TickRun(k), after);
  }

  /** What is seen after a stretch of ticks is what its end state shows. */
  lemma SightIsOutputs(cfg: Config, s: State, j: nat, k: nat, ms: seq<Message>)
    requires Fits(cfg, s)
    ensures SameSight(cfg, s, j, k, ms) <==>
      SameOutputs(cfg, Run(cfg, s, TickRun(j)), Run(cfg, s, TickRun(k)), ms)
  {
    TicksThen(cfg, s, j, Decode(cfg, ms));
    TicksThen(cfg, s, k, Decode(cfg, ms));
  }

  /** Exactly: from s, no continuation tells the two stretches apart if and only if their
      lengths agree modulo 65536 or no blinker is enabled. */
  lemma TicksIndistinguishableIff(cfg: Config, s: State, j: nat, k: nat)
    requires Fits(cfg, s)
    ensures (forall ms :: SameSight(cfg, s, j, k, ms)) <==>
      j % 0x1_0000 == k % 0x1_0000 || forall i | 0 <= i < cfg.n :: s.statuses[i] == 0
  {
    var x, y := Run(cfg, s, TickRun(j)), Run(cfg, s, TickRun(k));
    forall ms ensures SameSight(cfg, s, j, k, ms) <==> SameOutputs(cfg, x, y, ms) {
      SightIsOutputs(cfg, s, j, k, ms);
    }
    SameTicks(cfg, s, j, k);
    TickBatch(cfg, s, j);
    TickBatch(cfg, s, k);
    if x != y {
      assert x.counts != y.counts;
      var ms := TellApart(cfg, x, y);
      assert !SameSight(cfg, s, j, k, ms);
    }
  }

  /** 65536 ticks are no tick at all. */
  lemma FullTurn(cfg: Config, s: State)
    requires Fits(cfg, s)
    ensures Run(cfg, s, TickRun(0x1_0000)) == s
  {
    SameTicks(cfg, s, 0x1_0000, 0);
    assert TickRun(0) == [];
  }
}
