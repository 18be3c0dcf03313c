/** Which states the app can be brought into by sending it messages. */
module Reachability {
  import opened Types
  import opened Machine
  import opened Ticks

  // ----- actions that some message provokes -----

  predicate Sendable(cfg: Config, a: Action) {
    a.InRange(cfg) && (!a.Rejected() || a == Classify(cfg, Malformed(cfg)))
  }

  ghost predicate AllSendable(cfg: Config, acts: seq<Action>) {
    forall k | 0 <= k < |acts| :: Sendable(cfg, acts[k])
  }

  lemma {:induction false} MessagesFor(cfg: Config, acts: seq<Action>) returns (ms: seq<Message>)
    requires AllSendable(cfg, acts)
    ensures Decode(cfg, ms) == acts
  {
    ms := seq(|acts|, k requires 0 <= k < |acts| && Sendable(cfg, acts[k]) =>
      if acts[k].Rejected() then Malformed(cfg) else Encode(cfg, acts[k]));
    forall k | 0 <= k < |acts| ensures Classify(cfg, ms[k]) == acts[k] {
      if !acts[k].Rejected() {
        ClassifyEncode(cfg, acts[k]);
      }
    }
  }

  /** `acts` can be sent and leads from s to r. */
  ghost predicate Leads(cfg: Config, s: State, acts: seq<Action>, r: State) {
    Fits(cfg, s) && Good(cfg, acts) && AllSendable(cfg, acts) && Run(cfg, s, acts) == r
  }

  lemma LeadsOne(cfg: Config, s: State, a: Action)
    requires Fits(cfg, s) && Sendable(cfg, a)
    ensures Leads(cfg, s, [a], Act(cfg, s, a))
  {
    RunOne(cfg, s, a);
  }

  lemma LeadsOn(cfg: Config, s: State, xs: seq<Action>, r: State, ys: seq<Action>, t: State)
    requires Leads(cfg, s, xs, r) && Leads(cfg, r, ys, t)
    ensures Leads(cfg, s, xs + ys, t)
  {
    RunConcat(cfg, s, xs, ys);
  }

  // ----- one slot at a time -----

  ghost predicate AllOff(cfg: Config, s: State) {
    Fits(cfg, s) && forall i | 0 <= i < cfg.n :: s.statuses[i] == 0
  }

  function StatusCommand(i: uint16, v: uint8): Action {
    if v == 0 then Disable(i) else Enable(i)
  }

  lemma SetStatusEffect(cfg: Config, s: State, goal: seq<uint8>, k: uint16)
    requires Fits(cfg, s) && |goal| == cfg.n && k < cfg.n && goal[k] <= 1
    ensures Act(cfg, s.(statuses := goal[..k] + s.statuses[k..]), StatusCommand(k, goal[k]))
         == s.(statuses := goal[..k + 1] + s.statuses[k + 1..])
  {
    assert (goal[..k] + s.statuses[k..])[k := goal[k]] == goal[..k + 1] + s.statuses[k + 1..];
  }

  /** Sets the first k statuses to those of `goal`. */
  lemma {:induction false} SetStatuses(cfg: Config, s: State, goal: seq<uint8>, k: nat) returns (acts: seq<Action>)
    requires Fits(cfg, s) && |goal| == cfg.n && k <= cfg.n && forall i | 0 <= i < cfg.n :: goal[i] <= 1
    ensures Leads(cfg, s, acts, s.(statuses := goal[..k] + s.statuses[k..]))
  {
    if k == 0 {
      acts := [];
      assert goal[..0] + s.statuses[0..] == s.statuses;
    } else {
      var before := SetStatuses(cfg, s, goal, k - 1);
      var mid := s.(statuses := goal[..k - 1] + s.statuses[k - 1..]);
      var a := StatusCommand(k - 1, goal[k - 1]);
      acts := before + [a];
      LeadsOne(cfg, mid, a);
      LeadsOn(cfg, s, before, mid, [a], Act(cfg, mid, a));
      SetStatusEffect(cfg, s, goal, k - 1);
    }
  }

  lemma TicksLead(cfg: Config, s: State, k: nat)
    requires Fits(cfg, s)
    ensures Leads(cfg, s, TickRun(k), Later(cfg, s, k))
  {
    TickBatch(cfg, s, k);
  }

  lemma SetCountEffect(cfg: Config, s: State, i: uint16, v: uint16)
    requires AllOff(cfg, s) && i < cfg.n
    ensures var on := Act(cfg, Act(cfg, s, Reset(i)), Enable(i));
      Act(cfg, Later(cfg, on, v), Disable(i)) == s.(counts := s.counts[i := v])
  {
    var s2 := Act(cfg, Act(cfg, s, Reset(i)), Enable(i));
    forall k | 0 <= k < cfg.n
      ensures Later(cfg, s2, v).counts[k] == s.counts[i := v][k]
    {
    }
    assert Later(cfg, s2, v).counts == s.counts[i := v];
    assert s2.statuses[i := 0] == s.statuses;
  }

  /** With every blinker off, one count can be set without disturbing anything. */
  lemma SetCount(cfg: Config, s: State, i: uint16, v: uint16) returns (acts: seq<Action>)
    requires AllOff(cfg, s) && i < cfg.n
    ensures Leads(cfg, s, acts, s.(counts := s.counts[i := v]))
  {
    var s1 := Act(cfg, s, Reset(i));
    var s2 := Act(cfg, s1, Enable(i));
    var s3 := Later(cfg, s2, v);
    LeadsOne(cfg, s, Reset(i));
    LeadsOne(cfg, s1, Enable(i));
    TicksLead(cfg, s2, v);
    LeadsOne(cfg, s3, Disable(i));
    LeadsOn(cfg, s, [Reset(i)], s1, [Enable(i)], s2);
    LeadsOn(cfg, s, [Reset(i)] + [Enable(i)], s2, TickRun(v), s3);
    acts := [Reset(i)] + [Enable(i)] + TickRun(v) + [Disable(i)];
    LeadsOn(cfg, s, [Reset(i)] + [Enable(i)] + TickRun(v), s3, [Disable(i)], Act(cfg, s3, Disable(i)));
    SetCountEffect(cfg, s, i, v);
  }

  /** Sets the first k counts to those of `goal`. */
  lemma {:induction false} SetCounts(cfg: Config, s: State, goal: seq<uint16>, k: nat) returns (acts: seq<Action>)
    requires AllOff(cfg, s) && |goal| == cfg.n && k <= cfg.n
    ensures Leads(cfg, s, acts, s.(counts := goal[..k] + s.counts[k..]))
  {
    if k == 0 {
      acts := [];
      assert goal[..0] + s.counts[0..] == s.counts;
    } else {
      var before := SetCounts(cfg, s, goal, k - 1);
      var mid := s.(counts := goal[..k - 1] + s.counts[k - 1..]);
      var more := SetCount(cfg, mid, k - 1, goal[k - 1]);
      acts := before + more;
      LeadsOn(cfg, s, before, mid, more, mid.(counts := mid.counts[k - 1 := goal[k - 1]]));
      assert mid.counts[k - 1 := goal[k - 1]] == goal[..k] + s.counts[k..];
    }
  }

  // ----- counters and packet -----

  lemma {:induction false} AddNoops(cfg: Config, s: State, v: uint8) returns (acts: seq<Action>)
    requires Fits(cfg, s) && s.cmdCounter == 0
    ensures Leads(cfg, s, acts, s.(cmdCounter := v))
  {
    if v == 0 {
      acts := [];
    } else {
      var before := AddNoops(cfg, s, v - 1);
      acts := before + [Noop];
      var mid := s.(cmdCounter := v - 1);
      LeadsOne(cfg, mid, Noop);
      LeadsOn(cfg, s, before, mid, [Noop], s.(cmdCounter := v));
    }
  }

  lemma {:induction false} AddErrors(cfg: Config, s: State, v: uint8) returns (acts: seq<Action>)
    requires Fits(cfg, s) && s.errCounter == 0
    ensures Leads(cfg, s, acts, s.(errCounter := v))
  {
    if v == 0 {
      acts := [];
    } else {
      var before := AddErrors(cfg, s, v - 1);
      var bad := Classify(cfg, Malformed(cfg));
      acts := before + [bad];
      var mid := s.(errCounter := v - 1);
      LeadsOne(cfg, mid, bad);
      LeadsOn(cfg, s, before, mid, [bad], s.(errCounter := v));
    }
  }

  lemma SetCounters(cfg: Config, s: State, cmd: uint8, err: uint8) returns (acts: seq<Action>)
    requires Fits(cfg, s)
    ensures Leads(cfg, s, acts, s.(cmdCounter := cmd, errCounter := err))
  {
    var s1 := s.(cmdCounter := 0, errCounter := 0);
    var s2 := s1.(cmdCounter := cmd);
    LeadsOne(cfg, s, ResetCounters);
    var noops := AddNoops(cfg, s1, cmd);
    var errors := AddErrors(cfg, s2, err);
    LeadsOn(cfg, s, [ResetCounters], s1, noops, s2);
    acts := [ResetCounters] + noops + errors;
    LeadsOn(cfg, s, [ResetCounters] + noops, s2, errors, s.(cmdCounter := cmd, errCounter := err));
  }

  lemma SetPacket(cfg: Config, s: State, cmd: uint8, err: uint8) returns (acts: seq<Action>)
    requires Fits(cfg, s)
    ensures Leads(cfg, s, acts, s.(cmdCounter := cmd, errCounter := err, hk := s.hk.(commands := cmd, errors := err)))
  {
    var s1 := s.(cmdCounter := cmd, errCounter := err);
    var first := SetCounters(cfg, s, cmd, err);
    LeadsOne(cfg, s1, SendHk);
    acts := first + [SendHk];
    LeadsOn(cfg, s, first, s1, [SendHk], Act(cfg, s1, SendHk));
  }

  // ----- the reachable set -----

  /** What every run from the zeroed state keeps: statuses are 0 or 1, the packet's
      counter fields fit in 8 bits and its blinker arrays are zero. */
  ghost predicate Proper(cfg: Config, s: State) {
    && Fits(cfg, s)
    && s.hk.errors <= 0xFF && s.hk.commands <= 0xFF
    && forall i | 0 <= i < cfg.n :: s.statuses[i] <= 1 && s.hk.statuses[i] == 0 && s.hk.counts[i] == 0
  }

  lemma {:induction false} ProperStays(cfg: Config, s: State, acts: seq<Action>)
    requires Proper(cfg, s) && Good(cfg, acts)
    ensures Proper(cfg, Run(cfg, s, acts))
  {
    if acts == [] {
    } else {
      ProperStays(cfg, s, acts[..|acts| - 1]);
    }
  }

  ghost predicate Reaches(cfg: Config, s: State, t: State) {
    Fits(cfg, s) && exists ms :: Run(cfg, s, Decode(cfg, ms)) == t
  }

  /** From any state, every proper state over the same packet arrays can be reached. */
  lemma CanReach(cfg: Config, s: State, t: State)
    requires Fits(cfg, s) && Proper(cfg, t)
    requires s.hk.statuses == t.hk.statuses && s.hk.counts == t.hk.counts
    ensures Reaches(cfg, s, t)
  {
    var off := seq(cfg.n, _ => 0);
    var a1 := SetStatuses(cfg, s, off, cfg.n);
    var s1 := s.(statuses := off);
    assert off[..cfg.n] + s.statuses[cfg.n..] == off;
    var a2 := SetCounts(cfg, s1, t.counts, cfg.n);
    var s2 := s1.(counts := t.counts);
    assert t.counts[..cfg.n] + s1.counts[cfg.n..] == t.counts;
    var a3 := SetStatuses(cfg, s2, t.statuses, cfg.n);
    var s3 := s2.(statuses := t.statuses);
    assert t.statuses[..cfg.n] + s2.statuses[cfg.n..] == t.statuses;
    var a4 := SetPacket(cfg, s3, t.hk.commands, t.hk.errors);
    var s4 := s3.(cmdCounter := t.hk.commands, errCounter := t.hk.errors, hk := t.hk);
    var a5 := SetCounters(cfg, s4, t.cmdCounter, t.errCounter);
    LeadsOn(cfg, s, a1, s1, a2, s2);
    LeadsOn(cfg, s, a1 + a2, s2, a3, s3);
    LeadsOn(cfg, s, a1 + a2 + a3, s3, a4, s4);
    LeadsOn(cfg, s, a1 + a2 + a3 + a4, s4, a5, t);
    var ms := MessagesFor(cfg, a1 + a2 + a3 + a4 + a5);
  }

  /** The states reachable from start-up are exactly the proper ones. */
  lemma ReachableIffProper(cfg: Config, t: State)
    ensures Reaches(cfg, ZeroState(cfg), t) <==> Proper(cfg, t)
  {
    var z := ZeroState(cfg);
    if Reaches(cfg, z, t) {
      var ms :| Run(cfg, z, Decode(cfg, ms)) == t;
      ProperStays(cfg, z, Decode(cfg, ms));
    }
    if Proper(cfg, t) {
      CanReach(cfg, z, t);
    }
  }

  /** And no reachable state is a trap: each leads to all the others. */
  lemma ReachableStatesConnected(cfg: Config, s: State, t: State)
    requires Reaches(cfg, ZeroState(cfg), s) && Reaches(cfg, ZeroState(cfg), t)
    ensures Reaches(cfg, s, t)
  {
    ReachableIffProper(cfg, s);
    ReachableIffProper(cfg, t);
    CanReach(cfg, s, t);
  }
}
