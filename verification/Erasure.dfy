/** Rejected messages can be erased from a run: they touch nothing but the error
    counter, and nobody sees them but through error events and that counter. */
module Erasure {
  import opened Types
  import opened Machine

  function Accepted(acts: seq<Action>): seq<Action> {
    if acts == [] then []
    else
      var rest := Accepted(acts[..|acts| - 1]);
      if acts[|acts| - 1].Rejected() then rest else rest + [acts[|acts| - 1]]
  }

  function AcceptedMessages(cfg: Config, ms: seq<Message>): seq<Message> {
    if ms == [] then []
    else
      var rest := AcceptedMessages(cfg, ms[..|ms| - 1]);
      if Classify(cfg, ms[|ms| - 1]).Rejected() then rest else rest + [ms[|ms| - 1]]
  }

  lemma {:induction false} AcceptedIsGood(cfg: Config, acts: seq<Action>)
    requires Good(cfg, acts)
    ensures Good(cfg, Accepted(acts))
    ensures forall k | 0 <= k < |Accepted(acts)| :: !Accepted(acts)[k].Rejected()
  {
    if acts == [] {
    } else {
      AcceptedIsGood(cfg, acts[..|acts| - 1]);
    }
  }

  lemma {:induction false} DecodeAccepted(cfg: Config, ms: seq<Message>)
    ensures Decode(cfg, AcceptedMessages(cfg, ms)) == Accepted(Decode(cfg, ms))
  {
    if ms == [] {
      assert Decode(cfg, ms) == [];
    } else {
      var before, m := ms[..|ms| - 1], ms[|ms| - 1];
      DecodeAccepted(cfg, before);
      assert Decode(cfg, ms)[..|ms| - 1] == Decode(cfg, before);
      if !Classify(cfg, m).Rejected() {
        assert Decode(cfg, AcceptedMessages(cfg, before) + [m])
            == Decode(cfg, AcceptedMessages(cfg, before)) + [Classify(cfg, m)];
      }
    }
  }

  /** Equal but for the error counter and its copy in the packet. */
  ghost predicate SameButErrors(s: State, r: State) {
    && s.counts == r.counts && s.statuses == r.statuses && s.cmdCounter == r.cmdCounter
    && s.hk.commands == r.hk.commands && s.hk.statuses == r.hk.statuses && s.hk.counts == r.hk.counts
  }

  /** What remains of the outputs without error events and the error field of packets. */
  function Muted(outs: seq<Output>): seq<Output> {
    if outs == [] then []
    else
      var rest := Muted(outs[..|outs| - 1]);
      match outs[|outs| - 1]
      case Sent(e) => if e.IsError() then rest else rest + [Sent(e)]
      case Telemetry(p) => rest + [Telemetry(p.(errors := 0))]
      case Called(c) => rest + [Called(c)]
  }

  lemma {:induction false} MutedConcat(xs: seq<Output>, ys: seq<Output>)
    ensures Muted(xs + ys) == Muted(xs) + Muted(ys)
  {
    if ys == [] {
      assert xs + ys == xs;
    } else {
      MutedConcat(xs, ys[..|ys| - 1]);
      assert (xs + ys)[..|xs + ys| - 1] == xs + ys[..|ys| - 1];
    }
  }

  lemma RejectedStep(cfg: Config, s: State, a: Action)
    requires Fits(cfg, s) && a.InRange(cfg) && a.Rejected()
    ensures SameButErrors(Act(cfg, s, a), s) && Muted(Emit(cfg, s, a)) == []
  {
  }

  lemma AcceptedStep(cfg: Config, s: State, r: State, a: Action)
    requires Fits(cfg, s) && Fits(cfg, r) && SameButErrors(s, r) && a.InRange(cfg) && !a.Rejected()
    ensures SameButErrors(Act(cfg, s, a), Act(cfg, r, a))
    ensures Muted(Emit(cfg, s, a)) == Muted(Emit(cfg, r, a))
  {
  }

  /** Deleting every rejected message changes neither the blinkers, nor the command
      counter, nor anything seen outside but error reports. */
  lemma {:induction false} ErasureInvisible(cfg: Config, s: State, acts: seq<Action>)
    requires Fits(cfg, s) && Good(cfg, acts)
    ensures Good(cfg, Accepted(acts))
    ensures SameButErrors(Run(cfg, s, acts), Run(cfg, s, Accepted(acts)))
    ensures Muted(Trace(cfg, s, acts)) == Muted(Trace(cfg, s, Accepted(acts)))
  {
    AcceptedIsGood(cfg, acts);
    if acts == [] {
    } else {
      var before, a := acts[..|acts| - 1], acts[|acts| - 1];
      AcceptedIsGood(cfg, before);
      ErasureInvisible(cfg, s, before);
      var s1, r1 := Run(cfg, s, before), Run(cfg, s, Accepted(before));
      MutedConcat(Trace(cfg, s, before), Emit(cfg, s1, a));
      if a.Rejected() {
        RejectedStep(cfg, s1, a);
      } else {
        AcceptedStep(cfg, s1, r1, a);
        RunSnoc(cfg, s, Accepted(before), a);
        MutedConcat(Trace(cfg, s, Accepted(before)), Emit(cfg, r1, a));
      }
    }
  }
}
