/** When two states of the app can be told apart by sending messages and watching
    what comes out. */
module Distinguish {
  import opened Types
  import opened Wrapping
  import opened Machine

  /** Everything that will ever show: the counts, which blinkers are enabled (but not
      by which nonzero value), both counters, and the packet's arrays; not the
      packet's counter fields, which are overwritten before each transmission. */
  ghost predicate Alike(cfg: Config, s: State, r: State)
    requires Fits(cfg, s) && Fits(cfg, r)
  {
    && s.counts == r.counts
    && (forall i | 0 <= i < cfg.n :: s.statuses[i] != 0 <==> r.statuses[i] != 0)
    && s.cmdCounter == r.cmdCounter && s.errCounter == r.errCounter
    && s.hk.statuses == r.hk.statuses && s.hk.counts == r.hk.counts
  }

  ghost predicate SameOutputs(cfg: Config, s: State, r: State, ms: seq<Message>)
    requires Fits(cfg, s) && Fits(cfg, r)
  {
    Trace(cfg, s, Decode(cfg, ms)) == Trace(cfg, r, Decode(cfg, ms))
  }

  lemma AlikeStep(cfg: Config, s: State, r: State, a: Action)
    requires Fits(cfg, s) && Fits(cfg, r) && Alike(cfg, s, r) && a.InRange(cfg)
    ensures Alike(cfg, Act(cfg, s, a), Act(cfg, r, a))
    ensures Emit(cfg, s, a) == Emit(cfg, r, a)
  {
  }

  lemma {:induction false} AlikeRun(cfg: Config, s: State, r: State, acts: seq<Action>)
    requires Fits(cfg, s) && Fits(cfg, r) && Alike(cfg, s, r) && Good(cfg, acts)
    ensures Alike(cfg, Run(cfg, s, acts), Run(cfg, r, acts))
    ensures Trace(cfg, s, acts) == Trace(cfg, r, acts)
  {
    if acts == [] {
    } else {
      var before := acts[..|acts| - 1];
      AlikeRun(cfg, s, r, before);
      AlikeStep(cfg, Run(cfg, s, before), Run(cfg, r, before), acts[|acts| - 1]);
    }
  }

  lemma DecodeTwo(cfg: Config, a: Action, b: Action)
    requires a.InRange(cfg) && !a.Rejected() && b.InRange(cfg) && !b.Rejected()
    ensures Decode(cfg, [Encode(cfg, a), Encode(cfg, b)]) == [a] + [b]
  {
  }

  lemma TickThenReport(cfg: Config, s: State, i: uint16)
    requires Fits(cfg, s) && i < cfg.n
    ensures Good(cfg, [Tick] + [Report(i)])
    ensures Trace(cfg, s, [Tick] + [Report(i)])
         == [Sent(BlinkerCount(i, if s.statuses[i] != 0 then Inc16(s.counts[i]) else s.counts[i]))]
  {
    RunOne(cfg, s, Tick);
    RunSnoc(cfg, s, [Tick], Report(i));
  }

  lemma CountShows(cfg: Config, s: State, r: State, i: uint16)
    requires Fits(cfg, s) && Fits(cfg, r) && i < cfg.n && s.counts[i] != r.counts[i]
    ensures !SameOutputs(cfg, s, r, [Encode(cfg, Report(i))])
  {
    DecodeOne(cfg, Report(i));
    RunOne(cfg, s, Report(i));
    RunOne(cfg, r, Report(i));
    assert Emit(cfg, s, Report(i))[0] != Emit(cfg, r, Report(i))[0];
  }

  lemma StatusShows(cfg: Config, s: State, r: State, i: uint16)
    requires Fits(cfg, s) && Fits(cfg, r) && i < cfg.n && s.counts[i] == r.counts[i]
    requires !(s.statuses[i] != 0 <==> r.statuses[i] != 0)
    ensures !SameOutputs(cfg, s, r, [Encode(cfg, Tick), Encode(cfg, Report(i))])
  {
    DecodeTwo(cfg, Tick, Report(i));
    TickThenReport(cfg, s, i);
    TickThenReport(cfg, r, i);
    assert Trace(cfg, s, [Tick] + [Report(i)])[0] != Trace(cfg, r, [Tick] + [Report(i)])[0];
  }

  lemma PacketShows(cfg: Config, s: State, r: State)
    requires Fits(cfg, s) && Fits(cfg, r)
    requires !(s.cmdCounter == r.cmdCounter && s.errCounter == r.errCounter
               && s.hk.statuses == r.hk.statuses && s.hk.counts == r.hk.counts)
    ensures !SameOutputs(cfg, s, r, [Encode(cfg, SendHk)])
  {
    DecodeOne(cfg, SendHk);
    RunOne(cfg, s, SendHk);
    RunOne(cfg, r, SendHk);
    assert Emit(cfg, s, SendHk)[0] != Emit(cfg, r, SendHk)[0];
  }

  /** Two messages at most tell apart any two states that are not alike. */
  lemma TellApart(cfg: Config, s: State, r: State) returns (ms: seq<Message>)
    requires Fits(cfg, s) && Fits(cfg, r) && !Alike(cfg, s, r)
    ensures |ms| <= 2 && !SameOutputs(cfg, s, r, ms)
  {
    if s.counts != r.counts {
      var i :| 0 <= i < cfg.n && s.counts[i] != r.counts[i];
      ms := [Encode(cfg, Report(i))];
      CountShows(cfg, s, r, i);
    } else if exists i :: 0 <= i < cfg.n && !(s.statuses[i] != 0 <==> r.statuses[i] != 0) {
      var i :| 0 <= i < cfg.n && !(s.statuses[i] != 0 <==> r.statuses[i] != 0);
      ms := [Encode(cfg, Tick), Encode(cfg, Report(i))];
      StatusShows(cfg, s, r, i);
    } else {
      ms := [Encode(cfg, SendHk)];
      PacketShows(cfg, s, r);
    }
  }

  /** Full abstraction: no message sequence tells two states apart exactly when they are alike. */
  lemma IndistinguishableIffAlike(cfg: Config, s: State, r: State)
    requires Fits(cfg, s) && Fits(cfg, r)
    ensures (forall ms :: SameOutputs(cfg, s, r, ms)) <==> Alike(cfg, s, r)
  {
    if Alike(cfg, s, r) {
      forall ms ensures SameOutputs(cfg, s, r, ms) {
        AlikeRun(cfg, s, r, Decode(cfg, ms));
      }
    } else {
      var ms := TellApart(cfg, s, r);
    }
  }
}
