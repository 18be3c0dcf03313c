/** What the log of outputs tells an observer on the ground. Every output is true of
    the step that put it out. The log records all actions but ticks and Process
    commands, so replaying it gives the statuses, the counters and the packet; a count
    it gives up to the ticks the count has kept. */
module Logbook {
  import opened Types
  import opened Wrapping
  import opened Machine
  import opened Startup
  import opened History
  import opened Ticks

  // ----- every output is true -----

  /** What event e of a ground command m says of m and of the step from s to r. */
  ghost predicate HoldsOfCommand(cfg: Config, m: Message, s: State, r: State, e: Event)
    requires Fits(cfg, s) && Fits(cfg, r)
  {
    match e
    case NoopInfo => m.code == 0 && r == s.(cmdCounter := if s.cmdCounter == 255 then 0 else s.cmdCounter + 1)
    case CountersReset => m.code == 1 && r == s.(cmdCounter := 0, errCounter := 0)
    case ParamInfo(p) => m.code == 3 && m.param == p && r == s
    case AllReset =>
      m.code == 4 && r == s.(counts := r.counts)
      && forall k | 0 <= k < cfg.n :: r.counts[k] == if k < cfg.allBound then 0 else s.counts[k]
    case AllEnabled =>
      m.code == 9 && r == s.(statuses := r.statuses)
      && forall k | 0 <= k < cfg.n :: r.statuses[k] == if k < cfg.allBound then 1 else s.statuses[k]
    case AllDisabled =>
      m.code == 10 && r == s.(statuses := r.statuses)
      && forall k | 0 <= k < cfg.n :: r.statuses[k] == if k < cfg.allBound then 0 else s.statuses[k]
    case BlinkerReset(i) => m.code == 5 && m.word1 == i < cfg.n && r == s.(counts := s.counts[i := 0])
    case BlinkerCount(i, c) => m.code == 6 && m.word1 == i < cfg.n && r == s && s.counts[i] == c
    case BlinkerEnabled(i) => m.code == 7 && m.word1 == i < cfg.n && r == s.(statuses := s.statuses[i := 1])
    case BlinkerDisabled(i) => m.code == 8 && m.word1 == i < cfg.n && r == s.(statuses := s.statuses[i := 0])
    case Swapped(i, j, c, d) =>
      m.code == 11 && m.word1 == i < cfg.n && m.word2 == j < cfg.n
      && r.counts[i] == s.counts[j] == c && r.counts[j] == s.counts[i] == d
      && r == s.(counts := s.counts[i := c][j := d])
    case NumberError(i) => 5 <= m.code <= 8 && m.word1 == i >= cfg.n && r == s
    case PairError(i, j) => m.code == 11 && m.word1 == i && m.word2 == j && (i >= cfg.n || j >= cfg.n) && r == s
    case CodeError(code) => m.code == code > 11 && r == s
    case LengthError(mid, code, size, expected) =>
      m.mid == mid && m.code == code <= 11 && m.size == size != expected
      && r == s.(errCounter := if s.errCounter == 255 then 0 else s.errCounter + 1)
    case _ => false
  }

  /** What any output says of the message and the step that put it out. */
  ghost predicate Holds(cfg: Config, m: Message, s: State, r: State, o: Output)
    requires Fits(cfg, s) && Fits(cfg, r)
  {
    match o
    case Telemetry(p) =>
      m.mid == cfg.hkMid && r == s.(hk := p) && p == s.hk.(errors := s.errCounter, commands := s.cmdCounter)
    case Called(_) => false
    case Sent(MidError(mid)) => r == s && m.mid == mid && mid != cfg.cmdMid && mid != cfg.hkMid && mid != cfg.blinkMid
    case Sent(e) => m.mid == cfg.cmdMid && HoldsOfCommand(cfg, m, s, r, e)
  }

  /** What silence says: a tick, or a Process command, which leaves everything as it is. */
  ghost predicate HoldsOfSilence(cfg: Config, m: Message, s: State, r: State)
    requires Fits(cfg, s) && Fits(cfg, r)
  {
    || (m.mid == cfg.cmdMid && m.code == 2 && m.size == cfg.noArgsSize && r == s)
    || (m.mid == cfg.blinkMid && r == s.(counts := r.counts) && forall k | 0 <= k < cfg.n ::
          r.counts[k] ==
            if s.statuses[k] == 0 then s.counts[k] else if s.counts[k] == 65535 then 0 else s.counts[k] + 1)
  }

  /** Step and output of message m are what the output says, or the silence. */
  ghost predicate Told(cfg: Config, m: Message, s: State, r: State, out: seq<Output>)
    requires Fits(cfg, s) && Fits(cfg, r)
  {
    if out == [] then HoldsOfSilence(cfg, m, s, r) else |out| == 1 && Holds(cfg, m, s, r, out[0])
  }

  lemma PlainStepIsTold(cfg: Config, s: State, m: Message)
    requires Fits(cfg, s) && (m.mid != cfg.cmdMid || m.code <= 4 || m.code == 9 || m.code == 10 || m.code > 11)
    ensures Told(cfg, m, s, Act(cfg, s, Classify(cfg, m)), Emit(cfg, s, Classify(cfg, m)))
  {
  }

  lemma NumberedStepIsTold(cfg: Config, s: State, m: Message)
    requires Fits(cfg, s) && m.mid == cfg.cmdMid && 5 <= m.code <= 8
    ensures Told(cfg, m, s, Act(cfg, s, Classify(cfg, m)), Emit(cfg, s, Classify(cfg, m)))
  {
  }

  lemma SwapStepIsTold(cfg: Config, s: State, m: Message)
    requires Fits(cfg, s) && m.mid == cfg.cmdMid && m.code == 11
    ensures Told(cfg, m, s, Act(cfg, s, Classify(cfg, m)), Emit(cfg, s, Classify(cfg, m)))
  {
  }

  /** Every output of a run is true of the step that put it out, and every silent step
      is a tick or a Process command. */
  lemma OutputsAreTrue(cfg: Config, s: State, ms: seq<Message>, t: nat)
    requires Fits(cfg, s) && t < |ms|
    ensures var acts := Decode(cfg, ms); var was, now := Run(cfg, s, acts[..t]), Run(cfg, s, acts[..t + 1]);
      var out := Emit(cfg, was, acts[t]);
      Trace(cfg, s, acts[..t + 1]) == Trace(cfg, s, acts[..t]) + out && Told(cfg, ms[t], was, now, out)
  {
    var acts := Decode(cfg, ms);
    var was, m := Run(cfg, s, acts[..t]), ms[t];
    RunPrefix(cfg, s, acts, t);
    if m.mid == cfg.cmdMid && 5 <= m.code <= 8 {
      NumberedStepIsTold(cfg, was, m);
    } else if m.mid == cfg.cmdMid && m.code == 11 {
      SwapStepIsTold(cfg, was, m);
    } else {
      PlainStepIsTold(cfg, was, m);
    }
  }

  // ----- the last word on a status -----

  /** The output announces a change of the status of blinker i. */
  predicate Mentions(cfg: Config, o: Output, i: uint16) {
    || o == Sent(BlinkerEnabled(i)) || o == Sent(BlinkerDisabled(i))
    || ((o == Sent(AllEnabled) || o == Sent(AllDisabled)) && i < cfg.allBound)
  }

  lemma StatusStep(cfg: Config, s: State, a: Action, i: uint16)
    requires Fits(cfg, s) && a.InRange(cfg) && i < cfg.n
    ensures var out, r := Emit(cfg, s, a), Act(cfg, s, a);
      && |out| <= 1
      && r.statuses[i] ==
           if out == [] || !Mentions(cfg, out[0], i) then s.statuses[i]
           else if out[0] == Sent(BlinkerEnabled(i)) || out[0] == Sent(AllEnabled) then 1 else 0
  {
  }

  /** A status is what the last event about it said. */
  lemma {:induction false} LastEventHolds(cfg: Config, s: State, acts: seq<Action>, i: uint16, p: nat)
    requires Fits(cfg, s) && Good(cfg, acts) && i < cfg.n && p <= |Trace(cfg, s, acts)|
    requires forall q | p <= q < |Trace(cfg, s, acts)| :: !Mentions(cfg, Trace(cfg, s, acts)[q], i)
    ensures p == 0 ==> Run(cfg, s, acts).statuses[i] == s.statuses[i]
    ensures p > 0 && Trace(cfg, s, acts)[p - 1] == Sent(BlinkerEnabled(i)) ==> Run(cfg, s, acts).statuses[i] == 1
    ensures p > 0 && Trace(cfg, s, acts)[p - 1] == Sent(BlinkerDisabled(i)) ==> Run(cfg, s, acts).statuses[i] == 0
    ensures p > 0 && Trace(cfg, s, acts)[p - 1] == Sent(AllEnabled) && i < cfg.allBound ==>
      Run(cfg, s, acts).statuses[i] == 1
    ensures p > 0 && Trace(cfg, s, acts)[p - 1] == Sent(AllDisabled) && i < cfg.allBound ==>
      Run(cfg, s, acts).statuses[i] == 0
  {
    if acts == [] {
    } else {
      var before, a := acts[..|acts| - 1], acts[|acts| - 1];
      var log, out := Trace(cfg, s, before), Emit(cfg, Run(cfg, s, before), a);
      StatusStep(cfg, Run(cfg, s, before), a, i);
      if p <= |log| {
        forall q | p <= q < |log| ensures !Mentions(cfg, log[q], i) {
          assert log[q] == (log + out)[q];
        }
        LastEventHolds(cfg, s, before, i, p);
        assert out == [] || out[0] == (log + out)[|log|];
      }
    }
  }

  // ----- replaying the log -----

  /** The action an output records. */
  function Cause(o: Output): seq<Action> {
    match o
    case Telemetry(_) => [SendHk]
    case Sent(NoopInfo) => [Noop]
    case Sent(CountersReset) => [ResetCounters]
    case Sent(ParamInfo(p)) => [Display(p)]
    case Sent(AllReset) => [ResetAll]
    case Sent(AllEnabled) => [EnableAll]
    case Sent(AllDisabled) => [DisableAll]
    case Sent(BlinkerReset(i)) => [Reset(i)]
    case Sent(BlinkerCount(i, _)) => [Report(i)]
    case Sent(BlinkerEnabled(i)) => [Enable(i)]
    case Sent(BlinkerDisabled(i)) => [Disable(i)]
    case Sent(Swapped(i, j, _, _)) => [Swap(i, j)]
    case Sent(LengthError(mid, code, size, expected)) => [BadLength(mid, code, size, expected)]
    case Sent(CodeError(code)) => [BadCode(code)]
    case Sent(MidError(mid)) => [BadMid(mid)]
    case Sent(NumberError(i)) => [BadNumber(i)]
    case Sent(PairError(i, j)) => [BadPair(i, j)]
    case _ => []
  }

  function Flat<A, B>(f: A -> seq<B>, xs: seq<A>): seq<B> {
    if xs == [] then [] else Flat(f, xs[..|xs| - 1]) + f(xs[|xs| - 1])
  }

  lemma {:induction false} FlatConcat<A, B>(f: A -> seq<B>, xs: seq<A>, ys: seq<A>)
    ensures Flat(f, xs + ys) == Flat(f, xs) + Flat(f, ys)
  {
    if ys == [] {
      assert xs + ys == xs;
    } else {
      FlatConcat(f, xs, ys[..|ys| - 1]);
      assert (xs + ys)[..|xs + ys| - 1] == xs + ys[..|ys| - 1];
    }
  }

  /** The actions a log records, in order. */
  function Causes(log: seq<Output>): seq<Action> {
    Flat(Cause, log)
  }

  predicate Loud(a: Action) { !a.Tick? && !a.Process? }

  function LoudOnes(acts: seq<Action>): seq<Action> {
    if acts == [] then []
    else
      var rest := LoudOnes(acts[..|acts| - 1]);
      if Loud(acts[|acts| - 1]) then rest + [acts[|acts| - 1]] else rest
  }

  lemma {:induction false} LoudOnesAreGood(cfg: Config, acts: seq<Action>)
    requires Good(cfg, acts)
    ensures Good(cfg, LoudOnes(acts))
  {
    if acts == [] {
    } else {
      LoudOnesAreGood(cfg, acts[..|acts| - 1]);
    }
  }

  lemma CauseOfEmit(cfg: Config, s: State, a: Action)
    requires Fits(cfg, s) && a.InRange(cfg)
    ensures if Loud(a) then |Emit(cfg, s, a)| == 1 && Cause(Emit(cfg, s, a)[0]) == [a] else Emit(cfg, s, a) == []
  {
  }

  /** The log of a run records exactly its loud actions, in order and with their arguments. */
  lemma {:induction false} LogRecordsActions(cfg: Config, s: State, acts: seq<Action>)
    requires Fits(cfg, s) && Good(cfg, acts)
    ensures Causes(Trace(cfg, s, acts)) == LoudOnes(acts)
  {
    if acts == [] {
    } else {
      var before, a := acts[..|acts| - 1], acts[|acts| - 1];
      var out := Emit(cfg, Run(cfg, s, before), a);
      LogRecordsActions(cfg, s, before);
      CauseOfEmit(cfg, Run(cfg, s, before), a);
      FlatConcat(Cause, Trace(cfg, s, before), out);
      if Loud(a) {
        assert out == [out[0]];
        assert Flat(Cause, out) == Cause(out[0]);
      }
    }
  }

  /** Equal but for the counts. */
  ghost predicate SameButCounts(s: State, r: State) {
    s == r.(counts := s.counts)
  }

  lemma ReplayStep(cfg: Config, s: State, r: State, a: Action)
    requires Fits(cfg, s) && Fits(cfg, r) && SameButCounts(s, r) && a.InRange(cfg)
    ensures SameButCounts(Act(cfg, s, a), if Loud(a) then Act(cfg, r, a) else r)
  {
  }

  /** A replay of the loud actions ends in the same state but for the counts. */
  lemma {:induction false} LoudRunSame(cfg: Config, s: State, acts: seq<Action>)
    requires Fits(cfg, s) && Good(cfg, acts)
    ensures Good(cfg, LoudOnes(acts))
    ensures SameButCounts(Run(cfg, s, acts), Run(cfg, s, LoudOnes(acts)))
  {
    LoudOnesAreGood(cfg, acts);
    if acts == [] {
    } else {
      var before, a := acts[..|acts| - 1], acts[|acts| - 1];
      LoudOnesAreGood(cfg, before);
      LoudRunSame(cfg, s, before);
      ReplayStep(cfg, Run(cfg, s, before), Run(cfg, s, LoudOnes(before)), a);
      if Loud(a) {
        RunSnoc(cfg, s, LoudOnes(before), a);
      }
    }
  }

  /** In the replay a count is what it owes to the initial state. */
  lemma {:induction false} LoudRunInherits(cfg: Config, s: State, acts: seq<Action>, i: nat, t: nat)
    requires Fits(cfg, s) && Good(cfg, acts) && i < cfg.n && t <= |acts|
    ensures Good(cfg, LoudOnes(acts[..t]))
    ensures Run(cfg, s, LoudOnes(acts[..t])).counts[i] == Inherited(cfg, s, acts, i, t)
    decreases t
  {
    LoudOnesAreGood(cfg, acts[..t]);
    if t == 0 {
    } else {
      var before, a := acts[..t - 1], acts[t - 1];
      var j := Back(a, i);
      assert acts[..t][..t - 1] == before;
      LoudRunInherits(cfg, s, acts, j, t - 1);
      InheritedStep(cfg, s, acts, i, t - 1);
      if Loud(a) {
        RunSnoc(cfg, s, LoudOnes(before), a);
        ActOnCount(cfg, Run(cfg, s, LoudOnes(before)), a, i);
      }
    }
  }

  lemma LoudRunOwes(cfg: Config, s: State, acts: seq<Action>, i: nat)
    requires Fits(cfg, s) && Good(cfg, acts) && i < cfg.n
    ensures Good(cfg, LoudOnes(acts))
    ensures TotalAt(cfg, s, acts, i, |acts|)
         == Run(cfg, s, LoudOnes(acts)).counts[i] + |TicksKept(cfg, s.statuses, acts, i, |acts|)|
  {
    var t := |acts|;
    assert acts[..t] == acts;
    LoudRunInherits(cfg, s, acts, i, t);
  }

  lemma AdvanceIsSum(total: nat, c: uint16, k: nat)
    requires total == c + k
    ensures Wrap16(total) == Advance(true, c, k)
  {
  }

  lemma LoudRunCount(cfg: Config, s: State, acts: seq<Action>, i: nat)
    requires Fits(cfg, s) && Good(cfg, acts) && i < cfg.n
    ensures Good(cfg, LoudOnes(acts))
    ensures var kept := |TicksKept(cfg, s.statuses, acts, i, |acts|)|;
      Run(cfg, s, acts).counts[i] == Advance(true, Run(cfg, s, LoudOnes(acts)).counts[i], kept)
  {
    CountIsTotal(cfg, s, acts, i);
    LoudRunOwes(cfg, s, acts, i);
    AdvanceIsSum(TotalAt(cfg, s, acts, i, |acts|), Run(cfg, s, LoudOnes(acts)).counts[i],
                 |TicksKept(cfg, s.statuses, acts, i, |acts|)|);
  }

  /** What the log tells of the state: everything but the ticks each count has kept. */
  lemma ReplayOfLog(cfg: Config, s: State, acts: seq<Action>, i: nat)
    requires Fits(cfg, s) && Good(cfg, acts) && i < cfg.n
    ensures Good(cfg, Causes(Trace(cfg, s, acts)))
    ensures var now, told := Run(cfg, s, acts), Run(cfg, s, Causes(Trace(cfg, s, acts)));
      && SameButCounts(now, told)
      && now.counts[i] == Advance(true, told.counts[i], |TicksKept(cfg, s.statuses, acts, i, |acts|)|)
  {
    LogRecordsActions(cfg, s, acts);
    LoudRunSame(cfg, s, acts);
    LoudRunCount(cfg, s, acts, i);
  }

  lemma AdvanceIsNothing(c: uint16, k: nat)
    ensures Advance(true, c, k) == c <==> k % 0x1_0000 == 0
  {
    WrapAdd(c, k);
    Wrap16IsMod(k);
  }

  /** So a count can be read off the log exactly when it has kept a multiple of 65536 ticks. */
  lemma ReplayIsExactIff(cfg: Config, s: State, acts: seq<Action>, i: nat)
    requires Fits(cfg, s) && Good(cfg, acts) && i < cfg.n
    ensures Good(cfg, Causes(Trace(cfg, s, acts)))
    ensures var now, told := Run(cfg, s, acts), Run(cfg, s, Causes(Trace(cfg, s, acts)));
      now.counts[i] == told.counts[i] <==> |TicksKept(cfg, s.statuses, acts, i, |acts|)| % 0x1_0000 == 0
  {
    ReplayOfLog(cfg, s, acts, i);
    AdvanceIsNothing(Run(cfg, s, Causes(Trace(cfg, s, acts))).counts[i],
                     |TicksKept(cfg, s.statuses, acts, i, |acts|)|);
  }

  /** Two runs from the same state with the same log differ at most in their counts. */
  lemma SameLogSameState(cfg: Config, s: State, xs: seq<Action>, ys: seq<Action>)
    requires Fits(cfg, s) && Good(cfg, xs) && Good(cfg, ys) && Trace(cfg, s, xs) == Trace(cfg, s, ys)
    ensures LoudOnes(xs) == LoudOnes(ys)
    ensures SameButCounts(Run(cfg, s, xs), Run(cfg, s, ys))
  {
    LogRecordsActions(cfg, s, xs);
    LogRecordsActions(cfg, s, ys);
    LoudRunSame(cfg, s, xs);
    LoudRunSame(cfg, s, ys);
  }

  // ----- the log of a whole life -----

  lemma {:induction false} FlatOfNothing<A, B>(f: A -> seq<B>, xs: seq<A>)
    requires forall k | 0 <= k < |xs| :: f(xs[k]) == []
    ensures Flat(f, xs) == []
  {
    if xs == [] {
    } else {
      FlatOfNothing(f, xs[..|xs| - 1]);
    }
  }

  lemma FlatOfMiddle<A, B>(f: A -> seq<B>, xs: seq<A>, ys: seq<A>, zs: seq<A>)
    requires Flat(f, xs) == [] && forall k | 0 <= k < |zs| :: f(zs[k]) == []
    ensures Flat(f, xs + ys + zs) == Flat(f, ys)
  {
    FlatOfNothing(f, zs);
    FlatConcat(f, xs, ys);
    FlatConcat(f, xs + ys, zs);
  }

  lemma StartRecordsNothing(results: InitCall -> int)
    ensures Causes(InitLog(results)) == []
  {
    FlatOfNothing(Cause, InitLog(results));
  }

  /** From start to exit, the log records the loud actions and nothing else. */
  lemma LifeRecordsActions(cfg: Config, results: InitCall -> int, acts: seq<Action>, failed: bool)
    requires Good(cfg, acts)
    ensures Causes(InitLog(results) + Trace(cfg, ZeroState(cfg), acts) + if failed then [Sent(PipeReadError)] else [])
         == LoudOnes(acts)
  {
    var start, outs := InitLog(results), Trace(cfg, ZeroState(cfg), acts);
    var last := if failed then [Sent(PipeReadError)] else [];
    assert Flat(Cause, start) == [] by { StartRecordsNothing(results); }
    assert Flat(Cause, outs) == LoudOnes(acts) by { LogRecordsActions(cfg, ZeroState(cfg), acts); }
    assert Cause(Sent(PipeReadError)) == [];
    FlatOfMiddle(Cause, start, outs, last);
  }
}
