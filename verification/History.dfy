/** What the state and the outputs are, told from the message history alone.
    Nothing here follows the state from message to message: a count is a number
    of past ticks, a status is the last thing written to it, a housekeeping
    counter is a number of past commands. The theorems say the machine agrees. */
module History {
  import opened Types
  import opened Wrapping
  import opened Machine

  // ----- following one count backwards -----

  /** Where the count found in slot i after `a` was before `a`. */
  function Back(a: Action, i: nat): nat {
    match a
    case Swap(p, q) => if i == p then q else if i == q then p else i
    case _ => i
  }

  /** The slot that held, after k messages, the count found in slot i after t messages. */
  function Slot(cfg: Config, acts: seq<Action>, i: nat, k: nat, t: nat): (r: nat)
    requires Good(cfg, acts) && i < cfg.n && k <= t <= |acts|
    ensures r < cfg.n
    decreases t
  {
    if k == t then i else Slot(cfg, acts, Back(acts[t - 1], i), k, t - 1)
  }

  predicate Clears(cfg: Config, a: Action, i: nat) {
    match a
    case Reset(p) => i == p
    case ResetAll => i < cfg.allBound
    case _ => false
  }

  /** Message q reset the count found in slot i after t messages. */
  predicate ClearedBy(cfg: Config, acts: seq<Action>, i: nat, q: nat, t: nat)
    requires Good(cfg, acts) && i < cfg.n && q < t <= |acts|
  {
    Clears(cfg, acts[q], Slot(cfg, acts, i, q, t))
  }

  /** No message from number k on reset the count found in slot i after t messages. */
  ghost predicate Survives(cfg: Config, acts: seq<Action>, i: nat, k: nat, t: nat)
    requires Good(cfg, acts) && i < cfg.n && k <= t <= |acts|
  {
    forall q | k <= q < t :: !ClearedBy(cfg, acts, i, q, t)
  }

  // ----- statuses -----

  datatype Write = Keep | Put(value: uint8)

  function StatusWrite(cfg: Config, a: Action, i: nat): Write {
    match a
    case Enable(p) => if i == p then Put(1) else Keep
    case Disable(p) => if i == p then Put(0) else Keep
    case EnableAll => if i < cfg.allBound then Put(1) else Keep
    case DisableAll => if i < cfg.allBound then Put(0) else Keep
    case _ => Keep
  }

  /** The last status written to slot i by the first t messages, else the initial one. */
  function StatusAt(cfg: Config, init: seq<uint8>, acts: seq<Action>, i: nat, t: nat): uint8
    requires Good(cfg, acts) && |init| == cfg.n && i < cfg.n && t <= |acts|
  {
    if t == 0 then init[i]
    else
      match StatusWrite(cfg, acts[t - 1], i)
      case Put(v) => v
      case Keep => StatusAt(cfg, init, acts, i, t - 1)
  }

  // ----- counts -----

  /** Message k is a tick that the count found in slot i after t messages has felt
      and kept: the slot that held it was enabled then, and no reset has hit it since. */
  ghost predicate TickKept(cfg: Config, init: seq<uint8>, acts: seq<Action>, i: nat, t: nat, k: nat)
    requires Good(cfg, acts) && |init| == cfg.n && i < cfg.n && k < t <= |acts|
  {
    && acts[k].Tick?
    && StatusAt(cfg, init, acts, Slot(cfg, acts, i, k, t), k) != 0
    && Survives(cfg, acts, i, k, t)
  }

  ghost function TicksKept(cfg: Config, init: seq<uint8>, acts: seq<Action>, i: nat, t: nat): set<nat>
    requires Good(cfg, acts) && |init| == cfg.n && i < cfg.n && t <= |acts|
  {
    set k: nat | k < t && TickKept(cfg, init, acts, i, t, k)
  }

  /** What the count found in slot i after t messages still owes to the initial state. */
  ghost function Inherited(cfg: Config, s: State, acts: seq<Action>, i: nat, t: nat): uint16
    requires Fits(cfg, s) && Good(cfg, acts) && i < cfg.n && t <= |acts|
  {
    if Survives(cfg, acts, i, 0, t) then s.counts[Slot(cfg, acts, i, 0, t)] else 0
  }

  /** The count as it would be if it never wrapped. */
  ghost function TotalAt(cfg: Config, s: State, acts: seq<Action>, i: nat, t: nat): nat
    requires Fits(cfg, s) && Good(cfg, acts) && i < cfg.n && t <= |acts|
  {
    Inherited(cfg, s, acts, i, t) + |TicksKept(cfg, s.statuses, acts, i, t)|
  }

  ghost function CountAt(cfg: Config, s: State, acts: seq<Action>, i: nat, t: nat): uint16
    requires Fits(cfg, s) && Good(cfg, acts) && i < cfg.n && t <= |acts|
  {
    Wrap16(TotalAt(cfg, s, acts, i, t))
  }

  // ----- command counters -----

  ghost predicate CountersKept(acts: seq<Action>, k: nat, t: nat)
    requires k <= t <= |acts|
  {
    forall q | k <= q < t :: !acts[q].ResetCounters?
  }

  ghost function Noops(acts: seq<Action>, t: nat): set<nat>
    requires t <= |acts|
  {
    set k: nat | k < t && acts[k].Noop? && CountersKept(acts, k, t)
  }

  ghost function WrongLengths(acts: seq<Action>, t: nat): set<nat>
    requires t <= |acts|
  {
    set k: nat | k < t && acts[k].BadLength? && CountersKept(acts, k, t)
  }

  ghost function CmdCounterAt(s: State, acts: seq<Action>, t: nat): uint8
    requires t <= |acts|
  {
    Wrap8((if CountersKept(acts, 0, t) then s.cmdCounter else 0) + |Noops(acts, t)|)
  }

  ghost function ErrCounterAt(s: State, acts: seq<Action>, t: nat): uint8
    requires t <= |acts|
  {
    Wrap8((if CountersKept(acts, 0, t) then s.errCounter else 0) + |WrongLengths(acts, t)|)
  }

  // ----- outputs -----

  /** The outputs of message number t. */
  ghost function OutputAt(cfg: Config, s: State, acts: seq<Action>, t: nat): seq<Output>
    requires Fits(cfg, s) && Good(cfg, acts) && t < |acts|
  {
    match acts[t]
    case SendHk => [Telemetry(Hk(ErrCounterAt(s, acts, t), CmdCounterAt(s, acts, t), s.hk.statuses, s.hk.counts))]
    case Report(i) => [Sent(BlinkerCount(i, CountAt(cfg, s, acts, i, t)))]
    case Swap(i, j) => [Sent(Swapped(i, j, CountAt(cfg, s, acts, i, t + 1), CountAt(cfg, s, acts, j, t + 1)))]
    case Tick => []
    case Process => []
    case Noop => [Sent(NoopInfo)]
    case ResetCounters => [Sent(CountersReset)]
    case Display(p) => [Sent(ParamInfo(p))]
    case ResetAll => [Sent(AllReset)]
    case EnableAll => [Sent(AllEnabled)]
    case DisableAll => [Sent(AllDisabled)]
    case Reset(i) => [Sent(BlinkerReset(i))]
    case Enable(i) => [Sent(BlinkerEnabled(i))]
    case Disable(i) => [Sent(BlinkerDisabled(i))]
    case BadLength(mid, code, size, expected) => [Sent(LengthError(mid, code, size, expected))]
    case BadCode(code) => [Sent(CodeError(code))]
    case BadMid(mid) => [Sent(MidError(mid))]
    case BadNumber(i) => [Sent(NumberError(i))]
    case BadPair(i, j) => [Sent(PairError(i, j))]
  }

  ghost function HistoryTrace(cfg: Config, s: State, acts: seq<Action>, t: nat): seq<Output>
    requires Fits(cfg, s) && Good(cfg, acts) && t <= |acts|
  {
    if t == 0 then [] else HistoryTrace(cfg, s, acts, t - 1) + OutputAt(cfg, s, acts, t - 1)
  }

  // ----- the machine agrees -----

  lemma ActOnStatus(cfg: Config, s: State, a: Action, i: nat)
    requires Fits(cfg, s) && a.InRange(cfg) && i < cfg.n
    ensures Act(cfg, s, a).statuses[i] == match StatusWrite(cfg, a, i) case Put(v) => v case Keep => s.statuses[i]
  {
  }

  lemma {:induction false} StatusIsLastWrite(cfg: Config, s: State, acts: seq<Action>, i: nat, t: nat)
    requires Fits(cfg, s) && Good(cfg, acts) && i < cfg.n && t <= |acts|
    ensures Run(cfg, s, acts[..t]).statuses[i] == StatusAt(cfg, s.statuses, acts, i, t)
  {
    if t == 0 {
    } else {
      StatusIsLastWrite(cfg, s, acts, i, t - 1);
      RunPrefix(cfg, s, acts, t - 1);
      ActOnStatus(cfg, Run(cfg, s, acts[..t - 1]), acts[t - 1], i);
    }
  }

  /** StatusAt, said with quantifiers: message k decides when it is the last to write. */
  lemma {:induction false} LastWriterWins(cfg: Config, s: State, acts: seq<Action>, i: nat, k: nat)
    requires Fits(cfg, s) && Good(cfg, acts) && i < cfg.n && k <= |acts|
    requires forall q | k <= q < |acts| :: StatusWrite(cfg, acts[q], i) == Keep
    ensures k == 0 ==> Run(cfg, s, acts).statuses[i] == s.statuses[i]
    ensures k > 0 && StatusWrite(cfg, acts[k - 1], i).Put? ==>
      Run(cfg, s, acts).statuses[i] == StatusWrite(cfg, acts[k - 1], i).value
  {
    var t := |acts|;
    while t > k
      invariant k <= t <= |acts|
      invariant StatusAt(cfg, s.statuses, acts, i, |acts|) == StatusAt(cfg, s.statuses, acts, i, t)
    {
      t := t - 1;
    }
    StatusIsLastWrite(cfg, s, acts, i, |acts|);
    assert acts[..|acts|] == acts;
  }

  lemma SurvivesStep(cfg: Config, acts: seq<Action>, i: nat, k: nat, t: nat)
    requires Good(cfg, acts) && i < cfg.n && k <= t < |acts|
    ensures var j := Back(acts[t], i);
      Survives(cfg, acts, i, k, t + 1) <==> Survives(cfg, acts, j, k, t) && !Clears(cfg, acts[t], j)
  {
    var j := Back(acts[t], i);
    forall q: nat | k <= q < t
      ensures ClearedBy(cfg, acts, j, q, t) <==> ClearedBy(cfg, acts, i, q, t + 1)
    {
      assert Slot(cfg, acts, i, q, t + 1) == Slot(cfg, acts, j, q, t);
    }
    assert Slot(cfg, acts, i, t, t + 1) == Slot(cfg, acts, j, t, t) == j;
    assert ClearedBy(cfg, acts, i, t, t + 1) <==> Clears(cfg, acts[t], j);
    if Survives(cfg, acts, j, k, t) && !Clears(cfg, acts[t], j) {
      var t' := t + 1;
      assert forall q | k <= q < t' :: !ClearedBy(cfg, acts, i, q, t') by {
        forall q | k <= q < t'
          ensures !ClearedBy(cfg, acts, i, q, t')
        {
          assert q < t ==> !ClearedBy(cfg, acts, j, q, t);
        }
      }
    }
  }

  /** How the size of a set of message numbers changes with message t. */
  lemma SetStep(before: set<nat>, after: set<nat>, t: nat, cleared: bool, felt: bool)
    requires forall k | k in before :: k < t
    requires forall k | k in after :: k <= t
    requires forall k: nat | k < t :: k in after <==> !cleared && k in before
    requires t in after <==> !cleared && felt
    ensures |after| == if cleared then 0 else |before| + if felt then 1 else 0
  {
    assert after == if cleared then {} else before + if felt then {t} else {};
  }

  lemma TickKeptStep(cfg: Config, init: seq<uint8>, acts: seq<Action>, i: nat, t: nat, k: nat)
    requires Good(cfg, acts) && |init| == cfg.n && i < cfg.n && k <= t < |acts|
    ensures var a := acts[t]; var j := Back(a, i);
      TickKept(cfg, init, acts, i, t + 1, k) <==>
        !Clears(cfg, a, j) &&
        if k < t then TickKept(cfg, init, acts, j, t, k) else a.Tick? && StatusAt(cfg, init, acts, j, t) != 0
  {
    var j := Back(acts[t], i);
    assert Slot(cfg, acts, i, k, t + 1) == Slot(cfg, acts, j, k, t);
    SurvivesStep(cfg, acts, i, k, t);
  }

  lemma TicksKeptStep(cfg: Config, init: seq<uint8>, acts: seq<Action>, i: nat, t: nat)
    requires Good(cfg, acts) && |init| == cfg.n && i < cfg.n && t < |acts|
    ensures var a := acts[t]; var j := Back(a, i);
      |TicksKept(cfg, init, acts, i, t + 1)| ==
        if Clears(cfg, a, j) then 0
        else |TicksKept(cfg, init, acts, j, t)| + if a.Tick? && StatusAt(cfg, init, acts, j, t) != 0 then 1 else 0
  {
    var a := acts[t];
    var j := Back(a, i);
    var before, after := TicksKept(cfg, init, acts, j, t), TicksKept(cfg, init, acts, i, t + 1);
    forall k: nat | k <= t
      ensures k in after <==>
              !Clears(cfg, a, j) && if k < t then k in before else a.Tick? && StatusAt(cfg, init, acts, j, t) != 0
    {
      TickKeptStep(cfg, init, acts, i, t, k);
    }
    SetStep(before, after, t, Clears(cfg, a, j), a.Tick? && StatusAt(cfg, init, acts, j, t) != 0);
  }

  lemma InheritedStep(cfg: Config, s: State, acts: seq<Action>, i: nat, t: nat)
    requires Fits(cfg, s) && Good(cfg, acts) && i < cfg.n && t < |acts|
    ensures var a := acts[t]; var j := Back(a, i);
      Inherited(cfg, s, acts, i, t + 1) == if Clears(cfg, a, j) then 0 else Inherited(cfg, s, acts, j, t)
  {
    SurvivesStep(cfg, acts, i, 0, t);
  }

  lemma TotalAtStep(cfg: Config, s: State, acts: seq<Action>, i: nat, t: nat)
    requires Fits(cfg, s) && Good(cfg, acts) && i < cfg.n && t < |acts|
    ensures var a := acts[t]; var j := Back(a, i);
      TotalAt(cfg, s, acts, i, t + 1) ==
        if Clears(cfg, a, j) then 0
        else TotalAt(cfg, s, acts, j, t) + if a.Tick? && StatusAt(cfg, s.statuses, acts, j, t) != 0 then 1 else 0
  {
    InheritedStep(cfg, s, acts, i, t);
    TicksKeptStep(cfg, s.statuses, acts, i, t);
  }

  /** One step of the machine, read off a slot and the slot its count came from. */
  lemma ActOnCount(cfg: Config, s: State, a: Action, i: nat)
    requires Fits(cfg, s) && a.InRange(cfg) && i < cfg.n
    ensures var j := Back(a, i);
      Act(cfg, s, a).counts[i] ==
        if Clears(cfg, a, j) then 0
        else if a.Tick? && s.statuses[j] != 0 then Inc16(s.counts[j])
        else s.counts[j]
  {
  }

  /** If state and history agree before message t, they agree after it. */
  lemma CountStep(cfg: Config, s: State, acts: seq<Action>, i: nat, t: nat, now: State)
    requires Fits(cfg, s) && Good(cfg, acts) && i < cfg.n && t < |acts| && Fits(cfg, now)
    requires var j := Back(acts[t], i);
      now.counts[j] == CountAt(cfg, s, acts, j, t) && now.statuses[j] == StatusAt(cfg, s.statuses, acts, j, t)
    ensures Act(cfg, now, acts[t]).counts[i] == CountAt(cfg, s, acts, i, t + 1)
  {
    TotalAtStep(cfg, s, acts, i, t);
    ActOnCount(cfg, now, acts[t], i);
    WrapInc(TotalAt(cfg, s, acts, Back(acts[t], i), t));
  }

  /** The closed form: after any run a count is what its value's own past makes it. */
  lemma {:induction false} CountIsHistory(cfg: Config, s: State, acts: seq<Action>, i: nat, t: nat)
    requires Fits(cfg, s) && Good(cfg, acts) && i < cfg.n && t <= |acts|
    ensures Run(cfg, s, acts[..t]).counts[i] == CountAt(cfg, s, acts, i, t)
    decreases t
  {
    if t == 0 {
      assert TicksKept(cfg, s.statuses, acts, i, 0) == {};
    } else {
      var j := Back(acts[t - 1], i);
      CountIsHistory(cfg, s, acts, j, t - 1);
      StatusIsLastWrite(cfg, s, acts, j, t - 1);
      CountStep(cfg, s, acts, i, t - 1, Run(cfg, s, acts[..t - 1]));
      RunPrefix(cfg, s, acts, t - 1);
    }
  }

  lemma CountIsTotal(cfg: Config, s: State, acts: seq<Action>, i: nat)
    requires Fits(cfg, s) && Good(cfg, acts) && i < cfg.n
    ensures Run(cfg, s, acts).counts[i] == Wrap16(TotalAt(cfg, s, acts, i, |acts|))
  {
    CountIsHistory(cfg, s, acts, i, |acts|);
    assert acts[..|acts|] == acts;
  }

  /** The closed form for whole runs, in ordinary arithmetic. */
  lemma ClosedForm(cfg: Config, s: State, acts: seq<Action>, i: nat)
    requires Fits(cfg, s) && Good(cfg, acts) && i < cfg.n
    ensures Run(cfg, s, acts).counts[i] == TotalAt(cfg, s, acts, i, |acts|) % 0x1_0000
  {
    CountIsTotal(cfg, s, acts, i);
    Wrap16IsMod(TotalAt(cfg, s, acts, i, |acts|));
  }

  lemma CountersKeptStep(acts: seq<Action>, k: nat, t: nat)
    requires k <= t < |acts|
    ensures CountersKept(acts, k, t + 1) <==> CountersKept(acts, k, t) && !acts[t].ResetCounters?
  {
  }

  lemma CounterSetsStep(acts: seq<Action>, t: nat)
    requires t < |acts|
    ensures var a := acts[t];
      && |Noops(acts, t + 1)| ==
         (if a.ResetCounters? then 0 else |Noops(acts, t)| + (if a.Noop? then 1 else 0))
      && |WrongLengths(acts, t + 1)| ==
         (if a.ResetCounters? then 0 else |WrongLengths(acts, t)| + (if a.BadLength? then 1 else 0))
  {
    var a := acts[t];
    forall k: nat | k <= t
      ensures CountersKept(acts, k, t + 1) <==> CountersKept(acts, k, t) && !a.ResetCounters?
    {
      CountersKeptStep(acts, k, t);
    }
    SetStep(Noops(acts, t), Noops(acts, t + 1), t, a.ResetCounters?, a.Noop?);
    SetStep(WrongLengths(acts, t), WrongLengths(acts, t + 1), t, a.ResetCounters?, a.BadLength?);
  }

  lemma CountersAtStep(s: State, acts: seq<Action>, t: nat)
    requires t < |acts|
    ensures var a, cmd, err := acts[t], CmdCounterAt(s, acts, t), ErrCounterAt(s, acts, t);
      && CmdCounterAt(s, acts, t + 1) == (if a.ResetCounters? then 0 else if a.Noop? then Inc8(cmd) else cmd)
      && ErrCounterAt(s, acts, t + 1) == (if a.ResetCounters? then 0 else if a.BadLength? then Inc8(err) else err)
  {
    CountersKeptStep(acts, 0, t);
    CounterSetsStep(acts, t);
    var kept := CountersKept(acts, 0, t);
    WrapInc((if kept then s.cmdCounter else 0) + |Noops(acts, t)|);
    WrapInc((if kept then s.errCounter else 0) + |WrongLengths(acts, t)|);
  }

  lemma {:induction false} CountersAreHistory(cfg: Config, s: State, acts: seq<Action>, t: nat)
    requires Fits(cfg, s) && Good(cfg, acts) && t <= |acts|
    ensures Run(cfg, s, acts[..t]).cmdCounter == CmdCounterAt(s, acts, t)
    ensures Run(cfg, s, acts[..t]).errCounter == ErrCounterAt(s, acts, t)
  {
    if t == 0 {
      assert Noops(acts, 0) == {} && WrongLengths(acts, 0) == {};
    } else {
      CountersAreHistory(cfg, s, acts, t - 1);
      CountersAtStep(s, acts, t - 1);
      var before := Run(cfg, s, acts[..t - 1]);
      assert Run(cfg, s, acts[..t]) == Act(cfg, before, acts[t - 1]) by { RunPrefix(cfg, s, acts, t - 1); }
    }
  }

  /** The blinker arrays of the housekeeping packet are never written. */
  lemma {:induction false} PacketArraysUntouched(cfg: Config, s: State, acts: seq<Action>)
    requires Fits(cfg, s) && Good(cfg, acts)
    ensures Run(cfg, s, acts).hk.statuses == s.hk.statuses && Run(cfg, s, acts).hk.counts == s.hk.counts
  {
    if acts == [] {
    } else {
      PacketArraysUntouched(cfg, s, acts[..|acts| - 1]);
    }
  }

  lemma OutputIsHistory(cfg: Config, s: State, acts: seq<Action>, t: nat)
    requires Fits(cfg, s) && Good(cfg, acts) && t < |acts|
    ensures Emit(cfg, Run(cfg, s, acts[..t]), acts[t]) == OutputAt(cfg, s, acts, t)
  {
    match acts[t]
    case SendHk =>
      CountersAreHistory(cfg, s, acts, t);
      PacketArraysUntouched(cfg, s, acts[..t]);
    case Report(i) =>
      CountIsHistory(cfg, s, acts, i, t);
    case Swap(i, j) =>
      CountIsHistory(cfg, s, acts, i, t + 1);
      CountIsHistory(cfg, s, acts, j, t + 1);
      RunPrefix(cfg, s, acts, t);
    case _ =>
  }

  /** Observational refinement: the machine emits exactly what the history prescribes. */
  lemma {:induction false} TraceIsHistory(cfg: Config, s: State, acts: seq<Action>, t: nat)
    requires Fits(cfg, s) && Good(cfg, acts) && t <= |acts|
    ensures Trace(cfg, s, acts[..t]) == HistoryTrace(cfg, s, acts, t)
  {
    if t == 0 {
    } else {
      var before, out := HistoryTrace(cfg, s, acts, t - 1), OutputAt(cfg, s, acts, t - 1);
      assert Trace(cfg, s, acts[..t - 1]) == before by { TraceIsHistory(cfg, s, acts, t - 1); }
      assert Trace(cfg, s, acts[..t]) == before + out by {
        RunPrefix(cfg, s, acts, t - 1);
        OutputIsHistory(cfg, s, acts, t - 1);
      }
    }
  }

  // ----- telemetry -----

  /** A packet sent at moment t of a run from the zeroed state carries, modulo 256, the
      wrong-length commands and the NOOPs since the last counter reset, and no blinker data. */
  lemma PacketIsHistory(cfg: Config, acts: seq<Action>, t: nat)
    requires Good(cfg, acts) && t < |acts| && acts[t].SendHk?
    ensures var out := Emit(cfg, Run(cfg, ZeroState(cfg), acts[..t]), acts[t]);
      && |out| == 1 && out[0].Telemetry?
      && out[0].packet.errors == |WrongLengths(acts, t)| % 0x100
      && out[0].packet.commands == |Noops(acts, t)| % 0x100
      && |out[0].packet.statuses| == cfg.n && |out[0].packet.counts| == cfg.n
      && forall i | 0 <= i < cfg.n :: out[0].packet.statuses[i] == 0 && out[0].packet.counts[i] == 0
  {
    OutputIsHistory(cfg, ZeroState(cfg), acts, t);
    Wrap8IsMod(|WrongLengths(acts, t)|);
    Wrap8IsMod(|Noops(acts, t)|);
  }

  ghost predicate SaneTelemetry(cfg: Config, o: Output) {
    o.Telemetry? ==>
      && o.packet.errors < 0x100 && o.packet.commands < 0x100
      && |o.packet.statuses| == cfg.n && |o.packet.counts| == cfg.n
      && forall i | 0 <= i < cfg.n :: o.packet.statuses[i] == 0 && o.packet.counts[i] == 0
  }

  /** From the zeroed state, no packet ever carries a blinker status or count, and
      neither 16-bit counter field exceeds 255. */
  lemma {:induction false} TelemetryStaysSmall(cfg: Config, acts: seq<Action>)
    requires Good(cfg, acts)
    ensures forall o | o in Trace(cfg, ZeroState(cfg), acts) :: SaneTelemetry(cfg, o)
  {
    if acts == [] {
    } else {
      var before := acts[..|acts| - 1];
      TelemetryStaysSmall(cfg, before);
      PacketArraysUntouched(cfg, ZeroState(cfg), before);
    }
  }

  /** Statuses are 0 or 1 along every run from the zeroed state. */
  lemma {:induction false} StatusesStayBinary(cfg: Config, s: State, acts: seq<Action>)
    requires Fits(cfg, s) && Good(cfg, acts) && forall i | 0 <= i < cfg.n :: s.statuses[i] <= 1
    ensures forall i | 0 <= i < cfg.n :: Run(cfg, s, acts).statuses[i] <= 1
  {
    if acts == [] {
    } else {
      StatusesStayBinary(cfg, s, acts[..|acts| - 1]);
    }
  }
}
