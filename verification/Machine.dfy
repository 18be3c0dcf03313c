/** The app as a pure state machine. `Classify` says how the dispatcher treats
    a message, `Act` and `Emit` what then happens to the state and what leaves
    the app; `Run` and `Trace` extend them to message sequences. */
module Machine {
  import opened Types
  import opened Wrapping

  datatype Action =
    | SendHk
    | Tick
    | Noop
    | ResetCounters
    | Process
    | Display(p: Param)
    | ResetAll
    | EnableAll
    | DisableAll
    | Reset(i: uint16)
    | Report(i: uint16)
    | Enable(i: uint16)
    | Disable(i: uint16)
    | Swap(i: uint16, j: uint16)
    | BadLength(mid: uint32, code: uint16, size: nat, expected: nat)
    | BadCode(code: uint16)
    | BadMid(mid: uint32)
    | BadNumber(i: uint16)
    | BadPair(i: uint16, j: uint16)
  {
    predicate Rejected() { BadLength? || BadCode? || BadMid? || BadNumber? || BadPair? }

    /** Accepted blinker numbers are indices of the arrays. */
    predicate InRange(cfg: Config) {
      match this
      case Reset(i) => i < cfg.n
      case Report(i) => i < cfg.n
      case Enable(i) => i < cfg.n
      case Disable(i) => i < cfg.n
      case Swap(i, j) => i < cfg.n && j < cfg.n
      case _ => true
    }
  }

  predicate KnownCode(code: uint16) { code <= SWAP_TWO_BLINKERS_CC }

  function ExpectedSize(cfg: Config, code: uint16): nat {
    if code == DISPLAY_PARAM_CC then cfg.displaySize
    else if RESET_SPEC_BLINKER_CC <= code <= DISABLE_SPEC_BLINKER_CC then cfg.specSize
    else if code == SWAP_TWO_BLINKERS_CC then cfg.swapSize
    else cfg.noArgsSize
  }

  function Classify(cfg: Config, m: Message): (a: Action)
    ensures a.InRange(cfg)
  {
    if m.mid == cfg.hkMid then SendHk
    else if m.mid == cfg.blinkMid then Tick
    else if m.mid != cfg.cmdMid then BadMid(m.mid)
    else if !KnownCode(m.code) then BadCode(m.code)
    else if m.size != ExpectedSize(cfg, m.code) then BadLength(m.mid, m.code, m.size, ExpectedSize(cfg, m.code))
    else if m.code == NOOP_CC then Noop
    else if m.code == RESET_COUNTERS_CC then ResetCounters
    else if m.code == PROCESS_CC then Process
    else if m.code == DISPLAY_PARAM_CC then Display(m.param)
    else if m.code == RESET_ALL_BLINKERS_CC then ResetAll
    else if m.code == ENABLE_ALL_BLINKERS_CC then EnableAll
    else if m.code == DISABLE_ALL_BLINKERS_CC then DisableAll
    else if m.code == SWAP_TWO_BLINKERS_CC then
      if m.word1 >= cfg.n || m.word2 >= cfg.n then BadPair(m.word1, m.word2) else Swap(m.word1, m.word2)
    else if m.word1 >= cfg.n then BadNumber(m.word1)
    else if m.code == RESET_SPEC_BLINKER_CC then Reset(m.word1)
    else if m.code == REPORT_SPEC_BLINKER_CC then Report(m.word1)
    else if m.code == ENABLE_SPEC_BLINKER_CC then Enable(m.word1)
    else Disable(m.word1)
  }

  // ----- one step -----

  ghost predicate Fits(cfg: Config, s: State) {
    |s.counts| == cfg.n && |s.statuses| == cfg.n && |s.hk.statuses| == cfg.n && |s.hk.counts| == cfg.n
  }

  function ZeroState(cfg: Config): (s: State)
    ensures Fits(cfg, s)
    ensures forall k | 0 <= k < cfg.n ::
      s.counts[k] == 0 && s.statuses[k] == 0 && s.hk.statuses[k] == 0 && s.hk.counts[k] == 0
  {
    var zeros := seq(cfg.n, _ => 0);
    State(zeros, zeros, 0, 0, Hk(0, 0, zeros, zeros))
  }

  function Ticked(counts: seq<uint16>, statuses: seq<uint8>): (r: seq<uint16>)
    requires |counts| == |statuses|
    ensures |r| == |counts|
    ensures forall k | 0 <= k < |r| :: r[k] == if statuses[k] != 0 then Inc16(counts[k]) else counts[k]
  {
    seq(|counts|, k requires 0 <= k < |counts| => if statuses[k] != 0 then Inc16(counts[k]) else counts[k])
  }

  function Filled<T>(xs: seq<T>, bound: nat, v: T): (r: seq<T>)
    requires bound <= |xs|
    ensures |r| == |xs|
    ensures forall k | 0 <= k < |r| :: r[k] == if k < bound then v else xs[k]
  {
    seq(|xs|, k requires 0 <= k < |xs| => if k < bound then v else xs[k])
  }

  function Exchanged<T>(xs: seq<T>, i: nat, j: nat): (r: seq<T>)
    requires i < |xs| && j < |xs|
    ensures |r| == |xs|
    ensures forall k | 0 <= k < |r| :: r[k] == xs[if k == i then j else if k == j then i else k]
  {
    xs[i := xs[j]][j := xs[i]]
  }

  function Act(cfg: Config, s: State, a: Action): (r: State)
    requires Fits(cfg, s) && a.InRange(cfg)
    ensures Fits(cfg, r)
  {
    match a
    case SendHk => s.(hk := s.hk.(errors := s.errCounter, commands := s.cmdCounter))
    case Tick => s.(counts := Ticked(s.counts, s.statuses))
    case Noop => s.(cmdCounter := Inc8(s.cmdCounter))
    case ResetCounters => s.(cmdCounter := 0, errCounter := 0)
    case ResetAll => s.(counts := Filled(s.counts, cfg.allBound, 0))
    case EnableAll => s.(statuses := Filled(s.statuses, cfg.allBound, 1))
    case DisableAll => s.(statuses := Filled(s.statuses, cfg.allBound, 0))
    case Reset(i) => s.(counts := s.counts[i := 0])
    case Enable(i) => s.(statuses := s.statuses[i := 1])
    case Disable(i) => s.(statuses := s.statuses[i := 0])
    case Swap(i, j) => s.(counts := Exchanged(s.counts, i, j))
    case BadLength(_, _, _, _) => s.(errCounter := Inc8(s.errCounter))
    case _ => s
  }

  /** The output of an action whose report quotes nothing but the message. */
  function Announce(a: Action): seq<Output> {
    match a
    case Noop => [Sent(NoopInfo)]
    case ResetCounters => [Sent(CountersReset)]
    case Display(p) => [Sent(ParamInfo(p))]
    case ResetAll => [Sent(AllReset)]
    case EnableAll => [Sent(AllEnabled)]
    case DisableAll => [Sent(AllDisabled)]
    case Reset(i) => [Sent(BlinkerReset(i))]
    case Enable(i) => [Sent(BlinkerEnabled(i))]
    case Disable(i) => [Sent(BlinkerDisabled(i))]
    case BadLength(mid, code, size, expected) => [Sent(LengthError(mid, code, size, expected))]
    case BadCode(code) => [Sent(CodeError(code))]
    case BadMid(mid) => [Sent(MidError(mid))]
    case BadNumber(i) => [Sent(NumberError(i))]
    case BadPair(i, j) => [Sent(PairError(i, j))]
    case _ => []
  }

  function Emit(cfg: Config, s: State, a: Action): seq<Output>
    requires Fits(cfg, s) && a.InRange(cfg)
  {
    match a
    case SendHk => [Telemetry(s.hk.(errors := s.errCounter, commands := s.cmdCounter))]
    case Report(i) => [Sent(BlinkerCount(i, s.counts[i]))]
    // the event quotes the counts after the exchange
    case Swap(i, j) => [Sent(Swapped(i, j, s.counts[j], s.counts[i]))]
    case _ => Announce(a)
  }

  // ----- runs -----

  ghost predicate Good(cfg: Config, acts: seq<Action>) {
    forall k | 0 <= k < |acts| :: acts[k].InRange(cfg)
  }

  /** What the dispatcher makes of a sequence of messages. */
  function Decode(cfg: Config, ms: seq<Message>): (acts: seq<Action>)
    ensures |acts| == |ms| && Good(cfg, acts)
    ensures forall k | 0 <= k < |ms| :: acts[k] == Classify(cfg, ms[k])
  {
    seq(|ms|, k requires 0 <= k < |ms| => Classify(cfg, ms[k]))
  }

  function Run(cfg: Config, s: State, acts: seq<Action>): (r: State)
    requires Fits(cfg, s) && Good(cfg, acts)
    ensures Fits(cfg, r)
  {
    if acts == [] then s else Act(cfg, Run(cfg, s, acts[..|acts| - 1]), acts[|acts| - 1])
  }

  function Trace(cfg: Config, s: State, acts: seq<Action>): seq<Output>
    requires Fits(cfg, s) && Good(cfg, acts)
  {
    if acts == [] then []
    else
      var before := acts[..|acts| - 1];
      Trace(cfg, s, before) + Emit(cfg, Run(cfg, s, before), acts[|acts| - 1])
  }

  lemma RunSnoc(cfg: Config, s: State, acts: seq<Action>, a: Action)
    requires Fits(cfg, s) && Good(cfg, acts) && a.InRange(cfg)
    ensures Good(cfg, acts + [a])
    ensures Run(cfg, s, acts + [a]) == Act(cfg, Run(cfg, s, acts), a)
    ensures Trace(cfg, s, acts + [a]) == Trace(cfg, s, acts) + Emit(cfg, Run(cfg, s, acts), a)
  {
    assert (acts + [a])[..|acts|] == acts;
  }

  lemma {:induction false} RunConcat(cfg: Config, s: State, xs: seq<Action>, ys: seq<Action>)
    requires Fits(cfg, s) && Good(cfg, xs) && Good(cfg, ys)
    ensures Good(cfg, xs + ys)
    ensures Run(cfg, s, xs + ys) == Run(cfg, Run(cfg, s, xs), ys)
    ensures Trace(cfg, s, xs + ys) == Trace(cfg, s, xs) + Trace(cfg, Run(cfg, s, xs), ys)
  {
    if ys == [] {
      assert xs + ys == xs;
    } else {
      var ys0, a := ys[..|ys| - 1], ys[|ys| - 1];
      assert ys == ys0 + [a] && xs + ys == (xs + ys0) + [a];
      var s1 := Run(cfg, s, xs);
      RunConcat(cfg, s, xs, ys0);
      RunSnoc(cfg, s, xs + ys0, a);
      RunSnoc(cfg, s1, ys0, a);
      var out := Emit(cfg, Run(cfg, s, xs + ys0), a);
      assert Trace(cfg, s, xs) + Trace(cfg, s1, ys0) + out == Trace(cfg, s, xs) + (Trace(cfg, s1, ys0) + out);
    }
  }

  lemma RunConcat3(cfg: Config, s: State, xs: seq<Action>, ys: seq<Action>, zs: seq<Action>)
    requires Fits(cfg, s) && Good(cfg, xs) && Good(cfg, ys) && Good(cfg, zs)
    ensures Good(cfg, xs + ys + zs)
    ensures var s1 := Run(cfg, s, xs); var s2 := Run(cfg, s1, ys);
      && Run(cfg, s, xs + ys + zs) == Run(cfg, s2, zs)
      && Trace(cfg, s, xs + ys + zs) == Trace(cfg, s, xs) + Trace(cfg, s1, ys) + Trace(cfg, s2, zs)
  {
    RunConcat(cfg, s, xs, ys);
    RunConcat(cfg, s, xs + ys, zs);
  }

  lemma RunOne(cfg: Config, s: State, a: Action)
    requires Fits(cfg, s) && a.InRange(cfg)
    ensures Run(cfg, s, [a]) == Act(cfg, s, a)
    ensures Trace(cfg, s, [a]) == Emit(cfg, s, a)
  {
    assert [] + [a] == [a];
    RunSnoc(cfg, s, [], a);
  }

  /** State and outputs after the first t + 1 actions, from those after the first t. */
  lemma RunPrefix(cfg: Config, s: State, acts: seq<Action>, t: nat)
    requires Fits(cfg, s) && Good(cfg, acts) && t < |acts|
    ensures Run(cfg, s, acts[..t + 1]) == Act(cfg, Run(cfg, s, acts[..t]), acts[t])
    ensures Trace(cfg, s, acts[..t + 1])
         == Trace(cfg, s, acts[..t]) + Emit(cfg, Run(cfg, s, acts[..t]), acts[t])
  {
    assert acts[..t + 1] == acts[..t] + [acts[t]];
    RunSnoc(cfg, s, acts[..t], acts[t]);
  }

  // ----- building messages -----

  const NO_PARAM: Param := Param(0, 0, "")

  function Command(cfg: Config, code: uint16, word1: uint16, word2: uint16): Message
  {
    Message(cfg.cmdMid, code, ExpectedSize(cfg, code), word1, word2, NO_PARAM)
  }

  /** A message the dispatcher classifies as `a`. */
  function Encode(cfg: Config, a: Action): Message
    requires a.InRange(cfg) && !a.Rejected()
  {
    match a
    case SendHk => Message(cfg.hkMid, 0, cfg.noArgsSize, 0, 0, NO_PARAM)
    case Tick => Message(cfg.blinkMid, 0, cfg.noArgsSize, 0, 0, NO_PARAM)
    case Noop => Command(cfg, NOOP_CC, 0, 0)
    case ResetCounters => Command(cfg, RESET_COUNTERS_CC, 0, 0)
    case Process => Command(cfg, PROCESS_CC, 0, 0)
    case Display(p) => Command(cfg, DISPLAY_PARAM_CC, 0, 0).(param := p)
    case ResetAll => Command(cfg, RESET_ALL_BLINKERS_CC, 0, 0)
    case EnableAll => Command(cfg, ENABLE_ALL_BLINKERS_CC, 0, 0)
    case DisableAll => Command(cfg, DISABLE_ALL_BLINKERS_CC, 0, 0)
    case Reset(i) => Command(cfg, RESET_SPEC_BLINKER_CC, i, 0)
    case Report(i) => Command(cfg, REPORT_SPEC_BLINKER_CC, i, 0)
    case Enable(i) => Command(cfg, ENABLE_SPEC_BLINKER_CC, i, 0)
    case Disable(i) => Command(cfg, DISABLE_SPEC_BLINKER_CC, i, 0)
    case Swap(i, j) => Command(cfg, SWAP_TWO_BLINKERS_CC, i, j)
  }

  lemma ClassifyEncode(cfg: Config, a: Action)
    requires a.InRange(cfg) && !a.Rejected()
    ensures Classify(cfg, Encode(cfg, a)) == a
  {
  }

  lemma DecodeOne(cfg: Config, a: Action)
    requires a.InRange(cfg) && !a.Rejected()
    ensures Decode(cfg, [Encode(cfg, a)]) == [a]
  {
  }

  /** A ground command with a length the dispatcher refuses. */
  function Malformed(cfg: Config): (m: Message)
    ensures Classify(cfg, m).BadLength?
  {
    Command(cfg, NOOP_CC, 0, 0).(size := cfg.noArgsSize + 1)
  }
}
