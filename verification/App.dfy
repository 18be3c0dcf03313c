/** The app as it is written: one global structure, handlers that change it in
    place, the dispatcher, `Init` and `AppMain`. Every method is proved against the
    pure machine, and `AppMain` against the history of the messages it received. */
module App {
  import opened Types
  import opened Wrapping
  import opened Machine
  import opened Startup
  import opened History
  import opened Logbook

  lemma Reassociate<T>(xs: seq<T>, ys: seq<T>, zs: seq<T>)
    ensures xs + (ys + zs) + [] == xs + ys + [] + zs
  {
  }

  /** One more delivered message is one more action of the run. */
  lemma InboxRun(cfg: Config, start: seq<Output>, script: seq<Turn>, k: nat)
    requires k < |script| && forall j | 0 <= j <= k :: Delivers(script[j])
    ensures Delivers(script[k])
    ensures var acts, a := Decode(cfg, Inbox(script, k)), Classify(cfg, script[k].m);
      var now := Run(cfg, ZeroState(cfg), acts);
      && Run(cfg, ZeroState(cfg), Decode(cfg, Inbox(script, k + 1))) == Act(cfg, now, a)
      && start + Trace(cfg, ZeroState(cfg), Decode(cfg, Inbox(script, k + 1))) + []
         == start + Trace(cfg, ZeroState(cfg), acts) + [] + Emit(cfg, now, a)
  {
    var acts, a := Decode(cfg, Inbox(script, k)), Classify(cfg, script[k].m);
    assert Decode(cfg, Inbox(script, k + 1)) == acts + [a];
    RunSnoc(cfg, ZeroState(cfg), acts, a);
    Reassociate(start, Trace(cfg, ZeroState(cfg), acts), Emit(cfg, Run(cfg, ZeroState(cfg), acts), a));
  }

  lemma InboxHistory(cfg: Config, script: seq<Turn>, k: nat)
    requires k <= |script| && forall j | 0 <= j < k :: Delivers(script[j])
    ensures var acts := Decode(cfg, Inbox(script, k));
      Trace(cfg, ZeroState(cfg), acts) == HistoryTrace(cfg, ZeroState(cfg), acts, k)
  {
    var acts := Decode(cfg, Inbox(script, k));
    TraceIsHistory(cfg, ZeroState(cfg), acts, k);
    assert acts[..k] == acts;
  }

  /** What the app appended to its log records the loud actions. */
  lemma LifeLog(cfg: Config, before: seq<Output>, after: seq<Output>,
                results: InitCall -> int, acts: seq<Action>, failed: bool)
    requires Good(cfg, acts)
    requires after == before + InitLog(results) + Trace(cfg, ZeroState(cfg), acts)
                    + if failed then [Sent(PipeReadError)] else []
    ensures |before| <= |after| && Causes(after[|before|..]) == LoudOnes(acts)
  {
    assert after[|before|..] == InitLog(results) + Trace(cfg, ZeroState(cfg), acts)
                              + if failed then [Sent(PipeReadError)] else [];
    LifeRecordsActions(cfg, results, acts, failed);
  }

  class BlinkerApp {
    const cfg: Config

    var cmdCounter: uint8
    var errCounter: uint8
    var hkErrors: uint16
    var hkCommands: uint16
    const hkStatuses: array<uint8>
    const hkCounts: array<uint32>
    var runStatus: RunStatus
    const blinkerCounts: array<uint16>
    const blinkerStatuses: array<uint8>

    /** Events sent, packets transmitted and framework calls made, oldest first. */
    ghost var log: seq<Output>

    ghost predicate Valid()
      reads this
    {
      && cfg.AsWritten()
      && blinkerCounts.Length == cfg.n && blinkerStatuses.Length == cfg.n
      && hkStatuses.Length == cfg.n && hkCounts.Length == cfg.n
      && blinkerStatuses != hkStatuses
    }

    ghost function Abs(): (s: State)
      requires Valid()
      reads this, hkStatuses, hkCounts, blinkerCounts, blinkerStatuses
      ensures Fits(cfg, s)
    {
      State(blinkerCounts[..], blinkerStatuses[..], cmdCounter, errCounter,
            Hk(hkErrors, hkCommands, hkStatuses[..], hkCounts[..]))
    }

    constructor (cfg: Config)
      requires cfg.AsWritten()
      ensures Valid() && this.cfg == cfg && log == []
      ensures fresh(hkStatuses) && fresh(hkCounts) && fresh(blinkerCounts) && fresh(blinkerStatuses)
    {
      this.cfg := cfg;
      cmdCounter, errCounter, hkErrors, hkCommands := 0, 0, 0, 0;
      runStatus := Other(0);
      hkStatuses := new uint8[cfg.n];
      hkCounts := new uint32[cfg.n];
      blinkerCounts := new uint16[cfg.n];
      blinkerStatuses := new uint8[cfg.n];
      log := [];
    }

    // ----- command handlers -----

    method SendHkCmd() returns (status: int)
      requires Valid()
      modifies this`hkErrors, this`hkCommands, this`log
      ensures Abs() == Act(cfg, old(Abs()), SendHk) && log == old(log) + Emit(cfg, old(Abs()), SendHk)
      ensures status == SUCCESS
      ensures hkErrors == errCounter && hkCommands == cmdCounter
      ensures log == old(log) + [Telemetry(Hk(errCounter, cmdCounter, hkStatuses[..], hkCounts[..]))]
    {
      hkErrors := errCounter;
      hkCommands := cmdCounter;
      log := log + [Telemetry(Hk(hkErrors, hkCommands, hkStatuses[..], hkCounts[..]))];
      return SUCCESS;
    }

    method NoopCmd() returns (status: int)
      requires Valid()
      modifies this`cmdCounter, this`log
      ensures Abs() == Act(cfg, old(Abs()), Noop) && log == old(log) + Emit(cfg, old(Abs()), Noop)
      ensures status == SUCCESS
      ensures cmdCounter == if old(cmdCounter) == 255 then 0 else old(cmdCounter) + 1
      ensures log == old(log) + [Sent(NoopInfo)]
    {
      cmdCounter := Inc8(cmdCounter);
      log := log + [Sent(NoopInfo)];
      return SUCCESS;
    }

    method ResetCountersCmd() returns (status: int)
      requires Valid()
      modifies this`cmdCounter, this`errCounter, this`log
      ensures Abs() == Act(cfg, old(Abs()), ResetCounters) && log == old(log) + Emit(cfg, old(Abs()), ResetCounters)
      ensures status == SUCCESS
      ensures cmdCounter == 0 && errCounter == 0 && log == old(log) + [Sent(CountersReset)]
    {
      cmdCounter := 0;
      errCounter := 0;
      log := log + [Sent(CountersReset)];
      return SUCCESS;
    }

    method DisplayParamCmd(m: Message) returns (status: int)
      requires Valid()
      modifies this`log
      ensures log == old(log) + Emit(cfg, old(Abs()), Display(m.param))
      ensures status == SUCCESS
      ensures log == old(log) + [Sent(ParamInfo(m.param))]
    {
      log := log + [Sent(ParamInfo(m.param))];
      return SUCCESS;
    }

    method ResetAllBlinkersCmd() returns (status: int)
      requires Valid()
      modifies blinkerCounts, this`log
      ensures Abs() == Act(cfg, old(Abs()), ResetAll) && log == old(log) + Emit(cfg, old(Abs()), ResetAll)
      ensures status == SUCCESS
      ensures forall k | 0 <= k < cfg.n :: blinkerCounts[k] == if k < cfg.n - 1 then 0 else old(blinkerCounts[k])
      ensures log == old(log) + [Sent(AllReset)]
    {
      for i := 0 to cfg.n - 1
        invariant blinkerCounts[..] == Filled(old(blinkerCounts[..]), i, 0)
        invariant log == old(log)
      {
        blinkerCounts[i] := 0;
      }
      log := log + [Sent(AllReset)];
      return SUCCESS;
    }

    method EnableAllBlinkersCmd() returns (status: int)
      requires Valid()
      modifies blinkerStatuses, this`log
      ensures Abs() == Act(cfg, old(Abs()), EnableAll) && log == old(log) + Emit(cfg, old(Abs()), EnableAll)
      ensures status == SUCCESS
      ensures forall k | 0 <= k < cfg.n :: blinkerStatuses[k] == if k < cfg.n - 1 then 1 else old(blinkerStatuses[k])
      ensures log == old(log) + [Sent(AllEnabled)]
    {
      for i := 0 to cfg.n - 1
        invariant blinkerStatuses[..] == Filled(old(blinkerStatuses[..]), i, 1)
        invariant log == old(log)
      {
        blinkerStatuses[i] := 1;
      }
      log := log + [Sent(AllEnabled)];
      return SUCCESS;
    }

    method DisableAllBlinkersCmd() returns (status: int)
      requires Valid()
      modifies blinkerStatuses, this`log
      ensures Abs() == Act(cfg, old(Abs()), DisableAll) && log == old(log) + Emit(cfg, old(Abs()), DisableAll)
      ensures status == SUCCESS
      ensures forall k | 0 <= k < cfg.n :: blinkerStatuses[k] == if k < cfg.n - 1 then 0 else old(blinkerStatuses[k])
      ensures log == old(log) + [Sent(AllDisabled)]
    {
      for i := 0 to cfg.n - 1
        invariant blinkerStatuses[..] == Filled(old(blinkerStatuses[..]), i, 0)
        invariant log == old(log)
      {
        blinkerStatuses[i] := 0;
      }
      log := log + [Sent(AllDisabled)];
      return SUCCESS;
    }

    method ResetSpecBlinkersCmd(m: Message) returns (status: int)
      requires Valid()
      modifies blinkerCounts, this`log
      ensures var a := if m.word1 < cfg.n then Reset(m.word1) else BadNumber(m.word1);
        Abs() == Act(cfg, old(Abs()), a) && log == old(log) + Emit(cfg, old(Abs()), a)
      ensures status == if m.word1 < cfg.n then SUCCESS else -1
      ensures m.word1 >= cfg.n ==> log == old(log) + [Sent(NumberError(m.word1))]
      ensures m.word1 < cfg.n ==> log == old(log) + [Sent(BlinkerReset(m.word1))]
      ensures forall k | 0 <= k < cfg.n :: blinkerCounts[k] == if k == m.word1 then 0 else old(blinkerCounts[k])
    {
      if m.word1 > cfg.n - 1 {
        log := log + [Sent(NumberError(m.word1))];
        return -1;
      }
      blinkerCounts[m.word1] := 0;
      log := log + [Sent(BlinkerReset(m.word1))];
      return SUCCESS;
    }

    method ReportSpecBlinkersCmd(m: Message) returns (status: int)
      requires Valid()
      modifies this`log
      ensures var a := if m.word1 < cfg.n then Report(m.word1) else BadNumber(m.word1);
        Abs() == Act(cfg, old(Abs()), a) && log == old(log) + Emit(cfg, old(Abs()), a)
      ensures status == if m.word1 < cfg.n then SUCCESS else -1
      ensures m.word1 >= cfg.n ==> log == old(log) + [Sent(NumberError(m.word1))]
      ensures m.word1 < cfg.n ==> log == old(log) + [Sent(BlinkerCount(m.word1, blinkerCounts[m.word1]))]
    {
      if m.word1 > cfg.n - 1 {
        log := log + [Sent(NumberError(m.word1))];
        return -1;
      }
      log := log + [Sent(BlinkerCount(m.word1, blinkerCounts[m.word1]))];
      return SUCCESS;
    }

    method EnableSpecBlinkersCmd(m: Message) returns (status: int)
      requires Valid()
      modifies blinkerStatuses, this`log
      ensures var a := if m.word1 < cfg.n then Enable(m.word1) else BadNumber(m.word1);
        Abs() == Act(cfg, old(Abs()), a) && log == old(log) + Emit(cfg, old(Abs()), a)
      ensures status == if m.word1 < cfg.n then SUCCESS else -1
      ensures m.word1 >= cfg.n ==> log == old(log) + [Sent(NumberError(m.word1))]
      ensures m.word1 < cfg.n ==> log == old(log) + [Sent(BlinkerEnabled(m.word1))]
      ensures forall k | 0 <= k < cfg.n :: blinkerStatuses[k] == if k == m.word1 then 1 else old(blinkerStatuses[k])
    {
      if m.word1 > cfg.n - 1 {
        log := log + [Sent(NumberError(m.word1))];
        return -1;
      }
      blinkerStatuses[m.word1] := 1;
      log := log + [Sent(BlinkerEnabled(m.word1))];
      return SUCCESS;
    }

    method DisableSpecBlinkersCmd(m: Message) returns (status: int)
      requires Valid()
      modifies blinkerStatuses, this`log
      ensures var a := if m.word1 < cfg.n then Disable(m.word1) else BadNumber(m.word1);
        Abs() == Act(cfg, old(Abs()), a) && log == old(log) + Emit(cfg, old(Abs()), a)
      ensures status == if m.word1 < cfg.n then SUCCESS else -1
      ensures m.word1 >= cfg.n ==> log == old(log) + [Sent(NumberError(m.word1))]
      ensures m.word1 < cfg.n ==> log == old(log) + [Sent(BlinkerDisabled(m.word1))]
      ensures forall k | 0 <= k < cfg.n :: blinkerStatuses[k] == if k == m.word1 then 0 else old(blinkerStatuses[k])
    {
      if m.word1 > cfg.n - 1 {
        log := log + [Sent(NumberError(m.word1))];
        return -1;
      }
      blinkerStatuses[m.word1] := 0;
      log := log + [Sent(BlinkerDisabled(m.word1))];
      return SUCCESS;
    }

    method SwapBlinkerCountsCmd(m: Message) returns (status: int)
      requires Valid()
      modifies blinkerCounts, this`log
      ensures var ok := m.word1 < cfg.n && m.word2 < cfg.n;
        var a := if ok then Swap(m.word1, m.word2) else BadPair(m.word1, m.word2);
        && Abs() == Act(cfg, old(Abs()), a) && log == old(log) + Emit(cfg, old(Abs()), a)
        && status == if ok then SUCCESS else -1
      ensures !(m.word1 < cfg.n && m.word2 < cfg.n) ==>
        blinkerCounts[..] == old(blinkerCounts[..]) && log == old(log) + [Sent(PairError(m.word1, m.word2))]
      ensures m.word1 < cfg.n && m.word2 < cfg.n ==>
        && blinkerCounts[m.word1] == old(blinkerCounts[m.word2])
        && blinkerCounts[m.word2] == old(blinkerCounts[m.word1])
        && (forall k | 0 <= k < cfg.n && k != m.word1 && k != m.word2 :: blinkerCounts[k] == old(blinkerCounts[k]))
        && log == old(log) + [Sent(Swapped(m.word1, m.word2, blinkerCounts[m.word1], blinkerCounts[m.word2]))]
    {
      if m.word1 > cfg.n - 1 || m.word2 > cfg.n - 1 {
        log := log + [Sent(PairError(m.word1, m.word2))];
        return -1;
      }
      var tempCount := blinkerCounts[m.word1];
      blinkerCounts[m.word1] := blinkerCounts[m.word2];
      blinkerCounts[m.word2] := tempCount;
      assert blinkerCounts[..] == Exchanged(old(blinkerCounts[..]), m.word1, m.word2);
      log := log + [Sent(Swapped(m.word1, m.word2, blinkerCounts[m.word1], blinkerCounts[m.word2]))];
      return SUCCESS;
    }

    // ----- dispatch -----

    method VerifyCmdLength(m: Message, expected: nat) returns (result: bool)
      requires Valid()
      modifies this`errCounter, this`log
      ensures result <==> m.size == expected
      ensures result ==> errCounter == old(errCounter) && log == old(log)
      ensures !result ==> errCounter == Inc8(old(errCounter))
      ensures !result ==> log == old(log) + [Sent(LengthError(m.mid, m.code, m.size, expected))]
    {
      result := true;
      if expected != m.size {
        log := log + [Sent(LengthError(m.mid, m.code, m.size, expected))];
        result := false;
        errCounter := Inc8(errCounter);
      }
    }

    method Blink()
      requires Valid()
      modifies blinkerCounts
      ensures Abs() == Act(cfg, old(Abs()), Tick)
      ensures forall k | 0 <= k < cfg.n ::
        blinkerCounts[k] ==
          if blinkerStatuses[k] == 0 then old(blinkerCounts[k])
          else if old(blinkerCounts[k]) == 65535 then 0 else old(blinkerCounts[k]) + 1
    {
      ghost var was := blinkerCounts[..];
      for i := 0 to cfg.n
        invariant forall k | 0 <= k < i :: blinkerCounts[k] == Ticked(was, blinkerStatuses[..])[k]
        invariant forall k | i <= k < cfg.n :: blinkerCounts[k] == was[k]
      {
        if blinkerStatuses[i] != 0 {
          blinkerCounts[i] := Inc16(blinkerCounts[i]);
        }
      }
      assert blinkerCounts[..] == Ticked(was, blinkerStatuses[..]);
    }

    /** The cases of the switch that carry blinker numbers. */
    method ProcessNumberedCommand(m: Message)
      requires Valid() && m.mid == cfg.cmdMid
      requires RESET_SPEC_BLINKER_CC <= m.code <= DISABLE_SPEC_BLINKER_CC || m.code == SWAP_TWO_BLINKERS_CC
      modifies this`errCounter, this`log, blinkerCounts, blinkerStatuses
      ensures Abs() == Act(cfg, old(Abs()), Classify(cfg, m))
      ensures log == old(log) + Emit(cfg, old(Abs()), Classify(cfg, m))
    {
      var ok: bool;
      var status: int;
      if m.code == RESET_SPEC_BLINKER_CC {
        ok := VerifyCmdLength(m, cfg.specSize);
        if ok { status := ResetSpecBlinkersCmd(m); }
      } else if m.code == REPORT_SPEC_BLINKER_CC {
        ok := VerifyCmdLength(m, cfg.specSize);
        if ok { status := ReportSpecBlinkersCmd(m); }
      } else if m.code == ENABLE_SPEC_BLINKER_CC {
        ok := VerifyCmdLength(m, cfg.specSize);
        if ok { status := EnableSpecBlinkersCmd(m); }
      } else if m.code == DISABLE_SPEC_BLINKER_CC {
        ok := VerifyCmdLength(m, cfg.specSize);
        if ok { status := DisableSpecBlinkersCmd(m); }
      } else {
        ok := VerifyCmdLength(m, cfg.swapSize);
        if ok { status := SwapBlinkerCountsCmd(m); }
      }
    }

    method ProcessGroundCommand(m: Message)
      requires Valid() && m.mid == cfg.cmdMid
      modifies this`cmdCounter, this`errCounter, this`log, blinkerCounts, blinkerStatuses
      ensures Abs() == Act(cfg, old(Abs()), Classify(cfg, m))
      ensures log == old(log) + Emit(cfg, old(Abs()), Classify(cfg, m))
      ensures m.code > 11 ==> Abs() == old(Abs()) && log == old(log) + [Sent(CodeError(m.code))]
      ensures var expected := if m.code == 3 then cfg.displaySize else if 5 <= m.code <= 8 then cfg.specSize
                              else if m.code == 11 then cfg.swapSize else cfg.noArgsSize;
        m.code <= 11 && m.size != expected ==>
          && Abs() == old(Abs()).(errCounter := if old(errCounter) == 255 then 0 else old(errCounter) + 1)
          && log == old(log) + [Sent(LengthError(m.mid, m.code, m.size, expected))]
    {
      var ok: bool;
      var status: int;
      if m.code == NOOP_CC {
        ok := VerifyCmdLength(m, cfg.noArgsSize);
        if ok { status := NoopCmd(); }
      } else if m.code == RESET_COUNTERS_CC {
        ok := VerifyCmdLength(m, cfg.noArgsSize);
        if ok { status := ResetCountersCmd(); }
      } else if m.code == PROCESS_CC {
        // the handler only reads a table and writes to the system log
        ok := VerifyCmdLength(m, cfg.noArgsSize);
      } else if m.code == DISPLAY_PARAM_CC {
        ok := VerifyCmdLength(m, cfg.displaySize);
        if ok { status := DisplayParamCmd(m); }
      } else if m.code == RESET_ALL_BLINKERS_CC {
        ok := VerifyCmdLength(m, cfg.noArgsSize);
        if ok { status := ResetAllBlinkersCmd(); }
      } else if m.code == ENABLE_ALL_BLINKERS_CC {
        ok := VerifyCmdLength(m, cfg.noArgsSize);
        if ok { status := EnableAllBlinkersCmd(); }
      } else if m.code == DISABLE_ALL_BLINKERS_CC {
        ok := VerifyCmdLength(m, cfg.noArgsSize);
        if ok { status := DisableAllBlinkersCmd(); }
      } else if RESET_SPEC_BLINKER_CC <= m.code <= DISABLE_SPEC_BLINKER_CC || m.code == SWAP_TWO_BLINKERS_CC {
        ProcessNumberedCommand(m);
      } else {
        log := log + [Sent(CodeError(m.code))];
      }
    }

    method TaskPipe(m: Message)
      requires Valid()
      modifies this`cmdCounter, this`errCounter, this`hkErrors, this`hkCommands, this`log,
               blinkerCounts, blinkerStatuses
      ensures Abs() == Act(cfg, old(Abs()), Classify(cfg, m))
      ensures log == old(log) + Emit(cfg, old(Abs()), Classify(cfg, m))
      ensures m.mid == cfg.cmdMid && m.code > 11 ==> Abs() == old(Abs()) && log == old(log) + [Sent(CodeError(m.code))]
      ensures var expected := if m.code == 3 then cfg.displaySize else if 5 <= m.code <= 8 then cfg.specSize
                              else if m.code == 11 then cfg.swapSize else cfg.noArgsSize;
        m.mid == cfg.cmdMid && m.code <= 11 && m.size != expected ==>
          && Abs() == old(Abs()).(errCounter := if old(errCounter) == 255 then 0 else old(errCounter) + 1)
          && log == old(log) + [Sent(LengthError(m.mid, m.code, m.size, expected))]
      ensures m.mid == cfg.hkMid ==>
        && log == old(log) + [Telemetry(Hk(old(errCounter), old(cmdCounter), hkStatuses[..], hkCounts[..]))]
        && Abs() == old(Abs()).(hk := Hk(old(errCounter), old(cmdCounter), hkStatuses[..], hkCounts[..]))
      ensures m.mid == cfg.blinkMid ==>
        && log == old(log) && Abs() == old(Abs()).(counts := blinkerCounts[..])
        && forall k | 0 <= k < cfg.n ::
             blinkerCounts[k] ==
               if blinkerStatuses[k] == 0 then old(blinkerCounts[k])
               else if old(blinkerCounts[k]) == 65535 then 0 else old(blinkerCounts[k]) + 1
      ensures m.mid != cfg.cmdMid && m.mid != cfg.hkMid && m.mid != cfg.blinkMid ==>
        Abs() == old(Abs()) && log == old(log) + [Sent(MidError(m.mid))]
    {
      if m.mid == cfg.cmdMid {
        ProcessGroundCommand(m);
      } else if m.mid == cfg.hkMid {
        var status := SendHkCmd();
      } else if m.mid == cfg.blinkMid {
        Blink();
      } else {
        log := log + [Sent(MidError(m.mid))];
      }
    }

    // ----- initialization and main loop -----

    /** Zeroes everything commands and ticks work on, as the memset in the source does. */
    method ClearData()
      requires Valid()
      modifies this`cmdCounter, this`errCounter, this`hkErrors, this`hkCommands,
               hkStatuses, hkCounts, blinkerCounts, blinkerStatuses
      ensures Abs() == ZeroState(cfg)
      ensures forall k | 0 <= k < cfg.n ::
        blinkerCounts[k] == 0 && blinkerStatuses[k] == 0 && hkStatuses[k] == 0 && hkCounts[k] == 0
      ensures cmdCounter == 0 && errCounter == 0 && hkErrors == 0 && hkCommands == 0
    {
      cmdCounter, errCounter, hkErrors, hkCommands := 0, 0, 0, 0;
      forall i | 0 <= i < cfg.n { blinkerCounts[i] := 0; }
      forall i | 0 <= i < cfg.n { blinkerStatuses[i] := 0; }
      forall i | 0 <= i < cfg.n { hkStatuses[i] := 0; }
      forall i | 0 <= i < cfg.n { hkCounts[i] := 0; }
    }

    /** Registers for events and creates the pipe; `results` is what each framework call returns. */
    method InitPipe(results: InitCall -> int) returns (status: int)
      modifies this`log
      ensures status == StatusAfter(results, 2)
      ensures log == old(log) + Reports(results, 0, 2)
    {
      ReportsOne(results, 0);
      log := log + [Called(EvsRegister)];
      status := results(EvsRegister);
      if status == SUCCESS {
        ReportsOne(results, 1);
        ReportsJoin(results, 0, 1, 2);
        log := log + [Called(CreatePipe)];
        status := results(CreatePipe);
        if status != SUCCESS {
          log := log + [Sent(PipeCreateError(status))];
        }
      }
    }

    /** Makes call number k of the chain and sends `failure` if it does not succeed. */
    method CheckedCall(results: InitCall -> int, k: nat, failure: Event) returns (status: int)
      requires k < |INIT_CALLS| && k <= FirstFailure(results)
      requires FailureReport(INIT_CALLS[k], results(INIT_CALLS[k])) == [Sent(failure)]
      modifies this`log
      ensures status == results(INIT_CALLS[k]) && (status != SUCCESS <==> FirstFailure(results) == k)
      ensures log == old(log) + Reports(results, k, k + 1)
    {
      ReportsOne(results, k);
      log := log + [Called(INIT_CALLS[k])];
      status := results(INIT_CALLS[k]);
      if status != SUCCESS {
        log := log + [Sent(failure)];
      }
    }

    /** The three subscriptions. */
    method InitSubscriptions(results: InitCall -> int) returns (status: int)
      requires FirstFailure(results) >= 2
      modifies this`log
      ensures status == StatusAfter(results, 5)
      ensures log == old(log) + Reports(results, 2, 5)
    {
      ReportsSplit(log, results);
      status := CheckedCall(results, 2, HkSubscribeError(results(SubscribeHk)));
      if status == SUCCESS {
        status := CheckedCall(results, 3, CmdSubscribeError(results(SubscribeCmd)));
      }
      if status == SUCCESS {
        status := CheckedCall(results, 4, CmdSubscribeError(results(SubscribeBlink)));
      }
    }

    /** Table registration and load, and the final event. */
    method InitTable(results: InitCall -> int) returns (status: int)
      requires FirstFailure(results) >= 5
      modifies this`log
      ensures status == InitStatus(results)
      ensures log == old(log) + (Reports(results, 5, 7) + [Sent(Initialized)])
    {
      ReportsOne(results, 5);
      ReportsJoin(results, 5, 6, 7);
      log := log + [Called(TableRegister)];
      status := results(TableRegister);
      if status != SUCCESS {
        log := log + [Sent(TableRegisterError(status))];
      } else {
        ReportsOne(results, 6);
        log := log + [Called(TableLoad)];
        status := results(TableLoad);
      }
      log := log + [Sent(Initialized)];
    }

    method Init(results: InitCall -> int) returns (status: int)
      requires Valid()
      modifies this, hkStatuses, hkCounts, blinkerCounts, blinkerStatuses
      ensures status == InitStatus(results)
      ensures Abs() == ZeroState(cfg) && runStatus == AppRun
      ensures log == old(log) + InitLog(results)
      ensures status == SUCCESS <==> forall c: InitCall :: results(c) == SUCCESS
      ensures status != SUCCESS ==> exists k | 0 <= k < |INIT_CALLS| ::
        status == results(INIT_CALLS[k]) && forall j | 0 <= j < k :: results(INIT_CALLS[j]) == SUCCESS
      ensures log == old(log) +
        if results(EvsRegister) != SUCCESS then CallLog([EvsRegister])
        else if results(CreatePipe) != SUCCESS then
          CallLog([EvsRegister, CreatePipe]) + [Sent(PipeCreateError(results(CreatePipe)))]
        else if results(SubscribeHk) != SUCCESS then
          CallLog([EvsRegister, CreatePipe, SubscribeHk]) + [Sent(HkSubscribeError(results(SubscribeHk)))]
        else if results(SubscribeCmd) != SUCCESS then
          CallLog([EvsRegister, CreatePipe, SubscribeHk, SubscribeCmd])
          + [Sent(CmdSubscribeError(results(SubscribeCmd)))]
        else if results(SubscribeBlink) != SUCCESS then
          CallLog([EvsRegister, CreatePipe, SubscribeHk, SubscribeCmd, SubscribeBlink])
          + [Sent(CmdSubscribeError(results(SubscribeBlink)))]
        else if results(TableRegister) != SUCCESS then
          CallLog([EvsRegister, CreatePipe, SubscribeHk, SubscribeCmd, SubscribeBlink, TableRegister])
          + [Sent(TableRegisterError(results(TableRegister))), Sent(Initialized)]
        else
          CallLog([EvsRegister, CreatePipe, SubscribeHk, SubscribeCmd, SubscribeBlink, TableRegister, TableLoad])
          + [Sent(Initialized)]
      ensures forall k | 0 <= k < cfg.n ::
        blinkerCounts[k] == 0 && blinkerStatuses[k] == 0 && hkStatuses[k] == 0 && hkCounts[k] == 0
      ensures cmdCounter == 0 && errCounter == 0 && hkErrors == 0 && hkCommands == 0
    {
      ClearData();
      runStatus := AppRun;
      InitInFull(results);
      InitStatusIs(results);
      InitLogAfter(log, results);
      status := InitPipe(results);
      if status == SUCCESS {
        status := InitSubscriptions(results);
      }
      if status == SUCCESS {
        status := InitTable(results);
      }
    }

    /** The framework's answer to "may I go on?": never yes unless the status is `AppRun`. */
    method RunLoop(script: seq<Turn>, i: nat) returns (go: bool)
      requires i <= |script|
      modifies this`runStatus
      ensures go <==> old(runStatus) == AppRun && i < |script| && script[i].Pend?
      ensures runStatus ==
        if old(runStatus) == AppRun && i < |script| && script[i].Leave? then script[i].next else old(runStatus)
    {
      if runStatus != AppRun || i == |script| {
        return false;
      }
      match script[i] {
        case Pend(_, _) =>
          return true;
        case Leave(next) =>
          runStatus := next;
          return false;
      }
    }

    /** The app is where the first k messages of the script lead from the zeroed
        state, and since `start` it has emitted what that run emits, then `tail`. */
    ghost predicate Follows(start: seq<Output>, script: seq<Turn>, k: nat, tail: seq<Output>)
      requires Valid() && k <= |script| && forall j | 0 <= j < k :: Delivers(script[j])
      reads this, hkStatuses, hkCounts, blinkerCounts, blinkerStatuses
    {
      var acts := Decode(cfg, Inbox(script, k));
      && Abs() == Run(cfg, ZeroState(cfg), acts)
      && log == start + Trace(cfg, ZeroState(cfg), acts) + tail
    }

    /** `TaskPipe`, seen as one more step of the run so far. */
    method Deliver(ghost start: seq<Output>, script: seq<Turn>, k: nat)
      requires Valid() && k < |script| && forall j | 0 <= j <= k :: Delivers(script[j])
      requires Follows(start, script, k, [])
      modifies this`cmdCounter, this`errCounter, this`hkErrors, this`hkCommands, this`log,
               blinkerCounts, blinkerStatuses
      ensures Follows(start, script, k + 1, [])
    {
      TaskPipe(script[k].m);
      InboxRun(cfg, start, script, k);
    }

    /** A failed read: the app will exit. */
    method ReadFailed(ghost start: seq<Output>, script: seq<Turn>, k: nat)
      requires Valid() && k <= |script| && forall j | 0 <= j < k :: Delivers(script[j])
      requires Follows(start, script, k, [])
      modifies this`runStatus, this`log
      ensures Follows(start, script, k, [Sent(PipeReadError)]) && runStatus == AppError
    {
      log := log + [Sent(PipeReadError)];
      runStatus := AppError;
    }

    /** The run loop: `served` messages reach the dispatcher. */
    method Loop(script: seq<Turn>) returns (served: nat)
      requires Valid() && Abs() == ZeroState(cfg)
      modifies this, blinkerCounts, blinkerStatuses
      ensures served == if old(runStatus) == AppRun then Served(script) else 0
      ensures runStatus == if old(runStatus) == AppRun then ExitStatus(script) else old(runStatus)
      ensures Follows(old(log), script, served,
        if old(runStatus) == AppRun && served < |script| && script[served].Pend? then [Sent(PipeReadError)] else [])
    {
      ghost var start, status := log, runStatus;
      var i, failed := 0, false;
      served := 0;
      var go := RunLoop(script, i);
      while go
        invariant served <= |script| && forall j | 0 <= j < served :: Delivers(script[j])
        invariant Follows(start, script, served, if failed then [Sent(PipeReadError)] else [])
        invariant Phase(script, status, runStatus, served, i, go, failed)
        decreases |script| - served, go
      {
        var turn := script[i];
        i := i + 1;
        if turn.status == SUCCESS {
          Deliver(start, script, served);
          served := i;
        } else {
          ReadFailed(start, script, served);
          failed := true;
        }
        go := RunLoop(script, i);
      }
      PhaseExit(script, status, runStatus, served, i, failed);
    }

    /** Everything the app does, from start to exit, as a function of what the
        framework answers. */
    method AppMain(results: InitCall -> int, script: seq<Turn>) returns (exitStatus: RunStatus, served: nat)
      requires Valid()
      modifies this, hkStatuses, hkCounts, blinkerCounts, blinkerStatuses
      ensures served == if InitStatus(results) == SUCCESS then Served(script) else 0
      ensures exitStatus == if InitStatus(results) == SUCCESS then ExitStatus(script) else AppError
      ensures var acts := Decode(cfg, Inbox(script, served));
        && Abs() == Run(cfg, ZeroState(cfg), acts)
        && log == old(log) + InitLog(results) + HistoryTrace(cfg, ZeroState(cfg), acts, served)
                + if InitStatus(results) == SUCCESS && served < |script| && script[served].Pend?
                  then [Sent(PipeReadError)] else []
      ensures |old(log)| <= |log|
      ensures Causes(log[|old(log)|..]) == LoudOnes(Decode(cfg, Inbox(script, served)))
    {
      var status := Init(results);
      if status != SUCCESS {
        runStatus := AppError;
      }
      served := Loop(script);
      exitStatus := runStatus;
      InboxHistory(cfg, script, served);
      LifeLog(cfg, old(log), log, results, Decode(cfg, Inbox(script, served)),
              InitStatus(results) == SUCCESS && served < |script| && script[served].Pend?);
    }
  }
}
