/** The outer shell: the fail-fast chain of `Init` and the run loop of `AppMain`,
    as functions of what the framework answers. */
module Startup {
  import opened Types

  const SUCCESS: int := 0

  // ----- Init -----

  /** Number of the first call in the chain that does not succeed; 7 if all do. */
  function FirstFailure(results: InitCall -> int, from: nat := 0): (k: nat)
    requires from <= |INIT_CALLS|
    ensures from <= k <= |INIT_CALLS|
    ensures forall j | from <= j < k :: results(INIT_CALLS[j]) == SUCCESS
    ensures k < |INIT_CALLS| ==> results(INIT_CALLS[k]) != SUCCESS
    decreases |INIT_CALLS| - from
  {
    if from == |INIT_CALLS| || results(INIT_CALLS[from]) != SUCCESS then from
    else FirstFailure(results, from + 1)
  }

  function InitStatus(results: InitCall -> int): int {
    var k := FirstFailure(results);
    if k < |INIT_CALLS| then results(INIT_CALLS[k]) else SUCCESS
  }

  function CallLog(calls: seq<InitCall>): seq<Output> {
    seq(|calls|, k requires 0 <= k < |calls| => Called(calls[k]))
  }

  /** What `Init` reports of a failed call. A failed event registration and a failed
      table load leave no event, and the two command subscriptions report alike. */
  function FailureReport(call: InitCall, status: int): seq<Output> {
    match call
    case CreatePipe => [Sent(PipeCreateError(status))]
    case SubscribeHk => [Sent(HkSubscribeError(status))]
    case SubscribeCmd => [Sent(CmdSubscribeError(status))]
    case SubscribeBlink => [Sent(CmdSubscribeError(status))]
    case TableRegister => [Sent(TableRegisterError(status))]
    case _ => []
  }

  /** Everything `Init` calls and reports. */
  function InitLog(results: InitCall -> int): seq<Output> {
    var k := FirstFailure(results);
    CallLog(INIT_CALLS[..if k < |INIT_CALLS| then k + 1 else k])
    + (if k < |INIT_CALLS| then FailureReport(INIT_CALLS[k], results(INIT_CALLS[k])) else [])
    + (if k >= 5 then [Sent(Initialized)] else [])
  }

  /** The part of it that calls number lo to hi leave. */
  function Reports(results: InitCall -> int, lo: nat, hi: nat): seq<Output>
    requires lo <= hi <= |INIT_CALLS|
  {
    var k := FirstFailure(results);
    if k < lo then []
    else if k < hi then CallLog(INIT_CALLS[lo..k + 1]) + FailureReport(INIT_CALLS[k], results(INIT_CALLS[k]))
    else CallLog(INIT_CALLS[lo..hi])
  }

  /** The status once calls number 0 to hi have had their turn. */
  function StatusAfter(results: InitCall -> int, hi: nat): int
    requires hi <= |INIT_CALLS|
  {
    var k := FirstFailure(results);
    if k < hi then results(INIT_CALLS[k]) else SUCCESS
  }

  lemma CallLogSlices(calls: seq<InitCall>, lo: nat, mid: nat, hi: nat)
    requires lo <= mid <= hi <= |calls|
    ensures CallLog(calls[lo..hi]) == CallLog(calls[lo..mid]) + CallLog(calls[mid..hi])
  {
    assert calls[lo..hi] == calls[lo..mid] + calls[mid..hi];
  }

  lemma ReportsJoin(results: InitCall -> int, lo: nat, mid: nat, hi: nat)
    requires lo <= mid <= hi <= |INIT_CALLS|
    ensures Reports(results, lo, hi) == Reports(results, lo, mid) + Reports(results, mid, hi)
  {
    var k := FirstFailure(results);
    if k < mid {
      assert Reports(results, mid, hi) == [];
    } else if k < hi {
      var report := FailureReport(INIT_CALLS[k], results(INIT_CALLS[k]));
      CallLogSlices(INIT_CALLS, lo, mid, k + 1);
      assert CallLog(INIT_CALLS[lo..k + 1]) + report
          == CallLog(INIT_CALLS[lo..mid]) + (CallLog(INIT_CALLS[mid..k + 1]) + report);
    } else {
      CallLogSlices(INIT_CALLS, lo, mid, hi);
    }
  }

  lemma InitLogParts(results: InitCall -> int)
    ensures InitLog(results) == Reports(results, 0, 2) + Reports(results, 2, 5) + Reports(results, 5, 7)
                                + if FirstFailure(results) >= 5 then [Sent(Initialized)] else []
  {
    ReportsJoin(results, 0, 2, 5);
    ReportsJoin(results, 0, 5, 7);
    assert InitLog(results) == Reports(results, 0, 7) + if FirstFailure(results) >= 5 then [Sent(Initialized)] else [];
  }

  lemma Join4<T>(start: seq<T>, xs: seq<T>, ys: seq<T>, zs: seq<T>, ws: seq<T>)
    ensures start + (xs + ys + zs + ws) == start + xs + ys + (zs + ws)
    ensures ys == [] && zs == [] && ws == [] ==> start + (xs + ys + zs + ws) == start + xs
    ensures zs == [] && ws == [] ==> start + (xs + ys + zs + ws) == start + xs + ys
  {
  }

  /** The log of `Init` after `start`, by how far the chain gets. */
  lemma InitLogAfter(start: seq<Output>, results: InitCall -> int)
    ensures var k := FirstFailure(results); var begun := start + Reports(results, 0, 2);
      start + InitLog(results) ==
        if k < 2 then begun
        else if k < 5 then begun + Reports(results, 2, 5)
        else begun + Reports(results, 2, 5) + (Reports(results, 5, 7) + [Sent(Initialized)])
  {
    InitLogParts(results);
    Join4(start, Reports(results, 0, 2), Reports(results, 2, 5), Reports(results, 5, 7),
          if FirstFailure(results) >= 5 then [Sent(Initialized)] else []);
  }

  /** The log of the subscriptions after `start`, by how far they get. */
  lemma ReportsSplit(start: seq<Output>, results: InitCall -> int)
    requires FirstFailure(results) >= 2
    ensures var k := FirstFailure(results); var one := start + Reports(results, 2, 3);
      start + Reports(results, 2, 5) ==
        if k == 2 then one
        else if k == 3 then one + Reports(results, 3, 4)
        else one + Reports(results, 3, 4) + Reports(results, 4, 5)
  {
    ReportsJoin(results, 2, 3, 5);
    ReportsJoin(results, 3, 4, 5);
    Join4(start, Reports(results, 2, 3), Reports(results, 3, 4), Reports(results, 4, 5), []);
  }

  /** One call of the chain, made after its predecessors succeeded. */
  lemma ReportsOne(results: InitCall -> int, k: nat)
    requires k < |INIT_CALLS| && k <= FirstFailure(results)
    ensures var status := results(INIT_CALLS[k]);
      && (status != SUCCESS <==> FirstFailure(results) == k)
      && Reports(results, k, k + 1)
         == [Called(INIT_CALLS[k])] + if status != SUCCESS then FailureReport(INIT_CALLS[k], status) else []
  {
    assert INIT_CALLS[k..k + 1] == [INIT_CALLS[k]];
  }

  predicate AllSucceed(results: InitCall -> int) {
    forall c: InitCall :: results(c) == SUCCESS
  }

  lemma ChainIsComplete(c: InitCall)
    ensures exists j :: 0 <= j < |INIT_CALLS| && INIT_CALLS[j] == c
  {
    assert INIT_CALLS[0] == EvsRegister && INIT_CALLS[1] == CreatePipe && INIT_CALLS[2] == SubscribeHk
        && INIT_CALLS[3] == SubscribeCmd && INIT_CALLS[4] == SubscribeBlink && INIT_CALLS[5] == TableRegister
        && INIT_CALLS[6] == TableLoad;
  }

  lemma ChainIsDistinct(j: nat, k: nat)
    requires j < k < |INIT_CALLS|
    ensures INIT_CALLS[j] != INIT_CALLS[k]
  {
  }

  lemma InitSucceedsIffAllCallsDo(results: InitCall -> int)
    ensures InitStatus(results) == SUCCESS <==> AllSucceed(results)
    ensures forall k | 0 <= k < |INIT_CALLS| ::
      Called(INIT_CALLS[k]) in InitLog(results) <==> forall j | 0 <= j < k :: results(INIT_CALLS[j]) == SUCCESS
  {
    var f := FirstFailure(results);
    if f == |INIT_CALLS| {
      forall c: InitCall ensures results(c) == SUCCESS {
        assert exists j :: 0 <= j < |INIT_CALLS| && INIT_CALLS[j] == c by { ChainIsComplete(c); }
      }
    }
    forall k | 0 <= k < |INIT_CALLS|
      ensures Called(INIT_CALLS[k]) in InitLog(results) <==> k <= f
    {
      var made := CallLog(INIT_CALLS[..if f < |INIT_CALLS| then f + 1 else f]);
      if k <= f {
        assert made[k] == Called(INIT_CALLS[k]);
      } else {
        forall j | 0 <= j < |made| ensures made[j] != Called(INIT_CALLS[k]) {
          ChainIsDistinct(j, k);
        }
      }
    }
  }

  lemma InitStatusIs(results: InitCall -> int)
    ensures InitStatus(results) == SUCCESS <==> forall c: InitCall :: results(c) == SUCCESS
    ensures InitStatus(results) != SUCCESS ==> exists k | 0 <= k < |INIT_CALLS| ::
      InitStatus(results) == results(INIT_CALLS[k]) && forall j | 0 <= j < k :: results(INIT_CALLS[j]) == SUCCESS
  {
    InitSucceedsIffAllCallsDo(results);
  }

  /** The "Initialized" event does not mean that initialization succeeded: it is
      sent as soon as the pipe is subscribed, whatever the table service then says. */
  lemma InitializedEvent(results: InitCall -> int)
    ensures Sent(Initialized) in InitLog(results) <==>
      && results(EvsRegister) == SUCCESS && results(CreatePipe) == SUCCESS
      && results(SubscribeHk) == SUCCESS && results(SubscribeCmd) == SUCCESS && results(SubscribeBlink) == SUCCESS
    ensures Sent(Initialized) in InitLog(results) && InitStatus(results) != SUCCESS <==>
      FirstFailure(results) == 5 || FirstFailure(results) == 6
  {
  }

  /** The calls of `Init` in their order, and what each leaves behind if it fails. */
  lemma InitInFull(results: InitCall -> int)
    ensures InitLog(results) ==
      if results(EvsRegister) != SUCCESS then CallLog([EvsRegister])
      else if results(CreatePipe) != SUCCESS then
        CallLog([EvsRegister, CreatePipe]) + [Sent(PipeCreateError(results(CreatePipe)))]
      else if results(SubscribeHk) != SUCCESS then
        CallLog([EvsRegister, CreatePipe, SubscribeHk]) + [Sent(HkSubscribeError(results(SubscribeHk)))]
      else if results(SubscribeCmd) != SUCCESS then
        CallLog([EvsRegister, CreatePipe, SubscribeHk, SubscribeCmd])
        + [Sent(CmdSubscribeError(results(SubscribeCmd)))]
      else if results(SubscribeBlink) != SUCCESS then
        CallLog([EvsRegister, CreatePipe, SubscribeHk, SubscribeCmd, SubscribeBlink])
        + [Sent(CmdSubscribeError(results(SubscribeBlink)))]
      else if results(TableRegister) != SUCCESS then
        CallLog([EvsRegister, CreatePipe, SubscribeHk, SubscribeCmd, SubscribeBlink, TableRegister])
        + [Sent(TableRegisterError(results(TableRegister))), Sent(Initialized)]
      else
        CallLog([EvsRegister, CreatePipe, SubscribeHk, SubscribeCmd, SubscribeBlink, TableRegister, TableLoad])
        + [Sent(Initialized)]
  {
  }

  // ----- the run loop -----

  /** One round of the run loop: either the framework lets the app go on and the
      read returns `status` (with a message if it succeeds), or it asks the app to leave. */
  datatype Turn = Pend(status: int, m: Message) | Leave(next: RunStatus)

  predicate Delivers(turn: Turn) { turn.Pend? && turn.status == SUCCESS }

  /** Number of rounds that deliver a message before the first that does not. */
  function Served(script: seq<Turn>): (k: nat)
    ensures k <= |script|
    ensures forall j | 0 <= j < k :: Delivers(script[j])
    ensures k < |script| ==> !Delivers(script[k])
  {
    if script == [] || !Delivers(script[0]) then 0 else 1 + Served(script[1..])
  }

  lemma ServedAtLeast(script: seq<Turn>, k: nat)
    requires k <= |script| && forall j | 0 <= j < k :: Delivers(script[j])
    ensures k <= Served(script)
  {
  }

  function Inbox(script: seq<Turn>, k: nat): (ms: seq<Message>)
    requires k <= |script| && forall j | 0 <= j < k :: Delivers(script[j])
    ensures |ms| == k && forall j | 0 <= j < k :: Delivers(script[j]) && ms[j] == script[j].m
  {
    seq(k, j requires 0 <= j < k && Delivers(script[j]) => script[j].m)
  }

  /** Run status when the loop ends, having started from `AppRun`. */
  function ExitStatus(script: seq<Turn>): RunStatus {
    var k := Served(script);
    if k == |script| then AppRun
    else match script[k]
      case Pend(_, _) => AppError
      case Leave(next) => next
  }

  lemma ExitIs(script: seq<Turn>, k: nat)
    requires k <= |script| && forall j | 0 <= j < k :: Delivers(script[j])
    requires k < |script| ==> !Delivers(script[k])
    ensures Served(script) == k
    ensures ExitStatus(script) ==
      if k == |script| then AppRun else if script[k].Pend? then AppError else script[k].next
  {
    ServedAtLeast(script, k);
  }

  /** Where the run loop stands between two rounds: `go` is the framework's last answer,
      `start` the run status on entry and `now` the present one. */
  ghost predicate Phase(script: seq<Turn>, start: RunStatus, now: RunStatus,
                        served: nat, i: nat, go: bool, failed: bool)
    requires served <= |script|
  {
    && (start != AppRun ==> !go && served == 0 && !failed && now == start)
    && (go ==> !failed && i == served < |script| && script[i].Pend? && now == AppRun)
    && (failed ==> served < |script| && script[served].Pend? && !Delivers(script[served]) && now == AppError)
    && (!go && !failed && start == AppRun ==>
          if served < |script| then script[served].Leave? && now == script[served].next else now == AppRun)
  }

  lemma PhaseExit(script: seq<Turn>, start: RunStatus, now: RunStatus, served: nat, i: nat, failed: bool)
    requires served <= |script| && forall j | 0 <= j < served :: Delivers(script[j])
    requires Phase(script, start, now, served, i, false, failed)
    ensures served == if start == AppRun then Served(script) else 0
    ensures now == if start == AppRun then ExitStatus(script) else start
    ensures failed <==> start == AppRun && served < |script| && script[served].Pend?
  {
    if start == AppRun {
      ExitIs(script, served);
    }
  }
}
