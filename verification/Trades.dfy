/** When two neighbours in a run may trade places. The answer depends on the state
    they meet in: `MayTrade` decides it exactly for the state, `KeepsReports` for the
    outputs, and runs linked by such trades agree. */
module Trades {
  import opened Types
  import opened Machine
  import opened Exchange

  // ----- the guards -----

  /** Slots 0..k are all disabled, or all enabled. */
  predicate AllAre(statuses: seq<uint8>, k: nat, enabled: bool)
    requires k <= |statuses|
  {
    forall i | 0 <= i < k :: (statuses[i] != 0) == enabled
  }

  /** What the state must satisfy for a tick to trade places with `b`. */
  predicate TickAllows(cfg: Config, s: State, b: Action)
    requires Fits(cfg, s) && b.InRange(cfg)
  {
    match b
    case Swap(i, j) => i == j || (s.statuses[i] != 0 <==> s.statuses[j] != 0)
    case Reset(i) => s.statuses[i] == 0
    case Enable(i) => s.statuses[i] != 0
    case Disable(i) => s.statuses[i] == 0
    case ResetAll => AllAre(s.statuses, cfg.allBound, false)
    case EnableAll => AllAre(s.statuses, cfg.allBound, true)
    case DisableAll => AllAre(s.statuses, cfg.allBound, false)
    case _ => true
  }

  /** The same for a swap of slots i and j, ticks aside. */
  predicate SwapAllows(cfg: Config, s: State, i: uint16, j: uint16, b: Action)
    requires Fits(cfg, s) && i < cfg.n && j < cfg.n && b.InRange(cfg)
  {
    match b
    case Reset(k) => i == j || (k != i && k != j) || (s.counts[i] == 0 && s.counts[j] == 0)
    case ResetAll => (i < cfg.allBound <==> j < cfg.allBound) || (s.counts[i] == 0 && s.counts[j] == 0)
    case Swap(k, l) =>
      || i == j || k == l
      || (i != k && i != l && j != k && j != l)
      || (i == k && j == l) || (i == l && j == k)
      || (s.counts[i] == s.counts[j] && s.counts[k] == s.counts[l] && s.counts[i] == s.counts[k])
    case _ => true
  }

  /** One half of `MayTrade`: what `a` asks of the state before it lets `b` pass. */
  predicate Allows(cfg: Config, s: State, a: Action, b: Action)
    requires Fits(cfg, s) && a.InRange(cfg) && b.InRange(cfg)
  {
    match a
    case Tick => TickAllows(cfg, s, b)
    case Swap(i, j) => SwapAllows(cfg, s, i, j, b)
    case Enable(i) => b != Disable(i) && (b.DisableAll? ==> i >= cfg.allBound)
    case Disable(i) => b.EnableAll? ==> i >= cfg.allBound
    case EnableAll => b.DisableAll? ==> cfg.allBound == 0
    case SendHk => !b.Noop? && !b.BadLength? && (b.ResetCounters? ==> s.cmdCounter == 0 && s.errCounter == 0)
    case ResetCounters => !b.Noop? && !b.BadLength?
    case _ => true
  }

  predicate MayTrade(cfg: Config, s: State, a: Action, b: Action)
    requires Fits(cfg, s) && a.InRange(cfg) && b.InRange(cfg)
  {
    Allows(cfg, s, a, b) && Allows(cfg, s, b, a)
  }

  /** `b` leaves the count in slot i as it is. */
  predicate StillCount(cfg: Config, s: State, b: Action, i: uint16)
    requires Fits(cfg, s) && b.InRange(cfg) && i < cfg.n
  {
    match b
    case Tick => s.statuses[i] == 0
    case Reset(k) => i == k ==> s.counts[i] == 0
    case ResetAll => i < cfg.allBound ==> s.counts[i] == 0
    case Swap(k, l) => i == k || i == l ==> s.counts[k] == s.counts[l]
    case _ => true
  }

  /** `a` reports the same whether or not `b` has just gone before it. */
  predicate Undisturbed(cfg: Config, s: State, a: Action, b: Action)
    requires Fits(cfg, s) && a.InRange(cfg) && b.InRange(cfg)
  {
    match a
    case Report(i) => StillCount(cfg, s, b, i)
    case Swap(i, j) => StillCount(cfg, s, b, i) && StillCount(cfg, s, b, j)
    case SendHk => !b.Noop? && !b.BadLength? && (b.ResetCounters? ==> s.cmdCounter == 0 && s.errCounter == 0)
    case _ => true
  }

  predicate KeepsReports(cfg: Config, s: State, a: Action, b: Action)
    requires Fits(cfg, s) && a.InRange(cfg) && b.InRange(cfg)
  {
    a == b || (Undisturbed(cfg, s, a, b) && Undisturbed(cfg, s, b, a))
  }

  // ----- the guards are exact: the state -----

  /** Both orders of a and b lead from s to the same state. */
  ghost predicate Commute(cfg: Config, s: State, a: Action, b: Action)
    requires Fits(cfg, s) && a.InRange(cfg) && b.InRange(cfg)
  {
    Act(cfg, Act(cfg, s, a), b) == Act(cfg, Act(cfg, s, b), a)
  }

  predicate ActsOnCounts(a: Action) { a.Tick? || a.ResetAll? || a.Reset? || a.Swap? }

  predicate ActsOnStatuses(a: Action) { a.EnableAll? || a.DisableAll? || a.Enable? || a.Disable? }

  predicate ActsOnCounters(a: Action) { a.SendHk? || a.Noop? || a.ResetCounters? || a.BadLength? }

  lemma TickSpecific(cfg: Config, s: State, b: Action)
    requires Fits(cfg, s) && b.InRange(cfg) && (b.Swap? || b.Reset? || b.Enable? || b.Disable?)
    ensures Commute(cfg, s, Tick, b) <==> TickAllows(cfg, s, b)
  {
    var x, y := Act(cfg, Act(cfg, s, Tick), b).counts, Act(cfg, Act(cfg, s, b), Tick).counts;
    if TickAllows(cfg, s, b) {
      assert x == y;
    } else {
      assert x[b.i] != y[b.i];
    }
  }

  lemma TickAll(cfg: Config, s: State, b: Action)
    requires Fits(cfg, s) && (b.ResetAll? || b.EnableAll? || b.DisableAll?)
    ensures Commute(cfg, s, Tick, b) <==> TickAllows(cfg, s, b)
  {
    var x, y := Act(cfg, Act(cfg, s, Tick), b).counts, Act(cfg, Act(cfg, s, b), Tick).counts;
    if TickAllows(cfg, s, b) {
      assert x == y;
    } else {
      var k :| 0 <= k < cfg.allBound && (s.statuses[k] != 0) != b.EnableAll?;
      assert x[k] != y[k];
    }
  }

  /** A tick trades places with any action exactly as `TickAllows` says. */
  lemma TickCommutesIff(cfg: Config, s: State, b: Action)
    requires Fits(cfg, s) && b.InRange(cfg)
    ensures Commute(cfg, s, Tick, b) <==> TickAllows(cfg, s, b)
  {
    if b.Swap? || b.Reset? || b.Enable? || b.Disable? {
      TickSpecific(cfg, s, b);
    } else if b.ResetAll? || b.EnableAll? || b.DisableAll? {
      TickAll(cfg, s, b);
    }
  }

  lemma SwapSwap(cfg: Config, s: State, i: uint16, j: uint16, k: uint16, l: uint16)
    requires Fits(cfg, s) && i < cfg.n && j < cfg.n && k < cfg.n && l < cfg.n
    ensures Commute(cfg, s, Swap(i, j), Swap(k, l)) <==> SwapAllows(cfg, s, i, j, Swap(k, l))
  {
    var x := Act(cfg, Act(cfg, s, Swap(i, j)), Swap(k, l)).counts;
    var y := Act(cfg, Act(cfg, s, Swap(k, l)), Swap(i, j)).counts;
    if SwapAllows(cfg, s, i, j, Swap(k, l)) {
      assert x == y;
    } else {
      assert x[i] != y[i] || x[j] != y[j] || x[k] != y[k] || x[l] != y[l];
    }
  }

  lemma SwapReset(cfg: Config, s: State, i: uint16, j: uint16, b: Action)
    requires Fits(cfg, s) && i < cfg.n && j < cfg.n && b.InRange(cfg) && (b.Reset? || b.ResetAll?)
    ensures Commute(cfg, s, Swap(i, j), b) <==> SwapAllows(cfg, s, i, j, b)
  {
    var x := Act(cfg, Act(cfg, s, Swap(i, j)), b).counts;
    var y := Act(cfg, Act(cfg, s, b), Swap(i, j)).counts;
    if SwapAllows(cfg, s, i, j, b) {
      assert x == y;
    } else {
      assert x[i] != y[i] || x[j] != y[j];
    }
  }

  lemma ResetsCommute(cfg: Config, s: State, a: Action, b: Action)
    requires Fits(cfg, s) && a.InRange(cfg) && b.InRange(cfg) && (a.Reset? || a.ResetAll?) && (b.Reset? || b.ResetAll?)
    ensures Commute(cfg, s, a, b)
  {
    assert Act(cfg, Act(cfg, s, a), b).counts == Act(cfg, Act(cfg, s, b), a).counts;
  }

  lemma CountArrayCommutesIff(cfg: Config, s: State, a: Action, b: Action)
    requires Fits(cfg, s) && a.InRange(cfg) && b.InRange(cfg) && ActsOnCounts(a) && ActsOnCounts(b)
    ensures Commute(cfg, s, a, b) <==> MayTrade(cfg, s, a, b)
  {
    if a.Tick? {
      TickCommutesIff(cfg, s, b);
    } else if b.Tick? {
      TickCommutesIff(cfg, s, a);
    } else if a.Swap? && b.Swap? {
      SwapSwap(cfg, s, a.i, a.j, b.i, b.j);
    } else if a.Swap? {
      SwapReset(cfg, s, a.i, a.j, b);
    } else if b.Swap? {
      SwapReset(cfg, s, b.i, b.j, a);
    } else {
      ResetsCommute(cfg, s, a, b);
    }
  }

  lemma StatusArrayCommutesIff(cfg: Config, s: State, a: Action, b: Action)
    requires Fits(cfg, s) && a.InRange(cfg) && b.InRange(cfg) && ActsOnStatuses(a) && ActsOnStatuses(b)
    ensures Commute(cfg, s, a, b) <==> MayTrade(cfg, s, a, b)
  {
    var x, y := Act(cfg, Act(cfg, s, a), b).statuses, Act(cfg, Act(cfg, s, b), a).statuses;
    if MayTrade(cfg, s, a, b) {
      assert x == y;
    } else {
      var k := if a.Enable? || a.Disable? then a.i else if b.Enable? || b.Disable? then b.i else 0;
      assert x[k] != y[k];
    }
  }

  lemma CountersCommuteIff(cfg: Config, s: State, a: Action, b: Action)
    requires Fits(cfg, s) && ActsOnCounters(a) && ActsOnCounters(b)
    ensures Commute(cfg, s, a, b) <==> MayTrade(cfg, s, a, b)
  {
  }

  /** Actions on different parts of the state commute, ticks and statuses aside. */
  lemma ApartCommute(cfg: Config, s: State, a: Action, b: Action)
    requires Fits(cfg, s) && a.InRange(cfg) && b.InRange(cfg)
    requires !(ActsOnCounts(a) && ActsOnCounts(b)) && !(ActsOnStatuses(a) && ActsOnStatuses(b))
    requires !(ActsOnCounters(a) && ActsOnCounters(b)) && !a.Tick? && !b.Tick?
    ensures Commute(cfg, s, a, b) && MayTrade(cfg, s, a, b)
  {
  }

  /** From any state, two actions commute exactly when they may trade places. */
  lemma CommuteIffMayTrade(cfg: Config, s: State, a: Action, b: Action)
    requires Fits(cfg, s) && a.InRange(cfg) && b.InRange(cfg)
    ensures Commute(cfg, s, a, b) <==> MayTrade(cfg, s, a, b)
  {
    if ActsOnCounts(a) && ActsOnCounts(b) {
      CountArrayCommutesIff(cfg, s, a, b);
    } else if ActsOnStatuses(a) && ActsOnStatuses(b) {
      StatusArrayCommutesIff(cfg, s, a, b);
    } else if ActsOnCounters(a) && ActsOnCounters(b) {
      CountersCommuteIff(cfg, s, a, b);
    } else if a.Tick? {
      TickCommutesIff(cfg, s, b);
    } else if b.Tick? {
      TickCommutesIff(cfg, s, a);
    } else {
      ApartCommute(cfg, s, a, b);
    }
  }

  // ----- the guards are exact: the outputs -----

  lemma StillCountIff(cfg: Config, s: State, b: Action, i: uint16)
    requires Fits(cfg, s) && b.InRange(cfg) && i < cfg.n
    ensures Act(cfg, s, b).counts[i] == s.counts[i] <==> StillCount(cfg, s, b, i)
  {
  }

  lemma CountersSameIff(cfg: Config, s: State, b: Action)
    requires Fits(cfg, s) && b.InRange(cfg)
    ensures Act(cfg, s, b).cmdCounter == s.cmdCounter && Act(cfg, s, b).errCounter == s.errCounter <==>
      Undisturbed(cfg, s, SendHk, b)
    ensures Act(cfg, s, b).hk.statuses == s.hk.statuses && Act(cfg, s, b).hk.counts == s.hk.counts
  {
  }

  /** An action reports the same after another as before it exactly when undisturbed. */
  lemma ReportSameIff(cfg: Config, s: State, a: Action, b: Action)
    requires Fits(cfg, s) && a.InRange(cfg) && b.InRange(cfg)
    ensures Emit(cfg, Act(cfg, s, b), a) == Emit(cfg, s, a) <==> Undisturbed(cfg, s, a, b)
  {
    var r := Act(cfg, s, b);
    match a
    case Report(i) =>
      StillCountIff(cfg, s, b, i);
      assert Emit(cfg, r, a)[0] == Emit(cfg, s, a)[0] <==> r.counts[i] == s.counts[i];
    case Swap(i, j) =>
      StillCountIff(cfg, s, b, i);
      StillCountIff(cfg, s, b, j);
      assert Emit(cfg, r, a)[0] == Emit(cfg, s, a)[0] <==> r.counts[i] == s.counts[i] && r.counts[j] == s.counts[j];
    case SendHk =>
      CountersSameIff(cfg, s, b);
      assert Emit(cfg, r, a)[0] == Emit(cfg, s, a)[0] <==> r.cmdCounter == s.cmdCounter && r.errCounter == s.errCounter;
    case _ =>
  }

  /** The two laws of a swap and a tick: they commute exactly when the swap moves nothing
      or both slots are enabled or disabled alike; the swap reports the same counts on
      either side of the tick exactly when both slots are disabled. */
  lemma SwapTickLaws(cfg: Config, s: State, i: uint16, j: uint16)
    requires Fits(cfg, s) && i < cfg.n && j < cfg.n
    ensures Commute(cfg, s, Swap(i, j), Tick) <==> i == j || (s.statuses[i] != 0 <==> s.statuses[j] != 0)
    ensures Emit(cfg, Act(cfg, s, Tick), Swap(i, j)) == Emit(cfg, s, Swap(i, j)) <==>
      s.statuses[i] == 0 && s.statuses[j] == 0
  {
    TickCommutesIff(cfg, s, Swap(i, j));
    ReportSameIff(cfg, s, Swap(i, j), Tick);
  }

  // ----- neighbours in a run -----

  lemma RunPair(cfg: Config, s: State, a: Action, b: Action)
    requires Fits(cfg, s) && a.InRange(cfg) && b.InRange(cfg)
    ensures Good(cfg, [a, b])
    ensures Run(cfg, s, [a, b]) == Act(cfg, Act(cfg, s, a), b)
    ensures Trace(cfg, s, [a, b]) == Emit(cfg, s, a) + Emit(cfg, Act(cfg, s, a), b)
  {
    RunOne(cfg, s, a);
    RunSnoc(cfg, s, [a], b);
    assert [a] + [b] == [a, b];
  }

  /** The actions whose report quotes the state. */
  predicate Quotes(a: Action) { a.SendHk? || a.Report? || a.Swap? }

  lemma QuoteIsOne(cfg: Config, s: State, a: Action)
    requires Fits(cfg, s) && a.InRange(cfg) && Quotes(a)
    ensures |Emit(cfg, s, a)| == 1
  {
  }

  lemma NoQuoteIsFixed(cfg: Config, s: State, a: Action)
    requires Fits(cfg, s) && a.InRange(cfg) && !Quotes(a)
    ensures Emit(cfg, s, a) == Announce(a)
  {
  }

  lemma QuotesDiffer(cfg: Config, s: State, a: Action, b: Action)
    requires Fits(cfg, s) && a.InRange(cfg) && b.InRange(cfg) && Quotes(a) && Quotes(b) && a != b
    ensures Emit(cfg, s, a) != Emit(cfg, s, b)
  {
    assert Emit(cfg, s, a)[0] != Emit(cfg, s, b)[0];
  }

  lemma SamePair<T>(x: T, x': T, y: T, y': T)
    requires x != y && multiset{x, y'} == multiset{y, x'}
    ensures x == x' && y == y'
  {
    assert x in multiset{y, x'} && y in multiset{x, y'};
  }

  /** Singletons u, u', v, v': equal bags force equal parts. */
  lemma SameBagBoth<T>(u: seq<T>, u': seq<T>, v: seq<T>, v': seq<T>)
    requires |u| == 1 && |u'| == 1 && |v| == 1 && |v'| == 1 && u != v
    requires multiset(u + v') == multiset(v + u')
    ensures u == u' && v == v'
  {
    assert u + v' == [u[0], v'[0]] && v + u' == [v[0], u'[0]];
    SamePair(u[0], u'[0], v[0], v'[0]);
  }

  lemma SameBagOne<T>(u: seq<T>, u': seq<T>, v: seq<T>)
    requires |u| == 1 && |u'| == 1 && multiset(u + v) == multiset(v + u')
    ensures u == u'
  {
    assert multiset(u + v) == multiset(u) + multiset(v) && multiset(v + u') == multiset(v) + multiset(u');
    assert multiset(u) == (multiset(u) + multiset(v)) - multiset(v) == multiset(u');
    assert u == [u[0]] && u' == [u'[0]];
    assert u[0] in multiset(u');
  }

  /** What the pair puts out, first a then b. */
  function PairOut(cfg: Config, s: State, a: Action, b: Action): seq<Output>
    requires Fits(cfg, s) && a.InRange(cfg) && b.InRange(cfg)
  {
    Emit(cfg, s, a) + Emit(cfg, Act(cfg, s, a), b)
  }

  lemma BothQuote(cfg: Config, s: State, a: Action, b: Action)
    requires Fits(cfg, s) && a.InRange(cfg) && b.InRange(cfg) && Quotes(a) && Quotes(b) && a != b
    requires multiset(PairOut(cfg, s, a, b)) == multiset(PairOut(cfg, s, b, a))
    ensures Emit(cfg, Act(cfg, s, b), a) == Emit(cfg, s, a) && Emit(cfg, Act(cfg, s, a), b) == Emit(cfg, s, b)
  {
    var sa, sb := Act(cfg, s, a), Act(cfg, s, b);
    QuoteIsOne(cfg, s, a);
    QuoteIsOne(cfg, sb, a);
    QuoteIsOne(cfg, s, b);
    QuoteIsOne(cfg, sa, b);
    QuotesDiffer(cfg, s, a, b);
    SameBagBoth(Emit(cfg, s, a), Emit(cfg, sb, a), Emit(cfg, s, b), Emit(cfg, sa, b));
  }

  lemma OneQuotes(cfg: Config, s: State, a: Action, b: Action)
    requires Fits(cfg, s) && a.InRange(cfg) && b.InRange(cfg) && Quotes(a) && !Quotes(b)
    requires multiset(PairOut(cfg, s, a, b)) == multiset(PairOut(cfg, s, b, a))
    ensures Emit(cfg, Act(cfg, s, b), a) == Emit(cfg, s, a)
  {
    var sa, sb := Act(cfg, s, a), Act(cfg, s, b);
    QuoteIsOne(cfg, s, a);
    QuoteIsOne(cfg, sb, a);
    NoQuoteIsFixed(cfg, s, b);
    NoQuoteIsFixed(cfg, sa, b);
    SameBagOne(Emit(cfg, s, a), Emit(cfg, sb, a), Emit(cfg, s, b));
  }

  /** Equal output bags force both actions to report the same in either order. */
  lemma SamePairReports(cfg: Config, s: State, a: Action, b: Action)
    requires Fits(cfg, s) && a.InRange(cfg) && b.InRange(cfg) && a != b
    requires multiset(PairOut(cfg, s, a, b)) == multiset(PairOut(cfg, s, b, a))
    ensures Emit(cfg, Act(cfg, s, b), a) == Emit(cfg, s, a) && Emit(cfg, Act(cfg, s, a), b) == Emit(cfg, s, b)
  {
    if Quotes(a) && Quotes(b) {
      BothQuote(cfg, s, a, b);
    } else {
      if Quotes(a) {
        OneQuotes(cfg, s, a, b);
      } else {
        NoQuoteIsFixed(cfg, s, a);
        NoQuoteIsFixed(cfg, Act(cfg, s, b), a);
      }
      if Quotes(b) {
        OneQuotes(cfg, s, b, a);
      } else {
        NoQuoteIsFixed(cfg, s, b);
        NoQuoteIsFixed(cfg, Act(cfg, s, a), b);
      }
    }
  }

  lemma SameReportsSamePair(cfg: Config, s: State, a: Action, b: Action)
    requires Fits(cfg, s) && a.InRange(cfg) && b.InRange(cfg)
    requires Emit(cfg, Act(cfg, s, b), a) == Emit(cfg, s, a) && Emit(cfg, Act(cfg, s, a), b) == Emit(cfg, s, b)
    ensures multiset(PairOut(cfg, s, a, b)) == multiset(PairOut(cfg, s, b, a))
  {
  }

  lemma SamePairKeeps(cfg: Config, s: State, a: Action, b: Action)
    requires Fits(cfg, s) && a.InRange(cfg) && b.InRange(cfg)
    requires multiset(PairOut(cfg, s, a, b)) == multiset(PairOut(cfg, s, b, a))
    ensures KeepsReports(cfg, s, a, b)
  {
    if a != b {
      SamePairReports(cfg, s, a, b);
      ReportSameIff(cfg, s, a, b);
      ReportSameIff(cfg, s, b, a);
    }
  }

  lemma KeepsSamePair(cfg: Config, s: State, a: Action, b: Action)
    requires Fits(cfg, s) && a.InRange(cfg) && b.InRange(cfg) && KeepsReports(cfg, s, a, b)
    ensures multiset(PairOut(cfg, s, a, b)) == multiset(PairOut(cfg, s, b, a))
  {
    if a != b {
      ReportSameIff(cfg, s, a, b);
      ReportSameIff(cfg, s, b, a);
      SameReportsSamePair(cfg, s, a, b);
    }
  }

  /** Trading two neighbours keeps the state exactly when they may trade, and what they
      put out, but for the order, exactly when neither disturbs the other. */
  lemma TradeIff(cfg: Config, s: State, a: Action, b: Action)
    requires Fits(cfg, s) && a.InRange(cfg) && b.InRange(cfg)
    ensures Good(cfg, [a, b]) && Good(cfg, [b, a])
    ensures Run(cfg, s, [a, b]) == Run(cfg, s, [b, a]) <==> MayTrade(cfg, s, a, b)
    ensures multiset(Trace(cfg, s, [a, b])) == multiset(Trace(cfg, s, [b, a])) <==> KeepsReports(cfg, s, a, b)
  {
    RunPair(cfg, s, a, b);
    RunPair(cfg, s, b, a);
    CommuteIffMayTrade(cfg, s, a, b);
    if KeepsReports(cfg, s, a, b) {
      KeepsSamePair(cfg, s, a, b);
    }
    if multiset(PairOut(cfg, s, a, b)) == multiset(PairOut(cfg, s, b, a)) {
      SamePairKeeps(cfg, s, a, b);
    }
  }

  /** Independent actions may trade places from every state, undisturbed. */
  lemma IndependentMayTrade(cfg: Config, s: State, a: Action, b: Action)
    requires Fits(cfg, s) && a.InRange(cfg) && b.InRange(cfg) && Independent(cfg, a, b)
    ensures MayTrade(cfg, s, a, b) && KeepsReports(cfg, s, a, b)
  {
    IndependentCommute(cfg, s, a, b);
    CommuteIffMayTrade(cfg, s, a, b);
    ReportSameIff(cfg, s, a, b);
    ReportSameIff(cfg, s, b, a);
  }

  // ----- whole runs -----

  /** ys is xs with actions k and k + 1 traded, as the state they meet in allows. */
  ghost predicate TradedAt(cfg: Config, s: State, xs: seq<Action>, ys: seq<Action>, k: nat)
    requires Fits(cfg, s)
  {
    && Good(cfg, xs) && k + 1 < |xs|
    && ys == xs[..k] + [xs[k + 1], xs[k]] + xs[k + 2..]
    && MayTrade(cfg, Run(cfg, s, xs[..k]), xs[k], xs[k + 1])
  }

  /** One trade apart; if `quiet`, one that keeps the reports too. */
  ghost predicate Traded(cfg: Config, s: State, xs: seq<Action>, ys: seq<Action>, quiet: bool)
    requires Fits(cfg, s)
  {
    exists k: nat :: TradedAt(cfg, s, xs, ys, k)
      && (quiet ==> KeepsReports(cfg, Run(cfg, s, xs[..k]), xs[k], xs[k + 1]))
  }

  ghost predicate SameOutcome(cfg: Config, s: State, xs: seq<Action>, ys: seq<Action>, quiet: bool)
    requires Fits(cfg, s)
  {
    && Good(cfg, xs) && Good(cfg, ys)
    && Run(cfg, s, xs) == Run(cfg, s, ys)
    && (quiet ==> multiset(Trace(cfg, s, xs)) == multiset(Trace(cfg, s, ys)))
  }

  lemma SplitPair<T>(xs: seq<T>, k: nat)
    requires k + 1 < |xs|
    ensures xs == xs[..k] + [xs[k], xs[k + 1]] + xs[k + 2..]
  {
  }

  lemma ReplaceInside(cfg: Config, s: State, pre: seq<Action>, xs: seq<Action>, ys: seq<Action>, post: seq<Action>)
    requires Fits(cfg, s) && Good(cfg, pre) && Good(cfg, xs) && Good(cfg, ys) && Good(cfg, post)
    requires Run(cfg, Run(cfg, s, pre), xs) == Run(cfg, Run(cfg, s, pre), ys)
    ensures Good(cfg, pre + xs + post) && Good(cfg, pre + ys + post)
    ensures Run(cfg, s, pre + xs + post) == Run(cfg, s, pre + ys + post)
    ensures var mid := Run(cfg, s, pre);
      multiset(Trace(cfg, mid, xs)) == multiset(Trace(cfg, mid, ys)) ==>
        multiset(Trace(cfg, s, pre + xs + post)) == multiset(Trace(cfg, s, pre + ys + post))
  {
    RunConcat3(cfg, s, pre, xs, post);
    RunConcat3(cfg, s, pre, ys, post);
  }

  lemma TradeInside(cfg: Config, s: State, pre: seq<Action>, a: Action, b: Action, post: seq<Action>)
    requires Fits(cfg, s) && Good(cfg, pre) && a.InRange(cfg) && b.InRange(cfg) && Good(cfg, post)
    requires MayTrade(cfg, Run(cfg, s, pre), a, b)
    ensures SameOutcome(cfg, s, pre + [a, b] + post, pre + [b, a] + post, KeepsReports(cfg, Run(cfg, s, pre), a, b))
  {
    TradeIff(cfg, Run(cfg, s, pre), a, b);
    ReplaceInside(cfg, s, pre, [a, b], [b, a], post);
  }

  lemma OneTrade(cfg: Config, s: State, xs: seq<Action>, ys: seq<Action>, quiet: bool)
    requires Fits(cfg, s) && Traded(cfg, s, xs, ys, quiet)
    ensures SameOutcome(cfg, s, xs, ys, quiet)
  {
    var k: nat :| TradedAt(cfg, s, xs, ys, k)
      && (quiet ==> KeepsReports(cfg, Run(cfg, s, xs[..k]), xs[k], xs[k + 1]));
    SplitPair(xs, k);
    TradeInside(cfg, s, xs[..k], xs[k], xs[k + 1], xs[k + 2..]);
  }

  /** Runs linked by a chain of permitted trades reach the same state; if the trades
      keep the reports, the runs put out the same events and packets, as a multiset. */
  lemma {:induction false} ChainOfTrades(cfg: Config, s: State, runs: seq<seq<Action>>, quiet: bool)
    requires Fits(cfg, s) && |runs| > 0 && Good(cfg, runs[0])
    requires forall k | 1 <= k < |runs| :: Traded(cfg, s, runs[k - 1], runs[k], quiet)
    ensures SameOutcome(cfg, s, runs[0], runs[|runs| - 1], quiet)
  {
    if |runs| == 1 {
    } else {
      var fewer, last := runs[..|runs| - 1], |runs| - 1;
      ChainOfTrades(cfg, s, fewer, quiet);
      assert Traded(cfg, s, runs[last - 1], runs[last], quiet);
      OneTrade(cfg, s, runs[last - 1], runs[last], quiet);
    }
  }
}
