/** Actions read and write locations; two that do not meet there commute from every state. */
module Exchange {
  import opened Types
  import opened Machine

  datatype Loc = CountOf(i: nat) | StatusOf(i: nat) | CmdLoc | ErrLoc | HkErrorsLoc | HkCommandsLoc

  predicate Known(cfg: Config, l: Loc) {
    (l.CountOf? ==> l.i < cfg.n) && (l.StatusOf? ==> l.i < cfg.n)
  }

  function Get(cfg: Config, s: State, l: Loc): int
    requires Fits(cfg, s) && Known(cfg, l)
  {
    match l
    case CountOf(i) => s.counts[i]
    case StatusOf(i) => s.statuses[i]
    case CmdLoc => s.cmdCounter
    case ErrLoc => s.errCounter
    case HkErrorsLoc => s.hk.errors
    case HkCommandsLoc => s.hk.commands
  }

  predicate Writes(cfg: Config, a: Action, l: Loc) {
    match a
    case SendHk => l.HkErrorsLoc? || l.HkCommandsLoc?
    case Tick => l.CountOf?
    case Noop => l.CmdLoc?
    case ResetCounters => l.CmdLoc? || l.ErrLoc?
    case ResetAll => l.CountOf? && l.i < cfg.allBound
    case EnableAll => l.StatusOf? && l.i < cfg.allBound
    case DisableAll => l.StatusOf? && l.i < cfg.allBound
    case Reset(i) => l == CountOf(i)
    case Enable(i) => l == StatusOf(i)
    case Disable(i) => l == StatusOf(i)
    case Swap(i, j) => l == CountOf(i) || l == CountOf(j)
    case BadLength(_, _, _, _) => l.ErrLoc?
    case _ => false
  }

  /** What the action's effect or output depends on. */
  predicate Reads(cfg: Config, a: Action, l: Loc) {
    match a
    case SendHk => l.CmdLoc? || l.ErrLoc?
    case Tick => l.CountOf? || l.StatusOf?
    case Noop => l.CmdLoc?
    case Report(i) => l == CountOf(i)
    case Swap(i, j) => l == CountOf(i) || l == CountOf(j)
    case BadLength(_, _, _, _) => l.ErrLoc?
    case _ => false
  }

  lemma WriteFrame(cfg: Config, s: State, a: Action, l: Loc)
    requires Fits(cfg, s) && a.InRange(cfg) && Known(cfg, l) && !Writes(cfg, a, l)
    ensures Get(cfg, Act(cfg, s, a), l) == Get(cfg, s, l)
  {
  }

  ghost predicate AgreeOnReads(cfg: Config, s: State, r: State, a: Action)
    requires Fits(cfg, s) && Fits(cfg, r)
  {
    && s.hk.statuses == r.hk.statuses && s.hk.counts == r.hk.counts
    && forall l | Known(cfg, l) && Reads(cfg, a, l) :: Get(cfg, s, l) == Get(cfg, r, l)
  }

  lemma ReadFrame(cfg: Config, s: State, r: State, a: Action, l: Loc)
    requires Fits(cfg, s) && Fits(cfg, r) && a.InRange(cfg) && AgreeOnReads(cfg, s, r, a)
    requires Known(cfg, l) && Writes(cfg, a, l)
    ensures Get(cfg, Act(cfg, s, a), l) == Get(cfg, Act(cfg, r, a), l)
  {
    match a
    case Tick =>
      assert Get(cfg, s, CountOf(l.i)) == Get(cfg, r, CountOf(l.i));
      assert Get(cfg, s, StatusOf(l.i)) == Get(cfg, r, StatusOf(l.i));
    case Swap(i, j) =>
      assert Get(cfg, s, CountOf(i)) == Get(cfg, r, CountOf(i));
      assert Get(cfg, s, CountOf(j)) == Get(cfg, r, CountOf(j));
    case SendHk =>
      assert Get(cfg, s, CmdLoc) == Get(cfg, r, CmdLoc);
      assert Get(cfg, s, ErrLoc) == Get(cfg, r, ErrLoc);
    case Noop =>
      assert Get(cfg, s, CmdLoc) == Get(cfg, r, CmdLoc);
    case BadLength(_, _, _, _) =>
      assert Get(cfg, s, ErrLoc) == Get(cfg, r, ErrLoc);
    case _ =>
  }

  lemma EmitFrame(cfg: Config, s: State, r: State, a: Action)
    requires Fits(cfg, s) && Fits(cfg, r) && a.InRange(cfg) && AgreeOnReads(cfg, s, r, a)
    ensures Emit(cfg, s, a) == Emit(cfg, r, a)
  {
    match a
    case SendHk =>
      assert Get(cfg, s, CmdLoc) == Get(cfg, r, CmdLoc);
      assert Get(cfg, s, ErrLoc) == Get(cfg, r, ErrLoc);
    case Report(i) =>
      assert Get(cfg, s, CountOf(i)) == Get(cfg, r, CountOf(i));
    case Swap(i, j) =>
      assert Get(cfg, s, CountOf(i)) == Get(cfg, r, CountOf(i));
      assert Get(cfg, s, CountOf(j)) == Get(cfg, r, CountOf(j));
    case _ =>
  }

  lemma ArraysKept(cfg: Config, s: State, a: Action)
    requires Fits(cfg, s) && a.InRange(cfg)
    ensures Act(cfg, s, a).hk.statuses == s.hk.statuses && Act(cfg, s, a).hk.counts == s.hk.counts
  {
  }

  lemma SameStates(cfg: Config, s: State, r: State)
    requires Fits(cfg, s) && Fits(cfg, r)
    requires s.hk.statuses == r.hk.statuses && s.hk.counts == r.hk.counts
    requires forall l | Known(cfg, l) :: Get(cfg, s, l) == Get(cfg, r, l)
    ensures s == r
  {
    forall i | 0 <= i < cfg.n ensures s.counts[i] == r.counts[i] && s.statuses[i] == r.statuses[i] {
      assert Get(cfg, s, CountOf(i)) == Get(cfg, r, CountOf(i));
      assert Get(cfg, s, StatusOf(i)) == Get(cfg, r, StatusOf(i));
    }
    assert Get(cfg, s, CmdLoc) == Get(cfg, r, CmdLoc) && Get(cfg, s, ErrLoc) == Get(cfg, r, ErrLoc);
    assert Get(cfg, s, HkErrorsLoc) == Get(cfg, r, HkErrorsLoc);
    assert Get(cfg, s, HkCommandsLoc) == Get(cfg, r, HkCommandsLoc);
  }

  /** Neither action writes what the other reads or writes. */
  ghost predicate Independent(cfg: Config, a: Action, b: Action) {
    forall l :: (Writes(cfg, a, l) ==> !Reads(cfg, b, l) && !Writes(cfg, b, l))
             && (Writes(cfg, b, l) ==> !Reads(cfg, a, l))
  }

  lemma AgreeAfterIndependent(cfg: Config, s: State, a: Action, b: Action)
    requires Fits(cfg, s) && a.InRange(cfg) && b.InRange(cfg) && Independent(cfg, a, b)
    ensures AgreeOnReads(cfg, Act(cfg, s, b), s, a)
  {
  }

  lemma CommuteAt(cfg: Config, s: State, a: Action, b: Action, l: Loc)
    requires Fits(cfg, s) && a.InRange(cfg) && b.InRange(cfg) && Independent(cfg, a, b) && Known(cfg, l)
    ensures Get(cfg, Act(cfg, Act(cfg, s, a), b), l) == Get(cfg, Act(cfg, Act(cfg, s, b), a), l)
  {
    var sa, sb := Act(cfg, s, a), Act(cfg, s, b);
    AgreeAfterIndependent(cfg, s, a, b);
    AgreeAfterIndependent(cfg, s, b, a);
    if Writes(cfg, a, l) {
      WriteFrame(cfg, sa, b, l);
      ReadFrame(cfg, sb, s, a, l);
    } else if Writes(cfg, b, l) {
      WriteFrame(cfg, sb, a, l);
      ReadFrame(cfg, sa, s, b, l);
    } else {
      WriteFrame(cfg, s, a, l);
      WriteFrame(cfg, s, b, l);
      WriteFrame(cfg, sa, b, l);
      WriteFrame(cfg, sb, a, l);
    }
  }

  /** Independent actions commute, and each reports the same as if it had gone first. */
  lemma IndependentCommute(cfg: Config, s: State, a: Action, b: Action)
    requires Fits(cfg, s) && a.InRange(cfg) && b.InRange(cfg) && Independent(cfg, a, b)
    ensures Act(cfg, Act(cfg, s, a), b) == Act(cfg, Act(cfg, s, b), a)
    ensures Emit(cfg, Act(cfg, s, b), a) == Emit(cfg, s, a)
    ensures Emit(cfg, Act(cfg, s, a), b) == Emit(cfg, s, b)
  {
    var sa, sb := Act(cfg, s, a), Act(cfg, s, b);
    AgreeAfterIndependent(cfg, s, a, b);
    AgreeAfterIndependent(cfg, s, b, a);
    EmitFrame(cfg, sb, s, a);
    EmitFrame(cfg, sa, s, b);
    forall l | Known(cfg, l)
      ensures Get(cfg, Act(cfg, sa, b), l) == Get(cfg, Act(cfg, sb, a), l)
    {
      CommuteAt(cfg, s, a, b, l);
    }
    ArraysKept(cfg, s, a);
    ArraysKept(cfg, s, b);
    ArraysKept(cfg, sa, b);
    ArraysKept(cfg, sb, a);
    SameStates(cfg, Act(cfg, sa, b), Act(cfg, sb, a));
  }

  function Touched(a: Action): set<nat> {
    match a
    case Reset(i) => {i as nat}
    case Report(i) => {i as nat}
    case Enable(i) => {i as nat}
    case Disable(i) => {i as nat}
    case Swap(i, j) => {i as nat, j as nat}
    case _ => {}
  }

  predicate IsCountCommand(a: Action) { a.Reset? || a.Report? || a.Swap? }

  predicate IsStatusCommand(a: Action) { a.Enable? || a.Disable? }

  lemma LocTouched(cfg: Config, a: Action, l: Loc)
    requires IsCountCommand(a) || IsStatusCommand(a)
    ensures Reads(cfg, a, l) || Writes(cfg, a, l) ==>
      if IsCountCommand(a) then l.CountOf? && l.i in Touched(a) else l.StatusOf? && l.i in Touched(a)
  {
  }

  /** Commands on different blinkers are independent, and so are a count and a status
      command even on the same one. */
  lemma SpecificsIndependent(cfg: Config, a: Action, b: Action)
    requires (IsCountCommand(a) || IsStatusCommand(a)) && (IsCountCommand(b) || IsStatusCommand(b))
    requires Touched(a) !! Touched(b) || IsCountCommand(a) != IsCountCommand(b)
    ensures Independent(cfg, a, b)
  {
    forall l
      ensures Writes(cfg, a, l) ==> !Reads(cfg, b, l) && !Writes(cfg, b, l)
      ensures Writes(cfg, b, l) ==> !Reads(cfg, a, l)
    {
      LocTouched(cfg, a, l);
      LocTouched(cfg, b, l);
    }
  }
}
