/** Blinker numbers are only names: renaming them by a permutation renames the
    whole behaviour, as far as the range of the "all" loops allows. */
module Symmetry {
  import opened Types
  import opened Machine
  import opened Permutations

  function RenameWord(cfg: Config, p: seq<nat>, w: uint16): uint16
    requires IsPerm(p, cfg.n)
  {
    if w < cfg.n then p[w] else w
  }

  /** Renames every in-range blinker number of a message. */
  function RenameMessage(cfg: Config, p: seq<nat>, m: Message): Message
    requires IsPerm(p, cfg.n)
  {
    m.(word1 := RenameWord(cfg, p, m.word1), word2 := RenameWord(cfg, p, m.word2))
  }

  function RenameAction(cfg: Config, p: seq<nat>, a: Action): (r: Action)
    requires IsPerm(p, cfg.n)
    ensures a.InRange(cfg) ==> r.InRange(cfg)
  {
    match a
    case Reset(i) => Reset(RenameWord(cfg, p, i))
    case Report(i) => Report(RenameWord(cfg, p, i))
    case Enable(i) => Enable(RenameWord(cfg, p, i))
    case Disable(i) => Disable(RenameWord(cfg, p, i))
    case Swap(i, j) => Swap(RenameWord(cfg, p, i), RenameWord(cfg, p, j))
    case BadNumber(i) => BadNumber(RenameWord(cfg, p, i))
    case BadPair(i, j) => BadPair(RenameWord(cfg, p, i), RenameWord(cfg, p, j))
    case _ => a
  }

  function RenameOutput(cfg: Config, p: seq<nat>, o: Output): Output
    requires IsPerm(p, cfg.n)
  {
    match o
    case Sent(BlinkerReset(i)) => Sent(BlinkerReset(RenameWord(cfg, p, i)))
    case Sent(BlinkerCount(i, c)) => Sent(BlinkerCount(RenameWord(cfg, p, i), c))
    case Sent(BlinkerEnabled(i)) => Sent(BlinkerEnabled(RenameWord(cfg, p, i)))
    case Sent(BlinkerDisabled(i)) => Sent(BlinkerDisabled(RenameWord(cfg, p, i)))
    case Sent(Swapped(i, j, c, d)) => Sent(Swapped(RenameWord(cfg, p, i), RenameWord(cfg, p, j), c, d))
    case Sent(NumberError(i)) => Sent(NumberError(RenameWord(cfg, p, i)))
    case Sent(PairError(i, j)) => Sent(PairError(RenameWord(cfg, p, i), RenameWord(cfg, p, j)))
    case _ => o
  }

  function RenameMessages(cfg: Config, p: seq<nat>, ms: seq<Message>): (r: seq<Message>)
    requires IsPerm(p, cfg.n)
    ensures |r| == |ms| && forall k | 0 <= k < |ms| :: r[k] == RenameMessage(cfg, p, ms[k])
  {
    seq(|ms|, k requires 0 <= k < |ms| => RenameMessage(cfg, p, ms[k]))
  }

  function RenameActions(cfg: Config, p: seq<nat>, acts: seq<Action>): (r: seq<Action>)
    requires IsPerm(p, cfg.n)
    ensures |r| == |acts| && forall k | 0 <= k < |acts| :: r[k] == RenameAction(cfg, p, acts[k])
  {
    seq(|acts|, k requires 0 <= k < |acts| => RenameAction(cfg, p, acts[k]))
  }

  function RenameOutputs(cfg: Config, p: seq<nat>, outs: seq<Output>): (r: seq<Output>)
    requires IsPerm(p, cfg.n)
    ensures |r| == |outs| && forall k | 0 <= k < |outs| :: r[k] == RenameOutput(cfg, p, outs[k])
  {
    seq(|outs|, k requires 0 <= k < |outs| => RenameOutput(cfg, p, outs[k]))
  }

  /** r is s with slot i renamed p[i]. */
  ghost predicate Renamed(cfg: Config, p: seq<nat>, s: State, r: State)
    requires IsPerm(p, cfg.n) && Fits(cfg, s) && Fits(cfg, r)
  {
    && (forall i | 0 <= i < cfg.n :: r.counts[p[i]] == s.counts[i] && r.statuses[p[i]] == s.statuses[i])
    && r.cmdCounter == s.cmdCounter && r.errCounter == s.errCounter && r.hk == s.hk
  }

  predicate IsAll(a: Action) { a.ResetAll? || a.EnableAll? || a.DisableAll? }

  /** The renaming keeps the range of the "all" loops. */
  ghost predicate KeepsRange(cfg: Config, p: seq<nat>)
    requires IsPerm(p, cfg.n)
  {
    forall i | 0 <= i < cfg.n :: i < cfg.allBound <==> p[i] < cfg.allBound
  }

  lemma RenameWordInRange(cfg: Config, p: seq<nat>, w: uint16)
    requires IsPerm(p, cfg.n)
    ensures RenameWord(cfg, p, w) < cfg.n <==> w < cfg.n
    ensures w >= cfg.n ==> RenameWord(cfg, p, w) == w
  {
  }

  /** The dispatcher sees the renamed message as the renamed action. */
  lemma ClassifyRenamed(cfg: Config, p: seq<nat>, m: Message)
    requires IsPerm(p, cfg.n)
    ensures Classify(cfg, RenameMessage(cfg, p, m)) == RenameAction(cfg, p, Classify(cfg, m))
  {
    var r := RenameMessage(cfg, p, m);
    assert r.mid == m.mid && r.code == m.code && r.size == m.size && r.param == m.param;
    RenameWordInRange(cfg, p, m.word1);
    RenameWordInRange(cfg, p, m.word2);
    if m.mid != cfg.cmdMid || !KnownCode(m.code) || m.size != ExpectedSize(cfg, m.code) {
    } else if m.code == SWAP_TWO_BLINKERS_CC {
    } else if RESET_SPEC_BLINKER_CC <= m.code <= DISABLE_SPEC_BLINKER_CC {
    } else {
    }
  }

  lemma DecodeRenamed(cfg: Config, p: seq<nat>, ms: seq<Message>)
    requires IsPerm(p, cfg.n)
    ensures Decode(cfg, RenameMessages(cfg, p, ms)) == RenameActions(cfg, p, Decode(cfg, ms))
  {
    forall k | 0 <= k < |ms|
      ensures Decode(cfg, RenameMessages(cfg, p, ms))[k] == RenameActions(cfg, p, Decode(cfg, ms))[k]
    {
      ClassifyRenamed(cfg, p, ms[k]);
    }
  }

  lemma PermSame(cfg: Config, p: seq<nat>, i: nat, j: nat)
    requires IsPerm(p, cfg.n) && i < cfg.n && j < cfg.n
    ensures p[i] == p[j] <==> i == j
  {
  }

  lemma RenamedSlot(cfg: Config, p: seq<nat>, s: State, r: State, a: Action, i: nat)
    requires IsPerm(p, cfg.n) && Fits(cfg, s) && Fits(cfg, r) && Renamed(cfg, p, s, r) && a.InRange(cfg)
    requires IsAll(a) ==> KeepsRange(cfg, p)
    requires i < cfg.n
    ensures var s', r' := Act(cfg, s, a), Act(cfg, r, RenameAction(cfg, p, a));
      r'.counts[p[i]] == s'.counts[i] && r'.statuses[p[i]] == s'.statuses[i]
  {
    match a
    case Reset(k) => PermSame(cfg, p, i, k);
    case Enable(k) => PermSame(cfg, p, i, k);
    case Disable(k) => PermSame(cfg, p, i, k);
    case Swap(k, l) =>
      PermSame(cfg, p, i, k);
      PermSame(cfg, p, i, l);
    case _ =>
  }

  lemma RenamedStep(cfg: Config, p: seq<nat>, s: State, r: State, a: Action)
    requires IsPerm(p, cfg.n) && Fits(cfg, s) && Fits(cfg, r) && Renamed(cfg, p, s, r) && a.InRange(cfg)
    requires IsAll(a) ==> KeepsRange(cfg, p)
    ensures Renamed(cfg, p, Act(cfg, s, a), Act(cfg, r, RenameAction(cfg, p, a)))
  {
    var s', r' := Act(cfg, s, a), Act(cfg, r, RenameAction(cfg, p, a));
    forall i | 0 <= i < cfg.n
      ensures r'.counts[p[i]] == s'.counts[i] && r'.statuses[p[i]] == s'.statuses[i]
    {
      RenamedSlot(cfg, p, s, r, a, i);
    }
  }

  lemma RenamedEmit(cfg: Config, p: seq<nat>, s: State, r: State, a: Action)
    requires IsPerm(p, cfg.n) && Fits(cfg, s) && Fits(cfg, r) && Renamed(cfg, p, s, r) && a.InRange(cfg)
    ensures Emit(cfg, r, RenameAction(cfg, p, a)) == RenameOutputs(cfg, p, Emit(cfg, s, a))
  {
  }

  lemma RenameActionsSnoc(cfg: Config, p: seq<nat>, acts: seq<Action>)
    requires IsPerm(p, cfg.n) && Good(cfg, acts) && acts != []
    ensures var before, a := acts[..|acts| - 1], acts[|acts| - 1];
      RenameActions(cfg, p, acts) == RenameActions(cfg, p, before) + [RenameAction(cfg, p, a)]
    ensures Good(cfg, RenameActions(cfg, p, acts))
  {
  }

  lemma RenameOutputsConcat(cfg: Config, p: seq<nat>, xs: seq<Output>, ys: seq<Output>)
    requires IsPerm(p, cfg.n)
    ensures RenameOutputs(cfg, p, xs + ys) == RenameOutputs(cfg, p, xs) + RenameOutputs(cfg, p, ys)
  {
  }

  /** A run that may be renamed by p: it has no "all" command, or p keeps their range. */
  ghost predicate Renamable(cfg: Config, p: seq<nat>, acts: seq<Action>)
    requires IsPerm(p, cfg.n)
  {
    KeepsRange(cfg, p) || forall k | 0 <= k < |acts| :: !IsAll(acts[k])
  }

  lemma {:induction false} RenamedRun(cfg: Config, p: seq<nat>, s: State, r: State, acts: seq<Action>)
    requires IsPerm(p, cfg.n) && Fits(cfg, s) && Fits(cfg, r) && Renamed(cfg, p, s, r)
    requires Good(cfg, acts) && Renamable(cfg, p, acts)
    ensures Good(cfg, RenameActions(cfg, p, acts))
    ensures Renamed(cfg, p, Run(cfg, s, acts), Run(cfg, r, RenameActions(cfg, p, acts)))
    ensures Trace(cfg, r, RenameActions(cfg, p, acts)) == RenameOutputs(cfg, p, Trace(cfg, s, acts))
  {
    if acts == [] {
    } else {
      var before, a := acts[..|acts| - 1], acts[|acts| - 1];
      RenamedRun(cfg, p, s, r, before);
      var s1, r1 := Run(cfg, s, before), Run(cfg, r, RenameActions(cfg, p, before));
      RenamedStep(cfg, p, s1, r1, a);
      RenamedEmit(cfg, p, s1, r1, a);
      RenameActionsSnoc(cfg, p, acts);
      RunSnoc(cfg, r, RenameActions(cfg, p, before), RenameAction(cfg, p, a));
      RenameOutputsConcat(cfg, p, Trace(cfg, s, before), Emit(cfg, s1, a));
    }
  }

  /** Renaming the start state and the messages renames the final state and the outputs. */
  lemma RenamedMessages(cfg: Config, p: seq<nat>, s: State, r: State, ms: seq<Message>)
    requires IsPerm(p, cfg.n) && Fits(cfg, s) && Fits(cfg, r) && Renamed(cfg, p, s, r)
    requires Renamable(cfg, p, Decode(cfg, ms))
    ensures Renamed(cfg, p, Run(cfg, s, Decode(cfg, ms)), Run(cfg, r, Decode(cfg, RenameMessages(cfg, p, ms))))
    ensures Trace(cfg, r, Decode(cfg, RenameMessages(cfg, p, ms)))
         == RenameOutputs(cfg, p, Trace(cfg, s, Decode(cfg, ms)))
  {
    DecodeRenamed(cfg, p, ms);
    RenamedRun(cfg, p, s, r, Decode(cfg, ms));
  }

  /** p is a symmetry of this run, from these two start states. */
  ghost predicate SymmetricRun(cfg: Config, p: seq<nat>, s: State, r: State, ms: seq<Message>)
    requires IsPerm(p, cfg.n)
  {
    Fits(cfg, s) && Fits(cfg, r) && Renamed(cfg, p, s, r) ==>
      var acts, acts' := Decode(cfg, ms), Decode(cfg, RenameMessages(cfg, p, ms));
      && Renamed(cfg, p, Run(cfg, s, acts), Run(cfg, r, acts'))
      && Trace(cfg, r, acts') == RenameOutputs(cfg, p, Trace(cfg, s, acts))
  }

  /** An "all" command from the zeroed state breaks a renaming that moves its range. */
  lemma EnableAllBreaks(cfg: Config, p: seq<nat>)
    requires IsPerm(p, cfg.n) && !KeepsRange(cfg, p)
    ensures !SymmetricRun(cfg, p, ZeroState(cfg), ZeroState(cfg), [Encode(cfg, EnableAll)])
  {
    var z, ms := ZeroState(cfg), [Encode(cfg, EnableAll)];
    DecodeOne(cfg, EnableAll);
    DecodeRenamed(cfg, p, ms);
    assert Decode(cfg, RenameMessages(cfg, p, ms)) == [EnableAll];
    RunOne(cfg, z, EnableAll);
    var i :| 0 <= i < cfg.n && !(i < cfg.allBound <==> p[i] < cfg.allBound);
    assert Act(cfg, z, EnableAll).statuses[p[i]] != Act(cfg, z, EnableAll).statuses[i];
  }

  /** A permutation is a symmetry of every run exactly when it keeps the range of the
      "all" loops. */
  lemma SymmetricIffKeepsRange(cfg: Config, p: seq<nat>)
    requires IsPerm(p, cfg.n)
    ensures (forall s, r, ms :: SymmetricRun(cfg, p, s, r, ms)) <==> KeepsRange(cfg, p)
  {
    if KeepsRange(cfg, p) {
      forall s, r, ms ensures SymmetricRun(cfg, p, s, r, ms) {
        if Fits(cfg, s) && Fits(cfg, r) && Renamed(cfg, p, s, r) {
          RenamedMessages(cfg, p, s, r, ms);
        }
      }
    } else {
      EnableAllBreaks(cfg, p);
    }
  }

  /** As written, the permutations that qualify are those that fix the last blinker. */
  lemma KeepsRangeAsWritten(cfg: Config, p: seq<nat>)
    requires IsPerm(p, cfg.n) && cfg.AsWritten()
    ensures KeepsRange(cfg, p) <==> p[cfg.n - 1] == cfg.n - 1
  {
    var last := cfg.n - 1;
    if p[last] == last {
      forall i | 0 <= i < cfg.n ensures i < last <==> p[i] < last {
        PermSame(cfg, p, i, last);
      }
    }
  }
}
