/** A normal form for runs. What a run of any length does to any state is a finite
    summary; the summary determines it, and different summaries do different things. */
module Summaries {
  import opened Types
  import opened Wrapping
  import opened Machine
  import opened History

  // ----- summaries -----

  /** Where a final count comes from: a reset, or the initial count of a slot. */
  datatype Source = Cleared | From(slot: nat)

  /** What becomes of one slot: the last status written to it; the source of its count;
      the ticks the count keeps for certain; and, for each slot, those it keeps if that
      slot was enabled initially, because nothing had been written to it yet. */
  datatype SlotSummary = SlotSummary(write: Write, source: Source, sure: uint16, loose: seq<uint16>)

  datatype CounterSummary = CounterSummary(kept: bool, noops: uint8, wrong: uint8)

  /** The packet is as it was, or shows the counters of the last housekeeping request. */
  datatype PacketSummary = Untouched | Taken(counters: CounterSummary)

  datatype Summary = Summary(slots: seq<SlotSummary>, counters: CounterSummary, packet: PacketSummary)

  ghost predicate FitsSummary(cfg: Config, m: Summary) {
    && |m.slots| == cfg.n
    && forall i | 0 <= i < cfg.n ::
      |m.slots[i].loose| == cfg.n && (m.slots[i].source.From? ==> m.slots[i].source.slot < cfg.n)
  }

  // ----- what a summary does to a state -----

  function Written(w: Write, was: uint8): uint8 {
    match w
    case Put(v) => v
    case Keep => was
  }

  /** The loose ticks of slots 0..m that were enabled initially. */
  function Picked(loose: seq<uint16>, statuses: seq<uint8>, m: nat): nat
    requires m <= |loose| && m <= |statuses|
  {
    if m == 0 then 0
    else Picked(loose, statuses, m - 1) + if statuses[m - 1] != 0 then loose[m - 1] else 0
  }

  function Initially(source: Source, counts: seq<uint16>): uint16
    requires source.From? ==> source.slot < |counts|
  {
    match source
    case Cleared => 0
    case From(slot) => counts[slot]
  }

  function SlotCount(cfg: Config, s: State, e: SlotSummary): uint16
    requires Fits(cfg, s) && |e.loose| == cfg.n && (e.source.From? ==> e.source.slot < cfg.n)
  {
    Wrap16(Initially(e.source, s.counts) + e.sure + Picked(e.loose, s.statuses, cfg.n))
  }

  function Counted(kept: bool, was: uint8, more: uint8): uint8 {
    Wrap8((if kept then was else 0) + more)
  }

  function ApplyPacket(m: PacketSummary, s: State): Hk {
    match m
    case Untouched => s.hk
    case Taken(c) => s.hk.(commands := Counted(c.kept, s.cmdCounter, c.noops),
                           errors := Counted(c.kept, s.errCounter, c.wrong))
  }

  function Apply(cfg: Config, m: Summary, s: State): (r: State)
    requires Fits(cfg, s) && FitsSummary(cfg, m)
    ensures Fits(cfg, r)
  {
    State(
      seq(cfg.n, i requires 0 <= i < cfg.n => SlotCount(cfg, s, m.slots[i])),
      seq(cfg.n, i requires 0 <= i < cfg.n => Written(m.slots[i].write, s.statuses[i])),
      Counted(m.counters.kept, s.cmdCounter, m.counters.noops),
      Counted(m.counters.kept, s.errCounter, m.counters.wrong),
      ApplyPacket(m.packet, s))
  }

  // ----- the summary of a run -----

  function LastWrite(cfg: Config, acts: seq<Action>, i: nat, t: nat): Write
    requires t <= |acts|
  {
    if t == 0 then Keep
    else
      match StatusWrite(cfg, acts[t - 1], i)
      case Put(v) => Put(v)
      case Keep => LastWrite(cfg, acts, i, t - 1)
  }

  /** Message k is a tick met by the count found in slot i at the end, and not reset since. */
  ghost predicate Meets(cfg: Config, acts: seq<Action>, i: nat, k: nat)
    requires Good(cfg, acts) && i < cfg.n && k < |acts|
  {
    acts[k].Tick? && Survives(cfg, acts, i, k, |acts|)
  }

  /** What had been written by then to the slot where the count met message k. */
  function WriteMet(cfg: Config, acts: seq<Action>, i: nat, k: nat): Write
    requires Good(cfg, acts) && i < cfg.n && k < |acts|
  {
    LastWrite(cfg, acts, Slot(cfg, acts, i, k, |acts|), k)
  }

  ghost function SureTicks(cfg: Config, acts: seq<Action>, i: nat): set<nat>
    requires Good(cfg, acts) && i < cfg.n
  {
    set k: nat | k < |acts| && Meets(cfg, acts, i, k) && WriteMet(cfg, acts, i, k).Put?
                 && WriteMet(cfg, acts, i, k).value != 0
  }

  ghost function LooseTicks(cfg: Config, acts: seq<Action>, i: nat, j: nat): set<nat>
    requires Good(cfg, acts) && i < cfg.n
  {
    set k: nat | k < |acts| && Meets(cfg, acts, i, k) && WriteMet(cfg, acts, i, k) == Keep
                 && Slot(cfg, acts, i, k, |acts|) == j
  }

  ghost function SummarizeSlot(cfg: Config, acts: seq<Action>, i: nat): SlotSummary
    requires Good(cfg, acts) && i < cfg.n
  {
    SlotSummary(
      LastWrite(cfg, acts, i, |acts|),
      if Survives(cfg, acts, i, 0, |acts|) then From(Slot(cfg, acts, i, 0, |acts|)) else Cleared,
      Wrap16(|SureTicks(cfg, acts, i)|),
      seq(cfg.n, j requires 0 <= j < cfg.n => Wrap16(|LooseTicks(cfg, acts, i, j)|)))
  }

  ghost function SummarizeCounters(acts: seq<Action>, t: nat): CounterSummary
    requires t <= |acts|
  {
    CounterSummary(CountersKept(acts, 0, t), Wrap8(|Noops(acts, t)|), Wrap8(|WrongLengths(acts, t)|))
  }

  ghost function SummarizePacket(acts: seq<Action>, t: nat): PacketSummary
    requires t <= |acts|
  {
    if t == 0 then Untouched
    else if acts[t - 1].SendHk? then Taken(SummarizeCounters(acts, t - 1))
    else SummarizePacket(acts, t - 1)
  }

  ghost function Summarize(cfg: Config, acts: seq<Action>): (m: Summary)
    requires Good(cfg, acts)
    ensures FitsSummary(cfg, m)
  {
    Summary(
      seq(cfg.n, i requires 0 <= i < cfg.n => SummarizeSlot(cfg, acts, i)),
      SummarizeCounters(acts, |acts|),
      SummarizePacket(acts, |acts|))
  }

  // ----- the summary does what the run does -----

  lemma {:induction false} StatusIsWritten(cfg: Config, init: seq<uint8>, acts: seq<Action>, i: nat, t: nat)
    requires Good(cfg, acts) && |init| == cfg.n && i < cfg.n && t <= |acts|
    ensures StatusAt(cfg, init, acts, i, t) == Written(LastWrite(cfg, acts, i, t), init[i])
  {
    if t == 0 {
    } else {
      StatusIsWritten(cfg, init, acts, i, t - 1);
    }
  }

  /** The ticks kept that are sure, or met in one of the slots 0..m. */
  ghost function KeptUpTo(cfg: Config, init: seq<uint8>, acts: seq<Action>, i: nat, m: nat): set<nat>
    requires Good(cfg, acts) && |init| == cfg.n && i < cfg.n
  {
    set k: nat | k < |acts| && TickKept(cfg, init, acts, i, |acts|, k)
                 && (WriteMet(cfg, acts, i, k).Put? || Slot(cfg, acts, i, k, |acts|) < m)
  }

  lemma TickKeptIff(cfg: Config, init: seq<uint8>, acts: seq<Action>, i: nat, k: nat)
    requires Good(cfg, acts) && |init| == cfg.n && i < cfg.n && k < |acts|
    ensures TickKept(cfg, init, acts, i, |acts|, k) <==>
      Meets(cfg, acts, i, k) && Written(WriteMet(cfg, acts, i, k), init[Slot(cfg, acts, i, k, |acts|)]) != 0
  {
    StatusIsWritten(cfg, init, acts, Slot(cfg, acts, i, k, |acts|), k);
  }

  ghost function LooseSum(cfg: Config, init: seq<uint8>, acts: seq<Action>, i: nat, m: nat): nat
    requires Good(cfg, acts) && |init| == cfg.n && i < cfg.n && m <= cfg.n
  {
    if m == 0 then 0
    else LooseSum(cfg, init, acts, i, m - 1) + if init[m - 1] != 0 then |LooseTicks(cfg, acts, i, m - 1)| else 0
  }

  lemma KeptUpToZero(cfg: Config, init: seq<uint8>, acts: seq<Action>, i: nat)
    requires Good(cfg, acts) && |init| == cfg.n && i < cfg.n
    ensures KeptUpTo(cfg, init, acts, i, 0) == SureTicks(cfg, acts, i)
  {
    forall k: nat | k < |acts|
      ensures k in KeptUpTo(cfg, init, acts, i, 0) <==> k in SureTicks(cfg, acts, i)
    {
      TickKeptIff(cfg, init, acts, i, k);
    }
  }

  lemma KeptUpToStep(cfg: Config, init: seq<uint8>, acts: seq<Action>, i: nat, m: nat)
    requires Good(cfg, acts) && |init| == cfg.n && i < cfg.n && m < cfg.n
    ensures var loose := if init[m] != 0 then LooseTicks(cfg, acts, i, m) else {};
      KeptUpTo(cfg, init, acts, i, m + 1) == KeptUpTo(cfg, init, acts, i, m) + loose
      && KeptUpTo(cfg, init, acts, i, m) !! loose
  {
    var loose := if init[m] != 0 then LooseTicks(cfg, acts, i, m) else {};
    forall k: nat | k < |acts|
      ensures k in KeptUpTo(cfg, init, acts, i, m + 1) <==> k in KeptUpTo(cfg, init, acts, i, m) || k in loose
    {
      TickKeptIff(cfg, init, acts, i, k);
    }
  }

  lemma {:induction false} KeptUpToSize(cfg: Config, init: seq<uint8>, acts: seq<Action>, i: nat, m: nat)
    requires Good(cfg, acts) && |init| == cfg.n && i < cfg.n && m <= cfg.n
    ensures |KeptUpTo(cfg, init, acts, i, m)| == |SureTicks(cfg, acts, i)| + LooseSum(cfg, init, acts, i, m)
  {
    if m == 0 {
      KeptUpToZero(cfg, init, acts, i);
    } else {
      KeptUpToSize(cfg, init, acts, i, m - 1);
      KeptUpToStep(cfg, init, acts, i, m - 1);
    }
  }

  lemma TicksKeptSize(cfg: Config, init: seq<uint8>, acts: seq<Action>, i: nat)
    requires Good(cfg, acts) && |init| == cfg.n && i < cfg.n
    ensures |TicksKept(cfg, init, acts, i, |acts|)|
         == |SureTicks(cfg, acts, i)| + LooseSum(cfg, init, acts, i, cfg.n)
  {
    KeptUpToSize(cfg, init, acts, i, cfg.n);
    assert KeptUpTo(cfg, init, acts, i, cfg.n) == TicksKept(cfg, init, acts, i, |acts|);
  }

  lemma WrapPlus(x: nat, y: nat, z: nat)
    requires Wrap16(y) == Wrap16(z)
    ensures Wrap16(x + y) == Wrap16(x + z)
    decreases x
  {
    if x == 0 {
    } else {
      WrapPlus(x - 1, y, z);
      WrapInc(x - 1 + y);
      WrapInc(x - 1 + z);
    }
  }

  lemma WrapIdempotent(x: nat)
    ensures Wrap16(Wrap16(x)) == Wrap16(x)
  {
  }

  lemma {:induction false} PickedIsLoose(cfg: Config, init: seq<uint8>, acts: seq<Action>, i: nat, a: nat, m: nat)
    requires Good(cfg, acts) && |init| == cfg.n && i < cfg.n && m <= cfg.n
    ensures Wrap16(a + LooseSum(cfg, init, acts, i, m))
         == Wrap16(a + Picked(SummarizeSlot(cfg, acts, i).loose, init, m))
    decreases m
  {
    if m == 0 {
    } else if init[m - 1] == 0 {
      PickedIsLoose(cfg, init, acts, i, a, m - 1);
    } else {
      var l := |LooseTicks(cfg, acts, i, m - 1)|;
      PickedIsLoose(cfg, init, acts, i, a + Wrap16(l), m - 1);
      WrapIdempotent(l);
      WrapPlus(a + LooseSum(cfg, init, acts, i, m - 1), l, Wrap16(l));
    }
  }

  lemma WrapParts(total: nat, from: nat, loose: nat, sure: nat, picked: nat)
    requires total == from + loose + sure
    requires Wrap16(from + Wrap16(sure) + loose) == Wrap16(from + Wrap16(sure) + picked)
    ensures Wrap16(total) == Wrap16(from + Wrap16(sure) + picked)
  {
    WrapIdempotent(sure);
    WrapPlus(from + loose, sure, Wrap16(sure));
    assert from + loose + Wrap16(sure) == from + Wrap16(sure) + loose;
  }

  lemma SlotCountParts(cfg: Config, s: State, acts: seq<Action>, i: nat)
    requires Fits(cfg, s) && Good(cfg, acts) && i < cfg.n
    ensures var e := SummarizeSlot(cfg, acts, i);
      SlotCount(cfg, s, e) == Wrap16(Inherited(cfg, s, acts, i, |acts|) + Wrap16(|SureTicks(cfg, acts, i)|)
                                     + Picked(e.loose, s.statuses, cfg.n))
  {
  }

  lemma CountIsSlotCount(cfg: Config, s: State, acts: seq<Action>, i: nat)
    requires Fits(cfg, s) && Good(cfg, acts) && i < cfg.n
    ensures Run(cfg, s, acts).counts[i] == SlotCount(cfg, s, SummarizeSlot(cfg, acts, i))
  {
    var picked, sure := Picked(SummarizeSlot(cfg, acts, i).loose, s.statuses, cfg.n), |SureTicks(cfg, acts, i)|;
    var from, loose := Inherited(cfg, s, acts, i, |acts|), LooseSum(cfg, s.statuses, acts, i, cfg.n);
    var total := TotalAt(cfg, s, acts, i, |acts|);
    assert total == from + loose + sure by { TicksKeptSize(cfg, s.statuses, acts, i); }
    PickedIsLoose(cfg, s.statuses, acts, i, from + Wrap16(sure), cfg.n);
    WrapParts(total, from, loose, sure, picked);
    CountIsTotal(cfg, s, acts, i);
    SlotCountParts(cfg, s, acts, i);
  }

  lemma Wrap8Plus(x: nat, y: nat)
    ensures Wrap8(x + y) == Wrap8(x + Wrap8(y))
    decreases x
  {
    if x == 0 {
    } else {
      Wrap8Plus(x - 1, y);
      WrapInc(x - 1 + y);
      WrapInc(x - 1 + Wrap8(y));
    }
  }

  lemma CounterIsCounted(kept: bool, was: uint8, n: nat)
    ensures Wrap8((if kept then was else 0) + n) == Counted(kept, was, Wrap8(n))
  {
    Wrap8Plus(if kept then was else 0, n);
  }

  lemma CountersAtCounted(s: State, acts: seq<Action>, t: nat)
    requires t <= |acts|
    ensures var c := SummarizeCounters(acts, t);
      && CmdCounterAt(s, acts, t) == Counted(c.kept, s.cmdCounter, c.noops)
      && ErrCounterAt(s, acts, t) == Counted(c.kept, s.errCounter, c.wrong)
  {
    CounterIsCounted(CountersKept(acts, 0, t), s.cmdCounter, |Noops(acts, t)|);
    CounterIsCounted(CountersKept(acts, 0, t), s.errCounter, |WrongLengths(acts, t)|);
  }

  lemma CountersAreCounted(cfg: Config, s: State, acts: seq<Action>, t: nat)
    requires Fits(cfg, s) && Good(cfg, acts) && t <= |acts|
    ensures var c := SummarizeCounters(acts, t); var r := Run(cfg, s, acts[..t]);
      r.cmdCounter == Counted(c.kept, s.cmdCounter, c.noops) && r.errCounter == Counted(c.kept, s.errCounter, c.wrong)
  {
    CountersAreHistory(cfg, s, acts, t);
    CountersAtCounted(s, acts, t);
  }

  lemma PacketStep(cfg: Config, s: State, a: Action)
    requires Fits(cfg, s) && a.InRange(cfg)
    ensures Act(cfg, s, a).hk == if a.SendHk? then s.hk.(errors := s.errCounter, commands := s.cmdCounter) else s.hk
  {
  }

  lemma {:induction false} PacketIsSummary(cfg: Config, s: State, acts: seq<Action>, t: nat)
    requires Fits(cfg, s) && Good(cfg, acts) && t <= |acts|
    ensures Run(cfg, s, acts[..t]).hk == ApplyPacket(SummarizePacket(acts, t), s)
  {
    if t == 0 {
    } else {
      PacketIsSummary(cfg, s, acts, t - 1);
      CountersAreCounted(cfg, s, acts, t - 1);
      RunPrefix(cfg, s, acts, t - 1);
      PacketStep(cfg, Run(cfg, s, acts[..t - 1]), acts[t - 1]);
      PacketArraysUntouched(cfg, s, acts[..t - 1]);
    }
  }

  /** The normal form: running a message sequence is applying its summary. */
  lemma RunIsApply(cfg: Config, s: State, acts: seq<Action>)
    requires Fits(cfg, s) && Good(cfg, acts)
    ensures Run(cfg, s, acts) == Apply(cfg, Summarize(cfg, acts), s)
  {
    var r, m := Run(cfg, s, acts), Apply(cfg, Summarize(cfg, acts), s);
    assert acts[..|acts|] == acts;
    forall i | 0 <= i < cfg.n ensures r.counts[i] == m.counts[i] && r.statuses[i] == m.statuses[i] {
      CountIsSlotCount(cfg, s, acts, i);
      StatusIsLastWrite(cfg, s, acts, i, |acts|);
      StatusIsWritten(cfg, s.statuses, acts, i, |acts|);
    }
    assert r.counts == m.counts && r.statuses == m.statuses;
    CountersAreCounted(cfg, s, acts, |acts|);
    PacketIsSummary(cfg, s, acts, |acts|);
  }

  // ----- different summaries do different things -----

  ghost predicate SameOn(cfg: Config, x: Summary, y: Summary, s: State)
    requires FitsSummary(cfg, x) && FitsSummary(cfg, y)
  {
    Fits(cfg, s) ==> Apply(cfg, x, s) == Apply(cfg, y, s)
  }

  ghost predicate SameEverywhere(cfg: Config, x: Summary, y: Summary)
    requires FitsSummary(cfg, x) && FitsSummary(cfg, y)
  {
    forall s :: SameOn(cfg, x, y, s)
  }

  lemma {:induction false} PickedNone(loose: seq<uint16>, statuses: seq<uint8>, m: nat)
    requires m <= |loose| && m <= |statuses| && forall k | 0 <= k < m :: statuses[k] == 0
    ensures Picked(loose, statuses, m) == 0
  {
    if m == 0 {
    } else {
      PickedNone(loose, statuses, m - 1);
    }
  }

  lemma {:induction false} PickedOne(loose: seq<uint16>, statuses: seq<uint8>, j: nat, m: nat)
    requires j < m <= |loose| && m <= |statuses|
    requires forall k | 0 <= k < m :: statuses[k] != 0 <==> k == j
    ensures Picked(loose, statuses, m) == loose[j]
  {
    if j == m - 1 {
      PickedNone(loose, statuses, m - 1);
    } else {
      PickedOne(loose, statuses, j, m - 1);
    }
  }

  lemma SameWrites(cfg: Config, x: Summary, y: Summary, i: nat)
    requires FitsSummary(cfg, x) && FitsSummary(cfg, y) && SameEverywhere(cfg, x, y) && i < cfg.n
    ensures x.slots[i].write == y.slots[i].write
  {
    var z := ZeroState(cfg);
    var one := z.(statuses := z.statuses[i := 1]);
    assert SameOn(cfg, x, y, z) && SameOn(cfg, x, y, one);
    assert Apply(cfg, x, z).statuses[i] == Apply(cfg, y, z).statuses[i];
    assert Apply(cfg, x, one).statuses[i] == Apply(cfg, y, one).statuses[i];
  }

  /** With every blinker off, a count shows its source and the sure ticks. */
  lemma OffCount(cfg: Config, x: Summary, y: Summary, counts: seq<uint16>, i: nat)
    requires FitsSummary(cfg, x) && FitsSummary(cfg, y) && SameEverywhere(cfg, x, y) && i < cfg.n && |counts| == cfg.n
    ensures Wrap16(Initially(x.slots[i].source, counts) + x.slots[i].sure)
         == Wrap16(Initially(y.slots[i].source, counts) + y.slots[i].sure)
  {
    var s := ZeroState(cfg).(counts := counts);
    assert SameOn(cfg, x, y, s);
    PickedNone(x.slots[i].loose, s.statuses, cfg.n);
    PickedNone(y.slots[i].loose, s.statuses, cfg.n);
    assert Apply(cfg, x, s).counts[i] == Apply(cfg, y, s).counts[i];
  }

  lemma SameSources(cfg: Config, x: Summary, y: Summary, i: nat)
    requires FitsSummary(cfg, x) && FitsSummary(cfg, y) && SameEverywhere(cfg, x, y) && i < cfg.n
    ensures x.slots[i].source == y.slots[i].source && x.slots[i].sure == y.slots[i].sure
  {
    var zeros := ZeroState(cfg).counts;
    OffCount(cfg, x, y, zeros, i);
    if x.slots[i].source.From? {
      OffCount(cfg, x, y, zeros[x.slots[i].source.slot := 1], i);
    }
    if y.slots[i].source.From? {
      OffCount(cfg, x, y, zeros[y.slots[i].source.slot := 1], i);
    }
  }

  lemma SameLoose(cfg: Config, x: Summary, y: Summary, i: nat, j: nat)
    requires FitsSummary(cfg, x) && FitsSummary(cfg, y) && SameEverywhere(cfg, x, y) && i < cfg.n && j < cfg.n
    ensures x.slots[i].loose[j] == y.slots[i].loose[j]
  {
    SameSources(cfg, x, y, i);
    var s := ZeroState(cfg).(statuses := ZeroState(cfg).statuses[j := 1]);
    assert SameOn(cfg, x, y, s);
    PickedOne(x.slots[i].loose, s.statuses, j, cfg.n);
    PickedOne(y.slots[i].loose, s.statuses, j, cfg.n);
    assert Apply(cfg, x, s).counts[i] == Apply(cfg, y, s).counts[i];
    WrapAdd(x.slots[i].sure, x.slots[i].loose[j]);
    WrapAdd(x.slots[i].sure, y.slots[i].loose[j]);
  }

  lemma SameCounted(c: CounterSummary, d: CounterSummary)
    requires Counted(c.kept, 0, c.noops) == Counted(d.kept, 0, d.noops)
    requires Counted(c.kept, 1, c.noops) == Counted(d.kept, 1, d.noops)
    requires Counted(c.kept, 0, c.wrong) == Counted(d.kept, 0, d.wrong)
    ensures c == d
  {
    WrapInc(c.noops);
    WrapInc(d.noops);
    assert Counted(c.kept, 1, c.noops) == if c.kept then Inc8(c.noops) else c.noops;
    assert Counted(d.kept, 1, d.noops) == if d.kept then Inc8(d.noops) else d.noops;
  }

  lemma SameCounters(cfg: Config, x: Summary, y: Summary)
    requires FitsSummary(cfg, x) && FitsSummary(cfg, y) && SameEverywhere(cfg, x, y)
    ensures x.counters == y.counters
  {
    var z := ZeroState(cfg);
    assert SameOn(cfg, x, y, z) && SameOn(cfg, x, y, z.(cmdCounter := 1));
    SameCounted(x.counters, y.counters);
  }

  lemma SamePackets(cfg: Config, x: Summary, y: Summary)
    requires FitsSummary(cfg, x) && FitsSummary(cfg, y) && SameEverywhere(cfg, x, y)
    ensures x.packet == y.packet
  {
    var z := ZeroState(cfg);
    var big := z.(hk := z.hk.(errors := 0x100));
    assert SameOn(cfg, x, y, z) && SameOn(cfg, x, y, z.(cmdCounter := 1)) && SameOn(cfg, x, y, big);
    assert Apply(cfg, x, big).hk == Apply(cfg, y, big).hk;
    if x.packet.Taken? && y.packet.Taken? {
      SameCounted(x.packet.counters, y.packet.counters);
    }
  }

  lemma ApplyInjective(cfg: Config, x: Summary, y: Summary)
    requires FitsSummary(cfg, x) && FitsSummary(cfg, y) && SameEverywhere(cfg, x, y)
    ensures x == y
  {
    forall i | 0 <= i < cfg.n ensures x.slots[i] == y.slots[i] {
      SameWrites(cfg, x, y, i);
      SameSources(cfg, x, y, i);
      forall j | 0 <= j < cfg.n ensures x.slots[i].loose[j] == y.slots[i].loose[j] {
        SameLoose(cfg, x, y, i, j);
      }
      assert x.slots[i].loose == y.slots[i].loose;
    }
    assert x.slots == y.slots;
    SameCounters(cfg, x, y);
    SamePackets(cfg, x, y);
  }

  // ----- when two runs do the same -----

  ghost predicate SameRun(cfg: Config, s: State, xs: seq<Action>, ys: seq<Action>)
    requires Good(cfg, xs) && Good(cfg, ys)
  {
    Fits(cfg, s) ==> Run(cfg, s, xs) == Run(cfg, s, ys)
  }

  /** Two runs lead every state to the same place exactly when their summaries are equal. */
  lemma RunsEquivalentIff(cfg: Config, xs: seq<Action>, ys: seq<Action>)
    requires Good(cfg, xs) && Good(cfg, ys)
    ensures (forall s :: SameRun(cfg, s, xs, ys)) <==> Summarize(cfg, xs) == Summarize(cfg, ys)
  {
    var x, y := Summarize(cfg, xs), Summarize(cfg, ys);
    forall s ensures SameRun(cfg, s, xs, ys) <==> SameOn(cfg, x, y, s) {
      if Fits(cfg, s) {
        RunIsApply(cfg, s, xs);
        RunIsApply(cfg, s, ys);
      }
    }
    if forall s :: SameRun(cfg, s, xs, ys) {
      forall s ensures SameOn(cfg, x, y, s) {
        assert SameRun(cfg, s, xs, ys);
      }
      ApplyInjective(cfg, x, y);
    }
  }
}
