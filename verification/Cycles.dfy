/** The least number of swaps that performs a permutation: N minus its number of cycles. */
module Cycles {
  import opened Types
  import opened Machine
  import opened History
  import opened Permutations

  // ----- cycles of a permutation -----

  function Power(p: seq<nat>, n: nat, i: nat, m: nat): (r: nat)
    requires IsPerm(p, n) && i < n
    ensures r < n
  {
    if m == 0 then i else p[Power(p, n, i, m - 1)]
  }

  ghost predicate OnCycle(p: seq<nat>, n: nat, i: nat, j: nat)
    requires IsPerm(p, n) && i < n && j < n
  {
    exists m: nat :: Power(p, n, i, m) == j
  }

  /** The smallest slot of its cycle. */
  ghost predicate IsLeader(p: seq<nat>, n: nat, i: nat)
    requires IsPerm(p, n) && i < n
  {
    forall m: nat :: i <= Power(p, n, i, m)
  }

  ghost function Leaders(p: seq<nat>, n: nat): set<nat>
    requires IsPerm(p, n)
  {
    set i: nat | i < n && IsLeader(p, n, i)
  }

  ghost function CycleCount(p: seq<nat>, n: nat): nat
    requires IsPerm(p, n)
  {
    |Leaders(p, n)|
  }

  lemma {:induction false} PowerAdd(p: seq<nat>, n: nat, i: nat, m: nat, k: nat)
    requires IsPerm(p, n) && i < n
    ensures Power(p, n, Power(p, n, i, m), k) == Power(p, n, i, m + k)
  {
    if k == 0 {
    } else {
      PowerAdd(p, n, i, m, k - 1);
    }
  }

  lemma OnCycleTrans(p: seq<nat>, n: nat, i: nat, j: nat, k: nat)
    requires IsPerm(p, n) && i < n && j < n && k < n && OnCycle(p, n, i, j) && OnCycle(p, n, j, k)
    ensures OnCycle(p, n, i, k)
  {
    var a: nat :| Power(p, n, i, a) == j;
    var b: nat :| Power(p, n, j, b) == k;
    PowerAdd(p, n, i, a, b);
  }

  /** Equal powers can be shortened: p is injective. */
  lemma {:induction false} PowerCancel(p: seq<nat>, n: nat, i: nat, a: nat, b: nat)
    requires IsPerm(p, n) && i < n && a < b && Power(p, n, i, a) == Power(p, n, i, b)
    ensures Power(p, n, i, b - a) == i
  {
    if a == 0 {
    } else {
      var x, y := Power(p, n, i, a - 1), Power(p, n, i, b - 1);
      assert p[x] == p[y];
      assert x == y;
      PowerCancel(p, n, i, a - 1, b - 1);
    }
  }

  lemma SubsetSize<T>(a: set<T>, b: set<T>)
    requires a <= b
    ensures |a| <= |b|
  {
    assert |b - a| == |b| - |a|;
  }

  /** Every slot returns to itself. */
  lemma Returns(p: seq<nat>, n: nat, i: nat) returns (m: nat)
    requires IsPerm(p, n) && i < n
    ensures m > 0 && Power(p, n, i, m) == i
  {
    var path := seq(n + 1, k requires 0 <= k <= n => Power(p, n, i, k));
    if forall a, b | 0 <= a < b <= n :: path[a] != path[b] {
      ImageSize(path, n + 1);
      SubsetSize(set k: nat | k < n + 1 :: path[k], Below(n));
    }
    var a, b :| 0 <= a < b <= n && path[a] == path[b];
    PowerCancel(p, n, i, a, b);
    m := b - a;
  }

  lemma StepBack(p: seq<nat>, n: nat, i: nat)
    requires IsPerm(p, n) && i < n
    ensures OnCycle(p, n, i, p[i]) && OnCycle(p, n, p[i], i)
  {
    assert Power(p, n, i, 0) == i;
    assert Power(p, n, i, 1) == p[i];
    var m := Returns(p, n, i);
    PowerAdd(p, n, i, 1, m - 1);
    assert Power(p, n, p[i], m - 1) == i;
  }

  lemma {:induction false} PowerBack(p: seq<nat>, n: nat, i: nat, m: nat)
    requires IsPerm(p, n) && i < n
    ensures OnCycle(p, n, Power(p, n, i, m), i)
  {
    if m == 0 {
      assert Power(p, n, i, 0) == i;
    } else {
      var j := Power(p, n, i, m - 1);
      PowerBack(p, n, i, m - 1);
      StepBack(p, n, j);
      OnCycleTrans(p, n, p[j], j, i);
    }
  }

  lemma OnCycleSym(p: seq<nat>, n: nat, i: nat, j: nat)
    requires IsPerm(p, n) && i < n && j < n && OnCycle(p, n, i, j)
    ensures OnCycle(p, n, j, i)
  {
    var m: nat :| Power(p, n, i, m) == j;
    PowerBack(p, n, i, m);
  }

  lemma LeaderOf(p: seq<nat>, n: nat, i: nat) returns (l: nat)
    requires IsPerm(p, n) && i < n
    ensures l < n && IsLeader(p, n, l) && OnCycle(p, n, i, l)
  {
    l := i;
    assert Power(p, n, i, 0) == i;
    while !IsLeader(p, n, l)
      invariant l < n && OnCycle(p, n, i, l)
      decreases l
    {
      var m: nat :| Power(p, n, l, m) < l;
      OnCycleTrans(p, n, i, l, Power(p, n, l, m));
      l := Power(p, n, l, m);
    }
  }

  lemma OneLeaderPerCycle(p: seq<nat>, n: nat, i: nat, j: nat)
    requires IsPerm(p, n) && i < n && j < n && IsLeader(p, n, i) && IsLeader(p, n, j) && OnCycle(p, n, i, j)
    ensures i == j
  {
    OnCycleSym(p, n, i, j);
  }

  // ----- slots linked by swaps -----

  function Merged(labels: seq<nat>, i: nat, j: nat): (r: seq<nat>)
    requires i < |labels| && j < |labels|
    ensures |r| == |labels|
    ensures forall k | 0 <= k < |r| :: r[k] == if labels[k] == labels[j] then labels[i] else labels[k]
  {
    seq(|labels|, k requires 0 <= k < |labels| => if labels[k] == labels[j] then labels[i] else labels[k])
  }

  /** Slots that the swaps of a run have linked, directly or not, share a label. */
  function Labels(cfg: Config, acts: seq<Action>): (r: seq<nat>)
    requires Good(cfg, acts) && OnlySwaps(acts)
    ensures |r| == cfg.n
  {
    if acts == [] then seq(cfg.n, i => i)
    else
      var a := acts[|acts| - 1];
      Merged(Labels(cfg, acts[..|acts| - 1]), a.i, a.j)
  }

  /** A count never leaves the slots linked with its own. */
  lemma {:induction false} OriginKeepsLabel(cfg: Config, acts: seq<Action>, i: nat)
    requires Good(cfg, acts) && OnlySwaps(acts) && i < cfg.n
    ensures Labels(cfg, acts)[Slot(cfg, acts, i, 0, |acts|)] == Labels(cfg, acts)[i]
    decreases |acts|
  {
    if acts == [] {
    } else {
      var before, a := acts[..|acts| - 1], acts[|acts| - 1];
      assert acts == before + [a];
      OriginKeepsLabel(cfg, before, Back(a, i));
      SlotOfPrefix(cfg, before, a, Back(a, i), |before|);
    }
  }

  function LabelSet(labels: seq<nat>): set<nat> {
    set k: nat | k < |labels| :: labels[k]
  }

  lemma MergeLosesOne(labels: seq<nat>, i: nat, j: nat)
    requires i < |labels| && j < |labels|
    ensures |LabelSet(Merged(labels, i, j))| >= |LabelSet(labels)| - 1
  {
    var was, now := LabelSet(labels), LabelSet(Merged(labels, i, j));
    forall v | v in was && v != labels[j] ensures v in now {
      var k: nat :| k < |labels| && labels[k] == v;
      assert Merged(labels, i, j)[k] == v;
    }
    SubsetSize(was - {labels[j]}, now);
  }

  lemma {:induction false} LabelsLeft(cfg: Config, acts: seq<Action>)
    requires Good(cfg, acts) && OnlySwaps(acts)
    ensures |LabelSet(Labels(cfg, acts))| >= cfg.n - |acts|
  {
    if acts == [] {
      var labels := Labels(cfg, acts);
      forall v | v in Below(cfg.n) ensures v in LabelSet(labels) {
        assert labels[v] == v;
      }
      SubsetSize(Below(cfg.n), LabelSet(labels));
    } else {
      var before, a := acts[..|acts| - 1], acts[|acts| - 1];
      LabelsLeft(cfg, before);
      MergeLosesOne(Labels(cfg, before), a.i, a.j);
    }
  }

  // ----- the distance -----

  function Image(labels: seq<nat>, s: set<nat>): set<nat>
    requires forall i | i in s :: i < |labels|
  {
    set i | i in s :: labels[i]
  }

  lemma {:induction false} ImageAtMost(labels: seq<nat>, s: set<nat>)
    requires forall i | i in s :: i < |labels|
    ensures |Image(labels, s)| <= |s|
    ensures (forall i, j | i in s && j in s && i != j :: labels[i] != labels[j]) ==> |Image(labels, s)| == |s|
    decreases |s|
  {
    if s == {} {
      assert Image(labels, s) == {};
    } else {
      var i :| i in s;
      var rest := s - {i};
      ImageAtMost(labels, rest);
      assert Image(labels, s) == Image(labels, rest) + {labels[i]};
    }
  }

  lemma LabelAlongCycle(cfg: Config, acts: seq<Action>, i: nat, m: nat)
    requires Good(cfg, acts) && OnlySwaps(acts) && i < cfg.n && IsPerm(Origin(cfg, acts), cfg.n)
    ensures Labels(cfg, acts)[Power(Origin(cfg, acts), cfg.n, i, m)] == Labels(cfg, acts)[i]
  {
    if m == 0 {
    } else {
      LabelAlongCycle(cfg, acts, i, m - 1);
      OriginKeepsLabel(cfg, acts, Power(Origin(cfg, acts), cfg.n, i, m - 1));
    }
  }

  /** No run of swaps performs its permutation with fewer than N minus the cycles. */
  lemma SwapsAtLeast(cfg: Config, acts: seq<Action>)
    requires Good(cfg, acts) && OnlySwaps(acts)
    ensures IsPerm(Origin(cfg, acts), cfg.n)
    ensures |acts| >= cfg.n - CycleCount(Origin(cfg, acts), cfg.n)
  {
    OriginIsPerm(cfg, acts);
    var p, labels := Origin(cfg, acts), Labels(cfg, acts);
    var leaders := Leaders(p, cfg.n);
    forall v | v in LabelSet(labels) ensures v in Image(labels, leaders) {
      var i: nat :| i < cfg.n && labels[i] == v;
      var l := LeaderOf(p, cfg.n, i);
      var m: nat :| Power(p, cfg.n, i, m) == l;
      LabelAlongCycle(cfg, acts, i, m);
      assert l in leaders;
    }
    SubsetSize(LabelSet(labels), Image(labels, leaders));
    ImageAtMost(labels, leaders);
    LabelsLeft(cfg, acts);
  }

  /** Selection has placed slots 0..k: unplaced slots are not linked, linked slots lie
      on one cycle of p, and every swap so far has linked two classes. */
  ghost predicate Selecting(cfg: Config, p: seq<nat>, acts: seq<Action>, k: nat)
    requires IsPerm(p, cfg.n) && k <= cfg.n
  {
    && Good(cfg, acts) && OnlySwaps(acts)
    && (forall i | 0 <= i < k :: Origin(cfg, acts)[i] == p[i])
    && var labels := Labels(cfg, acts);
    && (forall i, j | k <= i < j < cfg.n :: labels[i] != labels[j])
    && (forall i, j | 0 <= i < cfg.n && 0 <= j < cfg.n && labels[i] == labels[j] :: OnCycle(p, cfg.n, i, j))
    && |LabelSet(labels)| == cfg.n - |acts|
  }

  lemma SelectionStarts(cfg: Config, p: seq<nat>)
    requires IsPerm(p, cfg.n)
    ensures Selecting(cfg, p, [], 0)
  {
    var labels := Labels(cfg, []);
    forall i | 0 <= i < cfg.n ensures OnCycle(p, cfg.n, i, i) {
      assert Power(p, cfg.n, i, 0) == i;
    }
    forall v ensures v in LabelSet(labels) <==> v in Below(cfg.n) {
      if v in Below(cfg.n) { assert labels[v] == v; }
    }
    assert LabelSet(labels) == Below(cfg.n);
  }

  lemma MergeLosesExactlyOne(labels: seq<nat>, i: nat, j: nat)
    requires i < |labels| && j < |labels| && labels[i] != labels[j]
    ensures |LabelSet(Merged(labels, i, j))| == |LabelSet(labels)| - 1
  {
    var was, now := LabelSet(labels), LabelSet(Merged(labels, i, j));
    forall v | v in was && v != labels[j] ensures v in now {
      var k: nat :| k < |labels| && labels[k] == v;
      assert Merged(labels, i, j)[k] == v;
    }
    forall v | v in now ensures v in was && v != labels[j] {
    }
    assert now == was - {labels[j]};
  }

  lemma MergedOnCycle(p: seq<nat>, n: nat, labels: seq<nat>, k: nat, l: nat, i: nat, j: nat)
    requires IsPerm(p, n) && |labels| == n && k < n && l < n && i < n && j < n
    requires forall x, y | 0 <= x < n && 0 <= y < n && labels[x] == labels[y] :: OnCycle(p, n, x, y)
    requires OnCycle(p, n, k, l) && Merged(labels, k, l)[i] == Merged(labels, k, l)[j]
    ensures OnCycle(p, n, i, j)
  {
    OnCycleSym(p, n, k, l);
    if labels[i] == labels[j] {
    } else if labels[i] == labels[l] {
      OnCycleTrans(p, n, i, l, k);
      OnCycleTrans(p, n, i, k, j);
    } else {
      OnCycleTrans(p, n, i, k, l);
      OnCycleTrans(p, n, i, l, j);
    }
  }

  lemma MergedApart(labels: seq<nat>, k: nat, j: nat)
    requires k < j < |labels| && forall x, y | k <= x < y < |labels| :: labels[x] != labels[y]
    ensures forall x, y | k + 1 <= x < y < |labels| :: Merged(labels, k, j)[x] != Merged(labels, k, j)[y]
  {
  }

  lemma SelectionStep(cfg: Config, p: seq<nat>, acts: seq<Action>, k: nat) returns (more: seq<Action>)
    requires IsPerm(p, cfg.n) && k < cfg.n && Selecting(cfg, p, acts, k)
    ensures Selecting(cfg, p, more, k + 1)
  {
    var j;
    more, j := PlaceOne(cfg, p, acts, k);
    if j != k {
      var labels := Labels(cfg, acts);
      assert more[..|more| - 1] == acts;
      assert Labels(cfg, more) == Merged(labels, k, j);
      OriginKeepsLabel(cfg, acts, j);
      assert labels[p[k]] == labels[j];
      StepBack(p, cfg.n, k);
      OnCycleTrans(p, cfg.n, k, p[k], j);
      MergeLosesExactlyOne(labels, k, j);
      MergedApart(labels, k, j);
      forall x, y | 0 <= x < cfg.n && 0 <= y < cfg.n && Merged(labels, k, j)[x] == Merged(labels, k, j)[y]
        ensures OnCycle(p, cfg.n, x, y)
      {
        MergedOnCycle(p, cfg.n, labels, k, j, x, y);
      }
    }
  }

  /** And every permutation is performed by exactly that many. */
  lemma SwapsSuffice(cfg: Config, p: seq<nat>) returns (acts: seq<Action>)
    requires IsPerm(p, cfg.n)
    ensures Good(cfg, acts) && OnlySwaps(acts) && Origin(cfg, acts) == p
    ensures |acts| == cfg.n - CycleCount(p, cfg.n)
  {
    acts := [];
    SelectionStarts(cfg, p);
    var k := 0;
    while k < cfg.n
      invariant k <= cfg.n && Selecting(cfg, p, acts, k)
    {
      acts := SelectionStep(cfg, p, acts, k);
      k := k + 1;
    }
    assert Origin(cfg, acts) == p;
    var labels, leaders := Labels(cfg, acts), Leaders(p, cfg.n);
    forall i, j | i in leaders && j in leaders && i != j ensures labels[i] != labels[j] {
      if labels[i] == labels[j] {
        OneLeaderPerCycle(p, cfg.n, i, j);
      }
    }
    ImageAtMost(labels, leaders);
    SubsetSize(Image(labels, leaders), LabelSet(labels));
    SwapsAtLeast(cfg, acts);
  }

  /** So any rearrangement of the counts takes at most n - 1 swaps. */
  lemma EveryPermByFewSwaps(cfg: Config, p: seq<nat>) returns (acts: seq<Action>)
    requires IsPerm(p, cfg.n)
    ensures Good(cfg, acts) && OnlySwaps(acts) && |acts| <= cfg.n - 1
    ensures Origin(cfg, acts) == p
  {
    acts := SwapsSuffice(cfg, p);
    var l := LeaderOf(p, cfg.n, 0);
    assert l in Leaders(p, cfg.n);
  }

  ghost predicate IsRotation(p: seq<nat>, n: nat) {
    |p| == n && forall i | 0 <= i < n :: p[i] == if i == n - 1 then 0 else i + 1
  }

  lemma {:induction false} RotationReaches(p: seq<nat>, n: nat, i: nat, m: nat)
    requires IsPerm(p, n) && IsRotation(p, n) && i + m < n
    ensures Power(p, n, i, m) == i + m
  {
    if m == 0 {
    } else {
      RotationReaches(p, n, i, m - 1);
    }
  }

  /** And the bound is tight: rotating all counts by one takes n - 1 swaps, however chosen. */
  lemma RotationNeedsAll(cfg: Config, acts: seq<Action>)
    requires Good(cfg, acts) && OnlySwaps(acts) && IsRotation(Origin(cfg, acts), cfg.n)
    ensures |acts| >= cfg.n - 1
  {
    SwapsAtLeast(cfg, acts);
    var p, n := Origin(cfg, acts), cfg.n;
    forall i | i in Leaders(p, n) ensures i == 0 {
      RotationReaches(p, n, i, n - 1 - i);
      assert Power(p, n, i, n - i) == 0;
    }
    SubsetSize(Leaders(p, n), {0});
  }
}
