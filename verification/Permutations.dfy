/** Swaps permute counts: which permutation a run performs, and which can be performed. */
module Permutations {
  import opened Types
  import opened Machine
  import opened History

  ghost predicate IsPerm(p: seq<nat>, n: nat) {
    && |p| == n
    && (forall i | 0 <= i < n :: p[i] < n)
    && (forall i, j | 0 <= i < j < n :: p[i] != p[j])
  }

  ghost predicate OnlySwaps(acts: seq<Action>) {
    forall k | 0 <= k < |acts| :: acts[k].Swap?
  }

  /** Origin(acts)[i] is the slot where the count found in slot i after `acts` began. */
  function Origin(cfg: Config, acts: seq<Action>): (p: seq<nat>)
    requires Good(cfg, acts)
    ensures |p| == cfg.n
  {
    seq(cfg.n, i requires 0 <= i < cfg.n => Slot(cfg, acts, i, 0, |acts|))
  }

  lemma {:induction false} SlotInjective(cfg: Config, acts: seq<Action>, i: nat, j: nat, k: nat, t: nat)
    requires Good(cfg, acts) && i < cfg.n && j < cfg.n && k <= t <= |acts| && i != j
    ensures Slot(cfg, acts, i, k, t) != Slot(cfg, acts, j, k, t)
    decreases t
  {
    if k == t {
    } else {
      SlotInjective(cfg, acts, Back(acts[t - 1], i), Back(acts[t - 1], j), k, t - 1);
    }
  }

  /** Along any run at all, counts never share or lose an origin. */
  lemma OriginIsPerm(cfg: Config, acts: seq<Action>)
    requires Good(cfg, acts)
    ensures IsPerm(Origin(cfg, acts), cfg.n)
  {
    var p := Origin(cfg, acts);
    forall i, j | 0 <= i < j < cfg.n ensures p[i] != p[j] {
      SlotInjective(cfg, acts, i, j, 0, |acts|);
    }
  }

  lemma {:induction false} SwapsKeepRest(cfg: Config, s: State, acts: seq<Action>)
    requires Fits(cfg, s) && Good(cfg, acts) && OnlySwaps(acts)
    ensures Run(cfg, s, acts) == s.(counts := Run(cfg, s, acts).counts)
  {
    if acts == [] {
    } else {
      SwapsKeepRest(cfg, s, acts[..|acts| - 1]);
      assert acts[|acts| - 1].Swap?;
    }
  }

  /** A run of swaps rearranges the counts by its origin and changes nothing else. */
  lemma {:induction false} SwapsPermute(cfg: Config, s: State, acts: seq<Action>)
    requires Fits(cfg, s) && Good(cfg, acts) && OnlySwaps(acts)
    ensures var r := Run(cfg, s, acts);
      && r == s.(counts := r.counts)
      && forall i | 0 <= i < cfg.n :: r.counts[i] == s.counts[Origin(cfg, acts)[i]]
  {
    SwapsKeepRest(cfg, s, acts);
    var t := |acts|;
    assert acts[..t] == acts;
    forall i | 0 <= i < cfg.n
      ensures Run(cfg, s, acts).counts[i] == s.counts[Origin(cfg, acts)[i]]
    {
      CountIsHistory(cfg, s, acts, i, t);
      assert TicksKept(cfg, s.statuses, acts, i, t) == {};
      forall q: nat | q < t ensures !ClearedBy(cfg, acts, i, q, t) {
        assert acts[q].Swap?;
      }
    }
  }

  // ----- every permutation is a short run of swaps -----

  lemma {:induction false} SlotOfPrefix(cfg: Config, acts: seq<Action>, a: Action, i: nat, t: nat)
    requires Good(cfg, acts) && a.InRange(cfg) && i < cfg.n && t <= |acts|
    ensures Slot(cfg, acts + [a], i, 0, t) == Slot(cfg, acts, i, 0, t)
    decreases t
  {
    if t == 0 {
    } else {
      SlotOfPrefix(cfg, acts, a, Back(acts[t - 1], i), t - 1);
    }
  }

  lemma OriginSnoc(cfg: Config, acts: seq<Action>, a: Action, i: nat)
    requires Good(cfg, acts) && a.InRange(cfg) && i < cfg.n
    ensures Good(cfg, acts + [a]) && Back(a, i) < cfg.n
    ensures Origin(cfg, acts + [a])[i] == Origin(cfg, acts)[Back(a, i)]
  {
    SlotOfPrefix(cfg, acts, a, Back(a, i), |acts|);
  }

  lemma {:induction false} ImageSize(p: seq<nat>, k: nat)
    requires k <= |p| && forall i, j | 0 <= i < j < |p| :: p[i] != p[j]
    ensures |set i: nat | i < k :: p[i]| == k
  {
    var image := set i: nat | i < k :: p[i];
    if k == 0 {
      assert image == {};
    } else {
      var fewer := set i: nat | i < k - 1 :: p[i];
      ImageSize(p, k - 1);
      assert image == fewer + {p[k - 1]};
    }
  }

  function Below(n: nat): (s: set<nat>)
    ensures |s| == n && forall v: nat :: v in s <==> v < n
  {
    if n == 0 then {} else Below(n - 1) + {n - 1}
  }

  lemma SubsetOfSameSize<T>(a: set<T>, b: set<T>)
    requires a <= b && |a| == |b|
    ensures a == b
  {
    assert |b - a| == |b| - |a|;
  }

  /** A permutation hits every value. */
  lemma PermHits(p: seq<nat>, n: nat, v: nat) returns (j: nat)
    requires IsPerm(p, n) && v < n
    ensures j < n && p[j] == v
  {
    var image := set i: nat | i < n :: p[i];
    ImageSize(p, n);
    SubsetOfSameSize(image, Below(n));
    assert v in image;
    j :| j < n && p[j] == v;
  }

  /** One step of selection: slot k gets the count it should have, by one swap at most. */
  lemma PlaceOne(cfg: Config, p: seq<nat>, acts: seq<Action>, k: nat) returns (more: seq<Action>, j: nat)
    requires IsPerm(p, cfg.n) && Good(cfg, acts) && OnlySwaps(acts) && k < cfg.n
    requires forall i | 0 <= i < k :: Origin(cfg, acts)[i] == p[i]
    ensures k <= j < cfg.n && Origin(cfg, acts)[j] == p[k]
    ensures more == if j == k then acts else acts + [Swap(k, j)]
    ensures Good(cfg, more) && OnlySwaps(more)
    ensures forall i | 0 <= i <= k :: Origin(cfg, more)[i] == p[i]
  {
    OriginIsPerm(cfg, acts);
    j := PermHits(Origin(cfg, acts), cfg.n, p[k]);
    assert j >= k;
    if j == k {
      more := acts;
    } else {
      more := acts + [Swap(k, j)];
      forall i | 0 <= i <= k ensures Origin(cfg, more)[i] == p[i] {
        OriginSnoc(cfg, acts, Swap(k, j), i);
      }
    }
  }
}
