/** The weight selector of the weighted load balancer: backlog weights per partition, and a draw in proportion to them. */
module WeightSelector {

  /** The weight of a partition that has not reported yet. */
  const UNKNOWN := -1

  // The draw, as a roulette wheel

  function Sum(ws: seq<int>): int {
    if ws == [] then 0 else ws[0] + Sum(ws[1..])
  }

  predicate NonNegative(ws: seq<int>) {
    forall i :: 0 <= i < |ws| ==> ws[i] >= 0
  }

  /** The sector that draw `r` falls in when the sectors lie side by side. */
  function Sector(ws: seq<int>, r: int): (i: nat)
    requires NonNegative(ws) && 0 <= r < Sum(ws)
    ensures i < |ws|
  {
    if r < ws[0] then 0 else 1 + Sector(ws[1..], r - ws[0])
  }

  predicate Backlogged(ws: seq<int>, threshold: int) {
    exists i :: 0 <= i < |ws| && ws[i] > threshold
  }

  /** Weighted selection is worth it: there is weight at all, and some backlog above the threshold. */
  predicate Enabled(ws: seq<int>, threshold: int) {
    Sum(ws) > 0 && Backlogged(ws, threshold)
  }

  function Selected(weights: seq<int>, partitions: seq<nat>): seq<int>
    requires InRange(partitions, |weights|)
  {
    seq(|partitions|, i requires 0 <= i < |partitions| => weights[partitions[i]])
  }

  predicate InRange(partitions: seq<nat>, n: nat) {
    forall i :: 0 <= i < |partitions| ==> partitions[i] < n
  }

  lemma {:induction false} SumSplit(ws: seq<int>, k: nat)
    requires k <= |ws|
    ensures Sum(ws) == Sum(ws[..k]) + Sum(ws[k..])
  {
    if k == 0 {
      assert ws[0..] == ws;
    } else {
      SumSplit(ws[1..], k - 1);
      assert ws[..k][1..] == ws[1..][..k - 1];
      assert ws[k..] == ws[1..][k - 1..];
    }
  }

  lemma {:induction false} SumNonNegative(ws: seq<int>)
    requires NonNegative(ws)
    ensures Sum(ws) >= 0
  {
    if ws != [] {
      SumNonNegative(ws[1..]);
    }
  }

  lemma {:induction false} SumExtend(ws: seq<int>, k: nat)
    requires k < |ws|
    ensures Sum(ws[..k + 1]) == Sum(ws[..k]) + ws[k]
  {
    SumSplit(ws[..k + 1], k);
    assert ws[..k + 1][..k] == ws[..k] && ws[..k + 1][k..] == [ws[k]];
  }

  lemma {:induction false} SumMonotone(ws: seq<int>, j: nat, k: nat)
    requires NonNegative(ws) && j <= k <= |ws|
    ensures Sum(ws[..j]) <= Sum(ws[..k])
  {
    SumSplit(ws[..k], j);
    assert ws[..k][..j] == ws[..j];
    SumNonNegative(ws[..k][j..]);
  }

  /** A sector is the stretch between two cumulative weights. */
  lemma {:induction false} SectorBounds(ws: seq<int>, r: int, i: nat)
    requires NonNegative(ws) && 0 <= r < Sum(ws) && i < |ws|
    ensures Sector(ws, r) == i <==> Sum(ws[..i]) <= r < Sum(ws[..i + 1])
  {
    if i == 0 {
      assert Sum(ws[..1]) == ws[0] + Sum(ws[..1][1..]);
    } else {
      assert ws[..i][1..] == ws[1..][..i - 1];
      assert ws[..i + 1][1..] == ws[1..][..i];
      if r >= ws[0] {
        SectorBounds(ws[1..], r - ws[0], i - 1);
      } else {
        SumNonNegative(ws[1..][..i - 1]);
      }
    }
  }

  function Interval(a: int, b: int): (s: set<int>)
    ensures forall r :: r in s <==> a <= r < b
    ensures |s| == if a <= b then b - a else 0
    decreases b - a
  {
    if a >= b then {} else {a} + Interval(a + 1, b)
  }

  /** The draws that select sector `i`. */
  function Draws(ws: seq<int>, i: nat): set<int>
    requires NonNegative(ws)
  {
    set r | r in Interval(0, Sum(ws)) && Sector(ws, r) == i
  }

  /** Of the possible draws, exactly as many select a sector as it has weight. */
  lemma {:induction false} DrawsAreProportional(ws: seq<int>, i: nat)
    requires NonNegative(ws) && i < |ws|
    ensures |Draws(ws, i)| == ws[i]
  {
    var a, b := Sum(ws[..i]), Sum(ws[..i + 1]);
    SumExtend(ws, i);
    SumNonNegative(ws[..i]);
    SumMonotone(ws, i + 1, |ws|);
    assert ws[..|ws|] == ws;
    forall r | 0 <= r < Sum(ws)
      ensures Sector(ws, r) == i <==> a <= r < b
    {
      SectorBounds(ws, r, i);
    }
    assert Draws(ws, i) == Interval(a, b);
  }

  /** So a partition without weight is never selected. */
  lemma {:induction false} SectorHasWeight(ws: seq<int>, r: int)
    requires NonNegative(ws) && 0 <= r < Sum(ws)
    ensures ws[Sector(ws, r)] > 0
  {
    SectorBounds(ws, r, Sector(ws, r));
    SumExtend(ws, Sector(ws, r));
  }

  /** Where there is backlog there is weight. */
  lemma {:induction false} BacklogHasWeight(ws: seq<int>, j: nat)
    requires NonNegative(ws) && j < |ws|
    ensures Sum(ws) >= ws[j]
  {
    if j == 0 {
      SumNonNegative(ws[1..]);
    } else {
      BacklogHasWeight(ws[1..], j - 1);
    }
  }

  // The search

  /** `sort.Search` for the first cumulative weight above the draw. */
  method Search(cumulative: seq<int>, r: int) returns (i: nat)
    requires forall j, k :: 0 <= j <= k < |cumulative| ==> cumulative[j] <= cumulative[k]
    ensures i <= |cumulative|
    ensures forall j :: 0 <= j < i ==> cumulative[j] <= r
    ensures forall j :: i <= j < |cumulative| ==> cumulative[j] > r
  {
    i := 0;
    var j := |cumulative|;
    while i < j
      invariant 0 <= i <= j <= |cumulative|
      invariant forall k :: 0 <= k < i ==> cumulative[k] <= r
      invariant forall k :: j <= k < |cumulative| ==> cumulative[k] > r
    {
      var h := (i + j) / 2;
      if cumulative[h] <= r {
        i := h + 1;
      } else {
        j := h;
      }
    }
  }

  /** The running sums, the total, and whether some weight exceeds the threshold. */
  method Accumulate(ws: seq<int>, threshold: int) returns (cumulative: seq<int>, total: int, backlogged: bool)
    ensures |cumulative| == |ws| && total == Sum(ws) && (backlogged <==> Backlogged(ws, threshold))
    ensures forall i :: 0 <= i < |ws| ==> cumulative[i] == Sum(ws[..i + 1])
  {
    cumulative, total, backlogged := [], 0, false;
    for i := 0 to |ws|
      invariant |cumulative| == i && total == Sum(ws[..i])
      invariant backlogged <==> exists j :: 0 <= j < i && ws[j] > threshold
      invariant forall j :: 0 <= j < i ==> cumulative[j] == Sum(ws[..j + 1])
    {
      SumExtend(ws, i);
      total := total + ws[i];
      cumulative := cumulative + [total];
      if ws[i] > threshold {
        backlogged := true;
      }
    }
    assert ws[..|ws|] == ws;
  }

  /** The binary search over running sums finds the sector of the draw. */
  method FindSector(ws: seq<int>, cumulative: seq<int>, r: int) returns (i: nat)
    requires NonNegative(ws) && 0 <= r < Sum(ws)
    requires |cumulative| == |ws| && forall j :: 0 <= j < |ws| ==> cumulative[j] == Sum(ws[..j + 1])
    ensures i < |ws| && i == Sector(ws, r)
  {
    forall j, k | 0 <= j <= k < |cumulative|
      ensures cumulative[j] <= cumulative[k]
    {
      SumMonotone(ws, j + 1, k + 1);
    }
    assert ws[..|ws|] == ws;
    assert cumulative[|ws| - 1] == Sum(ws);
    i := Search(cumulative, r);
    if i > 0 {
      assert cumulative[i - 1] == Sum(ws[..i]);
    } else {
      assert Sum(ws[..0]) == 0;
    }
    assert cumulative[i] == Sum(ws[..i + 1]);
    SectorBounds(ws, r, i);
  }

  // The weights, as reports come in

  function Unknowns(n: nat): (ws: seq<int>)
    ensures |ws| == n && forall i :: 0 <= i < n ==> ws[i] == UNKNOWN
  {
    seq(n, _ => UNKNOWN)
  }

  /** Resizes to `n` partitions, the new ones unknown, and files the weight of partition `p`, if there is one. */
  function Updated(ws: seq<int>, n: nat, p: int, weight: int): (r: seq<int>)
    ensures |r| == n
  {
    var resized := if n > |ws| then ws + Unknowns(n - |ws|) else ws[..n];
    if 0 <= p < n then resized[p := weight] else resized
  }

  datatype Report = Report(n: nat, p: nat, weight: int)

  /** The weights after a sequence of reports to a selector created for `n` partitions. */
  function WeightsAfter(n: nat, log: seq<Report>): seq<int> {
    if log == [] then Unknowns(n)
    else
      var last := log[|log| - 1];
      Updated(WeightsAfter(n, log[..|log| - 1]), last.n, last.p, last.weight)
  }

  /** Report `k` is the last word on slot `i`: it is about that slot, which has been in range ever since without
      another report. */
  ghost predicate LastWord(log: seq<Report>, i: nat, k: int) {
    && 0 <= k < |log| && log[k].p == i < log[k].n
    && forall j :: k < j < |log| ==> i < log[j].n && log[j].p != i
  }

  /** A slot holds the last weight reported for it since it last came into range, and is unknown without one. */
  lemma {:induction false} SlotHoldsLastWord(n: nat, log: seq<Report>, i: nat)
    requires i < |WeightsAfter(n, log)|
    ensures forall k :: LastWord(log, i, k) ==> WeightsAfter(n, log)[i] == log[k].weight
    ensures (forall k :: !LastWord(log, i, k)) ==> WeightsAfter(n, log)[i] == UNKNOWN
  {
    if log != [] {
      var m := |log| - 1;
      var before, last := log[..m], log[m];
      if last.p == i {
        assert LastWord(log, i, m);
        assert forall k :: LastWord(log, i, k) ==> k == m;
      } else {
        forall k
          ensures LastWord(log, i, k) <==> k < m && LastWord(before, i, k)
        {
          if k < m && LastWord(before, i, k) {
            assert forall j :: k < j < m ==> log[j] == before[j];
          }
        }
        if i < |WeightsAfter(n, before)| {
          SlotHoldsLastWord(n, before, i);
        } else {
          forall k
            ensures !LastWord(before, i, k)
          {
            LastWordInRange(n, before, i, k);
          }
        }
      }
    }
  }

  lemma {:induction false} LastWordInRange(n: nat, log: seq<Report>, i: nat, k: int)
    ensures LastWord(log, i, k) ==> i < |WeightsAfter(n, log)|
  {
    if LastWord(log, i, k) && k < |log| - 1 {
      assert i < log[|log| - 1].n;
    }
  }

  /** Shrinking forgets: a slot that went out of range at report `j` and has had none since stays unknown,
      however the number of partitions grows again. */
  lemma {:induction false} ShrinkForgets(n: nat, log: seq<Report>, i: nat, j: nat)
    requires i < |WeightsAfter(n, log)| && j < |log| && log[j].n <= i
    requires forall k :: j < k < |log| ==> log[k].p != i
    ensures WeightsAfter(n, log)[i] == UNKNOWN
  {
    forall k
      ensures !LastWord(log, i, k)
    {
      if k < j {
        assert !(i < log[j].n);
      }
    }
    SlotHoldsLastWord(n, log, i);
  }

  class WeightSelector {
    var weights: seq<int>
    var initialized: bool
    const threshold: int
    ghost var interrupted: bool  // the last update panicked halfway

    /** Selection is on exactly when every partition is known (for a selector of at least one partition), except that
        an update that panicked may have left it off. */
    ghost predicate Valid()
      reads this
    {
      && (forall i :: 0 <= i < |weights| ==> weights[i] >= UNKNOWN)
      && (initialized ==> UNKNOWN !in weights)
      && (!interrupted && weights != [] && UNKNOWN !in weights ==> initialized)
    }

    constructor (n: nat, threshold: int)
      ensures Valid() && weights == WeightsAfter(n, []) && !initialized && !interrupted && this.threshold == threshold
    {
      weights := Unknowns(n);
      initialized := false;
      this.threshold := threshold;
      interrupted := false;
      assert n > 0 ==> Unknowns(n)[0] == UNKNOWN;
    }

    /** Files a report. A negative partition number indexes out of range, after the resizing; otherwise selection is
        on afterwards exactly when every partition is known. */
    method Update(n: nat, p: int, weight: int) returns (panicked: bool)
      requires Valid() && weight >= 0
      modifies this
      ensures (panicked <==> p < 0) && interrupted == panicked
      ensures Valid() && weights == Updated(old(weights), n, p, weight)
      ensures !panicked ==> (initialized <==> UNKNOWN !in weights)
    {
      panicked, interrupted := false, p < 0;
      if n > |weights| {
        var newWeights := weights;
        for i := |weights| to n
          invariant newWeights == weights + Unknowns(i - |weights|)
        {
          newWeights := newWeights + [UNKNOWN];
        }
        weights := newWeights;
        initialized := false;
      } else if n < |weights| {
        weights := weights[..n];
      }
      if p < n {
        if p < 0 {
          return true;
        }
        weights := weights[p := weight];
      }
      for i := 0 to |weights|
        invariant forall j :: 0 <= j < i ==> weights[j] != UNKNOWN
      {
        if weights[i] == UNKNOWN {
          return false;
        }
      }
      initialized := true;
    }

    /** What draw `r` selects, or -1 when weighted selection is off. */
    ghost function Picked(r: int): int
      requires Valid()
      requires initialized && Enabled(weights, threshold) ==> 0 <= r < Sum(weights)
      reads this
    {
      if initialized && Enabled(weights, threshold) then Sector(weights, r) else -1
    }

    method Pick(r: int) returns (p: int, cumulative: seq<int>)
      requires Valid()
      requires initialized && Enabled(weights, threshold) ==> 0 <= r < Sum(weights)
      ensures |cumulative| == |weights| && p == Picked(r)
    {
      if !initialized {
        return -1, seq(|weights|, _ => 0);
      }
      var total, backlogged;
      cumulative, total, backlogged := Accumulate(weights, threshold);
      if total <= 0 || !backlogged {
        return -1, cumulative;
      }
      p := FindSector(weights, cumulative, r);
    }

    /** The same among some of the partitions only; off when one of them is not covered. */
    ghost function PickedBetween(partitions: seq<nat>, r: int): int
      requires Valid()
      requires initialized && InRange(partitions, |weights|) && Enabled(Selected(weights, partitions), threshold) ==>
                 0 <= r < Sum(Selected(weights, partitions))
      reads this
    {
      if initialized && InRange(partitions, |weights|) && Enabled(Selected(weights, partitions), threshold) then
        partitions[Sector(Selected(weights, partitions), r)]
      else -1
    }

    /** Choosing among all partitions is choosing without restriction: the same draws are possible, and each selects
        the same partition. */
    lemma {:induction false} PickBetweenAll(partitions: seq<nat>, r: int)
      requires Valid() && |partitions| == |weights| && forall i :: 0 <= i < |weights| ==> partitions[i] == i
      requires initialized && Enabled(weights, threshold) ==> 0 <= r < Sum(weights)
      ensures InRange(partitions, |weights|) && Sum(Selected(weights, partitions)) == Sum(weights)
      ensures PickedBetween(partitions, r) == Picked(r)
    {
      assert Selected(weights, partitions) == weights;
    }

    method PickBetween(partitions: seq<nat>, r: int) returns (p: int)
      requires Valid()
      requires initialized && InRange(partitions, |weights|) && Enabled(Selected(weights, partitions), threshold) ==>
                 0 <= r < Sum(Selected(weights, partitions))
      ensures p == PickedBetween(partitions, r)
    {
      if !initialized {
        return -1;
      }
      var ws := [];
      for i := 0 to |partitions|
        invariant InRange(partitions[..i], |weights|) && ws == Selected(weights, partitions[..i])
      {
        if partitions[i] >= |weights| {
          return -1;
        }
        ws := ws + [weights[partitions[i]]];
      }
      assert partitions[..|partitions|] == partitions;
      var cumulative, total, backlogged := Accumulate(ws, threshold);
      if total <= 0 || !backlogged {
        return -1;
      }
      var index := FindSector(ws, cumulative, r);
      p := partitions[index];
    }
  }
}
