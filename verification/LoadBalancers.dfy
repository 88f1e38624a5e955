/** The matching client's load balancers: weighted with a round-robin fallback, isolation groups on top of it, and the
    choice of strategy per task list. */
module LoadBalancers {
  import opened Wrappers
  import opened Decimal
  import opened TaskLists
  import opened PartitionNames
  import opened PartitionConfig
  import opened RoundRobin
  import opened WeightSelector

  const BACKLOG_THRESHOLD := 100

  datatype Strategy = Random | RoundRobinStrategy | Weighted | Isolation

  /** An add or poll request, as far as routing looks at it. */
  datatype Request = Request(domainId: string, taskList: TaskList, taskListType: int, forwardedFrom: string) {
    function Key(): Key {
      TaskLists.Key(domainId, taskList.name, taskListType)
    }
  }

  /** A source of random numbers: given a positive bound, a number below it. */
  ghost predicate IsRandom(draw: int -> int) {
    forall n {:trigger draw(n)} :: n > 0 ==> 0 <= draw(n) < n
  }

  // Isolation groups

  predicate AcceptsGroup(p: Partition, group: string) {
    p.isolationGroups == [] || group in p.isolationGroups
  }

  /** Partition ids are 0 to n-1. */
  predicate DenseIds(partitions: map<int, Partition>) {
    forall i :: 0 <= i < |partitions| ==> i in partitions
  }

  function AcceptingBelow(group: string, partitions: map<int, Partition>, n: nat): (ids: seq<nat>)
    requires DenseIds(partitions) && n <= |partitions|
    ensures forall i :: 0 <= i < |ids| ==> ids[i] < n && AcceptsGroup(partitions[ids[i]], group)
    ensures forall id :: 0 <= id < n && AcceptsGroup(partitions[id], group) ==> id in ids
    ensures forall i, j :: 0 <= i < j < |ids| ==> ids[i] < ids[j]
  {
    if n == 0 then []
    else AcceptingBelow(group, partitions, n - 1) + if AcceptsGroup(partitions[n - 1], group) then [n - 1] else []
  }

  /** The ids of the partitions that accept the group, in ascending order; none for the empty group. */
  function PartitionsForGroup(group: string, partitions: map<int, Partition>): (ids: seq<nat>)
    requires DenseIds(partitions)
    ensures forall i, j :: 0 <= i < j < |ids| ==> ids[i] < ids[j]
    ensures forall id: nat :: id in ids <==> group != "" && id < |partitions| && AcceptsGroup(partitions[id], group)
  {
    if group == "" then [] else AcceptingBelow(group, partitions, |partitions|)
  }

  /** A partition accepts a group because it names it, or because it names none. */
  lemma {:induction false} AcceptedByName(group: string, partitions: map<int, Partition>, id: nat)
    requires DenseIds(partitions)
    ensures id in PartitionsForGroup(group, partitions) <==>
            group != "" && id < |partitions| && (|partitions[id].isolationGroups| == 0 || group in partitions[id].isolationGroups)
  {
  }

  // The weighted load balancer

  /** Where a request goes: to the partition chosen, if one was, else to the next in turn. */
  function RoutedPartition(choice: Option<nat>, caches: Caches, d: Direction, k: Key, n: nat): nat {
    if choice.Some? then choice.value else RoundRobin.Partition(caches, Pick(d, k, n))
  }

  function RoutedName(choice: Option<nat>, caches: Caches, d: Direction, k: Key, n: nat): string {
    PartitionName(k.taskListName, RoutedPartition(choice, caches, d, k, n))
  }

  /** What that does to the round-robin counters. */
  function RoutedCaches(choice: Option<nat>, caches: Caches, d: Direction, k: Key, n: nat): Caches {
    if choice.Some? then caches else CachesAfter(caches, Pick(d, k, n))
  }

  class WeightedLoadBalancer {
    const provider: PartitionConfigProvider
    const fallback: RoundRobinLoadBalancer
    var weightCache: map<Key, WeightSelector>

    ghost predicate Valid()
      reads this, weightCache.Values, fallback
    {
      && fallback.Valid()
      && (forall k :: k in weightCache ==> weightCache[k].Valid() && weightCache[k].threshold == BACKLOG_THRESHOLD)
      && (forall k, l :: k in weightCache && l in weightCache && k != l ==> weightCache[k] != weightCache[l])
    }

    constructor (provider: PartitionConfigProvider, fallback: RoundRobinLoadBalancer)
      requires fallback.Valid()
      ensures Valid() && weightCache == map[] && this.provider == provider && this.fallback == fallback
    {
      this.provider, this.fallback, weightCache := provider, fallback, map[];
    }

    /** The weights on file for a task list. */
    ghost function WeightsOf(k: Key): Option<seq<int>>
      reads this, weightCache.Values
    {
      if k in weightCache then Some(weightCache[k].weights) else None
    }

    method PickWritePartition(req: Request, mode: Mode) returns (name: string)
      requires Valid()
      modifies fallback
      ensures Valid()
      ensures var n := provider.GetNumberOfWritePartitions(mode, req.Key(), req.taskList.kind);
              && name == RoutedName(None, old(fallback.caches), Write, req.Key(), n)
              && fallback.caches == RoutedCaches(None, old(fallback.caches), Write, req.Key(), n)
    {
      var n := provider.GetNumberOfWritePartitions(mode, req.Key(), req.taskList.kind);
      name := fallback.PickPartition(Write, req.Key(), n);
    }

    /** The partition that a draw in proportion to the backlogs selects, when there is a selector and it is on. */
    ghost function WeightedChoice(k: Key, draw: int -> int): Option<nat>
      requires Valid() && IsRandom(draw)
      reads this, weightCache.Values, fallback
    {
      if k in weightCache && weightCache[k].initialized && Enabled(weightCache[k].weights, BACKLOG_THRESHOLD) then
        var ws := weightCache[k].weights;
        Some(Sector(ws, draw(Sum(ws))))
      else None
    }

    /** All weights of the task list are known, and some backlog exceeds 100. */
    ghost predicate SelectsByWeight(k: Key)
      reads this, weightCache.Values
    {
      k in weightCache && weightCache[k].initialized && exists j :: 0 <= j < |weightCache[k].weights| && weightCache[k].weights[j] > 100
    }

    /** Then exactly as many draws select a partition as it has weight, and otherwise none is selected. */
    lemma {:induction false} WeightedChoiceIsProportional(k: Key, draw: int -> int, i: nat)
      requires Valid() && IsRandom(draw)
      ensures WeightedChoice(k, draw).Some? <==> SelectsByWeight(k)
      ensures SelectsByWeight(k) ==>
                var ws := weightCache[k].weights;
                && NonNegative(ws) && Sum(ws) > 0 && WeightedChoice(k, draw).value < |ws|
                && (i < |ws| ==> |Draws(ws, i)| == ws[i] && (WeightedChoice(k, draw) == Some(i) <==> draw(Sum(ws)) in Draws(ws, i)))
    {
      if SelectsByWeight(k) {
        var ws := weightCache[k].weights;
        var j :| 0 <= j < |ws| && ws[j] > 100;
        BacklogHasWeight(ws, j);
        if i < |ws| {
          DrawsAreProportional(ws, i);
        }
      }
    }

    method PickReadPartition(req: Request, mode: Mode, draw: int -> int) returns (name: string)
      requires Valid() && IsRandom(draw)
      modifies fallback
      ensures Valid()
      ensures var n := provider.GetNumberOfReadPartitions(mode, req.Key(), req.taskList.kind);
              && name == RoutedName(old(WeightedChoice(req.Key(), draw)), old(fallback.caches), Read, req.Key(), n)
              && fallback.caches == RoutedCaches(old(WeightedChoice(req.Key(), draw)), old(fallback.caches), Read, req.Key(), n)
    {
      var k := req.Key();
      var n := provider.GetNumberOfReadPartitions(mode, k, req.taskList.kind);
      if k in weightCache {
        var w := weightCache[k];
        var p, cumulative := w.Pick(draw(Sum(w.weights)));
        if p >= 0 {
          return PartitionName(req.taskList.name, p);
        }
      }
      name := fallback.PickPartition(Read, k, n);
    }

    /** The selector of a task list, new if need be. */
    method SelectorFor(k: Key, n: nat) returns (w: WeightSelector)
      requires Valid()
      modifies this`weightCache
      ensures Valid() && k in weightCache && w == weightCache[k]
      ensures if k in old(weightCache) then weightCache == old(weightCache)
              else fresh(w) && weightCache == old(weightCache)[k := w] && w.weights == Unknowns(n)
    {
      if k !in weightCache {
        w := new WeightSelector(n, BACKLOG_THRESHOLD);
        weightCache := weightCache[k := w];
      }
      w := weightCache[k];
    }

    method FileReport(k: Key, n: nat, p: int, weight: nat) returns (panicked: bool)
      requires Valid()
      modifies this`weightCache, weightCache.Values
      ensures Valid() && (panicked <==> p < 0)
      ensures WeightsOf(k) == Some(Updated(if k in old(weightCache) then old(weightCache[k].weights) else Unknowns(n), n, p, weight))
      ensures forall l :: l != k ==> WeightsOf(l) == old(WeightsOf(l))
    {
      var w := SelectorFor(k, n);
      panicked := w.Update(n, p, weight);
    }

    /** Files a reported weight under the partition that the name stands for, and under nothing else. */
    method UpdateWeight(req: Request, mode: Mode, partition: string, weight: Option<nat>) returns (panicked: bool)
      requires Valid()
      modifies this, weightCache.Values
      ensures Valid()
      ensures panicked <==> ReportPanics(req.taskList.name, old(provider.GetNumberOfReadPartitions(mode, req.Key(), req.taskList.kind)), partition, weight)
      ensures WeightsOf(req.Key()) == WeightsAfterReport(old(WeightsOf(req.Key())), req.taskList.name,
                old(provider.GetNumberOfReadPartitions(mode, req.Key(), req.taskList.kind)), partition, weight)
      ensures forall l :: l != req.Key() ==> WeightsOf(l) == old(WeightsOf(l))
    {
      var k := req.Key();
      var p := PartitionIndex(req.taskList.name, partition);
      if weight.None? || p.None? {
        return false;
      }
      var n := provider.GetNumberOfReadPartitions(mode, k, req.taskList.kind);
      if n <= 1 {
        weightCache := weightCache - {k};
        return false;
      }
      panicked := FileReport(k, n, p.value, weight.value);
    }

    /** The weighted choice among some partitions, or -1 when there is nothing to go by. */
    ghost function ChoiceBetween(k: Key, partitions: seq<nat>, draw: int -> int): (p: int)
      requires Valid() && IsRandom(draw)
      reads this, weightCache.Values, fallback
      ensures p == -1 || p in partitions
    {
      if |partitions| == 1 then partitions[0]
      else if |partitions| == 0 || k !in weightCache || !weightCache[k].initialized || !InRange(partitions, |weightCache[k].weights|) then -1
      else
        var ws := Selected(weightCache[k].weights, partitions);
        if Enabled(ws, BACKLOG_THRESHOLD) then partitions[Sector(ws, draw(Sum(ws)))] else -1
    }

    /** All weights are known and cover the partitions, and the backlog of one of these exceeds 100. */
    ghost predicate SelectsBetween(k: Key, partitions: seq<nat>)
      reads this, weightCache.Values
    {
      && k in weightCache && weightCache[k].initialized && InRange(partitions, |weightCache[k].weights|)
      && exists j :: 0 <= j < |partitions| && weightCache[k].weights[partitions[j]] > 100
    }

    /** A single partition is taken as it is. Among several, exactly as many draws select one as it has weight where the
        weights allow it, and otherwise there is nothing to go by. */
    lemma {:induction false} ChoiceBetweenIsProportional(k: Key, partitions: seq<nat>, draw: int -> int, i: nat)
      requires Valid() && IsRandom(draw) && i < |partitions|
      requires forall a, b :: 0 <= a < b < |partitions| ==> partitions[a] != partitions[b]
      ensures |partitions| == 1 ==> ChoiceBetween(k, partitions, draw) == partitions[0]
      ensures |partitions| > 1 && !SelectsBetween(k, partitions) ==> ChoiceBetween(k, partitions, draw) == -1
      ensures |partitions| > 1 && SelectsBetween(k, partitions) ==>
                var ws := Selected(weightCache[k].weights, partitions);
                && NonNegative(ws) && Sum(ws) > 0 && ChoiceBetween(k, partitions, draw) != -1
                && |Draws(ws, i)| == weightCache[k].weights[partitions[i]]
                && (ChoiceBetween(k, partitions, draw) == partitions[i] <==> draw(Sum(ws)) in Draws(ws, i))
    {
      if |partitions| > 1 && SelectsBetween(k, partitions) {
        var ws := Selected(weightCache[k].weights, partitions);
        var j :| 0 <= j < |partitions| && weightCache[k].weights[partitions[j]] > 100;
        assert ws[j] > 100;
        BacklogHasWeight(ws, j);
        DrawsAreProportional(ws, i);
      } else if |partitions| > 1 && k in weightCache && weightCache[k].initialized && InRange(partitions, |weightCache[k].weights|) {
        assert !Backlogged(Selected(weightCache[k].weights, partitions), BACKLOG_THRESHOLD);
      }
    }

    method PickBetween(k: Key, partitions: seq<nat>, draw: int -> int) returns (p: int)
      requires Valid() && IsRandom(draw)
      ensures p == ChoiceBetween(k, partitions, draw)
    {
      if |partitions| == 0 {
        return -1;
      }
      if |partitions| == 1 {
        return partitions[0];
      }
      if k !in weightCache {
        return -1;
      }
      var w := weightCache[k];
      var total := if InRange(partitions, |w.weights|) then Sum(Selected(w.weights, partitions)) else 1;
      p := w.PickBetween(partitions, draw(total));
    }
  }

  /** The weights on file for a task list of `n` read partitions after a report. */
  function WeightsAfterReport(before: Option<seq<int>>, root: string, n: nat, partition: string, weight: Option<nat>): Option<seq<int>> {
    var p := PartitionIndex(root, partition);
    if weight.None? || p.None? then before
    else if n <= 1 then None
    else Some(Updated(if before.Some? then before.value else Unknowns(n), n, p.value, weight.value))
  }

  /** The one way for a report to go wrong: a name that ends in a negative number, for a list of several partitions. */
  predicate ReportPanics(root: string, n: nat, partition: string, weight: Option<nat>) {
    var p := PartitionIndex(root, partition);
    weight.Some? && p.Some? && p.value < 0 && n > 1
  }

  /** What a report leaves alone and what it forgets: without a weight, or under a name that ends in no number, nothing
      changes, and for a list of at most one partition the weights are dropped. */
  lemma {:induction false} ReportOutOfPlace(before: Option<seq<int>>, root: string, n: nat, partition: string, weight: Option<nat>)
    ensures weight == None ==> WeightsAfterReport(before, root, n, partition, weight) == before
    ensures partition != root && Atoi(Base(partition)) == None ==> WeightsAfterReport(before, root, n, partition, weight) == before
    ensures weight.Some? && n <= 1 && (partition == root || Atoi(Base(partition)).Some?) ==> WeightsAfterReport(before, root, n, partition, weight) == None
  {
  }

  /** A report for the partition that a name was made for does not panic, lands in that partition's slot, if it is
      still in range, and leaves the other slots alone. */
  lemma {:induction false} ReportLandsInItsSlot(before: Option<seq<int>>, root: string, n: nat, p: nat, weight: nat)
    requires n > 1 && p <= MAX_INT64
    ensures !ReportPanics(root, n, PartitionName(root, p), Some(weight))
    ensures var after := WeightsAfterReport(before, root, n, PartitionName(root, p), Some(weight));
            && after.Some? && |after.value| == n
            && (p < n ==> after.value[p] == weight)
            && (forall i :: 0 <= i < n && i != p ==>
                  after.value[i] == if before.Some? && i < |before.value| then before.value[i] else UNKNOWN)
  {
    IndexOfName(root, p);
  }

  // Isolation groups on top

  /** The choice that isolation makes among partitions: none when it does not apply, the root of a single partition,
      and otherwise a partition that accepts the group, by weight where the weights allow it (`weighted` is then not -1)
      and at random where they do not. */
  ghost function IsolatedChoice(partitions: map<int, Partition>, group: Option<string>, weighted: int, draw: int -> int): Option<nat>
    requires DenseIds(partitions) && IsRandom(draw)
  {
    if group.None? || group.value == "" then None
    else if |partitions| == 1 then Some(0)
    else
      var ids := PartitionsForGroup(group.value, partitions);
      if ids == [] then None
      else Some(if weighted >= 0 then weighted else ids[draw(|ids|)])
  }

  predicate SomeAccept(partitions: map<int, Partition>, group: string) {
    exists id :: 0 <= id < |partitions| && id in partitions && AcceptsGroup(partitions[id], group)
  }

  lemma {:induction false} SomeAccepting(group: string, partitions: map<int, Partition>)
    requires DenseIds(partitions) && group != ""
    ensures PartitionsForGroup(group, partitions) != [] <==> SomeAccept(partitions, group)
  {
    var ids := PartitionsForGroup(group, partitions);
    if ids != [] {
      assert ids[0] in ids;
    }
    if id :| 0 <= id < |partitions| && id in partitions && AcceptsGroup(partitions[id], group) {
      assert id in ids;
    }
  }

  lemma {:induction false} IsolatedChoiceAccepts(partitions: map<int, Partition>, group: string, weighted: int, draw: int -> int)
    requires DenseIds(partitions) && IsRandom(draw) && group != "" && |partitions| != 1 && SomeAccept(partitions, group)
    requires weighted == -1 || weighted in PartitionsForGroup(group, partitions)
    ensures var choice := IsolatedChoice(partitions, Some(group), weighted, draw);
            choice.Some? && choice.value < |partitions| && AcceptsGroup(partitions[choice.value], group)
  {
    SomeAccepting(group, partitions);
    var ids := PartitionsForGroup(group, partitions);
    var p := if weighted >= 0 then weighted else ids[draw(|ids|)];
    assert p in ids;
  }

  lemma {:induction false} IsolatedChoiceIs(partitions: map<int, Partition>, group: string, weighted: int, draw: int -> int, ids: seq<nat>)
    requires DenseIds(partitions) && IsRandom(draw) && group != "" && |partitions| != 1 && ids == PartitionsForGroup(group, partitions)
    ensures IsolatedChoice(partitions, Some(group), weighted, draw) ==
            if ids == [] then None else Some(if weighted >= 0 then weighted else ids[draw(|ids|)])
  {
  }

  /** The name is that of a partition which accepts the group. */
  ghost predicate NamesAccepting(name: string, root: string, partitions: map<int, Partition>, group: string) {
    exists p: nat :: p < |partitions| && p in partitions && AcceptsGroup(partitions[p], group) && name == PartitionName(root, p)
  }

  /** What isolation is for: the root of a single partition, and otherwise a partition that accepts the group if there
      is one. */
  ghost predicate RespectsGroup(name: string, root: string, partitions: map<int, Partition>, group: string) {
    if |partitions| == 1 then name == root else SomeAccept(partitions, group) ==> NamesAccepting(name, root, partitions, group)
  }

  lemma {:induction false} AcceptingNamed(root: string, partitions: map<int, Partition>, group: string, p: nat)
    requires DenseIds(partitions) && p in PartitionsForGroup(group, partitions)
    ensures NamesAccepting(PartitionName(root, p), root, partitions, group)
  {
  }

  /** A partition other than the root, and none of the first `n`. */
  predicate Beyond(choice: Option<nat>, n: nat) {
    choice.Some? && choice.value > 0 && choice.value >= n
  }

  predicate AcceptingBeyond(partitions: map<int, Partition>, group: Option<string>, n: nat) {
    && group.Some? && group.value != "" && |partitions| > 1
    && exists id :: 0 < id < |partitions| && n <= id && id in partitions && AcceptsGroup(partitions[id], group.value)
  }

  lemma {:induction false} BeyondIsAccepting(write: map<int, Partition>, group: Option<string>, n: nat, draw: int -> int)
    requires DenseIds(write) && IsRandom(draw)
    ensures Beyond(IsolatedChoice(write, group, -1, draw), n) ==> AcceptingBeyond(write, group, n)
  {
    if Beyond(IsolatedChoice(write, group, -1, draw), n) {
      var ids := PartitionsForGroup(group.value, write);
      assert ids[draw(|ids|)] in ids;
    }
  }

  lemma {:induction false} DrawBeyond(write: map<int, Partition>, group: Option<string>, n: nat) returns (draw: int -> int)
    requires DenseIds(write) && AcceptingBeyond(write, group, n)
    ensures IsRandom(draw) && Beyond(IsolatedChoice(write, group, -1, draw), n)
  {
    var id :| 0 < id < |write| && n <= id && id in write && AcceptsGroup(write[id], group.value);
    var ids := PartitionsForGroup(group.value, write);
    assert id in ids;
    var i :| 0 <= i < |ids| && ids[i] == id;
    draw := m => if m == |ids| then i else 0;
  }

  class IsolationLoadBalancer {
    const provider: PartitionConfigProvider
    const fallback: WeightedLoadBalancer

    constructor (provider: PartitionConfigProvider, fallback: WeightedLoadBalancer)
      ensures this.provider == provider && this.fallback == fallback
    {
      this.provider, this.fallback := provider, fallback;
    }

    ghost function WriteChoice(req: Request, mode: Mode, enabled: bool, group: Option<string>, draw: int -> int): Option<nat>
      requires IsRandom(draw)
      reads provider
    {
      var write := provider.GetPartitionConfig(mode, req.Key(), req.taskList.kind).writePartitions;
      if enabled && DenseIds(write) then IsolatedChoice(write, group, -1, draw) else None
    }

    method PickWritePartition(req: Request, mode: Mode, enabled: bool, group: Option<string>, draw: int -> int) returns (name: string)
      requires fallback.Valid() && IsRandom(draw)
      requires enabled ==> DenseIds(provider.GetPartitionConfig(mode, req.Key(), req.taskList.kind).writePartitions)
      modifies fallback.fallback
      ensures fallback.Valid()
      ensures var n := fallback.provider.GetNumberOfWritePartitions(mode, req.Key(), req.taskList.kind);
              var choice := old(WriteChoice(req, mode, enabled, group, draw));
              && name == RoutedName(choice, old(fallback.fallback.caches), Write, req.Key(), n)
              && fallback.fallback.caches == RoutedCaches(choice, old(fallback.fallback.caches), Write, req.Key(), n)
      ensures var write := provider.GetPartitionConfig(mode, req.Key(), req.taskList.kind).writePartitions;
              enabled && group.Some? && group.value != "" ==> RespectsGroup(name, req.taskList.name, write, group.value)
    {
      if !enabled || group.None? || group.value == "" {
        name := fallback.PickWritePartition(req, mode);
        return;
      }
      var config := provider.GetPartitionConfig(mode, req.Key(), req.taskList.kind);
      if |config.writePartitions| == 1 {
        return req.taskList.name;
      }
      var partitions := PartitionsForGroup(group.value, config.writePartitions);
      SomeAccepting(group.value, config.writePartitions);
      if partitions == [] {
        name := fallback.PickWritePartition(req, mode);
        return;
      }
      AcceptingNamed(req.taskList.name, config.writePartitions, group.value, partitions[draw(|partitions|)]);
      name := PartitionName(req.taskList.name, partitions[draw(|partitions|)]);
    }

    lemma {:induction false} IsolatedWriteStays(req: Request, mode: Mode, enabled: bool, group: Option<string>, draw: int -> int, nRead: nat)
      requires IsRandom(draw)
      ensures var write := provider.GetPartitionConfig(mode, req.Key(), req.taskList.kind).writePartitions;
              Beyond(WriteChoice(req, mode, enabled, group, draw), nRead) ==> enabled && AcceptingBeyond(write, group, nRead)
    {
      var write := provider.GetPartitionConfig(mode, req.Key(), req.taskList.kind).writePartitions;
      if enabled && DenseIds(write) {
        BeyondIsAccepting(write, group, nRead, draw);
      }
    }

    /** Exactly when a write may go beyond the first `nRead` partitions: the number of write partitions is not cut
        down to the number of read partitions here, so one of those in between that accepts the group will do. */
    lemma {:induction false} IsolatedWriteBeyondRead(req: Request, mode: Mode, enabled: bool, group: Option<string>, nRead: nat)
      requires enabled ==> DenseIds(provider.GetPartitionConfig(mode, req.Key(), req.taskList.kind).writePartitions)
      ensures (exists draw :: IsRandom(draw) && Beyond(WriteChoice(req, mode, enabled, group, draw), nRead)) <==>
              enabled && AcceptingBeyond(provider.GetPartitionConfig(mode, req.Key(), req.taskList.kind).writePartitions, group, nRead)
    {
      var write := provider.GetPartitionConfig(mode, req.Key(), req.taskList.kind).writePartitions;
      if draw :| IsRandom(draw) && Beyond(WriteChoice(req, mode, enabled, group, draw), nRead) {
        IsolatedWriteStays(req, mode, enabled, group, draw, nRead);
      }
      if enabled && AcceptingBeyond(write, group, nRead) {
        var draw := DrawBeyond(write, group, nRead);
        assert Beyond(WriteChoice(req, mode, enabled, group, draw), nRead);
      }
    }

    /** Isolation leaves a write to the fallback when it is off, without a group, and when no partition accepts it. */
    ghost predicate NoSay(partitions: map<int, Partition>, enabled: bool, group: string) {
      !enabled || group == "" || (DenseIds(partitions) && |partitions| != 1 && !SomeAccept(partitions, group))
    }

    lemma {:induction false} NoSayInWrite(req: Request, mode: Mode, enabled: bool, group: string, draw: int -> int)
      requires IsRandom(draw) && NoSay(provider.GetPartitionConfig(mode, req.Key(), req.taskList.kind).writePartitions, enabled, group)
      ensures WriteChoice(req, mode, enabled, Some(group), draw) == None
    {
      var write := provider.GetPartitionConfig(mode, req.Key(), req.taskList.kind).writePartitions;
      if enabled && group != "" {
        SomeAccepting(group, write);
      }
    }

    lemma {:induction false} NoSayInRead(req: Request, mode: Mode, enabled: bool, group: string, draw: int -> int)
      requires fallback.Valid() && IsRandom(draw) && NoSay(provider.GetPartitionConfig(mode, req.Key(), req.taskList.kind).readPartitions, enabled, group)
      ensures ReadChoice(req, mode, enabled, group, draw) == fallback.WeightedChoice(req.Key(), draw)
    {
      var read := provider.GetPartitionConfig(mode, req.Key(), req.taskList.kind).readPartitions;
      if enabled && group != "" {
        SomeAccepting(group, read);
      }
    }

    /** Isolation has a say in a write: then it goes to a partition that accepts the group. */
    lemma {:induction false} WriteChoiceAccepts(req: Request, mode: Mode, group: string, draw: int -> int)
      requires IsRandom(draw) && group != ""
      requires var write := provider.GetPartitionConfig(mode, req.Key(), req.taskList.kind).writePartitions;
               DenseIds(write) && |write| != 1 && SomeAccept(write, group)
      ensures var write := provider.GetPartitionConfig(mode, req.Key(), req.taskList.kind).writePartitions;
              var choice := WriteChoice(req, mode, true, Some(group), draw);
              choice.Some? && choice.value < |write| && AcceptsGroup(write[choice.value], group)
    {
      var write := provider.GetPartitionConfig(mode, req.Key(), req.taskList.kind).writePartitions;
      IsolatedChoiceAccepts(write, group, -1, draw);
    }

    /** The same for polls, whatever weights are on file: stale ones, too few, or none at all. */
    lemma {:induction false} ReadChoiceAccepts(req: Request, mode: Mode, group: string, draw: int -> int)
      requires fallback.Valid() && IsRandom(draw) && group != ""
      requires var read := provider.GetPartitionConfig(mode, req.Key(), req.taskList.kind).readPartitions;
               DenseIds(read) && |read| != 1 && SomeAccept(read, group)
      ensures var read := provider.GetPartitionConfig(mode, req.Key(), req.taskList.kind).readPartitions;
              var choice := ReadChoice(req, mode, true, group, draw);
              choice.Some? && choice.value < |read| && AcceptsGroup(read[choice.value], group)
    {
      var read := provider.GetPartitionConfig(mode, req.Key(), req.taskList.kind).readPartitions;
      IsolatedChoiceAccepts(read, group, fallback.ChoiceBetween(req.Key(), PartitionsForGroup(group, read), draw), draw);
    }

    /** The say that isolation has in a poll. */
    ghost function OwnReadChoice(req: Request, mode: Mode, enabled: bool, group: string, draw: int -> int): Option<nat>
      requires fallback.Valid() && IsRandom(draw)
      reads provider, fallback, fallback.weightCache.Values, fallback.fallback
    {
      var read := provider.GetPartitionConfig(mode, req.Key(), req.taskList.kind).readPartitions;
      if enabled && DenseIds(read) then
        IsolatedChoice(read, Some(group), fallback.ChoiceBetween(req.Key(), PartitionsForGroup(group, read), draw), draw)
      else None
    }

    ghost function ReadChoice(req: Request, mode: Mode, enabled: bool, group: string, draw: int -> int): Option<nat>
      requires fallback.Valid() && IsRandom(draw)
      reads provider, fallback, fallback.weightCache.Values, fallback.fallback
    {
      var own := OwnReadChoice(req, mode, enabled, group, draw);
      if own.Some? then own else fallback.WeightedChoice(req.Key(), draw)
    }

    method ChooseRead(req: Request, mode: Mode, enabled: bool, group: string, draw: int -> int) returns (choice: Option<nat>)
      requires fallback.Valid() && IsRandom(draw)
      requires enabled ==> DenseIds(provider.GetPartitionConfig(mode, req.Key(), req.taskList.kind).readPartitions)
      ensures choice == OwnReadChoice(req, mode, enabled, group, draw)
      ensures var read := provider.GetPartitionConfig(mode, req.Key(), req.taskList.kind).readPartitions;
              if choice.Some? then enabled && group != "" && RespectsGroup(PartitionName(req.taskList.name, choice.value), req.taskList.name, read, group)
              else enabled && group != "" ==> |read| != 1 && !SomeAccept(read, group)
    {
      if !enabled || group == "" {
        return None;
      }
      var config := provider.GetPartitionConfig(mode, req.Key(), req.taskList.kind);
      if |config.readPartitions| == 1 {
        return Some(0);
      }
      var partitions := PartitionsForGroup(group, config.readPartitions);
      SomeAccepting(group, config.readPartitions);
      if partitions == [] {
        return None;
      }
      var p := PickAccepting(req.Key(), partitions, draw);
      AcceptingNamed(req.taskList.name, config.readPartitions, group, p);
      choice := Some(p);
    }

    /** Sends a poll to a partition that accepts its group, if there is one, and leaves it to the fallback if not. */
    method PickReadPartition(req: Request, mode: Mode, enabled: bool, group: string, draw: int -> int) returns (name: string)
      requires fallback.Valid() && IsRandom(draw)
      requires enabled ==> DenseIds(provider.GetPartitionConfig(mode, req.Key(), req.taskList.kind).readPartitions)
      modifies fallback.fallback
      ensures fallback.Valid()
      ensures var n := fallback.provider.GetNumberOfReadPartitions(mode, req.Key(), req.taskList.kind);
              var choice := old(ReadChoice(req, mode, enabled, group, draw));
              && name == RoutedName(choice, old(fallback.fallback.caches), Read, req.Key(), n)
              && fallback.fallback.caches == RoutedCaches(choice, old(fallback.fallback.caches), Read, req.Key(), n)
      ensures var read := provider.GetPartitionConfig(mode, req.Key(), req.taskList.kind).readPartitions;
              enabled && group != "" ==> RespectsGroup(name, req.taskList.name, read, group)
    {
      var own := ChooseRead(req, mode, enabled, group, draw);
      name := Follow(own, ReadChoice(req, mode, enabled, group, draw), req, mode, draw);
    }

    /** Goes where isolation says, or asks the fallback. */
    method Follow(own: Option<nat>, ghost choice: Option<nat>, req: Request, mode: Mode, draw: int -> int) returns (name: string)
      requires fallback.Valid() && IsRandom(draw)
      requires choice == if own.Some? then own else fallback.WeightedChoice(req.Key(), draw)
      modifies fallback.fallback
      ensures fallback.Valid()
      ensures own.Some? ==> name == PartitionName(req.taskList.name, own.value)
      ensures var n := fallback.provider.GetNumberOfReadPartitions(mode, req.Key(), req.taskList.kind);
              && name == RoutedName(choice, old(fallback.fallback.caches), Read, req.Key(), n)
              && fallback.fallback.caches == RoutedCaches(choice, old(fallback.fallback.caches), Read, req.Key(), n)
    {
      if own.None? {
        name := fallback.PickReadPartition(req, mode, draw);
      } else {
        name := PartitionName(req.taskList.name, own.value);
      }
    }

    method PickAccepting(k: Key, partitions: seq<nat>, draw: int -> int) returns (p: nat)
      requires fallback.Valid() && IsRandom(draw) && partitions != []
      ensures p in partitions
      ensures var choice := fallback.ChoiceBetween(k, partitions, draw);
              p == if choice >= 0 then choice else partitions[draw(|partitions|)]
    {
      p := partitions[0];
      if |partitions| > 1 {
        var choice := fallback.PickBetween(k, partitions, draw);
        p := if choice == -1 then partitions[draw(|partitions|)] else choice;
      }
    }
  }

  // The choice of strategy

  /** Requests that were forwarded, sticky task lists and partitions themselves are not balanced. */
  predicate CanRedirect(req: Request) {
    req.forwardedFrom == "" && req.taskList.kind.Normal? && !(RESERVED_PREFIX <= req.taskList.name)
  }

  predicate UsesWeights(req: Request, strategy: Option<Strategy>) {
    CanRedirect(req) && (strategy == Some(Weighted) || strategy == Some(Isolation))
  }

  /** The choice of the random load balancer. */
  ghost function RandomChoice(n: nat, draw: int -> int): (p: Option<nat>)
    requires IsRandom(draw)
    ensures p.Some? && (p.value == 0 || p.value < n)
  {
    Some(if n <= 1 then 0 else draw(n))
  }

  /** The name is the root's or that of one of the read partitions. */
  ghost predicate InReadRange(name: string, root: string, nRead: nat) {
    exists p: nat :: (p == 0 || p < nRead) && name == PartitionName(root, p)
  }

  /** Anything routed within the write partitions stays within the read partitions, whatever the counters. */
  lemma {:induction false} RoutedInReadRange(choice: Option<nat>, caches: Caches, k: Key, nWrite: nat, nRead: nat)
    requires nWrite <= nRead && !Beyond(choice, nRead)
    ensures InReadRange(RoutedName(choice, caches, Write, k, nWrite), k.taskListName, nRead)
  {
    var p := RoutedPartition(choice, caches, Write, k, nWrite);
    assert (p == 0 || p < nRead) && RoutedName(choice, caches, Write, k, nWrite) == PartitionName(k.taskListName, p);
  }

  lemma {:induction false} BeyondIsOutOfRange(root: string, p: nat, nRead: nat)
    requires p > 0 && p >= nRead
    ensures !InReadRange(PartitionName(root, p), root, nRead)
  {
    forall q: nat | PartitionName(root, p) == PartitionName(root, q)
      ensures q == p
    {
      NameCollision(root, p, root, q);
    }
  }

  class MultiLoadBalancer {
    const provider: PartitionConfigProvider
    const roundRobin: RoundRobinLoadBalancer
    const weighted: WeightedLoadBalancer
    const isolation: IsolationLoadBalancer

    ghost predicate Valid()
      reads weighted, weighted.weightCache.Values, roundRobin
    {
      && weighted.provider == provider && isolation.provider == provider
      && weighted.fallback == roundRobin && isolation.fallback == weighted
      && weighted.Valid()
    }

    constructor (provider: PartitionConfigProvider)
      ensures Valid() && fresh(roundRobin) && fresh(weighted) && this.provider == provider
      ensures weighted.weightCache == map[] && roundRobin.caches == Caches(map[], map[])
    {
      var rr := new RoundRobinLoadBalancer();
      var w := new WeightedLoadBalancer(provider, rr);
      var iso := new IsolationLoadBalancer(provider, w);
      this.provider, roundRobin, weighted, isolation := provider, rr, w, iso;
    }

    /** The partition that the strategy chooses for a write; none if it is to be the next in turn. Without a usable
        strategy the random load balancer decides. */
    ghost function WriteChoice(req: Request, mode: Mode, strategy: Option<Strategy>, isolate: bool, group: Option<string>, draw: int -> int): Option<nat>
      requires IsRandom(draw)
      reads provider, isolation.provider
    {
      if !CanRedirect(req) then Some(0)
      else
        match strategy
        case None => RandomChoice(provider.GetNumberOfWritePartitions(mode, req.Key(), req.taskList.kind), draw)
        case Some(Random) => RandomChoice(provider.GetNumberOfWritePartitions(mode, req.Key(), req.taskList.kind), draw)
        case Some(RoundRobinStrategy) => None
        case Some(Weighted) => None
        case Some(Isolation) => isolation.WriteChoice(req, mode, isolate, group, draw)
    }

    method PickWritePartition(req: Request, mode: Mode, strategy: Option<Strategy>, isolate: bool, group: Option<string>, draw: int -> int)
      returns (name: string)
      requires Valid() && IsRandom(draw)
      requires strategy == Some(Isolation) && isolate ==> DenseIds(provider.GetPartitionConfig(mode, req.Key(), req.taskList.kind).writePartitions)
      modifies roundRobin
      ensures Valid()
      ensures var n := old(provider.GetNumberOfWritePartitions(mode, req.Key(), req.taskList.kind));
              var choice := old(WriteChoice(req, mode, strategy, isolate, group, draw));
              && name == RoutedName(choice, old(roundRobin.caches), Write, req.Key(), n)
              && roundRobin.caches == RoutedCaches(choice, old(roundRobin.caches), Write, req.Key(), n)
    {
      var k, n := req.Key(), provider.GetNumberOfWritePartitions(mode, req.Key(), req.taskList.kind);
      if !CanRedirect(req) {
        name := req.taskList.name;
      } else if strategy.None? || strategy.value.Random? {
        name := PartitionName(req.taskList.name, if n <= 1 then 0 else draw(n));
      } else if strategy.value.RoundRobinStrategy? {
        name := roundRobin.PickPartition(Write, k, n);
      } else if strategy.value.Weighted? {
        name := weighted.PickWritePartition(req, mode);
      } else {
        name := isolation.PickWritePartition(req, mode, isolate, group, draw);
      }
    }

    /** Isolation is in charge of a write, and one of the write partitions beyond the read partitions accepts its
        group. */
    ghost predicate MayLeaveReadRange(req: Request, mode: Mode, strategy: Option<Strategy>, isolate: bool, group: Option<string>)
      reads provider
    {
      && CanRedirect(req) && strategy == Some(Isolation) && isolate
      && AcceptingBeyond(provider.GetPartitionConfig(mode, req.Key(), req.taskList.kind).writePartitions, group,
                         provider.GetNumberOfReadPartitions(mode, req.Key(), req.taskList.kind))
    }

    ghost function WriteName(req: Request, mode: Mode, strategy: Option<Strategy>, isolate: bool, group: Option<string>, draw: int -> int, caches: Caches): string
      requires IsRandom(draw)
      reads provider, isolation.provider
    {
      RoutedName(WriteChoice(req, mode, strategy, isolate, group, draw), caches, Write, req.Key(),
                 provider.GetNumberOfWritePartitions(mode, req.Key(), req.taskList.kind))
    }

    /** What routing does to the counters. */
    ghost function ReadCounters(req: Request, mode: Mode, strategy: Option<Strategy>, isolate: bool, group: string, draw: int -> int, caches: Caches): Caches
      requires Valid() && IsRandom(draw)
      reads provider, weighted, weighted.weightCache.Values, roundRobin
    {
      RoutedCaches(ReadChoice(req, mode, strategy, isolate, group, draw), caches, Read, req.Key(),
                   provider.GetNumberOfReadPartitions(mode, req.Key(), req.taskList.kind))
    }

    ghost function WriteCounters(req: Request, mode: Mode, strategy: Option<Strategy>, isolate: bool, group: Option<string>, draw: int -> int, caches: Caches): Caches
      requires IsRandom(draw)
      reads provider, isolation.provider
    {
      RoutedCaches(WriteChoice(req, mode, strategy, isolate, group, draw), caches, Write, req.Key(),
                   provider.GetNumberOfWritePartitions(mode, req.Key(), req.taskList.kind))
    }

    /** Whatever the counters, the cached configuration and the strategy, every draw sends a write to the root or to
        one of the read partitions, exactly unless isolation has a reason to send it further. */
    lemma {:induction false} WriteStaysInReadRange(
      req: Request, mode: Mode, strategy: Option<Strategy>, isolate: bool, group: Option<string>, caches: Caches)
      requires Valid()
      requires strategy == Some(Isolation) && isolate ==> DenseIds(provider.GetPartitionConfig(mode, req.Key(), req.taskList.kind).writePartitions)
      ensures (forall draw :: IsRandom(draw) ==>
                 InReadRange(WriteName(req, mode, strategy, isolate, group, draw, caches), req.taskList.name,
                             provider.GetNumberOfReadPartitions(mode, req.Key(), req.taskList.kind))) <==>
              !MayLeaveReadRange(req, mode, strategy, isolate, group)
    {
      if MayLeaveReadRange(req, mode, strategy, isolate, group) {
        var draw := WriteLeaves(req, mode, strategy, isolate, group, caches);
      } else {
        forall draw | IsRandom(draw)
          ensures InReadRange(WriteName(req, mode, strategy, isolate, group, draw, caches), req.taskList.name,
                              provider.GetNumberOfReadPartitions(mode, req.Key(), req.taskList.kind))
        {
          WriteStays(req, mode, strategy, isolate, group, draw, caches);
        }
      }
    }

    lemma {:induction false} WriteLeaves(
      req: Request, mode: Mode, strategy: Option<Strategy>, isolate: bool, group: Option<string>, caches: Caches) returns (draw: int -> int)
      requires Valid() && MayLeaveReadRange(req, mode, strategy, isolate, group)
      requires DenseIds(provider.GetPartitionConfig(mode, req.Key(), req.taskList.kind).writePartitions)
      ensures IsRandom(draw)
      ensures !InReadRange(WriteName(req, mode, strategy, isolate, group, draw, caches), req.taskList.name,
                           provider.GetNumberOfReadPartitions(mode, req.Key(), req.taskList.kind))
    {
      var nRead := provider.GetNumberOfReadPartitions(mode, req.Key(), req.taskList.kind);
      draw := DrawBeyond(provider.GetPartitionConfig(mode, req.Key(), req.taskList.kind).writePartitions, group, nRead);
      BeyondIsOutOfRange(req.taskList.name, isolation.WriteChoice(req, mode, isolate, group, draw).value, nRead);
    }

    lemma {:induction false} WriteStays(
      req: Request, mode: Mode, strategy: Option<Strategy>, isolate: bool, group: Option<string>, draw: int -> int, caches: Caches)
      requires Valid() && IsRandom(draw) && !MayLeaveReadRange(req, mode, strategy, isolate, group)
      ensures InReadRange(WriteName(req, mode, strategy, isolate, group, draw, caches), req.taskList.name,
                          provider.GetNumberOfReadPartitions(mode, req.Key(), req.taskList.kind))
    {
      ChoiceStays(req, mode, strategy, isolate, group, draw);
      RoutedInReadRange(WriteChoice(req, mode, strategy, isolate, group, draw), caches, req.Key(),
                        provider.GetNumberOfWritePartitions(mode, req.Key(), req.taskList.kind),
                        provider.GetNumberOfReadPartitions(mode, req.Key(), req.taskList.kind));
    }

    lemma {:induction false} ChoiceStays(
      req: Request, mode: Mode, strategy: Option<Strategy>, isolate: bool, group: Option<string>, draw: int -> int)
      requires Valid() && IsRandom(draw) && !MayLeaveReadRange(req, mode, strategy, isolate, group)
      ensures !Beyond(WriteChoice(req, mode, strategy, isolate, group, draw), provider.GetNumberOfReadPartitions(mode, req.Key(), req.taskList.kind))
    {
      if CanRedirect(req) && strategy == Some(Isolation) {
        isolation.IsolatedWriteStays(req, mode, isolate, group, draw, provider.GetNumberOfReadPartitions(mode, req.Key(), req.taskList.kind));
      }
    }

    ghost function ReadChoice(req: Request, mode: Mode, strategy: Option<Strategy>, isolate: bool, group: string, draw: int -> int): Option<nat>
      requires Valid() && IsRandom(draw)
      reads provider, weighted, weighted.weightCache.Values, roundRobin
    {
      if !CanRedirect(req) then Some(0)
      else
        match strategy
        case None => RandomChoice(provider.GetNumberOfReadPartitions(mode, req.Key(), req.taskList.kind), draw)
        case Some(Random) => RandomChoice(provider.GetNumberOfReadPartitions(mode, req.Key(), req.taskList.kind), draw)
        case Some(RoundRobinStrategy) => None
        case Some(Weighted) => weighted.WeightedChoice(req.Key(), draw)
        case Some(Isolation) => isolation.ReadChoice(req, mode, isolate, group, draw)
    }

    ghost function ReadName(req: Request, mode: Mode, strategy: Option<Strategy>, isolate: bool, group: string, draw: int -> int, caches: Caches): string
      requires Valid() && IsRandom(draw)
      reads provider, weighted, weighted.weightCache.Values, roundRobin
    {
      RoutedName(ReadChoice(req, mode, strategy, isolate, group, draw), caches, Read, req.Key(),
                 provider.GetNumberOfReadPartitions(mode, req.Key(), req.taskList.kind))
    }

    /** Where a poller is sent, and under which partition number. */
    method PickReadPartition(req: Request, mode: Mode, strategy: Option<Strategy>, isolate: bool, group: string, draw: int -> int)
      returns (name: string)
      requires Valid() && IsRandom(draw)
      requires strategy == Some(Isolation) && isolate ==> DenseIds(provider.GetPartitionConfig(mode, req.Key(), req.taskList.kind).readPartitions)
      modifies roundRobin
      ensures Valid()
      ensures var n := old(provider.GetNumberOfReadPartitions(mode, req.Key(), req.taskList.kind));
              var choice := old(ReadChoice(req, mode, strategy, isolate, group, draw));
              && name == RoutedName(choice, old(roundRobin.caches), Read, req.Key(), n)
              && roundRobin.caches == RoutedCaches(choice, old(roundRobin.caches), Read, req.Key(), n)
    {
      var k, n := req.Key(), provider.GetNumberOfReadPartitions(mode, req.Key(), req.taskList.kind);
      if !CanRedirect(req) {
        name := req.taskList.name;
      } else if strategy.None? || strategy.value.Random? {
        name := PartitionName(req.taskList.name, if n <= 1 then 0 else draw(n));
      } else if strategy.value.RoundRobinStrategy? {
        name := roundRobin.PickPartition(Read, k, n);
      } else if strategy.value.Weighted? {
        name := weighted.PickReadPartition(req, mode, draw);
      } else {
        name := isolation.PickReadPartition(req, mode, isolate, group, draw);
      }
    }

    /** Weight reports count only under the strategies that use weights, and only for task lists that are balanced:
        normal ones, not under the reserved prefix, in requests that were not forwarded. */
    method UpdateWeight(req: Request, mode: Mode, strategy: Option<Strategy>, partition: string, weight: Option<nat>) returns (panicked: bool)
      requires Valid()
      modifies weighted, weighted.weightCache.Values
      ensures Valid()
      ensures var counts := req.forwardedFrom == "" && req.taskList.kind.Normal? && !(RESERVED_PREFIX <= req.taskList.name)
                            && (strategy == Some(Weighted) || strategy == Some(Isolation));
              var n := old(provider.GetNumberOfReadPartitions(mode, req.Key(), req.taskList.kind));
              && (panicked <==> counts && ReportPanics(req.taskList.name, n, partition, weight))
              && weighted.WeightsOf(req.Key()) ==
                   if counts then WeightsAfterReport(old(weighted.WeightsOf(req.Key())), req.taskList.name, n, partition, weight)
                   else old(weighted.WeightsOf(req.Key()))
      ensures forall l :: l != req.Key() ==> weighted.WeightsOf(l) == old(weighted.WeightsOf(l))
    {
      panicked := false;
      if UsesWeights(req, strategy) {
        panicked := weighted.UpdateWeight(req, mode, partition, weight);
      }
    }
  }
}
