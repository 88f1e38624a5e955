/** What each load balancing strategy does with a poll or a task, said on the names that requests are sent to. */
module RoutingLaws {
  import opened Wrappers
  import opened TaskLists
  import opened PartitionNames
  import opened PartitionConfig
  import opened RoundRobin
  import opened WeightSelector
  import opened LoadBalancers

  /** What the dynamic configuration and the request's isolation group say while a request is routed. */
  datatype Rules = Rules(mode: Mode, strategy: Option<Strategy>, isolate: bool, group: string)

  /** The name that a poll is sent to. */
  ghost function PolledName(lb: MultiLoadBalancer, req: Request, rules: Rules, draw: int -> int): string
    requires lb.Valid() && IsRandom(draw)
    reads lb.provider, lb.weighted, lb.weighted.weightCache.Values, lb.roundRobin
  {
    lb.ReadName(req, rules.mode, rules.strategy, rules.isolate, rules.group, draw, lb.roundRobin.caches)
  }

  /** The name that a task is sent to; a task without a group is one whose group is empty. */
  ghost function AddedName(lb: MultiLoadBalancer, req: Request, rules: Rules, draw: int -> int): string
    requires lb.Valid() && IsRandom(draw)
    reads lb.provider, lb.roundRobin, lb.weighted, lb.weighted.weightCache.Values
  {
    lb.WriteName(req, rules.mode, rules.strategy, rules.isolate, Some(rules.group), draw, lb.roundRobin.caches)
  }

  ghost function CountersAfterPoll(lb: MultiLoadBalancer, req: Request, rules: Rules, draw: int -> int): Caches
    requires lb.Valid() && IsRandom(draw)
    reads lb.provider, lb.weighted, lb.weighted.weightCache.Values, lb.roundRobin
  {
    lb.ReadCounters(req, rules.mode, rules.strategy, rules.isolate, rules.group, draw, lb.roundRobin.caches)
  }

  ghost function CountersAfterAdd(lb: MultiLoadBalancer, req: Request, rules: Rules, draw: int -> int): Caches
    requires lb.Valid() && IsRandom(draw)
    reads lb.provider, lb.roundRobin, lb.weighted, lb.weighted.weightCache.Values
  {
    lb.WriteCounters(req, rules.mode, rules.strategy, rules.isolate, Some(rules.group), draw, lb.roundRobin.caches)
  }

  function ReadCount(lb: MultiLoadBalancer, req: Request, rules: Rules): nat
    reads lb.provider
  {
    lb.provider.GetNumberOfReadPartitions(rules.mode, req.Key(), req.taskList.kind)
  }

  function WriteCount(lb: MultiLoadBalancer, req: Request, rules: Rules): nat
    reads lb.provider
  {
    lb.provider.GetNumberOfWritePartitions(rules.mode, req.Key(), req.taskList.kind)
  }

  lemma {:induction false} SameRootInjective(root: string, p: nat, q: nat)
    ensures PartitionName(root, p) == PartitionName(root, q) <==> p == q
  {
    NameCollision(root, p, root, q);
  }

  /** Requests that were forwarded, sticky lists, and lists under the reserved prefix stay where they are, and no counter
      moves, under every strategy. */
  lemma {:induction false} OthersStay(lb: MultiLoadBalancer, req: Request, rules: Rules, draw: int -> int)
    requires lb.Valid() && IsRandom(draw)
    requires req.forwardedFrom != "" || !req.taskList.kind.Normal? || RESERVED_PREFIX <= req.taskList.name
    ensures PolledName(lb, req, rules, draw) == AddedName(lb, req, rules, draw) == req.taskList.name
    ensures CountersAfterPoll(lb, req, rules, draw) == CountersAfterAdd(lb, req, rules, draw) == lb.roundRobin.caches
  {
  }

  /** At random, or without a usable strategy, each of several partitions is reached by exactly one draw. */
  lemma {:induction false} RandomReachesEach(lb: MultiLoadBalancer, req: Request, rules: Rules, draw: int -> int, i: nat)
    requires lb.Valid() && IsRandom(draw)
    requires req.forwardedFrom == "" && req.taskList.kind.Normal? && !(RESERVED_PREFIX <= req.taskList.name)
    requires rules.strategy == None || rules.strategy == Some(Random)
    ensures var n := ReadCount(lb, req, rules);
            PolledName(lb, req, rules, draw) == PartitionName(req.taskList.name, i) <==> if n <= 1 then i == 0 else draw(n) == i
    ensures var n := WriteCount(lb, req, rules);
            AddedName(lb, req, rules, draw) == PartitionName(req.taskList.name, i) <==> if n <= 1 then i == 0 else draw(n) == i
    ensures CountersAfterPoll(lb, req, rules, draw) == CountersAfterAdd(lb, req, rules, draw) == lb.roundRobin.caches
  {
    var nRead, nWrite := ReadCount(lb, req, rules), WriteCount(lb, req, rules);
    SameRootInjective(req.taskList.name, if nRead <= 1 then 0 else draw(nRead), i);
    SameRootInjective(req.taskList.name, if nWrite <= 1 then 0 else draw(nWrite), i);
  }

  /** A poll is sent to the next read partition in turn. */
  ghost predicate PollTakesTurn(lb: MultiLoadBalancer, req: Request, rules: Rules, draw: int -> int)
    requires lb.Valid() && IsRandom(draw)
    reads lb.provider, lb.weighted, lb.weighted.weightCache.Values, lb.roundRobin
  {
    var pick := Pick(Read, req.Key(), ReadCount(lb, req, rules));
    && PolledName(lb, req, rules, draw) == PartitionName(req.taskList.name, RoundRobin.Partition(lb.roundRobin.caches, pick))
    && CountersAfterPoll(lb, req, rules, draw) == CachesAfter(lb.roundRobin.caches, pick)
  }

  ghost predicate AddTakesTurn(lb: MultiLoadBalancer, req: Request, rules: Rules, draw: int -> int)
    requires lb.Valid() && IsRandom(draw)
    reads lb.provider, lb.weighted, lb.weighted.weightCache.Values, lb.roundRobin
  {
    var pick := Pick(Write, req.Key(), WriteCount(lb, req, rules));
    && AddedName(lb, req, rules, draw) == PartitionName(req.taskList.name, RoundRobin.Partition(lb.roundRobin.caches, pick))
    && CountersAfterAdd(lb, req, rules, draw) == CachesAfter(lb.roundRobin.caches, pick)
  }

  /** Round robin takes turns, whatever the draw and whatever weights are on file. */
  lemma {:induction false} RoundRobinTakesTurns(lb: MultiLoadBalancer, req: Request, rules: Rules, draw: int -> int)
    requires lb.Valid() && IsRandom(draw) && rules.strategy == Some(RoundRobinStrategy)
    requires req.forwardedFrom == "" && req.taskList.kind.Normal? && !(RESERVED_PREFIX <= req.taskList.name)
    ensures PollTakesTurn(lb, req, rules, draw) && AddTakesTurn(lb, req, rules, draw)
  {
  }

  /** By weight, exactly as many draws send a poll to a partition as the partition has weight, and no counter moves. Where
      the weights say nothing, polls take turns, and tasks always do. */
  lemma {:induction false} WeightedPollsFollowBacklog(lb: MultiLoadBalancer, req: Request, rules: Rules, draw: int -> int, i: nat)
    requires lb.Valid() && IsRandom(draw) && rules.strategy == Some(Weighted)
    requires req.forwardedFrom == "" && req.taskList.kind.Normal? && !(RESERVED_PREFIX <= req.taskList.name)
    ensures AddTakesTurn(lb, req, rules, draw)
    ensures !lb.weighted.SelectsByWeight(req.Key()) ==> PollTakesTurn(lb, req, rules, draw)
    ensures lb.weighted.SelectsByWeight(req.Key()) ==>
              var ws := lb.weighted.weightCache[req.Key()].weights;
              && NonNegative(ws) && Sum(ws) > 0 && CountersAfterPoll(lb, req, rules, draw) == lb.roundRobin.caches
              && (i < |ws| ==> |Draws(ws, i)| == ws[i])
              && (PolledName(lb, req, rules, draw) == PartitionName(req.taskList.name, i) <==> i < |ws| && draw(Sum(ws)) in Draws(ws, i))
  {
    var k := req.Key();
    lb.weighted.WeightedChoiceIsProportional(k, draw, i);
    if lb.weighted.SelectsByWeight(k) {
      SameRootInjective(req.taskList.name, lb.weighted.WeightedChoice(k, draw).value, i);
    }
  }

  /** With isolation switched off, for requests without a group, and where no partition accepts the group, isolation
      does what the weighted strategy does. */
  lemma {:induction false} WithoutIsolationByWeight(lb: MultiLoadBalancer, req: Request, rules: Rules, draw: int -> int, weighted: Rules)
    requires lb.Valid() && IsRandom(draw) && rules.strategy == Some(Isolation) && weighted == rules.(strategy := Some(Weighted))
    ensures lb.isolation.NoSay(lb.provider.GetPartitionConfig(rules.mode, req.Key(), req.taskList.kind).readPartitions, rules.isolate, rules.group) ==>
              && PolledName(lb, req, rules, draw) == PolledName(lb, req, weighted, draw)
              && CountersAfterPoll(lb, req, rules, draw) == CountersAfterPoll(lb, req, weighted, draw)
    ensures lb.isolation.NoSay(lb.provider.GetPartitionConfig(rules.mode, req.Key(), req.taskList.kind).writePartitions, rules.isolate, rules.group) ==>
              && AddedName(lb, req, rules, draw) == AddedName(lb, req, weighted, draw)
              && CountersAfterAdd(lb, req, rules, draw) == CountersAfterAdd(lb, req, weighted, draw)
  {
    var config := lb.provider.GetPartitionConfig(rules.mode, req.Key(), req.taskList.kind);
    if lb.isolation.NoSay(config.readPartitions, rules.isolate, rules.group) {
      lb.isolation.NoSayInRead(req, rules.mode, rules.isolate, rules.group, draw);
    }
    if lb.isolation.NoSay(config.writePartitions, rules.isolate, rules.group) {
      lb.isolation.NoSayInWrite(req, rules.mode, rules.isolate, rules.group, draw);
    }
  }

  /** Nothing depends on whether a task has no group or an empty one. */
  lemma {:induction false} NoGroupIsEmptyGroup(lb: MultiLoadBalancer, req: Request, rules: Rules, draw: int -> int)
    requires lb.Valid() && IsRandom(draw) && rules.group == ""
    ensures lb.WriteName(req, rules.mode, rules.strategy, rules.isolate, None, draw, lb.roundRobin.caches) == AddedName(lb, req, rules, draw)
    ensures lb.WriteCounters(req, rules.mode, rules.strategy, rules.isolate, None, draw, lb.roundRobin.caches) == CountersAfterAdd(lb, req, rules, draw)
  {
  }

  lemma {:induction false} AddWithChoice(lb: MultiLoadBalancer, req: Request, rules: Rules, draw: int -> int, p: nat)
    requires lb.Valid() && IsRandom(draw)
    requires lb.WriteChoice(req, rules.mode, rules.strategy, rules.isolate, Some(rules.group), draw) == Some(p)
    ensures AddedName(lb, req, rules, draw) == PartitionName(req.taskList.name, p)
    ensures CountersAfterAdd(lb, req, rules, draw) == lb.roundRobin.caches
  {
  }

  lemma {:induction false} PollWithChoice(lb: MultiLoadBalancer, req: Request, rules: Rules, draw: int -> int, p: nat)
    requires lb.Valid() && IsRandom(draw)
    requires lb.ReadChoice(req, rules.mode, rules.strategy, rules.isolate, rules.group, draw) == Some(p)
    ensures PolledName(lb, req, rules, draw) == PartitionName(req.taskList.name, p)
    ensures CountersAfterPoll(lb, req, rules, draw) == lb.roundRobin.caches
  {
  }

  lemma {:induction false} IsolatedTaskName(lb: MultiLoadBalancer, req: Request, rules: Rules, draw: int -> int, ids: seq<nat>, p: nat)
    requires lb.Valid() && IsRandom(draw) && rules.strategy == Some(Isolation) && rules.isolate && rules.group != ""
    requires req.forwardedFrom == "" && req.taskList.kind.Normal? && !(RESERVED_PREFIX <= req.taskList.name)
    requires var write := lb.provider.GetPartitionConfig(rules.mode, req.Key(), req.taskList.kind).writePartitions;
             DenseIds(write) && |write| != 1 && ids == PartitionsForGroup(rules.group, write) && ids != []
    requires p == ids[draw(|ids|)]
    ensures AddedName(lb, req, rules, draw) == PartitionName(req.taskList.name, p)
    ensures CountersAfterAdd(lb, req, rules, draw) == lb.roundRobin.caches
  {
    IsolatedChoiceIs(lb.provider.GetPartitionConfig(rules.mode, req.Key(), req.taskList.kind).writePartitions, rules.group, -1, draw, ids);
    AddWithChoice(lb, req, rules, draw, p);
  }

  /** With isolation, a task goes to each of the partitions that accept its group on exactly one draw. */
  lemma {:induction false} IsolatedTasksSpread(lb: MultiLoadBalancer, req: Request, rules: Rules, draw: int -> int, ids: seq<nat>, i: nat)
    requires lb.Valid() && IsRandom(draw) && rules.strategy == Some(Isolation) && rules.isolate && rules.group != ""
    requires req.forwardedFrom == "" && req.taskList.kind.Normal? && !(RESERVED_PREFIX <= req.taskList.name)
    requires var write := lb.provider.GetPartitionConfig(rules.mode, req.Key(), req.taskList.kind).writePartitions;
             DenseIds(write) && |write| != 1 && ids == PartitionsForGroup(rules.group, write) && i < |ids|
    ensures AddedName(lb, req, rules, draw) == PartitionName(req.taskList.name, ids[i]) <==> draw(|ids|) == i
    ensures CountersAfterAdd(lb, req, rules, draw) == lb.roundRobin.caches
  {
    IsolatedTaskName(lb, req, rules, draw, ids, ids[draw(|ids|)]);
    SameRootInjective(req.taskList.name, ids[draw(|ids|)], ids[i]);
  }

  lemma {:induction false} IsolatedPollName(lb: MultiLoadBalancer, req: Request, rules: Rules, draw: int -> int, ids: seq<nat>, p: nat)
    requires lb.Valid() && IsRandom(draw) && rules.strategy == Some(Isolation) && rules.isolate && rules.group != ""
    requires req.forwardedFrom == "" && req.taskList.kind.Normal? && !(RESERVED_PREFIX <= req.taskList.name)
    requires var read := lb.provider.GetPartitionConfig(rules.mode, req.Key(), req.taskList.kind).readPartitions;
             DenseIds(read) && |read| != 1 && ids == PartitionsForGroup(rules.group, read) && ids != []
    requires var choice := lb.weighted.ChoiceBetween(req.Key(), ids, draw); p == if choice >= 0 then choice else ids[draw(|ids|)]
    ensures PolledName(lb, req, rules, draw) == PartitionName(req.taskList.name, p)
    ensures CountersAfterPoll(lb, req, rules, draw) == lb.roundRobin.caches
  {
    IsolatedChoiceIs(lb.provider.GetPartitionConfig(rules.mode, req.Key(), req.taskList.kind).readPartitions, rules.group,
                     lb.weighted.ChoiceBetween(req.Key(), ids, draw), draw, ids);
    PollWithChoice(lb, req, rules, draw, p);
  }

  /** With isolation, a poll goes to one of the partitions that accept its group: by weight among these where their
      weights allow it, and to each on exactly one draw where they do not. */
  lemma {:induction false} IsolatedPollsFollowBacklog(lb: MultiLoadBalancer, req: Request, rules: Rules, draw: int -> int, ids: seq<nat>, i: nat)
    requires lb.Valid() && IsRandom(draw) && rules.strategy == Some(Isolation) && rules.isolate && rules.group != ""
    requires req.forwardedFrom == "" && req.taskList.kind.Normal? && !(RESERVED_PREFIX <= req.taskList.name)
    requires var read := lb.provider.GetPartitionConfig(rules.mode, req.Key(), req.taskList.kind).readPartitions;
             DenseIds(read) && |read| != 1 && ids == PartitionsForGroup(rules.group, read) && i < |ids|
    ensures CountersAfterPoll(lb, req, rules, draw) == lb.roundRobin.caches
    ensures |ids| > 1 && lb.weighted.SelectsBetween(req.Key(), ids) ==>
              var ws := Selected(lb.weighted.weightCache[req.Key()].weights, ids);
              && NonNegative(ws) && Sum(ws) > 0 && |Draws(ws, i)| == lb.weighted.weightCache[req.Key()].weights[ids[i]]
              && (PolledName(lb, req, rules, draw) == PartitionName(req.taskList.name, ids[i]) <==> draw(Sum(ws)) in Draws(ws, i))
    ensures !(|ids| > 1 && lb.weighted.SelectsBetween(req.Key(), ids)) ==>
              (PolledName(lb, req, rules, draw) == PartitionName(req.taskList.name, ids[i]) <==> draw(|ids|) == i)
  {
    lb.weighted.ChoiceBetweenIsProportional(req.Key(), ids, draw, i);
    var choice := lb.weighted.ChoiceBetween(req.Key(), ids, draw);
    var p: nat := if choice >= 0 then choice else ids[draw(|ids|)];
    IsolatedPollName(lb, req, rules, draw, ids, p);
    SameRootInjective(req.taskList.name, p, ids[i]);
  }
}
