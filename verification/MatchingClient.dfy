/** The matching client: route, call, and feed the response back into the configuration cache and the weights. */
module MatchingClient {
  import opened Wrappers
  import opened Decimal
  import opened TaskLists
  import opened PartitionNames
  import opened PartitionConfig
  import opened RoundRobin
  import opened LoadBalancers

  /** The task list that a request points to; callers share it. */
  class TaskListRef {
    var name: string
    const kind: Kind

    constructor (name: string, kind: Kind)
      ensures this.name == name && this.kind == kind
    {
      this.name, this.kind := name, kind;
    }
  }

  /** An add or poll request. */
  class ClientRequest {
    const domainId: string
    const forwardedFrom: string
    var taskList: TaskListRef

    constructor (domainId: string, forwardedFrom: string, taskList: TaskListRef)
      ensures this.domainId == domainId && this.forwardedFrom == forwardedFrom && this.taskList == taskList
    {
      this.domainId, this.forwardedFrom, this.taskList := domainId, forwardedFrom, taskList;
    }

    /** The request as routing sees it. */
    function Routed(taskListType: int): Request
      reads this, taskList
    {
      Request(domainId, TaskList(taskList.name, taskList.kind), taskListType, forwardedFrom)
    }
  }

  /** What the dynamic configuration says while a call is routed. */
  datatype Settings = Settings(mode: Mode, strategy: Option<Strategy>, isolate: bool)

  datatype PollReply = PollFailed | Polled(config: Option<Config>, weight: Option<nat>)

  datatype AddReply = AddFailed | ReadOnlyPartition | Added(config: Option<Config>)

  /** The weights on file for the task list of a poll after the response from a partition, with `n` read partitions. */
  function LearntWeights(before: Option<seq<int>>, routed: Request, s: Settings, n: nat, partition: string, weight: Option<nat>): Option<seq<int>> {
    if UsesWeights(routed, s.strategy) then WeightsAfterReport(before, routed.taskList.name, n, partition, weight) else before
  }

  lemma {:induction false} LearntInItsSlot(
    before: Option<seq<int>>, routed: Request, s: Settings, n: nat, p: nat, partition: string, weight: Option<nat>)
    requires partition == PartitionName(routed.taskList.name, p)
    ensures !ReportPanics(routed.taskList.name, n, partition, weight)
    ensures weight.Some? && UsesWeights(routed, s.strategy) && p < n && 1 < n <= MAX_INT64 ==>
              var after := LearntWeights(before, routed, s, n, partition, weight);
              after.Some? && |after.value| == n && after.value[p] == weight.value
  {
    IndexOfName(routed.taskList.name, p);
    if weight.Some? && p < n && 1 < n <= MAX_INT64 {
      ReportLandsInItsSlot(before, routed.taskList.name, n, p, weight.value);
    }
  }

  /** A request that has been pointed to another task list of the same kind. */
  function Renamed(routed: Request, name: string): Request {
    routed.(taskList := routed.taskList.(name := name))
  }

  class Client {
    const provider: PartitionConfigProvider
    const balancer: MultiLoadBalancer

    ghost predicate Valid()
      reads balancer.weighted, balancer.weighted.weightCache.Values, balancer.roundRobin
    {
      balancer.provider == provider && balancer.Valid()
    }

    constructor ()
      ensures Valid() && fresh(provider) && fresh(balancer) && fresh(balancer.weighted) && fresh(balancer.roundRobin)
    {
      var p := new PartitionConfigProvider();
      var b := new MultiLoadBalancer(p);
      provider, balancer := p, b;
    }

    /** The weights on file for the task list cover `n` partitions, and slot `p` holds this weight. */
    ghost predicate HasWeight(k: Key, n: nat, p: nat, weight: int)
      reads balancer.weighted, balancer.weighted.weightCache.Values
    {
      var ws := balancer.weighted.WeightsOf(k);
      ws.Some? && |ws.value| == n && p < n && ws.value[p] == weight
    }

    /** Feeds a response from partition `p` back: the newer configuration stays cached, and the weight reported lands in
        the slot of partition `p` of that task list. */
    method Learn(routed: Request, s: Settings, ghost p: nat, partition: string, reply: PollReply)
      requires Valid() && reply.Polled? && partition == PartitionName(routed.taskList.name, p)
      modifies provider, balancer.weighted, balancer.weighted.weightCache.Values
      ensures Valid()
      ensures provider.configCache == CacheAfter(old(provider.configCache), routed.Key(), routed.taskList.kind, reply.config)
      ensures balancer.weighted.WeightsOf(routed.Key()) ==
                LearntWeights(old(balancer.weighted.WeightsOf(routed.Key())), routed, s,
                              provider.GetNumberOfReadPartitions(s.mode, routed.Key(), routed.taskList.kind), partition, reply.weight)
      ensures forall l :: l != routed.Key() ==> balancer.weighted.WeightsOf(l) == old(balancer.weighted.WeightsOf(l))
      ensures var n := provider.GetNumberOfReadPartitions(s.mode, routed.Key(), routed.taskList.kind);
              reply.weight.Some? && UsesWeights(routed, s.strategy) && p < n && 1 < n <= MAX_INT64 ==>
                HasWeight(routed.Key(), n, p, reply.weight.value)
    {
      ghost var before := balancer.weighted.WeightsOf(routed.Key());
      provider.UpdatePartitionConfig(routed.Key(), routed.taskList.kind, reply.config);
      LearntInItsSlot(before, routed, s, provider.GetNumberOfReadPartitions(s.mode, routed.Key(), routed.taskList.kind), p, partition, reply.weight);
      var panicked := balancer.UpdateWeight(routed, s.mode, s.strategy, partition, reply.weight);
      assert !panicked;
    }

    /** The partition that a poll is routed to. */
    ghost function ReadPartition(routed: Request, s: Settings, group: string, draw: int -> int): nat
      requires Valid() && IsRandom(draw)
      reads provider, balancer.weighted, balancer.weighted.weightCache.Values, balancer.roundRobin
    {
      RoutedPartition(balancer.ReadChoice(routed, s.mode, s.strategy, s.isolate, group, draw), balancer.roundRobin.caches,
        Read, routed.Key(), provider.GetNumberOfReadPartitions(s.mode, routed.Key(), routed.taskList.kind))
    }

    ghost function WritePartition(routed: Request, s: Settings, group: Option<string>, draw: int -> int): nat
      requires Valid() && IsRandom(draw)
      reads provider, balancer.weighted, balancer.weighted.weightCache.Values, balancer.roundRobin
    {
      RoutedPartition(balancer.WriteChoice(routed, s.mode, s.strategy, s.isolate, group, draw), balancer.roundRobin.caches,
        Write, routed.Key(), provider.GetNumberOfWritePartitions(s.mode, routed.Key(), routed.taskList.kind))
    }

    /** What routing does to the round-robin counters. */
    ghost function ReadCaches(routed: Request, s: Settings, group: string, draw: int -> int): Caches
      requires Valid() && IsRandom(draw)
      reads provider, balancer.weighted, balancer.weighted.weightCache.Values, balancer.roundRobin
    {
      RoutedCaches(balancer.ReadChoice(routed, s.mode, s.strategy, s.isolate, group, draw), balancer.roundRobin.caches,
        Read, routed.Key(), provider.GetNumberOfReadPartitions(s.mode, routed.Key(), routed.taskList.kind))
    }

    ghost function WriteCaches(routed: Request, s: Settings, group: Option<string>, draw: int -> int): Caches
      requires Valid() && IsRandom(draw)
      reads provider, balancer.weighted, balancer.weighted.weightCache.Values, balancer.roundRobin
    {
      RoutedCaches(balancer.WriteChoice(routed, s.mode, s.strategy, s.isolate, group, draw), balancer.roundRobin.caches,
        Write, routed.Key(), provider.GetNumberOfWritePartitions(s.mode, routed.Key(), routed.taskList.kind))
    }

    /** Routes a poll and points the request to the partition, keeping the caller's task list at hand. */
    method RoutePoll(request: ClientRequest, routed: Request, s: Settings, group: string, draw: int -> int) returns (partition: string, ghost p: nat)
      requires Valid() && IsRandom(draw) && routed == request.Routed(routed.taskListType)
      requires s.strategy == Some(Isolation) && s.isolate ==> DenseIds(provider.GetPartitionConfig(s.mode, routed.Key(), routed.taskList.kind).readPartitions)
      modifies request, balancer.roundRobin
      ensures Valid()
      ensures p == old(ReadPartition(routed, s, group, draw)) && balancer.roundRobin.caches == old(ReadCaches(routed, s, group, draw))
      ensures partition == PartitionName(routed.taskList.name, p)
      ensures fresh(request.taskList) && request.taskList.name == partition && request.taskList.kind == routed.taskList.kind
    {
      p := ReadPartition(routed, s, group, draw);
      partition := balancer.PickReadPartition(routed, s.mode, s.strategy, s.isolate, group, draw);
      request.taskList := new TaskListRef(partition, routed.taskList.kind);
    }

    /** Gives the caller's task list back, feeds the response back, and renames the list to the partition. */
    method Settle(request: ClientRequest, original: TaskListRef, routed: Request, s: Settings, ghost p: nat, partition: string, reply: PollReply)
      requires Valid() && reply.Polled? && partition == PartitionName(routed.taskList.name, p)
      modifies request, original, provider, balancer.weighted, balancer.weighted.weightCache.Values
      ensures Valid() && request.taskList == original && original.name == partition
      ensures provider.configCache == CacheAfter(old(provider.configCache), routed.Key(), routed.taskList.kind, reply.config)
      ensures forall l :: l != routed.Key() ==> balancer.weighted.WeightsOf(l) == old(balancer.weighted.WeightsOf(l))
      ensures var n := provider.GetNumberOfReadPartitions(s.mode, routed.Key(), routed.taskList.kind);
              && balancer.weighted.WeightsOf(routed.Key()) ==
                   LearntWeights(old(balancer.weighted.WeightsOf(routed.Key())), routed, s, n, partition, reply.weight)
              && (reply.weight.Some? && UsesWeights(routed, s.strategy) && p < n && 1 < n <= MAX_INT64 ==>
                    HasWeight(routed.Key(), n, p, reply.weight.value))
    {
      request.taskList := original;
      Learn(routed, s, p, partition, reply);
      original.name := partition;
    }

    /** Polls for an activity or decision task. A failed call leaves the request pointing to the partition; a
        successful one restores the caller's task list and then renames it, on purpose, to the partition polled. */
    method Poll(request: ClientRequest, taskListType: int, s: Settings, later: Settings, group: string, draw: int -> int, reply: PollReply)
      returns (partition: string, ghost p: nat)
      requires Valid() && IsRandom(draw)
      requires s.strategy == Some(Isolation) && s.isolate ==> DenseIds(provider.GetPartitionConfig(s.mode, request.Routed(taskListType).Key(), request.taskList.kind).readPartitions)
      modifies request, request.taskList, provider, balancer.weighted, balancer.weighted.weightCache.Values, balancer.roundRobin
      ensures Valid()
      ensures partition == PartitionName(old(request.taskList.name), p)
      ensures p == old(ReadPartition(request.Routed(taskListType), s, group, draw))
      ensures balancer.roundRobin.caches == old(ReadCaches(request.Routed(taskListType), s, group, draw))
      ensures reply.PollFailed? ==> fresh(request.taskList) && request.Routed(taskListType) == Renamed(old(request.Routed(taskListType)), partition)
      ensures reply.PollFailed? ==> old(request.taskList).name == old(request.taskList.name) && provider.configCache == old(provider.configCache)
      ensures reply.PollFailed? ==> forall l :: balancer.weighted.WeightsOf(l) == old(balancer.weighted.WeightsOf(l))
      ensures reply.Polled? ==> request.taskList == old(request.taskList) && request.taskList.name == partition
      ensures reply.Polled? ==>
                provider.configCache == CacheAfter(old(provider.configCache), old(request.Routed(taskListType).Key()), old(request.taskList.kind), reply.config)
      ensures reply.Polled? ==>
                forall l :: l != old(request.Routed(taskListType).Key()) ==> balancer.weighted.WeightsOf(l) == old(balancer.weighted.WeightsOf(l))
      ensures reply.Polled? ==>
                var routed := old(request.Routed(taskListType));
                var n := provider.GetNumberOfReadPartitions(later.mode, routed.Key(), routed.taskList.kind);
                && balancer.weighted.WeightsOf(routed.Key()) ==
                     LearntWeights(old(balancer.weighted.WeightsOf(request.Routed(taskListType).Key())), routed, later, n, partition, reply.weight)
                && (reply.weight.Some? && UsesWeights(routed, later.strategy) && p < n && 1 < n <= MAX_INT64 ==>
                      HasWeight(routed.Key(), n, p, reply.weight.value))
    {
      var routed := request.Routed(taskListType);
      var original := request.taskList;
      partition, p := RoutePoll(request, routed, s, group, draw);
      if reply.PollFailed? {
        return;
      }
      Settle(request, original, routed, later, p, partition, reply);
    }

    /** Routes a task to be added in the same way. */
    method RouteAdd(request: ClientRequest, routed: Request, s: Settings, group: Option<string>, draw: int -> int) returns (partition: string, ghost p: nat)
      requires Valid() && IsRandom(draw) && routed == request.Routed(routed.taskListType)
      requires s.strategy == Some(Isolation) && s.isolate ==> DenseIds(provider.GetPartitionConfig(s.mode, routed.Key(), routed.taskList.kind).writePartitions)
      modifies request, balancer.roundRobin
      ensures Valid()
      ensures p == old(WritePartition(routed, s, group, draw)) && balancer.roundRobin.caches == old(WriteCaches(routed, s, group, draw))
      ensures partition == PartitionName(routed.taskList.name, p)
      ensures fresh(request.taskList) && request.taskList.name == partition && request.taskList.kind == routed.taskList.kind
    {
      p := WritePartition(routed, s, group, draw);
      partition := balancer.PickWritePartition(routed, s.mode, s.strategy, s.isolate, group, draw);
      request.taskList := new TaskListRef(partition, routed.taskList.kind);
    }

    /** Adds an activity or decision task. Only a successful call restores the caller's task list; a partition that
        turns out to be read-only makes the client forget the configuration. */
    method Add(request: ClientRequest, taskListType: int, s: Settings, group: Option<string>, draw: int -> int, reply: AddReply)
      returns (partition: string, ghost p: nat)
      requires Valid() && IsRandom(draw)
      requires s.strategy == Some(Isolation) && s.isolate ==> DenseIds(provider.GetPartitionConfig(s.mode, request.Routed(taskListType).Key(), request.taskList.kind).writePartitions)
      modifies request, provider, balancer.roundRobin
      ensures Valid()
      ensures partition == PartitionName(old(request.taskList.name), p) && p == old(WritePartition(request.Routed(taskListType), s, group, draw))
      ensures balancer.roundRobin.caches == old(WriteCaches(request.Routed(taskListType), s, group, draw))
      ensures if reply.Added? then request.taskList == old(request.taskList)
              else fresh(request.taskList) && request.Routed(taskListType) == Renamed(old(request.Routed(taskListType)), partition)
      ensures var k, kind := old(request.Routed(taskListType).Key()), old(request.taskList.kind);
              provider.configCache ==
                match reply
                case AddFailed => old(provider.configCache)
                case ReadOnlyPartition => if kind.Normal? then old(provider.configCache) - {k} else old(provider.configCache)
                case Added(config) => CacheAfter(old(provider.configCache), k, kind, config)
    {
      var routed := request.Routed(taskListType);
      var original := request.taskList;
      partition, p := RouteAdd(request, routed, s, group, draw);
      if reply.ReadOnlyPartition? {
        provider.InvalidatePartitionCache(routed.Key(), original.kind);
      }
      if !reply.Added? {
        return;
      }
      request.taskList := original;
      provider.UpdatePartitionConfig(routed.Key(), original.kind, reply.config);
    }

    /** A forgotten configuration sends the next write to the root of the list that its request names, under every
        strategy. */
    lemma {:induction false} ForgottenRoutesToRoot(routed: Request, s: Settings, group: Option<string>, draw: int -> int)
      requires Valid() && IsRandom(draw) && s.mode == Cached && routed.Key() !in provider.configCache
      ensures WritePartition(routed, s, group, draw) == 0
    {
    }

    /** A failed call leaves the request pointing to the partition, so calling again with the same request stays there,
        whatever the configuration says by then: only a request that was sent to the root is balanced anew. */
    lemma {:induction false} RetryStays(
      routed: Request, p: nat, s: Settings, writeGroup: Option<string>, readGroup: string, draw: int -> int, again: Request)
      requires Valid() && IsRandom(draw) && again == Renamed(routed, PartitionName(routed.taskList.name, p))
      ensures p > 0 ==> WritePartition(again, s, writeGroup, draw) == 0 && ReadPartition(again, s, readGroup, draw) == 0
      ensures p > 0 ==> PartitionName(again.taskList.name, 0) == PartitionName(routed.taskList.name, p)
      ensures p > 0 ==> WriteCaches(again, s, writeGroup, draw) == ReadCaches(again, s, readGroup, draw) == balancer.roundRobin.caches
      ensures p == 0 ==> again == routed
    {
      assert p > 0 ==> RESERVED_PREFIX <= again.taskList.name;
    }
  }
}
