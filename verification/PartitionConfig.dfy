/** Task list partition configurations and the provider that caches the newest one seen per task list. */
module PartitionConfig {
  import opened Wrappers
  import opened TaskLists

  datatype Partition = Partition(isolationGroups: seq<string>)

  datatype Config = Config(version: int, readPartitions: map<int, Partition>, writePartitions: map<int, Partition>)

  /** What the domain lookup and the dynamic configuration say about a task list at the time of a call. */
  datatype Mode = UnknownDomain | Dynamic(nRead: int, nWrite: int) | Cached

  /** Partitions 0 to n-1, each open to every isolation group. */
  function Dense(n: int): (m: map<int, Partition>)
    ensures |m| == if n > 0 then n else 0
    ensures forall i :: i in m <==> 0 <= i < n
    ensures forall i :: i in m ==> m[i].isolationGroups == []
    decreases n
  {
    if n <= 0 then map[] else Dense(n - 1)[n - 1 := Partition([])]
  }

  function DefaultConfig(nRead: int, nWrite: int): Config {
    Config(0, Dense(nRead), Dense(nWrite))
  }

  function Min(a: int, b: int): int {
    if a < b then a else b
  }

  method CreatePartitions(n: int) returns (m: map<int, Partition>)
    ensures m == Dense(n)
  {
    m := map[];
    var i := 0;
    while i < n
      invariant 0 <= i && (if n > 0 then i <= n else i == 0) && m == Dense(i)
    {
      m := m[i := Partition([])];
      i := i + 1;
    }
  }

  class PartitionConfigProvider {
    var configCache: map<Key, Config>

    constructor ()
      ensures configCache == map[]
    {
      configCache := map[];
    }

    function GetPartitionConfig(mode: Mode, k: Key, kind: Kind): (c: Config)
      reads this
      ensures mode.Dynamic? ==> |c.writePartitions| <= |c.readPartitions|
    {
      match mode
      case UnknownDomain => DefaultConfig(1, 1)
      case Dynamic(nRead, nWrite) => DefaultConfig(nRead, Min(nWrite, nRead))
      case Cached => if kind.Normal? && k in configCache then configCache[k] else DefaultConfig(1, 1)
    }

    /** Where a configuration comes from: from the cache for normal lists that are cached, from the dynamic configuration
        with no more write than read partitions, and otherwise it has the one partition 0 for both. */
    lemma {:induction false} ConfigComesFrom(mode: Mode, k: Key, kind: Kind, c: Config)
      requires c == GetPartitionConfig(mode, k, kind)
      ensures mode.Cached? && kind.Normal? && k in configCache ==> c == configCache[k]
      ensures mode.Dynamic? ==>
                && c.version == 0 && (forall i :: i in c.readPartitions <==> 0 <= i < mode.nRead)
                && (forall i :: i in c.writePartitions <==> 0 <= i < mode.nRead && i < mode.nWrite)
      ensures mode.UnknownDomain? || (mode.Cached? && (!kind.Normal? || k !in configCache)) ==>
                c.version == 0 && c.readPartitions.Keys == {0} && c.writePartitions.Keys == {0}
    {
    }

    function GetNumberOfReadPartitions(mode: Mode, k: Key, kind: Kind): (n: nat)
      reads this
    {
      |GetPartitionConfig(mode, k, kind).readPartitions|
    }

    /** Never more than there are read partitions, whatever a cached configuration says. */
    function GetNumberOfWritePartitions(mode: Mode, k: Key, kind: Kind): (n: nat)
      reads this
      ensures n <= GetNumberOfReadPartitions(mode, k, kind)
      ensures n <= |GetPartitionConfig(mode, k, kind).writePartitions|
      ensures n == GetNumberOfReadPartitions(mode, k, kind) || n == |GetPartitionConfig(mode, k, kind).writePartitions|
    {
      var c := GetPartitionConfig(mode, k, kind);
      if |c.writePartitions| > |c.readPartitions| then |c.readPartitions| else |c.writePartitions|
    }

    /** Keeps the newer of the cached and the given configuration. */
    method UpdatePartitionConfig(k: Key, kind: Kind, config: Option<Config>)
      modifies this
      ensures configCache == CacheAfter(old(configCache), k, kind, config)
      ensures if config.Some? && kind.Normal? then KeepsNewest(old(configCache), configCache, k, config.value) else configCache == old(configCache)
    {
      if config.None? || !kind.Normal? {
        return;
      }
      if k !in configCache {
        configCache := configCache[k := config.value];
      }
      if configCache[k].version < config.value.version {
        configCache := configCache[k := config.value];
      }
    }

    method InvalidatePartitionCache(k: Key, kind: Kind)
      modifies this
      ensures configCache == if kind.Normal? then old(configCache) - {k} else old(configCache)
    {
      if kind.Normal? {
        configCache := configCache - {k};
      }
    }
  }

  /** The key holds the configuration of the higher version, the one cached before when they are equal, and no other
      key is touched. */
  ghost predicate KeepsNewest(before: map<Key, Config>, after: map<Key, Config>, k: Key, config: Config) {
    && k in after && after[k].version >= config.version
    && (if k in before then
          && after[k].version >= before[k].version
          && (after[k] == before[k] || (after[k] == config && config.version > before[k].version))
        else after[k] == config)
    && after.Keys == before.Keys + {k}
    && forall l :: l in before && l != k ==> after[l] == before[l]
  }

  function CacheAfter(cache: map<Key, Config>, k: Key, kind: Kind, config: Option<Config>): map<Key, Config> {
    if config.None? || !kind.Normal? || (k in cache && cache[k].version >= config.value.version) then cache
    else cache[k := config.value]
  }

  /** What an update leaves behind, and nothing else does: the newest configuration under its key. */
  lemma {:induction false} CacheAfterKeepsNewest(cache: map<Key, Config>, k: Key, config: Config, after: map<Key, Config>)
    ensures after == CacheAfter(cache, k, Normal, Some(config)) <==> KeepsNewest(cache, after, k, config)
  {
    var updated := CacheAfter(cache, k, Normal, Some(config));
    assert KeepsNewest(cache, updated, k, config);
    if KeepsNewest(cache, after, k, config) {
      assert after.Keys == updated.Keys;
    }
  }
}
