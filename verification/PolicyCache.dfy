/** The active-cluster manager: looking up the cluster selection policy of a workflow run through a cache. */
module PolicyCache {
  import opened Wrappers
  import Runs

  datatype ClusterAttribute = ClusterAttribute(scope: string, name: string)

  datatype Policy = Policy(attribute: Option<ClusterAttribute>)

  datatype RunId = RunId(domain: string, workflow: string, run: string)

  datatype Error = EntityNotExists | StoreFault | AttributeNotFound

  /** The execution store: the current run of each workflow, and the policies recorded for runs. */
  datatype Store = Store(current: map<(string, string), string>, policies: map<RunId, Policy>)

  /** Which of the store's reads fail during a lookup. */
  datatype Faults = Faults(current: bool, policy: bool)

  /** The cache key of a run. */
  function CacheKey(id: RunId): string {
    id.domain + ":" + id.workflow + ":" + id.run
  }

  /** Domain and run ids do not contain the separator; workflow ids may. */
  predicate Plain(id: RunId) {
    ':' !in id.domain && ':' !in id.run
  }

  lemma {:induction false} SplitFirst(a: string, b: string, c: string, d: string)
    requires a + ":" + b == c + ":" + d && ':' !in a && ':' !in c
    ensures a == c && b == d
  {
    var s := a + ":" + b;
    assert s[|a|] == ':' && s[|c|] == ':' && s[..|a|] == a && s[..|c|] == c;
    assert |a| == |c|;
    assert b == s[|a| + 1..] && d == s[|c| + 1..];
  }

  lemma {:induction false} SplitLast(a: string, b: string, c: string, d: string)
    requires a + ":" + b == c + ":" + d && ':' !in b && ':' !in d
    ensures a == c && b == d
  {
    var s := a + ":" + b;
    assert s[|a|] == ':' && s[|c|] == ':' && s[|a| + 1..] == b && s[|c| + 1..] == d;
    assert |a| == |c|;
    assert a == s[..|a|] && c == s[..|c|];
  }

  /** Different runs have different keys, whatever their workflow ids contain. */
  lemma {:induction false} CacheKeyInjective(x: RunId, y: RunId)
    requires Plain(x) && Plain(y) && CacheKey(x) == CacheKey(y)
    ensures x == y
  {
    SplitLast(x.domain + ":" + x.workflow, x.run, y.domain + ":" + y.workflow, y.run);
    SplitFirst(x.domain, x.workflow, y.domain, y.workflow);
  }

  // Which domain and run ids let keys collide

  predicate Collide(x: RunId, y: RunId) {
    x != y && CacheKey(x) == CacheKey(y)
  }

  predicate IsSuffix(a: string, b: string) {
    |a| <= |b| && b[|b| - |a|..] == a
  }

  /** The two domain ids can both start a key, and the two run ids can both end it. */
  predicate Entangled(d1: string, r1: string, d2: string, r2: string) {
    && (d1, r1) != (d2, r2)
    && (d1 + ":" <= d2 + ":" || d2 + ":" <= d1 + ":")
    && (IsSuffix(":" + r1, ":" + r2) || IsSuffix(":" + r2, ":" + r1))
  }

  lemma {:induction false} KeyParts(x: RunId)
    ensures x.domain + ":" <= CacheKey(x) && IsSuffix(":" + x.run, CacheKey(x))
    ensures CacheKey(x) == (x.domain + ":") + x.workflow + (":" + x.run)
  {
    var key := CacheKey(x);
    assert key == (x.domain + ":") + (x.workflow + ":" + x.run);
    assert key == (x.domain + ":" + x.workflow) + (":" + x.run);
  }

  lemma {:induction false} PrefixesCompare(a: string, b: string, key: string)
    requires a <= key && b <= key
    ensures a <= b || b <= a
  {
    assert a == key[..|a|] && b == key[..|b|];
  }

  lemma {:induction false} SuffixesCompare(a: string, b: string, key: string)
    requires IsSuffix(a, key) && IsSuffix(b, key)
    ensures IsSuffix(a, b) || IsSuffix(b, a)
  {
    var n := |key|;
    if |a| <= |b| {
      assert key[n - |b|..][|b| - |a|..] == key[n - |a|..];
    } else {
      assert key[n - |a|..][|a| - |b|..] == key[n - |b|..];
    }
  }

  lemma {:induction false} SameEnds(x: RunId, y: RunId)
    requires x.domain == y.domain && x.run == y.run && CacheKey(x) == CacheKey(y)
    ensures x == y
  {
    var from, to := |x.domain| + 1, |CacheKey(x)| - |x.run| - 1;
    assert x.workflow == CacheKey(x)[from..to] && y.workflow == CacheKey(y)[from..to];
  }

  lemma {:induction false} CollisionEntangles(x: RunId, y: RunId)
    requires Collide(x, y)
    ensures Entangled(x.domain, x.run, y.domain, y.run)
  {
    KeyParts(x);
    KeyParts(y);
    PrefixesCompare(x.domain + ":", y.domain + ":", CacheKey(x));
    SuffixesCompare(":" + x.run, ":" + y.run, CacheKey(x));
    if x.domain == y.domain && x.run == y.run {
      SameEnds(x, y);
    }
  }

  lemma {:induction false} LongerDomain(d1: string, d2: string) returns (a: string)
    requires d1 + ":" <= d2 + ":" && d1 != d2
    ensures d2 == d1 + ":" + a
  {
    var short, long := d1 + ":", d2 + ":";
    assert d1 == long[..|d1|] && d2 == long[..|d2|];
    assert short == long[..|short|] && d2[..|short|] == long[..|short|];
    a := d2[|short|..];
  }

  lemma {:induction false} LongerRun(r1: string, r2: string) returns (b: string)
    requires IsSuffix(":" + r1, ":" + r2) && r1 != r2
    ensures r2 == b + ":" + r1
  {
    var short, long := ":" + r1, ":" + r2;
    var n := |r2| - |r1|;
    assert r1 == short[1..] && r2 == long[1..];
    assert long[n..] == short && long[n..][1..] == long[n + 1..];
    b := long[1..n];
    assert long == ":" + b + long[n..];
  }

  /** Workflow ids that make the keys of the two runs meet, where the second domain id is the first or extends it. */
  lemma {:induction false} EntangledCollide(d1: string, r1: string, d2: string, r2: string) returns (w1: string, w2: string)
    requires Entangled(d1, r1, d2, r2) && d1 + ":" <= d2 + ":"
    ensures Collide(RunId(d1, w1, r1), RunId(d2, w2, r2))
  {
    var sameDomain, sameRun := d1 == d2, r1 == r2;
    var a := "";
    if !sameDomain {
      a := LongerDomain(d1, d2);
    }
    if sameRun {
      w1, w2 := a + ":", "";
    } else if IsSuffix(":" + r1, ":" + r2) {
      var b := LongerRun(r1, r2);
      w1, w2 := if sameDomain then ":" + b else a + "::" + b, "";
    } else {
      var b := LongerRun(r2, r1);
      w1, w2 := a, if sameDomain then ":" + b else b;
    }
    assert CacheKey(RunId(d1, w1, r1)) == CacheKey(RunId(d2, w2, r2));
  }

  /** The exact condition, on domain and run ids alone: some workflow ids give the two runs, different as they are,
      the same key. */
  lemma {:induction false} KeysCollideExactly(d1: string, r1: string, d2: string, r2: string)
    ensures (exists w1, w2 :: Collide(RunId(d1, w1, r1), RunId(d2, w2, r2))) <==> Entangled(d1, r1, d2, r2)
  {
    if w1, w2 :| Collide(RunId(d1, w1, r1), RunId(d2, w2, r2)) {
      CollisionEntangles(RunId(d1, w1, r1), RunId(d2, w2, r2));
    }
    if Entangled(d1, r1, d2, r2) {
      if d1 + ":" <= d2 + ":" {
        var w1, w2 := EntangledCollide(d1, r1, d2, r2);
      } else {
        var w2, w1 := EntangledCollide(d2, r2, d1, r1);
        assert Collide(RunId(d1, w1, r1), RunId(d2, w2, r2));
      }
    }
  }

  /** The simplest case: a separator in the domain id is mistaken for the one before the workflow id. */
  lemma {:induction false} SeparatorInDomainCollides(a: string, b: string, workflow: string, run: string)
    ensures Collide(RunId(a + ":" + b, workflow, run), RunId(a, b + ":" + workflow, run))
  {
    assert |a + ":" + b| != |a|;
    assert CacheKey(RunId(a + ":" + b, workflow, run)) == CacheKey(RunId(a, b + ":" + workflow, run));
  }

  // One lookup

  /** The run that is meant: the one given, or else the current one. */
  function MeantRun(store: Store, id: RunId, faults: Faults): Result<RunId, Error> {
    if id.run != "" then Success(id)
    else if faults.current then Failure(StoreFault)
    else if (id.domain, id.workflow) in store.current then Success(id.(run := store.current[(id.domain, id.workflow)]))
    else Failure(EntityNotExists)
  }

  function ReadPolicy(store: Store, id: RunId, faults: Faults): Result<Policy, Error> {
    if faults.policy then Failure(StoreFault)
    else if id in store.policies then Success(store.policies[id])
    else Failure(EntityNotExists)
  }

  /** What the store says, with no cache in between. */
  function Direct(store: Store, id: RunId, faults: Faults): Result<Policy, Error> {
    match MeantRun(store, id, faults)
    case Failure(e) => Failure(e)
    case Success(run) => ReadPolicy(store, run, faults)
  }

  const NO_FAULTS := Faults(false, false)

  /** Everything cached is what the store holds for the run. */
  ghost predicate Coherent(cache: map<string, Policy>, store: Store) {
    forall id :: Plain(id) && CacheKey(id) in cache ==> id in store.policies && cache[CacheKey(id)] == store.policies[id]
  }

  /** The ids in the store are well formed. */
  ghost predicate PlainStore(store: Store) {
    forall w :: w in store.current ==> ':' !in store.current[w]
  }

  /** The outcome of a lookup and the cache it leaves behind. */
  function Lookup(cache: map<string, Policy>, store: Store, id: RunId, faults: Faults): (Result<Policy, Error>, map<string, Policy>) {
    match MeantRun(store, id, faults)
    case Failure(e) => (Failure(e), cache)
    case Success(run) =>
      var key := CacheKey(run);
      if key in cache then (Success(cache[key]), cache)
      else
        var read := ReadPolicy(store, run, faults);
        (read, if read.Success? then cache[key := read.value] else cache)
  }

  lemma {:induction false} LookupIsTransparent(cache: map<string, Policy>, store: Store, id: RunId, faults: Faults)
    requires Coherent(cache, store) && PlainStore(store) && Plain(id)
    ensures var (result, after) := Lookup(cache, store, id, faults);
            && Coherent(after, store)
            && (result.Success? ==> result == Direct(store, id, NO_FAULTS))
            && (result.Failure? ==> after == cache && result == Direct(store, id, faults))
            && (faults == NO_FAULTS ==> result == Direct(store, id, NO_FAULTS))
  {
    var run := MeantRun(store, id, faults);
    if run.Success? && CacheKey(run.value) !in cache && ReadPolicy(store, run.value, faults).Success? {
      forall x | Plain(x) && CacheKey(x) == CacheKey(run.value)
        ensures x == run.value
      {
        CacheKeyInjective(x, run.value);
      }
    }
  }

  /** What the store records for a run. */
  ghost predicate Records(store: Store, id: RunId, r: Result<Policy, Error>) {
    r == if id in store.policies then Success(store.policies[id]) else Failure(EntityNotExists)
  }

  /** What the store says about a workflow: about the run that is given, whatever run is current, and about the current
      run when none is given. */
  ghost predicate StoreSays(store: Store, id: RunId, r: Result<Policy, Error>) {
    if id.run != "" then Records(store, id, r)
    else if (id.domain, id.workflow) in store.current then
      Records(store, RunId(id.domain, id.workflow, store.current[(id.domain, id.workflow)]), r)
    else r == Failure(EntityNotExists)
  }

  /** A fault of the store can get in the way: always of reading a policy, and of reading the current run where it is
      needed. */
  predicate CanFail(id: RunId, faults: Faults) {
    faults.policy || (id.run == "" && faults.current)
  }

  lemma {:induction false} DirectReadsTheStore(store: Store, id: RunId, faults: Faults)
    ensures StoreSays(store, id, Direct(store, id, NO_FAULTS))
    ensures Direct(store, id, faults) == Failure(StoreFault) ==> CanFail(id, faults)
    ensures StoreSays(store, id, Direct(store, id, faults)) || Direct(store, id, faults) == Failure(StoreFault)
  {
  }

  /** A lookup through a coherent cache tells what the store says, unless a fault of the store gets in the way. */
  lemma {:induction false} LookupTellsTheStore(cache: map<string, Policy>, store: Store, id: RunId, faults: Faults)
    requires Coherent(cache, store) && PlainStore(store) && Plain(id)
    ensures var r := Lookup(cache, store, id, faults).0;
            StoreSays(store, id, r) || (r == Failure(StoreFault) && CanFail(id, faults))
  {
    LookupIsTransparent(cache, store, id, faults);
    DirectReadsTheStore(store, id, faults);
  }

  /** Once a run's policy has been looked up, looking it up again does not need the store: it gives the same policy
      whatever the store holds and however it fails. */
  lemma {:induction false} SecondLookupIsCached(cache: map<string, Policy>, store: Store, store': Store, id: RunId, faults: Faults, faults': Faults)
    requires id.run != "" && Lookup(cache, store, id, faults).0.Success?
    ensures var (r, after) := Lookup(cache, store, id, faults);
            Lookup(after, store', id, faults') == (r, after)
  {
  }

  // Whole runs

  /** A lookup, the loss of a cache entry, or a change of the store behind the cache. */
  datatype Action = Look(id: RunId, faults: Faults, result: Result<Policy, Error>) | Evict(key: string) | Write(store: Store)

  datatype World = World(cache: map<string, Policy>, store: Store)

  datatype Step = Step(action: Action, after: World)

  /** The store may start and finish runs and record policies; a recorded policy does not change. */
  ghost predicate Extends(store: Store, next: Store) {
    PlainStore(next) && forall id :: id in store.policies ==> id in next.policies && next.policies[id] == store.policies[id]
  }

  ghost predicate Next(w: World, step: Step) {
    match step.action
    case Look(id, faults, result) =>
      Plain(id) && step.after.store == w.store && (result, step.after.cache) == Lookup(w.cache, w.store, id, faults)
    case Evict(key) => step.after == w.(cache := w.cache - {key})
    case Write(store) => Extends(w.store, store) && step.after == w.(store := store)
  }

  ghost function After(): Step -> World {
    (step: Step) => step.after
  }

  ghost predicate Sound(w: World) {
    Coherent(w.cache, w.store) && PlainStore(w.store)
  }

  lemma {:induction false} NextSound(w: World, step: Step)
    requires Sound(w) && Next(w, step)
    ensures Sound(step.after)
    ensures step.action.Look? && step.action.result.Success? ==> step.action.result == Direct(w.store, step.action.id, NO_FAULTS)
    ensures step.action.Look? && step.action.result.Failure? ==> step.after == w
  {
    if step.action.Look? {
      LookupIsTransparent(w.cache, w.store, step.action.id, step.action.faults);
    }
  }

  /** Over any run of lookups, evictions and changes of the store, every successful lookup returns what a direct read
      of the store would have returned at that moment, and unsuccessful ones leave nothing in the cache. */
  lemma {:induction false} CacheIsTransparent(w: World, steps: seq<Step>, i: nat)
    requires w.cache == map[] && PlainStore(w.store)
    requires Runs.IsRun(Next, After(), w, steps) && i < |steps| && steps[i].action.Look?
    ensures var before := Runs.StateAt(w, steps, After(), i);
            if steps[i].action.result.Success? then
              steps[i].action.result == Direct(before.store, steps[i].action.id, NO_FAULTS) && StoreSays(before.store, steps[i].action.id, steps[i].action.result)
            else steps[i].after == before
  {
    forall x: World, t: Step | Sound(x) && Next(x, t)
      ensures Sound(After()(t))
    {
      NextSound(x, t);
    }
    Runs.InvariantHolds(Sound, Next, After(), w, steps, i);
    NextSound(Runs.StateAt(w, steps, After(), i), steps[i]);
    DirectReadsTheStore(Runs.StateAt(w, steps, After(), i).store, steps[i].action.id, NO_FAULTS);
  }

  // The manager

  datatype ClusterInfo = ClusterInfo(name: string, failoverVersion: int)

  /** A domain, as far as the manager looks at it. */
  datatype Domain = Domain(activeActive: bool, active: ClusterInfo, attributes: map<ClusterAttribute, ClusterInfo>)

  function ByAttribute(d: Domain, attribute: Option<ClusterAttribute>): Result<ClusterInfo, Error> {
    if attribute.None? then Success(d.active)
    else if attribute.value in d.attributes then Success(d.attributes[attribute.value])
    else Failure(AttributeNotFound)
  }

  /** The active cluster of a workflow, worked out from the store directly. */
  function DirectInfo(d: Domain, store: Store, id: RunId): Result<ClusterInfo, Error> {
    if !d.activeActive then Success(d.active)
    else
      match Direct(store, id, NO_FAULTS)
      case Success(policy) => ByAttribute(d, policy.attribute)
      case Failure(_) => Success(d.active)
  }

  /** The active cluster of a workflow, said on the maps of the store and of the domain: the domain's own cluster, unless
      the domain is active-active and the store records a policy with an attribute, whose cluster it then is. */
  ghost predicate IsActive(d: Domain, store: Store, id: RunId, r: Result<ClusterInfo, Error>) {
    if d.activeActive && exists a :: StoreSays(store, id, Success(Policy(Some(a)))) then
      exists a :: StoreSays(store, id, Success(Policy(Some(a)))) &&
        r == if a in d.attributes then Success(d.attributes[a]) else Failure(AttributeNotFound)
    else r == Success(d.active)
  }

  lemma {:induction false} DirectInfoIsActive(d: Domain, store: Store, id: RunId)
    ensures IsActive(d, store, id, DirectInfo(d, store, id))
  {
    DirectReadsTheStore(store, id, NO_FAULTS);
    var policy := Direct(store, id, NO_FAULTS);
    if policy.Success? && policy.value.attribute.Some? {
      var a := policy.value.attribute.value;
      assert policy.value == Policy(Some(a));
      assert StoreSays(store, id, Success(Policy(Some(a))));
    }
  }

  class ActiveClusterManager {
    var cache: map<string, Policy>

    constructor ()
      ensures cache == map[]
    {
      cache := map[];
    }

    method GetClusterSelectionPolicy(store: Store, id: RunId, faults: Faults) returns (r: Result<Policy, Error>)
      modifies this
      ensures (r, cache) == Lookup(old(cache), store, id, faults)
      ensures old(Coherent(cache, store)) && PlainStore(store) && Plain(id) ==>
                StoreSays(store, id, r) || (r == Failure(StoreFault) && CanFail(id, faults))
    {
      if Coherent(cache, store) && PlainStore(store) && Plain(id) {
        LookupTellsTheStore(cache, store, id, faults);
      }
      var run := MeantRun(store, id, faults);
      if run.Failure? {
        return Failure(run.error);
      }
      var key := CacheKey(run.value);
      if key in cache {
        return Success(cache[key]);
      }
      r := ReadPolicy(store, run.value, faults);
      if r.Success? {
        cache := cache[key := r.value];
      }
    }

    /** With a coherent cache: unless the store fails, the active cluster is the one the store's own policy selects. */
    method GetActiveClusterInfoByWorkflow(d: Domain, store: Store, id: RunId, faults: Faults) returns (r: Result<ClusterInfo, Error>)
      requires Coherent(cache, store) && PlainStore(store) && Plain(id)
      modifies this
      ensures Coherent(cache, store)
      ensures r == DirectInfo(d, store, id) || (r == Failure(StoreFault) && d.activeActive && CanFail(id, faults))
      ensures IsActive(d, store, id, r) || (r == Failure(StoreFault) && d.activeActive && CanFail(id, faults))
      ensures !d.activeActive ==> cache == old(cache)
    {
      DirectInfoIsActive(d, store, id);
      DirectReadsTheStore(store, id, faults);
      if !d.activeActive {
        return Success(d.active);
      }
      LookupIsTransparent(cache, store, id, faults);
      var policy := GetClusterSelectionPolicy(store, id, faults);
      if policy.Failure? && policy.error != EntityNotExists {
        return Failure(policy.error);
      }
      r := ByAttribute(d, if policy.Success? then policy.value.attribute else None);
    }

    /** The policy itself; none for a domain that is not active-active and for a run without one. */
    method GetActiveClusterSelectionPolicyForWorkflow(d: Domain, store: Store, id: RunId, faults: Faults)
      returns (r: Result<Option<Policy>, Error>)
      requires Coherent(cache, store) && PlainStore(store) && Plain(id)
      modifies this
      ensures Coherent(cache, store)
      ensures r.Failure? ==> r.error == StoreFault && d.activeActive && CanFail(id, faults)
      ensures r.Success? && d.activeActive ==> StoreSays(store, id, if r.value.Some? then Success(r.value.value) else Failure(EntityNotExists))
      ensures r.Success? && !d.activeActive ==> r.value == None
    {
      if !d.activeActive {
        return Success(None);
      }
      LookupIsTransparent(cache, store, id, faults);
      var policy := GetClusterSelectionPolicy(store, id, faults);
      if policy.Failure? && policy.error != EntityNotExists {
        return Failure(policy.error);
      }
      r := Success(if policy.Success? then Some(policy.value) else None);
    }
  }
}
