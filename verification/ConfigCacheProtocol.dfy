/** Concurrent updates of the partition configuration cache, one atomic step of one updater at a time.

    The cache holds references to cells; an updater that holds a reference writes to that cell even when the cache
    has dropped it in the meantime. */
module ConfigCacheProtocol {
  import opened Wrappers
  import opened PartitionConfig
  import opened TaskLists
  import Runs

  /** A cached configuration behind its lock, with the key it was created for. */
  datatype Cell = Cell(owner: Key, config: Config)

  datatype Phase = Start | Missed | Holding(cell: nat) | Finished

  datatype Updater = Updater(key: Key, config: Config, phase: Phase)

  datatype State = State(cells: seq<Cell>, cache: map<Key, nat>, updaters: seq<Updater>)

  datatype Action = Get(i: nat) | PutIfNotExist(i: nat) | Compare(i: nat) | Delete(key: Key)

  datatype Step = Step(action: Action, after: State)

  ghost function After(): Step -> State {
    (step: Step) => step.after
  }

  function SetPhase(s: State, i: nat, phase: Phase): State
    requires i < |s.updaters|
  {
    s.(updaters := s.updaters[i := s.updaters[i].(phase := phase)])
  }

  /** One atomic action: the lookup, the conditional insert, the compare-and-replace under the cell's lock, or the
      disappearance of an entry through invalidation or eviction. */
  ghost predicate Next(s: State, a: Action, t: State) {
    match a
    case Get(i) =>
      && i < |s.updaters| && s.updaters[i].phase == Start
      && var k := s.updaters[i].key;
         t == SetPhase(s, i, if k in s.cache then Holding(s.cache[k]) else Missed)
    case PutIfNotExist(i) =>
      && i < |s.updaters| && s.updaters[i].phase == Missed
      && var u := s.updaters[i];
         if u.key in s.cache then t == SetPhase(s, i, Holding(s.cache[u.key]))
         else t == SetPhase(s.(cells := s.cells + [Cell(u.key, u.config)], cache := s.cache[u.key := |s.cells|]), i, Holding(|s.cells|))
    case Compare(i) =>
      && i < |s.updaters| && s.updaters[i].phase.Holding? && s.updaters[i].phase.cell < |s.cells|
      && var c, config := s.updaters[i].phase.cell, s.updaters[i].config;
         t == SetPhase(if s.cells[c].config.version < config.version then s.(cells := s.cells[c := s.cells[c].(config := config)]) else s, i, Finished)
    case Delete(k) =>
      t == s.(cache := s.cache - {k})
  }

  /** The action drops an entry that the cache holds for the key. */
  predicate Deletes(s: State, a: Action, k: Key) {
    a == Delete(k) && k in s.cache
  }

  ghost predicate CacheSound(s: State) {
    forall k :: k in s.cache ==> s.cache[k] < |s.cells| && s.cells[s.cache[k]].owner == k
  }

  ghost predicate HoldersSound(s: State) {
    forall i :: 0 <= i < |s.updaters| && s.updaters[i].phase.Holding? ==>
      s.updaters[i].phase.cell < |s.cells| && s.cells[s.updaters[i].phase.cell].owner == s.updaters[i].key
  }

  /** References point to cells, and to cells of their own key. */
  ghost predicate WellFormed(s: State) {
    CacheSound(s) && HoldersSound(s)
  }

  function CachedConfig(s: State, k: Key): Config
    requires k in s.cache && s.cache[k] < |s.cells|
  {
    s.cells[s.cache[k]].config
  }

  predicate AllStart(s: State) {
    forall i :: 0 <= i < |s.updaters| ==> s.updaters[i].phase == Start
  }

  predicate AllFinished(s: State, k: Key) {
    forall i :: 0 <= i < |s.updaters| && s.updaters[i].key == k ==> s.updaters[i].phase == Finished
  }

  /** Some updater delivers this configuration for the key. */
  ghost predicate Delivers(s: State, k: Key, config: Config) {
    exists i :: 0 <= i < |s.updaters| && s.updaters[i].key == k && s.updaters[i].config == config
  }

  ghost predicate SameUpdaters(s: State, t: State) {
    && |s.updaters| == |t.updaters|
    && forall i :: 0 <= i < |s.updaters| ==> s.updaters[i].key == t.updaters[i].key && s.updaters[i].config == t.updaters[i].config
  }

  /** Who holds a cell for the key holds the cached one. */
  ghost predicate HoldersAgree(s: State, k: Key) {
    forall i :: 0 <= i < |s.updaters| && s.updaters[i].key == k && s.updaters[i].phase.Holding? ==>
      k in s.cache && s.cache[k] == s.updaters[i].phase.cell
  }

  /** Who has finished has been taken into account. */
  ghost predicate FinishersCounted(s: State, k: Key) {
    forall i :: 0 <= i < |s.updaters| && s.updaters[i].key == k && s.updaters[i].phase.Finished? ==>
      k in s.cache && s.cache[k] < |s.cells| && CachedConfig(s, k).version >= s.updaters[i].config.version
  }

  /** What is cached was delivered or was there before, and is no older than what was there before. */
  ghost predicate Accounted(s0: State, k: Key, s: State)
    requires WellFormed(s0) && WellFormed(s)
  {
    && (k in s0.cache ==> k in s.cache && CachedConfig(s, k).version >= CachedConfig(s0, k).version)
    && (k in s.cache ==> Delivers(s0, k, CachedConfig(s, k)) || (k in s0.cache && CachedConfig(s, k) == CachedConfig(s0, k)))
  }

  /** What holds while no entry for the key is deleted. */
  ghost predicate Tracks(s0: State, k: Key, s: State)
    requires WellFormed(s0)
  {
    WellFormed(s) && SameUpdaters(s0, s) && HoldersAgree(s, k) && FinishersCounted(s, k) && Accounted(s0, k, s)
  }

  lemma {:induction false} StepCacheSound(s: State, a: Action, t: State)
    requires CacheSound(s) && Next(s, a, t)
    ensures CacheSound(t)
  {
  }

  lemma {:induction false} StepHoldersSound(s: State, a: Action, t: State)
    requires CacheSound(s) && HoldersSound(s) && Next(s, a, t)
    ensures HoldersSound(t)
  {
  }

  lemma {:induction false} StepWellFormed(s: State, a: Action, t: State)
    requires WellFormed(s) && Next(s, a, t)
    ensures WellFormed(t) && SameUpdaters(s, t)
  {
    StepCacheSound(s, a, t);
    StepHoldersSound(s, a, t);
  }

  /** No step but a deletion takes a cached version back. */
  lemma {:induction false} StepKeepsVersion(s: State, a: Action, t: State, k: Key)
    requires WellFormed(s) && Next(s, a, t) && !Deletes(s, a, k) && k in s.cache
    ensures WellFormed(t) && k in t.cache && t.cache[k] == s.cache[k]
    ensures CachedConfig(t, k).version >= CachedConfig(s, k).version
  {
    StepWellFormed(s, a, t);
  }

  lemma {:induction false} StepHoldersAgree(k: Key, s: State, a: Action, t: State)
    requires WellFormed(s) && HoldersAgree(s, k) && Next(s, a, t) && !Deletes(s, a, k)
    ensures HoldersAgree(t, k)
  {
  }

  lemma {:induction false} StepFinishersCounted(k: Key, s: State, a: Action, t: State)
    requires WellFormed(s) && HoldersAgree(s, k) && FinishersCounted(s, k) && Next(s, a, t) && !Deletes(s, a, k)
    ensures FinishersCounted(t, k)
  {
    if k in s.cache {
      StepKeepsVersion(s, a, t, k);
    }
  }

  lemma {:induction false} StepAccounted(s0: State, k: Key, s: State, a: Action, t: State)
    requires WellFormed(s0) && WellFormed(s) && WellFormed(t) && SameUpdaters(s0, s)
    requires Accounted(s0, k, s) && Next(s, a, t) && !Deletes(s, a, k)
    ensures Accounted(s0, k, t)
  {
    if k in s.cache {
      StepKeepsVersion(s, a, t, k);
    }
    if k in t.cache && !(k in s.cache && CachedConfig(t, k) == CachedConfig(s, k)) {
      assert a.PutIfNotExist? || a.Compare?;
      assert s0.updaters[a.i].key == k && s0.updaters[a.i].config == CachedConfig(t, k);
    }
  }

  lemma {:induction false} StepTracks(s0: State, k: Key, s: State, a: Action, t: State)
    requires WellFormed(s0) && Tracks(s0, k, s) && Next(s, a, t) && !Deletes(s, a, k)
    ensures Tracks(s0, k, t)
  {
    StepWellFormed(s, a, t);
    StepHoldersAgree(k, s, a, t);
    StepFinishersCounted(k, s, a, t);
    StepAccounted(s0, k, s, a, t);
  }

  /** A run in which no entry for the key is deleted. */
  ghost predicate IsRun(s: State, steps: seq<Step>, k: Key) {
    Runs.IsRun((x: State, step: Step) => Next(x, step.action, step.after) && !Deletes(x, step.action, k), After(), s, steps)
  }

  ghost function StateAt(s: State, steps: seq<Step>, n: nat): State
    requires n <= |steps|
  {
    Runs.StateAt(s, steps, After(), n)
  }

  lemma {:induction false} RunTracks(s0: State, k: Key, steps: seq<Step>)
    requires WellFormed(s0) && AllStart(s0) && IsRun(s0, steps, k)
    ensures Tracks(s0, k, StateAt(s0, steps, |steps|))
  {
    var inv := (x: State) => Tracks(s0, k, x);
    var step := (x: State, st: Step) => Next(x, st.action, st.after) && !Deletes(x, st.action, k);
    forall x: State, st: Step | inv(x) && step(x, st)
      ensures inv(After()(st))
    {
      StepTracks(s0, k, x, st.action, st.after);
    }
    Runs.InvariantHolds(inv, step, After(), s0, steps, |steps|);
  }

  /** However the steps of the updaters interleave, once all updates of a key are through, the cache holds the
      configuration of the highest version delivered or cached before. */
  lemma {:induction false} HighestVersionWins(s0: State, k: Key, steps: seq<Step>, i: nat)
    requires WellFormed(s0) && AllStart(s0) && IsRun(s0, steps, k)
    requires AllFinished(StateAt(s0, steps, |steps|), k)
    requires i < |s0.updaters| && s0.updaters[i].key == k
    ensures var t := StateAt(s0, steps, |steps|);
            && k in t.cache && t.cache[k] < |t.cells|
            && CachedConfig(t, k).version >= s0.updaters[i].config.version
            && (k in s0.cache ==> CachedConfig(t, k).version >= CachedConfig(s0, k).version)
            && (Delivers(s0, k, CachedConfig(t, k)) || (k in s0.cache && CachedConfig(t, k) == CachedConfig(s0, k)))
  {
    RunTracks(s0, k, steps);
  }

  /** A configuration that was delivered for the key or cached before. */
  ghost predicate Candidate(s: State, k: Key, config: Config)
    requires WellFormed(s)
  {
    Delivers(s, k, config) || (k in s.cache && CachedConfig(s, k) == config)
  }

  lemma {:induction false} BeatsCandidate(s0: State, k: Key, steps: seq<Step>, t: State, config: Config)
    requires WellFormed(s0) && AllStart(s0) && IsRun(s0, steps, k) && t == StateAt(s0, steps, |steps|) && AllFinished(t, k)
    requires Candidate(s0, k, config)
    ensures WellFormed(t) && k in t.cache && CachedConfig(t, k).version >= config.version
  {
    RunTracks(s0, k, steps);
    if Delivers(s0, k, config) {
      var i :| 0 <= i < |s0.updaters| && s0.updaters[i].key == k && s0.updaters[i].config == config;
      assert t.updaters[i].phase == Finished;
    }
  }

  lemma {:induction false} CachedIsCandidate(s0: State, k: Key, steps: seq<Step>, t: State)
    requires WellFormed(s0) && AllStart(s0) && IsRun(s0, steps, k) && t == StateAt(s0, steps, |steps|) && k in t.cache
    ensures WellFormed(t) && Candidate(s0, k, CachedConfig(t, k))
  {
    RunTracks(s0, k, steps);
  }

  /** Where a version fixes its content, the candidates determine what is cached in the end: neither the interleaving
      nor the order, number and duplication of the deliveries matter. */
  lemma {:induction false} OutcomeIsDetermined(s0: State, s0': State, k: Key, steps: seq<Step>, steps': seq<Step>, t: State, t': State)
    requires WellFormed(s0) && AllStart(s0) && IsRun(s0, steps, k) && t == StateAt(s0, steps, |steps|) && AllFinished(t, k)
    requires WellFormed(s0') && AllStart(s0') && IsRun(s0', steps', k) && t' == StateAt(s0', steps', |steps'|) && AllFinished(t', k)
    requires forall c :: Candidate(s0, k, c) <==> Candidate(s0', k, c)
    requires forall c, d :: Candidate(s0, k, c) && Candidate(s0, k, d) && c.version == d.version ==> c == d
    ensures WellFormed(t) && WellFormed(t')
    ensures (k in t.cache <==> k in t'.cache) && (k in t.cache ==> CachedConfig(t, k) == CachedConfig(t', k))
  {
    RunTracks(s0, k, steps);
    RunTracks(s0', k, steps');
    if k in t.cache {
      CachedIsCandidate(s0, k, steps, t);
      BeatsCandidate(s0', k, steps', t', CachedConfig(t, k));
    }
    if k in t'.cache {
      CachedIsCandidate(s0', k, steps', t');
      BeatsCandidate(s0, k, steps, t, CachedConfig(t', k));
    }
  }

  function StepsLeft(phase: Phase): nat {
    match phase
    case Start => 3
    case Missed => 2
    case Holding(_) => 1
    case Finished => 0
  }

  /** What an updater that has not finished does next: no state blocks it. */
  lemma {:induction false} UpdaterCanStep(s: State, i: nat) returns (step: Step)
    requires WellFormed(s) && i < |s.updaters| && s.updaters[i].phase != Finished
    ensures Next(s, step.action, step.after) && !step.action.Delete? && WellFormed(step.after)
    ensures |step.after.updaters| == |s.updaters| && StepsLeft(step.after.updaters[i].phase) < StepsLeft(s.updaters[i].phase)
    ensures forall j :: 0 <= j < |s.updaters| && j != i ==> step.after.updaters[j] == s.updaters[j]
  {
    var u := s.updaters[i];
    match u.phase {
      case Start =>
        step := Step(Get(i), SetPhase(s, i, if u.key in s.cache then Holding(s.cache[u.key]) else Missed));
      case Missed =>
        var inserted := s.(cells := s.cells + [Cell(u.key, u.config)], cache := s.cache[u.key := |s.cells|]);
        step := Step(PutIfNotExist(i),
          if u.key in s.cache then SetPhase(s, i, Holding(s.cache[u.key])) else SetPhase(inserted, i, Holding(|s.cells|)));
      case Holding(c) =>
        var replaced := s.(cells := s.cells[c := s.cells[c].(config := u.config)]);
        step := Step(Compare(i), SetPhase(if s.cells[c].config.version < u.config.version then replaced else s, i, Finished));
    }
    StepWellFormed(s, step.action, step.after);
  }

  /** From any state all updaters can get through, without any deletion. */
  lemma {:induction false} UpdatersGetThrough(s: State, k: Key, i: nat) returns (steps: seq<Step>)
    requires WellFormed(s) && i <= |s.updaters| && forall j :: 0 <= j < i ==> s.updaters[j].phase == Finished
    ensures IsRun(s, steps, k) && AllFinished(StateAt(s, steps, |steps|), k)
    decreases |s.updaters| - i, if i < |s.updaters| then StepsLeft(s.updaters[i].phase) else 0
  {
    if i == |s.updaters| {
      steps := [];
    } else if s.updaters[i].phase == Finished {
      steps := UpdatersGetThrough(s, k, i + 1);
    } else {
      var step := UpdaterCanStep(s, i);
      var rest := UpdatersGetThrough(step.after, k, i);
      Runs.PrependIsRun((x: State, st: Step) => Next(x, st.action, st.after) && !Deletes(x, st.action, k), After(), s, step, rest);
      steps := [step] + rest;
    }
  }

  lemma {:induction false} RunWellFormed(s: State, k: Key, steps: seq<Step>, n: nat)
    requires WellFormed(s) && IsRun(s, steps, k) && n <= |steps|
    ensures WellFormed(StateAt(s, steps, n))
  {
    var step := (x: State, st: Step) => Next(x, st.action, st.after) && !Deletes(x, st.action, k);
    forall x: State, st: Step | WellFormed(x) && step(x, st)
      ensures WellFormed(After()(st))
    {
      StepWellFormed(x, st.action, st.after);
    }
    Runs.InvariantHolds(WellFormed, step, After(), s, steps, n);
  }

  ghost predicate NoOlder(s: State, k: Key, version: int) {
    WellFormed(s) && k in s.cache && CachedConfig(s, k).version >= version
  }

  lemma {:induction false} RunNoOlder(s: State, k: Key, version: int, steps: seq<Step>, n: nat)
    requires NoOlder(s, k, version) && IsRun(s, steps, k) && n <= |steps|
    ensures NoOlder(StateAt(s, steps, n), k, version)
  {
    var inv := (x: State) => NoOlder(x, k, version);
    var step := (x: State, st: Step) => Next(x, st.action, st.after) && !Deletes(x, st.action, k);
    forall x: State, st: Step | inv(x) && step(x, st)
      ensures inv(After()(st))
    {
      StepKeepsVersion(x, st.action, st.after, k);
    }
    Runs.InvariantHolds(inv, step, After(), s, steps, n);
  }

  /** The cached version of a key never goes back, from any point of a run to any later one. */
  lemma {:induction false} VersionNeverDecreases(s0: State, k: Key, steps: seq<Step>, m: nat, n: nat, s: State, t: State)
    requires WellFormed(s0) && IsRun(s0, steps, k) && m <= n <= |steps|
    requires s == StateAt(s0, steps, m) && t == StateAt(s0, steps, n) && k in s.cache
    ensures WellFormed(s) && WellFormed(t)
    ensures k in t.cache && CachedConfig(t, k).version >= CachedConfig(s, k).version
  {
    RunWellFormed(s0, k, steps, m);
    Runs.SuffixIsRun((x: State, st: Step) => Next(x, st.action, st.after) && !Deletes(x, st.action, k), After(), s0, steps, m, n);
    assert IsRun(s, steps[m..], k);
    RunNoOlder(s, k, CachedConfig(s, k).version, steps[m..], n - m);
  }

  // One update on its own

  /** What the cache holds, by content. */
  ghost function View(s: State): map<Key, Config>
    requires WellFormed(s)
  {
    map k | k in s.cache :: CachedConfig(s, k)
  }

  /** An updater goes through all its steps with nothing in between. */
  ghost predicate Alone(s: State, i: nat, s1: State, s2: State, t: State) {
    && i < |s.updaters| && s.updaters[i].phase == Start && Next(s, Get(i), s1)
    && (if i < |s1.updaters| && s1.updaters[i].phase == Missed then Next(s1, PutIfNotExist(i), s2) else s2 == s1)
    && Next(s2, Compare(i), t)
  }

  lemma {:induction false} ViewAfterLookup(s: State, i: nat, s1: State, s2: State)
    requires WellFormed(s) && i < |s.updaters| && s.updaters[i].phase == Start && Next(s, Get(i), s1)
    requires if i < |s1.updaters| && s1.updaters[i].phase == Missed then Next(s1, PutIfNotExist(i), s2) else s2 == s1
    ensures WellFormed(s2) && |s2.updaters| == |s.updaters| && s2.updaters[i] == s.updaters[i].(phase := s2.updaters[i].phase)
    ensures var u := s.updaters[i];
            && u.key in s2.cache && s2.updaters[i].phase == Holding(s2.cache[u.key])
            && View(s2) == if u.key in s.cache then View(s) else View(s)[u.key := u.config]
  {
    StepWellFormed(s, Get(i), s1);
    if s1.updaters[i].phase == Missed {
      StepWellFormed(s1, PutIfNotExist(i), s2);
    }
    var u := s.updaters[i];
    var expected := if u.key in s.cache then View(s) else View(s)[u.key := u.config];
    assert View(s2).Keys == expected.Keys;
    forall k | k in s2.cache
      ensures View(s2)[k] == expected[k]
    {
    }
  }

  lemma {:induction false} ViewAfterCompare(s: State, i: nat, t: State)
    requires WellFormed(s) && Next(s, Compare(i), t)
    requires var u := s.updaters[i]; u.key in s.cache && u.phase == Holding(s.cache[u.key])
    ensures WellFormed(t)
    ensures var u := s.updaters[i];
            View(t) == if CachedConfig(s, u.key).version < u.config.version then View(s)[u.key := u.config] else View(s)
  {
    StepWellFormed(s, Compare(i), t);
    var u := s.updaters[i];
    forall k | k in s.cache && k != u.key
      ensures CachedConfig(t, k) == CachedConfig(s, k)
    {
      assert s.cells[s.cache[k]].owner == k;
    }
  }

  /** A call of the provider's update is the run of one updater on its own: it changes the cached contents as that run
      does, so what is proved of runs holds of calls. */
  lemma {:induction false} MethodIsSoloUpdate(s: State, i: nat, s1: State, s2: State, t: State)
    requires WellFormed(s) && Alone(s, i, s1, s2, t)
    ensures WellFormed(t) && View(t) == CacheAfter(View(s), s.updaters[i].key, Normal, Some(s.updaters[i].config))
    ensures KeepsNewest(View(s), View(t), s.updaters[i].key, s.updaters[i].config)
  {
    ViewAfterLookup(s, i, s1, s2);
    ViewAfterCompare(s2, i, t);
    CacheAfterKeepsNewest(View(s), s.updaters[i].key, s.updaters[i].config, View(t));
  }

  // Runs with deletions

  ghost predicate IsAnyRun(s: State, steps: seq<Step>) {
    Runs.IsRun((x: State, st: Step) => Next(x, st.action, st.after), After(), s, steps)
  }

  /** The entry for the key is still there and no older. */
  ghost predicate Keeps(s: State, t: State, k: Key)
    requires WellFormed(s) && WellFormed(t)
  {
    k in s.cache ==> k in t.cache && CachedConfig(t, k).version >= CachedConfig(s, k).version
  }

  lemma {:induction false} AnyRunWellFormed(s: State, steps: seq<Step>, n: nat)
    requires WellFormed(s) && IsAnyRun(s, steps) && n <= |steps|
    ensures WellFormed(StateAt(s, steps, n))
  {
    var step := (x: State, st: Step) => Next(x, st.action, st.after);
    forall x: State, st: Step | WellFormed(x) && step(x, st)
      ensures WellFormed(After()(st))
    {
      StepWellFormed(x, st.action, st.after);
    }
    Runs.InvariantHolds(WellFormed, step, After(), s, steps, n);
  }

  lemma {:induction false} WithoutDeletions(s: State, steps: seq<Step>, k: Key)
    requires IsAnyRun(s, steps)
    requires forall i :: 0 <= i < |steps| ==> !Deletes(StateAt(s, steps, i), steps[i].action, k)
    ensures IsRun(s, steps, k)
  {
    var step := (x: State, st: Step) => Next(x, st.action, st.after);
    forall i | 0 <= i < |steps|
      ensures Next(StateAt(s, steps, i), steps[i].action, steps[i].after)
    {
      assert step(StateAt(s, steps, i), steps[i]);
    }
  }

  lemma {:induction false} DeletionDrops(s: State, steps: seq<Step>, k: Key, i: nat)
    requires IsAnyRun(s, steps) && i < |steps| && Deletes(StateAt(s, steps, i), steps[i].action, k)
    ensures k in StateAt(s, steps, i).cache && k !in StateAt(s, steps, i + 1).cache
  {
    var step := (x: State, st: Step) => Next(x, st.action, st.after);
    assert step(StateAt(s, steps, i), steps[i]);
  }

  ghost predicate KeepsFrom(s: State, steps: seq<Step>, k: Key, m: nat, n: nat)
    requires WellFormed(s) && IsAnyRun(s, steps) && m <= n <= |steps|
  {
    AnyRunWellFormed(s, steps, m);
    AnyRunWellFormed(s, steps, n);
    Keeps(StateAt(s, steps, m), StateAt(s, steps, n), k)
  }

  /** The exact condition: an entry is kept, at its version or a later one, from every point of a run to every later
      one, if and only if no step deletes it while it is there. */
  lemma {:induction false} VersionKeptExactlyWithoutDeletion(s: State, steps: seq<Step>, k: Key)
    requires WellFormed(s) && IsAnyRun(s, steps)
    ensures (forall m: nat, n: nat :: m <= n <= |steps| ==> KeepsFrom(s, steps, k, m, n)) <==>
            (forall i :: 0 <= i < |steps| ==> !Deletes(StateAt(s, steps, i), steps[i].action, k))
  {
    if forall i :: 0 <= i < |steps| ==> !Deletes(StateAt(s, steps, i), steps[i].action, k) {
      WithoutDeletions(s, steps, k);
      forall m: nat, n: nat | m <= n <= |steps|
        ensures KeepsFrom(s, steps, k, m, n)
      {
        AnyRunWellFormed(s, steps, m);
        if k in StateAt(s, steps, m).cache {
          VersionNeverDecreases(s, k, steps, m, n, StateAt(s, steps, m), StateAt(s, steps, n));
        }
      }
    } else {
      var i :| 0 <= i < |steps| && Deletes(StateAt(s, steps, i), steps[i].action, k);
      DeletionDrops(s, steps, k, i);
      assert !KeepsFrom(s, steps, k, i, i + 1);
    }
  }

  /** Updater `i` is on its way to the cached entry of the key, or has been taken into account there. */
  ghost predicate Follows(s: State, k: Key, config: Config, i: nat) {
    && WellFormed(s) && i < |s.updaters| && s.updaters[i].key == k && s.updaters[i].config == config
    && match s.updaters[i].phase
       case Start => true
       case Missed => true
       case Holding(c) => k in s.cache && s.cache[k] == c
       case Finished => k in s.cache && CachedConfig(s, k).version >= config.version
  }

  lemma {:induction false} StepFollows(s: State, a: Action, t: State, k: Key, config: Config, i: nat)
    requires Follows(s, k, config, i) && Next(s, a, t) && !Deletes(s, a, k)
    ensures Follows(t, k, config, i)
  {
    StepWellFormed(s, a, t);
    if k in s.cache {
      StepKeepsVersion(s, a, t, k);
    }
  }

  /** What holds in spite of deletions: an update that has no reference yet at point `d` of a run, with no deletion of
      the key from there on, is taken into account once it is through, whatever became of the others. */
  lemma {:induction false} UpdateAfterDeletionCounts(s: State, steps: seq<Step>, k: Key, d: nat, i: nat, x: State, t: State)
    requires WellFormed(s) && IsAnyRun(s, steps) && d <= |steps| && x == StateAt(s, steps, d) && t == StateAt(s, steps, |steps|)
    requires forall j :: d <= j < |steps| ==> !Deletes(StateAt(s, steps, j), steps[j].action, k)
    requires i < |x.updaters| && x.updaters[i].key == k && (x.updaters[i].phase.Start? || x.updaters[i].phase.Missed?)
    requires i < |t.updaters| && t.updaters[i].phase.Finished?
    ensures WellFormed(t) && k in t.cache && CachedConfig(t, k).version >= x.updaters[i].config.version
  {
    AnyRunWellFormed(s, steps, d);
    QuietSuffix(s, steps, k, d, x, steps[d..], t);
    RunFollows(x, k, steps[d..], x.updaters[i].config, i);
  }

  lemma {:induction false} SuffixStates(s: State, steps: seq<Step>, d: nat, x: State, rest: seq<Step>, j: nat)
    requires d <= |steps| && x == StateAt(s, steps, d) && rest == steps[d..] && j <= |rest|
    ensures StateAt(x, rest, j) == StateAt(s, steps, d + j) && (j < |rest| ==> rest[j] == steps[d + j])
  {
  }

  lemma {:induction false} QuietSuffix(s: State, steps: seq<Step>, k: Key, d: nat, x: State, rest: seq<Step>, t: State)
    requires IsAnyRun(s, steps) && d <= |steps| && x == StateAt(s, steps, d) && rest == steps[d..] && t == StateAt(s, steps, |steps|)
    requires forall j :: d <= j < |steps| ==> !Deletes(StateAt(s, steps, j), steps[j].action, k)
    ensures IsRun(x, rest, k) && t == StateAt(x, rest, |rest|)
  {
    Runs.SuffixIsRun((y: State, st: Step) => Next(y, st.action, st.after), After(), s, steps, d, |steps|);
    SuffixStates(s, steps, d, x, rest, |rest|);
    forall j | 0 <= j < |rest|
      ensures !Deletes(StateAt(x, rest, j), rest[j].action, k)
    {
      SuffixStates(s, steps, d, x, rest, j);
    }
    WithoutDeletions(x, rest, k);
  }

  lemma {:induction false} RunFollows(s: State, k: Key, steps: seq<Step>, config: Config, i: nat)
    requires Follows(s, k, config, i) && IsRun(s, steps, k)
    ensures Follows(StateAt(s, steps, |steps|), k, config, i)
  {
    var inv := (x: State) => Follows(x, k, config, i);
    var step := (x: State, st: Step) => Next(x, st.action, st.after) && !Deletes(x, st.action, k);
    forall x: State, st: Step | inv(x) && step(x, st)
      ensures inv(After()(st))
    {
      StepFollows(x, st.action, st.after, k, config, i);
    }
    Runs.InvariantHolds(inv, step, After(), s, steps, |steps|);
  }

  /** An update that holds a reference to an entry dropped since is lost: it changes no cached configuration. */
  lemma {:induction false} OrphanedUpdateIsLost(s: State, i: nat, t: State, k: Key)
    requires WellFormed(s) && Next(s, Compare(i), t)
    requires var u := s.updaters[i]; u.key !in s.cache || s.cache[u.key] != u.phase.cell
    ensures WellFormed(t) && t.cache == s.cache && (k in s.cache ==> CachedConfig(t, k) == CachedConfig(s, k))
  {
    StepWellFormed(s, Compare(i), t);
  }

  /** A deletion is what it takes to go back: an update fetched or inserted after it starts from nothing. */
  lemma {:induction false} DeletionAllowsRollback(k: Key, newer: Config, older: Config)
    requires older.version < newer.version
    ensures var s0 := State([Cell(k, newer)], map[k := 0], [Updater(k, older, Start)]);
            exists s1, s2, s3, s4 ::
              && WellFormed(s0) && Next(s0, Delete(k), s1) && Next(s1, Get(0), s2) && Next(s2, PutIfNotExist(0), s3) && Next(s3, Compare(0), s4)
              && k in s4.cache && s4.cache[k] < |s4.cells| && CachedConfig(s4, k) == older
  {
    var s0 := State([Cell(k, newer)], map[k := 0], [Updater(k, older, Start)]);
    var s1 := s0.(cache := s0.cache - {k});
    var s2 := SetPhase(s1, 0, Missed);
    var s3 := SetPhase(s2.(cells := s2.cells + [Cell(k, older)], cache := s2.cache[k := 1]), 0, Holding(1));
    var s4 := SetPhase(s3, 0, Finished);
    assert Next(s0, Delete(k), s1) && Next(s1, Get(0), s2) && Next(s2, PutIfNotExist(0), s3) && Next(s3, Compare(0), s4);
  }
}
