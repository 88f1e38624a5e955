/** The round-robin load balancer: one 64-bit counter per task list and direction. */
module RoundRobin {
  import opened Decimal
  import opened PartitionNames
  import opened TaskLists

  datatype Direction = Read | Write

  /** The two counter caches. */
  datatype Caches = Caches(read: map<Key, int>, write: map<Key, int>) {
    function Get(d: Direction): map<Key, int> {
      if d.Read? then read else write
    }

    function Set(d: Direction, counters: map<Key, int>): Caches {
      if d.Read? then this.(read := counters) else this.(write := counters)
    }
  }

  const NEVER_PICKED := -1

  function CounterOf(counters: map<Key, int>, k: Key): int {
    if k in counters then counters[k] else NEVER_PICKED
  }

  /** Atomic 64-bit increment. */
  function Increment(c: int): int {
    if c == MAX_INT64 then MIN_INT64 else c + 1
  }

  /** The remainder operator that truncates toward zero. */
  function Remainder(a: int, n: int): int
    requires n > 0
  {
    if a >= 0 then a % n else -((-a) % n)
  }

  predicate IsInt64(c: int) {
    MIN_INT64 <= c <= MAX_INT64
  }

  ghost predicate AllInt64(counters: map<Key, int>) {
    forall k :: k in counters ==> IsInt64(counters[k])
  }

  class RoundRobinLoadBalancer {
    var caches: Caches

    ghost predicate Valid()
      reads this
    {
      AllInt64(caches.read) && AllInt64(caches.write)
    }

    constructor ()
      ensures Valid() && caches == Caches(map[], map[])
    {
      caches := Caches(map[], map[]);
    }

    /** Picks the next partition in turn. */
    method PickPartition(d: Direction, k: Key, nPartitions: int) returns (name: string)
      requires Valid()
      modifies this
      ensures Valid()
      ensures caches == CachesAfter(old(caches), Pick(d, k, nPartitions))
      ensures name == PartitionName(k.taskListName, Partition(old(caches), Pick(d, k, nPartitions)))
    {
      if nPartitions <= 1 {
        return k.taskListName;
      }
      if k !in caches.Get(d) {
        caches := caches.Set(d, caches.Get(d)[k := NEVER_PICKED]);
      }
      var next := Increment(caches.Get(d)[k]);
      caches := caches.Set(d, caches.Get(d)[k := next]);
      name := PartitionName(k.taskListName, Remainder(next, nPartitions));
    }
  }

  // Whole runs

  datatype Op = Pick(d: Direction, k: Key, n: int) | Evict(d: Direction, k: Key)

  function CachesAfter(cs: Caches, op: Op): Caches {
    match op
    case Pick(d, k, n) => if n <= 1 then cs else cs.Set(d, cs.Get(d)[k := Increment(CounterOf(cs.Get(d), k))])
    case Evict(d, k) => cs.Set(d, cs.Get(d) - {k})
  }

  /** The partition that a pick goes to: whatever the counter, that is the root or one of the `n` partitions. */
  function Partition(cs: Caches, op: Op): (p: int)
    requires op.Pick?
    ensures p == 0 || 0 < p < op.n
  {
    if op.n <= 1 then 0
    else
      var p := Remainder(Increment(CounterOf(cs.Get(op.d), op.k)), op.n);
      if p <= 0 then 0 else p
  }

  /** The partitions that the picks for one task list and direction go to, in the order of the run. */
  function Partitions(cs: Caches, ops: seq<Op>, d: Direction, k: Key): seq<int>
    decreases |ops|
  {
    if ops == [] then []
    else
      (if ops[0].Pick? && ops[0].d == d && ops[0].k == k then [Partition(cs, ops[0])] else []) +
      Partitions(CachesAfter(cs, ops[0]), ops[1..], d, k)
  }

  /** `m` residues in a row. */
  function Turns(from: int, m: nat, n: int): seq<int>
    requires n > 0
    decreases m
  {
    if m == 0 then [] else [from % n] + Turns(from + 1, m - 1, n)
  }

  /** The window of a run that fairness is about: one number of partitions, the counter not evicted. */
  predicate Steady(ops: seq<Op>, d: Direction, k: Key, n: int) {
    forall i :: 0 <= i < |ops| && ops[i].d == d && ops[i].k == k ==> ops[i].Pick? && ops[i].n == n
  }

  /** Whatever happens to other task lists and to the other direction, the picks take turns. */
  lemma {:induction false} PicksTakeTurns(cs: Caches, ops: seq<Op>, d: Direction, k: Key, n: int)
    requires n > 1 && Steady(ops, d, k, n)
    requires NEVER_PICKED <= CounterOf(cs.Get(d), k)
    requires CounterOf(cs.Get(d), k) + |Partitions(cs, ops, d, k)| <= MAX_INT64
    ensures Partitions(cs, ops, d, k) == Turns(CounterOf(cs.Get(d), k) + 1, |Partitions(cs, ops, d, k)|, n)
    decreases |ops|
  {
    if ops != [] {
      PicksTakeTurns(CachesAfter(cs, ops[0]), ops[1..], d, k, n);
    }
  }

  /** A list that has no counter yet starts at the root, and from there goes round in order. */
  lemma {:induction false} StartsAtRoot(cs: Caches, ops: seq<Op>, d: Direction, k: Key, n: int, i: nat)
    requires n > 1 && Steady(ops, d, k, n) && k !in cs.Get(d)
    requires i < |Partitions(cs, ops, d, k)| <= MAX_INT64
    ensures Partitions(cs, ops, d, k)[i] == i % n
  {
    PicksTakeTurns(cs, ops, d, k, n);
    TurnAt(0, |Partitions(cs, ops, d, k)|, n, i);
  }

  lemma {:induction false} TurnAt(from: int, m: nat, n: int, i: nat)
    requires n > 0 && i < m
    ensures |Turns(from, m, n)| == m && Turns(from, m, n)[i] == (from + i) % n
    decreases m
  {
    if i > 0 {
      TurnAt(from + 1, m - 1, n, i - 1);
    } else {
      TurnsLength(from + 1, m - 1, n);
    }
  }

  lemma {:induction false} TurnsLength(from: int, m: nat, n: int)
    requires n > 0
    ensures |Turns(from, m, n)| == m
    decreases m
  {
    if m > 0 {
      TurnsLength(from + 1, m - 1, n);
    }
  }

  function Count(s: seq<int>, x: int): nat {
    if s == [] then 0 else (if s[0] == x then 1 else 0) + Count(s[1..], x)
  }

  /** How many of the numbers below `x` leave remainder `i`. */
  function Below(x: int, n: int, i: int): int
    requires n > 0
  {
    x / n + if x % n > i then 1 else 0
  }

  lemma {:induction false} MulGap(a: int, b: int, n: int)
    requires n > 0 && a < b
    ensures a * n + n <= b * n
    decreases b - a
  {
    assert b * n == (b - 1) * n + n;
    if a < b - 1 {
      MulGap(a, b - 1, n);
    }
  }

  lemma {:induction false} DivModUnique(x: int, n: int, q: int, r: int)
    requires n > 0 && x == q * n + r && 0 <= r < n
    ensures q == x / n && r == x % n
  {
    assert (x / n) * n + x % n == x;
    if q < x / n {
      MulGap(q, x / n, n);
    } else if q > x / n {
      MulGap(x / n, q, n);
    }
  }

  lemma {:induction false} BelowStep(x: int, n: int, i: int)
    requires n > 0 && 0 <= i < n
    ensures Below(x + 1, n, i) == Below(x, n, i) + if x % n == i then 1 else 0
  {
    var q, r := x / n, x % n;
    if r + 1 < n {
      DivModUnique(x + 1, n, q, r + 1);
    } else {
      assert (q + 1) * n == q * n + n;
      DivModUnique(x + 1, n, q + 1, 0);
    }
  }

  lemma {:induction false} CountTurns(from: int, m: nat, n: int, i: int)
    requires n > 0 && 0 <= i < n
    ensures Count(Turns(from, m, n), i) == Below(from + m, n, i) - Below(from, n, i)
    decreases m
  {
    if m > 0 {
      CountTurns(from + 1, m - 1, n, i);
      BelowStep(from, n, i);
      assert Turns(from, m, n)[1..] == Turns(from + 1, m - 1, n);
    }
  }

  lemma {:induction false} BelowWindow(x: int, m: nat, n: int, i: int)
    requires n > 0 && 0 <= i < n
    ensures m / n <= Below(x + m, n, i) - Below(x, n, i) <= m / n + if m % n > 0 then 1 else 0
  {
    var q, r, qm, rm := x / n, x % n, m / n, m % n;
    if r + rm < n {
      assert (q + qm) * n == q * n + qm * n;
      DivModUnique(x + m, n, q + qm, r + rm);
    } else {
      assert (q + qm + 1) * n == q * n + qm * n + n;
      DivModUnique(x + m, n, q + qm + 1, r + rm - n);
    }
  }

  /** Fairness: of any m picks in a row, every partition gets m/n, rounded down or up. */
  lemma {:induction false} RoundRobinIsFair(cs: Caches, ops: seq<Op>, d: Direction, k: Key, n: int, i: int)
    requires n > 1 && 0 <= i < n && Steady(ops, d, k, n)
    requires NEVER_PICKED <= CounterOf(cs.Get(d), k)
    requires CounterOf(cs.Get(d), k) + |Partitions(cs, ops, d, k)| <= MAX_INT64
    ensures var picks := Partitions(cs, ops, d, k);
            |picks| / n <= Count(picks, i) <= |picks| / n + if |picks| % n > 0 then 1 else 0
  {
    var m, from := |Partitions(cs, ops, d, k)|, CounterOf(cs.Get(d), k) + 1;
    PicksTakeTurns(cs, ops, d, k, n);
    CountTurns(from, m, n, i);
    BelowWindow(from, m, n, i);
  }

  /** Exactly when a pick keeps its turn: unless the counter is about to wrap around or has done so, after which
      every pick goes to the root. */
  lemma {:induction false} TurnKeptUnlessWrapped(cs: Caches, d: Direction, k: Key, n: int)
    requires n > 1 && IsInt64(CounterOf(cs.Get(d), k))
    ensures var c := CounterOf(cs.Get(d), k);
            && (Partition(cs, Pick(d, k, n)) == (c + 1) % n <==> NEVER_PICKED <= c < MAX_INT64 || (c + 1) % n == 0)
            && (c < NEVER_PICKED || c == MAX_INT64 ==> Partition(cs, Pick(d, k, n)) == 0)
  {
    var next := Increment(CounterOf(cs.Get(d), k));
    if next < 0 {
      assert (-next) % n >= 0;
    }
  }
}
