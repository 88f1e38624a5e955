/** Names of task list partitions, and the way back from a name to the partition's number. */
module PartitionNames {
  import opened Wrappers
  import opened Decimal

  const RESERVED_PREFIX := "/__cadence_sys/"

  /** The name of a partition: the root's own name for partition 0, a reserved name for the others. */
  function PartitionName(root: string, partition: int): string {
    if partition <= 0 then root else RESERVED_PREFIX + root + "/" + Itoa(partition)
  }

  function TrimSlashes(p: string): string {
    if p != [] && p[|p| - 1] == '/' then TrimSlashes(p[..|p| - 1]) else p
  }

  function AfterLastSlash(p: string): string {
    if p == [] || p[|p| - 1] == '/' then [] else AfterLastSlash(p[..|p| - 1]) + [p[|p| - 1]]
  }

  /** `path.Base`: the last element of a slash-separated path. */
  function Base(p: string): string {
    if p == [] then "."
    else
      var trimmed := TrimSlashes(p);
      if trimmed == [] then "/" else AfterLastSlash(trimmed)
  }

  /** The partition number that a weight report is filed under, if the name makes sense. */
  function PartitionIndex(root: string, name: string): Option<int> {
    if name == root then Some(0) else Atoi(Base(name))
  }

  lemma {:induction false} AfterLastSlashSplit(a: string, b: string)
    requires '/' !in b
    ensures AfterLastSlash(a + "/" + b) == b
  {
    var p := a + "/" + b;
    if b == [] {
      assert p[|p| - 1] == '/';
    } else {
      AfterLastSlashSplit(a, b[..|b| - 1]);
      assert p[..|p| - 1] == a + "/" + b[..|b| - 1];
      assert p[|p| - 1] == b[|b| - 1];
    }
  }

  /** The number comes back from the name, for every root and every partition a 64-bit platform can number. */
  lemma {:induction false} IndexOfName(root: string, partition: nat)
    ensures PartitionIndex(root, PartitionName(root, partition)) == InInt64(partition)
  {
    if partition > 0 {
      var number := Itoa(partition);
      var name := PartitionName(root, partition);
      assert |name| > |root|;
      assert name == (RESERVED_PREFIX + root) + "/" + number;
      assert name[|name| - 1] == number[|number| - 1];
      AfterLastSlashSplit(RESERVED_PREFIX + root, number);
      AtoiItoa(partition);
    }
  }

  lemma {:induction false} SplitAtLastSlash(a: string, b: string, c: string, d: string)
    requires a + "/" + b == c + "/" + d && '/' !in b && '/' !in d
    ensures a == c && b == d
  {
    AfterLastSlashSplit(a, b);
    AfterLastSlashSplit(c, d);
    assert a == (a + "/" + b)[..|a|] && c == (c + "/" + d)[..|a|];
  }

  /** Exactly when two different partitions share a name: one is partition 0 of a list that is itself named
      like a partition of the other. */
  lemma {:induction false} NameCollision(r1: string, p1: nat, r2: string, p2: nat)
    ensures PartitionName(r1, p1) == PartitionName(r2, p2) <==>
            || (r1 == r2 && p1 == p2)
            || (p1 == 0 && p2 > 0 && r1 == PartitionName(r2, p2))
            || (p2 == 0 && p1 > 0 && r2 == PartitionName(r1, p1))
  {
    if p1 > 0 && p2 > 0 && PartitionName(r1, p1) == PartitionName(r2, p2) {
      assert PartitionName(r1, p1) == (RESERVED_PREFIX + r1) + "/" + Itoa(p1);
      assert PartitionName(r2, p2) == (RESERVED_PREFIX + r2) + "/" + Itoa(p2);
      SplitAtLastSlash(RESERVED_PREFIX + r1, Itoa(p1), RESERVED_PREFIX + r2, Itoa(p2));
      assert r1 == (RESERVED_PREFIX + r1)[|RESERVED_PREFIX|..] == r2;
      ItoaInjective(p1, p2);
    }
  }

  /** So names are unique among the lists that may be partitioned: those without the reserved prefix. */
  lemma {:induction false} NameInjective(r1: string, p1: nat, r2: string, p2: nat)
    requires !(RESERVED_PREFIX <= r1) && !(RESERVED_PREFIX <= r2)
    requires PartitionName(r1, p1) == PartitionName(r2, p2)
    ensures r1 == r2 && p1 == p2
  {
    NameCollision(r1, p1, r2, p2);
    if p2 > 0 {
      assert RESERVED_PREFIX <= PartitionName(r2, p2);
    }
    if p1 > 0 {
      assert RESERVED_PREFIX <= PartitionName(r1, p1);
    }
  }
}
