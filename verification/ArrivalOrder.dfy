/** Exactly when the answers that go into a replication response depend on the order in which they arrived. */
module ArrivalOrder {
  import opened Wrappers
  import opened ReplicationMerge

  function SizeOf(e: Entry): nat {
    if e.Some? then e.value.size else 0
  }

  function TotalSize(s: seq<Entry>): nat {
    if s == [] then 0 else SizeOf(s[0]) + TotalSize(s[1..])
  }

  /** Answer `x` is taken, walking the list with `total` bytes already taken. */
  predicate Takes(s: seq<Entry>, limit: int, total: int, x: Entry) {
    s != [] &&
    if total + SizeOf(s[0]) >= limit then Takes(s[1..], limit, total, x)
    else x == s[0] || Takes(s[1..], limit, total + SizeOf(s[0]), x)
  }

  /** The answers that would be taken if each were the first in line. */
  function Fitting(s: seq<Entry>, limit: int, total: int): seq<Entry> {
    if s == [] then []
    else (if total + SizeOf(s[0]) < limit then [s[0]] else []) + Fitting(s[1..], limit, total)
  }

  /** How many answers at the front tie with `g`. */
  function LeadingTies(s: seq<Entry>, g: Entry): (k: nat)
    ensures k <= |s|
    ensures forall i :: 0 <= i < k ==> Tied(s[i], g)
  {
    if s == [] || !Tied(s[0], g) then 0 else 1 + LeadingTies(s[1..], g)
  }

  /** On top of `total` bytes, none of the class fits, or all of those fit together that fit alone; `next` bytes are
      then taken. */
  predicate ClassSettles(c: seq<Entry>, limit: int, total: int, next: int) {
    var fitting := Fitting(c, limit, total);
    next == total + TotalSize(fitting) && (fitting == [] || next < limit)
  }

  /** The tie classes of a sorted list settle, one after the other. */
  predicate Settles(s: seq<Entry>, limit: int, total: int)
    decreases |s|
  {
    s == [] ||
    var k := LeadingTies(s, s[0]);
    var next := total + TotalSize(Fitting(s[..k], limit, total));
    ClassSettles(s[..k], limit, total, next) && Settles(s[k..], limit, next)
  }

  // Walking one class

  lemma {:induction false} FittingMembers(s: seq<Entry>, limit: int, total: int, x: Entry)
    ensures x in Fitting(s, limit, total) <==> x in s && total + SizeOf(x) < limit
  {
    if s != [] {
      FittingMembers(s[1..], limit, total, x);
      assert s == [s[0]] + s[1..];
    }
  }

  lemma {:induction false} FittingCount(s: seq<Entry>, limit: int, total: int, x: Entry)
    ensures multiset(Fitting(s, limit, total))[x] == if total + SizeOf(x) < limit then multiset(s)[x] else 0
  {
    if s != [] {
      FittingCount(s[1..], limit, total, x);
      assert s == [s[0]] + s[1..];
    }
  }

  /** A class that settles has all that fit alone taken, and nothing else, in whatever order they stand. */
  lemma {:induction false} WalkSettled(c: seq<Entry>, rest: seq<Entry>, limit: int, base: int, total: int, x: Entry)
    requires base <= total
    requires var fitting := Fitting(c, limit, base); fitting == [] || total + TotalSize(fitting) < limit
    ensures var fitting := Fitting(c, limit, base);
            Takes(c + rest, limit, total, x) <==> x in fitting || Takes(rest, limit, total + TotalSize(fitting), x)
  {
    if c == [] {
      assert c + rest == rest;
    } else {
      var fitting, later := Fitting(c, limit, base), Fitting(c[1..], limit, base);
      assert (c + rest)[1..] == c[1..] + rest && (c + rest)[0] == c[0];
      if base + SizeOf(c[0]) < limit {
        assert fitting == [c[0]] + later && fitting[1..] == later;
        assert x in fitting <==> x == c[0] || x in later;
        WalkSettled(c[1..], rest, limit, base, total + SizeOf(c[0]), x);
      } else {
        assert fitting == later;
        WalkSettled(c[1..], rest, limit, base, total, x);
      }
    }
  }

  lemma {:induction false} TotalOfSplit(a: seq<Entry>, b: seq<Entry>)
    ensures TotalSize(a + b) == TotalSize(a) + TotalSize(b)
  {
    if a == [] {
      assert a + b == b;
    } else {
      TotalOfSplit(a[1..], b);
      assert (a + b)[1..] == a[1..] + b;
    }
  }

  lemma {:induction false} WithoutOne(s: seq<Entry>, i: nat)
    requires i < |s|
    ensures multiset(s[..i] + s[i + 1..]) == multiset(s) - multiset{s[i]}
  {
    assert s == s[..i] + [s[i]] + s[i + 1..];
  }

  lemma {:induction false} TotalWithoutOne(s: seq<Entry>, i: nat)
    requires i < |s|
    ensures TotalSize(s) == SizeOf(s[i]) + TotalSize(s[..i] + s[i + 1..])
  {
    var tail := [s[i]] + s[i + 1..];
    assert s == s[..i] + tail && tail[1..] == s[i + 1..];
    TotalOfSplit(s[..i], tail);
    TotalOfSplit(s[..i], s[i + 1..]);
  }

  lemma {:induction false} MatchFirst(s: seq<Entry>, t: seq<Entry>) returns (i: nat)
    requires multiset(s) == multiset(t) && s != []
    ensures i < |t| && t[i] == s[0] && multiset(s[1..]) == multiset(t[..i] + t[i + 1..])
  {
    assert s[0] in multiset(s) && s[0] in multiset(t);
    i :| 0 <= i < |t| && t[i] == s[0];
    WithoutOne(t, i);
    WithoutOne(s, 0);
    assert s[..0] + s[1..] == s[1..];
  }

  lemma {:induction false} TotalOfPermutation(s: seq<Entry>, t: seq<Entry>)
    requires multiset(s) == multiset(t)
    ensures TotalSize(s) == TotalSize(t)
  {
    if s == [] {
      assert |multiset(t)| == 0;
    } else {
      var i := MatchFirst(s, t);
      TotalOfPermutation(s[1..], t[..i] + t[i + 1..]);
      TotalWithoutOne(t, i);
    }
  }

  lemma {:induction false} FittingOfPermutation(s: seq<Entry>, t: seq<Entry>, limit: int, total: int)
    requires multiset(s) == multiset(t)
    ensures TotalSize(Fitting(s, limit, total)) == TotalSize(Fitting(t, limit, total))
    ensures Fitting(s, limit, total) == [] <==> Fitting(t, limit, total) == []
  {
    var f, g := Fitting(s, limit, total), Fitting(t, limit, total);
    forall x
      ensures multiset(f)[x] == multiset(g)[x]
    {
      FittingCount(s, limit, total, x);
      FittingCount(t, limit, total, x);
    }
    assert multiset(f) == multiset(g);
    assert |f| == |multiset(f)| == |multiset(g)| == |g|;
    TotalOfPermutation(f, g);
  }

  // Classes of sorted lists

  lemma {:induction false} CountFirst(s: seq<Entry>, x: Entry)
    requires s != []
    ensures multiset(s)[x] == (if s[0] == x then 1 else 0) + multiset(s[1..])[x]
  {
    assert s == [s[0]] + s[1..];
  }

  /** The leading class of a sorted list holds all answers that tie with its first. */
  lemma {:induction false} LeadingClass(s: seq<Entry>, g: Entry, x: Entry)
    requires Ordered(s) && forall i :: 0 <= i < |s| ==> !Less(s[i], g)
    ensures multiset(s[..LeadingTies(s, g)])[x] == if Tied(x, g) then multiset(s)[x] else 0
  {
    var k := LeadingTies(s, g);
    if s == [] {
    } else if Tied(s[0], g) {
      LeadingClass(s[1..], g, x);
      CountFirst(s, x);
      CountFirst(s[..k], x);
      assert s[..k][1..] == s[1..][..k - 1];
    } else {
      NoTieBehind(s, g, x);
      assert s[..k] == [];
    }
  }

  lemma {:induction false} NoTieBehind(s: seq<Entry>, g: Entry, x: Entry)
    requires Ordered(s) && s != [] && Less(g, s[0])
    ensures Tied(x, g) ==> x !in s
  {
    if x in s {
      FirstIsLeast(s, x);
      LessIsStrictWeakOrder(g, s[0], x);
    }
  }

  lemma {:induction false} FirstIsLeast(s: seq<Entry>, x: Entry)
    requires Ordered(s) && x in s
    ensures !Less(x, s[0])
  {
    LessIsStrictWeakOrder(x, x, x);
  }

  lemma {:induction false} LeadingTiesAgree(s: seq<Entry>, g: Entry, h: Entry)
    requires Tied(g, h)
    ensures LeadingTies(s, g) == LeadingTies(s, h)
  {
    if s != [] {
      LessIsStrictWeakOrder(s[0], g, h);
      LessIsStrictWeakOrder(s[0], h, g);
      LeadingTiesAgree(s[1..], g, h);
    }
  }

  lemma {:induction false} SameRest(s: seq<Entry>, t: seq<Entry>, k: nat)
    requires k <= |s| && k <= |t| && multiset(s) == multiset(t) && multiset(s[..k]) == multiset(t[..k])
    ensures multiset(s[k..]) == multiset(t[k..])
  {
    assert s == s[..k] + s[k..] && t == t[..k] + t[k..];
    assert multiset(s[k..]) == multiset(s) - multiset(s[..k]);
    assert multiset(t[k..]) == multiset(t) - multiset(t[..k]);
  }

  /** Two sorted lists of the same answers have the same leading class and the same others. */
  lemma {:induction false} SameClasses(s: seq<Entry>, t: seq<Entry>)
    requires Ordered(s) && Ordered(t) && multiset(s) == multiset(t) && s != []
    ensures t != [] && LeadingTies(s, s[0]) == LeadingTies(t, t[0]) > 0
    ensures var k := LeadingTies(s, s[0]); multiset(s[..k]) == multiset(t[..k]) && multiset(s[k..]) == multiset(t[k..])
  {
    assert |multiset(t)| == |s|;
    var g := s[0];
    assert g in multiset(s) && t[0] in multiset(t);
    assert g in t && t[0] in s;
    FirstIsLeast(s, t[0]);
    FirstIsLeast(t, g);
    LeadingTiesAgree(t, g, t[0]);
    LessIsStrictWeakOrder(g, g, g);
    SameLeadingClass(s, t, g);
    SameRest(s, t, LeadingTies(s, g));
  }

  lemma {:induction false} SameLeadingClass(s: seq<Entry>, t: seq<Entry>, g: Entry)
    requires Ordered(s) && Ordered(t) && multiset(s) == multiset(t) && s != [] && g == s[0]
    ensures LeadingTies(s, g) == LeadingTies(t, g)
    ensures multiset(s[..LeadingTies(s, g)]) == multiset(t[..LeadingTies(t, g)])
  {
    forall y | y in s
      ensures !Less(y, g)
    {
      FirstIsLeast(s, y);
    }
    forall y | y in t
      ensures !Less(y, g)
    {
      assert y in multiset(t) && y in multiset(s);
    }
    var a, b := s[..LeadingTies(s, g)], t[..LeadingTies(t, g)];
    forall x
      ensures multiset(a)[x] == multiset(b)[x]
    {
      LeadingClass(s, g, x);
      LeadingClass(t, g, x);
    }
    assert multiset(a) == multiset(b);
    assert |multiset(a)| == |a| && |multiset(b)| == |b|;
  }

  // The condition is enough

  lemma {:induction false} WalkClass(s: seq<Entry>, k: nat, limit: int, total: int, next: int, x: Entry)
    requires k <= |s| && ClassSettles(s[..k], limit, total, next)
    ensures Takes(s, limit, total, x) <==> (x in s[..k] && total + SizeOf(x) < limit) || Takes(s[k..], limit, next, x)
  {
    FittingMembers(s[..k], limit, total, x);
    WalkSettled(s[..k], s[k..], limit, total, total, x);
    assert s[..k] + s[k..] == s;
  }

  lemma {:induction false} ClassSettlesInAnyOrder(c: seq<Entry>, c': seq<Entry>, limit: int, total: int, next: int)
    requires multiset(c) == multiset(c') && ClassSettles(c, limit, total, next)
    ensures ClassSettles(c', limit, total, next)
  {
    FittingOfPermutation(c, c', limit, total);
  }

  /** A class that settles is walked past, in whatever order it stands. */
  lemma {:induction false} PastSettledClass(s: seq<Entry>, t: seq<Entry>, k: nat, limit: int, total: int, next: int, x: Entry)
    requires k <= |s| && k <= |t| && multiset(s[..k]) == multiset(t[..k]) && ClassSettles(s[..k], limit, total, next)
    requires Takes(s[k..], limit, next, x) <==> Takes(t[k..], limit, next, x)
    ensures Takes(s, limit, total, x) <==> Takes(t, limit, total, x)
  {
    ClassSettlesInAnyOrder(s[..k], t[..k], limit, total, next);
    WalkClass(s, k, limit, total, next, x);
    WalkClass(t, k, limit, total, next, x);
    assert x in s[..k] <==> x in multiset(s[..k]);
    assert x in t[..k] <==> x in multiset(t[..k]);
  }

  lemma {:induction false} SettledTakesTheSame(s: seq<Entry>, t: seq<Entry>, limit: int, total: int, x: Entry)
    requires Ordered(s) && Ordered(t) && multiset(s) == multiset(t) && Settles(s, limit, total)
    ensures Takes(s, limit, total, x) <==> Takes(t, limit, total, x)
    decreases |s|, 1
  {
    if s == [] {
      assert |multiset(t)| == 0;
    } else {
      SameClasses(s, t);
      var k := LeadingTies(s, s[0]);
      SettledLater(s, t, k, limit, total, total + TotalSize(Fitting(s[..k], limit, total)), x);
    }
  }

  lemma {:induction false} SettledLater(s: seq<Entry>, t: seq<Entry>, k: nat, limit: int, total: int, next: int, x: Entry)
    requires 0 < k <= |s| && k <= |t| && Ordered(s) && Ordered(t)
    requires multiset(s[..k]) == multiset(t[..k]) && multiset(s[k..]) == multiset(t[k..])
    requires ClassSettles(s[..k], limit, total, next) && Settles(s[k..], limit, next)
    ensures Takes(s, limit, total, x) <==> Takes(t, limit, total, x)
    decreases |s|, 0
  {
    OrderedSuffix(s, k);
    OrderedSuffix(t, k);
    SettledTakesTheSame(s[k..], t[k..], limit, next, x);
    PastSettledClass(s, t, k, limit, total, next, x);
  }

  lemma {:induction false} OrderedSuffix(s: seq<Entry>, k: nat)
    requires Ordered(s) && k <= |s|
    ensures Ordered(s[k..])
  {
  }

  // and necessary

  ghost predicate Distinct(s: seq<Entry>) {
    forall i, j :: 0 <= i < j < |s| ==> s[i] != s[j]
  }

  lemma {:induction false} TakenIsMember(s: seq<Entry>, limit: int, total: int, x: Entry)
    requires Takes(s, limit, total, x)
    ensures x in s
  {
    if total + SizeOf(s[0]) >= limit {
      TakenIsMember(s[1..], limit, total, x);
    } else if x != s[0] {
      TakenIsMember(s[1..], limit, total + SizeOf(s[0]), x);
    }
  }

  /** Unless all that fit alone fit together, one of them is left out. */
  lemma {:induction false} OneLeftOut(c: seq<Entry>, rest: seq<Entry>, limit: int, base: int, total: int) returns (x: Entry)
    requires base <= total && Distinct(c + rest)
    requires var fitting := Fitting(c, limit, base); fitting != [] && total + TotalSize(fitting) >= limit
    ensures x in c && base + SizeOf(x) < limit && !Takes(c + rest, limit, total, x)
  {
    var y, later, tail := c[0], Fitting(c[1..], limit, base), c[1..] + rest;
    assert (c + rest)[1..] == tail && (c + rest)[0] == y;
    assert y !in tail by {
      forall i | 0 <= i < |tail|
        ensures tail[i] != y
      {
        assert tail[i] == (c + rest)[i + 1];
      }
    }
    if base + SizeOf(y) >= limit {
      assert Fitting(c, limit, base) == later;
      x := OneLeftOut(c[1..], rest, limit, base, total);
    } else if total + SizeOf(y) >= limit {
      x := y;
      if Takes(tail, limit, total, x) {
        TakenIsMember(tail, limit, total, x);
      }
    } else {
      assert Fitting(c, limit, base) == [y] + later && ([y] + later)[1..] == later;
      x := OneLeftOut(c[1..], rest, limit, base, total + SizeOf(y));
    }
  }

  lemma {:induction false} MovedToFront(s: seq<Entry>, i: nat, t: seq<Entry>, a: nat, b: nat)
    requires Ordered(s) && i < |s| && Tied(s[i], s[0]) && t == [s[i]] + (s[..i] + s[i + 1..]) && a < b < |t|
    ensures !Less(t[b], t[a])
  {
    var j := if b <= i then b - 1 else b;
    assert t[b] == s[j];
    if a == 0 {
      FirstIsLeast(s, s[j]);
      LessIsStrictWeakOrder(s[i], s[0], s[j]);
    } else {
      var m := if a <= i then a - 1 else a;
      assert t[a] == s[m] && m < j;
    }
  }

  lemma {:induction false} AllMovedToFront(s: seq<Entry>, i: nat, t: seq<Entry>)
    requires Ordered(s) && i < |s| && Tied(s[i], s[0]) && t == [s[i]] + (s[..i] + s[i + 1..])
    ensures Ordered(t)
  {
    forall a, b | 0 <= a < b < |t|
      ensures !Less(t[b], t[a])
    {
      MovedToFront(s, i, t, a, b);
    }
  }

  lemma {:induction false} LeftOutOfClass(s: seq<Entry>, k: nat, limit: int, total: int, next: int) returns (i: nat)
    requires Distinct(s) && k <= |s|
    requires next == total + TotalSize(Fitting(s[..k], limit, total)) && !ClassSettles(s[..k], limit, total, next)
    ensures i < k && total + SizeOf(s[i]) < limit && !Takes(s, limit, total, s[i])
  {
    assert s == s[..k] + s[k..];
    var x := OneLeftOut(s[..k], s[k..], limit, total, total);
    i :| 0 <= i < k && s[..k][i] == x;
  }

  /** Where a class does not settle, an answer that is left out would be taken as the first of its class. */
  lemma {:induction false} UnsettledClass(s: seq<Entry>, k: nat, limit: int, total: int, next: int) returns (t: seq<Entry>, x: Entry)
    requires Ordered(s) && Distinct(s) && s != [] && k == LeadingTies(s, s[0])
    requires next == total + TotalSize(Fitting(s[..k], limit, total)) && !ClassSettles(s[..k], limit, total, next)
    ensures Ordered(t) && multiset(t) == multiset(s) && x in s
    ensures Takes(t, limit, total, x) && !Takes(s, limit, total, x)
  {
    var i := LeftOutOfClass(s, k, limit, total, next);
    x := s[i];
    t := [x] + (s[..i] + s[i + 1..]);
    WithoutOne(s, i);
    AllMovedToFront(s, i, t);
  }

  lemma {:induction false} Behind(c: seq<Entry>, rest: seq<Entry>, later: seq<Entry>)
    requires Ordered(c + rest) && Ordered(later) && multiset(later) == multiset(rest)
    ensures Ordered(c + later) && multiset(c + later) == multiset(c + rest)
  {
    var t := c + later;
    forall i, j | 0 <= i < j < |t|
      ensures !Less(t[j], t[i])
    {
      if i < |c| <= j {
        assert later[j - |c|] in multiset(later) && later[j - |c|] in multiset(rest);
        var m :| 0 <= m < |rest| && rest[m] == later[j - |c|];
        assert (c + rest)[|c| + m] == t[j] && (c + rest)[i] == t[i];
      } else if j < |c| {
        assert (c + rest)[i] == t[i] && (c + rest)[j] == t[j];
      }
    }
  }

  lemma {:induction false} DistinctParts(s: seq<Entry>, k: nat, x: Entry)
    requires Distinct(s) && k <= |s| && x in s[k..]
    ensures Distinct(s[k..]) && x !in s[..k] && x in s
  {
    var j :| 0 <= j < |s[k..]| && s[k..][j] == x;
    assert s[k + j] == x;
  }

  lemma {:induction false} Unsettled(s: seq<Entry>, limit: int, total: int) returns (t: seq<Entry>, x: Entry)
    requires Ordered(s) && Distinct(s) && !Settles(s, limit, total)
    ensures Ordered(t) && multiset(t) == multiset(s) && x in s
    ensures Takes(t, limit, total, x) && !Takes(s, limit, total, x)
    decreases |s|, 1
  {
    var k := LeadingTies(s, s[0]);
    LessIsStrictWeakOrder(s[0], s[0], s[0]);
    var next := total + TotalSize(Fitting(s[..k], limit, total));
    if ClassSettles(s[..k], limit, total, next) {
      t, x := UnsettledLater(s, k, limit, total, next);
    } else {
      t, x := UnsettledClass(s, k, limit, total, next);
    }
  }

  lemma {:induction false} UnsettledLater(s: seq<Entry>, k: nat, limit: int, total: int, next: int) returns (t: seq<Entry>, x: Entry)
    requires Ordered(s) && Distinct(s) && 0 < k <= |s| && !Settles(s[k..], limit, next)
    requires ClassSettles(s[..k], limit, total, next)
    ensures Ordered(t) && multiset(t) == multiset(s) && x in s
    ensures Takes(t, limit, total, x) && !Takes(s, limit, total, x)
    decreases |s|, 0
  {
    OrderedSuffix(s, k);
    var later;
    later, x := Unsettled(s[k..], limit, next);
    t := s[..k] + later;
    assert s[..k] + s[k..] == s;
    Behind(s[..k], s[k..], later);
    DistinctParts(s, k, x);
    WalkClass(s, k, limit, total, next, x);
    assert t[..k] == s[..k] && t[k..] == later;
    WalkClass(t, k, limit, total, next, x);
  }

  // What is taken, exactly

  /** `t` is another order in which the answers `s` may arrive. */
  ghost predicate Rearrival(s: seq<Entry>, t: seq<Entry>) {
    AllPresent(t) && multiset(t) == multiset(s)
  }

  predicate OneAnswerPerPeer(s: seq<Entry>)
    requires AllPresent(s)
  {
    forall i, j :: 0 <= i < j < |s| ==> s[i].value.peer != s[j].value.peer
  }

  lemma {:induction false} WalkTakes(s: seq<Entry>, limit: int, total: int, r: Response)
    requires AllPresent(s)
    ensures Takes(s, limit, total, Some(r)) <==> exists i :: 0 <= i < |s| && Taken(Values(s), limit, total)[i] && Values(s)[i] == r
  {
    if s != [] {
      var rs, keep := Values(s), Taken(Values(s), limit, total);
      var next := total + if keep[0] then rs[0].size else 0;
      assert Values(s[1..]) == rs[1..] && keep[1..] == Taken(rs[1..], limit, next);
      WalkTakes(s[1..], limit, next, r);
      if i :| 0 <= i < |s| && keep[i] && rs[i] == r {
        assert i == 0 || (keep[1..][i - 1] && rs[1..][i - 1] == r);
      }
      if j :| 0 <= j < |s| - 1 && keep[1..][j] && rs[1..][j] == r {
        assert keep[j + 1] && rs[j + 1] == r;
      }
    }
  }

  lemma {:induction false} TakenAnswersAre(s: seq<Entry>, limit: int, r: Response)
    requires AllPresent(s)
    ensures r in TakenAnswers(s, limit) <==> Takes(Sort(s), limit, 0, Some(r))
  {
    SortKeepsMembers(s);
    WalkTakes(Sort(s), limit, 0, r);
  }

  /** A sorted list is what sorting makes of it. */
  lemma {:induction false} SortedStays(s: seq<Entry>)
    requires Ordered(s)
    ensures Sort(s) == s
  {
    SortIsStable(s);
    StableSortUnique(Sort(s), s);
  }

  lemma {:induction false} DistinctSorted(s: seq<Entry>)
    requires Distinct(s)
    ensures Distinct(Sort(s))
  {
    SortPermutes(s);
    var t := Sort(s);
    forall i, j | 0 <= i < j < |t|
      ensures t[i] != t[j]
    {
      if t[i] == t[j] {
        assert t == t[..i] + [t[i]] + t[i + 1..j] + [t[i]] + t[j + 1..];
        TwoOccurrences(s, t[i]);
      }
    }
  }

  /** If the tie classes settle, every order of arrival has the same answers taken. */
  lemma {:induction false} SettledIgnoresArrivalOrder(s: seq<Entry>, t: seq<Entry>, limit: int)
    requires AllPresent(s) && Rearrival(s, t) && Settles(Sort(s), limit, 0)
    ensures TakenAnswers(t, limit) == TakenAnswers(s, limit)
  {
    SortPermutes(s);
    SortPermutes(t);
    SortIsStable(s);
    SortIsStable(t);
    forall r
      ensures r in TakenAnswers(t, limit) <==> r in TakenAnswers(s, limit)
    {
      SettledTakesTheSame(Sort(s), Sort(t), limit, 0, Some(r));
      TakenAnswersAre(s, limit, r);
      TakenAnswersAre(t, limit, r);
    }
  }

  /** If they do not, some order of arrival has an answer taken that this one has not. */
  lemma {:induction false} UnsettledDependsOnArrivalOrder(s: seq<Entry>, limit: int) returns (t: seq<Entry>, r: Response)
    requires AllPresent(s) && Distinct(s) && !Settles(Sort(s), limit, 0)
    ensures Rearrival(s, t) && r in TakenAnswers(t, limit) && r !in TakenAnswers(s, limit)
  {
    SortIsStable(s);
    SortPermutes(s);
    SortKeepsMembers(s);
    DistinctSorted(s);
    var x;
    t, x := Unsettled(Sort(s), limit, 0);
    assert x.Some?;
    r := x.value;
    forall i | 0 <= i < |t|
      ensures t[i].Some?
    {
      assert t[i] in multiset(t) && t[i] in multiset(Sort(s));
      assert t[i] in Sort(s);
    }
    SortedStays(t);
    TakenAnswersAre(s, limit, r);
    TakenAnswersAre(t, limit, r);
  }

  /** The exact condition: the same answers are taken in every order of arrival if and only if, class by class, either
      none of the tied answers fits or all of them fit together that fit alone. */
  lemma {:induction false} SameAnswersExactlyIfSettled(s: seq<Entry>, limit: int)
    requires AllPresent(s) && OneAnswerPerPeer(s)
    ensures (forall t :: Rearrival(s, t) ==> TakenAnswers(t, limit) == TakenAnswers(s, limit)) <==> Settles(Sort(s), limit, 0)
  {
    if Settles(Sort(s), limit, 0) {
      forall t | Rearrival(s, t)
        ensures TakenAnswers(t, limit) == TakenAnswers(s, limit)
      {
        SettledIgnoresArrivalOrder(s, t, limit);
      }
    } else {
      var t, r := UnsettledDependsOnArrivalOrder(s, limit);
    }
  }

  // and so the response

  /** Each answer brings something, and no two answers speak of the same shard. */
  ghost predicate Separate(s: seq<Entry>)
    requires AllPresent(s)
  {
    && (forall i :: 0 <= i < |s| ==> exists k :: k in s[i].value.messages)
    && (forall i, j :: 0 <= i < j < |s| ==> s[i].value.messages.Keys !! s[j].value.messages.Keys)
  }

  lemma {:induction false} SettledResponse(s: seq<Entry>, t: seq<Entry>, limit: int)
    requires AllPresent(s) && Rearrival(s, t) && Settles(Sort(s), limit, 0) && Agree(Values(s))
    ensures Build(t, limit) == Build(s, limit)
  {
    SettledIgnoresArrivalOrder(s, t, limit);
    ValuesPermute(s, t);
    AgreementOfPermutation(Values(s), Values(t));
    forall k
      ensures k in Build(t, limit) <==> k in Build(s, limit)
      ensures k in Build(s, limit) ==> Build(t, limit)[k] == Build(s, limit)[k]
    {
      BuildHolds(s, limit, k);
      BuildHolds(t, limit, k);
    }
  }

  lemma {:induction false} SeparateAgree(s: seq<Entry>)
    requires AllPresent(s) && Separate(s)
    ensures Agree(Values(s)) && Distinct(s)
  {
    forall a, b, k | a in Values(s) && b in Values(s) && k in a.messages && k in b.messages
      ensures a == b
    {
      var i :| 0 <= i < |s| && Values(s)[i] == a;
      var j :| 0 <= j < |s| && Values(s)[j] == b;
      assert k in s[i].value.messages.Keys && k in s[j].value.messages.Keys;
    }
    forall i, j | 0 <= i < j < |s|
      ensures s[i] != s[j]
    {
      var k :| k in s[i].value.messages;
      assert k in s[i].value.messages.Keys;
    }
  }

  /** Where every peer brings shards of its own, the response itself tells the orders of arrival apart: it is the same
      for all of them if and only if the tie classes settle. */
  lemma {:induction false} SameResponseExactlyIfSettled(s: seq<Entry>, limit: int)
    requires AllPresent(s) && Separate(s)
    ensures (forall t :: Rearrival(s, t) ==> Build(t, limit) == Build(s, limit)) <==> Settles(Sort(s), limit, 0)
  {
    SeparateAgree(s);
    if Settles(Sort(s), limit, 0) {
      forall t | Rearrival(s, t)
        ensures Build(t, limit) == Build(s, limit)
      {
        SettledResponse(s, t, limit);
      }
    } else {
      var t, r := UnsettledDependsOnArrivalOrder(s, limit);
      TakenIsAnswer(t, limit, r);
      assert Some(r) in multiset(t) && Some(r) in multiset(s);
      var i :| 0 <= i < |s| && s[i] == Some(r);
      var k :| k in s[i].value.messages;
      ValuesPermute(s, t);
      AgreementOfPermutation(Values(s), Values(t));
      ResponseShowsAnswer(s, t, r, limit, k);
    }
  }

  lemma {:induction false} TakenIsAnswer(s: seq<Entry>, limit: int, r: Response)
    requires AllPresent(s) && r in TakenAnswers(s, limit)
    ensures Some(r) in s
  {
    SortKeepsMembers(s);
    TakenAnswersAre(s, limit, r);
    TakenIsMember(Sort(s), limit, 0, Some(r));
  }

  lemma {:induction false} OwnerIsUnique(s: seq<Entry>, r: Response, q: Response, k: int)
    requires AllPresent(s) && Separate(s) && Some(r) in s && Some(q) in s && k in r.messages && k in q.messages
    ensures r == q
  {
    var i :| 0 <= i < |s| && s[i] == Some(r);
    var j :| 0 <= j < |s| && s[j] == Some(q);
    assert k in s[i].value.messages.Keys && k in s[j].value.messages.Keys;
  }

  lemma {:induction false} ResponseShowsAnswer(s: seq<Entry>, t: seq<Entry>, r: Response, limit: int, k: int)
    requires AllPresent(s) && Separate(s) && Agree(Values(s)) && AllPresent(t) && Agree(Values(t))
    requires Some(r) in s && k in r.messages && r in TakenAnswers(t, limit) && r !in TakenAnswers(s, limit)
    ensures k in Build(t, limit) && k !in Build(s, limit)
  {
    BuildHolds(t, limit, k);
    BuildHolds(s, limit, k);
    if k in Build(s, limit) {
      var q :| q in TakenAnswers(s, limit) && k in q.messages;
      TakenIsAnswer(s, limit, q);
      OwnerIsUnique(s, r, q, k);
    }
  }

  // Two cases in which the classes settle

  /** No two answers tie. */
  predicate NoTies(s: seq<Entry>) {
    forall i, j :: 0 <= i < j < |s| ==> !Tied(s[i], s[j])
  }

  lemma {:induction false} FittingAtMost(s: seq<Entry>, limit: int, total: int)
    ensures TotalSize(Fitting(s, limit, total)) <= TotalSize(s)
  {
    if s != [] {
      FittingAtMost(s[1..], limit, total);
      TotalOfSplit(if total + SizeOf(s[0]) < limit then [s[0]] else [], Fitting(s[1..], limit, total));
    }
  }

  lemma {:induction false} AllFitSettles(s: seq<Entry>, limit: int, total: int)
    requires total + TotalSize(s) < limit
    ensures Settles(s, limit, total)
    decreases |s|
  {
    if s != [] {
      var k := LeadingTies(s, s[0]);
      FittingAtMost(s[..k], limit, total);
      assert s == s[..k] + s[k..];
      TotalOfSplit(s[..k], s[k..]);
      AllFitSettles(s[k..], limit, total + TotalSize(Fitting(s[..k], limit, total)));
    }
  }

  lemma {:induction false} TiedAlone(s: seq<Entry>, g: Entry, x: Entry)
    requires NoTies(s) && x in s && Tied(x, g)
    ensures TiedWith(s, g) == [x]
  {
    var n := |s| - 1;
    var y := s[n];
    if y == x {
      forall z | z in s[..n]
        ensures !Tied(z, g)
      {
        LessIsStrictWeakOrder(z, g, x);
      }
      NoneTied(s[..n], g);
    } else {
      assert s == s[..n] + [y];
      assert x in s[..n];
      LessIsStrictWeakOrder(x, g, y);
      var i :| 0 <= i < n && s[i] == x;
      TiedAlone(s[..n], g, x);
    }
  }

  lemma {:induction false} TwoOccurrences(s: seq<Entry>, x: Entry)
    requires multiset(s)[x] >= 2
    ensures exists i, j :: 0 <= i < j < |s| && s[i] == x && s[j] == x
  {
    var n := |s| - 1;
    assert s == s[..n] + [s[n]];
    if s[n] == x {
      assert x in multiset(s[..n]);
      var i :| 0 <= i < n && s[i] == x;
    } else {
      TwoOccurrences(s[..n], x);
    }
  }

  lemma {:induction false} NoTiesOfPermutation(s: seq<Entry>, t: seq<Entry>)
    requires NoTies(s) && multiset(s) == multiset(t)
    ensures NoTies(t)
  {
    forall i, j | 0 <= i < j < |t|
      ensures !Tied(t[i], t[j])
    {
      var x, y := t[i], t[j];
      if x == y {
        assert t == t[..i] + [x] + t[i + 1..j] + [x] + t[j + 1..];
        TwoOccurrences(s, x);
      } else {
        assert x in multiset(t) && y in multiset(t);
        assert x in s && y in s;
        LessIsStrictWeakOrder(x, y, x);
      }
    }
  }

  /** Without ties the sorted order is the same for every arrival order. */
  lemma {:induction false} SortWithoutTies(s: seq<Entry>, t: seq<Entry>)
    requires multiset(s) == multiset(t) && NoTies(s)
    ensures Sort(s) == Sort(t)
  {
    NoTiesOfPermutation(s, t);
    SortIsStable(s);
    SortIsStable(t);
    forall g
      ensures TiedWith(Sort(s), g) == TiedWith(Sort(t), g)
    {
      assert TiedWith(Sort(s), g) == TiedWith(s, g) && TiedWith(Sort(t), g) == TiedWith(t, g);
      TiedOfPermutation(s, t, g);
    }
    StableSortUnique(Sort(s), Sort(t));
  }

  lemma {:induction false} TiedOfPermutation(s: seq<Entry>, t: seq<Entry>, g: Entry)
    requires multiset(s) == multiset(t) && NoTies(s) && NoTies(t)
    ensures TiedWith(s, g) == TiedWith(t, g)
  {
    if x :| x in s && Tied(x, g) {
      assert x in multiset(s) && x in multiset(t);
      TiedAlone(s, g, x);
      TiedAlone(t, g, x);
    } else {
      NoneTied(s, g);
      forall x | x in t
        ensures !Tied(x, g)
      {
        assert x in multiset(t) && x in multiset(s);
      }
      NoneTied(t, g);
    }
  }

  lemma {:induction false} NoneTied(s: seq<Entry>, g: Entry)
    requires forall x :: x in s ==> !Tied(x, g)
    ensures TiedWith(s, g) == []
  {
    if s != [] {
      NoneTied(s[..|s| - 1], g);
      assert s[|s| - 1] in s;
    }
  }

  lemma {:induction false} NoTiesSettle(s: seq<Entry>, limit: int, total: int)
    requires NoTies(s)
    ensures Settles(s, limit, total)
    decreases |s|
  {
    if s != [] {
      var k := LeadingTies(s, s[0]);
      if |s| > 1 {
        assert !Tied(s[0], s[1]);
      }
      var c := s[..k];
      assert k == 1 && c[1..] == [];
      assert Fitting(c, limit, total) == (if total + SizeOf(c[0]) < limit then [c[0]] else []) + Fitting(c[1..], limit, total);
      NoTiesSettle(s[k..], limit, total + TotalSize(Fitting(c, limit, total)));
    }
  }

  /** The whole response is the same in every order of arrival if no two answers tie, or if the tie classes settle, as
      they do when everything fits, and no answer contradicts another. */
  lemma {:induction false} ArrivalOrderDoesNotMatter(s: seq<Entry>, t: seq<Entry>, limit: int)
    requires AllPresent(s) && Rearrival(s, t)
    requires NoTies(s) || ((Settles(Sort(s), limit, 0) || TotalSize(s) < limit) && Agree(Values(s)))
    ensures Build(t, limit) == Build(s, limit)
    ensures Settles(Sort(s), limit, 0) && TakenAnswers(t, limit) == TakenAnswers(s, limit)
  {
    if NoTies(s) {
      SortWithoutTies(s, t);
      SortPermutes(s);
      NoTiesOfPermutation(s, Sort(s));
      NoTiesSettle(Sort(s), limit, 0);
    } else {
      if TotalSize(s) < limit {
        SortPermutes(s);
        TotalOfPermutation(s, Sort(s));
        AllFitSettles(Sort(s), limit, 0);
      }
      SettledResponse(s, t, limit);
      SettledIgnoresArrivalOrder(s, t, limit);
    }
  }

  /** With a tie of which only one fits, it does: the first to arrive is the one taken. */
  lemma {:induction false} TieGoesToFirstArrival(r: Response, q: Response, limit: int)
    requires Tied(Some(r), Some(q)) && r.size < limit <= r.size + q.size
    ensures Build([Some(r), Some(q)], limit) == r.messages
  {
    SortTwo(Some(r), Some(q));
    SortKeepsMembers([Some(r), Some(q)]);
    assert Values([Some(r), Some(q)]) == [r, q];
    OneOfTwo(r, q, limit);
  }

  lemma {:induction false} SortTwo(a: Entry, b: Entry)
    requires Tied(a, b)
    ensures Sort([a, b]) == [a, b]
  {
    assert [a, b][..1] == [a] && [a][..0] == Sort([]);
    assert Sort([a]) == Insert(Sort([]), a) == [a];
    assert Insert([a], b) == [a] + [b];
  }

  lemma {:induction false} OneOfTwo(r: Response, q: Response, limit: int)
    requires r.size < limit <= r.size + q.size
    ensures Merged([r, q], Taken([r, q], limit, 0)) == r.messages
  {
    assert [r, q][1..] == [q] && [q][1..] == [];
    assert Taken([q], limit, r.size) == [false];
    assert Taken([r, q], limit, 0) == [true, false];
    assert [r, q][..1] == [r] && [true, false][..1] == [true] && [r][..0] == [];
    assert Merged([r], [true]) == map[] + r.messages;
  }
}
