/** Merging the peers' answers to a replication request: oldest first, as many as fit. */
module ReplicationMerge {
  import opened Wrappers

  /** A peer's answer: messages by shard, its size on the wire, and the creation time of its oldest task, if any. */
  datatype Response = Response(peer: string, messages: map<int, string>, size: nat, earliest: Option<int>)

  /** The entries to be sorted are pointers. */
  type Entry = Option<Response>

  predicate Timed(a: Entry) {
    a.Some? && a.value.earliest.Some?
  }

  /** The comparison handed to the library's stable sort. */
  function Cmp(a: Entry, b: Entry): int {
    if !Timed(a) then 1
    else if !Timed(b) then -1
    else if a.value.earliest.value < b.value.earliest.value then -1
    else if a.value.earliest.value > b.value.earliest.value then 1
    else if a.value.size < b.value.size then -1
    else if a.value.size > b.value.size then 1
    else 0
  }

  /** All that the sort asks of it. */
  predicate Less(a: Entry, b: Entry) {
    Cmp(a, b) < 0
  }

  predicate Tied(a: Entry, b: Entry) {
    !Less(a, b) && !Less(b, a)
  }

  /** `Cmp` is no ordering (two untimed entries each count as the greater), but `Less` is a strict weak order. */
  lemma {:induction false} LessIsStrictWeakOrder(a: Entry, b: Entry, c: Entry)
    ensures !Less(a, a)
    ensures Less(a, b) ==> !Less(b, a)
    ensures Less(a, b) && Less(b, c) ==> Less(a, c)
    ensures Tied(a, b) && Tied(b, c) ==> Tied(a, c)
    ensures !Less(b, a) && !Less(c, b) ==> !Less(c, a)
  {
  }

  /** What the order means: among timed entries the older come first, the smaller among those of the same age, and
      entries without a time come last. */
  lemma {:induction false} OrderedOldestFirst(s: seq<Entry>, i: nat, j: nat)
    requires Ordered(s) && i < j < |s|
    ensures Timed(s[j]) ==> Timed(s[i])
    ensures Timed(s[j]) ==> s[i].value.earliest.value <= s[j].value.earliest.value
    ensures Timed(s[j]) && s[i].value.earliest == s[j].value.earliest ==> s[i].value.size <= s[j].value.size
    ensures Tied(s[i], s[j]) <==>
            (!Timed(s[i]) && !Timed(s[j])) ||
            (Timed(s[i]) && Timed(s[j]) && s[i].value.earliest == s[j].value.earliest && s[i].value.size == s[j].value.size)
  {
    assert !Less(s[j], s[i]);
  }

  // The stable sort

  /** Inserts behind everything that is not greater. */
  function Insert(s: seq<Entry>, x: Entry): (r: seq<Entry>)
    ensures |r| == |s| + 1
  {
    if s == [] || !Less(x, s[|s| - 1]) then s + [x] else Insert(s[..|s| - 1], x) + [s[|s| - 1]]
  }

  function Sort(s: seq<Entry>): (r: seq<Entry>)
    ensures |r| == |s|
  {
    if s == [] then [] else Insert(Sort(s[..|s| - 1]), s[|s| - 1])
  }

  ghost predicate Ordered(s: seq<Entry>) {
    forall i, j :: 0 <= i < j < |s| ==> !Less(s[j], s[i])
  }

  /** The entries that tie with `g`, in order. */
  function TiedWith(s: seq<Entry>, g: Entry): seq<Entry> {
    if s == [] then []
    else TiedWith(s[..|s| - 1], g) + if Tied(s[|s| - 1], g) then [s[|s| - 1]] else []
  }

  /** Same entries, with ties kept in the order they had. */
  ghost predicate StableRearrangement(r: seq<Entry>, s: seq<Entry>) {
    forall g :: TiedWith(r, g) == TiedWith(s, g)
  }

  lemma {:induction false} TiedWithAppend(s: seq<Entry>, x: Entry, g: Entry)
    ensures TiedWith(s + [x], g) == TiedWith(s, g) + if Tied(x, g) then [x] else []
  {
    assert (s + [x])[..|s|] == s;
  }

  lemma {:induction false} InsertTied(s: seq<Entry>, x: Entry, g: Entry)
    ensures TiedWith(Insert(s, x), g) == TiedWith(s, g) + if Tied(x, g) then [x] else []
  {
    if s == [] || !Less(x, s[|s| - 1]) {
      TiedWithAppend(s, x, g);
    } else {
      var last := s[|s| - 1];
      InsertTied(s[..|s| - 1], x, g);
      TiedWithAppend(Insert(s[..|s| - 1], x), last, g);
      LessIsStrictWeakOrder(x, g, last);
    }
  }

  lemma {:induction false} InsertOrdered(s: seq<Entry>, x: Entry)
    requires Ordered(s)
    ensures Ordered(Insert(s, x))
    ensures forall y :: y in Insert(s, x) <==> y in s || y == x
  {
    if s == [] {
    } else if !Less(x, s[|s| - 1]) {
      forall i | 0 <= i < |s|
        ensures !Less(x, s[i])
      {
        LessIsStrictWeakOrder(s[i], s[|s| - 1], x);
      }
    } else {
      var n := |s| - 1;
      var rest := Insert(s[..n], x);
      InsertOrdered(s[..n], x);
      assert s == s[..n] + [s[n]];
      forall i | 0 <= i < |rest|
        ensures !Less(s[n], rest[i])
      {
        assert rest[i] in rest;
        LessIsStrictWeakOrder(x, s[n], x);
      }
    }
  }

  lemma {:induction false} SortIsStable(s: seq<Entry>)
    ensures Ordered(Sort(s)) && StableRearrangement(Sort(s), s)
  {
    if s != [] {
      var n := |s| - 1;
      SortIsStable(s[..n]);
      InsertOrdered(Sort(s[..n]), s[n]);
      forall g
        ensures TiedWith(Sort(s), g) == TiedWith(s, g)
      {
        InsertTied(Sort(s[..n]), s[n], g);
      }
    }
  }

  lemma {:induction false} TiedWithMembers(s: seq<Entry>, g: Entry, x: Entry)
    ensures x in TiedWith(s, g) <==> x in s && Tied(x, g)
  {
    if s != [] {
      TiedWithMembers(s[..|s| - 1], g, x);
      assert s == s[..|s| - 1] + [s[|s| - 1]];
    }
  }

  /** `x` stands somewhere before `y`. */
  ghost predicate Before<T(!new)>(s: seq<T>, x: T, y: T) {
    exists i, j :: 0 <= i < j < |s| && s[i] == x && s[j] == y
  }

  lemma {:induction false} BeforeExtend<T(!new)>(s: seq<T>, z: T, x: T, y: T)
    ensures Before(s + [z], x, y) <==> Before(s, x, y) || (x in s && y == z)
  {
    var t := s + [z];
    if Before(s, x, y) {
      var i, j :| 0 <= i < j < |s| && s[i] == x && s[j] == y;
      assert t[i] == x && t[j] == y;
    }
    if x in s && y == z {
      var i :| 0 <= i < |s| && s[i] == x;
      assert t[i] == x && t[|s|] == y;
    }
  }

  lemma {:induction false} TiedKeepOrder(s: seq<Entry>, g: Entry, x: Entry, y: Entry)
    requires Tied(x, g) && Tied(y, g)
    ensures Before(TiedWith(s, g), x, y) <==> Before(s, x, y)
  {
    if s != [] {
      var n := |s| - 1;
      TiedKeepOrder(s[..n], g, x, y);
      assert s == s[..n] + [s[n]];
      BeforeExtend(s[..n], s[n], x, y);
      TiedWithMembers(s[..n], g, x);
      if Tied(s[n], g) {
        BeforeExtend(TiedWith(s[..n], g), s[n], x, y);
      } else {
        assert TiedWith(s, g) == TiedWith(s[..n], g) && s[n] != y;
      }
    }
  }

  /** Of two answers that tie, the sort leaves in front the one that was in front. */
  lemma {:induction false} TiesKeepTheirOrder(s: seq<Entry>, x: Entry, y: Entry)
    requires Tied(x, y)
    ensures Before(Sort(s), x, y) <==> Before(s, x, y)
  {
    SortIsStable(s);
    LessIsStrictWeakOrder(x, y, x);
    assert TiedWith(Sort(s), x) == TiedWith(s, x);
    TiedKeepOrder(Sort(s), x, x, y);
    TiedKeepOrder(s, x, x, y);
  }

  /** There is only one ordered stable rearrangement, so every stable sort returns what `Sort` returns. */
  lemma {:induction false} StableSortUnique(r: seq<Entry>, t: seq<Entry>)
    requires Ordered(r) && Ordered(t) && StableRearrangement(r, t)
    ensures r == t
  {
    if r == [] {
      if t != [] {
        TiedWithMembers(t, t[0], t[0]);
        TiedWithMembers(r, t[0], t[0]);
      }
    } else {
      TiedWithMembers(r, r[0], r[0]);
      TiedWithMembers(t, r[0], r[0]);
      var r', t', x := r[..|r| - 1], t[..|t| - 1], r[|r| - 1];
      LastsEqual(r, t);
      forall g
        ensures TiedWith(r', g) == TiedWith(t', g)
      {
        FrontsMatch(r, t, g);
      }
      StableSortUnique(r', t');
      assert r == r' + [x] && t == t' + [x];
    }
  }

  lemma {:induction false} SnocCancel<T>(a: seq<T>, x: T, b: seq<T>, y: T)
    requires a + [x] == b + [y]
    ensures a == b && x == y
  {
    assert a == (a + [x])[..|a|] && b == (b + [y])[..|a|];
    assert (a + [x])[|a|] == x;
  }

  lemma {:induction false} LastsTied(r: seq<Entry>, t: seq<Entry>)
    requires Ordered(r) && Ordered(t) && StableRearrangement(r, t) && r != [] && t != []
    ensures Tied(r[|r| - 1], t[|t| - 1])
  {
    var x, y := r[|r| - 1], t[|t| - 1];
    assert TiedWith(r, x) == TiedWith(t, x) && TiedWith(r, y) == TiedWith(t, y);
    TiedWithMembers(r, x, x);
    TiedWithMembers(t, x, x);
    TiedWithMembers(r, y, y);
    TiedWithMembers(t, y, y);
    LessIsStrictWeakOrder(x, x, x);
    LessIsStrictWeakOrder(y, y, y);
    var i :| 0 <= i < |t| && t[i] == x;
    var j :| 0 <= j < |r| && r[j] == y;
  }

  lemma {:induction false} LastsEqual(r: seq<Entry>, t: seq<Entry>)
    requires Ordered(r) && Ordered(t) && StableRearrangement(r, t) && r != [] && t != []
    ensures r[|r| - 1] == t[|t| - 1]
  {
    var x, y := r[|r| - 1], t[|t| - 1];
    LastsTied(r, t);
    LessIsStrictWeakOrder(x, x, x);
    assert TiedWith(r, x) == TiedWith(t, x);
    SnocCancel(TiedWith(r[..|r| - 1], x), x, TiedWith(t[..|t| - 1], x), y);
  }

  lemma {:induction false} FrontsMatch(r: seq<Entry>, t: seq<Entry>, g: Entry)
    requires r != [] && t != [] && r[|r| - 1] == t[|t| - 1] && TiedWith(r, g) == TiedWith(t, g)
    ensures TiedWith(r[..|r| - 1], g) == TiedWith(t[..|t| - 1], g)
  {
    var a, b, x := TiedWith(r[..|r| - 1], g), TiedWith(t[..|t| - 1], g), r[|r| - 1];
    if Tied(x, g) {
      SnocCancel(a, x, b, x);
    } else {
      assert a + [] == a && b + [] == b;
    }
  }

  lemma {:induction false} InsertPosition(s: seq<Entry>, x: Entry, j: nat)
    requires j <= |s| && (j > 0 ==> !Less(x, s[j - 1])) && forall k :: j <= k < |s| ==> Less(x, s[k])
    ensures Insert(s, x) == s[..j] + [x] + s[j..]
  {
    if j < |s| {
      var n := |s| - 1;
      InsertPosition(s[..n], x, j);
      assert s[..n][..j] == s[..j] && s[..n][j..] + [s[n]] == s[j..];
    }
  }

  method InsertInPlace(a: array<Entry>, i: nat)
    requires i < a.Length
    modifies a
    ensures a[..i + 1] == Insert(old(a[..i]), old(a[i])) && a[i + 1..] == old(a[i + 1..])
  {
    ghost var was, rest, x := a[..], a[i + 1..], a[i];
    assert rest == was[i + 1..];
    var j := i;
    while j > 0 && Less(a[j], a[j - 1])
      invariant 0 <= j <= i && a[j] == x
      invariant forall k :: 0 <= k < j || i < k < a.Length ==> a[k] == was[k]
      invariant forall k :: j < k <= i ==> a[k] == was[k - 1]
      invariant forall k :: j <= k < i ==> Less(x, was[k])
    {
      assert a[j - 1] == was[j - 1];
      a[j], a[j - 1] := a[j - 1], a[j];
      j := j - 1;
    }
    ghost var sorted := was[..i];
    InsertPosition(sorted, x, j);
    assert a[i + 1..] == rest;
    assert a[..i + 1] == sorted[..j] + [x] + sorted[j..];
  }

  /** The library's insertion sort, in place, for the comparison given to it. */
  method SortStable(a: array<Entry>)
    modifies a
    ensures a[..] == Sort(old(a[..]))
  {
    ghost var was := a[..];
    for i := 0 to a.Length
      invariant a[..i] == Sort(was[..i]) && a[i..] == was[i..]
    {
      assert a[i] == a[i..][0] == was[i];
      assert was[..i + 1][..i] == was[..i] && a[i..][1..] == a[i + 1..];
      InsertInPlace(a, i);
    }
    assert a[..] == a[..a.Length] && was[..a.Length] == was;
  }

  // Admission under the size limit

  /** Which answers are taken, walking the list with `total` bytes already taken. */
  function Taken(rs: seq<Response>, limit: int, total: int): (keep: seq<bool>)
    ensures |keep| == |rs|
  {
    if rs == [] then []
    else if total + rs[0].size >= limit then [false] + Taken(rs[1..], limit, total)
    else [true] + Taken(rs[1..], limit, total + rs[0].size)
  }

  function TakenSize(rs: seq<Response>, keep: seq<bool>): nat
    requires |rs| == |keep|
  {
    if rs == [] then 0 else (if keep[0] then rs[0].size else 0) + TakenSize(rs[1..], keep[1..])
  }

  /** The messages of the answers taken, later ones winning. */
  function Merged(rs: seq<Response>, keep: seq<bool>): map<int, string>
    requires |rs| == |keep|
  {
    if rs == [] then map[]
    else
      var n := |rs| - 1;
      Merged(rs[..n], keep[..n]) + if keep[n] then rs[n].messages else map[]
  }

  /** An answer is taken exactly when it stays below the limit on top of those taken before it. */
  lemma {:induction false} TakenExactlyIfFits(rs: seq<Response>, limit: int, total: int, i: nat)
    requires i < |rs|
    ensures var keep := Taken(rs, limit, total);
            keep[i] <==> total + TakenSize(rs[..i], keep[..i]) + rs[i].size < limit
  {
    if i > 0 {
      var keep := Taken(rs, limit, total);
      var next := total + if keep[0] then rs[0].size else 0;
      TakenExactlyIfFits(rs[1..], limit, next, i - 1);
      assert keep[1..] == Taken(rs[1..], limit, next);
      assert rs[..i][1..] == rs[1..][..i - 1] && keep[..i][1..] == keep[1..][..i - 1];
    }
  }

  /** What is taken stays below the limit, if anything is taken. */
  lemma {:induction false} TakenBelowLimit(rs: seq<Response>, limit: int, total: int)
    ensures true in Taken(rs, limit, total) ==> total + TakenSize(rs, Taken(rs, limit, total)) < limit
    ensures true !in Taken(rs, limit, total) ==> TakenSize(rs, Taken(rs, limit, total)) == 0
  {
    if rs != [] {
      var keep := Taken(rs, limit, total);
      var next := total + if keep[0] then rs[0].size else 0;
      TakenBelowLimit(rs[1..], limit, next);
      assert keep[1..] == Taken(rs[1..], limit, next);
      assert keep == [keep[0]] + keep[1..];
    }
  }

  lemma {:induction false} TakenSizeExtend(rs: seq<Response>, keep: seq<bool>, i: nat)
    requires |rs| == |keep| && i < |rs|
    ensures TakenSize(rs[..i + 1], keep[..i + 1]) == TakenSize(rs[..i], keep[..i]) + if keep[i] then rs[i].size else 0
  {
    if i > 0 {
      TakenSizeExtend(rs[1..], keep[1..], i - 1);
      assert rs[..i + 1][1..] == rs[1..][..i] && keep[..i + 1][1..] == keep[1..][..i];
      assert rs[..i][1..] == rs[1..][..i - 1] && keep[..i][1..] == keep[1..][..i - 1];
    }
  }

  // The merged response

  predicate AllPresent(s: seq<Entry>) {
    forall i :: 0 <= i < |s| ==> s[i].Some?
  }

  function Values(s: seq<Entry>): (rs: seq<Response>)
    requires AllPresent(s)
    ensures |rs| == |s| && forall i :: 0 <= i < |s| ==> rs[i] == s[i].value
  {
    seq(|s|, i requires 0 <= i < |s| => s[i].value)
  }

  lemma {:induction false} SortKeepsMembers(s: seq<Entry>)
    ensures forall x :: x in Sort(s) <==> x in s
    ensures AllPresent(s) ==> AllPresent(Sort(s))
  {
    SortIsStable(s);
    forall x
      ensures x in Sort(s) <==> x in s
    {
      assert TiedWith(Sort(s), x) == TiedWith(s, x);
      TiedWithMembers(Sort(s), x, x);
      TiedWithMembers(s, x, x);
      LessIsStrictWeakOrder(x, x, x);
    }
    if AllPresent(s) {
      assert forall i :: 0 <= i < |s| ==> Sort(s)[i] in Sort(s);
    }
  }

  /** The response built from answers that arrived in the order `s`. */
  function Build(s: seq<Entry>, limit: int): map<int, string>
    requires AllPresent(s)
  {
    SortKeepsMembers(s);
    var rs := Values(Sort(s));
    Merged(rs, Taken(rs, limit, 0))
  }

  /** Walks the answers, adding each that still fits. */
  method MergeFitting(rs: seq<Response>, limit: int) returns (merged: map<int, string>)
    ensures merged == Merged(rs, Taken(rs, limit, 0))
  {
    ghost var keep := Taken(rs, limit, 0);
    merged := map[];
    var total := 0;
    for i := 0 to |rs|
      invariant merged == Merged(rs[..i], keep[..i]) && total == TakenSize(rs[..i], keep[..i])
    {
      TakenExactlyIfFits(rs, limit, 0, i);
      TakenSizeExtend(rs, keep, i);
      assert rs[..i + 1][..i] == rs[..i] && keep[..i + 1][..i] == keep[..i];
      if total + rs[i].size < limit {
        total := total + rs[i].size;
        merged := merged + rs[i].messages;
      }
    }
    assert rs[..|rs|] == rs && keep[..|rs|] == keep;
  }

  method BuildResponse(a: array<Entry>, limit: int) returns (merged: map<int, string>)
    requires AllPresent(a[..])
    modifies a
    ensures merged == Build(old(a[..]), limit)
  {
    SortKeepsMembers(a[..]);
    SortStable(a);
    merged := MergeFitting(Values(a[..]), limit);
  }

  // What is taken

  /** The answers that go into the response, for answers that arrived in the order `s`. */
  ghost function TakenAnswers(s: seq<Entry>, limit: int): set<Response>
    requires AllPresent(s)
  {
    SortKeepsMembers(s);
    var rs := Values(Sort(s));
    var keep := Taken(rs, limit, 0);
    set i | 0 <= i < |rs| && keep[i] :: rs[i]
  }

  /** Where two answers speak of the same shard, they say the same. */
  ghost predicate Agree(rs: seq<Response>) {
    forall a, b, k :: a in rs && b in rs && k in a.messages && k in b.messages ==> a.messages[k] == b.messages[k]
  }

  /** Answer `i` is the last one taken that speaks of the shard. */
  ghost predicate LastToSpeak(rs: seq<Response>, keep: seq<bool>, k: int, i: int)
    requires |rs| == |keep|
  {
    && 0 <= i < |rs| && keep[i] && k in rs[i].messages
    && forall j :: i < j < |rs| && keep[j] ==> k !in rs[j].messages
  }

  /** What the merge says about a shard is what the last answer taken that speaks of it says. */
  lemma {:induction false} LastWins(rs: seq<Response>, keep: seq<bool>, k: int)
    requires |rs| == |keep|
    ensures k in Merged(rs, keep) ==> exists i :: LastToSpeak(rs, keep, k, i)
    ensures forall i :: LastToSpeak(rs, keep, k, i) ==> k in Merged(rs, keep) && Merged(rs, keep)[k] == rs[i].messages[k]
  {
    if rs != [] {
      var n := |rs| - 1;
      LastWins(rs[..n], keep[..n], k);
      if keep[n] && k in rs[n].messages {
        assert LastToSpeak(rs, keep, k, n);
      } else {
        forall i
          ensures LastToSpeak(rs, keep, k, i) <==> LastToSpeak(rs[..n], keep[..n], k, i)
        {
          assert forall j :: 0 <= j < n ==> rs[..n][j] == rs[j] && keep[..n][j] == keep[j];
        }
      }
    }
  }

  /** Without disagreement, the merge holds exactly what some answer that was taken says. */
  lemma {:induction false} MergedHolds(rs: seq<Response>, keep: seq<bool>, k: int)
    requires |rs| == |keep| && Agree(rs)
    ensures k in Merged(rs, keep) <==> exists i :: 0 <= i < |rs| && keep[i] && k in rs[i].messages
    ensures forall i :: 0 <= i < |rs| && keep[i] && k in rs[i].messages ==> Merged(rs, keep)[k] == rs[i].messages[k]
  {
    if rs != [] {
      var n := |rs| - 1;
      assert rs == rs[..n] + [rs[n]];
      MergedHolds(rs[..n], keep[..n], k);
      assert forall i :: 0 <= i < n ==> rs[..n][i] == rs[i] && keep[..n][i] == keep[i];
      if k in rs[n].messages {
        assert rs[n] in rs;
      }
    }
  }

  lemma {:induction false} InsertPermutes(s: seq<Entry>, x: Entry)
    ensures multiset(Insert(s, x)) == multiset(s) + multiset{x}
  {
    if s != [] && Less(x, s[|s| - 1]) {
      InsertPermutes(s[..|s| - 1], x);
      assert s == s[..|s| - 1] + [s[|s| - 1]];
    }
  }

  lemma {:induction false} SortPermutes(s: seq<Entry>)
    ensures multiset(Sort(s)) == multiset(s)
  {
    if s != [] {
      SortPermutes(s[..|s| - 1]);
      InsertPermutes(Sort(s[..|s| - 1]), s[|s| - 1]);
      assert s == s[..|s| - 1] + [s[|s| - 1]];
    }
  }

  lemma {:induction false} ValuesCount(s: seq<Entry>, r: Response)
    requires AllPresent(s)
    ensures multiset(Values(s))[r] == multiset(s)[Some(r)]
  {
    if s != [] {
      var n := |s| - 1;
      ValuesCount(s[..n], r);
      assert s == s[..n] + [s[n]] && Values(s) == Values(s[..n]) + [s[n].value];
    }
  }

  lemma {:induction false} ValuesPermute(s: seq<Entry>, t: seq<Entry>)
    requires AllPresent(s) && AllPresent(t) && multiset(s) == multiset(t)
    ensures multiset(Values(s)) == multiset(Values(t))
  {
    forall r
      ensures multiset(Values(s))[r] == multiset(Values(t))[r]
    {
      ValuesCount(s, r);
      ValuesCount(t, r);
    }
  }

  lemma {:induction false} AgreementOfPermutation(rs: seq<Response>, ts: seq<Response>)
    requires multiset(rs) == multiset(ts) && Agree(rs)
    ensures Agree(ts)
  {
    assert forall r :: r in rs <==> r in multiset(rs);
    assert forall r :: r in ts <==> r in multiset(ts);
  }

  /** The sorted answers are the answers. */
  lemma {:induction false} SortedValues(s: seq<Entry>)
    requires AllPresent(s)
    ensures AllPresent(Sort(s)) && multiset(Values(Sort(s))) == multiset(Values(s))
  {
    SortKeepsMembers(s);
    SortPermutes(s);
    ValuesPermute(Sort(s), s);
  }

  /** So the response says about a shard what the answers taken say about it. */
  lemma {:induction false} BuildHolds(s: seq<Entry>, limit: int, k: int)
    requires AllPresent(s) && Agree(Values(s))
    ensures k in Build(s, limit) <==> exists r :: r in TakenAnswers(s, limit) && k in r.messages
    ensures forall r :: r in TakenAnswers(s, limit) && k in r.messages ==> Build(s, limit)[k] == r.messages[k]
  {
    SortedValues(s);
    var rs := Values(Sort(s));
    AgreementOfPermutation(Values(s), rs);
    MergedHolds(rs, Taken(rs, limit, 0), k);
  }
}
