/** The history client's calls that go to many peers: fetching replication messages and cross-cluster tasks. */
module HistoryScatterGather {
  import opened Wrappers
  import opened PeerFanOut
  import opened ReplicationMerge
  import opened ArrivalOrder

  type Peer = string

  datatype Token = Token(shardId: int, lastRetrievedMessageId: int)

  datatype ScatterError = Unresolvable | ServiceBusy

  /** What becomes of the call to one peer. */
  datatype PeerOutcome = Busy | Broken | Answered(response: Response)

  /** The peers that are called, in some order, each once. */
  ghost predicate Enumerates<Item>(order: seq<Peer>, items: seq<Item>, resolve: Item -> Option<Peer>) {
    && (forall p :: p in order <==> ItemsFor(items, resolve, p) != [])
    && (forall i, j :: 0 <= i < j < |order| ==> order[i] != order[j])
  }

  lemma {:induction false} EnumerationsPermute<Item>(order: seq<Peer>, order': seq<Peer>, items: seq<Item>, resolve: Item -> Option<Peer>)
    requires Enumerates(order, items, resolve) && Enumerates(order', items, resolve)
    ensures multiset(order) == multiset(order')
  {
    forall p
      ensures multiset(order)[p] == multiset(order')[p]
    {
      CountOnce(order, p);
      CountOnce(order', p);
    }
  }

  lemma {:induction false} CountOnce(order: seq<Peer>, p: Peer)
    requires forall i, j :: 0 <= i < j < |order| ==> order[i] != order[j]
    ensures multiset(order)[p] == if p in order then 1 else 0
  {
    if order != [] {
      var n := |order| - 1;
      CountOnce(order[..n], p);
      assert order == order[..n] + [order[n]];
    }
  }

  // Replication messages

  /** A peer's answer, with the peer's name on it. */
  function AnswerOf(p: Peer, outcome: Peer -> PeerOutcome): Entry
    requires outcome(p).Answered?
  {
    Some(outcome(p).response.(peer := p))
  }

  /** The answers in the order of arrival; peers that failed for other reasons than being busy are left out. */
  function Answers(order: seq<Peer>, outcome: Peer -> PeerOutcome): (s: seq<Entry>)
    ensures AllPresent(s)
  {
    if order == [] then []
    else
      var n := |order| - 1;
      Answers(order[..n], outcome) + if outcome(order[n]).Answered? then [AnswerOf(order[n], outcome)] else []
  }

  method GetReplicationMessages(tokens: seq<Token>, resolveShard: int -> Option<Peer>, outcome: Peer -> PeerOutcome, order: seq<Peer>, limit: int)
    returns (r: Result<map<int, string>, ScatterError>)
    requires Enumerates(order, tokens, (t: Token) => resolveShard(t.shardId))
    ensures var resolve := (t: Token) => resolveShard(t.shardId);
            if !Resolvable(tokens, resolve) then r == Failure(Unresolvable)
            else if exists p :: p in order && outcome(p).Busy? then r == Failure(ServiceBusy)
            else r == Success(Build(Answers(order, outcome), limit))
    ensures r.Success? ==> exists line, taken :: Explains(line, taken, order, outcome, limit, r.value)
  {
    var groups := GroupByPeer(tokens, (t: Token) => resolveShard(t.shardId));
    if groups.Failure? {
      return Failure(Unresolvable);
    }
    var responses := [];
    var busy := false;
    for i := 0 to |order|
      invariant responses == Answers(order[..i], outcome)
      invariant busy <==> exists j :: 0 <= j < i && outcome(order[j]).Busy?
    {
      assert order[..i + 1][..i] == order[..i];
      match outcome(order[i])
      case Busy => busy := true;
      case Broken =>
      case Answered(response) => responses := responses + [Some(response.(peer := order[i]))];
    }
    assert order[..|order|] == order;
    if busy {
      return Failure(ServiceBusy);
    }
    var a := new Entry[|responses|](i requires 0 <= i < |responses| => responses[i]);
    assert a[..] == responses;
    var merged := BuildResponse(a, limit);
    ghost var line, taken := ResponseExplained(order, outcome, limit);
    r := Success(merged);
  }

  /** A peer answers only for shards that it was asked about. */
  ghost predicate AnswersOwnShards(tokens: seq<Token>, resolveShard: int -> Option<Peer>, outcome: Peer -> PeerOutcome) {
    forall p, k :: outcome(p).Answered? && k in outcome(p).response.messages ==>
      exists t :: t in ItemsFor(tokens, (t: Token) => resolveShard(t.shardId), p) && t.shardId == k
  }

  lemma {:induction false} AnswerHasPeer(order: seq<Peer>, outcome: Peer -> PeerOutcome, e: Entry)
    requires e in Answers(order, outcome)
    ensures exists p :: p in order && outcome(p).Answered? && e == AnswerOf(p, outcome)
  {
    var n := |order| - 1;
    assert order == order[..n] + [order[n]];
    if e in Answers(order[..n], outcome) {
      AnswerHasPeer(order[..n], outcome, e);
    }
  }

  /** Then no answer contradicts another: merging never overwrites a shard. */
  lemma {:induction false} OwnShardsAgree(tokens: seq<Token>, resolveShard: int -> Option<Peer>, outcome: Peer -> PeerOutcome, order: seq<Peer>)
    requires AnswersOwnShards(tokens, resolveShard, outcome)
    ensures Agree(Values(Answers(order, outcome)))
  {
    var s := Answers(order, outcome);
    var resolve := (t: Token) => resolveShard(t.shardId);
    forall a, b, k | a in Values(s) && b in Values(s) && k in a.messages && k in b.messages
      ensures a.messages[k] == b.messages[k]
    {
      var i :| 0 <= i < |s| && Values(s)[i] == a;
      var j :| 0 <= j < |s| && Values(s)[j] == b;
      AnswerHasPeer(order, outcome, s[i]);
      AnswerHasPeer(order, outcome, s[j]);
      var p :| p in order && outcome(p).Answered? && s[i] == AnswerOf(p, outcome);
      var q :| q in order && outcome(q).Answered? && s[j] == AnswerOf(q, outcome);
      OwnerOfShard(tokens, resolveShard, outcome, p, k);
      OwnerOfShard(tokens, resolveShard, outcome, q, k);
    }
  }

  lemma {:induction false} OwnerOfShard(tokens: seq<Token>, resolveShard: int -> Option<Peer>, outcome: Peer -> PeerOutcome, p: Peer, k: int)
    requires AnswersOwnShards(tokens, resolveShard, outcome) && outcome(p).Answered? && k in outcome(p).response.messages
    ensures resolveShard(k) == Some(p)
  {
    var resolve := (t: Token) => resolveShard(t.shardId);
    var t :| t in ItemsFor(tokens, resolve, p) && t.shardId == k;
    ItemsForMembers(tokens, resolve, p, t);
  }

  lemma {:induction false} AnswersPermute(order: seq<Peer>, order': seq<Peer>, outcome: Peer -> PeerOutcome)
    requires multiset(order) == multiset(order')
    ensures multiset(Answers(order, outcome)) == multiset(Answers(order', outcome))
    decreases |order|
  {
    if order == [] {
      assert |multiset(order')| == 0;
    } else {
      var n := |order| - 1;
      var p := order[n];
      assert order == order[..n] + [p];
      assert p in multiset(order');
      var i :| 0 <= i < |order'| && order'[i] == p;
      var rest := order'[..i] + order'[i + 1..];
      RemoveOne(order', i);
      Cancel(multiset(order[..n]), multiset(rest), p);
      AnswersPermute(order[..n], rest, outcome);
      AnswersRemove(order', outcome, i);
      AnswersSplit(order[..n], [p], outcome);
    }
  }

  lemma {:induction false} Cancel<T>(a: multiset<T>, b: multiset<T>, x: T)
    requires a + multiset{x} == b + multiset{x}
    ensures a == b
  {
    assert a == (a + multiset{x}) - multiset{x} && b == (b + multiset{x}) - multiset{x};
  }

  lemma {:induction false} RemoveOne<T>(s: seq<T>, i: nat)
    requires i < |s|
    ensures multiset(s) == multiset(s[..i] + s[i + 1..]) + multiset{s[i]}
  {
    assert s == s[..i] + [s[i]] + s[i + 1..];
  }

  lemma {:induction false} AnswersSplit(a: seq<Peer>, b: seq<Peer>, outcome: Peer -> PeerOutcome)
    ensures Answers(a + b, outcome) == Answers(a, outcome) + Answers(b, outcome)
  {
    if b == [] {
      assert a + b == a;
    } else {
      var n := |b| - 1;
      AnswersSplit(a, b[..n], outcome);
      assert (a + b)[..|a| + n] == a + b[..n];
    }
  }

  lemma {:induction false} AnswersRemove(order: seq<Peer>, outcome: Peer -> PeerOutcome, i: nat)
    requires i < |order|
    ensures multiset(Answers(order, outcome)) == multiset(Answers(order[..i] + order[i + 1..], outcome)) + multiset(Answers([order[i]], outcome))
  {
    var a, b, p := order[..i], order[i + 1..], order[i];
    AnswersSplit(a, b, outcome);
    AnswersSplit(a + [p], b, outcome);
    AnswersSplit(a, [p], outcome);
    assert order == a + [p] + b;
  }

  /** End to end: if peers answer only for their own shards and the tie classes settle, the response is the same
      however the answers arrive. */
  lemma {:induction false} ReplicationIgnoresArrivalOrder(
    tokens: seq<Token>, resolveShard: int -> Option<Peer>, outcome: Peer -> PeerOutcome, order: seq<Peer>, order': seq<Peer>, limit: int)
    requires var resolve := (t: Token) => resolveShard(t.shardId);
             Enumerates(order, tokens, resolve) && Enumerates(order', tokens, resolve)
    requires AnswersOwnShards(tokens, resolveShard, outcome)
    requires var s := Answers(order, outcome); NoTies(s) || Settles(Sort(s), limit, 0) || TotalSize(s) < limit
    ensures Build(Answers(order, outcome), limit) == Build(Answers(order', outcome), limit)
  {
    EnumerationsPermute(order, order', tokens, (t: Token) => resolveShard(t.shardId));
    AnswersPermute(order, order', outcome);
    OwnShardsAgree(tokens, resolveShard, outcome, order);
    ArrivalOrderDoesNotMatter(Answers(order, outcome), Answers(order', outcome), limit);
  }

  lemma {:induction false} AnswersNameTheirPeers(order: seq<Peer>, outcome: Peer -> PeerOutcome, i: nat)
    requires i < |Answers(order, outcome)|
    ensures var e := Answers(order, outcome)[i];
            e.value.peer in order && outcome(e.value.peer).Answered? && e == AnswerOf(e.value.peer, outcome)
  {
    AnswerHasPeer(order, outcome, Answers(order, outcome)[i]);
  }

  lemma {:induction false} AnswersOncePerPeer(order: seq<Peer>, outcome: Peer -> PeerOutcome)
    requires forall i, j :: 0 <= i < j < |order| ==> order[i] != order[j]
    ensures OneAnswerPerPeer(Answers(order, outcome))
  {
    if order != [] {
      var n := |order| - 1;
      AnswersOncePerPeer(order[..n], outcome);
      forall i | 0 <= i < |Answers(order[..n], outcome)|
        ensures Answers(order[..n], outcome)[i].value.peer != order[n]
      {
        AnswersNameTheirPeers(order[..n], outcome, i);
      }
    }
  }

  // Every rearrangement of the answers is an order of arrival

  function PeersOf(s: seq<Entry>): (ps: seq<Peer>)
    requires AllPresent(s)
    ensures |ps| == |s| && forall i :: 0 <= i < |s| ==> ps[i] == s[i].value.peer
  {
    seq(|s|, i requires 0 <= i < |s| => s[i].value.peer)
  }

  /** The peers that did not answer. */
  function Silent(order: seq<Peer>, outcome: Peer -> PeerOutcome): (ps: seq<Peer>)
    ensures forall p :: p in ps <==> p in order && !outcome(p).Answered?
  {
    if order == [] then []
    else
      var n := |order| - 1;
      assert order == order[..n] + [order[n]];
      Silent(order[..n], outcome) + if outcome(order[n]).Answered? then [] else [order[n]]
  }

  lemma {:induction false} SilentOnce(order: seq<Peer>, outcome: Peer -> PeerOutcome)
    requires forall i, j :: 0 <= i < j < |order| ==> order[i] != order[j]
    ensures forall i, j :: 0 <= i < j < |Silent(order, outcome)| ==> Silent(order, outcome)[i] != Silent(order, outcome)[j]
  {
    if order != [] {
      var n := |order| - 1;
      var before := Silent(order[..n], outcome);
      SilentOnce(order[..n], outcome);
      assert order[n] !in order[..n];
      assert order[n] !in before;
      AppendOnce(before, order[n]);
      assert Silent(order, outcome) == before || Silent(order, outcome) == before + [order[n]];
    }
  }

  lemma {:induction false} AppendOnce(ps: seq<Peer>, p: Peer)
    requires p !in ps && forall i, j :: 0 <= i < j < |ps| ==> ps[i] != ps[j]
    ensures forall i, j :: 0 <= i < j < |ps + [p]| ==> (ps + [p])[i] != (ps + [p])[j]
  {
    assert forall i :: 0 <= i < |ps| ==> ps[i] in ps;
  }

  lemma {:induction false} SilentAnswerNothing(ps: seq<Peer>, outcome: Peer -> PeerOutcome)
    requires forall i :: 0 <= i < |ps| ==> !outcome(ps[i]).Answered?
    ensures Answers(ps, outcome) == []
  {
    if ps != [] {
      SilentAnswerNothing(ps[..|ps| - 1], outcome);
    }
  }

  lemma {:induction false} AnswersOfPeers(s: seq<Entry>, outcome: Peer -> PeerOutcome)
    requires AllPresent(s)
    requires forall i :: 0 <= i < |s| ==> outcome(s[i].value.peer).Answered? && s[i] == AnswerOf(s[i].value.peer, outcome)
    ensures Answers(PeersOf(s), outcome) == s
  {
    if s != [] {
      var n := |s| - 1;
      AnswersOfPeers(s[..n], outcome);
      assert PeersOf(s)[..n] == PeersOf(s[..n]);
      assert s == s[..n] + [s[n]];
    }
  }

  lemma {:induction false} FindAnswer(order: seq<Peer>, outcome: Peer -> PeerOutcome, p: Peer)
    requires p in order && outcome(p).Answered?
    ensures AnswerOf(p, outcome) in Answers(order, outcome)
  {
    var n := |order| - 1;
    assert order == order[..n] + [order[n]];
    if order[n] != p {
      FindAnswer(order[..n], outcome, p);
    }
  }

  lemma {:induction false} RearrivalOncePerPeer(s: seq<Entry>, t: seq<Entry>)
    requires AllPresent(s) && OneAnswerPerPeer(s) && Rearrival(s, t)
    ensures OneAnswerPerPeer(t)
  {
    forall i, j | 0 <= i < j < |t|
      ensures t[i].value.peer != t[j].value.peer
    {
      if t[i] == t[j] {
        assert t == t[..i] + [t[i]] + t[i + 1..j] + [t[i]] + t[j + 1..];
        TwoOccurrences(s, t[i]);
      } else {
        assert t[i] in multiset(t) && t[j] in multiset(t);
        assert t[i] in s && t[j] in s;
      }
    }
  }

  lemma {:induction false} RearrivedNameTheirPeers(order: seq<Peer>, outcome: Peer -> PeerOutcome, t: seq<Entry>, i: nat)
    requires Rearrival(Answers(order, outcome), t) && i < |t|
    ensures t[i].value.peer in order && outcome(t[i].value.peer).Answered? && t[i] == AnswerOf(t[i].value.peer, outcome)
  {
    var s := Answers(order, outcome);
    assert t[i] in multiset(t) && t[i] in multiset(s);
    var j :| 0 <= j < |s| && s[j] == t[i];
    AnswersNameTheirPeers(order, outcome, j);
  }

  lemma {:induction false} AnsweredArrives(order: seq<Peer>, outcome: Peer -> PeerOutcome, t: seq<Entry>, p: Peer)
    requires Rearrival(Answers(order, outcome), t) && p in order && outcome(p).Answered?
    ensures p in PeersOf(t)
  {
    var s := Answers(order, outcome);
    FindAnswer(order, outcome, p);
    assert AnswerOf(p, outcome) in multiset(s) && AnswerOf(p, outcome) in multiset(t);
    var i :| 0 <= i < |t| && t[i] == AnswerOf(p, outcome);
    assert PeersOf(t)[i] == p;
  }

  /** Any rearrangement of the answers comes from an order of the same peers. */
  lemma {:induction false} OrderOfRearrival(order: seq<Peer>, outcome: Peer -> PeerOutcome, t: seq<Entry>) returns (order': seq<Peer>)
    requires Rearrival(Answers(order, outcome), t)
    ensures order' == PeersOf(t) + Silent(order, outcome) && Answers(order', outcome) == t
    ensures forall p :: p in order' <==> p in order
  {
    var ps, silent := PeersOf(t), Silent(order, outcome);
    order' := ps + silent;
    forall i | 0 <= i < |t|
      ensures ps[i] in order && outcome(ps[i]).Answered? && t[i] == AnswerOf(ps[i], outcome)
    {
      RearrivedNameTheirPeers(order, outcome, t, i);
    }
    AnswersOfPeers(t, outcome);
    SilentAnswerNothing(silent, outcome);
    AnswersSplit(ps, silent, outcome);
    forall p | p in order && outcome(p).Answered?
      ensures p in ps
    {
      AnsweredArrives(order, outcome, t, p);
    }
  }

  lemma {:induction false} RearrivalIsOnce(order: seq<Peer>, outcome: Peer -> PeerOutcome, t: seq<Entry>, order': seq<Peer>)
    requires Rearrival(Answers(order, outcome), t) && order' == PeersOf(t) + Silent(order, outcome)
    requires forall i, j :: 0 <= i < j < |order| ==> order[i] != order[j]
    ensures forall i, j :: 0 <= i < j < |order'| ==> order'[i] != order'[j]
  {
    AnswersOncePerPeer(order, outcome);
    RearrivalOncePerPeer(Answers(order, outcome), t);
    SilentOnce(order, outcome);
    forall i, j | 0 <= i < j < |order'|
      ensures order'[i] != order'[j]
    {
      if i < |t| <= j {
        RearrivedNameTheirPeers(order, outcome, t, i);
        assert order'[j] in Silent(order, outcome);
      }
    }
  }

  /** End to end, exactly: the call puts the same peers' answers into the response however they arrive, if and only
      if the tie classes settle. */
  lemma {:induction false} ReplicationExactlyIfSettled(
    tokens: seq<Token>, resolveShard: int -> Option<Peer>, outcome: Peer -> PeerOutcome, order: seq<Peer>, limit: int)
    requires Enumerates(order, tokens, (t: Token) => resolveShard(t.shardId))
    ensures (forall order' :: Enumerates(order', tokens, (t: Token) => resolveShard(t.shardId)) ==>
               TakenAnswers(Answers(order', outcome), limit) == TakenAnswers(Answers(order, outcome), limit)) <==>
            Settles(Sort(Answers(order, outcome)), limit, 0)
  {
    var s := Answers(order, outcome);
    if Settles(Sort(s), limit, 0) {
      forall order' | Enumerates(order', tokens, (t: Token) => resolveShard(t.shardId))
        ensures TakenAnswers(Answers(order', outcome), limit) == TakenAnswers(s, limit)
      {
        EnumerationsPermute(order, order', tokens, (t: Token) => resolveShard(t.shardId));
        AnswersPermute(order, order', outcome);
        SettledIgnoresArrivalOrder(s, Answers(order', outcome), limit);
      }
    } else {
      AnswersOncePerPeer(order, outcome);
      var t, r := UnsettledDependsOnArrivalOrder(s, limit);
      var order' := OrderOfRearrival(order, outcome, t);
      RearrivalIsOnce(order, outcome, t, order');
      assert Enumerates(order', tokens, (t: Token) => resolveShard(t.shardId));
    }
  }

  // What the response is, said on the answers of the peers alone

  function SizeFrom(p: Peer, outcome: Peer -> PeerOutcome): nat {
    if outcome(p).Answered? then outcome(p).response.size else 0
  }

  /** The bytes of the answers taken. */
  function Bytes(line: seq<Peer>, taken: seq<bool>, outcome: Peer -> PeerOutcome): nat
    requires |line| == |taken|
  {
    if line == [] then 0
    else
      var n := |line| - 1;
      Bytes(line[..n], taken[..n], outcome) + if taken[n] then SizeFrom(line[n], outcome) else 0
  }

  /** The older answer comes first, the smaller of two of the same age, and one without a time last. */
  predicate Ahead(a: Response, b: Response) {
    && a.earliest.Some?
    && (|| b.earliest.None?
        || a.earliest.value < b.earliest.value
        || (a.earliest.value == b.earliest.value && a.size < b.size))
  }

  /** The peers that answered, each once, in the order in which their answers are considered; where that leaves a
      choice, the first to arrive is considered first. */
  ghost predicate IsLine(line: seq<Peer>, order: seq<Peer>, outcome: Peer -> PeerOutcome) {
    && (forall p :: p in line <==> p in order && outcome(p).Answered?)
    && (forall i, j :: 0 <= i < j < |line| ==> line[i] != line[j])
    && (forall i, j :: 0 <= i < j < |line| && outcome(line[i]).Answered? && outcome(line[j]).Answered? ==>
          var a, b := outcome(line[i]).response, outcome(line[j]).response;
          Ahead(a, b) || (!Ahead(b, a) && Before(order, line[i], line[j])))
  }

  /** Walking the line, an answer is taken exactly when it stays below the limit on top of those taken before. */
  ghost predicate FillsUp(line: seq<Peer>, taken: seq<bool>, outcome: Peer -> PeerOutcome, limit: int) {
    && |taken| == |line|
    && forall i :: 0 <= i < |line| ==> (taken[i] <==> Bytes(line[..i], taken[..i], outcome) + SizeFrom(line[i], outcome) < limit)
  }

  /** Peer number `i` of the line is the last one taken whose answer speaks of the shard. */
  ghost predicate SpeaksLast(line: seq<Peer>, taken: seq<bool>, outcome: Peer -> PeerOutcome, k: int, i: int)
    requires |line| == |taken|
  {
    && 0 <= i < |line| && taken[i] && outcome(line[i]).Answered? && k in outcome(line[i]).response.messages
    && forall j :: i < j < |line| && taken[j] && outcome(line[j]).Answered? ==> k !in outcome(line[j]).response.messages
  }

  /** The response holds what the peers taken say, the last word on each shard, and nothing else. */
  ghost predicate Conveys(line: seq<Peer>, taken: seq<bool>, outcome: Peer -> PeerOutcome, response: map<int, string>)
    requires |line| == |taken|
  {
    && (forall k :: k in response ==> exists i :: SpeaksLast(line, taken, outcome, k, i))
    && (forall k, i :: SpeaksLast(line, taken, outcome, k, i) ==> k in response && response[k] == outcome(line[i]).response.messages[k])
  }

  ghost predicate Explains(line: seq<Peer>, taken: seq<bool>, order: seq<Peer>, outcome: Peer -> PeerOutcome, limit: int, response: map<int, string>) {
    IsLine(line, order, outcome) && FillsUp(line, taken, outcome, limit) && Conveys(line, taken, outcome, response)
  }

  /** The sorted answers, and who sent them. */
  ghost predicate SentBy(s: seq<Entry>, line: seq<Peer>, outcome: Peer -> PeerOutcome) {
    && |s| == |line| && AllPresent(s)
    && forall i :: 0 <= i < |s| ==> outcome(line[i]).Answered? && s[i] == AnswerOf(line[i], outcome)
  }

  lemma {:induction false} BytesAreSizes(s: seq<Entry>, line: seq<Peer>, taken: seq<bool>, outcome: Peer -> PeerOutcome)
    requires SentBy(s, line, outcome) && |taken| == |line|
    ensures Bytes(line, taken, outcome) == TakenSize(Values(s), taken)
  {
    if s != [] {
      var n := |s| - 1;
      BytesAreSizes(s[..n], line[..n], taken[..n], outcome);
      TakenSizeExtend(Values(s), taken, n);
      assert Values(s)[..n + 1] == Values(s) && taken[..n + 1] == taken;
      assert Values(s)[..n] == Values(s[..n]);
      assert Values(s)[n].size == SizeFrom(line[n], outcome);
    }
  }

  lemma {:induction false} WalkFillsUp(s: seq<Entry>, line: seq<Peer>, outcome: Peer -> PeerOutcome, limit: int)
    requires SentBy(s, line, outcome)
    ensures FillsUp(line, Taken(Values(s), limit, 0), outcome, limit)
  {
    var taken := Taken(Values(s), limit, 0);
    forall i | 0 <= i < |line|
      ensures taken[i] <==> Bytes(line[..i], taken[..i], outcome) + SizeFrom(line[i], outcome) < limit
    {
      TakenExactlyIfFits(Values(s), limit, 0, i);
      BytesAreSizes(s[..i], line[..i], taken[..i], outcome);
      assert Values(s)[..i] == Values(s[..i]);
    }
  }

  lemma {:induction false} MergeConveys(s: seq<Entry>, line: seq<Peer>, taken: seq<bool>, outcome: Peer -> PeerOutcome)
    requires SentBy(s, line, outcome) && |taken| == |line|
    ensures Conveys(line, taken, outcome, Merged(Values(s), taken))
  {
    var rs := Values(s);
    assert forall i :: 0 <= i < |line| ==> rs[i].messages == outcome(line[i]).response.messages;
    forall k, i
      ensures SpeaksLast(line, taken, outcome, k, i) <==> LastToSpeak(rs, taken, k, i)
    {
    }
    forall k
      ensures k in Merged(rs, taken) ==> exists i :: SpeaksLast(line, taken, outcome, k, i)
      ensures forall i :: SpeaksLast(line, taken, outcome, k, i) ==> k in Merged(rs, taken) && Merged(rs, taken)[k] == rs[i].messages[k]
    {
      LastWins(rs, taken, k);
      if k in Merged(rs, taken) {
        var i :| LastToSpeak(rs, taken, k, i);
        assert SpeaksLast(line, taken, outcome, k, i);
      }
    }
  }

  lemma {:induction false} AnswersKeepOrder(order: seq<Peer>, outcome: Peer -> PeerOutcome, p: Peer, q: Peer)
    requires outcome(p).Answered? && outcome(q).Answered?
    ensures Before(Answers(order, outcome), AnswerOf(p, outcome), AnswerOf(q, outcome)) ==> Before(order, p, q)
  {
    if order != [] {
      var n := |order| - 1;
      var before := Answers(order[..n], outcome);
      AnswersKeepOrder(order[..n], outcome, p, q);
      assert order == order[..n] + [order[n]];
      BeforeExtend(order[..n], order[n], p, q);
      if outcome(order[n]).Answered? {
        BeforeExtend(before, AnswerOf(order[n], outcome), AnswerOf(p, outcome), AnswerOf(q, outcome));
        if AnswerOf(p, outcome) in before {
          AnswerHasPeer(order[..n], outcome, AnswerOf(p, outcome));
        }
      }
    }
  }

  lemma {:induction false} SortedPair(order: seq<Peer>, outcome: Peer -> PeerOutcome, s: seq<Entry>, line: seq<Peer>, i: nat, j: nat)
    requires s == Sort(Answers(order, outcome)) && SentBy(s, line, outcome) && i < j < |line|
    ensures var a, b := outcome(line[i]).response, outcome(line[j]).response;
            Ahead(a, b) || (!Ahead(b, a) && Before(order, line[i], line[j]))
  {
    SortIsStable(Answers(order, outcome));
    OrderedOldestFirst(s, i, j);
    if Tied(s[i], s[j]) {
      assert Before(s, s[i], s[j]);
      TiesKeepTheirOrder(Answers(order, outcome), s[i], s[j]);
      AnswersKeepOrder(order, outcome, line[i], line[j]);
    }
  }

  lemma {:induction false} SortedIsLine(order: seq<Peer>, outcome: Peer -> PeerOutcome, s: seq<Entry>)
    requires forall i, j :: 0 <= i < j < |order| ==> order[i] != order[j]
    requires s == Sort(Answers(order, outcome)) && AllPresent(s)
    ensures SentBy(s, PeersOf(s), outcome) && IsLine(PeersOf(s), order, outcome)
  {
    var answers, line := Answers(order, outcome), PeersOf(s);
    SortPermutes(answers);
    forall i | 0 <= i < |s|
      ensures line[i] in order && outcome(line[i]).Answered? && s[i] == AnswerOf(line[i], outcome)
    {
      RearrivedNameTheirPeers(order, outcome, s, i);
    }
    AnswersOncePerPeer(order, outcome);
    RearrivalOncePerPeer(answers, s);
    forall p | p in order && outcome(p).Answered?
      ensures p in line
    {
      AnsweredArrives(order, outcome, s, p);
    }
    forall i, j | 0 <= i < j < |line|
      ensures var a, b := outcome(line[i]).response, outcome(line[j]).response;
              Ahead(a, b) || (!Ahead(b, a) && Before(order, line[i], line[j]))
    {
      SortedPair(order, outcome, s, line, i, j);
    }
  }

  /** The response is explained by the peers' own answers: considered oldest first, taken as long as they fit, and each
      shard as the last one taken puts it. */
  lemma {:induction false} ResponseExplained(order: seq<Peer>, outcome: Peer -> PeerOutcome, limit: int) returns (line: seq<Peer>, taken: seq<bool>)
    requires forall i, j :: 0 <= i < j < |order| ==> order[i] != order[j]
    ensures Explains(line, taken, order, outcome, limit, Build(Answers(order, outcome), limit))
  {
    var s := Sort(Answers(order, outcome));
    SortKeepsMembers(Answers(order, outcome));
    SortedIsLine(order, outcome, s);
    line, taken := PeersOf(s), Taken(Values(s), limit, 0);
    WalkFillsUp(s, line, outcome, limit);
    MergeConveys(s, line, taken, outcome);
  }

  /** The peer owns the shard and is taken. */
  ghost predicate OwnerTaken(line: seq<Peer>, taken: seq<bool>, owner: Peer)
    requires |line| == |taken|
  {
    exists i :: 0 <= i < |line| && taken[i] && line[i] == owner
  }

  /** If peers answer only for their own shards, the response speaks of a shard exactly when its owner is taken and
      speaks of it, and then in the owner's words. */
  lemma {:induction false} ResponseSpeaksForOwner(
    tokens: seq<Token>, resolveShard: int -> Option<Peer>, line: seq<Peer>, taken: seq<bool>, order: seq<Peer>,
    outcome: Peer -> PeerOutcome, limit: int, response: map<int, string>, k: int, owner: Peer)
    requires AnswersOwnShards(tokens, resolveShard, outcome) && resolveShard(k) == Some(owner)
    requires Explains(line, taken, order, outcome, limit, response)
    ensures k in response <==> OwnerTaken(line, taken, owner) && outcome(owner).Answered? && k in outcome(owner).response.messages
    ensures k in response ==> response[k] == outcome(owner).response.messages[k]
  {
    forall i | 0 <= i < |line| && outcome(line[i]).Answered? && k in outcome(line[i]).response.messages
      ensures line[i] == owner
    {
      OwnerOfShard(tokens, resolveShard, outcome, line[i], k);
    }
    if k in response {
      var i :| SpeaksLast(line, taken, outcome, k, i);
      assert line[i] == owner;
    }
    if OwnerTaken(line, taken, owner) && outcome(owner).Answered? && k in outcome(owner).response.messages {
      var i :| 0 <= i < |line| && taken[i] && line[i] == owner;
      assert SpeaksLast(line, taken, outcome, k, i);
    }
  }

  // Cross-cluster tasks

  datatype CrossClusterTasks = CrossClusterTasks(tasksByShard: map<int, string>, failedCauseByShard: map<int, int>)

  /** What one peer contributes: its answer, or the cause of its failure for each of the shards it was asked about. */
  function Contribution(shards: seq<int>, outcome: Result<CrossClusterTasks, int>): CrossClusterTasks {
    match outcome
    case Success(answer) => answer
    case Failure(cause) => CrossClusterTasks(map[], map s | s in shards :: cause)
  }

  function Combine(a: CrossClusterTasks, b: CrossClusterTasks): CrossClusterTasks {
    CrossClusterTasks(a.tasksByShard + b.tasksByShard, a.failedCauseByShard + b.failedCauseByShard)
  }

  function Gather(order: seq<Peer>, shards: seq<int>, resolve: int -> Option<Peer>, outcome: Peer -> Result<CrossClusterTasks, int>): CrossClusterTasks {
    if order == [] then CrossClusterTasks(map[], map[])
    else
      var n := |order| - 1;
      Combine(Gather(order[..n], shards, resolve, outcome), Contribution(ItemsFor(shards, resolve, order[n]), outcome(order[n])))
  }

  method FailShards(shards: seq<int>, cause: int, failed: map<int, int>) returns (r: map<int, int>)
    ensures r == failed + map s | s in shards :: cause
  {
    r := failed;
    for i := 0 to |shards|
      invariant r == failed + map s | s in shards[..i] :: cause
    {
      r := r[shards[i] := cause];
      assert shards[..i + 1] == shards[..i] + [shards[i]];
    }
    assert shards[..|shards|] == shards;
  }

  method GetCrossClusterTasks(shards: seq<int>, resolve: int -> Option<Peer>, outcome: Peer -> Result<CrossClusterTasks, int>, order: seq<Peer>)
    returns (r: Result<CrossClusterTasks, int>)
    requires Enumerates(order, shards, resolve)
    ensures r.Success? <==> Resolvable(shards, resolve)
    ensures r.Success? ==> r.value == Gather(order, shards, resolve, outcome)
  {
    var groups := GroupByPeer(shards, resolve);
    if groups.Failure? {
      return Failure(groups.error);
    }
    var response := CrossClusterTasks(map[], map[]);
    for i := 0 to |order|
      invariant response == Gather(order[..i], shards, resolve, outcome)
    {
      assert order[..i + 1][..i] == order[..i];
      match outcome(order[i])
      case Failure(cause) =>
        assert order[i] in order;
        var failed := FailShards(groups.value[order[i]], cause, response.failedCauseByShard);
        response := CrossClusterTasks(response.tasksByShard + map[], failed);
      case Success(answer) =>
        response := CrossClusterTasks(response.tasksByShard + answer.tasksByShard, response.failedCauseByShard + answer.failedCauseByShard);
    }
    assert order[..|order|] == order;
    r := Success(response);
  }

  /** A peer that succeeds speaks only of shards it owns. */
  ghost predicate SpeaksOfOwnShards(resolve: int -> Option<Peer>, outcome: Peer -> Result<CrossClusterTasks, int>) {
    forall p, k {:trigger outcome(p), resolve(k)} :: outcome(p).Success? && (k in outcome(p).value.tasksByShard || k in outcome(p).value.failedCauseByShard) ==>
      resolve(k) == Some(p)
  }

  lemma {:induction false} ContributionOwned(shards: seq<int>, resolve: int -> Option<Peer>, outcome: Peer -> Result<CrossClusterTasks, int>, p: Peer, k: int)
    requires SpeaksOfOwnShards(resolve, outcome) && resolve(k) != Some(p)
    ensures var c := Contribution(ItemsFor(shards, resolve, p), outcome(p));
            k !in c.tasksByShard && k !in c.failedCauseByShard
  {
    ItemsForMembers(shards, resolve, p, k);
  }

  /** About a shard, the response says exactly what the shard's own peer contributes, if that peer was called. */
  lemma {:induction false} GatherSpeaksForOwner(
    order: seq<Peer>, shards: seq<int>, resolve: int -> Option<Peer>, outcome: Peer -> Result<CrossClusterTasks, int>, k: int, owner: Peer)
    requires SpeaksOfOwnShards(resolve, outcome) && resolve(k) == Some(owner)
    ensures var g := Gather(order, shards, resolve, outcome);
            var c := Contribution(ItemsFor(shards, resolve, owner), outcome(owner));
            && (k in g.tasksByShard <==> owner in order && k in c.tasksByShard)
            && (k in g.failedCauseByShard <==> owner in order && k in c.failedCauseByShard)
            && (k in g.tasksByShard ==> g.tasksByShard[k] == c.tasksByShard[k])
            && (k in g.failedCauseByShard ==> g.failedCauseByShard[k] == c.failedCauseByShard[k])
  {
    if order != [] {
      var n := |order| - 1;
      assert order == order[..n] + [order[n]];
      GatherSpeaksForOwner(order[..n], shards, resolve, outcome, k, owner);
      if order[n] != owner {
        ContributionOwned(shards, resolve, outcome, order[n], k);
      }
    }
  }

  /** Every requested shard is covered: with its peer's cause if the peer failed, and otherwise with exactly what its
      own peer answered for it. */
  lemma {:induction false} EveryShardCovered(
    order: seq<Peer>, shards: seq<int>, resolve: int -> Option<Peer>, outcome: Peer -> Result<CrossClusterTasks, int>, k: int)
    requires Enumerates(order, shards, resolve) && SpeaksOfOwnShards(resolve, outcome) && k in shards && resolve(k).Some?
    ensures var g := Gather(order, shards, resolve, outcome);
            match outcome(resolve(k).value)
            case Failure(cause) => k in g.failedCauseByShard && g.failedCauseByShard[k] == cause && k !in g.tasksByShard
            case Success(answer) =>
              && (k in g.tasksByShard <==> k in answer.tasksByShard)
              && (k in g.tasksByShard ==> g.tasksByShard[k] == answer.tasksByShard[k])
              && (k in g.failedCauseByShard <==> k in answer.failedCauseByShard)
              && (k in g.failedCauseByShard ==> g.failedCauseByShard[k] == answer.failedCauseByShard[k])
  {
    var owner := resolve(k).value;
    ItemsForMembers(shards, resolve, owner, k);
    assert owner in order;
    GatherSpeaksForOwner(order, shards, resolve, outcome, k, owner);
  }
}
