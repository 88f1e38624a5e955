/** Calling a history host, following the hints of hosts that have lost the shard. */
module Redirect {
  import opened Wrappers

  datatype Error = OwnershipLost(owner: string) | ContextExpired | Failed(code: int)

  /** The world during a call: whether the context is still valid before each turn, what each call of the operation
      returns, and where a host address resolves to. */
  datatype World = World(
    valid: nat -> bool,
    op: (nat, string) -> Option<Error>,
    resolve: string -> Result<string, Error>)

  datatype State = Calling(peer: string, calls: seq<string>) | Returned(result: Option<Error>, calls: seq<string>)

  /** One turn of the redirect loop. */
  function Turn(w: World, s: State): State {
    match s
    case Returned(_, _) => s
    case Calling(peer, calls) =>
      if !w.valid(|calls|) then Returned(Some(ContextExpired), calls)
      else
        var err := w.op(|calls|, peer);
        if err.Some? && err.value.OwnershipLost? then
          match w.resolve(err.value.owner)
          case Success(next) => Calling(next, calls + [peer])
          case Failure(e) => Returned(Some(e), calls + [peer])
        else Returned(err, calls + [peer])
  }

  function After(w: World, peer: string, turns: nat): State {
    if turns == 0 then Calling(peer, []) else Turn(w, After(w, peer, turns - 1))
  }

  /** The loop, for every call that returns at all (a context without a deadline and hosts that keep pointing
      elsewhere can keep it going for ever). */
  method ExecuteWithRedirect(w: World, peer: string, ghost turns: nat) returns (result: Option<Error>, calls: seq<string>)
    requires After(w, peer, turns).Returned?
    ensures After(w, peer, turns) == Returned(result, calls)
  {
    var at := peer;
    calls := [];
    ghost var i: nat := 0;
    while true
      invariant i < turns && After(w, peer, i) == Calling(at, calls)
      decreases turns - i
    {
      if After(w, peer, i + 1).Returned? {
        ReturnedStays(w, peer, i + 1, turns);
      }
      if !w.valid(|calls|) {
        return Some(ContextExpired), calls;
      }
      var err := w.op(|calls|, at);
      calls := calls + [at];
      if err.Some? && err.value.OwnershipLost? {
        var next := w.resolve(err.value.owner);
        if next.Failure? {
          return Some(next.error), calls;
        }
        at := next.value;
        i := i + 1;
      } else {
        return err, calls;
      }
    }
  }

  lemma {:induction false} ReturnedStays(w: World, peer: string, m: nat, n: nat)
    requires m <= n && After(w, peer, m).Returned?
    ensures After(w, peer, n) == After(w, peer, m)
  {
    if m < n {
      ReturnedStays(w, peer, m, n - 1);
    }
  }

  /** Call number `i`, to `p`, is turned away with a hint that resolves to `q`. */
  ghost predicate Hop(w: World, i: nat, p: string, q: string) {
    && w.valid(i) && w.op(i, p).Some? && w.op(i, p).value.OwnershipLost?
    && w.resolve(w.op(i, p).value.owner) == Success(q)
  }

  // Calls that do not return

  /** An expired context ends the loop: turn n+1 finds it if nothing ended the loop before. */
  lemma {:induction false} ExpiredContextReturns(w: World, peer: string, n: nat)
    requires !w.valid(n)
    ensures After(w, peer, n + 1).Returned?
  {
    CallsCount(w, peer, n);
  }

  lemma {:induction false} CallsCount(w: World, peer: string, n: nat)
    ensures After(w, peer, n).Calling? ==> |After(w, peer, n).calls| == n
  {
    if n > 0 {
      CallsCount(w, peer, n - 1);
    }
  }

  /** Where the loop stands before turn n. */
  function HostAt(w: World, peer: string, n: nat): string {
    var s := After(w, peer, n);
    if s.Calling? then s.peer else ""
  }

  /** An endless trail: every host turns the call away with a hint to the next, and the context never expires. */
  ghost predicate EndlessTrail(w: World, peer: string, trail: nat -> string) {
    trail(0) == peer && forall i: nat :: Hop(w, i, trail(i), trail(i + 1))
  }

  lemma {:induction false} EndlessTrailIsFollowed(w: World, peer: string, trail: nat -> string, n: nat)
    requires EndlessTrail(w, peer, trail)
    ensures After(w, peer, n).Calling? && HostAt(w, peer, n) == trail(n)
  {
    if n > 0 {
      EndlessTrailIsFollowed(w, peer, trail, n - 1);
      CallsCount(w, peer, n - 1);
      assert Hop(w, n - 1, trail(n - 1), trail(n - 1 + 1));
    }
  }

  ghost predicate NeverReturns(w: World, peer: string) {
    forall n: nat :: After(w, peer, n).Calling?
  }

  /** The loop runs for ever exactly along an endless trail of hints. */
  lemma {:induction false} NeverReturnsExactly(w: World, peer: string)
    ensures NeverReturns(w, peer) <==> exists trail :: EndlessTrail(w, peer, trail)
  {
    if trail :| EndlessTrail(w, peer, trail) {
      forall n: nat
        ensures After(w, peer, n).Calling?
      {
        EndlessTrailIsFollowed(w, peer, trail, n);
      }
    }
    if NeverReturns(w, peer) {
      var trail := (n: nat) => HostAt(w, peer, n);
      forall i: nat
        ensures Hop(w, i, trail(i), trail(i + 1))
      {
        CallsCount(w, peer, i);
        assert After(w, peer, i + 1) == Turn(w, After(w, peer, i));
      }
      assert EndlessTrail(w, peer, trail);
    }
  }

  /** Each of the hosts but the last points to the next. */
  ghost predicate Trail(w: World, peers: seq<string>) {
    peers != [] && forall i :: 0 <= i < |peers| - 1 ==> Hop(w, i, peers[i], peers[i + 1])
  }

  lemma {:induction false} TrailIsFollowed(w: World, peers: seq<string>, k: nat)
    requires Trail(w, peers) && k < |peers|
    ensures After(w, peers[0], k) == Calling(peers[k], peers[..k])
  {
    if k > 0 {
      TrailIsFollowed(w, peers, k - 1);
      assert Hop(w, k - 1, peers[k - 1], peers[k]);
      assert peers[..k] == peers[..k - 1] + [peers[k - 1]];
    }
  }

  /** If the hints lead through k hosts to one that does not turn the call away, before the context expires, the
      operation is called exactly k+1 times, last there, and that call's result is returned. */
  lemma {:induction false} HintsLeadToOwner(w: World, peers: seq<string>)
    requires Trail(w, peers)
    requires var k := |peers| - 1; w.valid(k) && !(w.op(k, peers[k]).Some? && w.op(k, peers[k]).value.OwnershipLost?)
    ensures After(w, peers[0], |peers|) == Returned(w.op(|peers| - 1, peers[|peers| - 1]), peers)
  {
    TrailIsFollowed(w, peers, |peers| - 1);
    assert peers[..|peers| - 1] + [peers[|peers| - 1]] == peers;
  }

  /** The three ways a call ends after following a trail: the last host did not turn it away, its hint led nowhere,
      or the context expired before the next call. */
  ghost predicate Ended(w: World, peer: string, result: Option<Error>, calls: seq<string>) {
    || (exists next ::
          Trail(w, calls + [next]) && (calls + [next])[0] == peer && !w.valid(|calls|) && result == Some(ContextExpired))
    || (&& Trail(w, calls) && calls[0] == peer
        && var k := |calls| - 1;
           var err := w.op(k, calls[k]);
           w.valid(k) &&
           if err.Some? && err.value.OwnershipLost? then w.resolve(err.value.owner).Failure? && result == Some(w.resolve(err.value.owner).error)
           else result == err)
  }

  ghost predicate OnTrail(w: World, peer: string, s: State) {
    match s
    case Calling(at, calls) => Trail(w, calls + [at]) && (calls + [at])[0] == peer
    case Returned(result, calls) => Ended(w, peer, result, calls)
  }

  lemma {:induction false} TurnStaysOnTrail(w: World, peer: string, s: State)
    requires OnTrail(w, peer, s)
    ensures OnTrail(w, peer, Turn(w, s))
  {
    if s.Calling? && w.valid(|s.calls|) {
      var peers := s.calls + [s.peer];
      var t := Turn(w, s);
      if t.Calling? {
        var longer := peers + [t.peer];
        forall i | 0 <= i < |longer| - 1
          ensures Hop(w, i, longer[i], longer[i + 1])
        {
          if i < |peers| - 1 {
            assert Hop(w, i, peers[i], peers[i + 1]);
          }
        }
        assert t.calls == peers && longer[0] == peers[0];
      }
    }
  }

  /** Every call that returns followed a trail of hints from the first host and ended in one of the three ways. */
  lemma {:induction false} EveryReturnIsExplained(w: World, peer: string, turns: nat)
    ensures OnTrail(w, peer, After(w, peer, turns))
  {
    if turns == 0 {
      assert ([] + [peer])[0] == peer;
    } else {
      EveryReturnIsExplained(w, peer, turns - 1);
      TurnStaysOnTrail(w, peer, After(w, peer, turns - 1));
    }
  }

  /** An ownership-lost error of the operation is never what is returned: only the resolver could produce one. */
  lemma {:induction false} OwnershipLostIsNotReturned(w: World, peer: string, turns: nat)
    requires var s := After(w, peer, turns); s.Returned? && s.result.Some? && s.result.value.OwnershipLost?
    ensures exists host :: w.resolve(host).Failure? && w.resolve(host).error.OwnershipLost?
  {
    EveryReturnIsExplained(w, peer, turns);
    var s := After(w, peer, turns);
    var k := |s.calls| - 1;
    assert w.resolve(w.op(k, s.calls[k]).value.owner).Failure?;
  }
}
