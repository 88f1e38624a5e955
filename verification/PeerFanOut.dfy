/** Grouping the items of a request by the peer that owns each of them. */
module PeerFanOut {
  import opened Wrappers

  /** The items that go to a peer, in input order. */
  function ItemsFor<Item, Peer(==)>(items: seq<Item>, resolve: Item -> Option<Peer>, peer: Peer): seq<Item> {
    if items == [] then []
    else
      var n := |items| - 1;
      ItemsFor(items[..n], resolve, peer) + if resolve(items[n]) == Some(peer) then [items[n]] else []
  }

  /** Every item can be resolved. */
  predicate Resolvable<Item, Peer>(items: seq<Item>, resolve: Item -> Option<Peer>) {
    forall i :: 0 <= i < |items| ==> resolve(items[i]).Some?
  }

  /** A peer gets a list exactly when there are items for it, and the list is just those items. */
  ghost predicate IsGrouping<Item, Peer(!new)>(groups: map<Peer, seq<Item>>, items: seq<Item>, resolve: Item -> Option<Peer>) {
    && (forall p :: p in groups <==> ItemsFor(items, resolve, p) != [])
    && (forall p :: p in groups ==> groups[p] == ItemsFor(items, resolve, p))
  }

  /** The grouping loop of every fan-out. It fails exactly when some item cannot be resolved, and says which is the first. */
  method GroupByPeer<Item, Peer(==, !new)>(items: seq<Item>, resolve: Item -> Option<Peer>) returns (r: Result<map<Peer, seq<Item>>, Item>)
    ensures r.Success? <==> Resolvable(items, resolve)
    ensures r.Success? ==> IsGrouping(r.value, items, resolve)
    ensures r.Failure? ==> exists i :: 0 <= i < |items| && r.error == items[i] && resolve(items[i]).None? && Resolvable(items[..i], resolve)
  {
    var groups: map<Peer, seq<Item>> := map[];
    for i := 0 to |items|
      invariant Resolvable(items[..i], resolve) && IsGrouping(groups, items[..i], resolve)
    {
      var peer := resolve(items[i]);
      if peer.None? {
        return Failure(items[i]);
      }
      assert items[..i + 1][..i] == items[..i];
      var list := if peer.value in groups then groups[peer.value] else [];
      groups := groups[peer.value := list + [items[i]]];
    }
    assert items[..|items|] == items;
    r := Success(groups);
  }

  /** The same for rate limit keys, which need a ring with members to begin with. */
  method GlobalRatelimitPeers(keys: seq<string>, hosts: Option<nat>, resolve: string -> Option<string>)
    returns (r: Result<map<string, seq<string>>, string>)
    ensures r.Success? <==> hosts.Some? && hosts.value > 0 && Resolvable(keys, resolve)
    ensures r.Success? ==> IsGrouping(r.value, keys, resolve)
  {
    if hosts.None? || hosts.value == 0 {
      return Failure("unable to get history peers");
    }
    r := GroupByPeer(keys, resolve);
  }

  function Count<T(==)>(s: seq<T>, x: T): nat {
    if s == [] then 0 else Count(s[..|s| - 1], x) + if s[|s| - 1] == x then 1 else 0
  }

  lemma {:induction false} CountAppend<T>(s: seq<T>, y: T, x: T)
    ensures Count(s + [y], x) == Count(s, x) + if y == x then 1 else 0
  {
    assert (s + [y])[..|s|] == s;
  }

  /** Nothing is lost, duplicated or sent elsewhere: a peer gets an item as often as it was asked for, if it owns it,
      and never otherwise. */
  lemma {:induction false} GroupingConserves<Item, Peer>(items: seq<Item>, resolve: Item -> Option<Peer>, peer: Peer, x: Item)
    ensures Count(ItemsFor(items, resolve, peer), x) == if resolve(x) == Some(peer) then Count(items, x) else 0
  {
    if items != [] {
      var n := |items| - 1;
      var before := ItemsFor(items[..n], resolve, peer);
      GroupingConserves(items[..n], resolve, peer, x);
      CountAppend(before, items[n], x);
      assert before + [] == before;
    }
  }

  /** The list is made of the items at these places, in input order, and the places are those of all items that go to
      the peer. */
  ghost predicate IsSelection<Item, Peer>(list: seq<Item>, places: seq<nat>, items: seq<Item>, resolve: Item -> Option<Peer>, peer: Peer) {
    && |places| == |list|
    && (forall i :: 0 <= i < |list| ==> places[i] < |items| && list[i] == items[places[i]])
    && (forall i, j :: 0 <= i < j < |places| ==> places[i] < places[j])
    && (forall j :: 0 <= j < |items| ==> (j in places <==> resolve(items[j]) == Some(peer)))
  }

  lemma {:induction false} SelectionSkips<Item, Peer>(list: seq<Item>, places: seq<nat>, items: seq<Item>, resolve: Item -> Option<Peer>, peer: Peer, n: nat)
    requires |items| == n + 1 && IsSelection(list, places, items[..n], resolve, peer) && resolve(items[n]) != Some(peer)
    ensures IsSelection(list, places, items, resolve, peer)
  {
    forall j | 0 <= j < |items|
      ensures j in places <==> resolve(items[j]) == Some(peer)
    {
      if j < n {
        assert items[..n][j] == items[j];
      }
    }
  }

  lemma {:induction false} SelectionTakes<Item, Peer>(list: seq<Item>, places: seq<nat>, items: seq<Item>, resolve: Item -> Option<Peer>, peer: Peer, n: nat)
    requires |items| == n + 1 && IsSelection(list, places, items[..n], resolve, peer) && resolve(items[n]) == Some(peer)
    ensures IsSelection(list + [items[n]], places + [n], items, resolve, peer)
  {
    var list', places' := list + [items[n]], places + [n];
    forall i | 0 <= i < |list'|
      ensures places'[i] < |items| && list'[i] == items[places'[i]]
    {
      if i < |list| {
        assert list'[i] == list[i] == items[..n][places[i]];
      }
    }
    forall j | 0 <= j < |items|
      ensures j in places' <==> resolve(items[j]) == Some(peer)
    {
      if j < n {
        assert items[..n][j] == items[j];
        assert j in places' <==> j in places;
      }
    }
  }

  /** Each peer's list is exactly its items, as often as they occur and in input order. */
  lemma {:induction false} GroupingKeepsOrder<Item, Peer>(items: seq<Item>, resolve: Item -> Option<Peer>, peer: Peer) returns (places: seq<nat>)
    ensures IsSelection(ItemsFor(items, resolve, peer), places, items, resolve, peer)
  {
    if items == [] {
      places := [];
    } else {
      var n := |items| - 1;
      var list := ItemsFor(items[..n], resolve, peer);
      places := GroupingKeepsOrder(items[..n], resolve, peer);
      if resolve(items[n]) == Some(peer) {
        SelectionTakes(list, places, items, resolve, peer, n);
        places := places + [n];
      } else {
        SelectionSkips(list, places, items, resolve, peer, n);
        assert list + [] == list;
      }
    }
  }

  lemma {:induction false} ItemsForMembers<Item, Peer>(items: seq<Item>, resolve: Item -> Option<Peer>, peer: Peer, x: Item)
    ensures x in ItemsFor(items, resolve, peer) <==> x in items && resolve(x) == Some(peer)
  {
    if items != [] {
      var n := |items| - 1;
      ItemsForMembers(items[..n], resolve, peer, x);
      assert items == items[..n] + [items[n]];
    }
  }
}
