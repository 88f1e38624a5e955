/** Workflow histories and how they ought to be cut into blobs, with no mention of pages or reads. */
module HistoryChunks {

  const FIRST_EVENT_ID := 1

  datatype Event = Event(id: int, version: int)

  const NULL_EVENT := Event(0, 0)

  /** A batch of events, with the size that the size estimator reports for it. */
  datatype Batch = Batch(events: seq<Event>, size: nat)

  datatype BlobHeader = BlobHeader(
    isLast: bool,
    firstFailoverVersion: int,
    lastFailoverVersion: int,
    firstEventId: int,
    lastEventId: int,
    eventCount: int)

  datatype Blob = Blob(header: BlobHeader, body: seq<Batch>)

  /** A batch is not empty and numbers its events from `first` on. */
  predicate NumberedFrom(b: Batch, first: int) {
    && b.events != []
    && forall i :: 0 <= i < |b.events| ==> b.events[i].id == first + i
  }

  /** What the store guarantees: non-empty batches whose event ids run on from `first` without a gap. */
  predicate Contiguous(h: seq<Batch>, first: int) {
    h == [] || (NumberedFrom(h[0], first) && Contiguous(h[1..], first + |h[0].events|))
  }

  function EventCount(h: seq<Batch>): nat {
    if h == [] then 0 else |h[0].events| + EventCount(h[1..])
  }

  function Size(h: seq<Batch>): nat {
    if h == [] then 0 else h[0].size + Size(h[1..])
  }

  function Concat<T>(parts: seq<seq<T>>): seq<T> {
    if parts == [] then [] else parts[0] + Concat(parts[1..])
  }

  /** The first event of a run of batches, or a null event when there is none. */
  function FirstEvent(h: seq<Batch>): Event {
    if h != [] && h[0].events != [] then h[0].events[0] else NULL_EVENT
  }

  function LastEvent(h: seq<Batch>): Event {
    if h != [] && h[|h| - 1].events != [] then
      var b := h[|h| - 1];
      b.events[|b.events| - 1]
    else NULL_EVENT
  }

  /** The length of the shortest prefix whose size reaches the target, or of everything when none does. */
  function TakeCount(h: seq<Batch>, target: int): (k: nat)
    ensures k <= |h|
    ensures target > 0 && h != [] ==> k > 0
  {
    if target <= 0 || h == [] then 0 else 1 + TakeCount(h[1..], target - h[0].size)
  }

  /** The greedy chunking: cut off the shortest prefix that reaches the target, and go on with the rest. */
  function Chunks(h: seq<Batch>, target: int): seq<seq<Batch>>
    requires target > 0
    decreases |h|
  {
    if h == [] then []
    else
      var k := TakeCount(h, target);
      [h[..k]] + Chunks(h[k..], target)
  }

  /** The blob made of a chunk. */
  function MakeBlob(body: seq<Batch>, isLast: bool): Blob {
    var first, last := FirstEvent(body), LastEvent(body);
    Blob(BlobHeader(isLast, first.version, last.version, first.id, last.id, EventCount(body)), body)
  }

  /** The blobs that the archive of `h` ought to hold, in order. */
  function Blobs(h: seq<Batch>, target: int): (bs: seq<Blob>)
    requires target > 0
    decreases |h|
  {
    if h == [] then []
    else
      var k := TakeCount(h, target);
      [MakeBlob(h[..k], k == |h|)] + Blobs(h[k..], target)
  }

  // Lemmas about contiguous histories

  lemma {:induction false} ContiguousPrefix(h: seq<Batch>, first: int, k: nat)
    requires Contiguous(h, first) && k <= |h|
    ensures Contiguous(h[..k], first)
  {
    if k > 0 {
      ContiguousPrefix(h[1..], first + |h[0].events|, k - 1);
      assert h[..k][1..] == h[1..][..k - 1];
    }
  }

  lemma {:induction false} ContiguousSuffix(h: seq<Batch>, first: int, k: nat, next: int)
    requires Contiguous(h, first) && k <= |h| && next == first + EventCount(h[..k])
    ensures Contiguous(h[k..], next)
  {
    if k == 0 {
      assert h[k..] == h;
    } else {
      assert h[..k][1..] == h[1..][..k - 1];
      ContiguousSuffix(h[1..], first + |h[0].events|, k - 1, next);
      assert h[k..] == h[1..][k - 1..];
    }
  }

  lemma {:induction false} ContiguousNonEmpty(h: seq<Batch>, first: int)
    requires Contiguous(h, first)
    ensures forall i :: 0 <= i < |h| ==> h[i].events != []
  {
    if h != [] {
      ContiguousNonEmpty(h[1..], first + |h[0].events|);
      assert forall i :: 0 < i < |h| ==> h[i] == h[1..][i - 1];
    }
  }

  lemma {:induction false} EventCountAppend(a: seq<Batch>, b: seq<Batch>)
    ensures EventCount(a + b) == EventCount(a) + EventCount(b)
  {
    if a == [] {
      assert a + b == b;
    } else {
      EventCountAppend(a[1..], b);
      assert (a + b)[1..] == a[1..] + b;
    }
  }

  lemma {:induction false} SizeAppend(a: seq<Batch>, b: seq<Batch>)
    ensures Size(a + b) == Size(a) + Size(b)
  {
    if a == [] {
      assert a + b == b;
    } else {
      SizeAppend(a[1..], b);
      assert (a + b)[1..] == a[1..] + b;
    }
  }

  /** In a contiguous run of batches the last event id is where the count of events puts it. */
  lemma {:induction false} LastEventId(h: seq<Batch>, first: int)
    requires Contiguous(h, first) && h != []
    ensures h[0].events != [] && FirstEvent(h).id == first
    ensures h[|h| - 1].events != [] && LastEvent(h).id == first + EventCount(h) - 1
    ensures EndsWith(h, LastEvent(h)) && h[0].events[0] == FirstEvent(h)
  {
    if |h| > 1 {
      LastEventId(h[1..], first + |h[0].events|);
      assert LastEvent(h) == LastEvent(h[1..]);
    }
  }

  // The greedy prefix, said without recursion

  /** `k` batches are the shortest prefix that reaches the target, or all there are. */
  ghost predicate ShortestReaching(h: seq<Batch>, target: int, k: nat)
    requires k <= |h|
  {
    && (k == |h| || Size(h[..k]) >= target)
    && forall j :: 0 <= j < k ==> Size(h[..j]) < target
  }

  lemma {:induction false} TakeCountShortest(h: seq<Batch>, target: int, k: nat)
    requires k <= |h|
    ensures k == TakeCount(h, target) <==> ShortestReaching(h, target, k)
  {
    if h == [] {
    } else if target <= 0 {
      assert Size(h[..0]) >= target;
    } else if k == 0 {
      assert Size(h[..0]) == 0;
    } else {
      TakeCountShortest(h[1..], target - h[0].size, k - 1);
      forall j | 1 <= j <= |h|
        ensures Size(h[..j]) == h[0].size + Size(h[1..][..j - 1])
      {
        assert h[..j][1..] == h[1..][..j - 1];
      }
      if ShortestReaching(h, target, k) {
        forall j | 0 <= j < k - 1
          ensures Size(h[1..][..j]) < target - h[0].size
        {
          assert Size(h[..j + 1]) < target;
        }
        if k == |h| { assert k - 1 == |h[1..]|; }
      }
      if ShortestReaching(h[1..], target - h[0].size, k - 1) {
        assert Size(h[..0]) == 0;
        forall j | 1 <= j < k
          ensures Size(h[..j]) < target
        {
          assert Size(h[1..][..j - 1]) < target - h[0].size;
        }
      }
    }
  }

  lemma {:induction false} SizePrefixMonotone(h: seq<Batch>, i: nat, j: nat)
    requires i <= j <= |h|
    ensures Size(h[..i]) <= Size(h[..j])
  {
    assert h[..j] == h[..i] + h[i..j];
    SizeAppend(h[..i], h[i..j]);
  }

  // The greedy chunking, said without recursion

  /** Chunks that make up `h` in order: none could have stopped earlier, and only the last may fall short. */
  ghost predicate IsPacking(cs: seq<seq<Batch>>, h: seq<Batch>, target: int) {
    && Concat(cs) == h
    && (forall i :: 0 <= i < |cs| ==> cs[i] != [] && Size(cs[i][..|cs[i]| - 1]) < target)
    && (forall i :: 0 <= i < |cs| - 1 ==> Size(cs[i]) >= target)
  }

  lemma {:induction false} PackingHead(cs: seq<seq<Batch>>, h: seq<Batch>, target: int)
    requires target > 0 && IsPacking(cs, h, target) && cs != []
    ensures h != [] && cs[0] == h[..TakeCount(h, target)]
    ensures IsPacking(cs[1..], h[TakeCount(h, target)..], target)
  {
    var k := |cs[0]|;
    assert h == cs[0] + Concat(cs[1..]);
    assert cs[0] == h[..k] && Concat(cs[1..]) == h[k..];
    if |cs| == 1 {
      assert cs[1..] == [] && k == |h|;
    }
    assert cs[0][..k - 1] == h[..k - 1];
    forall j | 0 <= j < k
      ensures Size(h[..j]) < target
    {
      SizePrefixMonotone(h, j, k - 1);
    }
    TakeCountShortest(h, target, k);
  }

  /** The greedy chunking is the one and only packing. */
  lemma {:induction false} PackingUnique(cs: seq<seq<Batch>>, h: seq<Batch>, target: int)
    requires target > 0
    ensures IsPacking(cs, h, target) <==> cs == Chunks(h, target)
    decreases |h|
  {
    ChunksPack(h, target);
    if IsPacking(cs, h, target) {
      if cs == [] {
        assert h == [];
      } else {
        PackingHead(cs, h, target);
        PackingUnique(cs[1..], h[TakeCount(h, target)..], target);
      }
    }
  }

  lemma {:induction false} ChunksPack(h: seq<Batch>, target: int)
    requires target > 0
    ensures IsPacking(Chunks(h, target), h, target)
    decreases |h|
  {
    if h != [] {
      var k := TakeCount(h, target);
      var rest := Chunks(h[k..], target);
      ChunksPack(h[k..], target);
      TakeCountShortest(h, target, k);
      assert h == h[..k] + h[k..];
      assert h[..k][..k - 1] == h[..k - 1];
      assert k < |h| <==> rest != [];
      PackingPrepend(h[..k], rest, h[k..], target);
    }
  }

  lemma {:induction false} PackingPrepend(c: seq<Batch>, rest: seq<seq<Batch>>, h: seq<Batch>, target: int)
    requires IsPacking(rest, h, target) && c != []
    requires Size(c[..|c| - 1]) < target && (rest != [] ==> Size(c) >= target)
    ensures IsPacking([c] + rest, c + h, target)
  {
    var cs := [c] + rest;
    assert cs[1..] == rest;
    assert forall i :: 1 <= i < |cs| ==> cs[i] == rest[i - 1];
  }

  // The blobs

  /** Headers that cover the ids from `first` to `last` end to end, count their events, and flag only the last. */
  ghost predicate Tiles(bs: seq<Blob>, first: int, last: int) {
    && bs != []
    && bs[0].header.firstEventId == first
    && bs[|bs| - 1].header.lastEventId == last
    && (forall i :: 0 <= i < |bs| - 1 ==> bs[i + 1].header.firstEventId == bs[i].header.lastEventId + 1)
    && (forall i :: 0 <= i < |bs| ==> HeaderMatchesBody(bs[i]))
    && (forall i :: 0 <= i < |bs| ==> (bs[i].header.isLast <==> i == |bs| - 1))
  }

  /** A header's id range is the range of ids in the body, its count the number of ids in that range, and its versions
      those of the first event of the first batch and of the last event of the last batch. */
  ghost predicate HeaderMatchesBody(b: Blob) {
    && b.header.eventCount == b.header.lastEventId - b.header.firstEventId + 1
    && b.header.eventCount == EventCount(b.body)
    && Contiguous(b.body, b.header.firstEventId)
    && b.body != []
    && b.body[0].events != [] && b.body[0].events[0] == Event(b.header.firstEventId, b.header.firstFailoverVersion)
    && EndsWith(b.body, Event(b.header.lastEventId, b.header.lastFailoverVersion))
  }

  /** The last event of the last batch. */
  predicate EndsWith(h: seq<Batch>, e: Event) {
    h != [] && var b := h[|h| - 1]; b.events != [] && b.events[|b.events| - 1] == e
  }

  lemma {:induction false} MakeBlobHeader(body: seq<Batch>, first: int, isLast: bool)
    requires Contiguous(body, first) && body != []
    ensures HeaderMatchesBody(MakeBlob(body, isLast))
    ensures MakeBlob(body, isLast).header.firstEventId == first
    ensures MakeBlob(body, isLast).header.lastEventId == first + EventCount(body) - 1
  {
    LastEventId(body, first);
  }

  lemma {:induction false} TilesSingle(b: Blob)
    requires HeaderMatchesBody(b) && b.header.isLast
    ensures Tiles([b], b.header.firstEventId, b.header.lastEventId)
  {
  }

  lemma {:induction false} TilesPrepend(b: Blob, rest: seq<Blob>, first: int, next: int, last: int)
    requires HeaderMatchesBody(b) && !b.header.isLast
    requires b.header.firstEventId == first && b.header.lastEventId + 1 == next && Tiles(rest, next, last)
    ensures Tiles([b] + rest, first, last)
  {
    var bs := [b] + rest;
    assert forall i :: 1 <= i < |bs| ==> bs[i] == rest[i - 1];
    forall i | 0 <= i < |bs| - 1
      ensures bs[i + 1].header.firstEventId == bs[i].header.lastEventId + 1
    {
      assert bs[i + 1] == rest[i];
      if i > 0 { assert bs[i] == rest[i - 1]; }
    }
  }

  /** The headers of the blobs tile the history, and only the last is flagged. */
  lemma {:induction false} BlobsTile(h: seq<Batch>, first: int, target: int)
    requires target > 0 && Contiguous(h, first) && h != []
    ensures Tiles(Blobs(h, target), first, first + EventCount(h) - 1)
    decreases |h|
  {
    var k, last := TakeCount(h, target), first + EventCount(h) - 1;
    var next, rest := first + EventCount(h[..k]), Blobs(h[k..], target);
    var b := MakeBlob(h[..k], k == |h|);
    assert Tiles([b] + rest, first, last) by {
      ContiguousPrefix(h, first, k);
      ContiguousSuffix(h, first, k, next);
      MakeBlobHeader(h[..k], first, k == |h|);
      assert h == h[..k] + h[k..];
      EventCountAppend(h[..k], h[k..]);
      if k == |h| {
        TilesSingle(b);
        assert [b] + rest == [b];
      } else {
        BlobsTile(h[k..], next, target);
        TilesPrepend(b, rest, first, next, last);
      }
    }
    assert Blobs(h, target) == [b] + rest;
  }

  /** The bodies of the blobs are the greedy chunks; put together they are the history again. */
  lemma {:induction false} BlobBodies(h: seq<Batch>, target: int)
    requires target > 0
    ensures |Blobs(h, target)| == |Chunks(h, target)|
    ensures forall i :: 0 <= i < |Chunks(h, target)| ==> Blobs(h, target)[i].body == Chunks(h, target)[i]
    ensures Concat(Chunks(h, target)) == h
    decreases |h|
  {
    if h != [] {
      var k := TakeCount(h, target);
      BlobBodies(h[k..], target);
      assert h == h[..k] + h[k..];
      assert Chunks(h, target)[1..] == Chunks(h[k..], target);
    }
  }

  /** The last blob ends where the history ends. */
  lemma {:induction false} LastBlobEnds(h: seq<Batch>, target: int)
    requires target > 0 && h != []
    ensures Blobs(h, target) != []
    ensures LastEvent(Blobs(h, target)[|Blobs(h, target)| - 1].body) == LastEvent(h)
    decreases |h|
  {
    var k := TakeCount(h, target);
    var bs := Blobs(h, target);
    if k == |h| {
      assert h[..k] == h && Blobs(h[k..], target) == [];
    } else {
      LastBlobEnds(h[k..], target);
      assert bs[|bs| - 1] == Blobs(h[k..], target)[|bs| - 2];
    }
  }
}
