/** The archival history iterator: paged reads, packing into blobs, look-ahead, checkpoint and resume. */
module HistoryIterator {
  import opened Wrappers
  import opened Decimal
  import opened HistoryChunks
  import Runs

  datatype IteratorState = IteratorState(nextEventId: int, finished: bool)

  datatype Error = EntityNotExists | ReadFault(transient: bool) | SizeFault | MalformedState

  /** How one read of the store turns out: it fails, for a while or for good, or it returns a page of
      some length, one batch of which may then defeat the size estimator. */
  datatype ReadChoice = Fault(transient: bool) | Page(length: nat, unsizable: Option<nat>)

  datatype NextOutcome = Delivered(blob: Blob) | Depleted | Failed(error: Error) | Panicked

  datatype PageOutcome = Filled | Exhausted | Unsizable

  const INITIAL_STATE := IteratorState(FIRST_EVENT_ID, false)

  // The store

  /** How many leading batches of `h` start before event `id`. */
  function SkipCount(h: seq<Batch>, first: int, id: int): (j: nat)
    requires Contiguous(h, first)
    ensures j <= |h|
  {
    if h == [] || first >= id then 0 else 1 + SkipCount(h[1..], first + |h[0].events|, id)
  }

  /** The batches that a read from event `id` on may return. */
  function From(h: seq<Batch>, id: int): seq<Batch>
    requires Contiguous(h, FIRST_EVENT_ID)
  {
    h[SkipCount(h, FIRST_EVENT_ID, id)..]
  }

  /** A page is a non-empty prefix of what is left, as long as the store likes. */
  function PageLength(length: nat, available: nat): (n: nat)
    requires available > 0
    ensures 1 <= n <= available
  {
    if length == 0 then 1 else if length > available then available else length
  }

  function ReadHistory(h: seq<Batch>, id: int, choice: ReadChoice): Result<seq<Batch>, Error>
    requires Contiguous(h, FIRST_EVENT_ID)
  {
    match choice
    case Fault(transient) => Failure(ReadFault(transient))
    case Page(length, _) =>
      var available := From(h, id);
      if available == [] then Failure(EntityNotExists) else Success(available[..PageLength(length, |available|)])
  }

  lemma {:induction false} SkipCountAtBoundary(h: seq<Batch>, first: int, k: nat)
    requires Contiguous(h, first) && k <= |h|
    ensures SkipCount(h, first, first + EventCount(h[..k])) == k
  {
    if k > 0 {
      SkipCountAtBoundary(h[1..], first + |h[0].events|, k - 1);
      assert h[..k][1..] == h[1..][..k - 1];
    }
  }

  /** The id of the first event that a read from `id` on can return. */
  function FirstIdFrom(h: seq<Batch>, id: int): int
    requires Contiguous(h, FIRST_EVENT_ID)
  {
    FIRST_EVENT_ID + EventCount(h[..SkipCount(h, FIRST_EVENT_ID, id)])
  }

  lemma {:induction false} ReadAtBoundary(h: seq<Batch>, k: nat, next: int)
    requires Contiguous(h, FIRST_EVENT_ID) && k <= |h| && next == FIRST_EVENT_ID + EventCount(h[..k])
    ensures From(h, next) == h[k..] && FirstIdFrom(h, next) == next
  {
    SkipCountAtBoundary(h, FIRST_EVENT_ID, k);
  }

  lemma {:induction false} FromContiguous(h: seq<Batch>, id: int)
    requires Contiguous(h, FIRST_EVENT_ID)
    ensures Contiguous(From(h, id), FirstIdFrom(h, id))
  {
    ContiguousSuffix(h, FIRST_EVENT_ID, SkipCount(h, FIRST_EVENT_ID, id), FirstIdFrom(h, id));
  }

  /** Reading on from just after the first `k` of the batches left returns what comes after those. */
  lemma {:induction false} FromAfter(h: seq<Batch>, id: int, k: nat, next: int)
    requires Contiguous(h, FIRST_EVENT_ID) && k <= |From(h, id)|
    requires next == FirstIdFrom(h, id) + EventCount(From(h, id)[..k])
    ensures From(h, next) == From(h, id)[k..] && FirstIdFrom(h, next) == next
  {
    var j := SkipCount(h, FIRST_EVENT_ID, id);
    assert h[..j + k] == h[..j] + h[j..][..k];
    EventCountAppend(h[..j], h[j..][..k]);
    ReadAtBoundary(h, j + k, next);
    assert h[j + k..] == h[j..][k..];
  }

  // What a call ought to do

  /** Where the iterator stands once `k` of the batches left at `id` have been taken. */
  function StateAfter(h: seq<Batch>, id: int, k: nat): IteratorState
    requires Contiguous(h, FIRST_EVENT_ID) && k <= |From(h, id)|
  {
    if k == |From(h, id)| then IteratorState(0, true) else IteratorState(Cursor(h, id, k), false)
  }

  function Cursor(h: seq<Batch>, id: int, k: nat): int
    requires Contiguous(h, FIRST_EVENT_ID) && k <= |From(h, id)|
  {
    if k == 0 then id else FirstIdFrom(h, id) + EventCount(From(h, id)[..k])
  }

  lemma {:induction false} CursorReadsOn(h: seq<Batch>, id: int, k: nat)
    requires Contiguous(h, FIRST_EVENT_ID) && k <= |From(h, id)|
    ensures From(h, Cursor(h, id, k)) == From(h, id)[k..]
    ensures k > 0 ==> Cursor(h, id, k) > FIRST_EVENT_ID
  {
    if k > 0 {
      FromAfter(h, id, k, Cursor(h, id, k));
      FromContiguous(h, id);
      assert From(h, id)[..k] != [];
    }
  }

  /** The loop invariant of packing: `batches` are the first ones left, none of which could have been the
      last to be taken before now, and `id` is where to read on. */
  ghost predicate Packing(h: seq<Batch>, first: int, target: int, batches: seq<Batch>, size: int, id: int)
    requires Contiguous(h, FIRST_EVENT_ID)
  {
    && batches <= From(h, first)
    && size == Size(batches)
    && id == Cursor(h, first, |batches|)
    && forall j :: 0 <= j < |batches| ==> Size(batches[..j]) < target
  }

  lemma {:induction false} PackingExtend(h: seq<Batch>, first: int, target: int, batches: seq<Batch>, size: int, id: int)
    requires Contiguous(h, FIRST_EVENT_ID) && Packing(h, first, target, batches, size, id)
    requires size < target && |batches| < |From(h, first)|
    ensures From(h, first)[|batches|].events != []
    ensures var batch := From(h, first)[|batches|];
            Packing(h, first, target, batches + [batch], size + batch.size, batch.events[|batch.events| - 1].id + 1)
  {
    var left, k := From(h, first), |batches|;
    FromContiguous(h, first);
    ContiguousPrefix(left, FirstIdFrom(h, first), k + 1);
    LastEventId(left[..k + 1], FirstIdFrom(h, first));
    assert left[..k + 1] == batches + [left[k]];
    SizeAppend(batches, [left[k]]);
    assert Size([left[k]]) == left[k].size;
    forall j | 0 <= j < k + 1
      ensures Size((batches + [left[k]])[..j]) < target
    {
      assert (batches + [left[k]])[..j] == batches[..j];
      assert batches[..k] == batches;
    }
  }

  lemma {:induction false} PackingDone(h: seq<Batch>, first: int, target: int, batches: seq<Batch>, size: int, id: int)
    requires Contiguous(h, FIRST_EVENT_ID) && Packing(h, first, target, batches, size, id)
    requires size >= target || |batches| == |From(h, first)|
    ensures |batches| == TakeCount(From(h, first), target)
    ensures batches == From(h, first)[..|batches|]
    ensures StateAfter(h, first, |batches|) == if From(h, first)[|batches|..] == [] then IteratorState(0, true) else IteratorState(id, false)
  {
    var left, k := From(h, first), |batches|;
    assert batches == left[..k];
    forall j | 0 <= j < k
      ensures Size(left[..j]) < target
    {
      assert left[..j] == batches[..j];
    }
    TakeCountShortest(left, target, k);
  }

  lemma {:induction false} PackingReadsOn(h: seq<Batch>, first: int, target: int, batches: seq<Batch>, size: int, id: int)
    requires Contiguous(h, FIRST_EVENT_ID) && Packing(h, first, target, batches, size, id)
    ensures From(h, id) == From(h, first)[|batches|..]
    ensures Missing(h, id) ==> Missing(h, first)
  {
    CursorReadsOn(h, first, |batches|);
  }

  /** The history is missing altogether: the one case in which "not exists" is an error. */
  predicate Missing(h: seq<Batch>, id: int)
    requires Contiguous(h, FIRST_EVENT_ID)
  {
    From(h, id) == [] && id == FIRST_EVENT_ID
  }

  /** Exactly when a call that meets no fault ends up indexing an empty list of batches. */
  predicate Panics(h: seq<Batch>, target: int, s: IteratorState)
    requires Contiguous(h, FIRST_EVENT_ID)
  {
    target <= 0 || From(h, s.nextEventId) == []
  }

  /** What one call of `Next` does, whatever pages the store hands out. */
  ghost predicate NextRelation(h: seq<Batch>, target: int, s: IteratorState, o: NextOutcome, t: IteratorState)
    requires Contiguous(h, FIRST_EVENT_ID)
  {
    var left := From(h, s.nextEventId);
    var k := TakeCount(left, target);
    if s.finished then o == Depleted && t == s
    else if o.Failed? then t == s
    else
      && !Missing(h, s.nextEventId)
      && t == StateAfter(h, s.nextEventId, k)
      && if Panics(h, target, s) then o == Panicked
         else o == Delivered(MakeBlob(left[..k], k == |left|))
  }

  /** Whatever state it is called in, the blob that a call delivers has a header that fits its body. */
  lemma {:induction false} DeliveredHeaderMatches(h: seq<Batch>, target: int, s: IteratorState, o: NextOutcome, t: IteratorState)
    requires Contiguous(h, FIRST_EVENT_ID) && NextRelation(h, target, s, o, t) && o.Delivered?
    ensures HeaderMatchesBody(o.blob) && (o.blob.header.isLast <==> t.finished)
  {
    var left := From(h, s.nextEventId);
    var k := TakeCount(left, target);
    FromContiguous(h, s.nextEventId);
    ContiguousPrefix(left, FirstIdFrom(h, s.nextEventId), k);
    MakeBlobHeader(left[..k], FirstIdFrom(h, s.nextEventId), k == |left|);
  }

  predicate MetFault(choices: nat -> ReadChoice, used: nat) {
    exists i :: 0 <= i < used && choices(i).Fault?
  }

  predicate MetSizeFault(choices: nat -> ReadChoice, used: nat) {
    exists i :: 0 <= i < used && choices(i).Page? && choices(i).unsizable.Some?
  }

  lemma {:induction false} FaultsAfterRead(choices: nat -> ReadChoice, used: nat)
    ensures MetFault(choices, used + 1) <==> MetFault(choices, used) || choices(used).Fault?
    ensures choices(used).Page? && choices(used).unsizable.Some? ==> MetSizeFault(choices, used + 1)
  {
    if MetFault(choices, used + 1) {
      var i :| 0 <= i < used + 1 && choices(i).Fault?;
      assert i == used || MetFault(choices, used);
    }
  }

  // Checkpoints

  const NEXT_FIELD := "{\"NextEventID\":"
  const FINISHED_FIELD := ",\"FinishedIteration\":"

  function EncodeFinished(finished: bool): string {
    FINISHED_FIELD + if finished then "true}" else "false}"
  }

  function DecodeFinished(tail: string): Option<bool> {
    if tail == EncodeFinished(true) then Some(true)
    else if tail == EncodeFinished(false) then Some(false)
    else None
  }

  /** The JSON document that `GetState` writes. */
  function EncodeState(s: IteratorState): string {
    NEXT_FIELD + (Itoa(s.nextEventId) + EncodeFinished(s.finished))
  }

  function IndexOf(s: string, c: char): (i: nat)
    ensures i <= |s| && (i < |s| ==> s[i] == c) && c !in s[..i]
  {
    if s == [] || s[0] == c then 0 else 1 + IndexOf(s[1..], c)
  }

  function DecodeFields(fields: string): Option<IteratorState> {
    var i := IndexOf(fields, ',');
    var id, finished := Atoi(fields[..i]), DecodeFinished(fields[i..]);
    if id.None? || Itoa(id.value) != fields[..i] || finished.None? then None
    else Some(IteratorState(id.value, finished.value))
  }

  /** Reads such a document back; anything else is malformed. */
  function DecodeState(token: string): Option<IteratorState> {
    if NEXT_FIELD <= token then DecodeFields(token[|NEXT_FIELD|..]) else None
  }

  lemma {:induction false} IndexOfSplit(a: string, b: string, c: char)
    requires c !in a && b != [] && b[0] == c
    ensures IndexOf(a + b, c) == |a|
  {
    if a == [] {
      assert a + b == b;
    } else {
      assert (a + b)[0] == a[0] && a[0] != c;
      IndexOfSplit(a[1..], b, c);
      assert (a + b)[1..] == a[1..] + b;
    }
  }

  lemma {:induction false} FinishedRoundTrip(finished: bool)
    ensures DecodeFinished(EncodeFinished(finished)) == Some(finished)
    ensures EncodeFinished(finished)[0] == ','
  {
    var n := |FINISHED_FIELD|;
    assert EncodeFinished(true)[n] == 't' && EncodeFinished(false)[n] == 'f';
  }

  lemma {:induction false} FieldsRoundTrip(id: int, tail: string, finished: bool)
    requires MIN_INT64 <= id <= MAX_INT64 && tail != [] && tail[0] == ',' && DecodeFinished(tail) == Some(finished)
    ensures DecodeFields(Itoa(id) + tail) == Some(IteratorState(id, finished))
  {
    AtoiItoa(id);
    var number := Itoa(id);
    IndexOfSplit(number, tail, ',');
    assert (number + tail)[..|number|] == number && (number + tail)[|number|..] == tail;
  }

  /** A checkpoint restores the very state it was taken from. */
  lemma {:induction false} StateRoundTrip(s: IteratorState)
    requires MIN_INT64 <= s.nextEventId <= MAX_INT64
    ensures DecodeState(EncodeState(s)) == Some(s)
  {
    FinishedRoundTrip(s.finished);
    FieldsRoundTrip(s.nextEventId, EncodeFinished(s.finished), s.finished);
    var fields := Itoa(s.nextEventId) + EncodeFinished(s.finished);
    assert (NEXT_FIELD + fields)[|NEXT_FIELD|..] == fields;
  }

  // Whole runs

  /** The states that an iterator can rest in between calls: finished, or standing at the start of a batch. */
  ghost predicate Resting(h: seq<Batch>, s: IteratorState)
    requires Contiguous(h, FIRST_EVENT_ID)
  {
    if s.finished then h != [] && s.nextEventId == 0
    else FirstIdFrom(h, s.nextEventId) == s.nextEventId && (h != [] ==> From(h, s.nextEventId) != [])
  }

  /** An iterator that has not finished stands at an event that starts a batch, unless the history is empty. */
  lemma {:induction false} RestsAtBatchStart(h: seq<Batch>, s: IteratorState)
    requires Contiguous(h, FIRST_EVENT_ID) && Resting(h, s) && !s.finished && h != []
    ensures exists k :: 0 <= k < |h| && h[k].events != [] && h[k].events[0].id == s.nextEventId
  {
    var k := SkipCount(h, FIRST_EVENT_ID, s.nextEventId);
    FromContiguous(h, s.nextEventId);
    assert From(h, s.nextEventId)[0] == h[k];
  }

  /** The blobs still to come. */
  ghost function BlobsLeft(h: seq<Batch>, target: int, s: IteratorState): seq<Blob>
    requires Contiguous(h, FIRST_EVENT_ID) && target > 0
  {
    if s.finished then [] else Blobs(From(h, s.nextEventId), target)
  }

  /** A step of a run: a call of `Next`, or a restart from a checkpoint of the current state. */
  datatype RunStep = Call(outcome: NextOutcome, after: IteratorState) | Resume(after: IteratorState)

  ghost predicate IsStep(h: seq<Batch>, target: int, s: IteratorState, step: RunStep)
    requires Contiguous(h, FIRST_EVENT_ID)
  {
    match step
    case Call(o, t) => NextRelation(h, target, s, o, t)
    case Resume(t) => DecodeState(EncodeState(s)) == Some(t)
  }

  ghost function StateAfterStep(): RunStep -> IteratorState {
    (step: RunStep) => step.after
  }

  ghost predicate IsRun(h: seq<Batch>, target: int, s: IteratorState, steps: seq<RunStep>)
    requires Contiguous(h, FIRST_EVENT_ID)
  {
    Runs.IsRun((x: IteratorState, step: RunStep) => IsStep(h, target, x, step), StateAfterStep(), s, steps)
  }

  ghost function FinalState(s: IteratorState, steps: seq<RunStep>): IteratorState {
    Runs.StateAt(s, steps, StateAfterStep(), |steps|)
  }

  function DeliveredBy(step: RunStep): seq<Blob> {
    if step.Call? && step.outcome.Delivered? then [step.outcome.blob] else []
  }

  ghost function DeliveredBlobs(steps: seq<RunStep>): seq<Blob> {
    Runs.Outputs(DeliveredBy, steps)
  }

  lemma {:induction false} InitialResting(h: seq<Batch>)
    requires Contiguous(h, FIRST_EVENT_ID)
    ensures Resting(h, INITIAL_STATE) && From(h, FIRST_EVENT_ID) == h
  {
  }

  /** Having taken some of what was left, the iterator rests with the blobs of the remainder to come. */
  lemma {:induction false} RestsAfterTaking(h: seq<Batch>, target: int, id: int, k: nat, t: IteratorState)
    requires Contiguous(h, FIRST_EVENT_ID) && target > 0 && 0 < k <= |From(h, id)|
    requires t == StateAfter(h, id, k)
    ensures Resting(h, t) && BlobsLeft(h, target, t) == Blobs(From(h, id)[k..], target)
  {
    if k == |From(h, id)| {
      assert From(h, id)[k..] == [];
    } else {
      FromAfter(h, id, k, t.nextEventId);
    }
  }

  /** One call from a resting state: no panic, a resting state again, and the blob delivered is the one due. */
  lemma {:induction false} NextFromResting(h: seq<Batch>, target: int, s: IteratorState, o: NextOutcome, t: IteratorState)
    requires Contiguous(h, FIRST_EVENT_ID) && target > 0
    requires Resting(h, s) && NextRelation(h, target, s, o, t)
    ensures Resting(h, t) && !o.Panicked?
    ensures BlobsLeft(h, target, s) == (if o.Delivered? then [o.blob] else []) + BlobsLeft(h, target, t)
  {
    if !s.finished && !o.Failed? {
      RestsAfterTaking(h, target, s.nextEventId, TakeCount(From(h, s.nextEventId), target), t);
    } else {
      assert !o.Delivered? && s == t;
      assert [] + BlobsLeft(h, target, t) == BlobsLeft(h, target, t);
    }
  }

  lemma {:induction false} RestingFits(h: seq<Batch>, s: IteratorState)
    requires Contiguous(h, FIRST_EVENT_ID) && EventCount(h) < MAX_INT64 && Resting(h, s)
    ensures 0 <= s.nextEventId <= MAX_INT64
  {
    var j := SkipCount(h, FIRST_EVENT_ID, s.nextEventId);
    assert h == h[..j] + h[j..];
    EventCountAppend(h[..j], h[j..]);
  }

  lemma {:induction false} StepFromResting(h: seq<Batch>, target: int, s: IteratorState, step: RunStep)
    requires Contiguous(h, FIRST_EVENT_ID) && EventCount(h) < MAX_INT64 && target > 0
    requires Resting(h, s) && IsStep(h, target, s, step)
    ensures Resting(h, step.after) && (step.Call? ==> !step.outcome.Panicked?)
    ensures BlobsLeft(h, target, s) == DeliveredBy(step) + BlobsLeft(h, target, step.after)
  {
    if step.Call? {
      NextFromResting(h, target, s, step.outcome, step.after);
    } else {
      RestingFits(h, s);
      StateRoundTrip(s);
    }
  }

  /** Whatever faults, retries, page lengths and restarts a run goes through, no call panics, the iterator ends
      where it can rest, and the blobs delivered are the leading greedy blobs: what is left of the history makes
      up the others. */
  lemma {:induction false} RunDeliversGreedyBlobs(h: seq<Batch>, target: int, s: IteratorState, steps: seq<RunStep>)
    requires Contiguous(h, FIRST_EVENT_ID) && EventCount(h) < MAX_INT64 && target > 0
    requires Resting(h, s) && IsRun(h, target, s, steps)
    ensures Resting(h, FinalState(s, steps))
    ensures DeliveredBlobs(steps) + BlobsLeft(h, target, FinalState(s, steps)) == BlobsLeft(h, target, s)
    ensures forall i :: 0 <= i < |steps| && steps[i].Call? ==> !steps[i].outcome.Panicked?
  {
    var inv := (x: IteratorState) => Resting(h, x);
    var step := (x: IteratorState, t: RunStep) => IsStep(h, target, x, t);
    var owed := (x: IteratorState) => BlobsLeft(h, target, x);
    forall x: IteratorState, t: RunStep | inv(x) && step(x, t)
      ensures inv(StateAfterStep()(t)) && owed(x) == DeliveredBy(t) + owed(StateAfterStep()(t))
      ensures t.Call? ==> !t.outcome.Panicked?
    {
      StepFromResting(h, target, x, t);
    }
    Runs.InvariantHolds(inv, step, StateAfterStep(), s, steps, |steps|);
    Runs.Telescopes(inv, step, StateAfterStep(), owed, DeliveredBy, s, steps, |steps|);
    assert steps[..|steps|] == steps;
    forall i | 0 <= i < |steps| && steps[i].Call?
      ensures !steps[i].outcome.Panicked?
    {
      Runs.InvariantHolds(inv, step, StateAfterStep(), s, steps, i);
      assert step(Runs.StateAt(s, steps, StateAfterStep(), i), steps[i]);
    }
  }

  /** From the start to the end: a run that finishes has delivered every blob of the history exactly once,
      in order, with headers that tile it. */
  lemma {:induction false} CompleteRun(h: seq<Batch>, target: int, steps: seq<RunStep>)
    requires Contiguous(h, FIRST_EVENT_ID) && EventCount(h) < MAX_INT64 && target > 0
    requires IsRun(h, target, INITIAL_STATE, steps) && FinalState(INITIAL_STATE, steps).finished
    ensures DeliveredBlobs(steps) == Blobs(h, target)
    ensures Tiles(DeliveredBlobs(steps), FIRST_EVENT_ID, EventCount(h))
  {
    InitialResting(h);
    RunDeliversGreedyBlobs(h, target, INITIAL_STATE, steps);
    BlobsTile(h, FIRST_EVENT_ID, target);
  }

  /** The step is a call that did not fail. */
  predicate GotThrough(step: RunStep) {
    step.Call? && !step.outcome.Failed?
  }

  /** The number of calls in a run that did not fail. */
  ghost function CallsThrough(steps: seq<RunStep>): nat {
    Runs.Count(GotThrough, steps)
  }

  /** A call that gets through takes an iterator that has not finished one blob further, and no other step moves it. */
  lemma {:induction false} StepProgress(h: seq<Batch>, target: int, s: IteratorState, step: RunStep)
    requires Contiguous(h, FIRST_EVENT_ID) && EventCount(h) < MAX_INT64 && target > 0 && h != []
    requires Resting(h, s) && IsStep(h, target, s, step)
    ensures Resting(h, step.after)
    ensures var left := |BlobsLeft(h, target, s)|;
            |BlobsLeft(h, target, step.after)| == if left > 0 && GotThrough(step) then left - 1 else left
  {
    StepFromResting(h, target, s, step);
    BlobsLeftUnlessFinished(h, target, s);
  }

  lemma {:induction false} BlobsLeftUnlessFinished(h: seq<Batch>, target: int, s: IteratorState)
    requires Contiguous(h, FIRST_EVENT_ID) && target > 0 && h != [] && Resting(h, s)
    ensures s.finished <==> |BlobsLeft(h, target, s)| == 0
  {
  }

  /** Every run finishes in which enough calls do not fail: as many as there are blobs left, however many others fail
      and however often it is restarted. */
  lemma {:induction false} EnoughCallsFinish(h: seq<Batch>, target: int, s: IteratorState, steps: seq<RunStep>)
    requires Contiguous(h, FIRST_EVENT_ID) && EventCount(h) < MAX_INT64 && target > 0 && h != []
    requires Resting(h, s) && IsRun(h, target, s, steps) && CallsThrough(steps) >= |BlobsLeft(h, target, s)|
    ensures FinalState(s, steps).finished
  {
    var inv := (x: IteratorState) => Resting(h, x);
    var step := (x: IteratorState, t: RunStep) => IsStep(h, target, x, t);
    var left := (x: IteratorState) => |BlobsLeft(h, target, x)|;
    forall x: IteratorState, t: RunStep | inv(x) && step(x, t)
      ensures inv(StateAfterStep()(t))
      ensures left(StateAfterStep()(t)) == if left(x) > 0 && GotThrough(t) then left(x) - 1 else left(x)
    {
      StepProgress(h, target, x, t);
    }
    Runs.InvariantHolds(inv, step, StateAfterStep(), s, steps, |steps|);
    Runs.ReachesEnd(inv, step, StateAfterStep(), left, GotThrough, s, steps, |steps|);
    assert steps[..|steps|] == steps;
    BlobsLeftUnlessFinished(h, target, FinalState(s, steps));
  }

  /** There is such a run from every state: one call per blob left. */
  lemma {:induction false} FaultFreeRunExists(h: seq<Batch>, target: int, s: IteratorState) returns (steps: seq<RunStep>)
    requires Contiguous(h, FIRST_EVENT_ID) && target > 0 && h != [] && Resting(h, s)
    ensures IsRun(h, target, s, steps) && FinalState(s, steps).finished
    ensures |steps| == |BlobsLeft(h, target, s)| && forall i :: 0 <= i < |steps| ==> steps[i].Call? && steps[i].outcome.Delivered?
    decreases |BlobsLeft(h, target, s)|
  {
    if s.finished {
      steps := [];
    } else {
      var left := From(h, s.nextEventId);
      var k := TakeCount(left, target);
      var call := Call(Delivered(MakeBlob(left[..k], k == |left|)), StateAfter(h, s.nextEventId, k));
      assert IsStep(h, target, s, call);
      NextFromResting(h, target, s, call.outcome, call.after);
      var rest := FaultFreeRunExists(h, target, call.after);
      Runs.PrependIsRun((x: IteratorState, step: RunStep) => IsStep(h, target, x, step), StateAfterStep(), s, call, rest);
      steps := [call] + rest;
    }
  }

  /** A call that does not fail, from any unfinished state that a run can rest in, panics exactly when the target is
      not positive; with a positive target it delivers. */
  lemma {:induction false} PanicsExactlyOnBadTarget(h: seq<Batch>, target: int, s: IteratorState, o: NextOutcome, t: IteratorState)
    requires Contiguous(h, FIRST_EVENT_ID) && h != [] && Resting(h, s) && !s.finished
    requires NextRelation(h, target, s, o, t) && !o.Failed?
    ensures o.Panicked? <==> target <= 0
    ensures o.Delivered? <==> target > 0
  {
  }

  class HistoryIterator {
    const history: seq<Batch>
    const targetHistoryBlobSize: int
    var state: IteratorState

    ghost predicate Valid() {
      Contiguous(history, FIRST_EVENT_ID)
    }

    constructor (history: seq<Batch>, targetHistoryBlobSize: int)
      requires Contiguous(history, FIRST_EVENT_ID)
      ensures Valid() && state == INITIAL_STATE
      ensures this.history == history && this.targetHistoryBlobSize == targetHistoryBlobSize
    {
      this.history := history;
      this.targetHistoryBlobSize := targetHistoryBlobSize;
      state := INITIAL_STATE;
    }

    predicate HasNext()
      reads this
    {
      !state.finished
    }

    /** Packs the batches of a page until the target is met with some of the page to spare. */
    method AddPage(ghost first: int, page: seq<Batch>, unsizable: Option<nat>, batches: seq<Batch>, size: int, id: int)
      returns (outcome: PageOutcome, batches': seq<Batch>, size': int, id': int)
      requires Valid() && Packing(history, first, targetHistoryBlobSize, batches, size, id)
      requires size < targetHistoryBlobSize && page != [] && page <= From(history, first)[|batches|..]
      ensures outcome.Unsizable? ==> unsizable.Some?
      ensures !outcome.Unsizable? ==>
                && Packing(history, first, targetHistoryBlobSize, batches', size', id')
                && |batches'| > |batches|
      ensures outcome.Filled? ==> size' >= targetHistoryBlobSize && |batches'| < |From(history, first)|
    {
      batches', size', id' := batches, size, id;
      for idx := 0 to |page|
        invariant |batches'| == |batches| + idx
        invariant Packing(history, first, targetHistoryBlobSize, batches', size', id')
        invariant idx < |page| ==> size' < targetHistoryBlobSize
      {
        if unsizable == Some(idx) {
          return Unsizable, batches', size', id';
        }
        PackingExtend(history, first, targetHistoryBlobSize, batches', size', id');
        var batch := page[idx];
        assert batch == From(history, first)[|batches|..][idx];
        size' := size' + batch.size;
        batches' := batches' + [batch];
        id' := batch.events[|batch.events| - 1].id + 1;
        if size' >= targetHistoryBlobSize && idx != |page| - 1 {
          return Filled, batches', size', id';
        }
      }
      outcome := Exhausted;
    }

    /** Packs one blob. The result is a function of the history, the target and the starting id alone:
        the page lengths in `choices` never show. */
    method ReadHistoryBatches(choices: nat -> ReadChoice, firstEventId: int)
      returns (r: Result<(seq<Batch>, IteratorState), Error>, used: nat)
      requires Valid()
      ensures r.Success? ==>
                var k := TakeCount(From(history, firstEventId), targetHistoryBlobSize);
                r.value == (From(history, firstEventId)[..k], StateAfter(history, firstEventId, k))
      ensures Missing(history, firstEventId) ==> r.Failure?
      ensures MetFault(choices, used) ==> r.Failure?
      ensures r == Failure(EntityNotExists) ==> Missing(history, firstEventId)
      ensures r.Failure? ==> Missing(history, firstEventId) || MetFault(choices, used) || MetSizeFault(choices, used)
    {
      var size := 0;
      var historyBatches: seq<Batch> := [];
      var id := firstEventId;
      used := 0;
      while size < targetHistoryBlobSize
        invariant Packing(history, firstEventId, targetHistoryBlobSize, historyBatches, size, id)
        invariant !MetFault(choices, used)
        decreases |From(history, firstEventId)| - |historyBatches|
      {
        PackingReadsOn(history, firstEventId, targetHistoryBlobSize, historyBatches, size, id);
        var read := ReadHistory(history, id, choices(used));
        var unsizable := if choices(used).Page? then choices(used).unsizable else None;
        FaultsAfterRead(choices, used);
        used := used + 1;
        if read == Failure(EntityNotExists) && id != FIRST_EVENT_ID {
          PackingDone(history, firstEventId, targetHistoryBlobSize, historyBatches, size, id);
          return Success((historyBatches, IteratorState(0, true))), used;
        }
        if read.Failure? {
          return Failure(read.error), used;
        }
        var outcome;
        outcome, historyBatches, size, id := AddPage(firstEventId, read.value, unsizable, historyBatches, size, id);
        if outcome.Unsizable? {
          return Failure(SizeFault), used;
        }
        if outcome.Filled? {
          PackingDone(history, firstEventId, targetHistoryBlobSize, historyBatches, size, id);
          return Success((historyBatches, IteratorState(id, false))), used;
        }
      }
      PackingReadsOn(history, firstEventId, targetHistoryBlobSize, historyBatches, size, id);
      PackingDone(history, firstEventId, targetHistoryBlobSize, historyBatches, size, id);
      var ahead := ReadHistory(history, id, choices(used));
      FaultsAfterRead(choices, used);
      used := used + 1;
      if ahead == Failure(EntityNotExists) && id != FIRST_EVENT_ID {
        return Success((historyBatches, IteratorState(0, true))), used;
      }
      if ahead.Failure? {
        return Failure(ahead.error), used;
      }
      return Success((historyBatches, IteratorState(id, false))), used;
    }

    method Next(choices: nat -> ReadChoice) returns (o: NextOutcome, used: nat)
      requires Valid()
      modifies this
      ensures NextRelation(history, targetHistoryBlobSize, old(state), o, state)
      ensures old(state).finished ==> used == 0
      ensures MetFault(choices, used) ==> o.Failed?
      ensures o == Failed(EntityNotExists) ==> Missing(history, old(state).nextEventId)
      ensures o.Failed? ==> Missing(history, old(state).nextEventId) || MetFault(choices, used) || MetSizeFault(choices, used)
    {
      if !HasNext() {
        return Depleted, 0;
      }
      ghost var left := From(history, state.nextEventId);
      var read;
      read, used := ReadHistoryBatches(choices, state.nextEventId);
      if read.Failure? {
        return Failed(read.error), used;
      }
      FromContiguous(history, state.nextEventId);
      ContiguousNonEmpty(left, FirstIdFrom(history, state.nextEventId));
      var historyBatches := read.value.0;
      state := read.value.1;
      if historyBatches == [] {
        return Panicked, used;
      }
      var firstEvent := historyBatches[0].events[0];
      var lastBatch := historyBatches[|historyBatches| - 1];
      var lastEvent := lastBatch.events[|lastBatch.events| - 1];
      var eventCount := 0;
      for i := 0 to |historyBatches|
        invariant eventCount + EventCount(historyBatches[i..]) == EventCount(historyBatches)
      {
        eventCount := eventCount + |historyBatches[i].events|;
        assert historyBatches[i..][1..] == historyBatches[i + 1..];
      }
      var header := BlobHeader(state.finished, firstEvent.version, lastEvent.version, firstEvent.id, lastEvent.id, eventCount);
      o := Delivered(Blob(header, historyBatches));
    }

    method GetState() returns (token: string)
      ensures MIN_INT64 <= state.nextEventId <= MAX_INT64 ==> DecodeState(token) == Some(state)
      ensures token == EncodeState(state)
    {
      if MIN_INT64 <= state.nextEventId <= MAX_INT64 {
        StateRoundTrip(state);
      }
      token := EncodeState(state);
    }

    method Reset(token: string) returns (ok: bool)
      modifies this
      ensures ok <==> DecodeState(token).Some?
      ensures state == if ok then DecodeState(token).value else old(state)
    {
      var decoded := DecodeState(token);
      ok := decoded.Some?;
      if ok {
        state := decoded.value;
      }
    }

    /** A fresh iterator at the checkpoint, or at the start when there is no checkpoint. */
    static method FromState(history: seq<Batch>, targetHistoryBlobSize: int, token: Option<string>)
      returns (r: Result<HistoryIterator, Error>)
      requires Contiguous(history, FIRST_EVENT_ID)
      ensures r.Failure? <==> token.Some? && DecodeState(token.value).None?
      ensures r.Success? ==>
                && fresh(r.value) && r.value.Valid()
                && r.value.history == history && r.value.targetHistoryBlobSize == targetHistoryBlobSize
                && r.value.state == if token.None? then INITIAL_STATE else DecodeState(token.value).value
    {
      var it := new HistoryIterator(history, targetHistoryBlobSize);
      if token.None? {
        return Success(it);
      }
      var ok := it.Reset(token.value);
      if !ok {
        return Failure(MalformedState);
      }
      return Success(it);
    }
  }
}
