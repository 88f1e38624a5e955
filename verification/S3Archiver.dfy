/** The S3 history archiver: a resumable upload of the blobs the history iterator delivers, and the paged read back. */
module S3Archiver {
  import opened Wrappers
  import opened Decimal
  import opened HistoryChunks
  import opened HistoryIterator

  const TARGET_HISTORY_BLOB_SIZE := 2 * 1024 * 1024

  /** What is recorded with the activity's heartbeat. */
  datatype Progress = Progress(batchIdx: nat, iteratorState: string)

  datatype ArchiveError = IteratorError(error: Error) | ContextTimeout | HistoryMutated | EncodeFailed | HeadFailed | UploadFailed

  datatype ArchiveResult = Done | Skipped | Aborted(error: ArchiveError)

  /** A failed upload may or may not have left the object behind. */
  datatype UploadOutcome = Stored | Lost | StoredButFailed

  /** Everything the outside world decides while one blob is being archived. */
  datatype BlobConditions = BlobConditions(
    pages: nat -> nat -> ReadChoice,  // the reads of each call of Next
    patience: nat,                    // failed calls of Next before the context expires
    encodeFails: bool,
    headFails: bool,
    upload: UploadOutcome,
    recorded: bool)                   // the progress record is best effort

  /** Everything the outside world decides during one attempt. */
  datatype Conditions = Conditions(progressLoads: bool, blob: nat -> BlobConditions)

  function HistoryKey(prefix: string, batchIdx: nat): string {
    prefix + Itoa(batchIdx)
  }

  lemma {:induction false} HistoryKeyInjective(prefix: string, i: nat, j: nat)
    requires HistoryKey(prefix, i) == HistoryKey(prefix, j)
    ensures i == j
  {
    assert Itoa(i) == HistoryKey(prefix, i)[|prefix|..] == Itoa(j);
    ItoaInjective(i, j);
  }

  /** The bucket holds exactly the first `m` blobs under the keys of this run. */
  ghost predicate Holds(bucket: map<string, Blob>, prefix: string, blobs: seq<Blob>, m: nat) {
    && m <= |blobs|
    && forall i: nat {:trigger HistoryKey(prefix, i)} ::
         && (HistoryKey(prefix, i) in bucket <==> i < m)
         && (i < m ==> bucket[HistoryKey(prefix, i)] == blobs[i])
  }

  lemma {:induction false} HoldsExtend(bucket: map<string, Blob>, prefix: string, blobs: seq<Blob>, m: nat)
    requires Holds(bucket, prefix, blobs, m) && m < |blobs|
    ensures Holds(bucket[HistoryKey(prefix, m) := blobs[m]], prefix, blobs, m + 1)
  {
    forall i: nat
      ensures HistoryKey(prefix, i) == HistoryKey(prefix, m) ==> i == m
    {
      if HistoryKey(prefix, i) == HistoryKey(prefix, m) {
        HistoryKeyInjective(prefix, i, m);
      }
    }
  }

  /** Every object stays as it was, and new ones appear only under the keys of this run. */
  ghost predicate OnlyAdds(before: map<string, Blob>, after: map<string, Blob>, prefix: string) {
    && (forall k :: k in before ==> k in after && after[k] == before[k])
    && (forall k :: k in after && k !in before ==> exists i: nat :: k == HistoryKey(prefix, i))
  }

  /** The state of an iterator that is about to deliver blob number `i`. */
  ghost function StateFor(h: seq<Batch>, i: nat): IteratorState
    requires Contiguous(h, FIRST_EVENT_ID)
  {
    if i == 0 then INITIAL_STATE
    else
      var id := StateFor(h, i - 1).nextEventId;
      StateAfter(h, id, TakeCount(From(h, id), TARGET_HISTORY_BLOB_SIZE))
  }

  /** An iterator in state `s` rests with `blobs` still to come. */
  ghost predicate Owes(h: seq<Batch>, s: IteratorState, blobs: seq<Blob>)
    requires Contiguous(h, FIRST_EVENT_ID)
  {
    Resting(h, s) && BlobsLeft(h, TARGET_HISTORY_BLOB_SIZE, s) == blobs
  }

  lemma {:induction false} OwesNext(h: seq<Batch>, s: IteratorState, t: IteratorState, blobs: seq<Blob>)
    requires Contiguous(h, FIRST_EVENT_ID) && Owes(h, s, blobs) && blobs != []
    requires t == StateAfter(h, s.nextEventId, TakeCount(From(h, s.nextEventId), TARGET_HISTORY_BLOB_SIZE))
    ensures Owes(h, t, blobs[1..])
  {
    RestsAfterTaking(h, TARGET_HISTORY_BLOB_SIZE, s.nextEventId, TakeCount(From(h, s.nextEventId), TARGET_HISTORY_BLOB_SIZE), t);
  }

  lemma {:induction false} DropOne<T>(s: seq<T>, i: nat)
    requires 0 < i <= |s|
    ensures s[i - 1..] != [] && s[i - 1..][1..] == s[i..]
  {
  }

  lemma {:induction false} DueNext(h: seq<Batch>, i: nat, prev: IteratorState, s: IteratorState, blobs: seq<Blob>)
    requires Contiguous(h, FIRST_EVENT_ID) && 0 < i <= |blobs| && Owes(h, prev, blobs[i - 1..])
    requires s == StateAfter(h, prev.nextEventId, TakeCount(From(h, prev.nextEventId), TARGET_HISTORY_BLOB_SIZE))
    ensures Owes(h, s, blobs[i..])
  {
    DropOne(blobs, i);
    OwesNext(h, prev, s, blobs[i - 1..]);
  }

  lemma {:induction false} DueFor(h: seq<Batch>, i: nat, s: IteratorState)
    requires Contiguous(h, FIRST_EVENT_ID) && i <= |Blobs(h, TARGET_HISTORY_BLOB_SIZE)| && s == StateFor(h, i)
    ensures Owes(h, s, Blobs(h, TARGET_HISTORY_BLOB_SIZE)[i..])
  {
    if i == 0 {
      InitialResting(h);
    } else {
      var prev := StateFor(h, i - 1);
      DueFor(h, i - 1, prev);
      DueNext(h, i, prev, s, Blobs(h, TARGET_HISTORY_BLOB_SIZE));
    }
  }

  lemma {:induction false} FinishedAtEnd(h: seq<Batch>, i: nat, s: IteratorState)
    requires Contiguous(h, FIRST_EVENT_ID) && i <= |Blobs(h, TARGET_HISTORY_BLOB_SIZE)| && s == StateFor(h, i)
    requires s.finished
    ensures h != [] && i == |Blobs(h, TARGET_HISTORY_BLOB_SIZE)|
  {
    DueFor(h, i, s);
  }

  /** A call of `Next` when blob number `i` is due. */
  lemma {:induction false} CallWhenDue(h: seq<Batch>, i: nat, s: IteratorState, o: NextOutcome, t: IteratorState)
    requires Contiguous(h, FIRST_EVENT_ID) && i <= |Blobs(h, TARGET_HISTORY_BLOB_SIZE)| && s == StateFor(h, i)
    requires !s.finished && NextRelation(h, TARGET_HISTORY_BLOB_SIZE, s, o, t)
    ensures o.Failed? || o.Delivered?
    ensures o.Failed? ==> t == s
    ensures o.Delivered? ==>
              && i < |Blobs(h, TARGET_HISTORY_BLOB_SIZE)| && o.blob == Blobs(h, TARGET_HISTORY_BLOB_SIZE)[i]
              && t == StateFor(h, i + 1)
    ensures Missing(h, s.nextEventId) ==> h == []
  {
    DueFor(h, i, s);
    NextFromResting(h, TARGET_HISTORY_BLOB_SIZE, s, o, t);
    if o.Delivered? {
      var due := Blobs(h, TARGET_HISTORY_BLOB_SIZE)[i..];
      assert due == [o.blob] + BlobsLeft(h, TARGET_HISTORY_BLOB_SIZE, t);
      assert due[0] == o.blob;
    }
  }

  /** Whether a blob shows that the history is not the one that was to be archived. */
  predicate IsHistoryMutated(closeFailoverVersion: int, nextEventId: int, blob: Blob) {
    var last := LastEvent(blob.body);
    || last.version > closeFailoverVersion
    || (blob.header.isLast && (last.version != closeFailoverVersion || last.id + 1 != nextEventId))
  }

  /** The history is the one that was announced: its last event has the version and the number that were announced, and
      no blob ends at a later version. */
  ghost predicate AsAnnounced(h: seq<Batch>, closeFailoverVersion: int, nextEventId: int) {
    && EndsWith(h, Event(nextEventId - 1, closeFailoverVersion))
    && forall i :: 0 <= i < |Blobs(h, TARGET_HISTORY_BLOB_SIZE)| ==>
         Blobs(h, TARGET_HISTORY_BLOB_SIZE)[i].header.lastFailoverVersion <= closeFailoverVersion
  }

  ghost predicate NoneMutated(blobs: seq<Blob>, closeFailoverVersion: int, nextEventId: int) {
    forall i :: 0 <= i < |blobs| ==> !IsHistoryMutated(closeFailoverVersion, nextEventId, blobs[i])
  }

  /** The check on the blobs lets a history through exactly when it is the one that was announced. */
  lemma {:induction false} MutationCheckIsExact(h: seq<Batch>, closeFailoverVersion: int, nextEventId: int)
    requires Contiguous(h, FIRST_EVENT_ID) && h != []
    ensures NoneMutated(Blobs(h, TARGET_HISTORY_BLOB_SIZE), closeFailoverVersion, nextEventId) <==>
            AsAnnounced(h, closeFailoverVersion, nextEventId)
    ensures AsAnnounced(h, closeFailoverVersion, nextEventId) ==> EventCount(h) + 1 == nextEventId
  {
    var blobs := Blobs(h, TARGET_HISTORY_BLOB_SIZE);
    BlobsTile(h, FIRST_EVENT_ID, TARGET_HISTORY_BLOB_SIZE);
    LastBlobEnds(h, TARGET_HISTORY_BLOB_SIZE);
    LastEventId(h, FIRST_EVENT_ID);
    assert forall i :: 0 <= i < |blobs| ==> HeaderMatchesBody(blobs[i]);
    var last := blobs[|blobs| - 1];
    assert last.header.isLast && LastEvent(last.body) == LastEvent(h);
    if NoneMutated(blobs, closeFailoverVersion, nextEventId) {
      assert !IsHistoryMutated(closeFailoverVersion, nextEventId, last);
    }
  }

  ghost predicate NoFaults(choices: nat -> ReadChoice) {
    forall i: nat :: choices(i).Page? && choices(i).unsizable.None?
  }

  /** Call number `a` of `Next` for the blob may meet a fault. */
  ghost predicate MeetsFault(c: BlobConditions, a: nat) {
    !NoFaults(c.pages(a))
  }

  /** So may each of the first `n` calls. */
  ghost predicate AllMeetFaults(c: BlobConditions, n: nat) {
    forall a: nat :: a < n ==> MeetsFault(c, a)
  }

  lemma {:induction false} OneMoreFault(c: BlobConditions, n: nat)
    requires AllMeetFaults(c, n) && MeetsFault(c, n)
    ensures AllMeetFaults(c, n + 1) && MeetsFault(c, 0)
  {
    assert n > 0 ==> MeetsFault(c, 0);
  }

  lemma {:induction false} FaultWasMet(c: BlobConditions, a: nat, used: nat)
    requires MetFault(c.pages(a), used) || MetSizeFault(c.pages(a), used)
    ensures MeetsFault(c, a)
  {
    var choices := c.pages(a);
    var i :| 0 <= i < used && (choices(i).Fault? || (choices(i).Page? && choices(i).unsizable.Some?));
    assert !(choices(i).Page? && choices(i).unsizable.None?);
  }

  /** Nothing fails during the attempt. */
  ghost predicate Faultless(conditions: Conditions) {
    forall i: nat {:trigger conditions.blob(i)} ::
      var c := conditions.blob(i);
      !MeetsFault(c, 0) && !c.encodeFails && !c.headFails && c.upload.Stored?
  }

  // Reading back

  datatype GetError = BlobNotExists | DownloadFault

  datatype HistoryPage = HistoryPage(batches: seq<Batch>, next: Option<nat>)

  /** The number of the blob after the last one of a page that starts at `i` with `have` events already in it. */
  function PageEnd(blobs: seq<Blob>, i: nat, have: nat, pageSize: int): (e: nat)
    requires i <= |blobs|
    ensures i <= e <= |blobs|
    ensures have < pageSize && i < |blobs| ==> i < e
    decreases |blobs| - i
  {
    if have >= pageSize || i == |blobs| then i
    else PageEnd(blobs, i + 1, have + EventCount(blobs[i].body), pageSize)
  }

  function Bodies(blobs: seq<Blob>, i: nat, e: nat): seq<Batch>
    requires i <= e <= |blobs|
    decreases e - i
  {
    if i == e then [] else blobs[i].body + Bodies(blobs, i + 1, e)
  }

  /** No blob from `i` up to `e` fails to download or decode. */
  ghost predicate AllReadable(i: nat, e: nat, broken: nat -> bool) {
    forall j: nat :: i <= j < e ==> !broken(j)
  }

  /** Everything a caller gets who follows the page tokens from blob `i` to the end. */
  function ReadAll(blobs: seq<Blob>, i: nat, pageSize: int): seq<Batch>
    requires pageSize > 0 && i < |blobs|
    decreases |blobs| - i
  {
    var e := PageEnd(blobs, i, 0, pageSize);
    Bodies(blobs, i, e) + if e == |blobs| then [] else ReadAll(blobs, e, pageSize)
  }

  /** What is still to come at blob `i`, which may be behind the last. */
  function ReadOn(blobs: seq<Blob>, i: nat, pageSize: int): seq<Batch>
    requires pageSize > 0 && i <= |blobs|
  {
    if i == |blobs| then [] else ReadAll(blobs, i, pageSize)
  }

  lemma {:induction false} ReadOnStep(blobs: seq<Blob>, i: nat, pageSize: int, batches: seq<Batch>)
    requires pageSize > 0 && i < |blobs|
    ensures var e := PageEnd(blobs, i, 0, pageSize);
            batches + ReadOn(blobs, i, pageSize) == (batches + Bodies(blobs, i, e)) + ReadOn(blobs, e, pageSize)
  {
    var e := PageEnd(blobs, i, 0, pageSize);
    assert ReadAll(blobs, i, pageSize) == Bodies(blobs, i, e) + ReadOn(blobs, e, pageSize);
  }

  lemma {:induction false} BodiesJoin(blobs: seq<Blob>, i: nat, m: nat, e: nat)
    requires i <= m <= e <= |blobs|
    ensures Bodies(blobs, i, m) + Bodies(blobs, m, e) == Bodies(blobs, i, e)
    decreases m - i
  {
    if i < m {
      BodiesJoin(blobs, i + 1, m, e);
    }
  }

  lemma {:induction false} BodiesExtend(blobs: seq<Blob>, i: nat, e: nat)
    requires i <= e < |blobs|
    ensures Bodies(blobs, i, e + 1) == Bodies(blobs, i, e) + blobs[e].body
  {
    BodiesJoin(blobs, i, e, e + 1);
    assert Bodies(blobs, e, e + 1) == blobs[e].body + Bodies(blobs, e + 1, e + 1);
  }

  /** The number of events in the blobs from `i` up to `e`. */
  function EventsIn(blobs: seq<Blob>, i: nat, e: nat): nat
    requires i <= e <= |blobs|
  {
    EventCount(Bodies(blobs, i, e))
  }

  lemma {:induction false} EventsExtend(blobs: seq<Blob>, i: nat, j: nat)
    requires i < j <= |blobs|
    ensures EventsIn(blobs, i, j) == EventCount(blobs[i].body) + EventsIn(blobs, i + 1, j)
  {
    EventCountAppend(blobs[i].body, Bodies(blobs, i + 1, j));
  }

  /** A page from blob `i` to blob `e` is full, or reaches the end, with no blob to spare. */
  ghost predicate JustFull(blobs: seq<Blob>, i: nat, e: nat, have: nat, pageSize: int)
    requires i <= e <= |blobs|
  {
    && (e == |blobs| || have + EventsIn(blobs, i, e) >= pageSize)
    && forall j :: i <= j < e ==> have + EventsIn(blobs, i, j) < pageSize
  }

  lemma {:induction false} JustFullShifts(blobs: seq<Blob>, i: nat, next: nat, e: nat, have: nat, more: nat, pageSize: int)
    requires i < e <= |blobs| && next == i + 1 && have < pageSize && more == have + EventCount(blobs[i].body)
    ensures JustFull(blobs, i, e, have, pageSize) <==> JustFull(blobs, next, e, more, pageSize)
  {
    assert EventsIn(blobs, i, i) == 0;
    forall j | next <= j <= e
      ensures have + EventsIn(blobs, i, j) == more + EventsIn(blobs, next, j)
    {
      EventsExtend(blobs, i, j);
    }
  }

  /** A page ends at the first blob with which it has as many events as were asked for, and nowhere else. */
  lemma {:induction false} PageEndsWhenFull(blobs: seq<Blob>, i: nat, e: nat, have: nat, pageSize: int)
    requires i <= e <= |blobs|
    ensures e == PageEnd(blobs, i, have, pageSize) <==> JustFull(blobs, i, e, have, pageSize)
    decreases |blobs| - i
  {
    assert EventsIn(blobs, i, i) == 0;
    if have < pageSize && i < e {
      var more := have + EventCount(blobs[i].body);
      PageEndsWhenFull(blobs, i + 1, e, more, pageSize);
      JustFullShifts(blobs, i, i + 1, e, have, more, pageSize);
    }
  }

  lemma {:induction false} PagesCover(blobs: seq<Blob>, i: nat, pageSize: int)
    requires pageSize > 0 && i < |blobs|
    ensures ReadAll(blobs, i, pageSize) == Bodies(blobs, i, |blobs|)
    decreases |blobs| - i
  {
    var e := PageEnd(blobs, i, 0, pageSize);
    BodiesJoin(blobs, i, e, |blobs|);
    if e < |blobs| {
      PagesCover(blobs, e, pageSize);
    }
  }

  lemma {:induction false} BodiesAreHistory(h: seq<Batch>, target: int, i: nat)
    requires target > 0 && i <= |Blobs(h, target)| == |Chunks(h, target)|
    ensures Bodies(Blobs(h, target), i, |Blobs(h, target)|) == Concat(Chunks(h, target)[i..])
    decreases |Blobs(h, target)| - i
  {
    BlobBodies(h, target);
    if i < |Blobs(h, target)| {
      BodiesAreHistory(h, target, i + 1);
      assert Chunks(h, target)[i..][1..] == Chunks(h, target)[i + 1..];
    }
  }

  /** Reading a complete archive page by page, with pages of any size, gives back the history that was archived. */
  lemma {:induction false} ArchiveRoundTrip(h: seq<Batch>, target: int, pageSize: int)
    requires target > 0 && pageSize > 0 && h != []
    ensures ReadAll(Blobs(h, target), 0, pageSize) == h
  {
    PagesCover(Blobs(h, target), 0, pageSize);
    BlobBodies(h, target);
    BodiesAreHistory(h, target, 0);
    assert Chunks(h, target)[0..] == Chunks(h, target);
  }

  lemma {:induction false} LastFlags(h: seq<Batch>)
    requires Contiguous(h, FIRST_EVENT_ID)
    ensures forall i :: 0 <= i < |Blobs(h, TARGET_HISTORY_BLOB_SIZE)| ==>
              (Blobs(h, TARGET_HISTORY_BLOB_SIZE)[i].header.isLast <==> i == |Blobs(h, TARGET_HISTORY_BLOB_SIZE)| - 1)
  {
    if h != [] {
      BlobsTile(h, FIRST_EVENT_ID, TARGET_HISTORY_BLOB_SIZE);
    }
  }

  class HistoryArchiver {
    const history: seq<Batch>
    const keyPrefix: string
    const closeFailoverVersion: int
    const nextEventId: int
    const archiveIncompleteHistory: bool
    var bucket: map<string, Blob>
    var progress: Option<Progress>
    ghost var uploaded: nat
    ghost const stateFor: nat -> IteratorState  // the iterator's state when each blob is due
    ghost const tokenFor: nat -> string         // and its token

    /** Archiving starts with no object of this run in the bucket, whatever else is there, and no progress. */
    constructor (history: seq<Batch>, keyPrefix: string, closeFailoverVersion: int, nextEventId: int,
                 archiveIncompleteHistory: bool, bucket: map<string, Blob>)
      requires Contiguous(history, FIRST_EVENT_ID) && EventCount(history) < MAX_INT64
      requires forall i: nat :: HistoryKey(keyPrefix, i) !in bucket
      ensures Valid() && uploaded == 0 && this.bucket == bucket
      ensures this.history == history && this.keyPrefix == keyPrefix
      ensures this.archiveIncompleteHistory == archiveIncompleteHistory
      ensures this.closeFailoverVersion == closeFailoverVersion && this.nextEventId == nextEventId
    {
      this.history, this.keyPrefix := history, keyPrefix;
      this.closeFailoverVersion, this.nextEventId := closeFailoverVersion, nextEventId;
      this.archiveIncompleteHistory := archiveIncompleteHistory;
      this.bucket, this.progress, this.uploaded := bucket, None, 0;
      this.stateFor := (i: nat) => StateFor(history, i);
      this.tokenFor := (i: nat) => EncodeState(StateFor(history, i));
    }

    ghost function Expected(): seq<Blob> {
      Blobs(history, TARGET_HISTORY_BLOB_SIZE)
    }

    /** What must have gone wrong with blob number `i` for an attempt to stop there with this error. */
    ghost predicate Blames(error: ArchiveError, i: nat, conditions: BlobConditions) {
      match error
      case HistoryMutated => Refused(i)
      case EncodeFailed => conditions.encodeFails
      case HeadFailed => conditions.headFails
      case UploadFailed => !conditions.upload.Stored?
      case ContextTimeout => history == [] || MeetsFault(conditions, 0)
      case IteratorError(_) => history == [] || MeetsFault(conditions, 0)
    }

    ghost predicate Valid()
      reads this
    {
      && Contiguous(history, FIRST_EVENT_ID) && EventCount(history) < MAX_INT64
      && Holds(bucket, keyPrefix, Expected(), uploaded) && Checked(uploaded)
      && (forall i: nat {:trigger StateFor(history, i)} :: StateFor(history, i) == stateFor(i) && EncodeState(stateFor(i)) == tokenFor(i))
      && (progress.Some? ==> GoodProgress(progress.value, uploaded))
    }

    /** Blob number `i` shows that the history is not the one announced, and such histories are not to be archived. */
    ghost predicate Refused(i: nat) {
      !archiveIncompleteHistory && i < |Expected()| && IsHistoryMutated(closeFailoverVersion, nextEventId, Expected()[i])
    }

    /** None of the first `n` blobs is to be refused. */
    ghost predicate Checked(n: nat) {
      n <= |Expected()| && (archiveIncompleteHistory || NoneMutated(Expected()[..n], closeFailoverVersion, nextEventId))
    }

    lemma {:induction false} CheckedExtend(n: nat)
      requires Checked(n) && n < |Expected()| && !Refused(n)
      ensures Checked(n + 1)
    {
      var blobs := Expected();
      if !archiveIncompleteHistory {
        var longer := blobs[..n + 1];
        forall i | 0 <= i < |longer|
          ensures !IsHistoryMutated(closeFailoverVersion, nextEventId, longer[i])
        {
          assert longer[i] == blobs[i] && (i < n ==> blobs[..n][i] == blobs[i]);
        }
      }
    }

    lemma {:induction false} CheckedRefuses(n: nat, i: nat)
      requires Checked(n) && i < n
      ensures !Refused(i)
    {
      assert Expected()[..n][i] == Expected()[i];
    }

    /** A history that is archived in full without a refusal is the one announced. */
    lemma {:induction false} CheckedIsAnnounced()
      requires Contiguous(history, FIRST_EVENT_ID) && history != []
      ensures Checked(|Expected()|) <==> archiveIncompleteHistory || AsAnnounced(history, closeFailoverVersion, nextEventId)
    {
      MutationCheckIsExact(history, closeFailoverVersion, nextEventId);
      assert Expected()[..|Expected()|] == Expected();
    }

    /** A progress record holds a blob number and the iterator state that goes with it. */
    ghost predicate GoodProgress(p: Progress, uploaded: nat) {
      p.batchIdx <= uploaded && p.iteratorState == tokenFor(p.batchIdx)
    }

    /** The iterator reads this history and is about to deliver blob number `i`. */
    ghost predicate Feeds(it: HistoryIterator, i: nat)
      reads it
    {
      && it.Valid() && it.history == history && it.targetHistoryBlobSize == TARGET_HISTORY_BLOB_SIZE
      && i <= |Expected()| && it.state == stateFor(i)
    }

    /** The token taken when a blob is due restores the iterator's state at that point. */
    lemma {:induction false} TokenRestores(i: nat)
      requires Valid() && i <= |Expected()|
      ensures DecodeState(tokenFor(i)) == Some(stateFor(i)) && EncodeState(stateFor(i)) == tokenFor(i)
      ensures MIN_INT64 <= stateFor(i).nextEventId <= MAX_INT64
    {
      var s := StateFor(history, i);
      DueFor(history, i, s);
      RestingFits(history, s);
      StateRoundTrip(s);
    }

    /** The iterator to go on with: at the recorded progress when that can be had, else at the start. */
    method LoadHistoryIterator(progressLoads: bool) returns (it: HistoryIterator, batchIdx: nat)
      requires Valid()
      ensures fresh(it) && Feeds(it, batchIdx) && batchIdx <= uploaded
      ensures batchIdx == if progress.Some? && progressLoads then progress.value.batchIdx else 0
    {
      if progress.Some? && progressLoads {
        TokenRestores(progress.value.batchIdx);
        var r := HistoryIterator.FromState(history, TARGET_HISTORY_BLOB_SIZE, Some(progress.value.iteratorState));
        if r.Success? {
          return r.value, progress.value.batchIdx;
        }
      }
      it := new HistoryIterator(history, TARGET_HISTORY_BLOB_SIZE);
      batchIdx := 0;
      assert StateFor(history, 0) == INITIAL_STATE;
    }

    /** One call of `Next` for the blob that is due. */
    method TryNext(it: HistoryIterator, w: BlobConditions, attempt: nat, ghost i: nat) returns (o: NextOutcome)
      requires Valid() && Feeds(it, i) && !it.state.finished
      modifies it
      ensures o.Delivered? ==> i < |Expected()| && o.blob == Expected()[i] && Feeds(it, i + 1)
      ensures !o.Delivered? ==> o.Failed? && it.state == old(it.state) && (history == [] || MeetsFault(w, attempt))
      ensures o == Failed(EntityNotExists) ==> history == []
    {
      var used;
      o, used := it.Next(w.pages(attempt));
      assert StateFor(history, i) == old(it.state);
      CallWhenDue(history, i, old(it.state), o, it.state);
      if !o.Delivered? && history != [] {
        FaultWasMet(w, attempt, used);
      }
    }

    /** Calls `Next` until it delivers, fails for good, or the context expires. */
    method GetNextHistoryBlob(it: HistoryIterator, w: BlobConditions, ghost i: nat) returns (r: Result<Blob, ArchiveError>)
      requires Valid() && Feeds(it, i) && !it.state.finished
      modifies it
      ensures r.Failure? ==> it.state == old(it.state)
      ensures r.Success? ==> i < |Expected()| && r.value == Expected()[i] && Feeds(it, i + 1)
      ensures r == Failure(IteratorError(EntityNotExists)) ==> history == []
      ensures r.Failure? ==> (r.error.IteratorError? || r.error.ContextTimeout?) && Blames(r.error, i, w)
      ensures r.Failure? ==> r.error != IteratorError(ReadFault(true))
      ensures r == Failure(ContextTimeout) && history != [] ==> AllMeetFaults(w, w.patience + 1)
    {
      var attempt := 0;
      while true
        invariant it.state == old(it.state) && 0 <= attempt <= w.patience
        invariant history != [] ==> AllMeetFaults(w, attempt)
        decreases w.patience - attempt
      {
        var o := TryNext(it, w, attempt, i);
        if o.Delivered? {
          return Success(o.blob);
        }
        if history != [] {
          OneMoreFault(w, attempt);
        }
        if attempt == w.patience {
          return Failure(ContextTimeout);
        }
        if o.error != ReadFault(true) {
          return Failure(IteratorError(o.error));
        }
        attempt := attempt + 1;
      }
    }

    /** Uploads the blob unless its key is taken already. */
    method StoreBlob(blob: Blob, batchIdx: nat, conditions: BlobConditions) returns (error: Option<ArchiveError>)
      requires Valid() && batchIdx <= uploaded && batchIdx < |Expected()| && blob == Expected()[batchIdx] && !Refused(batchIdx)
      modifies this`bucket, this`uploaded
      ensures Valid() && uploaded >= old(uploaded)
      ensures OnlyAdds(old(bucket), bucket, keyPrefix)
      ensures error.None? ==> batchIdx < uploaded
      ensures error.Some? ==> Blames(error.value, batchIdx, conditions)
    {
      if conditions.encodeFails {
        return Some(EncodeFailed);
      }
      var key := HistoryKey(keyPrefix, batchIdx);
      if conditions.headFails {
        return Some(HeadFailed);
      }
      if key !in bucket {
        if !conditions.upload.Lost? {
          HoldsExtend(bucket, keyPrefix, Expected(), uploaded);
          CheckedExtend(uploaded);
          bucket := bucket[key := blob];
          uploaded := uploaded + 1;
        }
        if !conditions.upload.Stored? {
          return Some(UploadFailed);
        }
      }
      return None;
    }

    method SaveHistoryIteratorState(it: HistoryIterator, batchIdx: nat, recorded: bool)
      requires Valid() && batchIdx <= uploaded && it.state == stateFor(batchIdx)
      modifies this`progress
      ensures Valid()
      ensures !recorded ==> progress == old(progress)
      ensures recorded ==> progress.Some? && progress.value.batchIdx == batchIdx && DecodeState(progress.value.iteratorState) == Some(it.state)
    {
      if recorded {
        TokenRestores(batchIdx);
        var token := it.GetState();
        progress := Some(Progress(batchIdx, token));
      }
    }

    /** One turn of the archiving loop: fetch, check, store, record. */
    method ArchiveOne(it: HistoryIterator, batchIdx: nat, conditions: BlobConditions) returns (stop: Option<ArchiveResult>)
      requires Valid() && batchIdx <= uploaded && Feeds(it, batchIdx) && !it.state.finished
      modifies this, it
      ensures Valid() && uploaded >= old(uploaded) && OnlyAdds(old(bucket), bucket, keyPrefix)
      ensures stop.None? ==> batchIdx < uploaded && Feeds(it, batchIdx + 1)
      ensures stop != Some(Done) && (stop == Some(Skipped) ==> history == [])
      ensures stop.Some? && stop.value.Aborted? ==> Blames(stop.value.error, batchIdx, conditions)
      ensures if stop.None? && conditions.recorded then progress.Some? && progress.value.batchIdx == batchIdx + 1 else progress == old(progress)
      ensures Refused(batchIdx) ==>
                && stop.Some? && stop.value.Aborted? && bucket == old(bucket) && progress == old(progress)
                && (!MeetsFault(conditions, 0) ==> stop.value.error == HistoryMutated)
    {
      assert history == [] ==> Expected() == [];
      var next := GetNextHistoryBlob(it, conditions, batchIdx);
      if next.Failure? {
        stop := Some(if next.error == IteratorError(EntityNotExists) then Skipped else Aborted(next.error));
      } else if IsHistoryMutated(closeFailoverVersion, nextEventId, next.value) && !archiveIncompleteHistory {
        stop := Some(Aborted(HistoryMutated));
      } else {
        var error := StoreBlob(next.value, batchIdx, conditions);
        if error.Some? {
          stop := Some(Aborted(error.value));
        } else {
          SaveHistoryIteratorState(it, batchIdx + 1, conditions.recorded);
          stop := None;
        }
      }
    }

    /** What the result of an attempt says about the history, given what went wrong. */
    lemma {:induction false} ResultMeans(conditions: Conditions, r: ArchiveResult, at: nat)
      requires Contiguous(history, FIRST_EVENT_ID) && history != [] && r != Skipped
      requires r == Done ==> Checked(|Expected()|)
      requires r.Aborted? ==> Blames(r.error, at, conditions.blob(at))
      ensures r == Done ==> archiveIncompleteHistory || AsAnnounced(history, closeFailoverVersion, nextEventId)
      ensures Faultless(conditions) ==>
                r == if archiveIncompleteHistory || AsAnnounced(history, closeFailoverVersion, nextEventId) then Done else Aborted(HistoryMutated)
    {
      CheckedIsAnnounced();
      if Refused(at) && Checked(|Expected()|) {
        CheckedRefuses(|Expected()|, at);
      }
    }

    lemma {:induction false} OnlyAddsOn(a: map<string, Blob>, b: map<string, Blob>, c: map<string, Blob>)
      requires OnlyAdds(a, b, keyPrefix) && OnlyAdds(b, c, keyPrefix)
      ensures OnlyAdds(a, c, keyPrefix)
    {
    }

    lemma {:induction false} FinishedMeansAll(it: HistoryIterator, i: nat)
      requires Valid() && Feeds(it, i) && it.state.finished
      ensures history != [] && i == |Expected()|
    {
      assert StateFor(history, i) == it.state;
      FinishedAtEnd(history, i, it.state);
    }

    /** The archiving loop, from blob number `start` on. */
    method ArchiveFrom(it: HistoryIterator, start: nat, conditions: Conditions) returns (r: ArchiveResult, at: nat)
      requires Valid() && start <= uploaded && Feeds(it, start)
      modifies this, it
      ensures Valid() && uploaded >= old(uploaded) && OnlyAdds(old(bucket), bucket, keyPrefix)
      ensures r == Done ==> uploaded == |Expected()| && history != []
      ensures r == Skipped ==> history == []
      ensures r.Aborted? ==> Blames(r.error, at, conditions.blob(at))
    {
      at := start;
      ghost var before := bucket;
      while it.HasNext()
        invariant Valid() && uploaded >= old(uploaded) && OnlyAdds(before, bucket, keyPrefix)
        invariant Feeds(it, at) && at <= uploaded
        decreases |Expected()| - at
      {
        ghost var now := bucket;
        var stop := ArchiveOne(it, at, conditions.blob(at));
        OnlyAddsOn(before, now, bucket);
        if stop.Some? {
          return stop.value, at;
        }
        at := at + 1;
      }
      FinishedMeansAll(it, at);
      r := Done;
    }

    /** One attempt at archiving, under any conditions: the bucket keeps holding exactly the first blobs, none of them
        to be refused, never loses or changes an object, and holds all of them once an attempt reports success. Where
        nothing fails, it succeeds exactly for the history that was announced, unless others are welcome too. */
    method Archive(conditions: Conditions) returns (r: ArchiveResult, at: nat)
      requires Valid()
      modifies this
      ensures Valid() && uploaded >= old(uploaded)
      ensures r == Done ==> uploaded == |Expected()| && history != []
      ensures r == Skipped ==> history == []
      ensures OnlyAdds(old(bucket), bucket, keyPrefix)
      ensures r.Aborted? ==> Blames(r.error, at, conditions.blob(at))
      ensures r == Done ==> archiveIncompleteHistory || AsAnnounced(history, closeFailoverVersion, nextEventId)
      ensures Faultless(conditions) && history != [] ==>
                r == if archiveIncompleteHistory || AsAnnounced(history, closeFailoverVersion, nextEventId) then Done else Aborted(HistoryMutated)
    {
      var it, start := LoadHistoryIterator(conditions.progressLoads);
      r, at := ArchiveFrom(it, start, conditions);
      if history != [] {
        ResultMeans(conditions, r, at);
      }
    }

    static method CountEvents(body: seq<Batch>) returns (count: nat)
      ensures count == EventCount(body)
    {
      count := 0;
      for j := 0 to |body|
        invariant count + EventCount(body[j..]) == EventCount(body)
      {
        count := count + |body[j].events|;
        assert body[j..][1..] == body[j + 1..];
      }
    }

    /** One page of the archive: whole blobs from number `batchIdx` on, until the page is full or the last blob is
        read, and the number to go on with. It fails exactly when it needs a blob that is not there, or that cannot
        be downloaded and decoded. */
    method Get(batchIdx: nat, pageSize: int, broken: nat -> bool) returns (r: Result<HistoryPage, GetError>)
      requires Valid()
      ensures batchIdx < |Expected()| ==>
                var end := PageEnd(Expected(), batchIdx, 0, pageSize);
                && (r.Success? <==> end == batchIdx || (end <= uploaded && AllReadable(batchIdx, end, broken)))
                && (r.Success? ==> r.value == HistoryPage(Bodies(Expected(), batchIdx, end), if end == |Expected()| then None else Some(end)))
                && (r == Failure(BlobNotExists) ==> uploaded < end)
      ensures batchIdx >= |Expected()| ==>
                r == if pageSize <= 0 then Success(HistoryPage([], Some(batchIdx)))
                     else Failure(if broken(batchIdx) then DownloadFault else BlobNotExists)
    {
      var batches: seq<Batch> := [];
      var numOfEvents: nat, idx := 0, batchIdx;
      LastFlags(history);
      while numOfEvents < pageSize
        invariant batchIdx <= idx && (batchIdx < idx ==> idx <= uploaded) && AllReadable(batchIdx, idx, broken)
        invariant batchIdx >= |Expected()| ==> idx == batchIdx && batches == [] && numOfEvents == 0
        invariant batchIdx < |Expected()| ==>
                    && idx < |Expected()| && batches == Bodies(Expected(), batchIdx, idx)
                    && PageEnd(Expected(), batchIdx, 0, pageSize) == PageEnd(Expected(), idx, numOfEvents, pageSize)
        decreases uploaded - idx
      {
        var key := HistoryKey(keyPrefix, idx);
        if broken(idx) {
          return Failure(DownloadFault);
        }
        if key !in bucket {
          return Failure(BlobNotExists);
        }
        var blob := bucket[key];
        assert idx < uploaded && blob == Expected()[idx];
        assert blob.header.isLast <==> idx == |Expected()| - 1;
        var more := CountEvents(blob.body);
        batches, numOfEvents := batches + blob.body, numOfEvents + more;
        BodiesExtend(Expected(), batchIdx, idx);
        if blob.header.isLast {
          assert PageEnd(Expected(), batchIdx, 0, pageSize) == |Expected()| == uploaded;
          return Success(HistoryPage(batches, None));
        }
        idx := idx + 1;
      }
      return Success(HistoryPage(batches, Some(idx)));
    }

    /** Following the page tokens through a complete archive gives back the history that was archived, with pages of
        any size, unless a blob cannot be read. */
    method ReadBack(pageSize: int, broken: nat -> bool) returns (r: Result<seq<Batch>, GetError>)
      requires Valid() && uploaded == |Expected()| && history != [] && pageSize > 0
      ensures r.Success? <==> AllReadable(0, |Expected()|, broken)
      ensures r.Success? ==> r.value == history
      ensures r.Failure? ==> r.error == DownloadFault
    {
      var batches: seq<Batch> := [];
      var next := Some(0);
      ghost var blobs, done := Expected(), 0;
      ArchiveRoundTrip(history, TARGET_HISTORY_BLOB_SIZE, pageSize);
      while next.Some?
        invariant done <= |blobs| && AllReadable(0, done, broken) && next == if done < |blobs| then Some(done) else None
        invariant batches + ReadOn(blobs, done, pageSize) == history
        decreases |blobs| - done
      {
        var page := Get(next.value, pageSize, broken);
        if page.Failure? {
          return Failure(page.error);
        }
        ReadOnStep(blobs, done, pageSize, batches);
        batches, next, done := batches + page.value.batches, page.value.next, PageEnd(blobs, done, 0, pageSize);
      }
      return Success(batches);
    }
  }
}
