/** The accounting of shares: one tally per worker and five minutes, and sums over windows. */
module Rollup {
  import opened Wrappers
  import opened OrderedMap
  import opened Shares

  const BUCKET_SECONDS := 300

  /** `Math.floor(t / 300) * 300`: both languages floor, for a positive divisor. */
  function BucketStartFor(unixSeconds: int): int {
    unixSeconds / BUCKET_SECONDS * BUCKET_SECONDS
  }

  /** `usdMicros` is what the share was worth in millionths of a dollar, where that is known. */
  datatype Share = Share(
    workerId: nat, algo: string, outcome: ShareOutcome, difficulty: real, atSeconds: int, usdMicros: Option<real>)

  datatype Tally = Tally(accepted: int, rejected: int, unresolved: int, difficulty: real, usdMicros: int)

  const NONE := Tally(0, 0, 0, 0.0, 0)

  function Plus(a: Tally, b: Tally): Tally {
    Tally(a.accepted + b.accepted, a.rejected + b.rejected, a.unresolved + b.unresolved,
          a.difficulty + b.difficulty, a.usdMicros + b.usdMicros)
  }

  /** `Math.round(share.usdMicros ?? 0)`: to the nearest whole, halves up. */
  function MicrosOf(share: Share): int {
    if share.usdMicros.None? then 0 else (share.usdMicros.value + 0.5).Floor
  }

  /** What one share adds: weight attaches to accepted shares only. */
  function TallyOf(share: Share): Tally {
    match share.outcome
    case Accepted => Tally(1, 0, 0, share.difficulty, MicrosOf(share))
    case Rejected => Tally(0, 1, 0, 0.0, 0)
    case Unresolved => Tally(0, 0, 1, 0.0, 0)
  }

  /** The primary key of a bucket row. */
  datatype BucketKey = BucketKey(workerId: nat, bucketStart: int, algo: string)

  type Buckets = OMap<BucketKey, Tally>

  datatype Worker = Worker(username: string, workerName: string)

  /** The workers table: a row's id is its position. */
  type Workers = seq<Worker>

  function Find(workers: Workers, worker: Worker): (id: nat)
    ensures id <= |workers|
    ensures id < |workers| ==> workers[id] == worker
    ensures id == |workers| ==> worker !in workers
  {
    if workers == [] then 0
    else if workers[0] == worker then 0
    else
      assert workers == [workers[0]] + workers[1..];
      1 + Find(workers[1..], worker)
  }

  function AfterTouch(workers: Workers, worker: Worker): Workers {
    if worker in workers then workers else workers + [worker]
  }

  /** When a worker was first and last seen, by row. */
  datatype Seen = Seen(firstAt: int, lastAt: int)

  /** Only a new row takes the time as its first; every touch is the last. */
  function AfterSeen(seen: map<nat, Seen>, id: nat, nowSeconds: int): map<nat, Seen> {
    seen[id := Seen(if id in seen then seen[id].firstAt else nowSeconds, nowSeconds)]
  }

  function KeyOf(share: Share): BucketKey {
    BucketKey(share.workerId, BucketStartFor(share.atSeconds), share.algo)
  }

  /** `INSERT ... ON CONFLICT DO UPDATE`: a new row, or added to the one stored. */
  function Upsert(buckets: Buckets, key: BucketKey, more: Tally): Buckets {
    if buckets == [] then [Entry(key, more)]
    else if buckets[0].key == key then [Entry(key, Plus(buckets[0].value, more))] + buckets[1..]
    else [buckets[0]] + Upsert(buckets[1..], key, more)
  }

  function AfterShare(buckets: Buckets, share: Share): Buckets {
    Upsert(buckets, KeyOf(share), TallyOf(share))
  }

  class Accounting {
    var workers: Workers
    var seen: map<nat, Seen>
    var buckets: Buckets

    constructor ()
      ensures workers == [] && seen == map[] && buckets == []
    {
      workers, seen, buckets := [], map[], [];
    }

    /** The same worker always gets the same row, and no two workers share one. */
    method TouchWorker(worker: Worker, nowSeconds: int) returns (id: nat)
      modifies this`workers, this`seen
      ensures seen == AfterSeen(old(seen), id, nowSeconds)
      ensures workers == AfterTouch(old(workers), worker)
      ensures old(workers) <= workers
      ensures id < |workers| && workers[id] == worker
      ensures worker in old(workers) ==> id == Find(old(workers), worker)
    {
      id := Find(workers, worker);
      if id == |workers| {
        workers := workers + [worker];
      }
      seen := AfterSeen(seen, id, nowSeconds);
    }

    method RecordShare(share: Share)
      modifies this`buckets
      ensures buckets == AfterShare(old(buckets), share)
    {
      hide BucketStartFor, Plus, Upsert;
      var key := KeyOf(share);
      var accepted := share.outcome == Accepted;
      var added := Tally(
        if accepted then 1 else 0,
        if share.outcome == Rejected then 1 else 0,
        if share.outcome == Unresolved then 1 else 0,
        if accepted then share.difficulty else 0.0,
        if accepted then MicrosOf(share) else 0);
      assert added == TallyOf(share);
      var i := 0;
      while i < |buckets| && buckets[i].key != key
        invariant i <= |buckets| && buckets == old(buckets)
        invariant forall j :: 0 <= j < i ==> buckets[j].key != key
      {
        i := i + 1;
      }
      UpsertAt(buckets, key, added, i);
      if i == |buckets| {
        buckets := buckets + [Entry(key, added)];
      } else {
        buckets := buckets[i := Entry(key, Plus(buckets[i].value, added))];
      }
    }
  }

  /** Where a row goes: onto the first with its key, or after the last. */
  lemma {:induction false} UpsertAt(buckets: Buckets, key: BucketKey, more: Tally, at: nat)
    requires at <= |buckets| && forall j :: 0 <= j < at ==> buckets[j].key != key
    requires at < |buckets| ==> buckets[at].key == key
    ensures Upsert(buckets, key, more)
         == if at == |buckets| then buckets + [Entry(key, more)]
            else buckets[at := Entry(key, Plus(buckets[at].value, more))]
  {
    if at > 0 {
      UpsertAt(buckets[1..], key, more, at - 1);
    }
  }

  // ---- reading back ----------------------------------------------------------

  datatype Whose = OfAccount(accountId: string) | OfWorker(workerId: nat)

  /** `bucket_start >= start AND bucket_start < end`, joined to an account's or a worker's rows. */
  datatype Query = Query(workers: Workers, whose: Whose, start: int, end: int)

  predicate Owns(q: Query, workerId: nat) {
    match q.whose
    case OfAccount(accountId) => workerId < |q.workers| && q.workers[workerId].username == accountId
    case OfWorker(id) => id == workerId
  }

  predicate Selects(q: Query, key: BucketKey) {
    Owns(q, key.workerId) && q.start <= key.bucketStart < q.end
  }

  /** The sum the database computes, row by row. */
  function Total(buckets: Buckets, q: Query): Tally {
    if buckets == [] then NONE
    else
      var rest := Total(buckets[1..], q);
      if Selects(q, buckets[0].key) then Plus(buckets[0].value, rest) else rest
  }

  /** The sum over the shares themselves, which are never stored. */
  function RawTotal(log: seq<Share>, q: Query): Tally {
    if log == [] then NONE
    else
      var share := log[|log| - 1];
      var before := RawTotal(log[..|log| - 1], q);
      if Owns(q, share.workerId) && q.start <= share.atSeconds < q.end
      then Plus(before, TallyOf(share)) else before
  }

  function Stored(log: seq<Share>): Buckets {
    if log == [] then [] else AfterShare(Stored(log[..|log| - 1]), log[|log| - 1])
  }

  predicate Aligned(q: Query) {
    q.start % BUCKET_SECONDS == 0 && q.end % BUCKET_SECONDS == 0
  }

  /** One share more, one row's worth more, whoever asks. */
  lemma {:induction false} TotalAfterUpsert(buckets: Buckets, key: BucketKey, more: Tally, q: Query)
    ensures Total(Upsert(buckets, key, more), q)
         == if Selects(q, key) then Plus(Total(buckets, q), more) else Total(buckets, q)
  {
    hide Selects;
    if buckets != [] && buckets[0].key != key {
      TotalAfterUpsert(buckets[1..], key, more, q);
      assert Upsert(buckets, key, more)[1..] == Upsert(buckets[1..], key, more);
    } else if buckets != [] {
      assert Upsert(buckets, key, more)[1..] == buckets[1..];
    }
  }

  lemma {:induction false} UpsertAddsOneKey(buckets: Buckets, key: BucketKey, more: Tally)
    ensures forall e :: e in Upsert(buckets, key, more) ==> e.key == key || e in buckets
    ensures Distinct(buckets) ==> Distinct(Upsert(buckets, key, more))
  {
    if buckets != [] && buckets[0].key != key {
      UpsertAddsOneKey(buckets[1..], key, more);
      assert buckets == [buckets[0]] + buckets[1..];
      var rest := Upsert(buckets[1..], key, more);
      if Distinct(buckets) {
        forall i | 0 <= i < |rest|
          ensures rest[i].key != buckets[0].key
        {
          assert rest[i] in rest;
        }
      }
    }
  }

  /** There is one row for each worker, bucket and algorithm, whatever is recorded. */
  lemma {:induction false} RowsAreDistinct(log: seq<Share>)
    ensures Distinct(Stored(log))
  {
    if log != [] {
      var n := |log| - 1;
      RowsAreDistinct(log[..n]);
      UpsertAddsOneKey(Stored(log[..n]), KeyOf(log[n]), TallyOf(log[n]));
    }
  }

  lemma AlignedBucket(t: int, start: int, end: int)
    requires start % BUCKET_SECONDS == 0 && end % BUCKET_SECONDS == 0
    ensures start <= BucketStartFor(t) < end <==> start <= t < end
  {
  }

  /** For a window on bucket boundaries, what the buckets say an account (or a worker) did is
      exactly what its shares say: accepted weight and all three counts. */
  lemma {:induction false} RollupIsExact(log: seq<Share>, q: Query)
    requires Aligned(q)
    ensures Total(Stored(log), q) == RawTotal(log, q)
  {
    if log != [] {
      var n := |log| - 1;
      RollupIsExact(log[..n], q);
      TotalAfterUpsert(Stored(log[..n]), KeyOf(log[n]), TallyOf(log[n]), q);
      AlignedBucket(log[n].atSeconds, q.start, q.end);
    }
  }

  /** A window off the boundaries is never exact: some second is counted on the wrong side. */
  lemma ExactOnlyIfAligned(start: int, end: int)
    requires start < end
    ensures (forall t :: start <= BucketStartFor(t) < end <==> start <= t < end)
            <==> start % BUCKET_SECONDS == 0 && end % BUCKET_SECONDS == 0
  {
    if start % BUCKET_SECONDS == 0 && end % BUCKET_SECONDS == 0 {
      forall t ensures start <= BucketStartFor(t) < end <==> start <= t < end {
        AlignedBucket(t, start, end);
      }
    } else if start % BUCKET_SECONDS != 0 {
      assert BucketStartFor(start) < start;
    } else {
      assert BucketStartFor(end) < end && start <= BucketStartFor(end);
    }
  }

  lemma SameOwner(q: Query, middle: int, workerId: nat)
    ensures Owns(q.(end := middle), workerId) == Owns(q, workerId) == Owns(q.(start := middle), workerId)
  {
  }

  /** Consecutive windows share out the buckets: each row is in exactly one of them. */
  lemma {:induction false} WindowsPartition(buckets: Buckets, q: Query, middle: int)
    requires q.start <= middle <= q.end
    ensures Plus(Total(buckets, q.(end := middle)), Total(buckets, q.(start := middle))) == Total(buckets, q)
  {
    if buckets == [] {
      assert Plus(NONE, NONE) == NONE;
    } else {
      WindowsPartition(buckets[1..], q, middle);
      PartitionOne(buckets, q, middle);
    }
  }

  lemma SelectsPartition(q: Query, middle: int, key: BucketKey)
    requires q.start <= middle <= q.end
    ensures Selects(q, key) == (Selects(q.(end := middle), key) || Selects(q.(start := middle), key))
    ensures !(Selects(q.(end := middle), key) && Selects(q.(start := middle), key))
  {
    hide Owns;
    SameOwner(q, middle, key.workerId);
  }

  lemma TotalOne(buckets: Buckets, q: Query)
    requires buckets != []
    ensures Total(buckets, q) ==
      if Selects(q, buckets[0].key) then Plus(buckets[0].value, Total(buckets[1..], q)) else Total(buckets[1..], q)
  {
  }

  lemma PartitionOne(buckets: Buckets, q: Query, middle: int)
    requires buckets != [] && q.start <= middle <= q.end
    requires Plus(Total(buckets[1..], q.(end := middle)), Total(buckets[1..], q.(start := middle)))
          == Total(buckets[1..], q)
    ensures Plus(Total(buckets, q.(end := middle)), Total(buckets, q.(start := middle))) == Total(buckets, q)
  {
    hide Selects, Plus, Total;
    var early, late := q.(end := middle), q.(start := middle);
    SelectsPartition(q, middle, buckets[0].key);
    TotalOne(buckets, q);
    TotalOne(buckets, early);
    TotalOne(buckets, late);
    PlusLaws(buckets[0].value, Total(buckets[1..], early), Total(buckets[1..], late));
  }

  lemma PlusLaws(a: Tally, b: Tally, c: Tally)
    ensures Plus(Plus(a, b), c) == Plus(a, Plus(b, c)) == Plus(b, Plus(a, c))
  {
  }

  /** The same shares under other rig names of the same accounts. */
  ghost predicate SameWorkElsewhere(workers: Workers, log: seq<Share>, other: seq<Share>) {
    && |log| == |other|
    && forall i :: 0 <= i < |log| ==>
         && log[i].workerId < |workers| && other[i].workerId < |workers|
         && workers[log[i].workerId].username == workers[other[i].workerId].username
         && TallyOf(log[i]) == TallyOf(other[i]) && log[i].atSeconds == other[i].atSeconds
  }

  lemma {:induction false} RawTotalIgnoresRigs(log: seq<Share>, other: seq<Share>, q: Query)
    requires SameWorkElsewhere(q.workers, log, other) && q.whose.OfAccount?
    ensures RawTotal(log, q) == RawTotal(other, q)
  {
    if log != [] {
      RawTotalIgnoresRigs(log[..|log| - 1], other[..|other| - 1], q);
    }
  }

  /** Spreading an account's work over more or fewer rigs changes nothing it is paid for. */
  lemma SplittingRigsChangesNothing(log: seq<Share>, other: seq<Share>, q: Query)
    requires SameWorkElsewhere(q.workers, log, other) && q.whose.OfAccount? && Aligned(q)
    ensures Total(Stored(log), q) == Total(Stored(other), q)
  {
    RollupIsExact(log, q);
    RollupIsExact(other, q);
    RawTotalIgnoresRigs(log, other, q);
  }

  /** The difficulty of the accepted shares asked for, one by one. */
  function AcceptedDifficulty(log: seq<Share>, q: Query): real {
    if log == [] then 0.0
    else
      var share := log[|log| - 1];
      AcceptedDifficulty(log[..|log| - 1], q)
      + (if share.outcome == Accepted && Owns(q, share.workerId) && q.start <= share.atSeconds < q.end
         then share.difficulty else 0.0)
  }

  lemma {:induction false} RawWeightIsAccepted(log: seq<Share>, q: Query)
    ensures RawTotal(log, q).difficulty == AcceptedDifficulty(log, q)
  {
    if log != [] {
      RawWeightIsAccepted(log[..|log| - 1], q);
    }
  }

  /** The weight read from the buckets is the difficulty of the accepted shares of the window and
      nothing else. */
  lemma WeightIsAcceptedDifficulty(log: seq<Share>, q: Query)
    requires Aligned(q)
    ensures Total(Stored(log), q).difficulty == AcceptedDifficulty(log, q)
  {
    hide RawTotal, AcceptedDifficulty, Total, Stored;
    RollupIsExact(log, q);
    RawWeightIsAccepted(log, q);
  }

  ghost predicate PositiveDifficulties(log: seq<Share>) {
    forall i :: 0 <= i < |log| ==> log[i].difficulty > 0.0
  }

  ghost predicate NoRowBelowZero(buckets: Buckets) {
    forall i :: 0 <= i < |buckets| ==> buckets[i].value.difficulty >= 0.0
  }

  lemma {:induction false} UpsertStaysAboveZero(buckets: Buckets, key: BucketKey, more: Tally)
    requires NoRowBelowZero(buckets) && more.difficulty >= 0.0
    ensures NoRowBelowZero(Upsert(buckets, key, more))
  {
    if buckets != [] && buckets[0].key != key {
      UpsertStaysAboveZero(buckets[1..], key, more);
    }
  }

  /** No row ever weighs less than nothing. No constraint of the table says so: it follows from the
      difficulties recorded. */
  lemma {:induction false} RowsStayAboveZero(log: seq<Share>)
    requires PositiveDifficulties(log)
    ensures NoRowBelowZero(Stored(log))
  {
    if log != [] {
      var n := |log| - 1;
      RowsStayAboveZero(log[..n]);
      UpsertStaysAboveZero(Stored(log[..n]), KeyOf(log[n]), TallyOf(log[n]));
    }
  }
}
