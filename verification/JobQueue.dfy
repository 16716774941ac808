/** The durable job queue: the table `background_jobs`, the five statements that
    change it, the decision a worker takes after an attempt, and any number of
    workers that run interleaved, one statement at a time. */
module JobQueue {
  import opened Basics

  type JobId = nat
  type RunId = nat

  datatype JobType =
    | SkuImport
    | PriceRecalculation
    | PriceDispatch
    | CompetitorRefresh
    | NotificationDeliver
    | NotificationDigestDeliver

  datatype Status = Pending | Retrying | Running | Succeeded | Failed | Canceled

  // Times are points on the database clock, in microseconds.
  datatype Job = Job(
    jobType: JobType,
    status: Status,
    queue: string,
    priority: int,
    runAt: int,
    createdAt: int,
    attempts: nat,
    maxAttempts: int,
    leaseExpires: Option<int>,
    result: Json)

  // A JSON document, as text.
  type Json = string

  type Table = map<JobId, Job>

  predicate Terminal(s: Status) {
    s.Succeeded? || s.Failed? || s.Canceled?
  }

  /** The table's own constraint on every row: `background_jobs_attempts_check`. */
  predicate AttemptsCheck(j: Job) {
    0 < j.maxAttempts && j.attempts <= j.maxAttempts
  }

  // ---- The statements, row by row ----

  function NewJob(t: JobType, queue: string, priority: int, runAt: Option<int>, maxAttempts: int, now: int): Job {
    Job(t, Pending,
        if queue == "" then "default" else queue,
        priority,
        if runAt.None? then now else runAt.value,
        now, 0,
        if maxAttempts <= 0 then 3 else maxAttempts,
        None, "{}")
  }

  predicate Claimable(j: Job, queue: string, now: int) {
    && j.queue == queue
    && (|| ((j.status.Pending? || j.status.Retrying?) && j.runAt <= now)
        || (j.status.Running? && j.leaseExpires.Some? && j.leaseExpires.value < now && j.attempts < j.maxAttempts))
  }

  /** The order in which the claim scans rows. */
  predicate Precedes(a: Job, b: Job) {
    || a.priority > b.priority
    || (a.priority == b.priority && a.runAt < b.runAt)
    || (a.priority == b.priority && a.runAt == b.runAt && a.createdAt < b.createdAt)
  }

  /** `id` is a first claimable row among those that no other transaction has locked. */
  ghost predicate Picked(t: Table, queue: string, locked: set<JobId>, now: int, id: JobId) {
    && id in t && id !in locked && Claimable(t[id], queue, now)
    && forall other :: other in t && other !in locked && Claimable(t[other], queue, now) ==> !Precedes(t[other], t[id])
  }

  /** What the claim looks for: a waiting row that is due, or a running one whose lease has expired and
      that has attempts left, and none of them of a higher priority, or of the same and due earlier, or
      of the same and due at the same time and created earlier. */
  lemma PickedIsFirst(t: Table, queue: string, locked: set<JobId>, now: int, id: JobId, other: JobId)
    requires Picked(t, queue, locked, now, id) && other in t && other !in locked && t[other].queue == queue
    ensures var j := t[id];
      && j.queue == queue && id !in locked
      && match j.status
         case Pending => j.runAt <= now
         case Retrying => j.runAt <= now
         case Running => j.leaseExpires.Some? && j.leaseExpires.value < now && j.attempts < j.maxAttempts
         case _ => false
    ensures var j, o := t[id], t[other];
      (match o.status
       case Pending => o.runAt <= now
       case Retrying => o.runAt <= now
       case Running => o.leaseExpires.Some? && o.leaseExpires.value < now && o.attempts < o.maxAttempts
       case _ => false)
      ==> o.priority <= j.priority && (o.priority == j.priority ==> o.runAt >= j.runAt)
          && (o.priority == j.priority && o.runAt == j.runAt ==> o.createdAt >= j.createdAt)
  {}

  function ClaimedRow(j: Job, now: int, ttl: nat): Job {
    j.(status := Running, attempts := j.attempts + 1, leaseExpires := Some(now + ttl))
  }

  /** The column `result` is NOT NULL: without a result, succeeding and failing are refused. */
  predicate Accepts(v: Verdict) {
    v.Retry? || v.result.Some?
  }

  function FinishedRow(j: Job, v: Verdict): Job
    requires Accepts(v)
  {
    match v
    case Succeed(result) => j.(status := Succeeded, leaseExpires := None, result := result.value)
    case Retry(at) => j.(status := Retrying, runAt := at, leaseExpires := None)
    case Fail(result) => j.(status := Failed, leaseExpires := None, result := result.value)
  }

  /** The row of `id` after a completion statement; only a running row is changed. */
  function Completed(t: Table, id: JobId, v: Verdict): Table {
    if id in t && t[id].status.Running? && Accepts(v) then t[id := FinishedRow(t[id], v)] else t
  }

  datatype Completion = Changed | NotFound | NullResult

  // ---- What a worker decides ----

  // What the handler of an attempt reports, with the result it gives, if any. `Fatal` is an
  // error the handler refuses to repeat; `Unsaved` is the import whose result could not be
  // stored, for which the handler asks for a retry whatever the attempt number.
  datatype Outcome =
    | Done(result: Option<Json>)
    | Fatal(result: Option<Json>)
    | Error(retryAt: int, result: Option<Json>)
    | Unsaved(retryAt: int)

  datatype Verdict = Succeed(result: Option<Json>) | Retry(at: int) | Fail(result: Option<Json>)

  /** Only the import gives results; it has none when it fails before it has marked its log. */
  predicate Reports(t: JobType, o: Outcome) {
    match o
    case Done(result) => result.Some? <==> t.SkuImport?
    case Error(_, result) => result.Some? <==> t.SkuImport?
    case Fatal(result) => t.SkuImport? || ((t.PriceDispatch? || t.CompetitorRefresh?) && result.None?)
    case Unsaved(_) => t.SkuImport?
  }

  function Decide(attempts: nat, maxAttempts: int, o: Outcome): Verdict {
    match o
    case Done(result) => Succeed(result)
    case Fatal(result) => Fail(result)
    case Error(at, result) => if attempts < maxAttempts then Retry(at) else Fail(result)
    case Unsaved(at) => Retry(at)
  }

  // ---- The repository ----

  datatype ClaimResult = NothingToClaim | ClaimOf(id: JobId, row: Job) | CheckViolated(id: JobId)

  /** The scan order has a first row in every non-empty set of rows. */
  lemma {:induction false} FirstExists(t: Table, candidates: set<JobId>)
    requires candidates != {} && candidates <= t.Keys
    ensures exists id :: id in candidates && forall other :: other in candidates ==> !Precedes(t[other], t[id])
    decreases |candidates|
  {
    var a :| a in candidates;
    var rest := candidates - {a};
    if rest == {} {
      assert candidates == {a};
    } else {
      FirstExists(t, rest);
      var b :| b in rest && forall other :: other in rest ==> !Precedes(t[other], t[b]);
      var best := if Precedes(t[a], t[b]) then a else b;
      assert best in candidates && forall other :: other in candidates ==> !Precedes(t[other], t[best]);
    }
  }

  class Jobs {
    var rows: Table

    constructor ()
      ensures rows == map[]
    {
      rows := map[];
    }

    /** `id` is the freshly drawn identifier. */
    method Enqueue(id: JobId, t: JobType, queue: string, priority: int, runAt: Option<int>, maxAttempts: int, now: int)
      requires id !in rows
      modifies this
      ensures rows == old(rows)[id := NewJob(t, queue, priority, runAt, maxAttempts, now)]
      ensures rows[id].status.Pending? && rows[id].attempts == 0 < rows[id].maxAttempts && rows[id].leaseExpires.None?
      ensures rows[id].jobType == t && rows[id].priority == priority && rows[id].createdAt == now
      ensures rows[id].result == "{}" && rows[id].queue == (if queue == "" then "default" else queue)
      ensures rows[id].runAt == (if runAt.None? then now else runAt.value)
      ensures rows[id].maxAttempts == (if maxAttempts <= 0 then 3 else maxAttempts)
    {
      rows := rows[id := NewJob(t, queue, priority, runAt, maxAttempts, now)];
    }

    /** One atomic claim; `locked` are the rows other transactions hold, which it skips.
        Raising the attempt number past the maximum violates the table's constraint,
        and then the statement changes nothing. */
    method ClaimNext(queue: string, locked: set<JobId>, ttl: nat, now: int) returns (r: ClaimResult)
      modifies this
      ensures r.NothingToClaim? ==>
                rows == old(rows) && forall id :: id in rows && id !in locked ==> !Claimable(rows[id], queue, now)
      ensures r.CheckViolated? ==>
                && rows == old(rows) && Picked(rows, queue, locked, now, r.id)
                && rows[r.id].attempts >= rows[r.id].maxAttempts
      ensures r.ClaimOf? ==>
                && Picked(old(rows), queue, locked, now, r.id)
                && old(rows)[r.id].attempts < old(rows)[r.id].maxAttempts
                && r.row == ClaimedRow(old(rows)[r.id], now, ttl)
                && rows == old(rows)[r.id := r.row]
      // The row has gained an attempt and a lease, and nothing else.
      ensures r.ClaimOf? ==>
                && r.row.status.Running? && r.row.attempts == old(rows)[r.id].attempts + 1
                && r.row.leaseExpires == Some(now + ttl)
                && r.row.(status := old(rows)[r.id].status, attempts := old(rows)[r.id].attempts,
                          leaseExpires := old(rows)[r.id].leaseExpires) == old(rows)[r.id]
    {
      var candidates := set id | id in rows && id !in locked && Claimable(rows[id], queue, now);
      if candidates == {} {
        assert forall id :: id in rows && id !in locked && Claimable(rows[id], queue, now) ==> id in candidates;
        return NothingToClaim;
      }
      FirstExists(rows, candidates);
      var id :| id in candidates && forall other :: other in candidates ==> !Precedes(rows[other], rows[id]);
      if rows[id].attempts + 1 > rows[id].maxAttempts {
        return CheckViolated(id);
      }
      r := ClaimOf(id, ClaimedRow(rows[id], now, ttl));
      rows := rows[id := r.row];
    }

    /** Succeed, Retry and Fail. */
    method Complete(id: JobId, v: Verdict) returns (c: Completion)
      modifies this
      ensures rows == Completed(old(rows), id, v)
      ensures c.NotFound? <==> !(id in old(rows) && old(rows)[id].status.Running?)
      ensures c.Changed? <==> id in old(rows) && old(rows)[id].status.Running? && (v.Retry? || v.result.Some?)
      ensures c.Changed? ==> match v
                             case Succeed(result) => rows[id].status.Succeeded? && Some(rows[id].result) == result
                             case Retry(at) => rows[id].status.Retrying? && rows[id].runAt == at
                             case Fail(result) => rows[id].status.Failed? && Some(rows[id].result) == result
      ensures c.Changed? ==> forall other :: other in old(rows) && other != id ==>
                other in rows && rows[other] == old(rows)[other]
      ensures c.NullResult? ==> rows == old(rows) && !v.Retry? && v.result.None?
    {
      if id !in rows || !rows[id].status.Running? { return NotFound; }
      if !v.Retry? && v.result.None? { return NullResult; }
      rows := rows[id := FinishedRow(rows[id], v)];
      c := Changed;
    }
  }
}
