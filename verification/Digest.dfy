/** Notification digests: flushers that lock, filter and enqueue pending deliveries, and
    workers that mail the enqueued batches, any number of both, interleaved one statement
    at a time. */
module Digest {
  import opened Basics

  type DeliveryId = nat
  type FlusherId = nat
  type JobId = nat
  type RunId = nat

  datatype Severity = Info | Warning | ErrorLevel

  datatype Status = PendingDigest | QueuedDigest | Sent | Skipped | Failed

  datatype Delivery = Delivery(user: string, channel: string, severity: Severity, status: Status)

  predicate Final(s: Status) {
    s.Sent? || s.Skipped? || s.Failed?
  }

  function Rank(s: Severity): nat {
    match s case ErrorLevel => 3 case Warning => 2 case Info => 1
  }

  predicate SeverityMeetsMin(actual: Severity, min: Severity) {
    Rank(actual) >= Rank(min)
  }

  /** Errors are above warnings, and both above information. */
  lemma SeverityOrder(actual: Severity, min: Severity)
    ensures SeverityMeetsMin(actual, min) <==>
            min.Info? || actual.ErrorLevel? || (actual.Warning? && min.Warning?)
  {}

  type Rows = map<DeliveryId, Delivery>

  // ---- The two loops over loaded rows ----

  function Passing(rows: Rows, ids: set<DeliveryId>, min: Severity): set<DeliveryId> {
    set id | id in ids && id in rows && SeverityMeetsMin(rows[id].severity, min)
  }

  /** The deliveries of a batch that no earlier run has finalized. */
  function Todo(rows: Rows, ids: set<DeliveryId>): set<DeliveryId> {
    set id | id in ids && id in rows && !Final(rows[id].status)
  }

  /** What a run still has to do is what is queued or pending: not sent, skipped or failed. */
  lemma TodoSpelledOut(rows: Rows, ids: set<DeliveryId>, id: DeliveryId)
    ensures id in Todo(rows, ids) <==>
            id in ids && id in rows && (rows[id].status.PendingDigest? || rows[id].status.QueuedDigest?)
  {}

  function Elements(ids: seq<DeliveryId>): set<DeliveryId> {
    set id | id in ids
  }

  /** Splits the loaded deliveries of a batch by severity; the lowest minimum keeps all. */
  method FilterByMinSeverity(rows: Rows, ids: seq<DeliveryId>, min: Severity)
    returns (passes: seq<DeliveryId>, drops: seq<DeliveryId>)
    requires forall k :: 0 <= k < |ids| ==> ids[k] in rows
    ensures multiset(passes) + multiset(drops) == multiset(ids)
    ensures Elements(passes) == Passing(rows, Elements(ids), min)
    ensures Elements(drops) == Elements(ids) - Passing(rows, Elements(ids), min)
  {
    if min.Info? {
      return ids, [];
    }
    passes, drops := [], [];
    for k := 0 to |ids|
      invariant multiset(passes) + multiset(drops) == multiset(ids[..k])
      invariant forall id :: id in passes <==> id in ids[..k] && SeverityMeetsMin(rows[id].severity, min)
      invariant forall id :: id in drops <==> id in ids[..k] && !SeverityMeetsMin(rows[id].severity, min)
    {
      assert ids[..k + 1] == ids[..k] + [ids[k]];
      if SeverityMeetsMin(rows[ids[k]].severity, min) {
        passes := passes + [ids[k]];
      } else {
        drops := drops + [ids[k]];
      }
    }
    assert ids[..|ids|] == ids;
  }

  method DigestPendingItems(rows: Rows, ids: seq<DeliveryId>) returns (todo: seq<DeliveryId>)
    requires forall k :: 0 <= k < |ids| ==> ids[k] in rows
    ensures Elements(todo) == Todo(rows, Elements(ids))
    ensures multiset(todo) <= multiset(ids)
  {
    todo := [];
    for k := 0 to |ids|
      invariant multiset(todo) <= multiset(ids[..k])
      invariant forall id :: id in todo <==> id in ids[..k] && !Final(rows[id].status)
    {
      assert ids[..k + 1] == ids[..k] + [ids[k]];
      if !Final(rows[ids[k]].status) {
        todo := todo + [ids[k]];
      }
    }
    assert ids[..|ids|] == ids;
  }

  // ---- The protocol ----

  datatype FlusherPc =
    | Locked(batch: set<DeliveryId>)
    // `drops` are still to be marked skipped, then `passes` to be enqueued.
    | Filtered(passes: set<DeliveryId>, drops: set<DeliveryId>, batch: set<DeliveryId>, min: Severity)
    | Unlocking(rest: set<DeliveryId>)

  // `batch` and `min` record the locked batch and the minimum severity it was filtered by.
  datatype Job = Job(payload: set<DeliveryId>, batch: set<DeliveryId>, min: Severity)

  datatype RunPc =
    | Loaded(job: JobId, todo: set<DeliveryId>)
    | Marking(job: JobId, todo: set<DeliveryId>, mailed: bool)

  datatype Owner = Nobody | FlusherOwns(f: FlusherId) | JobOwns(j: JobId)

  // The last four components record what has happened: who a delivery was last given to, how
  // often a digest with it was mailed, how many runs of a job ended between such a mail and the
  // marking of its last delivery, and whose `skipped` mark was not written.
  datatype World = World(
    rows: Rows,
    flushers: map<FlusherId, FlusherPc>,
    jobs: map<JobId, Job>,
    runs: map<RunId, RunPc>,
    owner: map<DeliveryId, Owner>,
    mailed: multiset<DeliveryId>,
    interrupted: multiset<JobId>,
    unmarked: set<DeliveryId>)

  // `Lost` is a mail that left although the channel answered with an error.
  datatype MailResult = Delivered | Skip | Retryable | Lost

  // `ReplyLost` is an insert that was committed although an error was reported.
  datatype Insertion = Inserted | Refused | ReplyLost

  datatype Step =
    | Emit(id: DeliveryId, delivery: Delivery)
    | Lock(f: FlusherId, user: string, channel: string, ids: set<DeliveryId>)
    | Filter(f: FlusherId, min: Severity)
    | FilterFails(f: FlusherId)
    | SkipOne(f: FlusherId, id: DeliveryId, written: bool)
    | EnqueueJob(f: FlusherId, j: JobId, how: Insertion)
    | UnlockOne(f: FlusherId, id: DeliveryId)
    | FlusherEnds(f: FlusherId)   // finished, failed to write an unlock, or its process died
    | Load(r: RunId, j: JobId)
    | Mail(r: RunId, result: MailResult)
    | MarkOne(r: RunId, id: DeliveryId)
    | RunEnds(r: RunId)           // finished, failed to write a mark, or its process died

  function Held(pc: FlusherPc): set<DeliveryId> {
    match pc
    case Locked(batch) => batch
    case Filtered(passes, drops, _, _) => passes + drops
    case Unlocking(rest) => rest
  }

  ghost predicate Enabled(w: World, s: Step) {
    match s
    case Emit(id, d) => id !in w.rows && d.status.PendingDigest?
    case Lock(f, user, channel, ids) =>
      && f !in w.flushers && ids != {}
      && forall id :: id in ids ==> id in w.rows && w.rows[id].status.PendingDigest?
                                    && w.rows[id].user == user && w.rows[id].channel == channel
    case Filter(f, _) => f in w.flushers && w.flushers[f].Locked?
    case FilterFails(f) => f in w.flushers && w.flushers[f].Locked?
    case SkipOne(f, id, _) => f in w.flushers && w.flushers[f].Filtered? && id in w.flushers[f].drops && id in w.rows
    case EnqueueJob(f, j, _) =>
      f in w.flushers && w.flushers[f].Filtered? && w.flushers[f].drops == {} && w.flushers[f].passes != {} &&
          j !in w.jobs
    case UnlockOne(f, id) => f in w.flushers && w.flushers[f].Unlocking? && id in w.flushers[f].rest && id in w.rows
    case FlusherEnds(f) => f in w.flushers
    case Load(r, j) => r !in w.runs && j in w.jobs
    case Mail(r, _) => r in w.runs && w.runs[r].Loaded? && w.runs[r].todo != {}
    case MarkOne(r, id) => r in w.runs && w.runs[r].Marking? && id in w.runs[r].todo && id in w.rows
    case RunEnds(r) => r in w.runs
  }

  function SetStatus(rows: Rows, id: DeliveryId, s: Status): Rows
    requires id in rows
  {
    rows[id := rows[id].(status := s)]
  }

  function QueueAll(rows: Rows, ids: set<DeliveryId>): Rows {
    map id | id in rows :: if id in ids then rows[id].(status := QueuedDigest) else rows[id]
  }

  function Give(owner: map<DeliveryId, Owner>, ids: set<DeliveryId>, to: Owner): map<DeliveryId, Owner> {
    owner + map id | id in ids :: to
  }

  ghost function Effect(w: World, s: Step): World
    requires Enabled(w, s)
  {
    match s
    case Emit(id, d) => w.(rows := w.rows[id := d], owner := w.owner[id := Nobody])
    case Lock(f, _, _, ids) =>
      w.(rows := QueueAll(w.rows, ids), flushers := w.flushers[f := Locked(ids)],
          owner := Give(w.owner, ids, FlusherOwns(f)))
    case Filter(f, min) =>
      var ids := w.flushers[f].batch;
      var passes := Passing(w.rows, ids, min);
      w.(flushers := w.flushers[f := Filtered(passes, ids - passes, ids, min)])
    case FilterFails(f) => w.(flushers := w.flushers[f := Unlocking(w.flushers[f].batch)])
    case SkipOne(f, id, written) =>
      var pc := w.flushers[f];
      w.(rows := if written then SetStatus(w.rows, id, Skipped) else w.rows,
         flushers := w.flushers[f := pc.(drops := pc.drops - {id})],
         owner := w.owner[id := Nobody],
         unmarked := if written then w.unmarked else w.unmarked + {id})
    case EnqueueJob(f, j, how) =>
      var pc := w.flushers[f];
      w.(jobs := if how.Refused? then w.jobs else w.jobs[j := Job(pc.passes, pc.batch, pc.min)],
         flushers := if how.Inserted? then w.flushers - {f} else w.flushers[f := Unlocking(pc.passes)],
         owner := if how.Refused? then w.owner else Give(w.owner, pc.passes, JobOwns(j)))
    case UnlockOne(f, id) =>
      w.(rows := SetStatus(w.rows, id, PendingDigest),
         flushers := w.flushers[f := Unlocking(w.flushers[f].rest - {id})],
         owner := w.owner[id := Nobody])
    case FlusherEnds(f) => w.(flushers := w.flushers - {f})
    case Load(r, j) => w.(runs := w.runs[r := Loaded(j, Todo(w.rows, w.jobs[j].payload))])
    case Mail(r, result) =>
      var pc := w.runs[r];
      (match result
       case Delivered => w.(runs := w.runs[r := Marking(pc.job, pc.todo, true)], mailed := w.mailed + multiset(pc.todo))
       case Skip => w.(runs := w.runs[r := Marking(pc.job, pc.todo, false)])
       case Retryable => w.(runs := w.runs - {r})
       case Lost =>
         w.(runs := w.runs - {r}, mailed := w.mailed + multiset(pc.todo),
            interrupted := w.interrupted + multiset{pc.job}))
    case MarkOne(r, id) =>
      var pc := w.runs[r];
      w.(rows := SetStatus(w.rows, id, if pc.mailed then Sent else Skipped),
         runs := w.runs[r := pc.(todo := pc.todo - {id})])
    case RunEnds(r) =>
      var pc := w.runs[r];
      w.(runs := w.runs - {r},
         interrupted :=
           if pc.Marking? && pc.mailed && pc.todo != {} then w.interrupted + multiset{pc.job} else w.interrupted)
  }

  ghost function Apply(w: World, s: Step): World {
    if Enabled(w, s) then Effect(w, s) else w
  }

  ghost function Exec(w: World, steps: seq<Step>): World
    decreases |steps|
  {
    if steps == [] then w else Exec(Apply(w, steps[0]), steps[1..])
  }

  /** An insert that reports an error has inserted nothing. */
  predicate Honest(s: Step) {
    !(s.EnqueueJob? && s.how.ReplyLost?)
  }

  predicate AllHonest(steps: seq<Step>) {
    steps == [] || (Honest(steps[0]) && AllHonest(steps[1..]))
  }

  ghost predicate Init(w: World) {
    w == World(map[], map[], map[], map[], map[], multiset{}, multiset{}, {})
  }

  // ---- What a mark says ----

  /** A run marks `sent` after a mail that was delivered and `skipped` after one the channel declined; an
      error ends it without a mark. A flusher marks `skipped` what is below the minimum, and unlocks to
      `pending_digest`. */
  lemma MarkFollowsMail(w: World, s: Step)
    requires Enabled(w, s)
    ensures var w' := Apply(w, s);
      && (s.Mail? ==> w'.rows == w.rows && var pc := w.runs[s.r];
            match s.result
            case Delivered => s.r in w'.runs && w'.runs[s.r] == Marking(pc.job, pc.todo, true)
            case Skip => s.r in w'.runs && w'.runs[s.r] == Marking(pc.job, pc.todo, false)
            case _ => s.r !in w'.runs)
      && (s.MarkOne? ==> w'.rows == w.rows[s.id := w.rows[s.id].(status := if w.runs[s.r].mailed then Sent
          else Skipped)])
      && (s.SkipOne? && s.written ==> w'.rows == w.rows[s.id := w.rows[s.id].(status := Skipped)])
      && (s.UnlockOne? ==> w'.rows == w.rows[s.id := w.rows[s.id].(status := PendingDigest)])
  {}

  ghost predicate SentWereMailed(w: World) {
    && (forall id :: id in w.rows && w.rows[id].status.Sent? ==> id in w.mailed)
    && (forall r, id :: r in w.runs && BeingMarked(w.runs[r], id) ==> id in w.mailed)
  }

  /** Over every run, a delivery that is `sent` has been mailed. */
  lemma {:induction false} SentWasMailed(w: World, steps: seq<Step>)
    requires Init(w)
    ensures forall id :: id in Exec(w, steps).rows && Exec(w, steps).rows[id].status.Sent? ==>
              id in Exec(w, steps).mailed
  {
    RunKeepsSentMailed(w, steps);
  }

  lemma {:induction false} RunKeepsSentMailed(w: World, steps: seq<Step>)
    requires SentWereMailed(w)
    ensures SentWereMailed(Exec(w, steps))
    decreases |steps|
  {
    if steps != [] {
      StepKeepsSentMailed(w, steps[0]);
      RunKeepsSentMailed(Apply(w, steps[0]), steps[1..]);
    }
  }

  lemma StepKeepsSentMailed(w: World, s: Step)
    requires SentWereMailed(w)
    ensures SentWereMailed(Apply(w, s))
  {
    if Enabled(w, s) {
      var w' := Apply(w, s);
      MailedGrows(w, s);
      forall id | id in w'.rows && w'.rows[id].status.Sent? ensures id in w'.mailed {
        SentByMark(w, s, id);
      }
      forall r, id | r in w'.runs && BeingMarked(w'.runs[r], id) ensures id in w'.mailed {
        MarkedAfterMail(w, s, r, id);
      }
    }
  }

  lemma MailedGrows(w: World, s: Step)
    requires Enabled(w, s)
    ensures forall id :: id in w.mailed ==> id in Apply(w, s).mailed
  {}

  lemma SentByMark(w: World, s: Step, id: DeliveryId)
    requires Enabled(w, s) && id in Apply(w, s).rows && Apply(w, s).rows[id].status.Sent?
    ensures (id in w.rows && w.rows[id].status.Sent?)
            || (s.MarkOne? && s.id == id && s.r in w.runs && BeingMarked(w.runs[s.r], id))
  {}

  lemma MarkedAfterMail(w: World, s: Step, r: RunId, id: DeliveryId)
    requires SentWereMailed(w) && Enabled(w, s) && r in Apply(w, s).runs && BeingMarked(Apply(w, s).runs[r], id)
    ensures id in Apply(w, s).mailed
  {
    MailedGrows(w, s);
    MarkedSinceMail(w, s, r, id);
    if s.Mail? && s.r == r && s.result.Delivered? {
      assert id in multiset(w.runs[r].todo);
    }
  }

  lemma MarkedSinceMail(w: World, s: Step, r: RunId, id: DeliveryId)
    requires Enabled(w, s) && r in Apply(w, s).runs && BeingMarked(Apply(w, s).runs[r], id)
    ensures r in w.runs
    ensures BeingMarked(w.runs[r], id) || (s.Mail? && s.r == r && s.result.Delivered? && id in w.runs[r].todo)
  {}

  // ---- Every delivery has at most one owner ----

  ghost predicate OwnersKnown(w: World) {
    && w.owner.Keys == w.rows.Keys
    && forall id :: id in w.rows && w.rows[id].status.PendingDigest? ==> w.owner[id].Nobody?
  }

  ghost predicate HeldBy(w: World, f: FlusherId, id: DeliveryId) {
    id in w.rows && id in w.owner && w.rows[id].status.QueuedDigest? && w.owner[id] == FlusherOwns(f)
  }

  ghost predicate FlushersOwn(w: World) {
    && (forall f, id :: f in w.flushers && id in Held(w.flushers[f]) ==> HeldBy(w, f, id))
    && (forall f :: f in w.flushers && w.flushers[f].Filtered? ==> w.flushers[f].passes !! w.flushers[f].drops)
  }

  ghost predicate InJob(w: World, j: JobId, id: DeliveryId) {
    id in w.rows && id in w.owner && !w.rows[id].status.PendingDigest? && w.owner[id] == JobOwns(j)
  }

  ghost predicate JobsOwn(w: World) {
    forall j, id :: j in w.jobs && id in w.jobs[j].payload ==> InJob(w, j, id)
  }

  ghost predicate RunsOwn(w: World) {
    forall r :: r in w.runs ==> w.runs[r].job in w.jobs && w.runs[r].todo <= w.jobs[w.runs[r].job].payload
  }

  ghost predicate Owned(w: World) {
    OwnersKnown(w) && FlushersOwn(w) && JobsOwn(w) && RunsOwn(w)
  }

  /** Whose delivery a step changes. */
  lemma StepTouchesOwnDelivery(w: World, s: Step)
    requires Honest(s)
    requires Owned(w) && Enabled(w, s)
    ensures s.SkipOne? || s.UnlockOne? ==> HeldBy(w, s.f, s.id)
    ensures s.MarkOne? ==> InJob(w, w.runs[s.r].job, s.id)
    ensures s.EnqueueJob? ==> forall id :: id in w.flushers[s.f].passes ==> HeldBy(w, s.f, id)
    ensures s.Lock? ==> forall id :: id in s.ids ==> id in w.owner && w.owner[id].Nobody?
  {
    if s.SkipOne? || s.UnlockOne? {
      assert s.id in Held(w.flushers[s.f]);
    }
    if s.EnqueueJob? {
      assert forall id :: id in w.flushers[s.f].passes ==> id in Held(w.flushers[s.f]);
    }
  }

  lemma StepKeepsOwnersKnown(w: World, s: Step)
    requires Honest(s)
    requires Owned(w)
    ensures OwnersKnown(Apply(w, s))
  {
    if Enabled(w, s) {
      StepTouchesOwnDelivery(w, s);
    }
  }

  lemma StepKeepsFlushersOwn(w: World, s: Step)
    requires Honest(s)
    requires Owned(w)
    ensures FlushersOwn(Apply(w, s))
  {
    if Enabled(w, s) {
      StepTouchesOwnDelivery(w, s);
      var w' := Effect(w, s);
      forall f, id | f in w'.flushers && id in Held(w'.flushers[f]) ensures HeldBy(w', f, id) {
        if s.Lock? && f == s.f {
        } else {
          assert id in Held(w.flushers[f]);
          assert HeldBy(w, f, id);
        }
      }
    }
  }

  lemma StepKeepsJobsOwn(w: World, s: Step)
    requires Honest(s)
    requires Owned(w)
    ensures JobsOwn(Apply(w, s))
  {
    if Enabled(w, s) {
      StepTouchesOwnDelivery(w, s);
      var w' := Effect(w, s);
      forall j, id | j in w'.jobs && id in w'.jobs[j].payload ensures InJob(w', j, id) {
        if j in w.jobs {
          assert InJob(w, j, id);
        }
      }
    }
  }

  lemma StepKeepsRunsOwn(w: World, s: Step)
    requires Honest(s)
    requires Owned(w)
    ensures RunsOwn(Apply(w, s))
  {}

  lemma StepKeepsOwned(w: World, s: Step)
    requires Honest(s)
    requires Owned(w)
    ensures Owned(Apply(w, s))
  {
    StepKeepsOwnersKnown(w, s);
    StepKeepsFlushersOwn(w, s);
    StepKeepsJobsOwn(w, s);
    StepKeepsRunsOwn(w, s);
  }

  lemma {:induction false} RunKeepsOwned(w: World, steps: seq<Step>)
    requires AllHonest(steps)
    requires Owned(w)
    ensures Owned(Exec(w, steps))
    decreases |steps|
  {
    if steps != [] {
      StepKeepsOwned(w, steps[0]);
      RunKeepsOwned(Apply(w, steps[0]), steps[1..]);
    }
  }

  /** Over every run: no delivery is in the payloads of two digest jobs, or both in a payload
      and in the hands of a flusher, or in the hands of two flushers. */
  lemma {:induction false} PayloadsAreDisjoint(w: World, steps: seq<Step>)
    requires AllHonest(steps)
    requires Init(w)
    ensures var w' := Exec(w, steps);
            && (forall j, k :: j in w'.jobs && k in w'.jobs && j != k ==> w'.jobs[j].payload !! w'.jobs[k].payload)
            && (forall j, f :: j in w'.jobs && f in w'.flushers ==> w'.jobs[j].payload !! Held(w'.flushers[f]))
            && (forall f, g :: f in w'.flushers && g in w'.flushers && f != g ==>
                Held(w'.flushers[f]) !! Held(w'.flushers[g]))
  {
    RunKeepsOwned(w, steps);
    var w' := Exec(w, steps);
    forall j, id | j in w'.jobs && id in w'.jobs[j].payload ensures w'.owner[id] == JobOwns(j) {
      assert InJob(w', j, id);
    }
    forall f, id | f in w'.flushers && id in Held(w'.flushers[f]) ensures w'.owner[id] == FlusherOwns(f) {
      assert HeldBy(w', f, id);
    }
  }

  ghost predicate Overlapping(w: World) {
    exists j, k :: j in w.jobs && k in w.jobs && j != k && !(w.jobs[j].payload !! w.jobs[k].payload)
  }

  ghost predicate CanOverlap(w: World) {
    exists steps :: AllHonest(steps) && Overlapping(Exec(w, steps))
  }

  /** Honest inserts are needed, every one of them: after an enqueue of a digest a later run, itself
      honest, can put a delivery into two payloads if and only if the reply to that insert was lost. */
  lemma LostReplyOverlapsExactly(w: World, f: FlusherId, j: JobId, how: Insertion)
    requires Owned(w) && Enabled(w, EnqueueJob(f, j, how))
    ensures CanOverlap(Apply(w, EnqueueJob(f, j, how))) <==> how.ReplyLost?
  {
    var s := EnqueueJob(f, j, how);
    if how.ReplyLost? {
      var steps := OverlapAfterLostReply(w, f, j);
      assert AllHonest(steps) && Overlapping(Exec(Apply(w, s), steps));
    } else {
      forall steps | AllHonest(steps) ensures !Overlapping(Exec(Apply(w, s), steps)) {
        StepKeepsOwned(w, s);
        RunKeepsOwned(Apply(w, s), steps);
        OwnedIsDisjoint(Exec(Apply(w, s), steps));
      }
    }
  }

  lemma OwnedIsDisjoint(w: World)
    requires Owned(w)
    ensures !Overlapping(w)
  {
    forall j, id | j in w.jobs && id in w.jobs[j].payload ensures w.owner[id] == JobOwns(j) {
      assert InJob(w, j, id);
    }
  }

  /** The flusher unlocks what the job already carries, and another flusher enqueues it again. */
  lemma OverlapAfterLostReply(w: World, f: FlusherId, j: JobId) returns (steps: seq<Step>)
    requires Owned(w) && Enabled(w, EnqueueJob(f, j, ReplyLost))
    ensures AllHonest(steps) && Overlapping(Exec(Apply(w, EnqueueJob(f, j, ReplyLost)), steps))
  {
    var id :| id in w.flushers[f].passes;
    assert id in Held(w.flushers[f]) && HeldBy(w, f, id);
    var w0 := Apply(w, EnqueueJob(f, j, ReplyLost));
    assert w0.flushers[f] == Unlocking(w.flushers[f].passes) && id in w0.jobs[j].payload;
    steps := LockedAgain(w0, f, j, id);
  }

  lemma LockedAgain(w0: World, f: FlusherId, j: JobId, id: DeliveryId) returns (steps: seq<Step>)
    requires f in w0.flushers && w0.flushers[f].Unlocking? && id in w0.flushers[f].rest && id in w0.rows
    requires j in w0.jobs && id in w0.jobs[j].payload
    ensures AllHonest(steps) && Overlapping(Exec(w0, steps))
  {
    var g := Fresh(w0.flushers.Keys);
    var k := Fresh(w0.jobs.Keys);
    var unlock, lock := UnlockOne(f, id), Lock(g, w0.rows[id].user, w0.rows[id].channel, {id});
    var filter, enqueue := Filter(g, Info), EnqueueJob(g, k, Inserted);
    steps := [unlock] + ([lock] + ([filter] + ([enqueue] + [])));
    var w2 := Apply(Apply(w0, unlock), lock);
    FourSteps(w0, unlock, lock, filter, enqueue);
    LockedAlone(w2, g, k, id);
    var last := Exec(w0, steps);
    assert id in last.jobs[j].payload && id in last.jobs[k].payload;
  }

  /** A flusher that holds one delivery enqueues it, when the minimum severity is the lowest. */
  lemma LockedAlone(w: World, g: FlusherId, k: JobId, id: DeliveryId)
    requires g in w.flushers && w.flushers[g] == Locked({id}) && id in w.rows && k !in w.jobs
    ensures var w' := Apply(Apply(w, Filter(g, Info)), EnqueueJob(g, k, Inserted));
      k in w'.jobs && w'.jobs[k].payload == {id} && forall j :: j in w.jobs ==> j in w'.jobs && w'.jobs[j] == w.jobs[j]
  {
    assert Passing(w.rows, {id}, Info) == {id};
  }

  lemma FourSteps(w: World, a: Step, b: Step, c: Step, d: Step)
    ensures Exec(w, [a] + ([b] + ([c] + ([d] + [])))) == Apply(Apply(Apply(Apply(w, a), b), c), d)
    ensures AllHonest([a] + ([b] + ([c] + ([d] + [])))) <==> Honest(a) && Honest(b) && Honest(c) && Honest(d)
  {
    FirstStep(w, a, [b] + ([c] + ([d] + [])));
    var w1 := Apply(w, a);
    FirstStep(w1, b, [c] + ([d] + []));
    var w2 := Apply(w1, b);
    FirstStep(w2, c, [d] + []);
    FirstStep(Apply(w2, c), d, []);
  }

  lemma FirstStep(w: World, s: Step, rest: seq<Step>)
    ensures Exec(w, [s] + rest) == Exec(Apply(w, s), rest)
    ensures AllHonest([s] + rest) <==> Honest(s) && AllHonest(rest)
  {
    assert ([s] + rest)[1..] == rest;
  }

  // ---- A locked batch splits into what is queued and what is skipped ----

  /** Nobody will touch the delivery again; it is `skipped` unless that mark was lost. */
  ghost predicate SkippedForGood(w: World, id: DeliveryId) {
    && id in w.rows && id in w.owner && w.owner[id].Nobody?
    && (w.rows[id].status.Skipped? || (w.rows[id].status.QueuedDigest? && id in w.unmarked))
  }

  ghost predicate OneRecipient(w: World, batch: set<DeliveryId>) {
    && batch <= w.rows.Keys
    && forall a, b :: a in batch && b in batch ==>
         w.rows[a].user == w.rows[b].user && w.rows[a].channel == w.rows[b].channel
  }

  /** `queued` is what is left of the batch for its digest, `drops` is still to be skipped. */
  ghost predicate Splits(w: World, batch: set<DeliveryId>, queued: set<DeliveryId>, drops: set<DeliveryId>,
                         min: Severity) {
    && OneRecipient(w, batch)
    && queued == Passing(w.rows, batch, min)
    && drops <= batch - queued
    && forall id :: id in batch - queued - drops ==> SkippedForGood(w, id)
  }

  ghost predicate BatchesSplit(w: World) {
    && (forall f :: f in w.flushers && w.flushers[f].Locked? ==> OneRecipient(w, w.flushers[f].batch))
    && (forall f :: f in w.flushers && w.flushers[f].Filtered? ==>
          var pc := w.flushers[f]; Splits(w, pc.batch, pc.passes, pc.drops, pc.min))
    && (forall j :: j in w.jobs ==> Splits(w, w.jobs[j].batch, w.jobs[j].payload, {}, w.jobs[j].min))
  }

  /** What no step does to a delivery: change whom it is for or its severity, take it from a
      job, change it when nobody owns it and it is not pending, or reopen it within a job. */
  ghost predicate DeliveryKept(w: World, w': World, id: DeliveryId) {
    && id in w.rows && id in w'.rows && id in w.owner && id in w'.owner
    && w'.rows[id].(status := w.rows[id].status) == w.rows[id]
    && (w.owner[id].JobOwns? ==>
          w'.owner[id] == w.owner[id] && (w'.rows[id] == w.rows[id] || Final(w'.rows[id].status)))
    && (w.owner[id].Nobody? && !w.rows[id].status.PendingDigest? ==>
        w'.owner[id] == w.owner[id] && w'.rows[id] == w.rows[id])
  }

  ghost predicate DeliveriesKept(w: World, w': World) {
    w.unmarked <= w'.unmarked && forall id :: id in w.rows ==> DeliveryKept(w, w', id)
  }

  lemma StepKeepsDeliveries(w: World, s: Step)
    requires Honest(s)
    requires Owned(w)
    ensures DeliveriesKept(w, Apply(w, s))
  {
    if Enabled(w, s) {
      StepTouchesOwnDelivery(w, s);
    }
  }

  lemma SplitIsKept(w: World, w': World, batch: set<DeliveryId>, queued: set<DeliveryId>, drops: set<DeliveryId>,
                    min: Severity)
    requires DeliveriesKept(w, w') && Splits(w, batch, queued, drops, min)
    ensures Splits(w', batch, queued, drops, min)
  {
    RecipientIsKept(w, w', batch);
    forall id | id in batch ensures id in w'.rows && w'.rows[id].severity == w.rows[id].severity {
      assert DeliveryKept(w, w', id);
    }
    assert Passing(w'.rows, batch, min) == Passing(w.rows, batch, min);
    forall id | id in batch - queued - drops ensures SkippedForGood(w', id) {
      assert SkippedForGood(w, id) && DeliveryKept(w, w', id);
    }
  }

  lemma RecipientIsKept(w: World, w': World, batch: set<DeliveryId>)
    requires DeliveriesKept(w, w') && OneRecipient(w, batch)
    ensures OneRecipient(w', batch)
  {
    forall id | id in batch
      ensures id in w'.rows && w'.rows[id].user == w.rows[id].user && w'.rows[id].channel == w.rows[id].channel
    {
      assert DeliveryKept(w, w', id);
    }
  }

  lemma SkippingKeepsSplit(w: World, s: Step)
    requires Honest(s)
    requires Owned(w) && BatchesSplit(w) && s.SkipOne? && Enabled(w, s)
    ensures var pc := Effect(w, s).flushers[s.f]; Splits(Effect(w, s), pc.batch, pc.passes, pc.drops, pc.min)
  {
    var pc := w.flushers[s.f];
    StepTouchesOwnDelivery(w, s);
    StepKeepsDeliveries(w, s);
    var w' := Effect(w, s);
    SplitIsKept(w, w', pc.batch, pc.passes, pc.drops, pc.min);
    assert SkippedForGood(w', s.id);
  }

  lemma StepKeepsLockedBatches(w: World, s: Step)
    requires Honest(s)
    requires Owned(w) && BatchesSplit(w) && Enabled(w, s)
    ensures var w' := Effect(w, s);
            forall f :: f in w'.flushers && w'.flushers[f].Locked? ==> OneRecipient(w', w'.flushers[f].batch)
  {
    StepKeepsDeliveries(w, s);
    var w' := Effect(w, s);
    forall f | f in w'.flushers && w'.flushers[f].Locked? ensures OneRecipient(w', w'.flushers[f].batch) {
      if f in w.flushers {
        assert w'.flushers[f] == w.flushers[f];
        RecipientIsKept(w, w', w.flushers[f].batch);
      }
    }
  }

  lemma StepKeepsFilteredBatches(w: World, s: Step)
    requires Honest(s)
    requires Owned(w) && BatchesSplit(w) && Enabled(w, s)
    ensures var w' := Effect(w, s);
            forall f :: f in w'.flushers && w'.flushers[f].Filtered? ==>
              var pc := w'.flushers[f]; Splits(w', pc.batch, pc.passes, pc.drops, pc.min)
  {
    StepKeepsDeliveries(w, s);
    var w' := Effect(w, s);
    forall f | f in w'.flushers && w'.flushers[f].Filtered?
      ensures var pc := w'.flushers[f]; Splits(w', pc.batch, pc.passes, pc.drops, pc.min)
    {
      if s.SkipOne? && f == s.f {
        SkippingKeepsSplit(w, s);
      } else if s.Filter? && f == s.f {
        assert w'.rows == w.rows && OneRecipient(w, w.flushers[f].batch);
      } else {
        var pc := w.flushers[f];
        assert w'.flushers[f] == pc;
        SplitIsKept(w, w', pc.batch, pc.passes, pc.drops, pc.min);
      }
    }
  }

  lemma StepKeepsJobBatches(w: World, s: Step)
    requires Honest(s)
    requires Owned(w) && BatchesSplit(w) && Enabled(w, s)
    ensures var w' := Effect(w, s);
            forall j :: j in w'.jobs ==> Splits(w', w'.jobs[j].batch, w'.jobs[j].payload, {}, w'.jobs[j].min)
  {
    StepKeepsDeliveries(w, s);
    var w' := Effect(w, s);
    forall j | j in w'.jobs ensures Splits(w', w'.jobs[j].batch, w'.jobs[j].payload, {}, w'.jobs[j].min) {
      if j in w.jobs {
        assert w'.jobs[j] == w.jobs[j];
        SplitIsKept(w, w', w.jobs[j].batch, w.jobs[j].payload, {}, w.jobs[j].min);
      } else {
        var pc := w.flushers[s.f];
        SplitIsKept(w, w', pc.batch, pc.passes, pc.drops, pc.min);
      }
    }
  }

  lemma StepKeepsBatchesSplit(w: World, s: Step)
    requires Honest(s)
    requires Owned(w) && BatchesSplit(w)
    ensures BatchesSplit(Apply(w, s))
  {
    if Enabled(w, s) {
      StepKeepsLockedBatches(w, s);
      StepKeepsFilteredBatches(w, s);
      StepKeepsJobBatches(w, s);
    }
  }

  lemma {:induction false} RunKeepsBatchesSplit(w: World, steps: seq<Step>)
    requires AllHonest(steps)
    requires Owned(w) && BatchesSplit(w)
    ensures BatchesSplit(Exec(w, steps))
    decreases |steps|
  {
    if steps != [] {
      StepKeepsOwned(w, steps[0]);
      StepKeepsBatchesSplit(w, steps[0]);
      RunKeepsBatchesSplit(Apply(w, steps[0]), steps[1..]);
    }
  }

  /** Over every run: the batch from which a digest job was made is for one user and channel;
      the job carries exactly the deliveries that reach the minimum severity, and every other
      delivery of the batch is `skipped` and stays so, unless the write of that mark failed. */
  lemma {:induction false} BatchIsQueuedOrSkipped(w: World, steps: seq<Step>, j: JobId)
    requires AllHonest(steps)
    requires Init(w) && j in Exec(w, steps).jobs
    ensures var w' := Exec(w, steps); var job := w'.jobs[j];
            && OneRecipient(w', job.batch)
            && job.payload == Passing(w'.rows, job.batch, job.min)
            && (forall id :: id in job.batch - job.payload ==> SkippedForGood(w', id))
            && (forall id :: id in job.batch - job.payload && id !in w'.unmarked ==> w'.rows[id].status.Skipped?)
  {
    RunKeepsBatchesSplit(w, steps);
    var w' := Exec(w, steps);
    assert forall id :: id in w'.jobs[j].batch - w'.jobs[j].payload ==> SkippedForGood(w', id);
  }

  // ---- How often a delivery is mailed ----

  /** Two runs of one digest job never overlap: what the leases of the job queue provide. */
  ghost predicate Exclusive(w: World, steps: seq<Step>)
    decreases |steps|
  {
    steps == []
    || ((steps[0].Load? ==> forall r :: r in w.runs ==> w.runs[r].job != steps[0].j)
        && Exclusive(Apply(w, steps[0]), steps[1..]))
  }

  ghost predicate RunsExclusive(w: World) {
    && (forall r, s :: r in w.runs && s in w.runs && w.runs[r].job == w.runs[s].job ==> r == s)
    && (forall r, id :: r in w.runs && id in w.runs[r].todo ==> id in w.rows && !Final(w.rows[id].status))
  }

  predicate BeingMarked(pc: RunPc, id: DeliveryId) {
    pc.Marking? && pc.mailed && id in pc.todo
  }

  /** The count for one delivery of job `j`; a delivery that is not final and not just being
      marked has been mailed by interrupted runs only. */
  ghost predicate MailedBound(w: World, j: JobId, id: DeliveryId) {
    && id in w.rows && w.mailed[id] <= 1 + w.interrupted[j]
    && (!Final(w.rows[id].status) && (forall r :: r in w.runs && w.runs[r].job == j ==> !BeingMarked(w.runs[r], id)) ==>
          w.mailed[id] <= w.interrupted[j])
  }

  ghost predicate MailsBounded(w: World) {
    && (forall j, id :: j in w.jobs && id in w.jobs[j].payload ==> MailedBound(w, j, id))
    && (forall id :: id in w.mailed ==> id in w.owner && w.owner[id].JobOwns?)
  }

  ghost predicate MailInv(w: World) {
    Owned(w) && RunsExclusive(w) && MailsBounded(w)
  }

  /** How a step changes the runs: it can start one with the open part of its payload, and
      otherwise only shrinks what a run has to do or ends it. */
  ghost predicate RunsKept(w: World, w': World, s: Step) {
    forall r :: r in w'.runs ==>
      if s.Load? && r == s.r then
        r !in w.runs && s.j in w.jobs && w'.runs[r] == Loaded(s.j, Todo(w.rows, w.jobs[s.j].payload)) &&
            w'.rows == w.rows
      else
        && r in w.runs && w'.runs[r].job == w.runs[r].job && w'.runs[r].todo <= w.runs[r].todo
        && (s.MarkOne? && r == s.r ==> s.id !in w'.runs[r].todo)
  }

  /** Only a mark makes a delivery of a job final. */
  ghost predicate FinalByMark(w: World, w': World, s: Step) {
    forall id :: id in w.rows && id in w'.rows && id in w.owner && w.owner[id].JobOwns? && w'.rows[id] != w.rows[id] ==>
      s.MarkOne? && s.id == id && s.r in w.runs && w.runs[s.r].Marking? && id in w.runs[s.r].todo
  }

  lemma StepMovesRuns(w: World, s: Step)
    requires Honest(s)
    requires Owned(w) && Enabled(w, s)
    ensures RunsKept(w, Effect(w, s), s)
  {}

  lemma StepKeepsRuns(w: World, s: Step)
    requires Honest(s)
    requires Owned(w) && Enabled(w, s)
    ensures RunsKept(w, Effect(w, s), s) && FinalByMark(w, Effect(w, s), s)
  {
    StepMovesRuns(w, s);
    StepTouchesOwnDelivery(w, s);
  }

  lemma RunsStayExclusive(w: World, w': World, s: Step)
    requires Honest(s)
    requires Owned(w) && RunsExclusive(w) && RunsKept(w, w', s) && FinalByMark(w, w', s) && DeliveriesKept(w, w')
    requires s.Load? ==> forall r :: r in w.runs ==> w.runs[r].job != s.j
    ensures RunsExclusive(w')
  {
    forall r, id | r in w'.runs && id in w'.runs[r].todo ensures id in w'.rows && !Final(w'.rows[id].status) {
      if s.Load? && r == s.r {
      } else {
        assert id in w.runs[r].todo && id in w.jobs[w.runs[r].job].payload;
        assert InJob(w, w.runs[r].job, id) && DeliveryKept(w, w', id);
        forall q | q in w.runs && id in w.runs[q].todo ensures q == r {
          assert id in w.jobs[w.runs[q].job].payload && InJob(w, w.runs[q].job, id);
        }
        assert w'.rows[id] == w.rows[id];
      }
    }
  }

  /** The step sends a mail. */
  predicate Leaves(s: Step) {
    s.Mail? && (s.result.Delivered? || s.result.Lost?)
  }

  /** How a step changes the two counts. */
  ghost predicate CountsKept(w: World, w': World, s: Step) {
    MailsCounted(w, w', s) && InterruptionsCounted(w, w', s) && MarkingKept(w, w')
  }

  ghost predicate MailsCounted(w: World, w': World, s: Step) {
    && (Leaves(s) ==> s.r in w.runs && w.runs[s.r].Loaded?)
    && (forall id :: w'.mailed[id] == w.mailed[id] + (if Leaves(s) && id in w.runs[s.r].todo then 1 else 0))
    && (s.Mail? && s.result.Delivered? ==>
          s.r in w'.runs && w'.runs[s.r] == Marking(w.runs[s.r].job, w.runs[s.r].todo, true))
  }

  ghost predicate InterruptionsCounted(w: World, w': World, s: Step) {
    && (forall j :: w'.interrupted[j] >= w.interrupted[j])
    && (Leaves(s) && s.result.Lost? ==>
          s.r in w.runs && w'.interrupted[w.runs[s.r].job] == w.interrupted[w.runs[s.r].job] + 1)
  }

  /** A run that was marking either still is, or has marked the delivery, or is interrupted. */
  ghost predicate MarkingKept(w: World, w': World) {
    forall r, id :: r in w.runs && BeingMarked(w.runs[r], id) ==>
      || (r in w'.runs && w'.runs[r].job == w.runs[r].job && BeingMarked(w'.runs[r], id))
      || (id in w'.rows && Final(w'.rows[id].status))
      || w'.interrupted[w.runs[r].job] >= w.interrupted[w.runs[r].job] + 1
  }

  lemma StepCountsMails(w: World, s: Step)
    requires Honest(s)
    requires Enabled(w, s)
    ensures MailsCounted(w, Effect(w, s), s)
  {}

  lemma StepCountsInterruptions(w: World, s: Step)
    requires Honest(s)
    requires Enabled(w, s)
    ensures InterruptionsCounted(w, Effect(w, s), s)
  {}

  lemma StepKeepsMarking(w: World, s: Step)
    requires Honest(s)
    requires Owned(w) && Enabled(w, s)
    ensures MarkingKept(w, Effect(w, s))
  {}

  lemma StepKeepsCounts(w: World, s: Step)
    requires Honest(s)
    requires Owned(w) && Enabled(w, s)
    ensures CountsKept(w, Effect(w, s), s)
  {
    StepCountsMails(w, s);
    StepCountsInterruptions(w, s);
    StepKeepsMarking(w, s);
  }

  lemma MailedBoundIsKept(w: World, w': World, s: Step, j: JobId, id: DeliveryId)
    requires Honest(s)
    requires MailInv(w) && RunsKept(w, w', s) && CountsKept(w, w', s) && DeliveriesKept(w, w')
    requires j in w.jobs && id in w.jobs[j].payload
    ensures MailedBound(w', j, id)
  {
    assert InJob(w, j, id) && MailedBound(w, j, id) && DeliveryKept(w, w', id);
    if Leaves(s) && id in w.runs[s.r].todo {
      var pc := w.runs[s.r];
      assert id in w.jobs[pc.job].payload && InJob(w, pc.job, id);
      assert pc.job == j && (s.result.Delivered? ==> BeingMarked(w'.runs[s.r], id));
      forall r | r in w.runs && w.runs[r].job == j ensures !BeingMarked(w.runs[r], id) {
        assert r == s.r;
      }
    }
  }

  lemma StepKeepsMailInv(w: World, s: Step)
    requires Honest(s)
    requires MailInv(w) && Exclusive(w, [s])
    ensures MailInv(Apply(w, s))
  {
    StepKeepsOwned(w, s);
    if Enabled(w, s) {
      StepKeepsDeliveries(w, s);
      StepKeepsRuns(w, s);
      StepKeepsCounts(w, s);
      RunsStayExclusive(w, Effect(w, s), s);
      StepKeepsMailsBounded(w, Effect(w, s), s);
    }
  }

  ghost predicate JobsKept(w: World, w': World) {
    forall j :: j in w.jobs ==> j in w'.jobs && w'.jobs[j] == w.jobs[j]
  }

  lemma StepKeepsJobs(w: World, s: Step)
    requires Honest(s)
    requires Enabled(w, s)
    ensures JobsKept(w, Effect(w, s))
  {}

  lemma StepKeepsMailsBounded(w: World, w': World, s: Step)
    requires Honest(s)
    requires MailInv(w) && Owned(w') && Enabled(w, s) && w' == Effect(w, s)
    requires RunsKept(w, w', s) && CountsKept(w, w', s) && DeliveriesKept(w, w')
    ensures MailsBounded(w')
  {
    StepKeepsJobs(w, s);
    forall j, id | j in w'.jobs && j !in w.jobs && id in w'.jobs[j].payload ensures MailedBound(w', j, id) {
      NewJobIsUnmailed(w, w', s, j, id);
    }
    forall id | id in w'.mailed ensures id in w'.owner && w'.owner[id].JobOwns? {
      MailedIsOwned(w, w', s, id);
    }
    PayloadsStayBounded(w, w', s);
  }

  lemma PayloadsStayBounded(w: World, w': World, s: Step)
    requires Honest(s)
    requires MailInv(w) && RunsKept(w, w', s) && CountsKept(w, w', s) && DeliveriesKept(w, w') && JobsKept(w, w')
    ensures forall j, id :: j in w.jobs && id in w'.jobs[j].payload ==> MailedBound(w', j, id)
  {
    forall j, id | j in w.jobs && id in w'.jobs[j].payload ensures MailedBound(w', j, id) {
      MailedBoundIsKept(w, w', s, j, id);
    }
  }

  lemma NewJobIsUnmailed(w: World, w': World, s: Step, j: JobId, id: DeliveryId)
    requires Honest(s)
    requires MailInv(w) && Owned(w') && Enabled(w, s) && w' == Effect(w, s)
    requires j !in w.jobs && j in w'.jobs && id in w'.jobs[j].payload
    ensures MailedBound(w', j, id)
  {
    assert id in Held(w.flushers[s.f]) && HeldBy(w, s.f, id);
    assert id !in w.mailed && InJob(w', j, id);
  }

  lemma MailedIsOwned(w: World, w': World, s: Step, id: DeliveryId)
    requires Honest(s)
    requires MailInv(w) && Enabled(w, s) && w' == Effect(w, s) && DeliveriesKept(w, w') && id in w'.mailed
    ensures id in w'.owner && w'.owner[id].JobOwns?
  {
    if id !in w.mailed {
      assert id in w.jobs[w.runs[s.r].job].payload && InJob(w, w.runs[s.r].job, id);
    }
    assert DeliveryKept(w, w', id);
  }

  lemma {:induction false} RunKeepsMailInv(w: World, steps: seq<Step>)
    requires AllHonest(steps)
    requires MailInv(w) && Exclusive(w, steps)
    ensures MailInv(Exec(w, steps))
    decreases |steps|
  {
    if steps != [] {
      assert Exclusive(w, [steps[0]]);
      StepKeepsMailInv(w, steps[0]);
      RunKeepsMailInv(Apply(w, steps[0]), steps[1..]);
    }
  }

  /** Over every run in which the runs of one job do not overlap: a delivery is mailed at most
      once, plus once for every run of its job that ended between the mail and its last mark. */
  lemma {:induction false} MailedAtMostOnce(w: World, steps: seq<Step>, j: JobId, id: DeliveryId)
    requires AllHonest(steps)
    requires Init(w) && Exclusive(w, steps)
    requires j in Exec(w, steps).jobs && id in Exec(w, steps).jobs[j].payload
    ensures Exec(w, steps).mailed[id] <= 1 + Exec(w, steps).interrupted[j]
  {
    RunKeepsMailInv(w, steps);
    assert MailedBound(Exec(w, steps), j, id);
  }

  /** That runs of a job do not overlap is needed: two that do mail a delivery twice, and neither is
      interrupted. */
  lemma OverlappingRunsMailTwice(w: World, j: JobId, id: DeliveryId) returns (steps: seq<Step>)
    requires j in w.jobs && id in w.jobs[j].payload && id in w.rows && !Final(w.rows[id].status)
    ensures AllHonest(steps) && !Exclusive(w, steps)
    ensures Exec(w, steps).mailed[id] == w.mailed[id] + 2 && Exec(w, steps).interrupted == w.interrupted
  {
    var q := Fresh(w.runs.Keys);
    var r := Fresh(w.runs.Keys + {q});
    var first, second := Load(q, j), Load(r, j);
    var mail, again := Mail(q, Delivered), Mail(r, Delivered);
    steps := [first] + ([second] + ([mail] + ([again] + [])));
    FourSteps(w, first, second, mail, again);
    assert id in Todo(w.rows, w.jobs[j].payload);
    assert steps[1..][0] == second && Apply(w, first).runs[q].job == j;
  }

  /** A delivery that a run has finalized stays final and is never mailed again. */
  lemma {:induction false} FinalIsNeverMailedAgain(w: World, steps: seq<Step>, j: JobId, id: DeliveryId)
    requires AllHonest(steps)
    requires MailInv(w) && Exclusive(w, steps)
    requires j in w.jobs && id in w.jobs[j].payload && id in w.rows && Final(w.rows[id].status)
    ensures var w' := Exec(w, steps); id in w'.rows && Final(w'.rows[id].status) && w'.mailed[id] == w.mailed[id]
    decreases |steps|
  {
    if steps != [] {
      var s := steps[0];
      assert Exclusive(w, [s]);
      StepKeepsMailInv(w, s);
      FinalIsKept(w, s, j, id);
      FinalIsNeverMailedAgain(Apply(w, s), steps[1..], j, id);
    }
  }

  lemma FinalIsKept(w: World, s: Step, j: JobId, id: DeliveryId)
    requires Honest(s)
    requires MailInv(w) && j in w.jobs && id in w.jobs[j].payload && id in w.rows && Final(w.rows[id].status)
    ensures var w' := Apply(w, s);
            && j in w'.jobs && id in w'.jobs[j].payload && id in w'.rows && Final(w'.rows[id].status)
            && w'.mailed[id] == w.mailed[id]
  {
    if Enabled(w, s) {
      StepKeepsDeliveries(w, s);
      StepKeepsCounts(w, s);
      KeptIsFinal(w, Effect(w, s), s, j, id);
    }
  }

  lemma KeptIsFinal(w: World, w': World, s: Step, j: JobId, id: DeliveryId)
    requires Honest(s)
    requires MailInv(w) && j in w.jobs && id in w.jobs[j].payload && id in w.rows && Final(w.rows[id].status)
    requires DeliveriesKept(w, w') && CountsKept(w, w', s)
    ensures id in w'.rows && Final(w'.rows[id].status) && w'.mailed[id] == w.mailed[id]
  {
    assert InJob(w, j, id) && DeliveryKept(w, w', id);
  }
}
