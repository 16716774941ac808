/** Any number of workers and clients over the job table, interleaved at the grain of
    one SQL statement: what every run keeps with no assumption on leases, what more
    holds when each worker ends before its lease does, and what goes wrong otherwise. */
module JobProtocol {
  import opened Basics
  import opened JobQueue

  // A worker's attempt: the row as its claim returned it.
  datatype Held = Held(id: JobId, row: Job)

  // `claims` records every successful claim: the job and the attempt number it got.
  datatype World = World(now: int, rows: Table, runs: map<RunId, Held>, claims: seq<(JobId, nat)>)

  datatype Step =
    | Tick(dt: nat)
    | Insert(id: JobId, jobType: JobType, queue: string, priority: int, runAt: Option<int>, maxAttempts: int)
    | Claim(run: RunId, queue: string, locked: set<JobId>, id: JobId, ttl: nat)
    | Finish(run: RunId, outcome: Outcome)
    | Die(run: RunId)
    | CancelWaiting(id: JobId)

  ghost predicate Enabled(w: World, s: Step) {
    match s
    case Tick(_) => true
    case Insert(id, _, _, _, _, _) => id !in w.rows
    case Claim(run, queue, locked, id, _) =>
      run !in w.runs && Picked(w.rows, queue, locked, w.now, id) && w.rows[id].attempts < w.rows[id].maxAttempts
    case Finish(run, outcome) => run in w.runs && Reports(w.runs[run].row.jobType, outcome)
    case Die(run) => run in w.runs
    case CancelWaiting(id) =>
      id in w.rows && w.rows[id].jobType.SkuImport? && (w.rows[id].status.Pending? || w.rows[id].status.Retrying?)
  }

  function Effect(w: World, s: Step): World
    requires s.Claim? || s.CancelWaiting? ==> s.id in w.rows
    requires s.Finish? ==> s.run in w.runs
  {
    match s
    case Tick(dt) => w.(now := w.now + dt)
    case Insert(id, t, queue, priority, runAt, maxAttempts) =>
      w.(rows := w.rows[id := NewJob(t, queue, priority, runAt, maxAttempts, w.now)])
    case Claim(run, _, _, id, ttl) =>
      var row := ClaimedRow(w.rows[id], w.now, ttl);
      w.(rows := w.rows[id := row], runs := w.runs[run := Held(id, row)], claims := w.claims + [(id, row.attempts)])
    case Finish(run, outcome) =>
      var h := w.runs[run];
      w.(rows := Completed(w.rows, h.id, Decide(h.row.attempts, h.row.maxAttempts, outcome)), runs := w.runs - {run})
    case Die(run) => w.(runs := w.runs - {run})
    case CancelWaiting(id) => w.(rows := w.rows[id := w.rows[id].(status := Canceled)])
  }

  /** A step that the state does not allow, or that the database refuses, changes nothing. */
  ghost function Apply(w: World, s: Step): World {
    if Enabled(w, s) then Effect(w, s) else w
  }

  ghost function Exec(w: World, steps: seq<Step>): World
    decreases |steps|
  {
    if steps == [] then w else Exec(Apply(w, steps[0]), steps[1..])
  }

  ghost predicate Init(w: World) {
    w.rows == map[] && w.runs == map[] && w.claims == []
  }

  /** The attempt numbers handed out for one job, in order. */
  function AttemptsOf(claims: seq<(JobId, nat)>, id: JobId): seq<nat> {
    if claims == [] then [] else
      var before := AttemptsOf(claims[..|claims| - 1], id);
      var last := claims[|claims| - 1];
      if last.0 == id then before + [last.1] else before
  }

  function OneTo(n: nat): seq<nat> {
    seq(n, i requires 0 <= i => i + 1)
  }

  // ---- With no assumption on leases ----

  ghost predicate RunsKnown(w: World) {
    forall r :: r in w.runs ==>
      && w.runs[r].id in w.rows
      && var row, now := w.runs[r].row, w.rows[w.runs[r].id];
      && row.status.Running? && row.leaseExpires.Some?
      && row.jobType == now.jobType && row.maxAttempts == now.maxAttempts
      && 1 <= row.attempts <= now.attempts
  }

  ghost predicate AttemptsFresh(w: World) {
    forall r, s :: r in w.runs && s in w.runs && r != s && w.runs[r].id == w.runs[s].id ==>
      w.runs[r].row.attempts != w.runs[s].row.attempts
  }

  ghost predicate LogMatches(w: World) {
    && (forall id :: id in w.rows ==> AttemptsOf(w.claims, id) == OneTo(w.rows[id].attempts))
    && (forall id :: id !in w.rows ==> AttemptsOf(w.claims, id) == [])
  }

  ghost predicate Inv(w: World) {
    && (forall id :: id in w.rows ==> AttemptsCheck(w.rows[id]))
    && RunsKnown(w) && AttemptsFresh(w) && LogMatches(w)
  }

  lemma StepKeepsRunsKnown(w: World, s: Step)
    requires RunsKnown(w)
    ensures RunsKnown(Apply(w, s))
  {}

  lemma StepKeepsAttemptsFresh(w: World, s: Step)
    requires RunsKnown(w) && AttemptsFresh(w)
    ensures AttemptsFresh(Apply(w, s))
  {}

  lemma StepKeepsLog(w: World, s: Step)
    requires LogMatches(w)
    ensures LogMatches(Apply(w, s))
  {
    if s.Claim? && Enabled(w, s) {
      var w' := Apply(w, s);
      assert w'.claims[..|w'.claims| - 1] == w.claims;
      assert OneTo(w.rows[s.id].attempts + 1) == OneTo(w.rows[s.id].attempts) + [w.rows[s.id].attempts + 1];
      assert forall id :: id != s.id ==> AttemptsOf(w'.claims, id) == AttemptsOf(w.claims, id);
    } else if s.Insert? && Enabled(w, s) {
      assert OneTo(0) == [];
    }
  }

  lemma StepKeepsInv(w: World, s: Step)
    requires Inv(w)
    ensures Inv(Apply(w, s))
  {
    StepKeepsRunsKnown(w, s);
    StepKeepsAttemptsFresh(w, s);
    StepKeepsLog(w, s);
  }

  lemma {:induction false} RunKeepsInv(w: World, steps: seq<Step>)
    requires Inv(w)
    ensures Inv(Exec(w, steps))
    decreases |steps|
  {
    if steps != [] {
      StepKeepsInv(w, steps[0]);
      RunKeepsInv(Apply(w, steps[0]), steps[1..]);
    }
  }

  /** Over every run, whatever the leases: the claims of a job got the attempt numbers
      1, 2, 3, ... in this order, and there were at most `maxAttempts` of them, so
      `maxAttempts - attempts` counts down to the last claim. */
  lemma {:induction false} ClaimsAreNumbered(w: World, steps: seq<Step>, id: JobId)
    requires Init(w) && id in Exec(w, steps).rows
    ensures var w' := Exec(w, steps);
            && AttemptsOf(w'.claims, id) == OneTo(w'.rows[id].attempts)
            && |AttemptsOf(w'.claims, id)| <= w'.rows[id].maxAttempts
  {
    RunKeepsInv(w, steps);
  }

  /** Over every run, whatever the leases, a finished or cancelled job stays exactly as it is. */
  lemma {:induction false} TerminalIsAbsorbing(w: World, steps: seq<Step>, id: JobId)
    requires id in w.rows && Terminal(w.rows[id].status)
    ensures id in Exec(w, steps).rows && Exec(w, steps).rows[id] == w.rows[id]
    decreases |steps|
  {
    if steps != [] {
      TerminalIsAbsorbing(Apply(w, steps[0]), steps[1..], id);
    }
  }

  // ---- Which jobs can end ----

  /** A step makes a job terminal if and only if it cancels a waiting import, or completes a running
      job, other than for a retry, with a result. */
  lemma EndsExactly(w: World, s: Step, id: JobId)
    requires id in w.rows && !Terminal(w.rows[id].status)
    ensures Terminal(Apply(w, s).rows[id].status) <==>
            || (s.CancelWaiting? && s.id == id && Enabled(w, s))
            || (s.Finish? && Enabled(w, s) && w.runs[s.run].id == id && w.rows[id].status.Running?
                && var v := Decide(w.runs[s.run].row.attempts, w.runs[s.run].row.maxAttempts, s.outcome);
                   !v.Retry? && v.result.Some?)
  {}

  /** The step ends an attempt on this row, which is still running. */
  ghost predicate Ends(w: World, s: Step, id: JobId) {
    s.Finish? && Enabled(w, s) && w.runs[s.run].id == id && id in w.rows && w.rows[id].status.Running?
  }

  /** A job becomes `succeeded` exactly when an attempt on it reports that it is done, with a result;
      it becomes `failed` exactly by an error that is not repeated, or one of the last attempt, with a
      result; and the row keeps that result and nothing else of the attempt. */
  lemma OutcomeIsStored(w: World, s: Step, id: JobId)
    requires id in w.rows && !Terminal(w.rows[id].status)
    ensures var was, now := w.rows[id], Apply(w, s).rows[id];
      && (now.status.Succeeded? <==> Ends(w, s, id) && s.outcome.Done? && s.outcome.result.Some?)
      && (now.status.Failed? <==>
            && Ends(w, s, id) && (s.outcome.Fatal? || s.outcome.Error?) && s.outcome.result.Some?
            && (s.outcome.Error? ==> w.runs[s.run].row.attempts >= w.runs[s.run].row.maxAttempts))
      && (now.status.Succeeded? || now.status.Failed? ==>
            now == was.(status := now.status, leaseExpires := None, result := s.outcome.result.value))
  {}

  /** A running job is put back to wait exactly by an unsaved import or an error of an attempt that was
      not the last, at the time the worker gives, and without a lease. */
  lemma RetryIsStored(w: World, s: Step, id: JobId)
    requires id in w.rows && w.rows[id].status.Running?
    ensures var was, now := w.rows[id], Apply(w, s).rows[id];
      && (now.status.Retrying? <==>
            && Ends(w, s, id) && (s.outcome.Unsaved? || s.outcome.Error?)
            && (s.outcome.Error? ==> w.runs[s.run].row.attempts < w.runs[s.run].row.maxAttempts))
      && (now.status.Retrying? ==> now == was.(status := Retrying, runAt := s.outcome.retryAt, leaseExpires := None))
  {}

  ghost predicate OnlyImportsEnded(w: World) {
    forall id :: id in w.rows && Terminal(w.rows[id].status) ==> w.rows[id].jobType.SkuImport?
  }

  /** Over every run, no job but an import is ever succeeded, failed or cancelled: the worker gives
      no result for the others, and the table refuses their completion. */
  lemma {:induction false} OnlyImportsEnd(w: World, steps: seq<Step>)
    requires Init(w)
    ensures OnlyImportsEnded(Exec(w, steps))
  {
    RunKeepsOnlyImportsEnded(w, steps);
  }

  lemma {:induction false} RunKeepsOnlyImportsEnded(w: World, steps: seq<Step>)
    requires RunsKnown(w) && OnlyImportsEnded(w)
    ensures OnlyImportsEnded(Exec(w, steps))
    decreases |steps|
  {
    if steps != [] {
      StepKeepsRunsKnown(w, steps[0]);
      RunKeepsOnlyImportsEnded(Apply(w, steps[0]), steps[1..]);
    }
  }

  // ---- How a waiting row comes to have used up its attempts ----

  /** A waiting row with no attempts left. */
  ghost predicate Spent(w: World, id: JobId) {
    && id in w.rows && (w.rows[id].status.Pending? || w.rows[id].status.Retrying?)
    && w.rows[id].attempts >= w.rows[id].maxAttempts
  }

  /** The step sends back, for a retry, a row that runs at its last attempt. */
  ghost predicate Spends(w: World, s: Step, id: JobId) {
    && s.Finish? && Enabled(w, s) && w.runs[s.run].id == id && id in w.rows
    && w.rows[id].status.Running? && w.rows[id].attempts == w.rows[id].maxAttempts
    && Decide(w.runs[s.run].row.attempts, w.runs[s.run].row.maxAttempts, s.outcome).Retry?
  }

  /** A row comes to wait with no attempts left by exactly such a step. */
  lemma SpentExactly(w: World, s: Step, id: JobId)
    requires Inv(w) && !Spent(w, id)
    ensures Spent(Apply(w, s), id) <==> Spends(w, s, id)
  {}

  ghost predicate NoneEverSpent(w: World, steps: seq<Step>)
    decreases |steps|
  {
    (forall id :: !Spent(w, id)) && (steps == [] || NoneEverSpent(Apply(w, steps[0]), steps[1..]))
  }

  ghost predicate NoStepSpends(w: World, steps: seq<Step>)
    decreases |steps|
  {
    steps == [] || ((forall id :: !Spends(w, steps[0], id)) && NoStepSpends(Apply(w, steps[0]), steps[1..]))
  }

  /** Over every run: no row ever waits with no attempts left if and only if no completion sends
      a row at its last attempt back for a retry. */
  lemma {:induction false} NeverSpentExactly(w: World, steps: seq<Step>)
    requires Inv(w) && forall id :: !Spent(w, id)
    ensures NoneEverSpent(w, steps) <==> NoStepSpends(w, steps)
    decreases |steps|
  {
    if steps != [] {
      var s := steps[0];
      forall id ensures Spent(Apply(w, s), id) <==> Spends(w, s, id) {
        SpentExactly(w, s, id);
      }
      if forall id :: !Spends(w, s, id) {
        StepKeepsInv(w, s);
        NeverSpentExactly(Apply(w, s), steps[1..]);
      }
    }
  }

  // ---- When every worker finishes or dies before its lease expires ----

  /** Time passes only up to the earliest lease still in use. */
  ghost predicate WithinLeases(w: World, s: Step) {
    s.Tick? ==> forall r :: r in w.runs && w.runs[r].row.leaseExpires.Some? ==>
                  w.now + s.dt <= w.runs[r].row.leaseExpires.value
  }

  /** An import asks for an unconditional retry only while it has attempts left. */
  ghost predicate RetriesLeft(w: World, s: Step) {
    s.Finish? && s.outcome.Unsaved? && s.run in w.runs ==> w.runs[s.run].row.attempts < w.runs[s.run].row.maxAttempts
  }

  ghost predicate Disciplined(w: World, steps: seq<Step>)
    decreases |steps|
  {
    steps == [] || (WithinLeases(w, steps[0]) && RetriesLeft(w, steps[0]) &&
        Disciplined(Apply(w, steps[0]), steps[1..]))
  }

  ghost predicate LeaseHeld(w: World, h: Held) {
    && h.id in w.rows && w.rows[h.id].status.Running?
    && w.rows[h.id].attempts == h.row.attempts
    && w.rows[h.id].leaseExpires == h.row.leaseExpires
    && h.row.leaseExpires.Some? && w.now <= h.row.leaseExpires.value
  }

  ghost predicate LeaseInv(w: World) {
    && Inv(w)
    && (forall r :: r in w.runs ==> LeaseHeld(w, w.runs[r]))
    && (forall id :: !Spent(w, id))
  }

  lemma StepKeepsLeaseInv(w: World, s: Step)
    requires LeaseInv(w) && WithinLeases(w, s) && RetriesLeft(w, s)
    ensures LeaseInv(Apply(w, s))
  {
    StepKeepsInv(w, s);
    if Enabled(w, s) {
      var w' := Apply(w, s);
      forall r | r in w'.runs ensures LeaseHeld(w', w'.runs[r]) {
        StepKeepsLease(w, s, r);
      }
    }
    forall id ensures !Spent(Apply(w, s), id) {
      SpentExactly(w, s, id);
      DisciplineNeverSpends(w, s, id);
    }
  }

  /** A worker within its lease knows how many attempts the row has used. */
  lemma DisciplineNeverSpends(w: World, s: Step, id: JobId)
    requires LeaseInv(w) && RetriesLeft(w, s)
    ensures !Spends(w, s, id)
  {
    if s.Finish? && Enabled(w, s) {
      assert LeaseHeld(w, w.runs[s.run]);
    }
  }

  lemma StepKeepsLease(w: World, s: Step, r: RunId)
    requires LeaseInv(w) && WithinLeases(w, s) && Enabled(w, s) && r in Apply(w, s).runs
    ensures LeaseHeld(Apply(w, s), Apply(w, s).runs[r])
  {
    if r in w.runs {
      assert LeaseHeld(w, w.runs[r]);
      if s.Finish? {
        assert r != s.run && LeaseHeld(w, w.runs[s.run]);
      }
    }
  }

  lemma {:induction false} RunKeepsLeaseInv(w: World, steps: seq<Step>)
    requires LeaseInv(w) && Disciplined(w, steps)
    ensures LeaseInv(Exec(w, steps))
    decreases |steps|
  {
    if steps != [] {
      StepKeepsLeaseInv(w, steps[0]);
      RunKeepsLeaseInv(Apply(w, steps[0]), steps[1..]);
    }
  }

  /** Over every disciplined run: no two workers hold the same job, and no claimable row
      has used up its attempts, so the claim never meets the table's constraint. */
  lemma {:induction false} LeasesAreExclusive(w: World, steps: seq<Step>)
    requires Init(w) && Disciplined(w, steps)
    ensures var w' := Exec(w, steps);
            && (forall r, s :: r in w'.runs && s in w'.runs && w'.runs[r].id == w'.runs[s].id ==> r == s)
            && (forall id, queue :: id in w'.rows && Claimable(w'.rows[id], queue, w'.now) ==>
                                      w'.rows[id].attempts < w'.rows[id].maxAttempts)
  {
    RunKeepsLeaseInv(w, steps);
    var w' := Exec(w, steps);
    forall r, s | r in w'.runs && s in w'.runs && w'.runs[r].id == w'.runs[s].id ensures r == s {
      assert LeaseHeld(w', w'.runs[r]) && LeaseHeld(w', w'.runs[s]);
    }
    forall id, queue | id in w'.rows && Claimable(w'.rows[id], queue, w'.now)
      ensures w'.rows[id].attempts < w'.rows[id].maxAttempts
    {
      assert !Spent(w', id);
    }
  }

  // ---- What can go wrong ----

  /** A job that reached its last attempt and whose worker is gone. */
  ghost predicate Orphaned(w: World, id: JobId) {
    && id in w.rows && w.rows[id].status.Running? && w.rows[id].attempts == w.rows[id].maxAttempts
    && forall r :: r in w.runs ==> w.runs[r].id != id
  }

  /** Such a job stays `running` for ever: no claim, completion or cancellation reaches it. */
  lemma {:induction false} OrphanNeverEnds(w: World, steps: seq<Step>, id: JobId)
    requires Orphaned(w, id)
    ensures Orphaned(Exec(w, steps), id) && Exec(w, steps).rows[id] == w.rows[id]
    decreases |steps|
  {
    if steps != [] {
      OrphanNeverEnds(Apply(w, steps[0]), steps[1..], id);
    }
  }

  /** And it is exactly the last attempt that orphans: a job whose worker is gone can change again if
      and only if it has attempts left. */
  lemma OrphanExactly(w: World, id: JobId)
    requires id in w.rows && AttemptsCheck(w.rows[id]) && w.rows[id].status.Running? && w.rows[id].leaseExpires.Some?
    requires forall r :: r in w.runs ==> w.runs[r].id != id
    ensures (exists steps :: id in Exec(w, steps).rows && Exec(w, steps).rows[id] != w.rows[id])
            <==> w.rows[id].attempts < w.rows[id].maxAttempts
  {
    if w.rows[id].attempts < w.rows[id].maxAttempts {
      var steps := Reclaim(w, id);
    } else {
      forall steps ensures id in Exec(w, steps).rows && Exec(w, steps).rows[id] == w.rows[id] {
        OrphanNeverEnds(w, steps, id);
      }
    }
  }

  /** The lease expires, and a worker claims the job while other statements hold the rest. */
  lemma Reclaim(w: World, id: JobId) returns (steps: seq<Step>)
    requires id in w.rows && w.rows[id].status.Running? && w.rows[id].leaseExpires.Some?
    requires w.rows[id].attempts < w.rows[id].maxAttempts
    ensures id in Exec(w, steps).rows && Exec(w, steps).rows[id].attempts == w.rows[id].attempts + 1
  {
    var expires := w.rows[id].leaseExpires.value;
    var wait: nat := if expires < w.now then 0 else expires - w.now + 1;
    var run := Fresh(w.runs.Keys);
    var tick, claim := Tick(wait), Claim(run, w.rows[id].queue, w.rows.Keys - {id}, id, 0);
    steps := [tick] + ([claim] + []);
    var w1 := Apply(w, tick);
    assert Enabled(w1, claim);
    ExecStep(w1, claim, []);
    ExecStep(w, tick, [claim] + []);
  }

  /** A due row with no attempts left that comes first in its queue. */
  ghost predicate PoisonedHead(w: World, queue: string, id: JobId) {
    && Spent(w, id) && w.rows[id].queue == queue && w.rows[id].runAt <= w.now
    && forall other :: other in w.rows && other != id && w.rows[other].queue == queue ==>
        Precedes(w.rows[id], w.rows[other])
  }

  /** Then workers that poll the queue get no job at all, however long they go on, as long as none
      polls while another statement holds the row. */
  lemma {:induction false} PoisonedHeadStarvesQueue(w: World, steps: seq<Step>, queue: string, id: JobId)
    requires PoisonedHead(w, queue, id)
    requires forall i :: 0 <= i < |steps| ==>
               steps[i].Tick? || (steps[i].Claim? && steps[i].queue == queue && id !in steps[i].locked)
    ensures Exec(w, steps).rows == w.rows && Exec(w, steps).runs == w.runs
    decreases |steps|
  {
    if steps != [] {
      var s := steps[0];
      if s.Claim? && Enabled(w, s) {
        assert Claimable(w.rows[id], queue, w.now);
        assert false;
      }
      PoisonedHeadStarvesQueue(Apply(w, s), steps[1..], queue, id);
    }
  }

  /** Exactly then: a poll gets a job from the queue if and only if another statement, such as
      another poll that is failing on it, holds the head and some other row can be claimed. */
  lemma LockedHeadIsSkipped(w: World, queue: string, id: JobId, run: RunId, locked: set<JobId>, ttl: nat)
    requires Inv(w) && PoisonedHead(w, queue, id) && run !in w.runs
    requires forall other :: other != id ==> !Spent(w, other)
    ensures (exists c :: Enabled(w, Claim(run, queue, locked, c, ttl)))
            <==> id in locked && exists c :: c in w.rows && c !in locked && Claimable(w.rows[c], queue, w.now)
  {
    assert Claimable(w.rows[id], queue, w.now);
    if id in locked {
      var candidates := set c | c in w.rows && c !in locked && Claimable(w.rows[c], queue, w.now);
      assert forall c :: c in w.rows && c !in locked && Claimable(w.rows[c], queue, w.now) ==> c in candidates;
      if candidates != {} {
        FirstExists(w.rows, candidates);
        var c :| c in candidates && forall other :: other in candidates ==> !Precedes(w.rows[other], w.rows[c]);
        assert Picked(w.rows, queue, locked, w.now, c) && !Spent(w, c);
        assert Enabled(w, Claim(run, queue, locked, c, ttl));
      }
      if c :| Enabled(w, Claim(run, queue, locked, c, ttl)) {
        assert c in w.rows && c !in locked && Claimable(w.rows[c], queue, w.now);
      }
    }
  }

  // The run in which a worker outlives its lease: the state after each of its five steps.
  function OverrunWorld(n: nat): World {
    var row0 := NewJob(PriceDispatch, "", 100, None, 2, 0);
    var row1 := ClaimedRow(row0, 0, 300);
    var row2 := ClaimedRow(row1, 301, 300);
    var first, second := Held(7, row1), Held(7, row2);
    if n == 0 then World(0, map[], map[], [])
    else if n == 1 then World(0, map[7 := row0], map[], [])
    else if n == 2 then World(0, map[7 := row1], map[1 := first], [(7, 1)])
    else if n == 3 then World(301, map[7 := row1], map[1 := first], [(7, 1)])
    else if n == 4 then World(301, map[7 := row2], map[1 := first, 2 := second], [(7, 1), (7, 2)])
    else World(301, map[7 := FinishedRow(row2, Retry(0))], map[2 := second], [(7, 1), (7, 2)])
  }

  function OverrunStep(n: nat): Step {
    if n == 0 then Insert(7, PriceDispatch, "", 100, None, 2)
    else if n == 1 then Claim(1, "default", {}, 7, 300)
    else if n == 2 then Tick(301)
    else if n == 3 then Claim(2, "default", {}, 7, 300)
    else Finish(1, Error(0, None))
  }

  lemma OverrunApplies(n: nat)
    requires n < 5
    ensures Apply(OverrunWorld(n), OverrunStep(n)) == OverrunWorld(n + 1)
  {
    if n == 1 || n == 3 {
      OnlyRowIsPicked(OverrunWorld(n), "default", 7);
    }
  }

  function OverrunFrom(n: nat): seq<Step>
    requires n <= 5
    decreases 5 - n
  {
    if n == 5 then [] else [OverrunStep(n)] + OverrunFrom(n + 1)
  }

  lemma {:induction false} OverrunExec(n: nat)
    requires n <= 5
    ensures Exec(OverrunWorld(n), OverrunFrom(n)) == OverrunWorld(5)
    ensures n <= 2 ==> !Disciplined(OverrunWorld(n), OverrunFrom(n))
    decreases 5 - n
  {
    if n < 5 {
      OverrunExec(n + 1);
      OverrunApplies(n);
      ExecStep(OverrunWorld(n), OverrunStep(n), OverrunFrom(n + 1));
      assert OverrunFrom(n)[1..] == OverrunFrom(n + 1);
      assert n == 2 ==> 1 in OverrunWorld(n).runs;
    }
  }

  /** One worker outliving its lease is enough: it asks for a retry with the attempt number
      it was given, after another worker has taken the last attempt. */
  lemma OverrunPoisonsQueue() returns (w: World, steps: seq<Step>, id: JobId)
    ensures Init(w) && !Disciplined(w, steps)
    ensures PoisonedHead(Exec(w, steps), "default", id)
    ensures Exec(w, steps).rows[id].jobType.PriceDispatch?
  {
    w, steps, id := OverrunWorld(0), OverrunFrom(0), 7;
    OverrunExec(0);
  }

  lemma OnlyRowIsPicked(w: World, queue: string, id: JobId)
    requires w.rows.Keys == {id} && Claimable(w.rows[id], queue, w.now)
    ensures Picked(w.rows, queue, {}, w.now, id)
  {}

  /** So is an import whose result cannot be stored at its last attempt, with no lease overrun. */
  lemma UnsavedImportPoisonsQueue() returns (w: World, steps: seq<Step>, id: JobId)
    ensures Init(w)
    ensures PoisonedHead(Exec(w, steps), "default", id)
    ensures forall i :: 0 <= i < |steps| ==> !steps[i].Tick?
  {
    w, id := World(0, map[], map[], []), 7;
    var insert, first := Insert(id, SkuImport, "default", 0, None, 1), Claim(1, "default", {}, id, 300);
    var last := Finish(1, Unsaved(0));
    steps := [insert] + ([first] + ([last] + []));
    var w1 := Apply(w, insert);
    assert Picked(w1.rows, "default", {}, w1.now, id);
    var w2 := Apply(w1, first);
    ExecStep(w2, last, []);
    ExecStep(w1, first, [last]);
    ExecStep(w, insert, [first, last]);
  }

  lemma ExecStep(w: World, s: Step, rest: seq<Step>)
    ensures Exec(w, [s] + rest) == Exec(Apply(w, s), rest)
  {
    assert ([s] + rest)[1..] == rest;
  }
}
