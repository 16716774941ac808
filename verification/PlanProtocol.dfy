/** One price plan that any number of clients try to enqueue for dispatch, cancel, or clean up,
    and that attempts of its dispatch job work on, interleaved one statement at a time. */
module PlanProtocol {
  import opened Basics

  datatype PlanStatus =
    | Waiting      // 'pending'
    | Processing
    | Calculated
    | Dispatching
    | Applied
    | Partial
    | FailedPlan
    | Cancelled

  predicate IsTerminalPlanStatus(s: PlanStatus) {
    s.Applied? || s.Partial? || s.FailedPlan? || s.Cancelled?
  }

  type ClientId = nat
  type WorkerId = nat

  // Where a caller of EnqueueDispatch or Cancel stands between two statements.
  datatype Pc =
    | AtTransition             // read `calculated`, about to compare-and-set
    | AtInsert                 // won the compare-and-set, about to insert the job
    | AtRollback               // the insert failed, about to undo the compare-and-set
    | AtCancel                 // read a non-terminal status, about to write `cancelled`

  // Where an attempt of a dispatch job stands.
  datatype Attempt =
    | Begun                    // claimed, has not read the plan
    | Reading                  // read a status that is not terminal, has not listed the items
    | Sending                  // listed pending items, has chunks to send
    | Finishing                // about to count the items and finalize the plan
    | Exhausting               // failed as the last attempt, about to fail the pending items

  // Of the items: is any dispatched, failed, pending?
  datatype Tally = Tally(sent: bool, failed: bool, pending: bool)

  // `jobs` counts the dispatch jobs inserted for the plan, `live` those not yet completed.
  datatype World = World(
    status: PlanStatus, jobs: nat, live: nat, clients: map<ClientId, Pc>, workers: map<WorkerId, Attempt>, tally: Tally)

  datatype Insertion = Inserted | Refused | InsertedButReportedLost

  datatype Step =
    | ReadForEnqueue(c: ClientId)
    | Transition(c: ClientId)
    | Insert(c: ClientId, how: Insertion)
    | Rollback(c: ClientId)
    | ReadForCancel(c: ClientId)
    | WriteCancelled(c: ClientId)
    | Vanish(c: ClientId)              // the process of a client dies
    | CleanUpStale
    | Begin(r: WorkerId)
    | ReadPlan(r: WorkerId)
    | MarkDispatching(r: WorkerId)     // compare-and-set at the start of an attempt
    | ListItems(r: WorkerId)
    | Work(r: WorkerId, tally: Tally)  // a call, and the marks of its items
    | LoopEnds(r: WorkerId)
    | Refuse(r: WorkerId)              // unauthorized: unconditional write of `failed`
    | Exhaust(r: WorkerId)             // the last attempt fails with an error
    | FailPending(r: WorkerId, all: bool)
    | Finalize(r: WorkerId)            // unconditional write, unless items are pending
    | Leave(r: WorkerId)               // the attempt ends, or its process dies
    | CompleteJob(r: WorkerId)

  predicate Enabled(w: World, s: Step) {
    match s
    case ReadForEnqueue(c) => c !in w.clients
    case ReadForCancel(c) => c !in w.clients
    case Transition(c) => c in w.clients && w.clients[c].AtTransition?
    case Insert(c, _) => c in w.clients && w.clients[c].AtInsert?
    case Rollback(c) => c in w.clients && w.clients[c].AtRollback?
    case WriteCancelled(c) => c in w.clients && w.clients[c].AtCancel?
    case Vanish(c) => c in w.clients
    case CleanUpStale => true
    case Begin(r) => r !in w.workers && w.live > 0
    case ReadPlan(r) => r in w.workers && w.workers[r].Begun?
    case MarkDispatching(r) => r in w.workers && w.workers[r].Reading?
    case ListItems(r) => r in w.workers && w.workers[r].Reading?
    case Work(r, _) => r in w.workers && w.workers[r].Sending?
    case LoopEnds(r) => r in w.workers && w.workers[r].Sending?
    case Refuse(r) => r in w.workers && w.workers[r].Sending?
    case Exhaust(r) => r in w.workers
    case FailPending(r, _) => r in w.workers && w.workers[r].Exhausting?
    case Finalize(r) => r in w.workers && (w.workers[r].Finishing? || w.workers[r].Exhausting?)
    case Leave(r) => r in w.workers
    case CompleteJob(r) => r in w.workers && w.live > 0
  }

  function FinalStatus(dispatched: bool, failed: bool): PlanStatus {
    if dispatched && failed then Partial
    else if dispatched then Applied
    else if failed then FailedPlan
    else Applied
  }

  /** `UPDATE ... WHERE status = from`. */
  function CompareAndSet(s: PlanStatus, from: PlanStatus, to: PlanStatus): PlanStatus {
    if s == from then to else s
  }

  function Apply(w: World, s: Step): World {
    if !Enabled(w, s) then w else
      match s
      case ReadForEnqueue(c) =>
        if w.status.Calculated? then w.(clients := w.clients[c := AtTransition]) else w
      case Transition(c) =>
        if w.status.Calculated? then
          w.(status := CompareAndSet(w.status, Calculated, Dispatching), clients := w.clients[c := AtInsert])
        else w.(clients := w.clients - {c})
      case Insert(c, how) =>
        (match how
         case Inserted => w.(jobs := w.jobs + 1, live := w.live + 1, clients := w.clients - {c})
         case Refused => w.(clients := w.clients[c := AtRollback])
         case InsertedButReportedLost => w.(jobs := w.jobs + 1, live := w.live
             + 1, clients := w.clients[c := AtRollback]))
      case Rollback(c) =>
        w.(status := CompareAndSet(w.status, Dispatching, Calculated), clients := w.clients - {c})
      case ReadForCancel(c) =>
        if IsTerminalPlanStatus(w.status) then w else w.(clients := w.clients[c := AtCancel])
      case WriteCancelled(c) => w.(status := Cancelled, clients := w.clients - {c})
      case Vanish(c) => w.(clients := w.clients - {c})
      case CleanUpStale =>
        if w.status.Waiting? || w.status.Processing? || w.status.Dispatching? then w.(status := Cancelled) else w
      case Begin(r) => w.(workers := w.workers[r := Begun])
      case ReadPlan(r) =>
        w.(workers := if IsTerminalPlanStatus(w.status) then w.workers - {r} else w.workers[r := Reading])
      case MarkDispatching(r) => w.(status := CompareAndSet(w.status, Calculated, Dispatching))
      case ListItems(r) => w.(workers := w.workers[r := if w.tally.pending then Sending else Finishing])
      case Work(r, tally) => w.(tally := tally)
      case LoopEnds(r) => w.(workers := w.workers[r := Finishing])
      case Refuse(r) => w.(status := FailedPlan, workers := w.workers - {r})
      case Exhaust(r) => w.(workers := w.workers[r := Exhausting])
      case FailPending(r, all) =>
        w.(tally := Tally(w.tally.sent, w.tally.failed || w.tally.pending, w.tally.pending && !all))
      case Finalize(r) =>
        w.(status := if w.tally.pending then w.status else FinalStatus(w.tally.sent, w.tally.failed),
           workers := w.workers - {r})
      case Leave(r) => w.(workers := w.workers - {r})
      case CompleteJob(r) => w.(workers := w.workers - {r}, live := w.live - 1)
  }

  /** Every way the status of a plan can change: a client's compare-and-set and its rollback, a
      cancellation, the clean-up, the compare-and-set of an attempt, a refusal, and a finalization. */
  lemma StatusChangesSpelledOut(w: World, s: Step)
    requires Apply(w, s).status != w.status
    ensures Enabled(w, s)
    ensures var was, now, t := w.status, Apply(w, s).status, w.tally;
      match s
      case Transition(_) => was.Calculated? && now.Dispatching?
      case Rollback(_) => was.Dispatching? && now.Calculated?
      case WriteCancelled(_) => now.Cancelled?
      case CleanUpStale => (was.Waiting? || was.Processing? || was.Dispatching?) && now.Cancelled?
      case MarkDispatching(_) => was.Calculated? && now.Dispatching?
      case Refuse(_) => now.FailedPlan?
      case Finalize(_) =>
        !t.pending && if !t.failed then now.Applied? else if t.sent then now.Partial? else now.FailedPlan?
      case _ => false
  {}

  /** And when it must: the writes take effect, and a cancellation is refused for a terminal plan only. */
  lemma WritesTakeEffect(w: World, s: Step)
    requires Enabled(w, s)
    ensures s.WriteCancelled? ==> Apply(w, s).status.Cancelled?
    ensures s.Refuse? ==> Apply(w, s).status.FailedPlan?
    ensures s.CleanUpStale? && (w.status.Waiting? || w.status.Processing? || w.status.Dispatching?) ==>
              Apply(w, s).status.Cancelled?
    ensures s.ReadForCancel? ==>
              (s.c !in Apply(w, s).clients <==>
               w.status.Applied? || w.status.Partial? || w.status.FailedPlan? || w.status.Cancelled?)
    ensures s.ReadForEnqueue? ==> (s.c in Apply(w, s).clients <==> w.status.Calculated?)
  {}

  function Exec(w: World, steps: seq<Step>): World
    decreases |steps|
  {
    if steps == [] then w else Exec(Apply(w, steps[0]), steps[1..])
  }

  /** The recalculation of the plan has ended and nobody has touched the plan since. */
  ghost predicate Init(w: World) {
    w.status.Calculated? && w.jobs == w.live == 0 && w.clients == map[] && w.workers == map[]
  }

  /** An insert that reports an error has inserted nothing. */
  ghost predicate InsertErrorsAreHonest(steps: seq<Step>) {
    forall i :: 0 <= i < |steps| ==> !(steps[i].Insert? && steps[i].how.InsertedButReportedLost?)
  }

  predicate OwnsPlan(p: Pc) {
    p.AtInsert? || p.AtRollback?
  }

  /** The right to enqueue is one token: the plan has it while `calculated`, then one
      client between its compare-and-set and its insert or rollback, then the job. */
  ghost predicate OneToken(w: World) {
    && w.jobs <= 1
    && (forall c, d :: c in w.clients && d in w.clients && OwnsPlan(w.clients[c]) && OwnsPlan(w.clients[d]) ==> c == d)
    && (w.jobs == 1 || w.status.Calculated? ==> forall c :: c in w.clients ==> !OwnsPlan(w.clients[c]))
    && (w.jobs == 1 ==> !w.status.Calculated?)
  }

  lemma StepKeepsOneToken(w: World, s: Step)
    requires OneToken(w) && InsertErrorsAreHonest([s])
    ensures OneToken(Apply(w, s))
    ensures w.jobs <= Apply(w, s).jobs
  {
    assert !([s][0].Insert? && [s][0].how.InsertedButReportedLost?);
  }

  lemma {:induction false} RunKeepsOneToken(w: World, steps: seq<Step>)
    requires OneToken(w) && InsertErrorsAreHonest(steps)
    ensures OneToken(Exec(w, steps)) && w.jobs <= Exec(w, steps).jobs
    decreases |steps|
  {
    if steps != [] {
      assert InsertErrorsAreHonest([steps[0]]) by {
        assert !(steps[0].Insert? && steps[0].how.InsertedButReportedLost?);
      }
      StepKeepsOneToken(w, steps[0]);
      RunKeepsOneToken(Apply(w, steps[0]), steps[1..]);
    }
  }

  lemma {:induction false} ExecSplits(w: World, first: seq<Step>, second: seq<Step>)
    ensures Exec(w, first + second) == Exec(Exec(w, first), second)
    decreases |first|
  {
    if first == [] {
      assert first + second == second;
    } else {
      assert (first + second)[1..] == first[1..] + second;
      ExecSplits(Apply(w, first[0]), first[1..], second);
    }
  }

  /** Under every interleaving: at most one dispatch job, and from the moment it exists
      the plan is never `calculated` again. */
  lemma {:induction false} AtMostOneDispatchJob(w: World, before: seq<Step>, after: seq<Step>)
    requires Init(w) && InsertErrorsAreHonest(before + after)
    ensures Exec(w, before + after).jobs <= 1
    ensures Exec(w, before).jobs == 1 ==> !Exec(w, before + after).status.Calculated?
  {
    assert InsertErrorsAreHonest(before) by {
      forall i | 0 <= i < |before| ensures !(before[i].Insert? && before[i].how.InsertedButReportedLost?) {
        assert before[i] == (before + after)[i];
      }
    }
    assert InsertErrorsAreHonest(after) by {
      forall i | 0 <= i < |after| ensures !(after[i].Insert? && after[i].how.InsertedButReportedLost?) {
        assert after[i] == (before + after)[|before| + i];
      }
    }
    RunKeepsOneToken(w, before);
    RunKeepsOneToken(Exec(w, before), after);
    ExecSplits(w, before, after);
  }

  // ---- When the reply to the insert can be lost ----

  /** A client can still insert a job: one is about to, or the plan is `calculated`, or a rollback
      can make it so. */
  ghost predicate Reopenable(w: World) {
    || w.status.Calculated?
    || (exists c :: c in w.clients && w.clients[c].AtInsert?)
    || (w.status.Dispatching? && exists c :: c in w.clients && w.clients[c].AtRollback?)
  }

  /** The assumption is needed, and exactly where: however many jobs there are, another one can follow
      if and only if the plan can still be opened. */
  lemma AnotherJobExactly(w: World)
    ensures (exists steps :: Exec(w, steps).jobs > w.jobs) <==> Reopenable(w)
  {
    if Reopenable(w) {
      var steps := AnotherJob(w);
    } else {
      forall steps ensures Exec(w, steps).jobs == w.jobs {
        StaysClosed(w, steps);
      }
    }
  }

  lemma {:induction false} StaysClosed(w: World, steps: seq<Step>)
    requires !Reopenable(w)
    ensures Exec(w, steps).jobs == w.jobs
    decreases |steps|
  {
    if steps != [] {
      StaysClosed(Apply(w, steps[0]), steps[1..]);
    }
  }

  lemma AnotherJob(w: World) returns (steps: seq<Step>)
    requires Reopenable(w)
    ensures Exec(w, steps).jobs == w.jobs + 1
  {
    if c :| c in w.clients && w.clients[c].AtInsert? {
      steps := [Insert(c, Inserted)];
      ExecOne(w, steps[0]);
    } else if w.status.Calculated? {
      steps := EnqueueOnce(w);
    } else {
      var c :| c in w.clients && w.clients[c].AtRollback?;
      var rest := EnqueueOnce(Apply(w, Rollback(c)));
      steps := [Rollback(c)] + rest;
      assert steps[1..] == rest;
    }
  }

  lemma EnqueueOnce(w: World) returns (steps: seq<Step>)
    requires w.status.Calculated?
    ensures Exec(w, steps).jobs == w.jobs + 1
  {
    var c := Fresh(w.clients.Keys);
    steps := [ReadForEnqueue(c), Transition(c), Insert(c, Inserted)];
    ExecThree(w, steps);
  }

  /** In particular a lost reply: the rollback reopens the plan and a second click enqueues a second job. */
  lemma LostReplyEnqueuesTwice(w: World) returns (steps: seq<Step>)
    requires Init(w)
    ensures Exec(w, steps).jobs == 2
  {
    var first := [ReadForEnqueue(1), Transition(1), Insert(1, InsertedButReportedLost)];
    ExecThree(w, first);
    var w' := Exec(w, first);
    assert w'.clients[1].AtRollback?;
    var second := AnotherJob(w');
    steps := first + second;
    ExecSplits(w, first, second);
  }

  /** A plan whose caller died between compare-and-set and insert is stuck: no client can
      enqueue it any more, and only a cancellation or the clean-up takes it out of `dispatching`. */
  lemma {:induction false} AbandonedPlanIsStuck(w: World, steps: seq<Step>)
    requires w.status.Dispatching? && w.jobs == w.live == 0 && w.workers == map[]
    requires forall c :: c in w.clients ==> !OwnsPlan(w.clients[c])
    ensures Exec(w, steps).jobs == 0
    ensures Exec(w, steps).status.Dispatching? || Exec(w, steps).status.Cancelled?
    decreases |steps|
  {
    AbandonedRun(w, steps);
  }

  lemma {:induction false} AbandonedRun(w: World, steps: seq<Step>)
    requires (w.status.Dispatching? || w.status.Cancelled?) && w.jobs == w.live == 0 && w.workers == map[]
    requires forall c :: c in w.clients ==> !OwnsPlan(w.clients[c])
    ensures Exec(w, steps).jobs == 0
    ensures Exec(w, steps).status.Dispatching? || Exec(w, steps).status.Cancelled?
    decreases |steps|
  {
    if steps != [] {
      AbandonedRun(Apply(w, steps[0]), steps[1..]);
    }
  }

  // ---- When a terminal status is kept ----

  /** Nobody can fail the plan's job as exhausted any more. */
  ghost predicate Quiet(w: World) {
    w.live == 0 && w.workers == map[] && forall c :: c in w.clients ==> !w.clients[c].AtInsert?
  }

  /** What an exhausted job makes of the plan. */
  function ExhaustedStatus(t: Tally): PlanStatus {
    FinalStatus(t.sent, t.failed || t.pending)
  }

  /** Nobody who has read the plan can still write a different status: no client is about to cancel
      it, no attempt is sending or about to send, and an exhausted job would write the same. */
  ghost predicate Kept(w: World) {
    && (w.status.Cancelled? || forall c :: c in w.clients ==> !w.clients[c].AtCancel?)
    && (forall r :: r in w.workers ==> !w.workers[r].Sending? && (w.workers[r].Reading? ==> !w.tally.pending))
    && (Quiet(w) || w.status == ExhaustedStatus(w.tally))
  }

  /** A terminal status is kept over all runs if and only if nobody can still write a different one. */
  lemma TerminalStatusIsKeptExactly(w: World)
    requires IsTerminalPlanStatus(w.status)
    ensures Kept(w) <==> forall steps :: Exec(w, steps).status == w.status
  {
    if Kept(w) {
      forall steps ensures Exec(w, steps).status == w.status {
        TerminalStatusIsKept(w, steps);
      }
    } else {
      var steps := TerminalStatusIsLost(w);
      assert Exec(w, steps).status != w.status;
    }
  }

  lemma StepKeepsStatus(w: World, s: Step)
    requires IsTerminalPlanStatus(w.status) && Kept(w)
    ensures Kept(Apply(w, s)) && Apply(w, s).status == w.status
  {}

  lemma {:induction false} TerminalStatusIsKept(w: World, steps: seq<Step>)
    requires IsTerminalPlanStatus(w.status) && Kept(w)
    ensures Exec(w, steps).status == w.status
    decreases |steps|
  {
    if steps != [] {
      StepKeepsStatus(w, steps[0]);
      TerminalStatusIsKept(Apply(w, steps[0]), steps[1..]);
    }
  }

  lemma TerminalStatusIsLost(w: World) returns (steps: seq<Step>)
    requires IsTerminalPlanStatus(w.status) && !Kept(w)
    ensures Exec(w, steps).status != w.status
  {
    if !w.status.Cancelled? && exists c :: c in w.clients && w.clients[c].AtCancel? {
      var c :| c in w.clients && w.clients[c].AtCancel?;
      steps := [WriteCancelled(c)];
      ExecOne(w, steps[0]);
    } else if r :| r in w.workers && w.workers[r].Sending? {
      steps := SenderWrites(w, r);
    } else if r :| r in w.workers && w.workers[r].Reading? && w.tally.pending {
      var rest := SenderWrites(Apply(w, ListItems(r)), r);
      steps := [ListItems(r)] + rest;
      assert steps[1..] == rest;
    } else {
      steps := ExhaustedWrites(w);
    }
  }

  /** An attempt that is sending can end with a status different from any given one. */
  lemma SenderWrites(w: World, r: WorkerId) returns (steps: seq<Step>)
    requires r in w.workers && w.workers[r].Sending?
    ensures Exec(w, steps).status != w.status
  {
    if !w.status.FailedPlan? {
      steps := [Refuse(r)];
      ExecOne(w, steps[0]);
    } else {
      steps := [Work(r, Tally(true, false, false)), LoopEnds(r), Finalize(r)];
      ExecThree(w, steps);
    }
  }

  lemma ExhaustedWrites(w: World) returns (steps: seq<Step>)
    requires !Quiet(w) && w.status != ExhaustedStatus(w.tally)
    ensures Exec(w, steps).status != w.status
  {
    if r :| r in w.workers {
      steps := [Exhaust(r), FailPending(r, true), Finalize(r)];
      ExecThree(w, steps);
    } else if w.live > 0 {
      steps := BeginAndExhaust(w);
    } else {
      var c :| c in w.clients && w.clients[c].AtInsert?;
      var rest := BeginAndExhaust(Apply(w, Insert(c, Inserted)));
      steps := [Insert(c, Inserted)] + rest;
      assert steps[1..] == rest;
    }
  }

  lemma BeginAndExhaust(w: World) returns (steps: seq<Step>)
    requires w.live > 0 && w.status != ExhaustedStatus(w.tally)
    ensures Exec(w, steps).status != w.status
  {
    var r := Fresh(w.workers.Keys);
    steps := [Begin(r), Exhaust(r), FailPending(r, true), Finalize(r)];
    ExecFour(w, steps);
  }

  /** A plan reported `applied` can end as `cancelled`, and a cancelled one as `applied`. */
  lemma CancelAndFinalizeRace(w: World, r: WorkerId) returns (lateCancel: seq<Step>, lateFinalize: seq<Step>)
    requires w.status.Dispatching? && w.clients == map[]
    requires r in w.workers && w.workers[r].Finishing? && w.tally == Tally(true, false, false)
    ensures |lateCancel| == |lateFinalize| == 3
    ensures Exec(w, lateCancel).status.Cancelled? && Exec(w, lateCancel[..2]).status.Applied?
    ensures Exec(w, lateFinalize).status.Applied? && Exec(w, lateFinalize[..2]).status.Cancelled?
  {
    var read, write, finalize := ReadForCancel(1), WriteCancelled(1), Finalize(r);
    lateCancel, lateFinalize := [read, finalize, write], [read, write, finalize];
    ExecThree(w, lateCancel);
    ExecThree(w, lateFinalize);
    ExecTwo(w, lateCancel[..2]);
    ExecTwo(w, lateFinalize[..2]);
  }

  lemma ExecOne(w: World, s: Step)
    ensures Exec(w, [s]) == Apply(w, s)
  {
    assert Exec(w, [s]) == Exec(Apply(w, s), [s][1..]);
  }

  lemma ExecTwo(w: World, s: seq<Step>)
    requires |s| == 2
    ensures Exec(w, s) == Apply(Apply(w, s[0]), s[1])
  {
    var w1 := Apply(w, s[0]);
    assert Exec(w, s) == Exec(w1, s[1..]);
    assert Exec(w1, s[1..]) == Exec(Apply(w1, s[1]), s[1..][1..]);
  }

  lemma ExecThree(w: World, s: seq<Step>)
    requires |s| == 3
    ensures Exec(w, s) == Apply(Apply(Apply(w, s[0]), s[1]), s[2])
  {
    ExecTwo(Apply(w, s[0]), s[1..]);
  }

  lemma ExecFour(w: World, s: seq<Step>)
    requires |s| == 4
    ensures Exec(w, s) == Apply(Apply(Apply(Apply(w, s[0]), s[1]), s[2]), s[3])
  {
    ExecThree(Apply(w, s[0]), s[1..]);
  }
}
