/** Sending one calculated plan to the marketplace: the handler of a dispatch job with its
    chunk loop, the paths that give up, and all attempts of the job.
    Every database statement can fail or be the last one before the process dies, a client
    can cancel the plan before each of them, and a failed call can have taken effect in part. */
module Dispatch {
  import opened Basics
  import opened Marketplace
  import opened Plan = PlanProtocol
  import opened DispatchItems
  import Q = JobQueue

  // How one statement ends; after `Crash` the process executes nothing more.
  datatype Stmt = Done | Error | Crash

  class DispatchJob {
    var plan: PlanStatus
    var items: seq<Item>
    var market: Bucket
    var calls: seq<Call>
    var changes: seq<Change>

    // None for all runs; a rehearsal narrows them to one course of events.
    const rehearsal: Option<Rehearsal>

    // What the job found when it was inserted: the items but for their status, those that had failed or
    // were skipped, and the prices at the marketplace; and what has been lost since.
    ghost const listed: seq<Item>
    ghost const before: set<nat>
    ghost const skipped: set<nat>
    ghost const opening: Bucket
    ghost var losses: Losses
    // The statements that failed: writes for items, reads of the pending items, and statements that
    // finalize the plan.
    ghost var faults: Faults
    ghost var listFaults: nat
    ghost var planFaults: nat

    // What has happened so far: a client cancelled the plan; a process died; the marketplace or
    // the credentials were refused; the exhausted job's pending items could not be listed; an
    // ignored error left the plan unfinished.
    ghost var cancelled: bool
    ghost var crashed: bool
    ghost var unauthorized: bool
    ghost var unlisted: bool
    ghost var unfinalized: bool
    // The plan's last status write by this job was the one for refused credentials.
    ghost var refused: bool
    // How many calls were sent although the plan had already been cancelled or finished.
    ghost var late: nat

    ghost function Written(): Book
      reads this
    {
      Book(losses, faults, before, skipped, unauthorized)
    }

    ghost predicate Books(open: seq<nat>)
      reads this
    {
      && AllAccounted(items, calls, changes, Written(), open)
      && (faults.cut != multiset{} ==> crashed)
      && (rehearsal.Some? ==> losses.unlogged == {} && losses.unmarked <= rehearsal.value.unmarkable)
    }

    /** Every pending item is one whose status could not be written. */
    ghost predicate PendingUnmarked()
      reads this
    {
      forall i :: 0 <= i < |items| && items[i].status.Pending? ==> i in losses.unmarked
    }

    ghost predicate PlanKept()
      reads this
    {
      && (plan.Cancelled? ==> cancelled) && late <= 1 && (late == 1 ==> IsTerminalPlanStatus(plan))
      && (Finished(plan) && !refused ==> NonePending(items) && Classifies(plan, items))
      && (refused ==> RefusedKept())
      && (unlisted ==> listFaults > 0) && (unfinalized ==> planFaults > 0)
      && (rehearsal.Some? ==> !crashed && !unfinalized && (unlisted ==> !rehearsal.value.listable))
    }

    ghost predicate RefusedKept()
      reads this
    {
      && unauthorized && (plan.FailedPlan? || plan.Cancelled?) && PendingUnmarked()
      && (losses.unmarked == {} ==> exists i :: 0 <= i < |items| && items[i].status.Failed?)
    }

    ghost predicate Valid()
      reads this
    {
      && DistinctItems(items) && Faithful(items, market) && Books([]) && PlanKept()
      && Stripped(items) == listed && Moved(opening, market, listed, before + skipped)
    }

    /** A plan as its recalculation leaves it, at the time its dispatch job is inserted. */
    constructor (plan: PlanStatus, items: seq<Item>, market: Bucket, rehearsal: Option<Rehearsal>)
      requires !Finished(plan) && DistinctItems(items)
      requires forall i :: 0 <= i < |items| ==> !items[i].status.Dispatched?
      ensures Valid() && this.plan == plan && this.items == items && this.market == market &&
                this.rehearsal == rehearsal
      ensures calls == [] && changes == [] && losses == Losses({}, multiset{}, {}, {})
      ensures faults == Faults(multiset{}, {}, multiset{}) && listFaults == planFaults == 0
      ensures before == set i | 0 <= i < |items| && items[i].status.Failed?
      ensures skipped == (set i | 0 <= i < |items| && items[i].status.Skipped?) && opening == market
      ensures listed == Stripped(items)
      ensures !crashed && !unauthorized && !unlisted && !unfinalized && !refused && late == 0
      ensures cancelled <==> plan.Cancelled?
    {
      this.plan, this.items, this.market, this.calls, this.changes := plan, items, market, [], [];
      this.rehearsal := rehearsal;
      this.before := set i | 0 <= i < |items| && items[i].status.Failed?;
      this.skipped := set i | 0 <= i < |items| && items[i].status.Skipped?;
      this.listed, this.opening := Stripped(items), market;
      this.losses := Losses({}, multiset{}, {}, {});
      this.faults, this.listFaults, this.planFaults := Faults(multiset{}, {}, multiset{}), 0, 0;
      this.cancelled, this.crashed, this.unauthorized := plan.Cancelled?, false, false;
      this.unlisted, this.unfinalized, this.refused, this.late := false, false, false, 0;
    }

    /** The same items, apart from their status. */
    twostate predicate SameItems()
      reads this
    {
      |items| == |old(items)| && Stripped(items) == Stripped(old(items))
    }

    // ---- Statements ----

    method Statement() returns (s: Stmt)
      modifies this`crashed
      ensures crashed == (old(crashed) || s.Crash?)
      ensures rehearsal.Some? ==> s.Done?
    {
      s := *;
      if rehearsal.Some? { s := Done; }
      if s.Crash? { crashed := true; }
    }

    /** The clients that cancel the plan, and the clean-up of stale plans. */
    method Others()
      modifies this`plan, this`cancelled
      ensures (plan == old(plan) && cancelled == old(cancelled)) || (plan.Cancelled? && cancelled)
      ensures rehearsal.Some? ==> plan == old(plan) && cancelled == old(cancelled)
    {
      if * {
        if rehearsal.None? { plan, cancelled := Cancelled, true; }
      }
    }

    method ReadPlan() returns (s: Stmt, status: PlanStatus)
      modifies this`plan, this`cancelled, this`crashed
      ensures (plan == old(plan) && cancelled == old(cancelled)) || (plan.Cancelled? && cancelled)
      ensures crashed == (old(crashed) || s.Crash?)
      ensures s.Done? ==> status == plan
      ensures rehearsal.Some? ==> s.Done? && plan == old(plan) && cancelled == old(cancelled)
    {
      Others();
      s := Statement();
      status := plan;
    }

    method TransitionStatus(from: PlanStatus, to: PlanStatus) returns (s: Stmt, ok: bool)
      requires !from.Cancelled?
      modifies this`plan, this`cancelled, this`crashed
      ensures crashed == (old(crashed) || s.Crash?)
      ensures ok ==> s.Done? && plan == to && old(plan) == from && cancelled == old(cancelled)
      ensures !ok ==> (plan == old(plan) && cancelled == old(cancelled)) || (plan.Cancelled? && cancelled)
      ensures s.Done? && !ok ==> plan != from
      ensures rehearsal.Some? ==> s.Done? && ok == (old(plan) == from)
    {
      Others();
      s := Statement();
      ok := s.Done? && plan == from;
      if ok { plan := to; }
    }

    method UpdateStatus(to: PlanStatus) returns (s: Stmt)
      modifies this`plan, this`cancelled, this`crashed, this`planFaults
      ensures crashed == (old(crashed) || s.Crash?)
      ensures planFaults == old(planFaults) + (if s.Error? then 1 else 0)
      ensures old(cancelled) ==> cancelled
      ensures s.Done? ==> plan == to
      ensures !s.Done? ==> (plan == old(plan) && cancelled == old(cancelled)) || (plan.Cancelled? && cancelled)
      ensures rehearsal.Some? ==> s.Done? && cancelled == old(cancelled)
    {
      Others();
      s := Statement();
      if s.Done? { plan := to; }
      if s.Error? { planFaults := planFaults + 1; }
    }

    method ListItems() returns (s: Stmt, list: seq<nat>)
      modifies this`crashed, this`listFaults
      ensures crashed == (old(crashed) || s.Crash?)
      ensures listFaults == old(listFaults) + (if s.Error? then 1 else 0)
      ensures s.Done? ==> list == PendingItems(items)
      ensures rehearsal.Some? ==> s.Done?
    {
      s := Statement();
      if s.Error? { listFaults := listFaults + 1; }
      list := PendingItems(items);
    }

    method UpdateItemAfterDispatch(i: nat, status: ItemStatus) returns (s: Stmt)
      requires i < |items|
      modifies this`items, this`crashed, this`faults
      ensures crashed == (old(crashed) || s.Crash?)
      ensures faults == if s.Error? then old(faults).(marks := old(faults).marks + multiset{i}) else old(faults)
      ensures items == if s.Done? then old(items)[i := old(items)[i].(status := status)] else old(items)
      ensures rehearsal.Some? ==> s == if i in rehearsal.value.unmarkable then Error else Done
    {
      s := Statement();
      if rehearsal.Some? && i in rehearsal.value.unmarkable { s := Error; }
      if s.Done? { items := items[i := items[i].(status := status)]; }
      if s.Error? { faults := faults.(marks := faults.marks + multiset{i}); }
    }

    method CreateChange(c: Change) returns (s: Stmt)
      modifies this`changes, this`crashed, this`faults
      ensures crashed == (old(crashed) || s.Crash?)
      ensures faults == if s.Error? then old(faults).(rows := old(faults).rows + {c.item}) else old(faults)
      ensures changes == if s.Done? then old(changes) + [c] else old(changes)
      ensures rehearsal.Some? ==> s.Done?
    {
      s := Statement();
      if s.Done? { changes := changes + [c]; }
      if s.Error? { faults := faults.(rows := faults.rows + {c.item}); }
    }

    // ---- Failing items ----

    /** An item that can be failed: pending, or dispatched in an attempt that is refused. */
    ghost predicate CanFail(i: nat)
      reads this
    {
      && i < |items| && i !in before && !items[i].status.Skipped?
      && (unauthorized || items[i].status.Pending?)
    }

    /** Marks one item as failed and writes its price-change row; errors are ignored. */
    method FailItem(i: nat) returns (died: bool)
      requires CanFail(i) && Books([])
      modifies this`items, this`changes, this`crashed, this`losses, this`faults
      ensures Books([])
      ensures items == old(items) || items == old(items)[i := old(items)[i].(status := Failed)]
      ensures !died ==> items[i].status.Failed? || i in losses.unmarked
      ensures old(losses).unmarked <= losses.unmarked
      ensures crashed == (old(crashed) || died) && (died || faults.cut == old(faults).cut)
      ensures rehearsal.Some? ==> !died && items == Marking(old(items), [i], rehearsal.value.unmarkable, Failed)
    {
      var s := UpdateItemAfterDispatch(i, Failed);
      if s.Crash? { return true; }
      ghost var marked := s.Done?;
      if s.Error? { losses := losses.(unmarked := losses.unmarked + {i}); }
      died := LogFailed(old(items), old(Written()), i, marked);
    }

    method LogFailed(ghost was: seq<Item>, ghost b: Book, i: nat, ghost marked: bool) returns (died: bool)
      requires i < |was| && i !in before && !was[i].status.Skipped? && (unauthorized || was[i].status.Pending?)
      requires items == if marked then was[i := was[i].(status := Failed)] else was
      requires AllAccounted(was, calls, changes, b, []) && b.before == before && b.skipped == skipped
      requires b.unauthorized == unauthorized
      requires Written() == if marked then b else FailLost(b, i)
      requires faults.cut != multiset{} ==> crashed
      requires rehearsal.Some? ==> losses.unlogged == {} && losses.unmarked <= rehearsal.value.unmarkable
      modifies this`changes, this`crashed, this`losses, this`faults
      ensures Books([]) && losses.unmarked == old(losses).unmarked
      ensures crashed == (old(crashed) || died) && (died || faults.cut == old(faults).cut)
      ensures rehearsal.Some? ==> !died
    {
      var s := CreateChange(Change(i, items[i].currentPrice, Failed));
      if !s.Done? { losses := losses.(unlogged := losses.unlogged + {i}); }
      if s.Crash? { faults := faults.(cut := faults.cut + multiset{i}); }
      died := s.Crash?;
      FailMark(was, calls, old(changes), b, i, marked, s.Done?, died);
    }

    method FailAllItems(list: seq<nat>) returns (died: bool)
      requires Books([]) && Distinct(list) && forall k :: 0 <= k < |list| ==> list[k] < |items| && CanFail(list[k])
      modifies this`items, this`changes, this`crashed, this`losses, this`faults
      ensures Books([]) && SameItems() && ChangedOnly(old(items), items, list, Failed)
      ensures !died ==> Reached(items, list, losses.unmarked, Failed)
      ensures old(losses).unmarked <= losses.unmarked
      ensures crashed == (old(crashed) || died) && (died || faults.cut == old(faults).cut)
      ensures rehearsal.Some? ==> !died && items == Marking(old(items), list, rehearsal.value.unmarkable, Failed)
    {
      died := false;
      for k := 0 to |list|
        invariant Books([]) && ChangedOnly(old(items), items, list[..k], Failed)
        invariant Reached(items, list[..k], losses.unmarked, Failed)
        invariant old(losses).unmarked <= losses.unmarked
        invariant crashed == old(crashed) && faults.cut == old(faults).cut
        invariant rehearsal.Some? ==> items == Marking(old(items), list[..k], rehearsal.value.unmarkable, Failed)
      {
        if rehearsal.Some? { MarkingNext(old(items), list, k, rehearsal.value.unmarkable, Failed); }
        ghost var now, unmarked := items, losses.unmarked;
        assert list[k] !in list[..k];
        died := FailItem(list[k]);
        if died { break; }
        ChangedNext(old(items), now, items, list, k, unmarked, losses.unmarked, Failed);
      }
      assert list[..|list|] == list;
      ChangedOnlyStrips(old(items), items, list, Failed);
    }

    // ---- Marking the items of an accepted call ----

    /** The marks of these items are lost, after their call was accepted. */
    ghost method LoseMarks(open: seq<nat>)
      requires Books(open) && Distinct(open) && rehearsal.None? && crashed
      modifies this`losses, this`faults
      ensures Books([])
      ensures old(losses).unmarked <= losses.unmarked
      decreases |open|
    {
      if open != [] {
        assert open == [open[0]] + open[1..];
        LoseMark(items, calls, changes, Written(), open[0], open[1..], true);
        losses := losses.(lost := losses.lost + multiset{open[0]}, unmarked := losses.unmarked + {open[0]});
        faults := faults.(cut := faults.cut + multiset{open[0]});
        LoseMarks(open[1..]);
      }
    }

    /** Marks one item of an accepted call and writes its price-change row; an item that
        cannot be marked is left pending. `rest` are the items of the call still to mark. */
    method MarkDispatched(i: nat, ghost rest: seq<nat>) returns (died: bool)
      requires i < |items| && items[i].status.Pending? && i !in rest && Distinct(rest) && Books([i] + rest)
      modifies this`items, this`changes, this`crashed, this`losses, this`faults
      ensures Books(if died then [] else rest)
      ensures items == old(items) || items == old(items)[i := old(items)[i].(status := Dispatched)]
      ensures !died ==> items[i].status.Dispatched? || i in losses.unmarked
      ensures old(losses).unmarked <= losses.unmarked
      ensures crashed == (old(crashed) || died) && (died || faults.cut == old(faults).cut)
      ensures rehearsal.Some? ==> !died && items == Marking(old(items), [i], rehearsal.value.unmarkable, Dispatched)
    {
      var s := UpdateItemAfterDispatch(i, Dispatched);
      if s.Done? {
        died := LogDispatched(old(items), i, rest);
      } else {
        ghost var cut := LoseFirst(old(Written()), i, rest, s.Crash?);
        died := s.Crash?;
      }
      if died { LoseMarks(rest); }
    }

    ghost method LoseFirst(b: Book, i: nat, rest: seq<nat>, cut: bool) returns (died: bool)
      requires i !in rest && AllAccounted(items, calls, changes, b, [i] + rest) && (cut ==> crashed)
      requires Written() == if cut then b else b.(faults := b.faults.(marks := b.faults.marks + multiset{i}))
      requires faults.cut != multiset{} ==> crashed
      requires rehearsal.Some? ==> losses.unlogged == {} && losses.unmarked + {i} <= rehearsal.value.unmarkable
      modifies this`losses, this`faults
      ensures Books(rest) && losses.unmarked == old(losses).unmarked + {i}
      ensures died == cut && (cut || faults == old(faults))
    {
      LoseMark(items, calls, changes, b, i, rest, cut);
      losses := losses.(lost := losses.lost + multiset{i}, unmarked := losses.unmarked + {i});
      if cut { faults := faults.(cut := faults.cut + multiset{i}); }
      died := cut;
    }

    /** The price-change row of an item that has just been marked. */
    method LogDispatched(ghost was: seq<Item>, i: nat, ghost rest: seq<nat>) returns (died: bool)
      requires i < |was| && i !in rest && items == was[i := was[i].(status := Dispatched)]
      requires AllAccounted(was, calls, changes, Written(), [i] + rest)
      requires faults.cut != multiset{} ==> crashed
      requires rehearsal.Some? ==> losses.unlogged == {} && losses.unmarked <= rehearsal.value.unmarkable
      modifies this`changes, this`crashed, this`losses, this`faults
      ensures Books(rest) && losses.unmarked == old(losses).unmarked
      ensures crashed == (old(crashed) || died) && (died || faults.cut == old(faults).cut)
      ensures rehearsal.Some? ==> !died
    {
      ghost var b := Written();
      var s := CreateChange(Change(i, items[i].finalPrice, Dispatched));
      losses := losses.(sent := losses.sent + {i}, unlogged := if s.Done? then losses.unlogged
          else losses.unlogged + {i});
      if s.Crash? { faults := faults.(cut := faults.cut + multiset{i}); }
      died := s.Crash?;
      GainMark(was, calls, old(changes), b, i, rest, s.Done?, died);
    }

    /** The same for an item that has its final price at the marketplace. */
    method MarkPriced(i: nat, ghost rest: seq<nat>) returns (died: bool)
      requires i < |items| && items[i].status.Pending? && i !in rest && Distinct(rest) && Books([i] + rest)
      requires Faithful(items, market) && HasItsPrice(items[i], market)
      modifies this`items, this`changes, this`crashed, this`losses, this`faults
      ensures Books(if died then [] else rest) && Faithful(items, market)
      ensures items == old(items) || items == old(items)[i := old(items)[i].(status := Dispatched)]
      ensures !died ==> items[i].status.Dispatched? || i in losses.unmarked
      ensures old(losses).unmarked <= losses.unmarked
      ensures crashed == (old(crashed) || died) && (died || faults.cut == old(faults).cut)
      ensures rehearsal.Some? ==> !died && items == Marking(old(items), [i], rehearsal.value.unmarkable, Dispatched)
    {
      died := MarkDispatched(i, rest);
      OneMarked(old(items), items, market, i);
    }

    /** The first `k` items of an accepted call are marked, or could not be. */
    ghost predicate MarkedUpTo(was: seq<Item>, chunk: seq<nat>, k: nat)
      requires k <= |chunk|
      reads this
    {
      && Faithful(items, market) && Books(chunk[k..])
      && ChangedOnly(was, items, chunk[..k], Dispatched) && Reached(items, chunk[..k], losses.unmarked, Dispatched)
      && (rehearsal.Some? ==> items == Marking(was, chunk[..k], rehearsal.value.unmarkable, Dispatched))
    }

    method MarkNext(ghost was: seq<Item>, chunk: seq<nat>, k: nat) returns (died: bool)
      requires k < |chunk| && Distinct(chunk) && MarkedUpTo(was, chunk, k)
      requires chunk[k] < |was| && was[chunk[k]].status.Pending? && HasItsPrice(was[chunk[k]], market)
      modifies this`items, this`changes, this`crashed, this`losses, this`faults
      ensures !died ==> MarkedUpTo(was, chunk, k + 1)
      ensures died ==> rehearsal.None? && Faithful(items, market) && Books([])
      ensures died ==> ChangedOnly(was, items, chunk, Dispatched)
      ensures old(losses).unmarked <= losses.unmarked
      ensures crashed == (old(crashed) || died) && (died || faults.cut == old(faults).cut)
    {
      ghost var now, unmarked := items, losses.unmarked;
      if rehearsal.Some? { MarkingNext(was, chunk, k, rehearsal.value.unmarkable, Dispatched); }
      assert chunk[k..] == [chunk[k]] + chunk[k + 1..];
      assert chunk[k] !in chunk[..k];
      died := MarkPriced(chunk[k], chunk[k + 1..]);
      if !died { ChangedNext(was, now, items, chunk, k, unmarked, losses.unmarked, Dispatched); }
    }

    method MarkChunk(chunk: seq<nat>) returns (died: bool)
      requires Faithful(items, market) && Distinct(chunk) && Books(chunk)
      requires forall k :: 0 <= k < |chunk| ==>
                 chunk[k] < |items| && items[chunk[k]].status.Pending? && HasItsPrice(items[chunk[k]], market)
      modifies this`items, this`changes, this`crashed, this`losses, this`faults
      ensures Faithful(items, market) && Books([])
      ensures SameItems() && ChangedOnly(old(items), items, chunk, Dispatched)
      ensures !died ==> Reached(items, chunk, losses.unmarked, Dispatched)
      ensures old(losses).unmarked <= losses.unmarked
      ensures crashed == (old(crashed) || died) && (died || faults.cut == old(faults).cut)
      ensures rehearsal.Some? ==> !died && items == Marking(old(items), chunk, rehearsal.value.unmarkable, Dispatched)
    {
      died := false;
      assert chunk[0..] == chunk;
      for k := 0 to |chunk|
        invariant MarkedUpTo(old(items), chunk, k) && old(losses).unmarked <= losses.unmarked
        invariant crashed == old(crashed) && faults.cut == old(faults).cut
      {
        died := MarkNext(old(items), chunk, k);
        if died { break; }
      }
      assert chunk[..|chunk|] == chunk;
      ChangedOnlyStrips(old(items), items, chunk, Dispatched);
    }

    // ---- Calls ----

    /** One call to the marketplace; a client can still cancel the plan between the check
        before the call and the call. */
    method CallMarketplace(chunk: seq<nat>) returns (answer: Answer)
      requires DistinctItems(items) && Faithful(items, market) && Distinct(chunk) && Books([])
      requires Stripped(items) == listed && Moved(opening, market, listed, before + skipped)
      requires forall k :: 0 <= k < |chunk| ==> chunk[k] < |items| && items[chunk[k]].status.Pending?
      requires late == 0
      modifies this`market, this`calls, this`plan, this`cancelled, this`late
      ensures (plan == old(plan) && cancelled == old(cancelled)) || (plan.Cancelled? && cancelled)
      ensures calls == old(calls) + [Call(chunk, answer)] && late == (if IsTerminalPlanStatus(plan) then 1 else 0)
      ensures Faithful(items, market) && Books(if answer.Accepted? then chunk else [])
      ensures answer.Accepted? ==> forall k :: 0 <= k < |chunk| ==> HasItsPrice(items[chunk[k]], market)
      ensures market.Keys == old(market).Keys
      ensures forall sku :: sku in old(market) && (forall k :: 0 <= k < |chunk| ==> items[chunk[k]].sku != sku) ==>
                market[sku] == old(market)[sku]
      ensures Moved(opening, market, listed, before + skipped)
      ensures rehearsal.Some? ==> plan == old(plan) && answer == rehearsal.value.answers(|old(calls)|)
    {
      Others();
      late := if IsTerminalPlanStatus(plan) then 1 else 0;
      answer := UpdatePrices(chunk);
    }

    /** Unless the call is accepted, any of the updates may have taken effect, in any order. */
    method UpdatePrices(chunk: seq<nat>) returns (answer: Answer)
      requires DistinctItems(items) && Faithful(items, market) && Distinct(chunk) && Books([])
      requires Stripped(items) == listed && Moved(opening, market, listed, before + skipped)
      requires forall k :: 0 <= k < |chunk| ==> chunk[k] < |items| && items[chunk[k]].status.Pending?
      modifies this`market, this`calls
      ensures calls == old(calls) + [Call(chunk, answer)]
      ensures Faithful(items, market) && Books(if answer.Accepted? then chunk else [])
      ensures answer.Accepted? ==> forall k :: 0 <= k < |chunk| ==> HasItsPrice(items[chunk[k]], market)
      ensures market.Keys == old(market).Keys
      ensures forall sku :: sku in old(market) && (forall k :: 0 <= k < |chunk| ==> items[chunk[k]].sku != sku) ==>
                market[sku] == old(market)[sku]
      ensures Moved(opening, market, listed, before + skipped)
      ensures rehearsal.Some? ==> answer == rehearsal.value.answers(|old(calls)|)
    {
      var applied;
      answer, applied := Answer(chunk);
      CallKeepsFaithful(items, market, chunk, answer.Accepted?, applied);
      AcceptedCallsAfter(calls, Call(chunk, answer));
      CallMoves(items, market, chunk, applied);
      MovedByCall(items, chunk, applied);
      market := ApplyAll(market, applied);
      calls := calls + [Call(chunk, answer)];
    }

    /** What the marketplace answers, and the updates that take effect. */
    method Answer(chunk: seq<nat>) returns (answer: Answer, applied: seq<PriceUpdate>)
      requires forall k :: 0 <= k < |chunk| ==> chunk[k] < |items|
      ensures forall u :: u in applied ==> u in UpdatesOf(items, chunk)
      ensures answer.Accepted? ==> applied == UpdatesOf(items, chunk)
      ensures rehearsal.Some? ==> answer == rehearsal.value.answers(|calls|)
    {
      answer := *;
      if rehearsal.Some? { answer := rehearsal.value.answers(|calls|); }
      applied := UpdatesOf(items, chunk);
      if !answer.Accepted? {
        applied := *;
        if exists u :: u in applied && u !in UpdatesOf(items, chunk) { applied := []; }
      }
    }

    lemma MovedByCall(items: seq<Item>, chunk: seq<nat>, applied: seq<PriceUpdate>)
      requires items == this.items && Books([]) && Stripped(items) == listed
      requires Moved(opening, market, listed, before + skipped)
      requires forall k :: 0 <= k < |chunk| ==> chunk[k] < |items| && items[chunk[k]].status.Pending?
      requires forall u :: u in applied ==> u in UpdatesOf(items, chunk)
      ensures Moved(opening, ApplyAll(market, applied), listed, before + skipped)
    {
      CallMoves(items, market, chunk, applied);
      forall k | 0 <= k < |chunk|
        ensures listed[chunk[k]].sku == items[chunk[k]].sku && listed[chunk[k]].finalPrice == items[chunk[k]].finalPrice
      {
        assert listed[chunk[k]] == Stripped(items)[chunk[k]];
      }
      MovedOn(opening, market, ApplyAll(market, applied), listed, before + skipped, chunk);
    }

    // ---- The plan's status ----

    method FinalizePlanStatus() returns (r: Result)
      requires Valid()
      modifies this`plan, this`cancelled, this`crashed, this`refused, this`planFaults
      ensures Valid()
      ensures !r.UnauthorizedErr? && crashed == (old(crashed) || r.Died?)
      ensures planFaults == old(planFaults) + (if r.OtherErr? then 1 else 0)
      ensures r.Success? && NonePending(items) ==> Finished(plan) && Classifies(plan, items) && !refused
      ensures !NonePending(items) ==> plan == old(plan) && refused == old(refused)
      ensures IsTerminalPlanStatus(old(plan)) ==> IsTerminalPlanStatus(plan)
      ensures old(cancelled) ==> cancelled
      ensures rehearsal.Some? ==> r.Success? && plan == Finalized(old(plan), items)
    {
      var s, final := CountItems();
      if s.Crash? { return Died; }
      if s.Error? { return OtherErr; }
      if final.None? { return Success; }
      r := WriteFinalStatus(final.value);
    }

    /** Counts the items by status, and from the counts derives the final status, if none is pending. */
    method CountItems() returns (s: Stmt, final: Option<PlanStatus>)
      modifies this`crashed, this`planFaults
      ensures crashed == (old(crashed) || s.Crash?) && planFaults == old(planFaults) + (if s.Error? then 1 else 0)
      ensures final.Some? <==> NonePending(items)
      ensures final.Some? ==> Finished(final.value) && Classifies(final.value, items)
      ensures Finalized(plan, items) == if final.Some? then final.value else plan
      ensures rehearsal.Some? ==> s.Done?
    {
      s := Statement();
      if s.Error? { planFaults := planFaults + 1; }
      var dispatched, failed, pending := CountOf(items, Dispatched), CountOf(items, Failed), CountOf(items, Pending);
      CountsClassify(items);
      final := if pending > 0 then None else Some(FinalStatus(dispatched > 0, failed > 0));
    }

    method WriteFinalStatus(to: PlanStatus) returns (r: Result)
      requires Valid() && Finished(to) && NonePending(items) && Classifies(to, items)
      modifies this`plan, this`cancelled, this`crashed, this`refused, this`planFaults
      ensures Valid()
      ensures r.Success? ==> plan == to && !refused
      ensures !r.Success? ==> plan == old(plan) || plan.Cancelled?
      ensures !r.UnauthorizedErr? && crashed == (old(crashed) || r.Died?)
      ensures planFaults == old(planFaults) + (if r.OtherErr? then 1 else 0)
      ensures old(cancelled) ==> cancelled
      ensures rehearsal.Some? ==> r.Success?
    {
      var s := UpdateStatus(to);
      if s.Crash? { return Died; }
      if s.Error? { return OtherErr; }
      refused := false;
      r := Success;
    }

    /** Broken credentials or a call refused as unauthorized: all listed items are failed, also
        those that this attempt has dispatched, and the plan with them. */
    method GiveUp(list: seq<nat>) returns (r: Result)
      requires Valid() && !Finished(plan) && !refused && list != [] && Listed(list)
      modifies this`plan, this`items, this`changes, this`cancelled, this`crashed, this`losses,
               this`faults, this`planFaults, this`unauthorized, this`unfinalized, this`refused
      ensures Valid() && SameItems() && old(losses).unmarked <= losses.unmarked
      ensures r.UnauthorizedErr? ==> Reached(items, list, losses.unmarked, Failed)
      ensures r.UnauthorizedErr? ==> PendingUnmarked() && (unfinalized || (refused && plan.FailedPlan?))
      ensures r.UnauthorizedErr? || (r.Died? && crashed)
      ensures unauthorized && crashed == (old(crashed) || r.Died?) && (old(unfinalized) ==> unfinalized)
      ensures unfinalized ==> old(unfinalized) || planFaults > old(planFaults)
      ensures r.Died? || faults.cut == old(faults).cut
      ensures rehearsal.Some? ==> r.UnauthorizedErr? && plan.FailedPlan? && unfinalized == old(unfinalized)
      ensures rehearsal.Some? ==> items == Marking(old(items), list, rehearsal.value.unmarkable, Failed)
    {
      unauthorized := true;
      var died := FailListed(list);
      if died { return Died; }
      r := RefusePlan();
    }

    method FailListed(list: seq<nat>) returns (died: bool)
      requires Valid() && !Finished(plan) && !refused && list != [] && Listed(list) && unauthorized
      modifies this`items, this`changes, this`crashed, this`losses, this`faults
      ensures Valid() && SameItems() && old(losses).unmarked <= losses.unmarked
      ensures !died ==> Reached(items, list, losses.unmarked, Failed) && PendingUnmarked()
      ensures !died && losses.unmarked == {} ==> exists i :: 0 <= i < |items| && items[i].status.Failed?
      ensures crashed == (old(crashed) || died) && (died || faults.cut == old(faults).cut)
      ensures rehearsal.Some? ==> !died && items == Marking(old(items), list, rehearsal.value.unmarkable, Failed)
    {
      died := FailAllItems(list);
      if !died { FailedOrUnmarked(list); }
    }

    method RefusePlan() returns (r: Result)
      requires Valid() && !Finished(plan) && !refused && unauthorized && PendingUnmarked()
      requires losses.unmarked == {} ==> exists i :: 0 <= i < |items| && items[i].status.Failed?
      modifies this`plan, this`cancelled, this`crashed, this`planFaults, this`unfinalized, this`refused
      ensures Valid() && (r.UnauthorizedErr? || (r.Died? && crashed))
      ensures r.UnauthorizedErr? ==> unfinalized || (refused && plan.FailedPlan?)
      ensures crashed == (old(crashed) || r.Died?) && (old(unfinalized) ==> unfinalized)
      ensures unfinalized ==> old(unfinalized) || planFaults > old(planFaults)
      ensures rehearsal.Some? ==> r.UnauthorizedErr? && plan.FailedPlan? && unfinalized == old(unfinalized)
    {
      var s := UpdateStatus(FailedPlan);
      if s.Crash? { return Died; }
      // The handler ignores an error of this write.
      if s.Error? { unfinalized := true; } else { refused := true; }
      r := UnauthorizedErr;
    }

    lemma FailedOrUnmarked(list: seq<nat>)
      requires list != [] && Reached(items, list, losses.unmarked, Failed)
      requires forall i :: 0 <= i < |items| && items[i].status.Pending? ==> i in list
      ensures PendingUnmarked()
      ensures losses.unmarked == {} ==> exists i :: 0 <= i < |items| && items[i].status.Failed?
    {
      assert items[list[0]].status.Failed? || list[0] in losses.unmarked;
    }

    // ---- An attempt ----

    /** A list of an attempt: it holds all pending items, none skipped, and none that had failed. */
    ghost predicate Listed(list: seq<nat>)
      reads this
    {
      && Distinct(list)
      && (forall k :: 0 <= k < |list| ==> list[k] < |items| && list[k] !in before && !items[list[k]].status.Skipped?)
      && (forall i :: 0 <= i < |items| && items[i].status.Pending? ==> i in list)
    }

    /** How far an attempt has come with its list: the items before `sent` are dispatched,
        or could not be marked, the others and no further ones are pending. */
    ghost predicate Progress(list: seq<nat>, sent: nat)
      reads this
    {
      && Valid() && !Finished(plan) && !refused && Listed(list) && sent <= |list|
      && (forall k :: sent <= k < |list| ==> items[list[k]].status.Pending?)
      && (forall k :: 0 <= k < sent ==> items[list[k]].status.Dispatched? || list[k] in losses.unmarked)
    }

    /** One chunk of the list, the one that starts at `sent`; the attempt goes on when `end` is None. */
    method SendChunk(list: seq<nat>, chunk: seq<nat>, ghost sent: nat) returns (end: Option<Result>)
      requires chunk != [] && sent + |chunk| <= |list| && chunk == list[sent..sent + |chunk|] && Progress(list, sent)
      modifies this
      ensures Valid() && SameItems()
      ensures end.None? ==> Progress(list, sent + |chunk|)
      ensures end == Some(UnauthorizedErr) ==> Rejected()
      ensures end == Some(Success) ==> cancelled
      ensures if end == Some(Died) then crashed else faults.cut == old(faults).cut
      ensures old(plan).Cancelled? ==> calls == old(calls) && items == old(items) && market == old(market)
      ensures rehearsal.Some? && !old(plan).Cancelled? ==> AnsweredNow(list, chunk, end)
    {
      end := CheckCancelled();
      if end.None? { end := SendUncancelled(list, chunk, sent); }
    }

    /** The look at the plan before each chunk; the chunk is sent when `end` is None. */
    method CheckCancelled() returns (end: Option<Result>)
      modifies this`plan, this`cancelled, this`crashed
      ensures (plan == old(plan) && cancelled == old(cancelled)) || (plan.Cancelled? && cancelled)
      ensures crashed == (old(crashed) || end == Some(Died))
      ensures end.None? ==> !plan.Cancelled?
      ensures end.Some? ==>
                end.value == OtherErr || (end.value == Success && plan.Cancelled?) || (end.value == Died && crashed)
      ensures rehearsal.Some? ==> plan == old(plan) && end == (if plan.Cancelled? then Some(Success) else None)
    {
      var s, status := ReadPlan();
      if s.Crash? { return Some(Died); }
      if s.Error? { return Some(OtherErr); }
      end := if status.Cancelled? then Some(Success) else None;
    }

    /** What holds when an attempt ends as unauthorized. */
    ghost predicate Rejected()
      reads this
    {
      unauthorized && PendingUnmarked() && (unfinalized || (refused && plan.FailedPlan?))
    }

    function Now(r: Result): Course
      reads this
    {
      Course(items, plan, |calls|, r)
    }

    twostate predicate AnsweredNow(list: seq<nat>, chunk: seq<nat>, end: Option<Result>)
      requires rehearsal.Some?
      reads this
    {
      Answered(rehearsal.value, old(Now(Died)), Now(if end.Some? then end.value else Died), list, chunk, end.None?)
    }

    method SendUncancelled(list: seq<nat>, chunk: seq<nat>, ghost sent: nat) returns (end: Option<Result>)
      requires chunk != [] && sent + |chunk| <= |list| && chunk == list[sent..sent + |chunk|] && Progress(list, sent)
      requires !plan.Cancelled?
      modifies this
      ensures Valid() && SameItems()
      ensures end.None? ==> Progress(list, sent + |chunk|)
      ensures end == Some(UnauthorizedErr) ==> Rejected()
      ensures end != Some(Success)
      ensures if end == Some(Died) then crashed else faults.cut == old(faults).cut
      ensures rehearsal.Some? ==> AnsweredNow(list, chunk, end)
    {
      ChunkPositions(list, chunk, sent);
      var answer := CallMarketplace(chunk);
      if answer.Unauthorized? {
        var r := GiveUp(list);
        return Some(r);
      }
      if !answer.Accepted? { return Some(OtherErr); }
      var died := MarkSent(list, chunk, sent);
      end := if died then Some(Died) else None;
    }

    /** Marks an accepted chunk, which takes the attempt one chunk further. */
    method MarkSent(list: seq<nat>, chunk: seq<nat>, ghost sent: nat) returns (died: bool)
      requires DistinctItems(items) && Faithful(items, market) && Books(chunk) && PlanKept()
      requires Stripped(items) == listed && Moved(opening, market, listed, before + skipped)
      requires !Finished(plan) && !refused
      requires Listed(list) && sent + |chunk| <= |list| && chunk == list[sent..sent + |chunk|]
      requires forall k :: sent <= k < |list| ==> items[list[k]].status.Pending?
      requires forall k :: 0 <= k < sent ==> items[list[k]].status.Dispatched? || list[k] in losses.unmarked
      requires forall k :: 0 <= k < |chunk| ==> chunk[k] < |items| && HasItsPrice(items[chunk[k]], market)
      modifies this`items, this`changes, this`crashed, this`losses, this`faults
      ensures Valid() && SameItems() && if died then crashed else faults.cut == old(faults).cut
      ensures !died ==> Progress(list, sent + |chunk|)
      ensures rehearsal.Some? ==> !died && items == Marking(old(items), chunk, rehearsal.value.unmarkable, Dispatched)
    {
      ChunkPositions(list, chunk, sent);
      died := MarkChunk(chunk);
    }

    /** An attempt that has ended in success or refusal, and nobody cancelled the plan: what is
        pending could not be marked, and with nothing pending the plan is finished. */
    ghost predicate Settled()
      reads this
    {
      PendingUnmarked() && (NonePending(items) ==> Finished(plan) || unfinalized)
    }

    /** In a rehearsal, the rest of the chunk loop leads to `goal`. */
    ghost predicate OnCourse(goal: Course, list: seq<nat>, sent: nat, size: int)
      requires sent <= |list|
      reads this
    {
      rehearsal.Some? ==> !plan.Cancelled? && goal == SendingCourse(rehearsal.value, items, plan, list, sent, size,
          |calls|)
    }

    /** All chunks of the listed items, in order. */
    method SendChunks(list: seq<nat>, size: int) returns (r: Result)
      requires Progress(list, 0) && !plan.Cancelled?
      modifies this
      ensures Valid() && SameItems()
      ensures !cancelled && r.Success? ==> Settled()
      ensures r.UnauthorizedErr? ==> Rejected()
      ensures if r.Died? then crashed else faults.cut == old(faults).cut
      ensures rehearsal.Some? ==>
                Now(r) == SendingCourse(rehearsal.value, old(items), old(plan), list, 0, size, |old(calls)|)
    {
      var chunks := ChunkItems(list, size);
      ghost var goal := if rehearsal.None? then Now(Died) else SendingCourse(rehearsal.value, items, plan, list, 0,
          size, |calls|);
      assert chunks[..0] == [];
      r := SendAll(list, chunks, size, goal);
    }

    /** The first `c` chunks are sent. */
    ghost predicate Sending(list: seq<nat>, chunks: seq<seq<nat>>, c: nat, size: int, goal: Course)
      requires c <= |chunks|
      reads this
    {
      var sent := |Flatten(chunks[..c])|;
      sent <= |list| && Flatten(chunks[..c]) == list[..sent] && Progress(list, sent) && OnCourse(goal, list, sent, size)
    }

    method SendAll(list: seq<nat>, chunks: seq<seq<nat>>, ghost size: int, ghost goal: Course) returns (r: Result)
      requires Flatten(chunks) == list && Sized(chunks, ChunkSize(size)) && Sending(list, chunks, 0, size, goal)
      modifies this
      ensures Valid() && SameItems()
      ensures !cancelled && r.Success? ==> Settled()
      ensures r.UnauthorizedErr? ==> Rejected()
      ensures if r.Died? then crashed else faults.cut == old(faults).cut
      ensures rehearsal.Some? ==> Now(r) == goal
    {
      for c := 0 to |chunks|
        invariant SameItems() && Sending(list, chunks, c, size, goal) && faults.cut == old(faults).cut
      {
        var end := SendNth(list, chunks, c, size, goal);
        if end.Some? { return end.value; }
      }
      assert chunks[..|chunks|] == chunks;
      r := FinishSending(list, size, goal);
    }

    method SendNth(list: seq<nat>, chunks: seq<seq<nat>>, c: nat, ghost size: int, ghost goal: Course)
      returns (end: Option<Result>)
      requires c < |chunks| && Flatten(chunks) == list && Sized(chunks, ChunkSize(size)) &&
               Sending(list, chunks, c, size, goal)
      modifies this
      ensures Valid() && SameItems()
      ensures end.None? ==> Sending(list, chunks, c + 1, size, goal)
      ensures end == Some(UnauthorizedErr) ==> Rejected()
      ensures end == Some(Success) ==> cancelled
      ensures if end == Some(Died) then crashed else faults.cut == old(faults).cut
      ensures rehearsal.Some? && end.Some? ==> Now(end.value) == goal
    {
      ghost var sent := |Flatten(chunks[..c])|;
      NextChunkIsSized(list, chunks, c, sent, ChunkSize(size));
      ghost var next := |Flatten(chunks[..c + 1])|;
      assert next == sent + |chunks[c]| <= |list| && Flatten(chunks[..c + 1]) == list[..next];
      end := SendNext(list, chunks[c], sent, next, size, goal);
    }

    /** All chunks are sent. */
    method FinishSending(ghost list: seq<nat>, ghost size: int, ghost goal: Course) returns (r: Result)
      requires Progress(list, |list|) && OnCourse(goal, list, |list|, size)
      modifies this`plan, this`cancelled, this`crashed, this`refused, this`planFaults
      ensures Valid() && (r.Success? ==> Settled())
      ensures !r.UnauthorizedErr? && (r.Died? ==> crashed)
      ensures rehearsal.Some? ==> Now(r) == goal
    {
      r := FinalizePlanStatus();
    }

    method SendNext(list: seq<nat>, chunk: seq<nat>, ghost sent: nat, ghost next: nat, ghost size: int,
                    ghost goal: Course)
      returns (end: Option<Result>)
      requires chunk != [] && next == sent + |chunk| == Min(sent + ChunkSize(size), |list|)
      requires chunk == list[sent..next] && Progress(list, sent) && OnCourse(goal, list, sent, size)
      modifies this
      ensures Valid() && SameItems()
      ensures end.None? ==> Progress(list, next) && OnCourse(goal, list, next, size)
      ensures end == Some(UnauthorizedErr) ==> Rejected()
      ensures end == Some(Success) ==> cancelled
      ensures if end == Some(Died) then crashed else faults.cut == old(faults).cut
      ensures rehearsal.Some? && end.Some? ==> Now(end.value) == goal
    {
      end := SendChunk(list, chunk, sent);
      if rehearsal.Some? {
        CourseNext(rehearsal.value, old(Now(Died)), Now(if end.Some? then end.value else Died), list, sent, next,
            chunk, size, end.None?);
      }
    }

    /** The look at the plan with which an attempt begins; it goes on when `end` is None. */
    method BeginAttempt() returns (end: Option<Result>)
      requires Valid()
      modifies this`plan, this`cancelled, this`crashed
      ensures Valid() && (old(cancelled) ==> cancelled) && (old(crashed) ==> crashed)
      ensures end.None? ==> !IsTerminalPlanStatus(plan)
      ensures end.Some? ==> end.value == Success || end.value == OtherErr || (end.value == Died && crashed)
      ensures end == Some(Success) ==> Finished(plan) || cancelled
      ensures IsTerminalPlanStatus(old(plan)) ==> end.Some? && (plan == old(plan) || plan.Cancelled?)
      ensures rehearsal.Some? ==>
                if IsTerminalPlanStatus(old(plan)) then end == Some(Success) && plan == old(plan)
                else end.None? && plan == CompareAndSet(old(plan), Calculated, Dispatching)
    {
      end := None;
      var s, status := ReadPlan();
      if s.Crash? { return Some(Died); }
      if s.Error? { return Some(OtherErr); }
      if IsTerminalPlanStatus(status) { return Some(Success); }
      if status.Calculated? {
        var ok;
        s, ok := TransitionStatus(Calculated, Dispatching);
        if s.Crash? { return Some(Died); }
        if s.Error? { return Some(OtherErr); }
        if !ok {
          s, status := ReadPlan();
          // The handler ignores the error of this read and uses the missing plan.
          if !s.Done? { crashed := true; return Some(Died); }
          if IsTerminalPlanStatus(status) { return Some(Success); }
        }
      }
    }

    /** One attempt of the job. */
    method ExecuteDispatchJob(chunkSize: int) returns (r: Result)
      requires Valid()
      modifies this
      ensures Valid() && SameItems()
      ensures !cancelled && r.Success? ==> Settled()
      ensures r.UnauthorizedErr? ==> Rejected()
      ensures if r.Died? then crashed else faults.cut == old(faults).cut
      ensures IsTerminalPlanStatus(old(plan)) ==> Untouched() && items == old(items)
      ensures rehearsal.Some? ==>
                Now(r) == AttemptCourse(rehearsal.value, old(items), old(plan), chunkSize, |old(calls)|)
    {
      var end := BeginAttempt();
      if end.Some? { return end.value; }
      r := SendItems(chunkSize);
    }

    /** The attempt has begun, and lists what is pending. */
    method SendItems(chunkSize: int) returns (r: Result)
      requires Valid() && !IsTerminalPlanStatus(plan)
      modifies this
      ensures Valid() && SameItems()
      ensures !cancelled && r.Success? ==> Settled()
      ensures r.UnauthorizedErr? ==> Rejected()
      ensures if r.Died? then crashed else faults.cut == old(faults).cut
      ensures rehearsal.Some? ==>
                Now(r) == ListedCourse(rehearsal.value, old(items), old(plan), PendingItems(old(items)), chunkSize,
                                       |old(calls)|)
    {
      var s, list := ListItems();
      if s.Crash? { return Died; }
      if s.Error? { return OtherErr; }
      PendingIsListed(list);
      if list == [] {
        r := FinalizePlanStatus();
      } else {
        r := SendPending(list, chunkSize);
      }
    }

    /** Nothing was sent, and a terminal plan is still terminal. */
    twostate predicate Untouched()
      reads this
    {
      calls == old(calls) && market == old(market) && IsTerminalPlanStatus(plan)
    }

    lemma PendingIsListed(list: seq<nat>)
      requires Books([]) && list == PendingItems(items)
      ensures Listed(list) && (forall k :: 0 <= k < |list| ==> items[list[k]].status.Pending? && CanFail(list[k]))
      ensures list == [] ==> NonePending(items)
    {
      assert forall i :: i in list <==> 0 <= i < |items| && items[i].status.Pending?;
    }

    method SendPending(list: seq<nat>, chunkSize: int) returns (r: Result)
      requires list != [] && Progress(list, 0) && !plan.Cancelled?
      modifies this
      ensures Valid() && SameItems()
      ensures !cancelled && r.Success? ==> Settled()
      ensures r.UnauthorizedErr? ==> Rejected()
      ensures if r.Died? then crashed else faults.cut == old(faults).cut
      ensures rehearsal.Some? ==>
                Now(r) == ListedCourse(rehearsal.value, old(items), old(plan), list, chunkSize, |old(calls)|)
    {
      // Loading the shop can fail, and its marketplace can be unknown.
      var s := Statement();
      if s.Crash? { return Died; }
      if s.Error? { return OtherErr; }
      var sound := BuildClient();
      if sound {
        r := SendChunks(list, chunkSize);
      } else {
        r := GiveUp(list);
      }
    }

    /** The credentials may not decrypt, or not suit the adapter. */
    method BuildClient() returns (sound: bool)
      ensures rehearsal.Some? ==> sound == rehearsal.value.credentials
    {
      sound := *;
      if rehearsal.Some? { sound := rehearsal.value.credentials; }
    }

    // ---- The job ----

    /** The last attempt has failed: what is still pending is failed. */
    method MarkExhausted() returns (r: Result)
      requires Valid()
      modifies this`plan, this`items, this`changes, this`cancelled, this`crashed, this`losses, this`faults,
               this`listFaults, this`planFaults, this`unlisted, this`unfinalized, this`refused
      ensures Valid() && SameItems()
      ensures r.Success? ==> Settled()
      ensures r.OtherErr? ==> unlisted || (PendingUnmarked() && unfinalized)
      ensures unlisted ==> old(unlisted) || listFaults > old(listFaults)
      ensures unfinalized ==> old(unfinalized) || planFaults > old(planFaults)
      ensures !r.UnauthorizedErr? && if r.Died? then crashed else faults.cut == old(faults).cut
      ensures IsTerminalPlanStatus(old(plan)) ==> IsTerminalPlanStatus(plan)
      ensures PendingItems(old(items)) == [] ==> items == old(items)
      ensures rehearsal.Some? && !rehearsal.value.listable ==>
                r.OtherErr? && items == old(items) && plan == old(plan)
    {
      var s, list := ListItems();
      if rehearsal.Some? && !rehearsal.value.listable {
        s, listFaults := Error, listFaults + 1;
      }
      if s.Crash? { return Died; }
      if s.Error? {
        unlisted := true;
        return OtherErr;
      }
      r := FailAndFinalize(list);
    }

    method FailAndFinalize(list: seq<nat>) returns (r: Result)
      requires Valid() && list == PendingItems(items)
      modifies this`plan, this`items, this`changes, this`cancelled, this`crashed, this`losses, this`faults,
               this`planFaults, this`unfinalized, this`refused
      ensures Valid() && SameItems()
      ensures r.Success? ==> Settled()
      ensures r.OtherErr? ==> PendingUnmarked() && unfinalized
      ensures unfinalized ==> old(unfinalized) || planFaults > old(planFaults)
      ensures !r.UnauthorizedErr? && if r.Died? then crashed else faults.cut == old(faults).cut
      ensures IsTerminalPlanStatus(old(plan)) ==> IsTerminalPlanStatus(plan)
      ensures list == [] ==> items == old(items)
    {
      var died := FailPending(list);
      if died { return Died; }
      r := FinalizeExhausted();
    }

    method FinalizeExhausted() returns (r: Result)
      requires Valid() && PendingUnmarked()
      modifies this`plan, this`cancelled, this`crashed, this`planFaults, this`unfinalized, this`refused
      ensures Valid() && PendingUnmarked()
      ensures r.Success? ==> Settled()
      ensures r.OtherErr? ==> unfinalized
      ensures unfinalized ==> old(unfinalized) || planFaults > old(planFaults)
      ensures !r.UnauthorizedErr? && (r.Died? ==> crashed)
      ensures IsTerminalPlanStatus(old(plan)) ==> IsTerminalPlanStatus(plan)
    {
      r := FinalizePlanStatus();
      if r.OtherErr? { unfinalized := true; }
    }

    method FailPending(list: seq<nat>) returns (died: bool)
      requires Valid() && list == PendingItems(items)
      modifies this`items, this`changes, this`crashed, this`losses, this`faults
      ensures Valid() && SameItems()
      ensures crashed == (old(crashed) || died) && (died || faults.cut == old(faults).cut)
      ensures !died ==> PendingUnmarked()
      ensures list == [] ==> items == old(items)
    {
      PendingIsListed(list);
      ghost var was, unmarked := items, losses.unmarked;
      died := FailAllItems(list);
      FailingKeepsPlan(was, list, unmarked);
      if !died { OnlyUnmarkedLeft(list); }
      DistinctAsBefore(was, items);
    }

    /** A finished plan without pending items stays as it is, a refused one keeps its failed item. */
    lemma FailingKeepsPlan(was: seq<Item>, list: seq<nat>, unmarked: set<nat>)
      requires ChangedOnly(was, items, list, Failed) && unmarked <= losses.unmarked
      requires forall i :: i in list ==> i < |was| && was[i].status.Pending?
      requires Finished(plan) && !refused ==> NonePending(was) && Classifies(plan, was)
      requires refused ==> forall i :: 0 <= i < |was| && was[i].status.Pending? ==> i in unmarked
      requires refused && unmarked == {} ==> exists i :: 0 <= i < |was| && was[i].status.Failed?
      ensures Finished(plan) && !refused ==> NonePending(items) && Classifies(plan, items)
      ensures refused ==> PendingUnmarked()
      ensures refused && losses.unmarked == {} ==> exists i :: 0 <= i < |items| && items[i].status.Failed?
    {
      if Finished(plan) && !refused {
        assert items == was;
      }
    }

    lemma OnlyUnmarkedLeft(list: seq<nat>)
      requires Reached(items, list, losses.unmarked, Failed)
      requires forall i :: 0 <= i < |items| && items[i].status.Pending? ==> i in list
      ensures PendingUnmarked()
    {}

    /** What an attempt leaves that was meant to end the job, when no client ever cancelled its plan. */
    ghost predicate JobSettled()
      reads this
    {
      unlisted || Settled()
    }

    /** A claimed attempt and the completion statement it leads to. `r` is how it ended: `Died` also
        when the process died after the handler. */
    method ProcessDispatchJob(job: Q.Job, chunkSize: int, retryAt: int) returns (row: Q.Job, ghost r: Result)
      requires Valid() && job.status.Running? && job.jobType.PriceDispatch?
      modifies this
      ensures Valid() && SameItems()
      ensures row == job || (row == CompletedRow(job, r, retryAt) && row.status.Retrying?)
      ensures row != job ==> row == job.(status := Q.Retrying, runAt := retryAt, leaseExpires := None)
                             && r.OtherErr? && job.attempts < job.maxAttempts
      ensures rehearsal.Some? && r.OtherErr? && job.attempts < job.maxAttempts ==> row.status.Retrying?
      ensures MeantToEnd(job, r) && !cancelled ==> JobSettled()
      ensures r.UnauthorizedErr? ==> Rejected()
      ensures if r.Died? then crashed else faults.cut == old(faults).cut
      // Once the plan is terminal nothing is sent any more; once no item is pending either, none changes.
      ensures IsTerminalPlanStatus(old(plan)) ==> Untouched()
      ensures IsTerminalPlanStatus(old(plan)) && PendingItems(old(items)) == [] ==> items == old(items)
      ensures rehearsal.Some? ==>
                var c := AttemptCourse(rehearsal.value, old(items), old(plan), chunkSize, |old(calls)|);
                job.attempts < job.maxAttempts || !c.result.OtherErr? || !rehearsal.value.listable ==>
                  Now(r) == c && row == CompletedRow(job, r, retryAt)
    {
      var result := ExecuteDispatchJob(chunkSize);
      r := result;
      if result.Died? { return job, r; }
      row, r := CompleteAttempt(job, result, retryAt);
    }

    /** What the worker makes of the handler's answer. A completion without a result is refused by
        the table, so only a retry changes the row. */
    method CompleteAttempt(job: Q.Job, r: Result, retryAt: int) returns (row: Q.Job, ghost end: Result)
      requires Valid() && job.status.Running? && !r.Died?
      requires !cancelled && r.Success? ==> Settled()
      requires r.UnauthorizedErr? ==> Rejected()
      modifies this`plan, this`items, this`changes, this`cancelled, this`crashed, this`losses, this`faults,
               this`listFaults, this`planFaults, this`unlisted, this`unfinalized, this`refused
      ensures Valid() && SameItems() && (end == r || end.Died?)
      ensures row == job || (row == CompletedRow(job, r, retryAt) && row.status.Retrying? && end == r)
      ensures r.UnauthorizedErr? ==> Rejected()
      ensures MeantToEnd(job, end) && !cancelled ==> JobSettled()
      ensures if end.Died? then crashed else faults.cut == old(faults).cut
      ensures IsTerminalPlanStatus(old(plan)) ==> IsTerminalPlanStatus(plan)
      ensures PendingItems(old(items)) == [] ==> items == old(items)
      ensures rehearsal.Some? && (job.attempts < job.maxAttempts || !r.OtherErr? || !rehearsal.value.listable) ==>
                items == old(items) && plan == old(plan) && end == r && row == CompletedRow(job, r, retryAt)
    {
      var verdict := Q.Decide(job.attempts, job.maxAttempts, OutcomeOf(r, retryAt));
      row, end := job, r;
      if r.OtherErr? && verdict.Fail? {
        // The worker only logs an error of this call.
        var e := MarkExhausted();
        if e.Died? { return job, Died; }
      }
      var s := Statement();
      if s.Crash? { return job, Died; }
      if s.Done? { row := CompletedRow(job, r, retryAt); }
    }

    /** All attempts of the job, each claimed again after a retry or after the lease of a worker that
        is gone or whose completion was refused. `last` is how the last attempt ended. */
    method RunJob(maxAttempts: int, chunkSize: int) returns (job: Q.Job, ghost last: Result)
      requires Valid() && !Finished(plan)
      modifies this
      ensures Valid() && SameItems()
      // The job takes all its attempts and is never completed.
      ensures job.status.Running? && job.attempts == job.maxAttempts
      // An item none of whose writes failed or was cut off was accepted exactly once if dispatched, and
      // has the price-change row of its status.
      ensures forall i :: 0 <= i < |items| && i !in faults.marks && i !in faults.cut ==> ExactlyOnce(i)
      ensures faults.cut != multiset{} ==> crashed
      // The marketplace has its SKUs and no others; a price that has changed is the final price of an item
      // that was pending, and every dispatched item has its final price.
      ensures market.Keys == opening.Keys == old(market).Keys
      ensures forall sku :: sku in opening && market[sku] != opening[sku] ==>
                exists i :: Explains(listed, before + skipped, i, sku, market[sku])
      ensures forall i :: 0 <= i < |items| && items[i].status.Dispatched? && items[i].sku in opening ==>
                market[items[i].sku] == items[i].finalPrice
      // Unless a client cancelled the plan or the last process died: an item left pending is one whose
      // mark failed or was cut off, or one that the exhausted job could not list; with none left the
      // plan is finished.
      ensures !last.Died? && !cancelled && !unlisted ==>
                forall i :: 0 <= i < |items| && items[i].status.Pending? ==> i in faults.marks || i in faults.cut
      ensures !last.Died? && !cancelled && !unlisted && !unfinalized && NonePending(items) ==> Finished(plan)
      ensures (unlisted ==> listFaults > 0) && (unfinalized ==> planFaults > 0)
      ensures !last.Died? && !cancelled && listFaults == planFaults == 0 && faults.marks == faults.cut == multiset{} ==>
                NonePending(items) && Finished(plan)
      // A finished plan has no pending item and the classification of its items, or was refused;
      // a refused one is `failed`, which is its classification unless an item was dispatched before.
      ensures Finished(plan) && !refused ==> NonePending(items) && Classifies(plan, items)
      ensures refused && !cancelled ==> plan.FailedPlan? && PendingUnmarked()
      ensures refused && !cancelled && losses.unmarked == {} ==>
                (Classifies(plan, items) <==> forall i :: 0 <= i < |items| ==> !items[i].status.Dispatched?)
      ensures late <= 1
    {
      job, last := RunAttempts(maxAttempts, chunkSize);
      AccountIsExact();
      if refused && !cancelled && losses.unmarked == {} { RefusedClassification(); }
    }

    method RunAttempts(maxAttempts: int, chunkSize: int) returns (job: Q.Job, ghost last: Result)
      requires Valid()
      modifies this
      ensures Valid() && SameItems() && job.status.Running? && job.attempts == job.maxAttempts
      ensures !last.Died? && !cancelled ==> JobSettled()
    {
      job, last := Q.NewJob(Q.PriceDispatch, "default", 100, None, maxAttempts, 0), Died;
      while job.attempts < job.maxAttempts
        invariant Valid() && SameItems() && Q.AttemptsCheck(job) && job.jobType.PriceDispatch?
        invariant job.attempts == job.maxAttempts ==> job.status.Running?
        invariant job.attempts == job.maxAttempts && !last.Died? && !cancelled ==> JobSettled()
        decreases job.maxAttempts - job.attempts
      {
        var retryAt: int := *;
        job := Q.ClaimedRow(job, 0, 0);
        job, last := ProcessDispatchJob(job, chunkSize, retryAt);
        BetweenAttempts();
      }
    }

    /** The item was in one accepted call if it was ever marked as dispatched, and in none otherwise;
        its last price-change row is the one of its status, unless the insert of a row failed. */
    ghost predicate ExactlyOnce(i: nat)
      requires i < |items|
      reads this
    {
      && AcceptedCalls(calls, i) == (if i in losses.sent then 1 else 0)
      && (items[i].status.Dispatched? ==> i in losses.sent)
      && (i !in faults.rows ==> LastChange(changes, i) == RowOf(items[i], i, before))
    }

    lemma AccountIsExact()
      requires Books([])
      ensures forall i :: 0 <= i < |items| && i !in faults.marks && i !in faults.cut ==> ExactlyOnce(i)
      ensures PendingUnmarked() ==>
                forall i :: 0 <= i < |items| && items[i].status.Pending? ==> i in faults.marks || i in faults.cut
    {
      forall i | 0 <= i < |items| && i !in faults.marks && i !in faults.cut ensures ExactlyOnce(i) {
        ExactAccount(items, calls, changes, Written(), i);
      }
    }

    method BetweenAttempts()
      requires Valid()
      modifies this`plan, this`cancelled
      ensures Valid() && (old(cancelled) ==> cancelled)
      ensures !cancelled ==> plan == old(plan)
    {
      Others();
    }

    lemma RefusedClassification()
      requires Valid() && refused && plan.FailedPlan? && losses.unmarked == {}
      ensures Classifies(plan, items) <==> forall i :: 0 <= i < |items| ==> !items[i].status.Dispatched?
    {}
  }

  /** Three attempts of a new job, the first rate limited after an accepted chunk, the second refused.
      Its completion is refused too, and the third attempt, after the lease, finds a terminal plan: the
      plan is `failed`, although items were dispatched, and the row stays `running` with no attempt left. */
  method PartlySentThenRefused(plan: PlanStatus, items: seq<Item>, market: Bucket, h: Rehearsal, size: int)
    returns (job: DispatchJob, row: Q.Job)
    requires !IsTerminalPlanStatus(plan) && DistinctItems(items) && h.unmarkable == {}
    requires forall i :: 0 <= i < |items| ==> !items[i].status.Dispatched?
    requires |PendingItems(items)| > ChunkSize(size) && h.credentials
    requires h.answers(0).Accepted? && h.answers(1).RateLimited? && h.answers(2).Unauthorized?
    ensures row.status.Running? && row.attempts == row.maxAttempts == 3
    ensures job.plan.FailedPlan? && NonePending(job.items) && !Classifies(job.plan, job.items)
    ensures Classifies(Partial, job.items)
  {
    RefusedAfterPartialSend(h, items, plan, size);
    job := new DispatchJob(plan, items, market, Some(h));
    row := Q.ClaimedRow(Q.NewJob(Q.PriceDispatch, "default", 100, None, 3, 0), 0, 0);
    RetriedThenKept(row);
    row := OneAttempt(job, row, h, size);
    row := OneAttempt(job, Q.ClaimedRow(row, 0, 0), h, size);
    row := OneAttempt(job, Q.ClaimedRow(row, 0, 0), h, size);
  }

  lemma RetriedThenKept(row: Q.Job)
    requires row.status.Running? && row.attempts == 1 && row.maxAttempts == 3
    ensures var second := Q.ClaimedRow(CompletedRow(row, OtherErr, 0), 0, 0);
      && second.status.Running? && second.attempts == 2 && second.maxAttempts == 3 && second.jobType == row.jobType
      && CompletedRow(second, UnauthorizedErr, 0) == second
      && var third := Q.ClaimedRow(second, 0, 0);
         third.status.Running? && third.attempts == third.maxAttempts == 3 && third.jobType == row.jobType
         && CompletedRow(third, Success, 0) == third
  {}

  /** A job whose last attempt is rate limited, and which then cannot list its pending items: all its
      items are still pending, and no attempt is left. */
  method ExhaustedUnlisted(plan: PlanStatus, items: seq<Item>, market: Bucket, h: Rehearsal, size: int)
    returns (job: DispatchJob, row: Q.Job)
    requires !IsTerminalPlanStatus(plan) && DistinctItems(items) && !h.listable && h.answers(0).RateLimited?
    requires h.credentials
    requires items != [] && forall i :: 0 <= i < |items| ==> items[i].status.Pending?
    ensures row.status.Running? && row.attempts == row.maxAttempts
    ensures job.items == items && !IsTerminalPlanStatus(job.plan)
  {
    assert PendingItems(items) != [] by { assert 0 in PendingItems(items); }
    job := new DispatchJob(plan, items, market, Some(h));
    row := Q.ClaimedRow(Q.NewJob(Q.PriceDispatch, "default", 100, None, 1, 0), 0, 0);
    row := OneAttempt(job, row, h, size);
  }

  method OneAttempt(job: DispatchJob, row: Q.Job, h: Rehearsal, size: int) returns (next: Q.Job)
    requires job.Valid() && job.rehearsal == Some(h) && row.status.Running? && row.jobType.PriceDispatch?
    requires var c := AttemptCourse(h, job.items, job.plan, size, |job.calls|);
      !c.result.Died? && (row.attempts < row.maxAttempts || !c.result.OtherErr? || !h.listable)
    modifies job
    ensures job.Valid()
    ensures var c := AttemptCourse(h, old(job.items), old(job.plan), size, |old(job.calls)|);
      job.Now(c.result) == c && next == CompletedRow(row, c.result, 0)
  {
    ghost var r;
    next, r := job.ProcessDispatchJob(row, size, 0);
  }

  lemma DistinctAsBefore(was: seq<Item>, items: seq<Item>)
    requires DistinctItems(was) && Stripped(items) == Stripped(was)
    ensures DistinctItems(items)
  {
    forall i, j | 0 <= i < j < |items| ensures items[i].sku != items[j].sku {
      assert Stripped(items)[i].sku == items[i].sku && Stripped(was)[j].sku == was[j].sku;
    }
  }

  lemma OneMarked(was: seq<Item>, items: seq<Item>, market: Bucket, i: nat)
    requires i < |was| && Faithful(was, market) && HasItsPrice(was[i], market)
    requires items == was || items == was[i := was[i].(status := Dispatched)]
    ensures Faithful(items, market)
  {}

  /** The dispatch handler gives no result. */
  function OutcomeOf(r: Result, retryAt: int): Q.Outcome {
    if r.Success? then Q.Done(None) else if r.UnauthorizedErr? then Q.Fatal(None) else Q.Error(retryAt, None)
  }

  /** The job's row after the completion statement that an attempt leads to. */
  function CompletedRow(job: Q.Job, r: Result, retryAt: int): Q.Job {
    var verdict := Q.Decide(job.attempts, job.maxAttempts, OutcomeOf(r, retryAt));
    if Q.Accepts(verdict) then Q.FinishedRow(job, verdict) else job
  }

  /** The worker completed the job after the attempt, or tried to. */
  predicate MeantToEnd(job: Q.Job, r: Result) {
    !r.Died? && (r.OtherErr? ==> job.attempts >= job.maxAttempts)
  }
}
