/** The items of a price plan as a dispatch job sees them: lists and chunks of items, what the
    logs say about an item, and the course of an attempt when the database gives no trouble. */
module DispatchItems {
  import opened Basics
  import opened Marketplace
  import opened Plan = PlanProtocol

  datatype ItemStatus = Pending | Dispatched | Skipped | Failed

  datatype Item = Item(sku: Sku, currentPrice: real, finalPrice: real, status: ItemStatus)

  // One row of `price_change_log`, for the item of this index; `Dispatched` is stored as 'applied'.
  datatype Change = Change(item: nat, newPrice: real, status: ItemStatus)

  datatype Call = Call(items: seq<nat>, answer: Answer)

  // What an attempt of the job returns; `Died` when its process is gone.
  datatype Result = Success | UnauthorizedErr | OtherErr | Died

  // ---- Item lists ----

  /** The indices of the pending items below `n`, in order. */
  function PendingBelow(items: seq<Item>, n: nat): (r: seq<nat>)
    requires n <= |items|
    ensures forall i :: i in r <==> 0 <= i < n && items[i].status.Pending?
    ensures forall k :: 0 <= k < |r| ==> r[k] < n && items[r[k]].status.Pending?
    ensures Distinct(r)
  {
    if n == 0 then [] else
      PendingBelow(items, n - 1) + (if items[n - 1].status.Pending? then [n - 1] else [])
  }

  function PendingItems(items: seq<Item>): seq<nat> {
    PendingBelow(items, |items|)
  }

  ghost predicate NonePending(items: seq<Item>) {
    forall i :: 0 <= i < |items| ==> !items[i].status.Pending?
  }

  function CountOf(items: seq<Item>, s: ItemStatus): (n: nat)
    ensures n > 0 <==> exists i :: 0 <= i < |items| && items[i].status == s
  {
    if items == [] then 0 else
      var n := CountOf(items[..|items| - 1], s);
      if items[|items| - 1].status == s then n + 1 else n
  }

  /** The final status of a plan with no pending item. */
  ghost predicate Classifies(s: PlanStatus, items: seq<Item>) {
    var sent := exists i :: 0 <= i < |items| && items[i].status.Dispatched?;
    var failed := exists i :: 0 <= i < |items| && items[i].status.Failed?;
    && (s.Partial? <==> sent && failed)
    && (s.FailedPlan? <==> !sent && failed)
    && (s.Applied? <==> !failed)
  }

  lemma CountsClassify(items: seq<Item>)
    ensures Classifies(FinalStatus(CountOf(items, Dispatched) > 0, CountOf(items, Failed) > 0), items)
    ensures CountOf(items, Pending) == 0 <==> NonePending(items)
  {}

  function Flatten(chunks: seq<seq<nat>>): seq<nat> {
    if chunks == [] then [] else Flatten(chunks[..|chunks| - 1]) + chunks[|chunks| - 1]
  }

  function ChunkSize(size: int): (n: nat)
    ensures n > 0
  {
    if size <= 0 then 100 else size
  }

  /** No chunk is empty or longer than `n`, and all but the last are that long. */
  ghost predicate Sized(chunks: seq<seq<nat>>, n: nat) {
    && (forall k :: 0 <= k < |chunks| ==> 0 < |chunks[k]| <= n)
    && (forall k :: 0 <= k < |chunks| - 1 ==> |chunks[k]| == n)
  }

  /** Consecutive slices of `size` elements (100 when `size` is not positive), the last one shorter. */
  method ChunkItems(items: seq<nat>, size: int) returns (chunks: seq<seq<nat>>)
    ensures Flatten(chunks) == items
    ensures Sized(chunks, ChunkSize(size))
    ensures Sized(chunks, if size > 0 then size else 100)
  {
    var n := ChunkSize(size);
    chunks := [];
    var i := 0;
    while i < |items|
      invariant 0 <= i
      invariant Flatten(chunks) == items[..Min(i, |items|)]
      invariant if i <= |items| then Full(chunks, n) else Sized(chunks, n)
    {
      var end := Min(i + n, |items|);
      AppendSlice(items, chunks, i, end);
      AppendSized(chunks, items[i..end], n);
      chunks := chunks + [items[i..end]];
      i := i + n;
    }
    assert items[..|items|] == items;
  }

  ghost predicate Full(chunks: seq<seq<nat>>, n: nat) {
    forall k :: 0 <= k < |chunks| ==> |chunks[k]| == n
  }

  lemma AppendSized(chunks: seq<seq<nat>>, chunk: seq<nat>, n: nat)
    requires n > 0 && Full(chunks, n) && 0 < |chunk| <= n
    ensures Sized(chunks + [chunk], n) && (|chunk| == n ==> Full(chunks + [chunk], n))
  {}

  lemma AppendSlice(items: seq<nat>, chunks: seq<seq<nat>>, i: nat, end: nat)
    requires i <= end <= |items| && Flatten(chunks) == items[..i]
    ensures Flatten(chunks + [items[i..end]]) == items[..end]
  {
    assert (chunks + [items[i..end]])[..|chunks|] == chunks;
    assert items[..i] + items[i..end] == items[..end];
  }

  /** Each chunk is the slice of the flattened list that follows the chunks before it. */
  lemma {:induction false} FlattenSlice(chunks: seq<seq<nat>>, c: nat)
    requires c < |chunks|
    ensures Flatten(chunks[..c + 1]) == Flatten(chunks[..c]) + chunks[c]
    ensures Flatten(chunks[..c + 1]) <= Flatten(chunks)
    decreases |chunks|
  {
    if c == |chunks| - 1 {
      assert chunks[..c + 1] == chunks;
    } else {
      var init := chunks[..|chunks| - 1];
      FlattenSlice(init, c);
      assert init[..c] == chunks[..c] && init[..c + 1] == chunks[..c + 1];
    }
  }

  lemma NextChunk(list: seq<nat>, chunks: seq<seq<nat>>, c: nat, sent: nat)
    requires c < |chunks| && Flatten(chunks) == list
    requires sent <= |list| && Flatten(chunks[..c]) == list[..sent]
    ensures sent + |chunks[c]| <= |list| && chunks[c] == list[sent..sent + |chunks[c]|]
    ensures c == |chunks| - 1 ==> sent + |chunks[c]| == |list|
    ensures Flatten(chunks[..c + 1]) == list[..sent + |chunks[c]|]
  {
    FlattenSlice(chunks, c);
    var taken := Flatten(chunks[..c + 1]);
    assert taken == list[..|taken|];
    assert chunks[c] == taken[sent..];
    if c == |chunks| - 1 { assert chunks[..c + 1] == chunks; }
  }

  lemma NextChunkIsSized(list: seq<nat>, chunks: seq<seq<nat>>, c: nat, sent: nat, n: nat)
    requires c < |chunks| && Flatten(chunks) == list && Sized(chunks, n)
    requires sent <= |list| && Flatten(chunks[..c]) == list[..sent]
    ensures var end := Min(sent + n, |list|);
      chunks[c] != [] && end == sent + |chunks[c]| && chunks[c] == list[sent..end] &&
          Flatten(chunks[..c + 1]) == list[..end]
  {
    NextChunk(list, chunks, c, sent);
  }

  lemma ChunkPositions(list: seq<nat>, chunk: seq<nat>, sent: nat)
    requires Distinct(list) && sent + |chunk| <= |list| && chunk == list[sent..sent + |chunk|]
    ensures Distinct(chunk) && forall k :: 0 <= k < |chunk| ==> chunk[k] == list[sent + k]
    ensures forall k :: 0 <= k < sent || sent + |chunk| <= k < |list| ==> list[k] !in chunk
    ensures forall k :: sent <= k < sent + |chunk| ==> list[k] == chunk[k - sent]
  {}

  // ---- What the logs say about an item ----

  /** In how many accepted calls item `i` was. */
  function AcceptedCalls(calls: seq<Call>, i: nat): nat {
    if calls == [] then 0 else
      var last := calls[|calls| - 1];
      AcceptedCalls(calls[..|calls| - 1], i) + (if last.answer.Accepted? && i in last.items then 1 else 0)
  }

  function LastChange(changes: seq<Change>, i: nat): Option<Change> {
    if changes == [] then None
    else if changes[|changes| - 1].item == i then Some(changes[|changes| - 1])
    else LastChange(changes[..|changes| - 1], i)
  }

  lemma AcceptedCallsAfter(calls: seq<Call>, c: Call)
    ensures forall i :: AcceptedCalls(calls + [c], i) ==
                          AcceptedCalls(calls, i) + (if c.answer.Accepted? && i in c.items then 1 else 0)
  {
    assert (calls + [c])[..|calls|] == calls;
  }

  lemma LastChangeAfter(changes: seq<Change>, c: Change)
    ensures forall i :: LastChange(changes + [c], i) == if c.item == i then Some(c) else LastChange(changes, i)
  {
    assert (changes + [c])[..|changes|] == changes;
  }

  // ---- The account of an item ----

  // What has been lost so far. `sent` are the items marked as dispatched, `lost` counts how often
  // the mark of an accepted item was lost; `unmarked` are the items whose status could not be
  // written, `unlogged` those whose price-change row could not.
  datatype Losses = Losses(sent: set<nat>, lost: multiset<nat>, unmarked: set<nat>, unlogged: set<nat>)

  // The statements that failed: how often the status write of an item, and the inserts of which
  // items' rows; and how often a death cut off the writes for an item.
  datatype Faults = Faults(marks: multiset<nat>, rows: set<nat>, cut: multiset<nat>)

  /** No loss for an item without a failed statement for it, or a death that cut it off. */
  ghost predicate Caused(l: Losses, f: Faults, i: nat) {
    && l.lost[i] <= f.marks[i] + f.cut[i]
    && (i in l.unmarked ==> i in f.marks || i in f.cut)
    && (i in l.unlogged ==> i in f.rows || i in f.cut)
  }

  /** The price-change row that belongs to an item's status; items in `before` had failed
      before the job was inserted. */
  function RowOf(it: Item, i: nat, before: set<nat>): Option<Change> {
    match it.status
    case Pending => None
    case Skipped => None
    case Dispatched => Some(Change(i, it.finalPrice, Dispatched))
    case Failed => if i in before then None else Some(Change(i, it.currentPrice, Failed))
  }

  /** An item that was sent has a row with its new price, one that failed in this job a row with its old
      price, and the others none. */
  lemma RowSpelledOut(it: Item, i: nat, before: set<nat>)
    ensures var row := RowOf(it, i, before);
      && (row.Some? <==> it.status.Dispatched? || (it.status.Failed? && i !in before))
      && (row.Some? ==> row.value.item == i && row.value.status == it.status)
      && (row.Some? ==> row.value.newPrice == if it.status.Dispatched? then it.finalPrice else it.currentPrice)
  {}

  // What is known of all items but their status: what has been lost and why, which of them had failed
  // before the job was inserted and which were skipped, and whether the credentials were ever refused.
  datatype Book = Book(losses: Losses, faults: Faults, before: set<nat>, skipped: set<nat>, unauthorized: bool)

  /** An item was accepted once for every lost mark and once more if it was marked; unless a
      write for it was lost, its last price-change row is the one that belongs to its status. */
  ghost predicate Accounted(it: Item, i: nat, accepted: int, last: Option<Change>, b: Book) {
    var l := b.losses;
    && accepted == l.lost[i] + (if i in l.sent then 1 else 0)
    && (it.status.Dispatched? ==> i in l.sent)
    && (i in l.sent ==> it.status.Dispatched? || (it.status.Failed? && b.unauthorized))
    && (i in b.before ==> it.status.Failed? && i !in l.sent)
    && (i in b.skipped <==> it.status.Skipped?)
    && (i in l.lost ==> i in l.unmarked)
    && (i !in l.unmarked && i !in l.unlogged ==> last == RowOf(it, i, b.before))
    && Caused(l, b.faults, i)
  }

  /** The items in `open` are those of an accepted call that are not yet marked. */
  ghost predicate AllAccounted(items: seq<Item>, calls: seq<Call>, changes: seq<Change>, b: Book, open: seq<nat>) {
    forall i :: 0 <= i < |items| ==>
      && (i in open ==> items[i].status.Pending?)
      && Accounted(items[i], i, AcceptedCalls(calls, i) - (if i in open then 1 else 0), LastChange(changes, i), b)
  }

  /** The book after the mark of an item has failed, or was cut off. */
  ghost function MarkLost(b: Book, i: nat, cut: bool): Book {
    var l, f := b.losses, b.faults;
    b.(losses := l.(lost := l.lost + multiset{i}, unmarked := l.unmarked + {i}),
       faults := if cut then f.(cut := f.cut + multiset{i}) else f.(marks := f.marks + multiset{i}))
  }

  /** The book after the price-change row of an item was written, or that has failed or was cut off. */
  ghost function RowWritten(b: Book, i: nat, done: bool, cut: bool): Book {
    var l, f := b.losses, b.faults;
    if done then b
    else b.(losses := l.(unlogged := l.unlogged + {i}),
            faults := if cut then f.(cut := f.cut + multiset{i}) else f.(rows := f.rows + {i}))
  }

  /** The mark of the first open item is lost. */
  lemma LoseMark(items: seq<Item>, calls: seq<Call>, changes: seq<Change>, b: Book, i: nat, rest: seq<nat>, cut: bool)
    requires i !in rest && AllAccounted(items, calls, changes, b, [i] + rest)
    ensures AllAccounted(items, calls, changes, MarkLost(b, i, cut), rest)
  {
    forall j | 0 <= j < |items| && j != i ensures j in rest <==> j in [i] + rest {
    }
  }

  /** The first open item gets its mark, and its row unless that is lost. */
  lemma GainMark(items: seq<Item>, calls: seq<Call>, changes: seq<Change>, b: Book, i: nat, rest: seq<nat>,
                 done: bool, cut: bool)
    requires i < |items| && i !in rest && AllAccounted(items, calls, changes, b, [i] + rest)
    ensures AllAccounted(items[i := items[i].(status := Dispatched)], calls,
                         if done then changes + [Change(i, items[i].finalPrice, Dispatched)] else changes,
                         RowWritten(b.(losses := b.losses.(sent := b.losses.sent + {i})), i, done, cut), rest)
  {
    LastChangeAfter(changes, Change(i, items[i].finalPrice, Dispatched));
    assert i in [i] + rest;
    forall j | 0 <= j < |items| && j != i ensures j in rest <==> j in [i] + rest {
    }
  }

  /** The book after the status write of a failed item has failed. */
  ghost function FailLost(b: Book, i: nat): Book {
    b.(losses := b.losses.(unmarked := b.losses.unmarked + {i}),
        faults := b.faults.(marks := b.faults.marks + multiset{i}))
  }

  /** An item is failed, or cannot be, and its row is written unless that is lost. */
  lemma FailMark(items: seq<Item>, calls: seq<Call>, changes: seq<Change>, b: Book, i: nat, marked: bool, done: bool,
                 cut: bool)
    requires i < |items| && i !in b.before && !items[i].status.Skipped? && (b.unauthorized || items[i].status.Pending?)
    requires AllAccounted(items, calls, changes, b, [])
    ensures AllAccounted(if marked then items[i := items[i].(status := Failed)] else items, calls,
                         if done then changes + [Change(i, items[i].currentPrice, Failed)] else changes,
                         RowWritten(if marked then b else FailLost(b, i), i, done, cut), [])
  {
    LastChangeAfter(changes, Change(i, items[i].currentPrice, Failed));
  }

  /** What the account says of an item none of whose writes failed or was cut off. */
  lemma ExactAccount(items: seq<Item>, calls: seq<Call>, changes: seq<Change>, b: Book, i: nat)
    requires AllAccounted(items, calls, changes, b, []) && i < |items| && i !in b.faults.marks && i !in b.faults.cut
    ensures AcceptedCalls(calls, i) == (if i in b.losses.sent then 1 else 0)
    ensures items[i].status.Dispatched? ==> AcceptedCalls(calls, i) == 1
    ensures i !in b.faults.rows ==> LastChange(changes, i) == RowOf(items[i], i, b.before)
  {}

  ghost predicate DistinctItems(items: seq<Item>) {
    forall i, j :: 0 <= i < j < |items| ==> items[i].sku != items[j].sku
  }

  ghost predicate HasItsPrice(it: Item, market: Bucket) {
    it.sku in market ==> market[it.sku] == it.finalPrice
  }

  /** A dispatched item has its final price at the marketplace, if that knows the SKU. */
  ghost predicate Faithful(items: seq<Item>, market: Bucket) {
    forall i :: 0 <= i < |items| && items[i].status.Dispatched? ==> HasItsPrice(items[i], market)
  }

  function UpdatesOf(items: seq<Item>, chunk: seq<nat>): (u: seq<PriceUpdate>)
    requires forall k :: 0 <= k < |chunk| ==> chunk[k] < |items|
    ensures |u| == |chunk|
    ensures forall k :: 0 <= k < |chunk| ==> u[k] == PriceUpdate(items[chunk[k]].sku, items[chunk[k]].finalPrice)
  {
    seq(|chunk|, k requires 0 <= k < |chunk| => PriceUpdate(items[chunk[k]].sku, items[chunk[k]].finalPrice))
  }

  /** A call for pending items, whatever part of it takes effect and in whatever order, leaves
      the prices of dispatched items alone; an accepted call sets the final prices it carries. */
  lemma CallKeepsFaithful(items: seq<Item>, market: Bucket, chunk: seq<nat>, accepted: bool, applied: seq<PriceUpdate>)
    requires DistinctItems(items) && Faithful(items, market) && Distinct(chunk)
    requires forall k :: 0 <= k < |chunk| ==> chunk[k] < |items| && items[chunk[k]].status.Pending?
    requires forall u :: u in applied ==> u in UpdatesOf(items, chunk)
    requires accepted ==> applied == UpdatesOf(items, chunk)
    ensures Faithful(items, ApplyAll(market, applied))
    ensures accepted ==> forall k :: 0 <= k < |chunk| ==> HasItsPrice(items[chunk[k]], ApplyAll(market, applied))
  {
    ApplyAllPrices(market, applied);
    forall i | 0 <= i < |items| && items[i].status.Dispatched? && items[i].sku in market
      ensures ApplyAll(market, applied)[items[i].sku] == market[items[i].sku]
    {
      forall u | u in applied ensures u.sku != items[i].sku {
        var k :| 0 <= k < |chunk| && u == UpdatesOf(items, chunk)[k];
      }
    }
    if accepted {
      forall k | 0 <= k < |chunk| && items[chunk[k]].sku in market
        ensures ApplyAll(market, applied)[items[chunk[k]].sku] == items[chunk[k]].finalPrice
      {
        assert applied[k].sku == items[chunk[k]].sku;
      }
    }
  }

  /** The items without their status. */
  function Stripped(items: seq<Item>): (r: seq<Item>)
    ensures |r| == |items|
    ensures forall i :: 0 <= i < |items| ==> r[i] == items[i].(status := Pending)
  {
    seq(|items|, i requires 0 <= i < |items| => items[i].(status := Pending))
  }

  /** Only listed items have changed, and only to this status. */
  ghost predicate ChangedOnly(was: seq<Item>, now: seq<Item>, list: seq<nat>, s: ItemStatus) {
    && |now| == |was|
    && forall i :: 0 <= i < |was| ==> now[i] == was[i] || (i in list && now[i] == was[i].(status := s))
  }

  /** Every listed item has this status, unless it could not be written. */
  ghost predicate Reached(now: seq<Item>, list: seq<nat>, unmarked: set<nat>, s: ItemStatus) {
    forall k :: 0 <= k < |list| ==> list[k] < |now| && (now[list[k]].status == s || list[k] in unmarked)
  }

  lemma ChangedOnlyStrips(was: seq<Item>, now: seq<Item>, list: seq<nat>, s: ItemStatus)
    requires ChangedOnly(was, now, list, s)
    ensures Stripped(now) == Stripped(was)
  {}

  lemma ChangedNext(was: seq<Item>, now: seq<Item>, next: seq<Item>, list: seq<nat>, k: nat, unmarked: set<nat>,
                    more: set<nat>, s: ItemStatus)
    requires k < |list| && list[k] < |was| && ChangedOnly(was, now, list[..k], s) &&
             Reached(now, list[..k], unmarked, s)
    requires next == now || next == now[list[k] := now[list[k]].(status := s)]
    requires unmarked <= more && (next[list[k]].status == s || list[k] in more)
    ensures ChangedOnly(was, next, list[..k + 1], s) && Reached(next, list[..k + 1], more, s)
  {
    assert list[..k + 1] == list[..k] + [list[k]];
    forall l | 0 <= l < k + 1 ensures next[list[l]].status == s || list[l] in more {
      if l < k { assert list[..k][l] == list[l]; }
    }
  }

  /** The item of this index, one that was ever pending, has this SKU and final price. */
  ghost predicate Explains(items: seq<Item>, frozen: set<nat>, i: nat, sku: Sku, price: real) {
    i < |items| && i !in frozen && items[i].sku == sku && items[i].finalPrice == price
  }

  /** The marketplace still has its SKUs and no others, and a price that has changed is the final price
      of an item that was pending. */
  ghost predicate Moved(was: Bucket, now: Bucket, items: seq<Item>, frozen: set<nat>) {
    && now.Keys == was.Keys
    && forall sku :: sku in was && now[sku] != was[sku] ==> exists i :: Explains(items, frozen, i, sku, now[sku])
  }

  /** A call moves only the prices of its items, and each only to its final price. */
  lemma CallMoves(items: seq<Item>, market: Bucket, chunk: seq<nat>, applied: seq<PriceUpdate>)
    requires forall k :: 0 <= k < |chunk| ==> chunk[k] < |items|
    requires forall u :: u in applied ==> u in UpdatesOf(items, chunk)
    ensures ApplyAll(market, applied).Keys == market.Keys
    ensures forall sku :: sku in market && ApplyAll(market, applied)[sku] != market[sku] ==>
              exists k :: 0 <= k < |chunk| && items[chunk[k]].sku == sku
                          && items[chunk[k]].finalPrice == ApplyAll(market, applied)[sku]
  {
    ApplyAllPrices(market, applied);
    var now := ApplyAll(market, applied);
    forall sku | sku in market && now[sku] != market[sku]
      ensures exists k :: 0 <= k < |chunk| && items[chunk[k]].sku == sku && items[chunk[k]].finalPrice == now[sku]
    {
      ChangedPriceIsGiven(market, applied, sku);
      var u :| u in applied && u.sku == sku && now[sku] == u.newPrice;
      var k :| 0 <= k < |chunk| && u == UpdatesOf(items, chunk)[k];
      assert items[chunk[k]].sku == sku && items[chunk[k]].finalPrice == now[sku];
    }
  }

  lemma MovedOn(was: Bucket, before: Bucket, now: Bucket, items: seq<Item>, frozen: set<nat>, chunk: seq<nat>)
    requires Moved(was, before, items, frozen) && now.Keys == before.Keys
    requires forall k :: 0 <= k < |chunk| ==> chunk[k] < |items| && chunk[k] !in frozen
    requires forall sku :: sku in before && now[sku] != before[sku] ==>
               exists k :: 0 <= k < |chunk| && items[chunk[k]].sku == sku && items[chunk[k]].finalPrice == now[sku]
    ensures Moved(was, now, items, frozen)
  {
    forall sku | sku in was && now[sku] != was[sku] ensures exists i :: Explains(items, frozen, i, sku, now[sku]) {
      if now[sku] != before[sku] {
        var k :| 0 <= k < |chunk| && items[chunk[k]].sku == sku && items[chunk[k]].finalPrice == now[sku];
        assert Explains(items, frozen, chunk[k], sku, now[sku]);
      } else {
        var i :| Explains(items, frozen, i, sku, before[sku]);
        assert Explains(items, frozen, i, sku, now[sku]);
      }
    }
  }

  predicate Finished(s: PlanStatus) {
    s.Applied? || s.Partial? || s.FailedPlan?
  }

  // ---- The course of an attempt ----

  // A run in which few statements fail: the marketplace's answer to each call, the items whose
  // status can never be written, whether an exhausted job can list its pending items, and whether the
  // shop's credentials are sound.
  datatype Rehearsal = Rehearsal(answers: nat -> Answer, unmarkable: set<nat>, listable: bool, credentials: bool)

  /** The items after the listed ones, but for some, got a status. */
  function Marking(items: seq<Item>, list: seq<nat>, but: set<nat>, s: ItemStatus): (r: seq<Item>)
    ensures |r| == |items|
    ensures forall i :: 0 <= i < |items| ==> r[i] == if i in list && i !in but then items[i].(status := s) else items[i]
  {
    seq(|items|, i requires 0 <= i < |items| => if i in list && i !in but then items[i].(status := s) else items[i])
  }

  lemma MarkingNext(items: seq<Item>, list: seq<nat>, k: nat, but: set<nat>, s: ItemStatus)
    requires k < |list|
    ensures Marking(Marking(items, list[..k], but, s), [list[k]], but, s) == Marking(items, list[..k + 1], but, s)
  {
    assert list[..k + 1] == list[..k] + [list[k]];
  }

  // What an attempt leaves: items, plan, the number of calls so far, and what it returns.
  datatype Course = Course(items: seq<Item>, plan: PlanStatus, calls: nat, result: Result)

  /** The chunk loop from position `from` of the list, up to the finalization of the plan. */
  function SendingCourse(h: Rehearsal, items: seq<Item>, plan: PlanStatus, list: seq<nat>, from: nat, size: int,
                         calls: nat): Course
    requires from <= |list|
    decreases |list| - from
  {
    if from == |list| then Course(items, Finalized(plan, items), calls, Success) else
      var end := Min(from + ChunkSize(size), |list|);
      match h.answers(calls)
      case Accepted =>
        SendingCourse(h, Marking(items, list[from..end], h.unmarkable, Dispatched), plan, list, end, size, calls + 1)
      case Unauthorized => Course(Marking(items, list, h.unmarkable, Failed), FailedPlan, calls + 1, UnauthorizedErr)
      case _ => Course(items, plan, calls + 1, OtherErr)
  }

  /** What the answer to a chunk leads to; the loop goes on when `end` is None. */
  ghost predicate Answered(h: Rehearsal, before: Course, after: Course, list: seq<nat>, chunk: seq<nat>, goesOn: bool) {
    && after.calls == before.calls + 1
    && match h.answers(before.calls)
       case Accepted =>
         goesOn && after.items == Marking(before.items, chunk, h.unmarkable, Dispatched) && after.plan == before.plan
       case Unauthorized =>
         !goesOn && after.result.UnauthorizedErr? && after.plan.FailedPlan?
         && after.items == Marking(before.items, list, h.unmarkable, Failed)
       case _ => !goesOn && after.result.OtherErr? && after.items == before.items && after.plan == before.plan
  }

  lemma CourseNext(h: Rehearsal, before: Course, after: Course, list: seq<nat>, from: nat, next: nat,
                   chunk: seq<nat>, size: int, goesOn: bool)
    requires from < next == Min(from + ChunkSize(size), |list|) && chunk == list[from..next]
    requires Answered(h, before, after, list, chunk, goesOn)
    ensures SendingCourse(h, before.items, before.plan, list, from, size, before.calls)
            == if goesOn then SendingCourse(h, after.items, after.plan, list, next, size, after.calls) else after
  {
    match h.answers(before.calls) {
      case Accepted =>
      case Unauthorized =>
      case _ =>
    }
  }

  function Finalized(plan: PlanStatus, items: seq<Item>): PlanStatus {
    if CountOf(items, Pending) > 0 then plan else FinalStatus(CountOf(items, Dispatched) > 0,
        CountOf(items, Failed) > 0)
  }

  function AttemptCourse(h: Rehearsal, items: seq<Item>, plan: PlanStatus, size: int, calls: nat): Course {
    if IsTerminalPlanStatus(plan) then Course(items, plan, calls, Success)
    else ListedCourse(h, items, CompareAndSet(plan, Calculated, Dispatching), PendingItems(items), size, calls)
  }

  /** What becomes of the listed items: broken credentials are a refusal without a call. */
  function ListedCourse(h: Rehearsal, items: seq<Item>, plan: PlanStatus, list: seq<nat>, size: int,
                        calls: nat): Course {
    if list != [] && !h.credentials then
      Course(Marking(items, list, h.unmarkable, Failed), FailedPlan, calls, UnauthorizedErr)
    else SendingCourse(h, items, plan, list, 0, size, calls)
  }

  /** For every plan and chunk size: an attempt with one chunk accepted and the next rate limited,
      and then one that is refused, leave a plan that is `failed` although items were dispatched. */
  lemma RefusedAfterPartialSend(h: Rehearsal, items: seq<Item>, plan: PlanStatus, size: int)
    requires !IsTerminalPlanStatus(plan) && h.unmarkable == {} && |PendingItems(items)| > ChunkSize(size)
    requires h.credentials
    requires h.answers(0).Accepted? && h.answers(1).RateLimited? && h.answers(2).Unauthorized?
    ensures var first := AttemptCourse(h, items, plan, size, 0);
      var second := AttemptCourse(h, first.items, first.plan, size, first.calls);
      && first.result.OtherErr? && second.result.UnauthorizedErr? && second.plan.FailedPlan?
      && NonePending(second.items) && !Classifies(second.plan, second.items) && Classifies(Partial, second.items)
  {
    var list, n := PendingItems(items), ChunkSize(size);
    var chunk := list[0..n];
    var sent := Marking(items, chunk, {}, Dispatched);
    var p := CompareAndSet(plan, Calculated, Dispatching);
    assert SendingCourse(h, sent, p, list, n, size, 1) == Course(sent, p, 2, OtherErr);
    assert AttemptCourse(h, items, plan, size, 0) == Course(sent, p, 2, OtherErr);
    var rest := PendingItems(sent);
    assert list[n] in list && list[n] !in chunk;
    assert list[n] in rest;
    var failed := Marking(sent, rest, {}, Failed);
    assert SendingCourse(h, sent, p, rest, 0, size, 2) == Course(failed, FailedPlan, 3, UnauthorizedErr);
    assert chunk[0] == list[0] && list[0] in list;
    assert failed[list[0]].status.Dispatched? && failed[list[n]].status.Failed?;
  }

  /** For every plan and every set of items whose status cannot be written: an attempt whose calls
      are all accepted returns success and leaves exactly those of its items pending; then and only
      then the plan is not finished. */
  lemma LostMarksStayPending(h: Rehearsal, items: seq<Item>, plan: PlanStatus, size: int, calls: nat)
    requires !IsTerminalPlanStatus(plan) && h.credentials && forall k :: h.answers(k).Accepted?
    ensures var c := AttemptCourse(h, items, plan, size, calls);
      && c.result.Success? && |c.items| == |items|
      && (forall i :: 0 <= i < |items| ==> (c.items[i].status.Pending?
          <==> items[i].status.Pending? && i in h.unmarkable))
      && (!Finished(c.plan) <==> exists i :: 0 <= i < |items| && items[i].status.Pending? && i in h.unmarkable)
  {
    var list, p := PendingItems(items), CompareAndSet(plan, Calculated, Dispatching);
    assert Marking(items, list[..0], h.unmarkable, Dispatched) == items;
    AllAccepted(h, items, p, list, 0, size, calls);
    CountsClassify(Marking(items, list, h.unmarkable, Dispatched));
  }

  lemma {:induction false} AllAccepted(h: Rehearsal, items: seq<Item>, plan: PlanStatus, list: seq<nat>, from: nat,
                                       size: int, calls: nat)
    requires from <= |list| && forall k :: h.answers(k).Accepted?
    ensures var c := SendingCourse(h, Marking(items, list[..from], h.unmarkable, Dispatched), plan, list, from, size,
              calls);
      var all := Marking(items, list, h.unmarkable, Dispatched);
      c.result.Success? && c.items == all && c.plan == Finalized(plan, all)
    decreases |list| - from
  {
    if from == |list| {
      assert list[..from] == list;
    } else {
      var end := Min(from + ChunkSize(size), |list|);
      assert list[..end] == list[..from] + list[from..end];
      assert Marking(Marking(items, list[..from], h.unmarkable, Dispatched), list[from..end], h.unmarkable, Dispatched)
          == Marking(items, list[..end], h.unmarkable, Dispatched);
      AllAccepted(h, items, plan, list, end, size, calls + 1);
    }
  }
}
