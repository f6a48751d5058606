/** auto.ts: `processOrder` turns the shared order path into a result
    record, `processOrdersRecursively` runs passes over the pending orders
    with a fresh session between passes, and the top-level function reads
    the rows, starts the browser and keeps it open after the summary.

    The bookkeeping loop of `processOrdersRecursively`, as written, never
    leaves a pass in which some result is fulfilled (see `AsWrittenFrom`);
    the passes here use the loop the comments describe (`SettleBatch`). */
module AutoTs {
  import opened Js
  import opened Browser
  import opened Navigation
  import opened Records
  import opened PlaywrightOrder
  import opened Sessions

  datatype Status = Success | Failed

  /** `ProcessingResult`: the order number, the status and, for a failure,
      the error message. */
  datatype ProcessingResult = ProcessingResult(orderNo: Option<string>, status: Status, error: Option<string>)

  function NotFoundMessage(orderNo: Option<string>): string {
    "98: " + Show(orderNo) + ": Order not found in search results"
  }

  function NotReceivedMessage(orderNo: Option<string>, status: string): string {
    "143: Order " + Show(orderNo) + " status is \"" + status + "\" - skipping"
  }

  function BelowMessage(orderNo: Option<string>, current: string, base: Option<string>): string {
    "Order No: " + Show(orderNo) + " Current value " + current
    + " is less than total invoice base amount " + Show(base)
  }

  /** `processOrder`: every way the path stops is turned into a record.
      The three gates throw an error whose message the catch puts into a
      failed record, like any error from the browser; only a saved draft is
      a success. The promise therefore always fulfils. */
  function ProcessOrder(order: Order, orderIndex: nat, p: PageOracle): (r: ProcessingResult)
    ensures r.orderNo == Field(order, "Order no")
    ensures r.status == Success <==> r.error.None?
  {
    var f := FieldsOf(order);
    match RunOrder(f, orderIndex == 0, p).stage
    case Filled => ProcessingResult(f.orderNo, Success, None)
    case Threw(m) => ProcessingResult(f.orderNo, Failed, Some(m))
    case NotFound => ProcessingResult(f.orderNo, Failed, Some(NotFoundMessage(f.orderNo)))
    case NotReceived(s) => ProcessingResult(f.orderNo, Failed, Some(NotReceivedMessage(f.orderNo, s)))
    case Below(c) => ProcessingResult(f.orderNo, Failed, Some(BelowMessage(f.orderNo, c, f.baseAmount)))
  }

  /** A success means the order passed every gate and the draft was saved. */
  lemma ProcessOrderSuccessPassedEveryGate(order: Order, orderIndex: nat, p: PageOracle)
    requires ProcessOrder(order, orderIndex, p).status == Success
    ensures PlaywrightNav(p.nav).result.Navigated? && p.mainFrame
    ensures p.linkCount.Read? && p.linkCount.value > 0
    ensures p.status.Read? && IsReceived(p.status.value)
    ensures p.amount.Read? && !AmountBelow(p.amount.value, Field(order, "Total Invoice Base Amount (Quantity)"))
    ensures EndsWithSave(RunOrder(FieldsOf(order), orderIndex == 0, p).trace)
  {
    FilledPassedEveryGate(FieldsOf(order), orderIndex == 0, p);
  }

  /** The page got as far as the search for the order number. */
  predicate Searched(order: Order, p: PageOracle) {
    PlaywrightNav(p.nav).result.Navigated? && p.mainFrame
    && RunBlock(SearchSteps(Field(order, "Order no")), p.search).error.None?
  }

  /** A missing link gives a failed record with the "not found" message. */
  lemma ProcessOrderNotFound(order: Order, orderIndex: nat, p: PageOracle)
    requires Searched(order, p) && p.linkCount == Read(0)
    ensures ProcessOrder(order, orderIndex, p)
      == ProcessingResult(Field(order, "Order no"), Failed, Some(NotFoundMessage(Field(order, "Order no"))))
  {
  }

  /** A status cell that does not trim to RECEIVED gives a failed record
      quoting the trimmed status. */
  lemma ProcessOrderNotReceived(order: Order, orderIndex: nat, p: PageOracle, status: string)
    requires Searched(order, p) && p.linkCount.Read? && p.linkCount.value > 0
    requires RunBlock(RowSteps, p.row).error.None? && p.status == Read(status) && !IsReceived(status)
    ensures ProcessOrder(order, orderIndex, p)
      == ProcessingResult(Field(order, "Order no"), Failed,
                          Some(NotReceivedMessage(Field(order, "Order no"), Trim(status))))
  {
  }

  /** An amount below the base amount gives a failed record naming both. */
  lemma ProcessOrderBelow(order: Order, orderIndex: nat, p: PageOracle, current: string)
    requires Searched(order, p) && p.linkCount.Read? && p.linkCount.value > 0
    requires RunBlock(RowSteps, p.row).error.None? && p.status.Read? && IsReceived(p.status.value)
    requires RunBlock(OpenSteps, p.open).error.None? && p.amount == Read(current)
    requires AmountBelow(current, Field(order, "Total Invoice Base Amount (Quantity)"))
    ensures ProcessOrder(order, orderIndex, p)
      == ProcessingResult(Field(order, "Order no"), Failed,
                          Some(BelowMessage(Field(order, "Order no"), current,
                                            Field(order, "Total Invoice Base Amount (Quantity)"))))
  {
    var f, first := FieldsOf(order), orderIndex == 0;
    assert ReceivedStage(f, first, p).stage == Below(current);
    assert FoundStage(f, first, p).stage == Below(current);
    assert SearchStage(f, first, p).stage == Below(current);
  }

  // ---------------------------------------------------------------------
  // One pass: the settled results of `Promise.allSettled`

  /** What `Promise.allSettled` reports for one order. */
  datatype Settled = Fulfilled(value: ProcessingResult) | Rejected(reason: string)

  /** The record pushed for a rejected order. */
  function FailedRecord(order: Order, reason: string): ProcessingResult {
    ProcessingResult(Field(order, "Order no"), Failed, Some(reason))
  }

  /** The record a settled result stands for. */
  function Record(order: Order, s: Settled): ProcessingResult {
    match s
    case Fulfilled(v) => v
    case Rejected(reason) => FailedRecord(order, reason)
  }

  /** The records the comments promise: one per settled result, in order. */
  function BatchRecords(pending: seq<Order>, batch: seq<Settled>): (r: seq<ProcessingResult>)
    requires |pending| == |batch|
    decreases |batch|
    ensures |r| == |batch|
    ensures forall j :: 0 <= j < |batch| ==> r[j] == Record(pending[j], batch[j])
  {
    if batch == [] then []
    else
      var n := |batch| - 1;
      BatchRecords(pending[..n], batch[..n]) + [Record(pending[n], batch[n])]
  }

  /** The orders the comments say stay pending: those whose result was rejected. */
  function KeptOrders(pending: seq<Order>, batch: seq<Settled>): seq<Order>
    requires |pending| == |batch|
    decreases |batch|
  {
    if batch == [] then []
    else
      var n := |batch| - 1;
      KeptOrders(pending[..n], batch[..n]) + (if batch[n].Rejected? then [pending[n]] else [])
  }

  /** Exactly the orders with a rejected result stay pending, in order. */
  lemma {:induction false} KeptOrdersAreRejected(pending: seq<Order>, batch: seq<Settled>)
    requires |pending| == |batch|
    decreases |batch|
    ensures forall j :: 0 <= j < |batch| && batch[j].Rejected? ==> pending[j] in KeptOrders(pending, batch)
    ensures forall o :: o in KeptOrders(pending, batch) ==>
      exists j :: 0 <= j < |batch| && batch[j].Rejected? && pending[j] == o
    ensures |KeptOrders(pending, batch)| <= |pending|
  {
    if batch != [] {
      var n := |batch| - 1;
      KeptOrdersAreRejected(pending[..n], batch[..n]);
      var prior := KeptOrders(pending[..n], batch[..n]);
      assert KeptOrders(pending, batch) == prior + (if batch[n].Rejected? then [pending[n]] else []);
      forall o | o in KeptOrders(pending, batch)
        ensures exists j :: 0 <= j < |batch| && batch[j].Rejected? && pending[j] == o
      {
        if o in prior {
          var j :| 0 <= j < n && batch[..n][j].Rejected? && pending[..n][j] == o;
          assert batch[j].Rejected? && pending[j] == o;
        } else {
          assert batch[n].Rejected? && pending[n] == o;
        }
      }
    }
  }

  /** With every result fulfilled nothing stays pending. */
  lemma {:induction false} KeptOrdersAllFulfilled(pending: seq<Order>, batch: seq<Settled>)
    requires |pending| == |batch|
    requires forall j :: 0 <= j < |batch| ==> batch[j].Fulfilled?
    decreases |batch|
    ensures KeptOrders(pending, batch) == []
  {
    if batch != [] {
      var n := |batch| - 1;
      KeptOrdersAllFulfilled(pending[..n], batch[..n]);
    }
  }

  /** With every result rejected every order stays pending. */
  lemma {:induction false} KeptOrdersAllRejected(pending: seq<Order>, batch: seq<Settled>)
    requires |pending| == |batch|
    requires forall j :: 0 <= j < |batch| ==> batch[j].Rejected?
    decreases |batch|
    ensures KeptOrders(pending, batch) == pending
  {
    if batch != [] {
      var n := |batch| - 1;
      KeptOrdersAllRejected(pending[..n], batch[..n]);
      assert pending == pending[..n] + [pending[n]];
    }
  }

  /** The bookkeeping loop as the comments describe it: every result is
      pushed once, a fulfilled order leaves the pending list and a rejected
      one stays. The result index and the pending index are kept apart. */
  method SettleBatch(pending: seq<Order>, batch: seq<Settled>, results: seq<ProcessingResult>)
    returns (results': seq<ProcessingResult>, kept: seq<Order>)
    requires |pending| == |batch|
    ensures results' == results + BatchRecords(pending, batch)
    ensures kept == KeptOrders(pending, batch)
  {
    results', kept := results, [];
    for i := 0 to |batch|
      invariant results' == results + BatchRecords(pending[..i], batch[..i])
      invariant kept == KeptOrders(pending[..i], batch[..i])
    {
      assert pending[..i + 1][..i] == pending[..i] && batch[..i + 1][..i] == batch[..i];
      var result := batch[i];
      if result.Fulfilled? {
        results' := results' + [result.value];
      } else {
        results' := results' + [FailedRecord(pending[i], result.reason)];
        kept := kept + [pending[i]];
      }
    }
    assert pending[..|batch|] == pending && batch[..|batch|] == batch;
  }

  // ---------------------------------------------------------------------
  // The bookkeeping loop as written

  /** The loop's variables at the head of an iteration. `i` is never
      negative there: `i--` and the loop's `i++` cancel out. */
  datatype SettleState = SettleState(i: nat, pending: seq<Order>, results: seq<ProcessingResult>)

  /** How the loop stopped: its condition became false, the iteration bound
      ran out first, or `order['Order no']` was read from the `undefined`
      past the end of the pending list. */
  datatype LoopEnd = Finished | StillLooping | OrderUndefined

  datatype AsWritten = AsWritten(state: SettleState, end: LoopEnd)

  /** `pendingOrders.splice(i, 1)`: removes the element at `i`, if any. */
  function Splice(p: seq<Order>, i: nat): (q: seq<Order>)
    ensures i < |p| ==> |q| == |p| - 1
    ensures i >= |p| ==> q == p
  {
    if i < |p| then p[..i] + p[i + 1..] else p
  }

  /** At most `fuel` iterations of the loop as written: the bound is
      `batchResults.length`, which no iteration changes, and a fulfilled
      result removes its order but leaves `i` where it was. */
  function AsWrittenFrom(batch: seq<Settled>, st: SettleState, fuel: nat): AsWritten
    decreases fuel
  {
    if st.i >= |batch| then AsWritten(st, Finished)
    else if fuel == 0 then AsWritten(st, StillLooping)
    else
      match batch[st.i]
      case Fulfilled(v) =>
        AsWrittenFrom(batch, SettleState(st.i, Splice(st.pending, st.i), st.results + [v]), fuel - 1)
      case Rejected(reason) =>
        if st.i >= |st.pending| then AsWritten(st, OrderUndefined)
        else AsWrittenFrom(batch, SettleState(st.i + 1, st.pending,
                                              st.results + [FailedRecord(st.pending[st.i], reason)]), fuel - 1)
  }

  /** The loop of auto.ts as written, for at most `fuel` iterations. */
  method SettleAsWritten(batch: seq<Settled>, pending: seq<Order>, results: seq<ProcessingResult>, fuel: nat)
    returns (r: AsWritten)
    ensures r == AsWrittenFrom(batch, SettleState(0, pending, results), fuel)
  {
    var i: int := 0;
    var pendingOrders := pending;
    var res := results;
    var steps: nat := 0;
    while i < |batch| && steps < fuel
      invariant 0 <= i && steps <= fuel
      invariant AsWrittenFrom(batch, SettleState(0, pending, results), fuel)
        == AsWrittenFrom(batch, SettleState(i, pendingOrders, res), fuel - steps)
      decreases fuel - steps
    {
      var result := batch[i];
      if result.Fulfilled? {
        res := res + [result.value];
        pendingOrders := Splice(pendingOrders, i);
        i := i - 1;
      } else {
        if i >= |pendingOrders| {
          return AsWritten(SettleState(i, pendingOrders, res), OrderUndefined);
        }
        res := res + [FailedRecord(pendingOrders[i], result.reason)];
      }
      i := i + 1;
      steps := steps + 1;
    }
    r := AsWritten(SettleState(i, pendingOrders, res), if i >= |batch| then Finished else StillLooping);
  }

  function Repeat(v: ProcessingResult, n: nat): (r: seq<ProcessingResult>)
    ensures |r| == n && forall j :: 0 <= j < n ==> r[j] == v
  {
    seq(n, _ => v)
  }

  /** A fulfilled result pins the loop: every further iteration pushes the
      same record again and removes one more order, and the loop never
      finishes. */
  lemma {:induction false} AsWrittenPinned(batch: seq<Settled>, st: SettleState, fuel: nat)
    requires st.i < |batch| && batch[st.i].Fulfilled?
    decreases fuel
    ensures var r := AsWrittenFrom(batch, st, fuel);
      && r.end == StillLooping && r.state.i == st.i
      && r.state.results == st.results + Repeat(batch[st.i].value, fuel)
      && |r.state.pending| == (if st.i < |st.pending| then |st.pending| - Min(fuel, |st.pending| - st.i) else |st.pending|)
  {
    if fuel > 0 {
      var next := SettleState(st.i, Splice(st.pending, st.i), st.results + [batch[st.i].value]);
      AsWrittenPinned(batch, next, fuel - 1);
      assert st.results + Repeat(batch[st.i].value, fuel)
        == next.results + Repeat(batch[st.i].value, fuel - 1);
    } else {
      assert st.results + Repeat(batch[st.i].value, 0) == st.results;
    }
  }

  function Min(a: int, b: int): int { if a <= b then a else b }

  /** A pass whose batch has a fulfilled result anywhere never finishes its
      bookkeeping loop, however many iterations are allowed. */
  lemma {:induction false} AsWrittenNeverFinishes(batch: seq<Settled>, st: SettleState, fuel: nat, k: nat)
    requires |st.pending| == |batch| && st.i <= k < |batch| && batch[k].Fulfilled?
    decreases fuel
    ensures AsWrittenFrom(batch, st, fuel).end == StillLooping
  {
    if batch[st.i].Fulfilled? {
      AsWrittenPinned(batch, st, fuel);
    } else if fuel > 0 {
      var next := SettleState(st.i + 1, st.pending,
                              st.results + [FailedRecord(st.pending[st.i], batch[st.i].reason)]);
      assert AsWrittenFrom(batch, st, fuel) == AsWrittenFrom(batch, next, fuel - 1);
      AsWrittenNeverFinishes(batch, next, fuel - 1, k);
    }
  }

  /** When every result is rejected the loop as written does what the
      comments promise. */
  lemma {:induction false} AsWrittenAllRejected(batch: seq<Settled>, st: SettleState, fuel: nat)
    requires |st.pending| == |batch| && st.i <= |batch| && fuel >= |batch| - st.i
    requires forall j :: 0 <= j < |batch| ==> batch[j].Rejected?
    decreases |batch| - st.i
    ensures var r := AsWrittenFrom(batch, st, fuel);
      && r.end == Finished && r.state.pending == st.pending
      && |r.state.results| == |st.results| + |batch| - st.i
      && r.state.results[..|st.results|] == st.results
      && forall j :: st.i <= j < |batch| ==> r.state.results[|st.results| + j - st.i] == FailedRecord(st.pending[j], batch[j].reason)
  {
    if st.i < |batch| {
      var next := SettleState(st.i + 1, st.pending,
                              st.results + [FailedRecord(st.pending[st.i], batch[st.i].reason)]);
      assert AsWrittenFrom(batch, st, fuel) == AsWrittenFrom(batch, next, fuel - 1);
      AsWrittenAllRejected(batch, next, fuel - 1);
      var r := AsWrittenFrom(batch, next, fuel - 1);
      assert r.state.results[..|next.results|][..|st.results|] == r.state.results[..|st.results|];
      assert r.state.results[|st.results|] == next.results[|st.results|];
    }
  }

  /** So without a fulfilled result the loop as written agrees with `SettleBatch`. */
  lemma AsWrittenAgreesWhenAllRejected(batch: seq<Settled>, pending: seq<Order>, results: seq<ProcessingResult>)
    requires |pending| == |batch|
    requires forall j :: 0 <= j < |batch| ==> batch[j].Rejected?
    ensures var r := AsWrittenFrom(batch, SettleState(0, pending, results), |batch|);
      && r.end == Finished
      && r.state.results == results + BatchRecords(pending, batch)
      && r.state.pending == KeptOrders(pending, batch)
  {
    var r := AsWrittenFrom(batch, SettleState(0, pending, results), |batch|);
    assert r.end == Finished && r.state.pending == pending by {
      AsWrittenAllRejected(batch, SettleState(0, pending, results), |batch|);
    }
    assert KeptOrders(pending, batch) == pending by {
      KeptOrdersAllRejected(pending, batch);
    }
    assert r.state.results == results + BatchRecords(pending, batch) by {
      var st := SettleState(0, pending, results);
      AsWrittenAllRejected(batch, st, |batch|);
      var rs := r.state.results;
      forall j | 0 <= j < |batch| ensures rs[|results| + j] == FailedRecord(pending[j], batch[j].reason) {
        assert rs[|st.results| + j - st.i] == FailedRecord(st.pending[j], batch[j].reason);
      }
      RejectedRecords(pending, batch, results, rs);
    }
  }

  /** Records pushed one failed record per rejected result, after `results`,
      are `results + BatchRecords(...)`. */
  lemma RejectedRecords(pending: seq<Order>, batch: seq<Settled>, results: seq<ProcessingResult>,
                        rs: seq<ProcessingResult>)
    requires |pending| == |batch|
    requires forall j :: 0 <= j < |batch| ==> batch[j].Rejected?
    requires |rs| == |results| + |batch| && rs[..|results|] == results
    requires forall j :: 0 <= j < |batch| ==> rs[|results| + j] == FailedRecord(pending[j], batch[j].reason)
    ensures rs == results + BatchRecords(pending, batch)
  {
    var records := BatchRecords(pending, batch);
    forall k | 0 <= k < |rs| ensures rs[k] == (results + records)[k] {
      if k >= |results| {
        assert rs[|results| + (k - |results|)] == records[k - |results|];
      } else {
        assert rs[k] == rs[..|results|][k];
      }
    }
  }

  /** The smallest case: one order and its fulfilled result. The comments
      promise one record and an empty pending list; the loop as written
      pushes the record once per iteration and never stops. */
  lemma AsWrittenOneOrder(order: Order, v: ProcessingResult, fuel: nat)
    ensures var r := AsWrittenFrom([Fulfilled(v)], SettleState(0, [order], []), fuel);
      r.end == StillLooping && r.state.results == Repeat(v, fuel)
    ensures BatchRecords([order], [Fulfilled(v)]) == [v] && KeptOrders([order], [Fulfilled(v)]) == []
  {
    AsWrittenPinned([Fulfilled(v)], SettleState(0, [order], []), fuel);
    assert [] + Repeat(v, fuel) == Repeat(v, fuel);
    KeptOrdersAllFulfilled([order], [Fulfilled(v)]);
  }

  // ---------------------------------------------------------------------
  // The passes of processOrdersRecursively

  /** What `processOrder` settles to in pass `pass` for the order at index
      `i` of the pending list. */
  type Settle = (nat, nat, Order) -> Settled

  /** `Promise.allSettled(pendingOrders.map(...))`: one settled result per
      pending order, each told its index in the pending list. */
  function Batch(settle: Settle, pass: nat, pending: seq<Order>): (b: seq<Settled>)
    ensures |b| == |pending|
  {
    seq(|pending|, i requires 0 <= i < |pending| => settle(pass, i, pending[i]))
  }

  /** The loop's state when it stops. */
  datatype Retry = Retry(results: seq<ProcessingResult>, pending: seq<Order>, passes: nat)

  /** The `while` loop from pass `pass` on, with the records pushed so far. */
  function RetryFrom(pending: seq<Order>, settle: Settle, pass: nat, maxRetries: int, done: seq<ProcessingResult>): Retry
    decreases maxRetries - pass
  {
    if |pending| == 0 || pass >= maxRetries then Retry(done, pending, pass)
    else
      var b := Batch(settle, pass, pending);
      RetryFrom(KeptOrders(pending, b), settle, pass + 1, maxRetries, done + BatchRecords(pending, b))
  }

  /** The records added after the loop for the orders still pending. */
  function MaxRetriesTail(pending: seq<Order>): (r: seq<ProcessingResult>)
    ensures |r| == |pending|
  {
    seq(|pending|, i requires 0 <= i < |pending| =>
      ProcessingResult(Field(pending[i], "Order no"), Failed, Some("Max retries exceeded")))
  }

  /** The value `processOrdersRecursively` resolves to. */
  function ProcessedResults(orders: seq<Order>, settle: Settle, maxRetries: int): seq<ProcessingResult> {
    var r := RetryFrom(orders, settle, 0, maxRetries, []);
    r.results + MaxRetriesTail(r.pending)
  }

  /** The calls the first `n` waits and recoveries between passes make. */
  function RecoveryTrace(recovery: seq<seq<Outcome>>, n: nat): seq<Action> {
    if n == 0 then []
    else RecoveryTrace(recovery, n - 1) + [Pause(10000)] + Made(RecreateSteps, RecoveryAt(recovery, n - 1))
  }

  /** `processOrdersRecursively`: passes while orders are pending and
      `retryCount < maxRetries`, a ten-second wait and a recovery of the
      session between passes, its error logged and dropped, and a record
      for every order still pending at the end. The caller's list is a
      value here, so the copy the script makes changes nothing. The session
      ends as the recoveries made leave it, and a recovery that failed is
      not retried. */
  method ProcessOrdersRecursively(s: Session, orders: seq<Order>, settle: Settle,
                                  recovery: seq<seq<Outcome>>, maxRetries: int)
    returns (results: seq<ProcessingResult>, passes: nat, recoveries: nat, trace: seq<Action>)
    modifies s
    ensures results == ProcessedResults(orders, settle, maxRetries)
    ensures passes == RetryFrom(orders, settle, 0, maxRetries, []).passes
    ensures recoveries == (if passes == 0 then 0 else passes - 1)
    ensures trace == RecoveryTrace(recovery, recoveries)
    ensures s.Snapshot() == SessionAfter(old(s.Snapshot()), recovery, recoveries)
  {
    ghost var start := s.Snapshot();
    results := [];
    var pendingOrders := orders;
    var retryCount: nat := 0;
    var more := |pendingOrders| > 0 && retryCount < maxRetries;
    recoveries, trace := 0, [];
    while more
      invariant more == (|pendingOrders| > 0 && retryCount < maxRetries)
      invariant RetryFrom(orders, settle, 0, maxRetries, [])
        == RetryFrom(pendingOrders, settle, retryCount, maxRetries, results)
      invariant recoveries == (if retryCount == 0 then 0 else if more then retryCount else retryCount - 1)
      invariant trace == RecoveryTrace(recovery, recoveries)
      invariant s.Snapshot() == SessionAfter(start, recovery, recoveries)
      decreases maxRetries - retryCount
    {
      var t;
      results, pendingOrders, more, t :=
        Pass(s, pendingOrders, settle, retryCount, maxRetries, results, RecoveryAt(recovery, recoveries));
      retryCount := retryCount + 1;
      if more {
        trace := trace + t;
        recoveries := recoveries + 1;
      }
    }
    passes := retryCount;
    results := PushMaxRetriesTail(results, pendingOrders);
  }

  /** One pass of the `while` loop: settle the pending orders, keep the
      rejected ones, and recover the session when another pass follows. */
  method Pass(s: Session, pending: seq<Order>, settle: Settle, retryCount: nat, maxRetries: int,
              results: seq<ProcessingResult>, outs: seq<Outcome>)
    returns (results': seq<ProcessingResult>, kept: seq<Order>, more: bool, trace: seq<Action>)
    modifies s
    requires |pending| > 0 && retryCount < maxRetries
    ensures RetryFrom(pending, settle, retryCount, maxRetries, results)
      == RetryFrom(kept, settle, retryCount + 1, maxRetries, results')
    ensures more == (|kept| > 0 && retryCount + 1 < maxRetries)
    ensures !more ==> s.Snapshot() == old(s.Snapshot()) && trace == []
    ensures more ==> s.Snapshot() == AfterRecreate(old(s.Snapshot()), outs)
    ensures more ==> trace == [Pause(10000)] + Made(RecreateSteps, outs)
  {
    var batch := Batch(settle, retryCount, pending);
    results', kept := SettleBatch(pending, batch, results);
    more := |kept| > 0 && retryCount + 1 < maxRetries;
    trace := [];
    if more {
      trace := RecoverBetweenPasses(s, outs);
    }
  }

  /** The ten-second wait and the session recovery between two passes;
      the recovery's error is logged and dropped. */
  method RecoverBetweenPasses(s: Session, outs: seq<Outcome>) returns (trace: seq<Action>)
    modifies s
    ensures trace == [Pause(10000)] + Made(RecreateSteps, outs)
    ensures s.Snapshot() == AfterRecreate(old(s.Snapshot()), outs)
  {
    var _, t := s.Recreate(outs);
    trace := [Pause(10000)] + t;
  }

  /** `pendingOrders.forEach(...)` after the loop: one failed record per
      order still pending. */
  method PushMaxRetriesTail(results: seq<ProcessingResult>, pending: seq<Order>)
    returns (results': seq<ProcessingResult>)
    ensures results' == results + MaxRetriesTail(pending)
  {
    results' := results;
    for j := 0 to |pending|
      invariant results' == results + MaxRetriesTail(pending[..j])
    {
      var record := ProcessingResult(Field(pending[j], "Order no"), Failed, Some("Max retries exceeded"));
      assert MaxRetriesTail(pending[..j + 1]) == MaxRetriesTail(pending[..j]) + [record];
      results' := results' + [record];
    }
    assert pending[..|pending|] == pending;
  }

  /** At most `maxRetries` passes; one at least when there is an order and a
      pass allowed; orders are left pending only when the passes ran out;
      only orders of the list stay pending; the records of earlier passes
      are kept. */
  lemma {:induction false} RetryFromBounds(pending: seq<Order>, settle: Settle, pass: nat, maxRetries: int,
                                           done: seq<ProcessingResult>)
    decreases maxRetries - pass
    ensures var r := RetryFrom(pending, settle, pass, maxRetries, done);
      && pass <= r.passes
      && (pass < maxRetries ==> r.passes <= maxRetries)
      && (|pending| > 0 && pass < maxRetries ==> pass < r.passes)
      && (r.pending != [] ==> r.passes >= maxRetries)
      && (forall o :: o in r.pending ==> o in pending)
      && |done| <= |r.results| && r.results[..|done|] == done
  {
    if |pending| > 0 && pass < maxRetries {
      var b := Batch(settle, pass, pending);
      var kept := KeptOrders(pending, b);
      var done' := done + BatchRecords(pending, b);
      KeptOrdersAreRejected(pending, b);
      RetryFromBounds(kept, settle, pass + 1, maxRetries, done');
      var r := RetryFrom(kept, settle, pass + 1, maxRetries, done');
      assert RetryFrom(pending, settle, pass, maxRetries, done) == r;
      assert r.results[..|done'|][..|done|] == r.results[..|done|];
      forall o | o in r.pending ensures o in pending {
        assert o in kept;
        var j :| 0 <= j < |b| && b[j].Rejected? && pending[j] == o;
      }
    }
  }

  /** When no result is ever rejected (as with `processOrder`), one pass
      settles every order: the records are the pass's results in order and
      nothing is left for the "Max retries exceeded" tail. */
  lemma NeverRejectedOnePass(orders: seq<Order>, settle: Settle, maxRetries: int)
    requires forall pass: nat, i: nat, o: Order :: settle(pass, i, o).Fulfilled?
    requires orders != [] && maxRetries >= 1
    ensures RetryFrom(orders, settle, 0, maxRetries, []).passes == 1
    ensures ProcessedResults(orders, settle, maxRetries)
      == seq(|orders|, i requires 0 <= i < |orders| => settle(0, i, orders[i]).value)
  {
    var b := Batch(settle, 0, orders);
    KeptOrdersAllFulfilled(orders, b);
    var recs := BatchRecords(orders, b);
    assert RetryFrom(orders, settle, 0, maxRetries, []) == Retry([] + recs, [], 1);
    assert MaxRetriesTail([]) == [];
  }

  /** When every result is rejected, every order stays pending through all
      `maxRetries` passes and ends with a "Max retries exceeded" record. */
  lemma {:induction false} AlwaysRejectedRunsOut(pending: seq<Order>, settle: Settle, pass: nat, maxRetries: int,
                                                 done: seq<ProcessingResult>)
    requires forall p: nat, i: nat, o: Order :: settle(p, i, o).Rejected?
    requires pending != [] && pass <= maxRetries
    decreases maxRetries - pass
    ensures var r := RetryFrom(pending, settle, pass, maxRetries, done);
      r.pending == pending && r.passes == maxRetries
  {
    if pass < maxRetries {
      var b := Batch(settle, pass, pending);
      KeptOrdersAllRejected(pending, b);
      AlwaysRejectedRunsOut(pending, settle, pass + 1, maxRetries, done + BatchRecords(pending, b));
    }
  }

  /** The tail names every order still pending, in order. */
  lemma MaxRetriesTailNamesOrders(pending: seq<Order>)
    ensures forall i :: 0 <= i < |pending| ==>
      MaxRetriesTail(pending)[i].orderNo == Field(pending[i], "Order no")
      && MaxRetriesTail(pending)[i].status == Failed
      && MaxRetriesTail(pending)[i].error == Some("Max retries exceeded")
  {
  }

  // ---------------------------------------------------------------------
  // The top-level function

  /** The page `processOrder` meets in each pass for each index. */
  type Pages = (nat, nat) -> PageOracle

  /** `processOrder` as the retry loop sees it: it catches its own errors,
      so it never rejects. */
  function ProcessOrderSettle(pages: Pages): Settle {
    (pass: nat, i: nat, o: Order) => Fulfilled(ProcessOrder(o, i, pages(pass, i)))
  }

  /** The first pass of `main` with the settling loop as written: with at
      least one row, the loop that collects the settled results never ends,
      however many iterations are allowed, so `main` never reaches its
      summary. */
  lemma AsWrittenMainNeverSettles(rows: seq<Order>, pages: Pages, fuel: nat)
    requires rows != []
    ensures AsWrittenFrom(Batch(ProcessOrderSettle(pages), 0, rows), SettleState(0, rows, []), fuel).end
      == StillLooping
  {
    var batch := Batch(ProcessOrderSettle(pages), 0, rows);
    assert batch[0].Fulfilled?;
    AsWrittenNeverFinishes(batch, SettleState(0, rows, []), fuel, 0);
  }

  /** The top-level async function, with the settling loop corrected (as
      written, it never finishes: see `AsWrittenMainNeverSettles`): no rows
      exit with code 1; an error while starting the browser or logging in is
      not caught and ends the process; otherwise every order is processed
      once and the browser stays open after the summary. */
  method AutoTsMain(rows: seq<Order>, startup: seq<Outcome>, pages: Pages, recovery: seq<seq<Outcome>>)
    returns (end: End, results: seq<ProcessingResult>)
    ensures rows == [] ==> end == Exited(1) && results == []
    ensures rows != [] && RunBlock(PlaywrightStartSteps, startup).error.Some? ==>
      end == Crashed(RunBlock(PlaywrightStartSteps, startup).error.value) && results == []
    ensures rows != [] && RunBlock(PlaywrightStartSteps, startup).error.None? ==>
      end == KeptOpen
      && results == seq(|rows|, i requires 0 <= i < |rows| => ProcessOrder(rows[i], i, pages(0, i)))
  {
    if |rows| == 0 {
      return Exited(1), [];
    }
    var start := RunBlock(PlaywrightStartSteps, startup);
    if start.error.Some? {
      return Crashed(start.error.value), [];
    }
    var s := new Session.Playwright();
    var settle := ProcessOrderSettle(pages);
    var passes, recoveries, trace;
    results, passes, recoveries, trace := ProcessOrdersRecursively(s, rows, settle, recovery, 3);
    NeverRejectedOnePass(rows, settle, 3);
    end := KeptOpen;
  }
}
