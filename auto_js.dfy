/** auto.js: the top-level async function reads the rows and, after start-up,
    runs the shared order path for each row of a `for...in` loop. A missing
    link, a status other than RECEIVED and the amount guard are a
    `continue`; a saved draft is followed by two `goBack` calls; any error
    is followed by a recovery of the session, and a recovery that fails
    closes the browser and exits with code 1. */
module AutoJs {
  import opened Js
  import opened Browser
  import opened Navigation
  import opened Records
  import opened PlaywrightOrder
  import opened Sessions

  /** The two `goBack` calls after a saved draft (inside the same `try`). */
  const BackSteps: seq<Action> := [GoBack, GoBack]

  /** What the loop body leads to for one row. */
  datatype OrderKind = SkipOrder(stage: Stage) | SavedOrder | ErrorOrder(message: string)

  datatype OrderStep = OrderStep(kind: OrderKind, trace: seq<Action>)

  /** The body of the `for...in` loop for the row with key `ShowNat(index)`:
      the order path with "Next number" clicked when the key `== 0`, and
      what the script makes of where the path stopped. */
  function OrderStepOf(order: Order, index: nat, p: PageOracle): (r: OrderStep)
    ensures r.kind.SkipOrder? ==> r.kind.stage.NotFound? || r.kind.stage.NotReceived? || r.kind.stage.Below?
  {
    var run := RunOrder(FieldsOf(order), LooseEqualsZero(ShowNat(index)), p);
    match run.stage
    case Threw(m) => OrderStep(ErrorOrder(m), run.trace)
    case Filled =>
      var back := RunBlock(BackSteps, p.back);
      var t := run.trace + Made(BackSteps, p.back);
      if back.error.Some? then OrderStep(ErrorOrder(back.error.value), t) else OrderStep(SavedOrder, t)
    case _ => OrderStep(SkipOrder(run.stage), run.trace)
  }

  /** A skipped row is left where the path stopped: no `goBack` is added,
      a tripped guard has written nothing into the form, and a missing
      link stops right after the count. */
  lemma SkippedRowFacts(order: Order, index: nat, p: PageOracle)
    requires OrderStepOf(order, index, p).kind.SkipOrder?
    ensures var f, first := FieldsOf(order), LooseEqualsZero(ShowNat(index));
      OrderStepOf(order, index, p).trace == RunOrder(f, first, p).trace
    ensures OrderStepOf(order, index, p).kind.stage.Below? ==> NoFormWrite(OrderStepOf(order, index, p).trace)
    ensures OrderStepOf(order, index, p).kind.stage.NotFound? ==>
      p.linkCount == Read(0) && OrderStepOf(order, index, p).trace[|OrderStepOf(order, index, p).trace| - 1] == ReadCount(OrderLink)
  {
    var f, first := FieldsOf(order), LooseEqualsZero(ShowNat(index));
    var run := RunOrder(f, first, p);
    assert OrderStepOf(order, index, p) == OrderStep(SkipOrder(run.stage), run.trace);
    if run.stage.Below? {
      BelowWritesNothing(f, first, p);
    } else if run.stage.NotFound? {
      NotFoundStopsAtCount(f, first, p);
    }
  }

  /** A saved row passed every gate, saved the draft and then went back twice. */
  lemma SavedRowFacts(order: Order, index: nat, p: PageOracle)
    requires OrderStepOf(order, index, p).kind.SavedOrder?
    ensures p.linkCount.Read? && p.linkCount.value > 0
    ensures p.status.Read? && IsReceived(p.status.value)
    ensures p.amount.Read? && !AmountBelow(p.amount.value, Field(order, "Total Invoice Base Amount (Quantity)"))
    ensures var t := OrderStepOf(order, index, p).trace;
      |t| >= 2 && t[|t| - 2..] == BackSteps
  {
    var f, first := FieldsOf(order), LooseEqualsZero(ShowNat(index));
    FilledPassedEveryGate(f, first, p);
    var run := RunOrder(f, first, p);
    assert RunBlock(BackSteps, p.back).made == 2;
  }

  /** "Next number" is clicked only on the row whose key is "0": the
      `for...in` key is a string, and only "0" is loosely equal to 0. */
  lemma NextNumberOnlyFirstRow(order: Order, index: nat, p: PageOracle)
    requires Click(NextNumber) in OrderStepOf(order, index, p).trace
    ensures index == 0
  {
    var f, first := FieldsOf(order), LooseEqualsZero(ShowNat(index));
    var run := RunOrder(f, first, p);
    assert Click(NextNumber) in run.trace by {
      if run.stage.Filled? {
        AbsentFromMade(BackSteps, p.back, Click(NextNumber));
        assert OrderStepOf(order, index, p).trace == run.trace + Made(BackSteps, p.back);
      }
    }
    NextNumberOnlyFirst(f, first, p);
    ForInKeyEqualsZero(index);
  }

  // ---------------------------------------------------------------------
  // The loop

  /** How the loop dealt with one row. */
  datatype Handling =
    | Skipped(stage: Stage)
    | Saved
    | Recovered(message: string)
    | RecoveryFailed(message: string, recoveryError: string)

  /** The loop's record of a row agrees with what the row's body led to. */
  predicate Matches(h: Handling, k: OrderKind) {
    match h
    case Skipped(st) => k == SkipOrder(st)
    case Saved => k == SavedOrder
    case Recovered(m) => k == ErrorOrder(m)
    case RecoveryFailed(m, _) => k == ErrorOrder(m)
  }

  /** The page each row meets. */
  type Pages = nat -> PageOracle

  /** The end after a failed recovery: `browser.close()` and `exit(1)`, or
      the error of `browser.close()`, which nothing catches. */
  function AfterFailedRecovery(close: Outcome): End {
    if close.Raised? then Crashed(close.message) else Exited(1)
  }

  datatype Loop = Loop(handled: seq<Handling>, end: End)

  /** What the body leads to for each row, in row order. */
  function Kinds(rows: seq<Order>, pages: Pages): (ks: seq<OrderKind>)
    ensures |ks| == |rows|
  {
    seq(|rows|, i requires 0 <= i < |rows| => OrderStepOf(rows[i], i, pages(i)).kind)
  }

  /** The loop from row `i` on, given what each row's body leads to, with
      `errors` recoveries made so far. */
  function LoopFrom(kinds: seq<OrderKind>, recovery: seq<seq<Outcome>>, close: Outcome,
                    i: nat, errors: nat, done: seq<Handling>): Loop
    requires i <= |kinds|
    decreases |kinds| - i
  {
    if i == |kinds| then Loop(done, KeptOpen)
    else
      match kinds[i]
      case SkipOrder(st) => LoopFrom(kinds, recovery, close, i + 1, errors, done + [Skipped(st)])
      case SavedOrder => LoopFrom(kinds, recovery, close, i + 1, errors, done + [Saved])
      case ErrorOrder(m) =>
        var rec := RunBlock(RecreateSteps, RecoveryAt(recovery, errors));
        if rec.error.None? then LoopFrom(kinds, recovery, close, i + 1, errors + 1, done + [Recovered(m)])
        else Loop(done + [RecoveryFailed(m, rec.error.value)], AfterFailedRecovery(close))
  }

  predicate NoFailedRecovery(hs: seq<Handling>) {
    forall j :: 0 <= j < |hs| ==> !hs[j].RecoveryFailed?
  }

  /** The rows are handled one by one, in order, each as its body says. */
  lemma {:induction false} LoopFromHandles(kinds: seq<OrderKind>, recovery: seq<seq<Outcome>>,
                                           close: Outcome, i: nat, errors: nat, done: seq<Handling>)
    requires i <= |kinds| && |done| == i
    decreases |kinds| - i
    ensures var r := LoopFrom(kinds, recovery, close, i, errors, done);
      && i <= |r.handled| <= |kinds| && r.handled[..i] == done
      && forall j :: i <= j < |r.handled| ==> Matches(r.handled[j], kinds[j])
  {
    if i < |kinds| {
      var kind := kinds[i];
      var rec := RunBlock(RecreateSteps, RecoveryAt(recovery, errors));
      if kind.ErrorOrder? && rec.error.Some? {
        var last := done + [RecoveryFailed(kind.message, rec.error.value)];
        assert LoopFrom(kinds, recovery, close, i, errors, done) == Loop(last, AfterFailedRecovery(close));
        assert last[..i] == done;
      } else {
        var h := if kind.SkipOrder? then Skipped(kind.stage)
                 else if kind.SavedOrder? then Saved
                 else Recovered(kind.message);
        var errors' := if kind.ErrorOrder? then errors + 1 else errors;
        var rest := LoopFrom(kinds, recovery, close, i + 1, errors', done + [h]);
        assert LoopFrom(kinds, recovery, close, i, errors, done) == rest;
        LoopFromHandles(kinds, recovery, close, i + 1, errors', done + [h]);
        assert rest.handled[..i + 1][..i] == rest.handled[..i];
        assert rest.handled[i] == h;
      }
    }
  }

  /** The browser stays open exactly when every row was handled with no
      failed recovery; otherwise the last row handled is the one whose
      recovery failed, no row is handled after it, and the script exits
      with code 1 (or with the error of `browser.close()`). */
  lemma {:induction false} LoopFromEnds(kinds: seq<OrderKind>, recovery: seq<seq<Outcome>>,
                                        close: Outcome, i: nat, errors: nat, done: seq<Handling>)
    requires i <= |kinds| && |done| == i && NoFailedRecovery(done)
    decreases |kinds| - i
    ensures var r := LoopFrom(kinds, recovery, close, i, errors, done);
      && (r.end == KeptOpen ==> |r.handled| == |kinds| && NoFailedRecovery(r.handled))
      && (r.end != KeptOpen ==>
            |r.handled| > i && r.handled[|r.handled| - 1].RecoveryFailed?
            && NoFailedRecovery(r.handled[..|r.handled| - 1]) && r.end == AfterFailedRecovery(close))
  {
    if i < |kinds| {
      var kind := kinds[i];
      var rec := RunBlock(RecreateSteps, RecoveryAt(recovery, errors));
      if kind.ErrorOrder? && rec.error.Some? {
        var last := done + [RecoveryFailed(kind.message, rec.error.value)];
        assert LoopFrom(kinds, recovery, close, i, errors, done) == Loop(last, AfterFailedRecovery(close));
        assert last[..|last| - 1] == done;
      } else {
        var h := if kind.SkipOrder? then Skipped(kind.stage)
                 else if kind.SavedOrder? then Saved
                 else Recovered(kind.message);
        var errors' := if kind.ErrorOrder? then errors + 1 else errors;
        assert LoopFrom(kinds, recovery, close, i, errors, done)
          == LoopFrom(kinds, recovery, close, i + 1, errors', done + [h]);
        LoopFromEnds(kinds, recovery, close, i + 1, errors', done + [h]);
      }
    }
  }

  /** The number of recoveries the handled rows started. */
  function Recoveries(hs: seq<Handling>): nat {
    if hs == [] then 0
    else
      var h := hs[|hs| - 1];
      Recoveries(hs[..|hs| - 1]) + (if h.Recovered? || h.RecoveryFailed? then 1 else 0)
  }

  /** The calls each row's body makes, in row order. */
  function Bodies(rows: seq<Order>, pages: Pages): (bs: seq<seq<Action>>)
    ensures |bs| == |rows|
  {
    seq(|rows|, i requires 0 <= i < |rows| => OrderStepOf(rows[i], i, pages(i)).trace)
  }

  /** The calls the loop makes for the handled rows: each row's body, then
      the recovery block after an error, then `browser.close()` when that
      recovery fails. */
  function LoopTrace(bodies: seq<seq<Action>>, recovery: seq<seq<Outcome>>, hs: seq<Handling>): seq<Action>
    requires |hs| <= |bodies|
  {
    if hs == [] then []
    else
      var j := |hs| - 1;
      var h := hs[j];
      LoopTrace(bodies, recovery, hs[..j]) + bodies[j]
      + (if h.Recovered? || h.RecoveryFailed? then Made(RecreateSteps, RecoveryAt(recovery, Recoveries(hs[..j])))
         else [])
      + (if h.RecoveryFailed? then [CloseBrowser] else [])
  }

  /** The browser stays open only if every recovery the loop started
      completed; otherwise every recovery but the last completed, and the
      last one failed. */
  lemma {:induction false} LoopFromRecoveries(kinds: seq<OrderKind>, recovery: seq<seq<Outcome>>,
                                              close: Outcome, i: nat, errors: nat, done: seq<Handling>)
    requires i <= |kinds| && |done| == i && Recoveries(done) == errors
    requires forall k :: 0 <= k < errors ==> RecreateCompletes(RecoveryAt(recovery, k))
    decreases |kinds| - i
    ensures var r := LoopFrom(kinds, recovery, close, i, errors, done);
      && (r.end == KeptOpen ==>
            forall k :: 0 <= k < Recoveries(r.handled) ==> RecreateCompletes(RecoveryAt(recovery, k)))
      && (r.end != KeptOpen ==>
            && Recoveries(r.handled) > 0
            && !RecreateCompletes(RecoveryAt(recovery, Recoveries(r.handled) - 1))
            && forall k :: 0 <= k < Recoveries(r.handled) - 1 ==> RecreateCompletes(RecoveryAt(recovery, k)))
  {
    if i < |kinds| {
      var kind := kinds[i];
      var rec := RunBlock(RecreateSteps, RecoveryAt(recovery, errors));
      if kind.ErrorOrder? && rec.error.Some? {
        var last := done + [RecoveryFailed(kind.message, rec.error.value)];
        assert LoopFrom(kinds, recovery, close, i, errors, done) == Loop(last, AfterFailedRecovery(close));
        assert last[..|last| - 1] == done;
      } else {
        var h := if kind.SkipOrder? then Skipped(kind.stage)
                 else if kind.SavedOrder? then Saved
                 else Recovered(kind.message);
        var errors' := if kind.ErrorOrder? then errors + 1 else errors;
        assert LoopFrom(kinds, recovery, close, i, errors, done)
          == LoopFrom(kinds, recovery, close, i + 1, errors', done + [h]);
        assert (done + [h])[..|done|] == done;
        LoopFromRecoveries(kinds, recovery, close, i + 1, errors', done + [h]);
      }
    }
  }

  /** After a run of the loop that kept the browser open, the session holds
      context and page number 1 + the number of errors, has both 60-second
      timeouts and is logged in; after one that did not, the last recovery
      is the one that failed. */
  lemma KeptOpenSession(kinds: seq<OrderKind>, recovery: seq<seq<Outcome>>, close: Outcome)
    ensures var r := LoopFrom(kinds, recovery, close, 0, 0, []);
      var n := Recoveries(r.handled);
      var st := SessionAfter(PlaywrightStart, recovery, n);
      && (r.end == KeptOpen ==> PlaywrightReady(st) && st.context == 1 + n && st.page == 1 + n)
      && (r.end != KeptOpen ==> n > 0 && !RecreateCompletes(RecoveryAt(recovery, n - 1)))
  {
    var r := LoopFrom(kinds, recovery, close, 0, 0, []);
    LoopFromRecoveries(kinds, recovery, close, 0, 0, []);
    if r.end == KeptOpen {
      CompletedRecreations(PlaywrightStart, recovery, Recoveries(r.handled));
    }
  }

  /** One more handled row extends the trace by that row's calls. */
  lemma LoopTraceStep(bodies: seq<seq<Action>>, recovery: seq<seq<Outcome>>, hs: seq<Handling>, h: Handling)
    requires |hs| < |bodies|
    ensures Recoveries(hs + [h]) == Recoveries(hs) + (if h.Recovered? || h.RecoveryFailed? then 1 else 0)
    ensures LoopTrace(bodies, recovery, hs + [h])
      == LoopTrace(bodies, recovery, hs) + bodies[|hs|]
         + (if h.Recovered? || h.RecoveryFailed? then Made(RecreateSteps, RecoveryAt(recovery, Recoveries(hs)))
            else [])
         + (if h.RecoveryFailed? then [CloseBrowser] else [])
  {
    assert (hs + [h])[..|hs|] == hs;
  }

  /** How the loop records a row, given what its body led to and how the
      recovery block would run. */
  function HandlingOf(kind: OrderKind, rec: Run): Handling {
    match kind
    case SkipOrder(st) => Skipped(st)
    case SavedOrder => Saved
    case ErrorOrder(m) => if rec.error.None? then Recovered(m) else RecoveryFailed(m, rec.error.value)
  }

  /** One step of the loop specification. */
  lemma LoopFromStep(kinds: seq<OrderKind>, recovery: seq<seq<Outcome>>, close: Outcome,
                     i: nat, errors: nat, done: seq<Handling>)
    requires i < |kinds|
    ensures var h := HandlingOf(kinds[i], RunBlock(RecreateSteps, RecoveryAt(recovery, errors)));
      && (h.RecoveryFailed? ==>
            LoopFrom(kinds, recovery, close, i, errors, done) == Loop(done + [h], AfterFailedRecovery(close)))
      && (!h.RecoveryFailed? ==>
            LoopFrom(kinds, recovery, close, i, errors, done)
            == LoopFrom(kinds, recovery, close, i + 1, errors + (if h.Recovered? then 1 else 0), done + [h]))
  {
  }

  /** The body of the loop for one row, with the recovery block in its
      `catch`, as the run's `errors`-th recovery. */
  method HandleRow(s: Session, row: Order, index: nat, page: PageOracle, recovery: seq<seq<Outcome>>,
                   errors: nat, ghost start: State)
    returns (h: Handling, body: seq<Action>, calls: seq<Action>)
    requires s.Snapshot() == SessionAfter(start, recovery, errors)
    modifies s
    ensures var step := OrderStepOf(row, index, page);
      && h == HandlingOf(step.kind, RunBlock(RecreateSteps, RecoveryAt(recovery, errors)))
      && body == step.trace
    ensures calls == if h.Recovered? || h.RecoveryFailed? then Made(RecreateSteps, RecoveryAt(recovery, errors)) else []
    ensures s.Snapshot() == SessionAfter(start, recovery, errors + (if h.Recovered? || h.RecoveryFailed? then 1 else 0))
  {
    var step := OrderStepOf(row, index, page);
    body, calls := step.trace, [];
    match step.kind {
      case SkipOrder(st) =>
        h := Skipped(st);
      case SavedOrder =>
        h := Saved;
      case ErrorOrder(m) =>
        var error;
        error, calls := s.Recreate(RecoveryAt(recovery, errors));
        h := if error.Some? then RecoveryFailed(m, error.value) else Recovered(m);
    }
  }

  /** The main loop: every row, a recovery after each error, and the exit
      after a failed recovery. The recoveries reassign the session, which
      ends as the recoveries made leave it. */
  method RunRows(s: Session, rows: seq<Order>, pages: Pages, recovery: seq<seq<Outcome>>, close: Outcome)
    returns (handled: seq<Handling>, end: End, trace: seq<Action>)
    modifies s
    ensures Loop(handled, end) == LoopFrom(Kinds(rows, pages), recovery, close, 0, 0, [])
    ensures |handled| <= |rows| && trace == LoopTrace(Bodies(rows, pages), recovery, handled)
    ensures s.Snapshot() == SessionAfter(old(s.Snapshot()), recovery, Recoveries(handled))
  {
    ghost var kinds, bodies := Kinds(rows, pages), Bodies(rows, pages);
    ghost var start := s.Snapshot();
    handled, trace := [], [];
    var errors := 0;
    for orderIndex := 0 to |rows|
      invariant |handled| == orderIndex
      invariant LoopFrom(kinds, recovery, close, 0, 0, [])
        == LoopFrom(kinds, recovery, close, orderIndex, errors, handled)
      invariant errors == Recoveries(handled)
      invariant trace == LoopTrace(bodies, recovery, handled)
      invariant s.Snapshot() == SessionAfter(start, recovery, errors)
    {
      var h, body, calls := HandleRow(s, rows[orderIndex], orderIndex, pages(orderIndex), recovery, errors, start);
      assert body == bodies[orderIndex];
      assert h == HandlingOf(kinds[orderIndex], RunBlock(RecreateSteps, RecoveryAt(recovery, errors)));
      LoopFromStep(kinds, recovery, close, orderIndex, errors, handled);
      LoopTraceStep(bodies, recovery, handled, h);
      trace := trace + body + calls + (if h.RecoveryFailed? then [CloseBrowser] else []);
      handled := handled + [h];
      if h.RecoveryFailed? {
        return handled, AfterFailedRecovery(close), trace;
      }
      if h.Recovered? {
        errors := errors + 1;
      }
    }
    end := KeptOpen;
  }

  /** The top-level async function of auto.js. */
  method AutoJsMain(rows: seq<Order>, startup: seq<Outcome>, pages: Pages,
                    recovery: seq<seq<Outcome>>, close: Outcome)
    returns (end: End, handled: seq<Handling>)
    ensures rows == [] ==> end == Exited(1) && handled == []
    ensures rows != [] && RunBlock(PlaywrightStartSteps, startup).error.Some? ==>
      end == Crashed(RunBlock(PlaywrightStartSteps, startup).error.value) && handled == []
    ensures rows != [] && RunBlock(PlaywrightStartSteps, startup).error.None? ==>
      Loop(handled, end) == LoopFrom(Kinds(rows, pages), recovery, close, 0, 0, [])
  {
    if |rows| == 0 {
      return Exited(1), [];
    }
    var start := RunBlock(PlaywrightStartSteps, startup);
    if start.error.Some? {
      return Crashed(start.error.value), [];
    }
    var s := new Session.Playwright();
    var trace;
    handled, end, trace := RunRows(s, rows, pages, recovery, close);
  }
}
