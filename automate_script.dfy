/** automate_script.js: one sheet read, start-up and login, then for the
    first record only: the Document Manager, the filters (a short wait after
    each click), the search, the status cell, and for a RECEIVED order the
    invoice form filled field by field, with no amount guard and without
    saving. Nothing is caught (the cookie click aside), so any error ends
    the script. */
module AutomateScript {
  import opened Js
  import opened Browser
  import opened Records
  import PlaywrightOrder

  type OrderFields = PlaywrightOrder.OrderFields

  /** The ReferenceError of the not-found branch: it logs `invoiceNo`,
      which is only declared (with `const`) inside the RECEIVED block. */
  const InvoiceNoNotDefined := "invoiceNo is not defined"

  /** Start-up: launch, context, page and login; the Document Manager is
      opened inside the loop. */
  const StartSteps: seq<Action> :=
    [Launch, NewContext, NewPage, Goto(LoginPage), TryClick(CookieConsent), FillSecret(Username),
     FillSecret(Password), Click(Proceed), Pause(3000), WaitLoad]

  const NavSteps: seq<Action> := [Goto(DocumentManager)]

  /** The filter clicks, each followed by a tenth of a second, and the search. */
  function SearchSteps(orderNo: Option<string>): seq<Action> {
    [Click(FilterButton), Pause(100), Click(DocumentTypes), Pause(100), Click(UnselectAll), Pause(100),
     CheckBox(InvoiceType), Pause(100), Pause(100), CheckBox(OrderType), Pause(100),
     Click(StatusButton), Pause(100), UncheckBox(DeliveredReceived), Pause(100),
     CheckBox(DeliveredReceived), Pause(100), Click(FilterButton), Pause(100),
     Fill(SearchBox, orderNo), Pause(3000)]
  }

  const RowSteps: seq<Action> := [WaitVisible(OrderLink)]

  /** Opening the order, creating the invoice and writing its number. */
  function HeadSteps(f: OrderFields): seq<Action> {
    [Click(OrderLink), Click(CreateInvoice), Click(InvoiceNumber), Fill(InvoiceNumber, f.invoiceNo)]
  }

  function DateSteps(date: string): seq<Action> {
    [Fill(IssueDate, Some(date))]
  }

  const CloseSteps: seq<Action> := [Click(CloseButton), Pause(1000)]

  /** The rest of the form. The POS (place of supply) box receives the
      Business Area column, and the amount goes in unconditionally. */
  function TailSteps(f: OrderFields): seq<Action> {
    [Click(Irn), Fill(Irn, f.irn), Click(PlaceOfSupply), Fill(PlaceOfSupply, f.businessArea),
     Fill(Amount, f.baseAmount), SelectOption(HsnScheme, f.hsnSac), Click(SacValue), Fill(SacValue, f.sac)]
  }

  /** What the page does for the record, block by block and read by read. */
  datatype AutomatePage = AutomatePage(
    nav: seq<Outcome>,
    search: seq<Outcome>,
    linkCount: Reading<nat>,
    row: seq<Outcome>,
    status: Reading<string>,
    head: seq<Outcome>,
    date: seq<Outcome>,
    closeCount: Reading<nat>,      // closeBtn.count()
    close: seq<Outcome>,
    tail: seq<Outcome>)

  /** Where the path stopped: an error, a status other than RECEIVED (the
      `continue`), or the form filled. */
  datatype Stage = Threw(message: string) | NotReceived(status: string) | Filled

  datatype OrderRun = OrderRun(stage: Stage, trace: seq<Action>)

  /** From counting the close buttons to the end of the form. */
  function CloseStage(f: OrderFields, p: AutomatePage): OrderRun {
    if p.closeCount.ReadRaised? then OrderRun(Threw(p.closeCount.message), [ReadCount(CloseButton)])
    else
      var present := p.closeCount.value > 0;
      var close := RunBlock(CloseSteps, p.close);
      var t := [ReadCount(CloseButton)] + (if present then Made(CloseSteps, p.close) else []);
      if present && close.error.Some? then OrderRun(Threw(close.error.value), t)
      else
        var tail := RunBlock(TailSteps(f), p.tail);
        var t2 := t + Made(TailSteps(f), p.tail);
        if tail.error.Some? then OrderRun(Threw(tail.error.value), t2) else OrderRun(Filled, t2)
  }

  /** From `dateStr.replace(/-/g, "/")` on. */
  function DateStage(f: OrderFields, p: AutomatePage): OrderRun {
    if f.invoiceDate.None? then OrderRun(Threw(PlaywrightOrder.ReplaceOnUndefined), [])
    else
      var steps := DateSteps(ReplaceDashes(f.invoiceDate.value));
      var date := RunBlock(steps, p.date);
      var t := Made(steps, p.date);
      if date.error.Some? then OrderRun(Threw(date.error.value), t)
      else
        var rest := CloseStage(f, p);
        OrderRun(rest.stage, t + rest.trace)
  }

  /** From opening a RECEIVED order on. */
  function ReceivedStage(f: OrderFields, p: AutomatePage): OrderRun {
    var head := RunBlock(HeadSteps(f), p.head);
    var t := Made(HeadSteps(f), p.head);
    if head.error.Some? then OrderRun(Threw(head.error.value), t)
    else
      var rest := DateStage(f, p);
      OrderRun(rest.stage, t + rest.trace)
  }

  /** From waiting for the order link on. */
  function FoundStage(f: OrderFields, p: AutomatePage): OrderRun {
    var row := RunBlock(RowSteps, p.row);
    var t := Made(RowSteps, p.row);
    if row.error.Some? then OrderRun(Threw(row.error.value), t)
    else if p.status.ReadRaised? then OrderRun(Threw(p.status.message), t + [ReadText(StatusCell)])
    else if !IsReceived(p.status.value) then OrderRun(NotReceived(p.status.value), t + [ReadText(StatusCell)])
    else
      var rest := ReceivedStage(f, p);
      OrderRun(rest.stage, t + [ReadText(StatusCell)] + rest.trace)
  }

  /** From the filter clicks on. */
  function SearchStage(f: OrderFields, p: AutomatePage): OrderRun {
    var search := RunBlock(SearchSteps(f.orderNo), p.search);
    var t := Made(SearchSteps(f.orderNo), p.search);
    if search.error.Some? then OrderRun(Threw(search.error.value), t)
    else if p.linkCount.ReadRaised? then OrderRun(Threw(p.linkCount.message), t + [ReadCount(OrderLink)])
    else if p.linkCount.value == 0 then OrderRun(Threw(InvoiceNoNotDefined), t + [ReadCount(OrderLink)])
    else
      var rest := FoundStage(f, p);
      OrderRun(rest.stage, t + [ReadCount(OrderLink)] + rest.trace)
  }

  /** The loop body for one record (`undefined` when the sheet has no data
      row; the Document Manager is opened before the record is read). */
  function OrderPath(order: Option<Order>, p: AutomatePage): OrderRun {
    var nav := RunBlock(NavSteps, p.nav);
    var t := Made(NavSteps, p.nav);
    if nav.error.Some? then OrderRun(Threw(nav.error.value), t)
    else if order.None? then OrderRun(Threw(OrderNoOnUndefined), t)
    else
      var rest := SearchStage(PlaywrightOrder.FieldsOf(order.value), p);
      OrderRun(rest.stage, t + rest.trace)
  }

  // ---------------------------------------------------------------------
  // Properties of the path

  /** A found-nothing search does not skip the order: the log line names an
      undeclared variable, so the script stops with a ReferenceError right
      after the count, before any form step. */
  lemma NotFoundRaisesReferenceError(f: OrderFields, p: AutomatePage)
    requires RunBlock(SearchSteps(f.orderNo), p.search).error.None?
    requires p.linkCount == Read(0)
    ensures SearchStage(f, p).stage == Threw(InvoiceNoNotDefined)
    ensures SearchStage(f, p).trace == SearchSteps(f.orderNo) + [ReadCount(OrderLink)]
  {
  }

  /** The close button is clicked exactly when the count found one. */
  lemma CloseClickedIffCounted(f: OrderFields, p: AutomatePage)
    ensures Click(CloseButton) in CloseStage(f, p).trace <==> p.closeCount.Read? && p.closeCount.value > 0
  {
    var r := CloseStage(f, p);
    if p.closeCount.Read? {
      var present := p.closeCount.value > 0;
      var t := [ReadCount(CloseButton)] + (if present then Made(CloseSteps, p.close) else []);
      if present {
        assert Made(CloseSteps, p.close)[0] == Click(CloseButton);
        assert t[1] == Click(CloseButton);
        assert r.trace[..|t|] == t;
        assert r.trace[1] == Click(CloseButton);
      } else {
        assert Click(CloseButton) !in TailSteps(f);
        assert Click(CloseButton) !in Made(TailSteps(f), p.tail);
      }
    }
  }

  /** After the close button, the amount goes in as the sheet has it and
      none is read from the form. */
  lemma CloseStageFilled(f: OrderFields, p: AutomatePage)
    requires CloseStage(f, p).stage == Filled
    ensures Fill(Amount, f.baseAmount) in CloseStage(f, p).trace
    ensures ReadValue(Amount) !in CloseStage(f, p).trace
  {
    var t := [ReadCount(CloseButton)] + (if p.closeCount.value > 0 then Made(CloseSteps, p.close) else []);
    assert ReadValue(Amount) !in t;
    var tail := TailSteps(f);
    assert Made(tail, p.tail) == tail;
    assert (t + tail)[|t| + 4] == Fill(Amount, f.baseAmount);
  }

  /** The filled form: the date went in with its hyphens turned into
      slashes, the amount went in as the sheet has it, and no amount was
      read from the form first. */
  lemma FilledForm(f: OrderFields, p: AutomatePage)
    requires DateStage(f, p).stage == Filled
    ensures f.invoiceDate.Some?
    ensures Fill(IssueDate, Some(ReplaceDashes(f.invoiceDate.value))) in DateStage(f, p).trace
    ensures '-' !in ReplaceDashes(f.invoiceDate.value)
    ensures Fill(Amount, f.baseAmount) in DateStage(f, p).trace
    ensures ReadValue(Amount) !in DateStage(f, p).trace
  {
    ReplaceDashesIdempotent(f.invoiceDate.value);
    var steps := DateSteps(ReplaceDashes(f.invoiceDate.value));
    var rest := CloseStage(f, p);
    CloseStageFilled(f, p);
    assert Made(steps, p.date) == steps;
    assert DateStage(f, p).trace == steps + rest.trace;
    assert (steps + rest.trace)[0] == Fill(IssueDate, Some(ReplaceDashes(f.invoiceDate.value)));
  }

  /** The form is touched only for a RECEIVED order: creating the invoice
      needs a status cell that trims to RECEIVED. */
  lemma CreateInvoiceOnlyWhenReceived(f: OrderFields, p: AutomatePage)
    requires Click(CreateInvoice) in FoundStage(f, p).trace
    ensures p.status.Read? && IsReceived(p.status.value)
  {
    var t := Made(RowSteps, p.row);
    assert Click(CreateInvoice) !in t;
  }

  /** A filled form passed every gate: the order was found and its status
      cell trims to RECEIVED. */
  lemma FilledPassedEveryGate(f: OrderFields, p: AutomatePage)
    requires SearchStage(f, p).stage == Filled
    ensures p.linkCount.Read? && p.linkCount.value > 0
    ensures p.status.Read? && IsReceived(p.status.value)
    ensures f.invoiceDate.Some?
  {
  }

  // ---------------------------------------------------------------------
  // The loop and the script

  /** The pages each record meets. */
  type Pages = nat -> AutomatePage

  /** The loop over the runs, in order, up to the first error: the calls
      made and the error, if any. */
  datatype Looped = Looped(trace: seq<Action>, crash: Option<string>)

  function LoopOver(runs: seq<OrderRun>): (r: Looped)
    decreases |runs|
  {
    if runs == [] then Looped([], None)
    else
      var n := |runs| - 1;
      var prior := LoopOver(runs[..n]);
      if prior.crash.Some? then prior
      else if runs[n].stage.Threw? then Looped(prior.trace + runs[n].trace, Some(runs[n].stage.message))
      else Looped(prior.trace + runs[n].trace, None)
  }

  /** The loop stops exactly at a run that threw, with that run's error; a
      `continue` (NotReceived) goes on to the next record. */
  lemma {:induction false} LoopOverMeaning(runs: seq<OrderRun>)
    decreases |runs|
    ensures LoopOver(runs).crash.None? <==> forall j :: 0 <= j < |runs| ==> !runs[j].stage.Threw?
    ensures LoopOver(runs).crash.Some? ==>
      exists j :: 0 <= j < |runs| && runs[j].stage == Threw(LoopOver(runs).crash.value)
        && (forall i :: 0 <= i < j ==> !runs[i].stage.Threw?)
  {
    if runs != [] {
      var n := |runs| - 1;
      LoopOverMeaning(runs[..n]);
      var prior := LoopOver(runs[..n]);
      assert forall i :: 0 <= i < n ==> runs[..n][i] == runs[i];
      if prior.crash.Some? {
        var j :| 0 <= j < n && runs[..n][j].stage == Threw(prior.crash.value)
          && (forall i :: 0 <= i < j ==> !runs[..n][i].stage.Threw?);
        assert runs[j] == runs[..n][j];
      }
    }
  }

  /** Once the loop has stopped, later records change nothing. */
  lemma {:induction false} LoopOverPrefixCrash(runs: seq<OrderRun>, i: nat)
    requires i <= |runs| && LoopOver(runs[..i]).crash.Some?
    decreases |runs| - i
    ensures LoopOver(runs) == LoopOver(runs[..i])
  {
    if i < |runs| {
      assert runs[..i + 1][..i] == runs[..i];
      LoopOverPrefixCrash(runs, i + 1);
    } else {
      assert runs[..i] == runs;
    }
  }

  /** The for-of loop over the records, one path each. */
  method RunOrders(orders: seq<Option<Order>>, pages: Pages) returns (r: Looped)
    ensures r == LoopOver(seq(|orders|, i requires 0 <= i < |orders| => OrderPath(orders[i], pages(i))))
  {
    ghost var runs := seq(|orders|, i requires 0 <= i < |orders| => OrderPath(orders[i], pages(i)));
    var trace := [];
    for i := 0 to |orders|
      invariant LoopOver(runs[..i]) == Looped(trace, None)
    {
      assert runs[..i + 1][..i] == runs[..i];
      var run := OrderPath(orders[i], pages(i));
      assert run == runs[i];
      trace := trace + run.trace;
      match run.stage {
        case Threw(m) =>
          assert LoopOver(runs[..i + 1]) == Looped(trace, Some(m));
          LoopOverPrefixCrash(runs, i + 1);
          return Looped(trace, Some(m));
        case NotReceived(_) =>
          continue;
        case Filled =>
      }
    }
    assert runs[..|orders|] == runs;
    r := Looped(trace, None);
  }

  /** The top-level async function of automate_script.js. `docIds` is
      logged but never pushed to, so it is left out. */
  method AutomateScriptMain(sheet: Reading<Option<seq<seq<string>>>>, startup: seq<Outcome>, page: AutomatePage)
    returns (end: End, trace: seq<Action>)
    ensures sheet.ReadRaised? ==> end == Crashed(sheet.message)
    ensures sheet.Read? && ValuesOr(sheet.value) == [] ==> end == Exited(1)
    ensures sheet.Read? && ValuesOr(sheet.value) != [] && RunBlock(StartSteps, startup).error.Some? ==>
      end == Crashed(RunBlock(StartSteps, startup).error.value)
    ensures sheet.Read? && ValuesOr(sheet.value) != [] && RunBlock(StartSteps, startup).error.None? ==>
      var rows := ValuesOr(sheet.value);
      var run := OrderPath(if |rows| >= 2 then Some(ConvertToObjects(rows)[0]) else None, page);
      trace == run.trace
      && (run.stage.Threw? ==> end == Crashed(run.stage.message))
      && (!run.stage.Threw? ==> end == KeptOpen)
  {
    trace := [];
    if sheet.ReadRaised? {
      return Crashed(sheet.message), [];
    }
    var rows := ValuesOr(sheet.value);
    if |rows| == 0 {
      return Exited(1), [];
    }
    var dataObjects := ConvertToObjects(rows);
    var start := RunBlock(StartSteps, startup);
    if start.error.Some? {
      return Crashed(start.error.value), [];
    }
    var first := if |dataObjects| > 0 then Some(dataObjects[0]) else None;
    var pages: Pages := _ => page;
    var looped := RunOrders([first], pages);
    assert seq(1, i requires 0 <= i < 1 => OrderPath([first][i], pages(i))) == [OrderPath(first, page)];
    assert [OrderPath(first, page)][..0] == [];
    trace := looped.trace;
    end := if looped.crash.Some? then Crashed(looped.crash.value) else KeptOpen;
  }
}
