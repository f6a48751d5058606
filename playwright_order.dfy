/** The per-order steps that auto.js and auto.ts share word for word: after
    `navigateToDocumentManager`, set the Document Manager filters, search for
    the order number, find its link and the status cell of its row, and for
    a RECEIVED order open it, create the invoice, compare the amount already
    on the form with the base amount, and fill and save the form. The two
    scripts differ only in what they make of where this path stops, so the
    path ends in a `Stage` and each script classifies it on its own. */
module PlaywrightOrder {
  import opened Js
  import opened Browser
  import opened Navigation
  import opened Records

  /** The columns the order path reads. */
  datatype OrderFields = OrderFields(
    orderNo: Option<string>, invoiceNo: Option<string>, invoiceDate: Option<string>,
    irn: Option<string>, businessArea: Option<string>, baseAmount: Option<string>,
    hsnSac: Option<string>, sac: Option<string>, file: Option<string>)

  function FieldsOf(order: Order): OrderFields {
    OrderFields(Field(order, "Order no"), Field(order, "Invoice No"), Field(order, "Invoice Date"),
                Field(order, "IRN NO"), Field(order, "Business Area"),
                Field(order, "Total Invoice Base Amount (Quantity)"), Field(order, "HSN/SAC"),
                Field(order, "SAC"), Field(order, "Choose File"))
  }

  /** The TypeError of `undefined.replace(...)`. */
  const ReplaceOnUndefined := "Cannot read properties of undefined (reading 'replace')"

  /** What the page does for one order, block by block and read by read. */
  datatype PageOracle = PageOracle(
    nav: NavOracle,
    mainFrame: bool,              // page.frame({ name: 'main-app-iframe' }) is not null
    search: seq<Outcome>,
    linkCount: Reading<nat>,
    row: seq<Outcome>,
    status: Reading<string>,
    open: seq<Outcome>,
    amount: Reading<string>,
    fillHead: seq<Outcome>,
    fillTail: seq<Outcome>,
    back: seq<Outcome>)

  /** Where the path stopped: an error was thrown, the link was not found,
      the status was not RECEIVED, the amount guard tripped, or the form was
      filled and saved as a draft. */
  datatype Stage = Threw(message: string) | NotFound | NotReceived(status: string) | Below(current: string) | Filled

  datatype OrderRun = OrderRun(stage: Stage, trace: seq<Action>)

  /** Setting the filters (a one-second wait before each click), clearing
      the search box and searching for the order number. */
  function SearchSteps(orderNo: Option<string>): seq<Action> {
    [Pause(1000), Click(FilterToggle), Pause(1000), Click(FilterButton), Pause(1000),
     Click(DocumentTypes), Pause(1000), CheckBox(InvoiceType), Pause(1000), Click(UnselectAll),
     Pause(1000), CheckBox(InvoiceType), Pause(1000), CheckBox(OrderType), Pause(1000),
     Click(StatusButton), Pause(1000), Click(UnselectAllStatus), Pause(1000),
     CheckBox(DeliveredReceived), Pause(1000), Click(SearchBox), SelectText(SearchBox),
     Press(SearchBox, Delete), Pause(500), Fill(SearchBox, orderNo), Pause(5000)]
  }

  const RowSteps: seq<Action> := [WaitVisible(OrderLink)]

  /** Opening the order and creating its invoice. */
  const OpenSteps: seq<Action> :=
    [Click(OrderLink), WaitLoad, Pause(3000), Click(CreateInvoice), WaitLoad, Pause(3000)]

  /** The invoice number, written before the date is rewritten. */
  function FillHeadSteps(f: OrderFields): seq<Action> {
    [Click(InvoiceNumber), Fill(InvoiceNumber, f.invoiceNo)]
  }

  /** The rest of the form; "Next number" is clicked for the first order only. */
  function FillTailSteps(f: OrderFields, date: string, first: bool): seq<Action> {
    [Fill(IssueDate, Some(date)), Click(IssueDateButton), Click(Irn), Fill(Irn, f.irn)]
    + (if first then [Click(NextNumber)] else [])
    + [Click(BusinessArea), Fill(BusinessArea, f.businessArea), Fill(Amount, f.baseAmount),
       SelectOption(HsnScheme, f.hsnSac), Click(SacValue), Fill(SacValue, f.sac),
       SetFiles(Attachment, f.file), Pause(5000), Click(Preview), Click(SaveDraft), Pause(15000)]
  }

  /** The amount guard: the amount already on the form is below the base
      amount. NaN on either side makes the comparison false. */
  predicate AmountBelow(current: string, base: Option<string>) {
    Less(ParseInt(current), ParseField(base))
  }

  /** From the invoice number to the saved draft. */
  function FormStage(f: OrderFields, first: bool, p: PageOracle): OrderRun {
    var head := RunBlock(FillHeadSteps(f), p.fillHead);
    var t := Made(FillHeadSteps(f), p.fillHead);
    if head.error.Some? then OrderRun(Threw(head.error.value), t)
    else if f.invoiceDate.None? then OrderRun(Threw(ReplaceOnUndefined), t)
    else
      var steps := FillTailSteps(f, ReplaceDashes(f.invoiceDate.value), first);
      var tail := RunBlock(steps, p.fillTail);
      var t2 := t + Made(steps, p.fillTail);
      if tail.error.Some? then OrderRun(Threw(tail.error.value), t2) else OrderRun(Filled, t2)
  }

  /** From opening a RECEIVED order to the end. */
  function ReceivedStage(f: OrderFields, first: bool, p: PageOracle): OrderRun {
    var open := RunBlock(OpenSteps, p.open);
    var t := Made(OpenSteps, p.open);
    if open.error.Some? then OrderRun(Threw(open.error.value), t)
    else if p.amount.ReadRaised? then OrderRun(Threw(p.amount.message), t + [ReadValue(Amount)])
    else if AmountBelow(p.amount.value, f.baseAmount) then
      OrderRun(Below(p.amount.value), t + [ReadValue(Amount)])
    else
      var rest := FormStage(f, first, p);
      OrderRun(rest.stage, t + [ReadValue(Amount)] + rest.trace)
  }

  /** From waiting for the order link to the end. */
  function FoundStage(f: OrderFields, first: bool, p: PageOracle): OrderRun {
    var row := RunBlock(RowSteps, p.row);
    var t := Made(RowSteps, p.row);
    if row.error.Some? then OrderRun(Threw(row.error.value), t)
    else if p.status.ReadRaised? then OrderRun(Threw(p.status.message), t + [ReadText(StatusCell)])
    else if !IsReceived(p.status.value) then
      OrderRun(NotReceived(Trim(p.status.value)), t + [ReadText(StatusCell)])
    else
      var rest := ReceivedStage(f, first, p);
      OrderRun(rest.stage, t + [ReadText(StatusCell)] + rest.trace)
  }

  /** From the filter clicks to the end. */
  function SearchStage(f: OrderFields, first: bool, p: PageOracle): OrderRun {
    var search := RunBlock(SearchSteps(f.orderNo), p.search);
    var t := Made(SearchSteps(f.orderNo), p.search);
    if search.error.Some? then OrderRun(Threw(search.error.value), t)
    else if p.linkCount.ReadRaised? then OrderRun(Threw(p.linkCount.message), t + [ReadCount(OrderLink)])
    else if p.linkCount.value == 0 then OrderRun(NotFound, t + [ReadCount(OrderLink)])
    else
      var rest := FoundStage(f, first, p);
      OrderRun(rest.stage, t + [ReadCount(OrderLink)] + rest.trace)
  }

  /** The whole path for one order; `first` says whether this is the first
      order (the scripts' `orderIndex == 0`). */
  function RunOrder(f: OrderFields, first: bool, p: PageOracle): OrderRun {
    var nav := PlaywrightNav(p.nav);
    if nav.result.NavFailed? then OrderRun(Threw(nav.result.message), nav.trace)
    else if !p.mainFrame then OrderRun(Threw("Main iframe not found"), nav.trace)
    else
      var rest := SearchStage(f, first, p);
      OrderRun(rest.stage, nav.trace + rest.trace)
  }

  // ---------------------------------------------------------------------
  // Properties of the path

  /** A call that writes into the invoice form. */
  predicate FormWrite(a: Action) {
    (a.Fill? || a.SelectOption? || a.SetFiles?) && a.target != SearchBox
  }

  predicate NoFormWrite(t: seq<Action>) {
    forall i :: 0 <= i < |t| ==> !FormWrite(t[i])
  }

  /** Every form write in `t` comes after a read of the form's amount. */
  predicate WritesAfterRead(t: seq<Action>) {
    forall k :: 0 <= k < |t| && FormWrite(t[k]) ==> exists j :: 0 <= j < k && t[j] == ReadValue(Amount)
  }

  /** The last three calls are the preview, the save as draft and the wait after it. */
  predicate EndsWithSave(t: seq<Action>) {
    |t| >= 3 && t[|t| - 3..] == [Click(Preview), Click(SaveDraft), Pause(15000)]
  }

  lemma PrefixKeepsWritesAfterRead(a: seq<Action>, b: seq<Action>)
    requires NoFormWrite(a) && WritesAfterRead(b)
    ensures WritesAfterRead(a + b)
  {
    var t := a + b;
    assert forall k :: 0 <= k < |a| ==> t[k] == a[k];
    forall k | |a| <= k < |t| && FormWrite(t[k]) ensures exists j :: 0 <= j < k && t[j] == ReadValue(Amount) {
      assert t[k] == b[k - |a|];
      var j :| 0 <= j < k - |a| && b[j] == ReadValue(Amount);
      assert t[j + |a|] == ReadValue(Amount);
    }
  }

  lemma ReadThenAnything(a: seq<Action>, c: seq<Action>)
    requires NoFormWrite(a)
    ensures WritesAfterRead(a + [ReadValue(Amount)] + c)
  {
    var t := a + [ReadValue(Amount)] + c;
    assert t[|a|] == ReadValue(Amount);
    assert forall k :: 0 <= k < |a| ==> t[k] == a[k];
  }

  lemma PrefixKeepsEndsWithSave(a: seq<Action>, b: seq<Action>)
    requires EndsWithSave(b)
    ensures EndsWithSave(a + b)
  {
    assert (a + b)[|a + b| - 3..] == b[|b| - 3..];
  }

  lemma NoFormWriteInMade(steps: seq<Action>, outs: seq<Outcome>)
    requires NoFormWrite(steps)
    ensures NoFormWrite(Made(steps, outs))
  {
  }

  lemma NoFormWriteAppend(a: seq<Action>, b: seq<Action>)
    requires NoFormWrite(a) && NoFormWrite(b)
    ensures NoFormWrite(a + b)
  {
  }

  lemma NoWriteNoOrder(t: seq<Action>)
    requires NoFormWrite(t)
    ensures WritesAfterRead(t)
  {
  }

  lemma AbsentFromMade(steps: seq<Action>, outs: seq<Outcome>, a: Action)
    requires a !in steps
    ensures a !in Made(steps, outs)
  {
    var m := Made(steps, outs);
    assert forall i :: 0 <= i < |m| ==> m[i] == steps[i];
  }

  /** The blocks before the amount read only click, wait, search and read. */
  lemma SearchStepsPreliminary(orderNo: Option<string>)
    ensures NoFormWrite(SearchSteps(orderNo))
    ensures Click(NextNumber) !in SearchSteps(orderNo) && Click(CreateInvoice) !in SearchSteps(orderNo)
  {
  }

  lemma RowStepsPreliminary()
    ensures NoFormWrite(RowSteps)
    ensures Click(NextNumber) !in RowSteps && Click(CreateInvoice) !in RowSteps
  {
  }

  lemma OpenStepsPreliminary()
    ensures NoFormWrite(OpenSteps)
    ensures Click(NextNumber) !in OpenSteps
  {
  }

  lemma NavigationWritesNothing(o: NavOracle)
    ensures NoFormWrite(PlaywrightNav(o).trace)
    ensures ReadValue(Amount) !in PlaywrightNav(o).trace
    ensures Click(NextNumber) !in PlaywrightNav(o).trace
    ensures Click(CreateInvoice) !in PlaywrightNav(o).trace
  {
    PlaywrightNavActions(o, 0, []);
    var t := PlaywrightNav(o).trace;
    assert forall i :: 0 <= i < |t| ==> NavAction(t[i]);
  }

  /** The form stage: the date TypeError stops it before anything past the
      invoice number, "Next number" is clicked only for the first order, and
      a filled form ended with the save. */
  lemma FormStageFacts(f: OrderFields, first: bool, p: PageOracle)
    ensures var r := FormStage(f, first, p);
      && (!first ==> Click(NextNumber) !in r.trace)
      && (r.stage.Filled? ==> f.invoiceDate.Some? && EndsWithSave(r.trace))
      && (r.stage.Filled? || r.stage.Threw?)
  {
    var head := FillHeadSteps(f);
    var m := Made(head, p.fillHead);
    assert Click(NextNumber) !in head;
    AbsentFromMade(head, p.fillHead, Click(NextNumber));
    var r := FormStage(f, first, p);
    if RunBlock(head, p.fillHead).error.None? && f.invoiceDate.Some? {
      var steps := FillTailSteps(f, ReplaceDashes(f.invoiceDate.value), first);
      var tail := Made(steps, p.fillTail);
      assert r.trace == m + tail;
      if !first {
        assert Click(NextNumber) !in steps;
        AbsentFromMade(steps, p.fillTail, Click(NextNumber));
      }
      if RunBlock(steps, p.fillTail).error.None? {
        assert tail == steps;
        assert EndsWithSave(steps);
        PrefixKeepsEndsWithSave(m, steps);
      }
    }
  }


  /** From opening the order on: writes follow the amount read, a tripped
      guard writes nothing, "Next number" only for the first order. */
  lemma ReceivedStageFacts(f: OrderFields, first: bool, p: PageOracle)
    ensures var r := ReceivedStage(f, first, p);
      && WritesAfterRead(r.trace)
      && (r.stage.Below? ==>
            NoFormWrite(r.trace) && p.amount == Read(r.stage.current)
            && AmountBelow(r.stage.current, f.baseAmount))
      && (!first ==> Click(NextNumber) !in r.trace)
      && (r.stage.Filled? ==>
            p.amount.Read? && !AmountBelow(p.amount.value, f.baseAmount)
            && f.invoiceDate.Some? && EndsWithSave(r.trace))
      && !r.stage.NotFound? && !r.stage.NotReceived?
  {
    var m := Made(OpenSteps, p.open);
    OpenStepsPreliminary();
    NoFormWriteInMade(OpenSteps, p.open);
    AbsentFromMade(OpenSteps, p.open, Click(NextNumber));
    var r := ReceivedStage(f, first, p);
    if RunBlock(OpenSteps, p.open).error.Some? {
      assert r.trace == m;
      NoWriteNoOrder(m);
    } else if p.amount.ReadRaised? || AmountBelow(p.amount.value, f.baseAmount) {
      var t := m + [ReadValue(Amount)];
      assert r.trace == t;
      NoFormWriteAppend(m, [ReadValue(Amount)]);
      NoWriteNoOrder(t);
    } else {
      FormStageFacts(f, first, p);
      var rest := FormStage(f, first, p);
      var pre := m + [ReadValue(Amount)];
      assert r.trace == pre + rest.trace && r.stage == rest.stage;
      ReadThenAnything(m, rest.trace);
      if rest.stage.Filled? {
        PrefixKeepsEndsWithSave(pre, rest.trace);
      }
    }
  }


  /** From waiting for the order's row on. */
  lemma FoundStageFacts(f: OrderFields, first: bool, p: PageOracle)
    ensures var r := FoundStage(f, first, p);
      && WritesAfterRead(r.trace)
      && (r.stage.Below? ==>
            NoFormWrite(r.trace) && p.amount == Read(r.stage.current)
            && AmountBelow(r.stage.current, f.baseAmount))
      && (!first ==> Click(NextNumber) !in r.trace)
      && (Click(CreateInvoice) in r.trace ==> p.status.Read? && IsReceived(p.status.value))
      && (r.stage.Filled? ==>
            p.status.Read? && IsReceived(p.status.value)
            && p.amount.Read? && !AmountBelow(p.amount.value, f.baseAmount)
            && f.invoiceDate.Some? && EndsWithSave(r.trace))
      && (r.stage.NotReceived? ==>
            p.status.Read? && !IsReceived(p.status.value)
            && r.stage.status == Trim(p.status.value))
      && !r.stage.NotFound?
  {
    var m := Made(RowSteps, p.row);
    RowStepsPreliminary();
    NoFormWriteInMade(RowSteps, p.row);
    AbsentFromMade(RowSteps, p.row, Click(NextNumber));
    AbsentFromMade(RowSteps, p.row, Click(CreateInvoice));
    var r := FoundStage(f, first, p);
    var pre := m + [ReadText(StatusCell)];
    NoFormWriteAppend(m, [ReadText(StatusCell)]);
    if RunBlock(RowSteps, p.row).error.Some? {
      assert r.trace == m;
      NoWriteNoOrder(m);
    } else if p.status.ReadRaised? || !IsReceived(p.status.value) {
      assert r.trace == pre;
      NoWriteNoOrder(pre);
    } else {
      ReceivedStageFacts(f, first, p);
      var rest := ReceivedStage(f, first, p);
      assert r.trace == pre + rest.trace && r.stage == rest.stage;
      PrefixKeepsWritesAfterRead(pre, rest.trace);
      if rest.stage.Below? {
        NoFormWriteAppend(pre, rest.trace);
      }
      if rest.stage.Filled? {
        PrefixKeepsEndsWithSave(pre, rest.trace);
      }
    }
  }


  /** From the filter clicks on. */
  lemma SearchStageFacts(f: OrderFields, first: bool, p: PageOracle)
    ensures var r := SearchStage(f, first, p);
      && WritesAfterRead(r.trace)
      && (r.stage.Below? ==>
            NoFormWrite(r.trace) && p.amount == Read(r.stage.current)
            && AmountBelow(r.stage.current, f.baseAmount))
      && (!first ==> Click(NextNumber) !in r.trace)
      && (Click(CreateInvoice) in r.trace ==> p.status.Read? && IsReceived(p.status.value))
      && (r.stage.Filled? ==>
            p.linkCount.Read? && p.linkCount.value > 0
            && p.status.Read? && IsReceived(p.status.value)
            && p.amount.Read? && !AmountBelow(p.amount.value, f.baseAmount)
            && f.invoiceDate.Some? && EndsWithSave(r.trace))
      && (r.stage.NotFound? ==> p.linkCount == Read(0))
      && (r.stage.NotReceived? ==>
            p.status.Read? && !IsReceived(p.status.value)
            && r.stage.status == Trim(p.status.value))
  {
    var steps := SearchSteps(f.orderNo);
    var m := Made(steps, p.search);
    SearchStepsPreliminary(f.orderNo);
    NoFormWriteInMade(steps, p.search);
    AbsentFromMade(steps, p.search, Click(NextNumber));
    AbsentFromMade(steps, p.search, Click(CreateInvoice));
    var r := SearchStage(f, first, p);
    var pre := m + [ReadCount(OrderLink)];
    NoFormWriteAppend(m, [ReadCount(OrderLink)]);
    if RunBlock(steps, p.search).error.Some? {
      assert r.trace == m;
      NoWriteNoOrder(m);
    } else if p.linkCount.ReadRaised? || p.linkCount.value == 0 {
      assert r.trace == pre;
      NoWriteNoOrder(pre);
    } else {
      FoundStageFacts(f, first, p);
      var rest := FoundStage(f, first, p);
      assert r.trace == pre + rest.trace && r.stage == rest.stage;
      PrefixKeepsWritesAfterRead(pre, rest.trace);
      if rest.stage.Below? {
        NoFormWriteAppend(pre, rest.trace);
      }
      if rest.stage.Filled? {
        PrefixKeepsEndsWithSave(pre, rest.trace);
      }
    }
  }


  /** The amount guard reads `#lines_0__amount` before anything is written
      into the form: every form write in the trace comes after that read. */
  lemma FormWritesFollowAmountRead(f: OrderFields, first: bool, p: PageOracle)
    ensures WritesAfterRead(RunOrder(f, first, p).trace)
  {
    NavigationWritesNothing(p.nav);
    SearchStageFacts(f, first, p);
    var nav := PlaywrightNav(p.nav);
    if nav.result.Navigated? && p.mainFrame {
      PrefixKeepsWritesAfterRead(nav.trace, SearchStage(f, first, p).trace);
    } else {
      assert forall k :: 0 <= k < |nav.trace| ==> !FormWrite(nav.trace[k]);
    }
  }

  /** When the guard trips, nothing has been written into the form; it
      trips exactly when both amounts parse and the current one is smaller,
      so NaN on either side lets filling go on. */
  lemma BelowWritesNothing(f: OrderFields, first: bool, p: PageOracle)
    requires RunOrder(f, first, p).stage.Below?
    ensures NoFormWrite(RunOrder(f, first, p).trace)
    ensures p.amount == Read(RunOrder(f, first, p).stage.current)
    ensures ParseInt(p.amount.value).Int? && ParseField(f.baseAmount).Int?
    ensures ParseInt(p.amount.value).value < ParseField(f.baseAmount).value
  {
    NavigationWritesNothing(p.nav);
    SearchStageFacts(f, first, p);
  }

  /** A filled order got there through every gate: navigation, the main
      iframe, a link found for the order number, the RECEIVED status, an
      amount not below the base amount, a defined invoice date, and a form
      whose last calls, all completed, were the preview, the save as draft
      and the wait after it. */
  lemma FilledPassedEveryGate(f: OrderFields, first: bool, p: PageOracle)
    requires RunOrder(f, first, p).stage.Filled?
    ensures PlaywrightNav(p.nav).result.Navigated? && p.mainFrame
    ensures p.linkCount.Read? && p.linkCount.value > 0
    ensures p.status.Read? && IsReceived(p.status.value)
    ensures p.amount.Read? && !AmountBelow(p.amount.value, f.baseAmount)
    ensures f.invoiceDate.Some?
    ensures EndsWithSave(RunOrder(f, first, p).trace)
  {
    SearchStageFacts(f, first, p);
    PrefixKeepsEndsWithSave(PlaywrightNav(p.nav).trace, SearchStage(f, first, p).trace);
  }

  /** "Next number" is clicked only for the first order. */
  lemma NextNumberOnlyFirst(f: OrderFields, first: bool, p: PageOracle)
    requires Click(NextNumber) in RunOrder(f, first, p).trace
    ensures first
  {
    NavigationWritesNothing(p.nav);
    SearchStageFacts(f, first, p);
  }

  /** The invoice is created only for an order whose status cell trims to RECEIVED. */
  lemma CreateInvoiceOnlyWhenReceived(f: OrderFields, first: bool, p: PageOracle)
    requires Click(CreateInvoice) in RunOrder(f, first, p).trace
    ensures p.status.Read? && IsReceived(p.status.value)
  {
    NavigationWritesNothing(p.nav);
    SearchStageFacts(f, first, p);
  }

  /** An order whose link is missing stops right after the count, before
      anything on its row is touched. */
  lemma NotFoundStopsAtCount(f: OrderFields, first: bool, p: PageOracle)
    requires RunOrder(f, first, p).stage.NotFound?
    ensures p.linkCount == Read(0)
    ensures var t := RunOrder(f, first, p).trace; t != [] && t[|t| - 1] == ReadCount(OrderLink)
  {
    SearchStageFacts(f, first, p);
  }
}
