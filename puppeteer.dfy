/** puppetter.js: the Puppeteer variant. `verifyElement` reports whether an
    element exists and is visible and never raises; `getFrames` finds the
    two nested iframes or raises; the per-order path types into the form
    before it compares the amounts; and the loop recovers from an error by
    replacing the page, with nothing to catch an error of the recovery. */
module Puppeteer {
  import opened Js
  import opened Browser
  import opened Navigation
  import opened Records
  import opened PlaywrightOrder
  import opened Sessions

  // ---------------------------------------------------------------------
  // verifyElement

  /** The properties the visibility check reads from an element. */
  datatype ElementState = ElementState(hasOffsetParent: bool, hidden: bool, display: string, visibility: string)

  /** The predicate `verifyElement` evaluates in the page. */
  predicate IsVisible(e: ElementState) {
    e.hasOffsetParent && !e.hidden && e.display != "none" && e.visibility != "hidden"
  }

  /** `verifyElement(frame, selector)`: `frame.$(selector)` gives the element
      or null, or raises; the evaluation of the predicate may raise too.
      Every error is caught and reported as false. */
  function VerifyElement(query: Reading<Option<ElementState>>, evaluation: Outcome): bool {
    if query.ReadRaised? then false
    else if query.value.None? then false
    else if evaluation.Raised? then false
    else IsVisible(query.value.value)
  }

  /** True exactly when the element was found, the evaluation completed and
      the element is visible. */
  lemma VerifyElementIff(query: Reading<Option<ElementState>>, evaluation: Outcome)
    ensures VerifyElement(query, evaluation) <==>
      query.Read? && query.value.Some? && evaluation.Done? && IsVisible(query.value.value)
  {
  }

  /** Because `verifyElement` never raises, a block does not notice what
      happens in one of its `Verify` steps: raising there or not, the block
      runs the same. This is why a missing or hidden Filter button or
      search box does not make a navigation attempt fail. */
  lemma {:induction false} VerifyStepIgnored(steps: seq<Action>, outs: seq<Outcome>, k: nat, o: Outcome, i: nat)
    requires k < |steps| && k < |outs| && steps[k].Verify? && i <= |steps|
    decreases |steps| - i
    ensures RunFrom(steps, outs[k := o], i) == RunFrom(steps, outs, i)
  {
    if i < |steps| {
      assert RaisesAt(steps, outs[k := o], i) == RaisesAt(steps, outs, i);
      if !RaisesAt(steps, outs, i) {
        VerifyStepIgnored(steps, outs, k, o, i + 1);
      }
    }
  }

  // ---------------------------------------------------------------------
  // getFrames

  /** What the page gives `getFrames`: the handle of the main iframe (found
      or null), its content frame, then the same for the legacy frame. */
  datatype FramesOracle = FramesOracle(main: Reading<bool>, mainContent: Outcome,
                                       legacy: Reading<bool>, legacyContent: Outcome)

  datatype FramesRun = FramesRun(error: Option<string>, trace: seq<Action>)

  const MainMissing := "Main app iframe not found"
  const LegacyMissing := "Legacy frame not found"

  /** `getFrames(page)`: a null handle raises its fixed message, any other
      error is rethrown as it is, and `logDOM` never raises. */
  function GetFrames(g: FramesOracle): (r: FramesRun)
    ensures r.error.None? <==>
      g.main == Read(true) && g.mainContent.Done? && g.legacy == Read(true) && g.legacyContent.Done?
  {
    var t1 := [Query(MainIframe)];
    if g.main.ReadRaised? then FramesRun(Some(g.main.message), t1)
    else if !g.main.value then FramesRun(Some(MainMissing), t1)
    else
      var t2 := t1 + [ContentFrame(MainIframe)];
      if g.mainContent.Raised? then FramesRun(Some(g.mainContent.message), t2)
      else
        var t3 := t2 + [LogDom, Query(LegacyFrame)];
        if g.legacy.ReadRaised? then FramesRun(Some(g.legacy.message), t3)
        else if !g.legacy.value then FramesRun(Some(LegacyMissing), t3)
        else
          var t4 := t3 + [ContentFrame(LegacyFrame)];
          if g.legacyContent.Raised? then FramesRun(Some(g.legacyContent.message), t4)
          else FramesRun(None, t4 + [LogDom])
  }

  /** The fixed messages come exactly from a missing handle. */
  lemma GetFramesMessages(g: FramesOracle)
    ensures g.main == Read(false) ==> GetFrames(g).error == Some(MainMissing)
    ensures g.main == Read(true) && g.mainContent.Done? && g.legacy == Read(false) ==>
      GetFrames(g).error == Some(LegacyMissing)
    ensures GetFrames(g).error == Some(MainMissing) ==>
      g.main == Read(false) || (g.main.ReadRaised? && g.main.message == MainMissing)
      || (g.main == Read(true) && g.mainContent.Raised? && g.mainContent.message == MainMissing)
      || (g.main == Read(true) && g.mainContent.Done? && g.legacy.ReadRaised? && g.legacy.message == MainMissing)
      || (g.main == Read(true) && g.mainContent.Done? && g.legacy == Read(true)
          && g.legacyContent.Raised? && g.legacyContent.message == MainMissing)
  {
  }

  // ---------------------------------------------------------------------
  // The per-order path

  /** What the page does for one order. */
  datatype PuppeteerPage = PuppeteerPage(
    nav: PuppeteerNavOracle,
    frames: FramesOracle,
    filters: seq<Outcome>,
    searchBox: Reading<bool>,     // mainFrame.$(search box) found it, or not
    typing: seq<Outcome>,
    link: Reading<bool>,          // mainFrame.$(link with the order number) found it, or not
    status: Reading<string>,      // the fourth cell's innerText (trimmed in the page)
    open: seq<Outcome>,
    formFrames: FramesOracle,
    create: seq<Outcome>,
    head: seq<Outcome>,
    amount: Reading<string>,
    tail: seq<Outcome>)

  /** The TypeError of `null.click(...)`. */
  const ClickOnNull := "Cannot read properties of null (reading 'click')"

  /** The filter clicks in the main frame. */
  const FilterSteps: seq<Action> :=
    [Click(FilterButton), Pause(1000), Click(DocumentTypes), Pause(500), Click(UnselectAll), Pause(500),
     Click(InvoiceType), Click(OrderType), Click(StatusButton), Click(UnselectAllStatus),
     Click(DeliveredReceived)]

  /** Selecting the search box's text, clearing it and typing the order number. */
  function TypingSteps(orderNo: Option<string>): seq<Action> {
    [Click(SearchBox), Press(SearchBox, Backspace), TypeText(SearchBox, orderNo)]
  }

  const OpenSteps: seq<Action> := [Click(OrderLink), WaitLoad]

  /** Creating the invoice and typing its number. */
  function CreateSteps(f: OrderFields): seq<Action> {
    [WaitForSelector(CreateInvoice), Click(CreateInvoice), TypeText(InvoiceNumber, f.invoiceNo)]
  }

  /** The fields typed before the amount is compared. */
  function HeadSteps(f: OrderFields, date: string): seq<Action> {
    [TypeText(IssueDate, Some(date)), TypeText(Irn, f.irn), TypeText(BusinessArea, f.businessArea)]
  }

  /** The rest of the form, the save, and the way back. */
  function TailSteps(f: OrderFields): seq<Action> {
    [Click(Amount), TypeText(Amount, f.baseAmount), SelectOption(HsnScheme, f.hsnSac),
     TypeText(SacValue, f.sac), SetFiles(Attachment, f.file), Click(Preview), Click(SaveDraft),
     GoBack, GoBack]
  }

  const SavedEnding: seq<Action> := [Click(Preview), Click(SaveDraft), GoBack, GoBack]

  /** From typing the date to the end. */
  function FormStage(f: OrderFields, p: PuppeteerPage): OrderRun {
    if f.invoiceDate.None? then OrderRun(Threw(ReplaceOnUndefined), [])
    else
      var head := HeadSteps(f, ReplaceDashes(f.invoiceDate.value));
      var t := Made(head, p.head);
      if RunBlock(head, p.head).error.Some? then OrderRun(Threw(RunBlock(head, p.head).error.value), t)
      else if p.amount.ReadRaised? then OrderRun(Threw(p.amount.message), t + [ReadValue(Amount)])
      else if AmountBelow(p.amount.value, f.baseAmount) then OrderRun(Below(p.amount.value), t + [ReadValue(Amount)])
      else
        var tail := TailSteps(f);
        var t2 := t + [ReadValue(Amount)] + Made(tail, p.tail);
        if RunBlock(tail, p.tail).error.Some? then OrderRun(Threw(RunBlock(tail, p.tail).error.value), t2)
        else OrderRun(Filled, t2)
  }

  /** From opening a RECEIVED order to the end. */
  function ReceivedStage(f: OrderFields, p: PuppeteerPage): OrderRun {
    var t := Made(OpenSteps, p.open);
    if RunBlock(OpenSteps, p.open).error.Some? then OrderRun(Threw(RunBlock(OpenSteps, p.open).error.value), t)
    else
      var frames := GetFrames(p.formFrames);
      var t2 := t + frames.trace;
      if frames.error.Some? then OrderRun(Threw(frames.error.value), t2)
      else
        var create := CreateSteps(f);
        var t3 := t2 + Made(create, p.create);
        if RunBlock(create, p.create).error.Some? then OrderRun(Threw(RunBlock(create, p.create).error.value), t3)
        else
          var rest := FormStage(f, p);
          OrderRun(rest.stage, t3 + rest.trace)
  }

  /** From the status cell to the end. The cell is trimmed in the page and
      compared exactly with RECEIVED. */
  function FoundStage(f: OrderFields, p: PuppeteerPage): OrderRun {
    var t := [ReadText(StatusCell)];
    if p.status.ReadRaised? then OrderRun(Threw(p.status.message), t)
    else if !IsReceived(p.status.value) then OrderRun(NotReceived(Trim(p.status.value)), t)
    else
      var rest := ReceivedStage(f, p);
      OrderRun(rest.stage, t + rest.trace)
  }

  /** From fetching the frames to the end. */
  function SearchStage(f: OrderFields, p: PuppeteerPage): OrderRun {
    var frames := GetFrames(p.frames);
    if frames.error.Some? then OrderRun(Threw(frames.error.value), frames.trace)
    else
      var t := frames.trace + Made(FilterSteps, p.filters);
      if RunBlock(FilterSteps, p.filters).error.Some? then OrderRun(Threw(RunBlock(FilterSteps, p.filters).error.value), t)
      else if p.searchBox.ReadRaised? then OrderRun(Threw(p.searchBox.message), t + [Query(SearchBox)])
      else if !p.searchBox.value then OrderRun(Threw(ClickOnNull), t + [Query(SearchBox)])
      else
        var typing := TypingSteps(f.orderNo);
        var t2 := t + [Query(SearchBox)] + Made(typing, p.typing);
        if RunBlock(typing, p.typing).error.Some? then OrderRun(Threw(RunBlock(typing, p.typing).error.value), t2)
        else if p.link.ReadRaised? then OrderRun(Threw(p.link.message), t2 + [Query(OrderLink)])
        else if !p.link.value then OrderRun(NotFound, t2 + [Query(OrderLink)])
        else
          var rest := FoundStage(f, p);
          OrderRun(rest.stage, t2 + [Query(OrderLink)] + rest.trace)
  }

  /** The body of the `for...of` loop for one order. */
  function RunOrder(f: OrderFields, p: PuppeteerPage): OrderRun {
    var nav := PuppeteerNav(p.nav);
    if nav.result.NavFailed? then OrderRun(Threw(nav.result.message), nav.trace)
    else
      var rest := SearchStage(f, p);
      OrderRun(rest.stage, nav.trace + rest.trace)
  }

  // ---------------------------------------------------------------------
  // Properties of the path

  /** The typed fields before the guard. */
  predicate TypedHead(t: seq<Action>, f: OrderFields, date: string) {
    TypeText(InvoiceNumber, f.invoiceNo) in t && TypeText(IssueDate, Some(date)) in t
    && TypeText(Irn, f.irn) in t && TypeText(BusinessArea, f.businessArea) in t
  }

  lemma TypedHeadAppend(a: seq<Action>, b: seq<Action>, f: OrderFields, date: string)
    requires TypedHead(b, f, date)
    ensures TypedHead(a + b, f, date)
  {
    InAppend(TypeText(InvoiceNumber, f.invoiceNo), a, b);
    InAppend(TypeText(IssueDate, Some(date)), a, b);
    InAppend(TypeText(Irn, f.irn), a, b);
    InAppend(TypeText(BusinessArea, f.businessArea), a, b);
  }

  lemma InAppend(x: Action, a: seq<Action>, b: seq<Action>)
    ensures x in a ==> x in a + b
    ensures x in b ==> x in a + b
  {
    if x in b {
      var k :| 0 <= k < |b| && b[k] == x;
      assert (a + b)[|a| + k] == x;
    }
  }

  lemma LastOfAppend(a: seq<Action>, b: seq<Action>)
    requires b != []
    ensures (a + b)[|a + b| - 1] == b[|b| - 1]
  {
  }

  lemma EndsWithAppend(a: seq<Action>, b: seq<Action>, e: seq<Action>)
    requires |b| >= |e| && b[|b| - |e|..] == e
    ensures |a + b| >= |e| && (a + b)[|a + b| - |e|..] == e
  {
    assert (a + b)[|a + b| - |e|..] == b[|b| - |e|..];
  }

  /** Facts about the form stage. */
  lemma FormStageFacts(f: OrderFields, p: PuppeteerPage)
    ensures var r := FormStage(f, p);
      && (r.stage.Below? ==>
            f.invoiceDate.Some?
            && TypeText(IssueDate, Some(ReplaceDashes(f.invoiceDate.value))) in r.trace
            && TypeText(Irn, f.irn) in r.trace && TypeText(BusinessArea, f.businessArea) in r.trace
            && r.trace[|r.trace| - 1] == ReadValue(Amount)
            && p.amount == Read(r.stage.current) && AmountBelow(r.stage.current, f.baseAmount))
      && (r.stage.Filled? ==>
            p.amount.Read? && !AmountBelow(p.amount.value, f.baseAmount)
            && |r.trace| >= 4 && r.trace[|r.trace| - 4..] == SavedEnding)
      && !r.stage.NotFound? && !r.stage.NotReceived?
  {
    if f.invoiceDate.Some? {
      var head := HeadSteps(f, ReplaceDashes(f.invoiceDate.value));
      var t := Made(head, p.head);
      if RunBlock(head, p.head).error.None? {
        assert t == head;
        var tail := TailSteps(f);
        if p.amount.Read? && !AmountBelow(p.amount.value, f.baseAmount) && RunBlock(tail, p.tail).error.None? {
          assert Made(tail, p.tail) == tail;
          EndsWithAppend(t + [ReadValue(Amount)], tail, SavedEnding);
        }
      }
    }
  }

  /** Facts about the stage from opening the order on. */
  lemma ReceivedStageFacts(f: OrderFields, p: PuppeteerPage)
    ensures var r := ReceivedStage(f, p);
      && (r.stage.Below? ==>
            f.invoiceDate.Some? && TypedHead(r.trace, f, ReplaceDashes(f.invoiceDate.value))
            && r.trace[|r.trace| - 1] == ReadValue(Amount)
            && p.amount == Read(r.stage.current) && AmountBelow(r.stage.current, f.baseAmount))
      && (r.stage.Filled? ==>
            GetFrames(p.formFrames).error.None?
            && p.amount.Read? && !AmountBelow(p.amount.value, f.baseAmount)
            && |r.trace| >= 4 && r.trace[|r.trace| - 4..] == SavedEnding)
      && !r.stage.NotFound? && !r.stage.NotReceived?
  {
    FormStageFacts(f, p);
    if RunBlock(OpenSteps, p.open).error.None? {
      var frames := GetFrames(p.formFrames);
      var t2 := Made(OpenSteps, p.open) + frames.trace;
      var create := CreateSteps(f);
      if frames.error.None? && RunBlock(create, p.create).error.None? {
        assert Made(create, p.create) == create;
        var t3 := t2 + create;
        var rest := FormStage(f, p);
        assert ReceivedStage(f, p) == OrderRun(rest.stage, t3 + rest.trace);
        if rest.stage.Below? {
          var date := ReplaceDashes(f.invoiceDate.value);
          InAppend(TypeText(InvoiceNumber, f.invoiceNo), t2, create);
          InAppend(TypeText(InvoiceNumber, f.invoiceNo), t3, rest.trace);
          InAppend(TypeText(IssueDate, Some(date)), t3, rest.trace);
          InAppend(TypeText(Irn, f.irn), t3, rest.trace);
          InAppend(TypeText(BusinessArea, f.businessArea), t3, rest.trace);
          LastOfAppend(t3, rest.trace);
        }
        if rest.stage.Filled? {
          EndsWithAppend(t3, rest.trace, SavedEnding);
        }
      }
    }
  }

  /** Facts about the stage from the status cell on. */
  lemma FoundStageFacts(f: OrderFields, p: PuppeteerPage)
    ensures var r := FoundStage(f, p);
      && (r.stage.Below? ==>
            f.invoiceDate.Some? && TypedHead(r.trace, f, ReplaceDashes(f.invoiceDate.value))
            && r.trace[|r.trace| - 1] == ReadValue(Amount)
            && p.amount == Read(r.stage.current) && AmountBelow(r.stage.current, f.baseAmount))
      && (r.stage.Filled? ==>
            p.status.Read? && IsReceived(p.status.value) && GetFrames(p.formFrames).error.None?
            && p.amount.Read? && !AmountBelow(p.amount.value, f.baseAmount)
            && |r.trace| >= 4 && r.trace[|r.trace| - 4..] == SavedEnding)
      && (r.stage.NotReceived? ==> p.status.Read? && !IsReceived(p.status.value) && r.stage.status == Trim(p.status.value))
      && !r.stage.NotFound?
  {
    ReceivedStageFacts(f, p);
    if p.status.Read? && IsReceived(p.status.value) {
      var rest := ReceivedStage(f, p);
      assert FoundStage(f, p) == OrderRun(rest.stage, [ReadText(StatusCell)] + rest.trace);
      if rest.stage.Below? {
        TypedHeadAppend([ReadText(StatusCell)], rest.trace, f, ReplaceDashes(f.invoiceDate.value));
      }
      if rest.stage.Filled? {
        EndsWithAppend([ReadText(StatusCell)], rest.trace, SavedEnding);
      }
    }
  }

  /** The prefix of the path up to the query for the order link. */
  function SearchPrefix(f: OrderFields, p: PuppeteerPage): seq<Action> {
    GetFrames(p.frames).trace + Made(FilterSteps, p.filters) + [Query(SearchBox)]
    + Made(TypingSteps(f.orderNo), p.typing) + [Query(OrderLink)]
  }

  /** The path reaches the order link's row exactly when the frames, the
      filters, the search box and the typing passed and the link is there. */
  predicate LinkFound(f: OrderFields, p: PuppeteerPage) {
    GetFrames(p.frames).error.None? && RunBlock(FilterSteps, p.filters).error.None?
    && p.searchBox == Read(true) && RunBlock(TypingSteps(f.orderNo), p.typing).error.None?
    && p.link == Read(true)
  }

  /** Past the link, the path is the found stage after the prefix. */
  lemma SearchStageFound(f: OrderFields, p: PuppeteerPage)
    requires !SearchStage(f, p).stage.Threw? && !SearchStage(f, p).stage.NotFound?
    ensures LinkFound(f, p)
    ensures SearchStage(f, p) == OrderRun(FoundStage(f, p).stage, SearchPrefix(f, p) + FoundStage(f, p).trace)
  {
  }

  /** A tripped guard: the head was typed, and the amount read was last. */
  lemma SearchStageBelow(f: OrderFields, p: PuppeteerPage)
    requires SearchStage(f, p).stage.Below?
    ensures var r := SearchStage(f, p);
      && f.invoiceDate.Some? && TypedHead(r.trace, f, ReplaceDashes(f.invoiceDate.value))
      && r.trace[|r.trace| - 1] == ReadValue(Amount)
      && p.amount == Read(r.stage.current) && AmountBelow(r.stage.current, f.baseAmount)
  {
    SearchStageFound(f, p);
    FoundStageFacts(f, p);
    var rest := FoundStage(f, p);
    TypedHeadAppend(SearchPrefix(f, p), rest.trace, f, ReplaceDashes(f.invoiceDate.value));
    LastOfAppend(SearchPrefix(f, p), rest.trace);
  }

  /** A saved order passed every gate and ended with the save and the two
      `goBack` calls. */
  lemma SearchStageFilled(f: OrderFields, p: PuppeteerPage)
    requires SearchStage(f, p).stage.Filled?
    ensures var r := SearchStage(f, p);
      && GetFrames(p.frames).error.None? && p.link == Read(true)
      && p.status.Read? && IsReceived(p.status.value) && GetFrames(p.formFrames).error.None?
      && p.amount.Read? && !AmountBelow(p.amount.value, f.baseAmount)
      && |r.trace| >= 4 && r.trace[|r.trace| - 4..] == SavedEnding
  {
    SearchStageFound(f, p);
    FoundStageFacts(f, p);
    EndsWithAppend(SearchPrefix(f, p), FoundStage(f, p).trace, SavedEnding);
  }

  /** A skipped order was found, and its status cell does not trim to RECEIVED. */
  lemma SearchStageNotReceived(f: OrderFields, p: PuppeteerPage)
    requires SearchStage(f, p).stage.NotReceived?
    ensures p.link == Read(true) && p.status.Read? && !IsReceived(p.status.value)
    ensures SearchStage(f, p).stage.status == Trim(p.status.value)
  {
    SearchStageFound(f, p);
    FoundStageFacts(f, p);
  }

  /** A missing link ends the stage right after the query for it. */
  lemma SearchStageNotFound(f: OrderFields, p: PuppeteerPage)
    requires SearchStage(f, p).stage.NotFound?
    ensures p.link == Read(false)
    ensures var r := SearchStage(f, p); r.trace != [] && r.trace[|r.trace| - 1] == Query(OrderLink)
  {
    assert !LinkFound(f, p) by {
      if LinkFound(f, p) {
        FoundStageFacts(f, p);
        assert false;
      }
    }
    var t2 := GetFrames(p.frames).trace + Made(FilterSteps, p.filters) + [Query(SearchBox)]
      + Made(TypingSteps(f.orderNo), p.typing);
    assert p.link == Read(false) && SearchStage(f, p).trace == t2 + [Query(OrderLink)];
    LastOfAppend(t2, [Query(OrderLink)]);
  }

  /** Unlike the Playwright scripts, the guard runs after the invoice
      number, the date, the IRN and the business area have been typed; when
      it trips the path stops right at the amount read, so nothing after it
      (the amount, the scheme, the file, the save) is done. */
  lemma BelowAfterTyping(f: OrderFields, p: PuppeteerPage)
    requires RunOrder(f, p).stage.Below?
    ensures f.invoiceDate.Some? && TypedHead(RunOrder(f, p).trace, f, ReplaceDashes(f.invoiceDate.value))
    ensures var t := RunOrder(f, p).trace; t[|t| - 1] == ReadValue(Amount)
    ensures p.amount.Read? && ParseInt(p.amount.value).Int? && ParseField(f.baseAmount).Int?
    ensures ParseInt(p.amount.value).value < ParseField(f.baseAmount).value
  {
    var nav := PuppeteerNav(p.nav);
    var rest := SearchStage(f, p);
    assert RunOrder(f, p) == OrderRun(rest.stage, nav.trace + rest.trace);
    SearchStageBelow(f, p);
    TypedHeadAppend(nav.trace, rest.trace, f, ReplaceDashes(f.invoiceDate.value));
    LastOfAppend(nav.trace, rest.trace);
  }

  /** A saved order came through navigation, both frame lookups, a found
      link and the exact RECEIVED status, an amount not below the base, and
      its last calls were the preview, the save and the two `goBack` calls. */
  lemma FilledPassedEveryGate(f: OrderFields, p: PuppeteerPage)
    requires RunOrder(f, p).stage.Filled?
    ensures PuppeteerNav(p.nav).result.Navigated?
    ensures GetFrames(p.frames).error.None? && GetFrames(p.formFrames).error.None?
    ensures p.link == Read(true) && p.status.Read? && IsReceived(p.status.value)
    ensures p.amount.Read? && !AmountBelow(p.amount.value, f.baseAmount)
    ensures var t := RunOrder(f, p).trace; |t| >= 4 && t[|t| - 4..] == SavedEnding
  {
    SearchStageFilled(f, p);
    EndsWithAppend(PuppeteerNav(p.nav).trace, SearchStage(f, p).trace, SavedEnding);
  }

  /** A missing link ends the path right after the query for it. */
  lemma NotFoundStopsAtQuery(f: OrderFields, p: PuppeteerPage)
    requires RunOrder(f, p).stage.NotFound?
    ensures p.link == Read(false)
    ensures var t := RunOrder(f, p).trace; t != [] && t[|t| - 1] == Query(OrderLink)
  {
    var nav := PuppeteerNav(p.nav);
    var rest := SearchStage(f, p);
    assert RunOrder(f, p) == OrderRun(rest.stage, nav.trace + rest.trace);
    SearchStageNotFound(f, p);
    LastOfAppend(nav.trace, rest.trace);
  }

  // ---------------------------------------------------------------------
  // The loop

  /** How the loop dealt with one order. */
  datatype Handling =
    | Skipped(stage: Stage)
    | Saved
    | Recovered(message: string)
    | RecoveryRaised(message: string, recoveryError: string)

  /** The page each order meets. */
  type Pages = nat -> PuppeteerPage

  /** Where the path stopped for each order, in order. */
  function Stages(rows: seq<Order>, pages: Pages): (ss: seq<Stage>)
    ensures |ss| == |rows|
  {
    seq(|rows|, i requires 0 <= i < |rows| => RunOrder(FieldsOf(rows[i]), pages(i)).stage)
  }

  datatype Loop = Loop(handled: seq<Handling>, end: End)

  /** The loop from order `i` on, with `errors` recoveries made so far. An
      error of the recovery leaves the loop and the script. */
  function LoopFrom(stages: seq<Stage>, recovery: seq<seq<Outcome>>, i: nat, errors: nat,
                    done: seq<Handling>): Loop
    requires i <= |stages|
    decreases |stages| - i
  {
    if i == |stages| then Loop(done, KeptOpen)
    else
      match stages[i]
      case Filled => LoopFrom(stages, recovery, i + 1, errors, done + [Saved])
      case Threw(m) =>
        var rec := RunBlock(ReplacePageSteps, RecoveryAt(recovery, errors));
        if rec.error.None? then LoopFrom(stages, recovery, i + 1, errors + 1, done + [Recovered(m)])
        else Loop(done + [RecoveryRaised(m, rec.error.value)], Crashed(rec.error.value))
      case _ => LoopFrom(stages, recovery, i + 1, errors, done + [Skipped(stages[i])])
  }

  predicate NoRecoveryRaised(hs: seq<Handling>) {
    forall j :: 0 <= j < |hs| ==> !hs[j].RecoveryRaised?
  }

  /** The loop's record of an order agrees with where its path stopped. */
  predicate Matches(h: Handling, st: Stage) {
    match h
    case Skipped(s) => s == st && (st.NotFound? || st.NotReceived? || st.Below?)
    case Saved => st.Filled?
    case Recovered(m) => st == Threw(m)
    case RecoveryRaised(m, _) => st == Threw(m)
  }

  /** The orders are handled one by one, as their paths say; the skips
      make no recovery. */
  lemma {:induction false} LoopFromHandles(stages: seq<Stage>, recovery: seq<seq<Outcome>>, i: nat, errors: nat,
                                           done: seq<Handling>)
    requires i <= |stages| && |done| == i
    decreases |stages| - i
    ensures var r := LoopFrom(stages, recovery, i, errors, done);
      && i <= |r.handled| <= |stages| && r.handled[..i] == done
      && forall j :: i <= j < |r.handled| ==> Matches(r.handled[j], stages[j])
  {
    if i < |stages| {
      var rec := RunBlock(ReplacePageSteps, RecoveryAt(recovery, errors));
      if stages[i].Threw? && rec.error.Some? {
        var last := done + [RecoveryRaised(stages[i].message, rec.error.value)];
        assert LoopFrom(stages, recovery, i, errors, done) == Loop(last, Crashed(rec.error.value));
        assert last[..i] == done;
      } else {
        var h := if stages[i].Filled? then Saved
                 else if stages[i].Threw? then Recovered(stages[i].message)
                 else Skipped(stages[i]);
        var errors' := if stages[i].Threw? then errors + 1 else errors;
        var rest := LoopFrom(stages, recovery, i + 1, errors', done + [h]);
        assert LoopFrom(stages, recovery, i, errors, done) == rest;
        LoopFromHandles(stages, recovery, i + 1, errors', done + [h]);
        assert rest.handled[..i + 1][..i] == rest.handled[..i];
        assert rest.handled[i] == h;
      }
    }
  }

  /** The script reaches the end of the loop exactly when no recovery
      raised; a recovery that raises ends the script with its error, and no
      later order is handled. */
  lemma {:induction false} LoopFromEnds(stages: seq<Stage>, recovery: seq<seq<Outcome>>, i: nat, errors: nat,
                                        done: seq<Handling>)
    requires i <= |stages| && |done| == i && NoRecoveryRaised(done)
    decreases |stages| - i
    ensures var r := LoopFrom(stages, recovery, i, errors, done);
      && (r.end == KeptOpen ==> |r.handled| == |stages| && NoRecoveryRaised(r.handled))
      && (r.end != KeptOpen ==>
            |r.handled| > i && r.handled[|r.handled| - 1].RecoveryRaised?
            && NoRecoveryRaised(r.handled[..|r.handled| - 1])
            && r.end == Crashed(r.handled[|r.handled| - 1].recoveryError))
  {
    if i < |stages| {
      var rec := RunBlock(ReplacePageSteps, RecoveryAt(recovery, errors));
      if stages[i].Threw? && rec.error.Some? {
        var last := done + [RecoveryRaised(stages[i].message, rec.error.value)];
        assert LoopFrom(stages, recovery, i, errors, done) == Loop(last, Crashed(rec.error.value));
        assert last[..|last| - 1] == done;
      } else {
        var h := if stages[i].Filled? then Saved
                 else if stages[i].Threw? then Recovered(stages[i].message)
                 else Skipped(stages[i]);
        var errors' := if stages[i].Threw? then errors + 1 else errors;
        assert LoopFrom(stages, recovery, i, errors, done) == LoopFrom(stages, recovery, i + 1, errors', done + [h]);
        LoopFromEnds(stages, recovery, i + 1, errors', done + [h]);
      }
    }
  }

  /** The number of recoveries the handled orders started. */
  function Recoveries(hs: seq<Handling>): nat {
    if hs == [] then 0
    else
      var h := hs[|hs| - 1];
      Recoveries(hs[..|hs| - 1]) + (if h.Recovered? || h.RecoveryRaised? then 1 else 0)
  }

  /** The calls each order's path makes, in order. */
  function Bodies(rows: seq<Order>, pages: Pages): (bs: seq<seq<Action>>)
    ensures |bs| == |rows|
  {
    seq(|rows|, i requires 0 <= i < |rows| => RunOrder(FieldsOf(rows[i]), pages(i)).trace)
  }

  /** The calls the loop makes for the handled orders: each order's path,
      then the recovery block after an error. */
  function LoopTrace(bodies: seq<seq<Action>>, recovery: seq<seq<Outcome>>, hs: seq<Handling>): seq<Action>
    requires |hs| <= |bodies|
  {
    if hs == [] then []
    else
      var j := |hs| - 1;
      var h := hs[j];
      LoopTrace(bodies, recovery, hs[..j]) + bodies[j]
      + (if h.Recovered? || h.RecoveryRaised? then Made(ReplacePageSteps, RecoveryAt(recovery, Recoveries(hs[..j])))
         else [])
  }

  /** The loop ends normally only if every recovery it started completed;
      otherwise every recovery but the last completed, and the last raised. */
  lemma {:induction false} LoopFromRecoveries(stages: seq<Stage>, recovery: seq<seq<Outcome>>, i: nat, errors: nat,
                                              done: seq<Handling>)
    requires i <= |stages| && |done| == i && Recoveries(done) == errors
    requires forall k :: 0 <= k < errors ==> ReplacePageCompletes(RecoveryAt(recovery, k))
    decreases |stages| - i
    ensures var r := LoopFrom(stages, recovery, i, errors, done);
      && (r.end == KeptOpen ==>
            forall k :: 0 <= k < Recoveries(r.handled) ==> ReplacePageCompletes(RecoveryAt(recovery, k)))
      && (r.end != KeptOpen ==>
            && Recoveries(r.handled) > 0
            && !ReplacePageCompletes(RecoveryAt(recovery, Recoveries(r.handled) - 1))
            && forall k :: 0 <= k < Recoveries(r.handled) - 1 ==> ReplacePageCompletes(RecoveryAt(recovery, k)))
  {
    if i < |stages| {
      var rec := RunBlock(ReplacePageSteps, RecoveryAt(recovery, errors));
      if stages[i].Threw? && rec.error.Some? {
        var last := done + [RecoveryRaised(stages[i].message, rec.error.value)];
        assert LoopFrom(stages, recovery, i, errors, done) == Loop(last, Crashed(rec.error.value));
        assert last[..|last| - 1] == done;
      } else {
        var h := if stages[i].Filled? then Saved
                 else if stages[i].Threw? then Recovered(stages[i].message)
                 else Skipped(stages[i]);
        var errors' := if stages[i].Threw? then errors + 1 else errors;
        assert LoopFrom(stages, recovery, i, errors, done) == LoopFrom(stages, recovery, i + 1, errors', done + [h]);
        assert (done + [h])[..|done|] == done;
        LoopFromRecoveries(stages, recovery, i + 1, errors', done + [h]);
      }
    }
  }

  /** After a run of the loop that reached its end, the script holds page
      number 1 + the number of errors, in the browser's default context and
      logged in; once a page has been replaced it has no timeout set, so it
      runs with the library's defaults. After a run that did not, the last
      recovery is the one that raised. */
  lemma KeptOpenSession(stages: seq<Stage>, recovery: seq<seq<Outcome>>)
    ensures var r := LoopFrom(stages, recovery, 0, 0, []);
      var n := Recoveries(r.handled);
      var st := PagesAfter(PuppeteerStart, recovery, n);
      && (r.end == KeptOpen ==>
            && st.context == 0 && st.contextOpen && st.page == 1 + n
            && st.pageOpen && st.pageContext == 0 && st.loggedIn
            && st.defaultTimeout == (if n == 0 then Some(60000) else None) && st.navigationTimeout == None)
      && (r.end != KeptOpen ==> n > 0 && !ReplacePageCompletes(RecoveryAt(recovery, n - 1)))
  {
    var r := LoopFrom(stages, recovery, 0, 0, []);
    LoopFromRecoveries(stages, recovery, 0, 0, []);
    if r.end == KeptOpen {
      CompletedReplacements(PuppeteerStart, recovery, Recoveries(r.handled));
    }
  }

  /** How the loop records an order, given where its path stopped and how
      the recovery block would run. */
  function HandlingOf(stage: Stage, rec: Run): Handling {
    match stage
    case Filled => Saved
    case Threw(m) => if rec.error.None? then Recovered(m) else RecoveryRaised(m, rec.error.value)
    case _ => Skipped(stage)
  }

  /** One step of the loop specification. */
  lemma LoopFromStep(stages: seq<Stage>, recovery: seq<seq<Outcome>>, i: nat, errors: nat, done: seq<Handling>)
    requires i < |stages|
    ensures var h := HandlingOf(stages[i], RunBlock(ReplacePageSteps, RecoveryAt(recovery, errors)));
      && (h.RecoveryRaised? ==>
            LoopFrom(stages, recovery, i, errors, done) == Loop(done + [h], Crashed(h.recoveryError)))
      && (!h.RecoveryRaised? ==>
            LoopFrom(stages, recovery, i, errors, done)
            == LoopFrom(stages, recovery, i + 1, errors + (if h.Recovered? then 1 else 0), done + [h]))
  {
  }

  /** One more handled order extends the trace by that order's calls. */
  lemma LoopTraceStep(bodies: seq<seq<Action>>, recovery: seq<seq<Outcome>>, hs: seq<Handling>, h: Handling)
    requires |hs| < |bodies|
    ensures Recoveries(hs + [h]) == Recoveries(hs) + (if h.Recovered? || h.RecoveryRaised? then 1 else 0)
    ensures LoopTrace(bodies, recovery, hs + [h])
      == LoopTrace(bodies, recovery, hs) + bodies[|hs|]
         + (if h.Recovered? || h.RecoveryRaised? then Made(ReplacePageSteps, RecoveryAt(recovery, Recoveries(hs)))
            else [])
  {
    assert (hs + [h])[..|hs|] == hs;
  }

  /** What the body of the loop does once an order's path has stopped:
      the `catch` replaces the page, as the run's `errors`-th recovery. */
  method HandleStage(s: Session, stage: Stage, recovery: seq<seq<Outcome>>, errors: nat, ghost start: State)
    returns (h: Handling, calls: seq<Action>)
    requires s.Snapshot() == PagesAfter(start, recovery, errors)
    modifies s
    ensures h == HandlingOf(stage, RunBlock(ReplacePageSteps, RecoveryAt(recovery, errors)))
    ensures calls == if h.Recovered? || h.RecoveryRaised? then Made(ReplacePageSteps, RecoveryAt(recovery, errors)) else []
    ensures s.Snapshot() == PagesAfter(start, recovery, errors + (if h.Recovered? || h.RecoveryRaised? then 1 else 0))
  {
    calls := [];
    match stage {
      case Filled =>
        h := Saved;
      case Threw(m) =>
        var error;
        error, calls := s.ReplacePage(RecoveryAt(recovery, errors));
        h := if error.Some? then RecoveryRaised(m, error.value) else Recovered(m);
      case _ =>
        h := Skipped(stage);
    }
  }

  /** The `for...of` loop over the rows, with the page replaced after an
      error; the session ends as the replacements made leave it. */
  method RunRows(s: Session, rows: seq<Order>, pages: Pages, recovery: seq<seq<Outcome>>)
    returns (handled: seq<Handling>, end: End, trace: seq<Action>)
    modifies s
    ensures Loop(handled, end) == LoopFrom(Stages(rows, pages), recovery, 0, 0, [])
    ensures |handled| <= |rows| && trace == LoopTrace(Bodies(rows, pages), recovery, handled)
    ensures s.Snapshot() == PagesAfter(old(s.Snapshot()), recovery, Recoveries(handled))
  {
    ghost var stages, bodies := Stages(rows, pages), Bodies(rows, pages);
    ghost var start := s.Snapshot();
    handled, trace := [], [];
    var errors := 0;
    for i := 0 to |rows|
      invariant |handled| == i
      invariant LoopFrom(stages, recovery, 0, 0, []) == LoopFrom(stages, recovery, i, errors, handled)
      invariant errors == Recoveries(handled)
      invariant trace == LoopTrace(bodies, recovery, handled)
      invariant s.Snapshot() == PagesAfter(start, recovery, errors)
    {
      var run := RunOrder(FieldsOf(rows[i]), pages(i));
      assert run.stage == stages[i] && run.trace == bodies[i];
      var h, calls := HandleStage(s, run.stage, recovery, errors, start);
      LoopFromStep(stages, recovery, i, errors, handled);
      LoopTraceStep(bodies, recovery, handled, h);
      trace := trace + run.trace + calls;
      handled := handled + [h];
      if h.RecoveryRaised? {
        return handled, Crashed(h.recoveryError), trace;
      }
      if h.Recovered? {
        errors := errors + 1;
      }
    }
    end := KeptOpen;
  }

  /** The top-level async function of puppetter.js. */
  method PuppeteerMain(rows: seq<Order>, startup: seq<Outcome>, pages: Pages, recovery: seq<seq<Outcome>>)
    returns (end: End, handled: seq<Handling>)
    ensures rows == [] ==> end == Exited(1) && handled == []
    ensures rows != [] && RunBlock(PuppeteerStartSteps, startup).error.Some? ==>
      end == Crashed(RunBlock(PuppeteerStartSteps, startup).error.value) && handled == []
    ensures rows != [] && RunBlock(PuppeteerStartSteps, startup).error.None? ==>
      Loop(handled, end) == LoopFrom(Stages(rows, pages), recovery, 0, 0, [])
  {
    if |rows| == 0 {
      return Exited(1), [];
    }
    var start := RunBlock(PuppeteerStartSteps, startup);
    if start.error.Some? {
      return Crashed(start.error.value), [];
    }
    var s := new Session.Puppeteer();
    var trace;
    handled, end, trace := RunRows(s, rows, pages, recovery);
  }
}
