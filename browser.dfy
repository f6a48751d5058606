/** The browser seen from the scripts: every awaited Playwright or Puppeteer
    call either completes or raises an error with a message. What the page
    will do is given up front as an oracle, and a run of consecutive calls
    inside one `try` (a block) stops at the first call that raises. */
module Browser {
  import opened Js

  /** What one awaited call does. */
  datatype Outcome = Done | Raised(message: string)

  /** How a script's process ends: `process.exit(code)`, an error that no
      `try` catches (the rejected top-level promise ends the process), or
      the final never-resolving promise that keeps the browser open. */
  datatype End = Exited(code: int) | Crashed(message: string) | KeptOpen

  /** What a call that reads from the page (a count, a text, an attribute,
      an input value) gives back: the value, or the error it raised. */
  datatype Reading<T> = Read(value: T) | ReadRaised(message: string)

  /** The pages the scripts open by URL. */
  datatype Url =
    | LoginPage                      // https://go.tradeshift.com
    | DocumentManager                // https://go.tradeshift.com/#/Tradeshift.DocumentManager
    | ConversationView(uid: string)  // https://go.tradeshift.com/#/Tradeshift.ConversationLG/view/<uid>

  /** The address of a page. */
  function UrlText(u: Url): string {
    match u
    case LoginPage => "https://go.tradeshift.com"
    case DocumentManager => "https://go.tradeshift.com/#/Tradeshift.DocumentManager"
    case ConversationView(uid) => "https://go.tradeshift.com/#/Tradeshift.ConversationLG/view/" + uid
  }

  /** The page elements the scripts address (by role, text or CSS selector). */
  datatype Target =
    | MainIframe          // iframe[name="main-app-iframe"]
    | LegacyFrame         // iframe[name="legacy-frame"]
    | FilterToggle        // the div whose text is exactly "Filter"
    | FilterButton        // button ")Filter"
    | DocumentTypes       // button "Document Types"
    | InvoiceType         // .invoice.flex-none
    | OrderType           // .order.flex-none
    | UnselectAll         // the first "Unselect all"
    | StatusButton        // the first button "Status"
    | UnselectAllStatus   // the second div whose text is "Unselect all"
    | DeliveredReceived   // .DELIVERED_RECEIVED.flex-none
    | SearchBox           // textbox "Search"
    | OrderLink           // the link named after the order number
    | StatusCell          // the fourth cell of the link's table row
    | CreateInvoice       // button "Create Invoice"
    | InvoiceNumber       // textbox "Invoice number"
    | IssueDate           // the input of the "Issue date *..." div
    | IssueDateButton     // the button of that div
    | CloseButton         // a button named /close/i
    | Irn                 // textbox "IRN (Invoice Reference Number)"
    | NextNumber          // the text /Next number: .*/
    | BusinessArea        // textbox "Business Area"
    | PlaceOfSupply       // textbox "POS (Place of supply)"
    | Amount              // #lines_0__amount
    | HsnScheme           // #lines_0__additionalItemIdentification_schemeId
    | SacValue            // #lines_0__additionalItemIdentification_value
    | Attachment          // input[name="attachment"]
    | Preview             // #preview
    | SaveDraft           // button "o Save as draft"
    | CookieConsent       // #cookie-consent-accept-all
    | Username            // input[name="j_username"]
    | Password            // input[name="j_password"]
    | Proceed             // button[id="proceed"]

  /** The keys the scripts press. */
  datatype Key = Delete | Backspace

  /** The browser calls the scripts make, as they appear in a trace. */
  datatype Action =
    | Launch
    | Goto(url: Url)
    | Reload
    | WaitForSelector(target: Target)
    | WaitVisible(target: Target)
    | WaitLoad
    | Pause(ms: nat)
    | Click(target: Target)
    | TryClick(target: Target)
    | CheckBox(target: Target)
    | UncheckBox(target: Target)
    | SelectText(target: Target)
    | Press(target: Target, key: Key)
    | Fill(target: Target, value: Option<string>)
    | TypeText(target: Target, value: Option<string>)
    | FillSecret(target: Target)
    | SelectOption(target: Target, value: Option<string>)
    | SetFiles(target: Target, value: Option<string>)
    | ReadCount(target: Target)
    | ReadText(target: Target)
    | ReadValue(target: Target)
    | ReadClass(target: Target)
    | Query(target: Target)
    | ContentFrame(target: Target)
    | Verify(target: Target)
    | LogDom
    | Screenshot
    | GoBack
    | CloseContext
    | NewContext
    | NewPage
    | ClosePage
    | SetDefaultTimeout(ms: nat)
    | SetNavigationTimeout(ms: nat)
    | CloseBrowser

  /** Calls that cannot raise: timed waits, a click whose error the script
      swallows on the spot, Puppeteer's `verifyElement` and `logDOM` (both
      catch everything and return a boolean), and the synchronous timeout
      setters. The oracle's slot for such a step is ignored. Playwright's
      `waitForTimeout` does reject on a closed page; that case is not
      modelled. */
  predicate Infallible(a: Action) {
    a.Pause? || a.TryClick? || a.Verify? || a.LogDom?
    || a.SetDefaultTimeout? || a.SetNavigationTimeout?
  }

  /** The oracle's outcome for step `k`; slots past its end complete. */
  function OutcomeAt(outs: seq<Outcome>, k: nat): Outcome {
    if k < |outs| then outs[k] else Done
  }

  /** Step `k` of a block raises under the oracle. */
  predicate RaisesAt(steps: seq<Action>, outs: seq<Outcome>, k: nat)
    requires k < |steps|
  {
    !Infallible(steps[k]) && OutcomeAt(outs, k).Raised?
  }

  /** How far a block got: the number of steps made (the raising one
      included), and the error it stopped with, if any. */
  datatype Run = Run(made: nat, error: Option<string>)

  /** Runs the steps of a block from index `i` on. */
  function RunFrom(steps: seq<Action>, outs: seq<Outcome>, i: nat): (r: Run)
    requires i <= |steps|
    decreases |steps| - i
    ensures i <= r.made <= |steps|
    ensures r.error.None? ==> r.made == |steps|
    ensures r.error.Some? ==> i < r.made
  {
    if i == |steps| then Run(i, None)
    else if RaisesAt(steps, outs, i) then Run(i + 1, Some(OutcomeAt(outs, i).message))
    else RunFrom(steps, outs, i + 1)
  }

  /** A block completes exactly when none of its steps raises; otherwise it
      stops with the error of the first step that raises, having made every
      step up to and including that one. */
  lemma {:induction false} RunFromMeaning(steps: seq<Action>, outs: seq<Outcome>, i: nat)
    requires i <= |steps|
    decreases |steps| - i
    ensures var r := RunFrom(steps, outs, i);
      && (r.error.None? <==> forall k :: i <= k < |steps| ==> !RaisesAt(steps, outs, k))
      && (r.error.Some? ==>
            RaisesAt(steps, outs, r.made - 1)
            && r.error.value == OutcomeAt(outs, r.made - 1).message
            && forall k :: i <= k < r.made - 1 ==> !RaisesAt(steps, outs, k))
  {
    if i < |steps| && !RaisesAt(steps, outs, i) {
      RunFromMeaning(steps, outs, i + 1);
    }
  }

  /** Runs a whole block. */
  function RunBlock(steps: seq<Action>, outs: seq<Outcome>): Run {
    RunFrom(steps, outs, 0)
  }

  /** The calls a block actually made. */
  function Made(steps: seq<Action>, outs: seq<Outcome>): seq<Action> {
    steps[..RunBlock(steps, outs).made]
  }

  /** The number of steps of a block that completed. */
  function Passed(steps: seq<Action>, outs: seq<Outcome>): (n: nat)
    ensures n <= |steps|
    ensures forall k :: 0 <= k < n ==> !RaisesAt(steps, outs, k)
    ensures n < |steps| ==> RaisesAt(steps, outs, n)
  {
    RunFromMeaning(steps, outs, 0);
    var r := RunBlock(steps, outs);
    if r.error.Some? then r.made - 1 else r.made
  }

  /** A block whose oracle has no raised outcome at all completes. */
  lemma QuietOracleCompletes(steps: seq<Action>, outs: seq<Outcome>)
    requires forall k :: 0 <= k < |outs| ==> outs[k].Done?
    ensures RunBlock(steps, outs) == Run(|steps|, None)
  {
    RunFromMeaning(steps, outs, 0);
    assert forall k :: 0 <= k < |steps| ==> !RaisesAt(steps, outs, k) by {
      forall k | 0 <= k < |steps| ensures !RaisesAt(steps, outs, k) {
        assert OutcomeAt(outs, k).Done?;
      }
    }
  }
}
