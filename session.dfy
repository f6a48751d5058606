/** The browser session a script holds in its `context` and `page`
    variables, and the two ways the scripts rebuild it after an error: the
    Playwright scripts close the context and open a new one, the Puppeteer
    script closes the page and opens a new one. */
module Sessions {
  import opened Js
  import opened Browser

  /** `login` in auto.js and auto.ts: the cookie banner click is swallowed
      when it fails; the account fields are filled with fixed credentials. */
  const PlaywrightLoginSteps: seq<Action> :=
    [Goto(LoginPage), TryClick(CookieConsent), FillSecret(Username), FillSecret(Password),
     Click(Proceed), WaitLoad, Pause(3000)]

  /** `login` in puppetter.js, with its `verifyElement` and `logDOM` calls. */
  const PuppeteerLoginSteps: seq<Action> :=
    [Goto(LoginPage), LogDom, Verify(CookieConsent), TryClick(CookieConsent),
     Verify(Username), FillSecret(Username), Verify(Password), FillSecret(Password),
     Verify(Proceed), LogDom, Click(Proceed), WaitLoad, LogDom]

  /** Start-up of the Playwright scripts: launch, context, page, timeouts, login. */
  const PlaywrightStartSteps: seq<Action> :=
    [Launch, NewContext, NewPage, SetDefaultTimeout(60000), SetNavigationTimeout(60000)]
    + PlaywrightLoginSteps

  /** Start-up of the Puppeteer script: launch, page, one timeout, login. */
  const PuppeteerStartSteps: seq<Action> :=
    [Launch, NewPage, SetDefaultTimeout(60000)] + PuppeteerLoginSteps

  /** Recovery in the Playwright scripts: a fresh context and page with
      60-second timeouts, then login again. */
  const RecreateSteps: seq<Action> :=
    [CloseContext, NewContext, NewPage, SetDefaultTimeout(60000), SetNavigationTimeout(60000)]
    + PlaywrightLoginSteps

  /** Recovery in the Puppeteer script: a fresh page, then login again. */
  const ReplacePageSteps: seq<Action> := [ClosePage, NewPage] + PuppeteerLoginSteps

  /** What the script's `context` and `page` variables hold, as a value. */
  datatype State = State(
    /** The context the script's variable holds (numbered as created). */
    context: nat,
    contextOpen: bool,
    /** The page the script's variable holds (numbered as created). */
    page: nat,
    /** The context that page was opened in. */
    pageContext: nat,
    pageOpen: bool,
    /** The timeouts set on the page; None is the library's default. */
    defaultTimeout: Option<nat>,
    navigationTimeout: Option<nat>,
    /** Login has completed on the page. */
    loggedIn: bool)

  /** The page can be driven: it is open, in the context the script holds,
      and that context is open. */
  predicate Drivable(st: State) {
    st.contextOpen && st.pageOpen && st.pageContext == st.context
  }

  /** Drivable, logged in, and with both 60-second timeouts. */
  predicate PlaywrightReady(st: State) {
    Drivable(st) && st.loggedIn
    && st.defaultTimeout == Some(60000) && st.navigationTimeout == Some(60000)
  }

  /** The session a completed Playwright start-up leaves. */
  const PlaywrightStart: State := State(1, true, 1, 1, true, Some(60000), Some(60000), true)

  /** The session a completed Puppeteer start-up leaves: the browser's
      default context, and only the default timeout set. */
  const PuppeteerStart: State := State(0, true, 1, 0, true, Some(60000), None, true)

  /** The oracle of the `k`-th recovery; past its end every call completes. */
  function RecoveryAt(recovery: seq<seq<Outcome>>, k: nat): seq<Outcome> {
    if k < |recovery| then recovery[k] else []
  }

  predicate RecreateCompletes(outs: seq<Outcome>) {
    RunBlock(RecreateSteps, outs).error.None?
  }

  predicate ReplacePageCompletes(outs: seq<Outcome>) {
    RunBlock(ReplacePageSteps, outs).error.None?
  }

  /** The session after the Playwright recovery block, each call that
      completed having had its effect: closing the context closes its page,
      the new page belongs to the new context, and login has completed only
      when the whole block did. */
  function AfterRecreate(st: State, outs: seq<Outcome>): (r: State)
    ensures RecreateCompletes(outs) ==>
      PlaywrightReady(r) && r.context == st.context + 1 && r.page == st.page + 1
    ensures !RecreateCompletes(outs) && 1 <= Passed(RecreateSteps, outs) < 3 && st.pageContext == st.context
      ==> !Drivable(r)
    ensures Passed(RecreateSteps, outs) == 0 ==> r == st
  {
    var n := Passed(RecreateSteps, outs);
    var closed := n >= 1;
    State(
      context := if n >= 2 then st.context + 1 else st.context,
      contextOpen := if n >= 2 then true else if closed then false else st.contextOpen,
      page := if n >= 3 then st.page + 1 else st.page,
      pageContext := if n >= 3 then st.context + 1 else st.pageContext,
      pageOpen := if n >= 3 then true
                  else if closed && st.pageContext == st.context then false
                  else st.pageOpen,
      defaultTimeout := if n >= 3 then Some(60000) else st.defaultTimeout,
      navigationTimeout := if n >= 3 then Some(60000) else st.navigationTimeout,
      loggedIn := if RecreateCompletes(outs) then true else if n >= 3 then false else st.loggedIn)
  }

  /** The session after the Puppeteer recovery block: the context is never
      touched, and the new page keeps the library's default timeouts. */
  function AfterReplacePage(st: State, outs: seq<Outcome>): (r: State)
    ensures r.context == st.context && r.contextOpen == st.contextOpen
    ensures ReplacePageCompletes(outs) ==>
      r.pageOpen && r.pageContext == r.context && r.loggedIn && r.page == st.page + 1
      && r.defaultTimeout == None && r.navigationTimeout == None
    ensures !ReplacePageCompletes(outs) && Passed(ReplacePageSteps, outs) == 1 ==> !r.pageOpen
    ensures Passed(ReplacePageSteps, outs) == 0 ==> r == st
  {
    var n := Passed(ReplacePageSteps, outs);
    st.(
      page := if n >= 2 then st.page + 1 else st.page,
      pageContext := if n >= 2 then st.context else st.pageContext,
      pageOpen := if n >= 2 then true else if n >= 1 then false else st.pageOpen,
      defaultTimeout := if n >= 2 then None else st.defaultTimeout,
      navigationTimeout := if n >= 2 then None else st.navigationTimeout,
      loggedIn := if ReplacePageCompletes(outs) then true else if n >= 2 then false else st.loggedIn)
  }

  /** The session after the first `n` Playwright recoveries of a run. */
  function SessionAfter(st: State, recovery: seq<seq<Outcome>>, n: nat): State
    decreases n
  {
    if n == 0 then st else AfterRecreate(SessionAfter(st, recovery, n - 1), RecoveryAt(recovery, n - 1))
  }

  /** The session after the first `n` Puppeteer recoveries of a run. */
  function PagesAfter(st: State, recovery: seq<seq<Outcome>>, n: nat): State
    decreases n
  {
    if n == 0 then st else AfterReplacePage(PagesAfter(st, recovery, n - 1), RecoveryAt(recovery, n - 1))
  }

  /** Recoveries that all completed have each made one new context and one
      new page, and after the last the session is ready again. */
  lemma {:induction false} CompletedRecreations(st: State, recovery: seq<seq<Outcome>>, n: nat)
    requires forall k :: 0 <= k < n ==> RecreateCompletes(RecoveryAt(recovery, k))
    ensures var r := SessionAfter(st, recovery, n);
      && r.context == st.context + n && r.page == st.page + n
      && (n > 0 ==> PlaywrightReady(r))
      && (n == 0 ==> r == st)
  {
    if n > 0 {
      CompletedRecreations(st, recovery, n - 1);
      assert RecreateCompletes(RecoveryAt(recovery, n - 1));
    }
  }

  /** Puppeteer recoveries that all completed have each made one new page in
      the same context, and after the last the page has no timeout set. */
  lemma {:induction false} CompletedReplacements(st: State, recovery: seq<seq<Outcome>>, n: nat)
    requires forall k :: 0 <= k < n ==> ReplacePageCompletes(RecoveryAt(recovery, k))
    ensures var r := PagesAfter(st, recovery, n);
      && r.context == st.context && r.contextOpen == st.contextOpen && r.page == st.page + n
      && (n > 0 ==> r.pageOpen && r.pageContext == r.context && r.loggedIn
                    && r.defaultTimeout == None && r.navigationTimeout == None)
      && (n == 0 ==> r == st)
  {
    if n > 0 {
      CompletedReplacements(st, recovery, n - 1);
      assert ReplacePageCompletes(RecoveryAt(recovery, n - 1));
    }
  }

  class Session {
    var context: nat
    var contextOpen: bool
    var page: nat
    var pageContext: nat
    var pageOpen: bool
    var defaultTimeout: Option<nat>
    var navigationTimeout: Option<nat>
    var loggedIn: bool

    /** The fields as a value. */
    function Snapshot(): State
      reads this
    {
      State(context, contextOpen, page, pageContext, pageOpen, defaultTimeout, navigationTimeout, loggedIn)
    }

    predicate Usable()
      reads this
    {
      Drivable(Snapshot())
    }

    /** The session after a Playwright start-up that completed. */
    constructor Playwright()
      ensures Snapshot() == PlaywrightStart && PlaywrightReady(Snapshot())
    {
      context, contextOpen := 1, true;
      page, pageContext, pageOpen := 1, 1, true;
      defaultTimeout, navigationTimeout := Some(60000), Some(60000);
      loggedIn := true;
    }

    /** The session after a Puppeteer start-up that completed. */
    constructor Puppeteer()
      ensures Snapshot() == PuppeteerStart && Usable() && loggedIn
    {
      context, contextOpen := 0, true;
      page, pageContext, pageOpen := 1, 0, true;
      defaultTimeout, navigationTimeout := Some(60000), None;
      loggedIn := true;
    }

    /** The Playwright recovery block. Once the old context is closed, a
        failure before the new page exists leaves the script holding a page
        it cannot use. */
    method Recreate(outs: seq<Outcome>) returns (error: Option<string>, trace: seq<Action>)
      modifies this
      ensures error == RunBlock(RecreateSteps, outs).error
      ensures trace == Made(RecreateSteps, outs)
      ensures Snapshot() == AfterRecreate(old(Snapshot()), outs)
      ensures error.None? ==> Usable() && loggedIn
      ensures error.Some? && 1 <= Passed(RecreateSteps, outs) < 3 && old(pageContext) == old(context)
        ==> !Usable()
    {
      var run := RunBlock(RecreateSteps, outs);
      var n := Passed(RecreateSteps, outs);
      if n >= 1 {
        if pageContext == context {
          pageOpen := false;
        }
        contextOpen := false;
      }
      if n >= 2 {
        context := context + 1;
        contextOpen := true;
      }
      if n >= 3 {
        page := page + 1;
        pageContext := context;
        pageOpen := true;
        loggedIn := false;
        defaultTimeout := Some(60000);
        navigationTimeout := Some(60000);
      }
      if run.error.None? {
        loggedIn := true;
      }
      error := run.error;
      trace := Made(RecreateSteps, outs);
    }

    /** The Puppeteer recovery block. */
    method ReplacePage(outs: seq<Outcome>) returns (error: Option<string>, trace: seq<Action>)
      modifies this
      ensures error == RunBlock(ReplacePageSteps, outs).error
      ensures trace == Made(ReplacePageSteps, outs)
      ensures Snapshot() == AfterReplacePage(old(Snapshot()), outs)
      ensures error.None? ==> pageOpen && pageContext == context && loggedIn
      ensures error.None? ==> defaultTimeout == None
    {
      var run := RunBlock(ReplacePageSteps, outs);
      var n := Passed(ReplacePageSteps, outs);
      if n >= 1 {
        pageOpen := false;
      }
      if n >= 2 {
        page := page + 1;
        pageContext := context;
        pageOpen := true;
        loggedIn := false;
        defaultTimeout := None;
        navigationTimeout := None;
      }
      if run.error.None? {
        loggedIn := true;
      }
      error := run.error;
      trace := Made(ReplacePageSteps, outs);
    }
  }
}
