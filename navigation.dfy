/** `navigateToDocumentManager`, in its two forms: the Playwright one of
    auto.js and auto.ts (three attempts, then a reload fallback) and the
    Puppeteer one (three attempts, a screenshot after each failure, no
    fallback). */
module Navigation {
  import opened Js
  import opened Browser

  const FailedToNavigate := "Failed to navigate to Document Manager"

  /** How navigation ended: on the page after some attempt (1, 2 or 3), with
      `reloaded` when it took the reload fallback, or with the error thrown. */
  datatype NavResult = Navigated(attempts: nat, reloaded: bool) | NavFailed(message: string)

  /** A navigation's result with the calls it made. */
  datatype NavRun = NavRun(result: NavResult, trace: seq<Action>)

  /** The oracle slot of attempt `k`. */
  function AttemptOutcomes(attempts: seq<seq<Outcome>>, k: nat): seq<Outcome> {
    if k < |attempts| then attempts[k] else []
  }

  // ---------------------------------------------------------------------
  // Playwright (auto.js, auto.ts)

  /** What the page does during each primary attempt and during the fallback. */
  datatype NavOracle = NavOracle(attempts: seq<seq<Outcome>>, fallback: seq<Outcome>)

  /** One primary attempt: the URL, the main iframe, the visible Filter
      button and Search textbox, then a one-second wait. */
  const AttemptSteps: seq<Action> :=
    [Goto(DocumentManager), WaitForSelector(MainIframe), WaitVisible(FilterButton),
     WaitVisible(SearchBox), Pause(1000)]

  /** The fallback after the third failure: reload, wait, the URL again and
      the main iframe only. */
  const FallbackSteps: seq<Action> :=
    [Reload, Pause(2000), Goto(DocumentManager), WaitForSelector(MainIframe)]

  /** The loop from attempt index `k` (0, 1 or 2) on, after the calls `done`. */
  function PlaywrightNavFrom(o: NavOracle, k: nat, done: seq<Action>): NavRun
    requires k < 3
    decreases 3 - k
  {
    var outs := AttemptOutcomes(o.attempts, k);
    var t := done + Made(AttemptSteps, outs);
    if RunBlock(AttemptSteps, outs).error.None? then NavRun(Navigated(k + 1, false), t)
    else if k == 2 then
      var fb := RunBlock(FallbackSteps, o.fallback);
      var t2 := t + Made(FallbackSteps, o.fallback);
      if fb.error.None? then NavRun(Navigated(3, true), t2)
      else NavRun(NavFailed(FailedToNavigate + ": " + fb.error.value), t2)
    else PlaywrightNavFrom(o, k + 1, t + [Pause(2000)])
  }

  function PlaywrightNav(o: NavOracle): NavRun {
    PlaywrightNavFrom(o, 0, [])
  }

  /** The loop of the source, over `retries` and `navigationSuccess`. */
  method NavigatePlaywright(o: NavOracle) returns (r: NavResult, trace: seq<Action>)
    ensures NavRun(r, trace) == PlaywrightNav(o)
  {
    var navigationSuccess := false;
    var retries := 3;
    trace := [];
    r := NavFailed("");
    while retries > 0 && !navigationSuccess
      invariant 0 <= retries <= 3
      invariant navigationSuccess ==> NavRun(r, trace) == PlaywrightNav(o)
      invariant !navigationSuccess ==> retries > 0 && PlaywrightNav(o) == PlaywrightNavFrom(o, 3 - retries, trace)
      decreases retries + (if navigationSuccess then 0 else 1)
    {
      var outs := AttemptOutcomes(o.attempts, 3 - retries);
      var run := RunBlock(AttemptSteps, outs);
      trace := trace + Made(AttemptSteps, outs);
      if run.error.None? {
        navigationSuccess := true;
        r := Navigated(4 - retries, false);
      } else {
        retries := retries - 1;
        if retries == 0 {
          var fb := RunBlock(FallbackSteps, o.fallback);
          trace := trace + Made(FallbackSteps, o.fallback);
          if fb.error.Some? {
            r := NavFailed(FailedToNavigate + ": " + fb.error.value);
            return;
          }
          navigationSuccess := true;
          r := Navigated(3, true);
        } else {
          trace := trace + [Pause(2000)];
        }
      }
    }
  }

  /** The calls navigation makes. */
  predicate NavAction(a: Action) {
    a.Goto? || a.Reload? || a.WaitForSelector? || a.WaitVisible? || a.Pause? || a.LogDom?
    || a.Verify? || a.Query? || a.ContentFrame? || a.Screenshot?
  }

  predicate AllNav(t: seq<Action>) {
    forall i :: 0 <= i < |t| ==> NavAction(t[i])
  }

  /** Navigation adds only navigation calls to the calls made before it. */
  lemma {:induction false} PlaywrightNavActions(o: NavOracle, k: nat, done: seq<Action>)
    requires k < 3 && AllNav(done)
    decreases 3 - k
    ensures AllNav(PlaywrightNavFrom(o, k, done).trace)
  {
    var outs := AttemptOutcomes(o.attempts, k);
    assert AllNav(AttemptSteps) && AllNav(FallbackSteps);
    var t := done + Made(AttemptSteps, outs);
    assert AllNav(t);
    if RunBlock(AttemptSteps, outs).error.Some? {
      if k == 2 {
        assert AllNav(t + Made(FallbackSteps, o.fallback));
      } else {
        PlaywrightNavActions(o, k + 1, t + [Pause(2000)]);
      }
    }
  }

  /** An attempt passes exactly when the goto, the iframe wait and both
      visibility waits complete; the trailing pause cannot fail it. */
  predicate AttemptPasses(outs: seq<Outcome>) {
    OutcomeAt(outs, 0).Done? && OutcomeAt(outs, 1).Done?
    && OutcomeAt(outs, 2).Done? && OutcomeAt(outs, 3).Done?
  }

  /** The fallback passes when the reload, the goto and the iframe wait complete. */
  predicate FallbackPasses(outs: seq<Outcome>) {
    OutcomeAt(outs, 0).Done? && OutcomeAt(outs, 2).Done? && OutcomeAt(outs, 3).Done?
  }

  /** The error of the fallback's first failing call. */
  function FallbackError(outs: seq<Outcome>): string
    requires !FallbackPasses(outs)
  {
    if OutcomeAt(outs, 0).Raised? then OutcomeAt(outs, 0).message
    else if OutcomeAt(outs, 2).Raised? then OutcomeAt(outs, 2).message
    else OutcomeAt(outs, 3).message
  }

  lemma AttemptPassesIff(outs: seq<Outcome>)
    ensures RunBlock(AttemptSteps, outs).error.None? <==> AttemptPasses(outs)
  {
    var r := RunBlock(AttemptSteps, outs);
    RunFromMeaning(AttemptSteps, outs, 0);
    if AttemptPasses(outs) {
      assert forall k :: 0 <= k < |AttemptSteps| ==> !RaisesAt(AttemptSteps, outs, k);
    }
    if r.error.None? {
      assert !RaisesAt(AttemptSteps, outs, 0) && !RaisesAt(AttemptSteps, outs, 1);
      assert !RaisesAt(AttemptSteps, outs, 2) && !RaisesAt(AttemptSteps, outs, 3);
    }
  }

  lemma FallbackPassesIff(outs: seq<Outcome>)
    ensures RunBlock(FallbackSteps, outs).error.None? <==> FallbackPasses(outs)
    ensures !FallbackPasses(outs) ==> RunBlock(FallbackSteps, outs).error == Some(FallbackError(outs))
  {
    var r := RunBlock(FallbackSteps, outs);
    RunFromMeaning(FallbackSteps, outs, 0);
    if FallbackPasses(outs) {
      assert forall k :: 0 <= k < |FallbackSteps| ==> !RaisesAt(FallbackSteps, outs, k);
    }
    if r.error.None? {
      assert !RaisesAt(FallbackSteps, outs, 0) && !RaisesAt(FallbackSteps, outs, 2);
      assert !RaisesAt(FallbackSteps, outs, 3);
    }
    if r.error.Some? {
      assert r.made - 1 != 1;
    }
  }

  /** A navigation from attempt `k` that ends without the reload ended at
      an attempt that passed, with every attempt before it failed. */
  lemma {:induction false} PlaywrightNavigatedAt(o: NavOracle, k: nat, done: seq<Action>)
    requires k < 3
    decreases 3 - k
    ensures var n := PlaywrightNavFrom(o, k, done);
      n.result.Navigated? && !n.result.reloaded ==>
        k + 1 <= n.result.attempts <= 3
        && AttemptPasses(AttemptOutcomes(o.attempts, n.result.attempts - 1))
        && forall j :: k <= j < n.result.attempts - 1 ==> !AttemptPasses(AttemptOutcomes(o.attempts, j))
  {
    var outs := AttemptOutcomes(o.attempts, k);
    AttemptPassesIff(outs);
    var next := done + Made(AttemptSteps, outs) + [Pause(2000)];
    if AttemptPasses(outs) {
      assert PlaywrightNavFrom(o, k, done).result == Navigated(k + 1, false);
    } else if k < 2 {
      var rest := PlaywrightNavFrom(o, k + 1, next);
      assert PlaywrightNavFrom(o, k, done) == rest;
      PlaywrightNavigatedAt(o, k + 1, next);
      if rest.result.Navigated? && !rest.result.reloaded {
        assert forall j :: k + 1 <= j < rest.result.attempts - 1 ==>
          !AttemptPasses(AttemptOutcomes(o.attempts, j));
        assert forall j :: k <= j < rest.result.attempts - 1 ==>
          !AttemptPasses(AttemptOutcomes(o.attempts, j));
      }
    }
  }

  /** An attempt `j` from `k` on that passes means navigation ends without the reload. */
  lemma {:induction false} PlaywrightPassingAttemptNavigates(o: NavOracle, k: nat, done: seq<Action>, j: nat)
    requires k <= j < 3 && AttemptPasses(AttemptOutcomes(o.attempts, j))
    decreases 3 - k
    ensures PlaywrightNavFrom(o, k, done).result.Navigated?
    ensures !PlaywrightNavFrom(o, k, done).result.reloaded
  {
    var outs := AttemptOutcomes(o.attempts, k);
    AttemptPassesIff(outs);
    var next := done + Made(AttemptSteps, outs) + [Pause(2000)];
    if !AttemptPasses(outs) {
      assert PlaywrightNavFrom(o, k, done) == PlaywrightNavFrom(o, k + 1, next);
      PlaywrightPassingAttemptNavigates(o, k + 1, next, j);
    }
  }

  /** When every attempt from `k` on fails, the reload fallback decides:
      its success is a navigation after three attempts, its failure the
      fixed message with the fallback's error appended. */
  lemma {:induction false} PlaywrightFallbackDecides(o: NavOracle, k: nat, done: seq<Action>)
    requires k < 3
    requires forall j :: k <= j < 3 ==> !AttemptPasses(AttemptOutcomes(o.attempts, j))
    decreases 3 - k
    ensures PlaywrightNavFrom(o, k, done).result ==
      if FallbackPasses(o.fallback) then Navigated(3, true)
      else NavFailed(FailedToNavigate + ": " + FallbackError(o.fallback))
  {
    var outs := AttemptOutcomes(o.attempts, k);
    AttemptPassesIff(outs);
    if k < 2 {
      var next := done + Made(AttemptSteps, outs) + [Pause(2000)];
      assert PlaywrightNavFrom(o, k, done) == PlaywrightNavFrom(o, k + 1, next);
      PlaywrightFallbackDecides(o, k + 1, next);
    } else {
      FallbackPassesIff(o.fallback);
    }
  }

  predicate NoReload(t: seq<Action>) {
    forall i :: 0 <= i < |t| ==> !t[i].Reload?
  }

  /** The page is reloaded exactly when every attempt from `k` on fails. */
  lemma {:induction false} PlaywrightReloadIff(o: NavOracle, k: nat, done: seq<Action>)
    requires k < 3 && NoReload(done)
    decreases 3 - k
    ensures NoReload(PlaywrightNavFrom(o, k, done).trace) <==>
      exists j :: k <= j < 3 && AttemptPasses(AttemptOutcomes(o.attempts, j))
  {
    var outs := AttemptOutcomes(o.attempts, k);
    AttemptPassesIff(outs);
    var t := done + Made(AttemptSteps, outs);
    assert NoReload(AttemptSteps);
    assert NoReload(t);
    if !AttemptPasses(outs) {
      if k < 2 {
        assert PlaywrightNavFrom(o, k, done) == PlaywrightNavFrom(o, k + 1, t + [Pause(2000)]);
        PlaywrightReloadIff(o, k + 1, t + [Pause(2000)]);
      } else {
        assert (t + Made(FallbackSteps, o.fallback))[|t|] == Reload;
      }
    }
  }

  /** The primary attempts decide unless all three fail: navigation ends
      after the first attempt that passes, the reload fallback runs only
      after three failures and checks only the iframe, and its failure is
      reported with the fallback error appended to the fixed message. The
      reload occurs in the trace exactly when the fallback ran. */
  lemma PlaywrightNavOutcome(o: NavOracle)
    ensures var n := PlaywrightNav(o);
      && (n.result.Navigated? && !n.result.reloaded <==>
            exists j :: 0 <= j < 3 && AttemptPasses(AttemptOutcomes(o.attempts, j)))
      && (n.result.Navigated? && !n.result.reloaded ==>
            1 <= n.result.attempts <= 3
            && AttemptPasses(AttemptOutcomes(o.attempts, n.result.attempts - 1))
            && forall j :: 0 <= j < n.result.attempts - 1 ==> !AttemptPasses(AttemptOutcomes(o.attempts, j)))
      && (n.result.Navigated? && n.result.reloaded <==>
            (forall j :: 0 <= j < 3 ==> !AttemptPasses(AttemptOutcomes(o.attempts, j)))
            && FallbackPasses(o.fallback))
      && (n.result.Navigated? && n.result.reloaded ==> n.result.attempts == 3)
      && (n.result.NavFailed? <==>
            (forall j :: 0 <= j < 3 ==> !AttemptPasses(AttemptOutcomes(o.attempts, j)))
            && !FallbackPasses(o.fallback))
      && (n.result.NavFailed? ==>
            n.result.message == FailedToNavigate + ": " + FallbackError(o.fallback))
      && (Reload in n.trace <==>
            forall j :: 0 <= j < 3 ==> !AttemptPasses(AttemptOutcomes(o.attempts, j)))
  {
    PlaywrightNavigatedAt(o, 0, []);
    PlaywrightReloadIff(o, 0, []);
    if j :| 0 <= j < 3 && AttemptPasses(AttemptOutcomes(o.attempts, j)) {
      PlaywrightPassingAttemptNavigates(o, 0, [], j);
    }
    var t := PlaywrightNav(o).trace;
    assert Reload in t <==> !NoReload(t) by {
      if !NoReload(t) {
        var i :| 0 <= i < |t| && t[i].Reload?;
        assert t[i] == Reload;
      }
    }
    if forall j :: 0 <= j < 3 ==> !AttemptPasses(AttemptOutcomes(o.attempts, j)) {
      PlaywrightFallbackDecides(o, 0, []);
    }
  }

  /** When every attempt fails, the trace is the three attempts with a
      two-second wait between them, then the fallback with no wait before it. */
  lemma PlaywrightNavTraceAllFail(o: NavOracle)
    requires forall j :: 0 <= j < 3 ==> !AttemptPasses(AttemptOutcomes(o.attempts, j))
    ensures PlaywrightNav(o).trace ==
      Made(AttemptSteps, AttemptOutcomes(o.attempts, 0)) + [Pause(2000)]
      + Made(AttemptSteps, AttemptOutcomes(o.attempts, 1)) + [Pause(2000)]
      + Made(AttemptSteps, AttemptOutcomes(o.attempts, 2))
      + Made(FallbackSteps, o.fallback)
  {
    var a0, a1, a2 := AttemptOutcomes(o.attempts, 0), AttemptOutcomes(o.attempts, 1),
      AttemptOutcomes(o.attempts, 2);
    AttemptPassesIff(a0);
    AttemptPassesIff(a1);
    AttemptPassesIff(a2);
    var m0, m1, m2 := Made(AttemptSteps, a0), Made(AttemptSteps, a1), Made(AttemptSteps, a2);
    assert [] + m0 == m0;
    assert PlaywrightNav(o) == PlaywrightNavFrom(o, 1, m0 + [Pause(2000)]);
    assert PlaywrightNav(o) == PlaywrightNavFrom(o, 2, m0 + [Pause(2000)] + m1 + [Pause(2000)]);
  }

  // ---------------------------------------------------------------------
  // Puppeteer (puppetter.js)

  /** What the page does during each attempt, and what each attempt's
      error screenshot does. */
  datatype PuppeteerNavOracle = PuppeteerNavOracle(attempts: seq<seq<Outcome>>, screenshots: seq<Outcome>)

  /** One attempt: the URL, the iframe handle and its content frame, with
      `verifyElement` and `logDOM` calls whose results are not looked at. */
  const PuppeteerAttemptSteps: seq<Action> :=
    [Goto(DocumentManager), LogDom, Verify(MainIframe), Query(MainIframe),
     ContentFrame(MainIframe), LogDom, Verify(FilterButton), Verify(SearchBox)]

  /** The loop from attempt index `k` on, after the calls `done`. */
  function PuppeteerNavFrom(o: PuppeteerNavOracle, k: nat, done: seq<Action>): NavRun
    requires k < 3
    decreases 3 - k
  {
    var outs := AttemptOutcomes(o.attempts, k);
    var t := done + Made(PuppeteerAttemptSteps, outs);
    if RunBlock(PuppeteerAttemptSteps, outs).error.None? then NavRun(Navigated(k + 1, false), t)
    else
      var shot := OutcomeAt(o.screenshots, k);
      var t2 := t + [Screenshot];
      if shot.Raised? then NavRun(NavFailed(shot.message), t2)
      else if k == 2 then NavRun(NavFailed(FailedToNavigate), t2)
      else PuppeteerNavFrom(o, k + 1, t2 + [Pause(2000)])
  }

  function PuppeteerNav(o: PuppeteerNavOracle): NavRun {
    PuppeteerNavFrom(o, 0, [])
  }

  /** The loop of the source: every exit is a `return` or a `throw`. */
  method NavigatePuppeteer(o: PuppeteerNavOracle) returns (r: NavResult, trace: seq<Action>)
    ensures NavRun(r, trace) == PuppeteerNav(o)
  {
    var retries := 3;
    trace := [];
    while retries > 0
      invariant 0 < retries <= 3
      invariant PuppeteerNav(o) == PuppeteerNavFrom(o, 3 - retries, trace)
      decreases retries
    {
      var outs := AttemptOutcomes(o.attempts, 3 - retries);
      var run := RunBlock(PuppeteerAttemptSteps, outs);
      trace := trace + Made(PuppeteerAttemptSteps, outs);
      if run.error.None? {
        return Navigated(4 - retries, false), trace;
      }
      var shot := OutcomeAt(o.screenshots, 3 - retries);
      trace := trace + [Screenshot];
      if shot.Raised? {
        return NavFailed(shot.message), trace;
      }
      retries := retries - 1;
      if retries == 0 {
        return NavFailed(FailedToNavigate), trace;
      }
      trace := trace + [Pause(2000)];
    }
    assert false;
  }

  /** Navigation adds only navigation calls to the calls made before it. */
  lemma {:induction false} PuppeteerNavActions(o: PuppeteerNavOracle, k: nat, done: seq<Action>)
    requires k < 3 && AllNav(done)
    decreases 3 - k
    ensures AllNav(PuppeteerNavFrom(o, k, done).trace)
  {
    var outs := AttemptOutcomes(o.attempts, k);
    assert AllNav(PuppeteerAttemptSteps);
    var t := done + Made(PuppeteerAttemptSteps, outs);
    assert AllNav(t);
    assert AllNav(t + [Screenshot]);
    if RunBlock(PuppeteerAttemptSteps, outs).error.Some? && OutcomeAt(o.screenshots, k).Done? && k < 2 {
      PuppeteerNavActions(o, k + 1, t + [Screenshot] + [Pause(2000)]);
    }
  }

  /** A Puppeteer attempt passes when the goto, the handle query and the
      content frame complete: the verifyElement results do not matter. */
  predicate PuppeteerAttemptPasses(outs: seq<Outcome>) {
    OutcomeAt(outs, 0).Done? && OutcomeAt(outs, 3).Done? && OutcomeAt(outs, 4).Done?
  }

  lemma PuppeteerAttemptPassesIff(outs: seq<Outcome>)
    ensures RunBlock(PuppeteerAttemptSteps, outs).error.None? <==> PuppeteerAttemptPasses(outs)
  {
    var r := RunBlock(PuppeteerAttemptSteps, outs);
    RunFromMeaning(PuppeteerAttemptSteps, outs, 0);
    if PuppeteerAttemptPasses(outs) {
      assert forall k :: 0 <= k < |PuppeteerAttemptSteps| ==> !RaisesAt(PuppeteerAttemptSteps, outs, k);
    }
    if r.error.None? {
      assert !RaisesAt(PuppeteerAttemptSteps, outs, 0);
      assert !RaisesAt(PuppeteerAttemptSteps, outs, 3) && !RaisesAt(PuppeteerAttemptSteps, outs, 4);
    }
  }

  /** Navigation from attempt `k` that succeeds did so at an attempt that
      passed, every attempt before it having failed with its screenshot taken. */
  lemma {:induction false} PuppeteerNavigatedAt(o: PuppeteerNavOracle, k: nat, done: seq<Action>)
    requires k < 3
    decreases 3 - k
    ensures var n := PuppeteerNavFrom(o, k, done);
      n.result.Navigated? ==>
        !n.result.reloaded && k + 1 <= n.result.attempts <= 3
        && PuppeteerAttemptPasses(AttemptOutcomes(o.attempts, n.result.attempts - 1))
        && forall j :: k <= j < n.result.attempts - 1 ==>
             !PuppeteerAttemptPasses(AttemptOutcomes(o.attempts, j))
  {
    var outs := AttemptOutcomes(o.attempts, k);
    PuppeteerAttemptPassesIff(outs);
    var next := done + Made(PuppeteerAttemptSteps, outs) + [Screenshot] + [Pause(2000)];
    if PuppeteerAttemptPasses(outs) {
      assert PuppeteerNavFrom(o, k, done).result == Navigated(k + 1, false);
    } else if OutcomeAt(o.screenshots, k).Done? && k < 2 {
      var rest := PuppeteerNavFrom(o, k + 1, next);
      assert PuppeteerNavFrom(o, k, done) == rest;
      PuppeteerNavigatedAt(o, k + 1, next);
      if rest.result.Navigated? {
        assert forall j :: k + 1 <= j < rest.result.attempts - 1 ==>
          !PuppeteerAttemptPasses(AttemptOutcomes(o.attempts, j));
        assert forall j :: k <= j < rest.result.attempts - 1 ==>
          !PuppeteerAttemptPasses(AttemptOutcomes(o.attempts, j));
      }
    } else {
      assert PuppeteerNavFrom(o, k, done).result.NavFailed?;
    }
  }

  /** Navigation from attempt `k` that succeeds took the screenshot of
      every failed attempt before the one that passed. */
  lemma {:induction false} PuppeteerScreenshotsBeforeSuccess(o: PuppeteerNavOracle, k: nat, done: seq<Action>)
    requires k < 3
    decreases 3 - k
    ensures var n := PuppeteerNavFrom(o, k, done);
      n.result.Navigated? ==>
        k + 1 <= n.result.attempts
        && forall j :: k <= j < n.result.attempts - 1 ==> OutcomeAt(o.screenshots, j).Done?
  {
    var outs := AttemptOutcomes(o.attempts, k);
    var next := done + Made(PuppeteerAttemptSteps, outs) + [Screenshot] + [Pause(2000)];
    if RunBlock(PuppeteerAttemptSteps, outs).error.None? {
      assert PuppeteerNavFrom(o, k, done).result == Navigated(k + 1, false);
    } else if OutcomeAt(o.screenshots, k).Done? && k < 2 {
      var rest := PuppeteerNavFrom(o, k + 1, next);
      assert PuppeteerNavFrom(o, k, done) == rest;
      PuppeteerScreenshotsBeforeSuccess(o, k + 1, next);
      if rest.result.Navigated? {
        assert forall j :: k + 1 <= j < rest.result.attempts - 1 ==> OutcomeAt(o.screenshots, j).Done?;
        assert forall j :: k <= j < rest.result.attempts - 1 ==> OutcomeAt(o.screenshots, j).Done?;
      }
    } else {
      assert PuppeteerNavFrom(o, k, done).result.NavFailed?;
    }
  }

  /** A failed navigation always ends with the screenshot: nothing, and in
      particular no wait, follows the last failure. */
  lemma {:induction false} PuppeteerFailureEndsWithScreenshot(o: PuppeteerNavOracle, k: nat, done: seq<Action>)
    requires k < 3
    decreases 3 - k
    ensures var n := PuppeteerNavFrom(o, k, done);
      n.result.NavFailed? ==> n.trace != [] && n.trace[|n.trace| - 1] == Screenshot
  {
    var outs := AttemptOutcomes(o.attempts, k);
    var next := done + Made(PuppeteerAttemptSteps, outs) + [Screenshot] + [Pause(2000)];
    if RunBlock(PuppeteerAttemptSteps, outs).error.Some? && OutcomeAt(o.screenshots, k).Done? && k < 2 {
      assert PuppeteerNavFrom(o, k, done) == PuppeteerNavFrom(o, k + 1, next);
      PuppeteerFailureEndsWithScreenshot(o, k + 1, next);
    }
  }

  /** With working screenshots, three failures end in the fixed message. */
  lemma {:induction false} PuppeteerNavFailedWithScreenshots(o: PuppeteerNavOracle, k: nat, done: seq<Action>)
    requires k < 3
    requires forall j :: k <= j < 3 ==> OutcomeAt(o.screenshots, j).Done?
    decreases 3 - k
    ensures var n := PuppeteerNavFrom(o, k, done);
      n.result.NavFailed? ==>
        n.result.message == FailedToNavigate
        && forall j :: k <= j < 3 ==> !PuppeteerAttemptPasses(AttemptOutcomes(o.attempts, j))
  {
    var outs := AttemptOutcomes(o.attempts, k);
    PuppeteerAttemptPassesIff(outs);
    var next := done + Made(PuppeteerAttemptSteps, outs) + [Screenshot] + [Pause(2000)];
    if !PuppeteerAttemptPasses(outs) && k < 2 {
      assert PuppeteerNavFrom(o, k, done) == PuppeteerNavFrom(o, k + 1, next);
      PuppeteerNavFailedWithScreenshots(o, k + 1, next);
    }
  }

  /** With working screenshots, an attempt `j` that passes means navigation succeeds. */
  lemma {:induction false} PuppeteerPassingAttemptNavigates(o: PuppeteerNavOracle, k: nat, done: seq<Action>, j: nat)
    requires k <= j < 3 && PuppeteerAttemptPasses(AttemptOutcomes(o.attempts, j))
    requires forall i :: k <= i < j ==> OutcomeAt(o.screenshots, i).Done?
    decreases 3 - k
    ensures PuppeteerNavFrom(o, k, done).result.Navigated?
  {
    var outs := AttemptOutcomes(o.attempts, k);
    PuppeteerAttemptPassesIff(outs);
    var next := done + Made(PuppeteerAttemptSteps, outs) + [Screenshot] + [Pause(2000)];
    if !PuppeteerAttemptPasses(outs) {
      assert PuppeteerNavFrom(o, k, done) == PuppeteerNavFrom(o, k + 1, next);
      PuppeteerPassingAttemptNavigates(o, k + 1, next, j);
    }
  }

  /** A screenshot that raises ends navigation with its own error. */
  lemma {:induction false} PuppeteerScreenshotErrorEscapes(o: PuppeteerNavOracle, k: nat, done: seq<Action>)
    requires k < 3
    decreases 3 - k
    ensures var n := PuppeteerNavFrom(o, k, done);
      n.result.NavFailed? && n.result.message != FailedToNavigate ==>
        exists j :: k <= j < 3 && !PuppeteerAttemptPasses(AttemptOutcomes(o.attempts, j))
          && OutcomeAt(o.screenshots, j).Raised?
          && n.result.message == OutcomeAt(o.screenshots, j).message
  {
    var outs := AttemptOutcomes(o.attempts, k);
    PuppeteerAttemptPassesIff(outs);
    var next := done + Made(PuppeteerAttemptSteps, outs) + [Screenshot] + [Pause(2000)];
    if !PuppeteerAttemptPasses(outs) && OutcomeAt(o.screenshots, k).Done? && k < 2 {
      assert PuppeteerNavFrom(o, k, done) == PuppeteerNavFrom(o, k + 1, next);
      PuppeteerScreenshotErrorEscapes(o, k + 1, next);
    }
  }
}
