# Tradeshift invoice automation, modelled in Dafny

The repository holds a handful of Node.js scripts that drive the Tradeshift
web application through a browser (Playwright in auto.js, auto.ts,
script.js and automate_script.js, Puppeteer in puppetter.js). Each script
reads order rows from a CSV file or a Google Sheet, logs in, opens the
Document Manager, filters and searches for each order, and for an order
whose status cell reads RECEIVED creates an invoice and fills and saves its
form. Beneath the browser calls sits a small layer of decisions and
bookkeeping, and this project models that layer:

- the Document Manager navigation retry loops, in their Playwright form
  (three attempts, then a reload fallback) and their Puppeteer form (three
  attempts with screenshots, no fallback);
- each script's per-order decision path: a missing order link, the
  trimmed-status gate, the amount guard, the order of the form fills, and
  what happens when a call raises;
- the error recovery of the session (a new context or a new page, then
  login again);
- the batch-and-retry bookkeeping of auto.ts `processOrdersRecursively`;
- the pure transforms: `convertToObjects`, the issue-date rewrite
  `replace(/-/g, '/')`, `parseInt` on a decimal prefix with its NaN case,
  the `document-uuid-` extraction of script.js, and `trim() === 'RECEIVED'`.

Every browser call becomes an `Action` in a trace. A block of awaited calls
inside one `try` is given a sequence of `Outcome`s, one per call, each
`Done` or `Raised(message)`. The block stops at its first raising call, and
that call's error reaches the `catch`. Reads from the page (`count()`,
`innerText()`, `inputValue()`, `getAttribute()`) are given as `Reading`s:
a value, or an error. With the browser replaced this way, each script's
behaviour is a function of its input rows and these oracles. The
properties below are proved for every such input.

Modules, one concept each:

- `Js`: the JavaScript semantics the scripts depend on, namely `trim`,
  `parseInt`, `<` with NaN, the dash rewrite, and a `for...in` key compared
  loosely with 0.
- `Browser`: actions, outcomes and the run of a block.
- `Records`: `convertToObjects` and `getSheetData`.
- `Navigation`: both `navigateToDocumentManager` loops.
- `Sessions`: the session class, with its start-up and recovery, and the
  session as a value, with functions for its state after each kind of
  recovery.
- `PlaywrightOrder`: the per-order path auto.js and auto.ts share word for
  word.
- `AutoJs`, `AutoTs`, `Puppeteer`, `Script`, `AutomateScript` and
  `Automate`: one module per script.

Where the code and its surrounding description disagree, the model follows
the code:

- auto.js reads `data.csv` through `getCSVData` (auto.js:202) and loops over
  those records directly (auto.js:237). Its `getSheetData` and
  `convertToObjects` are defined but not called; they are modelled on
  their own in `Records`.
- automate_script.js declares `invoiceNo` only inside the RECEIVED branch.
  So its not-found branch raises a ReferenceError instead of skipping the
  order (automate_script.js:155-157, 181).
- automate_script.js declares `docIds` but never pushes into it. script.js
  pushes the uuid even when it is `null`, and then opens a view for `null`.
- script.js reads the class attribute and matches it before it counts the
  links, so the "not present" branch is never reached: a missing link makes
  `getAttribute` wait for it and raise its timeout, and a link without a
  class makes `match` raise on the null (script.js:100-107).

## Model

| member | source | states |
|---|---|---|
| Js.LeadingSpaces | auto.js:391 | the count of white-space characters at the start: all of them are space, the next one is not |
| Js.TrailingSpaces | auto.js:391 | the count of white-space characters at the end: all of them are space, the one before is not |
| Js.Trim | auto.js:391 | `trim()` gives the slice between the leading and the trailing white space, with only white space outside it and no white space at either end of the result |
| Js.TrimOfPadded | auto.js:391 | trimming any white-space padding off a text with non-space ends gives back exactly that text |
| Js.ReceivedAtLeadingSpaces | auto.js:391 | a cell that passes the status gate holds RECEIVED right after its leading white space |
| Js.ReceivedAtTrims | auto.js:391 | a cell holding RECEIVED with only white space around it passes the status gate |
| Js.IsReceivedIff | auto.js:391 | `tdText.trim() === 'RECEIVED'` holds exactly when the cell is RECEIVED padded with white space on either side, and for no other text |
| Js.DigitPrefix | auto.js:443 | the longest run of decimal digits that starts the text |
| Js.ShowNat | auto.js:240 | the decimal text of a number: non-empty, all digits, no leading zero |
| Js.ShowNatValue | auto.js:240 | reading the decimal text of `n` back gives `n` |
| Js.ParseInt | auto.js:443 | `parseInt` is NaN exactly when, after leading white space and an optional sign, no digit follows |
| Js.ParseIntOfDigits | auto.js:443 | `parseInt` of digits followed by a non-digit is the value of those digits |
| Js.ParseIntOfNegativeDigits | auto.js:443 | `parseInt` of a minus sign, digits and a non-digit is the negated value |
| Js.ParseIntShowInt | auto.js:443 | `parseInt` reads back any integer's decimal text, whatever non-digit text follows |
| Js.ParseIntStopsAtSeparator | auto.js:443 | an example: `parseInt("1,234")` is 1, because a thousands separator ends the number |
| Js.ReplaceDashes | auto.js:470 | `replace(/-/g, '/')` keeps the length and puts `/` at every `-` and the same character everywhere else |
| Js.ReplaceDashesIdempotent | auto.js:470 | the rewritten date has no `-` left, and rewriting it again changes nothing |
| Js.ReplaceDashesDate | auto.js:468-470 | a date `dd-mm-yyyy` whose parts hold no dash becomes `dd/mm/yyyy` |
| Js.ForInKeyEqualsZero | auto.js:240 | the `for...in` key of row `n`, a string, is loosely equal to 0 exactly when `n == 0` |
| Browser.RunFrom | auto.ts:173-539 | a block's run from call `i` makes at least the calls before `i`; it is complete unless it stops with an error at a call it made |
| Browser.RunFromMeaning | auto.ts:173-539 | a block completes exactly when none of its calls raises; otherwise it stops at the first call that raises, and that call's message is the error |
| Browser.Passed | auto.ts:608-617 | the number of calls of a block that completed before the first one that raised |
| Browser.QuietOracleCompletes | auto.ts:608-617 | a block whose calls all complete makes every call and gives no error |
| Records.RowObject | auto.js:45-66 | the object of one data row has exactly the header names as keys, and each maps to the row's cell under the last column of that name, or `''` when the row has no such cell |
| Records.ConvertToObjects | auto.js:45-66 | no rows give `[]`; otherwise one object per data row, in order, keyed by the header row, which is consumed |
| Records.RowObjectIgnoresExtraCells | automate.js:30-32 | cells beyond the header count do not change the object |
| Records.RowObjectPrefix | automate.js:30-32 | two rows that agree on the header columns give the same object |
| Records.ShortRowGetsEmptyCells | script.js:31 | a header with no cell in the row maps to `''` |
| Records.DuplicateHeaderLaterWins | automate.js:30-32 | an example: with two columns of the same name, the later column's value wins |
| Records.GetSheetData | auto.js:12-43 | at most three calls with a wait between failures; the first call that succeeds gives its `values`, or `[]` when it has none; after three failures the third error is raised |
| Navigation.NavigatePlaywright | auto.ts:33-126 | the retry loop over `retries` and `navigationSuccess` returns exactly what the attempt-by-attempt specification gives, together with its calls |
| Navigation.PlaywrightNavActions | auto.ts:33-126 | navigation adds only navigation calls (goto, waits, reload) to the trace |
| Navigation.AttemptPassesIff | auto.ts:47-82 | an attempt passes exactly when the goto, the iframe wait and the waits for the Filter button and the Search box all complete |
| Navigation.FallbackPassesIff | auto.ts:89-119 | the fallback passes exactly when the reload, the goto and the iframe wait complete; otherwise its error is that of the first failing call |
| Navigation.PlaywrightNavigatedAt | auto.ts:40-86 | a navigation that ends without the reload ended at the first attempt that passed, which is at most the third |
| Navigation.PlaywrightPassingAttemptNavigates | auto.ts:40-86 | if some attempt passes, navigation succeeds without the reload |
| Navigation.PlaywrightFallbackDecides | auto.ts:89-119 | when all attempts fail, navigation succeeds after three attempts if the fallback passes, and otherwise throws `Failed to navigate to Document Manager: ` followed by the fallback's error |
| Navigation.PlaywrightReloadIff | auto.ts:89-97 | the page is reloaded exactly when every primary attempt fails |
| Navigation.PlaywrightNavOutcome | auto.ts:33-126 | the whole result: success without reload iff some attempt passes, at the first such attempt; success with reload iff all fail and the fallback passes; the exact thrown message iff both fail; a reload iff all attempts fail |
| Navigation.PlaywrightNavTraceAllFail | auto.js:95-181 | when every attempt fails, the calls are three attempts with a 2000 ms wait after the first two only, then the fallback |
| Navigation.NavigatePuppeteer | puppetter.js:131-186 | the retry loop returns exactly what the attempt-by-attempt specification gives, together with its calls |
| Navigation.PuppeteerNavActions | puppetter.js:131-186 | navigation adds only navigation calls to the trace |
| Navigation.PuppeteerAttemptPassesIff | puppetter.js:138-167 | an attempt passes exactly when the goto, the iframe handle query and its content frame complete; the `verifyElement` calls do not matter |
| Navigation.PuppeteerNavigatedAt | puppetter.js:131-186 | a successful navigation never reloads, and returns at the first attempt that passes, which is at most the third |
| Navigation.PuppeteerScreenshotsBeforeSuccess | puppetter.js:168-183 | a successful navigation took a working screenshot after each earlier failed attempt |
| Navigation.PuppeteerFailureEndsWithScreenshot | puppetter.js:173-179 | a failed navigation's last call is the screenshot: the throw comes before any wait |
| Navigation.PuppeteerNavFailedWithScreenshots | puppetter.js:176-180 | with working screenshots, navigation fails only after three failed attempts, with the fixed message `Failed to navigate to Document Manager` |
| Navigation.PuppeteerPassingAttemptNavigates | puppetter.js:131-186 | with working screenshots, an attempt that passes means navigation succeeds |
| Navigation.PuppeteerScreenshotErrorEscapes | puppetter.js:173 | a failed navigation with any other message failed because a screenshot raised that message after a failed attempt |
| Sessions.Session.Playwright | auto.ts:644-661 | after start-up, the script holds context 1 and page 1 in it, with 60000 ms default and navigation timeouts, logged in |
| Sessions.Session.Puppeteer | puppetter.js:195-205 | after start-up, the script holds page 1 with only the default timeout set, logged in |
| Sessions.AfterRecreate | auto.js:625-642 | the Playwright recovery block, as a function of the session before it. When the block completes, the script holds a context and a page one past the old ones, usable, logged in, with both 60000 ms timeouts. A failure after closing the context and before the new page leaves the page unusable. A failure of the close itself changes nothing |
| Sessions.AfterReplacePage | puppetter.js:326-328 | the Puppeteer recovery, as a function of the session before it. The context is never touched. When the block completes, the script holds the next page, open in that context and logged in, with no timeout set. A failure right after the close leaves no open page. A failure of the close itself changes nothing |
| Sessions.CompletedRecreations | auto.js:625-642 | after n Playwright recoveries that all completed, the context and page numbers have each moved on by n, and after at least one the session is usable, logged in, with both timeouts |
| Sessions.CompletedReplacements | puppetter.js:326-328 | after n Puppeteer recoveries that all completed, the page number has moved on by n in the same context, and after at least one the page is open, logged in, with no timeout set |
| Sessions.Session.Recreate | auto.js:625-648 | the recovery block leaves the session's fields as `AfterRecreate` of the old ones, and its calls are those the block made; when it completes the session is usable; a failure after closing the context leaves the page unusable |
| Sessions.Session.ReplacePage | puppetter.js:326-328 | the Puppeteer recovery leaves the session's fields as `AfterReplacePage` of the old ones; when it completes the new page is open in the same context, logged in, with no default timeout |
| PlaywrightOrder.SearchStepsPreliminary | auto.js:263-368 | the filter and search calls write nothing into the invoice form and never click Next number or Create Invoice |
| PlaywrightOrder.RowStepsPreliminary | auto.js:383-387 | waiting for the link and reading its row write nothing and create nothing |
| PlaywrightOrder.OpenStepsPreliminary | auto.js:393-413 | opening the order and creating the invoice write nothing into the form |
| PlaywrightOrder.NavigationWritesNothing | auto.js:91-184 | navigation writes nothing into the form and neither reads the amount nor clicks Next number or Create Invoice |
| PlaywrightOrder.FormStageFacts | auto.js:450-601 | the form stage clicks Next number only for the first order, and either throws or ends with the preview, the save as draft and the wait, having had an issue date |
| PlaywrightOrder.ReceivedStageFacts | auto.js:393-601 | from opening the order on, every form write follows the amount read; a tripped guard wrote nothing and read a current amount below the base; a filled form passed the guard |
| PlaywrightOrder.FoundStageFacts | auto.js:383-616 | from the row on, Create Invoice is clicked only for a RECEIVED status; a non-RECEIVED status is reported trimmed |
| PlaywrightOrder.SearchStageFacts | auto.js:263-616 | from the filters on, not-found means the link count read 0, and a filled form had a link, a RECEIVED status and a passing guard |
| PlaywrightOrder.FormWritesFollowAmountRead | auto.js:435-448 | in the whole order path, no form field is written before `#lines_0__amount` is read |
| PlaywrightOrder.BelowWritesNothing | auto.js:443-448 | the guard trips only when both `parseInt` results are numbers and the current one is smaller, and then nothing was written into the form |
| PlaywrightOrder.FilledPassedEveryGate | auto.js:247-601 | a saved form means navigation succeeded, the main frame was found, the link count was positive, the status RECEIVED, the guard passed and the path ended with the save |
| PlaywrightOrder.NextNumberOnlyFirst | auto.js:512-521 | Next number is clicked only when the path runs for the first order |
| PlaywrightOrder.CreateInvoiceOnlyWhenReceived | auto.js:391-413 | Create Invoice is clicked only when the status cell passes the RECEIVED gate |
| PlaywrightOrder.NotFoundStopsAtCount | auto.js:377-380 | a missing link means the count read 0 and the path stopped right after that count |
| AutoJs.OrderStepOf | auto.js:247-616 | a row is skipped only for a missing link, a non-RECEIVED status or a tripped guard |
| AutoJs.SkippedRowFacts | auto.js:377-380 | a skipped row does no `goBack`; a tripped guard wrote nothing; a missing link stopped at the count |
| AutoJs.SavedRowFacts | auto.js:391-608 | a saved row had a link, a RECEIVED status and a passing guard, and ended with two `goBack` calls |
| AutoJs.NextNumberOnlyFirstRow | auto.js:512 | Next number is clicked only on row 0, because only the key "0" is loosely equal to 0 |
| AutoJs.Kinds | auto.js:240-242 | one outcome per row, in row order |
| AutoJs.LoopFromHandles | auto.js:240-650 | the loop deals with the rows one by one, in order, each as its body says, and a handled row is never retried |
| AutoJs.LoopFromEnds | auto.js:617-655 | the script stays open with every row handled when no recovery fails; otherwise it stops at the first failed recovery with `browser.close()` and exit code 1, or with the error of `browser.close()` |
| AutoJs.LoopFromRecoveries | auto.js:617-650 | the browser stays open only if every recovery the loop started completed; otherwise every recovery but the last completed and the last one failed |
| AutoJs.KeptOpenSession | auto.js:617-653 | when the loop keeps the browser open, the session holds context and page number 1 + the number of errors, usable, logged in and with both 60000 ms timeouts; otherwise the last recovery is the one that failed |
| AutoJs.HandleRow | auto.js:240-650 | the body of the loop for one row records what its `try` block led to and, after an error, runs the recovery block as the run's next recovery |
| AutoJs.RunRows | auto.js:240-650 | the loop handles the rows as the loop specification says; its calls are each row's body, the recovery after an error, and `browser.close()` after a failed recovery; the session ends as the recoveries made leave it |
| AutoJs.AutoJsMain | auto.js:198-657 | no rows exits with code 1; a failing start-up crashes with its error; otherwise the rows are handled as the loop specification says |
| AutoTs.ProcessOrder | auto.ts:162-552 | `processOrder` never rejects: it reports the order's number, and it is a success exactly when it carries no error |
| AutoTs.ProcessOrderSuccessPassedEveryGate | auto.ts:515-530 | success means navigation, the main frame, a positive link count, a RECEIVED status and a passing guard, with the path ending in the save |
| AutoTs.ProcessOrderNotFound | auto.ts:303-306 | a link count of 0 gives a failed result with the not-found message |
| AutoTs.ProcessOrderNotReceived | auto.ts:531-538 | a non-RECEIVED status gives a failed result with the skipping message naming the trimmed status |
| AutoTs.ProcessOrderBelow | auto.ts:365-372 | a tripped guard gives a failed result with the message naming both amounts |
| AutoTs.BatchRecords | auto.ts:578-598 | one result per settled promise, in order: the value of a fulfilled one, and a failed result with the reason's message for a rejected one |
| AutoTs.KeptOrdersAreRejected | auto.ts:582-597 | the orders still pending after a pass are exactly those whose promise was rejected |
| AutoTs.KeptOrdersAllFulfilled | auto.ts:582-586 | when every promise fulfils, no order stays pending |
| AutoTs.KeptOrdersAllRejected | auto.ts:587-597 | when every promise rejects, every order stays pending |
| AutoTs.SettleBatch | auto.ts:578-598 | the corrected settling loop appends one result per promise and keeps the rejected orders pending |
| AutoTs.Splice | auto.ts:585 | `splice(i, 1)` removes one element when `i` is in range, and nothing otherwise |
| AutoTs.SettleAsWritten | auto.ts:578-598 | the settling loop as written, run with a step budget, is what its fuel-bounded specification gives |
| AutoTs.AsWrittenPinned | auto.ts:582-586 | once `batchResults[i]` is fulfilled, `i` stays put: the same value is pushed at every step, while the pending list shrinks |
| AutoTs.AsWrittenNeverFinishes | auto.ts:578-586 | any fulfilled result in a batch means the settling loop never finishes, whatever the budget |
| AutoTs.AsWrittenAllRejected | auto.ts:587-597 | with every promise rejected, the loop as written finishes and pushes one failed result per order |
| AutoTs.AsWrittenAgreesWhenAllRejected | auto.ts:578-598 | with every promise rejected, the loop as written and the corrected loop give the same results and pending list |
| AutoTs.AsWrittenOneOrder | auto.ts:578-598 | one order whose promise fulfils: as written, the loop pushes the same result again and again; corrected, it pushes it once and nothing stays pending |
| AutoTs.Batch | auto.ts:571-575 | one settled promise per pending order |
| AutoTs.MaxRetriesTail | auto.ts:622-628 | one result per order still pending |
| AutoTs.MaxRetriesTailNamesOrders | auto.ts:622-628 | each order still pending after the last pass gets a failed result with its number and `Max retries exceeded` |
| AutoTs.ProcessOrdersRecursively | auto.ts:554-631 | the retry loop gives the results of the pass-by-pass specification; it makes as many passes as the specification and one wait and recovery between consecutive passes; its calls are those waits and recoveries; the session ends as those recoveries leave it, failed ones included |
| AutoTs.Pass | auto.ts:565-618 | one pass settles the batch, increments `retryCount`, and recovers the session exactly when orders remain and passes are left; the session is then `AfterRecreate` of the old one, and otherwise unchanged |
| AutoTs.RecoverBetweenPasses | auto.ts:603-618 | the wait and the recovery between passes leave the session as `AfterRecreate` of the old one; a failing recovery is swallowed, so the session may be left unusable |
| AutoTs.PushMaxRetriesTail | auto.ts:622-628 | the push appends the tail of `Max retries exceeded` results |
| AutoTs.RetryFromBounds | auto.ts:562-600 | each pass increments the counter by one; at most `maxRetries` passes run; orders remain only when the passes ran out; only the caller's orders are ever pending; earlier results are kept |
| AutoTs.NeverRejectedOnePass | auto.ts:565-600 | when every promise fulfils, one pass runs and the results are the fulfilled values in order |
| AutoTs.AlwaysRejectedRunsOut | auto.ts:565-600 | when every promise rejects, all passes run and every order stays pending |
| AutoTs.AsWrittenMainNeverSettles | auto.ts:578-598 | with at least one row, the settling loop of `main`'s first pass, as written, is still looping after any number of iterations |
| AutoTs.AutoTsMain | auto.ts:633-688 | with the settling loop corrected: no rows exits with code 1; a failing start-up crashes; otherwise the script stays open with one `processOrder` result per row, in order |
| Puppeteer.VerifyElementIff | puppetter.js:42-68 | `verifyElement` is true exactly when the query finds an element, the evaluation completes and the element is visible; it never raises |
| Puppeteer.VerifyStepIgnored | puppetter.js:149-164 | a `verifyElement` call's result has no effect on the block around it |
| Puppeteer.GetFrames | puppetter.js:76-97 | `getFrames` succeeds exactly when both frame handles exist and both content frames resolve |
| Puppeteer.GetFramesMessages | puppetter.js:79-86 | a missing main handle throws `Main app iframe not found`, a missing legacy handle after a good main frame throws `Legacy frame not found`, and the first message arises in no other way |
| Puppeteer.FormStageFacts | puppetter.js:264-311 | the guard trips after the number, the rewritten date, the IRN and the business area were typed, with the amount read last; a filled form ends with the preview and the save |
| Puppeteer.ReceivedStageFacts | puppetter.js:252-311 | from opening the order on, a tripped guard typed the form head first, and a filled form had its frames |
| Puppeteer.FoundStageFacts | puppetter.js:245-319 | from the row on, a non-RECEIVED status is reported trimmed, and a filled form had a RECEIVED status |
| Puppeteer.SearchStageFound | puppetter.js:231-243 | past the search, the link was found and the rest of the path runs after the search calls |
| Puppeteer.SearchStageBelow | puppetter.js:280-290 | a tripped guard typed the form head and read the amount last, which was below the base |
| Puppeteer.SearchStageFilled | puppetter.js:215-311 | a filled form had the frames, the link, a RECEIVED status, the form frames and a passing guard |
| Puppeteer.SearchStageNotReceived | puppetter.js:246-251 | a non-RECEIVED status had a link and is reported trimmed |
| Puppeteer.SearchStageNotFound | puppetter.js:239-243 | a missing link stopped right after the link query |
| Puppeteer.BelowAfterTyping | puppetter.js:264-290 | the amount guard runs after the head of the form was typed, and trips only when both numbers parse and the current one is smaller |
| Puppeteer.FilledPassedEveryGate | puppetter.js:207-311 | a filled form means navigation succeeded, both frame lookups succeeded, the link was found, the status was RECEIVED and the guard passed |
| Puppeteer.NotFoundStopsAtQuery | puppetter.js:239-243 | a missing link means the query found nothing, and the order stops right there |
| Puppeteer.Stages | puppetter.js:207 | one outcome per row, in row order |
| Puppeteer.LoopFromHandles | puppetter.js:207-330 | the rows are handled one by one, in order, each as its path says |
| Puppeteer.LoopFromEnds | puppetter.js:320-333 | the script stays open with every row handled unless a recovery raises; the first recovery that raises ends the script with its error, because the recovery is not guarded |
| Puppeteer.LoopFromRecoveries | puppetter.js:318-330 | the loop ends normally only if every recovery it started completed; otherwise every recovery but the last completed and the last one raised |
| Puppeteer.KeptOpenSession | puppetter.js:318-333 | when the loop ends normally, the script holds page number 1 + the number of errors, open in the default context and logged in; once a page was replaced, no timeout is set on it; otherwise the last recovery is the one that raised |
| Puppeteer.HandleStage | puppetter.js:318-328 | the body of the loop records where an order's path stopped and, after an error, replaces the page as the run's next recovery |
| Puppeteer.RunRows | puppetter.js:207-330 | the loop handles the rows as the loop specification says; its calls are each order's path and the recovery after an error; the session ends as the replacements made leave it |
| Puppeteer.PuppeteerMain | puppetter.js:188-333 | no rows exits with code 1; a failing start-up crashes with its error; otherwise the rows are handled as the loop specification says |
| Script.UuidRun | script.js:101 | the maximal run of hex digits and hyphens, in either case, from a position |
| Script.FirstMatch | script.js:101 | the leftmost `document-uuid-` followed by at least one uuid character, from a position, in either case |
| Script.ExtractUuid | script.js:101 | the uuid is null exactly when the class has no match; otherwise it is the maximal run after the leftmost match |
| Script.NullClassRaisesBeforeCount | script.js:100-107 | before the link count is read, a null class attribute raises from `match` and a `getAttribute` that timed out raises its error, so the order crashes the script rather than being skipped |
| Script.KeptMeansReceived | script.js:100-125 | a uuid is pushed only for an order whose class was read, whose link count was positive and whose status passed the RECEIVED gate, and it is the uuid extracted from that class |
| Script.Collect | script.js:77-126 | the loop pushes at most one id per order |
| Script.CollectMeaning | script.js:77-126 | the loop crashes exactly when some order raises, at the first one, ignoring what follows; every pushed id comes from an order kept |
| Script.CollectKeepsAll | script.js:119-121 | without a crash, every kept order's uuid is pushed |
| Script.CollectDocIds | script.js:77-126 | the loop method pushes what the loop specification gives |
| Script.CollectPrefixCrash | script.js:77-126 | once an order raises, the orders after it change nothing |
| Script.OpenViews | script.js:128-133 | one new page per id, in order, each at the conversation view of that id, and `null` for a null id, until the first page that raises |
| Script.ScriptMain | script.js:38-141 | a failed sheet read crashes; no rows exits with code 1; a failed start-up crashes with its error; otherwise only the first data row is checked, its uuid (if kept) is `docIds`, a crashing record crashes the script, a failing view page crashes with its error, and the script stays open exactly when none of these happened; a header-only sheet crashes on `undefined['Order no']` |
| AutomateScript.NotFoundRaisesReferenceError | automate_script.js:155-157 | a missing link raises `invoiceNo is not defined` right after the count |
| AutomateScript.CloseClickedIffCounted | automate_script.js:231-237 | the close button is clicked exactly when its count is positive |
| AutomateScript.CloseStageFilled | automate_script.js:238-297 | the base amount is filled with no amount read before it |
| AutomateScript.FilledForm | automate_script.js:210-297 | a filled form had an issue date, typed with every `-` replaced by `/`, and filled the base amount with no guard |
| AutomateScript.CreateInvoiceOnlyWhenReceived | automate_script.js:170-179 | Create Invoice is clicked only for a RECEIVED status |
| AutomateScript.FilledPassedEveryGate | automate_script.js:152-210 | a filled form had a link, a RECEIVED status and an issue date |
| AutomateScript.LoopOverMeaning | automate_script.js:78-304 | the loop crashes exactly when an order's path throws, with the first such error |
| AutomateScript.LoopOverPrefixCrash | automate_script.js:78-304 | once a path throws, the orders after it change nothing |
| AutomateScript.RunOrders | automate_script.js:78-304 | the loop method gives what the loop specification gives |
| AutomateScript.AutomateScriptMain | automate_script.js:38-311 | a failed read crashes; no rows exits with code 1; a failing start-up crashes; otherwise only the first data row's path runs: the script crashes if it throws and stays open otherwise |
| Automate.AutomateMain | automate.js:37-82 | exit code 1 exactly when the read fails or gives no rows; otherwise the script ends normally with one object per data row |
| Automate.HeaderOnlyEndsNormally | automate.js:42-52 | a sheet with only its header row gives no objects and does not exit with code 1 |
| Automate.ObjectsKeyedByHeader | automate.js:22-35 | every object has exactly the header names as keys, each with the last same-named column's cell, or `''` |

## Left out

- Browser calls: every Playwright and Puppeteer call is an action whose
  outcome is given. Rendering, DOM queries, selectors, frames and timing are
  not modelled. Waits are trace entries with their duration.
- Data ingestion: the Google Sheets API, GoogleAuth, `fs` and `csv-parse`
  are outside the model. `getCSVData` is the given sequence of records, and
  a sheet read is a given `Reading` of rows.
- Logging: console output, `logDOM` and the debug screenshots' file names
  are left out. The screenshot call itself is in the trace.
- Credentials: the fixed user name and password are `FillSecret` actions
  without their text.
- `process.exit` is an `End` value. The never-resolving promise that keeps
  a script open is `KeptOpen`. An error that nothing catches in the
  top-level async function, an unhandled rejection, is `Crashed(message)`.
- `Promise.allSettled` over orders that share one page is concurrency. Each
  pass is given as one settled outcome per pending order, and the calls of
  the concurrent `processOrder` runs are not traced.
- Js.ParseInt: models only decimal prefixes, not the `0x` hexadecimal
  prefix or general number coercion. Values are exact integers here, while
  JavaScript's `parseInt` returns a double. Above 2^53 it rounds to the
  nearest double. With more than about 309 digits it gives `Infinity`, and
  `Infinity < Infinity` is false. So the amount comparisons (auto.js:443-448,
  puppetter.js:282-285) can differ from the model for such very long digit
  strings.
- Browser.Infallible: a timed wait never raises here. That is right for
  Puppeteer's `setTimeout` waits, but Playwright's `page.waitForTimeout`
  rejects when its page or context is closed. The model therefore misses two
  paths. At auto.ts:603-606, after a recovery that failed once it had closed
  the context (the error is dropped at auto.ts:614-616), the next
  `waitForTimeout(10000)` runs outside any `try` on the closed page, so
  `processOrdersRecursively` rejects and `main` crashes. At auto.ts:82-84, a
  raising wait after `navigationSuccess = true` sends the `catch` into its
  own 2000 ms wait. Waits that run inside an enclosing `try` (auto.js, the
  `processOrder` body of auto.ts) only lose which call raised.
- Js.Trim: covers ASCII and the listed Unicode white space only.
- AutoTs.SettleAsWritten: the loop as written does not terminate, so its
  model takes a step budget (`fuel`). Only what happens within the budget
  is stated.
- AutoTs.ProcessOrdersRecursively: uses the corrected settling loop, and
  the oracle of a pass stands for the concurrent runs. It states that a
  failed recovery can leave the session unusable, but the next wait on that
  session does not raise here (see Browser.Infallible).
- AutoTs.AutoTsMain: states the program with the settling loop corrected.
  As written, `main` never reaches its summary when there is at least one
  row, because `processOrder` never rejects (AutoTs.AsWrittenMainNeverSettles).
- Script.ExtractUuid: the `/i` flag folds ASCII letters only, as a non-Unicode
  regular expression does.
- automate_script.js `docIds` is declared and logged but never filled, so
  it is not part of the state.
- test.js, sample.js and read-csv.js are not part of this model: they are
  unrelated UI samples and a CSV reader.

## Findings

| source | as written | input that shows it | evidently intended | confidence | as-written member | corrected member |
|---|---|---|---|---|---|---|
| auto.ts:578-598 | on a fulfilled result the loop splices `pendingOrders[i]` and does `i--`, but `batchResults` is not spliced, so the next round reads the same fulfilled `batchResults[i]` again and pushes its value again | one pending order whose `processOrder` fulfils, which every call does: the loop pushes the same result forever | push each fulfilled result once and drop its order; keep each rejected order pending with a failed result | not executed | AutoTs.AsWrittenNeverFinishes | AutoTs.SettleBatch |
