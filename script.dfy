/** script.js: one sheet read, start-up and login, then for the first
    record only: filter, search, take the document uuid from the link's
    class, and keep it when the status cell trims to RECEIVED; finally one
    new page per kept uuid, at the conversation view. Nothing is caught
    (the cookie click aside), so any error ends the script. */
module Script {
  import opened Js
  import opened Browser
  import opened Records

  // ---------------------------------------------------------------------
  // The document uuid: /document-uuid-([a-f0-9-]+)/i, group 1

  const UuidMarker := "document-uuid-"

  /** The case folding of the `i` flag, on ASCII letters (outside Unicode
      mode no other character folds onto an ASCII one). */
  function Lower(c: char): char {
    if 'A' <= c <= 'Z' then (c as int + 32) as char else c
  }

  /** `[a-f0-9-]` under the `i` flag. */
  predicate UuidChar(c: char) {
    '0' <= c <= '9' || 'a' <= Lower(c) <= 'f' || c == '-'
  }

  /** The pattern matches at `p`: the marker (in any letter case) and at
      least one uuid character after it. */
  predicate MatchAt(s: string, p: nat) {
    p + |UuidMarker| < |s|
    && (forall k :: 0 <= k < |UuidMarker| ==> Lower(s[p + k]) == UuidMarker[k])
    && UuidChar(s[p + |UuidMarker|])
  }

  /** The greedy `+`: the length of the run of uuid characters at `i`. */
  function UuidRun(s: string, i: nat): (n: nat)
    requires i <= |s|
    decreases |s| - i
    ensures i + n <= |s|
    ensures forall k :: i <= k < i + n ==> UuidChar(s[k])
    ensures i + n == |s| || !UuidChar(s[i + n])
  {
    if i < |s| && UuidChar(s[i]) then 1 + UuidRun(s, i + 1) else 0
  }

  /** The leftmost position from `p` on where the pattern matches. */
  function FirstMatch(s: string, p: nat): (r: Option<nat>)
    decreases |s| - p
    ensures r.None? ==> forall q: nat :: p <= q ==> !MatchAt(s, q)
    ensures r.Some? ==> p <= r.value && MatchAt(s, r.value)
    ensures r.Some? ==> forall q: nat :: p <= q < r.value ==> !MatchAt(s, q)
  {
    if p + |UuidMarker| >= |s| then None
    else if MatchAt(s, p) then Some(p)
    else FirstMatch(s, p + 1)
  }

  /** `classValue.match(...)?.[1] || null`: null when the pattern matches
      nowhere; otherwise the whole run of hex digits and hyphens after the
      leftmost match of the marker. The group is never empty, so `|| null`
      only turns a failed match into null. */
  function ExtractUuid(classValue: string): (u: Option<string>)
    ensures u.None? <==> forall q: nat :: !MatchAt(classValue, q)
    ensures u.Some? ==> FirstMatch(classValue, 0).Some?
    ensures u.Some? ==>
      var i := FirstMatch(classValue, 0).value + |UuidMarker|;
      u.value != [] && i + |u.value| <= |classValue| && u.value == classValue[i..i + |u.value|]
      && (forall k :: 0 <= k < |u.value| ==> UuidChar(u.value[k]))
      && (i + |u.value| == |classValue| || !UuidChar(classValue[i + |u.value|]))
  {
    match FirstMatch(classValue, 0)
    case None => None
    case Some(q) =>
      var i := q + |UuidMarker|;
      Some(classValue[i..i + UuidRun(classValue, i)])
  }

  // ---------------------------------------------------------------------
  // The record loop

  /** The TypeError of `null.match(...)`. */
  const MatchOnNull := "Cannot read properties of null (reading 'match')"

  /** Start-up: launch, context, page, login (no wait for the load), and
      the Document Manager. */
  const StartSteps: seq<Action> :=
    [Launch, NewContext, NewPage, Goto(LoginPage), TryClick(CookieConsent), FillSecret(Username),
     FillSecret(Password), Click(Proceed), Pause(3000), Goto(DocumentManager), WaitLoad]

  /** The filter clicks and the search. */
  function FilterSteps(orderNo: Option<string>): seq<Action> {
    [Click(FilterButton), Click(DocumentTypes), Click(UnselectAll), CheckBox(InvoiceType),
     CheckBox(OrderType), Click(StatusButton), UncheckBox(DeliveredReceived), CheckBox(DeliveredReceived),
     Click(FilterButton), Fill(SearchBox, orderNo), Pause(3000)]
  }

  const RowSteps: seq<Action> := [WaitVisible(OrderLink)]

  /** What the page does for one record. */
  datatype ScriptPage = ScriptPage(
    filters: seq<Outcome>,
    classAttr: Reading<Option<string>>,   // link.getAttribute('class'): the value, null, or its timeout
    linkCount: Reading<nat>,
    row: seq<Outcome>,
    status: Reading<string>)

  /** What the loop body does with one record: raise, `continue`, or keep a uuid. */
  datatype Check = Crash(message: string) | Skip | Keep(uuid: Option<string>)

  /** The loop body for one record (`undefined` when the sheet has no data row). */
  function CheckOrder(order: Option<Order>, p: ScriptPage): Check {
    if order.None? then Crash(OrderNoOnUndefined)
    else
      var steps := FilterSteps(Field(order.value, "Order no"));
      if RunBlock(steps, p.filters).error.Some? then Crash(RunBlock(steps, p.filters).error.value)
      else if p.classAttr.ReadRaised? then Crash(p.classAttr.message)
      else if p.classAttr.value.None? then Crash(MatchOnNull)
      else
        var uuid := ExtractUuid(p.classAttr.value.value);
        if p.linkCount.ReadRaised? then Crash(p.linkCount.message)
        else if p.linkCount.value == 0 then Skip
        else if RunBlock(RowSteps, p.row).error.Some? then Crash(RunBlock(RowSteps, p.row).error.value)
        else if p.status.ReadRaised? then Crash(p.status.message)
        else if IsReceived(p.status.value) then Keep(uuid)
        else Skip
  }

  /** The class is read and matched before the link is counted. When the
      link is missing, `getAttribute` waits for it and raises its timeout;
      when the link has no class attribute, `match` on the null raises.
      Either way the record raises, and the "not present" branch is never
      reached. */
  lemma NullClassRaisesBeforeCount(order: Order, p: ScriptPage)
    requires RunBlock(FilterSteps(Field(order, "Order no")), p.filters).error.None?
    ensures p.classAttr == Read(None) ==> CheckOrder(Some(order), p) == Crash(MatchOnNull)
    ensures p.classAttr.ReadRaised? ==> CheckOrder(Some(order), p) == Crash(p.classAttr.message)
  {
  }

  /** A kept uuid belongs to a found link whose status cell trims to
      RECEIVED, and it is what the pattern takes from the link's class. */
  lemma KeptMeansReceived(order: Option<Order>, p: ScriptPage)
    requires CheckOrder(order, p).Keep?
    ensures order.Some? && p.classAttr.Read? && p.classAttr.value.Some?
    ensures CheckOrder(order, p).uuid == ExtractUuid(p.classAttr.value.value)
    ensures p.linkCount.Read? && p.linkCount.value > 0
    ensures p.status.Read? && IsReceived(p.status.value)
  {
  }

  /** The kept uuids and the error that stopped the loop, if any. */
  datatype Collected = Collected(docIds: seq<Option<string>>, crash: Option<string>)

  /** The loop over the checks, in order, up to the first raise. */
  function Collect(checks: seq<Check>): (r: Collected)
    decreases |checks|
    ensures |r.docIds| <= |checks|
  {
    if checks == [] then Collected([], None)
    else
      var n := |checks| - 1;
      var prior := Collect(checks[..n]);
      if prior.crash.Some? then prior
      else
        match checks[n]
        case Crash(m) => Collected(prior.docIds, Some(m))
        case Skip => prior
        case Keep(u) => Collected(prior.docIds + [u], None)
  }

  /** The loop stops exactly at a raising record; until then every kept
      uuid is pushed, in order, and nothing else is. */
  lemma {:induction false} CollectMeaning(checks: seq<Check>)
    decreases |checks|
    ensures Collect(checks).crash.None? <==> forall j :: 0 <= j < |checks| ==> !checks[j].Crash?
    ensures Collect(checks).crash.Some? ==>
      exists j :: 0 <= j < |checks| && checks[j] == Crash(Collect(checks).crash.value)
        && Collect(checks) == Collect(checks[..j + 1])
    ensures forall k :: 0 <= k < |Collect(checks).docIds| ==>
      exists j :: 0 <= j < |checks| && checks[j] == Keep(Collect(checks).docIds[k])
  {
    if checks != [] {
      var n := |checks| - 1;
      CollectMeaning(checks[..n]);
      var prior := Collect(checks[..n]);
      var r := Collect(checks);
      forall k | 0 <= k < |r.docIds|
        ensures exists j :: 0 <= j < |checks| && checks[j] == Keep(r.docIds[k])
      {
        if k < |prior.docIds| {
          assert r.docIds[k] == prior.docIds[k];
          var j :| 0 <= j < n && checks[..n][j] == Keep(prior.docIds[k]);
          assert checks[j] == Keep(r.docIds[k]);
        } else {
          assert checks[n] == Keep(r.docIds[k]);
        }
      }
      if prior.crash.Some? {
        var j :| 0 <= j < n && checks[..n][j] == Crash(prior.crash.value) && prior == Collect(checks[..n][..j + 1]);
        assert checks[..n][..j + 1] == checks[..j + 1];
        assert checks[j] == checks[..n][j];
      } else if checks[n].Crash? {
        assert checks[..n + 1] == checks;
      } else {
        forall j | 0 <= j < n ensures !checks[j].Crash? {
          assert checks[j] == checks[..n][j];
        }
      }
    }
  }

  /** With no raise, every record's kept uuid is in the list. */
  lemma {:induction false} CollectKeepsAll(checks: seq<Check>)
    requires forall j :: 0 <= j < |checks| ==> !checks[j].Crash?
    decreases |checks|
    ensures forall j :: 0 <= j < |checks| && checks[j].Keep? ==> checks[j].uuid in Collect(checks).docIds
  {
    if checks != [] {
      var n := |checks| - 1;
      assert forall j :: 0 <= j < n ==> checks[..n][j] == checks[j];
      CollectKeepsAll(checks[..n]);
      CollectMeaning(checks[..n]);
    }
  }

  /** The pages each record meets. */
  type Pages = nat -> ScriptPage

  /** The first loop: `docIds` gets the uuid of every RECEIVED record, in order. */
  method CollectDocIds(orders: seq<Option<Order>>, pages: Pages) returns (r: Collected)
    ensures r == Collect(seq(|orders|, i requires 0 <= i < |orders| => CheckOrder(orders[i], pages(i))))
  {
    ghost var checks := seq(|orders|, i requires 0 <= i < |orders| => CheckOrder(orders[i], pages(i)));
    var docIds := [];
    for i := 0 to |orders|
      invariant Collect(checks[..i]) == Collected(docIds, None)
    {
      assert checks[..i + 1][..i] == checks[..i];
      var check := CheckOrder(orders[i], pages(i));
      assert check == checks[i];
      match check {
        case Crash(m) =>
          assert Collect(checks[..i + 1]) == Collected(docIds, Some(m));
          CollectPrefixCrash(checks, i + 1);
          return Collected(docIds, Some(m));
        case Skip =>
        case Keep(uuid) =>
          docIds := docIds + [uuid];
      }
    }
    assert checks[..|orders|] == checks;
    r := Collected(docIds, None);
  }

  /** Once the loop has raised, later records change nothing. */
  lemma {:induction false} CollectPrefixCrash(checks: seq<Check>, i: nat)
    requires i <= |checks| && Collect(checks[..i]).crash.Some?
    decreases |checks| - i
    ensures Collect(checks) == Collect(checks[..i])
  {
    if i < |checks| {
      assert checks[..i + 1][..i] == checks[..i];
      CollectPrefixCrash(checks, i + 1);
    } else {
      assert checks[..i] == checks;
    }
  }

  // ---------------------------------------------------------------------
  // The view pages

  /** The conversation view of a uuid; a null uuid shows as "null" in the
      template literal. */
  function ViewOf(uuid: Option<string>): Url {
    ConversationView(if uuid.Some? then uuid.value else "null")
  }

  function ViewAt(views: seq<seq<Outcome>>, k: nat): seq<Outcome> {
    if k < |views| then views[k] else []
  }

  /** The second loop: a new page per uuid, in `docIds` order, visited at
      the uuid's conversation view. `visited` lists the views reached; an
      error stops the loop and the script. */
  method OpenViews(docIds: seq<Option<string>>, views: seq<seq<Outcome>>)
    returns (visited: seq<Url>, crash: Option<string>)
    ensures |visited| <= |docIds|
    ensures forall k :: 0 <= k < |visited| ==> visited[k] == ViewOf(docIds[k])
    ensures crash.None? <==> |visited| == |docIds|
    ensures crash.Some? ==>
      crash == RunBlock([NewPage, Goto(ViewOf(docIds[|visited|]))], ViewAt(views, |visited|)).error
    ensures forall k :: 0 <= k < |visited| ==>
      RunBlock([NewPage, Goto(ViewOf(docIds[k]))], ViewAt(views, k)).error.None?
  {
    visited := [];
    for k := 0 to |docIds|
      invariant |visited| == k
      invariant forall j :: 0 <= j < k ==> visited[j] == ViewOf(docIds[j])
      invariant forall j :: 0 <= j < k ==> RunBlock([NewPage, Goto(ViewOf(docIds[j]))], ViewAt(views, j)).error.None?
    {
      var run := RunBlock([NewPage, Goto(ViewOf(docIds[k]))], ViewAt(views, k));
      if run.error.Some? {
        return visited, run.error;
      }
      visited := visited + [ViewOf(docIds[k])];
    }
    crash := None;
  }

  /** The top-level async function of script.js. */
  method ScriptMain(sheet: Reading<Option<seq<seq<string>>>>, startup: seq<Outcome>, page: ScriptPage,
                    views: seq<seq<Outcome>>)
    returns (end: End, docIds: seq<Option<string>>, visited: seq<Url>)
    ensures sheet.ReadRaised? ==> end == Crashed(sheet.message) && docIds == [] && visited == []
    ensures sheet.Read? && ValuesOr(sheet.value) == [] ==> end == Exited(1) && docIds == [] && visited == []
    ensures sheet.Read? && ValuesOr(sheet.value) != [] && RunBlock(StartSteps, startup).error.Some? ==>
      end == Crashed(RunBlock(StartSteps, startup).error.value) && docIds == [] && visited == []
    ensures sheet.Read? && ValuesOr(sheet.value) != [] && RunBlock(StartSteps, startup).error.None? ==>
      var rows := ValuesOr(sheet.value);
      var c := Collect([CheckOrder(if |rows| >= 2 then Some(ConvertToObjects(rows)[0]) else None, page)]);
      && docIds == c.docIds
      && (c.crash.Some? ==> end == Crashed(c.crash.value) && visited == [])
      && (c.crash.None? && docIds == [] ==> end == KeptOpen && visited == [])
      && (c.crash.None? && docIds != [] ==>
            var view := RunBlock([NewPage, Goto(ViewOf(docIds[0]))], ViewAt(views, 0));
            && (view.error.None? ==> end == KeptOpen && visited == [ViewOf(docIds[0])])
            && (view.error.Some? ==> end == Crashed(view.error.value) && visited == []))
    ensures |docIds| <= 1 && |visited| <= |docIds|
    ensures sheet.Read? && |ValuesOr(sheet.value)| == 1 && RunBlock(StartSteps, startup).error.None? ==>
      end == Crashed(OrderNoOnUndefined)
  {
    docIds, visited := [], [];
    if sheet.ReadRaised? {
      return Crashed(sheet.message), [], [];
    }
    var rows := ValuesOr(sheet.value);
    if |rows| == 0 {
      return Exited(1), [], [];
    }
    var dataObjects := ConvertToObjects(rows);
    var start := RunBlock(StartSteps, startup);
    if start.error.Some? {
      return Crashed(start.error.value), [], [];
    }
    var first := if |dataObjects| > 0 then Some(dataObjects[0]) else None;
    var pages: Pages := _ => page;
    var collected := CollectDocIds([first], pages);
    assert seq(1, i requires 0 <= i < 1 => CheckOrder([first][i], pages(i))) == [CheckOrder(first, page)];
    docIds := collected.docIds;
    if collected.crash.Some? {
      return Crashed(collected.crash.value), docIds, [];
    }
    var crash;
    visited, crash := OpenViews(docIds, views);
    if crash.Some? {
      return Crashed(crash.value), docIds, visited;
    }
    end := KeptOpen;
  }
}
