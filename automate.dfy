/** automate.js: read the sheet, stop with code 1 when it has no rows,
    convert the rows to objects; the browser part is commented out, so the
    script then ends on its own. An error from the sheet read reaches the
    `main().catch` handler, which also exits with code 1. */
module Automate {
  import opened Js
  import opened Browser
  import opened Records

  /** How the script ends and the objects it built (logged, then dropped). */
  datatype AutomateRun = AutomateRun(end: End, objects: seq<Order>)

  /** `main()` with its `catch`: the exit code is 1 exactly when the read
      failed or gave no rows; otherwise the event loop drains (code 0) after
      one object per data row. */
  function AutomateMain(sheet: Reading<Option<seq<seq<string>>>>): (r: AutomateRun)
    ensures r.end == Exited(1) <==> sheet.ReadRaised? || ValuesOr(sheet.value) == []
    ensures r.end != Exited(1) ==> r.end == Exited(0)
    ensures r.end == Exited(0) ==>
      |r.objects| == |ValuesOr(sheet.value)| - 1
      && forall i :: 0 <= i < |r.objects| ==>
           r.objects[i] == RowObject(ValuesOr(sheet.value)[0], ValuesOr(sheet.value)[i + 1])
    ensures r.end == Exited(1) ==> r.objects == []
  {
    if sheet.ReadRaised? then AutomateRun(Exited(1), [])
    else
      var rows := ValuesOr(sheet.value);
      if |rows| == 0 then AutomateRun(Exited(1), [])
      else AutomateRun(Exited(0), ConvertToObjects(rows))
  }

  /** A sheet with only its header row does not exit with code 1: it gives
      no objects and ends normally. */
  lemma HeaderOnlyEndsNormally(headers: seq<string>)
    ensures AutomateMain(Read(Some([headers]))) == AutomateRun(Exited(0), [])
  {
  }

  /** Every object has exactly the header names as keys, each holding the
      cell of the last column with that name, or "" when the row is short. */
  lemma ObjectsKeyedByHeader(sheet: Reading<Option<seq<seq<string>>>>, i: nat, j: nat)
    requires AutomateMain(sheet).end == Exited(0)
    requires i < |AutomateMain(sheet).objects|
    requires j < |ValuesOr(sheet.value)[0]| && LastOfName(ValuesOr(sheet.value)[0], j)
    ensures var rows := ValuesOr(sheet.value);
      && (forall h :: h in AutomateMain(sheet).objects[i] <==> h in rows[0])
      && AutomateMain(sheet).objects[i][rows[0][j]] == CellOr(rows[i + 1], j)
  {
  }
}
