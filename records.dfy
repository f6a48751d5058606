/** The records the scripts work on. `convertToObjects` (the same function
    in auto.js, script.js, automate_script.js and automate.js) turns the rows
    of a spreadsheet range into one object per data row, keyed by the header
    row; csv-parse with `columns: true` gives objects of the same shape.
    `getSheetData` in auto.js fetches the rows with up to three attempts. */
module Records {
  import opened Js
  import opened Browser

  /** A record: field name to text. A name that is not a key reads as `undefined`. */
  type Order = map<string, string>

  /** `order[key]`. */
  function Field(order: Order, key: string): Option<string> {
    if key in order then Some(order[key]) else None
  }

  /** The TypeError of `order['Order no']` when the record is `undefined`
      (the sheet has a header row and no data row). */
  const OrderNoOnUndefined := "Cannot read properties of undefined (reading 'Order no')"

  /** `row[index] || ''`: the cell, or "" when the row is too short (an empty
      cell is "" already). */
  function CellOr(row: seq<string>, j: nat): string {
    if j < |row| then row[j] else ""
  }

  /** Column `j` is the last one carrying its header name. */
  predicate LastOfName(headers: seq<string>, j: nat)
    requires j < |headers|
  {
    forall k :: j < k < |headers| ==> headers[k] != headers[j]
  }

  /** The object `headers.forEach` builds for one data row: a key for every
      header; a header that occurs twice takes the cell of its later column,
      since the later assignment overwrites the earlier one. */
  function RowObject(headers: seq<string>, row: seq<string>): (obj: Order)
    ensures forall h :: h in obj <==> h in headers
    ensures forall j :: 0 <= j < |headers| && LastOfName(headers, j) ==> obj[headers[j]] == CellOr(row, j)
  {
    if headers == [] then map[]
    else
      var n := |headers| - 1;
      var prior := RowObject(headers[..n], row);
      var obj := prior[headers[n] := CellOr(row, n)];
      assert forall h :: h in headers <==> h in headers[..n] || h == headers[n] by {
        assert headers == headers[..n] + [headers[n]];
      }
      assert forall j :: 0 <= j < |headers| && LastOfName(headers, j) ==> obj[headers[j]] == CellOr(row, j) by {
        forall j | 0 <= j < |headers| && LastOfName(headers, j)
          ensures obj[headers[j]] == CellOr(row, j)
        {
          if j < n {
            assert headers[j] != headers[n];
            assert LastOfName(headers[..n], j);
          }
        }
      }
      obj
  }

  /** `convertToObjects(rows)`: no rows give no objects; otherwise the first
      row is the header and every later row gives one object, in order. */
  function ConvertToObjects(rows: seq<seq<string>>): (objs: seq<Order>)
    ensures rows == [] ==> objs == []
    ensures rows != [] ==> |objs| == |rows| - 1
    ensures forall i :: 0 <= i < |objs| ==> objs[i] == RowObject(rows[0], rows[i + 1])
  {
    if rows == [] then []
    else
      var data := rows[1..];
      seq(|data|, i requires 0 <= i < |data| => RowObject(rows[0], data[i]))
  }

  /** Cells past the header's length are dropped. */
  lemma {:induction false} RowObjectIgnoresExtraCells(headers: seq<string>, row: seq<string>)
    requires |row| >= |headers|
    ensures RowObject(headers, row) == RowObject(headers, row[..|headers|])
  {
    if headers != [] {
      var n := |headers| - 1;
      RowObjectPrefix(headers[..n], row, row[..|headers|]);
    }
  }

  lemma {:induction false} RowObjectPrefix(headers: seq<string>, row: seq<string>, short: seq<string>)
    requires |row| >= |headers| && |short| >= |headers|
    requires forall j :: 0 <= j < |headers| ==> row[j] == short[j]
    ensures RowObject(headers, row) == RowObject(headers, short)
  {
    if headers != [] {
      var n := |headers| - 1;
      RowObjectPrefix(headers[..n], row, short);
    }
  }

  /** A row with fewer cells than headers gets "" for the missing ones. */
  lemma ShortRowGetsEmptyCells(headers: seq<string>, row: seq<string>, j: nat)
    requires |row| <= j < |headers| && LastOfName(headers, j)
    ensures RowObject(headers, row)[headers[j]] == ""
  {
  }

  /** An example of the general lemmas above: of two columns with the same
      header, the later column's value is kept. */
  lemma DuplicateHeaderLaterWins()
    ensures RowObject(["Order no", "Order no"], ["A-1", "A-2"]) == map["Order no" := "A-2"]
  {
    var headers := ["Order no", "Order no"];
    assert headers[..1] == ["Order no"];
    assert ["Order no"][..0] == [];
  }

  // ---------------------------------------------------------------------
  // getSheetData (auto.js)

  /** `res.data.values || []`: a range with no values gives no rows. */
  function ValuesOr(values: Option<seq<seq<string>>>): seq<seq<string>> {
    if values.Some? then values.value else []
  }

  /** What the Sheets API call gives on attempt `k`; attempts past the
      oracle's end complete with no values. */
  function SheetAttempt(attempts: seq<Reading<Option<seq<seq<string>>>>>, k: nat): Reading<Option<seq<seq<string>>>> {
    if k < |attempts| then attempts[k] else Read(None)
  }

  /** The retry loop of `getSheetData`: at most three calls, a two-second
      wait after each failed call but the last, the first success's values
      (or none), and the third error rethrown as it is. */
  method GetSheetData(attempts: seq<Reading<Option<seq<seq<string>>>>>)
    returns (r: Reading<seq<seq<string>>>, calls: nat, waits: nat)
    ensures 1 <= calls <= 3 && waits == calls - 1
    ensures forall k :: 0 <= k < calls - 1 ==> SheetAttempt(attempts, k).ReadRaised?
    ensures r.Read? ==>
      SheetAttempt(attempts, calls - 1).Read?
      && r.value == ValuesOr(SheetAttempt(attempts, calls - 1).value)
    ensures r.ReadRaised? ==>
      calls == 3 && SheetAttempt(attempts, 2).ReadRaised?
      && r.message == SheetAttempt(attempts, 2).message
  {
    var retries := 3;
    calls, waits := 0, 0;
    while retries > 0
      invariant 0 < retries <= 3
      invariant calls == 3 - retries && waits == calls
      invariant forall k :: 0 <= k < calls ==> SheetAttempt(attempts, k).ReadRaised?
      decreases retries
    {
      var res := SheetAttempt(attempts, calls);
      calls := calls + 1;
      if res.Read? {
        return Read(ValuesOr(res.value)), calls, waits;
      }
      retries := retries - 1;
      if retries == 0 {
        return ReadRaised(res.message), calls, waits;
      }
      waits := waits + 1;
    }
    assert false;
  }
}
