/**
 * The destination CRUD handlers of backend/src/controllers/destinationController.js
 * that carry logic: the required-field check and the max_price coercion of
 * `create`, and the UPDATE builder of `update`, which pushes one
 * `column = ?` clause and one value per field present in the body, in a
 * fixed column order, and then runs the statement with those values bound
 * positionally. A statement with a boolean parameter is refused by the
 * driver, better-sqlite3, and the handler answers 500.
 *
 * Request bodies hold JavaScript values; a row of the destinations table
 * holds the values as bound (undefined is bound as NULL). SQL runs on the
 * in-memory table of the class DestinationStore. Statuses are the HTTP
 * statuses of the replies.
 */
module DestinationController {
  import opened Common

  /** A JavaScript value from a JSON request body; Undefined is an absent key. */
  datatype JsValue = Undefined | Null | Str(s: string) | Num(n: real) | Bool(b: bool)

  /** JavaScript truthiness (NaN is not modelled). */
  predicate Truthy(v: JsValue) {
    match v
    case Undefined => false
    case Null => false
    case Str(s) => s != ""
    case Num(n) => n != 0.0
    case Bool(b) => b
  }

  /** The value a statement parameter receives. */
  function Bound(v: JsValue): (r: JsValue)
    ensures r != Undefined
    ensures v != Undefined ==> r == v
  {
    if v == Undefined then Null else v
  }

  datatype Row = Row(
    id: nat,
    origin: JsValue,
    destination: JsValue,
    departureDate: JsValue,
    returnDate: JsValue,
    maxPrice: JsValue,
    isActive: JsValue,
    updatedAt: real)

  /** `SELECT * FROM destinations WHERE id = ?`: the position of the first row with that id. */
  function FindRow(rows: seq<Row>, id: nat): (r: Option<nat>)
    ensures r.Some? ==> r.value < |rows| && rows[r.value].id == id
    ensures r.Some? ==> forall k :: 0 <= k < r.value ==> rows[k].id != id
    ensures r.None? <==> forall k :: 0 <= k < |rows| ==> rows[k].id != id
  {
    if rows == [] then None
    else if rows[0].id == id then Some(0)
    else match FindRow(rows[1..], id)
      case None => None
      case Some(k) => Some(k + 1)
  }

  // ---------------------------------------------------------------------
  // create

  datatype CreateBody = CreateBody(
    origin: JsValue,
    destination: JsValue,
    departureDate: JsValue,
    returnDate: JsValue,
    maxPrice: JsValue)

  /** `!origin || !destination || !departure_date` rejects the request. */
  predicate HasRequiredFields(b: CreateBody) {
    Truthy(b.origin) && Truthy(b.destination) && Truthy(b.departureDate)
  }

  /** The inserted row: `max_price || null`, and is_active at its column default 1. */
  function NewRow(id: nat, b: CreateBody, now: real): (r: Row)
    ensures r.id == id && r.origin == b.origin && r.destination == b.destination
    ensures r.departureDate == b.departureDate && r.returnDate == Bound(b.returnDate)
    ensures r.maxPrice == Null || Truthy(r.maxPrice)
    ensures Truthy(b.maxPrice) ==> r.maxPrice == b.maxPrice
    ensures r.isActive == Num(1.0)
  {
    Row(id, b.origin, b.destination, b.departureDate, Bound(b.returnDate),
        if Truthy(b.maxPrice) then b.maxPrice else Null, Num(1.0), now)
  }

  /**
   * better-sqlite3 refuses to bind a JavaScript boolean to a statement
   * parameter and throws instead; a statement whose parameters include one
   * is not run.
   */
  predicate Bindable(args: seq<JsValue>) {
    forall k :: 0 <= k < |args| ==> !args[k].Bool?
  }

  /** The parameters create binds to its INSERT, in column order. */
  function InsertParams(b: CreateBody): seq<JsValue> {
    [b.origin, b.destination, b.departureDate, Bound(b.returnDate),
     if Truthy(b.maxPrice) then b.maxPrice else Null]
  }

  /** The INSERT of create can run exactly when no field it binds is a boolean; a false max_price becomes NULL. */
  lemma InsertBindableIff(b: CreateBody)
    ensures Bindable(InsertParams(b)) <==>
      && !b.origin.Bool? && !b.destination.Bool? && !b.departureDate.Bool?
      && !b.returnDate.Bool? && b.maxPrice != Bool(true)
  {
    var p := InsertParams(b);
    if !b.origin.Bool? && !b.destination.Bool? && !b.departureDate.Bool? && !b.returnDate.Bool? && b.maxPrice != Bool(true) {
      forall k | 0 <= k < |p| ensures !p[k].Bool? {
        if k == 4 {
          assert p[4] == if Truthy(b.maxPrice) then b.maxPrice else Null;
        }
      }
    } else {
      assert p[0].Bool? || p[1].Bool? || p[2].Bool? || p[3].Bool? || p[4].Bool?;
    }
  }

  /** A falsy max_price (0, "", null, absent) is stored as NULL. */
  lemma FalsyMaxPriceStoredAsNull(id: nat, b: CreateBody, now: real)
    requires !Truthy(b.maxPrice)
    ensures NewRow(id, b, now).maxPrice == Null
  {
  }

  // ---------------------------------------------------------------------
  // update: the SET clauses and their values

  datatype Column = OriginColumn | DestinationColumn | DepartureDateColumn
                  | ReturnDateColumn | MaxPriceColumn | IsActiveColumn

  /** The order of the `if` statements of update. */
  const AllColumns: seq<Column> := [OriginColumn, DestinationColumn, DepartureDateColumn,
                                    ReturnDateColumn, MaxPriceColumn, IsActiveColumn]

  function Rank(c: Column): nat {
    match c
    case OriginColumn => 0
    case DestinationColumn => 1
    case DepartureDateColumn => 2
    case ReturnDateColumn => 3
    case MaxPriceColumn => 4
    case IsActiveColumn => 5
  }

  function ColumnName(c: Column): string {
    match c
    case OriginColumn => "origin"
    case DestinationColumn => "destination"
    case DepartureDateColumn => "departure_date"
    case ReturnDateColumn => "return_date"
    case MaxPriceColumn => "max_price"
    case IsActiveColumn => "is_active"
  }

  /** `column = ?`, or `updated_at = CURRENT_TIMESTAMP`, which takes no value. */
  datatype SetClause = Assign(column: Column) | Touch

  function ClauseText(c: SetClause): string {
    match c
    case Assign(col) => ColumnName(col) + " = ?"
    case Touch => "updated_at = CURRENT_TIMESTAMP"
  }

  /** The number of `?` in a list of SET clauses. */
  function Placeholders(cs: seq<SetClause>): nat {
    if cs == [] then 0 else (if cs[0].Assign? then 1 else 0) + Placeholders(cs[1..])
  }

  datatype UpdateBody = UpdateBody(
    origin: JsValue,
    destination: JsValue,
    departureDate: JsValue,
    returnDate: JsValue,
    maxPrice: JsValue,
    isActive: JsValue)

  function Field(b: UpdateBody, c: Column): JsValue {
    match c
    case OriginColumn => b.origin
    case DestinationColumn => b.destination
    case DepartureDateColumn => b.departureDate
    case ReturnDateColumn => b.returnDate
    case MaxPriceColumn => b.maxPrice
    case IsActiveColumn => b.isActive
  }

  /** The value pushed for a column: is_active becomes 1 or 0. */
  function Pushed(b: UpdateBody, c: Column): (v: JsValue)
    ensures c == IsActiveColumn ==> v == Num(1.0) || v == Num(0.0)
  {
    if c == IsActiveColumn then (if Truthy(b.isActive) then Num(1.0) else Num(0.0)) else Field(b, c)
  }

  /** The clauses pushed for `cols`, one per field that is not undefined. */
  function Clauses(b: UpdateBody, cols: seq<Column>): seq<SetClause> {
    if cols == [] then []
    else
      var n := |cols| - 1;
      Clauses(b, cols[..n]) + (if Field(b, cols[n]) != Undefined then [Assign(cols[n])] else [])
  }

  /** The values pushed for `cols`, alongside Clauses. */
  function Values(b: UpdateBody, cols: seq<Column>): seq<JsValue> {
    if cols == [] then []
    else
      var n := |cols| - 1;
      Values(b, cols[..n]) + (if Field(b, cols[n]) != Undefined then [Pushed(b, cols[n])] else [])
  }

  /** Each defined field adds exactly one placeholder and one value, and only assignments are pushed. */
  lemma {:induction false} ClausesAlignWithValues(b: UpdateBody, cols: seq<Column>)
    ensures |Clauses(b, cols)| == |Values(b, cols)| == Placeholders(Clauses(b, cols))
    ensures forall k :: 0 <= k < |Clauses(b, cols)| ==> Clauses(b, cols)[k].Assign?
  {
    if cols != [] {
      var n := |cols| - 1;
      ClausesAlignWithValues(b, cols[..n]);
      PlaceholdersAppend(Clauses(b, cols[..n]), if Field(b, cols[n]) != Undefined then [Assign(cols[n])] else []);
    }
  }

  lemma {:induction false} PlaceholdersAppend(a: seq<SetClause>, c: seq<SetClause>)
    ensures Placeholders(a + c) == Placeholders(a) + Placeholders(c)
  {
    if a != [] {
      assert (a + c)[1..] == a[1..] + c;
      PlaceholdersAppend(a[1..], c);
    } else {
      assert a + c == c;
    }
  }

  /** A column is assigned exactly when its field is present, and only listed columns are. */
  lemma {:induction false} ClausesCoverDefinedFields(b: UpdateBody, cols: seq<Column>, c: Column)
    ensures Assign(c) in Clauses(b, cols) <==> c in cols && Field(b, c) != Undefined
  {
    if cols != [] {
      var n := |cols| - 1;
      ClausesCoverDefinedFields(b, cols[..n], c);
      assert cols == cols[..n] + [cols[n]];
    }
  }

  predicate StrictlyRanked(cols: seq<Column>) {
    forall i, j :: 0 <= i < j < |cols| ==> Rank(cols[i]) < Rank(cols[j])
  }

  /** The clauses follow the column order. */
  lemma {:induction false} ClausesInColumnOrder(b: UpdateBody, cols: seq<Column>)
    requires StrictlyRanked(cols)
    ensures forall k :: 0 <= k < |Clauses(b, cols)| ==>
      Clauses(b, cols)[k].Assign? && Clauses(b, cols)[k].column in cols
    ensures forall i, j :: 0 <= i < j < |Clauses(b, cols)| ==>
      Rank(Clauses(b, cols)[i].column) < Rank(Clauses(b, cols)[j].column)
  {
    if cols != [] {
      var n := |cols| - 1;
      ClausesInColumnOrder(b, cols[..n]);
      ClausesAlignWithValues(b, cols[..n]);
      var prefix := Clauses(b, cols[..n]);
      assert forall k :: 0 <= k < |prefix| ==> Rank(prefix[k].column) < Rank(cols[n]) by {
        forall k | 0 <= k < |prefix| ensures Rank(prefix[k].column) < Rank(cols[n]) {
          var m :| 0 <= m < n && cols[m] == prefix[k].column;
        }
      }
    }
  }

  // ---------------------------------------------------------------------
  // update: running the statement

  function SetColumn(r: Row, c: Column, v: JsValue): Row {
    match c
    case OriginColumn => r.(origin := v)
    case DestinationColumn => r.(destination := v)
    case DepartureDateColumn => r.(departureDate := v)
    case ReturnDateColumn => r.(returnDate := v)
    case MaxPriceColumn => r.(maxPrice := v)
    case IsActiveColumn => r.(isActive := v)
  }

  function GetColumn(r: Row, c: Column): JsValue {
    match c
    case OriginColumn => r.origin
    case DestinationColumn => r.destination
    case DepartureDateColumn => r.departureDate
    case ReturnDateColumn => r.returnDate
    case MaxPriceColumn => r.maxPrice
    case IsActiveColumn => r.isActive
  }

  /**
   * SET clause by clause, binding the parameters left to right; returns the
   * row and the parameters left for the WHERE clause.
   */
  function ApplySet(r: Row, cs: seq<SetClause>, args: seq<JsValue>, now: real): (res: (Row, seq<JsValue>))
    requires Placeholders(cs) <= |args|
    ensures |res.1| == |args| - Placeholders(cs)
    ensures res.0.id == r.id
    decreases cs
  {
    if cs == [] then (r, args)
    else match cs[0]
      case Assign(c) => ApplySet(SetColumn(r, c, Bound(args[0])), cs[1..], args[1..], now)
      case Touch => ApplySet(r.(updatedAt := now), cs[1..], args, now)
  }

  /** UPDATE destinations SET cs WHERE id = ?, with `args` bound in order. */
  function ExecuteUpdate(rows: seq<Row>, cs: seq<SetClause>, args: seq<JsValue>, now: real): seq<Row>
    requires Placeholders(cs) + 1 == |args|
  {
    if rows == [] then []
    else
      var (updated, rest) := ApplySet(rows[0], cs, args, now);
      (if rest[0] == Num(rows[0].id as real) then [updated] else [rows[0]])
      + ExecuteUpdate(rows[1..], cs, args, now)
  }

  /** The intended effect of a body on a row: every present field written, is_active as 1 or 0. */
  function Patch(r: Row, b: UpdateBody, now: real): (p: Row)
    ensures p.id == r.id && p.updatedAt == now
    ensures forall c :: GetColumn(p, c) == if Field(b, c) != Undefined then Bound(Pushed(b, c)) else GetColumn(r, c)
  {
    Row(r.id,
        if b.origin != Undefined then Bound(b.origin) else r.origin,
        if b.destination != Undefined then Bound(b.destination) else r.destination,
        if b.departureDate != Undefined then Bound(b.departureDate) else r.departureDate,
        if b.returnDate != Undefined then Bound(b.returnDate) else r.returnDate,
        if b.maxPrice != Undefined then Bound(b.maxPrice) else r.maxPrice,
        if b.isActive != Undefined then Bound(Pushed(b, IsActiveColumn)) else r.isActive,
        now)
  }

  predicate Distinct(cols: seq<Column>) {
    forall i, j :: 0 <= i < j < |cols| ==> cols[i] != cols[j]
  }

  lemma {:induction false} ApplySetAppend(r: Row, a: seq<SetClause>, c: seq<SetClause>, args: seq<JsValue>, now: real)
    requires Placeholders(a + c) <= |args|
    ensures PlaceholdersAppendFact(a, c)
    ensures ApplySet(r, a + c, args, now) ==
      var (r1, rest) := ApplySet(r, a, args, now); ApplySet(r1, c, rest, now)
    decreases a
  {
    PlaceholdersAppend(a, c);
    if a != [] {
      assert (a + c)[0] == a[0];
      assert (a + c)[1..] == a[1..] + c;
      PlaceholdersAppend(a[1..], c);
      match a[0]
      case Assign(col) => ApplySetAppend(SetColumn(r, col, Bound(args[0])), a[1..], c, args[1..], now);
      case Touch => ApplySetAppend(r.(updatedAt := now), a[1..], c, args, now);
    } else {
      assert a + c == c;
    }
  }

  predicate PlaceholdersAppendFact(a: seq<SetClause>, c: seq<SetClause>) {
    Placeholders(a + c) == Placeholders(a) + Placeholders(c)
  }

  lemma GetAfterSet(r: Row, c: Column, v: JsValue, d: Column)
    ensures GetColumn(SetColumn(r, c, v), d) == if c == d then v else GetColumn(r, d)
    ensures SetColumn(r, c, v).id == r.id && SetColumn(r, c, v).updatedAt == r.updatedAt
  {
  }

  /** The clause pushed for one column, bound to the value pushed for it. */
  lemma OneClauseWritesItsField(r: Row, b: UpdateBody, c: Column, rest: seq<JsValue>, now: real)
    ensures var cs := if Field(b, c) != Undefined then [Assign(c)] else [];
      var vs := if Field(b, c) != Undefined then [Pushed(b, c)] else [];
      Placeholders(cs) <= |vs + rest| &&
      ApplySet(r, cs, vs + rest, now) == (if Field(b, c) != Undefined then SetColumn(r, c, Bound(Pushed(b, c))) else r, rest)
  {
    if Field(b, c) != Undefined {
      assert ([Pushed(b, c)] + rest)[1..] == rest;
    } else {
      assert [] + rest == rest;
    }
  }

  /** The columns written by binding Values(b, cols) to Clauses(b, cols). */
  predicate WritesFields(r: Row, b: UpdateBody, cols: seq<Column>, res: Row) {
    && res.id == r.id && res.updatedAt == r.updatedAt
    && forall c :: GetColumn(res, c) ==
         if c in cols && Field(b, c) != Undefined then Bound(Pushed(b, c)) else GetColumn(r, c)
  }

  /**
   * Binding the pushed values to the pushed clauses writes each present
   * field into its own column and leaves the others: placeholder k receives
   * value k.
   */
  lemma {:induction false} ClausesWriteTheirFields(r: Row, b: UpdateBody, cols: seq<Column>, rest: seq<JsValue>, now: real)
    requires Distinct(cols)
    ensures ClausesAlignFact(b, cols)
    ensures var res := ApplySet(r, Clauses(b, cols), Values(b, cols) + rest, now);
      res.1 == rest && WritesFields(r, b, cols, res.0)
  {
    ClausesAlignWithValues(b, cols);
    if cols == [] {
      assert [] + rest == rest;
    } else {
      var n := |cols| - 1;
      var c := cols[n];
      var head := Clauses(b, cols[..n]);
      var last := if Field(b, c) != Undefined then [Assign(c)] else [];
      var lastValue := if Field(b, c) != Undefined then [Pushed(b, c)] else [];
      ClausesAlignWithValues(b, cols[..n]);
      assert Distinct(cols[..n]);
      assert Values(b, cols) + rest == Values(b, cols[..n]) + (lastValue + rest);
      ClausesWriteTheirFields(r, b, cols[..n], lastValue + rest, now);
      var mid := ApplySet(r, head, Values(b, cols[..n]) + (lastValue + rest), now);
      ApplySetAppend(r, head, last, Values(b, cols) + rest, now);
      OneClauseWritesItsField(mid.0, b, c, rest, now);
      WritesFieldsStep(r, b, cols, mid.0);
    }
  }

  /** Writing the last column's field after the others extends WritesFields to the whole list. */
  lemma WritesFieldsStep(r: Row, b: UpdateBody, cols: seq<Column>, mid: Row)
    requires cols != [] && Distinct(cols)
    requires WritesFields(r, b, cols[..|cols| - 1], mid)
    ensures var c := cols[|cols| - 1];
      WritesFields(r, b, cols, if Field(b, c) != Undefined then SetColumn(mid, c, Bound(Pushed(b, c))) else mid)
  {
    var n := |cols| - 1;
    var c := cols[n];
    assert cols == cols[..n] + [c];
    assert c !in cols[..n];
    var res := if Field(b, c) != Undefined then SetColumn(mid, c, Bound(Pushed(b, c))) else mid;
    forall d ensures GetColumn(res, d) ==
      if d in cols && Field(b, d) != Undefined then Bound(Pushed(b, d)) else GetColumn(r, d)
    {
      if Field(b, c) != Undefined {
        GetAfterSet(mid, c, Bound(Pushed(b, c)), d);
      }
    }
    if Field(b, c) != Undefined {
      GetAfterSet(mid, c, Bound(Pushed(b, c)), c);
    }
  }

  predicate ClausesAlignFact(b: UpdateBody, cols: seq<Column>) {
    |Clauses(b, cols)| == |Values(b, cols)| == Placeholders(Clauses(b, cols))
  }

  lemma AllColumnsDistinctAndRanked()
    ensures Distinct(AllColumns) && StrictlyRanked(AllColumns)
    ensures forall c :: Rank(c) < |AllColumns| && AllColumns[Rank(c)] == c
  {
    forall c ensures Rank(c) < |AllColumns| && AllColumns[Rank(c)] == c {
      match c
      case OriginColumn =>
      case DestinationColumn =>
      case DepartureDateColumn =>
      case ReturnDateColumn =>
      case MaxPriceColumn =>
      case IsActiveColumn =>
    }
  }

  /** The rows after update: the matching row patched and its updated_at set. */
  function PatchRows(rows: seq<Row>, id: nat, b: UpdateBody, now: real): (r: seq<Row>)
    ensures |r| == |rows|
    ensures forall k :: 0 <= k < |r| ==> r[k] == if rows[k].id == id then Patch(rows[k], b, now) else rows[k]
  {
    if rows == [] then []
    else [if rows[0].id == id then Patch(rows[0], b, now) else rows[0]] + PatchRows(rows[1..], id, b, now)
  }

  lemma RowsEqualByColumns(p: Row, q: Row)
    requires p.id == q.id && p.updatedAt == q.updatedAt
    requires forall c :: GetColumn(p, c) == GetColumn(q, c)
    ensures p == q
  {
    assert GetColumn(p, OriginColumn) == GetColumn(q, OriginColumn);
    assert GetColumn(p, DestinationColumn) == GetColumn(q, DestinationColumn);
    assert GetColumn(p, DepartureDateColumn) == GetColumn(q, DepartureDateColumn);
    assert GetColumn(p, ReturnDateColumn) == GetColumn(q, ReturnDateColumn);
    assert GetColumn(p, MaxPriceColumn) == GetColumn(q, MaxPriceColumn);
    assert GetColumn(p, IsActiveColumn) == GetColumn(q, IsActiveColumn);
  }

  /** On one row, the SET list of update yields the patched row and leaves the id for the WHERE clause. */
  lemma UpdateStatementPatchesRow(r: Row, id: nat, b: UpdateBody, now: real)
    ensures ClausesAlignFact(b, AllColumns)
    ensures PlaceholdersAppendFact(Clauses(b, AllColumns), [Touch])
    ensures ApplySet(r, Clauses(b, AllColumns) + [Touch], Values(b, AllColumns) + [Num(id as real)], now)
      == (Patch(r, b, now), [Num(id as real)])
  {
    ClausesAlignWithValues(b, AllColumns);
    PlaceholdersAppend(Clauses(b, AllColumns), [Touch]);
    AllColumnsDistinctAndRanked();
    var args := Values(b, AllColumns) + [Num(id as real)];
    ClausesWriteTheirFields(r, b, AllColumns, [Num(id as real)], now);
    var written := ApplySet(r, Clauses(b, AllColumns), args, now);
    ApplySetAppend(r, Clauses(b, AllColumns), [Touch], args, now);
    TouchSetsUpdatedAt(written.0, written.1, now);
    WrittenIsPatch(r, b, written.0, now);
  }

  /** Every column is one of AllColumns. */
  lemma EveryColumnListed(c: Column)
    ensures c in AllColumns
  {
    AllColumnsDistinctAndRanked();
    assert AllColumns[Rank(c)] == c;
  }

  /** The fields written over all columns, with updated_at set, are the patched row. */
  lemma WrittenIsPatch(r: Row, b: UpdateBody, w: Row, now: real)
    requires WritesFields(r, b, AllColumns, w)
    ensures w.(updatedAt := now) == Patch(r, b, now)
  {
    var p := Patch(r, b, now);
    forall c ensures GetColumn(w.(updatedAt := now), c) == GetColumn(p, c) {
      EveryColumnListed(c);
      assert GetColumn(w.(updatedAt := now), c) == GetColumn(w, c) by {
        match c
        case OriginColumn =>
        case DestinationColumn =>
        case DepartureDateColumn =>
        case ReturnDateColumn =>
        case MaxPriceColumn =>
        case IsActiveColumn =>
      }
    }
    RowsEqualByColumns(w.(updatedAt := now), p);
  }

  lemma TouchSetsUpdatedAt(r: Row, args: seq<JsValue>, now: real)
    ensures ApplySet(r, [Touch], args, now) == (r.(updatedAt := now), args)
  {
    assert [Touch][1..] == [];
  }

  /** The statement update runs patches the row with that id, and only it. */
  lemma {:induction false} UpdateStatementPatches(rows: seq<Row>, id: nat, b: UpdateBody, now: real)
    ensures ClausesAlignFact(b, AllColumns)
    ensures PlaceholdersAppendFact(Clauses(b, AllColumns), [Touch])
    ensures ExecuteUpdate(rows, Clauses(b, AllColumns) + [Touch], Values(b, AllColumns) + [Num(id as real)], now)
      == PatchRows(rows, id, b, now)
  {
    ClausesAlignWithValues(b, AllColumns);
    PlaceholdersAppend(Clauses(b, AllColumns), [Touch]);
    if rows != [] {
      UpdateStatementPatchesRow(rows[0], id, b, now);
      UpdateStatementPatches(rows[1..], id, b, now);
    }
  }

  /** No field present: update answers 400. */
  lemma {:induction false} NoClausesIffNoField(b: UpdateBody, cols: seq<Column>)
    ensures Clauses(b, cols) == [] <==> forall k :: 0 <= k < |cols| ==> Field(b, cols[k]) == Undefined
  {
    if cols != [] {
      var n := |cols| - 1;
      NoClausesIffNoField(b, cols[..n]);
    }
  }

  /** A present field other than is_active (which is pushed as 1 or 0) holds a boolean. */
  predicate BindsBoolean(b: UpdateBody) {
    exists c :: c != IsActiveColumn && Field(b, c).Bool?
  }

  lemma BindableAppend(a: seq<JsValue>, c: seq<JsValue>)
    ensures Bindable(a + c) <==> Bindable(a) && Bindable(c)
  {
    if Bindable(a) && Bindable(c) {
      forall k | 0 <= k < |a + c| ensures !(a + c)[k].Bool? {
        if k >= |a| {
          assert (a + c)[k] == c[k - |a|];
        }
      }
    }
    if Bindable(a + c) {
      forall k | 0 <= k < |a| ensures !a[k].Bool? {
        assert (a + c)[k] == a[k];
      }
      forall k | 0 <= k < |c| ensures !c[k].Bool? {
        assert (a + c)[|a| + k] == c[k];
      }
    }
  }

  /** The pushed values can be bound exactly when no listed column other than is_active holds a boolean. */
  lemma {:induction false} ValuesBindableIff(b: UpdateBody, cols: seq<Column>)
    ensures Bindable(Values(b, cols)) <==>
      forall k :: 0 <= k < |cols| && cols[k] != IsActiveColumn ==> !Field(b, cols[k]).Bool?
  {
    if cols != [] {
      var n := |cols| - 1;
      var last := if Field(b, cols[n]) != Undefined then [Pushed(b, cols[n])] else [];
      ValuesBindableIff(b, cols[..n]);
      BindableAppend(Values(b, cols[..n]), last);
      assert forall k :: 0 <= k < n ==> cols[..n][k] == cols[k];
      if Field(b, cols[n]) != Undefined {
        assert last[0] == Pushed(b, cols[n]);
      }
      assert Bindable(last) <==> cols[n] == IsActiveColumn || !Field(b, cols[n]).Bool?;
    }
  }

  /** The values of update can be bound exactly when the body binds no boolean. */
  lemma UpdateBindableIff(b: UpdateBody, id: nat)
    ensures Bindable(Values(b, AllColumns) + [Num(id as real)]) <==> !BindsBoolean(b)
  {
    ValuesBindableIff(b, AllColumns);
    BindableAppend(Values(b, AllColumns), [Num(id as real)]);
    AllColumnsDistinctAndRanked();
    if BindsBoolean(b) {
      var c :| c != IsActiveColumn && Field(b, c).Bool?;
      assert AllColumns[Rank(c)] == c;
    }
  }

  /** The push sequence of update, one `if` per column in order. */
  method BuildUpdate(b: UpdateBody) returns (updates: seq<SetClause>, values: seq<JsValue>)
    ensures updates == Clauses(b, AllColumns) && values == Values(b, AllColumns)
  {
    updates, values := [], [];
    assert AllColumns[..0] == [];
    if b.origin != Undefined { updates := updates + [Assign(OriginColumn)]; values := values + [b.origin]; }
    assert AllColumns[..1][..0] == AllColumns[..0];
    assert updates == Clauses(b, AllColumns[..1]) && values == Values(b, AllColumns[..1]);
    if b.destination != Undefined { updates := updates + [Assign(DestinationColumn)]; values := values + [b.destination]; }
    assert AllColumns[..2][..1] == AllColumns[..1];
    assert updates == Clauses(b, AllColumns[..2]) && values == Values(b, AllColumns[..2]);
    if b.departureDate != Undefined { updates := updates + [Assign(DepartureDateColumn)]; values := values + [b.departureDate]; }
    assert AllColumns[..3][..2] == AllColumns[..2];
    assert updates == Clauses(b, AllColumns[..3]) && values == Values(b, AllColumns[..3]);
    if b.returnDate != Undefined { updates := updates + [Assign(ReturnDateColumn)]; values := values + [b.returnDate]; }
    assert AllColumns[..4][..3] == AllColumns[..3];
    assert updates == Clauses(b, AllColumns[..4]) && values == Values(b, AllColumns[..4]);
    if b.maxPrice != Undefined { updates := updates + [Assign(MaxPriceColumn)]; values := values + [b.maxPrice]; }
    assert AllColumns[..5][..4] == AllColumns[..4];
    assert updates == Clauses(b, AllColumns[..5]) && values == Values(b, AllColumns[..5]);
    if b.isActive != Undefined {
      updates := updates + [Assign(IsActiveColumn)];
      values := values + [if Truthy(b.isActive) then Num(1.0) else Num(0.0)];
    }
    assert AllColumns[..6][..5] == AllColumns[..5];
    assert AllColumns[..6] == AllColumns;
  }

  /** A row of the prices table written by create's initial check. */
  datatype PriceRow = PriceRow(dest: nat, price: real)

  class DestinationStore {
    var rows: seq<Row>
    var prices: seq<PriceRow>
    var nextId: nat

    constructor ()
      ensures rows == [] && prices == [] && nextId == 1
    {
      rows, prices, nextId := [], [], 1;
    }

    /**
     * create: 400 and no write without the required fields; 500 and no write
     * when an INSERT parameter is a boolean; otherwise the row is inserted,
     * and the initial lowest price (getLowestPrice, which never throws) is
     * stored when truthy. The reply is then 201 either way.
     */
    method Create(b: CreateBody, initialPrice: Option<real>, now: real) returns (status: nat, created: Option<Row>)
      modifies this
      ensures !HasRequiredFields(b) ==>
        status == 400 && created.None? && rows == old(rows) && prices == old(prices) && nextId == old(nextId)
      ensures HasRequiredFields(b) && !Bindable(InsertParams(b)) ==>
        status == 500 && created.None? && rows == old(rows) && prices == old(prices) && nextId == old(nextId)
      ensures HasRequiredFields(b) && Bindable(InsertParams(b)) ==>
        && status == 201
        && created == Some(NewRow(old(nextId), b, now))
        && rows == old(rows) + [NewRow(old(nextId), b, now)]
        && nextId == old(nextId) + 1
        && prices == old(prices) +
             (if initialPrice.Some? && initialPrice.value != 0.0 then [PriceRow(old(nextId), initialPrice.value)] else [])
    {
      if !(Truthy(b.origin) && Truthy(b.destination) && Truthy(b.departureDate)) {
        return 400, None;
      }
      var params := InsertParams(b);
      if !Bindable(params) {
        return 500, None;
      }
      var id := nextId;
      var row := NewRow(id, b, now);
      rows := rows + [row];
      nextId := nextId + 1;
      if initialPrice.Some? && initialPrice.value != 0.0 {
        prices := prices + [PriceRow(id, initialPrice.value)];
      }
      return 201, Some(row);
    }

    /**
     * update: 404 for an unknown id, 400 when no field is present, 500 and no
     * write when a bound value is a boolean, otherwise 200 after the UPDATE.
     */
    method Update(id: nat, b: UpdateBody, now: real) returns (status: nat)
      modifies this`rows
      ensures FindRow(old(rows), id).None? ==> status == 404 && rows == old(rows)
      ensures FindRow(old(rows), id).Some? && (forall c :: Field(b, c) == Undefined) ==>
        status == 400 && rows == old(rows)
      ensures FindRow(old(rows), id).Some? && BindsBoolean(b) ==>
        status == 500 && rows == old(rows)
      ensures FindRow(old(rows), id).Some? && (exists c :: Field(b, c) != Undefined) && !BindsBoolean(b) ==>
        status == 200 && rows == PatchRows(old(rows), id, b, now)
    {
      var existing := FindRow(rows, id);
      if existing.None? {
        return 404;
      }
      var updates, values := BuildUpdate(b);
      NoClausesIffNoField(b, AllColumns);
      AllColumnsDistinctAndRanked();
      if |updates| == 0 {
        assert forall c :: Field(b, c) == Undefined by {
          forall c ensures Field(b, c) == Undefined {
            assert c == AllColumns[Rank(c)];
          }
        }
        return 400;
      }
      assert exists c :: Field(b, c) != Undefined by {
        var k :| 0 <= k < |AllColumns| && Field(b, AllColumns[k]) != Undefined;
      }
      UpdateStatementPatches(rows, id, b, now);
      UpdateBindableIff(b, id);
      updates := updates + [Touch];
      values := values + [Num(id as real)];
      if !Bindable(values) {
        return 500;
      }
      rows := ExecuteUpdate(rows, updates, values, now);
      status := 200;
    }
  }
}
