/**
 * The form of frontend/src/components/AddDestinationForm.js: its initial
 * state, the field updates of `handleChange` and of a suggestion click, and
 * the guard chain of `handleSubmit`, which either rejects with an alert or
 * hands the unchanged form data to `onSubmit`.
 *
 * The form state is a map from field name to value, as the component's
 * object is. A date input holds a day number, or nothing when empty: an
 * `<input type="date">` holds only "" or a valid yyyy-mm-dd date, so no
 * other date string reaches the form. Now is a real day number.
 */
module AddDestinationForm {
  import opened Common

  datatype Field = Origin | DestinationField | DepartureDate | ReturnDate | MaxPrice | EnableAlerts

  datatype FormValue = Text(s: string) | Day(day: Option<int>) | Flag(b: bool)

  type Form = map<Field, FormValue>

  predicate Truthy(v: FormValue) {
    match v
    case Text(s) => s != ""
    case Day(d) => d.Some?
    case Flag(b) => b
  }

  /** `formData[name]` as a condition; an absent key is undefined, hence falsy. */
  predicate FieldSet(f: Form, k: Field) {
    k in f && Truthy(f[k])
  }

  /** `new Date(formData[name])`: None for an empty date. */
  function DateOf(f: Form, k: Field): Option<int> {
    if k in f && f[k].Day? then f[k].day else None
  }

  const InitialForm: Form := map[
    Origin := Text("YUL"),
    DestinationField := Text(""),
    DepartureDate := Day(None),
    ReturnDate := Day(None),
    MaxPrice := Text(""),
    EnableAlerts := Flag(true)]

  /** The change event of an input: its name, value, and whether it is a checkbox. */
  datatype ChangeEvent = ChangeEvent(name: Field, value: FormValue, isCheckbox: bool, checked: bool)

  /** `{...prev, [name]: type === 'checkbox' ? checked : value}`. */
  function HandleChange(f: Form, e: ChangeEvent): (r: Form)
    ensures r.Keys == f.Keys + {e.name}
    ensures r[e.name] == if e.isCheckbox then Flag(e.checked) else e.value
    ensures forall k :: k in f && k != e.name ==> r[k] == f[k]
  {
    f[e.name := if e.isCheckbox then Flag(e.checked) else e.value]
  }

  /** A suggestion button sets the destination code. */
  function PickSuggestion(f: Form, code: string): (r: Form)
    ensures r.Keys == f.Keys + {DestinationField}
    ensures r[DestinationField] == Text(code)
    ensures forall k :: k in f && k != DestinationField ==> r[k] == f[k]
  {
    f[DestinationField := Text(code)]
  }

  datatype Rejection = MissingRequiredField | DepartureInPast | ReturnNotAfterDeparture

  datatype SubmitOutcome = Rejected(reason: Rejection) | Submitted(data: Form)

  /** `new Date(departure) < new Date()`, false for an invalid date. */
  predicate InPast(departure: Option<int>, now: real) {
    departure.Some? && (departure.value as real) < now
  }

  /** `new Date(ret) <= new Date(departure)`, false when either is invalid. */
  predicate NotAfter(ret: Option<int>, departure: Option<int>) {
    ret.Some? && departure.Some? && ret.value <= departure.value
  }

  /** handleSubmit: the three guards in order, then onSubmit(formData). */
  function HandleSubmit(f: Form, now: real): (r: SubmitOutcome)
    ensures r.Submitted? ==> r.data == f
    ensures !FieldSet(f, DestinationField) || !FieldSet(f, DepartureDate) <==> r == Rejected(MissingRequiredField)
    ensures r == Rejected(DepartureInPast) <==>
      FieldSet(f, DestinationField) && FieldSet(f, DepartureDate) && InPast(DateOf(f, DepartureDate), now)
    ensures r.Submitted? <==>
      && FieldSet(f, DestinationField)
      && FieldSet(f, DepartureDate)
      && !InPast(DateOf(f, DepartureDate), now)
      && !(FieldSet(f, ReturnDate) && NotAfter(DateOf(f, ReturnDate), DateOf(f, DepartureDate)))
  {
    if !FieldSet(f, DestinationField) || !FieldSet(f, DepartureDate) then Rejected(MissingRequiredField)
    else if InPast(DateOf(f, DepartureDate), now) then Rejected(DepartureInPast)
    else if FieldSet(f, ReturnDate) && NotAfter(DateOf(f, ReturnDate), DateOf(f, DepartureDate)) then
      Rejected(ReturnNotAfterDeparture)
    else Submitted(f)
  }

  /** A submitted form departs now or later, and returns strictly after it departs. */
  lemma SubmittedDatesAreOrdered(f: Form, now: real)
    requires HandleSubmit(f, now).Submitted?
    requires DateOf(f, DepartureDate).Some?
    ensures DateOf(f, DepartureDate).value as real >= now
    ensures DateOf(f, ReturnDate).Some? ==> DateOf(f, ReturnDate).value > DateOf(f, DepartureDate).value
  {
  }

  /** The untouched form cannot be submitted. */
  lemma InitialFormIsRejected(now: real)
    ensures HandleSubmit(InitialForm, now) == Rejected(MissingRequiredField)
  {
    assert !Truthy(InitialForm[DestinationField]);
  }

  /** A return on the day of departure is rejected, like any earlier return. */
  lemma SameDayReturnRejected(f: Form, now: real, d: int)
    requires FieldSet(f, DestinationField)
    requires DepartureDate in f && f[DepartureDate] == Day(Some(d)) && d as real >= now
    requires ReturnDate in f && f[ReturnDate] == Day(Some(d))
    ensures HandleSubmit(f, now) == Rejected(ReturnNotAfterDeparture)
  {
  }

  /** A departure today is submitted only at midnight exactly: once the day has begun it is in the past. */
  lemma DepartureTodayRejectedAfterMidnight(f: Form, now: real, d: int)
    requires FieldSet(f, DestinationField)
    requires DepartureDate in f && f[DepartureDate] == Day(Some(d))
    requires d as real < now
    ensures HandleSubmit(f, now) == Rejected(DepartureInPast)
  {
  }

  /** Editing a field other than the required ones does not change whether a form is complete. */
  lemma ChangingOptionalFieldsKeepsRequired(f: Form, e: ChangeEvent)
    requires e.name != DestinationField && e.name != DepartureDate
    ensures FieldSet(HandleChange(f, e), DestinationField) == FieldSet(f, DestinationField)
    ensures FieldSet(HandleChange(f, e), DepartureDate) == FieldSet(f, DepartureDate)
  {
  }
}
