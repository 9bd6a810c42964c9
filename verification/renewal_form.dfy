/** The form logic of `src/components/dashboard/RenewalForm.tsx`: the
    validation rules, the coercion of typed input, the shaping of the data
    handed to `onSubmit`, and the prefill when an existing renewal is
    edited. Form data is an untyped record, so a value of the wrong type
    (a number where `trim` or `split` is called) makes a handler throw,
    which the model reports as `None` or `Crash`. */
module RenewalForm {
  import opened Options
  import opened Strings
  import opened JsValues
  import opened Calendars
  import opened Fields
  import DateUtils

  const ItemNameRequired: string := "Item name is required"
  const VendorRequired: string := "Vendor is required"
  const StartDateRequired: string := "Start date is required"
  const EndDateRequired: string := "End date is required"
  const EndDateOrder: string := "End date must be after start date"
  const CostPositive: string := "Cost must be greater than 0"

  /** The validation messages, by field. */
  type Errors = map<Key, string>

  /** `v?.trim()` can be evaluated: `v` is a string or nullish. */
  predicate Trimmable(v: JsVal)
  {
    v.Str? || Nullish(v)
  }

  /** `!v?.trim()` for a trimmable value. */
  predicate Blank(v: JsVal)
    requires Trimmable(v)
  {
    Nullish(v) || Trim(v.s) == ""
  }

  /** `new Date(end) <= new Date(start)`: both must be dates for the
      comparison to hold. */
  predicate EndNotAfterStart(cal: Calendar, form: Record)
  {
    var e := DateUtils.ToDate(cal, Get(form, Snake(EndDate)));
    var s := DateUtils.ToDate(cal, Get(form, Snake(StartDate)));
    e.Some? && s.Some? && e.value <= s.value
  }

  /** `formData.cost === undefined || formData.cost <= 0`. */
  predicate BadCost(form: Record)
  {
    var c := Get(form, Cost);
    c.Undefined? || LeqZero(c)
  }

  /** `validateForm()`: the errors it records; `None` when `trim` is
      called on a value that is not a string. */
  function ValidateForm(cal: Calendar, form: Record): (r: Option<Errors>)
    ensures r.None? <==> !Trimmable(Get(form, Snake(ItemName))) || !Trimmable(Get(form, Vendor))
    ensures r.Some? ==> r.value.Keys <= {Snake(ItemName), Vendor, Snake(StartDate), Snake(EndDate), Cost}
    ensures r.Some? ==> (Snake(ItemName) in r.value <==> Blank(Get(form, Snake(ItemName))))
    ensures r.Some? ==> (Vendor in r.value <==> Blank(Get(form, Vendor)))
    ensures r.Some? ==> (Snake(StartDate) in r.value <==> !Truthy(Get(form, Snake(StartDate))))
    ensures r.Some? ==> (Snake(EndDate) in r.value <==>
      !Truthy(Get(form, Snake(EndDate))) || (Truthy(Get(form, Snake(StartDate))) && EndNotAfterStart(cal, form)))
    ensures r.Some? && Snake(EndDate) in r.value ==>
      r.value[Snake(EndDate)] == (if Truthy(Get(form, Snake(EndDate))) then EndDateOrder else EndDateRequired)
    ensures r.Some? ==> (Cost in r.value <==> BadCost(form))
  {
    var item := Get(form, Snake(ItemName));
    var vendor := Get(form, Vendor);
    if !Trimmable(item) || !Trimmable(vendor) then None
    else
      var e1: Errors := if Blank(item) then map[Snake(ItemName) := ItemNameRequired] else map[];
      var e2 := if Blank(vendor) then e1[Vendor := VendorRequired] else e1;
      var start := Get(form, Snake(StartDate));
      var end := Get(form, Snake(EndDate));
      var e3 := if !Truthy(start) then e2[Snake(StartDate) := StartDateRequired] else e2;
      var e4 :=
        if !Truthy(end) then e3[Snake(EndDate) := EndDateRequired]
        else if Truthy(start) && EndNotAfterStart(cal, form) then e3[Snake(EndDate) := EndDateOrder]
        else e3;
      var e5 := if BadCost(form) then e4[Cost := CostPositive] else e4;
      Some(e5)
  }

  /** The form is valid, as a single statement about its fields. */
  predicate Valid(cal: Calendar, form: Record)
  {
    var item := Get(form, Snake(ItemName));
    var vendor := Get(form, Vendor);
    && item.Str? && Trim(item.s) != ""
    && vendor.Str? && Trim(vendor.s) != ""
    && Truthy(Get(form, Snake(StartDate)))
    && Truthy(Get(form, Snake(EndDate)))
    && !EndNotAfterStart(cal, form)
    && !BadCost(form)
  }

  /** `validateForm()` returns `true` exactly for valid forms. */
  lemma ValidateFormIff(cal: Calendar, form: Record)
    ensures ValidateForm(cal, form) == Some(map[]) <==> Valid(cal, form)
  {
    var r := ValidateForm(cal, form);
    if r.Some? && !Valid(cal, form) {
      var item := Get(form, Snake(ItemName));
      var vendor := Get(form, Vendor);
      if Blank(item) {
        assert Snake(ItemName) in r.value;
      } else if Blank(vendor) {
        assert Vendor in r.value;
      } else if !Truthy(Get(form, Snake(StartDate))) {
        assert Snake(StartDate) in r.value;
      } else if !Truthy(Get(form, Snake(EndDate))) || EndNotAfterStart(cal, form) {
        assert Snake(EndDate) in r.value;
      } else {
        assert Cost in r.value;
      }
    }
  }

  /** The date order is only checked between dates that parse: an end date
      the runtime cannot read passes validation. */
  lemma UnparseableEndDatePasses(cal: Calendar, form: Record)
    requires Get(form, Snake(EndDate)).Str? && Get(form, Snake(EndDate)).s != ""
    requires cal.parse(Get(form, Snake(EndDate)).s).None?
    requires Trimmable(Get(form, Snake(ItemName))) && Trimmable(Get(form, Vendor))
    ensures Snake(EndDate) !in ValidateForm(cal, form).value
  {
    assert DateUtils.ToDate(cal, Get(form, Snake(EndDate))).None?;
    assert !EndNotAfterStart(cal, form);
    assert Truthy(Get(form, Snake(EndDate)));
  }

  /** The fields `handleChange` reads as numbers. */
  predicate NumericField(k: Key)
  {
    k == Cost || k == Snake(ReminderDaysBefore)
  }

  /** The input names read as numbers are `cost` and
      `reminder_days_before`. */
  lemma NumericName(name: string)
    ensures NumericField(KeyOf(name)) <==> name == "cost" || name == "reminder_days_before"
  {
    assert KeyOf(name).Name() == name;
  }

  /** `parseFloat(value) || 0`. */
  function NumberInput(value: string): (r: JsVal)
    ensures r.Num?
    ensures ParseFloat(value).Num? && ParseFloat(value).n != 0.0 ==> r == ParseFloat(value)
    ensures !(ParseFloat(value).Num? && ParseFloat(value).n != 0.0) ==> r == Num(0.0)
  {
    Or(ParseFloat(value), Num(0.0))
  }

  /** `handleChange` for the input named `field.Name()` holding `value`
      (`KeyOf` maps an input name back to its field): the new form data
      and errors. */
  function HandleChange(form: Record, errors: Errors, field: Key, value: string): (r: (Record, Errors))
    ensures r.0.Keys == form.Keys + {field}
    ensures forall k :: k in form && k != field ==> r.0[k] == form[k]
    ensures NumericField(field) ==> r.0[field] == NumberInput(value)
    ensures !NumericField(field) ==> r.0[field] == Str(value)
    ensures r.1.Keys == errors.Keys
    ensures forall k :: k in errors && k != field ==> r.1[k] == errors[k]
    ensures field in errors ==> r.1[field] == ""
  {
    (SetInput(form, field, InputValue(field, value)), ClearError(errors, field))
  }

  /** The value `handleChange` stores for an input: a number for the
      numeric fields, the text otherwise. */
  function InputValue(field: Key, value: string): (r: JsVal)
    ensures NumericField(field) ==> r.Num?
    ensures !NumericField(field) ==> r == Str(value)
  {
    if NumericField(field) then NumberInput(value) else Str(value)
  }

  /** The form data half of `handleChange`. */
  function SetInput(form: Record, field: Key, v: JsVal): (r: Record)
    ensures r.Keys == form.Keys + {field}
    ensures forall k :: k in form && k != field ==> r[k] == form[k]
    ensures r[field] == v
  {
    form[field := v]
  }

  /** The errors half of `handleChange`: the field's message, if any, is
      emptied. */
  function ClearError(errors: Errors, field: Key): (r: Errors)
    ensures r.Keys == errors.Keys
    ensures forall k :: k in errors && k != field ==> r[k] == errors[k]
    ensures field in errors ==> r[field] == ""
  {
    if field in errors && errors[field] != "" then errors[field := ""] else errors
  }

  /** A numeric cost is bad exactly when it is not positive. */
  lemma NumericCost(form: Record, x: real)
    requires Get(form, Cost) == Num(x)
    ensures BadCost(form) <==> x <= 0.0
  {
  }

  /** Typing into a field stores the value for that field and leaves the
      other fields alone. */
  lemma StoredInput(form: Record, errors: Errors, field: Key, value: string, v: JsVal)
    requires InputValue(field, value) == v
    ensures var f := HandleChange(form, errors, field, value).0;
      && Get(f, field) == v
      && forall k :: k != field ==> Get(f, k) == Get(form, k)
  {
  }

  lemma CostInputOfNat(n: nat)
    ensures InputValue(Cost, NatToString(n)) == Num(n as real)
  {
    ParseFloatOfNat(n);
  }

  /** Typing a whole number into the cost field stores that number and
      leaves the other fields alone. */
  lemma TypedCostStored(form: Record, errors: Errors, n: nat)
    ensures var f := HandleChange(form, errors, Cost, NatToString(n)).0;
      && Get(f, Cost) == Num(n as real)
      && Get(f, Snake(ItemName)) == Get(form, Snake(ItemName))
      && Get(f, Vendor) == Get(form, Vendor)
  {
    CostInputOfNat(n);
    StoredInput(form, errors, Cost, NatToString(n), Num(n as real));
  }

  /** Typing a whole number into the cost field stores that number, and
      the cost error is then recorded exactly when the number is 0. */
  lemma TypedCostValidates(cal: Calendar, form: Record, errors: Errors, n: nat)
    requires Trimmable(Get(form, Snake(ItemName))) && Trimmable(Get(form, Vendor))
    ensures var f := HandleChange(form, errors, Cost, NatToString(n)).0;
      && Get(f, Cost) == Num(n as real)
      && ValidateForm(cal, f).Some?
      && (Cost in ValidateForm(cal, f).value <==> n == 0)
  {
    TypedCostStored(form, errors, n);
    var f := HandleChange(form, errors, Cost, NatToString(n)).0;
    NumericCost(f, n as real);
  }

  /** What `handleSubmit` does. */
  datatype SubmitOutcome =
    | Crash
    | Rejected(errors: Errors)
    | Submitted(payload: Record)

  /** `v.split('T')[0]` when `v` is truthy; `None` when it is not a string. */
  function CutDate(v: JsVal): (r: Option<JsVal>)
    ensures r.None? <==> Truthy(v) && !v.Str?
    ensures r.Some? && Truthy(v) ==> r.value == Str(BeforeFirst(v.s, 'T'))
    ensures r.Some? && !Truthy(v) ==> r.value == v
  {
    if !Truthy(v) then Some(v)
    else if v.Str? then Some(Str(BeforeFirst(v.s, 'T')))
    else None
  }

  /** A date with nothing left to cut: falsy, or a string without `T`. */
  predicate Cut(v: JsVal)
  {
    !Truthy(v) || (v.Str? && 'T' !in v.s)
  }

  /** `if (form[k]) copy[k] = form[k].split('T')[0]`. */
  function CutField(form: Record, k: Key): (r: Option<Record>)
    ensures r.None? <==> CutDate(Get(form, k)).None?
    ensures r.Some? ==> r.value.Keys == form.Keys
    ensures r.Some? ==> forall j :: j in form && j != k ==> r.value[j] == form[j]
    ensures r.Some? && Truthy(Get(form, k)) ==> Cut(Get(r.value, k))
    ensures r.Some? && Truthy(Get(form, k)) ==> r.value[k] == Str(BeforeFirst(Get(form, k).s, 'T'))
    ensures r.Some? && !Truthy(Get(form, k)) ==> r.value == form
  {
    match CutDate(Get(form, k))
    case None => None
    case Some(v) => if Truthy(Get(form, k)) then Some(form[k := v]) else Some(form)
  }

  /** `if (typeof cost === 'string') copy.cost = parseFloat(cost) || 0`. */
  function ParseCost(form: Record): (r: Record)
    ensures r.Keys == form.Keys
    ensures forall j :: j in form && j != Cost ==> r[j] == form[j]
    ensures !Get(r, Cost).Str?
    ensures Get(form, Cost).Str? ==> r[Cost] == NumberInput(Get(form, Cost).s)
    ensures !Get(form, Cost).Str? ==> r == form
  {
    var cost := Get(form, Cost);
    if cost.Str? then form[Cost := NumberInput(cost.s)] else form
  }

  /** The copy `handleSubmit` prepares: dates cut at the first `T`, a
      string cost parsed; `None` when a truthy date is not a string. */
  function ApiFormData(form: Record): (r: Option<Record>)
    ensures r.None? <==> CutDate(Get(form, Snake(StartDate))).None? || CutDate(Get(form, Snake(EndDate))).None?
    ensures r.Some? ==> r.value.Keys == form.Keys
    ensures r.Some? ==> forall k :: k in form && k != Snake(StartDate) && k != Snake(EndDate) && k != Cost ==>
      r.value[k] == form[k]
    ensures r.Some? ==> !Get(r.value, Cost).Str?
    ensures r.Some? && Truthy(Get(form, Snake(StartDate))) ==> Cut(Get(r.value, Snake(StartDate)))
    ensures r.Some? && Truthy(Get(form, Snake(EndDate))) ==> Cut(Get(r.value, Snake(EndDate)))
    // Each truthy date is the typed one cut at its first `T`; a falsy one
    // is kept as it was.
    ensures r.Some? ==> forall k :: k in {Snake(StartDate), Snake(EndDate)} ==>
      Get(r.value, k) == if Truthy(Get(form, k)) then Str(BeforeFirst(Get(form, k).s, 'T')) else Get(form, k)
    // A typed cost is the number it reads as, 0 when it reads as none;
    // any other cost is kept.
    ensures r.Some? ==>
      Get(r.value, Cost) == if Get(form, Cost).Str? then NumberInput(Get(form, Cost).s) else Get(form, Cost)
  {
    match CutField(form, Snake(StartDate))
    case None => None
    case Some(f1) =>
      assert Get(f1, Snake(EndDate)) == Get(form, Snake(EndDate));
      match CutField(f1, Snake(EndDate))
      case None => None
      case Some(f2) =>
        assert Get(f2, Snake(StartDate)) == Get(f1, Snake(StartDate));
        Some(ParseCost(f2))
  }

  /** A value that the preparation leaves alone. */
  lemma CutFieldFixed(form: Record, k: Key)
    requires Cut(Get(form, k))
    ensures CutField(form, k) == Some(form)
  {
    var v := Get(form, k);
    if Truthy(v) && v.Str? {
      assert k in form && form[k] == v;
      assert BeforeFirst(v.s, 'T') == v.s;
      assert CutDate(v) == Some(v);
      assert form[k := v] == form;
    }
  }

  /** Both dates of a prepared payload are cut, and its cost is no string. */
  lemma ApiFormDataCut(form: Record)
    requires ApiFormData(form).Some?
    ensures Cut(Get(ApiFormData(form).value, Snake(StartDate)))
    ensures Cut(Get(ApiFormData(form).value, Snake(EndDate)))
    ensures !Get(ApiFormData(form).value, Cost).Str?
  {
    var p := ApiFormData(form).value;
    if !Truthy(Get(form, Snake(StartDate))) {
      assert Get(p, Snake(StartDate)) == Get(form, Snake(StartDate));
    }
    if !Truthy(Get(form, Snake(EndDate))) {
      assert Get(p, Snake(EndDate)) == Get(form, Snake(EndDate));
    }
  }

  /** A payload whose dates are cut and whose cost is no string is
      prepared to itself. */
  lemma ApiFormDataFixed(p: Record)
    requires Cut(Get(p, Snake(StartDate))) && Cut(Get(p, Snake(EndDate))) && !Get(p, Cost).Str?
    ensures ApiFormData(p) == Some(p)
  {
    CutFieldFixed(p, Snake(StartDate));
    CutFieldFixed(p, Snake(EndDate));
  }

  /** Preparing the payload twice changes nothing more: a cut date has no
      `T` left and a parsed cost is a number. */
  lemma ApiFormDataIdempotent(form: Record)
    requires ApiFormData(form).Some?
    ensures ApiFormData(ApiFormData(form).value) == ApiFormData(form)
  {
    ApiFormDataCut(form);
    ApiFormDataFixed(ApiFormData(form).value);
  }

  /** `handleSubmit`: the payload is prepared first, then the form data as
      it was (not the prepared copy) is validated, and `onSubmit` receives
      the payload only when there is no error. */
  function HandleSubmit(cal: Calendar, form: Record): (r: SubmitOutcome)
    ensures r.Crash? <==> ApiFormData(form).None? || ValidateForm(cal, form).None?
    ensures r.Submitted? <==> ApiFormData(form).Some? && ValidateForm(cal, form) == Some(map[])
    ensures r.Submitted? ==> r.payload == ApiFormData(form).value
    ensures r.Rejected? ==> r.errors == ValidateForm(cal, form).value && r.errors != map[]
  {
    match ApiFormData(form)
    case None => Crash
    case Some(payload) =>
      match ValidateForm(cal, form)
      case None => Crash
      case Some(errors) => if errors == map[] then Submitted(payload) else Rejected(errors)
  }

  /** Text with no number in it is not a bad cost: `"abc" <= 0` is a
      comparison with `NaN`, which is false. */
  lemma TextCostNotBad(form: Record)
    requires Get(form, Cost) == Str("abc")
    ensures !BadCost(form)
    ensures ParseFloat("abc") == NaN
  {
    WordIsNaN("abc");
  }

  /** Because validation reads the form and not the payload, a valid form
      whose cost is text without a number is submitted with cost 0, which
      the cost rule was meant to refuse. */
  lemma TextCostSubmittedAsZero(cal: Calendar, form: Record)
    requires Valid(cal, form)
    requires Get(form, Snake(StartDate)).Str? && Get(form, Snake(EndDate)).Str?
    requires Get(form, Cost).Str? && ParseFloat(Get(form, Cost).s) == NaN
    ensures HandleSubmit(cal, form).Submitted?
    ensures Get(HandleSubmit(cal, form).payload, Cost) == Num(0.0)
  {
    ValidateFormIff(cal, form);
    var f1 := CutField(form, Snake(StartDate)).value;
    assert Get(f1, Cost) == Get(form, Cost);
    var f2 := CutField(f1, Snake(EndDate)).value;
    assert Get(f2, Cost) == Get(form, Cost);
    assert ApiFormData(form) == Some(ParseCost(f2));
    assert NumberInput(Get(form, Cost).s) == Num(0.0);
  }

  /** The record with the given keys present, missing ones as `undefined`:
      what spreading `{ id: r.id, ... }` over a copy of `r` does. */
  function WithKeys(m: Record, ks: set<Key>): (r: Record)
    ensures r.Keys == m.Keys + ks
    ensures forall k :: k in r ==> r[k] == Get(m, k)
  {
    map k | k in m.Keys + ks :: Get(m, k)
  }

  /** A prefilled date: a truthy one cut before its first `T`, and `''` in
      place of a falsy one. */
  function CutOrEmpty(v: JsVal): JsVal
    requires !Truthy(v) || v.Str?
  {
    if Truthy(v) then Str(BeforeFirst(v.s, 'T')) else Str("")
  }

  /** The edit prefill: the renewal's own fields, with both dates cut at
      the first `T` (or `''` when missing) and a falsy reminder replaced by
      7; `None` when a date is a non-string that `split` fails on. */
  function Prefill(renewal: Record): (r: Option<Record>)
    ensures r.None? <==> !Trimmable(Get(renewal, Snake(StartDate))) || !Trimmable(Get(renewal, Snake(EndDate)))
    ensures r.Some? ==> r.value.Keys == renewal.Keys + {Id, Snake(UserId), Snake(ItemName), Category, Snake(StartDate), Snake(EndDate), Snake(ReminderDaysBefore)}
    ensures r.Some? ==> forall k :: k in r.value && k !in {Snake(StartDate), Snake(EndDate), Snake(ReminderDaysBefore)} ==>
      r.value[k] == Get(renewal, k)
    ensures r.Some? ==> forall k :: k in {Snake(StartDate), Snake(EndDate)} ==>
      r.value[k].Str? && 'T' !in r.value[k].s
    ensures r.Some? ==> r.value[Snake(StartDate)] == CutOrEmpty(Get(renewal, Snake(StartDate)))
    ensures r.Some? ==> r.value[Snake(EndDate)] == CutOrEmpty(Get(renewal, Snake(EndDate)))
    ensures r.Some? ==> Truthy(r.value[Snake(ReminderDaysBefore)])
    ensures r.Some? && !Truthy(Get(renewal, Snake(ReminderDaysBefore))) ==>
      r.value[Snake(ReminderDaysBefore)] == Num(7.0)
    ensures r.Some? && Truthy(Get(renewal, Snake(ReminderDaysBefore))) ==>
      r.value[Snake(ReminderDaysBefore)] == Get(renewal, Snake(ReminderDaysBefore))
  {
    var start := Get(renewal, Snake(StartDate));
    var end := Get(renewal, Snake(EndDate));
    if !Trimmable(start) || !Trimmable(end) then None
    else
      var cutStart := if start.Str? then Str(BeforeFirst(start.s, 'T')) else Str("");
      var cutEnd := if end.Str? then Str(BeforeFirst(end.s, 'T')) else Str("");
      assert cutStart == CutOrEmpty(start) && cutEnd == CutOrEmpty(end);
      Some(WithKeys(renewal, {Id, Snake(UserId), Snake(ItemName), Category})
        [Snake(StartDate) := cutStart]
        [Snake(EndDate) := cutEnd]
        [Snake(ReminderDaysBefore) := Or(Get(renewal, Snake(ReminderDaysBefore)), Num(7.0))])
  }

  /** Prefilling an already prefilled record changes nothing. */
  lemma PrefillIdempotent(renewal: Record)
    requires Prefill(renewal).Some?
    ensures Prefill(Prefill(renewal).value) == Prefill(renewal)
  {
    var p := Prefill(renewal).value;
    var start, end := p[Snake(StartDate)], p[Snake(EndDate)];
    assert BeforeFirst(start.s, 'T') == start.s;
    assert BeforeFirst(end.s, 'T') == end.s;
    var reminder := p[Snake(ReminderDaysBefore)];
    assert Or(reminder, Num(7.0)) == reminder;
    var q := WithKeys(p, {Id, Snake(UserId), Snake(ItemName), Category})
      [Snake(StartDate) := Str(BeforeFirst(start.s, 'T'))]
      [Snake(EndDate) := Str(BeforeFirst(end.s, 'T'))]
      [Snake(ReminderDaysBefore) := Or(reminder, Num(7.0))];
    assert Prefill(p) == Some(q);
    assert q == p;
  }
}
