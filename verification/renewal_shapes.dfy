/** The two record shapes a renewal travels in and the mappings between
    them (`snakeToCamelRenewal`, `camelToSnakeRenewal`). The API speaks the
    legacy snake-case shape (`item_name`, `category`, `vendor`,
    `reminder_days_before`); newer screens also use `service_name`,
    `service_type` and `provider`. Both mappings fall back with `||`, so
    any falsy value (`0`, `""`, `false`) is replaced, not only a missing
    one. */
module RenewalShapes {
  import opened Options
  import opened JsValues
  import opened Calendars
  import opened DateUtils
  import opened Fields

  /** The object `snakeToCamelRenewal` builds, one field per key. */
  datatype CamelRenewal = CamelRenewal(
    id: JsVal, userId: JsVal, serviceName: JsVal, serviceType: JsVal, provider: JsVal,
    itemName: JsVal, category: JsVal, vendor: JsVal, startDate: JsVal, endDate: JsVal,
    cost: JsVal, status: JsVal, notes: JsVal, reminderDaysBefore: JsVal)
  {
    /** Property access on the built object. */
    function Lookup(k: Key): JsVal
    {
      match k
      case Id => id
      case Camel(UserId) => userId
      case Camel(ServiceName) => serviceName
      case Camel(ServiceType) => serviceType
      case Provider => provider
      case Camel(ItemName) => itemName
      case Category => category
      case Vendor => vendor
      case Camel(StartDate) => startDate
      case Camel(EndDate) => endDate
      case Cost => cost
      case Status => status
      case Notes => notes
      case Camel(ReminderDaysBefore) => reminderDaysBefore
      case _ => Undefined
    }

    /** The same object as a record, so that it can be handed on to code
        that takes any object. */
    function AsRecord(): (r: Record)
      ensures r.Keys == CamelKeys
      ensures forall k :: Get(r, k) == Lookup(k)
    {
      map k | k in CamelKeys :: Lookup(k)
    }
  }

  /** The object `camelToSnakeRenewal` builds: the legacy shape
      (`id`, `user_id`, `item_name`, `category`, `vendor`, `start_date`,
      `end_date`, `cost`, `status`, `notes`, `reminder_days_before`). */
  datatype LegacyRenewal = LegacyRenewal(
    id: JsVal, userId: JsVal, itemName: JsVal, category: JsVal, vendor: JsVal,
    startDate: JsVal, endDate: JsVal, cost: JsVal, status: JsVal, notes: JsVal,
    reminderDaysBefore: JsVal)

  /** Keys of the object `snakeToCamelRenewal` builds. */
  const CamelKeys: set<Key> := {Id, Camel(UserId), Camel(ServiceName), Camel(ServiceType), Provider,
    Camel(ItemName), Category, Vendor, Camel(StartDate), Camel(EndDate), Cost, Status, Notes,
    Camel(ReminderDaysBefore)}

  /** The current-shape keys, which `camelToSnakeRenewal` never reads. */
  const CurrentShapeKeys: set<Key> := {Camel(ServiceName), Snake(ServiceName), Camel(ServiceType), Snake(ServiceType)}

  /** `snakeToCamelRenewal(r)`. */
  function SnakeToCamel(r: Record): (c: CamelRenewal)
    ensures c.id == Get(r, Id) && c.userId == Get(r, Snake(UserId))
    ensures c.startDate == Get(r, Snake(StartDate)) && c.endDate == Get(r, Snake(EndDate))
    ensures c.cost == Get(r, Cost) && c.status == Get(r, Status) && c.notes == Get(r, Notes)
    // A falsy reminder setting, 0 included, becomes 7; a truthy one is kept.
    ensures Truthy(c.reminderDaysBefore)
    ensures Truthy(Get(r, Snake(ReminderDaysBefore))) ==> c.reminderDaysBefore == Get(r, Snake(ReminderDaysBefore))
    ensures !Truthy(Get(r, Snake(ReminderDaysBefore))) ==> c.reminderDaysBefore == Num(7.0)
  {
    CamelRenewal(
      id := Get(r, Id),
      userId := Get(r, Snake(UserId)),
      serviceName := Or(Get(r, Snake(ServiceName)), Get(r, Snake(ItemName))),
      serviceType := Or(Get(r, Snake(ServiceType)), Get(r, Category)),
      provider := Or(Get(r, Provider), Get(r, Vendor)),
      itemName := Or(Get(r, Snake(ItemName)), Get(r, Snake(ServiceName))),
      category := Or(Get(r, Category), Get(r, Snake(ServiceType))),
      vendor := Or(Get(r, Vendor), Get(r, Provider)),
      startDate := Get(r, Snake(StartDate)),
      endDate := Get(r, Snake(EndDate)),
      cost := Get(r, Cost),
      status := Get(r, Status),
      notes := Get(r, Notes),
      reminderDaysBefore := Or(Get(r, Snake(ReminderDaysBefore)), Num(7.0)))
  }

  /** The legacy and the current name of a field are read in opposite
      orders: the current name prefers the current key, the legacy name
      prefers the legacy key, and each falls back to the other. When only
      one of the two keys holds a truthy value, both names get it; when
      both do, each name keeps its own. */
  lemma SnakeToCamelPairs(r: Record, legacy: Key, current: Key, legacyOut: Key, currentOut: Key)
    requires (legacy, current, legacyOut, currentOut) in
      {(Snake(ItemName), Snake(ServiceName), Camel(ItemName), Camel(ServiceName)),
       (Category, Snake(ServiceType), Category, Camel(ServiceType)),
       (Vendor, Provider, Vendor, Provider)}
    ensures Truthy(Get(r, legacy)) && !Truthy(Get(r, current)) ==>
      SnakeToCamel(r).Lookup(legacyOut) == SnakeToCamel(r).Lookup(currentOut) == Get(r, legacy)
    ensures !Truthy(Get(r, legacy)) && Truthy(Get(r, current)) ==>
      SnakeToCamel(r).Lookup(legacyOut) == SnakeToCamel(r).Lookup(currentOut) == Get(r, current)
    ensures Truthy(Get(r, legacy)) && Truthy(Get(r, current)) ==>
      SnakeToCamel(r).Lookup(legacyOut) == Get(r, legacy) && SnakeToCamel(r).Lookup(currentOut) == Get(r, current)
    ensures Truthy(SnakeToCamel(r).Lookup(legacyOut)) <==> Truthy(Get(r, legacy)) || Truthy(Get(r, current))
  {
  }

  /** `formatDateForAPI(a || b)`: the first key wins when it is truthy,
      and the second is formatted otherwise. */
  function ApiDate(cal: Calendar, a: JsVal, b: JsVal): (r: JsVal)
    ensures r.Str?
    ensures Truthy(a) ==> r == Str(FormatDateForAPI(cal, a))
    ensures !Truthy(a) ==> r == Str(FormatDateForAPI(cal, b))
  {
    Str(FormatDateForAPI(cal, Or(a, b)))
  }

  /** The cost `camelToSnakeRenewal` sends: `parseFloat` of a string, the
      value itself otherwise, and 0 in place of anything falsy. */
  function CostOut(cost: JsVal): (r: JsVal)
    ensures !r.NaN?
    ensures cost.Str? || cost.Num? ==> r.Num?
    ensures !Truthy(cost) ==> r == Num(0.0)
    ensures cost.Num? ==> r == cost
    // A string leaves as the number `parseFloat` reads from it, or as 0
    // when it reads none or reads 0.
    ensures cost.Str? && ParseFloat(cost.s).Num? && ParseFloat(cost.s).n != 0.0 ==>
      r == ParseFloat(cost.s)
    ensures cost.Str? && !(ParseFloat(cost.s).Num? && ParseFloat(cost.s).n != 0.0) ==>
      r == Num(0.0)
    // Any other truthy value passes through untouched.
    ensures Truthy(cost) && !cost.Str? ==> r == cost
  {
    if cost.Str? then Or(ParseFloat(cost.s), Num(0.0)) else Or(cost, Num(0.0))
  }

  /** `camelToSnakeRenewal(r)`. */
  function CamelToSnake(cal: Calendar, r: Record): (s: LegacyRenewal)
    ensures s.id == Get(r, Id)
    // Each field takes the first truthy value among its keys, camel case
    // first, and its default when none is truthy.
    ensures var c, k := Get(r, Camel(UserId)), Get(r, Snake(UserId));
      s.userId == (if Truthy(c) then c else if Truthy(k) then k else Null)
    ensures var c, k := Get(r, Camel(ItemName)), Get(r, Snake(ItemName));
      s.itemName == (if Truthy(c) then c else if Truthy(k) then k else Str(""))
    ensures var c := Get(r, Category);
      s.category == (if Truthy(c) then c else Str("other"))
    ensures var v, p := Get(r, Vendor), Get(r, Provider);
      s.vendor == (if Truthy(v) then v else if Truthy(p) then p else Str(""))
    ensures var c, k := Get(r, Camel(StartDate)), Get(r, Snake(StartDate));
      s.startDate == Str(FormatDateForAPI(cal, if Truthy(c) then c else k))
    ensures var c, k := Get(r, Camel(EndDate)), Get(r, Snake(EndDate));
      s.endDate == Str(FormatDateForAPI(cal, if Truthy(c) then c else k))
    ensures var c := Get(r, Status);
      s.status == (if Truthy(c) then c else Str("active"))
    ensures var c := Get(r, Notes);
      s.notes == (if Truthy(c) then c else Str(""))
    ensures var c, k := Get(r, Camel(ReminderDaysBefore)), Get(r, Snake(ReminderDaysBefore));
      s.reminderDaysBefore == (if Truthy(c) then c else if Truthy(k) then k else Num(7.0))
    // Every default is in place: `user_id` is truthy or `null`; `item_name`,
    // `vendor` and `notes` are truthy or `""`; the rest are truthy.
    ensures s.userId == Null || Truthy(s.userId)
    ensures Truthy(s.category) && Truthy(s.status) && Truthy(s.reminderDaysBefore)
    ensures s.itemName == Str("") || Truthy(s.itemName)
    ensures s.vendor == Str("") || Truthy(s.vendor)
    ensures s.notes == Str("") || Truthy(s.notes)
    // Camel-case keys win over snake-case ones when both are truthy.
    ensures Truthy(Get(r, Camel(ItemName))) ==> s.itemName == Get(r, Camel(ItemName))
    ensures Truthy(Get(r, Camel(UserId))) ==> s.userId == Get(r, Camel(UserId))
    // Dates always leave as strings.
    ensures s.startDate.Str? && s.endDate.Str?
    // The cost is never NaN; a string or a number input leaves as a number.
    ensures !s.cost.NaN?
    ensures Get(r, Cost).Str? || Get(r, Cost).Num? ==> s.cost.Num?
    ensures !Truthy(Get(r, Cost)) ==> s.cost == Num(0.0)
    ensures var c := Get(r, Cost);
      c.Str? && ParseFloat(c.s).Num? && ParseFloat(c.s).n != 0.0 ==> s.cost == ParseFloat(c.s)
    ensures var c := Get(r, Cost);
      c.Str? && !(ParseFloat(c.s).Num? && ParseFloat(c.s).n != 0.0) ==> s.cost == Num(0.0)
    ensures Truthy(Get(r, Cost)) && !Get(r, Cost).Str? ==> s.cost == Get(r, Cost)
  {
    var cost := Get(r, Cost);
    LegacyRenewal(
      id := Get(r, Id),
      userId := Or(Or(Get(r, Camel(UserId)), Get(r, Snake(UserId))), Null),
      itemName := Or(Or(Get(r, Camel(ItemName)), Get(r, Snake(ItemName))), Str("")),
      category := Or(Or(Get(r, Category), Get(r, Category)), Str("other")),
      vendor := Or(Or(Get(r, Vendor), Get(r, Provider)), Str("")),
      startDate := ApiDate(cal, Get(r, Camel(StartDate)), Get(r, Snake(StartDate))),
      endDate := ApiDate(cal, Get(r, Camel(EndDate)), Get(r, Snake(EndDate))),
      cost := CostOut(cost),
      status := Or(Get(r, Status), Str("active")),
      notes := Or(Get(r, Notes), Str("")),
      reminderDaysBefore := Or(Or(Get(r, Camel(ReminderDaysBefore)), Get(r, Snake(ReminderDaysBefore))), Num(7.0)))
  }

  /** Two objects that agree on every key `camelToSnakeRenewal` reads. */
  predicate AgreeOnLegacyReads(r: Record, r': Record)
  {
    && Get(r, Id) == Get(r', Id)
    && Get(r, Camel(UserId)) == Get(r', Camel(UserId)) && Get(r, Snake(UserId)) == Get(r', Snake(UserId))
    && Get(r, Camel(ItemName)) == Get(r', Camel(ItemName)) && Get(r, Snake(ItemName)) == Get(r', Snake(ItemName))
    && Get(r, Category) == Get(r', Category) && Get(r, Vendor) == Get(r', Vendor)
    && Get(r, Provider) == Get(r', Provider)
    && Get(r, Camel(StartDate)) == Get(r', Camel(StartDate)) && Get(r, Snake(StartDate)) == Get(r', Snake(StartDate))
    && Get(r, Camel(EndDate)) == Get(r', Camel(EndDate)) && Get(r, Snake(EndDate)) == Get(r', Snake(EndDate))
    && Get(r, Cost) == Get(r', Cost) && Get(r, Status) == Get(r', Status) && Get(r, Notes) == Get(r', Notes)
    && Get(r, Camel(ReminderDaysBefore)) == Get(r', Camel(ReminderDaysBefore))
    && Get(r, Snake(ReminderDaysBefore)) == Get(r', Snake(ReminderDaysBefore))
  }

  /** `camelToSnakeRenewal` reads only the keys `AgreeOnLegacyReads`
      lists: objects that agree on them map to the same legacy record. */
  lemma CamelToSnakeReadsLegacyKeys(cal: Calendar, r: Record, r': Record)
    requires AgreeOnLegacyReads(r, r')
    ensures CamelToSnake(cal, r) == CamelToSnake(cal, r')
  {
  }

  lemma LegacyReadsOutsideCurrentShape(r: Record, r': Record)
    requires forall k :: k !in CurrentShapeKeys ==> Get(r, k) == Get(r', k)
    ensures AgreeOnLegacyReads(r, r')
  {
  }

  /** `camelToSnakeRenewal` never reads `serviceName`, `service_name`,
      `serviceType` or `service_type`: removing them changes nothing. */
  lemma CamelToSnakeIgnoresCurrentShape(cal: Calendar, r: Record)
    ensures CamelToSnake(cal, r) == CamelToSnake(cal, r - CurrentShapeKeys)
  {
    var r' := r - CurrentShapeKeys;
    LegacyReadsOutsideCurrentShape(r, r');
    CamelToSnakeReadsLegacyKeys(cal, r, r');
  }

  /** A record in the current shape only loses its name and its type:
      `item_name` comes out empty and `category` comes out `'other'`,
      whatever `serviceName` and `serviceType` held. */
  lemma CurrentShapeLosesNameAndType(cal: Calendar, r: Record)
    requires Camel(ItemName) !in r && Snake(ItemName) !in r && Category !in r
    requires Truthy(Get(r, Camel(ServiceName))) && Truthy(Get(r, Camel(ServiceType)))
    ensures CamelToSnake(cal, r).itemName == Str("")
    ensures CamelToSnake(cal, r).category == Str("other")
    ensures CamelToSnake(cal, r).itemName != Get(r, Camel(ServiceName))
  {
  }

  /** The legacy fields that survive the round trip. */
  predicate SameLegacyFields(s: LegacyRenewal, r: Record)
  {
    && s.id == Get(r, Id) && s.userId == Get(r, Snake(UserId))
    && s.itemName == Get(r, Snake(ItemName)) && s.category == Get(r, Category)
    && s.vendor == Get(r, Vendor) && s.cost == Get(r, Cost) && s.status == Get(r, Status)
    && s.reminderDaysBefore == Get(r, Snake(ReminderDaysBefore))
  }

  /** The camel record of a legacy record, read back by the keys
      `camelToSnakeRenewal` looks at. */
  lemma CamelReadBack(r: Record)
    ensures var m := SnakeToCamel(r).AsRecord();
      && Get(m, Camel(StartDate)) == Get(r, Snake(StartDate)) && Get(m, Snake(StartDate)) == Undefined
      && Get(m, Camel(EndDate)) == Get(r, Snake(EndDate)) && Get(m, Snake(EndDate)) == Undefined
      && Get(m, Camel(UserId)) == Get(r, Snake(UserId))
      && Get(m, Camel(ItemName)) == Or(Get(r, Snake(ItemName)), Get(r, Snake(ServiceName)))
      && Get(m, Category) == Or(Get(r, Category), Get(r, Snake(ServiceType)))
      && Get(m, Vendor) == Or(Get(r, Vendor), Get(r, Provider))
      && Get(m, Camel(ReminderDaysBefore)) == Or(Get(r, Snake(ReminderDaysBefore)), Num(7.0))
      && Get(m, Id) == Get(r, Id) && Get(m, Cost) == Get(r, Cost)
      && Get(m, Status) == Get(r, Status) && Get(m, Notes) == Get(r, Notes)
  {
    var c := SnakeToCamel(r);
    AsRecordDates(c);
    AsRecordNames(c);
    AsRecordRest(c);
    assert c.startDate == Get(r, Snake(StartDate)) && c.endDate == Get(r, Snake(EndDate));
    assert c.itemName == Or(Get(r, Snake(ItemName)), Get(r, Snake(ServiceName)));
    assert c.category == Or(Get(r, Category), Get(r, Snake(ServiceType)));
    assert c.vendor == Or(Get(r, Vendor), Get(r, Provider));
  }

  /** Reading the built object as a record: the dates sit under their
      camel-case keys only. */
  lemma AsRecordDates(c: CamelRenewal)
    ensures var m := c.AsRecord();
      && Get(m, Camel(StartDate)) == c.startDate && Get(m, Snake(StartDate)) == Undefined
      && Get(m, Camel(EndDate)) == c.endDate && Get(m, Snake(EndDate)) == Undefined
  {
    var m := c.AsRecord();
    assert Get(m, Camel(StartDate)) == c.Lookup(Camel(StartDate));
    assert Get(m, Snake(StartDate)) == c.Lookup(Snake(StartDate));
    assert Get(m, Camel(EndDate)) == c.Lookup(Camel(EndDate));
    assert Get(m, Snake(EndDate)) == c.Lookup(Snake(EndDate));
  }

  /** Reading the built object as a record: owner, name, category and
      vendor. */
  lemma AsRecordNames(c: CamelRenewal)
    ensures var m := c.AsRecord();
      && Get(m, Camel(UserId)) == c.userId && Get(m, Camel(ItemName)) == c.itemName
      && Get(m, Category) == c.category && Get(m, Vendor) == c.vendor
  {
  }

  /** Reading the built object as a record: the fields spelled the same in
      both shapes, and the reminder setting. */
  lemma AsRecordRest(c: CamelRenewal)
    ensures var m := c.AsRecord();
      && Get(m, Camel(ReminderDaysBefore)) == c.reminderDaysBefore
      && Get(m, Id) == c.id && Get(m, Cost) == c.cost
      && Get(m, Status) == c.status && Get(m, Notes) == c.notes
  {
  }

  /** An API date read from either key leaves unchanged. */
  lemma ApiDateKept(cal: Calendar, a: JsVal, b: JsVal, m: int)
    requires DayLaws(cal) && NoSentinelOutput(cal)
    requires a == Str(cal.format(m, ApiPattern)) && b == Undefined
    ensures ApiDate(cal, a, b) == a
  {
    assert Truthy(a) by {
      assert cal.format(m, ApiPattern) !in {"", "N/A", "Invalid date", "Unknown date"};
    }
    ApiDateFixed(cal, m);
  }

  /** Round trip through the camel shape of the owner and the name, for
      any legacy record: each comes back as itself when it is truthy and as
      its default otherwise, the name falling back to `service_name`. */
  lemma LegacyNamesRoundTrip(cal: Calendar, r: Record)
    ensures var s := CamelToSnake(cal, SnakeToCamel(r).AsRecord());
      && s.userId == Or(Get(r, Snake(UserId)), Null)
      && s.itemName == Or(Or(Get(r, Snake(ItemName)), Get(r, Snake(ServiceName))), Str(""))
  {
    var c := SnakeToCamel(r);
    CamelReadBack(r);
    assert Get(c.AsRecord(), Snake(UserId)) == c.Lookup(Snake(UserId)) == Undefined;
    assert Get(c.AsRecord(), Snake(ItemName)) == c.Lookup(Snake(ItemName)) == Undefined;
  }

  /** Round trip through the camel shape, field by field, for any legacy
      record: the id comes back, the other fields as themselves when they
      are truthy (the cost when it is a number) and as their defaults
      otherwise, the category and the vendor falling back to their
      current-shape keys, and the dates formatted once more. A record whose
      fields are all truthy and whose cost is a number keeps them all. */
  lemma LegacyFieldsRoundTrip(cal: Calendar, r: Record)
    ensures var s := CamelToSnake(cal, SnakeToCamel(r).AsRecord());
      && s.id == Get(r, Id)
      && s.category == Or(Or(Get(r, Category), Get(r, Snake(ServiceType))), Str("other"))
      && s.vendor == Or(Or(Get(r, Vendor), Get(r, Provider)), Str(""))
      && s.cost == CostOut(Get(r, Cost))
      && s.status == Or(Get(r, Status), Str("active"))
      && s.notes == Or(Get(r, Notes), Str(""))
      && s.reminderDaysBefore == Or(Get(r, Snake(ReminderDaysBefore)), Num(7.0))
      && s.startDate == Str(FormatDateForAPI(cal, Get(r, Snake(StartDate))))
      && s.endDate == Str(FormatDateForAPI(cal, Get(r, Snake(EndDate))))
    ensures (&& Truthy(Get(r, Snake(ItemName))) && Truthy(Get(r, Category)) && Truthy(Get(r, Vendor))
             && Truthy(Get(r, Snake(UserId))) && Truthy(Get(r, Status)) && Truthy(Get(r, Snake(ReminderDaysBefore)))
             && Get(r, Cost).Num?) ==>
      SameLegacyFields(CamelToSnake(cal, SnakeToCamel(r).AsRecord()), r)
  {
    CamelReadBack(r);
    LegacyNamesRoundTrip(cal, r);
  }

  /** Round trip of the dates: under a calendar whose days behave, a
      legacy record whose dates are already API dates keeps them. */
  lemma LegacyRoundTrip(cal: Calendar, r: Record, start: int, end: int)
    requires DayLaws(cal) && NoSentinelOutput(cal)
    requires Get(r, Snake(StartDate)) == Str(cal.format(start, ApiPattern))
    requires Get(r, Snake(EndDate)) == Str(cal.format(end, ApiPattern))
    ensures CamelToSnake(cal, SnakeToCamel(r).AsRecord()).startDate == Get(r, Snake(StartDate))
    ensures CamelToSnake(cal, SnakeToCamel(r).AsRecord()).endDate == Get(r, Snake(EndDate))
  {
    var m := SnakeToCamel(r).AsRecord();
    CamelReadBack(r);
    ApiDateKept(cal, Get(m, Camel(StartDate)), Get(m, Snake(StartDate)), start);
    ApiDateKept(cal, Get(m, Camel(EndDate)), Get(m, Snake(EndDate)), end);
  }
}
