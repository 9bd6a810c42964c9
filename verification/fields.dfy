/** The property names a renewal record can carry, and records as maps
    from those names to JavaScript values. Seven fields are spelled
    differently in the two shapes (`user_id`/`userId`, ...); the others are
    spelled the same. */
module Fields {
  import opened JsValues

  /** A field whose snake-case and camel-case spellings differ. */
  datatype Field = UserId | ItemName | ServiceName | ServiceType | StartDate | EndDate | ReminderDaysBefore

  datatype Key =
    | Id | Category | Vendor | Provider | Cost | Status | Notes
    | Snake(f: Field)
    | Camel(f: Field)
    | Other(name: string)
  {
    /** The property name as written in JavaScript. */
    function Name(): string
    {
      match this
      case Id => "id"
      case Category => "category"
      case Vendor => "vendor"
      case Provider => "provider"
      case Cost => "cost"
      case Status => "status"
      case Notes => "notes"
      case Snake(f) => SnakeName(f)
      case Camel(f) => CamelName(f)
      case Other(n) => n
    }
  }

  function SnakeName(f: Field): string
  {
    match f
    case UserId => "user_id"
    case ItemName => "item_name"
    case ServiceName => "service_name"
    case ServiceType => "service_type"
    case StartDate => "start_date"
    case EndDate => "end_date"
    case ReminderDaysBefore => "reminder_days_before"
  }

  function CamelName(f: Field): string
  {
    match f
    case UserId => "userId"
    case ItemName => "itemName"
    case ServiceName => "serviceName"
    case ServiceType => "serviceType"
    case StartDate => "startDate"
    case EndDate => "endDate"
    case ReminderDaysBefore => "reminderDaysBefore"
  }

  /** The key a property name denotes; names the model does not know
      become `Other`. */
  function KeyOf(name: string): (k: Key)
    ensures k.Name() == name
  {
    if name == "id" then Id
    else if name == "category" then Category
    else if name == "vendor" then Vendor
    else if name == "provider" then Provider
    else if name == "cost" then Cost
    else if name == "status" then Status
    else if name == "notes" then Notes
    else if name == "user_id" then Snake(UserId)
    else if name == "item_name" then Snake(ItemName)
    else if name == "service_name" then Snake(ServiceName)
    else if name == "service_type" then Snake(ServiceType)
    else if name == "start_date" then Snake(StartDate)
    else if name == "end_date" then Snake(EndDate)
    else if name == "reminder_days_before" then Snake(ReminderDaysBefore)
    else if name == "userId" then Camel(UserId)
    else if name == "itemName" then Camel(ItemName)
    else if name == "serviceName" then Camel(ServiceName)
    else if name == "serviceType" then Camel(ServiceType)
    else if name == "startDate" then Camel(StartDate)
    else if name == "endDate" then Camel(EndDate)
    else if name == "reminderDaysBefore" then Camel(ReminderDaysBefore)
    else Other(name)
  }

  /** A renewal-like object (`any`, `Partial<Renewal>`, form data). */
  type Record = map<Key, JsVal>

  /** `o[k]`: a missing key reads as `undefined`. */
  function Get(o: Record, k: Key): JsVal
  {
    if k in o then o[k] else Undefined
  }
}
