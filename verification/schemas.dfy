/** The request and response schemas of a script: the field constraints a
    create or update request must meet, the defaults it gets, and how the
    stored weekday text is read back. */
module Schemas {
  import opened Records

  const NameMaxLength := 255
  const PathMaxLength := 1024

  /** The text form of an interval unit. */
  function UnitName(u: IntervalUnit): string
  {
    match u
    case Seconds => "seconds"
    case Minutes => "minutes"
    case Hours => "hours"
    case Days => "days"
  }

  /** The pattern `^(seconds|minutes|hours|days)$`, matched against the
      whole text. */
  function ParseUnit(s: string): (r: Option<IntervalUnit>)
  {
    if s == "seconds" then Some(Seconds)
    else if s == "minutes" then Some(Minutes)
    else if s == "hours" then Some(Hours)
    else if s == "days" then Some(Days)
    else None
  }

  /** Exactly the four names are accepted, and each reads back as its unit. */
  lemma UnitRoundTrip(u: IntervalUnit, s: string)
    ensures ParseUnit(UnitName(u)) == Some(u)
    ensures ParseUnit(s).Some? ==> UnitName(ParseUnit(s).value) == s
    ensures ParseUnit(s).Some? <==> s in {"seconds", "minutes", "hours", "days"}
  {
  }

  /** A reason a request is refused. */
  datatype FieldError = NameLength | PathLength | IntervalBelowOne | UnknownUnit

  datatype Validated<T> = Accepted(value: T) | Refused(errors: seq<FieldError>)

  /** A create request as it arrives: a field left out is `None`. */
  datatype CreateRequest = CreateRequest(
    name: string,
    path: string,
    description: Option<string>,
    repeatEnabled: Option<bool>,
    intervalValue: Option<int>,
    intervalUnit: Option<string>,
    weekdays: Option<seq<int>>,
    scheduledStartEnabled: Option<bool>,
    scheduledStartAt: Option<Timestamp>)

  /** `ScriptCreate` once validated, defaults filled in. */
  datatype ScriptCreate = ScriptCreate(
    name: string,
    path: string,
    description: Option<string>,
    repeatEnabled: bool,
    intervalValue: Option<int>,
    intervalUnit: Option<IntervalUnit>,
    weekdays: Option<seq<int>>,
    scheduledStartEnabled: bool,
    scheduledStartAt: Option<Timestamp>)

  predicate NameOk(name: string) { 1 <= |name| <= NameMaxLength }
  predicate PathOk(path: string) { 1 <= |path| <= PathMaxLength }
  predicate IntervalOk(v: Option<int>) { v.Some? ==> v.value >= 1 }
  predicate UnitOk(u: Option<string>) { u.Some? ==> ParseUnit(u.value).Some? }

  function DefaultFalse(b: Option<bool>): bool
  {
    if b.Some? then b.value else false
  }

  /** The violated constraints of a create request, in field order. */
  function CreateErrors(r: CreateRequest): seq<FieldError>
  {
    (if NameOk(r.name) then [] else [NameLength])
    + (if PathOk(r.path) then [] else [PathLength])
    + (if IntervalOk(r.intervalValue) then [] else [IntervalBelowOne])
    + (if UnitOk(r.intervalUnit) then [] else [UnknownUnit])
  }

  /** `ScriptCreate` validation. A request is accepted iff the name has
      1..255 characters, the path 1..1024, a given interval is at least 1
      and a given unit is one of the four names; the flags default to false
      and the other optional fields to absent. Weekday entries are taken as
      they are, with no range check. */
  function ValidateCreate(r: CreateRequest): (v: Validated<ScriptCreate>)
    ensures v.Accepted? <==>
      NameOk(r.name) && PathOk(r.path) && IntervalOk(r.intervalValue) && UnitOk(r.intervalUnit)
    ensures v.Refused? ==> |v.errors| > 0
    ensures v.Refused? ==>
      (NameLength in v.errors <==> !NameOk(r.name)) && (PathLength in v.errors <==> !PathOk(r.path))
      && (IntervalBelowOne in v.errors <==> !IntervalOk(r.intervalValue))
      && (UnknownUnit in v.errors <==> !UnitOk(r.intervalUnit))
    ensures v.Accepted? ==>
      && v.value.name == r.name && v.value.path == r.path && v.value.description == r.description
      && v.value.repeatEnabled == (r.repeatEnabled == Some(true))
      && v.value.scheduledStartEnabled == (r.scheduledStartEnabled == Some(true))
      && v.value.intervalValue == r.intervalValue && v.value.weekdays == r.weekdays
      && v.value.scheduledStartAt == r.scheduledStartAt
      && (v.value.intervalUnit.Some? <==> r.intervalUnit.Some?)
      && (v.value.intervalUnit.Some? ==> UnitName(v.value.intervalUnit.value) == r.intervalUnit.value)
  {
    var errors := CreateErrors(r);
    if |errors| > 0 then Refused(errors)
    else
      Accepted(ScriptCreate(
        r.name, r.path, r.description, DefaultFalse(r.repeatEnabled),
        r.intervalValue,
        if r.intervalUnit.Some? then ParseUnit(r.intervalUnit.value) else None,
        r.weekdays, DefaultFalse(r.scheduledStartEnabled), r.scheduledStartAt))
  }

  /** A field of an update request: left out, or given (possibly as null). */
  datatype Patch<T> = Keep | Put(value: T)

  /** `ScriptUpdate`: every field optional; `is_active` can be set only
      here. A given null is kept as `Put(None)`. */
  datatype UpdateRequest = UpdateRequest(
    name: Patch<Option<string>>,
    path: Patch<Option<string>>,
    description: Patch<Option<string>>,
    isActive: Patch<Option<bool>>,
    repeatEnabled: Patch<Option<bool>>,
    intervalValue: Patch<Option<int>>,
    intervalUnit: Patch<Option<string>>,
    weekdays: Patch<Option<seq<int>>>,
    scheduledStartEnabled: Patch<Option<bool>>,
    scheduledStartAt: Patch<Option<Timestamp>>)

  /** A validated update: the unit is parsed. */
  datatype ScriptUpdate = ScriptUpdate(
    name: Patch<Option<string>>,
    path: Patch<Option<string>>,
    description: Patch<Option<string>>,
    isActive: Patch<Option<bool>>,
    repeatEnabled: Patch<Option<bool>>,
    intervalValue: Patch<Option<int>>,
    intervalUnit: Patch<Option<IntervalUnit>>,
    weekdays: Patch<Option<seq<int>>>,
    scheduledStartEnabled: Patch<Option<bool>>,
    scheduledStartAt: Patch<Option<Timestamp>>)

  /** A given, non-null value satisfies `ok`. */
  predicate PutOk<T>(p: Patch<Option<T>>, ok: T -> bool)
  {
    p.Put? && p.value.Some? ==> ok(p.value.value)
  }

  function UpdateErrors(r: UpdateRequest): seq<FieldError>
  {
    (if PutOk(r.name, NameOk) then [] else [NameLength])
    + (if PutOk(r.path, PathOk) then [] else [PathLength])
    + (if PutOk(r.intervalValue, (v: int) => v >= 1) then [] else [IntervalBelowOne])
    + (if PutOk(r.intervalUnit, (u: string) => ParseUnit(u).Some?) then [] else [UnknownUnit])
  }

  /** `ScriptUpdate` validation: the same bounds as on create, checked only
      on the fields given with a value; a left-out field stays left out. */
  function ValidateUpdate(r: UpdateRequest): (v: Validated<ScriptUpdate>)
    ensures v.Accepted? <==>
      && (r.name.Put? && r.name.value.Some? ==> NameOk(r.name.value.value))
      && (r.path.Put? && r.path.value.Some? ==> PathOk(r.path.value.value))
      && (r.intervalValue.Put? && r.intervalValue.value.Some? ==> r.intervalValue.value.value >= 1)
      && (r.intervalUnit.Put? && r.intervalUnit.value.Some? ==> ParseUnit(r.intervalUnit.value.value).Some?)
    ensures v.Refused? ==> |v.errors| > 0
    ensures v.Accepted? ==>
      && v.value.name == r.name && v.value.path == r.path && v.value.description == r.description
      && v.value.isActive == r.isActive && v.value.repeatEnabled == r.repeatEnabled
      && v.value.intervalValue == r.intervalValue && v.value.weekdays == r.weekdays
      && v.value.scheduledStartEnabled == r.scheduledStartEnabled
      && v.value.scheduledStartAt == r.scheduledStartAt
      && (v.value.intervalUnit.Keep? <==> r.intervalUnit.Keep?)
      && (r.intervalUnit.Put? ==>
            (v.value.intervalUnit.value.None? <==> r.intervalUnit.value.None?)
            && (r.intervalUnit.value.Some? ==>
                  UnitName(v.value.intervalUnit.value.value) == r.intervalUnit.value.value))
  {
    var errors := UpdateErrors(r);
    if |errors| > 0 then Refused(errors)
    else
      var unit :=
        match r.intervalUnit
        case Keep => Keep
        case Put(u) => Put(if u.Some? then ParseUnit(u.value) else None);
      Accepted(ScriptUpdate(
        r.name, r.path, r.description, r.isActive, r.repeatEnabled, r.intervalValue,
        unit, r.weekdays, r.scheduledStartEnabled, r.scheduledStartAt))
  }

  /** The weekday value `ScriptRead` is built from: the stored column (text
      or null) or a list already decoded. */
  datatype WeekdaysValue = Null | Text(json: WeekdaysJson) | List(days: seq<int>)

  /** `ScriptRead.parse_weekdays`: null gives none, text gives the decoded
      list or none when it does not decode, a list passes through. */
  function ParseWeekdays(v: WeekdaysValue): (r: Option<seq<int>>)
    ensures v.Null? ==> r.None?
    ensures v.Text? ==> (r.Some? <==> v.json.Encoded?) && (r.Some? ==> r.value == v.json.days)
    ensures v.List? ==> r == Some(v.days)
  {
    match v
    case Null => None
    case Text(Encoded(days)) => Some(days)
    case Text(Unparseable) => None
    case List(days) => Some(days)
  }

  /** The column value a weekday list is stored as: `json.dumps(days) if
      days else None`, so an empty list is stored as null. */
  function StoredWeekdays(days: Option<seq<int>>): Option<WeekdaysJson>
  {
    if days.Some? && |days.value| > 0 then Some(Encoded(days.value)) else None
  }

  /** Storing a weekday list and reading it back gives the list, except
      that an empty list comes back as none. */
  lemma WeekdaysReadBack(days: Option<seq<int>>)
    ensures var stored := StoredWeekdays(days);
      ParseWeekdays(if stored.Some? then Text(stored.value) else Null) ==
        if days.Some? && |days.value| > 0 then days else None
  {
  }
}
