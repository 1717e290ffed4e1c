/**
  The audit-log document: the schema's constraints on a new entry (an
  enumerated, required event type; required details; a default source),
  and the instance method that masks sensitive fields of the details.
 */
module AuditLog {
  import opened Wrappers
  import opened JsValues

  /** The seven event categories the schema admits. */
  datatype EventType = Login | Logout | DataRead | DataWrite | ConfigChange | Error | System

  /** The stored spelling of an event type. */
  function Name(e: EventType): string {
    match e
    case Login => "LOGIN"
    case Logout => "LOGOUT"
    case DataRead => "DATA_READ"
    case DataWrite => "DATA_WRITE"
    case ConfigChange => "CONFIG_CHANGE"
    case Error => "ERROR"
    case System => "SYSTEM"
  }

  /** The schema's enum for `eventType`, written out. */
  const EventTypeNames: set<string> :=
    {"LOGIN", "LOGOUT", "DATA_READ", "DATA_WRITE", "CONFIG_CHANGE", "ERROR", "SYSTEM"}

  /** Reads a stored spelling back; exact and case-sensitive. */
  function ParseEventType(s: string): (r: Option<EventType>)
    ensures r.Some? <==> s in EventTypeNames
    ensures r.Some? ==> Name(r.value) == s
  {
    if s == "LOGIN" then Some(Login)
    else if s == "LOGOUT" then Some(Logout)
    else if s == "DATA_READ" then Some(DataRead)
    else if s == "DATA_WRITE" then Some(DataWrite)
    else if s == "CONFIG_CHANGE" then Some(ConfigChange)
    else if s == "ERROR" then Some(Error)
    else if s == "SYSTEM" then Some(System)
    else None
  }

  /** Parsing inverts naming. */
  lemma ParseName(e: EventType)
    ensures ParseEventType(Name(e)) == Some(e)
  {
  }

  /** `source` when the writer gives none. */
  const DefaultSource := "auth-service"

  /** The fields a writer hands to `create`, as JavaScript values
      (`Undefined` when omitted). */
  datatype AuditInput = AuditInput(
    userId: JsValue,
    eventType: JsValue,
    details: JsValue,
    source: JsValue,
    ipAddress: JsValue,
    requestId: JsValue)

  /** A stored audit entry. */
  datatype AuditEntry = AuditEntry(
    userId: JsValue,
    eventType: EventType,
    details: JsValue,
    source: JsValue,
    ipAddress: JsValue,
    requestId: JsValue)

  /** A schema path that failed validation. */
  datatype SchemaPath = EventTypePath | DetailsPath

  /** `undefined` or `null`: what a required mixed-type path rejects. */
  predicate Nullish(v: JsValue) {
    v.Undefined? || v.Null?
  }

  /** Whether a value reaches the enum check as the spelling `name`: the
      schema's string cast keeps a string as it is and replaces an object
      by its string `_id`. */
  predicate Denotes(v: JsValue, name: string) {
    v == Str(name) || (v.Obj? && "_id" in v.props && v.props["_id"] == Str(name))
  }

  /** Whether a value is accepted as an event type at all. */
  ghost predicate NamesEventType(v: JsValue) {
    exists e :: Denotes(v, Name(e))
  }

  /** The event type a value stands for after the string cast, if any. A
      string is taken as it is and an object with a truthy string `_id` as
      that `_id`. Numbers and booleans cast to spellings outside the enum;
      arrays and other objects fail to cast; `undefined` and `null` fail
      the required check. */
  function EventTypeOf(v: JsValue): (r: Option<EventType>)
    ensures r.Some? ==> Denotes(v, Name(r.value))
    ensures forall e :: Denotes(v, Name(e)) ==> r == Some(e)
  {
    match v
    case Str(s) => ParseEventType(s)
    case Obj(props) =>
      if "_id" in props && props["_id"].Str? && props["_id"].s != "" then ParseEventType(props["_id"].s) else None
    case _ => None
  }

  /** Document creation: validation against the schema, then the stored
      entry with defaults applied. Validation reports every failing path
      at once. */
  function Create(input: AuditInput): (r: Result<AuditEntry, set<SchemaPath>>)
    ensures r.Ok? <==> NamesEventType(input.eventType) && !Nullish(input.details)
    ensures r.Err? ==> r.error != {}
    ensures r.Err? ==> (EventTypePath in r.error <==> !NamesEventType(input.eventType))
    ensures r.Err? ==> (DetailsPath in r.error <==> Nullish(input.details))
    ensures r.Ok? ==> Denotes(input.eventType, Name(r.value.eventType))
    ensures r.Ok? ==> r.value.details == input.details && r.value.userId == input.userId
    ensures r.Ok? ==> r.value.ipAddress == input.ipAddress && r.value.requestId == input.requestId
    ensures r.Ok? ==> (input.source.Undefined? ==> r.value.source == Str(DefaultSource))
    ensures r.Ok? ==> (!input.source.Undefined? ==> r.value.source == input.source)
  {
    var kind := EventTypeOf(input.eventType);
    var errors := (if kind.None? then {EventTypePath} else {}) + (if Nullish(input.details) then {DetailsPath} else {});
    if errors != {} then Err(errors)
    else
      var source := if input.source.Undefined? then Str(DefaultSource) else input.source;
      Ok(AuditEntry(input.userId, kind.value, input.details, source, input.ipAddress, input.requestId))
  }

  /** A document passed as the event type is stored under its `_id`. */
  lemma EventTypeFromObjectId(details: JsValue)
    requires !Nullish(details)
    ensures var input := AuditInput(Undefined, Obj(map["_id" := Str("LOGIN")]), details, Undefined, Undefined, Undefined);
      Create(input) == Ok(AuditEntry(Undefined, Login, details, Str(DefaultSource), Undefined, Undefined))
  {
    var input := AuditInput(Undefined, Obj(map["_id" := Str("LOGIN")]), details, Undefined, Undefined, Undefined);
    assert Denotes(input.eventType, Name(Login));
  }

  /** The six schema properties the `record` static reads off its argument. */
  const RecordFields: set<string> := {"userId", "eventType", "details", "source", "ipAddress", "requestId"}

  /** The `record` static: it reads the six schema properties off its
      argument object and creates a document from them. */
  function Record(arg: map<string, JsValue>): (r: Result<AuditEntry, set<SchemaPath>>)
    ensures r.Ok? <==> NamesEventType(GetProperty(arg, "eventType")) && !Nullish(GetProperty(arg, "details"))
    ensures r.Err? ==> (EventTypePath in r.error <==> !NamesEventType(GetProperty(arg, "eventType")))
    ensures r.Err? ==> (DetailsPath in r.error <==> Nullish(GetProperty(arg, "details")))
    ensures r.Ok? ==> Denotes(GetProperty(arg, "eventType"), Name(r.value.eventType))
    ensures r.Ok? ==> r.value.userId == GetProperty(arg, "userId") && r.value.details == GetProperty(arg, "details")
    ensures r.Ok? ==> r.value.ipAddress == GetProperty(arg, "ipAddress") && r.value.requestId == GetProperty(arg, "requestId")
    ensures r.Ok? ==> r.value.source == if "source" in arg && !arg["source"].Undefined? then arg["source"] else Str(DefaultSource)
  {
    Create(AuditInput(
      GetProperty(arg, "userId"), GetProperty(arg, "eventType"), GetProperty(arg, "details"),
      GetProperty(arg, "source"), GetProperty(arg, "ipAddress"), GetProperty(arg, "requestId")))
  }

  /** Properties of the argument other than the six schema fields never
      reach the document. */
  lemma RecordReadsOnlySchemaFields(arg1: map<string, JsValue>, arg2: map<string, JsValue>)
    requires forall k :: k in RecordFields ==> (k in arg1 <==> k in arg2)
    requires forall k :: k in RecordFields && k in arg1 ==> arg1[k] == arg2[k]
    ensures Record(arg1) == Record(arg2)
  {
    assert forall k :: k in RecordFields ==> GetProperty(arg1, k) == GetProperty(arg2, k);
  }

  /** The mask written over a sensitive value. */
  const Mask := "***"

  /** The masking loop on the details object as the source runs it: the
      truthiness test reads members inherited from `Object.prototype` too,
      so listing one of their names creates an own property holding the
      mask. */
  function MaskDetailsAsWritten(props: map<string, JsValue>, fields: seq<string>): (r: map<string, JsValue>)
    ensures forall k :: k in props ==> k in r && r[k] == if k in fields && Truthy(props[k]) then Str(Mask) else props[k]
    ensures r.Keys == props.Keys + (set f | f in fields && f !in props && f in ObjectPrototypeNames && f != "__proto__")
    ensures forall k :: k in r && k !in props ==> r[k] == Str(Mask)
    decreases |fields|
  {
    if |fields| == 0 then props
    else
      var f := fields[0];
      var once := if Truthy(GetProperty(props, f)) then AssignString(props, f, Mask) else props;
      var r := MaskDetailsAsWritten(once, fields[1..]);
      assert forall k :: k in fields[1..] ==> k in fields;
      assert forall k :: k in fields ==> k == f || k in fields[1..];
      r
  }

  /** The loop as evidently intended: only own, truthy properties of the
      details are masked, and no key is added. */
  function MaskDetails(props: map<string, JsValue>, fields: seq<string>): (r: map<string, JsValue>)
    ensures r.Keys == props.Keys
    ensures forall k :: k in props ==> r[k] == if k in fields && Truthy(props[k]) then Str(Mask) else props[k]
    decreases |fields|
  {
    if |fields| == 0 then props
    else
      var f := fields[0];
      var once := if f in props && Truthy(props[f]) then props[f := Str(Mask)] else props;
      var r := MaskDetails(once, fields[1..]);
      assert forall k :: k in fields[1..] ==> k in fields;
      assert forall k :: k in fields ==> k == f || k in fields[1..];
      r
  }

  /** The discrepancy: masking `toString` on empty details adds a key as
      written, and changes nothing as intended. */
  lemma MaskAsWrittenAddsInheritedKey()
    ensures MaskDetailsAsWritten(map[], ["toString"]) == map["toString" := Str(Mask)]
    ensures MaskDetails(map[], ["toString"]) == map[]
  {
    var empty: map<string, JsValue> := map[];
    var r := MaskDetailsAsWritten(empty, ["toString"]);
    assert "toString" in (set f | f in ["toString"] && f !in empty && f in ObjectPrototypeNames && f != "__proto__");
    assert r.Keys == {"toString"};
  }

  /** When no listed field names an `Object.prototype` member, the loop as
      written and as intended agree. */
  lemma MaskAsWrittenAgreesOffPrototype(props: map<string, JsValue>, fields: seq<string>)
    requires forall f :: f in fields ==> f !in ObjectPrototypeNames
    ensures MaskDetailsAsWritten(props, fields) == MaskDetails(props, fields)
  {
    var a := MaskDetailsAsWritten(props, fields);
    var b := MaskDetails(props, fields);
    assert (set f | f in fields && f !in props && f in ObjectPrototypeNames && f != "__proto__") == {};
    assert a.Keys == b.Keys;
  }

  /** Masking twice with the same list is masking once. */
  lemma MaskDetailsIdempotent(props: map<string, JsValue>, fields: seq<string>)
    ensures MaskDetails(MaskDetails(props, fields), fields) == MaskDetails(props, fields)
  {
    var once := MaskDetails(props, fields);
    var twice := MaskDetails(once, fields);
    assert twice.Keys == once.Keys;
    forall k | k in once ensures twice[k] == once[k] {
    }
  }

  /** Masking twice with the same list is masking once, for the loop as the
      source runs it as well: the first pass leaves every listed key either
      masked or falsy. */
  lemma MaskDetailsAsWrittenIdempotent(props: map<string, JsValue>, fields: seq<string>)
    ensures MaskDetailsAsWritten(MaskDetailsAsWritten(props, fields), fields) == MaskDetailsAsWritten(props, fields)
  {
    var once := MaskDetailsAsWritten(props, fields);
    var twice := MaskDetailsAsWritten(once, fields);
    assert twice.Keys == once.Keys;
    forall k | k in once ensures twice[k] == once[k] {
    }
  }

  /** With the default empty list nothing changes. */
  lemma MaskDetailsEmptyList(props: map<string, JsValue>)
    ensures MaskDetails(props, []) == props
    ensures MaskDetailsAsWritten(props, []) == props
  {
  }

  /** The `maskSensitive` instance method: masks the details in place and
      returns the same document. On object details it runs the loop as
      written, so inherited member names can be added. Property writes on
      primitive details are silently dropped; property reads on `null` or
      `undefined` details throw. */
  function MaskSensitive(entry: AuditEntry, fields: seq<string>): (r: Result<AuditEntry, TypeError>)
    requires !entry.details.Arr? && !entry.details.Inherited?
    ensures r.Err? <==> Nullish(entry.details) && |fields| > 0
    ensures r.Ok? ==> r.value.(details := entry.details) == entry
    ensures r.Ok? && entry.details.Obj? ==>
      r.value.details.Obj? &&
      r.value.details.props.Keys == entry.details.props.Keys +
        (set f | f in fields && f !in entry.details.props && f in ObjectPrototypeNames && f != "__proto__")
    ensures r.Ok? && entry.details.Obj? ==>
      forall k :: k in entry.details.props ==>
        r.value.details.props[k] == if k in fields && Truthy(entry.details.props[k]) then Str(Mask) else entry.details.props[k]
    ensures r.Ok? && entry.details.Obj? ==>
      forall k :: k in r.value.details.props && k !in entry.details.props ==> r.value.details.props[k] == Str(Mask)
    ensures r.Ok? && !entry.details.Obj? ==> r.value == entry
  {
    match entry.details
    case Obj(props) => Ok(entry.(details := Obj(MaskDetailsAsWritten(props, fields))))
    case Undefined =>
      if |fields| == 0 then Ok(entry) else Err(TypeError("Cannot read properties of undefined"))
    case Null =>
      if |fields| == 0 then Ok(entry) else Err(TypeError("Cannot read properties of null"))
    case _ => Ok(entry)
  }

  /** When no listed field names an `Object.prototype` member, the method
      masks exactly as intended: own truthy fields, no key added. */
  lemma MaskSensitiveOffPrototype(entry: AuditEntry, fields: seq<string>)
    requires entry.details.Obj?
    requires forall f :: f in fields ==> f !in ObjectPrototypeNames
    ensures MaskSensitive(entry, fields) == Ok(entry.(details := Obj(MaskDetails(entry.details.props, fields))))
  {
    MaskAsWrittenAgreesOffPrototype(entry.details.props, fields);
  }

  /** Calling the method twice with the same list is calling it once. */
  lemma MaskSensitiveIdempotent(entry: AuditEntry, fields: seq<string>)
    requires !entry.details.Arr? && !entry.details.Inherited?
    requires MaskSensitive(entry, fields).Ok?
    ensures MaskSensitive(MaskSensitive(entry, fields).value, fields) == MaskSensitive(entry, fields)
  {
    if entry.details.Obj? {
      MaskDetailsAsWrittenIdempotent(entry.details.props, fields);
    }
  }

  /** Called with the default empty list, the method returns the document
      untouched, whatever its details. */
  lemma MaskSensitiveEmptyList(entry: AuditEntry)
    requires !entry.details.Arr? && !entry.details.Inherited?
    ensures MaskSensitive(entry, []) == Ok(entry)
  {
  }
}
