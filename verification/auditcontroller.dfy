/**
  The audit controller: building the query filter and page window for a
  listing, fetching and deleting one entry by id, and recording a new entry
  behind a shared service token. The database is an abstract map from
  entry id to entry.
 */
module AuditController {
  import opened Wrappers
  import opened JsValues
  import opened AuditLog

  /** The listing's query parameters. `page` and `limit` are the numbers
      the query strings denote, `None` when absent. */
  datatype Query = Query(
    page: Option<int>,
    limit: Option<int>,
    eventType: JsValue,
    userId: JsValue,
    dateFrom: JsValue,
    dateTo: JsValue)

  /** A date built from a query value; its calendar meaning is not modelled. */
  datatype Date = DateOf(input: JsValue)

  /** The `timestamp` condition: `$gte` and `$lte` bounds, each optional. */
  datatype TimeRange = TimeRange(gte: Option<Date>, lte: Option<Date>)

  /** The filter object handed to the database; `None` marks an absent key. */
  datatype Filter = Filter(eventType: Option<JsValue>, userId: Option<JsValue>, timestamp: Option<TimeRange>)

  /** Everything a listing decides before it asks the database: the filter,
      how many matches to skip, and the page and limit echoed back. */
  datatype Listing = Listing(filter: Filter, skip: int, page: int, limit: int)

  const DefaultPage := 1
  const DefaultLimit := 50

  /** The filter keys a query produces: a key appears exactly when its
      query value is truthy, and then carries that value. */
  function BuildFilter(q: Query): (f: Filter)
    ensures f.eventType.Some? <==> Truthy(q.eventType)
    ensures f.eventType.Some? ==> f.eventType.value == q.eventType
    ensures f.userId.Some? <==> Truthy(q.userId)
    ensures f.userId.Some? ==> f.userId.value == q.userId
    ensures f.timestamp.Some? <==> Truthy(q.dateFrom) || Truthy(q.dateTo)
    ensures f.timestamp.Some? ==> (f.timestamp.value.gte.Some? <==> Truthy(q.dateFrom))
    ensures f.timestamp.Some? ==> (f.timestamp.value.lte.Some? <==> Truthy(q.dateTo))
    ensures f.timestamp.Some? && f.timestamp.value.gte.Some? ==> f.timestamp.value.gte.value == DateOf(q.dateFrom)
    ensures f.timestamp.Some? && f.timestamp.value.lte.Some? ==> f.timestamp.value.lte.value == DateOf(q.dateTo)
  {
    var range :=
      if Truthy(q.dateFrom) || Truthy(q.dateTo) then
        Some(TimeRange(
          if Truthy(q.dateFrom) then Some(DateOf(q.dateFrom)) else None,
          if Truthy(q.dateTo) then Some(DateOf(q.dateTo)) else None))
      else None;
    Filter(
      if Truthy(q.eventType) then Some(q.eventType) else None,
      if Truthy(q.userId) then Some(q.userId) else None,
      range)
  }

  /** `listLogs` up to the database call. */
  function ListLogs(q: Query): (l: Listing)
    ensures l.filter == BuildFilter(q)
    ensures l.page == (if q.page.Some? then q.page.value else DefaultPage)
    ensures l.limit == (if q.limit.Some? then q.limit.value else DefaultLimit)
    ensures l.skip == (l.page - 1) * l.limit
  {
    var page := if q.page.Some? then q.page.value else DefaultPage;
    var limit := if q.limit.Some? then q.limit.value else DefaultLimit;
    Listing(BuildFilter(q), (page - 1) * limit, page, limit)
  }

  /** A query with no parameters lists everything from the start, fifty at
      a time. */
  lemma EmptyQueryListsFirstPage()
    ensures ListLogs(Query(None, None, Undefined, Undefined, Undefined, Undefined)) ==
      Listing(Filter(None, None, None), 0, 1, 50)
  {
  }

  /** Consecutive pages are adjacent windows: page p + 1 starts exactly
      where page p ends, and only pages from 1 on start at or after the
      first match (a positive limit assumed). */
  lemma PagesTile(q: Query, p: int, limit: int)
    requires limit > 0
    ensures var a := ListLogs(q.(page := Some(p), limit := Some(limit)));
            var b := ListLogs(q.(page := Some(p + 1), limit := Some(limit)));
            b.skip == a.skip + a.limit && (a.skip >= 0 <==> p >= 1)
  {
    var a := ListLogs(q.(page := Some(p), limit := Some(limit)));
    if p < 1 {
      assert (p - 1) * limit < 0 by {
        assert p - 1 < 0;
      }
    }
  }

  /** The database: entries by id. */
  type Db = map<string, AuditEntry>

  /** The responses the three single-entry handlers give. */
  datatype Reply =
    | Found(entry: AuditEntry)
    | Deleted
    | NotFound
    | Created(entry: AuditEntry)
    | BadServiceToken
    | Invalid(paths: set<SchemaPath>)

  /** The HTTP status of a reply. An invalid entry is passed to the error
      handler, which answers with 500 since validation errors carry no
      status of their own. */
  function Status(r: Reply): int {
    match r
    case Found(_) => 200
    case Deleted => 200
    case NotFound => 404
    case Created(_) => 201
    case BadServiceToken => 401
    case Invalid(_) => 500
  }

  /** `getLogById`. */
  function GetLogById(db: Db, id: string): (r: Reply)
    ensures r == NotFound <==> id !in db
    ensures r != NotFound ==> r == Found(db[id])
    ensures Status(r) == (if id in db then 200 else 404)
  {
    if id in db then Found(db[id]) else NotFound
  }

  /** `deleteLog`: removes the entry with `id`, and only that one. */
  function DeleteLog(db: Db, id: string): (res: (Db, Reply))
    ensures res.1 == NotFound <==> id !in db
    ensures res.1 != NotFound ==> res.1 == Deleted
    ensures id !in res.0
    ensures res.0.Keys == db.Keys - {id}
    ensures forall k :: k in res.0 ==> res.0[k] == db[k]
    ensures id !in db ==> res.0 == db
  {
    if id in db then (db - {id}, Deleted) else (db, NotFound)
  }

  /** After a deletion the entry is gone, and deleting it again is a 404
      that changes nothing. */
  lemma DeleteThenGetOrDelete(db: Db, id: string)
    ensures GetLogById(DeleteLog(db, id).0, id) == NotFound
    ensures DeleteLog(DeleteLog(db, id).0, id) == (DeleteLog(db, id).0, NotFound)
  {
  }

  /** The service-token comparison as the source performs it: a strict
      inequality between the header and the configured token, which finds
      two absent values equal, so with no token configured a request without
      the header passes. */
  function ServiceTokenAcceptedAsWritten(header: Option<string>, configured: Option<string>): (b: bool)
    ensures configured.None? ==> (b <==> header.None?)
    ensures configured.Some? ==> (b <==> header == configured)
  {
    header == configured
  }

  /** The comparison as evidently intended: a configured token is required
      and the header must carry it. */
  function ServiceTokenAccepted(header: Option<string>, configured: Option<string>): (b: bool)
    ensures b ==> header.Some?
    ensures b <==> configured.Some? && header == configured
  {
    configured.Some? && header == configured
  }

  /** The discrepancy: with no token configured, a request without the
      header is admitted as written and refused as intended; with a token
      configured the two agree. */
  lemma UnconfiguredServiceTokenAdmitsAnyone(header: Option<string>, configured: Option<string>)
    ensures ServiceTokenAcceptedAsWritten(None, None) && !ServiceTokenAccepted(None, None)
    ensures configured.Some? ==>
      ServiceTokenAcceptedAsWritten(header, configured) == ServiceTokenAccepted(header, configured)
  {
  }

  /** The fields `recordLog` takes from the body: `userId`, `eventType`
      and `details` only, each `undefined` when the body lacks it;
      everything else takes the schema's default. */
  function RecordInput(body: map<string, JsValue>): (input: AuditInput)
    ensures input.userId == (if "userId" in body then body["userId"] else Undefined)
    ensures input.eventType == (if "eventType" in body then body["eventType"] else Undefined)
    ensures input.details == (if "details" in body then body["details"] else Undefined)
    ensures input.source.Undefined? && input.ipAddress.Undefined? && input.requestId.Undefined?
  {
    AuditInput(
      GetProperty(body, "userId"), GetProperty(body, "eventType"), GetProperty(body, "details"),
      Undefined, Undefined, Undefined)
  }

  /** `recordLog`: the service-token gate as written, then document
      creation under a fresh id. */
  function RecordLog(db: Db, header: Option<string>, configured: Option<string>,
                     body: map<string, JsValue>, newId: string): (res: (Db, Reply))
    requires newId !in db
    ensures res.1 == BadServiceToken <==> !ServiceTokenAcceptedAsWritten(header, configured)
    ensures res.1.BadServiceToken? || res.1.Invalid? ==> res.0 == db
    ensures res.1.Created? ==> res.0 == db[newId := res.1.entry] && newId in res.0 && |res.0| == |db| + 1
    ensures res.1.Created? ==>
      && Some(res.1.entry.details) == (if "details" in body then Some(body["details"]) else None)
      && "eventType" in body && Denotes(body["eventType"], Name(res.1.entry.eventType))
      && res.1.entry.userId == (if "userId" in body then body["userId"] else Undefined)
      && res.1.entry.source == Str(DefaultSource)
      && res.1.entry.ipAddress == Undefined && res.1.entry.requestId == Undefined
    ensures ServiceTokenAcceptedAsWritten(header, configured) && Create(RecordInput(body)).Err? ==>
      res == (db, Invalid(Create(RecordInput(body)).error))
    ensures (ServiceTokenAcceptedAsWritten(header, configured) &&
             !("eventType" in body && NamesEventType(body["eventType"]) && "details" in body && !Nullish(body["details"]))) ==>
      res.0 == db && res.1.Invalid?
    ensures ServiceTokenAcceptedAsWritten(header, configured) ==>
      (res.1.Created? <==>
         ("eventType" in body && NamesEventType(body["eventType"]) &&
          "details" in body && !Nullish(body["details"])))
  {
    if !ServiceTokenAcceptedAsWritten(header, configured) then (db, BadServiceToken)
    else
      match Create(RecordInput(body))
      case Ok(entry) => (db[newId := entry], Created(entry))
      case Err(paths) => (db, Invalid(paths))
  }

  /** The discrepancy end to end: with no service token configured, a
      well-formed write that carries no token header is stored, where the
      corrected gate refuses it. */
  lemma UnconfiguredServiceStoresAnonymousWrite(db: Db, body: map<string, JsValue>, newId: string)
    requires newId !in db
    requires "eventType" in body && body["eventType"] == Str("LOGIN")
    requires "details" in body && !Nullish(body["details"])
    ensures RecordLog(db, None, None, body, newId).1.Created?
    ensures newId in RecordLog(db, None, None, body, newId).0
    ensures !ServiceTokenAccepted(None, None)
  {
    assert Denotes(body["eventType"], Name(Login));
  }

  /** Only `userId`, `eventType` and `details` of the body matter. */
  lemma RecordIgnoresOtherBodyFields(
    db: Db, header: Option<string>, configured: Option<string>,
    body1: map<string, JsValue>, body2: map<string, JsValue>, newId: string)
    requires newId !in db
    requires forall k :: k in {"userId", "eventType", "details"} ==>
      GetProperty(body1, k) == GetProperty(body2, k)
    ensures RecordLog(db, header, configured, body1, newId) == RecordLog(db, header, configured, body2, newId)
  {
    assert RecordInput(body1) == RecordInput(body2);
  }

  /** A recorded entry can be fetched back under its id. */
  lemma RecordThenGet(db: Db, header: Option<string>, configured: Option<string>,
                      body: map<string, JsValue>, newId: string)
    requires newId !in db
    ensures var (db', reply) := RecordLog(db, header, configured, body, newId);
      reply.Created? ==> GetLogById(db', newId) == Found(reply.entry)
  {
  }
}
