/** The `RequestLog` record (logger/models.py), its table, its display
    string and the field projection of `RequestLogSerializer`
    (logger/serializers.py). */
module RequestLogs {
  import opened Wrappers
  import opened Json
  import opened Text
  import opened Rows

  /** One observed request/response exchange. `timestamp` is the clock
      reading taken when the row is inserted; `duration` is an opaque
      measurement (float seconds in the source). The `Json` payloads use
      `JNull` for a null column. */
  datatype RequestLog = RequestLog(
    id: nat,
    timestamp: int,
    path: string,
    httpMethod: string,
    requestData: Json,
    responseData: Json,
    statusCode: int,
    duration: real,
    ipAddress: Option<string>,
    userAgent: Option<string>,
    errorMessage: Option<string>
  )

  const PathMaxLength := 255
  const MethodMaxLength := 10

  /** The column widths of the table: `path` at most 255 characters and
      `method` at most 10. */
  predicate FitsColumns(r: RequestLog) {
    |r.path| <= PathMaxLength && |r.httpMethod| <= MethodMaxLength
  }

  /** The table is create-only: rows sit in insertion order with ids
      1, 2, 3, ..., and every row fits its columns. */
  predicate ValidTable(rows: seq<RequestLog>) {
    && (forall i :: 0 <= i < |rows| ==> rows[i].id == i + 1)
    && (forall i :: 0 <= i < |rows| ==> FitsColumns(rows[i]))
  }

  /** `RequestLog.objects.create(...)`: the database assigns the next id and
      the creation timestamp `now` (which the caller cannot choose), then
      either appends the row or, when a value is wider than its column,
      raises `DataError`. */
  function Create(
    rows: seq<RequestLog>, now: int, path: string, httpMethod: string,
    requestData: Json, responseData: Json, statusCode: int, duration: real,
    ipAddress: Option<string>, userAgent: Option<string>, errorMessage: Option<string>
  ): (r: Result<seq<RequestLog>>)
    requires ValidTable(rows)
    ensures r.Ok? <==> |path| <= PathMaxLength && |httpMethod| <= MethodMaxLength
    ensures r.Ok? ==> ValidTable(r.value)
    ensures r.Ok? ==> |r.value| == |rows| + 1 && r.value[..|rows|] == rows
    ensures r.Ok? ==> var n := r.value[|rows|];
      && n.timestamp == now && n.path == path && n.httpMethod == httpMethod
      && n.requestData == requestData && n.responseData == responseData
      && n.statusCode == statusCode && n.duration == duration
      && n.ipAddress == ipAddress && n.userAgent == userAgent && n.errorMessage == errorMessage
  {
    var row := RequestLog(|rows| + 1, now, path, httpMethod, requestData, responseData,
                          statusCode, duration, ipAddress, userAgent, errorMessage);
    if FitsColumns(row) then Ok(rows + [row]) else Err("DataError")
  }

  /** `RequestLog.objects.get(id=...)`: the row with that id, if any. The
      lookup is by key, so it does not rely on the ids being dense. */
  function Get(rows: seq<RequestLog>, id: int): (r: Option<RequestLog>)
    ensures r.Some? <==> exists i :: 0 <= i < |rows| && rows[i].id == id
    ensures r.Some? ==> r.value in rows && r.value.id == id
  {
    match FirstWhere(rows, (row: RequestLog) => row.id == id)
    case Some(i) => Some(rows[i])
    case None => None
  }

  /** `str(log)`: "<method> <path> - <status_code>". */
  function Display(r: RequestLog): (s: string)
    ensures StartsWith(s, r.httpMethod + " " + r.path + " - ")
  {
    r.httpMethod + " " + r.path + " - " + ShowInt(r.statusCode)
  }

  /** The display string ends with the decimal status code, so the status
      code can be read back from it. */
  lemma DisplayEndsWithStatus(r: RequestLog)
    ensures var s := Display(r); var p := |r.httpMethod + " " + r.path + " - "|;
      p <= |s| && ParseInt(s[p..]) == Some(r.statusCode)
  {
    var s := Display(r);
    var p := |r.httpMethod + " " + r.path + " - "|;
    assert s[p..] == ShowInt(r.statusCode);
    ParseShowInt(r.statusCode);
  }

  /** The seven fields `RequestLogSerializer` exposes. */
  const SerializedFields: set<string> :=
    {"timestamp", "path", "method", "request_data", "response_data", "status_code", "error_message"}

  /** The serialized record: exactly the seven listed fields, each holding
      the record's value (the timestamp rendering is not modelled). */
  function Serialize(r: RequestLog): (j: Json)
    ensures j.JObj? && j.fields.Keys == SerializedFields
    ensures j.fields["path"] == JStr(r.path) && j.fields["method"] == JStr(r.httpMethod)
    ensures j.fields["status_code"] == JNum(r.statusCode)
    ensures j.fields["request_data"] == r.requestData && j.fields["response_data"] == r.responseData
    ensures j.fields["error_message"] == NullableText(r.errorMessage)
    ensures j.fields["timestamp"] == JNum(r.timestamp)
  {
    JObj(map[
      "timestamp" := JNum(r.timestamp),
      "path" := JStr(r.path),
      "method" := JStr(r.httpMethod),
      "request_data" := r.requestData,
      "response_data" := r.responseData,
      "status_code" := JNum(r.statusCode),
      "error_message" := NullableText(r.errorMessage)
    ])
  }

  /** The id, duration, client address and user agent are never exposed:
      records that differ only in those serialize identically, and no key
      of the output names them. */
  lemma SerializeHidesStorageFields(a: RequestLog, b: RequestLog)
    requires a.timestamp == b.timestamp && a.path == b.path && a.httpMethod == b.httpMethod
    requires a.requestData == b.requestData && a.responseData == b.responseData
    requires a.statusCode == b.statusCode && a.errorMessage == b.errorMessage
    ensures Serialize(a) == Serialize(b)
    ensures "id" !in Serialize(a).fields && "duration" !in Serialize(a).fields
    ensures "ip_address" !in Serialize(a).fields && "user_agent" !in Serialize(a).fields
  {
  }

  /** Serialization loses nothing it exposes: two records with the same
      serialized form agree on all seven exposed fields. */
  lemma SerializeInjectiveOnExposed(a: RequestLog, b: RequestLog)
    requires Serialize(a) == Serialize(b)
    ensures a.timestamp == b.timestamp && a.path == b.path && a.httpMethod == b.httpMethod
    ensures a.requestData == b.requestData && a.responseData == b.responseData
    ensures a.statusCode == b.statusCode && a.errorMessage == b.errorMessage
  {
    assert Serialize(a).fields["error_message"] == Serialize(b).fields["error_message"];
  }
}
