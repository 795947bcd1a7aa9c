/** The log read API (logger/api.py): `RequestLogAPI.get` filters by exact
    method and status code, searches path and error message, orders by a
    whitelisted field, and returns one page in a success envelope;
    `RequestLogDetailAPI.get` returns one record. */
module LogQuery {
  import opened Wrappers
  import opened Json
  import opened Text
  import opened Rows
  import opened Sorting
  import opened Responses
  import opened RequestLogs

  /** `CustomPagination`. */
  const DefaultPageSize: nat := 100
  const MaxPageSize: nat := 1000

  /** The query string of a list request. `searchTerms` and `orderingTerms`
      are the `search` and `ordering` parameters already split into terms
      (the framework's splitting rules are not modelled); an absent
      parameter is an empty list. */
  datatype QueryParams = QueryParams(
    httpMethod: Option<string>,
    statusCode: Option<string>,
    searchTerms: seq<string>,
    orderingTerms: seq<string>,
    page: Option<string>,
    pageSize: Option<string>)

  // Filtering and search

  /** A filter parameter that is absent or empty does not filter. */
  predicate Unset(p: Option<string>) {
    p.None? || p.value == ""
  }

  /** The status-code filter value, when it is set and is a number. */
  function StatusFilterValue(q: QueryParams): Option<int> {
    if Unset(q.statusCode) then None else ParseInt(q.statusCode.value)
  }

  /** The filter set rejects a set status-code value that is not a number. */
  predicate FiltersInvalid(q: QueryParams) {
    !Unset(q.statusCode) && ParseInt(q.statusCode.value).None?
  }

  /** The exact-match filters: `method` and `status_code`, nothing else. */
  predicate MatchesFilters(q: QueryParams, r: RequestLog) {
    && (Unset(q.httpMethod) || r.httpMethod == q.httpMethod.value)
    && (StatusFilterValue(q).None? || r.statusCode == StatusFilterValue(q).value)
  }

  /** One search term matches when it occurs, ignoring case, in the path or
      in the (non-null) error message. */
  predicate TermMatches(term: string, r: RequestLog) {
    IContains(r.path, term) || (r.errorMessage.Some? && IContains(r.errorMessage.value, term))
  }

  /** Every search term must match. */
  predicate MatchesSearch(terms: seq<string>, r: RequestLog) {
    forall i :: 0 <= i < |terms| ==> TermMatches(terms[i], r)
  }

  predicate Matches(q: QueryParams, r: RequestLog) {
    MatchesFilters(q, r) && MatchesSearch(q.searchTerms, r)
  }

  /** The filtered and searched rows, in table order. */
  function Matching(rows: seq<RequestLog>, q: QueryParams): (r: seq<RequestLog>)
    ensures forall x :: x in r <==> x in rows && Matches(q, x)
    ensures forall x :: multiset(r)[x] == if Matches(q, x) then multiset(rows)[x] else 0
  {
    Where(rows, x => Matches(q, x))
  }

  /** Search looks only at the path and the error message: two records
      that agree on those match the same search terms. */
  lemma SearchSeesOnlyPathAndError(terms: seq<string>, a: RequestLog, b: RequestLog)
    requires a.path == b.path && a.errorMessage == b.errorMessage
    ensures MatchesSearch(terms, a) <==> MatchesSearch(terms, b)
  {
  }

  /** The exact filters look only at the method and the status code. */
  lemma FiltersSeeOnlyMethodAndStatus(q: QueryParams, a: RequestLog, b: RequestLog)
    requires a.httpMethod == b.httpMethod && a.statusCode == b.statusCode
    ensures MatchesFilters(q, a) <==> MatchesFilters(q, b)
  {
  }

  /** With no filter and no search term every row matches. */
  lemma NoParametersMatchAll(rows: seq<RequestLog>, q: QueryParams)
    requires Unset(q.httpMethod) && Unset(q.statusCode) && q.searchTerms == []
    ensures Matching(rows, q) == rows
  {
    WhereKeepsAll(rows, x => Matches(q, x));
  }

  lemma {:induction false} WhereKeepsAll<T(!new)>(rows: seq<T>, keep: T -> bool)
    requires forall x :: keep(x)
    ensures Where(rows, keep) == rows
    decreases |rows|
  {
    if |rows| > 0 {
      WhereKeepsAll(rows[1..], keep);
      assert rows == [rows[0]] + rows[1..];
    }
  }

  // Ordering

  datatype LogField = Timestamp | Duration | StatusCode

  /** One ordering term: a field, ascending or descending. */
  datatype OrderKey = OrderKey(field: LogField, descending: bool)

  /** The ordering a term asks for: one of the whitelisted field names,
      optionally preceded by '-'; anything else is dropped. */
  function ParseOrderTerm(t: string): (r: Option<OrderKey>)
    ensures r.Some? ==> t == FieldName(r.value.field) || t == "-" + FieldName(r.value.field)
    ensures r.Some? ==> (r.value.descending <==> |t| > 0 && t[0] == '-')
    ensures forall f :: t == FieldName(f) ==> r == Some(OrderKey(f, false))
    ensures forall f :: t == "-" + FieldName(f) ==> r == Some(OrderKey(f, true))
  {
    var desc := |t| > 0 && t[0] == '-';
    var name := if desc then t[1..] else t;
    var field :=
      if name == "timestamp" then Some(Timestamp)
      else if name == "duration" then Some(Duration)
      else if name == "status_code" then Some(StatusCode)
      else None;
    match field
    case Some(f) => Some(OrderKey(f, desc))
    case None => None
  }

  function FieldName(f: LogField): (s: string)
    ensures |s| > 0 && s[0] != '-'
  {
    match f
    case Timestamp => "timestamp"
    case Duration => "duration"
    case StatusCode => "status_code"
  }

  /** The whitelisted terms, in the order given. */
  function ValidKeys(terms: seq<string>): (keys: seq<OrderKey>)
    ensures |keys| <= |terms|
    ensures forall k :: k in keys ==> exists i :: 0 <= i < |terms| && ParseOrderTerm(terms[i]) == Some(k)
    decreases |terms|
  {
    if |terms| == 0 then []
    else
      var rest := ValidKeys(terms[1..]);
      assert forall k :: k in rest ==> exists i :: 1 <= i < |terms| && ParseOrderTerm(terms[i]) == Some(k) by {
        forall k | k in rest
          ensures exists i :: 1 <= i < |terms| && ParseOrderTerm(terms[i]) == Some(k)
        {
          var i :| 0 <= i < |terms[1..]| && ParseOrderTerm(terms[1..][i]) == Some(k);
          assert terms[i + 1] == terms[1..][i];
        }
      }
      match ParseOrderTerm(terms[0])
      case Some(k) => [k] + rest
      case None => rest
  }

  /** Every accepted term contributes its key, so the keys are empty
      exactly when no term is accepted. */
  lemma {:induction false} ValidKeysComplete(terms: seq<string>)
    ensures forall i :: 0 <= i < |terms| && ParseOrderTerm(terms[i]).Some? ==>
      ParseOrderTerm(terms[i]).value in ValidKeys(terms)
    ensures ValidKeys(terms) == [] <==> forall i :: 0 <= i < |terms| ==> ParseOrderTerm(terms[i]).None?
    decreases |terms|
  {
    if |terms| > 0 {
      ValidKeysComplete(terms[1..]);
      forall i | 1 <= i < |terms|
        ensures terms[i] == terms[1..][i - 1]
      {
      }
    }
  }

  /** The keys keep the order of the terms: the keys of a concatenation
      are the keys of its parts, one after the other. */
  lemma {:induction false} ValidKeysAppend(a: seq<string>, b: seq<string>)
    ensures ValidKeys(a + b) == ValidKeys(a) + ValidKeys(b)
    decreases |a|
  {
    if |a| == 0 {
      assert a + b == b;
    } else {
      assert (a + b)[0] == a[0];
      assert (a + b)[1..] == a[1..] + b;
      ValidKeysAppend(a[1..], b);
    }
  }

  /** A lone whitelisted term is the whole ordering. */
  lemma OrderingHonoursField(f: LogField, descending: bool)
    ensures EffectiveOrdering([if descending then "-" + FieldName(f) else FieldName(f)]) == [OrderKey(f, descending)]
  {
    var t := if descending then "-" + FieldName(f) else FieldName(f);
    assert ParseOrderTerm(t) == Some(OrderKey(f, descending));
    assert [t][1..] == [];
  }

  const DefaultOrdering: seq<OrderKey> := [OrderKey(Timestamp, true)]

  /** The ordering applied: the whitelisted terms, or newest first when
      none of the terms is on the whitelist. */
  function EffectiveOrdering(terms: seq<string>): (keys: seq<OrderKey>)
    ensures |keys| > 0
    ensures ValidKeys(terms) == [] ==> keys == DefaultOrdering
    ensures ValidKeys(terms) != [] ==> keys == ValidKeys(terms)
  {
    var keys := ValidKeys(terms);
    if keys == [] then DefaultOrdering else keys
  }

  /** The value a record is sorted on for one key; descending order sorts
      on the negated value. */
  function KeyValue(k: OrderKey, r: RequestLog): real {
    var v := match k.field
      case Timestamp => r.timestamp as real
      case Duration => r.duration
      case StatusCode => r.statusCode as real;
    if k.descending then -v else v
  }

  /** `a` may come before `b` under the keys: the first key on which they
      differ puts `a` first, or they agree on every key. */
  predicate Before(keys: seq<OrderKey>, a: RequestLog, b: RequestLog)
    decreases |keys|
  {
    if |keys| == 0 then true
    else if KeyValue(keys[0], a) < KeyValue(keys[0], b) then true
    else if KeyValue(keys[0], b) < KeyValue(keys[0], a) then false
    else Before(keys[1..], a, b)
  }

  lemma {:induction false} BeforeTotal(keys: seq<OrderKey>, a: RequestLog, b: RequestLog)
    ensures Before(keys, a, b) || Before(keys, b, a)
    decreases |keys|
  {
    if |keys| > 0 {
      BeforeTotal(keys[1..], a, b);
    }
  }

  lemma {:induction false} BeforeTransitive(keys: seq<OrderKey>, a: RequestLog, b: RequestLog, c: RequestLog)
    requires Before(keys, a, b) && Before(keys, b, c)
    ensures Before(keys, a, c)
    decreases |keys|
  {
    if |keys| > 0 {
      var k := keys[0];
      if KeyValue(k, a) == KeyValue(k, b) == KeyValue(k, c) {
        BeforeTransitive(keys[1..], a, b, c);
      }
    }
  }

  /** Every key list orders records by a total preorder. */
  lemma BeforeIsTotalPreorder(keys: seq<OrderKey>)
    ensures TotalPreorder((a, b) => Before(keys, a, b))
  {
    forall a, b
      ensures Before(keys, a, b) || Before(keys, b, a)
    {
      BeforeTotal(keys, a, b);
    }
    forall a, b, c | Before(keys, a, b) && Before(keys, b, c)
      ensures Before(keys, a, c)
    {
      BeforeTransitive(keys, a, b, c);
    }
  }

  /** The rows ordered by the keys. Rows equal on every key come in one
      fixed order here; the database may order them differently on each
      query, since the view adds no unique tie-breaker. */
  function OrderBy(rows: seq<RequestLog>, keys: seq<OrderKey>): (r: seq<RequestLog>)
    ensures multiset(r) == multiset(rows)
    ensures forall i, j :: 0 <= i < j < |r| ==> Before(keys, r[i], r[j])
  {
    BeforeIsTotalPreorder(keys);
    SortBy(rows, (a, b) => Before(keys, a, b))
  }

  /** Under the default ordering the newest record comes first. */
  lemma DefaultOrderingIsNewestFirst(rows: seq<RequestLog>)
    ensures var r := OrderBy(rows, DefaultOrdering);
      forall i, j :: 0 <= i < j < |r| ==> r[i].timestamp >= r[j].timestamp
  {
  }

  // Pagination

  /** The page size: the `page_size` parameter when it is a positive number,
      capped at 1000; 100 when it is absent, not a number, or not positive. */
  function EffectivePageSize(p: Option<string>): (r: nat)
    ensures 1 <= r <= MaxPageSize
    ensures p.None? ==> r == DefaultPageSize
    ensures p.Some? && ParseInt(p.value).Some? && ParseInt(p.value).value >= 1 ==>
      r == if ParseInt(p.value).value < MaxPageSize then ParseInt(p.value).value else MaxPageSize
    ensures p.Some? && (ParseInt(p.value).None? || ParseInt(p.value).value < 1) ==> r == DefaultPageSize
  {
    match p
    case None => DefaultPageSize
    case Some(s) =>
      match ParseInt(s)
      case Some(n) => if n < 1 then DefaultPageSize else if n < MaxPageSize then n else MaxPageSize
      case None => DefaultPageSize
  }

  /** The number of pages; an empty result still has one (empty) page. */
  function NumPages(count: nat, size: nat): (r: nat)
    requires size >= 1
    ensures r >= 1
    ensures (r - 1) * size < count || (count == 0 && r == 1)
    ensures count <= r * size
  {
    var hits := if count == 0 then 1 else count;
    (hits + size - 1) / size
  }

  const InvalidPageMessage := "Invalid page."

  /** The page asked for: page 1 when absent or empty (the framework reads
      the parameter with `or 1`), the last page for "last", otherwise a
      number between 1 and the number of pages; anything else is an invalid
      page. */
  function PageNumber(p: Option<string>, numPages: nat): (r: Result<nat>)
    requires numPages >= 1
    ensures r.Ok? ==> 1 <= r.value <= numPages
    ensures p.None? || p == Some("") ==> r == Ok(1)
    ensures p == Some("last") ==> r == Ok(numPages)
    ensures r.Err? ==> r.error == InvalidPageMessage
    ensures p.Some? && p.value != "last" && p.value != "" ==>
      (r.Ok? <==> ParseInt(p.value).Some? && 1 <= ParseInt(p.value).value <= numPages)
    ensures p.Some? && p.value != "last" && p.value != "" && r.Ok? ==> r.value == ParseInt(p.value).value
  {
    match p
    case None => Ok(1)
    case Some(s) =>
      if s == "" then Ok(1)
      else if s == "last" then Ok(numPages)
      else
        match ParseInt(s)
        case Some(n) => if 1 <= n <= numPages then Ok(n) else Err(InvalidPageMessage)
        case None => Err(InvalidPageMessage)
  }

  /** Page `n` of `s` at `size` records per page. */
  function PageSlice<T>(s: seq<T>, size: nat, n: nat): (r: seq<T>)
    requires size >= 1 && 1 <= n
    ensures |r| <= size
  {
    var lo := (n - 1) * size;
    var hi := if n * size < |s| then n * size else |s|;
    if lo <= hi then s[lo..hi] else []
  }

  /** Pages 1 to k, one after the other. */
  function PagesUpTo<T>(s: seq<T>, size: nat, k: nat): seq<T>
    requires size >= 1
    decreases k
  {
    if k == 0 then [] else PagesUpTo(s, size, k - 1) + PageSlice(s, size, k)
  }

  lemma {:induction false} PagesUpToIsPrefix<T>(s: seq<T>, size: nat, k: nat)
    requires size >= 1
    ensures PagesUpTo(s, size, k) == s[..if k * size < |s| then k * size else |s|]
    decreases k
  {
    if k > 0 {
      PagesUpToIsPrefix(s, size, k - 1);
      var lo := (k - 1) * size;
      var hi := if k * size < |s| then k * size else |s|;
      if lo <= hi {
        assert s[..lo] + s[lo..hi] == s[..hi];
      }
    }
  }

  /** Pagination is complete and without duplicates: for one fixed ordered
      result (one table, one order of rows equal on every key), reading
      every page in turn gives it back exactly once. Separate page requests
      re-run the query, so this holds across them only when those agree. */
  lemma AllPagesCoverResult<T>(s: seq<T>, size: nat)
    requires size >= 1
    ensures PagesUpTo(s, size, NumPages(|s|, size)) == s
  {
    PagesUpToIsPrefix(s, size, NumPages(|s|, size));
  }

  // The list view

  /** The message of the framework's validation error for a status-code
      filter that is not a number. */
  const InvalidStatusMessage := "{'status_code': [ErrorDetail(string='Enter a number.', code='invalid')]}"

  /** One page of a list query: its records, the number of the page, the
      number of pages and the total number of matching records. */
  datatype Page = Page(records: seq<RequestLog>, number: nat, numPages: nat, count: nat)

  /** Filter, search, order and paginate; fails with the exception text of
      an invalid filter or page. */
  function Query(rows: seq<RequestLog>, q: QueryParams): (r: Result<Page>)
    ensures r.Err? <==> FiltersInvalid(q) || PageNumber(q.page, NumPages(|Matching(rows, q)|, EffectivePageSize(q.pageSize))).Err?
    ensures r.Err? && FiltersInvalid(q) ==> r.error == InvalidStatusMessage
    ensures r.Err? && !FiltersInvalid(q) ==> r.error == InvalidPageMessage
    ensures r.Ok? ==> var ordered := OrderBy(Matching(rows, q), EffectiveOrdering(q.orderingTerms));
      && var size := EffectivePageSize(q.pageSize);
      && r.value.count == |Matching(rows, q)|
      && r.value.numPages == NumPages(|Matching(rows, q)|, size)
      && r.value.number == PageNumber(q.page, r.value.numPages).value
      && 1 <= r.value.number <= r.value.numPages
      && |r.value.records| <= EffectivePageSize(q.pageSize)
      && r.value.records == PageSlice(ordered, EffectivePageSize(q.pageSize), r.value.number)
      && (forall x :: x in r.value.records ==> x in rows && Matches(q, x))
  {
    if FiltersInvalid(q) then Err(InvalidStatusMessage)
    else
      var matching := Matching(rows, q);
      var ordered := OrderBy(matching, EffectiveOrdering(q.orderingTerms));
      var size := EffectivePageSize(q.pageSize);
      var pages := NumPages(|matching|, size);
      match PageNumber(q.page, pages)
      case Err(e) => Err(e)
      case Ok(n) =>
        var records := PageSlice(ordered, size, n);
        assert forall x :: x in records ==> x in multiset(ordered);
        Ok(Page(records, n, pages, |matching|))
  }

  /** `?page=k` serves page k whenever k is one of the pages: its number is
      k and its records are the k-th slice of the ordered result. */
  lemma RequestedPageIsServed(rows: seq<RequestLog>, q: QueryParams, k: nat)
    requires !FiltersInvalid(q)
    requires q.page == Some(ShowNat(k))
    requires 1 <= k <= NumPages(|Matching(rows, q)|, EffectivePageSize(q.pageSize))
    ensures Query(rows, q).Ok?
    ensures Query(rows, q).value.number == k
    ensures Query(rows, q).value.records ==
      PageSlice(OrderBy(Matching(rows, q), EffectiveOrdering(q.orderingTerms)), EffectivePageSize(q.pageSize), k)
  {
    ParseShowInt(k);
    var s := ShowNat(k);
    assert s == ShowInt(k);
    assert s != "last" by {
      assert IsDigit(s[0]);
    }
  }

  /** The pagination block of the envelope. The next and previous links are
      represented by the page number they point to. */
  function PaginationMeta(p: Page): (j: Json)
    ensures j.JObj? && j.fields.Keys == {"count", "next", "previous"}
    ensures j.fields["count"] == JNum(p.count)
    ensures j.fields["next"] == JNull <==> p.number >= p.numPages
    ensures j.fields["previous"] == JNull <==> p.number <= 1
  {
    JObj(map[
      "count" := JNum(p.count),
      "next" := if p.number < p.numPages then JNum(p.number + 1) else JNull,
      "previous" := if p.number > 1 then JNum(p.number - 1) else JNull
    ])
  }

  /** The envelope for a query result: 200 with the serialized page and
      its pagination block, or 400 `NOK` with the exception text. */
  function PageResponse(res: Result<Page>): (r: Reply<Envelope>)
    ensures r.Reply?
    ensures res.Err? ==> r.code == 400 && r.body.status == "NOK" && r.body.message == JStr(res.error)
    ensures res.Ok? ==>
      && r.code == 200 && r.body.status == "OK"
      && r.body.data == JArr(MapSeq(res.value.records, Serialize))
      && r.body.options == PaginationMeta(res.value)
  {
    match res
    case Err(e) => ErrorResponse(msj := JStr(e), statusCode := Some(400))
    case Ok(page) =>
      SuccessResponse(inputData := JArr(MapSeq(page.records, Serialize)), statusCode := Some(200),
                      inputOptions := PaginationMeta(page))
  }

  /** `RequestLogAPI.get`: a 200 envelope holding the serialized page and
      its pagination block (whose `count`, by `Query`, is the number of all
      matching records), or a 400 `NOK` envelope whose message is the
      exception text. */
  function ListLogs(rows: seq<RequestLog>, q: QueryParams): (r: Reply<Envelope>)
    ensures r.Reply?
    ensures r.code == 400 <==> Query(rows, q).Err?
    ensures r.code == 400 ==> r.body.status == "NOK" && r.body.message == JStr(Query(rows, q).error)
    ensures r.code != 400 ==>
      && r.code == 200 && r.body.status == "OK"
      && r.body.data == JArr(MapSeq(Query(rows, q).value.records, Serialize))
      && r.body.options == PaginationMeta(Query(rows, q).value)
  {
    PageResponse(Query(rows, q))
  }

  /** `RequestLogDetailAPI.get`: 200 with the serialized record, or 404
      "Log not found" when no record has that id. */
  function LogDetail(rows: seq<RequestLog>, id: int): (r: Reply<Envelope>)
    requires ValidTable(rows)
    ensures r.Reply?
    ensures r.code == 404 <==> forall i :: 0 <= i < |rows| ==> rows[i].id != id
    ensures r.code == 404 ==> r.body.status == "NOK" && r.body.message == JStr("Log not found")
    ensures r.code != 404 ==> r.code == 200 && exists i :: 0 <= i < |rows| && rows[i].id == id && r.body.data == Serialize(rows[i])
  {
    match Get(rows, id)
    case None => ErrorResponse(msj := JStr("Log not found"), statusCode := Some(404))
    case Some(log) => SuccessResponse(inputData := Serialize(log), statusCode := Some(200))
  }
}
