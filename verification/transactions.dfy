/** Transactions (transaction/models.py, transaction/api.py): per-user
    payment records served inside the response envelope. The views
    `TransactionAPI.post` and `TransactionDetailAPI.put` are modelled twice:
    as written, and as evidently intended. */
module Transactions {
  import opened Wrappers
  import opened Json
  import opened Text
  import opened Rows
  import opened Sorting
  import opened Responses

  datatype PaymentStatus = PaymentPending | PaymentCompleted | PaymentFailed | PaymentCancelled

  function PaymentStatusChoice(s: PaymentStatus): string {
    match s
    case PaymentPending => "PENDING"
    case PaymentCompleted => "COMPLETED"
    case PaymentFailed => "FAILED"
    case PaymentCancelled => "CANCELLED"
  }

  function ParsePaymentStatus(t: string): (r: Option<PaymentStatus>)
    ensures r.Some? <==> t in {"PENDING", "COMPLETED", "FAILED", "CANCELLED"}
    ensures r.Some? ==> PaymentStatusChoice(r.value) == t
  {
    if t == "PENDING" then Some(PaymentPending)
    else if t == "COMPLETED" then Some(PaymentCompleted)
    else if t == "FAILED" then Some(PaymentFailed)
    else if t == "CANCELLED" then Some(PaymentCancelled)
    else None
  }

  /** Every stored payment status reads back as itself, and each code fits
      the 10-character column. */
  lemma PaymentStatusRoundTrip(s: PaymentStatus)
    ensures ParsePaymentStatus(PaymentStatusChoice(s)) == Some(s)
    ensures |PaymentStatusChoice(s)| <= 10
  {
  }

  const DefaultPaymentStatus := PaymentPending

  /** A decimal with at most 10 digits, 2 of them after the point, counted
      in cents: the magnitude stays below 10^10 cents. */
  const AmountBound := 10_000_000_000

  /** One transaction. `id` is the integer value of the row's UUID (the
      URL converter passes an integer, which the UUID field reads as that
      value); `date` is the clock reading taken when the row is inserted;
      `amount` is in cents. */
  datatype Transaction = Transaction(
    id: nat, user: nat, amount: int, date: int, status: PaymentStatus, description: Option<string>)

  function TransactionId(t: Transaction): nat { t.id }

  predicate ValidTable(rows: seq<Transaction>) {
    && UniqueKeys(rows, TransactionId)
    && forall i :: 0 <= i < |rows| ==> -AmountBound < rows[i].amount < AmountBound
  }

  // Amounts as the serializer renders them

  /** The two-place decimal text of an amount in cents: "12.50", "-0.05". */
  function ShowCents(c: int): (s: string)
    ensures |s| >= 4 && s[|s| - 3] == '.'
    ensures (c < 0) <==> s[0] == '-'
  {
    var m := if c < 0 then -c else c;
    (if c < 0 then "-" else "") + ShowNat(m / 100) + "." + [DigitChar(m % 100 / 10), DigitChar(m % 10)]
  }

  /** Reads "[-]digits.dd" back as cents; `None` for any other text. */
  function ParseCents(s: string): (r: Option<int>)
  {
    var negative := |s| > 0 && s[0] == '-';
    var body := if negative then s[1..] else s;
    if |body| >= 4 && body[|body| - 3] == '.' && AllDigits(body[|body| - 2..]) then
      match ParseNat(body[..|body| - 3])
      case None => None
      case Some(whole) =>
        var m := whole * 100 + DigitsValue(body[|body| - 2..]);
        Some(if negative then -m else m)
    else None
  }

  /** The rendered amount reads back as the amount. */
  lemma ParseShowCents(c: int)
    ensures ParseCents(ShowCents(c)) == Some(c)
  {
    var m := if c < 0 then -c else c;
    var s := ShowCents(c);
    var body := if c < 0 then s[1..] else s;
    var tail := [DigitChar(m % 100 / 10), DigitChar(m % 10)];
    assert body == ShowNat(m / 100) + "." + tail;
    assert body[..|body| - 3] == ShowNat(m / 100);
    assert body[|body| - 2..] == tail;
    ParseShowNat(m / 100);
    CentsDigitsValue(m);
  }

  /** The two rendered decimal places read back as the cents below one
      unit. */
  lemma CentsDigitsValue(m: nat)
    ensures DigitsValue([DigitChar(m % 100 / 10), DigitChar(m % 10)]) == m % 100
  {
    var tail := [DigitChar(m % 100 / 10), DigitChar(m % 10)];
    assert tail[..1] == [DigitChar(m % 100 / 10)];
    assert tail[..1][..0] == [];
    assert DigitsValue(tail[..1]) == m % 100 / 10;
  }

  // Serialization and listing

  /** The serialized transaction: every model field. The UUID and datetime
      renderings are not modelled; they appear as numbers. */
  function Serialize(t: Transaction): (j: Json)
    ensures j.JObj? && j.fields.Keys == {"id", "user", "amount", "date", "payment_status", "description"}
    ensures j.fields["amount"].JStr? && ParseCents(j.fields["amount"].s) == Some(t.amount)
    ensures j.fields["user"] == JNum(t.user)
    ensures j.fields["payment_status"].JStr? && ParsePaymentStatus(j.fields["payment_status"].s) == Some(t.status)
    ensures ReadTransaction(j) == Some(t)
  {
    ParseShowCents(t.amount);
    PaymentStatusRoundTrip(t.status);
    JObj(map[
      "id" := JNum(t.id),
      "user" := JNum(t.user),
      "amount" := JStr(ShowCents(t.amount)),
      "date" := JNum(t.date),
      "payment_status" := JStr(PaymentStatusChoice(t.status)),
      "description" := NullableText(t.description)
    ])
  }

  /** A serialized transaction read back: every field from its key, the
      amount and payment status parsed from their text; `None` when a key
      is missing or a value has the wrong shape. */
  function ReadTransaction(j: Json): Option<Transaction> {
    if !j.JObj? then None
    else
      var f := j.fields;
      if !("id" in f && "user" in f && "amount" in f && "date" in f && "payment_status" in f && "description" in f)
      then None
      else if !(f["id"].JNum? && f["id"].n >= 0 && f["user"].JNum? && f["user"].n >= 0 && f["date"].JNum?
                && f["amount"].JStr? && f["payment_status"].JStr?)
      then None
      else
        match (ParseCents(f["amount"].s), ParsePaymentStatus(f["payment_status"].s), ReadNullableText(f["description"]))
        case (Some(amount), Some(status), Some(description)) =>
          Some(Transaction(f["id"].n, f["user"].n, amount, f["date"].n, status, description))
        case _ => None
  }

  /** The model's default ordering, `-date`. */
  predicate NewerFirst(a: Transaction, b: Transaction) {
    a.date >= b.date
  }

  lemma NewerFirstIsTotalPreorder()
    ensures TotalPreorder(NewerFirst)
  {
  }

  /** `Transaction.objects.filter(user=requester)` under the default
      ordering: the requester's transactions, newest first. */
  function Listed(rows: seq<Transaction>, requester: nat): (r: seq<Transaction>)
    ensures multiset(r) == multiset(Where(rows, (t: Transaction) => t.user == requester))
    ensures forall t :: t in r <==> t in rows && t.user == requester
    ensures forall i, j :: 0 <= i < j < |r| ==> r[i].date >= r[j].date
  {
    NewerFirstIsTotalPreorder();
    var owned := Where(rows, (t: Transaction) => t.user == requester);
    var r := SortBy(owned, NewerFirst);
    assert forall t :: t in r <==> t in multiset(owned);
    r
  }

  /** `TransactionAPI.get`: a 200 success envelope whose data is the list of
      the requester's transactions, newest first. */
  function ListTransactions(rows: seq<Transaction>, requester: nat): (r: Reply<Envelope>)
    ensures r.Reply? && r.code == 200 && r.body.status == "OK"
    ensures r.body.data == JArr(MapSeq(Listed(rows, requester), Serialize))
  {
    SuccessResponse(inputData := JArr(MapSeq(Listed(rows, requester), Serialize)), statusCode := Some(200))
  }

  // Lookups and the detail views

  function OwnedIndexOf(rows: seq<Transaction>, pk: nat, requester: nat): (r: Option<nat>)
    ensures r.Some? ==> r.value < |rows| && rows[r.value].id == pk && rows[r.value].user == requester
    ensures r.None? ==> forall i :: 0 <= i < |rows| ==> rows[i].id != pk || rows[i].user != requester
  {
    FirstWhere(rows, (t: Transaction) => t.id == pk && t.user == requester)
  }

  const NotFoundMessage := "Transaction not found"

  /** The 404 error envelope every detail view answers a missing or
      foreign id with. */
  function NotFound(): (r: Reply<Envelope>)
    ensures r.Reply? && r.code == 404 && r.body.status == "NOK"
    ensures r.body.message == JStr(NotFoundMessage)
  {
    ErrorResponse(msj := JStr(NotFoundMessage), statusCode := Some(404))
  }

  /** `TransactionDetailAPI.get`: the requester's transaction in a 200
      success envelope, or the 404 envelope. */
  function GetTransaction(rows: seq<Transaction>, requester: nat, pk: nat): (r: Reply<Envelope>)
    ensures r.Reply?
    ensures r.code == 404 <==> forall t :: t in rows ==> t.id != pk || t.user != requester
    ensures r.code == 404 ==> r == NotFound()
    ensures r.code != 404 ==>
      && r.code == 200 && r.body.status == "OK"
      && exists t :: t in rows && t.id == pk && t.user == requester && r.body.data == Serialize(t)
  {
    match OwnedIndexOf(rows, pk, requester)
    case None => NotFound()
    case Some(i) => SuccessResponse(inputData := Serialize(rows[i]), statusCode := Some(200))
  }

  /** `TransactionDetailAPI.delete`: removes the requester's transaction and
      answers with a success envelope sent as 204 (inside the 2xx/3xx band
      the envelope keeps); a missing or foreign id is the 404 envelope and
      removes nothing. */
  function DeleteTransaction(rows: seq<Transaction>, requester: nat, pk: nat): (r: Served<Envelope, seq<Transaction>>)
    requires ValidTable(rows)
    ensures ValidTable(r.state)
    ensures r.reply.Reply?
    ensures r.reply.code == 404 <==> forall t :: t in rows ==> t.id != pk || t.user != requester
    ensures r.reply.code == 404 ==> r.reply == NotFound() && r.state == rows
    ensures r.reply.code != 404 ==>
      && r.reply.code == 204 && r.reply.body.status == "OK"
      && |r.state| == |rows| - 1
      && forall t :: t in r.state <==> t in rows && t.id != pk
  {
    match OwnedIndexOf(rows, pk, requester)
    case None => Served(NotFound(), rows)
    case Some(i) =>
      RemoveAtByKey(rows, i, TransactionId);
      Served(SuccessResponse(statusCode := Some(204)), RemoveAt(rows, i))
  }

  // Request bodies

  /** The writable fields of a request body (`None` for an absent field;
      `description` may be present and null). `id`, `user` and `date` are
      read-only, so the serializer never reads them from a body. */
  datatype Draft = Draft(amount: Option<int>, paymentStatus: Option<string>, description: Option<Option<string>>)

  /** The serializer's error map: one entry per rejected field. On a full
      validation (`partial == false`) a missing amount is rejected too. */
  function DraftErrors(d: Draft, partial: bool): (e: map<string, Json>)
    ensures "amount" in e <==> (d.amount.None? && !partial) || (d.amount.Some? && !(-AmountBound < d.amount.value < AmountBound))
    ensures "payment_status" in e <==> d.paymentStatus.Some? && ParsePaymentStatus(d.paymentStatus.value).None?
    ensures e.Keys <= {"amount", "payment_status"}
  {
    var amount :=
      if d.amount.None? then (if partial then map[] else map["amount" := JArr([JStr("This field is required.")])])
      else if -AmountBound < d.amount.value < AmountBound then map[]
      else map["amount" := JArr([JStr("Ensure that there are no more than 10 digits in total.")])];
    var status :=
      if d.paymentStatus.Some? && ParsePaymentStatus(d.paymentStatus.value).None? then
        map["payment_status" := JArr([JStr("\"" + d.paymentStatus.value + "\" is not a valid choice.")])]
      else map[];
    amount + status
  }

  predicate Valid(d: Draft, partial: bool) {
    DraftErrors(d, partial) == map[]
  }

  /** The 400 error envelope of a rejected body: the error map travels as
      the envelope's `error_code`. */
  function Rejected(d: Draft, partial: bool): (r: Reply<Envelope>)
    ensures r.Reply? && r.code == 400 && r.body.status == "NOK"
    ensures r.body.data.JObj? && "error_code" in r.body.data.fields
    ensures r.body.data.fields["error_code"] == JObj(DraftErrors(d, partial))
  {
    ErrorResponse(errorCode := JObj(DraftErrors(d, partial)), statusCode := Some(400))
  }

  /** The fields a validated body sets on a transaction; absent fields keep
      their value. */
  function Apply(t: Transaction, d: Draft): (r: Transaction)
    ensures r.id == t.id && r.user == t.user && r.date == t.date
    ensures r.amount == d.amount.GetOr(t.amount)
    ensures d.paymentStatus.Some? && ParsePaymentStatus(d.paymentStatus.value).Some? ==>
      r.status == ParsePaymentStatus(d.paymentStatus.value).value
    ensures d.paymentStatus.None? ==> r.status == t.status
    ensures r.description == d.description.GetOr(t.description)
  {
    var status :=
      if d.paymentStatus.Some? && ParsePaymentStatus(d.paymentStatus.value).Some? then
        ParsePaymentStatus(d.paymentStatus.value).value
      else t.status;
    t.(amount := d.amount.GetOr(t.amount), status := status, description := d.description.GetOr(t.description))
  }

  // TransactionAPI.post

  /** `TransactionAPI.post` as written. It writes the requester into the
      body (which raises `AttributeError` when the body is an immutable
      form `QueryDict`), but `user` is read-only in the serializer, so the
      value is dropped and the validated row is saved without an owner:
      the non-null `user_id` column makes the insert raise
      `IntegrityError`. An invalid body is answered with 400. */
  function CreateTransactionAsWritten(rows: seq<Transaction>, requester: nat, bodyIsMutable: bool, d: Draft)
    : (r: Served<Envelope, seq<Transaction>>)
    ensures r.state == rows
    ensures !bodyIsMutable ==> r.reply == Unhandled("AttributeError")
    ensures bodyIsMutable && !Valid(d, false) ==> r.reply == Rejected(d, false)
    ensures bodyIsMutable && Valid(d, false) ==> r.reply == Unhandled("IntegrityError")
  {
    if !bodyIsMutable then Served(Unhandled("AttributeError"), rows)
    else if !Valid(d, false) then Served(Rejected(d, false), rows)
    else Served(Unhandled("IntegrityError"), rows)
  }

  /** As written, no request ever creates a transaction: the table is
      unchanged and the reply is never 201, whatever the body. A JSON body
      with a valid amount, the request that should succeed, ends in a 500. */
  lemma CreateAsWrittenNeverCreates(rows: seq<Transaction>, requester: nat, bodyIsMutable: bool, d: Draft)
    ensures CreateTransactionAsWritten(rows, requester, bodyIsMutable, d).state == rows
    ensures CreateTransactionAsWritten(rows, requester, bodyIsMutable, d).reply.StatusCode() != 201
    ensures CreateTransactionAsWritten(rows, requester, true, Draft(Some(1250), None, None)).reply.StatusCode() == 500
  {
    assert Valid(Draft(Some(1250), None, None), false);
  }

  /** `TransactionAPI.post` as evidently intended: a valid body becomes a
      new transaction of the requester (status PENDING unless given), dated
      `now`, under the fresh UUID `newId`, answered with a 201 success
      envelope carrying it; an invalid body is the 400 envelope. A UUID
      already in use makes the insert raise. */
  function CreateTransaction(rows: seq<Transaction>, requester: nat, newId: nat, now: int, d: Draft)
    : (r: Served<Envelope, seq<Transaction>>)
    requires ValidTable(rows)
    ensures ValidTable(r.state)
    ensures !Valid(d, false) ==> r.reply == Rejected(d, false) && r.state == rows
    ensures Valid(d, false) && (exists i :: 0 <= i < |rows| && rows[i].id == newId) ==>
      r.reply == Unhandled("IntegrityError") && r.state == rows
    ensures r.reply.Reply? && r.reply.code == 201 ==>
      && |r.state| == |rows| + 1 && r.state[..|rows|] == rows
      && var t := r.state[|rows|];
      && t.id == newId && t.user == requester && t.date == now
      && t.amount == d.amount.value
      && t.status == (if d.paymentStatus.None? then DefaultPaymentStatus
                      else ParsePaymentStatus(d.paymentStatus.value).value)
      && t.description == d.description.GetOr(None)
      && r.reply.body.status == "OK" && r.reply.body.data == Serialize(t)
    ensures Valid(d, false) && (forall i :: 0 <= i < |rows| ==> rows[i].id != newId) ==>
      r.reply.Reply? && r.reply.code == 201
  {
    if !Valid(d, false) then Served(Rejected(d, false), rows)
    else if exists i :: 0 <= i < |rows| && rows[i].id == newId then Served(Unhandled("IntegrityError"), rows)
    else
      var t := Apply(Transaction(newId, requester, 0, now, DefaultPaymentStatus, None), d);
      var rows' := rows + [t];
      AppendFreshKey(rows, t, TransactionId);
      assert rows'[..|rows|] == rows;
      Served(SuccessResponse(inputData := Serialize(t), statusCode := Some(201)), rows')
  }

  /** A created transaction is the requester's under the new id: the
      detail view returns exactly what the create stored and answered. */
  lemma CreatedTransactionIsFound(rows: seq<Transaction>, requester: nat, newId: nat, now: int, d: Draft)
    requires ValidTable(rows)
    requires Valid(d, false) && forall i :: 0 <= i < |rows| ==> rows[i].id != newId
    ensures var r := CreateTransaction(rows, requester, newId, now, d);
      && r.reply.Reply? && r.reply.code == 201
      && var found := GetTransaction(r.state, requester, newId);
      && found.Reply? && found.code == 200 && found.body.data == r.reply.body.data
  {
    var r := CreateTransaction(rows, requester, newId, now, d);
    var state := r.state;
    var k := OwnedIndexOf(state, newId, requester);
    assert state[|rows|].id == newId && state[|rows|].user == requester;
    assert state[..|rows|] == rows;
    assert k.Some? && k.value == |rows|;
  }

  // TransactionDetailAPI.put

  /** `TransactionDetailAPI.put` as written: a partial update of the
      requester's transaction. Missing or foreign: 404; invalid body: 400;
      both leave the table alone. A valid body is saved, and only then is
      the success envelope built with a `status=` keyword its constructor
      does not take: the `TypeError` escapes after the row has changed. */
  function UpdateTransactionAsWritten(rows: seq<Transaction>, requester: nat, pk: nat, d: Draft)
    : (r: Served<Envelope, seq<Transaction>>)
    requires ValidTable(rows)
    ensures ValidTable(r.state)
    ensures OwnedIndexOf(rows, pk, requester).None? ==> r.reply == NotFound() && r.state == rows
    ensures OwnedIndexOf(rows, pk, requester).Some? && !Valid(d, true) ==> r.reply == Rejected(d, true) && r.state == rows
    ensures OwnedIndexOf(rows, pk, requester).Some? && Valid(d, true) ==>
      && var i := OwnedIndexOf(rows, pk, requester).value;
      && r.reply == Unhandled("TypeError")
      && r.state == rows[i := Apply(rows[i], d)]
  {
    match OwnedIndexOf(rows, pk, requester)
    case None => Served(NotFound(), rows)
    case Some(i) =>
      if !Valid(d, true) then Served(Rejected(d, true), rows)
      else
        var rows' := rows[i := Apply(rows[i], d)];
        assert forall j :: 0 <= j < |rows| ==> rows'[j].id == rows[j].id;
        Served(Unhandled("TypeError"), rows')
  }

  /** As written, a valid update that changes the amount reports a server
      error to the client although the change was stored. */
  lemma UpdateAsWrittenFailsAfterSaving(rows: seq<Transaction>, requester: nat, pk: nat, d: Draft)
    requires ValidTable(rows)
    requires OwnedIndexOf(rows, pk, requester).Some? && Valid(d, true)
    requires d.amount.Some? && d.amount.value != rows[OwnedIndexOf(rows, pk, requester).value].amount
    ensures var r := UpdateTransactionAsWritten(rows, requester, pk, d);
      r.reply.StatusCode() == 500 && r.state != rows
  {
    var i := OwnedIndexOf(rows, pk, requester).value;
    var r := UpdateTransactionAsWritten(rows, requester, pk, d);
    assert r.state[i].amount != rows[i].amount;
  }

  /** `TransactionDetailAPI.put` as evidently intended: the same update,
      answered with a 200 success envelope carrying the updated row. */
  function UpdateTransaction(rows: seq<Transaction>, requester: nat, pk: nat, d: Draft)
    : (r: Served<Envelope, seq<Transaction>>)
    requires ValidTable(rows)
    ensures ValidTable(r.state)
    ensures r.reply.Reply?
    ensures r.reply.code == 404 <==> OwnedIndexOf(rows, pk, requester).None?
    ensures r.reply.code != 200 ==> r.state == rows
    ensures r.reply.code == 200 <==> OwnedIndexOf(rows, pk, requester).Some? && Valid(d, true)
    ensures r.reply.code == 200 ==>
      && var i := OwnedIndexOf(rows, pk, requester).value;
      && r.state == rows[i := Apply(rows[i], d)]
      && r.reply.body.status == "OK" && r.reply.body.data == Serialize(r.state[i])
  {
    match OwnedIndexOf(rows, pk, requester)
    case None => Served(NotFound(), rows)
    case Some(i) =>
      if !Valid(d, true) then Served(Rejected(d, true), rows)
      else
        var t := Apply(rows[i], d);
        var rows' := rows[i := t];
        assert forall j :: 0 <= j < |rows| ==> rows'[j].id == rows[j].id;
        Served(SuccessResponse(inputData := Serialize(t), statusCode := Some(200)), rows')
  }

  /** The intended update stores exactly what the as-written one stores;
      only the reply differs. */
  lemma UpdateAgreesOnState(rows: seq<Transaction>, requester: nat, pk: nat, d: Draft)
    requires ValidTable(rows)
    ensures UpdateTransaction(rows, requester, pk, d).state == UpdateTransactionAsWritten(rows, requester, pk, d).state
    ensures UpdateTransactionAsWritten(rows, requester, pk, d).reply.Unhandled? <==>
            UpdateTransaction(rows, requester, pk, d).reply.code == 200
  {
  }
}
