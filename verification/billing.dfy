/** Billing addresses (invoice/models.py, invoice/api.py): per-user
    addresses, read and created through `BillingAddressAPI`, whose every
    failure is mapped to an error envelope carrying a symbolic error code. */
module Billing {
  import opened Wrappers
  import opened Json
  import opened Text
  import opened Rows
  import opened Responses

  datatype BillingAddress = BillingAddress(
    id: nat, user: nat, line1: string, line2: Option<string>,
    city: string, state: string, postalCode: string, country: string, isDefault: bool)

  const Line1MaxLength := 255
  const Line2MaxLength := 255
  const CityMaxLength := 100
  const StateMaxLength := 100
  const PostalCodeMaxLength := 20
  const CountryMaxLength := 100

  function AddressId(a: BillingAddress): nat { a.id }

  predicate FitsColumns(a: BillingAddress) {
    && |a.line1| <= Line1MaxLength
    && (a.line2.Some? ==> |a.line2.value| <= Line2MaxLength)
    && |a.city| <= CityMaxLength && |a.state| <= StateMaxLength
    && |a.postalCode| <= PostalCodeMaxLength && |a.country| <= CountryMaxLength
  }

  predicate ValidTable(rows: seq<BillingAddress>) {
    && UniqueKeys(rows, AddressId)
    && forall i :: 0 <= i < |rows| ==> FitsColumns(rows[i])
  }

  /** `str(address)`: "<line 1>, <city>, <country>". */
  function Display(a: BillingAddress): (s: string)
    ensures |s| == |a.line1| + |a.city| + |a.country| + 4
    ensures s[..|a.line1|] == a.line1
    ensures s[|a.line1|..|a.line1| + 2] == ", "
    ensures s[|a.line1| + 2..|a.line1| + 2 + |a.city|] == a.city
    ensures s[|a.line1| + 2 + |a.city|..|s| - |a.country|] == ", "
    ensures s[|s| - |a.country|..] == a.country
  {
    a.line1 + ", " + a.city + ", " + a.country
  }

  /** The serialized address: every model field. */
  function Serialize(a: BillingAddress): (j: Json)
    ensures j.JObj? && j.fields.Keys ==
      {"id", "user", "address_line_1", "address_line_2", "city", "state", "postal_code", "country", "is_default"}
    ensures j.fields["user"] == JNum(a.user)
    ensures ReadAddress(j) == Some(a)
  {
    JObj(map[
      "id" := JNum(a.id),
      "user" := JNum(a.user),
      "address_line_1" := JStr(a.line1),
      "address_line_2" := NullableText(a.line2),
      "city" := JStr(a.city),
      "state" := JStr(a.state),
      "postal_code" := JStr(a.postalCode),
      "country" := JStr(a.country),
      "is_default" := JBool(a.isDefault)
    ])
  }

  /** A serialized address read back, every field from its key; `None`
      when a key is missing or a value has the wrong shape. */
  function ReadAddress(j: Json): Option<BillingAddress> {
    if !j.JObj? then None
    else
      var f := j.fields;
      if !("id" in f && "user" in f && "address_line_1" in f && "address_line_2" in f && "city" in f
           && "state" in f && "postal_code" in f && "country" in f && "is_default" in f)
      then None
      else if !(f["id"].JNum? && f["id"].n >= 0 && f["user"].JNum? && f["user"].n >= 0
                && f["address_line_1"].JStr? && f["city"].JStr? && f["state"].JStr?
                && f["postal_code"].JStr? && f["country"].JStr? && f["is_default"].JBool?)
      then None
      else
        match ReadNullableText(f["address_line_2"])
        case Some(line2) =>
          Some(BillingAddress(f["id"].n, f["user"].n, f["address_line_1"].s, line2, f["city"].s,
                              f["state"].s, f["postal_code"].s, f["country"].s, f["is_default"].b))
        case None => None
  }

  /** An exception the database layer may raise while a view runs:
      `ObjectDoesNotExist`, or any other, with its text. */
  datatype Fault = ObjectMissing | OtherFault(text: string)

  /** The error envelope for a symbolic error code. */
  function Failure(code: int, errorCode: string, message: string): (r: Reply<Envelope>)
    ensures r.Reply? && (InErrorBand(code) ==> r.code == code)
    ensures r.Reply? && r.body.status == "NOK" && r.body.message == JStr(message)
    ensures r.body.data == JObj(map["isAvailable" := JBool(false), "error_code" := JStr(errorCode)])
  {
    ErrorResponse(errorCode := JStr(errorCode), msj := JStr(message), statusCode := Some(code))
  }

  function UserNotFound(): Reply<Envelope> { Failure(401, "USER_NOT_FOUND", "User not found.") }
  function InternalError(): Reply<Envelope> { Failure(500, "INTERNAL_SERVER_ERROR", "An internal server error occurred.") }

  /** The requester's addresses, in table order. */
  function Owned(rows: seq<BillingAddress>, requester: nat): (r: seq<BillingAddress>)
    ensures forall a :: a in r <==> a in rows && a.user == requester
    ensures forall a :: multiset(r)[a] == if a.user == requester then multiset(rows)[a] else 0
  {
    Where(rows, (a: BillingAddress) => a.user == requester)
  }

  /** `BillingAddressAPI.get`. `requester` is `None` when the request's
      user is falsy; `fault` is an exception the query raises, if any.
      No user: 401 USER_NOT_FOUND. No address: 404
      NO_BILLING_ADDRESS_FOUND. Otherwise 200 with the requester's
      addresses under `data.data`. A raised `ObjectDoesNotExist` is 404
      OBJECT_NOT_FOUND, any other exception 500 INTERNAL_SERVER_ERROR. */
  function GetAddresses(rows: seq<BillingAddress>, requester: Option<nat>, fault: Option<Fault>): (r: Reply<Envelope>)
    ensures r.Reply?
    ensures requester.None? ==> r == UserNotFound()
    ensures requester.Some? && fault == Some(ObjectMissing) ==>
      r == Failure(404, "OBJECT_NOT_FOUND", "Billing address object not found.")
    ensures requester.Some? && fault.Some? && fault.value.OtherFault? ==> r == InternalError()
    ensures requester.Some? && fault.None? ==>
      && (r.code == 404 <==> forall a :: a in rows ==> a.user != requester.value)
      && (r.code == 404 ==> r == Failure(404, "NO_BILLING_ADDRESS_FOUND", "No billing address found for the user."))
      && (r.code != 404 ==>
            && r.code == 200 && r.body.status == "OK"
            && r.body.data == JObj(map["data" := JArr(MapSeq(Owned(rows, requester.value), Serialize))]))
  {
    match requester
    case None => UserNotFound()
    case Some(u) =>
      match fault
      case Some(ObjectMissing) => Failure(404, "OBJECT_NOT_FOUND", "Billing address object not found.")
      case Some(OtherFault(_)) => InternalError()
      case None =>
        var owned := Owned(rows, u);
        if |owned| == 0 then
          Failure(404, "NO_BILLING_ADDRESS_FOUND", "No billing address found for the user.")
        else
          assert owned[0] in rows;
          SuccessResponse(inputData := JObj(map["data" := JArr(MapSeq(owned, Serialize))]), statusCode := Some(200))
  }

  /** A successful listing shows the requester's addresses and no one
      else's: every listed item names the requester as its owner. */
  lemma ListedAddressesAreOwned(rows: seq<BillingAddress>, requester: nat)
    ensures var r := GetAddresses(rows, Some(requester), None);
      r.code == 200 ==>
        var items := r.body.data.fields["data"].items;
        forall j :: 0 <= j < |items| ==> items[j].JObj? && "user" in items[j].fields && items[j].fields["user"] == JNum(requester)
  {
    var owned := Owned(rows, requester);
    var items := MapSeq(owned, Serialize);
    forall j | 0 <= j < |items|
      ensures items[j].JObj? && "user" in items[j].fields && items[j].fields["user"] == JNum(requester)
    {
      assert owned[j] in owned;
    }
  }

  // BillingAddressAPI.post

  /** A request body, field by field (`None` for an absent field). `user`
      is whatever the client sent for it; `line2` may be present and null. */
  datatype Draft = Draft(
    user: Option<Json>, line1: Option<string>, line2: Option<Option<string>>,
    city: Option<string>, state: Option<string>, postalCode: Option<string>,
    country: Option<string>, isDefault: Option<bool>)

  /** The serializer's message for a required text field, if it rejects it. */
  function RequiredTextError(v: Option<string>, maxLength: nat): (e: Option<string>)
    ensures e.None? <==> v.Some? && v.value != "" && |v.value| <= maxLength
  {
    if v.None? then Some("This field is required.")
    else if v.value == "" then Some("This field may not be blank.")
    else if |v.value| > maxLength then Some("Ensure this field has no more than " + ShowNat(maxLength) + " characters.")
    else None
  }

  function FieldErrors(name: string, e: Option<string>): map<string, Json> {
    if e.Some? then map[name := JArr([JStr(e.value)])] else map[]
  }

  /** The serializer's error map: one entry per rejected field. The second
      address line may be absent, null or blank, but not too long. */
  function DraftErrors(d: Draft): (e: map<string, Json>)
    ensures e == map[] <==>
      && RequiredTextError(d.line1, Line1MaxLength).None?
      && (d.line2.None? || d.line2.value.None? || |d.line2.value.value| <= Line2MaxLength)
      && RequiredTextError(d.city, CityMaxLength).None?
      && RequiredTextError(d.state, StateMaxLength).None?
      && RequiredTextError(d.postalCode, PostalCodeMaxLength).None?
      && RequiredTextError(d.country, CountryMaxLength).None?
  {
    var line2 :=
      if d.line2.Some? && d.line2.value.Some? && |d.line2.value.value| > Line2MaxLength then
        Some("Ensure this field has no more than " + ShowNat(Line2MaxLength) + " characters.")
      else None;
    var e := FieldErrors("address_line_1", RequiredTextError(d.line1, Line1MaxLength))
      + FieldErrors("address_line_2", line2)
      + FieldErrors("city", RequiredTextError(d.city, CityMaxLength))
      + FieldErrors("state", RequiredTextError(d.state, StateMaxLength))
      + FieldErrors("postal_code", RequiredTextError(d.postalCode, PostalCodeMaxLength))
      + FieldErrors("country", RequiredTextError(d.country, CountryMaxLength));
    assert RequiredTextError(d.line1, Line1MaxLength).Some? ==> "address_line_1" in e;
    assert line2.Some? ==> "address_line_2" in e;
    assert RequiredTextError(d.city, CityMaxLength).Some? ==> "city" in e;
    assert RequiredTextError(d.state, StateMaxLength).Some? ==> "state" in e;
    assert RequiredTextError(d.postalCode, PostalCodeMaxLength).Some? ==> "postal_code" in e;
    assert RequiredTextError(d.country, CountryMaxLength).Some? ==> "country" in e;
    e
  }

  /** `BillingAddressAPI.post`. The requester's id overwrites any `user` the
      client sent before validation (writing into an immutable form body
      raises, which the view maps to 500). A valid body becomes a new
      address of the requester with a fresh id (not the default unless the
      body says so), answered with 201 and the address under `data.data`;
      an invalid one is 400 VALIDATION_ERROR with the error map as the
      message, nothing stored. */
  function PostAddress(rows: seq<BillingAddress>, requester: Option<nat>, bodyIsMutable: bool, d: Draft)
    : (r: Served<Envelope, seq<BillingAddress>>)
    requires ValidTable(rows)
    ensures ValidTable(r.state)
    ensures r.reply.Reply?
    ensures r.reply.code != 201 ==> r.state == rows
    ensures requester.None? ==> r.reply == UserNotFound()
    ensures requester.Some? && !bodyIsMutable ==> r.reply == InternalError()
    ensures requester.Some? && bodyIsMutable && DraftErrors(d) != map[] ==>
      r.reply == ErrorResponse(errorCode := JStr("VALIDATION_ERROR"), msj := JObj(DraftErrors(d)), statusCode := Some(400))
    ensures r.reply.code == 201 <==> requester.Some? && bodyIsMutable && DraftErrors(d) == map[]
    ensures r.reply.code == 201 ==>
      && |r.state| == |rows| + 1 && r.state[..|rows|] == rows
      && var a := r.state[|rows|];
      && a.user == requester.value
      && (forall i :: 0 <= i < |rows| ==> rows[i].id != a.id)
      && a.line1 == d.line1.value && a.line2 == d.line2.GetOr(None)
      && a.city == d.city.value && a.state == d.state.value
      && a.postalCode == d.postalCode.value && a.country == d.country.value
      && a.isDefault == d.isDefault.GetOr(false)
      && r.reply.body.data == JObj(map["data" := Serialize(a)])
  {
    match requester
    case None => Served(UserNotFound(), rows)
    case Some(u) =>
      if !bodyIsMutable then Served(InternalError(), rows)
      else if DraftErrors(d) != map[] then
        Served(ErrorResponse(errorCode := JStr("VALIDATION_ERROR"), msj := JObj(DraftErrors(d)), statusCode := Some(400)), rows)
      else
        var a := BillingAddress(NextKey(rows, AddressId), u, d.line1.value, d.line2.GetOr(None),
                                d.city.value, d.state.value, d.postalCode.value, d.country.value,
                                d.isDefault.GetOr(false));
        var rows' := rows + [a];
        assert FitsColumns(a);
        AppendFreshKey(rows, a, AddressId);
        assert rows'[..|rows|] == rows;
        assert forall i :: 0 <= i < |rows'| ==> FitsColumns(rows'[i]) by {
          assert forall i :: 0 <= i < |rows| ==> rows'[i] == rows[i];
        }
        Served(SuccessResponse(inputData := JObj(map["data" := Serialize(a)]), statusCode := Some(201)), rows')
  }

  /** A posted address is listed: after a 201 the list view of the same
      user answers 200 and carries the new address. */
  lemma PostedAddressIsListed(rows: seq<BillingAddress>, requester: nat, d: Draft)
    requires ValidTable(rows) && DraftErrors(d) == map[]
    ensures var r := PostAddress(rows, Some(requester), true, d);
      && r.reply.code == 201
      && var listed := GetAddresses(r.state, Some(requester), None);
      && listed.Reply? && listed.code == 200
      && listed.body.data.JObj? && "data" in listed.body.data.fields
      && listed.body.data.fields["data"].JArr?
      && Serialize(r.state[|rows|]) in listed.body.data.fields["data"].items
  {
    var r := PostAddress(rows, Some(requester), true, d);
    var a := r.state[|rows|];
    assert a in r.state && a.user == requester;
    OwnedAddressIsListed(r.state, requester, a);
  }

  /** The list view carries every address of the requester. */
  lemma OwnedAddressIsListed(rows: seq<BillingAddress>, requester: nat, a: BillingAddress)
    requires a in rows && a.user == requester
    ensures var listed := GetAddresses(rows, Some(requester), None);
      && listed.Reply? && listed.code == 200
      && listed.body.data.JObj? && "data" in listed.body.data.fields
      && listed.body.data.fields["data"].JArr?
      && Serialize(a) in listed.body.data.fields["data"].items
  {
    var owned := Owned(rows, requester);
    assert a in owned;
    var k :| 0 <= k < |owned| && owned[k] == a;
    assert MapSeq(owned, Serialize)[k] == Serialize(a);
  }

  /** The client cannot choose the owner: two bodies that differ only in
      their `user` field give the same reply and the same table. */
  lemma PostIgnoresClientUser(rows: seq<BillingAddress>, requester: Option<nat>, bodyIsMutable: bool, d: Draft, claimed: Option<Json>)
    requires ValidTable(rows)
    ensures PostAddress(rows, requester, bodyIsMutable, d.(user := claimed)) == PostAddress(rows, requester, bodyIsMutable, d)
  {
  }
}
