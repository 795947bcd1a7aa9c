/** Notifications (notification/models.py, notification/api.py): a store
    of per-user messages with a read flag. Every view but the list and the
    creation looks a notification up by id AND owner, so a notification of
    another user is as absent as a missing one. */
module Notifications {
  import opened Wrappers
  import opened Json
  import opened Text
  import opened Rows
  import opened Responses

  /** One notification. `createdAt` is the clock reading taken when the row
      is inserted. */
  datatype Notification = Notification(
    id: nat, user: nat, title: string, message: string, isRead: bool, createdAt: int)

  const TitleMaxLength := 255

  function NotificationId(n: Notification): nat { n.id }

  /** The notification table: unique ids, every title within its column. */
  predicate ValidTable(rows: seq<Notification>) {
    && UniqueKeys(rows, NotificationId)
    && forall i :: 0 <= i < |rows| ==> |rows[i].title| <= TitleMaxLength
  }

  /** What the notification views put in a reply body. */
  datatype NotificationBody =
    | Items(items: seq<Notification>)
    | Item(item: Notification)
    | MarkedAsRead
    | ValidationFailed
    | Empty

  /** The writable fields of a request body (`None` for an absent field).
      `user` is read-only and `id` and `created_at` are set by the
      database, so a body cannot carry them. */
  datatype Draft = Draft(title: Option<string>, message: Option<string>, isRead: Option<bool>)

  /** Serializer validation: title and message are required and not blank,
      the title fits its column; the read flag is optional. */
  predicate ValidDraft(d: Draft) {
    && d.title.Some? && d.title.value != "" && |d.title.value| <= TitleMaxLength
    && d.message.Some? && d.message.value != ""
  }

  /** `Notification.objects.get(pk=pk, user=requester)`. */
  function OwnedIndexOf(rows: seq<Notification>, pk: nat, requester: nat): (r: Option<nat>)
    ensures r.Some? ==> r.value < |rows| && rows[r.value].id == pk && rows[r.value].user == requester
    ensures r.None? ==> forall i :: 0 <= i < |rows| ==> rows[i].id != pk || rows[i].user != requester
  {
    FirstWhere(rows, (n: Notification) => n.id == pk && n.user == requester)
  }

  /** `NotificationListCreate.get`: exactly the requester's notifications. */
  function ListNotifications(rows: seq<Notification>, requester: nat): (r: Reply<NotificationBody>)
    ensures r.Reply? && r.code == 200 && r.body.Items?
    ensures forall n :: n in r.body.items <==> n in rows && n.user == requester
    ensures forall n :: multiset(r.body.items)[n] == if n.user == requester then multiset(rows)[n] else 0
  {
    Reply(200, Items(Where(rows, (n: Notification) => n.user == requester)))
  }

  /** `NotificationListCreate.post`: a valid body becomes a new unread (unless
      the body says otherwise) notification of the requester, created at
      `now` under a fresh id, answered with 201; an invalid body is answered
      with 400 and nothing is stored. */
  function CreateNotification(rows: seq<Notification>, requester: nat, now: int, d: Draft)
    : (r: Served<NotificationBody, seq<Notification>>)
    requires ValidTable(rows)
    ensures ValidTable(r.state)
    ensures !ValidDraft(d) ==> r.reply == Reply(400, ValidationFailed) && r.state == rows
    ensures ValidDraft(d) ==>
      && r.reply.Reply? && r.reply.code == 201 && r.reply.body.Item?
      && var n := r.reply.body.item;
      && r.state == rows + [n]
      && (forall i :: 0 <= i < |rows| ==> rows[i].id != n.id)
      && n.user == requester && n.createdAt == now
      && n.title == d.title.value && n.message == d.message.value
      && n.isRead == d.isRead.GetOr(false)
  {
    if !ValidDraft(d) then Served(Reply(400, ValidationFailed), rows)
    else
      var n := Notification(NextKey(rows, NotificationId), requester, d.title.value,
                            d.message.value, d.isRead.GetOr(false), now);
      Served(Reply(201, Item(n)), rows + [n])
  }

  /** `NotificationDetail.get`: the requester's notification, or 404. */
  function GetNotification(rows: seq<Notification>, requester: nat, pk: nat): (r: Reply<NotificationBody>)
    ensures r.Reply?
    ensures r.code == 404 <==> forall n :: n in rows ==> n.id != pk || n.user != requester
    ensures r.code == 404 ==> r.body == Empty
    ensures r.code != 404 ==>
      && r.code == 200 && r.body.Item?
      && r.body.item in rows && r.body.item.id == pk && r.body.item.user == requester
  {
    match OwnedIndexOf(rows, pk, requester)
    case None => Reply(404, Empty)
    case Some(i) => Reply(200, Item(rows[i]))
  }

  /** The read flag a full (non-partial) update stores. A JSON body without
      `is_read` keeps the stored flag; a form-encoded or multipart body
      without it reads as an unchecked box, so the flag becomes false. */
  function PutReadFlag(d: Draft, formBody: bool, stored: bool): (b: bool)
    ensures d.isRead.Some? ==> b == d.isRead.value
    ensures d.isRead.None? && formBody ==> !b
    ensures d.isRead.None? && !formBody ==> b == stored
  {
    match d.isRead
    case Some(v) => v
    case None => if formBody then false else stored
  }

  /** `NotificationDetail.put`: a full update of the requester's
      notification. Missing or foreign: 404; invalid body: 400; either way
      nothing changes. Otherwise title and message are replaced, the read
      flag as `PutReadFlag` says for the body's encoding (`formBody`), and
      id, owner and creation time are kept (200). */
  function PutNotification(rows: seq<Notification>, requester: nat, pk: nat, d: Draft, formBody: bool)
    : (r: Served<NotificationBody, seq<Notification>>)
    requires ValidTable(rows)
    ensures ValidTable(r.state)
    ensures r.reply.Reply?
    ensures r.reply.code == 404 <==> OwnedIndexOf(rows, pk, requester).None?
    ensures r.reply.code != 200 ==> r.state == rows
    ensures r.reply.code == 200 <==> OwnedIndexOf(rows, pk, requester).Some? && ValidDraft(d)
    ensures r.reply.code == 200 ==>
      && var i := OwnedIndexOf(rows, pk, requester).value;
      && var n := rows[i];
      && var n' := n.(title := d.title.value, message := d.message.value,
                      isRead := PutReadFlag(d, formBody, n.isRead));
      && r.reply.body == Item(n')
      && r.state == rows[i := n']
  {
    match OwnedIndexOf(rows, pk, requester)
    case None => Served(Reply(404, Empty), rows)
    case Some(i) =>
      if !ValidDraft(d) then Served(Reply(400, ValidationFailed), rows)
      else
        var n := rows[i].(title := d.title.value, message := d.message.value,
                          isRead := PutReadFlag(d, formBody, rows[i].isRead));
        var rows' := rows[i := n];
        assert forall j :: 0 <= j < |rows| ==> rows'[j].id == rows[j].id;
        Served(Reply(200, Item(n)), rows')
  }

  /** `NotificationDetail.delete`: removes the requester's notification
      (204), or answers 404 and removes nothing. */
  function DeleteNotification(rows: seq<Notification>, requester: nat, pk: nat)
    : (r: Served<NotificationBody, seq<Notification>>)
    requires ValidTable(rows)
    ensures ValidTable(r.state)
    ensures r.reply.Reply?
    ensures r.reply.code == 404 <==> forall n :: n in rows ==> n.id != pk || n.user != requester
    ensures r.reply.code == 404 ==> r.reply.body == Empty && r.state == rows
    ensures r.reply.code != 404 ==>
      && r.reply == Reply(204, Empty)
      && |r.state| == |rows| - 1
      && forall n :: n in r.state <==> n in rows && n.id != pk
  {
    match OwnedIndexOf(rows, pk, requester)
    case None => Served(Reply(404, Empty), rows)
    case Some(i) =>
      RemoveAtByKey(rows, i, NotificationId);
      Served(Reply(204, Empty), RemoveAt(rows, i))
  }

  /** The `id` of a mark-as-read request as the database lookup reads it:
      an absent or null id matches nothing, a number or a decimal string is
      that id, a boolean is 0 or 1 (Python's `int(True) == 1`); anything
      else makes the lookup raise. */
  function LookupId(arg: Option<Json>): (r: Result<Option<int>>)
    ensures arg.None? || arg == Some(JNull) ==> r == Ok(None)
    ensures arg.Some? && arg.value.JNum? ==> r == Ok(Some(arg.value.n))
    ensures arg.Some? && arg.value.JBool? ==> r.Ok? && r.value.Some? && (r.value.value == 1 <==> arg.value.b)
    ensures arg.Some? && arg.value.JBool? ==> r.value.value in {0, 1}
    ensures arg.Some? && arg.value.JStr? ==>
      && (r.Ok? <==> ParseInt(arg.value.s).Some?)
      && (r.Ok? ==> r.value == Some(ParseInt(arg.value.s).value))
      && (r.Err? ==> r.error == "ValueError")
    ensures arg.Some? && (arg.value.JArr? || arg.value.JObj?) ==> r == Err("TypeError")
  {
    match arg
    case None => Ok(None)
    case Some(JNull) => Ok(None)
    case Some(JNum(n)) => Ok(Some(n))
    case Some(JBool(b)) => Ok(Some(if b then 1 else 0))
    case Some(JStr(s)) => (if ParseInt(s).Some? then Ok(Some(ParseInt(s).value)) else Err("ValueError"))
    case Some(JArr(_)) => Err("TypeError")
    case Some(JObj(_)) => Err("TypeError")
  }

  /** An id sent as its decimal text is read as the same id as when it is
      sent as a number. */
  lemma TextIdsMatchNumericIds(n: int)
    ensures LookupId(Some(JStr(ShowInt(n)))) == LookupId(Some(JNum(n))) == Ok(Some(n))
  {
    ParseShowInt(n);
  }

  /** `NotificationRead.post`: sets the read flag of the requester's
      notification whose id the body names, and answers 200
      `{"status": "Notification marked as read"}`; a missing or foreign id
      is 404 and changes nothing; an id the lookup cannot read raises. */
  function MarkRead(rows: seq<Notification>, requester: nat, idArg: Option<Json>)
    : (r: Served<NotificationBody, seq<Notification>>)
    requires ValidTable(rows)
    ensures ValidTable(r.state)
    ensures r.reply.Unhandled? <==> LookupId(idArg).Err?
    ensures !r.reply.Reply? || r.reply.code != 200 ==> r.state == rows
    ensures r.reply.Reply? ==> r.reply.code in {200, 404}
    ensures r.reply.Reply? && r.reply.code == 404 ==>
      forall i :: 0 <= i < |rows| ==> Some(rows[i].id as int) != LookupId(idArg).value || rows[i].user != requester
    ensures r.reply.Reply? && r.reply.code == 200 ==>
      && r.reply.body == MarkedAsRead
      && exists i :: 0 <= i < |rows| && Some(rows[i].id as int) == LookupId(idArg).value && rows[i].user == requester
           && r.state == rows[i := rows[i].(isRead := true)]
  {
    match LookupId(idArg)
    case Err(e) => Served(Unhandled(e), rows)
    case Ok(None) => Served(Reply(404, Empty), rows)
    case Ok(Some(id)) =>
      if id < 0 then Served(Reply(404, Empty), rows)
      else
        match OwnedIndexOf(rows, id, requester)
        case None => Served(Reply(404, Empty), rows)
        case Some(i) =>
          var rows' := rows[i := rows[i].(isRead := true)];
          assert forall j :: 0 <= j < |rows| ==> rows'[j].id == rows[j].id;
          Served(Reply(200, MarkedAsRead), rows')
  }

  /** Marking as read twice is marking once: the second call answers the
      same and changes nothing more. */
  lemma MarkReadIdempotent(rows: seq<Notification>, requester: nat, idArg: Option<Json>)
    requires ValidTable(rows)
    ensures var once := MarkRead(rows, requester, idArg);
            MarkRead(once.state, requester, idArg) == once
  {
    var once := MarkRead(rows, requester, idArg);
    if LookupId(idArg).Ok? && LookupId(idArg).value.Some? && LookupId(idArg).value.value >= 0 {
      var id := LookupId(idArg).value.value;
      if OwnedIndexOf(rows, id, requester).Some? {
        var i := OwnedIndexOf(rows, id, requester).value;
        OwnedIndexOfUnique(rows, id, requester, i);
        OwnedIndexOfUnique(once.state, id, requester, i);
        assert once.state[i := once.state[i].(isRead := true)] == once.state;
      }
    }
  }

  /** With unique ids, the owned lookup finds the one position holding
      that id, if its owner matches. */
  lemma OwnedIndexOfUnique(rows: seq<Notification>, pk: nat, requester: nat, i: nat)
    requires UniqueKeys(rows, NotificationId)
    requires i < |rows| && rows[i].id == pk && rows[i].user == requester
    ensures OwnedIndexOf(rows, pk, requester) == Some(i)
  {
    var r := OwnedIndexOf(rows, pk, requester);
    assert NotificationId(rows[r.value]) == NotificationId(rows[i]);
  }

  /** No view touches another user's notifications: every row the
      requester does not own survives put, delete and mark-as-read
      unchanged. */
  lemma ForeignRowsUntouched(rows: seq<Notification>, requester: nat, pk: nat, d: Draft, formBody: bool,
                             idArg: Option<Json>)
    requires ValidTable(rows)
    ensures forall n :: n in rows && n.user != requester ==>
      && n in PutNotification(rows, requester, pk, d, formBody).state
      && n in DeleteNotification(rows, requester, pk).state
      && n in MarkRead(rows, requester, idArg).state
  {
    forall n | n in rows && n.user != requester
      ensures n in PutNotification(rows, requester, pk, d, formBody).state
      ensures n in MarkRead(rows, requester, idArg).state
    {
      var k :| 0 <= k < |rows| && rows[k] == n;
      var p := PutNotification(rows, requester, pk, d, formBody).state;
      if p != rows {
        var i := OwnedIndexOf(rows, pk, requester).value;
        assert p[k] == n;
      }
      var m := MarkRead(rows, requester, idArg).state;
      if m != rows {
        var i :| 0 <= i < |rows| && rows[i].user == requester && m == rows[i := rows[i].(isRead := true)];
        assert m[k] == n;
      }
    }
  }
}
