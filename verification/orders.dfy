/** Orders (order/models.py, order/api.py): the status lifecycle
    Pending -> Ongoing -> Completed, and the order views, which all but the
    status update restrict to the requester's own orders. The body of each
    reply is the list or row handed to `OrderSerializer`; that serializer
    (order/serializers.py) is not part of this model. */
module Orders {
  import opened Wrappers
  import opened Text
  import opened Rows
  import opened Responses

  datatype Status = Pending | Ongoing | Completed
  datatype Vehicle = Motorcycle | Car
  datatype Payment = CreditCard | Cash

  /** The stored code of each choice. */
  function StatusChoice(s: Status): string {
    match s
    case Pending => "P"
    case Ongoing => "O"
    case Completed => "C"
  }

  function ParseStatusChoice(t: string): (r: Option<Status>)
    ensures r.Some? <==> t in {"P", "O", "C"}
  {
    if t == "P" then Some(Pending)
    else if t == "O" then Some(Ongoing)
    else if t == "C" then Some(Completed)
    else None
  }

  function VehicleChoice(v: Vehicle): string {
    match v
    case Motorcycle => "M"
    case Car => "C"
  }

  function ParseVehicleChoice(t: string): (r: Option<Vehicle>)
    ensures r.Some? <==> t in {"M", "C"}
  {
    if t == "M" then Some(Motorcycle) else if t == "C" then Some(Car) else None
  }

  function PaymentChoice(p: Payment): string {
    match p
    case CreditCard => "CC"
    case Cash => "CS"
  }

  function ParsePaymentChoice(t: string): (r: Option<Payment>)
    ensures r.Some? <==> t in {"CC", "CS"}
  {
    if t == "CC" then Some(CreditCard) else if t == "CS" then Some(Cash) else None
  }

  /** Every stored choice code reads back as the choice: the status is
      always one of P, O, C, the vehicle M or C, the payment CC or CS. */
  lemma ChoicesRoundTrip(s: Status, v: Vehicle, p: Payment)
    ensures ParseStatusChoice(StatusChoice(s)) == Some(s)
    ensures ParseVehicleChoice(VehicleChoice(v)) == Some(v)
    ensures ParsePaymentChoice(PaymentChoice(p)) == Some(p)
  {
  }

  const DefaultStatus := Pending
  const AddressMaxLength := 100

  /** One order. `weightLimit` is a float in the source and is treated as
      an opaque number. */
  datatype Order = Order(
    id: nat, user: nat, status: Status, postContent: string,
    departure: string, arrival: string, vehicle: Vehicle,
    weightLimit: real, payment: Payment)

  function OrderId(o: Order): nat { o.id }

  predicate FitsColumns(o: Order) {
    |o.departure| <= AddressMaxLength && |o.arrival| <= AddressMaxLength
  }

  /** The order table: unique ids, every row within its column widths. */
  predicate ValidTable(rows: seq<Order>) {
    && UniqueKeys(rows, OrderId)
    && forall i :: 0 <= i < |rows| ==> FitsColumns(rows[i])
  }

  // The status lifecycle

  /** How far along the lifecycle a status is. */
  function Rank(s: Status): nat {
    match s
    case Pending => 0
    case Ongoing => 1
    case Completed => 2
  }

  /** One step of the lifecycle; a completed order cannot advance. */
  function Advance(s: Status): (r: Option<Status>)
    ensures r.None? <==> s == Completed
    ensures r.Some? ==> Rank(r.value) == Rank(s) + 1
  {
    match s
    case Pending => Some(Ongoing)
    case Ongoing => Some(Completed)
    case Completed => None
  }

  /** `n` successive steps from `s`, if they all succeed. */
  function AdvanceTimes(s: Status, n: nat): Option<Status>
    decreases n
  {
    if n == 0 then Some(s)
    else
      match Advance(s)
      case None => None
      case Some(t) => AdvanceTimes(t, n - 1)
  }

  /** Status only moves forward, one rank per step, and at most
      `2 - rank` steps succeed: a new order advances at most twice. */
  lemma {:induction false} AdvanceTimesBound(s: Status, n: nat)
    ensures AdvanceTimes(s, n).Some? <==> n <= 2 - Rank(s)
    ensures AdvanceTimes(s, n).Some? ==> Rank(AdvanceTimes(s, n).value) == Rank(s) + n
    decreases n
  {
    if n > 0 && s != Completed {
      AdvanceTimesBound(Advance(s).value, n - 1);
    }
  }

  // Lookups

  /** `Order.objects.get(pk=pk)`: the position of the order with that id. */
  function IndexOf(rows: seq<Order>, pk: nat): (r: Option<nat>)
    ensures r.Some? ==> r.value < |rows| && rows[r.value].id == pk
    ensures r.None? ==> forall i :: 0 <= i < |rows| ==> rows[i].id != pk
  {
    FirstWhere(rows, (o: Order) => o.id == pk)
  }

  /** `get_object_or_404(Order, pk=pk, user=requester)`: the position of the
      requester's order with that id. */
  function OwnedIndexOf(rows: seq<Order>, pk: nat, requester: nat): (r: Option<nat>)
    ensures r.Some? ==> r.value < |rows| && rows[r.value].id == pk && rows[r.value].user == requester
    ensures r.None? ==> forall i :: 0 <= i < |rows| ==> rows[i].id != pk || rows[i].user != requester
  {
    FirstWhere(rows, (o: Order) => o.id == pk && o.user == requester)
  }

  /** What the order views put in a reply body. */
  datatype OrderBody =
    | OrderList(orders: seq<Order>)
    | OrderItem(order: Order)
    | StatusDone
    | AlreadyDelivered
    | NotFound
    | ValidationFailed
    | NoContent

  // UpdateOrderStatusAPIView

  /** `UpdateOrderStatusAPIView.get`: looks the order up by id alone (the
      requester is not consulted); a missing id raises `DoesNotExist`,
      which nothing catches. A pending order becomes ongoing, an ongoing one
      completed (200 `{"status": "Done"}`); a completed one is refused
      with 400 "Order already delivered" and stays as it is. */
  function UpdateStatus(rows: seq<Order>, pk: nat, requester: nat): (r: Served<OrderBody, seq<Order>>)
    requires ValidTable(rows)
    ensures ValidTable(r.state)
    ensures IndexOf(rows, pk).None? ==> r.reply.Unhandled? && r.state == rows
    ensures IndexOf(rows, pk).Some? ==> var i := IndexOf(rows, pk).value;
      && (rows[i].status == Completed ==> r.reply == Reply(400, AlreadyDelivered) && r.state == rows)
      && (rows[i].status != Completed ==>
            && r.reply == Reply(200, StatusDone)
            && r.state == rows[i := rows[i].(status := Advance(rows[i].status).value)]
            && Rank(r.state[i].status) == Rank(rows[i].status) + 1)
  {
    match IndexOf(rows, pk)
    case None => Served(Unhandled("Order.DoesNotExist"), rows)
    case Some(i) =>
      match Advance(rows[i].status)
      case None => Served(Reply(400, AlreadyDelivered), rows)
      case Some(next) =>
        var rows' := rows[i := rows[i].(status := next)];
        assert forall j :: 0 <= j < |rows'| ==> rows'[j].id == rows[j].id;
        Served(Reply(200, StatusDone), rows')
  }

  /** The status update does not look at who asks: any requester gets the
      same reply and leaves the same table. */
  lemma UpdateStatusIgnoresRequester(rows: seq<Order>, pk: nat, a: nat, b: nat)
    requires ValidTable(rows)
    ensures UpdateStatus(rows, pk, a) == UpdateStatus(rows, pk, b)
  {
  }

  /** Only the target row changes, and its status never moves backwards. */
  lemma UpdateStatusFrame(rows: seq<Order>, pk: nat, requester: nat)
    requires ValidTable(rows)
    ensures var r := UpdateStatus(rows, pk, requester).state;
      && |r| == |rows|
      && forall j :: 0 <= j < |rows| ==>
           && Rank(r[j].status) >= Rank(rows[j].status)
           && (rows[j].id != pk ==> r[j] == rows[j])
  {
  }

  // Active and completed orders

  predicate IsActive(o: Order) {
    o.status == Pending || o.status == Ongoing
  }

  /** The requester's orders, in table order. */
  function Owned(rows: seq<Order>, requester: nat): (r: seq<Order>)
    ensures forall o :: o in r <==> o in rows && o.user == requester
    ensures forall o :: multiset(r)[o] == if o.user == requester then multiset(rows)[o] else 0
  {
    Where(rows, (o: Order) => o.user == requester)
  }

  /** `ActiveOrdersAPIView.get`: the requester's orders whose status is P or O. */
  function ActiveOrders(rows: seq<Order>, requester: nat): (r: Reply<OrderBody>)
    ensures r.Reply? && r.code == 200 && r.body.OrderList?
    ensures forall o :: o in r.body.orders <==> o in rows && o.user == requester && o.status in {Pending, Ongoing}
    ensures forall o ::
      multiset(r.body.orders)[o] == if o.user == requester && o.status in {Pending, Ongoing} then multiset(rows)[o] else 0
  {
    Reply(200, OrderList(Where(rows, (o: Order) => o.user == requester && IsActive(o))))
  }

  /** `ComplatedOrdersAPIView.get`: the requester's orders whose status is C. */
  function CompletedOrders(rows: seq<Order>, requester: nat): (r: Reply<OrderBody>)
    ensures r.Reply? && r.code == 200 && r.body.OrderList?
    ensures forall o :: o in r.body.orders <==> o in rows && o.user == requester && o.status == Completed
    ensures forall o ::
      multiset(r.body.orders)[o] == if o.user == requester && o.status == Completed then multiset(rows)[o] else 0
  {
    Reply(200, OrderList(Where(rows, (o: Order) => o.user == requester && o.status == Completed)))
  }

  /** Active and completed orders partition the requester's orders: every
      owned order is in exactly one of the two lists, and together they
      hold each owned order as often as the table does. */
  lemma ActiveAndCompletedPartitionOwned(rows: seq<Order>, requester: nat)
    ensures var active := ActiveOrders(rows, requester).body.orders;
            var done := CompletedOrders(rows, requester).body.orders;
      && multiset(active) + multiset(done) == multiset(Owned(rows, requester))
      && |active| + |done| == |Owned(rows, requester)|
      && forall o :: o in Owned(rows, requester) ==> (o in active <==> o !in done)
  {
    WherePartition(rows, (o: Order) => o.user == requester,
                   (o: Order) => o.user == requester && IsActive(o),
                   (o: Order) => o.user == requester && o.status == Completed);
  }

  // OrderListCreateAPIView

  /** The order fields an `icontains` lookup can name. `user` (a relation)
      and any name that is not a field of the order are not among them. */
  predicate SearchableField(name: string) {
    name in {"id", "pk", "status", "post_content", "departure_address",
             "arrival_address", "vehicle_type", "weight_limit", "payment_method"}
  }

  /** The text the database compares for a searchable field; `showFloat`
      is the database's rendering of the float `weight_limit`. */
  function FieldText(o: Order, name: string, showFloat: real -> string): string
    requires SearchableField(name)
  {
    if name == "id" || name == "pk" then ShowNat(o.id)
    else if name == "status" then StatusChoice(o.status)
    else if name == "post_content" then o.postContent
    else if name == "departure_address" then o.departure
    else if name == "arrival_address" then o.arrival
    else if name == "vehicle_type" then VehicleChoice(o.vehicle)
    else if name == "weight_limit" then showFloat(o.weightLimit)
    else PaymentChoice(o.payment)
  }

  /** Every query parameter's field contains its value, ignoring case. */
  predicate MatchesAll(o: Order, params: map<string, string>, showFloat: real -> string)
    requires forall k :: k in params ==> SearchableField(k)
  {
    forall k :: k in params ==> IContains(FieldText(o, k, showFloat), params[k])
  }

  /** `OrderListCreateAPIView.get`: each query parameter `p=v` becomes a
      `p__icontains=v` lookup, all of them combined with the requester
      filter. A parameter that names no searchable field makes the
      database layer raise `FieldError`, which nothing catches. */
  function ListOrders(rows: seq<Order>, requester: nat, params: map<string, string>, showFloat: real -> string)
    : (r: Reply<OrderBody>)
    ensures r.Unhandled? <==> exists k :: k in params && !SearchableField(k)
    ensures r.Reply? ==> r.code == 200 && r.body.OrderList?
    ensures r.Reply? ==> forall o :: o in r.body.orders <==>
      o in rows && o.user == requester && MatchesAll(o, params, showFloat)
    ensures r.Reply? ==>
      forall o :: multiset(r.body.orders)[o] ==
        if o.user == requester && MatchesAll(o, params, showFloat) then multiset(rows)[o] else 0
  {
    if exists k :: k in params && !SearchableField(k) then Unhandled("FieldError")
    else Reply(200, OrderList(Where(rows, (o: Order) => o.user == requester && MatchesAll(o, params, showFloat))))
  }

  /** Without query parameters the list is all of the requester's orders. */
  lemma ListWithoutParamsIsOwned(rows: seq<Order>, requester: nat, showFloat: real -> string)
    ensures ListOrders(rows, requester, map[], showFloat) == Reply(200, OrderList(Owned(rows, requester)))
  {
    WhereSameFilter(rows, (o: Order) => o.user == requester && MatchesAll(o, map[], showFloat),
                    (o: Order) => o.user == requester);
  }

  lemma {:induction false} WhereSameFilter(rows: seq<Order>, p: Order -> bool, q: Order -> bool)
    requires forall o :: p(o) <==> q(o)
    ensures Where(rows, p) == Where(rows, q)
    decreases |rows|
  {
    if |rows| > 0 {
      WhereSameFilter(rows[1..], p, q);
    }
  }

  /** The request body of an order creation, field by field (`None` for an
      absent field); the choice fields carry their raw codes. */
  datatype OrderDraft = OrderDraft(
    status: Option<string>, postContent: Option<string>,
    departure: Option<string>, arrival: Option<string>,
    vehicle: Option<string>, weightLimit: Option<real>, payment: Option<string>)

  /** Serializer validation as a `ModelSerializer` of the order model does
      it: every field but `status` is required, text may not be blank, the
      addresses fit their columns, choices are known codes. */
  predicate ValidDraft(d: OrderDraft) {
    && (d.status.None? || ParseStatusChoice(d.status.value).Some?)
    && d.postContent.Some? && d.postContent.value != ""
    && d.departure.Some? && d.departure.value != "" && |d.departure.value| <= AddressMaxLength
    && d.arrival.Some? && d.arrival.value != "" && |d.arrival.value| <= AddressMaxLength
    && d.vehicle.Some? && ParseVehicleChoice(d.vehicle.value).Some?
    && d.weightLimit.Some?
    && d.payment.Some? && ParsePaymentChoice(d.payment.value).Some?
  }

  /** `OrderListCreateAPIView.post`: a valid draft becomes a new order of the
      requester (status P unless given) with a fresh id, answered with 201;
      an invalid one is answered with 400 and nothing is stored. */
  function CreateOrder(rows: seq<Order>, requester: nat, d: OrderDraft): (r: Served<OrderBody, seq<Order>>)
    requires ValidTable(rows)
    ensures ValidTable(r.state)
    ensures !ValidDraft(d) ==> r.reply == Reply(400, ValidationFailed) && r.state == rows
    ensures ValidDraft(d) ==>
      && r.reply.Reply? && r.reply.code == 201 && r.reply.body.OrderItem?
      && var o := r.reply.body.order;
      && r.state == rows + [o]
      && o.user == requester
      && (forall i :: 0 <= i < |rows| ==> rows[i].id != o.id)
      && o.status == (if d.status.None? then DefaultStatus else ParseStatusChoice(d.status.value).value)
      && o.postContent == d.postContent.value
      && o.departure == d.departure.value && o.arrival == d.arrival.value
      && o.vehicle == ParseVehicleChoice(d.vehicle.value).value
      && o.weightLimit == d.weightLimit.value
      && o.payment == ParsePaymentChoice(d.payment.value).value
  {
    if !ValidDraft(d) then Served(Reply(400, ValidationFailed), rows)
    else
      var o := Order(NextKey(rows, OrderId), requester,
                     if d.status.None? then DefaultStatus else ParseStatusChoice(d.status.value).value,
                     d.postContent.value, d.departure.value, d.arrival.value,
                     ParseVehicleChoice(d.vehicle.value).value, d.weightLimit.value,
                     ParsePaymentChoice(d.payment.value).value);
      Served(Reply(201, OrderItem(o)), rows + [o])
  }

  // OrderDetailAPIView and DeleteOrderAPIView

  /** `OrderDetailAPIView.get`: the requester's order with that id, or 404. */
  function OrderDetail(rows: seq<Order>, requester: nat, pk: nat): (r: Reply<OrderBody>)
    ensures r.Reply?
    ensures r.code == 404 <==> forall o :: o in rows ==> o.id != pk || o.user != requester
    ensures r.code == 404 ==> r.body == NotFound
    ensures r.code != 404 ==>
      && r.code == 200 && r.body.OrderItem?
      && r.body.order in rows && r.body.order.id == pk && r.body.order.user == requester
  {
    match OwnedIndexOf(rows, pk, requester)
    case None => Reply(404, NotFound)
    case Some(i) => Reply(200, OrderItem(rows[i]))
  }

  /** A created order is the requester's order under its new id: the
      detail view finds exactly what the create stored. */
  lemma CreatedOrderIsFound(rows: seq<Order>, requester: nat, d: OrderDraft)
    requires ValidTable(rows) && ValidDraft(d)
    ensures var r := CreateOrder(rows, requester, d);
      OrderDetail(r.state, requester, r.reply.body.order.id) == Reply(200, OrderItem(r.reply.body.order))
  {
    var r := CreateOrder(rows, requester, d);
    var o := r.reply.body.order;
    assert r.state[|rows|] == o;
    var found := OrderDetail(r.state, requester, o.id);
    assert found.code == 200;
    var k :| 0 <= k < |r.state| && r.state[k] == found.body.order;
    assert k == |rows|;
  }

  /** `DeleteOrderAPIView.delete`: removes the requester's order with that
      id (204), or answers 404 and removes nothing. */
  function DeleteOrder(rows: seq<Order>, requester: nat, pk: nat): (r: Served<OrderBody, seq<Order>>)
    requires ValidTable(rows)
    ensures ValidTable(r.state)
    ensures r.reply.Reply?
    ensures r.reply.code == 404 <==> forall o :: o in rows ==> o.id != pk || o.user != requester
    ensures r.reply.code == 404 ==> r.reply.body == NotFound && r.state == rows
    ensures r.reply.code != 404 ==>
      && r.reply == Reply(204, NoContent)
      && |r.state| == |rows| - 1
      && forall o :: o in r.state <==> o in rows && o.id != pk
  {
    match OwnedIndexOf(rows, pk, requester)
    case None => Served(Reply(404, NotFound), rows)
    case Some(i) =>
      var rows' := RemoveAt(rows, i);
      RemoveAtByKey(rows, i, OrderId);
      Served(Reply(204, NoContent), rows')
  }
}
