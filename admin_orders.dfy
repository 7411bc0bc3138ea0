/** The orders page of the back office: the status filter, the status
    update after a successful request, the actions offered for each row and
    the counters. */
module AdminOrdersModel {
  import opened Options
  import opened Js
  import opened Seqs
  import opened Fields
  import opened AdminStatus

  /** The status the filter and the counters read: `getField(order, 'status')`. */
  function OrderStatus(o: Record): Value {
    FieldOf(Some(o), "status")
  }

  /** The test of `orders.filter(order => getField(order, 'status') === statusFilter)`. */
  function HasOrderStatus(status: string): Record -> bool {
    (o: Record) => OrderStatus(o) == Str(status)
  }

  /** `filteredOrders`. */
  function FilteredOrders(orders: seq<Record>, statusFilter: string): (r: seq<Record>)
    ensures statusFilter == "all" ==> r == orders
    ensures statusFilter != "all" ==> forall k :: 0 <= k < |r| ==> OrderStatus(r[k]) == Str(statusFilter)
  {
    if statusFilter == "all" then orders else Filter(orders, HasOrderStatus(statusFilter))
  }

  /** Any other filter keeps, in order, exactly the orders whose status is
      that string. */
  lemma FilteredOrdersSpec(orders: seq<Record>, statusFilter: string)
    requires statusFilter != "all"
    ensures forall o :: o in FilteredOrders(orders, statusFilter) <==> o in orders && OrderStatus(o) == Str(statusFilter)
    ensures Subsequence(FilteredOrders(orders, statusFilter), orders)
  {
    FilterMembers(orders, HasOrderStatus(statusFilter));
    FilterInOrder(orders, HasOrderStatus(statusFilter));
  }

  /** `handleStatusChange`: when the request succeeds, every order whose
      `getField(order, 'id')` loosely equals the target gets `Status` set and
      every other one is left as it is; when it fails nothing changes. */
  function UpdateOrderStatus(orders: seq<Record>, orderId: Value, newStatus: string, success: bool): (r: seq<Record>)
    ensures |r| == |orders|
    ensures !success ==> r == orders
    ensures forall k :: 0 <= k < |orders| ==>
              r[k] == if success && LooseEq(FieldOf(Some(orders[k]), "id"), orderId)
                      then SetStatus(orders[k], newStatus) else orders[k]
  {
    if !success then orders
    else seq(|orders|, k requires 0 <= k < |orders| =>
           if LooseEq(FieldOf(Some(orders[k]), "id"), orderId) then SetStatus(orders[k], newStatus) else orders[k])
  }

  /** An updated order moves to the new status in the filter and the
      counters only when it has no `status` or `STATUS` value of its own;
      an order with a `status` value keeps being filtered and counted under
      its old status. */
  lemma UpdatedOrderFiltered(orders: seq<Record>, orderId: Value, newStatus: string, k: nat)
    requires k < |orders| && LooseEq(FieldOf(Some(orders[k]), "id"), orderId)
    ensures var r := UpdateOrderStatus(orders, orderId, newStatus, true);
            (Get(orders[k], "status") == Null && Get(orders[k], "STATUS") == Null ==>
               HasOrderStatus(newStatus)(r[k])) &&
            (Get(orders[k], "status") != Null ==> OrderStatus(r[k]) == OrderStatus(orders[k]))
  {
    StatusAfterSet(orders[k], newStatus);
  }

  /** The status a row shows: `getField(order, 'status') || 'Unknown'`. */
  function RowStatus(o: Record): (s: Value)
    ensures Truthy(s)
    ensures Truthy(OrderStatus(o)) ==> s == OrderStatus(o)
  {
    Or(OrderStatus(o), Str("Unknown"))
  }

  /** The status targets a row's buttons offer, in button order. */
  function OrderActions(status: Value): (targets: seq<string>)
    ensures forall t :: t in targets <==>
              (status == Str("Pending") && (t == "Processing" || t == "Cancelled")) ||
              (status == Str("Processing") && t == "Completed")
  {
    if status == Str("Pending") then ["Processing", "Cancelled"]
    else if status == Str("Processing") then ["Completed"]
    else []
  }

  /** The action graph: Pending leads to Processing or Cancelled,
      Processing to Completed, and every other status, Completed and
      Cancelled included, offers nothing; nothing leads back to Pending. */
  lemma OrderTransitions(o: Record)
    ensures OrderActions(Str("Completed")) == [] && OrderActions(Str("Cancelled")) == []
    ensures "Pending" !in OrderActions(RowStatus(o))
    ensures OrderStatus(o) == Null ==> OrderActions(RowStatus(o)) == []
  {
  }

  /** The counters' status: `getField(order, 'status') || ''`. */
  function CountedStatus(o: Record): Value {
    Or(OrderStatus(o), Str(""))
  }

  function IsCounted(word: string): Record -> bool {
    (o: Record) => CountedStatus(o) == Str(word)
  }

  /** `calculateStats` without the revenue sum. */
  method OrderStats(orders: seq<Record>) returns (pending: nat, completed: nat)
    ensures pending == Count(orders, IsCounted("Pending"))
    ensures completed == Count(orders, IsCounted("Completed"))
    ensures pending + completed <= |orders|
  {
    pending, completed := 0, 0;
    var k := 0;
    while k < |orders|
      invariant 0 <= k <= |orders|
      invariant pending == Count(orders[..k], IsCounted("Pending"))
      invariant completed == Count(orders[..k], IsCounted("Completed"))
    {
      var status := CountedStatus(orders[k]);
      StatsStep(orders, k, status);
      if status == Str("Pending") {
        pending := pending + 1;
      }
      if status == Str("Completed") {
        completed := completed + 1;
      }
      k := k + 1;
    }
    assert orders[..k] == orders;
    CountDisjoint(orders, IsCounted("Pending"), IsCounted("Completed"), IsCounted("Processing"));
  }

  /** One step of the counting loop: the order at `k` adds one to the
      counter its status names. */
  lemma StatsStep(orders: seq<Record>, k: nat, status: Value)
    requires k < |orders| && status == CountedStatus(orders[k])
    ensures Count(orders[..k + 1], IsCounted("Pending")) ==
            Count(orders[..k], IsCounted("Pending")) + (if status == Str("Pending") then 1 else 0)
    ensures Count(orders[..k + 1], IsCounted("Completed")) ==
            Count(orders[..k], IsCounted("Completed")) + (if status == Str("Completed") then 1 else 0)
  {
    CountStep(orders, k, IsCounted("Pending"));
    CountStep(orders, k, IsCounted("Completed"));
  }

  /** The pending counter counts exactly what the Pending filter shows. */
  lemma PendingCountMatchesFilter(orders: seq<Record>)
    ensures Count(orders, IsCounted("Pending")) == |FilteredOrders(orders, "Pending")|
  {
    CountIsFilterLength(orders, IsCounted("Pending"), HasOrderStatus("Pending"));
  }

  lemma {:induction false} CountIsFilterLength(s: seq<Record>, p: Record -> bool, q: Record -> bool)
    requires forall x :: p(x) <==> q(x)
    ensures Count(s, p) == |Filter(s, q)|
  {
    if s != [] {
      CountIsFilterLength(s[..|s| - 1], p, q);
    }
  }
}
