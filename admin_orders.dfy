/**
 * The order administration page, src/pages/admin/AdminOrders.jsx: which orders the
 * search box and the status selector keep, and when the status editor is offered.
 */
module AdminOrders {
  import opened Wrappers
  import opened Text
  import opened Lists

  datatype OrderItem = OrderItem(title: Option<string>)

  /** An order as `/orders` returns it; `items` and `status` may be missing. */
  datatype Order = Order(id: int, items: Option<seq<OrderItem>>, status: Option<string>)

  /** `statusFlow` (line 6): the statuses an administrator can pick, in order. */
  const StatusFlow: seq<string> := ["PENDING", "CONFIRMED", "SHIPPED", "DELIVERED"]

  /** Some item has a present title that, lower-cased, contains the lower-cased search. */
  predicate SomeItemMatches(o: Order, search: string) {
    o.items.Some? &&
    exists k :: 0 <= k < |o.items.value| && o.items.value[k].title.Some? &&
      Includes(Lower(o.items.value[k].title.value), Lower(search))
  }

  /** `matchesSearch`: `"#" + id` contains the raw search (letter case matters), or an item title does. */
  predicate MatchesSearch(o: Order, search: string) {
    Includes("#" + IntToString(o.id), search) || SomeItemMatches(o, search)
  }

  /** `matchesStatus`: `'ALL'`, or exactly the order's status. */
  predicate MatchesStatus(o: Order, statusFilter: string) {
    statusFilter == "ALL" || o.status == Some(statusFilter)
  }

  function ByOrder(search: string, statusFilter: string): Order -> bool {
    o => MatchesSearch(o, search) && MatchesStatus(o, statusFilter)
  }

  /** `filtered` (lines 37-42). */
  function FilteredOrders(orders: seq<Order>, search: string, statusFilter: string): (kept: seq<Order>)
    ensures forall o :: o in kept <==> o in orders && MatchesSearch(o, search) && MatchesStatus(o, statusFilter)
  {
    Filter(orders, ByOrder(search, statusFilter))
  }

  /** The kept orders are exactly the matching positions, in their original order. */
  lemma FilteredOrdersPositions(orders: seq<Order>, search: string, statusFilter: string) returns (idx: seq<nat>)
    ensures SelectsFrom(FilteredOrders(orders, search, statusFilter), orders, idx)
    ensures forall i :: 0 <= i < |orders| ==>
      (MatchesSearch(orders[i], search) && MatchesStatus(orders[i], statusFilter) <==> i in idx)
  {
    idx := FilterPositions(orders, ByOrder(search, statusFilter));
  }

  /** An empty search matches every order, since every id string contains "". */
  lemma EmptySearchMatchesAll(o: Order)
    ensures MatchesSearch(o, "")
  {
    IncludesEmpty("#" + IntToString(o.id));
  }

  /** With an empty search and `'ALL'` every order is listed. */
  lemma NoFilterListsAll(orders: seq<Order>)
    ensures FilteredOrders(orders, "", "ALL") == orders
  {
    forall i | 0 <= i < |orders|
      ensures ByOrder("", "ALL")(orders[i])
    {
      EmptySearchMatchesAll(orders[i]);
    }
    FilterKeepsAll(orders, ByOrder("", "ALL"));
  }

  /** Searching for an order's own number, with or without the `#`, finds it. */
  lemma SearchByNumber(o: Order)
    ensures MatchesSearch(o, "#" + IntToString(o.id))
    ensures MatchesSearch(o, IntToString(o.id))
  {
    IncludesInfix("", "#" + IntToString(o.id), "");
    assert "" + ("#" + IntToString(o.id)) + "" == "#" + IntToString(o.id);
    IncludesInfix("#", IntToString(o.id), "");
    assert "#" + IntToString(o.id) + "" == "#" + IntToString(o.id);
  }

  /** An order without items is found only through its number. */
  lemma NoItemsSearchesNumberOnly(o: Order, search: string)
    requires o.items.None? || o.items == Some([])
    ensures MatchesSearch(o, search) <==> Includes("#" + IntToString(o.id), search)
  {
  }

  /** A status selection other than `'ALL'` keeps only orders whose status is exactly it. */
  lemma StatusFilterIsExact(orders: seq<Order>, search: string, statusFilter: string)
    requires statusFilter != "ALL"
    ensures forall o :: o in FilteredOrders(orders, search, statusFilter) ==> o.status == Some(statusFilter)
  {
  }

  /** The status cell (lines 110-118): the options of the editor, or `None` for the
    * plain dash shown once an order is delivered or cancelled. */
  function StatusEditor(status: Option<string>): (options: Option<seq<string>>)
    ensures options.None? <==> status == Some("DELIVERED") || status == Some("CANCELLED")
    ensures options.Some? ==> options.value == StatusFlow
  {
    if status != Some("DELIVERED") && status != Some("CANCELLED") then Some(StatusFlow) else None
  }

  /** The editor never offers cancelling, and always offers all four flow statuses, going
    * back as well as forward. */
  lemma EditorOptions(status: Option<string>)
    requires StatusEditor(status).Some?
    ensures "CANCELLED" !in StatusEditor(status).value
    ensures forall s :: s in StatusFlow ==> s in StatusEditor(status).value
  {
  }

  /** An order whose status is missing, or outside the flow, still gets an editor, whose
    * selected value then is none of its options. */
  lemma EditorForUnknownStatus(status: Option<string>)
    requires status.None? || (status.value !in StatusFlow && status.value != "CANCELLED")
    ensures StatusEditor(status) == Some(StatusFlow)
    ensures status.Some? ==> status.value !in StatusEditor(status).value
  {
  }
}
