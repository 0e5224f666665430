/**
 * The back-office order list: the orders newest first, a search box with two filters, four
 * status tabs, and the buttons that move an order between "pending", "confirmed" and
 * "cancelled".
 */
module OrdersManager {
  import opened Wrappers
  import opened JsText
  import opened Seqs
  import opened Sorting
  import opened Store
  import opened Orders

  // ---------------------------------------------------------------------------
  // Loading

  /** The ordering key of `order('created_at', { ascending: false })`. */
  function NewestFirst(): OrderRow -> int {
    (o: OrderRow) => -o.createdAt
  }

  /** `fetchOrders`: every stored order, newest first; an empty list when the query fails. */
  function FetchOrders(rows: seq<OrderRow>, queryFailed: bool): (r: seq<OrderRow>)
    ensures queryFailed ==> r == []
    ensures !queryFailed ==> multiset(r) == multiset(rows)
  {
    if queryFailed then [] else SortBy(rows, NewestFirst())
  }

  lemma {:induction false} FetchOrdersNewestFirst(rows: seq<OrderRow>, queryFailed: bool)
    ensures var r := FetchOrders(rows, queryFailed);
      forall i, j :: 0 <= i < j < |r| ==> r[i].createdAt >= r[j].createdAt
  {
    if !queryFailed {
      SortBySorted(rows, NewestFirst());
    }
  }

  /**
   * Changing an order's status does not move it in the list: updating the loaded list locally
   * gives what a fresh load of the updated store would give.
   */
  lemma {:induction false} LocalUpdateMatchesReload(rows: seq<OrderRow>, id: string, status: string)
    ensures UpdateWhereId(FetchOrders(rows, false), id, SetStatus(status))
         == FetchOrders(UpdateWhereId(rows, id, SetStatus(status)), false)
  {
    var f := (row: OrderRow) => if row.id == id then row.(fields := SetStatus(status)(row.fields)) else row;
    assert UpdateWhereId(rows, id, SetStatus(status)) == Map(rows, f);
    assert UpdateWhereId(SortBy(rows, NewestFirst()), id, SetStatus(status)) == Map(SortBy(rows, NewestFirst()), f);
    SortByMap(rows, NewestFirst(), f);
  }

  // ---------------------------------------------------------------------------
  // Search and filters

  /** `price && searchTerm && price.toString().includes(searchTerm)`: a zero or missing price never matches. */
  predicate PriceMatches(price: Option<int>, term: string) {
    price.Some? && price.value != 0 && term != "" && Contains(IntToString(price.value), term)
  }

  /** The search box: name, email or booked item, ignoring case, or the price's digits. An empty box matches every order. */
  predicate MatchesSearch(o: OrderRow, term: string)
    ensures term == "" ==> MatchesSearch(o, term)
  {
    EmptyTermMatches(o.fields.name);
    ContainsIgnoringCase(o.fields.name, term) || ContainsIgnoringCase(o.fields.email, term)
    || ContainsIgnoringCase(o.fields.sourceName, term) || PriceMatches(o.fields.price, term)
  }

  /** The status filter and the type filter; "all" lets everything through. */
  predicate MatchesFilters(o: OrderRow, statusFilter: string, typeFilter: string) {
    (statusFilter == "all" || o.fields.status == statusFilter)
    && (typeFilter == "all" || o.fields.sourcePage == typeFilter)
  }

  predicate Shown(o: OrderRow, term: string, statusFilter: string, typeFilter: string) {
    MatchesSearch(o, term) && MatchesFilters(o, statusFilter, typeFilter)
  }

  function ShownBy(term: string, statusFilter: string, typeFilter: string): OrderRow -> bool {
    (o: OrderRow) => Shown(o, term, statusFilter, typeFilter)
  }

  /** `filteredOrders`: exactly the loaded orders that pass the search and both filters. */
  function FilteredOrders(orders: seq<OrderRow>, term: string, statusFilter: string, typeFilter: string)
    : (r: seq<OrderRow>)
    ensures forall k :: 0 <= k < |r| ==> r[k] in orders && Shown(r[k], term, statusFilter, typeFilter)
    ensures forall k :: 0 <= k < |orders| && Shown(orders[k], term, statusFilter, typeFilter) ==> orders[k] in r
  {
    Filter(orders, ShownBy(term, statusFilter, typeFilter))
  }

  /** The filtered list keeps the newest-first order of the loaded list. */
  lemma FilteredKeepsOrder(orders: seq<OrderRow>, term: string, statusFilter: string, typeFilter: string)
    ensures IsSubsequence(FilteredOrders(orders, term, statusFilter, typeFilter), orders)
  {
    FilterIsSubsequence(orders, ShownBy(term, statusFilter, typeFilter));
  }

  /** With an empty search box and both filters on "all", every loaded order is listed. */
  lemma {:induction false} NoFilterShowsAll(orders: seq<OrderRow>)
    ensures FilteredOrders(orders, "", "all", "all") == orders
  {
    FilterKeepsAll(orders, ShownBy("", "all", "all"));
  }

  /**
   * The search is case-insensitive: a term and its lower case find the same orders. The price
   * digits are compared as they are, but no letter can occur in them.
   */
  lemma {:induction false} SearchIgnoresCase(o: OrderRow, term: string)
    ensures MatchesSearch(o, ToLower(term)) == MatchesSearch(o, term)
  {
    LowerTermMatchesAlike(o.fields.name, term);
    LowerTermMatchesAlike(o.fields.email, term);
    LowerTermMatchesAlike(o.fields.sourceName, term);
    if o.fields.price.Some? {
      var digits := IntToString(o.fields.price.value);
      if Contains(digits, ToLower(term)) {
        LowerOfLetterFree(digits, term);
      }
      if Contains(digits, term) {
        LetterFreeIsLower(digits, term);
      }
    }
  }

  // ---------------------------------------------------------------------------
  // Tabs

  datatype Tab = AllTab | PendingTab | ConfirmedTab | CancelledTab

  /** The status a tab lists; the "all" tab lists every status. */
  function TabStatus(t: Tab): Option<string> {
    match t
    case AllTab => None
    case PendingTab => Some("pending")
    case ConfirmedTab => Some("confirmed")
    case CancelledTab => Some("cancelled")
  }

  predicate InTab(o: OrderRow, t: Tab) {
    TabStatus(t).None? || o.fields.status == TabStatus(t).value
  }

  function InTabBy(t: Tab): OrderRow -> bool {
    (o: OrderRow) => InTab(o, t)
  }

  /** The number on a tab's label: counted over all loaded orders, not over the filtered ones. */
  function TabCount(orders: seq<OrderRow>, t: Tab): (n: nat)
    ensures n <= |orders|
    ensures t == AllTab ==> n == |orders|
  {
    if t == AllTab then |orders| else |Filter(orders, InTabBy(t))|
  }

  /** The rows a tab lists: the filtered orders with the tab's status. */
  function TabList(orders: seq<OrderRow>, term: string, statusFilter: string, typeFilter: string, t: Tab)
    : (r: seq<OrderRow>)
    ensures forall k :: 0 <= k < |r| ==> r[k] in orders && Shown(r[k], term, statusFilter, typeFilter) && InTab(r[k], t)
  {
    Filter(FilteredOrders(orders, term, statusFilter, typeFilter), InTabBy(t))
  }

  /** A tab never lists more rows than its label counts. */
  lemma {:induction false} TabCountBoundsList(orders: seq<OrderRow>, term: string, statusFilter: string, typeFilter: string, t: Tab)
    ensures |TabList(orders, term, statusFilter, typeFilter, t)| <= TabCount(orders, t)
  {
    FilterNarrows(orders, ShownBy(term, statusFilter, typeFilter), InTabBy(t));
    if t == AllTab {
      FilterKeepsAll(orders, InTabBy(t));
    }
  }

  /** Without a search term or filter, each label counts exactly the rows of its tab. */
  lemma {:induction false} UnfilteredTabsMatchCounts(orders: seq<OrderRow>, t: Tab)
    ensures |TabList(orders, "", "all", "all", t)| == TabCount(orders, t)
  {
    NoFilterShowsAll(orders);
    if t == AllTab {
      FilterKeepsAll(orders, InTabBy(t));
    }
  }

  // ---------------------------------------------------------------------------
  // Status buttons

  /** Where a status button appears: a row of one of the tabs, or the details dialog. */
  datatype View = TabRow(tab: Tab) | DetailsDialog

  datatype Action = Confirm | Cancel | Restore

  /** The status a button writes. */
  function Target(a: Action): string {
    match a
    case Confirm => "confirmed"
    case Cancel => "cancelled"
    case Restore => "pending"
  }

  /**
   * Whether the button for `a` is shown for an order with status `status` in view `v`. "Restore"
   * appears only in the cancelled tab, "confirm" only for a pending order or in the pending tab,
   * "cancel" never in the cancelled tab; where every status is listed, no button rewrites the
   * status the order already has.
   */
  predicate Offered(v: View, status: string, a: Action)
    ensures a == Restore ==> (Offered(v, status, a) <==> v == TabRow(CancelledTab))
    ensures a == Confirm && Offered(v, status, a) ==> v == TabRow(PendingTab) || status == "pending"
    ensures a == Cancel && Offered(v, status, a) ==> v != TabRow(CancelledTab)
    ensures (v == TabRow(AllTab) || v == DetailsDialog) && Offered(v, status, a) ==> Target(a) != status
  {
    match v
    case TabRow(AllTab) => (a == Confirm && status == "pending") || (a == Cancel && status != "cancelled")
    case TabRow(PendingTab) => a == Confirm || a == Cancel
    case TabRow(ConfirmedTab) => a == Cancel
    case TabRow(CancelledTab) => a == Restore
    case DetailsDialog => (a == Confirm && status == "pending") || (a == Cancel && status != "cancelled")
  }

  /** The orders a view can show. */
  predicate Displays(v: View, o: OrderRow) {
    match v
    case TabRow(t) => InTab(o, t)
    case DetailsDialog => true
  }

  /**
   * Every status button shown next to an order changes that order's status: only pending orders
   * can be confirmed, only cancelled orders restored, and a cancelled order cannot be cancelled.
   */
  lemma ButtonsChangeStatus(v: View, o: OrderRow, a: Action)
    requires Displays(v, o) && Offered(v, o.fields.status, a)
    ensures Target(a) != o.fields.status
    ensures a == Confirm ==> o.fields.status == "pending"
    ensures a == Restore ==> o.fields.status == "cancelled"
  {
  }

  /** Every order that is not cancelled can be cancelled from the list and from its dialog. */
  lemma {:induction false} CancelAlwaysReachable(status: string)
    ensures status != "cancelled" ==> Offered(TabRow(AllTab), status, Cancel) && Offered(DetailsDialog, status, Cancel)
    ensures Offered(TabRow(AllTab), status, Confirm) <==> status == "pending"
  {
  }

  // ---------------------------------------------------------------------------
  // The component

  /** What the admin is told after a status change; `Success(None)` is a status without a message. */
  datatype Notice = Success(text: Option<string>) | Failure(message: string)

  /** `statusMessages[newStatus]`: a message for each of the three statuses the buttons write, none for others. */
  function StatusNotice(status: string): (r: Option<string>)
    ensures r.Some? <==> status == "pending" || status == "confirmed" || status == "cancelled"
    ensures r.Some? ==> r.value != ""
  {
    if status == "pending" then Some("تم تعليق الطلب")
    else if status == "confirmed" then Some("تم تأكيد الطلب")
    else if status == "cancelled" then Some("تم إلغاء الطلب")
    else None
  }

  const UpdateFailedMessage: string := "حدث خطأ أثناء تحديث حالة الطلب. يرجى المحاولة مرة أخرى."

  class OrdersPage {
    var orders: seq<OrderRow>
    var loading: bool
    var error: Option<string>
    var selected: Option<OrderRow>
    var dialogOpen: bool
    var searchTerm: string
    var statusFilter: string
    var typeFilter: string

    constructor ()
      ensures orders == [] && loading && error == None && selected == None && !dialogOpen
      ensures searchTerm == "" && statusFilter == "all" && typeFilter == "all"
    {
      orders := [];
      loading := true;
      error := None;
      selected := None;
      dialogOpen := false;
      searchTerm := "";
      statusFilter := "all";
      typeFilter := "all";
    }

    function Visible(): seq<OrderRow>
      reads this
    {
      FilteredOrders(orders, searchTerm, statusFilter, typeFilter)
    }

    /** `loadOrders`: `fetchOrders` never throws, so the error panel is never reached. */
    method LoadOrders(users: Table<OrderFields>, queryFailed: bool)
      modifies this
      ensures orders == FetchOrders(users.rows, queryFailed)
      ensures !loading && error == None
      ensures selected == old(selected) && dialogOpen == old(dialogOpen)
      ensures searchTerm == old(searchTerm) && statusFilter == old(statusFilter) && typeFilter == old(typeFilter)
    {
      loading := true;
      orders := FetchOrders(users.rows, queryFailed);
      error := None;
      loading := false;
    }

    /**
     * `updateOrderStatus(orderId, newStatus)`: the store first; the local list changes only when
     * the store accepted the update.
     */
    method UpdateOrderStatus(users: Table<OrderFields>, id: string, status: string, refusal: Option<StoreError>)
      returns (notice: Notice)
      modifies this, users
      ensures users.rows == if refusal.Some? then old(users.rows) else UpdateWhereId(old(users.rows), id, SetStatus(status))
      ensures orders == if refusal.Some? then old(orders) else UpdateWhereId(old(orders), id, SetStatus(status))
      ensures notice == if refusal.Some? then Failure(UpdateFailedMessage) else Success(StatusNotice(status))
      ensures loading == old(loading) && error == old(error) && selected == old(selected) && dialogOpen == old(dialogOpen)
      ensures searchTerm == old(searchTerm) && statusFilter == old(statusFilter) && typeFilter == old(typeFilter)
    {
      var e := users.Update(id, SetStatus(status), refusal);
      if e.Some? {
        notice := Failure(UpdateFailedMessage);
        return;
      }
      orders := UpdateWhereId(orders, id, SetStatus(status));
      notice := Success(StatusNotice(status));
    }

    /** `viewOrderDetails(order)` */
    method ViewOrderDetails(o: OrderRow)
      modifies this
      ensures selected == Some(o) && dialogOpen
      ensures orders == old(orders) && loading == old(loading) && error == old(error)
      ensures searchTerm == old(searchTerm) && statusFilter == old(statusFilter) && typeFilter == old(typeFilter)
    {
      selected := Some(o);
      dialogOpen := true;
    }

    /** A status button of the details dialog: the update, then the dialog closes. */
    method DialogAction(users: Table<OrderFields>, a: Action, refusal: Option<StoreError>)
      returns (notice: Notice)
      requires selected.Some? && Offered(DetailsDialog, selected.value.fields.status, a)
      modifies this, users
      ensures var id := old(selected).value.id;
        && users.rows == (if refusal.Some? then old(users.rows) else UpdateWhereId(old(users.rows), id, SetStatus(Target(a))))
        && orders == (if refusal.Some? then old(orders) else UpdateWhereId(old(orders), id, SetStatus(Target(a))))
      ensures !dialogOpen && selected == old(selected)
      ensures notice == if refusal.Some? then Failure(UpdateFailedMessage) else Success(StatusNotice(Target(a)))
    {
      notice := UpdateOrderStatus(users, selected.value.id, Target(a), refusal);
      dialogOpen := false;
    }
  }

  /** A status update changes the status of the orders with that id and nothing else. */
  lemma {:induction false} StatusUpdateChangesOnlyStatus(orders: seq<OrderRow>, id: string, status: string)
    ensures var r := UpdateWhereId(orders, id, SetStatus(status));
      |r| == |orders|
      && (forall k :: 0 <= k < |orders| ==>
            r[k].id == orders[k].id && r[k].createdAt == orders[k].createdAt
            && Submitted(r[k].fields) == Submitted(orders[k].fields)
            && r[k].fields.status == (if orders[k].id == id then status else orders[k].fields.status))
  {
    var r := UpdateWhereId(orders, id, SetStatus(status));
    forall k | 0 <= k < |orders|
      ensures Submitted(r[k].fields) == Submitted(orders[k].fields)
    {
      if orders[k].id == id {
        assert r[k].fields == orders[k].fields.(status := status);
      }
    }
  }
}
