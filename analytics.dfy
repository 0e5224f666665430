/**
 * The analytics page's figures over the `users` (orders) table: the number of orders, the
 * revenue of approved orders, and the counts per booking type and per status for fixed lists
 * of types and statuses. Each figure comes from its own query, which may return no data.
 */
module Analytics {
  import opened Wrappers
  import opened Seqs
  import opened Store
  import opened Orders

  predicate IsApproved(row: OrderRow) {
    row.fields.status == "approved"
  }

  /** `reduce((sum, r) => sum + (Number(r.price) || 0), 0)`: a missing price counts as 0. */
  function PriceSum(rows: seq<OrderRow>): int {
    if rows == [] then 0 else rows[0].fields.price.GetOr(0) + PriceSum(rows[1..])
  }

  /**
   * The revenue in one pass over the rows: each approved row adds its price. It equals the
   * source's two passes, the approved rows first filtered out and then summed.
   */
  function ApprovedRevenue(rows: seq<OrderRow>): (r: int)
    ensures r == PriceSum(Filter(rows, IsApproved))
  {
    if rows == [] then 0
    else if IsApproved(rows[0]) then
      assert Filter(rows, IsApproved) == [rows[0]] + Filter(rows[1..], IsApproved);
      assert ([rows[0]] + Filter(rows[1..], IsApproved))[1..] == Filter(rows[1..], IsApproved);
      rows[0].fields.price.GetOr(0) + ApprovedRevenue(rows[1..])
    else
      assert Filter(rows, IsApproved) == [] + Filter(rows[1..], IsApproved);
      assert [] + Filter(rows[1..], IsApproved) == Filter(rows[1..], IsApproved);
      ApprovedRevenue(rows[1..])
  }

  lemma {:induction false} ApprovedRevenueAppend(a: seq<OrderRow>, b: seq<OrderRow>)
    ensures ApprovedRevenue(a + b) == ApprovedRevenue(a) + ApprovedRevenue(b)
  {
    if a == [] {
      assert a + b == b;
    } else {
      assert (a + b)[0] == a[0];
      assert (a + b)[1..] == a[1..] + b;
      ApprovedRevenueAppend(a[1..], b);
    }
  }

  /** A row whose status is not "approved" adds nothing to the revenue, wherever it is. */
  lemma {:induction false} OnlyApprovedEarn(a: seq<OrderRow>, row: OrderRow, b: seq<OrderRow>)
    requires row.fields.status != "approved"
    ensures ApprovedRevenue(a + [row] + b) == ApprovedRevenue(a + b)
  {
    ApprovedRevenueAppend(a + [row], b);
    ApprovedRevenueAppend(a, [row]);
    ApprovedRevenueAppend(a, b);
  }

  /** With non-negative prices the revenue is not negative, and at least any one approved row's price. */
  lemma {:induction false} RevenueBounds(rows: seq<OrderRow>)
    requires forall k :: 0 <= k < |rows| ==> rows[k].fields.price.GetOr(0) >= 0
    ensures ApprovedRevenue(rows) >= 0
    ensures forall k :: 0 <= k < |rows| && rows[k].fields.status == "approved" ==>
      rows[k].fields.price.GetOr(0) <= ApprovedRevenue(rows)
  {
    if rows != [] {
      RevenueBounds(rows[1..]);
      forall k | 1 <= k < |rows| && rows[k].fields.status == "approved"
        ensures rows[k].fields.price.GetOr(0) <= ApprovedRevenue(rows)
      {
        assert rows[1..][k - 1] == rows[k];
      }
    }
  }

  /** `revenueData?.filter(...).reduce(...) || 0` */
  function TotalRevenue(data: Option<seq<OrderRow>>): (r: int)
    ensures data.None? ==> r == 0
    ensures data.Some? ==> r == ApprovedRevenue(data.value)
  {
    if data.None? then 0 else ApprovedRevenue(data.value)
  }

  datatype Stat = Stat(key: string, count: nat)

  const BookingTypes: seq<string> := ["package", "experience", "trip"]
  const Statuses: seq<string> := ["pending", "approved", "rejected"]

  function HasSourcePage(t: string): OrderRow -> bool {
    (r: OrderRow) => r.fields.sourcePage == t
  }

  function HasStatus(s: string): OrderRow -> bool {
    (r: OrderRow) => r.fields.status == s
  }

  /** `typeStats`: one count per booking type, in the list's order, 0 when there is no data. */
  function TypeStats(data: Option<seq<OrderRow>>): (r: seq<Stat>)
    ensures |r| == |BookingTypes|
    ensures forall k :: 0 <= k < |r| ==>
      r[k].key == BookingTypes[k] && r[k].count == (if data.None? then 0 else |Filter(data.value, HasSourcePage(BookingTypes[k]))|)
  {
    Map(BookingTypes, (t: string) => Stat(t, if data.None? then 0 else |Filter(data.value, HasSourcePage(t))|))
  }

  /** `statusStats`: one count per status, in the list's order, 0 when there is no data. */
  function StatusStats(data: Option<seq<OrderRow>>): (r: seq<Stat>)
    ensures |r| == |Statuses|
    ensures forall k :: 0 <= k < |r| ==>
      r[k].key == Statuses[k] && r[k].count == (if data.None? then 0 else |Filter(data.value, HasStatus(Statuses[k]))|)
  {
    Map(Statuses, (s: string) => Stat(s, if data.None? then 0 else |Filter(data.value, HasStatus(s))|))
  }

  function TotalCount(stats: seq<Stat>): nat {
    if stats == [] then 0 else stats[0].count + TotalCount(stats[1..])
  }

  lemma TotalOfThree(stats: seq<Stat>)
    requires |stats| == 3
    ensures TotalCount(stats) == stats[0].count + stats[1].count + stats[2].count
  {
    var t := stats[1..];
    var u := t[1..];
    assert t[0] == stats[1] && u[0] == stats[2] && u[1..] == [];
    assert TotalCount(u[1..]) == 0;
    assert TotalCount(u) == stats[2].count;
    assert TotalCount(t) == stats[1].count + stats[2].count;
  }

  /** Three filters on distinct values of one column together keep at most every row once. */
  lemma {:induction false} DisjointCountsBounded(rows: seq<OrderRow>, p: OrderRow -> bool, q: OrderRow -> bool, r: OrderRow -> bool)
    requires forall x :: !(p(x) && q(x)) && !(p(x) && r(x)) && !(q(x) && r(x))
    ensures |Filter(rows, p)| + |Filter(rows, q)| + |Filter(rows, r)| <= |rows|
  {
    if rows != [] {
      DisjointCountsBounded(rows[1..], p, q, r);
    }
  }

  /** The type counts, and likewise the status counts, add up to at most the number of rows. */
  lemma {:induction false} StatsBounded(rows: seq<OrderRow>)
    ensures TotalCount(TypeStats(Some(rows))) <= |rows|
    ensures TotalCount(StatusStats(Some(rows))) <= |rows|
  {
    var ts := TypeStats(Some(rows));
    TotalOfThree(ts);
    DisjointCountsBounded(rows, HasSourcePage("package"), HasSourcePage("experience"), HasSourcePage("trip"));
    var ss := StatusStats(Some(rows));
    TotalOfThree(ss);
    DisjointCountsBounded(rows, HasStatus("pending"), HasStatus("approved"), HasStatus("rejected"));
  }

  /**
   * A row with a status outside the list, such as the "confirmed" and "cancelled" the order list
   * sets, changes no status count.
   */
  lemma {:induction false} UnlistedStatusNotCounted(rows: seq<OrderRow>, row: OrderRow)
    requires row.fields.status !in Statuses
    ensures StatusStats(Some(rows + [row])) == StatusStats(Some(rows))
  {
    forall k | 0 <= k < |Statuses| ensures |Filter(rows + [row], HasStatus(Statuses[k]))| == |Filter(rows, HasStatus(Statuses[k]))| {
      FilterAppend(rows, [row], HasStatus(Statuses[k]));
      assert Filter([row], HasStatus(Statuses[k])) == [];
    }
  }

  /** Which queries returned no data. */
  datatype Failures = Failures(count: bool, revenue: bool, types: bool, statuses: bool)

  datatype Figures = Figures(totalOrders: Option<nat>, totalRevenue: int, typeStats: seq<Stat>, statusStats: seq<Stat>)

  /** `fetchAnalytics` over the rows of the orders table. */
  function FetchAnalytics(rows: seq<OrderRow>, f: Failures): (r: Figures)
    ensures r.totalOrders == if f.count then None else Some(|rows|)
    ensures r.totalRevenue == if f.revenue then 0 else ApprovedRevenue(rows)
    ensures r.typeStats == TypeStats(if f.types then None else Some(rows))
    ensures r.statusStats == StatusStats(if f.statuses then None else Some(rows))
  {
    Figures(if f.count then None else Some(|rows|),
            TotalRevenue(if f.revenue then None else Some(rows)),
            TypeStats(if f.types then None else Some(rows)),
            StatusStats(if f.statuses then None else Some(rows)))
  }

  /** With no data every count and the revenue are 0. */
  lemma {:induction false} MissingDataIsZero(rows: seq<OrderRow>)
    ensures var r := FetchAnalytics(rows, Failures(true, true, true, true));
      r.totalRevenue == 0
      && (forall k :: 0 <= k < |r.typeStats| ==> r.typeStats[k].count == 0)
      && (forall k :: 0 <= k < |r.statusStats| ==> r.statusStats[k].count == 0)
  {
  }
}
