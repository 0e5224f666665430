/**
 * The public price table of a trip or an experience: nothing without tiers, otherwise the tiers
 * sorted by `sort_order`, a missing one read as 0, on a copy of the list.
 */
module PriceTable {
  import opened Wrappers
  import opened Seqs
  import opened Sorting
  import opened Store
  import opened PricingTiers

  /** The key of `(a.sort_order ?? 0) - (b.sort_order ?? 0)`. */
  function SortOrderOrZero(): TierRow -> int {
    (t: TierRow) => t.fields.sortOrder.GetOr(0)
  }

  /** The rows the table shows, or `None` when it renders nothing. */
  function Rows(tiers: Option<seq<TierRow>>): (r: Option<seq<TierRow>>)
    ensures r.None? <==> tiers.None? || tiers.value == []
    ensures r.Some? ==> multiset(r.value) == multiset(tiers.value)
    ensures r.Some? ==> |r.value| == |tiers.value|
  {
    if tiers.None? || tiers.value == [] then None else Some(SortBy(tiers.value, SortOrderOrZero()))
  }

  /** The rows are in non-decreasing `sort_order`, a missing one counted as 0. */
  lemma {:induction false} RowsSorted(tiers: seq<TierRow>)
    requires tiers != []
    ensures var r := Rows(Some(tiers)).value;
      forall i, j :: 0 <= i < j < |r| ==> r[i].fields.sortOrder.GetOr(0) <= r[j].fields.sortOrder.GetOr(0)
  {
    SortBySorted(tiers, SortOrderOrZero());
  }

  /** Tiers with the same sort order keep the order they came in. */
  lemma {:induction false} RowsStable(tiers: seq<TierRow>, k: int)
    requires tiers != []
    ensures Filter(Rows(Some(tiers)).value, KeyIs(SortOrderOrZero(), k)) == Filter(tiers, KeyIs(SortOrderOrZero(), k))
  {
    SortByStable(tiers, SortOrderOrZero(), k);
  }

  /** Tiers already in order, such as those the query returns when every tier has a sort order, are shown as they are. */
  lemma {:induction false} OrderedTiersUnchanged(tiers: seq<TierRow>)
    requires tiers != []
    requires forall i, j :: 0 <= i < j < |tiers| ==> tiers[i].fields.sortOrder.GetOr(0) <= tiers[j].fields.sortOrder.GetOr(0)
    ensures Rows(Some(tiers)) == Some(tiers)
  {
    SortBySortedInput(tiers, SortOrderOrZero());
  }
}
