/**
 * The public destinations page: the published destinations narrowed by a search box, a region
 * select and an activity select, each of which lets everything through with its default.
 */
module Destinations {
  import opened JsText
  import opened Seqs

  datatype Destination = Destination(name: string, description: string, region: string, activities: seq<string>)

  /** The values of the region select; "all" is its default. */
  const Regions: seq<string> := ["all", "Red Sea", "Western Desert", "Upper Egypt", "Mediterranean Coast", "Middle Egypt"]

  /** The values of the activity select; "all" is its default. */
  const Activities: seq<string> := ["all", "beach", "desert", "cultural", "historical", "diving", "adventure"]

  predicate MatchesSearch(d: Destination, term: string) {
    ContainsIgnoringCase(d.name, term) || ContainsIgnoringCase(d.description, term)
  }

  predicate MatchesRegion(d: Destination, region: string) {
    region == "all" || d.region == region
  }

  predicate MatchesActivity(d: Destination, activity: string) {
    activity == "all" || activity in d.activities
  }

  predicate Shown(d: Destination, term: string, region: string, activity: string) {
    MatchesSearch(d, term) && MatchesRegion(d, region) && MatchesActivity(d, activity)
  }

  function ShownBy(term: string, region: string, activity: string): Destination -> bool {
    (d: Destination) => Shown(d, term, region, activity)
  }

  /** `filteredDestinations`: exactly the destinations that pass the search and both selects. */
  function FilteredDestinations(ds: seq<Destination>, term: string, region: string, activity: string)
    : (r: seq<Destination>)
    ensures forall k :: 0 <= k < |r| ==> r[k] in ds && Shown(r[k], term, region, activity)
    ensures forall k :: 0 <= k < |ds| && Shown(ds[k], term, region, activity) ==> ds[k] in r
  {
    Filter(ds, ShownBy(term, region, activity))
  }

  /** The page lists the destinations in the order they were loaded. */
  lemma {:induction false} FilteredKeepsOrder(ds: seq<Destination>, term: string, region: string, activity: string)
    ensures IsSubsequence(FilteredDestinations(ds, term, region, activity), ds)
  {
    FilterIsSubsequence(ds, ShownBy(term, region, activity));
  }

  /** With the page's initial state every destination is listed. */
  lemma {:induction false} DefaultsShowAll(ds: seq<Destination>)
    ensures FilteredDestinations(ds, "", "all", "all") == ds
  {
    forall k | 0 <= k < |ds| ensures Shown(ds[k], "", "all", "all") {
      EmptyTermMatches(ds[k].name);
    }
    FilterKeepsAll(ds, ShownBy("", "all", "all"));
  }

  /** A term and its lower case find the same destinations. */
  lemma {:induction false} SearchIgnoresCase(d: Destination, term: string)
    ensures MatchesSearch(d, ToLower(term)) == MatchesSearch(d, term)
  {
    LowerTermMatchesAlike(d.name, term);
    LowerTermMatchesAlike(d.description, term);
  }

  /** A region other than "all" keeps only destinations of exactly that region. */
  lemma {:induction false} RegionIsExact(ds: seq<Destination>, term: string, region: string, activity: string)
    requires region != "all"
    ensures forall d :: d in FilteredDestinations(ds, term, region, activity) ==> d.region == region
  {
    var r := FilteredDestinations(ds, term, region, activity);
    forall d | d in r ensures d.region == region {
      var k :| 0 <= k < |r| && r[k] == d;
    }
  }

  /** An activity other than "all" keeps only destinations that list it. */
  lemma {:induction false} ActivityIsListed(ds: seq<Destination>, term: string, region: string, activity: string)
    requires activity != "all"
    ensures forall d :: d in FilteredDestinations(ds, term, region, activity) ==> activity in d.activities
  {
    var r := FilteredDestinations(ds, term, region, activity);
    forall d | d in r ensures activity in d.activities {
      var k :| 0 <= k < |r| && r[k] == d;
    }
  }

  /** Choosing a region or an activity never lists more destinations than "all" does. */
  lemma {:induction false} SelectsOnlyNarrow(ds: seq<Destination>, term: string, region: string, activity: string)
    ensures |FilteredDestinations(ds, term, region, activity)| <= |FilteredDestinations(ds, term, "all", "all")|
  {
    FilterImplied(ds, ShownBy(term, region, activity), ShownBy(term, "all", "all"));
  }
}
