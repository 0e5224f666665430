/**
 * The `pricing_tiers` table and the hook that reads and writes it: the query for one trip or one
 * experience, ordered by `sort_order`, and the create, update and delete calls with their
 * payload shaping (`coerceTrip`, `Number(price)`).
 */
module PricingTiers {
  import opened Wrappers
  import opened JsText
  import opened Seqs
  import opened Sorting
  import opened Store

  /** A stored tier. The trip column holds an integer or `null`. */
  datatype Tier = Tier(
    tripId: Option<int>,
    experienceId: Option<string>,
    peopleCount: Option<int>,
    price: int,
    currency: string,
    sortOrder: Option<int>
  )

  type TierRow = Row<Tier>

  /** A `tripId` as the callers pass it: absent, `null`, a text, or a number. */
  datatype TripRef = NoTrip | NullTrip | TripText(text: string) | TripNumber(number: JsNumber)

  /** `coerceTrip`: absent, `null` and `""` become `null`; a number is kept; a text goes through `Number()`. */
  function CoerceTrip(v: TripRef): (r: Option<JsNumber>)
    ensures r.None? <==> v == NoTrip || v == NullTrip || v == TripText("")
    ensures v.TripNumber? ==> r == Some(v.number)
  {
    match v
    case NoTrip => None
    case NullTrip => None
    case TripText(s) => if s == "" then None else Some(ToNumber(s))
    case TripNumber(n) => Some(n)
  }

  /**
   * The trip column a coerced id reaches: the request body is JSON, and `JSON.stringify` writes
   * `NaN` as `null`.
   */
  function TripColumn(c: Option<JsNumber>): (r: Option<int>)
    ensures r.Some? <==> c.Some? && c.value.Num?
    ensures r.Some? ==> c == Some(Num(r.value))
  {
    if c.Some? && c.value.Num? then Some(c.value.value) else None
  }

  /** A trip id given as its decimal text is read as that number. */
  lemma {:induction false} CoerceTripText(n: int)
    ensures CoerceTrip(TripText(IntToString(n))) == Some(Num(n))
  {
    NumberOfIntToString(n);
  }

  /** `Boolean(x)` for the two ids: `0`, `NaN` and `""` are falsy. */
  predicate TripTruthy(v: TripRef) {
    match v
    case NoTrip => false
    case NullTrip => false
    case TripText(s) => s != ""
    case TripNumber(n) => n.Num? && n.value != 0
  }

  predicate ExperienceTruthy(e: Option<string>) {
    e.Some? && e.value != ""
  }

  /** `enabled: Boolean(tripId || experienceId)` */
  predicate QueryEnabled(tripId: TripRef, experienceId: Option<string>) {
    TripTruthy(tripId) || ExperienceTruthy(experienceId)
  }

  // ---------------------------------------------------------------------------
  // The query

  /** The `eq` filters a query carries. */
  datatype TierQuery = TierQuery(trip: Option<JsNumber>, experience: Option<string>)

  /** The `eq` filters hold; no stored trip equals `NaN`, so a `NaN` trip filter matches no row. */
  predicate MatchesQuery(t: Tier, q: TierQuery) {
    (q.trip.None? || (q.trip.value.Num? && t.tripId == Some(q.trip.value.value)))
    && (q.experience.None? || t.experienceId == q.experience)
  }

  function MatchesQueryBy(q: TierQuery): TierRow -> bool {
    (row: TierRow) => MatchesQuery(row.fields, q)
  }

  function SortOrders(rows: seq<TierRow>): (r: seq<int>)
    ensures |r| == |rows|
    ensures forall k :: 0 <= k < |rows| ==> r[k] == rows[k].fields.sortOrder.GetOr(0)
  {
    Map(rows, (row: TierRow) => row.fields.sortOrder.GetOr(0))
  }

  /**
   * The key of `order('sort_order', { ascending: true })`: the database puts rows without a
   * `sort_order` after all others (`NULLS LAST`), modelled by a key above every present value.
   */
  function AscendingNullsLast(rows: seq<TierRow>): TierRow -> int {
    var last := if rows == [] then 0 else MaxOf(SortOrders(rows)) + 1;
    (row: TierRow) => if row.fields.sortOrder.Some? then row.fields.sortOrder.value else last
  }

  /** The rows a query returns: the matching rows in ascending `sort_order`, rows without one last. */
  function Execute(rows: seq<TierRow>, q: TierQuery): (r: seq<TierRow>)
    ensures multiset(r) == multiset(Filter(rows, MatchesQueryBy(q)))
  {
    var matching := Filter(rows, MatchesQueryBy(q));
    SortBy(matching, AscendingNullsLast(matching))
  }

  /** `queryFn`: the query with its conditional filters, then the rows or the error thrown. */
  method QueryFn(table: Table<Tier>, tripId: TripRef, experienceId: Option<string>, failure: Option<StoreError>)
    returns (r: Result<seq<TierRow>, StoreError>)
    ensures failure.Some? ==> r == Err(failure.value)
    ensures failure.None? ==> r.Ok? && r.value == Execute(table.rows, QueryFor(tripId, experienceId))
  {
    var query := TierQuery(None, None);
    if tripId != NoTrip && tripId != NullTrip && tripId != TripText("") {
      var numId := if tripId.TripNumber? then tripId.number else ToNumber(tripId.text);
      query := query.(trip := Some(numId));
    }
    if ExperienceTruthy(experienceId) {
      query := query.(experience := experienceId);
    }
    if failure.Some? {
      return Err(failure.value);
    }
    r := Ok(Execute(table.rows, query));
  }

  /** The filters `queryFn` applies: the trip filter needs a non-empty id, the experience filter a truthy one. */
  function QueryFor(tripId: TripRef, experienceId: Option<string>): (q: TierQuery)
    ensures q.trip == CoerceTrip(tripId)
    ensures q.experience.Some? <==> ExperienceTruthy(experienceId)
    ensures q.experience.Some? ==> q.experience == experienceId
  {
    TierQuery(CoerceTrip(tripId), if ExperienceTruthy(experienceId) then experienceId else None)
  }

  /** Every present `sort_order` is below the key given to rows without one. */
  lemma {:induction false} PresentBelowMissing(rows: seq<TierRow>, x: TierRow, y: TierRow)
    requires x in rows && x.fields.sortOrder.Some? && y.fields.sortOrder.None?
    ensures AscendingNullsLast(rows)(x) < AscendingNullsLast(rows)(y)
  {
    var m :| 0 <= m < |rows| && rows[m] == x;
    assert SortOrders(rows)[m] == x.fields.sortOrder.value;
  }

  /** The query returns exactly the stored rows that match it. */
  lemma {:induction false} ExecuteContents(rows: seq<TierRow>, q: TierQuery)
    ensures var r := Execute(rows, q);
      && (forall k :: 0 <= k < |r| ==> r[k] in rows && MatchesQuery(r[k].fields, q))
      && (forall k :: 0 <= k < |rows| && MatchesQuery(rows[k].fields, q) ==> rows[k] in r)
  {
    var matching := Filter(rows, MatchesQueryBy(q));
    var r := Execute(rows, q);
    forall k | 0 <= k < |r| ensures r[k] in rows && MatchesQuery(r[k].fields, q) {
      assert r[k] in multiset(matching);
    }
    forall k | 0 <= k < |rows| && MatchesQuery(rows[k].fields, q) ensures rows[k] in r {
      assert rows[k] in multiset(matching);
    }
  }

  /** The rows come in ascending `sort_order`, and rows without one come after all others. */
  lemma {:induction false} ExecuteOrdered(rows: seq<TierRow>, q: TierQuery)
    ensures var r := Execute(rows, q);
      forall i, j :: 0 <= i < j < |r| && r[j].fields.sortOrder.Some? ==>
        r[i].fields.sortOrder.Some? && r[i].fields.sortOrder.value <= r[j].fields.sortOrder.value
  {
    var matching := Filter(rows, MatchesQueryBy(q));
    var key := AscendingNullsLast(matching);
    var r := Execute(rows, q);
    SortBySorted(matching, key);
    forall i, j | 0 <= i < j < |r| && r[j].fields.sortOrder.Some?
      ensures r[i].fields.sortOrder.Some? && r[i].fields.sortOrder.value <= r[j].fields.sortOrder.value
    {
      assert key(r[i]) <= key(r[j]);
      assert r[j] in multiset(matching);
      if r[i].fields.sortOrder.None? {
        PresentBelowMissing(matching, r[j], r[i]);
      }
    }
  }

  /**
   * An enabled query always filters: a truthy trip id or experience id puts its `eq` on the query.
   * (The converse fails only for the trip id `0`, which filters but leaves the query disabled.)
   */
  lemma EnabledQueryFilters(tripId: TripRef, experienceId: Option<string>)
    requires QueryEnabled(tripId, experienceId)
    ensures QueryFor(tripId, experienceId) != TierQuery(None, None)
  {
  }

  // ---------------------------------------------------------------------------
  // Create, update, delete

  /** What the editor passes to `createPricingTier`. */
  datatype TierInsert = TierInsert(
    tripId: TripRef,
    experienceId: Option<string>,
    peopleCount: Option<int>,
    price: int,
    currency: string,
    sortOrder: Option<int>
  )

  /** `{ ...payload, trip_id: coerceTrip(payload.trip_id), price: Number(payload.price) }`, as stored */
  function CreateFields(p: TierInsert): Tier {
    Tier(TripColumn(CoerceTrip(p.tripId)), p.experienceId, p.peopleCount, p.price, p.currency, p.sortOrder)
  }

  /**
   * A created tier is found by the query for the trip it was created for exactly when that trip id
   * is a number, and by the query of the experience it was created for.
   */
  lemma {:induction false} CreatedTierIsListed(p: TierInsert, id: string, now: int)
    requires p.tripId.TripNumber? || ExperienceTruthy(p.experienceId)
    ensures p.tripId.TripNumber? ==>
      (MatchesQuery(CreateFields(p), QueryFor(p.tripId, None)) <==> p.tripId.number.Num?)
    ensures ExperienceTruthy(p.experienceId) && !p.tripId.TripNumber? && CoerceTrip(p.tripId).None? ==>
      Row(id, now, CreateFields(p)) in Execute([Row(id, now, CreateFields(p))], QueryFor(NoTrip, p.experienceId))
  {
    if ExperienceTruthy(p.experienceId) && CoerceTrip(p.tripId).None? {
      ExecuteContents([Row(id, now, CreateFields(p))], QueryFor(NoTrip, p.experienceId));
    }
  }

  /**
   * A trip text that `Number()` reads as `NaN` is stored as `null`: the tier belongs to no trip,
   * and the query for that text finds no row at all.
   */
  lemma {:induction false} NaNTripIsLost(p: TierInsert, t: Tier, experienceId: Option<string>)
    requires CoerceTrip(p.tripId) == Some(NaN)
    ensures CreateFields(p).tripId == None
    ensures !MatchesQuery(t, QueryFor(p.tripId, experienceId))
    ensures Execute([Row("", 0, t)], QueryFor(p.tripId, experienceId)) == []
  {
    var q := QueryFor(p.tripId, experienceId);
    assert Filter([Row("", 0, t)], MatchesQueryBy(q)) == [];
  }

  /** `createPricingTier(payload)`: the new row, or the store's error rethrown. */
  method CreatePricingTier(table: Table<Tier>, p: TierInsert, newId: string, now: int, refusal: Option<StoreError>)
    returns (r: Result<TierRow, StoreError>)
    modifies table
    ensures refusal.Some? ==> r == Err(refusal.value) && table.rows == old(table.rows)
    ensures refusal.None? ==> r == Ok(Row(newId, now, CreateFields(p))) && table.rows == old(table.rows) + [r.value]
  {
    r := table.Insert(CreateFields(p), newId, now, refusal);
  }

  /**
   * A `Partial<PricingTier>`: each field absent (`None`) or given; `sortOrder` may be given as
   * `null`. `tripId` is `NoTrip` when the payload has no `trip_id`.
   */
  datatype TierPatch = TierPatch(
    tripId: TripRef,
    peopleCount: Option<int>,
    price: Option<int>,
    sortOrder: Option<Option<int>>
  )

  /** The fields other than `trip_id`: a given field replaces the stored one, an absent one keeps it. */
  function PatchOtherFields(t: Tier, p: TierPatch): (r: Tier)
    ensures r.tripId == t.tripId && r.experienceId == t.experienceId && r.currency == t.currency
    ensures r.peopleCount == (if p.peopleCount.Some? then p.peopleCount else t.peopleCount)
    ensures r.price == p.price.GetOr(t.price)
    ensures r.sortOrder == p.sortOrder.GetOr(t.sortOrder)
  {
    t.(peopleCount := if p.peopleCount.Some? then p.peopleCount else t.peopleCount,
       price := p.price.GetOr(t.price),
       sortOrder := p.sortOrder.GetOr(t.sortOrder))
  }

  /**
   * `updatePricingTier` as written: `trip_id: coerceTrip(payload.trip_id)` is always part of the
   * update, so a payload without `trip_id` writes `null` into the column.
   */
  function UpdateAsWritten(p: TierPatch): (f: Tier -> Tier)
    ensures forall t :: f(t).tripId == TripColumn(CoerceTrip(p.tripId))
    ensures forall t :: f(t).(tripId := t.tripId) == PatchOtherFields(t, p)
  {
    (t: Tier) => PatchOtherFields(t, p).(tripId := TripColumn(CoerceTrip(p.tripId)))
  }

  /** `updatePricingTier` as intended: `trip_id` is written only when the payload has one. */
  function UpdateIntended(p: TierPatch): (f: Tier -> Tier)
    ensures forall t :: f(t).tripId == if p.tripId == NoTrip then t.tripId else TripColumn(CoerceTrip(p.tripId))
    ensures forall t :: f(t).(tripId := t.tripId) == PatchOtherFields(t, p)
  {
    (t: Tier) => PatchOtherFields(t, p).(tripId := if p.tripId == NoTrip then t.tripId else TripColumn(CoerceTrip(p.tripId)))
  }

  /**
   * An edit that does not mention the trip, such as the editor's (people count, price and sort
   * order only), detaches a trip's tier as written: the tier is no longer found by its trip's query.
   */
  lemma {:induction false} EditDetachesTripAsWritten(t: Tier, n: int, p: TierPatch)
    requires t.tripId == Some(n) && p.tripId == NoTrip
    ensures MatchesQuery(t, QueryFor(TripNumber(Num(n)), None))
    ensures UpdateAsWritten(p)(t).tripId == None
    ensures !MatchesQuery(UpdateAsWritten(p)(t), QueryFor(TripNumber(Num(n)), None))
  {
  }

  /**
   * With the intended update an edit keeps the tier's trip and experience, so the tier stays in
   * every query that listed it; the other fields are those of the patch where it gives them.
   */
  lemma {:induction false} EditKeepsTarget(t: Tier, p: TierPatch, q: TierQuery)
    requires p.tripId == NoTrip && MatchesQuery(t, q)
    ensures MatchesQuery(UpdateIntended(p)(t), q)
    ensures UpdateIntended(p)(t) == PatchOtherFields(t, p)
  {
  }

  /** An update that does give a trip id moves the tier to that trip, in both versions. */
  lemma {:induction false} GivenTripIsWritten(t: Tier, p: TierPatch)
    requires p.tripId != NoTrip
    ensures UpdateIntended(p)(t) == UpdateAsWritten(p)(t)
    ensures UpdateIntended(p)(t).tripId == TripColumn(CoerceTrip(p.tripId))
  {
  }

  /** `updatePricingTier(id, payload)` with the intended payload shaping; a store error is rethrown. */
  method UpdatePricingTier(table: Table<Tier>, id: string, p: TierPatch, refusal: Option<StoreError>)
    returns (error: Option<StoreError>)
    modifies table
    ensures error == refusal
    ensures table.rows == if refusal.Some? then old(table.rows) else UpdateWhereId(old(table.rows), id, UpdateIntended(p))
  {
    error := table.Update(id, UpdateIntended(p), refusal);
  }

  /** `deletePricingTier(id)`: `true`, or the store's error rethrown. */
  method DeletePricingTier(table: Table<Tier>, id: string, refusal: Option<StoreError>)
    returns (r: Result<bool, StoreError>)
    modifies table
    ensures r == if refusal.Some? then Err(refusal.value) else Ok(true)
    ensures table.rows == if refusal.Some? then old(table.rows) else DeleteWhereId(old(table.rows), id)
  {
    var e := table.Delete(id, refusal);
    r := if e.Some? then Err(e.value) else Ok(true);
  }
}
