/**
 * The back-office editor of one trip's or one experience's pricing tiers: a draft row for a new
 * tier, an edit row for an existing one, and the add, save and remove actions with their guards.
 */
module PricingTiersEditor {
  import opened Wrappers
  import opened JsText
  import opened Seqs
  import opened Store
  import opened PricingTiers

  /** The draft of a new tier; `None` is an input left empty. */
  datatype Draft = Draft(peopleCount: Option<int>, price: Option<int>, sortOrder: Option<int>)

  const EmptyDraft := Draft(None, None, None)

  /** The fields of the row being edited, initialised from the stored tier. */
  datatype EditRow = EditRow(peopleCount: Option<int>, price: Option<int>, sortOrder: Option<int>)

  const EmptyEditRow := EditRow(None, None, None)

  /** `hasTarget`: a trip id or an experience id that is present and not empty. */
  predicate HasTarget(tripId: TripRef, experienceId: Option<string>) {
    CoerceTrip(tripId).Some? || (experienceId.Some? && experienceId.value != "")
  }

  /** An edit is open when `editingId` is truthy: present and not empty. */
  predicate Editing(editingId: Option<string>) {
    editingId.Some? && editingId.value != ""
  }

  /** `nextSortOrder`: 1 for no tiers, otherwise one more than the largest `sort_order` (missing ones read as 0). */
  function NextSortOrder(tiers: seq<TierRow>): (n: int)
    ensures tiers == [] ==> n == 1
    ensures forall k :: 0 <= k < |tiers| ==> tiers[k].fields.sortOrder.GetOr(0) < n
    ensures tiers != [] ==> exists k :: 0 <= k < |tiers| && n == tiers[k].fields.sortOrder.GetOr(0) + 1
  {
    if tiers == [] then 1 else MaxOf(SortOrders(tiers)) + 1
  }

  /** The guard of `handleAdd`: a positive people count and a price. */
  predicate DraftComplete(d: Draft) {
    d.peopleCount.Some? && d.peopleCount.value > 0 && d.price.Some?
  }

  /** The payload `handleAdd` creates from a complete draft. */
  function NewTierPayload(tripId: TripRef, experienceId: Option<string>, d: Draft, tiers: seq<TierRow>): (p: TierInsert)
    requires DraftComplete(d)
    ensures p.currency == "USD"
    ensures p.sortOrder == Some(d.sortOrder.GetOr(NextSortOrder(tiers)))
    ensures p.peopleCount == d.peopleCount && p.price == d.price.value
    ensures CoerceTrip(p.tripId) == CoerceTrip(tripId)
    ensures p.experienceId == if experienceId.Some? && experienceId.value != "" then experienceId else None
  {
    var tripIdValue := CoerceTrip(tripId);
    TierInsert(
      if tripIdValue.Some? then TripNumber(tripIdValue.value) else NullTrip,
      if experienceId.Some? && experienceId.value != "" then experienceId else None,
      d.peopleCount, d.price.value, "USD",
      Some(d.sortOrder.GetOr(NextSortOrder(tiers))))
  }

  /** The payload `saveEdit` sends: people count, price and sort order, never the trip. */
  function EditPayload(e: EditRow): (p: TierPatch)
    ensures p.tripId == NoTrip
  {
    TierPatch(NoTrip, e.peopleCount, e.price, Some(e.sortOrder))
  }

  /** The message `remove` shows: the error's message, or a fixed text when it has none. */
  function RemoveErrorMessage(e: StoreError): (m: string)
    ensures m != ""
    ensures e.message != "" ==> m == e.message
  {
    if e.message != "" then e.message else "Failed to delete"
  }

  class Editor {
    const tripId: TripRef
    const experienceId: Option<string>
    var tiers: seq<TierRow>
    var adding: bool
    var newTier: Draft
    var saving: bool
    var editingId: Option<string>
    var editRow: EditRow
    var errorMsg: Option<string>

    constructor (tripId: TripRef, experienceId: Option<string>)
      ensures this.tripId == tripId && this.experienceId == experienceId
      ensures tiers == [] && !adding && newTier == EmptyDraft && !saving
      ensures editingId == None && editRow == EmptyEditRow && errorMsg == None
    {
      this.tripId := tripId;
      this.experienceId := experienceId;
      tiers := [];
      adding := false;
      newTier := EmptyDraft;
      saving := false;
      editingId := None;
      editRow := EmptyEditRow;
      errorMsg := None;
    }

    /**
     * `refetch()`: the tiers of this editor's trip or experience, as the query returns them. A
     * failed query does not throw out of `refetch()`; the tiers already loaded stay.
     */
    method Refetch(table: Table<Tier>, failure: Option<StoreError>)
      modifies this
      ensures tiers == if failure.Some? then old(tiers) else Execute(table.rows, QueryFor(tripId, experienceId))
      ensures adding == old(adding) && newTier == old(newTier) && saving == old(saving)
      ensures editingId == old(editingId) && editRow == old(editRow) && errorMsg == old(errorMsg)
    {
      var r := QueryFn(table, tripId, experienceId, failure);
      if r.Ok? {
        tiers := r.value;
      }
    }

    /** The "add row" button: a draft proposing the next sort order. */
    method StartAdding()
      modifies this
      ensures newTier == EmptyDraft.(sortOrder := Some(NextSortOrder(tiers))) && adding
      ensures tiers == old(tiers) && saving == old(saving) && editingId == old(editingId)
      ensures editRow == old(editRow) && errorMsg == old(errorMsg)
    {
      newTier := EmptyDraft.(sortOrder := Some(NextSortOrder(tiers)));
      adding := true;
    }

    /**
     * `handleAdd`. Nothing is created for an incomplete draft or without a target; a store error
     * is rethrown as `thrown` and leaves the draft as it was. `refetchFailure` is the outcome of
     * the `refetch()` after a created tier.
     */
    method HandleAdd(table: Table<Tier>, newId: string, now: int, refusal: Option<StoreError>, refetchFailure: Option<StoreError>)
      returns (thrown: Option<StoreError>)
      modifies this, table
      ensures !DraftComplete(old(newTier)) ==>
        thrown == None && table.rows == old(table.rows) && tiers == old(tiers) && adding == old(adding)
        && newTier == old(newTier) && saving == old(saving) && errorMsg == old(errorMsg)
      ensures DraftComplete(old(newTier)) && !HasTarget(tripId, experienceId) ==>
        thrown == None && table.rows == old(table.rows) && tiers == old(tiers) && adding == old(adding)
        && newTier == old(newTier) && !saving && errorMsg == old(errorMsg)
      ensures DraftComplete(old(newTier)) && HasTarget(tripId, experienceId) ==>
        var payload := NewTierPayload(tripId, experienceId, old(newTier), old(tiers));
        if refusal.Some? then
          thrown == refusal && table.rows == old(table.rows) && tiers == old(tiers) && adding == old(adding)
          && newTier == old(newTier) && !saving && errorMsg == old(errorMsg)
        else
          thrown == None && table.rows == old(table.rows) + [Row(newId, now, CreateFields(payload))]
          && tiers == (if refetchFailure.Some? then old(tiers) else Execute(table.rows, QueryFor(tripId, experienceId)))
          && newTier == EmptyDraft && !adding && !saving && errorMsg == None
      ensures editingId == old(editingId) && editRow == old(editRow)
    {
      thrown := None;
      if newTier.peopleCount.None? || newTier.peopleCount.value <= 0 || newTier.price.None? {
        return;
      }
      saving := true;
      var tripIdValue := CoerceTrip(tripId);
      var expIdValue := if experienceId.Some? && experienceId.value != "" then experienceId else None;
      if tripIdValue.None? && expIdValue.None? {
        saving := false;
        return;
      }
      var payload := NewTierPayload(tripId, experienceId, newTier, tiers);
      var created := CreatePricingTier(table, payload, newId, now, refusal);
      if created.Err? {
        thrown := Some(created.error);
        saving := false;
        return;
      }
      newTier := EmptyDraft;
      adding := false;
      Refetch(table, refetchFailure);
      errorMsg := None;
      saving := false;
    }

    /** `startEdit(row)` */
    method StartEdit(row: TierRow)
      modifies this
      ensures editingId == Some(row.id)
      ensures editRow == EditRow(row.fields.peopleCount, Some(row.fields.price), row.fields.sortOrder)
      ensures tiers == old(tiers) && adding == old(adding) && newTier == old(newTier)
      ensures saving == old(saving) && errorMsg == old(errorMsg)
    {
      editingId := Some(row.id);
      editRow := EditRow(row.fields.peopleCount, Some(row.fields.price), row.fields.sortOrder);
    }

    /**
     * `saveEdit`, with the intended update: the edited tier keeps its trip. Without a tier being
     * edited nothing happens; a store error is rethrown and the edit stays open. `refetchFailure`
     * is the outcome of the `refetch()` after a saved edit.
     */
    method SaveEdit(table: Table<Tier>, refusal: Option<StoreError>, refetchFailure: Option<StoreError>)
      returns (thrown: Option<StoreError>)
      modifies this, table
      ensures !Editing(old(editingId)) ==>
        thrown == None && table.rows == old(table.rows) && tiers == old(tiers) && saving == old(saving)
        && editingId == old(editingId) && editRow == old(editRow) && errorMsg == old(errorMsg)
      ensures Editing(old(editingId)) && refusal.Some? ==>
        thrown == refusal && table.rows == old(table.rows) && tiers == old(tiers) && !saving
        && editingId == old(editingId) && editRow == old(editRow) && errorMsg == old(errorMsg)
      ensures Editing(old(editingId)) && refusal.None? ==>
        thrown == None
        && table.rows == UpdateWhereId(old(table.rows), old(editingId).value, UpdateIntended(EditPayload(old(editRow))))
        && tiers == (if refetchFailure.Some? then old(tiers) else Execute(table.rows, QueryFor(tripId, experienceId)))
        && editingId == None && editRow == EmptyEditRow && !saving && errorMsg == None
      ensures adding == old(adding) && newTier == old(newTier)
    {
      thrown := None;
      if editingId.Some? && editingId.value != "" {
        var id := editingId.value;
        var patch := EditPayload(editRow);
        saving := true;
        thrown := UpdatePricingTier(table, id, patch, refusal);
        saving := false;
        if thrown.None? {
          CloseEdit(table, refetchFailure);
        }
      }
    }

    /** The success branch of `saveEdit`: the edit row is closed and the tiers are fetched again. */
    method CloseEdit(table: Table<Tier>, refetchFailure: Option<StoreError>)
      modifies this
      ensures tiers == if refetchFailure.Some? then old(tiers) else Execute(table.rows, QueryFor(tripId, experienceId))
      ensures editingId == None && editRow == EmptyEditRow && errorMsg == None
      ensures adding == old(adding) && newTier == old(newTier) && saving == old(saving)
    {
      editingId := None;
      editRow := EmptyEditRow;
      Refetch(table, refetchFailure);
      errorMsg := None;
    }

    /**
     * `remove(id)`: a failure of the delete is shown in `errorMsg` instead of being thrown.
     * `refetchFailure` is the outcome of the `refetch()` after the delete.
     */
    method Remove(table: Table<Tier>, id: string, refusal: Option<StoreError>, refetchFailure: Option<StoreError>)
      modifies this, table
      ensures refusal.Some? ==>
        table.rows == old(table.rows) && tiers == old(tiers) && errorMsg == Some(RemoveErrorMessage(refusal.value))
      ensures refusal.None? ==>
        table.rows == DeleteWhereId(old(table.rows), id)
        && tiers == (if refetchFailure.Some? then old(tiers) else Execute(table.rows, QueryFor(tripId, experienceId)))
        && errorMsg == None
      ensures adding == old(adding) && newTier == old(newTier) && saving == old(saving)
      ensures editingId == old(editingId) && editRow == old(editRow)
    {
      var r := DeletePricingTier(table, id, refusal);
      if r.Err? {
        errorMsg := Some(RemoveErrorMessage(r.error));
        return;
      }
      Refetch(table, refetchFailure);
      errorMsg := None;
    }
  }

  /** A tier created with the proposed sort order comes after every tier already listed. */
  lemma {:induction false} ProposedSortOrderIsLast(tiers: seq<TierRow>, tripId: TripRef, experienceId: Option<string>, d: Draft)
    requires DraftComplete(d) && d.sortOrder == Some(NextSortOrder(tiers))
    ensures var p := NewTierPayload(tripId, experienceId, d, tiers);
      forall k :: 0 <= k < |tiers| ==> tiers[k].fields.sortOrder.GetOr(0) < p.sortOrder.value
  {
  }

  /** `hasTarget` is the condition under which `handleAdd` reaches the store. */
  lemma {:induction false} TargetMeansPayloadTarget(tripId: TripRef, experienceId: Option<string>, d: Draft, tiers: seq<TierRow>)
    requires DraftComplete(d)
    ensures var p := NewTierPayload(tripId, experienceId, d, tiers);
      HasTarget(tripId, experienceId) <==> CoerceTrip(p.tripId).Some? || p.experienceId.Some?
  {
  }
}
