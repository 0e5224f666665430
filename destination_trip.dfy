/**
 * The trip page: the trip fetched by the route's id, the fixed texts shown where the trip has no
 * list or text of its own, and the trip's booking at the trip's own price.
 */
module DestinationTrip {
  import opened Wrappers
  import opened JsText
  import opened Seqs
  import opened Store
  import opened Orders
  import opened SubmitUserData
  import opened BookingForm

  /** The columns of a trip the page reads; the optional ones may be missing from the row. */
  datatype Trip = Trip(
    id: string,
    name: string,
    price: int,
    inclusions: Option<seq<string>>,
    exclusions: Option<seq<string>>,
    meetingPoint: Option<string>,
    thingsToRemember: Option<seq<string>>,
    cancellationPolicy: Option<string>
  )

  const DefaultInclusions: seq<string> := [
    "Hotel pick-up and drop-off",
    "All transfers in air-conditioned vehicle",
    "Lunch",
    "Entrance fees to the Egyptian Museum",
    "Entrance to the Pyramids Plateau and the Sphinx",
    "Certified Egyptologist guide",
    "Travel insurance"
  ]

  const DefaultExclusions: seq<string> := [
    "Entrance to get inside any of the Pyramids themselves",
    "Drinks during lunch"
  ]

  const DefaultMeetingPoint: string :=
    "Please meet Egypt Travel " + "representative at your " + "hotel lobby."

  const DefaultThingsToRemember: seq<string> := [
    "Bring your passport, wear comfortable clothes, and bring your hat, sunglasses, water, camera, and money for shopping and tipping.",
    "Entrance fees to get inside the pyramids (Cheops, Mykerinos, or Kefren) are not included. Tickets are limited and must be purchased on site.",
    "Arrange a take-away breakfast box with your hotel reception one day before the tour date.",
    "If your accommodation includes dinner, coordinate with your hotel reception to provide a late dinner at your room upon return.",
    "Leave your accommodation and contact details during the booking process.",
    "Egypt Travel team will contact you 24 hours prior to the tour date to reconfirm the pickup time and location.",
    "For assistance, contact us at 00201006015368 or excursions.booking@egypttravel.com",
    "Tour duration is approximately 18 hours and may change due to operational reasons.",
    "This tour is available in English, German, Italian, and Arabic."
  ]

  const DefaultCancellationPolicy: string :=
    "Receive a 100% refund if " + "you cancel up to 24 hours " + "before the experience begins."

  /** `list && list.length > 0 ? list : fallback` */
  function ListOr(list: Option<seq<string>>, fallback: seq<string>): (r: seq<string>)
    ensures list.Some? && list.value != [] ==> r == list.value
    ensures list.None? || list.value == [] ==> r == fallback
  {
    if list.Some? && |list.value| > 0 then list.value else fallback
  }

  /** `text || fallback`: a missing or empty text is replaced. */
  function TextOr(text: Option<string>, fallback: string): (r: string)
    ensures text.Some? && text.value != "" ==> r == text.value
    ensures text.None? || text.value == "" ==> r == fallback
  {
    if text.Some? && text.value != "" then text.value else fallback
  }

  /** What the page shows for the trip's lists and texts. */
  datatype Shown = Shown(
    inclusions: seq<string>,
    exclusions: seq<string>,
    meetingPoint: string,
    thingsToRemember: seq<string>,
    cancellationPolicy: string
  )

  function ShownDetails(t: Trip): (s: Shown)
    ensures s.inclusions == ListOr(t.inclusions, DefaultInclusions)
    ensures s.exclusions == ListOr(t.exclusions, DefaultExclusions)
    ensures s.meetingPoint == TextOr(t.meetingPoint, DefaultMeetingPoint)
    ensures s.thingsToRemember == ListOr(t.thingsToRemember, DefaultThingsToRemember)
    ensures s.cancellationPolicy == TextOr(t.cancellationPolicy, DefaultCancellationPolicy)
  {
    Shown(ListOr(t.inclusions, DefaultInclusions), ListOr(t.exclusions, DefaultExclusions),
          TextOr(t.meetingPoint, DefaultMeetingPoint), ListOr(t.thingsToRemember, DefaultThingsToRemember),
          TextOr(t.cancellationPolicy, DefaultCancellationPolicy))
  }

  /** Every section of the page has something to show, whatever the trip leaves out. */
  lemma {:induction false} NoSectionIsEmpty(t: Trip)
    ensures var s := ShownDetails(t);
      s.inclusions != [] && s.exclusions != [] && s.meetingPoint != ""
      && s.thingsToRemember != [] && s.cancellationPolicy != ""
  {
    assert |"Please meet Egypt Travel "| > 0 && |"Receive a 100% refund if "| > 0;
  }

  /**
   * The trip `useTrip(tripId)` yields: nothing without a route id, and otherwise the one row with
   * that id; `.single()` fails, and the page shows its not-found branch, unless exactly one row matches.
   */
  function FetchTrip(trips: seq<Trip>, tripId: Option<string>): (r: Option<Trip>)
    ensures r.Some? ==> tripId.Some? && tripId.value != "" && r.value in trips && r.value.id == tripId.value
    ensures r.Some? <==> tripId.Some? && tripId.value != "" && |Filter(trips, (t: Trip) => t.id == tripId.value)| == 1
  {
    if tripId.None? || tripId.value == "" then None
    else
      var matching := Filter(trips, (t: Trip) => t.id == tripId.value);
      if |matching| == 1 then Some(matching[0]) else None
  }

  /** The record `handleSubmit` sends for a trip: the trip's price is taken as it is. */
  function TripBooking(form: Form, trip: Trip): (u: UserData)
    ensures u.sourcePage == "trip" && u.sourceId == trip.id && u.sourceName == trip.name
    ensures u.price == Some(trip.price)
    ensures u.name == form.name && u.email == form.email && u.phone == form.phone && u.date == form.date
    ensures u.people == NumberOf(form.people)
  {
    Record(form, "trip", trip.id, trip.name, trip.price)
  }

  /** `handleSubmit` on the trip page. */
  method HandleSubmit(page: BookingPage, hook: SubmitHook, users: Table<OrderFields>, trip: Trip, env: Environment)
    returns (r: SubmitResult)
    modifies page, hook, users
    ensures var u := TripBooking(old(page.form), trip);
      && r == SubmitOutcome(old(users.rows), u, env)
      && users.rows == (if Inserts(old(users.rows), u, env) then old(users.rows) + [PendingRow(u, env)] else old(users.rows))
    ensures r.success ==> page.success && page.form == EmptyForm
    ensures !r.success ==> page.success == old(page.success) && page.form == old(page.form)
  {
    r := page.Submit(hook, users, TripBooking(page.form, trip), env);
  }
}
