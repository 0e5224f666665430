/**
 * The experience page: the experience of the route found among the loaded experiences, and its
 * booking, priced from the first number in the experience's price text.
 */
module ExperiencesDetails {
  import opened Wrappers
  import opened JsText
  import opened Store
  import opened Orders
  import opened SubmitUserData
  import opened BookingForm

  /** The columns of an experience the page's booking logic reads. */
  datatype Experience = Experience(id: string, title: string, price: string)

  /** `experiences.find((e) => String(e.id) === String(id))`; `None` shows the not-found branch. */
  function FindExperience(experiences: seq<Experience>, routeId: Option<string>): (r: Option<Experience>)
    ensures r.Some? ==> exists k :: 0 <= k < |experiences| && experiences[k] == r.value && r.value.id == RouteText(routeId)
                                   && forall j :: 0 <= j < k ==> experiences[j].id != RouteText(routeId)
    ensures r.None? <==> forall k :: 0 <= k < |experiences| ==> experiences[k].id != RouteText(routeId)
  {
    FindByRoute(experiences, (e: Experience) => e.id, routeId)
  }

  /** The record `handleSubmit` sends for an experience. */
  function ExperienceBooking(form: Form, exp: Experience): (u: UserData)
    ensures u.sourcePage == "experience" && u.sourceId == exp.id && u.sourceName == exp.title
    ensures u.price == Some(ExtractPrice(exp.price))
    ensures u.name == form.name && u.email == form.email && u.phone == form.phone && u.date == form.date
    ensures u.people == NumberOf(form.people)
  {
    Record(form, "experience", exp.id, exp.title, ExtractPrice(exp.price))
  }

  /** `handleSubmit` on the experience page. */
  method HandleSubmit(page: BookingPage, hook: SubmitHook, users: Table<OrderFields>, exp: Experience, env: Environment)
    returns (r: SubmitResult)
    modifies page, hook, users
    ensures var u := ExperienceBooking(old(page.form), exp);
      && r == SubmitOutcome(old(users.rows), u, env)
      && users.rows == (if Inserts(old(users.rows), u, env) then old(users.rows) + [PendingRow(u, env)] else old(users.rows))
    ensures r.success ==> page.success && page.form == EmptyForm
    ensures !r.success ==> page.success == old(page.success) && page.form == old(page.form)
  {
    r := page.Submit(hook, users, ExperienceBooking(page.form, exp), env);
  }
}
