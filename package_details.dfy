/**
 * The package page: the package of the route found among the loaded packages, and its booking,
 * priced from the first number in the package's price text.
 */
module PackageDetails {
  import opened Wrappers
  import opened JsText
  import opened Store
  import opened Orders
  import opened SubmitUserData
  import opened BookingForm

  /** The columns of a package the page's booking logic reads. */
  datatype Package = Package(id: string, title: string, price: string)

  /** `packages.find((p) => String(p.id) === String(id))`; `None` shows the not-found branch. */
  function FindPackage(packages: seq<Package>, routeId: Option<string>): (r: Option<Package>)
    ensures r.Some? ==> exists k :: 0 <= k < |packages| && packages[k] == r.value && r.value.id == RouteText(routeId)
                                   && forall j :: 0 <= j < k ==> packages[j].id != RouteText(routeId)
    ensures r.None? <==> forall k :: 0 <= k < |packages| ==> packages[k].id != RouteText(routeId)
  {
    FindByRoute(packages, (p: Package) => p.id, routeId)
  }

  /** The record `handleSubmit` sends for a package. */
  function PackageBooking(form: Form, pkg: Package): (u: UserData)
    ensures u.sourcePage == "package" && u.sourceId == pkg.id && u.sourceName == pkg.title
    ensures u.price == Some(ExtractPrice(pkg.price))
    ensures u.name == form.name && u.email == form.email && u.phone == form.phone && u.date == form.date
    ensures u.people == NumberOf(form.people)
  {
    Record(form, "package", pkg.id, pkg.title, ExtractPrice(pkg.price))
  }

  /** A package priced "500 ج.م", booked from the initial form, is a booking for one person at 500. */
  lemma BookingFromInitialForm(pkg: Package)
    requires pkg.price == "500 ج.م"
    ensures PackageBooking(EmptyForm, pkg).people == Num(1)
    ensures PackageBooking(EmptyForm, pkg).price == Some(500)
  {
    PriceOfPoundsText();
  }

  /** `handleSubmit` on the package page. */
  method HandleSubmit(page: BookingPage, hook: SubmitHook, users: Table<OrderFields>, pkg: Package, env: Environment)
    returns (r: SubmitResult)
    modifies page, hook, users
    ensures var u := PackageBooking(old(page.form), pkg);
      && r == SubmitOutcome(old(users.rows), u, env)
      && users.rows == (if Inserts(old(users.rows), u, env) then old(users.rows) + [PendingRow(u, env)] else old(users.rows))
    ensures r.success ==> page.success && page.form == EmptyForm
    ensures !r.success ==> page.success == old(page.success) && page.form == old(page.form)
  {
    r := page.Submit(hook, users, PackageBooking(page.form, pkg), env);
  }
}
