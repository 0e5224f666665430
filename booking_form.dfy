/**
 * What the three booking pages (package, experience, trip) share: the booking form and its
 * change handler, the record they submit, the price read from a price text with `/\d+/`, and the
 * submit handler that resets the form only when the booking went through.
 */
module BookingForm {
  import opened Wrappers
  import opened JsText
  import opened Seqs
  import opened Store
  import opened Orders
  import opened SubmitUserData

  datatype Form = Form(name: string, email: string, phone: string, date: string, people: InputValue)

  /** The initial form, and the form after a successful booking. */
  const EmptyForm := Form("", "", "", "", NumberValue(1))

  /** The `name` attributes of the form's inputs. */
  datatype Field = NameField | EmailField | PhoneField | DateField | PeopleField

  function Read(form: Form, f: Field): InputValue {
    match f
    case NameField => TextValue(form.name)
    case EmailField => TextValue(form.email)
    case PhoneField => TextValue(form.phone)
    case DateField => TextValue(form.date)
    case PeopleField => form.people
  }

  /** `setForm({ ...form, [e.target.name]: e.target.value })`: the named field takes the text, the others keep theirs. */
  function Change(form: Form, f: Field, v: string): (r: Form)
    ensures Read(r, f) == TextValue(v)
    ensures forall g :: g != f ==> Read(r, g) == Read(form, g)
  {
    match f
    case NameField => form.(name := v)
    case EmailField => form.(email := v)
    case PhoneField => form.(phone := v)
    case DateField => form.(date := v)
    case PeopleField => form.(people := TextValue(v))
  }

  /** `{ ...form, source_page, source_id, source_name, people: Number(form.people), price }` */
  function Record(form: Form, sourcePage: string, sourceId: string, sourceName: string, price: int): (u: UserData)
    ensures u.name == form.name && u.email == form.email && u.phone == form.phone && u.date == form.date
    ensures u.people == NumberOf(form.people)
    ensures u.sourcePage == sourcePage && u.sourceId == sourceId && u.sourceName == sourceName
    ensures u.price == Some(price) && u.address == None && u.notes == None
  {
    UserData(form.name, form.email, form.phone, None, None, sourcePage, sourceId, sourceName,
             NumberOf(form.people), form.date, Some(price))
  }

  // ---------------------------------------------------------------------------
  // The price text: `priceText.match(/\d+/)`

  /** The index of the first ASCII digit at or after `i`, or `|s|` when there is none. */
  function FirstDigitFrom(s: string, i: nat): (k: nat)
    requires i <= |s|
    ensures i <= k <= |s|
    ensures forall j :: i <= j < k ==> !IsAsciiDigit(s[j])
    ensures k < |s| ==> IsAsciiDigit(s[k])
    decreases |s| - i
  {
    if i == |s| || IsAsciiDigit(s[i]) then i else FirstDigitFrom(s, i + 1)
  }

  /** The end of the run of ASCII digits that starts at `i`. */
  function DigitsEnd(s: string, i: nat): (k: nat)
    requires i <= |s|
    ensures i <= k <= |s|
    ensures forall j :: i <= j < k ==> IsAsciiDigit(s[j])
    ensures k < |s| ==> !IsAsciiDigit(s[k])
    decreases |s| - i
  {
    if i < |s| && IsAsciiDigit(s[i]) then DigitsEnd(s, i + 1) else i
  }

  /**
   * The match of `/\d+/`: the bounds of the leftmost run of ASCII digits, which the greedy `+`
   * extends as far as it goes; `None` when the text has no digit.
   */
  function FirstDigitRun(s: string): (r: Option<(nat, nat)>)
    ensures r.None? <==> forall j :: 0 <= j < |s| ==> !IsAsciiDigit(s[j])
    ensures r.Some? ==>
      var (b, e) := r.value;
      && b < e <= |s|
      && (forall j :: 0 <= j < b ==> !IsAsciiDigit(s[j]))
      && AllDigits(s[b..e])
      && (e < |s| ==> !IsAsciiDigit(s[e]))
  {
    var b := FirstDigitFrom(s, 0);
    if b == |s| then None else Some((b, DigitsEnd(s, b)))
  }

  /** `priceMatch ? Number(priceMatch[0]) : 0` */
  function ExtractPrice(s: string): (p: nat)
    ensures (forall j :: 0 <= j < |s| ==> !IsAsciiDigit(s[j])) ==> p == 0
    ensures FirstDigitRun(s).Some? ==> p == DecimalValue(s[FirstDigitRun(s).value.0..FirstDigitRun(s).value.1])
  {
    match FirstDigitRun(s)
    case None => 0
    case Some((b, e)) => DecimalValue(s[b..e])
  }

  /** A run of digits that ends at `e` ends where `DigitsEnd` says. */
  lemma {:induction false} DigitsEndAt(s: string, i: nat, e: nat)
    requires i <= e <= |s|
    requires forall j :: i <= j < e ==> IsAsciiDigit(s[j])
    requires e == |s| || !IsAsciiDigit(s[e])
    ensures DigitsEnd(s, i) == e
    decreases e - i
  {
    if i < e {
      DigitsEndAt(s, i + 1, e);
    }
  }

  /** The price text of the source's own comment, "500 ج.م", gives 500. */
  lemma PriceOfPoundsText()
    ensures ExtractPrice("500 ج.م") == 500
  {
    var s := "500 ج.م";
    assert FirstDigitFrom(s, 0) == 0;
    assert DigitsEnd(s, 3) == 3;
    assert DigitsEnd(s, 0) == 3;
    assert s[0..3] == "500";
    assert "500"[..2] == "50" && "50"[..1] == "5" && "5"[..0] == "";
  }

  /** A price text that starts with digits gives those digits' value whatever follows them. */
  lemma {:induction false} LeadingDigitsArePrice(digits: string, rest: string)
    requires |digits| > 0 && AllDigits(digits)
    requires rest == [] || !IsAsciiDigit(rest[0])
    ensures ExtractPrice(digits + rest) == DecimalValue(digits)
  {
    var s := digits + rest;
    assert forall j :: 0 <= j < |digits| ==> s[j] == digits[j];
    if |digits| < |s| {
      assert s[|digits|] == rest[0];
    }
    DigitsEndAt(s, 0, |digits|);
    var e := |digits|;
    assert s[0..e] == digits;
  }

  // ---------------------------------------------------------------------------
  // Finding the item of the route

  /** `String(id)` for the route parameter, which is absent on a malformed route. */
  function RouteText(id: Option<string>): string {
    if id.None? then "undefined" else id.value
  }

  /** `items.find(x => String(x.id) === String(id))` */
  function FindByRoute<T>(items: seq<T>, idOf: T -> string, routeId: Option<string>): (r: Option<T>)
    ensures r.Some? ==> exists k :: 0 <= k < |items| && items[k] == r.value && idOf(items[k]) == RouteText(routeId)
                                   && forall j :: 0 <= j < k ==> idOf(items[j]) != RouteText(routeId)
    ensures r.None? <==> forall k :: 0 <= k < |items| ==> idOf(items[k]) != RouteText(routeId)
  {
    match FindIndex(items, (x: T) => idOf(x) == RouteText(routeId))
    case None => None
    case Some(k) => Some(items[k])
  }

  // ---------------------------------------------------------------------------
  // The page's state

  class BookingPage {
    var form: Form
    var success: bool

    constructor ()
      ensures form == EmptyForm && !success
    {
      form := EmptyForm;
      success := false;
    }

    method HandleChange(f: Field, v: string)
      modifies this
      ensures form == Change(old(form), f, v) && success == old(success)
    {
      form := Change(form, f, v);
    }

    /**
     * The end of `handleSubmit`: the record goes through `submitData`; only a successful
     * booking sets `success` and empties the form, a failed one leaves both as they were.
     */
    method Submit(hook: SubmitHook, users: Table<OrderFields>, record: UserData, env: Environment)
      returns (r: SubmitResult)
      modifies this, hook, users
      ensures r == SubmitOutcome(old(users.rows), record, env)
      ensures users.rows == if Inserts(old(users.rows), record, env) then old(users.rows) + [PendingRow(record, env)] else old(users.rows)
      ensures r.success ==> success && form == EmptyForm
      ensures !r.success ==> success == old(success) && form == old(form)
      ensures !hook.isLoading && hook.result == Some(r)
    {
      var posted;
      r, posted := hook.SubmitData(users, record, env);
      if r.success {
        success := true;
        form := EmptyForm;
      }
    }
  }
}
