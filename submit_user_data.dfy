/**
 * The booking submission hook: a duplicate pre-check on (email, source_page, source_id, date)
 * that fails open, an insert whose status is forced to "pending", a fallback for the database's
 * uniqueness conflict, a webhook notification that can turn a stored order into a reported
 * failure, and the normalisation of every failure into one Arabic message.
 */
module SubmitUserData {
  import opened Wrappers
  import opened JsText
  import opened Seqs
  import opened Store
  import opened Orders

  // ---------------------------------------------------------------------------
  // Duplicate pre-check

  /** The columns the pre-check selects: `id, created_at, status`. */
  datatype ExistingOrder = ExistingOrder(id: string, createdAt: int, status: string)

  datatype DuplicateCheck = DuplicateCheck(isDuplicate: bool, existingData: Option<ExistingOrder>)

  /** A stored order with the same email, source page, source id and date. */
  predicate SameBooking(row: OrderRow, u: UserData) {
    row.fields.email == u.email && row.fields.sourcePage == u.sourcePage
    && row.fields.sourceId == u.sourceId && row.fields.date == u.date
  }

  function SameBookingAs(u: UserData): OrderRow -> bool {
    row => SameBooking(row, u)
  }

  function Existing(row: OrderRow): ExistingOrder {
    ExistingOrder(row.id, row.createdAt, row.fields.status)
  }

  /**
   * `checkDuplicateRequest`: the four `eq` filters with `limit(1)` over the `users` rows; the row
   * returned is the first match in store order. A failed query reports no duplicate.
   */
  function CheckDuplicateRequest(rows: seq<OrderRow>, u: UserData, queryFailed: bool): (r: DuplicateCheck)
    ensures queryFailed ==> !r.isDuplicate
    ensures r.isDuplicate <==> !queryFailed && exists k :: 0 <= k < |rows| && SameBooking(rows[k], u)
    ensures r.isDuplicate <==> r.existingData.Some?
    ensures r.existingData.Some? ==>
      exists k :: 0 <= k < |rows| && SameBooking(rows[k], u) && r.existingData.value == Existing(rows[k])
  {
    if queryFailed then DuplicateCheck(false, None)
    else match FindIndex(rows, SameBookingAs(u))
      case None => DuplicateCheck(false, None)
      case Some(k) => DuplicateCheck(true, Some(Existing(rows[k])))
  }

  // ---------------------------------------------------------------------------
  // Messages

  const PendingLabel: string := "قيد المراجعة"
  const ApprovedLabel: string := "تمت الموافقة عليه"
  const RejectedLabel: string := "تم رفضه"
  const UnknownLabel: string := "غير معروف"

  /** The Arabic label of a stored status, as the duplicate message shows it. */
  function StatusText(status: string): (r: string)
    ensures r == UnknownLabel <==> status != "pending" && status != "approved" && status != "rejected"
  {
    assert PendingLabel[0] != UnknownLabel[0] && ApprovedLabel[0] != UnknownLabel[0];
    assert RejectedLabel[0] != UnknownLabel[0];
    if status == "pending" then PendingLabel
    else if status == "approved" then ApprovedLabel
    else if status == "rejected" then RejectedLabel
    else UnknownLabel
  }

  // The messages are written as the concatenation of their sentences; several sentences are shared.
  const AlreadySubmitted: string := "لقد قمت بالفعل بإرسال طلب"
  const WithSameEmailFor: string := " بنفس البريد الإلكتروني لهذه "
  const ChooseAnotherDate: string := "يرجى اختيار تاريخ آخر أو استخدام بريد إلكتروني مختلف."
  const SendingFailed: string := "حدث خطأ أثناء إرسال البيانات"
  const TryAgainLater: string := "يرجى المحاولة مرة أخرى لاحقًا."

  /** The detailed duplicate message; `formattedDate` is the earlier order's creation time as shown to the user. */
  function DuplicateMessage(u: UserData, formattedDate: string, statusText: string): string {
    DuplicateOpening(u) + u.date + DuplicateStatusLead(formattedDate) + statusText + ".\n" + ChooseAnotherDate
  }

  /** The first sentence up to the booking date; the booking is called a package or else an experience. */
  function DuplicateOpening(u: UserData): string {
    AlreadySubmitted + WithSameEmailFor + (if u.sourcePage == "package" then "الباقة" else "التجربة") + " في نفس التاريخ ("
  }

  function DuplicateStatusLead(formattedDate: string): string {
    ").\nتم إرسال الطلب السابق في " + formattedDate + " وحالته الحالية: "
  }

  const GenericDuplicateMessage: string :=
    AlreadySubmitted + WithSameEmailFor + "الباقة/التجربة في نفس التاريخ. " + ChooseAnotherDate

  const DatabaseErrorPrefix: string := "خطأ في قاعدة البيانات: "

  function WebhookFailureMessage(status: int, statusText: string): string {
    SendingFailed + " إلى نظام المتابعة. الرجاء المحاولة مرة أخرى لاحقًا أو التواصل مع الدعم الفني. ("
    + IntToString(status) + ": " + statusText + ")"
  }

  const ConnectionMessage: string :=
    "حدث خطأ في الاتصال بالخادم. " + "يرجى التحقق من اتصالك بالإنترنت والمحاولة مرة أخرى."
  const TimeoutMessage: string := "انتهت مهلة الاتصال بالخادم. " + TryAgainLater
  const PermissionMessage: string :=
    "ليس لديك صلاحية للقيام بهذه العملية. " + "يرجى تسجيل الدخول أو التواصل مع الدعم الفني."
  const GenericErrorPrefix: string := SendingFailed + ": "
  const UnknownErrorMessage: string := "حدث خطأ غير معروف" + " أثناء إرسال البيانات. " + TryAgainLater

  /** What a `catch` receives: an `Error` with its message, or any other thrown value. */
  datatype Thrown = ErrorObject(message: string) | OtherValue

  /**
   * The message the `catch` block of `submitData` turns a thrown value into. It is always Arabic
   * text, and a message that already contains Arabic is shown as it is.
   */
  function ErrorMessageFor(t: Thrown): (r: string)
    ensures HasArabic(r)
    ensures t.ErrorObject? && HasArabic(t.message) ==> r == t.message
  {
    ConstantsAreArabic();
    match t
    case OtherValue => UnknownErrorMessage
    case ErrorObject(m) =>
      if HasArabic(m) then m
      else if Contains(m, "network") || Contains(m, "connection") then ConnectionMessage
      else if Contains(m, "timeout") then TimeoutMessage
      else if Contains(m, "permission") || Contains(m, "access") then PermissionMessage
      else HasArabicAppend(GenericErrorPrefix, m); GenericErrorPrefix + m
  }

  // ---------------------------------------------------------------------------
  // Properties of the messages

  /** The three known statuses get three different labels. */
  lemma StatusTextDistinguishes(s: string, t: string)
    ensures StatusText(s) == StatusText(t) && StatusText(s) != UnknownLabel ==> s == t
  {
    assert PendingLabel[0] != ApprovedLabel[0];
    assert PendingLabel[0] != RejectedLabel[0];
    assert |ApprovedLabel| != |RejectedLabel|;
  }

  /** A text whose first character is Arabic. */
  lemma {:induction false} FirstCharArabic(s: string)
    requires |s| > 0 && IsArabicChar(s[0])
    ensures HasArabic(s)
  {
    assert IsArabicChar(s[0]);
  }

  lemma {:induction false} ConstantsAreArabic()
    ensures HasArabic(ConnectionMessage) && HasArabic(TimeoutMessage) && HasArabic(PermissionMessage)
    ensures HasArabic(GenericErrorPrefix) && HasArabic(UnknownErrorMessage)
    ensures HasArabic(GenericDuplicateMessage) && HasArabic(DatabaseErrorPrefix)
  {
    FirstCharArabic(ConnectionMessage);
    FirstCharArabic(TimeoutMessage);
    FirstCharArabic(PermissionMessage);
    FirstCharArabic(GenericErrorPrefix);
    FirstCharArabic(UnknownErrorMessage);
    FirstCharArabic(GenericDuplicateMessage);
    FirstCharArabic(DatabaseErrorPrefix);
  }

  lemma {:induction false} WebhookFailureIsArabic(status: int, statusText: string)
    ensures HasArabic(WebhookFailureMessage(status, statusText))
  {
    FirstCharArabic(WebhookFailureMessage(status, statusText));
  }

  /** A message that already contains Arabic text is shown unchanged, so normalising twice changes nothing. */
  lemma {:induction false} ErrorMessageIdempotent(t: Thrown)
    ensures ErrorMessageFor(ErrorObject(ErrorMessageFor(t))) == ErrorMessageFor(t)
  {
  }

  /**
   * A message without Arabic text is never shown as it is. The connection words are tried first,
   * then "timeout", then the permission words; a message with none of them is shown after the
   * generic prefix.
   */
  lemma {:induction false} KeywordPrecedence(m: string)
    requires !HasArabic(m)
    ensures ErrorMessageFor(ErrorObject(m)) != m
    ensures Contains(m, "network") || Contains(m, "connection") ==> ErrorMessageFor(ErrorObject(m)) == ConnectionMessage
    ensures Contains(m, "timeout") && !Contains(m, "network") && !Contains(m, "connection")
            ==> ErrorMessageFor(ErrorObject(m)) == TimeoutMessage
    ensures (Contains(m, "permission") || Contains(m, "access"))
            && !Contains(m, "network") && !Contains(m, "connection") && !Contains(m, "timeout")
            ==> ErrorMessageFor(ErrorObject(m)) == PermissionMessage
    ensures !Contains(m, "network") && !Contains(m, "connection") && !Contains(m, "timeout")
            && !Contains(m, "permission") && !Contains(m, "access")
            ==> ErrorMessageFor(ErrorObject(m)) == GenericErrorPrefix + m
  {
  }

  /** The detailed duplicate message quotes the booking date and the earlier order's status label. */
  lemma {:induction false} DuplicateMessageQuotes(u: UserData, formattedDate: string, statusText: string)
    ensures Contains(DuplicateMessage(u, formattedDate, statusText), u.date)
    ensures Contains(DuplicateMessage(u, formattedDate, statusText), statusText)
    ensures HasArabic(DuplicateMessage(u, formattedDate, statusText))
  {
    var opening := DuplicateOpening(u);
    var lead := DuplicateStatusLead(formattedDate);
    var closing := ".\n" + ChooseAnotherDate;
    var msg := DuplicateMessage(u, formattedDate, statusText);
    assert msg == opening + u.date + lead + statusText + closing;
    assert msg[|opening|..|opening| + |u.date|] == u.date;
    assert OccursAt(msg, u.date, |opening|);
    ContainsConcat(opening + u.date + lead, statusText, closing);
    assert msg[0] == opening[0] == AlreadySubmitted[0];
    FirstCharArabic(msg);
  }

  // ---------------------------------------------------------------------------
  // submitData

  datatype SubmitResult = SubmitResult(success: bool, error: Option<string>, data: Option<OrderRow>)

  /** What the webhook `fetch` did: it answered with an HTTP status, or it threw. */
  datatype WebhookOutcome = Responded(status: int, statusText: string) | FetchThrew(thrown: Thrown)

  predicate WebhookOk(w: WebhookOutcome) {
    w.Responded? && 200 <= w.status <= 299
  }

  /** The JSON body posted to the webhook: the submitted fields, the new row's id and a fresh timestamp. */
  datatype WebhookPayload = WebhookPayload(user: UserData, id: Option<string>, createdAt: string)

  /**
   * Everything the submission learns from outside: whether each duplicate query fails, the
   * database's answer to the insert, the webhook's outcome, the clock, and the `ar-EG` date
   * formatter applied to a stored creation time.
   */
  datatype Environment = Environment(
    firstCheckFails: bool,
    insertRefusal: Option<StoreError>,
    newId: string,
    now: int,
    secondCheckFails: bool,
    webhook: WebhookOutcome,
    nowIso: string,
    formatDate: int -> string
  )

  /** An insert error that signals the uniqueness constraint on the booking tuple. */
  predicate IsConflict(e: StoreError) {
    e.code == "23505" || Contains(e.message, "duplicate key value")
  }

  /** The message of the duplicate path for a check that found `existing`. */
  function DuplicateMessageFor(u: UserData, existing: ExistingOrder, env: Environment): string {
    DuplicateMessage(u, env.formatDate(existing.createdAt), StatusText(existing.status))
  }

  /** The message the conflict fallback reports, given the second pre-check on the stored rows. */
  function ConflictMessage(u: UserData, rows: seq<OrderRow>, env: Environment): string {
    var again := CheckDuplicateRequest(rows, u, env.secondCheckFails);
    if again.isDuplicate && again.existingData.Some? then DuplicateMessageFor(u, again.existingData.value, env)
    else GenericDuplicateMessage
  }

  /** The message thrown when the database refuses the insert with `e`. */
  function RefusalMessage(u: UserData, rows: seq<OrderRow>, e: StoreError, env: Environment): string {
    if IsConflict(e) then ConflictMessage(u, rows, env) else DatabaseErrorPrefix + e.message
  }

  /** What the webhook step throws: nothing after a 2xx answer. */
  function WebhookError(w: WebhookOutcome): (t: Option<Thrown>)
    ensures t.None? <==> WebhookOk(w)
  {
    match w
    case Responded(status, statusText) =>
      if 200 <= status <= 299 then None else Some(ErrorObject(WebhookFailureMessage(status, statusText)))
    case FetchThrew(thrown) => Some(thrown)
  }

  /** The messages thrown before the webhook step are Arabic already, so the `catch` block keeps them as they are. */
  lemma {:induction false} ThrownMessagesKept(u: UserData, rows: seq<OrderRow>, e: StoreError, existing: ExistingOrder, env: Environment)
    ensures ErrorMessageFor(ErrorObject(DuplicateMessageFor(u, existing, env))) == DuplicateMessageFor(u, existing, env)
    ensures ErrorMessageFor(ErrorObject(RefusalMessage(u, rows, e, env))) == RefusalMessage(u, rows, e, env)
  {
    DuplicateMessageQuotes(u, env.formatDate(existing.createdAt), StatusText(existing.status));
    var again := CheckDuplicateRequest(rows, u, env.secondCheckFails);
    if IsConflict(e) && again.isDuplicate && again.existingData.Some? {
      var x := again.existingData.value;
      DuplicateMessageQuotes(u, env.formatDate(x.createdAt), StatusText(x.status));
    } else if IsConflict(e) {
      ConstantsAreArabic();
    } else {
      ConstantsAreArabic();
      HasArabicAppend(DatabaseErrorPrefix, e.message);
    }
  }

  /** A webhook that answers with an error status is reported with that status and its text. */
  lemma {:induction false} WebhookFailureKept(status: int, statusText: string)
    ensures ErrorMessageFor(ErrorObject(WebhookFailureMessage(status, statusText))) == WebhookFailureMessage(status, statusText)
  {
    WebhookFailureIsArabic(status, statusText);
  }

  /** What the `try` block of `submitData` throws, given the rows stored when it starts. */
  function SubmitError(rows: seq<OrderRow>, u: UserData, env: Environment): Option<Thrown> {
    var check := CheckDuplicateRequest(rows, u, env.firstCheckFails);
    if check.isDuplicate then Some(ErrorObject(DuplicateMessageFor(u, check.existingData.value, env)))
    else if env.insertRefusal.Some? then Some(ErrorObject(RefusalMessage(u, rows, env.insertRefusal.value, env)))
    else WebhookError(env.webhook)
  }

  /** The row a successful insert stores. */
  function PendingRow(u: UserData, env: Environment): (row: OrderRow)
    ensures row.id == env.newId && row.createdAt == env.now
    ensures Submitted(row.fields) == u && row.fields.status == "pending"
  {
    Row(env.newId, env.now, WithStatus(u, "pending"))
  }

  /**
   * What `submitData` resolves to once the `catch` block has normalised what was thrown. Success
   * needs an accepted insert and a 2xx webhook answer and carries the stored row; every failure
   * is reported in Arabic and carries no data.
   */
  function SubmitOutcome(rows: seq<OrderRow>, u: UserData, env: Environment): (r: SubmitResult)
    ensures r.success <==> Inserts(rows, u, env) && WebhookOk(env.webhook)
    ensures r.success ==> r.error.None? && r.data == Some(PendingRow(u, env))
    ensures !r.success ==> r.error.Some? && HasArabic(r.error.value) && r.data.None?
  {
    match SubmitError(rows, u, env)
    case None => SubmitResult(true, None, Some(PendingRow(u, env)))
    case Some(t) => SubmitResult(false, Some(ErrorMessageFor(t)), None)
  }

  /** The insert is attempted exactly when the pre-check finds no duplicate. */
  predicate Inserts(rows: seq<OrderRow>, u: UserData, env: Environment) {
    !CheckDuplicateRequest(rows, u, env.firstCheckFails).isDuplicate && env.insertRefusal.None?
  }

  /**
   * The `try` block of `submitData`: the pre-check, the insert with its conflict fallback, and the
   * webhook. `posted` is the webhook body, present exactly when an order row was inserted.
   */
  method Attempt(users: Table<OrderFields>, u: UserData, env: Environment)
    returns (thrown: Option<Thrown>, data: Option<OrderRow>, posted: Option<WebhookPayload>)
    modifies users
    ensures thrown == SubmitError(old(users.rows), u, env)
    ensures thrown.None? ==> data == Some(PendingRow(u, env))
    ensures users.rows == if Inserts(old(users.rows), u, env) then old(users.rows) + [PendingRow(u, env)] else old(users.rows)
    ensures posted == if Inserts(old(users.rows), u, env)
                      then Some(WebhookPayload(u, if env.newId == "" then None else Some(env.newId), env.nowIso))
                      else None
  {
    thrown := None;
    data := None;
    posted := None;
    var check := CheckDuplicateRequest(users.rows, u, env.firstCheckFails);
    if check.isDuplicate {
      thrown := Some(ErrorObject(DuplicateMessageFor(u, check.existingData.value, env)));
      return;
    }
    var before := users.rows;
    var inserted := users.Insert(WithStatus(u, "pending"), env.newId, env.now, env.insertRefusal);
    if inserted.Err? {
      var e := inserted.error;
      assert users.rows == before && e == env.insertRefusal.value;
      if IsConflict(e) {
        var again := CheckDuplicateRequest(users.rows, u, env.secondCheckFails);
        if again.isDuplicate && again.existingData.Some? {
          thrown := Some(ErrorObject(DuplicateMessageFor(u, again.existingData.value, env)));
        } else {
          thrown := Some(ErrorObject(GenericDuplicateMessage));
        }
        assert thrown == Some(ErrorObject(ConflictMessage(u, before, env)));
      } else {
        thrown := Some(ErrorObject(DatabaseErrorPrefix + e.message));
      }
      assert thrown == Some(ErrorObject(RefusalMessage(u, before, e, env)));
      return;
    }
    var id := inserted.value.id;
    posted := Some(WebhookPayload(u, if id == "" then None else Some(id), env.nowIso));
    thrown := PostWebhook(env.webhook);
    data := Some(inserted.value);
  }

  /** The webhook step: what `fetch` throws is rethrown, and an answer outside 2xx becomes an error. */
  method PostWebhook(w: WebhookOutcome) returns (thrown: Option<Thrown>)
    ensures thrown == WebhookError(w)
    ensures thrown.None? <==> WebhookOk(w)
  {
    thrown := None;
    match w {
      case Responded(status, statusText) =>
        if !(200 <= status <= 299) {
          thrown := Some(ErrorObject(WebhookFailureMessage(status, statusText)));
        }
      case FetchThrew(t) =>
        thrown := Some(t);
    }
  }

  /** `{ success, error, data }` state of the `useSubmitUserData` hook. */
  class SubmitHook {
    var isLoading: bool
    var result: Option<SubmitResult>

    constructor ()
      ensures !isLoading && result == None
    {
      isLoading := false;
      result := None;
    }

    /** `submitData(userData)`: the `try` block, then the `catch` block's message, then `finally`. */
    method SubmitData(users: Table<OrderFields>, u: UserData, env: Environment)
      returns (r: SubmitResult, posted: Option<WebhookPayload>)
      modifies this, users
      ensures r == SubmitOutcome(old(users.rows), u, env)
      ensures !isLoading && result == Some(r)
      ensures users.rows == if Inserts(old(users.rows), u, env) then old(users.rows) + [PendingRow(u, env)] else old(users.rows)
      ensures posted == if Inserts(old(users.rows), u, env)
                        then Some(WebhookPayload(u, if env.newId == "" then None else Some(env.newId), env.nowIso))
                        else None
    {
      isLoading := true;
      result := None;
      var thrown, data;
      thrown, data, posted := Attempt(users, u, env);
      if thrown.None? {
        r := SubmitResult(true, None, data);
      } else {
        r := SubmitResult(false, Some(ErrorMessageFor(thrown.value)), None);
      }
      result := Some(r);
      isLoading := false;
    }
  }

  /** A duplicate is reported with the message thrown for it. */
  lemma DuplicateOutcome(rows: seq<OrderRow>, u: UserData, env: Environment)
    ensures var check := CheckDuplicateRequest(rows, u, env.firstCheckFails);
      check.isDuplicate ==>
        SubmitOutcome(rows, u, env) == SubmitResult(false, Some(DuplicateMessageFor(u, check.existingData.value, env)), None)
  {
    var check := CheckDuplicateRequest(rows, u, env.firstCheckFails);
    if check.isDuplicate {
      ThrownMessagesKept(u, rows, StoreError("", ""), check.existingData.value, env);
    }
  }

  /** A refused insert is reported with the message thrown for the refusal. */
  lemma RefusalOutcome(rows: seq<OrderRow>, u: UserData, env: Environment)
    ensures !CheckDuplicateRequest(rows, u, env.firstCheckFails).isDuplicate && env.insertRefusal.Some? ==>
      SubmitOutcome(rows, u, env) == SubmitResult(false, Some(RefusalMessage(u, rows, env.insertRefusal.value, env)), None)
  {
    if !CheckDuplicateRequest(rows, u, env.firstCheckFails).isDuplicate && env.insertRefusal.Some? {
      ThrownMessagesKept(u, rows, env.insertRefusal.value, ExistingOrder("", 0, ""), env);
    }
  }

  /** A webhook answer outside 2xx after a stored booking is reported with the webhook's own message. */
  lemma WebhookFailureOutcome(rows: seq<OrderRow>, u: UserData, env: Environment)
    ensures Inserts(rows, u, env) && env.webhook.Responded? && !WebhookOk(env.webhook) ==>
      SubmitOutcome(rows, u, env)
        == SubmitResult(false, Some(WebhookFailureMessage(env.webhook.status, env.webhook.statusText)), None)
  {
    if Inserts(rows, u, env) && env.webhook.Responded? && !WebhookOk(env.webhook) {
      WebhookFailureKept(env.webhook.status, env.webhook.statusText);
    }
  }


  // ---------------------------------------------------------------------------
  // Submitting the same booking twice

  /**
   * Once a booking has been stored, the next pre-check on the same tuple (if its query succeeds)
   * reports a duplicate; when it was the first such row, the message quotes the booking date and
   * the label of "pending".
   */
  lemma {:induction false} SecondSubmissionIsDuplicate(rows: seq<OrderRow>, u: UserData, id: string, now: int, fmt: string)
    ensures var stored := rows + [Row(id, now, WithStatus(u, "pending"))];
      CheckDuplicateRequest(stored, u, false).isDuplicate
    ensures var stored := rows + [Row(id, now, WithStatus(u, "pending"))];
      !CheckDuplicateRequest(rows, u, false).isDuplicate ==>
        var e := CheckDuplicateRequest(stored, u, false).existingData.value;
        e == ExistingOrder(id, now, "pending")
        && StatusText(e.status) == PendingLabel
        && Contains(DuplicateMessage(u, fmt, StatusText(e.status)), u.date)
        && Contains(DuplicateMessage(u, fmt, StatusText(e.status)), PendingLabel)
  {
    var row := Row(id, now, WithStatus(u, "pending"));
    var stored := rows + [row];
    assert stored[|rows|] == row && SameBooking(row, u);
    if !CheckDuplicateRequest(rows, u, false).isDuplicate {
      var k :| 0 <= k < |stored| && SameBooking(stored[k], u)
               && CheckDuplicateRequest(stored, u, false).existingData.value == Existing(stored[k]);
      DuplicateMessageQuotes(u, fmt, PendingLabel);
    }
  }
}
