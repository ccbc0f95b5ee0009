/** routes/notifications.js: sending a notification by SMS and/or e-mail, the delivered flag,
    the urgency colour of the e-mail, the status lookup and the test endpoint. The SMS and
    e-mail services are a `deliver` parameter that says whether a hand-over succeeds. */
module Notifications {
  import opened Js
  import opened Http
  import opened Schema

  /** What is handed to the SMS or the e-mail service. `emtName` is the "EMT:" line and
      `recordingRef` the id in the details link. */
  datatype Message =
    | SmsMessage(to: Value, doctorLastName: string, excerpt: string, urgency: string,
          emtName: string, recordingRef: string)
    | EmailMessage(to: Value, doctorLastName: string, summary: string, urgencyColor: string,
            emtName: string, recordingRef: string)

  const ExcerptLength: nat := 100

  /** `${llm_summary?.substring(0, 100)}`: at most the first 100 characters of the summary,
      and the text "undefined" when there is none. */
  function Excerpt(summary: Option<string>): (r: string)
    ensures summary.None? ==> r == "undefined"
    ensures summary.Some? ==> |r| <= ExcerptLength && r <= summary.value
    ensures summary.Some? && |summary.value| <= ExcerptLength ==> r == summary.value
    ensures summary.Some? && |summary.value| > ExcerptLength ==> r == summary.value[..ExcerptLength]
  {
    match summary
    case None => "undefined"
    case Some(s) => if |s| <= ExcerptLength then s else s[..ExcerptLength]
  }

  /** `llm_summary || 'Summary not available'`. */
  function EmailSummary(summary: Option<string>): (r: string)
    ensures r != ""
    ensures summary.Some? && summary.value != "" ==> r == summary.value
    ensures summary.None? || summary.value == "" ==> r == "Summary not available"
  {
    match summary
    case Some(s) => if s != "" then s else "Summary not available"
    case None => "Summary not available"
  }

  /** getUrgencyColor. */
  function UrgencyColor(urgency: string): string {
    match urgency
    case "critical" => "#d32f2f"
    case "high" => "#f57c00"
    case "medium" => "#fbc02d"
    case "low" => "#388e3c"
    case _ => "#666"
  }

  /** The four urgency levels get four distinct colours, none of them the default, and every
      other text gets the default; so every level the schema stores is coloured, and the
      labels the analysis prompt offers are not. */
  lemma UrgencyColors(u: string)
    ensures var levels := ["critical", "high", "medium", "low"];
      && (forall i, j :: 0 <= i < j < |levels| ==> UrgencyColor(levels[i]) != UrgencyColor(levels[j]))
      && (UrgencyColor(u) == "#666" <==> u !in levels)
    ensures forall l: Urgency :: UrgencyColor(UrgencyText(l)) != "#666"
    ensures UrgencyColor("urgent") == UrgencyColor("moderate") == UrgencyColor("routine") == "#666"
  {
    forall l: Urgency ensures UrgencyColor(UrgencyText(l)) != "#666" {
      match l
      case Low =>
      case Medium =>
      case High =>
      case Critical =>
    }
  }

  // ---------------------------------------------------------------------------------------
  // Handing messages to the services

  /** The messages actually handed over, in order, and whether every hand-over succeeded. */
  datatype Dispatched = Dispatched(attempts: seq<Message>, ok: bool)

  function Listed(m: Option<Message>): seq<Message> {
    if m.Some? then [m.value] else []
  }

  /** An optional SMS, then an optional e-mail; a failed hand-over is rethrown, so nothing
      after it is attempted. */
  function Dispatch(sms: Option<Message>, email: Option<Message>, deliver: Message -> bool): Dispatched {
    if sms.Some? && !deliver(sms.value) then Dispatched([sms.value], false)
    else if email.Some? && !deliver(email.value) then Dispatched(Listed(sms) + [email.value], false)
    else Dispatched(Listed(sms) + Listed(email), true)
  }

  /** The attempts are a prefix of the planned messages; all of them are attempted exactly
      when every hand-over succeeds, and a failure is always the last attempt. */
  lemma DispatchFacts(sms: Option<Message>, email: Option<Message>, deliver: Message -> bool)
    ensures var d := Dispatch(sms, email, deliver);
      var planned := Listed(sms) + Listed(email);
      && d.attempts <= planned
      && (d.ok <==> forall m :: m in planned ==> deliver(m))
      && (d.ok ==> d.attempts == planned)
      && (!d.ok ==> d.attempts != [] && !deliver(d.attempts[|d.attempts| - 1]))
      && (forall i :: 0 <= i < |d.attempts| - 1 ==> deliver(d.attempts[i]))
  {
  }

  // ---------------------------------------------------------------------------------------
  // POST /send

  predicate WantsSms(notificationType: Value) {
    notificationType == Str("sms") || notificationType == Str("both")
  }

  predicate WantsEmail(notificationType: Value) {
    notificationType == Str("email") || notificationType == Str("both")
  }

  /** `SELECT * FROM recordings` carries no EMT name columns, so the "EMT:" line of the
      messages reads "undefined undefined". */
  const UnknownEmt := "undefined undefined"

  function PhoneValue(phone: Option<string>): Value {
    match phone
    case Some(p) => Str(p)
    case None => Null
  }

  function SmsFor(rec: Recording, doctor: User): Message {
    SmsMessage(PhoneValue(doctor.phone), doctor.lastName, Excerpt(rec.llmSummary),
        UrgencyText(rec.urgency), UnknownEmt, IntText(rec.id))
  }

  function EmailFor(rec: Recording, doctor: User): Message {
    EmailMessage(Str(doctor.email), doctor.lastName, EmailSummary(rec.llmSummary),
          UrgencyColor(UrgencyText(rec.urgency)), UnknownEmt, IntText(rec.id))
  }

  /** The SMS, for 'sms' or 'both', to the doctor's phone. */
  function PlannedSms(rec: Recording, doctor: User, notificationType: Value): (r: Option<Message>)
    ensures r.Some? <==> WantsSms(notificationType)
    ensures r.Some? ==> r.value.SmsMessage? && r.value.to == PhoneValue(doctor.phone)
  {
    if WantsSms(notificationType) then Some(SmsFor(rec, doctor)) else None
  }

  /** The e-mail, for 'email' or 'both', to the doctor's address. */
  function PlannedEmail(rec: Recording, doctor: User, notificationType: Value): (r: Option<Message>)
    ensures r.Some? <==> WantsEmail(notificationType)
    ensures r.Some? ==> r.value.EmailMessage? && r.value.to == Str(doctor.email)
  {
    if WantsEmail(notificationType) then Some(EmailFor(rec, doctor)) else None
  }

  /** UPDATE notifications SET delivered = 1 WHERE recording_id = ? AND doctor_id = ?. */
  function DeliveredRows(ns: seq<Notification>, recordingId: int, doctorId: int): (r: seq<Notification>)
    ensures |r| == |ns|
    ensures forall i :: 0 <= i < |r| && !(ns[i].recordingId == recordingId && ns[i].doctorId == doctorId) ==> r[i] == ns[i]
    ensures forall i :: 0 <= i < |r| && ns[i].recordingId == recordingId && ns[i].doctorId == doctorId ==>
      r[i] == ns[i].(delivered := true)
  {
    if ns == [] then []
    else [if ns[0].recordingId == recordingId && ns[0].doctorId == doctorId then ns[0].(delivered := true) else ns[0]]
         + DeliveredRows(ns[1..], recordingId, doctorId)
  }

  datatype SendOutcome = SendOutcome(t: Tables, reply: Reply<string>, attempts: seq<Message>)

  /** POST /send: 404 when the recording or the user is missing; otherwise the planned
      messages are handed over, and only when all of them went through are the pair's rows
      marked delivered. */
  function SendSpec(t: Tables, recordingId: int, doctorId: int, notificationType: Value,
                    deliver: Message -> bool): SendOutcome
  {
    var rec := FindRecording(t.recordings, recordingId);
    var doctor := FindUser(t.users, doctorId);
    if rec.None? || doctor.None? then SendOutcome(t, Fail(404, "Recording or doctor not found"), [])
    else
      var d := Dispatch(PlannedSms(rec.value, doctor.value, notificationType),
                        PlannedEmail(rec.value, doctor.value, notificationType), deliver);
      if !d.ok then SendOutcome(t, Fail(500, "Server error sending notification"), d.attempts)
      else SendOutcome(t.(notifications := DeliveredRows(t.notifications, recordingId, doctorId)),
                       Ok(200, "Notification sent successfully"), d.attempts)
  }

  /** A missing recording or user sends nothing and changes nothing. */
  lemma SendNotFound(t: Tables, recordingId: int, doctorId: int, notificationType: Value, deliver: Message -> bool)
    requires (forall x :: x in t.recordings ==> x.id != recordingId) || (forall u :: u in t.users ==> u.id != doctorId)
    ensures SendSpec(t, recordingId, doctorId, notificationType, deliver)
         == SendOutcome(t, Fail(404, "Recording or doctor not found"), [])
  {
  }

  /** With both rows present, an SMS is attempted only for 'sms' or 'both' and an e-mail
      only for 'email' or 'both', the SMS first; when every hand-over succeeds, each wanted
      message went out. */
  lemma SendChannels(t: Tables, recordingId: int, doctorId: int, notificationType: Value, deliver: Message -> bool)
    requires exists x :: x in t.recordings && x.id == recordingId
    requires exists u :: u in t.users && u.id == doctorId
    ensures var rec := FindRecording(t.recordings, recordingId).value;
      var doctor := FindUser(t.users, doctorId).value;
      var r := SendSpec(t, recordingId, doctorId, notificationType, deliver);
      && (forall m :: m in r.attempts ==> || (m == SmsFor(rec, doctor) && WantsSms(notificationType))
                                          || (m == EmailFor(rec, doctor) && WantsEmail(notificationType)))
      && (|r.attempts| == 2 ==> r.attempts[0].SmsMessage? && r.attempts[1].EmailMessage?)
      && (r.reply.Ok? ==> && (WantsSms(notificationType) ==> SmsFor(rec, doctor) in r.attempts)
                          && (WantsEmail(notificationType) ==> EmailFor(rec, doctor) in r.attempts))
  {
    var rec := FindRecording(t.recordings, recordingId).value;
    var doctor := FindUser(t.users, doctorId).value;
    var d := Dispatch(PlannedSms(rec, doctor, notificationType), PlannedEmail(rec, doctor, notificationType), deliver);
    var r := SendSpec(t, recordingId, doctorId, notificationType, deliver);
    assert r.attempts == d.attempts && (r.reply.Ok? ==> d.ok);
    DispatchChannels(rec, doctor, notificationType, deliver);
  }

  /** The hand-overs for one recording and doctor: only wanted messages, the SMS first, and
      all wanted ones when the dispatch succeeds. */
  lemma DispatchChannels(rec: Recording, doctor: User, notificationType: Value, deliver: Message -> bool)
    ensures var d := Dispatch(PlannedSms(rec, doctor, notificationType), PlannedEmail(rec, doctor, notificationType), deliver);
      && (forall m :: m in d.attempts ==> || (m == SmsFor(rec, doctor) && WantsSms(notificationType))
                                          || (m == EmailFor(rec, doctor) && WantsEmail(notificationType)))
      && (|d.attempts| == 2 ==> d.attempts[0].SmsMessage? && d.attempts[1].EmailMessage?)
      && (d.ok ==> && (WantsSms(notificationType) ==> SmsFor(rec, doctor) in d.attempts)
                   && (WantsEmail(notificationType) ==> EmailFor(rec, doctor) in d.attempts))
  {
    var sms, email := PlannedSms(rec, doctor, notificationType), PlannedEmail(rec, doctor, notificationType);
    var planned := Listed(sms) + Listed(email);
    var d := Dispatch(sms, email, deliver);
    DispatchFacts(sms, email, deliver);
    forall m | m in d.attempts
      ensures || (m == SmsFor(rec, doctor) && WantsSms(notificationType))
              || (m == EmailFor(rec, doctor) && WantsEmail(notificationType))
    {
      var i :| 0 <= i < |d.attempts| && d.attempts[i] == m;
      assert m == planned[i];
    }
  }

  /** With both rows present, the pair's rows are marked delivered exactly when every
      hand-over succeeded; a failed one is the last attempt and leaves the tables as they
      were. Any other type sends nothing and still marks the rows delivered. */
  lemma SendDelivers(t: Tables, recordingId: int, doctorId: int, notificationType: Value, deliver: Message -> bool)
    requires exists x :: x in t.recordings && x.id == recordingId
    requires exists u :: u in t.users && u.id == doctorId
    ensures var r := SendSpec(t, recordingId, doctorId, notificationType, deliver);
      && (r.reply.Ok? ==> && r.reply == Ok(200, "Notification sent successfully")
                          && r.t == t.(notifications := DeliveredRows(t.notifications, recordingId, doctorId)))
      && (r.reply.Fail? ==> && r.reply == Fail(500, "Server error sending notification") && r.t == t
                            && r.attempts != [] && !deliver(r.attempts[|r.attempts| - 1]))
      && (!WantsSms(notificationType) && !WantsEmail(notificationType) ==> r.attempts == [] && r.reply.Ok?)
  {
    var rec := FindRecording(t.recordings, recordingId).value;
    var doctor := FindUser(t.users, doctorId).value;
    DispatchFacts(PlannedSms(rec, doctor, notificationType), PlannedEmail(rec, doctor, notificationType), deliver);
  }

  /** Sending keeps the schema's constraints and touches only the delivered flag. */
  lemma SendKeeps(t: Tables, recordingId: int, doctorId: int, notificationType: Value, deliver: Message -> bool)
    requires ValidTables(t)
    ensures ValidTables(SendSpec(t, recordingId, doctorId, notificationType, deliver).t)
  {
  }

  /** The delivered UPDATE, row by row. */
  method MarkDelivered(db: Database, recordingId: int, doctorId: int)
    modifies db
    ensures db.State() == old(db.State()).(notifications := DeliveredRows(old(db.notifications), recordingId, doctorId))
  {
    var src := db.notifications;
    ghost var after := db.State().(notifications := DeliveredRows(src, recordingId, doctorId));
    ghost var target := DeliveredRows(src, recordingId, doctorId);
    assert after.notifications == target;
    var ns := src;
    var i := 0;
    while i < |ns|
      invariant 0 <= i <= |ns| == |src| == |target|
      invariant forall j :: 0 <= j < i ==> ns[j] == target[j]
      invariant forall j :: i <= j < |ns| ==> ns[j] == src[j]
    {
      if ns[i].recordingId == recordingId && ns[i].doctorId == doctorId {
        ns := ns[i := ns[i].(delivered := true)];
      }
      i := i + 1;
    }
    assert ns == target;
    db.notifications := ns;
    assert db.State() == after;
  }

  method Send(db: Database, recordingId: int, doctorId: int, notificationType: Value, deliver: Message -> bool)
    returns (reply: Reply<string>, attempts: seq<Message>)
    modifies db
    ensures var r := SendSpec(old(db.State()), recordingId, doctorId, notificationType, deliver);
      db.State() == r.t && reply == r.reply && attempts == r.attempts
  {
    ghost var spec := SendSpec(db.State(), recordingId, doctorId, notificationType, deliver);
    var rec := FindRecording(db.recordings, recordingId);
    var doctor := FindUser(db.users, doctorId);
    if rec.None? || doctor.None? {
      return Fail(404, "Recording or doctor not found"), [];
    }
    ghost var sms := PlannedSms(rec.value, doctor.value, notificationType);
    ghost var email := PlannedEmail(rec.value, doctor.value, notificationType);
    attempts := [];
    if WantsSms(notificationType) {
      var m := SmsFor(rec.value, doctor.value);
      attempts := [m];
      if !deliver(m) {
        assert Dispatch(sms, email, deliver) == Dispatched(attempts, false);
        assert spec == SendOutcome(db.State(), Fail(500, "Server error sending notification"), attempts);
        return Fail(500, "Server error sending notification"), attempts;
      }
    }
    if WantsEmail(notificationType) {
      var m := EmailFor(rec.value, doctor.value);
      attempts := attempts + [m];
      if !deliver(m) {
        assert Dispatch(sms, email, deliver) == Dispatched(attempts, false);
        assert spec == SendOutcome(db.State(), Fail(500, "Server error sending notification"), attempts);
        return Fail(500, "Server error sending notification"), attempts;
      }
    }
    assert Dispatch(sms, email, deliver) == Dispatched(attempts, true);
    assert spec.t == db.State().(notifications := DeliveredRows(db.notifications, recordingId, doctorId));
    MarkDelivered(db, recordingId, doctorId);
    reply := Ok(200, "Notification sent successfully");
  }

  // ---------------------------------------------------------------------------------------
  // GET /status/:id

  function NotificationStatus(ns: seq<Notification>, id: int): (reply: Reply<Notification>)
    ensures reply.Fail? <==> forall n :: n in ns ==> n.id != id
    ensures reply.Fail? ==> reply == Fail(404, "Notification not found")
    ensures reply.Ok? ==> reply.status == 200 && reply.body in ns && reply.body.id == id
  {
    match FindNotification(ns, id)
    case None => Fail(404, "Notification not found")
    case Some(n) => Ok(200, n)
  }

  // ---------------------------------------------------------------------------------------
  // POST /test

  const TestSummary := "This is a test notification from the Shealthcare EMT System."

  function TestSms(phone: Value): Message {
    SmsMessage(phone, "Test", Excerpt(Some(TestSummary)), "medium", "Test EMT", "test-123")
  }

  function TestEmail(email: Value): Message {
    EmailMessage(email, "Test", EmailSummary(Some(TestSummary)), UrgencyColor("medium"), "Test EMT", "test-123")
  }

  /** The SMS to the phone when one is given. */
  function TestPlannedSms(phone: Value): Option<Message> {
    if Truthy(phone) then Some(TestSms(phone)) else None
  }

  /** The e-mail to the address when one is given. */
  function TestPlannedEmail(email: Value): Option<Message> {
    if Truthy(email) then Some(TestEmail(email)) else None
  }

  method Test(phone: Value, email: Value, deliver: Message -> bool) returns (reply: Reply<string>, attempts: seq<Message>)
    ensures var d := Dispatch(TestPlannedSms(phone), TestPlannedEmail(email), deliver);
      && attempts == d.attempts
      && reply == if d.ok then Ok(200, "Test notification sent successfully")
                  else Fail(500, "Server error sending test notification")
  {
    attempts := [];
    if Truthy(phone) {
      var m := TestSms(phone);
      attempts := [m];
      if !deliver(m) {
        return Fail(500, "Server error sending test notification"), attempts;
      }
    }
    if Truthy(email) {
      var m := TestEmail(email);
      attempts := attempts + [m];
      if !deliver(m) {
        return Fail(500, "Server error sending test notification"), attempts;
      }
    }
    reply := Ok(200, "Test notification sent successfully");
  }

  /** The test endpoint texts only a given phone and mails only a given address, each with
      the fixed test summary; when nothing fails it does both. */
  lemma TestSendsOnlyGiven(phone: Value, email: Value, deliver: Message -> bool)
    ensures var d := Dispatch(TestPlannedSms(phone), TestPlannedEmail(email), deliver);
      && (forall m :: m in d.attempts && m.SmsMessage? ==> Truthy(phone) && m.to == phone && m.excerpt == TestSummary)
      && (forall m :: m in d.attempts && m.EmailMessage? ==> Truthy(email) && m.to == email && m.summary == TestSummary)
      && (d.ok && Truthy(phone) ==> TestSms(phone) in d.attempts)
      && (d.ok && Truthy(email) ==> TestEmail(email) in d.attempts)
  {
    DispatchFacts(TestPlannedSms(phone), TestPlannedEmail(email), deliver);
  }
}
