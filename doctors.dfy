/** routes/doctors.js: the doctors' endpoints. The listing of a doctor's notifications
    joined with their recordings and sorted as `sortBy` asks; availability; mark-read; respond;
    recording details. */
module Doctors {
  import opened Js
  import opened Http
  import opened Schema
  import Ordering

  /** GET /available: the projected columns of every available doctor. */
  datatype DoctorCard = DoctorCard(
    id: int, firstName: string, lastName: string, specialty: Option<string>,
    phone: Option<string>, email: string)

  function Card(u: User): DoctorCard {
    DoctorCard(u.id, u.firstName, u.lastName, u.specialty, u.phone, u.email)
  }

  function Cards(us: seq<User>): (r: seq<DoctorCard>)
    ensures |r| == |us| && forall i :: 0 <= i < |us| ==> r[i] == Card(us[i])
    ensures forall c :: c in r <==> exists u :: u in us && c == Card(u)
  {
    if us == [] then [] else [Card(us[0])] + Cards(us[1..])
  }

  /** The reply lists one card per user with role doctor and is_available = 1, and no other. */
  function GetAvailable(t: Tables): (reply: Reply<seq<DoctorCard>>)
    ensures reply.Ok? && reply.status == 200
    ensures forall c :: c in reply.body <==>
      exists u :: u in t.users && u.role == Doctor && u.available && c == Card(u)
  {
    var ds := AvailableDoctors(t.users);
    Ok(200, Cards(ds))
  }

  // ---------------------------------------------------------------------------------------
  // GET /notifications

  /** One row of the listing: a notification joined with its recording and the EMT's name. */
  datatype Case = Case(n: Notification, r: Recording, emtFirstName: string, emtLastName: string)

  /** The rows of `FROM notifications n JOIN recordings r ON n.recording_id = r.id JOIN users u
      ON r.emt_id = u.id WHERE n.doctor_id = ?`, before ordering. */
  function CasesFor(ns: seq<Notification>, recs: seq<Recording>, users: seq<User>, doctorId: int): (r: seq<Case>)
    ensures forall c :: c in r ==> && c.n in ns && c.n.doctorId == doctorId
                                   && c.r in recs && c.r.id == c.n.recordingId
    ensures forall n :: n in ns && n.doctorId == doctorId && RecordingWithEmt(recs, users, n.recordingId).Some?
                        ==> exists c :: c in r && c.n == n
    ensures forall c :: c in r ==>
              RecordingWithEmt(recs, users, c.n.recordingId) == Some(RecordingView(c.r, c.emtFirstName, c.emtLastName))
    ensures |r| <= |ns|
  {
    if ns == [] then []
    else
      var rest := CasesFor(ns[1..], recs, users, doctorId);
      assert forall n :: n in ns <==> n == ns[0] || n in ns[1..];
      var n := ns[0];
      if n.doctorId == doctorId && RecordingWithEmt(recs, users, n.recordingId).Some? then
        var v := RecordingWithEmt(recs, users, n.recordingId).value;
        [Case(n, v.recording, v.emtFirstName, v.emtLastName)] + rest
      else rest
  }

  /** The terms of an ORDER BY clause. */
  datatype SortKey = SentAtDesc | SentAtAsc | RiskDesc | PriorityAsc

  /** The `sortBy` switch: 'priority', 'oldest', and 'newest' or anything else (the default
      when the parameter is absent is 'newest'). */
  function OrderFor(sortBy: Option<string>): seq<SortKey> {
    var s := sortBy.GetOr("newest");
    if s == "newest" then [SentAtDesc]
    else if s == "priority" then [RiskDesc, PriorityAsc, SentAtDesc]
    else if s == "oldest" then [SentAtAsc]
    else [SentAtDesc]
  }

  /** What one ORDER BY term contributes to a row's key: the column, negated when the term
      is descending, so that ascending key order is the term's order. */
  function TermValue(key: SortKey, c: Case): int {
    match key
    case SentAtDesc => -c.n.sentAt
    case SentAtAsc => c.n.sentAt
    case RiskDesc => -c.r.riskScore
    case PriorityAsc => c.r.priorityLevel
  }

  /** The key vector of a row: one value per term, in the order of the terms. */
  function KeyOf(keys: seq<SortKey>, c: Case): (k: seq<int>)
    ensures |k| == |keys|
    ensures forall i :: 0 <= i < |keys| ==> k[i] == TermValue(keys[i], c)
  {
    if keys == [] then []
    else [TermValue(keys[0], c)] + KeyOf(keys[1..], c)
  }

  function Listing(t: Tables, doctorId: int, sortBy: Option<string>): seq<Case> {
    var keys := OrderFor(sortBy);
    Ordering.Sort(CasesFor(t.notifications, t.recordings, t.users, doctorId), c => KeyOf(keys, c))
  }

  /** The listing holds exactly the caller's joined rows, each once, and nobody else's. */
  lemma ListingIsCallersRows(t: Tables, doctorId: int, sortBy: Option<string>)
    ensures var l := Listing(t, doctorId, sortBy);
      && multiset(l) == multiset(CasesFor(t.notifications, t.recordings, t.users, doctorId))
      && forall i :: 0 <= i < |l| ==> l[i].n.doctorId == doctorId && l[i].n in t.notifications
  {
    var l := Listing(t, doctorId, sortBy);
    var cs := CasesFor(t.notifications, t.recordings, t.users, doctorId);
    forall i | 0 <= i < |l| ensures l[i].n.doctorId == doctorId && l[i].n in t.notifications {
      assert l[i] in multiset(l);
      assert l[i] in cs;
    }
  }

  /** Triage order: higher risk first, then lower priority level, then newer. */
  predicate TriageBefore(a: Case, b: Case) {
    || a.r.riskScore > b.r.riskScore
    || (a.r.riskScore == b.r.riskScore && a.r.priorityLevel < b.r.priorityLevel)
    || (a.r.riskScore == b.r.riskScore && a.r.priorityLevel == b.r.priorityLevel && a.n.sentAt >= b.n.sentAt)
  }

  /** The key vector of the priority order. */
  lemma TriageKeyOf(c: Case)
    ensures KeyOf(OrderFor(Some("priority")), c) == [-c.r.riskScore, c.r.priorityLevel, -c.n.sentAt]
  {
    var keys := OrderFor(Some("priority"));
    assert keys[1..][1..] == [SentAtDesc];
    assert KeyOf(keys[1..][1..], c) == [-c.n.sentAt];
    assert KeyOf(keys[1..], c) == [c.r.priorityLevel, -c.n.sentAt];
  }

  lemma TriageKey(a: Case, b: Case)
    requires Ordering.LexLe(KeyOf(OrderFor(Some("priority")), a), KeyOf(OrderFor(Some("priority")), b))
    ensures TriageBefore(a, b)
  {
    TriageKeyOf(a);
    TriageKeyOf(b);
    var ka, kb := KeyOf(OrderFor(Some("priority")), a), KeyOf(OrderFor(Some("priority")), b);
    if ka[0] == kb[0] && ka[1] == kb[1] {
      assert Ordering.LexLe(ka[1..], kb[1..]);
      assert Ordering.LexLe(ka[1..][1..], kb[1..][1..]);
    }
  }

  /** sortBy=priority orders by risk_score DESC, priority_level ASC, sent_at DESC. */
  lemma PriorityListingOrder(t: Tables, doctorId: int)
    ensures var l := Listing(t, doctorId, Some("priority"));
      forall i, j :: 0 <= i < j < |l| ==> TriageBefore(l[i], l[j])
  {
    var keys := OrderFor(Some("priority"));
    var l := Listing(t, doctorId, Some("priority"));
    forall i, j | 0 <= i < j < |l| ensures TriageBefore(l[i], l[j]) {
      TriageKey(l[i], l[j]);
    }
  }

  /** sortBy=oldest orders by sent_at ascending. */
  lemma OldestListingOrder(t: Tables, doctorId: int)
    ensures var l := Listing(t, doctorId, Some("oldest"));
      forall i, j :: 0 <= i < j < |l| ==> l[i].n.sentAt <= l[j].n.sentAt
  {
    var keys := OrderFor(Some("oldest"));
    var l := Listing(t, doctorId, Some("oldest"));
    forall i, j | 0 <= i < j < |l| ensures l[i].n.sentAt <= l[j].n.sentAt {
      assert Ordering.LexLe(KeyOf(keys, l[i]), KeyOf(keys, l[j]));
    }
  }

  /** Without sortBy, with 'newest' and with any unknown value the order is sent_at descending. */
  lemma DefaultListingOrder(t: Tables, doctorId: int, sortBy: Option<string>)
    requires sortBy != Some("priority") && sortBy != Some("oldest")
    ensures var l := Listing(t, doctorId, sortBy);
      forall i, j :: 0 <= i < j < |l| ==> l[i].n.sentAt >= l[j].n.sentAt
  {
    var keys := OrderFor(sortBy);
    assert keys == [SentAtDesc];
    var l := Listing(t, doctorId, sortBy);
    forall i, j | 0 <= i < j < |l| ensures l[i].n.sentAt >= l[j].n.sentAt {
      assert Ordering.LexLe(KeyOf(keys, l[i]), KeyOf(keys, l[j]));
    }
  }

  // ---------------------------------------------------------------------------------------
  // PATCH /availability

  /** UPDATE users SET is_available = ? WHERE id = ?. */
  function WithAvailability(users: seq<User>, id: int, flag: bool): (r: seq<User>)
    ensures |r| == |users|
    ensures forall i :: 0 <= i < |r| && users[i].id != id ==> r[i] == users[i]
    ensures forall i :: 0 <= i < |r| && users[i].id == id ==> r[i] == users[i].(available := flag)
  {
    if users == [] then []
    else [if users[0].id == id then users[0].(available := flag) else users[0]]
         + WithAvailability(users[1..], id, flag)
  }

  /** The update keeps every constraint of the schema. */
  function UpdateAvailability(t: Tables, id: int, flag: bool): (r: Tables)
    ensures ValidTables(t) ==> ValidTables(r)
    ensures r.recordings == t.recordings && r.notifications == t.notifications
  {
    t.(users := WithAvailability(t.users, id, flag))
  }

  /** Stores 1 for a truthy `is_available` and 0 otherwise, on the caller's row only, and
      echoes the submitted value. */
  method SetAvailability(db: Database, doctorId: int, isAvailable: Value) returns (reply: Reply<Value>)
    requires db.Valid()
    modifies db
    ensures db.Valid()
    ensures db.State() == UpdateAvailability(old(db.State()), doctorId, Truthy(isAvailable))
    ensures reply == Ok(200, isAvailable)
  {
    var flag := Truthy(isAvailable);
    var src := db.users;
    ghost var after := UpdateAvailability(db.State(), doctorId, flag);
    ghost var target := WithAvailability(src, doctorId, flag);
    assert after.users == target;
    var users := src;
    var i := 0;
    while i < |users|
      invariant 0 <= i <= |users| == |src| == |target|
      invariant forall j :: 0 <= j < i ==> users[j] == target[j]
      invariant forall j :: i <= j < |users| ==> users[j] == src[j]
    {
      if users[i].id == doctorId {
        users := users[i := users[i].(available := flag)];
      }
      i := i + 1;
    }
    assert users == target;
    db.users := users;
    assert db.State() == after;
    reply := Ok(200, isAvailable);
  }

  // ---------------------------------------------------------------------------------------
  // PATCH /notifications/:id/read

  /** UPDATE notifications SET read_at = CURRENT_TIMESTAMP WHERE id = ? AND doctor_id = ?. */
  function MarkReadRows(ns: seq<Notification>, id: int, doctorId: int, now: int): (r: seq<Notification>)
    ensures |r| == |ns|
    ensures forall i :: 0 <= i < |r| && !(ns[i].id == id && ns[i].doctorId == doctorId) ==> r[i] == ns[i]
    ensures forall i :: 0 <= i < |r| && ns[i].id == id && ns[i].doctorId == doctorId ==>
      r[i] == ns[i].(readAt := Some(now))
  {
    if ns == [] then []
    else [if ns[0].id == id && ns[0].doctorId == doctorId then ns[0].(readAt := Some(now)) else ns[0]]
         + MarkReadRows(ns[1..], id, doctorId, now)
  }

  /** A doctor cannot mark another doctor's notification: the table is then unchanged. */
  lemma MarkReadOthersUnchanged(ns: seq<Notification>, id: int, doctorId: int, now: int)
    requires forall n :: n in ns && n.id == id ==> n.doctorId != doctorId
    ensures MarkReadRows(ns, id, doctorId, now) == ns
  {
    var r := MarkReadRows(ns, id, doctorId, now);
    forall i | 0 <= i < |ns| ensures r[i] == ns[i] {
      assert ns[i] in ns;
    }
  }

  function UpdateMarkRead(t: Tables, id: int, doctorId: int, now: int): (r: Tables)
    ensures ValidTables(t) ==> ValidTables(r)
    ensures r.users == t.users && r.recordings == t.recordings
  {
    t.(notifications := MarkReadRows(t.notifications, id, doctorId, now))
  }

  /** The reply is the same success message whether or not a row matched. */
  method MarkRead(db: Database, notificationId: int, doctorId: int, now: int) returns (reply: Reply<string>)
    requires db.Valid()
    modifies db
    ensures db.Valid()
    ensures db.State() == UpdateMarkRead(old(db.State()), notificationId, doctorId, now)
    ensures reply == Ok(200, "Notification marked as read")
  {
    var src := db.notifications;
    ghost var after := UpdateMarkRead(db.State(), notificationId, doctorId, now);
    ghost var target := MarkReadRows(src, notificationId, doctorId, now);
    assert after.notifications == target;
    var ns := src;
    var i := 0;
    while i < |ns|
      invariant 0 <= i <= |ns| == |src| == |target|
      invariant forall j :: 0 <= j < i ==> ns[j] == target[j]
      invariant forall j :: i <= j < |ns| ==> ns[j] == src[j]
    {
      if ns[i].id == notificationId && ns[i].doctorId == doctorId {
        ns := ns[i := ns[i].(readAt := Some(now))];
      }
      i := i + 1;
    }
    assert ns == target;
    db.notifications := ns;
    assert db.State() == after;
    reply := Ok(200, "Notification marked as read");
  }

  // ---------------------------------------------------------------------------------------
  // POST /recordings/:id/respond

  /** UPDATE notifications SET response = ? WHERE recording_id = ? AND doctor_id = ?. */
  function RespondRows(ns: seq<Notification>, recordingId: int, doctorId: int, response: Option<string>): (r: seq<Notification>)
    ensures |r| == |ns|
    ensures forall i :: 0 <= i < |r| && !(ns[i].recordingId == recordingId && ns[i].doctorId == doctorId) ==> r[i] == ns[i]
    ensures forall i :: 0 <= i < |r| && ns[i].recordingId == recordingId && ns[i].doctorId == doctorId ==>
      r[i] == ns[i].(response := response)
  {
    if ns == [] then []
    else [if ns[0].recordingId == recordingId && ns[0].doctorId == doctorId then ns[0].(response := response) else ns[0]]
         + RespondRows(ns[1..], recordingId, doctorId, response)
  }

  function UpdateResponse(t: Tables, recordingId: int, doctorId: int, response: Option<string>): (r: Tables)
    ensures ValidTables(t) ==> ValidTables(r)
    ensures r.users == t.users && r.recordings == t.recordings
  {
    t.(notifications := RespondRows(t.notifications, recordingId, doctorId, response))
  }

  /** Stores the response (as its TEXT column value) on every one of the caller's rows for the
      recording, and on nothing else. */
  method Respond(db: Database, recordingId: int, doctorId: int, response: Value) returns (reply: Reply<string>)
    requires db.Valid()
    modifies db
    ensures db.Valid()
    ensures db.State() == UpdateResponse(old(db.State()), recordingId, doctorId, TextColumn(response))
    ensures reply == Ok(200, "Response recorded successfully")
  {
    var text := TextColumn(response);
    var src := db.notifications;
    ghost var after := UpdateResponse(db.State(), recordingId, doctorId, text);
    ghost var target := RespondRows(src, recordingId, doctorId, text);
    assert after.notifications == target;
    var ns := src;
    var i := 0;
    while i < |ns|
      invariant 0 <= i <= |ns| == |src| == |target|
      invariant forall j :: 0 <= j < i ==> ns[j] == target[j]
      invariant forall j :: i <= j < |ns| ==> ns[j] == src[j]
    {
      if ns[i].recordingId == recordingId && ns[i].doctorId == doctorId {
        ns := ns[i := ns[i].(response := text)];
      }
      i := i + 1;
    }
    assert ns == target;
    db.notifications := ns;
    assert db.State() == after;
    reply := Ok(200, "Response recorded successfully");
  }
}
