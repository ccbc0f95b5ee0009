/** The SQLite schema of config/database.js: the three tables, the value domains their CHECK,
    DEFAULT, NOT NULL and UNIQUE clauses impose, the INSERT statements the routes rely on, and
    the INSERT OR IGNORE seeding of the demo accounts. Tables are sequences of rows in rowid
    order; AUTOINCREMENT is a per-table counter. */
module Schema {
  import opened Js
  import opened Http

  datatype Role = Emt | Doctor
  datatype Status = Pending | Processing | Completed | Notified | Error
  datatype Urgency = Low | Medium | High | Critical
  datatype Channel = Sms | Email | Both

  function RoleText(r: Role): string {
    match r
    case Emt => "emt"
    case Doctor => "doctor"
  }

  /** CHECK (role IN ('emt', 'doctor')). */
  function ParseRole(s: string): (r: Option<Role>)
    ensures r.Some? <==> (s == "emt" || s == "doctor")
    ensures r.Some? ==> RoleText(r.value) == s
  {
    if s == "emt" then Some(Emt) else if s == "doctor" then Some(Doctor) else None
  }

  function StatusText(s: Status): string {
    match s
    case Pending => "pending"
    case Processing => "processing"
    case Completed => "completed"
    case Notified => "notified"
    case Error => "error"
  }

  function UrgencyText(u: Urgency): string {
    match u
    case Low => "low"
    case Medium => "medium"
    case High => "high"
    case Critical => "critical"
  }

  /** CHECK (urgency_level IN ('low', 'medium', 'high', 'critical')). */
  function ParseUrgency(s: string): (r: Option<Urgency>)
    ensures r.Some? <==> (s == "low" || s == "medium" || s == "high" || s == "critical")
    ensures r.Some? ==> UrgencyText(r.value) == s
  {
    if s == "low" then Some(Low)
    else if s == "medium" then Some(Medium)
    else if s == "high" then Some(High)
    else if s == "critical" then Some(Critical)
    else None
  }

  /** The labels the analysis prompt asks the language model for ("urgent", "moderate",
      "routine") lie outside the urgency_level domain. */
  lemma PromptLabelsOutsideDomain()
    ensures ParseUrgency("urgent").None? && ParseUrgency("moderate").None? && ParseUrgency("routine").None?
  {
  }

  datatype User = User(
    id: int, username: string, email: string, passwordHash: string, role: Role,
    firstName: string, lastName: string, phone: Option<string>, specialty: Option<string>,
    available: bool)

  datatype Recording = Recording(
    id: int, emtId: int, patientInfo: Option<string>, audioFilePath: string,
    transcription: Option<string>, llmSummary: Option<string>, urgency: Urgency,
    riskScore: int, priorityLevel: int,
    chiefComplaint: Option<string>, vitalSigns: Option<string>, symptoms: Option<string>,
    recommendedActions: Option<string>, criticalInfo: Option<string>,
    status: Status, createdAt: int)

  datatype Notification = Notification(
    id: int, recordingId: int, doctorId: int, channel: Channel, sentAt: int,
    delivered: bool, readAt: Option<int>, response: Option<string>)

  datatype Tables = Tables(
    users: seq<User>, recordings: seq<Recording>, notifications: seq<Notification>,
    nextUserId: int, nextRecordingId: int, nextNotificationId: int)

  /** CHECK (risk_score >= 0 AND risk_score <= 10). */
  predicate RiskInRange(n: int) { 0 <= n <= 10 }

  /** CHECK (priority_level >= 1 AND priority_level <= 5). */
  predicate PriorityInRange(n: int) { 1 <= n <= 5 }

  predicate RecordingChecks(r: Recording) {
    RiskInRange(r.riskScore) && PriorityInRange(r.priorityLevel)
  }

  /** users: ids below the AUTOINCREMENT counter and increasing; username and email UNIQUE. */
  ghost predicate UsersValid(users: seq<User>, next: int) {
    && 1 <= next
    && (forall i :: 0 <= i < |users| ==> 1 <= users[i].id < next)
    && (forall i, j :: 0 <= i < j < |users| ==> users[i].id < users[j].id)
    && (forall i, j :: 0 <= i < j < |users| ==>
          users[i].username != users[j].username && users[i].email != users[j].email)
  }

  ghost predicate RecordingsValid(recs: seq<Recording>, next: int) {
    && 1 <= next
    && (forall i :: 0 <= i < |recs| ==> 1 <= recs[i].id < next && RecordingChecks(recs[i]))
    && (forall i, j :: 0 <= i < j < |recs| ==> recs[i].id < recs[j].id)
  }

  ghost predicate NotificationsValid(ns: seq<Notification>, next: int) {
    && 1 <= next
    && (forall i :: 0 <= i < |ns| ==> 1 <= ns[i].id < next)
    && (forall i, j :: 0 <= i < j < |ns| ==> ns[i].id < ns[j].id)
  }

  /** Every constraint of the schema holds of every row. */
  ghost predicate ValidTables(t: Tables) {
    && UsersValid(t.users, t.nextUserId)
    && RecordingsValid(t.recordings, t.nextRecordingId)
    && NotificationsValid(t.notifications, t.nextNotificationId)
  }

  const EmptyTables := Tables([], [], [], 1, 1, 1)

  function FindUser(users: seq<User>, id: int): (r: Option<User>)
    ensures r.Some? ==> r.value in users && r.value.id == id
    ensures r.None? ==> forall u :: u in users ==> u.id != id
  {
    if users == [] then None
    else if users[0].id == id then Some(users[0])
    else FindUser(users[1..], id)
  }

  function FindRecording(recs: seq<Recording>, id: int): (r: Option<Recording>)
    ensures r.Some? ==> r.value in recs && r.value.id == id
    ensures r.None? ==> forall x :: x in recs ==> x.id != id
  {
    if recs == [] then None
    else if recs[0].id == id then Some(recs[0])
    else FindRecording(recs[1..], id)
  }

  function FindNotification(ns: seq<Notification>, id: int): (r: Option<Notification>)
    ensures r.Some? ==> r.value in ns && r.value.id == id
    ensures r.None? ==> forall x :: x in ns ==> x.id != id
  {
    if ns == [] then None
    else if ns[0].id == id then Some(ns[0])
    else FindNotification(ns[1..], id)
  }

  /** What a TEXT column holds once a value is bound to it (TEXT affinity turns numbers into
      their decimal text; the driver binds booleans as 1 and 0); None is NULL. */
  function TextColumn(v: Value): (r: Option<string>)
    ensures r.None? <==> (v == Undefined || v == Null)
    ensures Truthy(v) ==> r.Some?
  {
    match v
    case Undefined => None
    case Null => None
    case Bool(b) => Some(if b then "1" else "0")
    case Num(n) => Some(IntText(n))
    case Str(s) => Some(s)
    case Structured(t) => Some(t)
  }

  /** What an INTEGER column holds for a truthy bound value: a number as it is, a boolean as 1,
      and a bound text (a string, or the text an array or object is bound as) as its integer
      when it is well-formed decimal (INTEGER affinity). None is any other text, which stays
      TEXT and compares above every number, so that a `<= 10` or `<= 5` CHECK rejects it. */
  function IntColumn(v: Value): (r: Option<int>)
    requires Truthy(v)
    ensures v.Num? ==> r == Some(v.n)
    ensures v.Bool? ==> r == Some(1)
    ensures v.Str? ==> r == ParseDecimal(v.s)
    ensures v.Structured? ==> r == ParseDecimal(v.bound)
  {
    match v
    case Num(n) => Some(n)
    case Bool(b) => Some(1)
    case Str(s) => ParseDecimal(s)
    case Structured(t) => ParseDecimal(t)
  }

  /** The values bound by `INSERT INTO users (username, email, password_hash, role, first_name,
      last_name, phone, specialty)`; None is NULL. */
  datatype UserInsert = UserInsert(
    username: Option<string>, email: Option<string>, passwordHash: string, role: Option<string>,
    firstName: Option<string>, lastName: Option<string>, phone: Option<string>,
    specialty: Option<string>)

  /** Some user already has this username or this email. */
  predicate Conflicts(users: seq<User>, username: string, email: string) {
    exists u :: u in users && (u.username == username || u.email == email)
  }

  /** The NOT NULL and CHECK constraints a users row must meet. */
  predicate UserRowAllowed(row: UserInsert) {
    && row.username.Some? && row.email.Some? && row.firstName.Some? && row.lastName.Some?
    && row.role.Some? && ParseRole(row.role.value).Some?
  }

  /** The row an accepted insert adds: the next id, is_available DEFAULT 1. */
  function UserRow(id: int, row: UserInsert): User
    requires UserRowAllowed(row)
  {
    User(id, row.username.value, row.email.value, row.passwordHash,
         ParseRole(row.role.value).value, row.firstName.value, row.lastName.value,
         row.phone, row.specialty, true)
  }

  /** INSERT INTO users: the new tables, or None when a NOT NULL, CHECK or UNIQUE
      constraint fails (the tables are then unchanged). */
  function InsertUser(t: Tables, row: UserInsert): (r: Option<Tables>)
    ensures r.Some? <==> UserRowAllowed(row) && !Conflicts(t.users, row.username.value, row.email.value)
    ensures r.Some? ==> r.value == t.(users := t.users + [UserRow(t.nextUserId, row)],
                                      nextUserId := t.nextUserId + 1)
    ensures r.Some? && ValidTables(t) ==> ValidTables(r.value)
  {
    if !UserRowAllowed(row) || Conflicts(t.users, row.username.value, row.email.value) then None
    else
      var u := UserRow(t.nextUserId, row);
      var t' := t.(users := t.users + [u], nextUserId := t.nextUserId + 1);
      assert ValidTables(t) ==> ValidTables(t') by {
        if ValidTables(t) {
          forall i | 0 <= i < |t.users| ensures t.users[i].username != u.username && t.users[i].email != u.email {
            assert t.users[i] in t.users;
          }
        }
      }
      Some(t')
  }

  /** INSERT OR IGNORE INTO users: a row that breaks a constraint is skipped. */
  function InsertOrIgnoreUser(t: Tables, row: UserInsert): Tables {
    InsertUser(t, row).GetOr(t)
  }

  /** INSERT INTO recordings (emt_id, patient_info, audio_file_path): every other column takes
      its DEFAULT (status 'pending', risk_score 5, priority_level 3, urgency_level 'medium'). */
  function InsertRecording(t: Tables, emtId: int, patientInfo: Option<string>, path: string, now: int): (r: Tables)
    ensures |r.recordings| == |t.recordings| + 1 && r.recordings[..|t.recordings|] == t.recordings
    ensures var x := r.recordings[|t.recordings|];
      && x.id == t.nextRecordingId && x.emtId == emtId && x.patientInfo == patientInfo
      && x.audioFilePath == path && x.createdAt == now
      && x.status == Pending && x.riskScore == 5 && x.priorityLevel == 3 && x.urgency == Medium
      && x.transcription == None && x.llmSummary == None && x.chiefComplaint == None
      && x.vitalSigns == None && x.symptoms == None && x.recommendedActions == None
      && x.criticalInfo == None
    ensures r.users == t.users && r.notifications == t.notifications
    ensures r.nextRecordingId == t.nextRecordingId + 1
    ensures ValidTables(t) ==> ValidTables(r)
  {
    var x := Recording(t.nextRecordingId, emtId, patientInfo, path, None, None, Medium, 5, 3,
                       None, None, None, None, None, Pending, now);
    t.(recordings := t.recordings + [x], nextRecordingId := t.nextRecordingId + 1)
  }

  /** INSERT INTO notifications (recording_id, doctor_id, notification_type): delivered
      DEFAULT 0, read_at and response NULL, sent_at the current time. */
  function InsertNotification(t: Tables, recordingId: int, doctorId: int, channel: Channel, now: int): (r: Tables)
    ensures r.notifications == t.notifications +
              [Notification(t.nextNotificationId, recordingId, doctorId, channel, now, false, None, None)]
    ensures r.users == t.users && r.recordings == t.recordings
    ensures r.nextNotificationId == t.nextNotificationId + 1
    ensures ValidTables(t) ==> ValidTables(r)
  {
    var n := Notification(t.nextNotificationId, recordingId, doctorId, channel, now, false, None, None);
    t.(notifications := t.notifications + [n], nextNotificationId := t.nextNotificationId + 1)
  }

  /** UPDATE recordings SET status = ? WHERE id = ?. */
  function SetStatus(recs: seq<Recording>, id: int, s: Status): (r: seq<Recording>)
    ensures |r| == |recs|
    ensures forall i :: 0 <= i < |r| ==>
      r[i] == if recs[i].id == id then recs[i].(status := s) else recs[i]
  {
    seq(|recs|, i requires 0 <= i < |recs| => if recs[i].id == id then recs[i].(status := s) else recs[i])
  }

  // ---------------------------------------------------------------------------------------
  // Queries shared by several routes

  /** `SELECT * FROM users WHERE role = 'doctor' AND is_available = 1`, in rowid order. */
  function AvailableDoctors(users: seq<User>): (r: seq<User>)
    ensures forall u :: u in r <==> u in users && u.role == Doctor && u.available
    ensures |r| <= |users|
  {
    if users == [] then []
    else
      var rest := AvailableDoctors(users[1..]);
      assert forall u :: u in users <==> u == users[0] || u in users[1..];
      if users[0].role == Doctor && users[0].available then [users[0]] + rest else rest
  }

  predicate IdsIncreasing(users: seq<User>) {
    forall i, j :: 0 <= i < j < |users| ==> users[i].id < users[j].id
  }

  lemma HeadIdSmallest(users: seq<User>)
    requires users != [] && IdsIncreasing(users)
    ensures forall x :: x in users[1..] ==> users[0].id < x.id
  {
    forall x | x in users[1..] ensures users[0].id < x.id {
      var k :| 0 <= k < |users[1..]| && users[1..][k] == x;
      assert users[k + 1] == x;
    }
  }

  lemma ConsIncreasing(u: User, rest: seq<User>)
    requires IdsIncreasing(rest) && forall x :: x in rest ==> u.id < x.id
    ensures IdsIncreasing([u] + rest)
  {
    var r := [u] + rest;
    forall i, j | 0 <= i < j < |r| ensures r[i].id < r[j].id {
      assert r[j] == rest[j - 1];
      if i > 0 { assert r[i] == rest[i - 1]; } else { assert r[j] in rest; }
    }
  }

  /** The doctors come out in increasing id order, so no doctor is listed twice. */
  lemma {:induction false} AvailableDoctorsOrdered(users: seq<User>)
    requires IdsIncreasing(users)
    ensures IdsIncreasing(AvailableDoctors(users))
  {
    if users != [] {
      var rest := AvailableDoctors(users[1..]);
      assert IdsIncreasing(users[1..]);
      AvailableDoctorsOrdered(users[1..]);
      if users[0].role == Doctor && users[0].available {
        HeadIdSmallest(users);
        ConsIncreasing(users[0], rest);
      }
    }
  }

  /** A recordings row joined with the first and last name of the EMT who made it. */
  datatype RecordingView = RecordingView(recording: Recording, emtFirstName: string, emtLastName: string)

  /** `SELECT r.*, u.first_name, u.last_name FROM recordings r JOIN users u ON r.emt_id = u.id
      WHERE r.id = ?`, first row: a recording whose EMT is not in the users table drops out
      of the inner join. */
  function RecordingWithEmt(recs: seq<Recording>, users: seq<User>, id: int): (r: Option<RecordingView>)
    ensures r.Some? ==> && r.value.recording in recs && r.value.recording.id == id
                        && exists u :: u in users && u.id == r.value.recording.emtId
                                       && r.value.emtFirstName == u.firstName
                                       && r.value.emtLastName == u.lastName
    ensures r.None? <==> forall x :: x in recs && x.id == id ==> FindUser(users, x.emtId).None?
  {
    if recs == [] then None
    else
      var rest := RecordingWithEmt(recs[1..], users, id);
      assert forall x :: x in recs <==> x == recs[0] || x in recs[1..];
      if recs[0].id == id && FindUser(users, recs[0].emtId).Some? then
        var u := FindUser(users, recs[0].emtId).value;
        Some(RecordingView(recs[0], u.firstName, u.lastName))
      else rest
  }

  /** GET /recordings/:id (and the doctors' GET /recording/:id, which runs the same query):
      the first joined row, or 404 when the join is empty. */
  function RecordingById(t: Tables, id: int): (reply: Reply<RecordingView>)
    ensures reply.Fail? <==> forall x :: x in t.recordings && x.id == id ==> FindUser(t.users, x.emtId).None?
    ensures reply.Fail? ==> reply == Fail(404, "Recording not found")
    ensures reply.Ok? ==> && reply.status == 200 && reply.body.recording.id == id
                          && reply.body.recording in t.recordings
  {
    match RecordingWithEmt(t.recordings, t.users, id)
    case None => Fail(404, "Recording not found")
    case Some(v) => Ok(200, v)
  }

  /** A recording that exists and whose EMT exists is always found. */
  lemma RecordingByIdFinds(t: Tables, x: Recording, u: User)
    requires x in t.recordings && u in t.users && u.id == x.emtId
    ensures RecordingById(t, x.id).Ok?
  {
    assert FindUser(t.users, x.emtId).Some?;
  }

  // ---------------------------------------------------------------------------------------
  // Seeding (insertSampleData)

  const SamplePassword := "password123"

  /** The four demo accounts, all with the hash of "password123". */
  function SampleUsers(hash: string): seq<UserInsert> {
    [ UserInsert(Some("dr.smith"), Some("dr.smith@hospital.com"), hash, Some("doctor"), Some("John"),
                 Some("Smith"), Some("+1234567890"), Some("Emergency Medicine")),
      UserInsert(Some("dr.jones"), Some("dr.jones@hospital.com"), hash, Some("doctor"), Some("Sarah"),
                 Some("Jones"), Some("+1234567891"), Some("Cardiology")),
      UserInsert(Some("emt.wilson"), Some("emt.wilson@ems.com"), hash, Some("emt"), Some("Mike"),
                 Some("Wilson"), Some("+1234567892"), None),
      UserInsert(Some("emt.garcia"), Some("emt.garcia@ems.com"), hash, Some("emt"), Some("Maria"),
                 Some("Garcia"), Some("+1234567893"), None) ]
  }

  /** Runs INSERT OR IGNORE for each row in turn. */
  function SeedSpec(t: Tables, rows: seq<UserInsert>): Tables
    decreases |rows|
  {
    if rows == [] then t else SeedSpec(InsertOrIgnoreUser(t, rows[0]), rows[1..])
  }

  /** Seeding only appends: the users already present stay as they were, in place, and the
      other tables are untouched; the schema constraints keep holding. */
  lemma {:induction false} SeedKeepsExisting(t: Tables, rows: seq<UserInsert>)
    decreases |rows|
    ensures var t' := SeedSpec(t, rows);
      && |t.users| <= |t'.users| && t'.users[..|t.users|] == t.users
      && t'.recordings == t.recordings && t'.notifications == t.notifications
      && (ValidTables(t) ==> ValidTables(t'))
  {
    if rows != [] {
      var t1 := InsertOrIgnoreUser(t, rows[0]);
      SeedKeepsExisting(t1, rows[1..]);
      var t' := SeedSpec(t1, rows[1..]);
      assert t'.users[..|t.users|] == t'.users[..|t1.users|][..|t.users|];
    }
  }

  /** After seeding, every row of the seed list would be ignored by a second insert. */
  lemma {:induction false} SeededRowsRejected(t: Tables, rows: seq<UserInsert>)
    decreases |rows|
    ensures forall k :: 0 <= k < |rows| ==> InsertUser(SeedSpec(t, rows), rows[k]).None?
  {
    if rows != [] {
      var t1 := InsertOrIgnoreUser(t, rows[0]);
      SeededRowsRejected(t1, rows[1..]);
      SeedKeepsExisting(t1, rows[1..]);
      var t' := SeedSpec(t, rows);
      assert t' == SeedSpec(t1, rows[1..]);
      forall k | 0 <= k < |rows| ensures InsertUser(t', rows[k]).None? {
        if k == 0 {
          var row := rows[0];
          if UserRowAllowed(row) {
            var u :| u in t1.users && (u.username == row.username.value || u.email == row.email.value);
            var i :| 0 <= i < |t1.users| && t1.users[i] == u;
            assert t'.users[i] == u;
          }
        } else {
          assert rows[k] == rows[1..][k - 1];
        }
      }
    }
  }

  /** A seed pass in which every row is rejected changes nothing. */
  lemma {:induction false} SeedAllRejected(t: Tables, rows: seq<UserInsert>)
    requires forall k :: 0 <= k < |rows| ==> InsertUser(t, rows[k]).None?
    ensures SeedSpec(t, rows) == t
  {
    if rows != [] {
      assert forall k :: 0 <= k < |rows[1..]| ==> rows[1..][k] == rows[k + 1];
      SeedAllRejected(t, rows[1..]);
    }
  }

  /** Re-seeding is a no-op: running insertSampleData twice leaves the database as running it
      once, so no duplicate demo account is ever added. */
  lemma SeedIdempotent(t: Tables, rows: seq<UserInsert>)
    ensures SeedSpec(SeedSpec(t, rows), rows) == SeedSpec(t, rows)
  {
    SeededRowsRejected(t, rows);
    SeedAllRejected(SeedSpec(t, rows), rows);
  }

  /** The database: one sequence field per table and the AUTOINCREMENT counters. */
  class Database {
    var users: seq<User>
    var recordings: seq<Recording>
    var notifications: seq<Notification>
    var nextUserId: int
    var nextRecordingId: int
    var nextNotificationId: int

    function State(): Tables
      reads this
    {
      Tables(users, recordings, notifications, nextUserId, nextRecordingId, nextNotificationId)
    }

    ghost predicate Valid()
      reads this
    {
      ValidTables(State())
    }

    constructor ()
      ensures Valid() && State() == EmptyTables
    {
      users, recordings, notifications := [], [], [];
      nextUserId, nextRecordingId, nextNotificationId := 1, 1, 1;
    }

    /** INSERT OR IGNORE of each row in turn. */
    method SeedUsers(rows: seq<UserInsert>)
      requires Valid()
      modifies this
      ensures Valid()
      ensures State() == SeedSpec(old(State()), rows)
    {
      ghost var start := State();
      for k := 0 to |rows|
        invariant SeedSpec(State(), rows[k..]) == SeedSpec(start, rows)
        invariant ValidTables(State())
      {
        ghost var before := State();
        assert rows[k..] == [rows[k]] + rows[k + 1..];
        assert SeedSpec(before, rows[k..]) == SeedSpec(InsertOrIgnoreUser(before, rows[k]), rows[k + 1..]);
        match InsertUser(State(), rows[k]) {
          case Some(t) =>
            users, nextUserId := t.users, t.nextUserId;
          case None =>
        }
        assert State() == InsertOrIgnoreUser(before, rows[k]);
      }
      assert rows[|rows|..] == [];
    }

    /** insertSampleData: the four demo accounts, all with the hash of the demo password. */
    method SeedSampleUsers(hash: string -> string)
      requires Valid()
      modifies this
      ensures Valid()
      ensures State() == SeedSpec(old(State()), SampleUsers(hash(SamplePassword)))
    {
      SeedUsers(SampleUsers(hash(SamplePassword)));
    }
  }
}
