# Emergency recording triage — a Dafny model

The system lets field EMTs upload an audio recording with typed patient information. A
background pipeline then transcribes the recording and asks a language model for a structured
assessment: chief complaint, vital signs, symptoms, a risk score from 0 to 10, a priority from 1
to 5, recommended actions and critical information. It stores the assessment in SQLite and
creates one notification for every available doctor. Doctors list their notifications in
triage order, mark them read and respond. Notifications can also be pushed by SMS and e-mail.
Two React dashboards and a registration form sit on top.

This project models that core in Dafny:

- `schema.dfy` (module `Schema`) — the three tables of `config/database.js`:
  - the CHECK, DEFAULT, NOT NULL, UNIQUE and AUTOINCREMENT rules;
  - the INSERT and UPDATE statements the routes run;
  - the demo-account seeding;
  - a `Database` class whose `seq` fields are the tables.
- `recordings.dfy` (module `Recordings`) — the upload filter and route, the EMT's listing,
  `processRecording`, the language-model adapter `analyzeWithLLM` with its fence stripping and
  fallback, and `notifyDoctors`.
  - `processRecording` and `notifyDoctors` are each a function of the old tables (`ProcessSpec`,
    `NotifySpec`). Each is also a method that updates a `Database` object (`ProcessRecording`,
    `NotifyDoctors`) and is proved to leave it in exactly the state the function gives.
  - `/upload` is the method `Upload`, whose contract gives its new state through
    `Schema.InsertRecording`; the read-only `/my-recordings` is the function `MyRecordings`.
  - The Whisper and chat-completion services, `JSON.parse`/`JSON.stringify` and the failure of
    any single database statement are parameters.
- `doctors.dfy` (module `Doctors`) — the available-doctor list, the sorted notification listing,
  availability, mark-read and respond.
- `notifications.dfy` (module `Notifications`) — `/send`, the urgency colour of the e-mail,
  `/status/:id` and `/test`. The SMS and e-mail services are a `deliver` parameter.
- `auth.dfy` (module `Auth`) — register, login and profile. bcrypt and JWT signing are
  parameters.
- `doctor_dashboard.dfy`, `emt_dashboard.dfy` and `register_form.dfy` — the client-side
  helpers of `DoctorDashboard.js`, `EMTDashboard.js` and `Register.js`.
- `js.dfy` (modules `Js` and `Http`) and `ordering.dfy` (module `Ordering`) — the JavaScript
  semantics the code leans on (truthiness, `||`, `trim`, `includes`, `split`, `indexOf`, decimal
  text) and `ORDER BY` as a verified sort.

The model follows the code on these points:

- A failure while creating the notifications happens after the row was marked `completed`.
  It is rethrown into the pipeline's catch block, so the recording ends in `error`. It does not
  stay `completed`.
- A language-model reply that parses to JSON `null` makes the field reads throw, so the run
  ends in `error`. The fallback assessment covers only a failed call or a failed parse.
- The result UPDATE never writes `urgency_level`, so every recording keeps the default
  `medium`.
- `/send` selects the recording without joining the users table, so the "EMT:" line of its
  messages reads `undefined undefined`.
- `/send` marks the pair's notifications delivered even when the type is neither `sms`,
  `email` nor `both` and nothing was sent.
- Nothing prevents two pipeline runs on the same recording.

## Model

| member | source | states |
|---|---|---|
| Schema.ParseRole | config/database.js:27 | a role text is accepted iff it is `emt` or `doctor`, and it reads back as the same text |
| Schema.ParseUrgency | config/database.js:45 | an urgency text is accepted iff it is one of the four levels, and it reads back as the same text |
| Schema.PromptLabelsOutsideDomain | config/database.js:45 | the labels `urgent`, `moderate` and `routine` are outside the urgency_level domain |
| Schema.FindUser | config/database.js:121-131 | a lookup by id returns a row with that id, or None only when no row has it |
| Schema.FindRecording | config/database.js:121-131 | a lookup by id returns a row with that id, or None only when no row has it |
| Schema.FindNotification | config/database.js:121-131 | a lookup by id returns a row with that id, or None only when no row has it |
| Schema.TextColumn | config/database.js:134-144 | a bound value is NULL exactly when it is undefined or null; every truthy value is stored |
| Schema.IntColumn | config/database.js:46-47 | a number is stored as itself and `true` as 1; a string, or the text an array or object is bound as, is stored as its integer only when it is well-formed decimal |
| Schema.InsertUser | config/database.js:22-35 | the users insert succeeds iff NOT NULL, the role CHECK and the username/email UNIQUE constraints hold; it appends one row with the next id and keeps every constraint |
| Schema.InsertRecording | config/database.js:38-57 | the recordings insert appends one row with the next id, status pending, risk 5, priority 3, urgency medium and empty results, and keeps every constraint |
| Schema.InsertNotification | config/database.js:60-71 | the notifications insert appends one undelivered, unread row with the next id, and keeps every constraint |
| Schema.SetStatus | config/database.js:53 | a status update changes exactly the status of the rows with that id |
| Schema.AvailableDoctors | routes/recordings.js:282-285 | the query returns exactly the users who are doctors and available |
| Schema.AvailableDoctorsOrdered | routes/recordings.js:282-285 | the doctors come out in increasing id order, so none is listed twice |
| Schema.RecordingWithEmt | routes/recordings.js:89-92 | the join finds a row with the id whose EMT exists, with that EMT's names; None iff no row with the id has an existing EMT |
| Schema.RecordingById | routes/recordings.js:87-103 | 404 "Recording not found" iff the join is empty; otherwise 200 with the recording of that id |
| Schema.RecordingByIdFinds | routes/doctors.js:62-81 | a recording whose EMT exists is always found |
| Schema.SeedKeepsExisting | config/database.js:104-108 | seeding only appends users, keeps existing rows in place, leaves the other tables alone and keeps every constraint |
| Schema.SeededRowsRejected | config/database.js:104-108 | after seeding, inserting any seeded row again is rejected |
| Schema.SeedAllRejected | config/database.js:104-108 | a seeding pass in which every insert is ignored changes nothing |
| Schema.SeedIdempotent | config/database.js:92-118 | seeding twice gives the same database as seeding once |
| Schema.Database.constructor | config/database.js:19-35 | a fresh database is empty, with counters at 1, and satisfies every constraint |
| Schema.Database.SeedUsers | config/database.js:104-108 | the INSERT OR IGNORE loop over a list of accounts yields the seeding specification and keeps the constraints |
| Schema.Database.SeedSampleUsers | config/database.js:92-118 | seeding the four demo accounts, all with the hash of the demo password, yields the seeding specification and keeps the constraints |
| Ordering.Sort | routes/doctors.js:28-40 | ORDER BY returns a permutation of the rows, sorted by the key vector |
| Ordering.Insert | routes/doctors.js:28-40 | inserting into a sorted list keeps it sorted and adds exactly that row |
| Js.Trim | routes/recordings.js:246 | the trimmed text is no longer than the input and neither starts nor ends with white space |
| Js.TrimStartDropsBlank | routes/recordings.js:246 | what the trim drops at the start is white space |
| Js.TrimEndDropsBlank | routes/recordings.js:246 | what the trim drops at the end is white space |
| Js.TrimIsSlice | routes/recordings.js:246 | the trimmed text is a contiguous slice of the input |
| Js.TrimIdempotent | routes/recordings.js:252 | trimming twice is trimming once |
| Js.TrimEmptyIffBlank | client/src/components/EMTDashboard.js:165 | a trimmed text is empty iff the text is all white space |
| Js.IndexOf | routes/recordings.js:251 | the first occurrence of a pattern, and None iff the pattern does not occur |
| Js.SplitFirst | routes/recordings.js:252 | `split(sep)[0]` is the longest prefix before the first separator |
| Js.SplitFirstOfSuffix | routes/recordings.js:252 | splitting the text after a position stops at the first separator at or after it, or at the end |
| Js.DelimitedAfter | routes/recordings.js:251-252 | the text between the first opening marker and the next closing marker is what `split` returns |
| Js.After | routes/recordings.js:252 | `split(sep)[1]` onwards starts right after an occurrence of the separator |
| Js.DecimalRoundTrip | config/database.js:46-47 | reading back the decimal text of an integer gives the integer |
| Recordings.AllowedMime | routes/recordings.js:34-41 | the unanchored filter accepts a MIME type iff it contains `audio/` followed by one of the seven subtypes |
| Recordings.RecorderTypesAllowed | routes/recordings.js:34-41 | the three types the EMT dashboard records with pass the filter |
| Recordings.AllowedMimeExamples | routes/recordings.js:35 | the pattern has no anchor, so `x-audio/mp3` passes, and it needs a whole alternative, so `audio/mpeg` is refused |
| Recordings.Upload | routes/recordings.js:31-69 | 201 with the new id iff a file passed the filter and the 50 MB limit, and then exactly one pending row was inserted; otherwise 500 and no change |
| Recordings.RecordingsOf | routes/recordings.js:74-77 | the filter keeps exactly the caller's recordings |
| Recordings.MyRecordingsSpec | routes/recordings.js:72-84 | the listing is a permutation of the caller's recordings, newest first |
| Recordings.StripFencesSpec | routes/recordings.js:249-255 | the cleaning takes the text after the first opening fence up to the next fence; with no fence the reply is unchanged |
| Recordings.PlainUnchanged | routes/recordings.js:250-255 | a reply without backticks is not changed by the cleaning |
| Recordings.FencedReplyRoundTrip | routes/recordings.js:246-255 | a body wrapped in a json fence cleans to the same text as the bare body |
| Recordings.AnalyzeWithLLM | routes/recordings.js:186-276 | a failed call or a failed parse gives the fixed fallback record; otherwise the parse of the cleaned, trimmed reply |
| Recordings.FencedAnalysisAsBare | routes/recordings.js:246-259 | a reply in json fences is analysed exactly like the bare JSON |
| Recordings.TextOr | routes/recordings.js:144-151 | `v || default` stores the value when truthy and the default otherwise |
| Recordings.IntOr | routes/recordings.js:145-146 | `v || default` on an integer column stores the value when truthy and the default otherwise |
| Recordings.FieldsOf | routes/recordings.js:143-151 | reading fields of `null` throws; an object yields its fields |
| Recordings.PersistedColumns | routes/recordings.js:142-154 | each stored column is the analysis field when truthy and its literal default otherwise; a missing summary is replaced by the stringified analysis |
| Recordings.ZeroRiskStoredAsFive | routes/recordings.js:145 | a risk of 0 is falsy and stored as 5, while the text "0" is stored as 0 |
| Recordings.FailedAnalysisColumns | routes/recordings.js:261-275 | after a failed call or parse, the stored values are the fallback's and pass the CHECK constraints |
| Recordings.WriteResultRows | routes/recordings.js:129-155 | the result update fails iff the row exists and a CHECK is broken; otherwise it writes the results and `completed` on exactly the rows with the id |
| Recordings.FanOut | routes/recordings.js:289-294 | the insert loop never inserts more rows than there are doctors |
| Recordings.FanOutFacts | routes/recordings.js:289-294 | the loop appends one `both` row for each doctor of a prefix, with consecutive ids, and nothing else; it completes iff every insert succeeded |
| Recordings.FanOutStopsAtFault | routes/recordings.js:289-294 | the loop stops early only at a failing insert |
| Recordings.FanOutValid | routes/recordings.js:289-294 | the loop keeps every constraint |
| Recordings.NotifySpecFacts | routes/recordings.js:279-306 | notifyDoctors fails iff one of its statements fails; on success it adds one row per available doctor and marks the recording notified; it never touches users, and a failure leaves recordings unchanged |
| Recordings.NotifySpecValid | routes/recordings.js:279-306 | notifyDoctors keeps every constraint |
| Recordings.SetStatusKeeps | routes/recordings.js:109-112 | a status update changes only pipeline columns of the processed row and keeps the constraints |
| Recordings.WriteResultsKeeps | routes/recordings.js:129-155 | the result update changes only pipeline columns of the processed row and keeps the constraints |
| Recordings.ProcessKeeps | routes/recordings.js:106-167 | a run keeps every constraint, never touches users, and changes only the processed row's pipeline columns (never its EMT, patient information, file, urgency or creation time) |
| Recordings.TryKeepsUsers | routes/recordings.js:107-158 | the try block never touches users |
| Recordings.PatientInfoKept | routes/recordings.js:115-120 | the patient information read back is unchanged by the pipeline's own updates |
| Recordings.SetStatusTwice | routes/recordings.js:162-165 | a second status update overrides the first |
| Recordings.TryTrace | routes/recordings.js:107-158 | the try block succeeds iff it wrote processing, completed and notified; the row then rests in notified with one new notification per available doctor; a failed try wrote nothing, processing, or processing then completed |
| Recordings.ProcessTrace | routes/recordings.js:106-167 | a run succeeds iff it wrote processing, completed and notified; when it fails and the catch update succeeds, `error` is written last and the row rests there |
| Recordings.FailedTrace | routes/recordings.js:106-167 | a failed run wrote error alone, processing then error, or processing, completed then error; without the error when the catch update fails too |
| Recordings.EarlyFailureWritesNothing | routes/recordings.js:115-126 | an unreadable patient information, a failed transcription or a null analysis writes only processing then error, and changes nothing else |
| Recordings.MalformedReplyCompletes | routes/recordings.js:257-275 | with an unobtainable or unparsable reply, the recording still completes with the fallback values and is notified |
| Recordings.ProcessFailsIff | routes/recordings.js:106-167 | with no database failure, a run fails iff the transcription fails, the analysis is null, or the stored risk or priority breaks a CHECK |
| Recordings.NotifiedOncePerDoctor | routes/recordings.js:287-294 | the run's notifications are one `both` row per available doctor, with consecutive ids, in increasing doctor id, so no doctor is notified twice |
| Recordings.InsertNotifications | routes/recordings.js:289-294 | the imperative loop produces exactly the fan-out specification's tables and outcome |
| Recordings.NotifyDoctors | routes/recordings.js:279-306 | the method produces exactly notifyDoctors' specified tables, and succeeds iff the specification does |
| Recordings.AnalyseStep | routes/recordings.js:115-155 | reading, transcribing, analysing and writing succeed iff the specification yields new rows, and then store exactly those rows; otherwise nothing changes |
| Recordings.RunSteps | routes/recordings.js:107-158 | statement by statement, the try block produces the specified tables, status trace and failure flag |
| Recordings.ProcessRecording | routes/recordings.js:106-167 | the run produces exactly the specified tables and status trace, and keeps every constraint |
| Doctors.Cards | routes/doctors.js:10-13 | one card per listed doctor, in the same order, holding its projected columns |
| Doctors.GetAvailable | routes/doctors.js:8-20 | 200 with exactly the cards of the available doctors |
| Doctors.CasesFor | routes/doctors.js:42-52 | the inner joins yield only the caller's notifications whose recording and EMT exist, each with that recording and the EMT's names, and every such notification |
| Doctors.KeyOf | routes/doctors.js:28-40 | the key vector holds one entry per ORDER BY term, in order: the term's column, negated for a descending term |
| Doctors.ListingIsCallersRows | routes/doctors.js:42-54 | the listing is a permutation of the caller's joined rows and holds nobody else's |
| Doctors.TriageKeyOf | routes/doctors.js:33 | the priority order's key vector is negated risk, priority, negated sent time |
| Doctors.TriageKey | routes/doctors.js:33 | key order in priority mode means higher risk first, then lower priority level, then newer |
| Doctors.PriorityListingOrder | routes/doctors.js:32-33 | sortBy=priority lists by risk descending, priority ascending, then newest |
| Doctors.OldestListingOrder | routes/doctors.js:35-36 | sortBy=oldest lists by sent time ascending |
| Doctors.DefaultListingOrder | routes/doctors.js:25-40 | no sortBy, `newest` or an unknown value list by sent time descending |
| Doctors.WithAvailability | routes/doctors.js:88-91 | only the caller's row changes, and only its availability |
| Doctors.UpdateAvailability | routes/doctors.js:88-91 | the availability update keeps every constraint and leaves the other tables alone |
| Doctors.SetAvailability | routes/doctors.js:84-98 | stores truthiness of `is_available` on the caller's row and echoes the submitted value |
| Doctors.MarkReadRows | routes/doctors.js:103-106 | only the notification with that id, and only if it is the caller's, gets a read time |
| Doctors.MarkReadOthersUnchanged | routes/doctors.js:103-106 | a doctor cannot mark another doctor's notification read |
| Doctors.UpdateMarkRead | routes/doctors.js:103-106 | marking read keeps every constraint and leaves the other tables alone |
| Doctors.MarkRead | routes/doctors.js:101-113 | the row scan yields the mark-read specification, with the same reply whether or not a row matched |
| Doctors.RespondRows | routes/doctors.js:120-123 | exactly the caller's rows for the recording get the response |
| Doctors.UpdateResponse | routes/doctors.js:120-123 | responding keeps every constraint and leaves the other tables alone |
| Doctors.Respond | routes/doctors.js:116-130 | the row scan yields the respond specification, storing the response as TEXT |
| Notifications.Excerpt | routes/notifications.js:66 | the SMS excerpt is the whole summary when it has at most 100 characters, its first 100 characters otherwise, and `undefined` without one |
| Notifications.EmailSummary | routes/notifications.js:102 | the e-mail shows the summary, or "Summary not available" when it is empty or missing |
| Notifications.UrgencyColors | routes/notifications.js:137-145 | the four levels get four distinct colours; every other text gets `#666`, including `urgent`, `moderate` and `routine` |
| Notifications.DispatchFacts | routes/notifications.js:39-45 | the messages sent are a prefix of those planned; all are sent iff every hand-over succeeds; a failure is the last attempt |
| Notifications.PlannedSms | routes/notifications.js:39-41 | an SMS to the doctor's phone is planned iff the type is `sms` or `both` |
| Notifications.PlannedEmail | routes/notifications.js:43-45 | an e-mail to the doctor's address is planned iff the type is `email` or `both` |
| Notifications.DeliveredRows | routes/notifications.js:48-51 | exactly the rows of the pair become delivered |
| Notifications.SendNotFound | routes/notifications.js:21-33 | a missing recording or user gives 404, sends nothing and changes nothing |
| Notifications.DispatchChannels | routes/notifications.js:38-45 | for one recording and doctor, only wanted messages are handed over, the SMS first, and all of them when the dispatch succeeds |
| Notifications.SendChannels | routes/notifications.js:38-45 | only wanted messages are sent, the SMS before the e-mail; on success every wanted message went out |
| Notifications.SendDelivers | routes/notifications.js:38-58 | rows are marked delivered iff every hand-over succeeded; a failure gives 500 and no change; any other type sends nothing and still marks delivered |
| Notifications.SendKeeps | routes/notifications.js:16-59 | sending keeps every constraint |
| Notifications.MarkDelivered | routes/notifications.js:48-51 | the row scan yields exactly the delivered update |
| Notifications.Send | routes/notifications.js:16-59 | the handler produces exactly the specified tables, reply and sequence of hand-overs |
| Notifications.NotificationStatus | routes/notifications.js:148-165 | 404 "Notification not found" iff no row has the id; otherwise the row with that id |
| Notifications.Test | routes/notifications.js:168-205 | the test endpoint hands over an SMS for a given phone, then an e-mail for a given address, stopping at the first failure |
| Notifications.TestSendsOnlyGiven | routes/notifications.js:170-197 | it texts only a given phone and mails only a given address, with the fixed test summary; on success both went out |
| Auth.Register | routes/auth.js:10-63 | the handler produces exactly the register specification's tables and reply |
| Auth.RegisterDuplicate | routes/auth.js:15-22 | a taken username or email gives 400 and no change |
| Auth.RegisterInserts | routes/auth.js:24-57 | a success appends exactly one user with the submitted fields, the password's hash and the next id, and replies with that row and its token; a failure changes nothing |
| Auth.NewestIdFound | routes/auth.js:35-40 | reading back by the new id finds the appended row |
| Auth.FindByUsername | routes/auth.js:71-74 | a lookup by username returns a row with that username, or None only when none has it |
| Auth.Login | routes/auth.js:66-117 | 400 "Invalid credentials" iff the username is unknown or the password does not match; success only for a matching user, with a token for its id, username and role |
| Auth.LoginRejectsAlike | routes/auth.js:76-87 | an unknown username and a wrong password get the same reply |
| Auth.RegisterThenLogin | routes/auth.js:10-117 | after a successful register, logging in with the same credentials succeeds with the same token and identity |
| Auth.LastUsernameFound | routes/auth.js:71-74 | a fresh username is found in the row appended last |
| Auth.GetProfile | routes/auth.js:120-140 | 404 "User not found" iff no row has the id; otherwise the caller's row without the password hash |
| DoctorDashboard.RiskColorBands | client/src/components/DoctorDashboard.js:80-85 | 8 and above red, 6–7 orange, 4–5 yellow, below 4 green, monotone in the score |
| DoctorDashboard.RiskIconMatchesColor | client/src/components/DoctorDashboard.js:94-99 | two scores share an icon iff they share a colour |
| DoctorDashboard.PriorityBands | client/src/components/DoctorDashboard.js:87-106 | ≤2 CRITICAL, 3 HIGH, 4 MEDIUM, ≥5 LOW, colour follows the same bands, a missing priority shows LOW |
| DoctorDashboard.UnreadCount | client/src/components/DoctorDashboard.js:108 | the unread count never exceeds the list length |
| DoctorDashboard.UnreadCountsUnread | client/src/components/DoctorDashboard.js:108 | the unread count is the number of items without a read time |
| DoctorDashboard.Unread | client/src/components/DoctorDashboard.js:108 | the unread items are exactly those without a read time, each as many times as it occurs in the list |
| DoctorDashboard.RiskClasses | client/src/components/DoctorDashboard.js:109-110 | an item is critical exactly when its badge is red and high-risk exactly when it is orange, never both; an item without a risk score is neither and shows green |
| DoctorDashboard.CountsDisjoint | client/src/components/DoctorDashboard.js:109-110 | the critical and high-risk counts together never exceed the list length |
| DoctorDashboard.ResponseRate | client/src/components/DoctorDashboard.js:220 | 0 for an empty list; otherwise the share of read items in whole percent, rounded to the nearest with halves up (`200·read + n` lies in `[2n·r, 2n·(r+1))`); it lies in 0..100, 0 when nothing is read and 100 when everything is read |
| DoctorDashboard.SendResponse | client/src/components/DoctorDashboard.js:58-65 | a response is posted iff it is not blank, unchanged |
| EmtDashboard.StatusColors | client/src/components/EMTDashboard.js:195-204 | the five statuses get five distinct non-gray badges; any other text is gray |
| EmtDashboard.UrgencyColors | client/src/components/EMTDashboard.js:206-214 | the four levels get four distinct non-gray badges; `urgent`, `moderate` and `routine` are gray |
| EmtDashboard.RiskAlwaysGreen | client/src/components/EMTDashboard.js:216-221 | getRiskColor gives green for every risk score in 0..10 |
| EmtDashboard.RiskBadge | client/src/components/EMTDashboard.js:384-388 | the risk badge is drawn iff the score is non-zero, coloured by getRiskColor |
| EmtDashboard.StoredRiskGreen | client/src/components/EMTDashboard.js:216-221 | every stored score from 1 to 10 is shown with the green badge; a score of 0 shows no badge |
| EmtDashboard.RiskColorOnTenScaleBands | client/src/components/EMTDashboard.js:216-221 | with thresholds 8/6/4, every band is reached on the 0..10 scale, monotonically |
| EmtDashboard.PriorityColors | client/src/components/EMTDashboard.js:223-232 | priorities 1..5 get five distinct non-gray badges; anything else is gray |
| EmtDashboard.ChooseMimeType | client/src/components/EMTDashboard.js:95-108 | the chosen type is the first supported preference, and none iff no preference is supported |
| EmtDashboard.BlobType | client/src/components/EMTDashboard.js:122-124 | the blob's type is the chosen type, or audio/webm without one |
| EmtDashboard.RecordedTypeAccepted | client/src/components/EMTDashboard.js:95-124 | every blob type the recorder can produce passes the server's upload filter |
| EmtDashboard.HandleUpload | client/src/components/EMTDashboard.js:163-174 | refused iff there is no blob or the patient information is blank; otherwise the blob as recording.webm with the untrimmed information |
| EmtDashboard.StopRecording | client/src/components/EMTDashboard.js:155-161 | acts iff a recorder exists and recording is on, and then clears the flag; otherwise nothing changes |
| RegisterForm.InitialForm | client/src/components/Register.js:8-18 | the form starts with every field empty except role `emt` |
| RegisterForm.HandleChange | client/src/components/Register.js:26-31 | only the named field changes; every other field keeps its value |
| RegisterForm.PayloadOf | client/src/components/Register.js:49-54 | the payload never holds confirmPassword, holds specialty iff the role is not `emt`, and copies every other field unchanged |
| RegisterForm.HandleSubmit | client/src/components/Register.js:33-56 | mismatched passwords are refused before short ones (fewer than 6 characters); otherwise the shaped payload is submitted |
| RegisterForm.Field | client/src/components/Register.js:49-56 | a missing payload field reaches the server as undefined |
| RegisterForm.SubmittedBody | client/src/components/Register.js:49-56 | a submitted form reaches the server with every field as typed, the confirmed password, and specialty undefined exactly for an EMT |

## Left out

- Audio files, multer's disk storage and file naming, and the upload directory are left out. An upload is represented by its MIME type, size and stored path.
- The Whisper transcription, the chat-completion call, the Twilio and SendGrid services, bcrypt and JWT signing are left out as services. They are function parameters that may fail; the prompt text and the e-mail HTML are not modelled.
- Concurrency is left out. `processRecording` runs detached from the upload request, and its interleaving with other requests is not modelled: a run is one atomic sequence of statements over one `now`.
- The process-level effect of a failing catch-block update is left out. `processRecording` is started without `await` or `.catch` (routes/recordings.js:58). So when the catch block's own UPDATE fails (routes/recordings.js:162-165), its promise rejection goes unhandled, and under Node's default rejection mode that ends the server process. The model keeps only the table state: no `error` status is written (Recordings.FailedTrace). The server's entry file, where a rejection handler could be installed, is not part of this model.
- Database failures in the doctors, notifications, auth and upload routes, which reach their catch blocks' 500 replies, are left out. Only the pipeline injects statement failures.
- CURRENT_TIMESTAMP is left out as a clock. Times are integers passed in, and rows with equal times are ordered as the stable sort leaves them rather than as SQLite would.
- The authentication middleware and `requireRole` are not part of this model. The caller's id and role reach each route as parameters.
- JWT expiry is left out.
- The React state, toasts, navigation and rendering are left out.
- The MediaRecorder's absence check and its error handlers are left out.
- Recordings.StripFencesSpec: the case of a reply containing "```json" is stated only when the reply has no run of four backticks. With "````" the split also stops at the inner "```json", and the statement does not cover that reply.
- Schema.IntColumn: a text with spaces, a `+` sign or a fraction is treated as non-numeric, a narrower rule than SQLite's numeric affinity.
- DoctorDashboard.ResponseRate: the division and `Math.round` are computed in exact integer arithmetic. Floating-point rounding right at a half is not modelled.
- Notifications.Excerpt: `substring` counts UTF-16 code units in JavaScript, while the model counts characters.
- Js.Value: JavaScript numbers are doubles, and the model treats them as integers. A `risk_score` of 7.5 or a `priority_level` of 2.5 is truthy, passes the CHECK constraints of `config/database.js` and is stored as REAL. The model cannot express such a value, and `Recording.riskScore` and `Recording.priorityLevel` are integers, so it does not cover fractional scores or priorities.
- RegisterForm.HandleSubmit: the password's length counts characters, not UTF-16 code units.

## Findings

| source | as written | input that shows it | evidently intended | confidence | as-written member | corrected member |
|---|---|---|---|---|---|---|
| client/src/components/EMTDashboard.js:216-221 | the risk badge uses thresholds 80, 60 and 40 | a stored risk score of 10, the highest the schema allows, is shown green | thresholds on the 0 to 10 scale (8, 6, 4), as the doctors' dashboard uses | medium, not executed | EmtDashboard.RiskAlwaysGreen | EmtDashboard.RiskColorOnTenScaleBands |
