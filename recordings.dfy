/** routes/recordings.js: the upload filter and upload route, the EMT's own listing, and the
    processing pipeline (transcription, language-model analysis, result write, doctor
    notification) with its status machine pending -> processing -> completed -> notified, or
    error. The speech-to-text and chat-completion services, JSON.parse and JSON.stringify are
    parameters; every database statement the pipeline issues can be made to fail through a
    set of faulted steps. */
module Recordings {
  import opened Js
  import opened Http
  import opened Schema
  import Ordering

  // ---------------------------------------------------------------------------------------
  // Upload

  /** The upload size limit: 50 MB. */
  const MaxUploadBytes: nat := 50 * 1024 * 1024

  /** The alternatives of the MIME pattern `audio\/(mp3|wav|m4a|aac|ogg|webm|mp4)`. */
  const AudioSubtypes: seq<string> := ["mp3", "wav", "m4a", "aac", "ogg", "webm", "mp4"]

  /** What the unanchored pattern accepts: "audio/" followed by one alternative, anywhere. */
  predicate AudioMime(mime: string) {
    exists k :: 0 <= k < |AudioSubtypes| && Contains(mime, "audio/" + AudioSubtypes[k])
  }

  /** Does the pattern match at position i (the regex engine's attempt at one start). */
  function MatchAt(mime: string, i: nat, k: nat): (r: bool)
    requires k <= |AudioSubtypes|
    ensures r <==> exists m :: k <= m < |AudioSubtypes| && OccursAt(mime, "audio/" + AudioSubtypes[m], i)
    decreases |AudioSubtypes| - k
  {
    if k == |AudioSubtypes| then false
    else OccursAt(mime, "audio/" + AudioSubtypes[k], i) || MatchAt(mime, i, k + 1)
  }

  /** `RegExp.prototype.test`: tries every start position from `from` on. */
  function TestFrom(mime: string, from: nat): (r: bool)
    requires from <= |mime|
    ensures r <==> exists i: nat, m :: from <= i <= |mime| && 0 <= m < |AudioSubtypes|
                                       && OccursAt(mime, "audio/" + AudioSubtypes[m], i)
    decreases |mime| - from
  {
    if MatchAt(mime, from, 0) then true
    else if from == |mime| then false
    else TestFrom(mime, from + 1)
  }

  /** The file filter accepts exactly the MIME types holding "audio/<alternative>" somewhere. */
  function AllowedMime(mime: string): (r: bool)
    ensures r <==> AudioMime(mime)
  {
    var r := TestFrom(mime, 0);
    assert r ==> AudioMime(mime) by {
      if r {
        var i: nat, m :| i <= |mime| && 0 <= m < |AudioSubtypes| && OccursAt(mime, "audio/" + AudioSubtypes[m], i);
        assert Contains(mime, "audio/" + AudioSubtypes[m]);
      }
    }
    assert AudioMime(mime) ==> r by {
      if AudioMime(mime) {
        var m :| 0 <= m < |AudioSubtypes| && Contains(mime, "audio/" + AudioSubtypes[m]);
        var i: nat :| i + |"audio/" + AudioSubtypes[m]| <= |mime| && OccursAt(mime, "audio/" + AudioSubtypes[m], i);
      }
    }
    r
  }

  lemma Mismatch(s: string, pat: string, i: nat, q: nat)
    requires q < |pat| && i + q < |s| && s[i + q] != pat[q]
    ensures !OccursAt(s, pat, i)
  {
    if i + |pat| <= |s| {
      assert s[i..i + |pat|][q] == s[i + q];
    }
  }

  /** The types the EMT dashboard records with pass the filter. */
  lemma RecorderTypesAllowed()
    ensures AllowedMime("audio/webm;codecs=opus") && AllowedMime("audio/webm") && AllowedMime("audio/mp4")
  {
    assert OccursAt("audio/webm;codecs=opus", "audio/" + AudioSubtypes[5], 0);
    assert OccursAt("audio/webm", "audio/" + AudioSubtypes[5], 0);
    assert OccursAt("audio/mp4", "audio/" + AudioSubtypes[6], 0);
  }

  /** The pattern is not anchored and does not require the whole subtype: "x-audio/mp3"
      passes, "audio/mpeg" does not. */
  lemma AllowedMimeExamples()
    ensures AllowedMime("x-audio/mp3")
    ensures !AllowedMime("audio/mpeg")
  {
    assert OccursAt("x-audio/mp3", "audio/" + AudioSubtypes[0], 2);
    var m := "audio/mpeg";
    forall k, i: nat | 0 <= k < |AudioSubtypes| && i + |"audio/" + AudioSubtypes[k]| <= |m|
      ensures !OccursAt(m, "audio/" + AudioSubtypes[k], i)
    {
      var p := "audio/" + AudioSubtypes[k];
      assert p[8] == AudioSubtypes[k][2];
      if i == 0 { Mismatch(m, p, 0, 8); } else { Mismatch(m, p, i, 0); }
    }
  }

  /** The uploaded part named "audio", as multer hands it over. */
  datatype UploadedFile = UploadedFile(mimetype: string, size: nat, path: string)

  /** The body of a successful upload reply. */
  datatype Receipt = Receipt(id: int, emtId: int, patientInfo: Value, audioFilePath: string)

  /** POST /upload. A file refused by the filter or over the limit ends in the framework's
      error handler (500) before the handler runs; a request without a file makes the
      handler throw (500). Otherwise one pending recording with the column defaults is
      inserted. The processing pipeline the handler starts without waiting is
      `ProcessRecording`. */
  method Upload(db: Database, emtId: int, patientInfo: Value, file: Option<UploadedFile>, now: int)
    returns (reply: Reply<Receipt>)
    requires db.Valid()
    modifies db
    ensures db.Valid()
    ensures reply.Ok? <==> file.Some? && AllowedMime(file.value.mimetype) && file.value.size <= MaxUploadBytes
    ensures reply.Ok? ==> && reply == Ok(201, Receipt(old(db.nextRecordingId), emtId, patientInfo, file.value.path))
                          && db.State() == InsertRecording(old(db.State()), emtId, TextColumn(patientInfo), file.value.path, now)
    ensures reply.Fail? ==> reply.status == 500 && db.State() == old(db.State())
  {
    if file.Some? && !AllowedMime(file.value.mimetype) {
      return Fail(500, "Only audio files are allowed");
    }
    if file.Some? && file.value.size > MaxUploadBytes {
      return Fail(500, "File too large");
    }
    if file.None? {
      return Fail(500, "Server error during upload");
    }
    var id := db.nextRecordingId;
    var t := InsertRecording(db.State(), emtId, TextColumn(patientInfo), file.value.path, now);
    db.recordings, db.nextRecordingId := t.recordings, t.nextRecordingId;
    reply := Ok(201, Receipt(id, emtId, patientInfo, file.value.path));
  }

  // ---------------------------------------------------------------------------------------
  // GET /my-recordings

  /** WHERE emt_id = ?. */
  function RecordingsOf(recs: seq<Recording>, emtId: int): (r: seq<Recording>)
    ensures forall x :: x in r <==> x in recs && x.emtId == emtId
    ensures |r| <= |recs|
  {
    if recs == [] then []
    else
      var rest := RecordingsOf(recs[1..], emtId);
      assert forall x :: x in recs <==> x == recs[0] || x in recs[1..];
      if recs[0].emtId == emtId then [recs[0]] + rest else rest
  }

  /** The caller's recordings ordered by created_at descending. */
  function MyRecordings(t: Tables, emtId: int): Reply<seq<Recording>> {
    Ok(200, Ordering.Sort(RecordingsOf(t.recordings, emtId), (x: Recording) => [-x.createdAt]))
  }

  /** The listing holds every one of the caller's recordings and nobody else's, newest first. */
  lemma MyRecordingsSpec(t: Tables, emtId: int)
    ensures var l := MyRecordings(t, emtId).body;
      && multiset(l) == multiset(RecordingsOf(t.recordings, emtId))
      && (forall x :: x in l <==> x in t.recordings && x.emtId == emtId)
      && (forall i, j :: 0 <= i < j < |l| ==> l[i].createdAt >= l[j].createdAt)
  {
    var key := (x: Recording) => [-x.createdAt];
    var f := RecordingsOf(t.recordings, emtId);
    var l := Ordering.Sort(f, key);
    assert MyRecordings(t, emtId).body == l;
    Ordering.SameRows(l, f);
    forall i, j | 0 <= i < j < |l| ensures l[i].createdAt >= l[j].createdAt {
      Ordering.LexSingle(-l[i].createdAt, -l[j].createdAt);
    }
  }


  // ---------------------------------------------------------------------------------------
  // The language-model adapter (analyzeWithLLM)

  /** The nine fields the analysis prompt asks for, as the parsed reply holds them. */
  datatype Analysis = Analysis(
    chiefComplaint: Value, vitalSigns: Value, symptoms: Value, riskScore: Value,
    priorityLevel: Value, urgencyLevel: Value, recommendedActions: Value,
    criticalInfo: Value, medicalSummary: Value)

  /** What JSON.parse returns: null, an object, or any other value (array, string, number,
      boolean) on which every field read gives undefined. */
  datatype Json = JsonNull | JsonObject(fields: Analysis) | JsonOther(text: string)

  /** The record returned when the completion call or the parse fails. */
  const Fallback := Analysis(
    Str("Unable to analyze"), Str("Not available"), Str("Not specified"), Num(5), Num(3),
    Str("moderate"), Str("Manual review required"), Str("AI analysis failed"),
    Str("Unable to generate medical summary"))

  const JsonFence := "```json"
  const Fence := "```"
  const FourTicks := "````"

  /** The cleaning of the trimmed reply: the text after the first "```json" up to the next
      "```json" and then up to the first fence in that, else the text between the first two
      fences, else the reply unchanged. */
  function StripFences(s: string): string {
    if Contains(s, JsonFence) then Trim(SplitFirst(SplitFirst(After(s, JsonFence), JsonFence), Fence))
    else if Contains(s, Fence) then Trim(SplitFirst(SplitFirst(After(s, Fence), Fence), Fence))
    else s
  }

  /** "```json" begins with a fence. */
  lemma JsonFenceIsFence(s: string, i: nat)
    requires OccursAt(s, JsonFence, i)
    ensures OccursAt(s, Fence, i)
  {
    assert s[i..i + 3] == s[i..i + 7][..3];
  }

  /** A fence that starts one or two characters before a "```json" makes four backticks in
      a row. */
  lemma FenceOverlapsJsonFence(x: string, c: nat, a: nat)
    requires OccursAt(x, Fence, c) && OccursAt(x, JsonFence, a) && c < a < c + 3
    ensures OccursAt(x, FourTicks, c)
  {
    OccursChar(x, Fence, c, 0);
    OccursChar(x, Fence, c, 1);
    OccursChar(x, Fence, c, 2);
    OccursChar(x, JsonFence, a, c + 3 - a);
    assert x[c..c + 4] == FourTicks;
  }

  /** Splitting at a fence after splitting at "```json" is splitting at the fence, unless a
      fence runs into the next "```json" (which takes four backticks in a row). */
  lemma SplitJsonFenceThenFence(x: string)
    requires !Contains(x, FourTicks)
    ensures SplitFirst(SplitFirst(x, JsonFence), Fence) == SplitFirst(x, Fence)
  {
    var a := SplitFirst(x, JsonFence);
    var b := SplitFirst(a, Fence);
    var c := SplitFirst(x, Fence);
    if |a| < |x| {
      JsonFenceIsFence(x, |a|);
    }
    if |b| < |a| {
      OccursInPrefix(x, Fence, |a|, |b|);
      assert OccursAt(x, Fence, |b|);
    }
    assert |c| <= |b|;
    if |c| < |x| {
      assert OccursAt(x, Fence, |c|);
      OccursInPrefix(x, Fence, |a|, |c|);
      if |c| < |a| < |c| + 3 {
        FenceOverlapsJsonFence(x, |c|, |a|);
      }
    }
    assert |b| <= |c|;
  }

  /** Splitting at a fence a text that has none returns it whole. */
  lemma SplitFirstIdempotent(x: string, sep: string)
    ensures SplitFirst(SplitFirst(x, sep), sep) == SplitFirst(x, sep)
  {
    var a := SplitFirst(x, sep);
    var b := SplitFirst(a, sep);
    if |b| < |a| {
      OccursInPrefix(x, sep, |a|, |b|);
    }
    assert |b| == |a|;
  }

  lemma AfterBody(s: string, open: string)
    requires Contains(s, open)
    ensures exists i: nat, j: nat :: Delimited(s, open, Fence, i, j)
                                     && SplitFirst(After(s, open), Fence) == s[i + |open|..j]
  {
    var i := IndexOf(s, open).value;
    var j := DelimitedAfter(s, open, Fence, i);
    assert After(s, open) == s[i + |open|..];
  }

  lemma NoFourTicksAfter(s: string, open: string)
    requires Contains(s, open) && !Contains(s, FourTicks)
    ensures !Contains(After(s, open), FourTicks)
  {
    var i := IndexOf(s, open).value;
    var rest := After(s, open);
    assert rest == s[i + |open|..];
    forall k: nat | k + 4 <= |rest| ensures !OccursAt(rest, FourTicks, k) {
      OccursShift(s, FourTicks, i + |open|, k);
    }
  }

  /** The three cases of the cleaning, stated over positions in the reply. */
  lemma StripFencesSpec(s: string)
    ensures Contains(s, JsonFence) && !Contains(s, FourTicks) ==>
      exists i: nat, j: nat :: Delimited(s, JsonFence, Fence, i, j) && StripFences(s) == Trim(s[i + |JsonFence|..j])
    ensures !Contains(s, JsonFence) && Contains(s, Fence) ==>
      exists i: nat, j: nat :: Delimited(s, Fence, Fence, i, j) && StripFences(s) == Trim(s[i + |Fence|..j])
    ensures !Contains(s, Fence) ==> StripFences(s) == s
  {
    if Contains(s, JsonFence) {
      var i: nat :| i + 7 <= |s| && OccursAt(s, JsonFence, i);
      JsonFenceIsFence(s, i);
      assert Contains(s, Fence);
      AfterBody(s, JsonFence);
      if !Contains(s, FourTicks) {
        NoFourTicksAfter(s, JsonFence);
        SplitJsonFenceThenFence(After(s, JsonFence));
      }
    } else if Contains(s, Fence) {
      SplitFirstIdempotent(After(s, Fence), Fence);
      AfterBody(s, Fence);
    }
  }

  predicate NoBacktick(s: string) {
    forall i :: 0 <= i < |s| ==> s[i] != '`'
  }

  lemma NoBacktickNoFence(s: string, pat: string)
    requires NoBacktick(s) && pat != [] && pat[0] == '`'
    ensures !Contains(s, pat)
  {
    forall i: nat | i + |pat| <= |s| ensures !OccursAt(s, pat, i) {
      Mismatch(s, pat, i, 0);
    }
  }

  lemma NoBacktickSlice(s: string, a: nat, b: nat)
    requires NoBacktick(s) && a <= b <= |s|
    ensures NoBacktick(s[a..b])
  {
    forall i | 0 <= i < b - a ensures s[a..b][i] != '`' {
      assert s[a..b][i] == s[a + i];
    }
  }

  lemma TrimKeepsNoBacktick(s: string)
    requires NoBacktick(s)
    ensures NoBacktick(Trim(s))
  {
    var a := |s| - |TrimStart(s)|;
    TrimIsSlice(s);
    NoBacktickSlice(s, a, a + |Trim(s)|);
  }

  lemma WrappedAfter(body: string)
    ensures Contains(JsonFence + body + Fence, JsonFence)
    ensures After(JsonFence + body + Fence, JsonFence) == body + Fence
  {
    var w := JsonFence + body + Fence;
    assert w[0..7] == JsonFence;
    assert OccursAt(w, JsonFence, 0);
    assert IndexOf(w, JsonFence).value == 0;
  }

  lemma ClosedBody(body: string)
    requires NoBacktick(body)
    ensures SplitFirst(body + Fence, JsonFence) == body + Fence
    ensures SplitFirst(body + Fence, Fence) == body
  {
    var rest := body + Fence;
    forall k: nat | k + 7 <= |rest| ensures !OccursAt(rest, JsonFence, k) {
      Mismatch(rest, JsonFence, k, 0);
    }
    var b := SplitFirst(rest, Fence);
    assert rest[|body|..|body| + 3] == Fence;
    assert OccursAt(rest, Fence, |body|);
    forall k: nat | k < |body| ensures !OccursAt(rest, Fence, k) {
      Mismatch(rest, Fence, k, 0);
    }
    assert |b| == |body|;
  }

  /** A text without backticks is left alone by the cleaning. */
  lemma PlainUnchanged(s: string)
    requires NoBacktick(s)
    ensures StripFences(s) == s
  {
    NoBacktickNoFence(s, Fence);
    NoBacktickNoFence(s, JsonFence);
  }

  lemma WrappedIsTrimmed(body: string)
    ensures var w := JsonFence + body + Fence; Trim(w) == w
  {
    var w := JsonFence + body + Fence;
    assert w[0] == '`' && w[|w| - 1] == '`';
    TrimOfTrimmed(w);
  }

  lemma WrappedCleansToBody(body: string)
    requires NoBacktick(body)
    ensures StripFences(JsonFence + body + Fence) == Trim(body)
  {
    WrappedAfter(body);
    ClosedBody(body);
  }

  /** A reply wrapped as "```json<body>```" cleans to the same text as the bare body. */
  lemma FencedReplyRoundTrip(body: string)
    requires NoBacktick(body)
    ensures StripFences(Trim(JsonFence + body + Fence)) == StripFences(Trim(body)) == Trim(body)
  {
    WrappedIsTrimmed(body);
    WrappedCleansToBody(body);
    TrimKeepsNoBacktick(body);
    PlainUnchanged(Trim(body));
  }

  /** The chat-completion service and JSON: `complete` returns the reply text for a
      transcript and the patient information it embeds in the prompt, or None when the call
      fails or has no content; `parse` is None when JSON.parse throws. */
  datatype Services = Services(
    transcribe: string -> Option<string>,
    complete: (string, string) -> Option<string>,
    parse: string -> Option<Json>,
    stringify: Json -> string)

  /** analyzeWithLLM: the parsed, cleaned reply; any failure yields the fallback record, so
      the adapter never fails. */
  function AnalyzeWithLLM(svc: Services, transcript: string, patientInfo: string): (r: Json)
    ensures svc.complete(transcript, patientInfo).None? ==> r == JsonObject(Fallback)
    ensures svc.complete(transcript, patientInfo).Some? ==>
      var cleaned := StripFences(Trim(svc.complete(transcript, patientInfo).value));
      r == svc.parse(cleaned).GetOr(JsonObject(Fallback))
  {
    match svc.complete(transcript, patientInfo)
    case None => JsonObject(Fallback)
    case Some(content) =>
      match svc.parse(StripFences(Trim(content)))
      case None => JsonObject(Fallback)
      case Some(j) => j
  }

  /** A reply in "```json" fences is analysed as the bare JSON would be. */
  lemma FencedAnalysisAsBare(svc: Services, fenced: Services, transcript: string, info: string, body: string)
    requires NoBacktick(body)
    requires svc.complete(transcript, info) == Some(body)
    requires fenced.complete(transcript, info) == Some(JsonFence + body + Fence)
    requires fenced.parse(Trim(body)) == svc.parse(Trim(body))
    ensures AnalyzeWithLLM(fenced, transcript, info) == AnalyzeWithLLM(svc, transcript, info)
  {
    FencedReplyRoundTrip(body);
  }

  // ---------------------------------------------------------------------------------------
  // Default filling of the persisted columns

  /** `v || default` bound to a TEXT column. */
  function TextOr(v: Value, default: string): (r: string)
    ensures Truthy(v) ==> Some(r) == TextColumn(v)
    ensures !Truthy(v) ==> r == default
  {
    TextColumn(Or(v, Str(default))).value
  }

  /** `v || default` bound to an INTEGER column, for a non-zero default. */
  function IntOr(v: Value, default: int): (r: Option<int>)
    requires default != 0
    ensures Truthy(v) ==> r == IntColumn(v)
    ensures !Truthy(v) ==> r == Some(default)
  {
    IntColumn(Or(v, Num(default)))
  }

  /** The values the result UPDATE binds; None in risk or priority is a value the column keeps
      as TEXT. */
  datatype Columns = Columns(
    transcription: string, llmSummary: string, risk: Option<int>, priority: Option<int>,
    chiefComplaint: string, vitalSigns: string, symptoms: string,
    recommendedActions: string, criticalInfo: string)

  /** The field reads of the result UPDATE: on null they throw (None); on a value other than
      an object every field is undefined. */
  function FieldsOf(j: Json): (r: Option<Analysis>)
    ensures r.None? <==> j.JsonNull?
    ensures j.JsonObject? ==> r == Some(j.fields)
  {
    match j
    case JsonNull => None
    case JsonObject(a) => Some(a)
    case JsonOther(_) => Some(Analysis(Undefined, Undefined, Undefined, Undefined, Undefined,
                                       Undefined, Undefined, Undefined, Undefined))
  }

  /** The bound values: each falsy field replaced by its literal default, a missing summary
      by the serialised analysis. The urgency label is not among them. */
  function PersistedColumns(transcript: string, j: Json, stringify: Json -> string): (c: Columns)
    requires !j.JsonNull?
    ensures var a := FieldsOf(j).value;
      && c.transcription == transcript
      && (Truthy(a.medicalSummary) ==> Some(c.llmSummary) == TextColumn(a.medicalSummary))
      && (!Truthy(a.medicalSummary) ==> c.llmSummary == stringify(j))
      && (!Truthy(a.riskScore) ==> c.risk == Some(5))
      && (!Truthy(a.priorityLevel) ==> c.priority == Some(3))
      && (Truthy(a.riskScore) ==> c.risk == IntColumn(a.riskScore))
      && (Truthy(a.priorityLevel) ==> c.priority == IntColumn(a.priorityLevel))
      && (!Truthy(a.chiefComplaint) ==> c.chiefComplaint == "Not specified")
      && (!Truthy(a.vitalSigns) ==> c.vitalSigns == "Not recorded")
      && (!Truthy(a.symptoms) ==> c.symptoms == "Not specified")
      && (!Truthy(a.recommendedActions) ==> c.recommendedActions == "Standard care")
      && (!Truthy(a.criticalInfo) ==> c.criticalInfo == "None")
  {
    var a := FieldsOf(j).value;
    Columns(transcript, TextOr(a.medicalSummary, stringify(j)),
            IntOr(a.riskScore, 5), IntOr(a.priorityLevel, 3),
            TextOr(a.chiefComplaint, "Not specified"), TextOr(a.vitalSigns, "Not recorded"),
            TextOr(a.symptoms, "Not specified"), TextOr(a.recommendedActions, "Standard care"),
            TextOr(a.criticalInfo, "None"))
  }

  /** A risk score of 0 is falsy, so it is stored as 5; "0" as text is truthy and stored as 0. */
  lemma ZeroRiskStoredAsFive(transcript: string, a: Analysis, stringify: Json -> string)
    requires a.riskScore == Num(0)
    ensures PersistedColumns(transcript, JsonObject(a), stringify).risk == Some(5)
    ensures PersistedColumns(transcript, JsonObject(a.(riskScore := Str("0"))), stringify).risk == Some(0)
  {
    assert ParseDecimal("0") == Some(0) by { assert AllDigits("0"); }
  }

  /** The UPDATE's CHECK constraints accept the bound risk and priority. */
  predicate ChecksPass(c: Columns) {
    c.risk.Some? && RiskInRange(c.risk.value) && c.priority.Some? && PriorityInRange(c.priority.value)
  }

  /** The values stored for the fallback record. */
  function FallbackColumns(transcript: string): Columns {
    Columns(transcript, "Unable to generate medical summary", Some(5), Some(3),
            "Unable to analyze", "Not available", "Not specified",
            "Manual review required", "AI analysis failed")
  }

  /** When the reply cannot be obtained or parsed, the stored values are the fallback's, and
      they pass the CHECK constraints. */
  lemma FailedAnalysisColumns(svc: Services, transcript: string, info: string)
    requires svc.complete(transcript, info).None? ||
             svc.parse(StripFences(Trim(svc.complete(transcript, info).value))).None?
    ensures var c := PersistedColumns(transcript, AnalyzeWithLLM(svc, transcript, info), svc.stringify);
      c == FallbackColumns(transcript) && ChecksPass(c)
  {
  }

  /** UPDATE recordings SET transcription = ?, llm_summary = ?, ..., status = 'completed'
      WHERE id = ?: rejected when the row exists and a CHECK fails; urgency_level is left as
      it was. */
  function WriteResultRows(recs: seq<Recording>, id: int, c: Columns): (r: Option<seq<Recording>>)
    ensures r.None? <==> !ChecksPass(c) && exists x :: x in recs && x.id == id
    ensures r.Some? ==> |r.value| == |recs|
    ensures r.Some? ==> forall i :: 0 <= i < |recs| ==>
      r.value[i] == if recs[i].id == id then WithResults(recs[i], c) else recs[i]
  {
    if !ChecksPass(c) && exists x :: x in recs && x.id == id then None
    else Some(seq(|recs|, i requires 0 <= i < |recs| => if recs[i].id == id then WithResults(recs[i], c) else recs[i]))
  }

  function WithResults(x: Recording, c: Columns): Recording
    requires ChecksPass(c)
  {
    x.(transcription := Some(c.transcription), llmSummary := Some(c.llmSummary),
       riskScore := c.risk.value, priorityLevel := c.priority.value,
       chiefComplaint := Some(c.chiefComplaint), vitalSigns := Some(c.vitalSigns),
       symptoms := Some(c.symptoms), recommendedActions := Some(c.recommendedActions),
       criticalInfo := Some(c.criticalInfo), status := Completed)
  }

  // ---------------------------------------------------------------------------------------
  // Notification fan-out (notifyDoctors)

  /** The database statements of a run, each of which can be made to fail. */
  datatype Step =
    | MarkProcessing          // UPDATE status = 'processing'
    | ReadPatientInfo         // SELECT patient_info
    | WriteResults            // the result UPDATE
    | ListDoctors             // SELECT the available doctors
    | InsertNotificationRow(index: nat)  // the index-th notification INSERT
    | MarkNotified            // UPDATE status = 'notified'
    | MarkError               // the catch block's UPDATE status = 'error'

  /** One 'both' notification per listed doctor, ids counting up from `next`. */
  function FanRows(next: int, recordingId: int, docs: seq<User>, now: int): (r: seq<Notification>)
    ensures |r| == |docs|
    decreases |docs|
  {
    if docs == [] then []
    else [Notification(next, recordingId, docs[0].id, Both, now, false, None, None)]
         + FanRows(next + 1, recordingId, docs[1..], now)
  }

  lemma {:induction false} FanRowsAt(next: int, recordingId: int, docs: seq<User>, now: int, i: nat)
    requires i < |docs|
    ensures FanRows(next, recordingId, docs, now)[i]
         == Notification(next + i, recordingId, docs[i].id, Both, now, false, None, None)
    decreases i
  {
    if i > 0 {
      FanRowsAt(next + 1, recordingId, docs[1..], now, i - 1);
    }
  }

  lemma FanRowsCons(next: int, recordingId: int, docs: seq<User>, m: nat, now: int)
    requires m < |docs|
    ensures FanRows(next, recordingId, docs[..m + 1], now)
         == [Notification(next, recordingId, docs[0].id, Both, now, false, None, None)]
            + FanRows(next + 1, recordingId, docs[1..][..m], now)
  {
    assert docs[..m + 1][1..] == docs[1..][..m];
  }

  /** Appending the fan-out rows keeps the notifications table's constraints. */
  lemma FanRowsValid(ns: seq<Notification>, next: int, recordingId: int, docs: seq<User>, now: int)
    requires NotificationsValid(ns, next)
    ensures NotificationsValid(ns + FanRows(next, recordingId, docs, now), next + |docs|)
  {
    var rows := FanRows(next, recordingId, docs, now);
    var all := ns + rows;
    forall i | 0 <= i < |all| ensures 1 <= all[i].id < next + |docs| {
      if i >= |ns| {
        assert all[i] == rows[i - |ns|];
        FanRowsAt(next, recordingId, docs, now, i - |ns|);
      }
    }
    forall i, j | 0 <= i < j < |all| ensures all[i].id < all[j].id {
      if j >= |ns| {
        assert all[j] == rows[j - |ns|];
        FanRowsAt(next, recordingId, docs, now, j - |ns|);
        if i >= |ns| {
          assert all[i] == rows[i - |ns|];
          FanRowsAt(next, recordingId, docs, now, i - |ns|);
        }
      }
    }
  }

  /** The j-th notification INSERT of the run fails. */
  predicate InsertFails(faults: set<Step>, j: nat) {
    InsertNotificationRow(j) in faults
  }

  /** None of the INSERTs k, k+1, ..., k+n-1 fails. */
  predicate InsertsSucceed(faults: set<Step>, k: nat, n: nat)
    decreases n
  {
    n == 0 || (!InsertFails(faults, k) && InsertsSucceed(faults, k + 1, n - 1))
  }

  lemma {:induction false} InsertsSucceedAll(faults: set<Step>, k: nat, n: nat)
    ensures InsertsSucceed(faults, k, n) <==> forall j: nat :: k <= j < k + n ==> !InsertFails(faults, j)
    decreases n
  {
    if n > 0 {
      InsertsSucceedAll(faults, k + 1, n - 1);
    }
  }

  datatype FanResult = FanResult(t: Tables, inserted: nat, ok: bool)

  /** The insert loop from the k-th statement on: it stops at the first failing INSERT. */
  function FanOut(t: Tables, recordingId: int, docs: seq<User>, k: nat, faults: set<Step>, now: int): (r: FanResult)
    ensures r.inserted <= |docs|
    decreases |docs|
  {
    if docs == [] then FanResult(t, 0, true)
    else if InsertFails(faults, k) then FanResult(t, 0, false)
    else
      var row := Notification(t.nextNotificationId, recordingId, docs[0].id, Both, now, false, None, None);
      var t1 := t.(notifications := t.notifications + [row], nextNotificationId := t.nextNotificationId + 1);
      var rest := FanOut(t1, recordingId, docs[1..], k + 1, faults, now);
      FanResult(rest.t, rest.inserted + 1, rest.ok)
  }

  /** The loop inserts one row per doctor of a prefix of `docs`, with consecutive ids, and
      touches nothing else; it completes exactly when every INSERT succeeded. */
  lemma {:induction false} FanOutFacts(t: Tables, recordingId: int, docs: seq<User>, k: nat, faults: set<Step>, now: int)
    ensures var r := FanOut(t, recordingId, docs, k, faults, now);
      && r.t.users == t.users && r.t.recordings == t.recordings
      && r.t.notifications == t.notifications + FanRows(t.nextNotificationId, recordingId, docs[..r.inserted], now)
      && r.t.nextNotificationId == t.nextNotificationId + r.inserted
      && r.t.nextUserId == t.nextUserId && r.t.nextRecordingId == t.nextRecordingId
      && InsertsSucceed(faults, k, r.inserted)
      && (r.ok <==> r.inserted == |docs|)
    decreases |docs|
  {
    if docs != [] && !InsertFails(faults, k) {
      var row := Notification(t.nextNotificationId, recordingId, docs[0].id, Both, now, false, None, None);
      var t1 := t.(notifications := t.notifications + [row], nextNotificationId := t.nextNotificationId + 1);
      var rest := FanOut(t1, recordingId, docs[1..], k + 1, faults, now);
      FanOutFacts(t1, recordingId, docs[1..], k + 1, faults, now);
      FanRowsCons(t.nextNotificationId, recordingId, docs, rest.inserted, now);
      assert rest.t.notifications == t.notifications
        + ([row] + FanRows(t.nextNotificationId + 1, recordingId, docs[1..][..rest.inserted], now));
    }
  }

  /** The loop stops early only at an INSERT that fails. */
  lemma {:induction false} FanOutStopsAtFault(t: Tables, recordingId: int, docs: seq<User>, k: nat, faults: set<Step>, now: int)
    ensures var r := FanOut(t, recordingId, docs, k, faults, now);
      !r.ok ==> InsertFails(faults, k + r.inserted)
    decreases |docs|
  {
    if docs != [] && !InsertFails(faults, k) {
      var row := Notification(t.nextNotificationId, recordingId, docs[0].id, Both, now, false, None, None);
      var t1 := t.(notifications := t.notifications + [row], nextNotificationId := t.nextNotificationId + 1);
      FanOutStopsAtFault(t1, recordingId, docs[1..], k + 1, faults, now);
    }
  }

  lemma FanOutValid(t: Tables, recordingId: int, docs: seq<User>, k: nat, faults: set<Step>, now: int)
    requires ValidTables(t)
    ensures ValidTables(FanOut(t, recordingId, docs, k, faults, now).t)
  {
    var r := FanOut(t, recordingId, docs, k, faults, now);
    FanOutFacts(t, recordingId, docs, k, faults, now);
    FanRowsValid(t.notifications, t.nextNotificationId, recordingId, docs[..r.inserted], now);
  }

  /** The outcome of a run: the tables, the statuses written in order, whether it failed. */
  datatype Outcome = Outcome(t: Tables, written: seq<Status>, failed: bool)

  /** notifyDoctors: list the available doctors, insert one notification each, mark the
      recording notified; any failure is rethrown. */
  function NotifySpec(t: Tables, id: int, faults: set<Step>, now: int): Outcome {
    if ListDoctors in faults then Outcome(t, [], true)
    else
      var f := FanOut(t, id, AvailableDoctors(t.users), 0, faults, now);
      if !f.ok || MarkNotified in faults then Outcome(f.t, [], true)
      else Outcome(f.t.(recordings := SetStatus(f.t.recordings, id, Notified)), [Notified], false)
  }

  /** notifyDoctors succeeds exactly when no statement of it fails; it then adds one 'both'
      notification per available doctor and marks the recording notified. Users are never
      touched, and a failure leaves the recordings as they were. */
  lemma NotifySpecFacts(t: Tables, id: int, faults: set<Step>, now: int)
    ensures var r := NotifySpec(t, id, faults, now);
      && r.t.users == t.users
      && (!r.failed ==> && r.written == [Notified]
                        && r.t.recordings == SetStatus(t.recordings, id, Notified)
                        && r.t.notifications == t.notifications
                             + FanRows(t.nextNotificationId, id, AvailableDoctors(t.users), now))
      && (r.failed ==> r.written == [] && r.t.recordings == t.recordings)
      && (r.failed <==> || ListDoctors in faults || MarkNotified in faults
                        || exists j: nat :: j < |AvailableDoctors(t.users)| && InsertFails(faults, j))
  {
    var docs := AvailableDoctors(t.users);
    var f := FanOut(t, id, docs, 0, faults, now);
    FanOutFacts(t, id, docs, 0, faults, now);
    assert f.ok ==> docs[..f.inserted] == docs;
    FanOutStopsAtFault(t, id, docs, 0, faults, now);
    InsertsSucceedAll(faults, 0, f.inserted);
  }

  lemma NotifySpecValid(t: Tables, id: int, faults: set<Step>, now: int)
    requires ValidTables(t)
    ensures ValidTables(NotifySpec(t, id, faults, now).t)
  {
    if ListDoctors !in faults {
      var f := FanOut(t, id, AvailableDoctors(t.users), 0, faults, now);
      FanOutValid(t, id, AvailableDoctors(t.users), 0, faults, now);
      SetStatusKeeps(f.t, id, Notified);
    }
  }

  /** Only the pipeline's columns of the processed row may differ. */
  predicate SameButResults(a: seq<Recording>, b: seq<Recording>, id: int) {
    && |a| == |b|
    && forall i :: 0 <= i < |a| ==>
         if a[i].id == id then
           && b[i].id == id && b[i].emtId == a[i].emtId && b[i].patientInfo == a[i].patientInfo
           && b[i].audioFilePath == a[i].audioFilePath && b[i].urgency == a[i].urgency
           && b[i].createdAt == a[i].createdAt
         else b[i] == a[i]
  }

  lemma SameButResultsTrans(a: seq<Recording>, b: seq<Recording>, c: seq<Recording>, id: int)
    requires SameButResults(a, b, id) && SameButResults(b, c, id)
    ensures SameButResults(a, c, id)
  {
  }

  /** A status update keeps the schema's constraints and touches only the pipeline's columns. */
  lemma SetStatusKeeps(t: Tables, id: int, s: Status)
    ensures SameButResults(t.recordings, SetStatus(t.recordings, id, s), id)
    ensures ValidTables(t) ==> ValidTables(t.(recordings := SetStatus(t.recordings, id, s)))
  {
  }

  lemma WriteResultsKeeps(t: Tables, id: int, c: Columns)
    requires WriteResultRows(t.recordings, id, c).Some?
    ensures SameButResults(t.recordings, WriteResultRows(t.recordings, id, c).value, id)
    ensures ValidTables(t) ==> ValidTables(t.(recordings := WriteResultRows(t.recordings, id, c).value))
  {
  }

  /** `recording[0]?.patient_info || ''`. */
  function PatientInfoOf(recs: seq<Recording>, id: int): string {
    match FindRecording(recs, id)
    case None => ""
    case Some(x) => x.patientInfo.GetOr("")
  }

  /** The middle of the try block: read the patient information, transcribe, analyse, and
      write the results. None when one of these throws: a failing SELECT or transcription, a
      null analysis, or a failing or CHECK-rejected UPDATE. */
  function AnalyseAndWrite(recs: seq<Recording>, id: int, path: string, svc: Services, faults: set<Step>): Option<seq<Recording>> {
    if ReadPatientInfo in faults then None
    else match svc.transcribe(path)
      case None => None
      case Some(text) =>
        var analysis := AnalyzeWithLLM(svc, text, PatientInfoOf(recs, id));
        if analysis.JsonNull? || WriteResults in faults then None
        else WriteResultRows(recs, id, PersistedColumns(text, analysis, svc.stringify))
  }

  /** The try block of processRecording. */
  function TrySpec(t: Tables, id: int, path: string, svc: Services, faults: set<Step>, now: int): Outcome {
    if MarkProcessing in faults then Outcome(t, [], true)
    else
      var t1 := t.(recordings := SetStatus(t.recordings, id, Processing));
      match AnalyseAndWrite(t1.recordings, id, path, svc, faults)
      case None => Outcome(t1, [Processing], true)
      case Some(recs) =>
        var n := NotifySpec(t1.(recordings := recs), id, faults, now);
        Outcome(n.t, [Processing, Completed] + n.written, n.failed)
  }

  /** processRecording: the try block, then on failure the catch block's status update. When
      that update fails too, its rejection escapes and the status stays as it was. */
  function ProcessSpec(t: Tables, id: int, path: string, svc: Services, faults: set<Step>, now: int): Outcome {
    var r := TrySpec(t, id, path, svc, faults, now);
    if !r.failed || MarkError in faults then r
    else Outcome(r.t.(recordings := SetStatus(r.t.recordings, id, Error)), r.written + [Error], true)
  }

  /** A run keeps every schema constraint, never touches the users table, and changes only
      the pipeline's columns of the processed recording (never its urgency_level). */
  lemma ProcessKeeps(t: Tables, id: int, path: string, svc: Services, faults: set<Step>, now: int)
    ensures var r := ProcessSpec(t, id, path, svc, faults, now);
      && r.t.users == t.users
      && SameButResults(t.recordings, r.t.recordings, id)
      && (ValidTables(t) ==> ValidTables(r.t))
  {
    var r := TrySpec(t, id, path, svc, faults, now);
    assert SameButResults(t.recordings, r.t.recordings, id) && (ValidTables(t) ==> ValidTables(r.t)) by {
      if MarkProcessing !in faults {
        var t1 := t.(recordings := SetStatus(t.recordings, id, Processing));
        SetStatusKeeps(t, id, Processing);
        var w := AnalyseAndWrite(t1.recordings, id, path, svc, faults);
        if w.Some? {
          var text := svc.transcribe(path).value;
          var analysis := AnalyzeWithLLM(svc, text, PatientInfoOf(t1.recordings, id));
          WriteResultsKeeps(t1, id, PersistedColumns(text, analysis, svc.stringify));
          var t2 := t1.(recordings := w.value);
          SameButResultsTrans(t.recordings, t1.recordings, t2.recordings, id);
          NotifySpecFacts(t2, id, faults, now);
          if ValidTables(t) { NotifySpecValid(t2, id, faults, now); }
          if !NotifySpec(t2, id, faults, now).failed {
            SetStatusKeeps(t2, id, Notified);
            SameButResultsTrans(t.recordings, t2.recordings, r.t.recordings, id);
          }
        }
      }
    }
    TryKeepsUsers(t, id, path, svc, faults, now);
    if r.failed && MarkError !in faults {
      SetStatusKeeps(r.t, id, Error);
      SameButResultsTrans(t.recordings, r.t.recordings, SetStatus(r.t.recordings, id, Error), id);
    }
  }

  lemma TryKeepsUsers(t: Tables, id: int, path: string, svc: Services, faults: set<Step>, now: int)
    ensures TrySpec(t, id, path, svc, faults, now).t.users == t.users
  {
    if MarkProcessing !in faults {
      var t1 := t.(recordings := SetStatus(t.recordings, id, Processing));
      var w := AnalyseAndWrite(t1.recordings, id, path, svc, faults);
      if w.Some? {
        NotifySpecFacts(t1.(recordings := w.value), id, faults, now);
      }
    }
  }

  // ---------------------------------------------------------------------------------------
  // Properties of a run

  /** Every row with the given id has status `s`. */
  predicate StatusIs(recs: seq<Recording>, id: int, s: Status) {
    forall i :: 0 <= i < |recs| && recs[i].id == id ==> recs[i].status == s
  }

  lemma {:induction false} PatientInfoKept(a: seq<Recording>, b: seq<Recording>, id: int)
    requires SameButResults(a, b, id)
    ensures PatientInfoOf(a, id) == PatientInfoOf(b, id)
  {
    if a != [] {
      assert a[0] == a[0] && b[0] == b[0];
      if a[0].id != id {
        assert SameButResults(a[1..], b[1..], id) by {
          forall i | 0 <= i < |a[1..]| ensures a[1..][i] == a[i + 1] && b[1..][i] == b[i + 1] {}
        }
        PatientInfoKept(a[1..], b[1..], id);
      }
    }
  }

  lemma SetStatusTwice(recs: seq<Recording>, id: int, s1: Status, s2: Status)
    ensures SetStatus(SetStatus(recs, id, s1), id, s2) == SetStatus(recs, id, s2)
  {
  }

  /** The try block succeeds exactly when it writes processing, completed and notified, and
      the row then rests in 'notified' with one new notification per available doctor. */
  lemma TryTrace(t: Tables, id: int, path: string, svc: Services, faults: set<Step>, now: int)
    ensures var r := TrySpec(t, id, path, svc, faults, now);
      && (!r.failed ==> && r.written == [Processing, Completed, Notified]
                        && StatusIs(r.t.recordings, id, Notified)
                        && r.t.notifications == t.notifications
                             + FanRows(t.nextNotificationId, id, AvailableDoctors(t.users), now))
      && (r.failed ==> r.written in [[], [Processing], [Processing, Completed]])
  {
    if MarkProcessing !in faults {
      var t1 := t.(recordings := SetStatus(t.recordings, id, Processing));
      var w := AnalyseAndWrite(t1.recordings, id, path, svc, faults);
      if w.Some? {
        NotifySpecFacts(t1.(recordings := w.value), id, faults, now);
        var n := NotifySpec(t1.(recordings := w.value), id, faults, now);
        if n.failed {
          assert [Processing, Completed] + n.written == [Processing, Completed];
        }
      }
    }
  }

  /** A run succeeds exactly when it writes processing, completed and notified in that
      order, and the row then rests in 'notified' with one new notification per available
      doctor. When it fails and the catch block's update goes through, the last status
      written is 'error' and the row rests there: a failure is never left as 'completed'. */
  lemma ProcessTrace(t: Tables, id: int, path: string, svc: Services, faults: set<Step>, now: int)
    ensures var r := ProcessSpec(t, id, path, svc, faults, now);
      && (!r.failed <==> r.written == [Processing, Completed, Notified])
      && (!r.failed ==> && StatusIs(r.t.recordings, id, Notified)
                        && r.t.notifications == t.notifications
                             + FanRows(t.nextNotificationId, id, AvailableDoctors(t.users), now))
      && (r.failed && MarkError !in faults ==>
            && r.written != [] && r.written[|r.written| - 1] == Error
            && StatusIs(r.t.recordings, id, Error))
  {
    TryTrace(t, id, path, svc, faults, now);
    var r := TrySpec(t, id, path, svc, faults, now);
    if r.failed && MarkError !in faults {
      assert ProcessSpec(t, id, path, svc, faults, now).written[|r.written|] == Error;
    }
  }

  /** The statuses a failed run wrote: error alone, processing then error, or processing,
      completed then error; when the catch block's update fails too, the same trace without
      the error. */
  lemma FailedTrace(t: Tables, id: int, path: string, svc: Services, faults: set<Step>, now: int)
    ensures var r := ProcessSpec(t, id, path, svc, faults, now);
      && (r.failed && MarkError !in faults ==>
            r.written in [[Error], [Processing, Error], [Processing, Completed, Error]])
      && (r.failed && MarkError in faults ==> r.written in [[], [Processing], [Processing, Completed]])
  {
    TryTrace(t, id, path, svc, faults, now);
    var r := TrySpec(t, id, path, svc, faults, now);
    if r.failed && MarkError !in faults {
      assert [] + [Error] == [Error];
      assert [Processing] + [Error] == [Processing, Error];
      assert [Processing, Completed] + [Error] == [Processing, Completed, Error];
    }
  }

  /** When the patient information cannot be read, the transcription fails, or the analysis
      is JSON null, no result column is written and no notification is sent: the run only
      moves the row to 'processing' and then to 'error', whatever the chat-completion service
      would have answered. */
  lemma EarlyFailureWritesNothing(t: Tables, id: int, path: string, svc: Services, faults: set<Step>, now: int)
    requires MarkProcessing !in faults && MarkError !in faults
    requires || ReadPatientInfo in faults
             || svc.transcribe(path).None?
             || AnalyzeWithLLM(svc, svc.transcribe(path).value, PatientInfoOf(t.recordings, id)).JsonNull?
    ensures var r := ProcessSpec(t, id, path, svc, faults, now);
      && r.written == [Processing, Error]
      && r.t == t.(recordings := SetStatus(t.recordings, id, Error))
  {
    SetStatusKeeps(t, id, Processing);
    PatientInfoKept(t.recordings, SetStatus(t.recordings, id, Processing), id);
    SetStatusTwice(t.recordings, id, Processing, Error);
  }

  /** With every statement succeeding and the reply unobtainable or unparsable, the
      recording is completed with the fallback values and the doctors are notified. */
  lemma MalformedReplyCompletes(t: Tables, id: int, path: string, svc: Services, now: int, text: string)
    requires svc.transcribe(path) == Some(text)
    requires var info := PatientInfoOf(t.recordings, id);
      svc.complete(text, info).None? || svc.parse(StripFences(Trim(svc.complete(text, info).value))).None?
    ensures var r := ProcessSpec(t, id, path, svc, {}, now);
      && r.written == [Processing, Completed, Notified]
      && |r.t.recordings| == |t.recordings|
      && forall i :: 0 <= i < |t.recordings| && t.recordings[i].id == id ==>
           r.t.recordings[i] == WithResults(t.recordings[i], FallbackColumns(text)).(status := Notified)
  {
    var t1 := t.(recordings := SetStatus(t.recordings, id, Processing));
    SetStatusKeeps(t, id, Processing);
    PatientInfoKept(t.recordings, t1.recordings, id);
    FailedAnalysisColumns(svc, text, PatientInfoOf(t.recordings, id));
    var t2 := t1.(recordings := AnalyseAndWrite(t1.recordings, id, path, svc, {}).value);
    NotifySpecFacts(t2, id, {}, now);
    ProcessTrace(t, id, path, svc, {}, now);
  }

  /** With every statement succeeding, a run fails exactly when the transcription fails, the
      analysis is JSON null, or the stored risk or priority breaks a CHECK constraint. */
  lemma ProcessFailsIff(t: Tables, id: int, path: string, svc: Services, now: int)
    ensures ProcessSpec(t, id, path, svc, {}, now).failed <==>
      || svc.transcribe(path).None?
      || var text := svc.transcribe(path).value;
         var a := AnalyzeWithLLM(svc, text, PatientInfoOf(t.recordings, id));
         || a.JsonNull?
         || (!ChecksPass(PersistedColumns(text, a, svc.stringify)) && exists x :: x in t.recordings && x.id == id)
  {
    var t1 := t.(recordings := SetStatus(t.recordings, id, Processing));
    SetStatusKeeps(t, id, Processing);
    PatientInfoKept(t.recordings, t1.recordings, id);
    assert (exists x :: x in t.recordings && x.id == id) <==> (exists x :: x in t1.recordings && x.id == id) by {
      forall x | x in t.recordings && x.id == id ensures exists y :: y in t1.recordings && y.id == id {
        var i :| 0 <= i < |t.recordings| && t.recordings[i] == x;
        assert t1.recordings[i] in t1.recordings;
      }
      forall y | y in t1.recordings && y.id == id ensures exists x :: x in t.recordings && x.id == id {
        var i :| 0 <= i < |t1.recordings| && t1.recordings[i] == y;
        assert t.recordings[i] in t.recordings;
      }
    }
    var w := AnalyseAndWrite(t1.recordings, id, path, svc, {});
    if w.Some? {
      NotifySpecFacts(t1.(recordings := w.value), id, {}, now);
    }
  }

  /** The notifications of a run: one 'both' row per available doctor, in id order, with
      consecutive ids, undelivered and unread; no doctor is notified twice. */
  lemma {:induction false} NotifiedOncePerDoctor(next: int, recordingId: int, users: seq<User>, now: int)
    requires IdsIncreasing(users)
    ensures var docs := AvailableDoctors(users);
      var rows := FanRows(next, recordingId, docs, now);
      && |rows| == |docs|
      && (forall i :: 0 <= i < |rows| ==>
            rows[i] == Notification(next + i, recordingId, docs[i].id, Both, now, false, None, None))
      && (forall i, j :: 0 <= i < j < |rows| ==> rows[i].doctorId < rows[j].doctorId)
  {
    var docs := AvailableDoctors(users);
    var rows := FanRows(next, recordingId, docs, now);
    forall i | 0 <= i < |rows|
      ensures rows[i] == Notification(next + i, recordingId, docs[i].id, Both, now, false, None, None)
    {
      FanRowsAt(next, recordingId, docs, now, i);
    }
    AvailableDoctorsOrdered(users);
  }

  // ---------------------------------------------------------------------------------------
  // The pipeline as the server runs it

  /** One iteration of the fan-out loop: inserting the k-th doctor's row leaves the same
      remaining work. */
  lemma FanOutStep(t: Tables, recordingId: int, docs: seq<User>, k: nat, faults: set<Step>, now: int)
    requires k < |docs| && !InsertFails(faults, k)
    ensures var row := Notification(t.nextNotificationId, recordingId, docs[k].id, Both, now, false, None, None);
      var t1 := t.(notifications := t.notifications + [row], nextNotificationId := t.nextNotificationId + 1);
      var f1 := FanOut(t1, recordingId, docs[k + 1..], k + 1, faults, now);
      var f := FanOut(t, recordingId, docs[k..], k, faults, now);
      f1.t == f.t && f1.ok == f.ok
  {
    assert docs[k..][1..] == docs[k + 1..];
  }

  /** The fan-out loop stops at the first failing insert. */
  lemma FanOutFault(t: Tables, recordingId: int, docs: seq<User>, k: nat, faults: set<Step>, now: int)
    requires k < |docs| && InsertFails(faults, k)
    ensures FanOut(t, recordingId, docs[k..], k, faults, now).t == t
    ensures !FanOut(t, recordingId, docs[k..], k, faults, now).ok
  {
  }

  /** The insert loop of notifyDoctors: one INSERT per doctor, stopping at the first one
      that fails. */
  method InsertNotifications(db: Database, id: int, docs: seq<User>, faults: set<Step>, now: int) returns (ok: bool)
    modifies db
    ensures db.State() == FanOut(old(db.State()), id, docs, 0, faults, now).t
    ensures ok == FanOut(old(db.State()), id, docs, 0, faults, now).ok
  {
    ghost var goal := FanOut(db.State(), id, docs, 0, faults, now);
    var k := 0;
    while k < |docs|
      invariant 0 <= k <= |docs|
      invariant FanOut(db.State(), id, docs[k..], k, faults, now).t == goal.t
      invariant FanOut(db.State(), id, docs[k..], k, faults, now).ok == goal.ok
    {
      if InsertFails(faults, k) {
        FanOutFault(db.State(), id, docs, k, faults, now);
        return false;
      }
      ghost var before := db.State();
      var row := Notification(db.nextNotificationId, id, docs[k].id, Both, now, false, None, None);
      FanOutStep(before, id, docs, k, faults, now);
      db.notifications := db.notifications + [row];
      db.nextNotificationId := db.nextNotificationId + 1;
      assert db.State() == before.(notifications := before.notifications + [row], nextNotificationId := before.nextNotificationId + 1);
      k := k + 1;
    }
    assert docs[k..] == [];
    ok := true;
  }

  /** notifyDoctors. */
  method NotifyDoctors(db: Database, id: int, faults: set<Step>, now: int) returns (ok: bool)
    modifies db
    ensures db.State() == NotifySpec(old(db.State()), id, faults, now).t
    ensures ok == !NotifySpec(old(db.State()), id, faults, now).failed
  {
    if ListDoctors in faults {
      return false;
    }
    var docs := AvailableDoctors(db.users);
    ok := InsertNotifications(db, id, docs, faults, now);
    if !ok || MarkNotified in faults {
      return false;
    }
    db.recordings := SetStatus(db.recordings, id, Notified);
  }

  /** Reads the patient information, transcribes, analyses and writes the results: the
      statements of the try block between the two status updates. */
  method AnalyseStep(db: Database, id: int, path: string, svc: Services, faults: set<Step>) returns (ok: bool)
    modifies db
    ensures var w := AnalyseAndWrite(old(db.recordings), id, path, svc, faults);
      && ok == w.Some?
      && db.State() == if w.Some? then old(db.State()).(recordings := w.value) else old(db.State())
  {
    if ReadPatientInfo in faults {
      return false;
    }
    var info := PatientInfoOf(db.recordings, id);
    var transcript := svc.transcribe(path);
    if transcript.None? {
      return false;
    }
    var analysis := AnalyzeWithLLM(svc, transcript.value, info);
    if analysis.JsonNull? || WriteResults in faults {
      return false;
    }
    var rows := WriteResultRows(db.recordings, id, PersistedColumns(transcript.value, analysis, svc.stringify));
    if rows.None? {
      return false;
    }
    db.recordings := rows.value;
    ok := true;
  }

  /** The try block, statement by statement. */
  method RunSteps(db: Database, id: int, path: string, svc: Services, faults: set<Step>, now: int)
    returns (written: seq<Status>, failed: bool)
    modifies db
    ensures db.State() == TrySpec(old(db.State()), id, path, svc, faults, now).t
    ensures written == TrySpec(old(db.State()), id, path, svc, faults, now).written
    ensures failed == TrySpec(old(db.State()), id, path, svc, faults, now).failed
  {
    ghost var spec := TrySpec(db.State(), id, path, svc, faults, now);
    if MarkProcessing in faults {
      return [], true;
    }
    db.recordings := SetStatus(db.recordings, id, Processing);
    written := [Processing];
    ghost var t1 := db.State();
    var analysed := AnalyseStep(db, id, path, svc, faults);
    if !analysed {
      assert spec == Outcome(t1, [Processing], true);
      return written, true;
    }
    written := written + [Completed];
    ghost var n := NotifySpec(db.State(), id, faults, now);
    assert spec == Outcome(n.t, [Processing, Completed] + n.written, n.failed);
    assert n.written == if n.failed then [] else [Notified];
    var ok := NotifyDoctors(db, id, faults, now);
    if ok {
      written := written + [Notified];
    }
    assert written == spec.written;
    failed := !ok;
  }



  /** processRecording. Returns the statuses it wrote, in order. */
  method ProcessRecording(db: Database, id: int, path: string, svc: Services, faults: set<Step>, now: int)
    returns (written: seq<Status>)
    requires db.Valid()
    modifies db
    ensures db.Valid()
    ensures db.State() == ProcessSpec(old(db.State()), id, path, svc, faults, now).t
    ensures written == ProcessSpec(old(db.State()), id, path, svc, faults, now).written
  {
    ProcessKeeps(db.State(), id, path, svc, faults, now);
    var failed;
    written, failed := RunSteps(db, id, path, svc, faults, now);
    if failed && MarkError !in faults {
      db.recordings := SetStatus(db.recordings, id, Error);
      written := written + [Error];
    }
  }
}
