/** client/src/components/EMTDashboard.js: the status, urgency, risk and priority badges, the
    choice of the recorder's MIME type, and the guards of uploading and of stopping a
    recording. The browser's MediaRecorder.isTypeSupported is the `supported` parameter. */
module EmtDashboard {
  import opened Js
  import opened Schema
  import Recordings

  const Gray := "text-gray-600 bg-gray-100"

  /** getStatusColor. */
  function StatusColor(status: string): string {
    match status
    case "pending" => "text-yellow-600 bg-yellow-100"
    case "processing" => "text-blue-600 bg-blue-100"
    case "completed" => "text-green-600 bg-green-100"
    case "notified" => "text-purple-600 bg-purple-100"
    case "error" => "text-red-600 bg-red-100"
    case _ => Gray
  }

  /** The five statuses a recording can have get five distinct badges, none of them gray;
      every other text is gray. */
  lemma StatusColors(s: Status, t: Status, other: string)
    ensures StatusColor(StatusText(s)) != Gray
    ensures StatusColor(StatusText(s)) == StatusColor(StatusText(t)) <==> s == t
    ensures (forall st: Status :: other != StatusText(st)) ==> StatusColor(other) == Gray
  {
    if forall st: Status :: other != StatusText(st) {
      assert other != StatusText(Pending) && other != StatusText(Processing) && other != StatusText(Completed)
          && other != StatusText(Notified) && other != StatusText(Error);
    }
  }

  /** getUrgencyColor. */
  function UrgencyColor(urgency: string): string {
    match urgency
    case "critical" => "text-red-600 bg-red-100"
    case "high" => "text-orange-600 bg-orange-100"
    case "medium" => "text-yellow-600 bg-yellow-100"
    case "low" => "text-green-600 bg-green-100"
    case _ => Gray
  }

  /** The four urgency levels get four distinct badges, none of them gray; the labels the
      analysis prompt offers ("urgent", "moderate", "routine") fall through to gray. */
  lemma UrgencyColors(u: Urgency, v: Urgency)
    ensures UrgencyColor(UrgencyText(u)) != Gray
    ensures UrgencyColor(UrgencyText(u)) == UrgencyColor(UrgencyText(v)) <==> u == v
    ensures UrgencyColor("urgent") == UrgencyColor("moderate") == UrgencyColor("routine") == Gray
  {
  }

  const Green := "text-green-600 bg-green-100"

  /** getRiskColor, with thresholds 80, 60 and 40. */
  function RiskColor(riskScore: int): string {
    if riskScore >= 80 then "text-red-600 bg-red-100"
    else if riskScore >= 60 then "text-orange-600 bg-orange-100"
    else if riskScore >= 40 then "text-yellow-600 bg-yellow-100"
    else Green
  }

  /** getRiskColor gives green for every risk score the schema admits (0 to 10): the
      thresholds are on a 0 to 100 scale the stored scores never reach. */
  lemma RiskAlwaysGreen(riskScore: int)
    requires RiskInRange(riskScore)
    ensures RiskColor(riskScore) == Green
    ensures RiskColor(riskScore) == RiskColor(0)
  {
  }

  /** `{recording.risk_score && (...)}`: the risk badge and its colour, or None when the score
      is 0 and no badge is drawn. */
  function RiskBadge(riskScore: int): (r: Option<string>)
    ensures r.None? <==> riskScore == 0
    ensures r.Some? ==> r.value == RiskColor(riskScore)
  {
    if riskScore == 0 then None else Some(RiskColor(riskScore))
  }

  /** A stored recording with a score from 1 to 10 shows a green risk badge; a score of 0
      shows none. */
  lemma StoredRiskGreen(recs: seq<Recording>, next: int, i: int)
    requires RecordingsValid(recs, next) && 0 <= i < |recs|
    ensures RiskColor(recs[i].riskScore) == Green
    ensures recs[i].riskScore != 0 ==> RiskBadge(recs[i].riskScore) == Some(Green)
    ensures recs[i].riskScore == 0 ==> RiskBadge(recs[i].riskScore).None?
  {
  }

  /** The risk badge with its thresholds on the 0 to 10 scale the schema stores: 8, 6 and 4,
      the bands the doctors' dashboard uses. */
  function RiskColorOnTenScale(riskScore: int): string {
    if riskScore >= 8 then "text-red-600 bg-red-100"
    else if riskScore >= 6 then "text-orange-600 bg-orange-100"
    else if riskScore >= 4 then "text-yellow-600 bg-yellow-100"
    else Green
  }

  /** On the 0 to 10 scale every band is reached: 8 to 10 red, 6 to 7 orange, 4 to 5 yellow,
      0 to 3 green; a higher score never gets a milder badge. */
  lemma RiskColorOnTenScaleBands(r: int, s: int)
    requires RiskInRange(r) && RiskInRange(s)
    ensures RiskColorOnTenScale(r) == "text-red-600 bg-red-100" <==> r >= 8
    ensures RiskColorOnTenScale(r) == "text-orange-600 bg-orange-100" <==> 6 <= r < 8
    ensures RiskColorOnTenScale(r) == "text-yellow-600 bg-yellow-100" <==> 4 <= r < 6
    ensures RiskColorOnTenScale(r) == Green <==> r < 4
    ensures r <= s && RiskColorOnTenScale(s) == Green ==> RiskColorOnTenScale(r) == Green
  {
  }

  /** getPriorityColor: a strict comparison against 1 to 5. */
  function PriorityColor(priority: int): string {
    match priority
    case 1 => "text-red-600 bg-red-100"
    case 2 => "text-orange-600 bg-orange-100"
    case 3 => "text-yellow-600 bg-yellow-100"
    case 4 => "text-blue-600 bg-blue-100"
    case 5 => "text-green-600 bg-green-100"
    case _ => Gray
  }

  /** Priorities 1 to 5 get five distinct badges, none of them gray; anything else is gray. */
  lemma PriorityColors(p: int, q: int)
    ensures PriorityColor(p) == Gray <==> !PriorityInRange(p)
    ensures PriorityInRange(p) && PriorityInRange(q) ==> (PriorityColor(p) == PriorityColor(q) <==> p == q)
  {
  }

  // ---------------------------------------------------------------------------------------
  // The recorder's MIME type

  /** The types tried, in order of preference. */
  const MimePreferences := ["audio/webm;codecs=opus", "audio/webm", "audio/mp4"]

  /** Starts from the first preference and falls back to the next while the current one is
      unsupported; deletes the option when none is supported. */
  method ChooseMimeType(supported: string -> bool) returns (mimeType: Option<string>)
    ensures mimeType.None? <==> forall i :: 0 <= i < |MimePreferences| ==> !supported(MimePreferences[i])
    ensures mimeType.Some? ==> exists i :: && 0 <= i < |MimePreferences|
                                          && mimeType.value == MimePreferences[i] && supported(mimeType.value)
                                          && forall j :: 0 <= j < i ==> !supported(MimePreferences[j])
  {
    var prefs := MimePreferences;
    mimeType := Some(prefs[0]);
    if !supported(prefs[0]) {
      mimeType := Some(prefs[1]);
      if !supported(prefs[1]) {
        mimeType := Some(prefs[2]);
        if !supported(prefs[2]) {
          mimeType := None;
          assert forall i :: 0 <= i < |prefs| ==> prefs[i] == prefs[0] || prefs[i] == prefs[1] || prefs[i] == prefs[2];
        } else {
          assert mimeType.value == prefs[2];
        }
      } else {
        assert mimeType.value == prefs[1];
      }
    } else {
      assert mimeType.value == prefs[0];
    }
  }

  /** The recorded blob's type: the chosen type, or audio/webm when the option was deleted. */
  function BlobType(mimeType: Option<string>): (r: string)
    ensures mimeType.Some? ==> r == mimeType.value
    ensures mimeType.None? ==> r == "audio/webm"
  {
    mimeType.GetOr("audio/webm")
  }

  /** Whatever type the recorder ends up with, the blob it produces passes the server's upload
      filter. */
  lemma RecordedTypeAccepted(mimeType: Option<string>)
    requires mimeType.None? || mimeType.value in MimePreferences
    ensures Recordings.AllowedMime(BlobType(mimeType))
  {
    Recordings.RecorderTypesAllowed();
    var t := BlobType(mimeType);
    assert t == MimePreferences[0] || t == MimePreferences[1] || t == MimePreferences[2];
  }

  // ---------------------------------------------------------------------------------------
  // Guards

  /** A recorded audio blob: its type and size in bytes. */
  datatype Blob = Blob(mimeType: string, size: nat)

  /** The form handleUpload posts: the blob as "recording.webm" and the patient information
      as typed (untrimmed). */
  datatype UploadForm = UploadForm(audio: Blob, fileName: string, patientInfo: string)

  /** handleUpload: refuses without a blob or with blank patient information. */
  function HandleUpload(audioBlob: Option<Blob>, patientInfo: string): (r: Option<UploadForm>)
    ensures r.None? <==> audioBlob.None? || Blank(patientInfo)
    ensures r.Some? ==> r.value == UploadForm(audioBlob.value, "recording.webm", patientInfo)
  {
    TrimEmptyIffBlank(patientInfo);
    if audioBlob.None? || Trim(patientInfo) == "" then None
    else Some(UploadForm(audioBlob.value, "recording.webm", patientInfo))
  }

  /** What stopRecording leaves behind: the recording flag, and whether it stopped the
      recorder. */
  datatype Stopped = Stopped(isRecording: bool, recorderStopped: bool)

  /** stopRecording: acts only when a recorder exists and a recording is on. */
  function StopRecording(hasRecorder: bool, isRecording: bool): (r: Stopped)
    ensures r.recorderStopped <==> hasRecorder && isRecording
    ensures r.recorderStopped ==> !r.isRecording
    ensures !r.recorderStopped ==> r.isRecording == isRecording
  {
    if hasRecorder && isRecording then Stopped(false, true) else Stopped(isRecording, false)
  }
}
