/** The scan pipeline of the mobile app
    (ArgosApp/app/src/main/java/com/example/argosapp/MainViewModel.java): status
    normalisation and the severity table, the detection summary sent to the
    analysis service, the result assembled from its report, and the view
    model's state with its per-user, prepend-only scan history. */
module ScanViewModel {
  import opened Wrappers
  import opened Text
  import opened Json
  import opened ScanModel
  import opened HistoryStore
  import opened UserIdentity

  // ---------------------------------------------------------------- status and severity

  /** `normalizeStatus`: null reads as "unknown", anything else is lower-cased. */
  function NormalizeStatus(status: Option<string>): (r: string)
    ensures status.None? ==> r == "unknown"
    ensures status.Some? ==> |r| == |status.value| && forall i :: 0 <= i < |r| ==> r[i] == LowerChar(status.value[i])
    ensures forall i :: 0 <= i < |r| ==> !IsAsciiUpper(r[i])
  {
    if status.None? then "unknown" else ToLower(status.value)
  }

  /** Normalising a normalised status changes nothing. */
  lemma NormalizeStatusIdempotent(status: Option<string>)
    ensures NormalizeStatus(Some(NormalizeStatus(status))) == NormalizeStatus(status)
  {
    if status.None? {
      assert ToLower("unknown") == "unknown";
    } else {
      ToLowerIdempotent(status.value);
    }
  }

  /** The presentation of one severity level: its key, label, description and
      the damage label and suggestion shown when the report has none. */
  datatype SeverityMeta = SeverityMeta(
    key: string,
    severityLabel: string,
    description: string,
    defaultDamageLabel: string,
    defaultSuggestion: string)

  const GreenSeverity := SeverityMeta("green", "Serviceable", "ULD is ready for service",
    "No visible damage", "Continue regular inspections")
  const YellowSeverity := SeverityMeta("yellow", "Maintenance required", "Plan maintenance as soon as possible",
    "Minor damage detected", "Contact the maintenance team")
  const RedSeverity := SeverityMeta("red", "Out of service", "Severe damage detected, stop operation",
    "Major structural damage", "Remove from service and notify maintenance")
  const UnknownSeverity := SeverityMeta("unknown", "Unknown status", "Please rescan to confirm",
    "Status unclear", "Run another inspection")

  /** `mapSeverity`: the three traffic-light levels, anything else unknown. */
  function MapSeverity(status: string): (m: SeverityMeta)
    ensures m.key == "green" || m.key == "yellow" || m.key == "red" || m.key == "unknown"
    ensures (status == "green" || status == "yellow" || status == "red") ==> m.key == status
    ensures !(status == "green" || status == "yellow" || status == "red") ==> m == UnknownSeverity
  {
    match status
    case "green" => GreenSeverity
    case "yellow" => YellowSeverity
    case "red" => RedSeverity
    case _ => UnknownSeverity
  }

  /** The table is consistent: looking up a level by its own key gives it back,
      and distinct levels have distinct labels. */
  lemma MapSeverityByKey(status: string)
    ensures MapSeverity(MapSeverity(status).key) == MapSeverity(status)
    ensures forall other :: MapSeverity(other).severityLabel == MapSeverity(status).severityLabel ==>
      MapSeverity(other).key == MapSeverity(status).key
  {
  }

  // ---------------------------------------------------------------- detection labels and summary

  /** `formatDetectionLabel`, with the localized unknown-label text as a
      parameter. */
  function FormatDetectionLabel(rawLabel: Option<string>, unknownLabel: string): (r: string)
    ensures rawLabel.None? || JavaTrim(rawLabel.value) == [] ==> r == unknownLabel
    ensures rawLabel.Some? && JavaTrim(rawLabel.value) != [] ==>
      var t := JavaTrim(rawLabel.value);
      && |r| == |t| && r[0] == UpperChar(LowerChar(t[0]))
      && forall i :: 1 <= i < |t| ==> r[i] == LowerChar(t[i])
  {
    if rawLabel.None? then unknownLabel
    else
      var trimmed := JavaTrim(rawLabel.value);
      if trimmed == [] then unknownLabel else Capitalize(trimmed)
  }

  /** A formatted label formats to itself. */
  lemma FormatDetectionLabelIdempotent(rawLabel: string, unknownLabel: string)
    requires JavaTrim(rawLabel) != []
    ensures var r := FormatDetectionLabel(Some(rawLabel), unknownLabel);
      FormatDetectionLabel(Some(r), unknownLabel) == r
  {
    var t := JavaTrim(rawLabel);
    var r := Capitalize(t);
    assert FormatDetectionLabel(Some(rawLabel), unknownLabel) == r;
    assert !IsJavaTrimmable(r[0]) by {
      assert !IsJavaTrimmable(t[0]);
    }
    assert !IsJavaTrimmable(r[|r| - 1]) by {
      if |r| > 1 {
        assert r[|r| - 1] == LowerChar(t[|t| - 1]);
      }
    }
    TrimKeepsTrimmed(r, IsJavaTrimmable);
    assert JavaTrim(r) == r;
    CapitalizeIdempotent(t);
  }

  /** What `buildDetectionSummary` reports of the first detection: its
      formatted label and its confidence, clamped to [0, 1], as a rounded
      percentage (`Math.round` rounds half up). */
  datatype DetectionSummary = DetectionSummary(hasDetection: bool, summaryLabel: string, confidencePercent: int)

  function ClampUnit(x: real): (r: real)
    ensures 0.0 <= r <= 1.0
    ensures 0.0 <= x <= 1.0 ==> r == x
  {
    if x < 0.0 then 0.0 else if x > 1.0 then 1.0 else x
  }

  function BuildDetectionSummary(detections: Option<seq<YoloDetection>>, unknownLabel: string): (s: DetectionSummary)
    ensures s.hasDetection <==> detections.Some? && detections.value != []
    ensures 0 <= s.confidencePercent <= 100
    ensures s.hasDetection ==>
      && s.summaryLabel == FormatDetectionLabel(Some(detections.value[0].className), unknownLabel)
      && (detections.value[0].confidence >= 1.0 ==> s.confidencePercent == 100)
      && (detections.value[0].confidence <= 0.0 ==> s.confidencePercent == 0)
    ensures !s.hasDetection ==> s == DetectionSummary(false, "", 0)
  {
    if detections.None? || detections.value == [] then DetectionSummary(false, "", 0)
    else
      var detection := detections.value[0];
      var percent := (ClampUnit(detection.confidence) * 100.0 + 0.5).Floor;
      DetectionSummary(true, FormatDetectionLabel(Some(detection.className), unknownLabel), percent)
  }

  /** One entry of the summary; `formatConfidence` is `%.2f` in the US locale. */
  function DetectionEntry(d: YoloDetection, formatConfidence: real -> string): string
  {
    d.className + " (confidence: " + formatConfidence(d.confidence) + "); "
  }

  function DetectionEntries(ds: seq<YoloDetection>, formatConfidence: real -> string): string
  {
    if ds == [] then ""
    else DetectionEntries(ds[..|ds| - 1], formatConfidence) + DetectionEntry(ds[|ds| - 1], formatConfidence)
  }

  /** The findings text sent to the analysis service. */
  function DetectionsText(detections: Option<seq<YoloDetection>>, formatConfidence: real -> string): (text: string)
    ensures detections.None? || detections.value == [] ==> text == "no damage"
    ensures detections.Some? && detections.value != [] ==> text != "no damage" && |text| > 3
  {
    if detections.None? || detections.value == [] then "no damage"
    else
      "Found " + IntToString(|detections.value|) + " potential issues: "
      + DetectionEntries(detections.value, formatConfidence)
  }

  /** `convertDetectionsToString`: the header, then one entry per detection in
      list order. */
  method ConvertDetectionsToString(detections: Option<seq<YoloDetection>>, formatConfidence: real -> string)
    returns (text: string)
    ensures text == DetectionsText(detections, formatConfidence)
  {
    if detections.None? || |detections.value| == 0 {
      return "no damage";
    }
    var ds := detections.value;
    var sb := "Found " + IntToString(|ds|) + " potential issues: ";
    var i := 0;
    while i < |ds|
      invariant 0 <= i <= |ds|
      invariant sb == "Found " + IntToString(|ds|) + " potential issues: " + DetectionEntries(ds[..i], formatConfidence)
    {
      assert ds[..i + 1][..i] == ds[..i];
      assert DetectionEntries(ds[..i + 1], formatConfidence)
        == DetectionEntries(ds[..i], formatConfidence) + DetectionEntry(ds[i], formatConfidence);
      sb := sb + ds[i].className + " (confidence: " + formatConfidence(ds[i].confidence) + "); ";
      i := i + 1;
    }
    assert ds[..|ds|] == ds;
    return sb;
  }

  /** The service is told "no damage" exactly when there is no detection, and
      otherwise how many there are, each entry closed by "); ". */
  lemma DetectionsTextShape(detections: Option<seq<YoloDetection>>, formatConfidence: real -> string)
    ensures var text := DetectionsText(detections, formatConfidence);
      && (text == "no damage" <==> detections.None? || detections.value == [])
      && (detections.Some? && detections.value != [] ==>
          StartsWith(text, "Found " + IntToString(|detections.value|) + " potential issues: ")
          && text[|text| - 3..] == "); ")
  {
    var text := DetectionsText(detections, formatConfidence);
    if detections.Some? && detections.value != [] {
      var ds := detections.value;
      var head := "Found " + IntToString(|ds|) + " potential issues: ";
      assert text[0] == 'F';
      assert text[..|head|] == head;
      var last := DetectionEntry(ds[|ds| - 1], formatConfidence);
      assert text == head + DetectionEntries(ds[..|ds| - 1], formatConfidence) + last;
      assert last[|last| - 3..] == "); ";
      assert text[|text| - 3..] == last[|last| - 3..];
    }
  }

  // ---------------------------------------------------------------- result assembly

  /** The result `handleSuccessfulReport` builds from a report, the pending scan
      id, the findings sent, the pending image and the current time. */
  function BuildResult(report: UldReport, pendingUldId: string, findings: string,
                       imageUri: Option<string>, nowMillis: int): (r: ScanResult)
    ensures r.imageUri == imageUri && r.timestamp == nowMillis
    ensures MapSeverity(r.severityKey).severityLabel == r.severityLabel
    ensures r.severityKey == "unknown" || report.status.Some?
  {
    var normalizedStatus := NormalizeStatus(report.status);
    var meta := MapSeverity(normalizedStatus);
    var primaryDamage := report.damageCategory.GetOr(meta.defaultDamageLabel);
    var suggestion := report.maintenanceSuggestion.GetOr(meta.defaultSuggestion);
    var resolvedUldId := report.uldId.GetOr(pendingUldId);
    ScanResult(resolvedUldId, normalizedStatus, meta.severityLabel, meta.description, primaryDamage, suggestion,
      findings, imageUri, nowMillis, [DamageDetail(primaryDamage, normalizedStatus, meta.severityLabel, suggestion)])
  }

  /** What the report leaves null falls back to the severity defaults (damage
      label, suggestion) or to the pending scan id; the severity label and
      description are those of the normalised status, and the single damage
      detail repeats the headline. */
  lemma BuildResultFallbacks(report: UldReport, pendingUldId: string, findings: string,
                             imageUri: Option<string>, nowMillis: int)
    ensures var r := BuildResult(report, pendingUldId, findings, imageUri, nowMillis);
      var meta := MapSeverity(NormalizeStatus(report.status));
      && (report.damageCategory.Some? ==> r.primaryDamageTitle == report.damageCategory.value)
      && (report.damageCategory.None? ==> r.primaryDamageTitle == meta.defaultDamageLabel)
      && (report.maintenanceSuggestion.Some? ==> r.primarySuggestion == report.maintenanceSuggestion.value)
      && (report.maintenanceSuggestion.None? ==> r.primarySuggestion == meta.defaultSuggestion)
      && (report.uldId.Some? ==> r.uldId == report.uldId.value)
      && (report.uldId.None? ==> r.uldId == pendingUldId)
      && (report.status.None? ==> r.severityLabel == "Unknown status" && r.severityKey == "unknown")
      && r.severityLabel == meta.severityLabel && r.severityDescription == meta.description
      && |r.damageDetails| == 1
      && r.damageDetails[0] == DamageDetail(r.primaryDamageTitle, r.severityKey, r.severityLabel, r.primarySuggestion)
  {
  }

  /** The history row `appendHistory` makes of a result; a missing image is "". */
  function ToHistoryItem(result: ScanResult): (item: ScanHistoryItem)
    ensures item.uldId == result.uldId && item.timestamp == result.timestamp
    ensures item.severityKey == result.severityKey && item.severityLabel == result.severityLabel
    ensures result.imageUri.Some? ==> item.imageUri == result.imageUri.value
    ensures result.imageUri.None? ==> item.imageUri == ""
  {
    ScanHistoryItem(result.uldId, result.severityKey, result.severityLabel, result.severityDescription,
      result.primaryDamageTitle, result.primarySuggestion, result.imageUri.GetOr(""), result.timestamp)
  }

  // ---------------------------------------------------------------- view model state

  datatype AppStatus = Idle | Processing(message: string) | Success(response: UldReport) | Error(message: string)

  /** The HTTP answer of the analysis service. */
  datatype ApiResponse = ApiResponse(successful: bool, code: int, message: string, body: Option<UldReport>)

  /** A call either answers or fails with an I/O error. */
  datatype ApiOutcome = Answered(response: ApiResponse) | IoFailure(message: string)

  /** The stored entry under `key`, if any. */
  function Stored(prefs: map<string, Blob>, key: string): Option<Blob>
  {
    if key in prefs then Some(prefs[key]) else None
  }

  class MainViewModel {
    /** The localized default user name. */
    const defaultUserName: string
    var status: AppStatus
    var latestResult: Option<ScanResult>
    var history: seq<ScanHistoryItem>
    var userDisplayName: string
    var lastCapturedImage: Option<string>
    /** The "argos_history" preferences file. */
    var historyPrefs: map<string, Blob>
    var pendingImageUri: Option<string>
    var latestYoloFindings: string
    var pendingUldId: string
    var currentUserKey: string

    /** The history shown is the one stored for the current user, and the user
        key is a sanitised one. */
    ghost predicate Valid()
      reads this
    {
      && history == DecodeHistory(Stored(historyPrefs, HistoryKey(currentUserKey)))
      && currentUserKey != [] && IsUserKey(currentUserKey)
    }

    constructor (defaultName: string, storedPrefs: map<string, Blob>)
      ensures Valid()
      ensures defaultUserName == defaultName && userDisplayName == defaultName
      ensures status == Idle && latestResult == None && lastCapturedImage == None
      ensures historyPrefs == storedPrefs && currentUserKey == DefaultUserKey
      ensures history == DecodeHistory(Stored(storedPrefs, HistoryKey(DefaultUserKey)))
      ensures pendingImageUri == None && latestYoloFindings == "" && pendingUldId == "ULD-PHOTO"
    {
      defaultUserName := defaultName;
      status := Idle;
      latestResult := None;
      userDisplayName := defaultName;
      lastCapturedImage := None;
      historyPrefs := storedPrefs;
      pendingImageUri := None;
      latestYoloFindings := "";
      pendingUldId := "ULD-PHOTO";
      currentUserKey := DefaultUserKey;
      new;
      assert IsUserKey(DefaultUserKey);
      LoadHistoryForCurrentUser();
    }

    /** `resetStatus` */
    method ResetStatus()
      modifies this
      ensures status == Idle
      ensures latestResult == old(latestResult) && history == old(history) && historyPrefs == old(historyPrefs)
      ensures currentUserKey == old(currentUserKey) && userDisplayName == old(userDisplayName)
      ensures lastCapturedImage == old(lastCapturedImage) && pendingImageUri == old(pendingImageUri)
      ensures pendingUldId == old(pendingUldId) && latestYoloFindings == old(latestYoloFindings)
    {
      status := Idle;
    }

    /** `setPendingImageUri` */
    method SetPendingImageUri(uri: Option<string>)
      requires Valid()
      modifies this
      ensures Valid()
      ensures pendingImageUri == uri && lastCapturedImage == uri
      ensures status == old(status) && latestResult == old(latestResult) && history == old(history)
      ensures historyPrefs == old(historyPrefs) && currentUserKey == old(currentUserKey)
      ensures userDisplayName == old(userDisplayName) && pendingUldId == old(pendingUldId)
      ensures latestYoloFindings == old(latestYoloFindings)
    {
      pendingImageUri := uri;
      lastCapturedImage := uri;
    }

    /** `loadHistoryForCurrentUser`: the stored history of the current user, or
        none when the entry is missing, empty or malformed. */
    method LoadHistoryForCurrentUser()
      requires currentUserKey != [] && IsUserKey(currentUserKey)
      modifies this
      ensures Valid()
      ensures history == DecodeHistory(Stored(historyPrefs, HistoryKey(currentUserKey)))
      ensures status == old(status) && latestResult == old(latestResult)
      ensures historyPrefs == old(historyPrefs) && currentUserKey == old(currentUserKey)
      ensures userDisplayName == old(userDisplayName) && lastCapturedImage == old(lastCapturedImage)
      ensures pendingImageUri == old(pendingImageUri) && pendingUldId == old(pendingUldId)
      ensures latestYoloFindings == old(latestYoloFindings)
    {
      var raw := Stored(historyPrefs, HistoryKey(currentUserKey));
      if raw.None? || raw.value.EmptyText? {
        history := [];
        return;
      }
      if raw.value.Doc? && raw.value.doc.JArr? {
        var loaded := LoadItems(raw.value.doc.items);
        history := if loaded.Some? then loaded.value else [];
      } else {
        history := [];
      }
    }

    /** `persistHistory`: the list is written under the current user's key. */
    method PersistHistory(historyList: seq<ScanHistoryItem>)
      modifies this
      ensures historyPrefs == old(historyPrefs)[HistoryKey(currentUserKey) := Doc(EncodeHistory(historyList))]
      ensures DecodeHistory(Stored(historyPrefs, HistoryKey(currentUserKey))) == historyList
      ensures status == old(status) && latestResult == old(latestResult) && history == old(history)
      ensures currentUserKey == old(currentUserKey) && userDisplayName == old(userDisplayName)
      ensures lastCapturedImage == old(lastCapturedImage) && pendingImageUri == old(pendingImageUri)
      ensures pendingUldId == old(pendingUldId) && latestYoloFindings == old(latestYoloFindings)
    {
      var elements := BuildArray(historyList);
      historyPrefs := historyPrefs[HistoryKey(currentUserKey) := Doc(JArr(elements))];
      HistoryRoundTrip(historyList);
    }

    /** `appendHistory`: the new row goes first, the previous rows follow
        unchanged, there is no cap, and the list is persisted. */
    method AppendHistory(result: ScanResult)
      requires Valid()
      modifies this
      ensures Valid()
      ensures history == [ToHistoryItem(result)] + old(history)
      ensures historyPrefs == old(historyPrefs)[HistoryKey(currentUserKey) := Doc(EncodeHistory(history))]
      ensures status == old(status) && latestResult == old(latestResult)
      ensures currentUserKey == old(currentUserKey) && userDisplayName == old(userDisplayName)
      ensures lastCapturedImage == old(lastCapturedImage) && pendingImageUri == old(pendingImageUri)
      ensures pendingUldId == old(pendingUldId) && latestYoloFindings == old(latestYoloFindings)
    {
      var updated := [ToHistoryItem(result)] + history;
      history := updated;
      PersistHistory(updated);
    }

    /** `handleSuccessfulReport`: the result is published, recorded in the
        history, and the pending image is consumed. */
    method HandleSuccessfulReport(report: UldReport, nowMillis: int)
      requires Valid()
      modifies this
      ensures Valid()
      ensures latestResult == Some(BuildResult(report, old(pendingUldId), old(latestYoloFindings), old(pendingImageUri), nowMillis))
      ensures history == [ToHistoryItem(latestResult.value)] + old(history)
      ensures pendingImageUri == None
      ensures historyPrefs == old(historyPrefs)[HistoryKey(currentUserKey) := Doc(EncodeHistory(history))]
      ensures status == old(status) && currentUserKey == old(currentUserKey)
      ensures userDisplayName == old(userDisplayName) && lastCapturedImage == old(lastCapturedImage)
      ensures pendingUldId == old(pendingUldId) && latestYoloFindings == old(latestYoloFindings)
    {
      var result := BuildResult(report, pendingUldId, latestYoloFindings, pendingImageUri, nowMillis);
      latestResult := Some(result);
      AppendHistory(result);
      pendingImageUri := None;
    }

    /** `callApi` once the service has answered: a successful answer with a
        body is handled and reported; anything else is an API error. */
    method CallApi(response: ApiResponse, nowMillis: int)
      requires Valid()
      modifies this
      ensures Valid()
      ensures response.successful && response.body.Some? ==>
        && status == Success(response.body.value)
        && latestResult == Some(BuildResult(response.body.value, old(pendingUldId), old(latestYoloFindings), old(pendingImageUri), nowMillis))
        && history == [ToHistoryItem(latestResult.value)] + old(history)
        && pendingImageUri == None
        && historyPrefs == old(historyPrefs)[HistoryKey(currentUserKey) := Doc(EncodeHistory(history))]
      ensures !(response.successful && response.body.Some?) ==>
        && status == Error("API Error: " + IntToString(response.code) + " " + response.message)
        && latestResult == old(latestResult) && history == old(history)
        && historyPrefs == old(historyPrefs) && pendingImageUri == old(pendingImageUri)
      ensures currentUserKey == old(currentUserKey) && userDisplayName == old(userDisplayName)
      ensures pendingUldId == old(pendingUldId) && latestYoloFindings == old(latestYoloFindings)
      ensures lastCapturedImage == old(lastCapturedImage)
    {
      if response.successful && response.body.Some? {
        HandleSuccessfulReport(response.body.value, nowMillis);
        status := Success(response.body.value);
      } else {
        status := Error("API Error: " + IntToString(response.code) + " " + response.message);
      }
    }

    /** `processImageAndUpload` after detection: a scan without detections is
        sent as one "normal" detection at confidence 1.0; the scan gets the id
        "ULD-PHOTO-" + the time, and the service's answer is handled. */
    method ProcessImageAndUpload(detections: seq<YoloDetection>, idMillis: int, outcome: ApiOutcome,
                                 resultMillis: int, formatConfidence: real -> string)
      requires Valid()
      modifies this
      ensures Valid()
      ensures var sent := if detections == [] then [YoloDetection("normal", 1.0, [])] else detections;
        latestYoloFindings == DetectionsText(Some(sent), formatConfidence)
      ensures pendingUldId == "ULD-PHOTO-" + IntToString(idMillis)
      ensures outcome.IoFailure? ==>
        && status == Error("Processing failed: " + outcome.message)
        && history == old(history) && latestResult == old(latestResult)
        && historyPrefs == old(historyPrefs) && pendingImageUri == old(pendingImageUri)
      ensures outcome.Answered? && outcome.response.successful && outcome.response.body.Some? ==>
        && status == Success(outcome.response.body.value)
        && latestResult == Some(BuildResult(outcome.response.body.value, pendingUldId, latestYoloFindings,
                                            old(pendingImageUri), resultMillis))
        && history == [ToHistoryItem(latestResult.value)] + old(history)
        && pendingImageUri == None
        && historyPrefs == old(historyPrefs)[HistoryKey(currentUserKey) := Doc(EncodeHistory(history))]
      ensures outcome.Answered? && !(outcome.response.successful && outcome.response.body.Some?) ==>
        && status == Error("API Error: " + IntToString(outcome.response.code) + " " + outcome.response.message)
        && history == old(history) && latestResult == old(latestResult)
        && historyPrefs == old(historyPrefs) && pendingImageUri == old(pendingImageUri)
      ensures currentUserKey == old(currentUserKey) && userDisplayName == old(userDisplayName)
      ensures lastCapturedImage == old(lastCapturedImage)
    {
      var sent := detections;
      if |sent| == 0 {
        sent := [YoloDetection("normal", 1.0, [])];
      }
      var yoloFindings := ConvertDetectionsToString(Some(sent), formatConfidence);
      latestYoloFindings := yoloFindings;
      pendingUldId := "ULD-PHOTO-" + IntToString(idMillis);
      if outcome.IoFailure? {
        status := Error("Processing failed: " + outcome.message);
        return;
      }
      CallApi(outcome.response, resultMillis);
    }

    /** `simulateAndUpload`: sends the given id and findings without an image. */
    method SimulateAndUpload(uldId: string, findings: string, outcome: ApiOutcome, resultMillis: int)
      requires Valid()
      modifies this
      ensures Valid()
      ensures pendingUldId == uldId && latestYoloFindings == findings && lastCapturedImage == None
      ensures pendingImageUri == None
      ensures outcome.IoFailure? ==>
        && status == Error("Simulation failed: " + outcome.message)
        && history == old(history) && latestResult == old(latestResult)
        && historyPrefs == old(historyPrefs)
      ensures outcome.Answered? && outcome.response.successful && outcome.response.body.Some? ==>
        && status == Success(outcome.response.body.value)
        && latestResult == Some(BuildResult(outcome.response.body.value, uldId, findings, None, resultMillis))
        && history == [ToHistoryItem(latestResult.value)] + old(history)
        && historyPrefs == old(historyPrefs)[HistoryKey(currentUserKey) := Doc(EncodeHistory(history))]
      ensures outcome.Answered? && !(outcome.response.successful && outcome.response.body.Some?) ==>
        && status == Error("API Error: " + IntToString(outcome.response.code) + " " + outcome.response.message)
        && history == old(history) && latestResult == old(latestResult)
        && historyPrefs == old(historyPrefs)
      ensures currentUserKey == old(currentUserKey) && userDisplayName == old(userDisplayName)
    {
      pendingUldId := uldId;
      latestYoloFindings := findings;
      pendingImageUri := None;
      lastCapturedImage := None;
      if outcome.IoFailure? {
        status := Error("Simulation failed: " + outcome.message);
        return;
      }
      CallApi(outcome.response, resultMillis);
    }

    /** `updateDisplayName`: the name is derived from the identifier, and the
        history is reloaded only when the sanitised key changes. */
    method UpdateDisplayName(identifier: Option<string>)
      requires Valid()
      modifies this
      ensures Valid()
      ensures userDisplayName == DisplayName(identifier, defaultUserName)
      ensures currentUserKey == SanitizeIdentifier(identifier)
      ensures currentUserKey == old(currentUserKey) ==> history == old(history)
      ensures history == DecodeHistory(Stored(historyPrefs, HistoryKey(currentUserKey)))
      ensures historyPrefs == old(historyPrefs) && status == old(status) && latestResult == old(latestResult)
      ensures pendingImageUri == old(pendingImageUri) && pendingUldId == old(pendingUldId)
      ensures latestYoloFindings == old(latestYoloFindings) && lastCapturedImage == old(lastCapturedImage)
    {
      var name := DeriveDisplayName(identifier, defaultUserName);
      userDisplayName := name;
      var newKey := SanitizeIdentifier(identifier);
      SanitizeIdentifierShape(identifier);
      if newKey != currentUserKey {
        currentUserKey := newKey;
        LoadHistoryForCurrentUser();
      }
    }
  }

  /** A user who scans, signs in with another account and signs back in
      finds their history as they left it, with the scan at its head; in
      between, the other account sees the history stored under its own key,
      untouched by the scan. */
  method SwitchUserKeepsHistory(vm: MainViewModel, first: Option<string>, second: Option<string>,
                                report: UldReport, nowMillis: int)
    returns (scanned: seq<ScanHistoryItem>, other: seq<ScanHistoryItem>, restored: seq<ScanHistoryItem>)
    requires vm.Valid()
    modifies vm
    ensures vm.Valid() && vm.currentUserKey == SanitizeIdentifier(first)
    ensures scanned ==
      [ToHistoryItem(BuildResult(report, old(vm.pendingUldId), old(vm.latestYoloFindings), old(vm.pendingImageUri), nowMillis))]
      + DecodeHistory(Stored(old(vm.historyPrefs), HistoryKey(SanitizeIdentifier(first))))
    ensures SanitizeIdentifier(second) != SanitizeIdentifier(first) ==>
      other == DecodeHistory(Stored(old(vm.historyPrefs), HistoryKey(SanitizeIdentifier(second))))
    ensures restored == scanned
  {
    vm.UpdateDisplayName(first);
    vm.HandleSuccessfulReport(report, nowMillis);
    scanned := vm.history;
    ghost var firstKey := HistoryKey(vm.currentUserKey);
    vm.UpdateDisplayName(second);
    other := vm.history;
    if HistoryKey(vm.currentUserKey) == firstKey {
      HistoryKeyInjective(vm.currentUserKey, SanitizeIdentifier(first));
    }
    vm.UpdateDisplayName(first);
    restored := vm.history;
    HistoryRoundTrip(scanned);
  }
}
