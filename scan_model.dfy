/** The records the mobile scan pipeline passes around (package
    com.example.argosapp.model and .data). Java's nullable references are
    `Option`s; the `@NonNull` ones are plain values. */
module ScanModel {
  import opened Wrappers

  /** One detection of the on-device pipeline; `box` is the normalised box. */
  datatype YoloDetection = YoloDetection(className: string, confidence: real, box: seq<real>)

  /** The report the analysis service answers with; each field may be null. */
  datatype UldReport = UldReport(
    uldId: Option<string>,
    status: Option<string>,
    damageCategory: Option<string>,
    maintenanceSuggestion: Option<string>)

  datatype DamageDetail = DamageDetail(title: string, severityKey: string, severityLabel: string, suggestion: string)

  /** What the result screen shows for one scan. */
  datatype ScanResult = ScanResult(
    uldId: string,
    severityKey: string,
    severityLabel: string,
    severityDescription: string,
    primaryDamageTitle: string,
    primarySuggestion: string,
    yoloSummary: string,
    imageUri: Option<string>,
    timestamp: int,
    damageDetails: seq<DamageDetail>)

  /** One row of the scan history, as stored per user. */
  datatype ScanHistoryItem = ScanHistoryItem(
    uldId: string,
    severityKey: string,
    severityLabel: string,
    summary: string,
    damageTitle: string,
    suggestion: string,
    imageUri: string,
    timestamp: int)
}
