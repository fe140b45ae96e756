/** The client of the remote detector
    (ArgosApp/app/src/main/java/com/example/argosapp/yolo/YoloProcessor.java):
    the detector's answer is turned into the app's detections, with class ids
    mapped to names and null entries skipped. */
module Detector {
  import opened Wrappers
  import opened Text
  import opened ScanModel

  /** The names of the detector's first three class ids. */
  const FallbackLabels: seq<string> := ["normal", "squash", "breach"]

  /** One entry of the detector's answer; the Java fields `box_norm` and
      `label` may be null. */
  datatype RemoteDetection = RemoteDetection(boxNorm: Option<seq<real>>, confidence: real, classId: int, sentLabel: Option<string>)

  /** The detector's answer: a possibly null list of possibly null entries. */
  datatype RemoteDetectionResponse = RemoteDetectionResponse(detections: Option<seq<Option<RemoteDetection>>>, filename: Option<string>)

  /** `mapLabel`: a known class id wins, then a non-blank label sent by the
      detector, then "class_<id>". */
  function MapLabel(classId: int, fallback: Option<string>): (r: string)
    ensures 0 <= classId < |FallbackLabels| ==> r == FallbackLabels[classId]
    ensures !(0 <= classId < |FallbackLabels|) && fallback.Some? && JavaTrim(fallback.value) != [] ==> r == fallback.value
    ensures !(0 <= classId < |FallbackLabels|) && (fallback.None? || JavaTrim(fallback.value) == []) ==>
      r == "class_" + IntToString(classId)
  {
    if 0 <= classId < |FallbackLabels| then FallbackLabels[classId]
    else if fallback.Some? && JavaTrim(fallback.value) != [] then fallback.value
    else "class_" + IntToString(classId)
  }

  /** Every detection gets a name that is not blank, and the known ids get
      distinct names. */
  lemma {:induction false} MapLabelNeverBlank(classId: int, fallback: Option<string>)
    ensures JavaTrim(MapLabel(classId, fallback)) != []
    ensures forall other :: 0 <= classId < 3 && 0 <= other < 3 && other != classId ==>
      MapLabel(other, fallback) != MapLabel(classId, fallback)
  {
    var r := MapLabel(classId, fallback);
    if 0 <= classId < |FallbackLabels| {
      assert r[0] == 'n' || r[0] == 's' || r[0] == 'b';
      TrimKeepsInnerChar(r, IsJavaTrimmable, 0);
    } else if !(fallback.Some? && JavaTrim(fallback.value) != []) {
      assert r[0] == 'c';
      TrimKeepsInnerChar(r, IsJavaTrimmable, 0);
    }
    forall other | 0 <= classId < 3 && 0 <= other < 3 && other != classId
      ensures MapLabel(other, fallback) != MapLabel(classId, fallback)
    {
      assert MapLabel(other, fallback)[0] != MapLabel(classId, fallback)[0];
    }
  }

  /** One entry as the app's detection; a null box becomes the empty box. */
  function MapDetection(d: RemoteDetection): (r: YoloDetection)
    ensures r.confidence == d.confidence
    ensures d.boxNorm.Some? ==> r.box == d.boxNorm.value
    ensures d.boxNorm.None? ==> r.box == []
  {
    YoloDetection(MapLabel(d.classId, d.sentLabel), d.confidence, d.boxNorm.GetOr([]))
  }

  /** The non-null entries, in order. */
  function Present(entries: seq<Option<RemoteDetection>>): seq<RemoteDetection>
  {
    if entries == [] then []
    else
      var last := entries[|entries| - 1];
      Present(entries[..|entries| - 1]) + (if last.Some? then [last.value] else [])
  }

  /** Skipping null entries keeps the others in order: it distributes over
      concatenation. */
  lemma {:induction false} PresentAppend(a: seq<Option<RemoteDetection>>, b: seq<Option<RemoteDetection>>)
    ensures Present(a + b) == Present(a) + Present(b)
    decreases |b|
  {
    if b == [] {
      assert a + b == a;
    } else {
      var last := b[|b| - 1];
      var init := b[..|b| - 1];
      assert (a + b)[..|a + b| - 1] == a + init;
      PresentAppend(a, init);
    }
  }

  /** Exactly the null entries are dropped. */
  lemma {:induction false} PresentCount(entries: seq<Option<RemoteDetection>>)
    ensures |Present(entries)| == |entries| - NullCount(entries)
    ensures (forall k :: 0 <= k < |entries| ==> entries[k].Some?) ==>
      Present(entries) == seq(|entries|, k requires 0 <= k < |entries| => entries[k].value)
  {
    if entries != [] {
      var init := entries[..|entries| - 1];
      PresentCount(init);
    }
  }

  function NullCount(entries: seq<Option<RemoteDetection>>): nat
  {
    if entries == [] then 0
    else NullCount(entries[..|entries| - 1]) + (if entries[|entries| - 1].None? then 1 else 0)
  }

  /** What `mapDetections` returns: one detection per non-null entry. */
  function MappedDetections(response: RemoteDetectionResponse): (r: seq<YoloDetection>)
    ensures response.detections.None? ==> r == []
    ensures response.detections.Some? ==> |r| == |Present(response.detections.value)|
  {
    if response.detections.None? then []
    else
      var present := Present(response.detections.value);
      seq(|present|, k requires 0 <= k < |present| => MapDetection(present[k]))
  }

  /** `mapDetections`: the loop over the entries. */
  method MapDetections(response: RemoteDetectionResponse) returns (mapped: seq<YoloDetection>)
    ensures mapped == MappedDetections(response)
  {
    if response.detections.None? || |response.detections.value| == 0 {
      return [];
    }
    var entries := response.detections.value;
    mapped := [];
    for i := 0 to |entries|
      invariant var present := Present(entries[..i]);
        mapped == seq(|present|, k requires 0 <= k < |present| => MapDetection(present[k]))
    {
      assert entries[..i + 1][..i] == entries[..i];
      if entries[i].Some? {
        mapped := mapped + [MapDetection(entries[i].value)];
      }
    }
    assert entries[..|entries|] == entries;
  }

  /** A well-formed answer keeps every detection's confidence and box and
      names each by its class. */
  lemma MappedDetectionsOfWellFormed(response: RemoteDetectionResponse)
    requires response.detections.Some?
    requires forall k :: 0 <= k < |response.detections.value| ==> response.detections.value[k].Some?
    ensures var entries := response.detections.value;
      var r := MappedDetections(response);
      && |r| == |entries|
      && forall k :: 0 <= k < |r| ==>
        && r[k].confidence == entries[k].value.confidence
        && r[k].className == MapLabel(entries[k].value.classId, entries[k].value.sentLabel)
        && (entries[k].value.boxNorm.Some? ==> r[k].box == entries[k].value.boxNorm.value)
  {
    PresentCount(response.detections.value);
  }

  /** How the call to the detector ended. */
  datatype DetectOutcome = Responded(successful: bool, body: Option<RemoteDetectionResponse>) | CallFailed

  /** `processImage`: no bitmap, a failed call or an unsuccessful or empty
      answer all give no detection. */
  function ProcessImage(hasBitmap: bool, outcome: DetectOutcome): (r: seq<YoloDetection>)
    ensures !hasBitmap || outcome.CallFailed? ==> r == []
    ensures hasBitmap && outcome.Responded? && !(outcome.successful && outcome.body.Some?) ==> r == []
    ensures hasBitmap && outcome.Responded? && outcome.successful && outcome.body.Some? ==>
      r == MappedDetections(outcome.body.value)
  {
    if !hasBitmap then []
    else match outcome
      case CallFailed => []
      case Responded(successful, body) =>
        if successful && body.Some? then MappedDetections(body.value) else []
  }

  /** The detections reach the app only from a successful answer with at
      least one non-null entry. */
  lemma ProcessImageNonEmpty(hasBitmap: bool, outcome: DetectOutcome)
    ensures ProcessImage(hasBitmap, outcome) != [] <==>
      && hasBitmap && outcome.Responded? && outcome.successful && outcome.body.Some?
      && outcome.body.value.detections.Some?
      && NullCount(outcome.body.value.detections.value) < |outcome.body.value.detections.value|
  {
    if hasBitmap && outcome.Responded? && outcome.successful && outcome.body.Some?
       && outcome.body.value.detections.Some? {
      PresentCount(outcome.body.value.detections.value);
    }
  }
}
