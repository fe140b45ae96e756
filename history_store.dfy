/** The per-user scan history as the mobile app keeps it in its preferences
    file (`persistHistory` and `loadHistoryForCurrentUser` of
    ArgosApp/app/src/main/java/com/example/argosapp/MainViewModel.java): a JSON
    array of one object per scan, stored under "history_" + user key. */
module HistoryStore {
  import opened Wrappers
  import opened Json
  import opened ScanModel

  const KeyHistoryPrefix: string := "history_"

  /** The fields of one stored history item. */
  const ItemFields: set<string> :=
    {"uldId", "severityKey", "severityLabel", "summary", "damageTitle", "suggestion", "imageUri", "timestamp"}

  /** The preferences entry of a user's history. */
  function HistoryKey(userKey: string): (key: string)
    ensures |key| == |KeyHistoryPrefix| + |userKey|
    ensures key[..|KeyHistoryPrefix|] == KeyHistoryPrefix && key[|KeyHistoryPrefix|..] == userKey
  {
    KeyHistoryPrefix + userKey
  }

  /** Different users never share an entry. */
  lemma HistoryKeyInjective(a: string, b: string)
    requires HistoryKey(a) == HistoryKey(b)
    ensures a == b
  {
    assert a == HistoryKey(a)[|KeyHistoryPrefix|..];
  }

  /** The JSON object `persistHistory` writes for one item. */
  function EncodeItem(item: ScanHistoryItem): (obj: Json)
    ensures obj.JObj? && obj.fields.Keys == ItemFields
    ensures forall k :: k in obj.fields && k != "timestamp" ==> obj.fields[k].JStr?
  {
    JObj(map[
      "uldId" := JStr(item.uldId),
      "severityKey" := JStr(item.severityKey),
      "severityLabel" := JStr(item.severityLabel),
      "summary" := JStr(item.summary),
      "damageTitle" := JStr(item.damageTitle),
      "suggestion" := JStr(item.suggestion),
      "imageUri" := JStr(item.imageUri),
      "timestamp" := JNum(item.timestamp)])
  }

  /** The item `loadHistoryForCurrentUser` reads from one object, with its
      per-field fallbacks. */
  function DecodeItem(obj: map<string, Json>): (item: ScanHistoryItem)
    ensures obj.Keys !! ItemFields ==> item == ScanHistoryItem("", "unknown", "", "", "", "", "", 0)
    ensures "uldId" in obj && obj["uldId"].JStr? ==> item.uldId == obj["uldId"].s
    ensures "timestamp" in obj && obj["timestamp"].JNum? ==> item.timestamp == obj["timestamp"].n
  {
    ScanHistoryItem(
      OptString(obj, "uldId", ""),
      OptString(obj, "severityKey", "unknown"),
      OptString(obj, "severityLabel", ""),
      OptString(obj, "summary", ""),
      OptString(obj, "damageTitle", ""),
      OptString(obj, "suggestion", ""),
      OptString(obj, "imageUri", ""),
      OptLong(obj, "timestamp", 0))
  }

  lemma DecodeEncodeItem(item: ScanHistoryItem)
    ensures EncodeItem(item).JObj? && DecodeItem(EncodeItem(item).fields) == item
  {
  }

  /** An object missing every field reads as an "unknown" scan at time 0. */
  lemma DecodeEmptyObject()
    ensures DecodeItem(map[]) == ScanHistoryItem("", "unknown", "", "", "", "", "", 0)
  {
  }

  /** The array `persistHistory` writes. */
  function EncodeHistory(items: seq<ScanHistoryItem>): (doc: Json)
    ensures doc.JArr? && |doc.items| == |items|
  {
    JArr(seq(|items|, k requires 0 <= k < |items| => EncodeItem(items[k])))
  }

  /** `loadHistoryForCurrentUser` on the stored entry: nothing stored, an empty
      string, text that is not JSON, a document that is not an array or an
      array holding a non-object (each a `JSONException`) all read as the
      empty history. */
  function DecodeHistory(stored: Option<Blob>): (r: seq<ScanHistoryItem>)
    ensures r != [] ==>
      && stored.Some? && stored.value.Doc? && stored.value.doc.JArr?
      && |r| == |stored.value.doc.items|
      && forall k :: 0 <= k < |r| ==> stored.value.doc.items[k].JObj?
  {
    match stored
    case Some(Doc(JArr(elements))) =>
      if forall k :: 0 <= k < |elements| ==> elements[k].JObj? then
        seq(|elements|, k requires 0 <= k < |elements| => DecodeItem(elements[k].fields))
      else []
    case _ => []
  }

  /** Reading back what was written gives the same items, field by field, in
      the same order. */
  lemma HistoryRoundTrip(items: seq<ScanHistoryItem>)
    ensures DecodeHistory(Some(Doc(EncodeHistory(items)))) == items
  {
    var elements := EncodeHistory(items).items;
    forall k | 0 <= k < |items| ensures elements[k].JObj? && DecodeItem(elements[k].fields) == items[k] {
      DecodeEncodeItem(items[k]);
    }
  }

  /** One malformed element loses the whole stored history. */
  lemma NonObjectElementLosesHistory(elements: seq<Json>, k: nat)
    requires k < |elements| && !elements[k].JObj?
    ensures DecodeHistory(Some(Doc(JArr(elements)))) == []
  {
  }

  /** The loop of `loadHistoryForCurrentUser` over a parsed array; `None`
      when `getJSONObject` throws on a non-object element. */
  method LoadItems(elements: seq<Json>) returns (loaded: Option<seq<ScanHistoryItem>>)
    ensures loaded.Some? <==> forall k :: 0 <= k < |elements| ==> elements[k].JObj?
    ensures loaded.Some? ==> loaded.value == DecodeHistory(Some(Doc(JArr(elements))))
  {
    var items: seq<ScanHistoryItem> := [];
    var i := 0;
    while i < |elements|
      invariant 0 <= i <= |elements|
      invariant |items| == i
      invariant forall k :: 0 <= k < i ==> elements[k].JObj? && items[k] == DecodeItem(elements[k].fields)
    {
      if !elements[i].JObj? {
        return None;
      }
      items := items + [DecodeItem(elements[i].fields)];
      i := i + 1;
    }
    return Some(items);
  }

  /** The loop of `persistHistory`: one object per item, in list order. */
  method BuildArray(items: seq<ScanHistoryItem>) returns (elements: seq<Json>)
    ensures JArr(elements) == EncodeHistory(items)
  {
    elements := [];
    for i := 0 to |items|
      invariant elements == EncodeHistory(items[..i]).items
    {
      assert items[..i + 1][..i] == items[..i];
      elements := elements + [EncodeItem(items[i])];
    }
    assert items[..|items|] == items;
  }
}
