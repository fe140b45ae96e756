/** The list-diff callback of the scan-history list
    (ArgosApp/app/src/main/java/com/example/argosapp/ui/history/HistoryAdapter.java):
    two rows are the same scan when time and unit agree, and show the same
    contents when the displayed fields agree. */
module HistoryDiff {
  import opened ScanModel

  /** `areItemsTheSame` */
  predicate AreItemsTheSame(oldItem: ScanHistoryItem, newItem: ScanHistoryItem)
    ensures oldItem == newItem ==> AreItemsTheSame(oldItem, newItem)
    ensures AreItemsTheSame(oldItem, newItem) ==> oldItem.uldId == newItem.uldId
  {
    oldItem.timestamp == newItem.timestamp && oldItem.uldId == newItem.uldId
  }

  /** `areContentsTheSame` */
  predicate AreContentsTheSame(oldItem: ScanHistoryItem, newItem: ScanHistoryItem)
    ensures oldItem == newItem ==> AreContentsTheSame(oldItem, newItem)
    ensures AreContentsTheSame(oldItem, newItem) && AreItemsTheSame(oldItem, newItem) ==>
      oldItem.(summary := newItem.summary, severityLabel := newItem.severityLabel) == newItem
  {
    && oldItem.severityKey == newItem.severityKey
    && oldItem.damageTitle == newItem.damageTitle
    && oldItem.suggestion == newItem.suggestion
    && oldItem.imageUri == newItem.imageUri
  }

  /** The fields `areContentsTheSame` ignores: a row with another summary and
      severity label, everything else kept. */
  function Relabel(item: ScanHistoryItem, summary: string, severityLabel: string): (r: ScanHistoryItem)
    ensures r.summary == summary && r.severityLabel == severityLabel
  {
    item.(summary := summary, severityLabel := severityLabel)
  }

  /** Both predicates are equivalence relations, as the list differ needs. */
  lemma DiffPredicatesAreEquivalences(a: ScanHistoryItem, b: ScanHistoryItem, c: ScanHistoryItem)
    ensures AreItemsTheSame(a, a) && AreContentsTheSame(a, a)
    ensures AreItemsTheSame(a, b) ==> AreItemsTheSame(b, a)
    ensures AreContentsTheSame(a, b) ==> AreContentsTheSame(b, a)
    ensures AreItemsTheSame(a, b) && AreItemsTheSame(b, c) ==> AreItemsTheSame(a, c)
    ensures AreContentsTheSame(a, b) && AreContentsTheSame(b, c) ==> AreContentsTheSame(a, c)
  {
  }

  /** Rows that differ only in summary or severity label are the same item
      with the same contents, so the list does not redraw them. */
  lemma RelabelIsInvisible(item: ScanHistoryItem, summary: string, severityLabel: string)
    ensures AreItemsTheSame(item, Relabel(item, summary, severityLabel))
    ensures AreContentsTheSame(item, Relabel(item, summary, severityLabel))
  {
  }

  /** Together the two predicates see every field except the summary and
      the severity label: a pair passing both is equal up to those two. */
  lemma BothPredicatesMeansEqualUpToLabels(a: ScanHistoryItem, b: ScanHistoryItem)
    ensures AreItemsTheSame(a, b) && AreContentsTheSame(a, b) <==> Relabel(a, b.summary, b.severityLabel) == b
  {
  }
}
