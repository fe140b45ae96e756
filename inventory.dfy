/** The audit-log modal of the inventory page
    (ArgosDashboard/frontend/src/pages/InventoryManagement.jsx): the stored log
    of a cargo unit, or a single "no activity" entry for a unit without one. */
module AuditLog {
  import opened Wrappers

  /** The stored audit logs, keyed by cargo id. */
  const HistoryLogs: map<string, seq<string>> := map[
    "AKE12345BA" := [
      "[2025-11-10 09:15 (TPE)] - Source: Kiosk-TPE-01 (Fixed Scanner) | Status: Serviceable (GREEN).",
      "[2025-11-11 14:30 (SFO)] - Source: Agent Smith (App) | Status: Serviceable (GREEN).",
      "[2025-11-11 14:31 (SFO)] - (!!!) System Alert: Detected scan outside warehouse boundary (External Integration).",
      "[2025-11-12 08:00 (SFO)] - Source: Scan Bay 03 (Automated) | Status: AI Inspection in progress...",
      "[2025-11-12 08:01 (SFO)] - Source: ARGOS AI | Status: Damaged (RED) - Forklift Puncture.",
      "[2025-11-12 09:00 (SFO)] - Status: In Repair (Maintenance)."
    ]
  ]

  const NoActivity: string := "[2025-11-10 10:00] - No registered activity in audit log."

  datatype HistoryModal = HistoryModal(uldId: string, logs: seq<string>)

  /** `HISTORY_LOGS[id] || [sentinel]`: a stored list is an array, which is
      truthy even when empty. */
  function LogsFor(logs: map<string, seq<string>>, id: string): (r: seq<string>)
    ensures id in logs ==> r == logs[id]
    ensures id !in logs ==> r == [NoActivity]
  {
    if id in logs then logs[id] else [NoActivity]
  }

  /** The modal always shows at least one line. */
  lemma LogsForNonEmpty(logs: map<string, seq<string>>, id: string)
    requires forall k :: k in logs ==> logs[k] != []
    ensures |LogsFor(logs, id)| >= 1
  {
  }

  /** The unit with a stored log shows its six entries, oldest first, ending
      with the repair; any other unit shows the sentinel alone. */
  lemma StoredLogExample(id: string)
    ensures |LogsFor(HistoryLogs, "AKE12345BA")| == 6
    ensures LogsFor(HistoryLogs, "AKE12345BA")[5] == "[2025-11-12 09:00 (SFO)] - Status: In Repair (Maintenance)."
    ensures id != "AKE12345BA" ==> LogsFor(HistoryLogs, id) == [NoActivity]
  {
  }

  class InventoryPage {
    var historyModal: Option<HistoryModal>

    constructor ()
      ensures historyModal == None
    {
      historyModal := None;
    }

    /** `openHistory(row)`: shows the log of the row's unit under its id. */
    method OpenHistory(rowId: string)
      modifies this
      ensures historyModal.Some?
      ensures historyModal.value.uldId == rowId
      ensures rowId in HistoryLogs ==> historyModal.value.logs == HistoryLogs[rowId]
      ensures rowId !in HistoryLogs ==> historyModal.value.logs == [NoActivity]
    {
      historyModal := Some(HistoryModal(rowId, LogsFor(HistoryLogs, rowId)));
    }

    /** `closeHistory()` */
    method CloseHistory()
      modifies this
      ensures historyModal == None
    {
      historyModal := None;
    }
  }
}
