/** The gate in front of destructive operations: delete, export and import are
    refused for a demo session unless the user is a system administrator. */
module MutationGate {
  import opened Common
  import opened Storage
  import opened SessionClassifier

  /** Outcome of a guarded operation: permitted, or refused with the warning
      text shown to the user. */
  datatype Decision = Permitted | Refused(message: string)

  const DeleteMessage: string := "デモモードでは、データの削除はできません。"
  const ExportMessage: string := "デモモードでは、データのエクスポートはできません。"
  const ImportMessage: string := "デモモードでは、データのインポートはできません。\nOCR/AI機能のコストがかかるため、制限しています。"
  const GenericMessage: string := "デモモードでは、この操作は実行できません。"

  /** The warning table of `showDemoWarning`. */
  const WarningMessages: map<string, string> :=
    map["delete" := DeleteMessage, "export" := ExportMessage, "import" := ImportMessage]

  /** `showDemoWarning(action)`: the table entry, or the generic text. */
  function WarningMessage(action: string): (m: string)
    ensures action == "delete" ==> m == DeleteMessage
    ensures action == "export" ==> m == ExportMessage
    ensures action == "import" ==> m == ImportMessage
    ensures action !in {"delete", "export", "import"} ==> m == GenericMessage
  {
    if action in WarningMessages then WarningMessages[action] else GenericMessage
  }

  /** The shared guard `isDemoMode() && !isSystemAdmin()`. */
  predicate Restricted(cu: Option<User>)
  {
    IsDemoMode(cu) && !IsSystemAdmin(cu)
  }

  /** The decision every gated operation takes: refused, with the table text
      for the action, exactly for a demo session that is not an administrator's. */
  function Guard(cu: Option<User>, action: string): (d: Decision)
    ensures d.Refused? <==> cu.Some? && (cu.value.companyCode in DemoCompanies || cu.value.isDemoMode)
                             && cu.value.role != SystemAdminRole
    ensures d.Refused? ==> d.message == WarningMessage(action)
  {
    if Restricted(cu) then Refused(WarningMessage(action)) else Permitted
  }

  /** `demoExportData()`. */
  function DemoExportData(cu: Option<User>): (d: Decision)
    ensures d.Refused? <==> cu.Some? && (cu.value.companyCode in DemoCompanies || cu.value.isDemoMode)
                             && cu.value.role != SystemAdminRole
    ensures d.Refused? ==> d.message == ExportMessage
  {
    Guard(cu, "export")
  }

  /** `demoImportData()`. */
  function DemoImportData(cu: Option<User>): (d: Decision)
    ensures d.Refused? <==> cu.Some? && (cu.value.companyCode in DemoCompanies || cu.value.isDemoMode)
                             && cu.value.role != SystemAdminRole
    ensures d.Refused? ==> d.message == ImportMessage
  {
    Guard(cu, "import")
  }

  /** `demoDeleteFromLocalStorage(key)`: when refused nothing changes; when
      permitted exactly `key` is removed from the persistent store. */
  method DemoDeleteFromLocalStorage(st: WebStorage, key: string, parseUser: string -> Option<User>)
    returns (d: Decision)
    modifies st
    ensures d == Guard(SessionUser(old(st.session), parseUser), "delete")
    ensures d.Refused? ==> d.message == DeleteMessage && st.persistent == old(st.persistent)
    ensures d.Permitted? ==> st.persistent == old(st.persistent) - {key}
    ensures st.session == old(st.session)
  {
    d := Guard(SessionUser(st.session, parseUser), "delete");
    if d.Permitted? {
      st.persistent := st.persistent - {key};
    }
  }

  /** The three cases of the gate for a delete: a demo user without the
      administrator role is refused with the delete text; an administrator in
      a demo company and a non-demo user are permitted. */
  lemma GateCases(u: User)
    ensures u.companyCode == "TAMJ" && u.role == "staff" ==> Guard(Some(u), "delete") == Refused(DeleteMessage)
    ensures u.isDemoMode && u.role == SystemAdminRole ==> Guard(Some(u), "delete") == Permitted
    ensures !IsDemoMode(Some(u)) ==> Guard(Some(u), "delete") == Permitted
    ensures Guard(None, "delete") == Permitted
  {
  }

  /** Every refusal carries one of the four fixed texts. */
  lemma RefusalTextIsFromTable(cu: Option<User>, action: string)
    ensures Guard(cu, action).Refused? ==>
      Guard(cu, action).message in {DeleteMessage, ExportMessage, ImportMessage, GenericMessage}
  {
  }
}
