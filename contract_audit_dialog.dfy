/**
 * The contract audit dialog: the presence flags it derives from the
 * contract's audit data, and the rules that enable its Download and
 * Generate buttons.
 */
module ContractAuditDialog {
  import opened Wrappers

  /** The two audit artefacts; null while not generated. */
  datatype AuditData = AuditData(permissionData: Option<string>, auditMarkdown: Option<string>)

  const NoAuditData: AuditData := AuditData(None, None)

  /** `!!field`: non-null and non-empty. */
  predicate Present(field: Option<string>) {
    field.Some? && field.value != ""
  }

  datatype DialogFlags = DialogFlags(
    hasPermissionData: bool, hasAuditMarkdown: bool, isFullyAudited: bool,
    permissionDownloadEnabled: bool, permissionGenerateEnabled: bool,
    reportDownloadEnabled: bool, reportGenerateEnabled: bool)

  /**
   * What the dialog shows for its props; a missing `auditData` and missing
   * generating flags take their defaults (both fields null, not generating).
   */
  function Flags(auditData: Option<AuditData>, generatingPermission: Option<bool>, generatingReport: Option<bool>): (f: DialogFlags)
    ensures var d := auditData.GetOr(NoAuditData);
            && (auditData.None? ==> !f.hasPermissionData && !f.hasAuditMarkdown)
            && (f.hasPermissionData <==> Present(d.permissionData))
            && (f.hasAuditMarkdown <==> Present(d.auditMarkdown))
            && (f.isFullyAudited <==> Present(d.permissionData) && Present(d.auditMarkdown))
            && (f.permissionDownloadEnabled <==> Present(d.permissionData))
            && (f.reportDownloadEnabled <==> Present(d.auditMarkdown))
            && (f.permissionGenerateEnabled <==> !generatingPermission.GetOr(false) && !Present(d.permissionData))
            && (f.reportGenerateEnabled <==>
                  !generatingReport.GetOr(false) && !Present(d.auditMarkdown) && Present(d.permissionData))
  {
    var d := auditData.GetOr(NoAuditData);
    var hasPermissionData := Present(d.permissionData);
    var hasAuditMarkdown := Present(d.auditMarkdown);
    DialogFlags(
      hasPermissionData, hasAuditMarkdown, hasPermissionData && hasAuditMarkdown,
      hasPermissionData, !(generatingPermission.GetOr(false) || hasPermissionData),
      hasAuditMarkdown, !(generatingReport.GetOr(false) || hasAuditMarkdown || !hasPermissionData))
  }

  /** A report can be requested only once permission data exists, and never both Generate buttons at once. */
  lemma GenerateButtonsExclusive(auditData: Option<AuditData>, gp: Option<bool>, gr: Option<bool>)
    ensures var f := Flags(auditData, gp, gr);
            !(f.permissionGenerateEnabled && f.reportGenerateEnabled)
            && (f.reportGenerateEnabled ==> f.hasPermissionData)
  {
  }

  /** A fully audited contract offers both downloads and neither Generate button. */
  lemma FullyAuditedIsFinal(auditData: Option<AuditData>, gp: Option<bool>, gr: Option<bool>)
    ensures var f := Flags(auditData, gp, gr);
            f.isFullyAudited ==>
              f.permissionDownloadEnabled && f.reportDownloadEnabled
              && !f.permissionGenerateEnabled && !f.reportGenerateEnabled
  {
  }
}
