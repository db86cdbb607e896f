/**
 * The contract card's audit state: the two audit fields and the two
 * "generating" flags, changed by the two generate handlers. Each handler
 * awaits its work, so it is split into a `Begin` step (up to the `await`)
 * and a `Finish` step (from it on, with the work's result as input).
 */
module ContractCard {
  import opened Wrappers
  import opened ContractAuditDialog

  class CardState {
    var auditDialogOpen: bool
    var isGeneratingPermissionData: bool
    var isGeneratingAuditMarkdown: bool
    var auditData: AuditData

    /**
     * What the buttons of the audit dialog guarantee: a report exists or is
     * being generated only with permission data present, and permission data
     * is generated only while none is present.
     */
    predicate Valid()
      reads this
    {
      && (Present(auditData.auditMarkdown) ==> Present(auditData.permissionData))
      && (isGeneratingAuditMarkdown ==> Present(auditData.permissionData))
      && (isGeneratingPermissionData ==> !Present(auditData.permissionData))
    }

    /** The dialog's flags for this card's state. */
    function DialogView(): DialogFlags
      reads this
    {
      Flags(Some(auditData), Some(isGeneratingPermissionData), Some(isGeneratingAuditMarkdown))
    }

    constructor ()
      ensures auditData == NoAuditData && !isGeneratingPermissionData && !isGeneratingAuditMarkdown && !auditDialogOpen
      ensures Valid()
    {
      auditDialogOpen := false;
      isGeneratingPermissionData := false;
      isGeneratingAuditMarkdown := false;
      auditData := NoAuditData;
    }

    /** The Audit button and the dialog's `onOpenChange`. */
    method SetAuditDialogOpen(open: bool)
      modifies this
      ensures auditDialogOpen == open
      ensures auditData == old(auditData)
      ensures isGeneratingPermissionData == old(isGeneratingPermissionData)
      ensures isGeneratingAuditMarkdown == old(isGeneratingAuditMarkdown)
    {
      auditDialogOpen := open;
    }

    /** `handleGeneratePermissionData` up to its `await`, run by the enabled Generate button. */
    method BeginGeneratePermissionData()
      modifies this
      requires Valid() && DialogView().permissionGenerateEnabled
      ensures Valid()
      ensures isGeneratingPermissionData
      ensures auditData == old(auditData) && isGeneratingAuditMarkdown == old(isGeneratingAuditMarkdown)
      ensures auditDialogOpen == old(auditDialogOpen)
    {
      isGeneratingPermissionData := true;
    }

    /**
     * The rest of the handler: on success only `permissionData` changes; on
     * an error nothing does; `finally` lowers the flag either way.
     */
    method FinishGeneratePermissionData(generated: Option<string>)
      modifies this
      requires Valid() && isGeneratingPermissionData
      ensures Valid()
      ensures !isGeneratingPermissionData && isGeneratingAuditMarkdown == old(isGeneratingAuditMarkdown)
      ensures generated.Some? ==> auditData == old(auditData).(permissionData := generated)
      ensures generated.None? ==> auditData == old(auditData)
      ensures auditData.auditMarkdown == old(auditData.auditMarkdown)
      ensures auditDialogOpen == old(auditDialogOpen)
    {
      if generated.Some? {
        auditData := auditData.(permissionData := generated);
      }
      isGeneratingPermissionData := false;
    }

    /** `handleGenerateAuditMarkdown` up to its `await`, run by the enabled Generate button. */
    method BeginGenerateAuditMarkdown()
      modifies this
      requires Valid() && DialogView().reportGenerateEnabled
      ensures Valid()
      ensures isGeneratingAuditMarkdown
      ensures auditData == old(auditData) && isGeneratingPermissionData == old(isGeneratingPermissionData)
      ensures auditDialogOpen == old(auditDialogOpen)
    {
      isGeneratingAuditMarkdown := true;
    }

    /** The rest of the handler: on success only `auditMarkdown` changes; the flag drops either way. */
    method FinishGenerateAuditMarkdown(generated: Option<string>)
      modifies this
      requires Valid() && isGeneratingAuditMarkdown
      ensures Valid()
      ensures !isGeneratingAuditMarkdown && isGeneratingPermissionData == old(isGeneratingPermissionData)
      ensures generated.Some? ==> auditData == old(auditData).(auditMarkdown := generated)
      ensures generated.None? ==> auditData == old(auditData)
      ensures auditData.permissionData == old(auditData.permissionData)
      ensures auditDialogOpen == old(auditDialogOpen)
    {
      if generated.Some? {
        auditData := auditData.(auditMarkdown := generated);
      }
      isGeneratingAuditMarkdown := false;
    }
  }

  /** Generating both artefacts in turn, each succeeding, leaves the contract fully audited. */
  method AuditFromScratch(card: CardState, permissionData: string, report: string)
    modifies card
    requires card.Valid() && card.auditData == NoAuditData && !card.isGeneratingPermissionData && !card.isGeneratingAuditMarkdown
    requires permissionData != "" && report != ""
    ensures card.Valid() && card.DialogView().isFullyAudited
    ensures card.auditData == AuditData(Some(permissionData), Some(report))
  {
    card.BeginGeneratePermissionData();
    card.FinishGeneratePermissionData(Some(permissionData));
    card.BeginGenerateAuditMarkdown();
    card.FinishGenerateAuditMarkdown(Some(report));
  }
}
