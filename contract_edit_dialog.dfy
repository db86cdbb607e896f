/**
 * The contract edit dialog: the schema its fields must satisfy, the values
 * it starts from, and `onSubmit`, whose awaited `updateContract` call splits
 * it into `BeginSubmit` and `CompleteSubmit`.
 */
module ContractEditDialog {
  import opened Wrappers
  import opened ApiTypes
  import opened EthAddress

  datatype EditValues = EditValues(contractName: string, description: string, address: string, status: string)

  /** `z.enum(['pending', 'in_progress', 'completed'])`. */
  predicate ValidStatus(s: string) {
    s == "pending" || s == "in_progress" || s == "completed"
  }

  /** `FormSchema`. */
  predicate ValidEdit(v: EditValues) {
    |v.contractName| >= 3 && |v.description| >= 5 && MatchesEthPattern(v.address) && ValidStatus(v.status)
  }

  /** The form's `defaultValues` (and its reset on opening): the contract's own fields. */
  function DefaultsFor(c: Contract): (v: EditValues)
    ensures v.contractName == c.contractName && v.address == c.address && v.status == c.status
    ensures c.description.Some? ==> v.description == c.description.value
    ensures c.description.None? ==> v.description == ""
  {
    EditValues(c.contractName, c.description.GetOr(""), c.address, c.status)
  }

  /** A contract without a description cannot be saved until one is typed. */
  lemma MissingDescriptionBlocksSave(c: Contract)
    requires c.description.None?
    ensures !ValidEdit(DefaultsFor(c))
  {
  }

  /** The content argument of `updateContract`: each field optional. */
  datatype ContractUpdate = ContractUpdate(
    contractName: Option<string>, description: Option<string>, address: Option<string>, status: Option<string>,
    permissionData: Option<string>, auditMarkdown: Option<string>, score: Option<real>)

  /** What `onSubmit` sends: the four edited fields and nothing else. */
  function SubmitPayload(v: EditValues): (u: ContractUpdate)
    ensures u.contractName == Some(v.contractName) && u.description == Some(v.description)
    ensures u.address == Some(v.address) && u.status == Some(v.status)
    ensures u.permissionData.None? && u.auditMarkdown.None? && u.score.None?
  {
    ContractUpdate(Some(v.contractName), Some(v.description), Some(v.address), Some(v.status), None, None, None)
  }

  /** What the awaited `updateContract` gives: an `{ error }` object, a success, or a thrown error. */
  datatype UpdateResult = UpdateError(error: string) | UpdateOk | UpdateThrew(message: string)

  /** The dialog's outward effects, in order. */
  datatype Effect = SuccessCalled | OpenChanged(open: bool)

  datatype UpdateRequest = UpdateRequest(id: string, content: ContractUpdate)

  class EditDialog {
    const contract: Contract
    const hasOnSuccess: bool
    var isSubmitting: bool
    var error: Option<string>
    var requests: seq<UpdateRequest>
    var effects: seq<Effect>

    constructor (contract: Contract, hasOnSuccess: bool)
      ensures this.contract == contract && this.hasOnSuccess == hasOnSuccess
      ensures !isSubmitting && error == None && requests == [] && effects == []
    {
      this.contract := contract;
      this.hasOnSuccess := hasOnSuccess;
      isSubmitting := false;
      error := None;
      requests := [];
      effects := [];
    }

    /** `onSubmit` up to the `await`; the form calls it only with values the schema accepts. */
    method BeginSubmit(values: EditValues)
      modifies this
      requires ValidEdit(values)
      ensures isSubmitting && error == None
      ensures requests == old(requests) + [UpdateRequest(contract.id, SubmitPayload(values))]
      ensures effects == old(effects)
    {
      isSubmitting := true;
      error := None;
      requests := requests + [UpdateRequest(contract.id, SubmitPayload(values))];
    }

    /**
     * `onSubmit` from the `await` on: an error is recorded and the dialog
     * stays open; success calls `onSuccess` when given and then closes the
     * dialog; `finally` lowers `isSubmitting` on every path.
     */
    method CompleteSubmit(result: UpdateResult)
      modifies this
      ensures !isSubmitting && requests == old(requests)
      ensures result.UpdateError? ==> error == Some(result.error) && effects == old(effects)
      ensures result.UpdateThrew? ==> error == Some(result.message) && effects == old(effects)
      ensures result.UpdateOk? ==>
                error == old(error)
                && effects == old(effects) + (if hasOnSuccess then [SuccessCalled] else []) + [OpenChanged(false)]
    {
      match result {
        case UpdateError(e) =>
          error := Some(e);
        case UpdateOk =>
          if hasOnSuccess {
            effects := effects + [SuccessCalled];
          }
          effects := effects + [OpenChanged(false)];
        case UpdateThrew(m) =>
          error := Some(m);
      }
      isSubmitting := false;
    }
  }

  /** One whole submission: a failure never closes the dialog, and a success closes it last. */
  method Submit(dialog: EditDialog, values: EditValues, result: UpdateResult)
    modifies dialog
    requires ValidEdit(values)
    ensures !dialog.isSubmitting
    ensures |dialog.requests| == |old(dialog.requests)| + 1
    ensures !result.UpdateOk? ==> dialog.effects == old(dialog.effects) && dialog.error.Some?
    ensures result.UpdateOk? ==> dialog.error.None? && |dialog.effects| > 0 && dialog.effects[|dialog.effects| - 1] == OpenChanged(false)
  {
    dialog.BeginSubmit(values);
    dialog.CompleteSubmit(result);
  }
}
