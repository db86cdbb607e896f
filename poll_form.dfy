/**
 * The poll creation form: its validation schema, its initial values,
 * `getFormValues`, and the option list the form edits in place (append at
 * the end, remove buttons only from the third option on).
 */
module PollForm {
  import opened Wrappers

  /** One entry of the form's `options` field array. */
  datatype OptionField = OptionField(value: string)

  datatype FormValues = FormValues(title: string, description: string, options: seq<OptionField>)

  /** `OptionSchema`: an option needs at least one character. */
  predicate ValidOption(o: OptionField) {
    |o.value| >= 1
  }

  /** `FormSchema`: title and description of at least 5 characters, at least 2 options, each valid. */
  predicate ValidValues(v: FormValues) {
    |v.title| >= 5 && |v.description| >= 5 && |v.options| >= 2
    && forall i :: 0 <= i < |v.options| ==> ValidOption(v.options[i])
  }

  /** The form's `defaultValues`. */
  const DefaultValues: FormValues := FormValues("", "", [OptionField(""), OptionField("")])

  /** The initial form does not validate: submitting it untouched is refused. */
  lemma DefaultsInvalid()
    ensures !ValidValues(DefaultValues)
    ensures |DefaultValues.options| == 2
  {
  }

  /** `getFormValues`: the values when the schema accepts them, otherwise null. */
  function GetFormValues(v: FormValues): (r: Option<FormValues>)
    ensures r.Some? <==> ValidValues(v)
    ensures r.Some? ==> r.value == v
  {
    if ValidValues(v) then Some(v) else None
  }

  /** The form's field values, edited in place by the option buttons. */
  class PollFormState {
    var values: FormValues

    /** The list the UI can produce never has fewer than two options. */
    predicate Valid()
      reads this
    {
      |values.options| >= 2
    }

    constructor ()
      ensures values == DefaultValues && Valid()
    {
      values := DefaultValues;
    }

    /** `handleAddOption`: append one empty option at the end. */
    method AddOption()
      modifies this
      requires Valid()
      ensures Valid()
      ensures values == old(values).(options := old(values).options + [OptionField("")])
    {
      values := values.(options := values.options + [OptionField("")]);
    }

    /**
     * `remove(index)` behind a trash button, which is rendered only for
     * `index > 1`; the option at `index` goes, the others keep their order.
     */
    method RemoveOption(index: nat)
      modifies this
      requires Valid() && 1 < index < |values.options|
      ensures Valid()
      ensures values == old(values).(options := old(values).options[..index] + old(values).options[index + 1..])
      ensures |values.options| == |old(values).options| - 1
    {
      values := values.(options := values.options[..index] + values.options[index + 1..]);
    }
  }
}
