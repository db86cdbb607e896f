/**
 * The poll creation page: `handleSubmit` maps the form's options to indexed
 * option records, raises `isSubmitting` while `createPoll` runs, then either
 * records the error or navigates to the poll list. The awaited call splits
 * the handler in two: `BeginSubmit` runs up to the `await`, `CompleteSubmit`
 * from it on, with the call's result as input.
 */
module PollFormPage {
  import opened Wrappers
  import opened ApiTypes
  import opened PollForm
  import opened PollBlock

  const PollsRoute: string := "/polls"

  class FormPage {
    var isSubmitting: bool
    var error: Option<string>
    /** The routes passed to `navigate`, oldest first. */
    var navigations: seq<string>

    /** Every navigation this page makes goes to the poll list. */
    predicate Valid()
      reads this
    {
      forall i :: 0 <= i < |navigations| ==> navigations[i] == PollsRoute
    }

    constructor ()
      ensures !isSubmitting && error == None && navigations == [] && Valid()
    {
      isSubmitting := false;
      error := None;
      navigations := [];
    }

    /** `handleSubmit` up to the `await`: the `createPoll` arguments, with `isSubmitting` raised. */
    method BeginSubmit(values: FormValues) returns (request: PollRequest)
      modifies this
      requires Valid()
      ensures Valid()
      ensures isSubmitting
      ensures error == old(error) && navigations == old(navigations)
      ensures request == PollRequest(values.title, values.description, OptionsWithIds(values.options))
      ensures |request.options| == |values.options|
    {
      var options := OptionsWithIds(values.options);
      isSubmitting := true;
      request := PollRequest(values.title, values.description, options);
    }

    /**
     * `handleSubmit` after the `await`: `isSubmitting` drops; an `{ error }`
     * result is recorded and nothing else happens, any other result
     * navigates to the poll list and leaves `error` as it was.
     */
    method CompleteSubmit(res: CreatePollResult)
      modifies this
      requires Valid()
      ensures Valid()
      ensures !isSubmitting
      ensures res.CreatePollError? ==> error == Some(res.error) && navigations == old(navigations)
      ensures !res.CreatePollError? ==> error == old(error) && navigations == old(navigations) + [PollsRoute]
    {
      isSubmitting := false;
      if res.CreatePollError? {
        error := Some(res.error);
        return;
      }
      navigations := navigations + [PollsRoute];
    }
  }

  /**
   * One whole submission: `isSubmitting` is up while the call is outstanding
   * and down afterwards, and a failed call leaves the page where it is.
   */
  method HandleSubmit(page: FormPage, values: FormValues, res: CreatePollResult) returns (request: PollRequest)
    modifies page
    requires page.Valid()
    ensures page.Valid() && !page.isSubmitting
    ensures request.options == OptionsWithIds(values.options)
    ensures |page.navigations| == |old(page.navigations)| + (if res.CreatePollError? then 0 else 1)
  {
    request := page.BeginSubmit(values);
    page.CompleteSubmit(res);
  }
}
