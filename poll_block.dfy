/**
 * The poll editor block's `createBlock`: read the form, create the poll with
 * indexed options, then create the content block whose value is
 * `JSON.stringify({ pollId })`. The two network calls are inputs; the result
 * records what was sent and what `createBlock` returns.
 */
module PollBlock {
  import opened Wrappers
  import opened StringOps
  import opened JsonText
  import opened ApiTypes
  import opened PollForm
  import PollApi

  /** `options.map((option, index) => ({ id: index.toString(), name: option.value }))`. */
  function OptionsWithIds(fields: seq<OptionField>): (r: seq<PollOption>)
    ensures |r| == |fields|
    ensures forall i :: 0 <= i < |fields| ==> r[i].name == fields[i].value && r[i].id == NatToString(i)
  {
    seq(|fields|, i requires 0 <= i < |fields| => PollOption(NatToString(i), fields[i].value))
  }

  /** The ids are distinct, and each reads back as its own index. */
  lemma OptionsWithIdsDistinct(fields: seq<OptionField>)
    ensures PollApi.DistinctIds(OptionsWithIds(fields))
    ensures forall i :: 0 <= i < |fields| ==> DigitsValue(OptionsWithIds(fields)[i].id) == i
  {
    var r := OptionsWithIds(fields);
    forall i, j | 0 <= i < j < |r| ensures r[i].id != r[j].id {
      NatToStringInjective(i, j);
    }
    forall i | 0 <= i < |fields| ensures DigitsValue(r[i].id) == i {
      NatToStringRoundTrip(i);
    }
  }

  /** Options of a poll made from the form have distinct ids, so its vote counts add up to at most its total. */
  lemma FormPollCountsAtMostTotal(fields: seq<OptionField>, votes: seq<Vote>)
    ensures PollApi.SumCounts(PollApi.GroupVotes(OptionsWithIds(fields), votes)) <= |votes|
  {
    OptionsWithIdsDistinct(fields);
    PollApi.GroupCountsAtMostTotal(OptionsWithIds(fields), votes);
  }

  /**
   * What `createPoll` hands back: its `{ error }` object, a response without
   * `data` (the poll id is then undefined), one whose `createPoll` is null
   * (reading `.document` throws outside the try block), or the new id.
   */
  datatype CreatePollResult =
    | CreatePollError(error: string)
    | CreatePollNoData
    | CreatePollNoDocument
    | CreatePollOk(id: string)

  /** `createContentBlock`: it throws, or yields the new block's id (undefined when the response lacks it). */
  datatype ContentBlockResult = ContentBlockThrew(message: string) | ContentBlockCreated(id: Option<string>)

  datatype BlockInfo = BlockInfo(appName: string, propertyType: string)

  /** `BlockLabeledValue`; `labelText` is its `label` field. */
  datatype LabeledValue = LabeledValue(labelText: string, propertyType: string, value: string)

  /** `JSON.stringify({ pollId })`: an undefined id drops the member. */
  function BlockValueJson(pollId: Option<string>): (s: string)
    ensures pollId.None? ==> s == "{}"
    ensures pollId.Some? ==> StartsWith(s, PollIdPrefix) && EndsWith(s, PollIdSuffix)
  {
    if pollId.None? then "{}" else PollIdPrefix + Escape(pollId.value) + PollIdSuffix
  }

  const PollIdPrefix: string := "{\"pollId\":\""
  const PollIdSuffix: string := "\"}"

  /**
   * `JSON.parse(value).pollId` in the read-only block, for the two shapes the
   * editor writes: `{}` gives undefined, `{"pollId":"…"}` its decoded string.
   */
  function ReadPollId(value: string): (r: Option<Option<string>>)
    ensures value == "{}" <==> r == Some(None)
    ensures r.Some? && r.value.Some? ==> StartsWith(value, PollIdPrefix) && EndsWith(value, PollIdSuffix)
  {
    if value == "{}" then Some(None)
    else if |value| >= |PollIdPrefix| + |PollIdSuffix| && StartsWith(value, PollIdPrefix) && EndsWith(value, PollIdSuffix) then
      match Unescape(value[|PollIdPrefix|..|value| - |PollIdSuffix|])
      case Some(id) => Some(Some(id))
      case None => None
    else None
  }

  /** The read-only block reads back exactly the poll id the editor stored. */
  lemma ReadPollIdRoundTrip(pollId: Option<string>)
    ensures ReadPollId(BlockValueJson(pollId)) == Some(pollId)
  {
    if pollId.Some? {
      var s := BlockValueJson(pollId);
      var e := Escape(pollId.value);
      assert s == PollIdPrefix + e + PollIdSuffix;
      assert s != "{}" by {
        assert s[1] == '"';
      }
      assert s[|PollIdPrefix|..|s| - |PollIdSuffix|] == e;
      UnescapeEscape(pollId.value);
    }
  }

  /** `retryCount` in the result: the number `retryCount.current`, or the ref object itself. */
  datatype RetryField = RetryNumber(n: nat) | RetryRef(current: nat)

  datatype BlockResponse = BlockResponse(blockID: Option<string>, error: string, editorMentions: Option<seq<string>>)

  /** The resolved value of `createBlock`, or a rejection. */
  datatype CreateBlockOutcome =
    | Returned(response: BlockResponse, blockInfo: BlockInfo, retryCount: RetryField)
    | Rejected(message: string)

  /** The poll `createBlock` asks `createPoll` for. */
  datatype PollRequest = PollRequest(title: string, description: string, options: seq<PollOption>)

  /** One run of `createBlock`: what it sent to each service, and its outcome. */
  datatype CreateBlockRun = CreateBlockRun(pollRequest: Option<PollRequest>, blockRequest: Option<LabeledValue>, outcome: CreateBlockOutcome)

  /**
   * `createBlock` with the `retryCount` of the createPoll-error branch
   * corrected to `retryCount.current`, as in the other three branches.
   * `form` is the form's values (None when the form is not mounted);
   * `typeError` is the message of the TypeError raised on a null
   * `createPoll`.
   */
  function CreateBlock(form: Option<FormValues>, pollResult: CreatePollResult, blockResult: ContentBlockResult,
                       info: BlockInfo, retry: nat, typeError: string): (r: CreateBlockRun)
    ensures (form.None? || !ValidValues(form.value)) <==>
              r.pollRequest.None?
    ensures r.pollRequest.None? ==>
              r.blockRequest.None?
              && r.outcome == Returned(BlockResponse(Some(""), "Invalid poll form values", Some([])), info, RetryNumber(retry))
    ensures r.pollRequest.Some? ==>
              r.pollRequest.value == PollRequest(form.value.title, form.value.description, OptionsWithIds(form.value.options))
    ensures r.pollRequest.Some? && pollResult.CreatePollError? ==>
              r.blockRequest.None? && r.outcome == Returned(BlockResponse(Some(""), pollResult.error, None), info, RetryNumber(retry))
    ensures r.pollRequest.Some? && pollResult.CreatePollNoDocument? ==> r.blockRequest.None? && r.outcome == Rejected(typeError)
    ensures r.blockRequest.Some? ==>
              r.pollRequest.Some? && (pollResult.CreatePollOk? || pollResult.CreatePollNoData?)
              && r.blockRequest.value.labelText == info.appName && r.blockRequest.value.propertyType == info.propertyType
              && r.blockRequest.value.value == BlockValueJson(if pollResult.CreatePollOk? then Some(pollResult.id) else None)
    ensures r.blockRequest.Some? && blockResult.ContentBlockCreated? ==>
              r.outcome == Returned(BlockResponse(blockResult.id, "", None), info, RetryNumber(retry))
    ensures r.blockRequest.Some? && blockResult.ContentBlockThrew? ==>
              r.outcome == Returned(BlockResponse(Some(""), blockResult.message, None), info, RetryNumber(retry))
    ensures r.outcome.Returned? ==> r.outcome.retryCount == RetryNumber(retry)
  {
    var values := if form.Some? then GetFormValues(form.value) else None;
    if values.None? then
      CreateBlockRun(None, None, Returned(BlockResponse(Some(""), "Invalid poll form values", Some([])), info, RetryNumber(retry)))
    else
      var request := PollRequest(values.value.title, values.value.description, OptionsWithIds(values.value.options));
      match pollResult
      case CreatePollError(e) =>
        CreateBlockRun(Some(request), None, Returned(BlockResponse(Some(""), e, None), info, RetryNumber(retry)))
      case CreatePollNoDocument =>
        CreateBlockRun(Some(request), None, Rejected(typeError))
      case CreatePollNoData =>
        AfterPoll(request, None, blockResult, info, retry)
      case CreatePollOk(id) =>
        AfterPoll(request, Some(id), blockResult, info, retry)
  }

  /** The part of `createBlock` after the poll exists: store `{ pollId }` in a content block. */
  function AfterPoll(request: PollRequest, pollId: Option<string>, blockResult: ContentBlockResult,
                     info: BlockInfo, retry: nat): (r: CreateBlockRun)
    ensures r.pollRequest == Some(request)
    ensures r.blockRequest == Some(LabeledValue(info.appName, info.propertyType, BlockValueJson(pollId)))
    ensures r.outcome.Returned? && r.outcome.retryCount == RetryNumber(retry)
  {
    var labeled := LabeledValue(info.appName, info.propertyType, BlockValueJson(pollId));
    match blockResult
    case ContentBlockCreated(id) =>
      CreateBlockRun(Some(request), Some(labeled), Returned(BlockResponse(id, "", None), info, RetryNumber(retry)))
    case ContentBlockThrew(msg) =>
      CreateBlockRun(Some(request), Some(labeled), Returned(BlockResponse(Some(""), msg, None), info, RetryNumber(retry)))
  }

  /** `createBlock` as written: the createPoll-error branch returns the ref object `retryCount`. */
  function CreateBlockAsWritten(form: Option<FormValues>, pollResult: CreatePollResult, blockResult: ContentBlockResult,
                                info: BlockInfo, retry: nat, typeError: string): (r: CreateBlockRun)
    ensures var fixed := CreateBlock(form, pollResult, blockResult, info, retry, typeError);
            r.pollRequest == fixed.pollRequest && r.blockRequest == fixed.blockRequest
  {
    var fixed := CreateBlock(form, pollResult, blockResult, info, retry, typeError);
    if fixed.pollRequest.Some? && pollResult.CreatePollError? then
      fixed.(outcome := fixed.outcome.(retryCount := RetryRef(retry)))
    else fixed
  }

  /** A valid form whose poll creation fails makes the as-written `createBlock` hand back the ref object, not a number. */
  lemma RetryCountRefOnPollError()
    ensures var form := FormValues("Lunch", "Where to?", [OptionField("a"), OptionField("b")]);
            var r := CreateBlockAsWritten(Some(form), CreatePollError("denied"), ContentBlockCreated(None),
                                          BlockInfo("polls", "poll"), 0, "TypeError");
            r.outcome.Returned? && r.outcome.retryCount == RetryRef(0)
  {
    var form := FormValues("Lunch", "Where to?", [OptionField("a"), OptionField("b")]);
    assert ValidValues(form) by {
      assert ValidOption(form.options[0]) && ValidOption(form.options[1]);
    }
  }
}
