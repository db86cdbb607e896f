# Scanasha core, modelled in Dafny

Scanasha is a set of AKASHA extensions: users create polls and vote on them, and they register smart contracts for a
security review. An audit service scores a contract from the output of a permission scanner. This project models the
logic of that system that sits around the network, the database and the language models:

- **Polls and votes.**
  - Votes are grouped by option in `getPollById` and `getAllPollsWithVotes`. The two API copies, in `akasha` and in
    `extension-devkit`, run the same code.
  - `getOptionPercentage`.
  - The percentage tables of the read-only poll block and the poll card, including the optimistic `temp-id` votes a
    viewer adds locally.
  - The poll form: its schema, its defaults and the add/remove option rules.
  - The poll editor block's `createBlock`, including the `JSON.stringify({ pollId })` value it stores and how the
    read-only block reads that value back.
  - The poll creation page.
- **Contracts.**
  - The content objects `createContract` and `updateContractAudit` send.
  - The latest-audit pick.
  - The edit and review forms, with their Ethereum address pattern.
  - The edit dialog's submission state machine.
  - The audit dialog's enable rules.
  - The contract card's two generate handlers.
  - The review card's status label and colours.
  - The metrics chart's colours and segments.
  - The `is*Response` type guards.
- **Audit service.** The ordered request checks of the audit route, the privileged-function filter, the risk score,
  and the clamping and defaulting of the four metrics.
- **Profile button.** DID validation, `truncateMiddle`, `truncateDid`, the network icon choice and the DID field.
- **Tooling.**
  - `formatRelativeTime`.
  - The HMR plugin's `chunkFromId`, its CSS transform, and the `fileHashes` table kept by the add/change/unlink
    watcher handlers.
  - The idempotent admin-DID insertion of `update-ceramic-conf.mjs`.

**How JavaScript is modelled.** The JavaScript semantics the code relies on are written out explicitly:

- `Math.round` as half-up rounding of an exact fraction;
- truthiness and optional chaining;
- `split`/`pop`/`join`, `slice` with negative indices, `replaceAll`, `trim`;
- `JSON.stringify` string escaping (section 25.5.2.3, QuoteJSONString, of ECMA-262) together with the `JSON.parse`
  of the result;
- the strict-mode `TypeError` raised by assigning a property of a primitive.

**What is an input.** Everything the code receives from outside is an input of the model: query results, model
replies, `JSON.parse` of arbitrary text, file contents, hashes, clocks, and the `readyState` of sockets. A call that
throws is an error variant of that input.

**Imperative parts.** State that the components change step by step is a class with `modifies` clauses:

- the poll card;
- the poll form's option list;
- the poll creation page;
- the edit dialog;
- the contract card;
- the HMR server.

An awaited handler is split at its `await` into a `Begin…` method and a `Complete…`/`Finish…` method. The outcome of
the awaited call is a parameter of the second method. Loops of the source (`forEach`, `reduce`, the CSS line loop, the
socket broadcast) are `while` loops, proved against functions that specify them.

## Model

| member | source | states |
|---|---|---|
| OptionPercentage.RoundedPercentBracket | extension-devkit/src/lib/utils.ts:19 | the rounded value r is the integer rounding of 100·count/total with halves rounded up: 2·total·r ≤ 200·count + total < 2·total·(r+1) |
| OptionPercentage.RoundedPercentIsNearest | extension-devkit/src/lib/utils.ts:19 | over the reals, r − ½ ≤ 100·count/total < r + ½, which is what `Math.round` of the quotient gives |
| OptionPercentage.RoundedPercentBounds | extension-devkit/src/lib/utils.ts:19 | a count no larger than the total gives at most 100 |
| OptionPercentage.RoundedPercentMonotone | extension-devkit/src/lib/utils.ts:19 | for a fixed total, a larger count never gives a smaller percentage |
| OptionPercentage.FindGroup | extension-devkit/src/lib/utils.ts:17 | `find` returns the first entry whose option id matches; None exactly when no entry matches |
| OptionPercentage.GetOptionPercentage | extension-devkit/src/lib/utils.ts:9-20 | a zero total gives 0; an option with no entry gives 0; otherwise the rounded percentage of the first matching entry's count |
| OptionPercentage.GetOptionPercentageBounds | extension-devkit/src/lib/utils.ts:9-20 | when the option's count is at most the total, the result is within 0..100 |
| OptionPercentage.FindGroupAppend | extension-devkit/src/lib/utils.ts:17 | entries appended after a match do not move the match |
| OptionPercentage.FirstEntryWins | extension-devkit/src/lib/utils.ts:17 | a later duplicate entry for the same option has no effect on the percentage |
| PollApi.VotesFor | akasha/src/api/index.ts:207 | the filter keeps exactly the votes for the option, and never more votes than were fetched |
| PollApi.VotesForAppend | akasha/src/api/index.ts:207 | the filter keeps the fetched order: filtering a concatenation concatenates the filtered parts |
| PollApi.VotesForKeepsAll | akasha/src/api/index.ts:207 | when every vote is for the option, all of them are kept |
| PollApi.GroupVotes | akasha/src/api/index.ts:206-213 | one entry per poll option, in option order; entry i holds option i, the votes with its id, and their count |
| PollApi.GroupCountsPartition | akasha/src/api/index.ts:206-217 | with distinct option ids, the per-option counts plus the votes naming no option add up to `totalVotes` |
| PollApi.GroupCountsAtMostTotal | extension-devkit/src/api/index.ts:202-213 | with distinct option ids, the per-option counts sum to at most `totalVotes` |
| PollApi.DuplicateIdsOvercount | akasha/src/api/index.ts:206-217 | without distinct ids the bound fails: two options with id "0" and one vote for "0" count 2 against a total of 1 |
| PollApi.GroupedCountFor | akasha/src/api/index.ts:206-213 | with distinct ids, the count `getOptionPercentage` reads for option i is the number of votes for it |
| PollApi.GroupedPercentageBounds | akasha/src/api/index.ts:206-217 | the percentage read from grouped votes, with `totalVotes` as total, lies in 0..100 |
| PollApi.FetchedVotes | akasha/src/api/index.ts:202-204 | a response without data or edges gives no votes; otherwise the nodes of the edges |
| PollApi.GetPollById | akasha/src/api/index.ts:195-223 | a poll query that throws gives only its message. A vote-fetch error gives empty votes and votesByOption, total 0, and the error. A response with data but no `voteIndex` throws, and the catch returns only the TypeError's message. Otherwise the votes are the fetched ones, totalVotes is their number, and votesByOption is the grouping over the poll's options, undefined when the poll is |
| PollApi.PollEntry | akasha/src/api/index.ts:243-266 | a failed vote fetch gives the poll with empty votes and votesByOption, no total, and the error. Otherwise the grouping over the poll's options and a total equal to the number of votes. A response without `voteIndex` throws |
| PollApi.PollEntries | akasha/src/api/index.ts:243-267 | one entry per poll, in poll order; the whole map throws exactly when some poll's vote response throws |
| PollApi.GetAllPollsWithVotes | extension-devkit/src/api/index.ts:222-263 | the poll-list error, or 'No data found' when data or pollIndex is missing, is returned before any vote is grouped; null edges give the TypeError of `.map`; a vote response without `voteIndex` gives the TypeError of reading its `.edges`; otherwise the entries of all polls |
| PollApi.LatestAudit | akasha/src/api/index.ts:755-758 | the node of the first edge when there is at least one edge, otherwise null |
| PollApi.CreateContractContent | akasha/src/api/index.ts:391-402 | the five fixed fields with status 'pending', plus permissionData, auditMarkdown and score exactly when each is supplied |
| PollApi.UpdateContractAuditContent | akasha/src/api/index.ts:527-535 | the update object holds exactly the fields passed as defined, with their values, and no others |
| ApiTypes.NullishHasNoPath | akasha/src/api/types.ts:150-200 | optional chaining on undefined gives undefined, and on null gives undefined for any non-empty path |
| ApiTypes.HasPathPrefix | akasha/src/api/types.ts:150-196 | a path that is defined has every prefix defined |
| ApiTypes.GuardsRejectNullish | akasha/src/api/types.ts:150-200 | every guard is false for undefined and for null |
| ApiTypes.AuthorGuardsImplyNode | akasha/src/api/types.ts:166-172 | the by-author and by-voter guards passing implies `data.node` is defined |
| ApiTypes.AuditGuardsAgree | akasha/src/api/types.ts:190-196 | the two contract-audit guards agree on every input |
| ApiTypes.NullErrorCounts | akasha/src/api/types.ts:198-200 | `{ error: null }` passes the error guard; an object without `error` does not |
| ApiTypes.GuardsNotExclusive | akasha/src/api/types.ts:150-152 | a value carrying both `data.pollIndex.edges` and `error` passes the polls guard and the error guard |
| ApiTypes.PollsWithVotesUnchecked | akasha/src/api/types.ts:174-176 | the guard passes whatever `data.pollsWithVotes` holds |
| ApiTypes.HasPath | akasha/src/api/types.ts:150-200 | `response?.a?.b… !== undefined`: each step reads a property of an object and gives undefined on undefined, null or a missing key |
| ApiTypes.IsPollsResponse | akasha/src/api/types.ts:150-152 | the guard holds exactly when `response?.data?.pollIndex?.edges` is not undefined |
| ApiTypes.IsVotesResponse | akasha/src/api/types.ts:154-156 | the guard holds exactly when `response?.data?.voteIndex?.edges` is not undefined |
| ApiTypes.IsCreatePollResponse | akasha/src/api/types.ts:158-160 | the guard holds exactly when `response?.data?.createPoll?.document` is not undefined |
| ApiTypes.IsCreateVoteResponse | akasha/src/api/types.ts:162-164 | the guard holds exactly when `response?.data?.createVote?.document` is not undefined |
| ApiTypes.IsPollsByAuthorResponse | akasha/src/api/types.ts:166-168 | the guard holds exactly when `response?.data?.node?.pollList?.edges` is not undefined |
| ApiTypes.IsVotesByVoterResponse | akasha/src/api/types.ts:170-172 | the guard holds exactly when `response?.data?.node?.voteList?.edges` is not undefined |
| ApiTypes.IsPollsWithVotesResponse | akasha/src/api/types.ts:174-176 | the guard holds exactly when `response?.data?.pollsWithVotes` is not undefined |
| ApiTypes.IsCreateContractResponse | akasha/src/api/types.ts:178-180 | the guard holds exactly when `response?.data?.createContract?.document` is not undefined |
| ApiTypes.IsContractsResponse | akasha/src/api/types.ts:182-184 | the guard holds exactly when `response?.data?.contractIndex?.edges` is not undefined |
| ApiTypes.IsCreateContractAuditResponse | akasha/src/api/types.ts:186-188 | the guard holds exactly when `response?.data?.createContractAudit?.document` is not undefined |
| ApiTypes.IsContractAuditsResponse | akasha/src/api/types.ts:190-192 | the guard holds exactly when `response?.data?.contractAuditIndex?.edges` is not undefined |
| ApiTypes.IsContractAuditsByContractResponse | akasha/src/api/types.ts:194-196 | the guard holds exactly when `response?.data?.contractAuditIndex?.edges` is not undefined |
| ApiTypes.IsErrorResponse | akasha/src/api/types.ts:198-200 | the guard holds exactly when `response?.error` is not undefined |
| PollReadonlyBlock.TempCount | extension-devkit/src/extensions/poll-block/poll-readonly-block.tsx:69 | the number of temporary selections is at most the number of selections |
| PollReadonlyBlock.TempCountPositive | extension-devkit/src/extensions/poll-block/poll-readonly-block.tsx:65 | `some(temp)` holds exactly when the temp count is positive |
| PollReadonlyBlock.TempsForAtMostTempCount | extension-devkit/src/extensions/poll-block/poll-readonly-block.tsx:69-73 | one option's temporary selections are at most all temporary selections |
| PollReadonlyBlock.SyncSelections | extension-devkit/src/extensions/poll-block/poll-readonly-block.tsx:50-59 | without a truthy DID, data or poll the selections stay; otherwise they become the viewer's votes on this poll |
| PollReadonlyBlock.ViewerVotes | extension-devkit/src/extensions/poll-block/poll-readonly-block.tsx:55-57 | exactly the fetched votes whose voter is the DID and whose poll is this poll |
| PollReadonlyBlock.FetchedSelectionsHaveNoTemps | extension-devkit/src/extensions/poll-block/poll-readonly-block.tsx:54-58 | votes read back from the network carry no id and so are never temporary |
| PollReadonlyBlock.TempPercentBounds | extension-devkit/src/extensions/poll-block/poll-readonly-block.tsx:67-76 | with the entry's count at most `totalVotes`, the temp-branch value is at most 100 |
| PollReadonlyBlock.GroupedTempPercentBounds | extension-devkit/src/extensions/poll-block/poll-readonly-block.tsx:67-76 | for entries grouped from the fetched votes, every temp-branch value lies in 0..100 |
| PollReadonlyBlock.GroupIdsSnoc | extension-devkit/src/extensions/poll-block/poll-readonly-block.tsx:67-77 | each entry of the `reduce` adds its option id to the keys |
| PollReadonlyBlock.TempPercentages | extension-devkit/src/extensions/poll-block/poll-readonly-block.tsx:67-77 | one key per entry; the value under an option is (its count + its temp selections) over (`totalVotes` + all temp selections), rounded, from the last entry with that id |
| PollReadonlyBlock.InitialPercentages | extension-devkit/src/extensions/poll-block/poll-readonly-block.tsx:80-85 | one key per entry, each holding `getOptionPercentage` of that option |
| PollReadonlyBlock.VotePercentages | extension-devkit/src/extensions/poll-block/poll-readonly-block.tsx:61-86 | `{}` unless there is data, votesByOption and a selection; then the temp table when some selection is temporary, the initial table otherwise |
| PollReadonlyBlock.DisplayedPercentage | extension-devkit/src/extensions/poll-block/poll-readonly-block.tsx:125 | an option missing from the table shows 0, otherwise its value |
| PollReadonlyBlock.DisplayedTotal | extension-devkit/src/extensions/poll-block/poll-readonly-block.tsx:132-133 | the displayed count is `totalVotes` plus the temporary selections, so between `totalVotes` and `totalVotes` + selections |
| PollReadonlyBlock.OnVote | extension-devkit/src/extensions/poll-block/poll-readonly-block.tsx:100-111 | one selection is appended, with id 'temp-id_'+option, this poll and option; earlier selections are unchanged |
| PollReadonlyBlock.TempCountAppend | extension-devkit/src/extensions/poll-block/poll-readonly-block.tsx:69 | appending a selection adds one to the temp count exactly when it is temporary |
| PollReadonlyBlock.TempsForAppend | extension-devkit/src/extensions/poll-block/poll-readonly-block.tsx:72-73 | appending a selection adds one to an option's temp count exactly when it is a temporary selection of that option |
| PollReadonlyBlock.OnVoteEffect | extension-devkit/src/extensions/poll-block/poll-readonly-block.tsx:100-133 | after voting, the displayed total grows by one, the chosen option gains one temporary vote, every other option keeps its count, and the option shows as selected |
| PollReadonlyBlock.BlockView | extension-devkit/src/extensions/poll-block/poll-readonly-block.tsx:88-98 | the poll is shown exactly when the response has data, a poll, and no error or an empty one; the error screen is shown exactly when there is data and a non-empty error message, and it shows that message |
| PollReadonlyBlock.VoteFetchErrorView | extension-devkit/src/extensions/poll-block/poll-readonly-block.tsx:92-94 | after a failed vote fetch the block shows the error when its message is non-empty; with an empty message it shows the poll, or 'Poll not found' when there is none |
| PollCard.BlockTempIsCardTemp | akasha/src/components/poll-card/index.tsx:60 | a selection the read-only block counts as temporary ('temp-id_') is temporary for the card's 'temp-id' test too |
| PollCard.TempVotes | akasha/src/components/poll-card/index.tsx:70 | the temp count is at most the number of selections |
| PollCard.TempVotesPositive | akasha/src/components/poll-card/index.tsx:60-70 | a temporary selection makes the temp count, and so the recompute denominator, positive |
| PollCard.SelectionPercentBounds | akasha/src/components/poll-card/index.tsx:67-76 | a value written for a selection is at most 100 when the option's count is at most `totalVotes` |
| PollCard.SelectedIdsSnoc | akasha/src/components/poll-card/index.tsx:65-77 | each processed selection adds its option id to the keys |
| PollCard.AppliedKeys | akasha/src/components/poll-card/index.tsx:64-77 | after k selections, the keys are the previous keys plus every option the first k selections name |
| PollCard.AppliedKeepsOthers | akasha/src/components/poll-card/index.tsx:64-77 | an option none of the processed selections names keeps its previous value |
| PollCard.AppliedLastWrite | akasha/src/components/poll-card/index.tsx:65-77 | the last processed selection naming an option decides its value |
| PollCard.ApplySelections | akasha/src/components/poll-card/index.tsx:64-78 | the `forEach` on the copy: keys are the previous keys plus the selected options; unselected options keep their values; a selected option gets round(100·(count, +1 if temporary)/(total + temp selections)) of its last selection |
| PollCard.PrecomputedTable | akasha/src/components/poll-card/index.tsx:85-88 | one key per option id, each holding the precomputed percentage of the last option with that id |
| PollCard.Card.constructor | akasha/src/components/poll-card/index.tsx:45-46 | no selections and no table |
| PollCard.Card.SyncSelectedOptions | akasha/src/components/poll-card/index.tsx:48-52 | given `selectedOptions`, the selections become them; otherwise nothing changes |
| PollCard.Card.RecomputePercentages | akasha/src/components/poll-card/index.tsx:54-80 | an undefined table becomes `{}`; without a temporary selection the table is unchanged; otherwise it becomes the selections applied to it |
| PollCard.Card.ResetPercentages | akasha/src/components/poll-card/index.tsx:82-91 | with a positive total the table is replaced by the precomputed percentages, otherwise unchanged |
| PollCard.Card.OnVote | akasha/src/components/poll-card/index.tsx:93-105 | exactly one temporary selection for the option is appended; the table is untouched |
| PollCard.Card.Displayed | akasha/src/components/poll-card/index.tsx:121 | an undefined table or a missing key shows 0, otherwise the stored value |
| PollCard.VoteThenRecompute | akasha/src/components/poll-card/index.tsx:54-122 | after voting and the recompute effect, the option shows as selected and the table has a key for it |
| PollForm.DefaultsInvalid | akasha-app/src/components/poll-form.tsx:59-63 | the initial values, empty texts and two empty options, fail the schema |
| PollForm.ValidValues | akasha-app/src/components/poll-form.tsx:22-38 | the form schema: title and description of at least 5 characters, at least 2 options, each non-empty |
| PollForm.GetFormValues | akasha-app/src/components/poll-form.tsx:74-80 | the values exactly when title and description have at least 5 characters and there are at least 2 non-empty options; otherwise null |
| PollForm.PollFormState.constructor | akasha-app/src/components/poll-form.tsx:59-63 | the list starts at the defaults, with two options |
| PollForm.PollFormState.AddOption | akasha-app/src/components/poll-form.tsx:85-87 | one empty option is appended; the rest is unchanged; the list keeps at least two options |
| PollForm.PollFormState.RemoveOption | akasha-app/src/components/poll-form.tsx:140-149 | only an index above 1 can be removed; the others keep their order and the list never falls below two |
| PollBlock.OptionsWithIds | akasha/src/extensions/poll-block/poll-block.tsx:71-74 | option i becomes id String(i) with the option's value as name; count and order are preserved |
| PollBlock.OptionsWithIdsDistinct | akasha/src/extensions/poll-block/poll-block.tsx:71-74 | the ids are pairwise distinct and each reads back as its own index |
| PollBlock.FormPollCountsAtMostTotal | akasha/src/extensions/poll-block/poll-block.tsx:71-80 | a poll made from the form has vote counts that sum to at most its total |
| PollBlock.BlockValueJson | akasha/src/extensions/poll-block/poll-block.tsx:94-99 | an undefined id gives `{}`; a defined one the `{"pollId":"…"}` object |
| PollBlock.ReadPollIdRoundTrip | akasha/src/extensions/poll-block/poll-block.tsx:94-100 | the read-only block's `JSON.parse(value).pollId` reads back exactly the id the editor stored |
| PollBlock.ReadPollId | extension-devkit/src/extensions/poll-block/poll-readonly-block.tsx:19-20 | `JSON.parse(value).pollId` on the block value: '{}' and only '{}' gives undefined; a defined id is read only from a `{"pollId":"…"}` text |
| PollBlock.CreateBlock | akasha/src/extensions/poll-block/poll-block.tsx:56-135 | invalid values: no poll, 'Invalid poll form values'. A poll error: no block, blockID '' and the error. A null `createPoll` rejects. Otherwise a block labelled with appName and propertyType holding `{ pollId }`, then its id with error '', or '' and the thrown message. `retryCount` is always the number |
| PollBlock.AfterPoll | akasha/src/extensions/poll-block/poll-block.tsx:94-135 | once the poll exists, exactly one content block request with the poll id value is made and a response is returned |
| PollBlock.CreateBlockAsWritten | akasha/src/extensions/poll-block/poll-block.tsx:82-92 | the code as written: it sends the same requests as `CreateBlock` |
| PollBlock.RetryCountRefOnPollError | akasha/src/extensions/poll-block/poll-block.tsx:90 | for a valid form whose poll creation fails, the as-written result carries the ref object as `retryCount` |
| PollFormPage.FormPage.constructor | akasha/src/components/poll-form-page.tsx:8-9 | not submitting, no error, no navigation |
| PollFormPage.FormPage.BeginSubmit | akasha/src/components/poll-form-page.tsx:13-20 | `isSubmitting` is raised; the request carries the title, description and index-id options |
| PollFormPage.FormPage.CompleteSubmit | akasha/src/components/poll-form-page.tsx:20-27 | `isSubmitting` drops; an error is recorded without navigating; any other result navigates to '/polls' |
| PollFormPage.HandleSubmit | akasha/src/components/poll-form-page.tsx:13-28 | after a submission the page is not submitting, and it navigated once exactly when there was no error |
| AuditRoute.Privileged | audit-engine/src/routes/audit.ts:63-65 | a function is kept iff it has a sender condition or a modifier |
| AuditRoute.PrivilegedAppend | audit-engine/src/routes/audit.ts:63-65 | the filter keeps the scan order |
| AuditRoute.PrivilegedEmpty | audit-engine/src/routes/audit.ts:63-65 | no function is privileged iff none has a sender condition or modifier |
| AuditRoute.RiskScore | audit-engine/src/routes/audit.ts:68 | the score is in 1..10, 1 for no privileged function, 10 from 7 on, and otherwise ceil(1.5n) |
| AuditRoute.RiskScoreMonotone | audit-engine/src/routes/audit.ts:68 | more privileged functions never lower the score |
| AuditRoute.EnsureValidMetric | audit-engine/src/routes/audit.ts:205-210 | non-numbers and NaN give 0.5; numbers are clamped to [0, 1]; the result is always in [0, 1] |
| AuditRoute.EnsureValidMetricIdempotent | audit-engine/src/routes/audit.ts:205-210 | clamping a clamped value changes nothing |
| AuditRoute.ExtractMetrics | audit-engine/src/routes/audit.ts:161-183 | defaults of 0.5 unless the trimmed reply is non-empty and parses to an object; then the four fields clamped |
| AuditRoute.Audit | audit-engine/src/routes/audit.ts:25-68 | checks in order: missing data is 400 'required', unparseable text 400 'format', no address and no contract name are 400; success reports the first contract at the first address, the risk score of its privileged functions, and exactly the metrics `ExtractMetrics` gives: the defaults for a missing or blank reply or one that does not parse to a non-null value, else the four clamped parsed fields |
| EthAddress.MatchHexRunIff | akasha/src/components/review-form.tsx:22 | `[a-fA-F0-9]{n}$` matches exactly n hex digits of either case |
| EthAddress.EthPatternIff | akasha/src/components/contract-edit-dialog.tsx:24 | the pattern accepts exactly '0x' followed by 40 hex digits of either case |
| EthAddress.IsEthAddress | akasha/src/components/contract-edit-dialog.tsx:24 | the language the address regex stands for: 42 characters, '0x', then 40 hex digits of either case |
| EthAddress.UpperPrefixRejected | akasha/src/components/review-form.tsx:22 | an upper-case '0X' prefix is refused |
| ReviewForm.DefaultReviewInvalid | akasha/src/components/review-form.tsx:57-61 | the empty defaults fail validation, the address included |
| ReviewForm.ValidReview | akasha/src/components/review-form.tsx:24-36 | the form schema: a name of at least 3 characters, a description of at least 5, an address matching the regex |
| ReviewForm.GetFormValues | akasha/src/components/review-form.tsx:67-72 | the values iff they validate (name of 3, description of 5, an Ethereum address), else null |
| ContractEditDialog.DefaultsFor | akasha/src/components/contract-edit-dialog.tsx:61-66 | the contract's own fields, a missing description becoming '' |
| ContractEditDialog.MissingDescriptionBlocksSave | akasha/src/components/contract-edit-dialog.tsx:27-32 | a contract without a description cannot be saved from its defaults |
| ContractEditDialog.ValidEdit | akasha/src/components/contract-edit-dialog.tsx:26-39 | the form schema: a name of at least 3 characters, a description of at least 5, an address matching the regex, and one of the three statuses |
| ContractEditDialog.SubmitPayload | akasha/src/components/contract-edit-dialog.tsx:86-91 | exactly contractName, description, address and status are sent |
| ContractEditDialog.EditDialog.constructor | akasha/src/components/contract-edit-dialog.tsx:56-57 | not submitting, no error, nothing sent |
| ContractEditDialog.EditDialog.BeginSubmit | akasha/src/components/contract-edit-dialog.tsx:81-91 | `isSubmitting` is raised, the error cleared, and one update for this contract's id requested |
| ContractEditDialog.EditDialog.CompleteSubmit | akasha/src/components/contract-edit-dialog.tsx:93-105 | `isSubmitting` drops on every path; an error result or throw is recorded and the dialog stays open; success calls `onSuccess` when given, then closes |
| ContractEditDialog.Submit | akasha/src/components/contract-edit-dialog.tsx:81-106 | one request per submission; a failure never closes the dialog; a success ends by closing it |
| ContractAuditDialog.Flags | akasha/src/components/contract-audit-dialog.tsx:34-146 | missing data counts as both fields null; a field is present iff non-null and non-empty; the enable rules of the Download and Generate buttons, and 'Fully Audited' iff both are present |
| ContractAuditDialog.GenerateButtonsExclusive | akasha/src/components/contract-audit-dialog.tsx:87-129 | the report can be requested only with permission data present, so never both Generate buttons at once |
| ContractAuditDialog.FullyAuditedIsFinal | akasha/src/components/contract-audit-dialog.tsx:79-146 | a fully audited contract offers both downloads and neither Generate button |
| ContractCard.CardState.constructor | akasha/src/components/contract-card/index.tsx:36-45 | dialog closed, both flags down, both audit fields null |
| ContractCard.CardState.SetAuditDialogOpen | akasha/src/components/contract-card/index.tsx:146-172 | only the dialog's open flag changes |
| ContractCard.CardState.BeginGeneratePermissionData | akasha/src/components/contract-card/index.tsx:54-55 | the handler runs only from the enabled button; its flag goes up; nothing else changes |
| ContractCard.CardState.FinishGeneratePermissionData | akasha/src/components/contract-card/index.tsx:72-80 | on success only `permissionData` changes; `auditMarkdown` is kept; the flag drops even on error |
| ContractCard.CardState.BeginGenerateAuditMarkdown | akasha/src/components/contract-card/index.tsx:83-84 | reachable only when the dialog enables it, so with permission data present; its flag goes up |
| ContractCard.CardState.FinishGenerateAuditMarkdown | akasha/src/components/contract-card/index.tsx:119-127 | on success only `auditMarkdown` changes; `permissionData` is kept; the flag drops even on error |
| ContractCard.AuditFromScratch | akasha/src/components/contract-card/index.tsx:170-185 | generating both artefacts in turn through the dialog leaves the contract fully audited with both values |
| ReviewCard.StatusColors | akasha/src/components/review-card/index.tsx:8-12 | a colour class exists exactly for pending, in_progress and completed |
| ReviewCard.StatusLabel | akasha/src/components/review-card/index.tsx:53 | 'in_progress' reads 'In progress'; any other status has its first character upper-cased and the rest unchanged |
| ReviewCard.StatusLabelsDistinct | akasha/src/components/review-card/index.tsx:53 | 'Pending', 'In progress', 'Completed': the three statuses get three distinct labels |
| ReviewCard.StatusColorsDistinct | akasha/src/components/review-card/index.tsx:8-12 | distinct statuses get distinct colour classes |
| ContractMetricsChart.ColorForValue | akasha/src/components/contract-metrics-chart.tsx:21-25 | green iff ≥ 0.8, yellow iff in [0.5, 0.8), red iff < 0.5; NaN is red |
| ContractMetricsChart.ColorMonotone | akasha/src/components/contract-metrics-chart.tsx:21-25 | a larger value never gets a worse colour |
| ContractMetricsChart.DefaultMetricIsYellow | akasha/src/components/contract-metrics-chart.tsx:23 | a metric the audit service defaulted to 0.5 shows yellow |
| ContractMetricsChart.EqualData | akasha/src/components/contract-metrics-chart.tsx:35-40 | four weight-1 segments, autonomy, exitwindow, chain, upgradeability, each with its metric |
| ContractMetricsChart.EqualDataShape | akasha/src/components/contract-metrics-chart.tsx:35-40 | the names and weights do not depend on the metrics |
| ProfileAvatarButton.ValidDidHasBody | akasha-app/src/components/ui/profile-avatar-button.tsx:22-25 | a valid DID starts with 'did:' and has something after it |
| ProfileAvatarButton.IsValidDid | akasha-app/src/components/ui/profile-avatar-button.tsx:22-25 | `DID_SCHEMA`: at least 5 characters and a 'did:' prefix |
| ProfileAvatarButton.TruncateMiddle | akasha-app/src/components/ui/profile-avatar-button.tsx:44-45 | '' stays ''; otherwise the clamped head, '...', and the clamped tail |
| ProfileAvatarButton.TruncateMiddleShortens | akasha-app/src/components/ui/profile-avatar-button.tsx:44-45 | a string longer than both kept ends and the ellipsis gets shorter |
| ProfileAvatarButton.TruncateMiddleShortInput | akasha-app/src/components/ui/profile-avatar-button.tsx:44-45 | a short input comes out longer: 'abc' gives 'abc...abc' |
| ProfileAvatarButton.LastSegment | akasha-app/src/components/ui/profile-avatar-button.tsx:50 | the last `split(':')` part has no ':' and is no longer than the input |
| ProfileAvatarButton.LastSplitPartIsSuffix | akasha-app/src/components/ui/profile-avatar-button.tsx:50 | the last `split` part is a suffix of the input |
| ProfileAvatarButton.LastSegmentIsSuffix | akasha-app/src/components/ui/profile-avatar-button.tsx:50-51 | the segment is what follows the final ':', so a DID ending in ':' gives '' |
| ProfileAvatarButton.TruncateDid | akasha-app/src/components/ui/profile-avatar-button.tsx:47-52 | '' gives ''; up to 12 characters unchanged; longer ones keep the last segment's first 6 (eth, solana) or 5 characters and last 6 |
| ProfileAvatarButton.DidFieldIconType | akasha-app/src/components/ui/profile-avatar-button.tsx:54-58 | '' is noDid; containing 'eip155' is ethereum; else containing 'solana' is solana; otherwise did |
| ProfileAvatarButton.Eip155TakesPrecedence | akasha-app/src/components/ui/profile-avatar-button.tsx:55-56 | every DID containing 'eip155' is classed as ethereum, including one that also contains 'solana' |
| ProfileAvatarButton.Eip155TakesPrecedenceExample | akasha-app/src/components/ui/profile-avatar-button.tsx:55-56 | for instance, 'did:pkh:eip155:solana' is classed as ethereum |
| ProfileAvatarButton.SizeMap | akasha-app/src/components/ui/profile-avatar-button.tsx:107 | lg to xl, md to lg, sm to xs |
| ProfileAvatarButton.DidFieldAsWritten | akasha-app/src/components/ui/profile-avatar-button.tsx:164-196 | the code as written: an invalid DID shows the NoEth icon and 'Invalid DID'; otherwise `truncateDid` with the network name as type |
| ProfileAvatarButton.EthereumDidKeepsFive | akasha-app/src/components/ui/profile-avatar-button.tsx:173-194 | for a long Ethereum DID, the as-written field keeps 5 leading characters where the 'eth' type keeps 6, one character fewer |
| ProfileAvatarButton.EthereumDidExample | akasha-app/src/components/ui/profile-avatar-button.tsx:194 | the DID did:pkh:eip155:1:0x0123456789abcdef meets those conditions with segment 0x0123456789abcdef |
| ProfileAvatarButton.TruncationType | akasha-app/src/components/ui/profile-avatar-button.tsx:48-51 | Ethereum and Solana DIDs get 6 leading characters, the rest 5 |
| ProfileAvatarButton.DidField | akasha-app/src/components/ui/profile-avatar-button.tsx:164-196 | an invalid DID shows NoEth and 'Invalid DID'; a valid one its network icon and its DID truncated with the network's type |
| ProfileAvatarButton.DidFieldEthereumMatchesDefault | akasha-app/src/components/ui/profile-avatar-button.tsx:48-51 | the corrected field truncates an Ethereum DID as the default 'eth' type does |
| RelativeTime.BucketFirstFit | akasha-app/src/lib/format-relative-time.ts:14-18 | the first unit whose limit exceeds the difference is used |
| RelativeTime.BucketInRange | akasha-app/src/lib/format-relative-time.ts:6-18 | with increasing limits, the unit used is the one whose range holds the difference |
| RelativeTime.BucketPastTable | akasha-app/src/lib/format-relative-time.ts:20 | past every limit the count is in years |
| RelativeTime.TimeUnitsBuckets | akasha-app/src/lib/format-relative-time.ts:6-20 | the limits increase; below 60 seconds 's'; then 'm' 1..59, 'h' 1..23, 'd' 1..29, 'mo' 1..12, then 'y' at least 1 |
| RelativeTime.FutureIsNegativeSeconds | akasha-app/src/lib/format-relative-time.ts:15-16 | a future date lands in the seconds branch with a negative count |
| RelativeTime.FutureTextIsNegative | akasha-app/src/lib/format-relative-time.ts:4-16 | the text of a future date starts with '-' |
| RelativeTime.Bucket | akasha-app/src/lib/format-relative-time.ts:14-20 | the loop over the unit table with the years fallback; its outcome is stated by BucketFirstFit and BucketPastTable |
| RelativeTime.FormatRelativeTime | akasha-app/src/lib/format-relative-time.ts:1-21 | the text always ends in ' ago'; an invalid date gives 'NaNy ago'; under a minute the count is the seconds themselves with 's'; from a year on it is whole years with 'y' |
| ViteSpaDev.IndexOf | akasha/vite-spa-dev.ts:14 | the first position of the segment, or -1 exactly when absent |
| ViteSpaDev.SliceIndex | akasha/vite-spa-dev.ts:14 | a relative slice index lands within the sequence |
| ViteSpaDev.ChunkFromIdSegments | akasha/vite-spa-dev.ts:11-19 | the segments from the first 'src' on are joined by '_'; without 'src' only the last segment is kept; then '.tsx', '.ts', '.js' are deleted |
| ViteSpaDev.ChunkFromId | akasha/vite-spa-dev.ts:11-19 | `chunkFromId` as written; what it keeps is stated by ChunkFromIdSegments |
| ViteSpaDev.RewriteLine | akasha/vite-spa-dev.ts:70-86 | only ':root {' and '.dark {' change, to the extension-scoped selectors |
| ViteSpaDev.RewriteLines | akasha/vite-spa-dev.ts:70-86 | one output line per input line, in order |
| ViteSpaDev.CssTransform | akasha/vite-spa-dev.ts:66-87 | the output is the rewritten lines joined with newlines |
| ViteSpaDev.CssWithoutSelectorsUnchanged | akasha/vite-spa-dev.ts:70-87 | a stylesheet without the two selector lines comes out unchanged |
| ViteSpaDev.Transform | akasha/vite-spa-dev.ts:63-88 | CSS files are rewritten; the target entry file gets the client; anything else is returned unchanged |
| ViteSpaDev.Deliveries | akasha/vite-spa-dev.ts:227-238 | each message carries the payload, sent to a known client |
| ViteSpaDev.DeliveriesReachOpenClients | akasha/vite-spa-dev.ts:228 | a client receives the payload iff its readyState is 1 |
| ViteSpaDev.HmrServer.constructor | akasha/vite-spa-dev.ts:42 | an empty hash table, nothing sent |
| ViteSpaDev.HmrServer.Broadcast | akasha/vite-spa-dev.ts:227-238 | exactly the deliveries to the open clients are sent; the hash table is untouched |
| ViteSpaDev.HmrServer.OnAdd | akasha/vite-spa-dev.ts:223-240 | stores the hash and always broadcasts ADD |
| ViteSpaDev.HmrServer.OnChange | akasha/vite-spa-dev.ts:242-260 | an unchanged non-empty hash sends nothing and keeps the table; otherwise stores the hash and broadcasts CHANGE |
| ViteSpaDev.HmrServer.OnUnlink | akasha/vite-spa-dev.ts:262-277 | deletes the entry and broadcasts UNLINK |
| ViteSpaDev.ChangeTwice | akasha/vite-spa-dev.ts:244 | after two changes with the same non-empty hash the stored hash is the new one, and the outbox holds at most one CHANGE broadcast: either nothing was sent or exactly one delivery per open client |
| CeramicConf.UpdatedAdmins | extension-devkit/composedb/scripts/update-ceramic-conf.mjs:12-20 | the admin list after the update is always a truthy value |
| CeramicConf.UpdateAppendsOnce | extension-devkit/composedb/scripts/update-ceramic-conf.mjs:8-21 | missing objects are created; the DID is appended iff absent; existing DIDs keep their order; other top-level keys are unchanged, and so is every member of an existing `http-api` object other than `admin-dids` |
| CeramicConf.UpdateKeepsShape | extension-devkit/composedb/scripts/update-ceramic-conf.mjs:8-21 | a well-shaped configuration stays well-shaped |
| CeramicConf.UpdateIdempotent | extension-devkit/composedb/scripts/update-ceramic-conf.mjs:16-20 | a second call with the same DID changes nothing |
| CeramicConf.UpdatedConfig | extension-devkit/composedb/scripts/update-ceramic-conf.mjs:8-17 | an array root is written back as it was, a primitive root throws, and an updated object keeps every top-level member other than `http-api`, which is present afterwards |
| CeramicConf.UpdateCeramicConfig | extension-devkit/composedb/scripts/update-ceramic-conf.mjs:3-27 | a read or parse failure returns false with nothing written; otherwise the updated configuration is written and the result is whether writing succeeded |
| JsonText.UnescapeEscape | akasha/src/extensions/poll-block/poll-block.tsx:99 | `JSON.parse` reads back exactly the string `JSON.stringify` escaped |
| JsonValue.SetMember | extension-devkit/composedb/scripts/update-ceramic-conf.mjs:9 | assigning a member sets that key, keeps the other members, and adds the key at the end when new |
| JsonValue.SetMemberTwice | extension-devkit/composedb/scripts/update-ceramic-conf.mjs:9-17 | assigning a key twice equals assigning the second value |
| StringOps.NatToStringRoundTrip | akasha/src/extensions/poll-block/poll-block.tsx:72 | `index.toString()` reads back as the index |
| StringOps.JoinSplit | akasha/vite-spa-dev.ts:70-86 | joining the parts of `split` with the separator gives back the input |

## Left out

- Every ComposeDB query, `createPoll`, `createVote`, `updateContract`, `createContentBlock`, `hasSession` and the DID
  session sync. These are calls into services outside this code. Their results are inputs of the model, and a throw is
  an error variant.
- `scanContract` and `generateAuditReport` (`fetch` to the scanner and audit services). The OpenAI calls of the audit
  route and the prompt text (docs and source URLs) are left out too. The model replies are arbitrary strings.
- The audit route's 500 path for an exception thrown by a language-model call. Scanner data that is not shaped like
  `PermissionScannerData` (keys that are integer-like or repeated) is also not modelled. Addresses and contract names
  are taken in key order.
- The permission scanner (Python), the intel scraper, and the HMR plugin's HTTPS server, WebSocket server, chokidar
  watcher and signal handling. SHA-256 is an input hash.
- The client script the HMR plugin injects into the target entry file. `Transform` only records that the client is
  appended.
- Time: `new Date()` and ISO timestamps are inputs. `formatRelativeTime` takes the difference in whole seconds, and an
  unparseable date gives "NaNy ago".
- Floating point: `Math.round(100·c/t)` is exact half-up rounding, and the metrics are reals. Binary rounding and
  `toFixed` formatting are not modelled.
- String lengths are counted in characters, not UTF-16 code units. `toUpperCase` is modelled on ASCII letters only, and
  surrogate pairs are not special.
- `JSON.parse` of general text is a parameter. Only the two block values the editor writes are parsed in the model.
- Key order of the GraphQL content objects, which are maps.
- `createContentBlock`'s other fields (`nsfw`, `appVersionID`, `createdAt`, `active`, `kind`).
- The layout, CSS classes, avatars and tooltips of the components. The mock data and the 2-second delay of the
  contract card's generate handlers are left out too: the generated value is an input.
- `retryCreate` and the block's retry loop.
- Logging: the `console.log` and `console.error` calls of `update-ceramic-conf.mjs`, of the API catch blocks and of
  the contract card's handlers. They produce no value the code reads.
- A thrown value that is not an `Error`, whose `message` is undefined. The model gives every caught error a message
  string. For such a throw in `getVotesByPollId`, the read-only block would show the poll, because the error is
  undefined; the model shows the poll only for an empty message.
- `update-ceramic-conf.mjs`'s `JSON.stringify(…, null, 2)` formatting. The model records the written value, not its
  text.

## Findings

| source | as written | input that shows it | evidently intended | confidence | as-written member | corrected member |
|---|---|---|---|---|---|---|
| akasha-app/src/components/ui/profile-avatar-button.tsx:194 | `truncateDid(did, didNetworkType)` passes the network name 'ethereum', but `truncateDid` keeps 6 leading characters only for 'eth' and 'solana', so an Ethereum DID keeps 5 | did:pkh:eip155:1:0x0123456789abcdef shows '0x012...abcdef' instead of '0x0123...abcdef' | Ethereum DIDs truncated as type 'eth', like the default | not executed | ProfileAvatarButton.DidFieldAsWritten | ProfileAvatarButton.DidField |
| akasha/src/extensions/poll-block/poll-block.tsx:90 | the createPoll-error branch returns `retryCount: retryCount`, the ref object, where the other branches return `retryCount.current` | a valid form ('Lunch', 'Where to?', options a and b) whose `createPoll` returns `{ error }` | `retryCount: retryCount.current` | not executed | PollBlock.CreateBlockAsWritten | PollBlock.CreateBlock |
