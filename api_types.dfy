/**
 * The records the poll and contract APIs exchange, and the `is*Response`
 * type guards, which test whether a nested property path of a response is
 * defined.
 */
module ApiTypes {
  import opened Wrappers
  import opened JsonValue

  datatype PollOption = PollOption(id: string, name: string)

  datatype Poll = Poll(id: string, title: string, description: string, authorId: string, options: seq<PollOption>)

  /**
   * A vote. `id` is optional: the vote queries do not select it, so only the
   * votes a viewer adds locally carry one.
   */
  datatype Vote = Vote(id: Option<string>, pollID: string, optionID: string, isValid: bool, voterId: string)

  /** One entry of `votesByOption`. */
  datatype VoteGroup = VoteGroup(option: PollOption, votesCount: nat, votes: seq<Vote>)

  datatype ContractAudit = ContractAudit(
    id: string, contractID: string, permissionData: string, auditMarkdown: string, score: real, status: string)

  /** A contract record. The dialogs treat a missing description as empty, so it is optional here. */
  datatype Contract = Contract(
    id: string, contractName: string, description: Option<string>, address: string, createdAt: string, status: string, authorId: string)

  /** `response?.p0?.p1?…?.pn !== undefined`: null or undefined anywhere before the end gives false; a final null counts as defined. */
  predicate HasPath(response: Option<Json>, path: seq<string>)
    decreases |path|
  {
    if |path| == 0 then response.Some? else HasPath(Prop(response, path[0]), path[1..])
  }

  predicate IsPollsResponse(r: Option<Json>) { HasPath(r, ["data", "pollIndex", "edges"]) }
  predicate IsVotesResponse(r: Option<Json>) { HasPath(r, ["data", "voteIndex", "edges"]) }
  predicate IsCreatePollResponse(r: Option<Json>) { HasPath(r, ["data", "createPoll", "document"]) }
  predicate IsCreateVoteResponse(r: Option<Json>) { HasPath(r, ["data", "createVote", "document"]) }
  predicate IsPollsByAuthorResponse(r: Option<Json>) { HasPath(r, ["data", "node", "pollList", "edges"]) }
  predicate IsVotesByVoterResponse(r: Option<Json>) { HasPath(r, ["data", "node", "voteList", "edges"]) }
  predicate IsPollsWithVotesResponse(r: Option<Json>) { HasPath(r, ["data", "pollsWithVotes"]) }
  predicate IsCreateContractResponse(r: Option<Json>) { HasPath(r, ["data", "createContract", "document"]) }
  predicate IsContractsResponse(r: Option<Json>) { HasPath(r, ["data", "contractIndex", "edges"]) }
  predicate IsCreateContractAuditResponse(r: Option<Json>) { HasPath(r, ["data", "createContractAudit", "document"]) }
  predicate IsContractAuditsResponse(r: Option<Json>) { HasPath(r, ["data", "contractAuditIndex", "edges"]) }
  predicate IsContractAuditsByContractResponse(r: Option<Json>) { HasPath(r, ["data", "contractAuditIndex", "edges"]) }
  predicate IsErrorResponse(r: Option<Json>) { HasPath(r, ["error"]) }

  /** Undefined has no path at all, and null has no non-empty path. */
  lemma {:induction false} NullishHasNoPath(path: seq<string>)
    ensures !HasPath(None, path)
    ensures |path| > 0 ==> !HasPath(Some(JNull), path)
    decreases |path|
  {
    if |path| > 0 {
      NullishHasNoPath(path[1..]);
    }
  }

  /** A defined path has every prefix defined. */
  lemma {:induction false} HasPathPrefix(response: Option<Json>, path: seq<string>, more: seq<string>)
    requires HasPath(response, path + more)
    ensures HasPath(response, path)
    decreases |path|
  {
    if |path| == 0 {
      assert path + more == more;
      NullishHasNoPath(more);
    } else {
      assert (path + more)[1..] == path[1..] + more;
      HasPathPrefix(Prop(response, path[0]), path[1..], more);
    }
  }

  /** Every data guard is false for undefined and for null. */
  lemma GuardsRejectNullish(r: Option<Json>)
    requires r == None || r == Some(JNull)
    ensures !IsPollsResponse(r) && !IsVotesResponse(r) && !IsCreatePollResponse(r)
    ensures !IsCreateVoteResponse(r) && !IsPollsByAuthorResponse(r) && !IsVotesByVoterResponse(r)
    ensures !IsPollsWithVotesResponse(r) && !IsCreateContractResponse(r) && !IsContractsResponse(r)
    ensures !IsCreateContractAuditResponse(r) && !IsContractAuditsResponse(r)
    ensures !IsContractAuditsByContractResponse(r) && !IsErrorResponse(r)
  {
    NullishHasNoPath(["data", "pollIndex", "edges"]);
    NullishHasNoPath(["data", "voteIndex", "edges"]);
    NullishHasNoPath(["data", "createPoll", "document"]);
    NullishHasNoPath(["data", "createVote", "document"]);
    NullishHasNoPath(["data", "node", "pollList", "edges"]);
    NullishHasNoPath(["data", "node", "voteList", "edges"]);
    NullishHasNoPath(["data", "pollsWithVotes"]);
    NullishHasNoPath(["data", "createContract", "document"]);
    NullishHasNoPath(["data", "contractIndex", "edges"]);
    NullishHasNoPath(["data", "createContractAudit", "document"]);
    NullishHasNoPath(["data", "contractAuditIndex", "edges"]);
    NullishHasNoPath(["error"]);
  }

  /** A guard that passes also guarantees the shorter paths it goes through, e.g. `data.node` for the by-author guards. */
  lemma AuthorGuardsImplyNode(r: Option<Json>)
    ensures IsPollsByAuthorResponse(r) ==> HasPath(r, ["data", "node"])
    ensures IsVotesByVoterResponse(r) ==> HasPath(r, ["data", "node"])
  {
    if IsPollsByAuthorResponse(r) {
      assert ["data", "node", "pollList", "edges"] == ["data", "node"] + ["pollList", "edges"];
      HasPathPrefix(r, ["data", "node"], ["pollList", "edges"]);
    }
    if IsVotesByVoterResponse(r) {
      assert ["data", "node", "voteList", "edges"] == ["data", "node"] + ["voteList", "edges"];
      HasPathPrefix(r, ["data", "node"], ["voteList", "edges"]);
    }
  }

  /** The two contract-audit guards test the same path and so agree on every input. */
  lemma AuditGuardsAgree(r: Option<Json>)
    ensures IsContractAuditsResponse(r) == IsContractAuditsByContractResponse(r)
  {
  }

  /** `{ error: null }` is an error response: only undefined fails the test. */
  lemma NullErrorCounts()
    ensures IsErrorResponse(Some(JObj([Member("error", JNull)])))
    ensures !IsErrorResponse(Some(JObj([Member("data", JNull)])))
  {
  }

  /** The guards are not exclusive: one value can pass a data guard and the error guard. */
  lemma GuardsNotExclusive()
    ensures var r := Some(JObj([Member("data", JObj([Member("pollIndex", JObj([Member("edges", JArr([]))]))])),
                                Member("error", JStr("partial"))]));
            IsPollsResponse(r) && IsErrorResponse(r)
  {
  }

  /** `isPollsWithVotesResponse` looks only at whether `data.pollsWithVotes` is defined, whatever it holds. */
  lemma PollsWithVotesUnchecked(v: Json)
    ensures IsPollsWithVotesResponse(Some(JObj([Member("data", JObj([Member("pollsWithVotes", v)]))])))
  {
  }
}
