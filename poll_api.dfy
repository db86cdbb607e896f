/**
 * The pure parts of the poll and contract API: grouping a poll's fetched votes
 * by option (`getPollById`, `getAllPollsWithVotes`), the content objects
 * `createContract` and `updateContractAudit` send, and the latest-audit pick of
 * `getContractWithLatestAudit`. The ComposeDB queries are not modelled: what
 * they return is an input, and a query that throws is an error variant.
 */
module PollApi {
  import opened Wrappers
  import opened JsonValue
  import opened ApiTypes
  import opened OptionPercentage

  /** `votes.filter(vote => vote.optionID === optionId)`. */
  function VotesFor(votes: seq<Vote>, optionId: string): (r: seq<Vote>)
    ensures |r| <= |votes|
    ensures forall v :: v in r <==> v in votes && v.optionID == optionId
  {
    if |votes| == 0 then []
    else (if votes[0].optionID == optionId then [votes[0]] else []) + VotesFor(votes[1..], optionId)
  }

  /** The filter keeps the original order: filtering a concatenation concatenates the filtered parts. */
  lemma {:induction false} VotesForAppend(a: seq<Vote>, b: seq<Vote>, optionId: string)
    ensures VotesFor(a + b, optionId) == VotesFor(a, optionId) + VotesFor(b, optionId)
  {
    if |a| == 0 {
      assert a + b == b;
    } else {
      assert (a + b)[0] == a[0];
      assert (a + b)[1..] == a[1..] + b;
      VotesForAppend(a[1..], b, optionId);
    }
  }

  /** When every vote is for the option, the filter keeps all of them. */
  lemma {:induction false} VotesForKeepsAll(votes: seq<Vote>, optionId: string)
    requires forall i :: 0 <= i < |votes| ==> votes[i].optionID == optionId
    ensures VotesFor(votes, optionId) == votes
  {
    if |votes| > 0 {
      VotesForKeepsAll(votes[1..], optionId);
    }
  }

  /**
   * `options.map(option => ({ option, votesCount, votes }))`: one entry per
   * poll option, in the poll's option order.
   */
  function GroupVotes(options: seq<PollOption>, votes: seq<Vote>): (r: seq<VoteGroup>)
    ensures |r| == |options|
    ensures forall i :: 0 <= i < |options| ==>
              r[i].option == options[i]
              && r[i].votes == VotesFor(votes, options[i].id)
              && r[i].votesCount == |r[i].votes|
  {
    if |options| == 0 then []
    else
      var mine := VotesFor(votes, options[0].id);
      [VoteGroup(options[0], |mine|, mine)] + GroupVotes(options[1..], votes)
  }

  function OptionIds(options: seq<PollOption>): (ids: seq<string>)
    ensures |ids| == |options|
    ensures forall i :: 0 <= i < |options| ==> ids[i] == options[i].id
  {
    if |options| == 0 then [] else [options[0].id] + OptionIds(options[1..])
  }

  predicate DistinctIds(options: seq<PollOption>) {
    forall i, j :: 0 <= i < j < |options| ==> options[i].id != options[j].id
  }

  /** The sum of the per-option counts. */
  function SumCounts(groups: seq<VoteGroup>): nat {
    if |groups| == 0 then 0 else groups[0].votesCount + SumCounts(groups[1..])
  }

  /** The fetched votes whose optionID names none of the poll's options; `totalVotes` still counts them. */
  function Unmatched(options: seq<PollOption>, votes: seq<Vote>): (r: seq<Vote>)
    ensures forall v :: v in r <==> v in votes && v.optionID !in OptionIds(options)
  {
    if |votes| == 0 then []
    else (if votes[0].optionID !in OptionIds(options) then [votes[0]] else []) + Unmatched(options, votes[1..])
  }

  /** How many options carry the id. */
  function HitCount(options: seq<PollOption>, optionId: string): nat {
    if |options| == 0 then 0
    else (if options[0].id == optionId then 1 else 0) + HitCount(options[1..], optionId)
  }

  lemma {:induction false} HitCountAbsent(options: seq<PollOption>, optionId: string)
    requires optionId !in OptionIds(options)
    ensures HitCount(options, optionId) == 0
  {
    if |options| > 0 {
      assert OptionIds(options[1..]) == OptionIds(options)[1..];
      HitCountAbsent(options[1..], optionId);
    }
  }

  /** With distinct ids a vote hits exactly one option when its id is listed, and none otherwise. */
  lemma {:induction false} HitCountDistinct(options: seq<PollOption>, optionId: string)
    requires DistinctIds(options)
    ensures HitCount(options, optionId) == if optionId in OptionIds(options) then 1 else 0
  {
    if |options| > 0 {
      var rest := options[1..];
      assert OptionIds(rest) == OptionIds(options)[1..];
      if options[0].id == optionId {
        assert optionId !in OptionIds(rest);
        HitCountAbsent(rest, optionId);
      } else {
        HitCountDistinct(rest, optionId);
      }
    }
  }

  /** Adding one vote in front adds one to the count of every option it matches. */
  lemma {:induction false} SumCountsCons(options: seq<PollOption>, v: Vote, rest: seq<Vote>)
    ensures SumCounts(GroupVotes(options, [v] + rest)) == HitCount(options, v.optionID) + SumCounts(GroupVotes(options, rest))
  {
    if |options| > 0 {
      assert ([v] + rest)[1..] == rest;
      SumCountsCons(options[1..], v, rest);
    }
  }

  /**
   * With distinct option ids, every fetched vote is counted once: in the
   * entry of its option, or among the votes matching no option.
   */
  lemma {:induction false} GroupCountsPartition(options: seq<PollOption>, votes: seq<Vote>)
    requires DistinctIds(options)
    ensures SumCounts(GroupVotes(options, votes)) + |Unmatched(options, votes)| == |votes|
  {
    if |votes| == 0 {
      if |options| > 0 {
        SumCountsZero(options);
      }
    } else {
      var rest := votes[1..];
      assert votes == [votes[0]] + rest;
      SumCountsCons(options, votes[0], rest);
      HitCountDistinct(options, votes[0].optionID);
      GroupCountsPartition(options, rest);
    }
  }

  lemma {:induction false} SumCountsZero(options: seq<PollOption>)
    ensures SumCounts(GroupVotes(options, [])) == 0
  {
    if |options| > 0 {
      SumCountsZero(options[1..]);
    }
  }

  /** Hence the per-option counts never add up to more than `totalVotes`. */
  lemma GroupCountsAtMostTotal(options: seq<PollOption>, votes: seq<Vote>)
    requires DistinctIds(options)
    ensures SumCounts(GroupVotes(options, votes)) <= |votes|
  {
    GroupCountsPartition(options, votes);
  }

  /** Without distinct ids the bound fails: a vote for a duplicated id is counted twice. */
  lemma DuplicateIdsOvercount()
    ensures var o := PollOption("0", "yes");
            var v := Vote(None, "p", "0", true, "did:key:a");
            SumCounts(GroupVotes([o, o], [v])) == 2 > |[v]|
  {
    var o := PollOption("0", "yes");
    var v := Vote(None, "p", "0", true, "did:key:a");
    assert VotesFor([v], "0") == [v];
    var g := VoteGroup(o, 1, [v]);
    assert [o, o][1..] == [o] && [o][1..] == [];
    assert GroupVotes([o], [v]) == [g];
    assert GroupVotes([o, o], [v]) == [g, g];
    assert [g, g][1..] == [g] && [g][1..] == [];
    assert SumCounts([g]) == 1;
  }

  /** With distinct ids, the entry `getOptionPercentage` finds for option i is the one built for it. */
  lemma GroupedCountFor(options: seq<PollOption>, votes: seq<Vote>, i: nat)
    requires DistinctIds(options) && i < |options|
    ensures CountFor(GroupVotes(options, votes), options[i].id) == |VotesFor(votes, options[i].id)|
  {
    var groups := GroupVotes(options, votes);
    var k := FindGroup(groups, options[i].id);
    assert groups[i].option.id == options[i].id;
    assert k.Some? && k.value == i;
  }

  /** The percentage read from the grouped votes with `totalVotes` as total lies in 0..100. */
  lemma GroupedPercentageBounds(options: seq<PollOption>, votes: seq<Vote>, optionId: string)
    ensures GetOptionPercentage(optionId, GroupVotes(options, votes), |votes|) <= 100
  {
    var groups := GroupVotes(options, votes);
    match FindGroup(groups, optionId)
    case Some(k) =>
      assert CountFor(groups, optionId) == |VotesFor(votes, options[k].id)|;
      GetOptionPercentageBounds(optionId, groups, |votes|);
    case None =>
      GetOptionPercentageBounds(optionId, groups, |votes|);
  }

  /**
   * What `getVotesByPollId` hands back. `VotesError` is the `{ error }` object
   * it returns when the query throws; otherwise the response may lack `data`,
   * may have `data` without `voteIndex` (reading `.edges` then throws), or
   * holds the edges' nodes, where `None` is a null or missing `edges`.
   */
  datatype VotesFetch =
    | VotesError(error: string)
    | VotesNoData
    | VotesNoIndex
    | VotesEdges(edges: Option<seq<Vote>>)

  /** `data?.voteIndex.edges ? edges.map(edge => edge.node) : []`, for the responses where it does not throw. */
  function FetchedVotes(f: VotesFetch): (votes: seq<Vote>)
    requires f.VotesNoData? || f.VotesEdges?
    ensures f.VotesNoData? || f.edges.None? ==> votes == []
  {
    match f
    case VotesEdges(Some(vs)) => vs
    case _ => []
  }

  /** The poll query: it throws, or returns `data?.node`, which may be null or missing. */
  datatype PollFetch = PollThrew(message: string) | PollNode(node: Option<Poll>)

  datatype PollData = PollData(poll: Option<Poll>, votes: seq<Vote>, votesByOption: Option<seq<VoteGroup>>, totalVotes: nat)

  datatype PollByIdResult = PollByIdResult(data: Option<PollData>, error: Option<string>)

  /**
   * `getPollById`. `typeError` is the message of the TypeError raised when
   * the vote response has `data` but no `voteIndex`.
   */
  function GetPollById(pollFetch: PollFetch, votesFetch: VotesFetch, typeError: string): (r: PollByIdResult)
    ensures pollFetch.PollThrew? ==> r == PollByIdResult(None, Some(pollFetch.message))
    ensures pollFetch.PollNode? && votesFetch.VotesError? ==>
              r.data.Some? && r.data.value.poll == pollFetch.node
              && r.data.value.votes == [] && r.data.value.votesByOption == Some([]) && r.data.value.totalVotes == 0
              && r.error == Some(votesFetch.error)
    ensures pollFetch.PollNode? && votesFetch.VotesNoIndex? ==> r == PollByIdResult(None, Some(typeError))
    ensures r.error.None? ==>
              pollFetch.PollNode? && (votesFetch.VotesNoData? || votesFetch.VotesEdges?)
              && r.data.Some? && r.data.value.poll == pollFetch.node
              && r.data.value.votes == FetchedVotes(votesFetch)
              && r.data.value.totalVotes == |r.data.value.votes|
              && (pollFetch.node.None? <==> r.data.value.votesByOption.None?)
              && (pollFetch.node.Some? ==>
                    r.data.value.votesByOption == Some(GroupVotes(pollFetch.node.value.options, r.data.value.votes)))
    ensures pollFetch.PollNode? && (votesFetch.VotesNoData? || votesFetch.VotesEdges?) ==> r.error.None?
  {
    match pollFetch
    case PollThrew(msg) => PollByIdResult(None, Some(msg))
    case PollNode(poll) =>
      match votesFetch
      case VotesError(e) => PollByIdResult(Some(PollData(poll, [], Some([]), 0)), Some(e))
      case VotesNoIndex => PollByIdResult(None, Some(typeError))
      case _ =>
        var votes := FetchedVotes(votesFetch);
        var byOption := if poll.Some? then Some(GroupVotes(poll.value.options, votes)) else None;
        PollByIdResult(Some(PollData(poll, votes, byOption, |votes|)), None)
  }

  /**
   * One element of `pollsWithVotes`: the poll edge spread with its votes. An
   * entry whose votes failed to load carries `error` and no `totalVotes`.
   */
  datatype PollWithVotes = PollWithVotes(
    node: Poll, votes: seq<Vote>, votesByOption: seq<VoteGroup>, totalVotes: Option<nat>, error: Option<string>)

  /** What `getPolls` hands back: its `{ error }` object, a response without `data` or `pollIndex`, or the edges' nodes (`None` for null edges). */
  datatype PollsFetch =
    | PollsError(error: string)
    | PollsNoData
    | PollsNoIndex
    | PollsEdges(edges: Option<seq<Poll>>)

  datatype Outcome<T> = Ok(value: T) | Err(error: string)

  /** One poll's entry, or `None` when reading its votes throws. */
  function PollEntry(poll: Poll, f: VotesFetch): (r: Option<PollWithVotes>)
    ensures r.None? <==> f.VotesNoIndex?
    ensures r.Some? ==> r.value.node == poll && |r.value.votesByOption| == if f.VotesError? then 0 else |poll.options|
    ensures r.Some? && f.VotesError? ==>
              r.value.votes == [] && r.value.totalVotes.None? && r.value.error == Some(f.error)
    ensures r.Some? && !f.VotesError? ==>
              r.value.error.None? && r.value.votes == FetchedVotes(f)
              && r.value.votesByOption == GroupVotes(poll.options, r.value.votes)
              && r.value.totalVotes == Some(|r.value.votes|)
  {
    match f
    case VotesError(e) => Some(PollWithVotes(poll, [], [], None, Some(e)))
    case VotesNoIndex => None
    case _ =>
      var votes := FetchedVotes(f);
      Some(PollWithVotes(poll, votes, GroupVotes(poll.options, votes), Some(|votes|), None))
  }

  /** `polls.map(...)` over all polls; `None` when any poll's votes throw, which aborts the whole map. */
  function PollEntries(polls: seq<Poll>, fetchVotes: string -> VotesFetch): (r: Option<seq<PollWithVotes>>)
    ensures r.None? <==> exists i :: 0 <= i < |polls| && fetchVotes(polls[i].id).VotesNoIndex?
    ensures r.Some? ==> |r.value| == |polls|
                        && forall i :: 0 <= i < |polls| ==> PollEntry(polls[i], fetchVotes(polls[i].id)) == Some(r.value[i])
  {
    if |polls| == 0 then Some([])
    else
      var first := PollEntry(polls[0], fetchVotes(polls[0].id));
      var rest := PollEntries(polls[1..], fetchVotes);
      if first.None? then None
      else if rest.None? then
        assert forall i :: 1 <= i < |polls| ==> polls[1..][i - 1] == polls[i];
        None
      else
        var r := [first.value] + rest.value;
        assert forall i :: 1 <= i < |polls| ==> polls[1..][i - 1] == polls[i] && r[i] == rest.value[i - 1];
        Some(r)
  }

  /**
   * `getAllPollsWithVotes`: the poll-list error, or 'No data found', is
   * returned before any votes are grouped; `fetchVotes` stands for
   * `getVotesByPollId`. Two different TypeErrors end in the catch:
   * `edgesTypeError` is raised by `.map` on null `pollIndex.edges`, and
   * `votesTypeError` by reading `.edges` of a vote response without
   * `voteIndex`.
   */
  function GetAllPollsWithVotes(pollsFetch: PollsFetch, fetchVotes: string -> VotesFetch,
                                edgesTypeError: string, votesTypeError: string)
    : (r: Outcome<seq<PollWithVotes>>)
    ensures pollsFetch.PollsError? ==> r == Err(pollsFetch.error)
    ensures pollsFetch.PollsNoData? || pollsFetch.PollsNoIndex? ==> r == Err("No data found")
    ensures pollsFetch.PollsEdges? && pollsFetch.edges.None? ==> r == Err(edgesTypeError)
    ensures pollsFetch.PollsEdges? && pollsFetch.edges.Some? && PollEntries(pollsFetch.edges.value, fetchVotes).None? ==>
              r == Err(votesTypeError)
    ensures r.Ok? ==> pollsFetch.PollsEdges? && pollsFetch.edges.Some?
                      && Some(r.value) == PollEntries(pollsFetch.edges.value, fetchVotes)
    ensures pollsFetch.PollsEdges? && pollsFetch.edges.Some? && PollEntries(pollsFetch.edges.value, fetchVotes).Some? ==> r.Ok?
  {
    match pollsFetch
    case PollsError(e) => Err(e)
    case PollsNoData => Err("No data found")
    case PollsNoIndex => Err("No data found")
    case PollsEdges(None) => Err(edgesTypeError)
    case PollsEdges(Some(polls)) =>
      match PollEntries(polls, fetchVotes)
      case Some(entries) => Ok(entries)
      case None => Err(votesTypeError)
  }

  /**
   * `getContractWithLatestAudit`: the first edge's node when the
   * `contractAuditIndex.edges` list (`None` when any link of the chain is
   * missing) is non-empty, otherwise null; the query sorts newest first.
   */
  function LatestAudit(edges: Option<seq<ContractAudit>>): (r: Option<ContractAudit>)
    ensures r.Some? <==> edges.Some? && |edges.value| > 0
    ensures r.Some? ==> r.value == edges.value[0]
  {
    if edges.Some? && |edges.value| > 0 then Some(edges.value[0]) else None
  }

  /**
   * The `content` object of `createContract`: the five fixed fields, status
   * always 'pending', then each optional field exactly when supplied.
   * `createdAt` stands for the ISO timestamp taken from the clock. The object
   * is GraphQL input, so it is modelled as a map from field name to value.
   */
  method CreateContractContent(
    contractName: string, description: string, address: string, createdAt: string,
    permissionData: Option<string>, auditMarkdown: Option<string>, score: Option<real>)
    returns (content: map<string, Json>)
    ensures content.Keys == {"contractName", "description", "address", "createdAt", "status"}
                            + (if permissionData.Some? then {"permissionData"} else {})
                            + (if auditMarkdown.Some? then {"auditMarkdown"} else {})
                            + (if score.Some? then {"score"} else {})
    ensures content["contractName"] == JStr(contractName) && content["description"] == JStr(description)
    ensures content["address"] == JStr(address) && content["createdAt"] == JStr(createdAt)
    ensures content["status"] == JStr("pending")
    ensures permissionData.Some? ==> content["permissionData"] == JStr(permissionData.value)
    ensures auditMarkdown.Some? ==> content["auditMarkdown"] == JStr(auditMarkdown.value)
    ensures score.Some? ==> content["score"] == JNum(score.value)
  {
    content := map["contractName" := JStr(contractName), "description" := JStr(description),
                   "address" := JStr(address), "createdAt" := JStr(createdAt), "status" := JStr("pending")];
    if permissionData.Some? {
      content := content["permissionData" := JStr(permissionData.value)];
    }
    if auditMarkdown.Some? {
      content := content["auditMarkdown" := JStr(auditMarkdown.value)];
    }
    if score.Some? {
      content := content["score" := JNum(score.value)];
    }
  }

  /** The `updateContent` object of `updateContractAudit`: exactly the fields passed as defined, and no others. */
  method UpdateContractAuditContent(auditMarkdown: Option<string>, score: Option<real>, status: Option<string>)
    returns (content: map<string, Json>)
    ensures content.Keys == (if auditMarkdown.Some? then {"auditMarkdown"} else {})
                            + (if score.Some? then {"score"} else {})
                            + (if status.Some? then {"status"} else {})
    ensures auditMarkdown.Some? ==> content["auditMarkdown"] == JStr(auditMarkdown.value)
    ensures score.Some? ==> content["score"] == JNum(score.value)
    ensures status.Some? ==> content["status"] == JStr(status.value)
  {
    content := map[];
    if auditMarkdown.Some? {
      content := content["auditMarkdown" := JStr(auditMarkdown.value)];
    }
    if score.Some? {
      content := content["score" := JNum(score.value)];
    }
    if status.Some? {
      content := content["status" := JStr(status.value)];
    }
  }
}
