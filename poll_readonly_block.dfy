/**
 * The read-only poll content block: the viewer's selections taken from the
 * fetched votes, the percentage table `votePercentages` (recomputed with the
 * viewer's optimistic "temp-id_" votes), voting, and what the block shows.
 */
module PollReadonlyBlock {
  import opened Wrappers
  import opened StringOps
  import opened ApiTypes
  import opened OptionPercentage
  import opened PollApi

  /** The id prefix of a vote added locally before the network has stored it. */
  const TempPrefix: string := "temp-id_"

  /** `vote.id?.startsWith('temp-id_')`. */
  predicate IsTemp(v: Vote) {
    v.id.Some? && StartsWith(v.id.value, TempPrefix)
  }

  /** `selections.filter(v => v.id?.startsWith('temp-id_')).length`. */
  function TempCount(selections: seq<Vote>): (n: nat)
    ensures n <= |selections|
  {
    if |selections| == 0 then 0
    else (if IsTemp(selections[0]) then 1 else 0) + TempCount(selections[1..])
  }

  /** The temporary selections for one option. */
  function TempsFor(selections: seq<Vote>, optionId: string): nat {
    if |selections| == 0 then 0
    else (if IsTemp(selections[0]) && selections[0].optionID == optionId then 1 else 0)
         + TempsFor(selections[1..], optionId)
  }

  /** `pollSelections.some(vote => vote.id?.startsWith('temp-id_'))` holds exactly when the temp count is positive. */
  lemma {:induction false} TempCountPositive(selections: seq<Vote>)
    ensures TempCount(selections) > 0 <==> exists i :: 0 <= i < |selections| && IsTemp(selections[i])
  {
    if |selections| > 0 {
      TempCountPositive(selections[1..]);
      if !IsTemp(selections[0]) && TempCount(selections[1..]) == 0 {
        assert forall i :: 1 <= i < |selections| ==> selections[i] == selections[1..][i - 1];
      }
    }
  }

  /** One option's temporary selections are among all temporary selections. */
  lemma {:induction false} TempsForAtMostTempCount(selections: seq<Vote>, optionId: string)
    ensures TempsFor(selections, optionId) <= TempCount(selections)
  {
    if |selections| > 0 {
      TempsForAtMostTempCount(selections[1..], optionId);
    }
  }

  /** A falsy `authenticatedDID` (null or empty) disables the selection update. */
  predicate DidTruthy(did: Option<string>) {
    did.Some? && did.value != ""
  }

  /**
   * The effect that loads the viewer's selections: when signed in and the
   * response has votes and a poll, the fetched votes cast by the viewer on
   * this poll; otherwise the previous selections stay.
   */
  function SyncSelections(previous: seq<Vote>, data: Option<PollData>, did: Option<string>): (r: seq<Vote>)
    ensures !DidTruthy(did) || data.None? || data.value.poll.None? ==> r == previous
    ensures DidTruthy(did) && data.Some? && data.value.poll.Some? ==>
              |r| <= |data.value.votes|
              && forall v :: v in r <==> v in data.value.votes && v.voterId == did.value
                                         && v.pollID == data.value.poll.value.id
  {
    if !DidTruthy(did) || data.None? || data.value.poll.None? then previous
    else ViewerVotes(data.value.votes, did.value, data.value.poll.value.id)
  }

  /** `votes.filter(vote => vote.voter.id === did && vote.pollID === pollId)`. */
  function ViewerVotes(votes: seq<Vote>, did: string, pollId: string): (r: seq<Vote>)
    ensures |r| <= |votes|
    ensures forall v :: v in r <==> v in votes && v.voterId == did && v.pollID == pollId
  {
    if |votes| == 0 then []
    else (if votes[0].voterId == did && votes[0].pollID == pollId then [votes[0]] else [])
         + ViewerVotes(votes[1..], did, pollId)
  }

  /** Votes read back from the network carry no id (the query does not select it), so they are never temporary. */
  lemma {:induction false} FetchedSelectionsHaveNoTemps(votes: seq<Vote>)
    requires forall i :: 0 <= i < |votes| ==> votes[i].id.None?
    ensures TempCount(votes) == 0
  {
    if |votes| > 0 {
      TempCountPositive(votes);
    }
  }

  /** The temp-branch value of one entry: its count plus its own temporary selections, over the total plus all temporary selections. */
  function TempPercent(g: VoteGroup, selections: seq<Vote>, totalVotes: nat): nat
    requires TempCount(selections) > 0
  {
    RoundedPercent(g.votesCount + TempsFor(selections, g.option.id), totalVotes + TempCount(selections))
  }

  /** When the entry's count is at most `totalVotes`, the temp-branch value is a percentage. */
  lemma TempPercentBounds(g: VoteGroup, selections: seq<Vote>, totalVotes: nat)
    requires TempCount(selections) > 0 && g.votesCount <= totalVotes
    ensures TempPercent(g, selections, totalVotes) <= 100
  {
    TempsForAtMostTempCount(selections, g.option.id);
    RoundedPercentBounds(g.votesCount + TempsFor(selections, g.option.id), totalVotes + TempCount(selections));
  }

  /** For entries grouped from the fetched votes, every temp-branch value lies in 0..100. */
  lemma GroupedTempPercentBounds(options: seq<PollOption>, votes: seq<Vote>, selections: seq<Vote>, i: nat)
    requires TempCount(selections) > 0 && i < |options|
    ensures TempPercent(GroupVotes(options, votes)[i], selections, |votes|) <= 100
  {
    TempPercentBounds(GroupVotes(options, votes)[i], selections, |votes|);
  }

  /** The option ids the table has a key for: every entry's, duplicates collapsing. */
  function GroupIds(groups: seq<VoteGroup>): set<string> {
    set j | 0 <= j < |groups| :: groups[j].option.id
  }

  /** Entry i is the last one with its option id, so its write into the table is the one that stays. */
  predicate LastWithId(groups: seq<VoteGroup>, i: nat, upTo: nat)
    requires i < upTo <= |groups|
  {
    forall l :: i < l < upTo ==> groups[l].option.id != groups[i].option.id
  }

  lemma GroupIdsSnoc(groups: seq<VoteGroup>, i: nat)
    requires i < |groups|
    ensures GroupIds(groups[..i + 1]) == GroupIds(groups[..i]) + {groups[i].option.id}
  {
    var a := groups[..i + 1];
    var b := groups[..i];
    assert a == b + [groups[i]];
    assert forall x :: x in GroupIds(a) ==> x in GroupIds(b) + {groups[i].option.id} by {
      forall x | x in GroupIds(a) ensures x in GroupIds(b) + {groups[i].option.id} {
        var j :| 0 <= j < |a| && a[j].option.id == x;
        if j < i { assert b[j] == a[j]; }
      }
    }
    assert forall x :: x in GroupIds(b) ==> x in GroupIds(a) by {
      forall x | x in GroupIds(b) ensures x in GroupIds(a) {
        var j :| 0 <= j < |b| && b[j].option.id == x;
        assert a[j] == b[j];
      }
    }
    assert a[i] == groups[i];
  }

  /** The table after the `reduce` has processed the first `upTo` entries of the temp branch. */
  ghost predicate TempTableUpTo(groups: seq<VoteGroup>, selections: seq<Vote>, totalVotes: nat, acc: map<string, nat>, upTo: nat)
    requires TempCount(selections) > 0 && upTo <= |groups|
  {
    acc.Keys == GroupIds(groups[..upTo])
    && forall j :: 0 <= j < upTo && LastWithId(groups, j, upTo) ==>
         acc[groups[j].option.id] == TempPercent(groups[j], selections, totalVotes)
  }

  /** Writing entry i's value keeps the table right for one more entry. */
  lemma TempTableStep(groups: seq<VoteGroup>, selections: seq<Vote>, totalVotes: nat, acc: map<string, nat>, i: nat)
    requires TempCount(selections) > 0 && i < |groups|
    requires TempTableUpTo(groups, selections, totalVotes, acc, i)
    ensures TempTableUpTo(groups, selections, totalVotes,
                          acc[groups[i].option.id := TempPercent(groups[i], selections, totalVotes)], i + 1)
  {
    var next := acc[groups[i].option.id := TempPercent(groups[i], selections, totalVotes)];
    GroupIdsSnoc(groups, i);
    forall j | 0 <= j < i + 1 && LastWithId(groups, j, i + 1)
      ensures next[groups[j].option.id] == TempPercent(groups[j], selections, totalVotes)
    {
      if j < i {
        assert LastWithId(groups, j, i);
        assert groups[j].option.id != groups[i].option.id;
      }
    }
  }

  /** The first `reduce` of `votePercentages`, used once some selection is temporary. */
  method TempPercentages(groups: seq<VoteGroup>, selections: seq<Vote>, totalVotes: nat) returns (acc: map<string, nat>)
    requires TempCount(selections) > 0
    ensures acc.Keys == GroupIds(groups)
    ensures forall i :: 0 <= i < |groups| && LastWithId(groups, i, |groups|) ==>
              acc[groups[i].option.id] == TempPercent(groups[i], selections, totalVotes)
  {
    acc := map[];
    var i := 0;
    assert groups[..0] == [];
    while i < |groups|
      invariant 0 <= i <= |groups|
      invariant TempTableUpTo(groups, selections, totalVotes, acc, i)
    {
      var optionId := groups[i].option.id;
      var totalV := totalVotes + TempCount(selections);
      var voteCount := groups[i].votesCount + TempsFor(selections, optionId);
      assert RoundedPercent(voteCount, totalV) == TempPercent(groups[i], selections, totalVotes);
      TempTableStep(groups, selections, totalVotes, acc, i);
      acc := acc[optionId := RoundedPercent(voteCount, totalV)];
      i := i + 1;
    }
    assert groups[..i] == groups;
  }

  /** The second `reduce` of `votePercentages`: `getOptionPercentage` for every entry. */
  method InitialPercentages(groups: seq<VoteGroup>, totalVotes: nat) returns (acc: map<string, nat>)
    ensures acc.Keys == GroupIds(groups)
    ensures forall k :: k in acc ==> acc[k] == GetOptionPercentage(k, groups, totalVotes)
  {
    acc := map[];
    var i := 0;
    while i < |groups|
      invariant 0 <= i <= |groups|
      invariant acc.Keys == GroupIds(groups[..i])
      invariant forall k :: k in acc ==> acc[k] == GetOptionPercentage(k, groups, totalVotes)
    {
      var optionId := groups[i].option.id;
      acc := acc[optionId := GetOptionPercentage(optionId, groups, totalVotes)];
      GroupIdsSnoc(groups, i);
      i := i + 1;
    }
    assert groups[..i] == groups;
  }

  /**
   * `votePercentages`: `{}` unless the response has data and votesByOption
   * and the viewer has a selection; then one key per entry, holding the
   * temp-branch value when some selection is temporary and
   * `getOptionPercentage` otherwise.
   */
  method VotePercentages(data: Option<PollData>, selections: seq<Vote>) returns (acc: map<string, nat>)
    ensures data.None? || data.value.votesByOption.None? || |selections| == 0 ==> acc == map[]
    ensures data.Some? && data.value.votesByOption.Some? && |selections| > 0 ==>
              acc.Keys == GroupIds(data.value.votesByOption.value)
    ensures data.Some? && data.value.votesByOption.Some? && |selections| > 0 && TempCount(selections) == 0 ==>
              forall k :: k in acc ==> acc[k] == GetOptionPercentage(k, data.value.votesByOption.value, data.value.totalVotes)
    ensures data.Some? && data.value.votesByOption.Some? && TempCount(selections) > 0 ==>
              var groups := data.value.votesByOption.value;
              forall i :: 0 <= i < |groups| && LastWithId(groups, i, |groups|) ==>
                acc[groups[i].option.id] == TempPercent(groups[i], selections, data.value.totalVotes)
  {
    if data.None? || data.value.votesByOption.None? || |selections| == 0 {
      return map[];
    }
    if TempCount(selections) > 0 {
      acc := TempPercentages(data.value.votesByOption.value, selections, data.value.totalVotes);
    } else {
      acc := InitialPercentages(data.value.votesByOption.value, data.value.totalVotes);
    }
  }

  /** `votePercentages[option.id] ?? 0`. */
  function DisplayedPercentage(percentages: map<string, nat>, optionId: string): (r: nat)
    ensures optionId !in percentages ==> r == 0
    ensures optionId in percentages ==> r == percentages[optionId]
  {
    if optionId in percentages then percentages[optionId] else 0
  }

  /** The vote count under the options: the fetched total plus the viewer's temporary votes. */
  function DisplayedTotal(totalVotes: nat, selections: seq<Vote>): (r: nat)
    ensures totalVotes <= r <= totalVotes + |selections|
  {
    totalVotes + TempCount(selections)
  }

  /** `pollSelections.some(vote => vote.optionID === option.id)`. */
  predicate Selected(selections: seq<Vote>, optionId: string) {
    exists i :: 0 <= i < |selections| && selections[i].optionID == optionId
  }

  /** `onVote`: append one temporary selection for the option, cast by the viewer on this block's poll. */
  function OnVote(selections: seq<Vote>, pollId: string, optionId: string, did: string): (r: seq<Vote>)
    ensures |r| == |selections| + 1 && r[..|selections|] == selections
    ensures r[|selections|].optionID == optionId && r[|selections|].pollID == pollId
    ensures IsTemp(r[|selections|]) && r[|selections|].id == Some(TempPrefix + optionId)
  {
    selections + [Vote(Some(TempPrefix + optionId), pollId, optionId, true, did)]
  }

  lemma {:induction false} TempCountAppend(selections: seq<Vote>, v: Vote)
    ensures TempCount(selections + [v]) == TempCount(selections) + (if IsTemp(v) then 1 else 0)
  {
    if |selections| > 0 {
      assert (selections + [v])[1..] == selections[1..] + [v];
      TempCountAppend(selections[1..], v);
    } else {
      assert selections + [v] == [v];
    }
  }

  lemma {:induction false} TempsForAppend(selections: seq<Vote>, v: Vote, optionId: string)
    ensures TempsFor(selections + [v], optionId)
            == TempsFor(selections, optionId) + (if IsTemp(v) && v.optionID == optionId then 1 else 0)
  {
    if |selections| > 0 {
      assert (selections + [v])[1..] == selections[1..] + [v];
      TempsForAppend(selections[1..], v, optionId);
    } else {
      assert selections + [v] == [v];
    }
  }

  /**
   * After voting, the displayed total grows by one, the chosen option gains
   * one temporary vote, every other option keeps its count, and the option
   * shows as selected.
   */
  lemma OnVoteEffect(selections: seq<Vote>, pollId: string, optionId: string, did: string, other: string, totalVotes: nat)
    requires other != optionId
    ensures var after := OnVote(selections, pollId, optionId, did);
            DisplayedTotal(totalVotes, after) == DisplayedTotal(totalVotes, selections) + 1
            && TempsFor(after, optionId) == TempsFor(selections, optionId) + 1
            && TempsFor(after, other) == TempsFor(selections, other)
            && Selected(after, optionId)
  {
    var v := Vote(Some(TempPrefix + optionId), pollId, optionId, true, did);
    assert OnVote(selections, pollId, optionId, did) == selections + [v];
    TempCountAppend(selections, v);
    TempsForAppend(selections, v, optionId);
    TempsForAppend(selections, v, other);
    assert (selections + [v])[|selections|] == v;
  }

  /** What the block renders: a loading note, the error, a not-found note, or the poll. */
  datatype View = Loading | LoadError(message: string) | NotFound | ShowPoll(poll: Poll)

  /** `if (response.error)`: an error string is truthy only when it is non-empty. */
  predicate TruthyError(error: Option<string>) {
    error.Some? && error.value != ""
  }

  function BlockView(response: Option<PollByIdResult>): (v: View)
    ensures v.ShowPoll? <==> response.Some? && response.value.data.Some? && !TruthyError(response.value.error)
                             && response.value.data.value.poll.Some?
    ensures v.LoadError? <==> response.Some? && response.value.data.Some? && TruthyError(response.value.error)
    ensures v.LoadError? ==> v.message != "" && Some(v.message) == response.value.error
  {
    if response.None? || response.value.data.None? then Loading
    else if TruthyError(response.value.error) then LoadError(response.value.error.value)
    else if response.value.data.value.poll.None? then NotFound
    else ShowPoll(response.value.data.value.poll.value)
  }

  /**
   * A failed vote fetch shows its error only when the message is non-empty:
   * with an empty message the poll is shown (or 'Poll not found'), with no votes.
   */
  lemma VoteFetchErrorView(node: Option<Poll>, message: string, typeError: string)
    ensures var v := BlockView(Some(GetPollById(PollNode(node), VotesError(message), typeError)));
            (message != "" ==> v == LoadError(message))
            && (message == "" && node.Some? ==> v == ShowPoll(node.value))
            && (message == "" && node.None? ==> v == NotFound)
  {
  }
}
