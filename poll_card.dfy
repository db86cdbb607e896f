/**
 * The poll card of the polls list. Its state is the viewer's selections and
 * an optional percentage table; effects copy the selected options in,
 * recompute the table for the viewer's optimistic votes, and reset it to the
 * precomputed percentages. The props (totalVotes, votesByOption, options)
 * come from the parent and are passed to each effect.
 */
module PollCard {
  import opened Wrappers
  import opened StringOps
  import opened ApiTypes
  import opened OptionPercentage
  import PollReadonlyBlock

  /** The card tests the shorter prefix 'temp-id'. */
  const CardTempPrefix: string := "temp-id"

  /** `selection.id?.startsWith('temp-id')`. */
  predicate IsTempVote(v: Vote) {
    v.id.Some? && StartsWith(v.id.value, CardTempPrefix)
  }

  /** A vote the read-only block counts as temporary is temporary for the card too. */
  lemma BlockTempIsCardTemp(v: Vote)
    requires PollReadonlyBlock.IsTemp(v)
    ensures IsTempVote(v)
  {
    assert PollReadonlyBlock.TempPrefix[..|CardTempPrefix|] == CardTempPrefix;
    assert v.id.value[..|CardTempPrefix|] == v.id.value[..|PollReadonlyBlock.TempPrefix|][..|CardTempPrefix|];
  }

  /** `pollSelections.filter(sel => sel.id?.startsWith('temp-id')).length`. */
  function TempVotes(selections: seq<Vote>): (n: nat)
    ensures n <= |selections|
  {
    if |selections| == 0 then 0
    else (if IsTempVote(selections[0]) then 1 else 0) + TempVotes(selections[1..])
  }

  lemma {:induction false} TempVotesPositive(selections: seq<Vote>, i: nat)
    requires i < |selections| && IsTempVote(selections[i])
    ensures TempVotes(selections) > 0
  {
    if i > 0 {
      assert selections[1..][i - 1] == selections[i];
      TempVotesPositive(selections[1..], i - 1);
    }
  }

  /** Some selection is temporary: `pollSelections.find(selection => selection.id?.startsWith('temp-id'))`. */
  predicate HasTempVote(selections: seq<Vote>) {
    exists i :: 0 <= i < |selections| && IsTempVote(selections[i])
  }

  /**
   * The value the recompute loop writes for one selection: the option's
   * count, plus one when this selection is temporary, over the total plus
   * all temporary selections.
   */
  function SelectionPercent(groups: seq<VoteGroup>, selection: Vote, selections: seq<Vote>, totalVotes: nat): nat
    requires TempVotes(selections) > 0
  {
    RoundedPercent(CountFor(groups, selection.optionID) + (if IsTempVote(selection) then 1 else 0),
                   totalVotes + TempVotes(selections))
  }

  /** A value written for a selection of the list is a percentage when the option's count is at most `totalVotes`. */
  lemma SelectionPercentBounds(groups: seq<VoteGroup>, selections: seq<Vote>, i: nat, totalVotes: nat)
    requires i < |selections| && TempVotes(selections) > 0
    requires CountFor(groups, selections[i].optionID) <= totalVotes
    ensures SelectionPercent(groups, selections[i], selections, totalVotes) <= 100
  {
    var c := CountFor(groups, selections[i].optionID) + (if IsTempVote(selections[i]) then 1 else 0);
    var t := totalVotes + TempVotes(selections);
    if IsTempVote(selections[i]) {
      TempVotesPositive(selections, i);
    }
    assert c <= t;
    RoundedPercentBounds(c, t);
  }

  /** The option ids the selections name. */
  function SelectedIds(selections: seq<Vote>): set<string> {
    set i | 0 <= i < |selections| :: selections[i].optionID
  }

  /** Selection i is the last one for its option, so the loop's final write for that option is its own. */
  predicate LastForOption(selections: seq<Vote>, i: nat, upTo: nat)
    requires i < upTo <= |selections|
  {
    forall l :: i < l < upTo ==> selections[l].optionID != selections[i].optionID
  }

  lemma SelectedIdsSnoc(selections: seq<Vote>, i: nat)
    requires i < |selections|
    ensures SelectedIds(selections[..i + 1]) == SelectedIds(selections[..i]) + {selections[i].optionID}
  {
    var a := selections[..i + 1];
    var b := selections[..i];
    forall x | x in SelectedIds(a) ensures x in SelectedIds(b) + {selections[i].optionID} {
      var j :| 0 <= j < |a| && a[j].optionID == x;
      if j < i { assert b[j] == a[j]; }
    }
    forall x | x in SelectedIds(b) ensures x in SelectedIds(a) {
      var j :| 0 <= j < |b| && b[j].optionID == x;
      assert a[j] == b[j];
    }
  }

  /** The table after the loop has processed the first k selections, each overwriting its option's key. */
  function Applied(prev: map<string, nat>, selections: seq<Vote>, k: nat, groups: seq<VoteGroup>, totalVotes: nat): map<string, nat>
    requires k <= |selections| && TempVotes(selections) > 0
  {
    if k == 0 then prev
    else Applied(prev, selections, k - 1, groups, totalVotes)[selections[k - 1].optionID
           := SelectionPercent(groups, selections[k - 1], selections, totalVotes)]
  }

  /** After k selections the keys are the previous ones plus every option the first k selections name. */
  lemma {:induction false} AppliedKeys(prev: map<string, nat>, selections: seq<Vote>, k: nat, groups: seq<VoteGroup>, totalVotes: nat)
    requires k <= |selections| && TempVotes(selections) > 0
    ensures Applied(prev, selections, k, groups, totalVotes).Keys == prev.Keys + SelectedIds(selections[..k])
  {
    if k > 0 {
      AppliedKeys(prev, selections, k - 1, groups, totalVotes);
      SelectedIdsSnoc(selections, k - 1);
    } else {
      assert selections[..0] == [];
    }
  }

  /** An option none of the first k selections names keeps its previous value. */
  lemma {:induction false} AppliedKeepsOthers(prev: map<string, nat>, selections: seq<Vote>, k: nat, groups: seq<VoteGroup>, totalVotes: nat, key: string)
    requires k <= |selections| && TempVotes(selections) > 0
    requires key in prev && forall j :: 0 <= j < k ==> selections[j].optionID != key
    ensures key in Applied(prev, selections, k, groups, totalVotes)
    ensures Applied(prev, selections, k, groups, totalVotes)[key] == prev[key]
  {
    if k > 0 {
      AppliedKeepsOthers(prev, selections, k - 1, groups, totalVotes, key);
    }
  }

  /** The last of the first k selections naming an option decides its value. */
  lemma {:induction false} AppliedLastWrite(prev: map<string, nat>, selections: seq<Vote>, k: nat, groups: seq<VoteGroup>, totalVotes: nat, j: nat)
    requires k <= |selections| && TempVotes(selections) > 0
    requires j < k && LastForOption(selections, j, k)
    ensures selections[j].optionID in Applied(prev, selections, k, groups, totalVotes)
    ensures Applied(prev, selections, k, groups, totalVotes)[selections[j].optionID]
            == SelectionPercent(groups, selections[j], selections, totalVotes)
  {
    if j < k - 1 {
      assert LastForOption(selections, j, k - 1);
      assert selections[k - 1].optionID != selections[j].optionID;
      AppliedLastWrite(prev, selections, k - 1, groups, totalVotes, j);
    }
  }

  /**
   * The `forEach` of the recompute effect on a copy of the previous table:
   * the keys are the previous ones plus every selected option; an option no
   * selection names keeps its value; a selected option gets the value of the
   * last selection naming it.
   */
  method ApplySelections(prev: map<string, nat>, selections: seq<Vote>, groups: seq<VoteGroup>, totalVotes: nat)
    returns (next: map<string, nat>)
    requires TempVotes(selections) > 0
    ensures next.Keys == prev.Keys + SelectedIds(selections)
    ensures forall k :: k in prev && k !in SelectedIds(selections) ==> next[k] == prev[k]
    ensures forall i :: 0 <= i < |selections| && LastForOption(selections, i, |selections|) ==>
              next[selections[i].optionID] == SelectionPercent(groups, selections[i], selections, totalVotes)
  {
    next := prev;
    var i := 0;
    while i < |selections|
      invariant 0 <= i <= |selections|
      invariant next == Applied(prev, selections, i, groups, totalVotes)
    {
      var selection := selections[i];
      var selId := selection.optionID;
      var selVoteCount := CountFor(groups, selId);
      var newTotalVotes := totalVotes + TempVotes(selections);
      if IsTempVote(selection) {
        selVoteCount := selVoteCount + 1;
      }
      next := next[selId := RoundedPercent(selVoteCount, newTotalVotes)];
      i := i + 1;
    }
    assert selections[..|selections|] == selections;
    AppliedKeys(prev, selections, |selections|, groups, totalVotes);
    forall k | k in prev && k !in SelectedIds(selections) ensures next[k] == prev[k] {
      AppliedKeepsOthers(prev, selections, |selections|, groups, totalVotes, k);
    }
    forall i | 0 <= i < |selections| && LastForOption(selections, i, |selections|)
      ensures next[selections[i].optionID] == SelectionPercent(groups, selections[i], selections, totalVotes)
    {
      AppliedLastWrite(prev, selections, |selections|, groups, totalVotes, i);
    }
  }

  /** One card option: its id, its name, and the percentage the parent computed. */
  datatype CardOption = CardOption(id: string, name: string, percentage: nat)

  function CardOptionIds(options: seq<CardOption>): set<string> {
    set i | 0 <= i < |options| :: options[i].id
  }

  /** The `reduce` of the reset effect: each option's precomputed percentage, a later duplicate id overwriting an earlier one. */
  method PrecomputedTable(options: seq<CardOption>) returns (table: map<string, nat>)
    ensures table.Keys == CardOptionIds(options)
    ensures forall i :: 0 <= i < |options| && (forall l :: i < l < |options| ==> options[l].id != options[i].id) ==>
              table[options[i].id] == options[i].percentage
  {
    table := map[];
    var i := 0;
    while i < |options|
      invariant 0 <= i <= |options|
      invariant table.Keys == CardOptionIds(options[..i])
      invariant forall j :: 0 <= j < i && (forall l :: j < l < i ==> options[l].id != options[j].id) ==>
                  table[options[j].id] == options[j].percentage
    {
      table := table[options[i].id := options[i].percentage];
      assert options[..i + 1] == options[..i] + [options[i]];
      forall x | x in CardOptionIds(options[..i + 1]) ensures x in CardOptionIds(options[..i]) + {options[i].id} {
        var j :| 0 <= j < i + 1 && options[..i + 1][j].id == x;
        if j < i { assert options[..i][j] == options[..i + 1][j]; }
      }
      forall x | x in CardOptionIds(options[..i]) ensures x in CardOptionIds(options[..i + 1]) {
        var j :| 0 <= j < i && options[..i][j].id == x;
        assert options[..i + 1][j] == options[..i][j];
      }
      forall j | 0 <= j < i + 1 && (forall l :: j < l < i + 1 ==> options[l].id != options[j].id)
        ensures table[options[j].id] == options[j].percentage
      {
        if j < i {
          assert options[i].id != options[j].id;
        }
      }
      i := i + 1;
    }
    assert options[..i] == options;
  }

  class Card {
    /** `pollSelections`. */
    var selections: seq<Vote>
    /** `votePercentage`, undefined until an effect sets it. */
    var percentages: Option<map<string, nat>>

    constructor ()
      ensures selections == [] && percentages == None
    {
      selections := [];
      percentages := None;
    }

    /** The first effect: copy `selectedOptions` in when it is given. */
    method SyncSelectedOptions(selectedOptions: Option<seq<Vote>>)
      modifies this
      ensures selections == if selectedOptions.Some? then selectedOptions.value else old(selections)
      ensures percentages == old(percentages)
    {
      if selectedOptions.Some? {
        selections := selectedOptions.value;
      }
    }

    /**
     * The second effect: an undefined table becomes `{}`; without a
     * temporary selection the table stays; otherwise the selections are
     * applied to a copy of it.
     */
    method RecomputePercentages(groups: seq<VoteGroup>, totalVotes: nat)
      modifies this
      ensures selections == old(selections)
      ensures old(percentages).None? ==> percentages == Some(map[])
      ensures old(percentages).Some? && !HasTempVote(selections) ==> percentages == old(percentages)
      ensures old(percentages).Some? && HasTempVote(selections) ==>
                percentages.Some?
                && percentages.value.Keys == old(percentages).value.Keys + SelectedIds(selections)
                && (forall k :: k in old(percentages).value && k !in SelectedIds(selections) ==>
                      percentages.value[k] == old(percentages).value[k])
                && TempVotes(selections) > 0
                && (forall i :: 0 <= i < |selections| && LastForOption(selections, i, |selections|) ==>
                      percentages.value[selections[i].optionID]
                      == SelectionPercent(groups, selections[i], selections, totalVotes))
    {
      if percentages.None? {
        percentages := Some(map[]);
        return;
      }
      if !HasTempVote(selections) {
        return;
      }
      var i :| 0 <= i < |selections| && IsTempVote(selections[i]);
      TempVotesPositive(selections, i);
      var next := ApplySelections(percentages.value, selections, groups, totalVotes);
      percentages := Some(next);
    }

    /** The third effect: with a positive total the table is replaced by the precomputed percentages. */
    method ResetPercentages(options: seq<CardOption>, totalVotes: nat)
      modifies this
      ensures selections == old(selections)
      ensures totalVotes == 0 ==> percentages == old(percentages)
      ensures totalVotes > 0 ==>
                percentages.Some? && percentages.value.Keys == CardOptionIds(options)
                && forall i :: 0 <= i < |options| && (forall l :: i < l < |options| ==> options[l].id != options[i].id) ==>
                     percentages.value[options[i].id] == options[i].percentage
    {
      if totalVotes > 0 {
        var table := PrecomputedTable(options);
        percentages := Some(table);
      }
    }

    /** `onVote`: append one temporary selection; the table is left to the recompute effect. */
    method OnVote(pollId: string, optionId: string, loggedDid: string)
      modifies this
      ensures selections == old(selections) + [ApiTypes.Vote(Some("temp-id_" + optionId), pollId, optionId, true, loggedDid)]
      ensures percentages == old(percentages)
      ensures IsTempVote(selections[|selections| - 1]) && HasTempVote(selections)
    {
      selections := selections + [ApiTypes.Vote(Some("temp-id_" + optionId), pollId, optionId, true, loggedDid)];
      assert ("temp-id_" + optionId)[..|CardTempPrefix|] == CardTempPrefix;
      assert IsTempVote(selections[|selections| - 1]);
    }

    /** `votePercentage?.[option.id] || 0`. */
    function Displayed(optionId: string): (r: nat)
      reads this
      ensures percentages.None? || optionId !in percentages.value ==> r == 0
      ensures percentages.Some? && optionId in percentages.value ==> r == percentages.value[optionId]
    {
      if percentages.Some? && optionId in percentages.value then percentages.value[optionId] else 0
    }

    /** `!!pollSelections.find(selection => selection.optionID === option.id)`. */
    predicate IsSelected(optionId: string)
      reads this
    {
      optionId in SelectedIds(selections)
    }
  }

  /** After voting for an option and recomputing, the option shows as selected and the table has its key. */
  method VoteThenRecompute(card: Card, pollId: string, optionId: string, did: string, groups: seq<VoteGroup>, totalVotes: nat)
    modifies card
    requires card.percentages.Some?
    ensures card.IsSelected(optionId)
    ensures card.percentages.Some? && optionId in card.percentages.value
  {
    card.OnVote(pollId, optionId, did);
    assert card.selections[|card.selections| - 1].optionID == optionId;
    card.RecomputePercentages(groups, totalVotes);
  }
}
