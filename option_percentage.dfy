/**
 * `getOptionPercentage`: an option's share of the votes as an integer
 * percentage, `Math.round(count / total * 100)`, with 0 for a zero total or
 * an option that has no entry.
 */
module OptionPercentage {
  import opened Wrappers
  import opened ApiTypes

  /**
   * `Math.round(100 * count / total)` in exact arithmetic: the integer nearest
   * to 100·count/total, with halves rounded up. Its defining bracket is
   * `RoundedPercentBracket`, kept out of this function's contract so that
   * callers do not carry the non-linear facts around.
   */
  function RoundedPercent(count: nat, total: nat): nat
    requires total > 0
  {
    (200 * count + total) / (2 * total)
  }

  /** The rounded value r is the integer with 2·total·r <= 200·count + total < 2·total·(r + 1). */
  lemma RoundedPercentBracket(count: nat, total: nat)
    requires total > 0
    ensures 2 * total * RoundedPercent(count, total) <= 200 * count + total < 2 * total * (RoundedPercent(count, total) + 1)
  {
    var n := 200 * count + total;
    var d := 2 * total;
    var q := n / d;
    assert n == d * q + n % d && 0 <= n % d < d;
  }

  /** The same rounding stated over the reals: r - 1/2 <= 100·count/total < r + 1/2. */
  lemma RoundedPercentIsNearest(count: nat, total: nat)
    requires total > 0
    ensures var x := 100.0 * (count as real) / (total as real);
            var r := RoundedPercent(count, total) as real;
            r - 0.5 <= x < r + 0.5
  {
    var r := RoundedPercent(count, total);
    var t := total as real;
    var c := 100.0 * (count as real);
    RoundedPercentBracket(count, total);
    HalfBelow(count, total, r);
    DivLowerBound((r as real) - 0.5, c, t);
    HalfAbove(count, total, r);
    DivUpperBound(c, (r as real) + 0.5, t);
  }

  /** The lower half of the bracket, read over the reals. */
  lemma HalfBelow(count: nat, total: nat, r: nat)
    requires 2 * total * r <= 200 * count + total
    ensures ((r as real) - 0.5) * (total as real) <= 100.0 * (count as real)
  {
    assert ((2 * total * r) as real) <= ((200 * count + total) as real);
    assert ((2 * total * r) as real) == 2.0 * (total as real) * (r as real);
  }

  /** The upper half of the bracket, read over the reals. */
  lemma HalfAbove(count: nat, total: nat, r: nat)
    requires 200 * count + total < 2 * total * (r + 1)
    ensures 100.0 * (count as real) < ((r as real) + 0.5) * (total as real)
  {
    assert ((200 * count + total) as real) < ((2 * total * (r + 1)) as real);
    assert ((2 * total * (r + 1)) as real) == 2.0 * (total as real) * (r as real) + 2.0 * (total as real);
  }

  lemma DivLowerBound(a: real, c: real, t: real)
    requires t > 0.0 && a * t <= c
    ensures a <= c / t
  {
    assert (c / t) * t == c;
    assert (c / t - a) * t >= 0.0;
  }

  lemma DivUpperBound(c: real, b: real, t: real)
    requires t > 0.0 && c < b * t
    ensures c / t < b
  {
    assert (c / t) * t == c;
    assert (b - c / t) * t > 0.0;
  }

  /** Multiplying both sides by the same positive factor keeps a strict order. */
  lemma MulCancelLess(a: int, b: int, t: nat)
    requires t > 0 && t * a < t * (b + 1)
    ensures a <= b
  {
    assert t * (b + 1 - a) > 0;
  }

  /** Counts no larger than the total give a percentage of at most 100. */
  lemma RoundedPercentBounds(count: nat, total: nat)
    requires 0 < total && count <= total
    ensures RoundedPercent(count, total) <= 100
  {
    var r := RoundedPercent(count, total);
    RoundedPercentBracket(count, total);
    assert 2 * total * r <= 200 * count + total <= 200 * total + total < 2 * total * 101;
    MulCancelLess(r, 100, 2 * total);
  }

  /** For a fixed total, more votes never give a smaller percentage. */
  lemma RoundedPercentMonotone(c1: nat, c2: nat, total: nat)
    requires 0 < total && c1 <= c2
    ensures RoundedPercent(c1, total) <= RoundedPercent(c2, total)
  {
    var r1 := RoundedPercent(c1, total);
    var r2 := RoundedPercent(c2, total);
    RoundedPercentBracket(c1, total);
    RoundedPercentBracket(c2, total);
    assert 2 * total * r1 <= 200 * c1 + total <= 200 * c2 + total < 2 * total * (r2 + 1);
    MulCancelLess(r1, r2, 2 * total);
  }

  /** `votesByOption.find(item => item.option.id === optionId)`: the index of the first entry for the option. */
  function FindGroup(groups: seq<VoteGroup>, optionId: string): (r: Option<nat>)
    ensures r.Some? ==> r.value < |groups| && groups[r.value].option.id == optionId
    ensures r.Some? ==> forall j :: 0 <= j < r.value ==> groups[j].option.id != optionId
    ensures r.None? ==> forall j :: 0 <= j < |groups| ==> groups[j].option.id != optionId
  {
    if |groups| == 0 then None
    else if groups[0].option.id == optionId then Some(0)
    else match FindGroup(groups[1..], optionId)
      case None => None
      case Some(i) => Some(i + 1)
  }

  /** The vote count `getOptionPercentage` reads for an option: the first matching entry's, else 0. */
  function CountFor(groups: seq<VoteGroup>, optionId: string): nat
  {
    match FindGroup(groups, optionId)
    case Some(i) => groups[i].votesCount
    case None => 0
  }

  function GetOptionPercentage(optionId: string, groups: seq<VoteGroup>, total: nat): (r: nat)
    ensures total == 0 ==> r == 0
    ensures (forall j :: 0 <= j < |groups| ==> groups[j].option.id != optionId) ==> r == 0
    ensures forall i :: 0 <= i < |groups| && groups[i].option.id == optionId
                        && (forall j :: 0 <= j < i ==> groups[j].option.id != optionId)
                        && total > 0
                        ==> r == RoundedPercent(groups[i].votesCount, total)
  {
    if total == 0 then 0 else RoundedPercent(CountFor(groups, optionId), total)
  }

  /** When the option's count is at most the total, the percentage is within 0..100. */
  lemma GetOptionPercentageBounds(optionId: string, groups: seq<VoteGroup>, total: nat)
    requires CountFor(groups, optionId) <= total
    ensures GetOptionPercentage(optionId, groups, total) <= 100
  {
    if total > 0 {
      RoundedPercentBounds(CountFor(groups, optionId), total);
    }
  }

  /** Appending entries does not move the first match. */
  lemma {:induction false} FindGroupAppend(groups: seq<VoteGroup>, later: VoteGroup, optionId: string)
    requires FindGroup(groups, optionId).Some?
    ensures FindGroup(groups + [later], optionId) == FindGroup(groups, optionId)
  {
    if groups[0].option.id != optionId {
      assert (groups + [later])[1..] == groups[1..] + [later];
      FindGroupAppend(groups[1..], later, optionId);
    }
  }

  /** Only the first entry with the option's id counts: a later duplicate has no effect. */
  lemma FirstEntryWins(optionId: string, groups: seq<VoteGroup>, later: VoteGroup, total: nat)
    requires exists i :: 0 <= i < |groups| && groups[i].option.id == optionId
    ensures GetOptionPercentage(optionId, groups + [later], total) == GetOptionPercentage(optionId, groups, total)
  {
    FindGroupAppend(groups, later, optionId);
    var k := FindGroup(groups, optionId);
    assert (groups + [later])[k.value] == groups[k.value];
  }
}
