/**
 * The Ethereum address pattern `^0x[a-fA-F0-9]{40}$` both contract forms
 * validate with: a matcher that reads the pattern left to right, and the
 * plain description it amounts to.
 */
module EthAddress {
  predicate IsHexDigit(c: char) {
    '0' <= c <= '9' || 'a' <= c <= 'f' || 'A' <= c <= 'F'
  }

  /** `[a-fA-F0-9]{n}$`: exactly `n` hex digits and then the end of the input. */
  predicate MatchHexRun(s: string, n: nat)
    decreases n
  {
    if n == 0 then |s| == 0 else |s| > 0 && IsHexDigit(s[0]) && MatchHexRun(s[1..], n - 1)
  }

  /** `^0x[a-fA-F0-9]{40}$`, without multi-line mode: the lower-case `0x` prefix, then the hex run. */
  predicate MatchesEthPattern(s: string) {
    |s| >= 2 && s[0] == '0' && s[1] == 'x' && MatchHexRun(s[2..], 40)
  }

  /** 42 characters: `0x` and forty hex digits of either case. */
  predicate IsEthAddress(s: string) {
    |s| == 42 && s[..2] == "0x" && forall i :: 2 <= i < 42 ==> IsHexDigit(s[i])
  }

  lemma {:induction false} MatchHexRunIff(s: string, n: nat)
    ensures MatchHexRun(s, n) <==> |s| == n && forall i :: 0 <= i < |s| ==> IsHexDigit(s[i])
    decreases n
  {
    if n > 0 && |s| > 0 {
      MatchHexRunIff(s[1..], n - 1);
      if IsHexDigit(s[0]) && forall i :: 0 <= i < |s| - 1 ==> IsHexDigit(s[1..][i]) {
        forall i | 0 <= i < |s| ensures IsHexDigit(s[i]) {
          if i > 0 { assert s[i] == s[1..][i - 1]; }
        }
      }
    }
  }

  /** The pattern accepts exactly the 42-character `0x`-prefixed hex strings. */
  lemma EthPatternIff(s: string)
    ensures MatchesEthPattern(s) <==> IsEthAddress(s)
  {
    if |s| >= 2 {
      MatchHexRunIff(s[2..], 40);
      if |s| == 42 && forall i :: 2 <= i < 42 ==> IsHexDigit(s[i]) {
        assert forall i :: 0 <= i < 40 ==> s[2..][i] == s[i + 2];
      }
      assert s[..2] == "0x" <==> s[0] == '0' && s[1] == 'x';
    }
  }

  /** An upper-case `0X` prefix is refused. */
  lemma UpperPrefixRejected(s: string)
    requires |s| >= 2 && s[1] == 'X'
    ensures !MatchesEthPattern(s)
  {
  }
}
