/**
 * The DID line of the profile avatar button: DID validity, middle
 * truncation, the network classification that picks the icon, the avatar
 * size table, and what the DID field shows.
 */
module ProfileAvatarButton {
  import opened StringOps

  /** `DID_SCHEMA`: at least 5 characters, starting with `did:`. */
  predicate IsValidDid(s: string) {
    |s| >= 5 && StartsWith(s, "did:")
  }

  /** A valid DID has something after the `did:` prefix. */
  lemma ValidDidHasBody(s: string)
    requires IsValidDid(s)
    ensures |s| > |"did:"| && s[..4] == "did:"
  {
  }

  function Min(a: nat, b: nat): nat {
    if a <= b then a else b
  }

  /**
   * `truncateMiddle`: '' for '', otherwise the first `startChars` and the
   * last `endChars` characters (each clamped to the string) around '...'.
   */
  function TruncateMiddle(s: string, startChars: nat, endChars: nat): (r: string)
    ensures s == "" ==> r == ""
    ensures s != "" ==> r == s[..Min(startChars, |s|)] + "..." + s[|s| - Min(endChars, |s|)..]
    ensures s != "" ==> |r| == Min(startChars, |s|) + 3 + Min(endChars, |s|)
  {
    if s == "" then "" else Substring(s, 0, startChars) + "..." + Substring(s, |s| - endChars, |s|)
  }

  /** Truncation only shortens a string longer than the kept characters and the ellipsis. */
  lemma TruncateMiddleShortens(s: string, startChars: nat, endChars: nat)
    requires |s| > startChars + endChars + 3
    ensures |TruncateMiddle(s, startChars, endChars)| < |s|
  {
  }

  /** A short input comes out longer: both ends overlap it. */
  lemma TruncateMiddleShortInput()
    ensures TruncateMiddle("abc", 6, 4) == "abc...abc"
  {
    assert "abc"[..3] == "abc" && "abc"[0..] == "abc";
  }

  /** `split(':').pop() || ''`: the text after the last ':'. */
  function LastSegment(s: string): (r: string)
    ensures ':' !in r
    ensures |r| <= |s|
  {
    var parts := Split(s, ':');
    LastSplitPartIsSuffix(s);
    parts[|parts| - 1]
  }

  lemma {:induction false} LastSplitPartIsSuffix(s: string)
    ensures EndsWith(s, Split(s, ':')[|Split(s, ':')| - 1])
    decreases |s|
  {
    if |s| > 0 {
      LastSplitPartIsSuffix(s[1..]);
      var rest := Split(s[1..], ':');
      var last := rest[|rest| - 1];
      if s[0] != ':' && |rest| == 1 {
        assert Split(s, ':') == [[s[0]] + rest[0]];
        assert s == [s[0]] + s[1..];
        JoinSplit(s[1..], ':');
      } else {
        assert Split(s, ':')[|Split(s, ':')| - 1] == last;
        assert s[|s| - |last|..] == s[1..][|s[1..]| - |last|..];
      }
    }
  }

  /** The last segment is what follows the final ':', so a string ending in ':' has an empty one. */
  lemma LastSegmentIsSuffix(s: string)
    ensures EndsWith(s, LastSegment(s))
    ensures |s| > 0 && s[|s| - 1] == ':' ==> LastSegment(s) == ""
  {
    LastSplitPartIsSuffix(s);
  }

  /** `truncateDid`'s default type. */
  const DefaultTruncateType: string := "eth"

  /** The leading characters `truncateDid` keeps for a type. */
  function LeadingChars(typ: string): nat {
    if typ == "eth" || typ == "solana" then 6 else 5
  }

  /**
   * `truncateDid`: '' for '', short DIDs (at most 12 characters) unchanged,
   * longer ones cut to their last segment and truncated in the middle,
   * keeping 6 trailing characters.
   */
  function TruncateDid(did: string, typ: string): (r: string)
    ensures did == "" ==> r == ""
    ensures 0 < |did| <= 12 ==> r == did
    ensures |did| > 12 ==> r == TruncateMiddle(LastSegment(did), LeadingChars(typ), 6)
    ensures |did| > 12 && did[|did| - 1] == ':' ==> r == ""
  {
    LastSegmentIsSuffix(did);
    if did == "" then ""
    else if |did| <= 12 then did
    else TruncateMiddle(LastSegment(did), if typ == "eth" || typ == "solana" then 6 else 5, 6)
  }

  /** `getDidFieldIconType`: a network name. */
  function DidFieldIconType(did: string): (t: string)
    ensures did == "" ==> t == "noDid"
    ensures did != "" && Contains(did, "eip155") ==> t == "ethereum"
    ensures did != "" && !Contains(did, "eip155") && Contains(did, "solana") ==> t == "solana"
    ensures did != "" && !Contains(did, "eip155") && !Contains(did, "solana") ==> t == "did"
  {
    if did == "" then "noDid"
    else if Contains(did, "eip155") then "ethereum"
    else if Contains(did, "solana") then "solana"
    else "did"
  }

  /** Any DID that names `eip155` is classed as Ethereum, even if it also names Solana. */
  lemma Eip155TakesPrecedence(did: string)
    requires Contains(did, "eip155")
    ensures DidFieldIconType(did) == "ethereum"
    ensures Contains(did, "solana") ==> DidFieldIconType(did) != "solana"
  {
  }

  /** For instance, `did:pkh:eip155:solana` shows the Ethereum icon. */
  lemma Eip155TakesPrecedenceExample()
    ensures DidFieldIconType("did:pkh:eip155:solana") == "ethereum"
  {
    var s := "did:pkh:eip155:solana";
    ContainsAt(s, "eip155", 8);
    Eip155TakesPrecedence(s);
  }

  datatype ButtonSize = Sm | Md | Lg

  /** `sizeMap`: the avatar size for a button size. */
  function SizeMap(size: ButtonSize): (avatar: string)
    ensures size == Lg ==> avatar == "xl"
    ensures size == Md ==> avatar == "lg"
    ensures size == Sm ==> avatar == "xs"
  {
    match size
    case Lg => "xl"
    case Md => "lg"
    case Sm => "xs"
  }

  datatype Icon = EthereumIcon | SolanaIcon | DidKeyIcon | NoEthIcon

  /** `didNetworkIconMapping`. */
  function NetworkIcon(t: string): Icon {
    if t == "ethereum" then EthereumIcon
    else if t == "solana" then SolanaIcon
    else if t == "did" then DidKeyIcon
    else NoEthIcon
  }

  datatype DidFieldView = DidFieldView(icon: Icon, text: string)

  /**
   * `ProfileDidField` as written: the network name is passed to
   * `truncateDid` as its type, and 'ethereum' is not the 'eth' it tests.
   */
  function DidFieldAsWritten(did: string): (v: DidFieldView)
    ensures !IsValidDid(did) ==> v == DidFieldView(NoEthIcon, "Invalid DID")
    ensures IsValidDid(did) ==> v.text == TruncateDid(did, DidFieldIconType(did))
  {
    if IsValidDid(did) then
      var t := DidFieldIconType(did);
      DidFieldView(NetworkIcon(t), TruncateDid(did, t))
    else DidFieldView(NoEthIcon, "Invalid DID")
  }

  lemma {:induction false} SplitWithoutSeparator(s: string, sep: char)
    requires sep !in s
    ensures Split(s, sep) == [s]
    decreases |s|
  {
    if |s| > 0 {
      SplitWithoutSeparator(s[1..], sep);
      assert s == [s[0]] + s[1..];
    }
  }

  /** The last segment of `p:seg` is `seg` when `seg` has no ':'. */
  lemma {:induction false} LastSegmentAfterColon(p: string, seg: string)
    requires ':' !in seg
    ensures |Split(p + [':'] + seg, ':')| >= 2
    ensures LastSegment(p + [':'] + seg) == seg
    decreases |p|
  {
    var s := p + [':'] + seg;
    if |p| == 0 {
      assert s[0] == ':' && s[1..] == seg;
      SplitWithoutSeparator(seg, ':');
    } else {
      assert s[0] == p[0];
      assert s[1..] == p[1..] + [':'] + seg;
      LastSegmentAfterColon(p[1..], seg);
    }
  }

  /**
   * An Ethereum DID shown by the field as written keeps only 5 leading
   * characters where type 'eth' keeps 6, so its text is one character
   * shorter than `truncateDid`'s default whenever the address segment has
   * more than 5 characters.
   */
  lemma EthereumDidKeepsFive(did: string)
    requires IsValidDid(did) && Contains(did, "eip155") && |did| > 12
    ensures DidFieldAsWritten(did).text == TruncateMiddle(LastSegment(did), 5, 6)
    ensures TruncateDid(did, DefaultTruncateType) == TruncateMiddle(LastSegment(did), 6, 6)
    ensures |LastSegment(did)| >= 6 ==>
              |DidFieldAsWritten(did).text| + 1 == |TruncateDid(did, DefaultTruncateType)|
  {
  }

  /** The Ethereum DID `did:pkh:eip155:1:0x0123456789abcdef`, spelled in parts. */
  const ExampleEthDid: string := "did:pkh:" + "eip155" + ":1" + [':'] + "0x0123456789abcdef"

  /** The example DID meets the conditions above, with an 18-character address segment. */
  lemma EthereumDidExample()
    ensures IsValidDid(ExampleEthDid) && Contains(ExampleEthDid, "eip155") && |ExampleEthDid| > 12
    ensures LastSegment(ExampleEthDid) == "0x0123456789abcdef"
  {
    var a := "did:pkh:";
    var b := "eip155";
    assert ExampleEthDid[|a|..|a| + |b|] == b;
    ContainsAt(ExampleEthDid, b, |a|);
    LastSegmentAfterColon(a + b + ":1", "0x0123456789abcdef");
  }

  /** The truncation type for a network name: Ethereum DIDs are truncated as 'eth', Solana ones as 'solana', the rest as plain DIDs. */
  function TruncationType(network: string): (typ: string)
    ensures LeadingChars(typ) == (if network == "ethereum" || network == "solana" then 6 else 5)
  {
    if network == "ethereum" then "eth" else if network == "solana" then "solana" else "did"
  }

  /** `ProfileDidField` with Ethereum DIDs truncated as type 'eth'. */
  function DidField(did: string): (v: DidFieldView)
    ensures !IsValidDid(did) ==> v == DidFieldView(NoEthIcon, "Invalid DID")
    ensures IsValidDid(did) ==> v.icon == NetworkIcon(DidFieldIconType(did)) && v.icon != NoEthIcon
    ensures IsValidDid(did) && |did| <= 12 ==> v.text == did
    ensures IsValidDid(did) && |did| > 12 ==>
              v.text == TruncateMiddle(LastSegment(did),
                                       if DidFieldIconType(did) in {"ethereum", "solana"} then 6 else 5, 6)
  {
    if IsValidDid(did) then
      var t := DidFieldIconType(did);
      DidFieldView(NetworkIcon(t), TruncateDid(did, TruncationType(t)))
    else DidFieldView(NoEthIcon, "Invalid DID")
  }

  /** The corrected field and the default truncation agree on every Ethereum DID. */
  lemma DidFieldEthereumMatchesDefault(did: string)
    requires IsValidDid(did) && DidFieldIconType(did) == "ethereum"
    ensures DidField(did).text == TruncateDid(did, DefaultTruncateType)
  {
  }
}
