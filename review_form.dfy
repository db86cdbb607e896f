/**
 * The contract review form: its validation schema, its all-empty initial
 * values, and `getFormValues`.
 */
module ReviewForm {
  import opened Wrappers
  import opened EthAddress

  datatype ReviewValues = ReviewValues(contractName: string, description: string, address: string)

  /** `FormSchema`: a name of at least 3 characters, a description of at least 5, an Ethereum address. */
  predicate ValidReview(v: ReviewValues) {
    |v.contractName| >= 3 && |v.description| >= 5 && MatchesEthPattern(v.address)
  }

  const DefaultReview: ReviewValues := ReviewValues("", "", "")

  /** The empty initial form fails validation. */
  lemma DefaultReviewInvalid()
    ensures !ValidReview(DefaultReview)
    ensures !MatchesEthPattern(DefaultReview.address)
  {
  }

  /** `getFormValues`: the values when they validate, otherwise null. */
  function GetFormValues(v: ReviewValues): (r: Option<ReviewValues>)
    ensures r.Some? <==> ValidReview(v)
    ensures r.Some? ==> r.value == v && IsEthAddress(v.address)
  {
    EthPatternIff(v.address);
    if ValidReview(v) then Some(v) else None
  }
}
