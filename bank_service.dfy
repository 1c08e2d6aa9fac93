/**
 * The bank's loan decision (`verify_proof_and_decide`): fail closed when the
 * proof check says no, otherwise decide eligibility from the expense ratio and
 * compute a credit score. Floating point is modelled by exact reals.
 */
module BankService {
  import opened Wrappers

  datatype LoanDecisionResponse = LoanDecisionResponse(eligible: bool, reason: string, creditScore: U32)

  /** The expense ratio the service uses in place of a computed one. */
  const EXPENSE_RATIO: real := 0.3

  const PROOF_FAILED: string := "Proof verification failed"
  const APPROVED: string := "Meets all criteria for loan approval"
  const EXCEEDS_MAXIMUM: string := "Expense ratio exceeds maximum allowed"

  /**
   * Rust's saturating `as u32` on a (non-NaN) float: negative values become 0,
   * values beyond u32::MAX become u32::MAX, everything else is truncated.
   */
  function SaturatingToU32(x: real): (n: U32)
    ensures x < 0.0 ==> n == 0
    ensures 0.0 <= x < 4294967296.0 ==> n as real <= x < n as real + 1.0
    ensures x >= 4294967296.0 ==> n == U32_MAX
  {
    if x < 0.0 then 0
    else if x >= 4294967296.0 then U32_MAX
    else x.Floor
  }

  /** The request's maximum expense ratio, a percentage, as a fraction. */
  function MaxExpenseRatio(percent: U32): real
  {
    percent as real / 100.0
  }

  predicate Eligible(maxExpenseRatio: real)
  {
    EXPENSE_RATIO <= maxExpenseRatio
  }

  /**
   * Base score 700 plus the truncated headroom (1 - ratio / max) * 100, capped at
   * 100, when eligible; 600 otherwise.
   */
  function CreditScore(maxExpenseRatio: real): U32
  {
    if Eligible(maxExpenseRatio) then
      var adjustment := SaturatingToU32((1.0 - EXPENSE_RATIO / maxExpenseRatio) * 100.0);
      700 + (if adjustment < 100 then adjustment else 100)
    else
      600
  }

  function Reason(eligible: bool): string
  {
    if eligible then APPROVED else EXCEEDS_MAXIMUM
  }

  /**
   * The decision, given what `verify_zk_proof` answered: its error becomes an
   * internal status, a negative answer a rejection with score 0, and a positive
   * one a decision by expense ratio.
   */
  function VerifyProofAndDecide(proofCheck: Result<bool, string>, maxExpenseRatio: U32): (r: Result<LoanDecisionResponse, Status>)
    ensures proofCheck.Err? ==> r.Err? && r.error.Internal?
    ensures proofCheck == Ok(false) ==> r == Ok(LoanDecisionResponse(false, PROOF_FAILED, 0))
    ensures proofCheck == Ok(true) ==> r.Ok? && (r.value.eligible <==> maxExpenseRatio >= 30)
    ensures proofCheck == Ok(true) && r.value.eligible ==> 700 <= r.value.creditScore < 800 && r.value.reason == APPROVED
    ensures proofCheck == Ok(true) && !r.value.eligible ==> r.value.creditScore == 600 && r.value.reason == EXCEEDS_MAXIMUM
  {
    match proofCheck
    case Err(e) => Err(Internal("Failed to verify proof: " + e))
    case Ok(valid) =>
      if !valid then
        Ok(LoanDecisionResponse(false, PROOF_FAILED, 0))
      else
        var m := MaxExpenseRatio(maxExpenseRatio);
        var eligible := Eligible(m);
        EligibleIffAtLeast30(maxExpenseRatio);
        ScoreRange(m);
        Ok(LoanDecisionResponse(eligible, Reason(eligible), CreditScore(m)))
  }

  /** A maximum expense ratio given in whole percent admits the 0.3 ratio exactly from 30% up. */
  lemma EligibleIffAtLeast30(percent: U32)
    ensures Eligible(MaxExpenseRatio(percent)) <==> percent >= 30
  {
  }

  /**
   * When eligible, the headroom 1 - ratio / max lies in [0, 1), so the truncated
   * adjustment is below 100 and the cap at 100 never applies.
   */
  lemma AdjustmentBelow100(maxExpenseRatio: real)
    requires Eligible(maxExpenseRatio)
    ensures var x := (1.0 - EXPENSE_RATIO / maxExpenseRatio) * 100.0;
      0.0 <= x < 100.0 && SaturatingToU32(x) < 100
    ensures 700 <= CreditScore(maxExpenseRatio) < 800
  {
    var q := EXPENSE_RATIO / maxExpenseRatio;
    assert q * maxExpenseRatio == EXPENSE_RATIO;
    assert 0.0 < q <= 1.0;
  }

  /** The score is 700 to 799 for an eligible applicant and exactly 600 otherwise. */
  lemma ScoreRange(maxExpenseRatio: real)
    ensures Eligible(maxExpenseRatio) ==> 700 <= CreditScore(maxExpenseRatio) < 800
    ensures !Eligible(maxExpenseRatio) ==> CreditScore(maxExpenseRatio) == 600
  {
    if Eligible(maxExpenseRatio) {
      AdjustmentBelow100(maxExpenseRatio);
    }
  }

  /** A more generous maximum never lowers an eligible applicant's score. */
  lemma ScoreMonotone(m1: real, m2: real)
    requires Eligible(m1) && m1 <= m2
    ensures CreditScore(m1) <= CreditScore(m2)
  {
    var q1, q2 := EXPENSE_RATIO / m1, EXPENSE_RATIO / m2;
    assert q1 * m1 == EXPENSE_RATIO && q2 * m2 == EXPENSE_RATIO;
    assert q2 <= q1;
    AdjustmentBelow100(m1);
    AdjustmentBelow100(m2);
  }

  /** At the boundary, a maximum equal to the expense ratio is eligible, with the lowest eligible score. */
  lemma BoundaryIsEligible()
    ensures Eligible(EXPENSE_RATIO)
    ensures CreditScore(EXPENSE_RATIO) == 700
    ensures VerifyProofAndDecide(Ok(true), 30) == Ok(LoanDecisionResponse(true, APPROVED, 700))
  {
    assert EXPENSE_RATIO / EXPENSE_RATIO == 1.0;
    assert MaxExpenseRatio(30) == EXPENSE_RATIO;
  }
}
