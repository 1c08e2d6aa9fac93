# Privacy-preserving credit evaluation, modelled in Dafny

This project models the core of a credit-evaluation system in which an NBFC
(non-bank lender) proves to a bank that an applicant's salary exceeds a
threshold without revealing it, and the bank then decides on a loan. It has
four parts:

- **The salary-threshold circuit** (`zk_salary_circuit.dfy`, over the builder
  model in `plonky2.dfy`). `create_salary_threshold_circuit` adds two virtual
  targets and splits each into 64 little-endian bits. It then runs a loop from
  bit 63 down to bit 0 that keeps `is_greater` and `is_equal_so_far` as wires,
  and finally asserts `is_greater == 1`. The builder is a class whose methods
  append gates and constraints, and the loop is a `for … downto` loop with its
  invariants. A wire's value under a witness is computed by `Val`, with
  plonky2's arithmetic encodings of NOT, AND and OR. The main theorems:
  - the result wire is one exactly when salary > threshold;
  - the circuit is satisfiable exactly when salary > threshold;
  - `generate_salary_threshold_proof` answers `Ok(salary > threshold)`, and
    answers `Ok(false)` before building anything when salary <= threshold.
- **The bank's decision** (`bank_service.dfy`). This is `verify_proof_and_decide`
  as a pure function over exact reals. It covers the fail-closed branch, the
  eligibility rule, the credit score and the reason string.
- **The homomorphic helpers** (`fhe_utils.dfy`). This covers encrypting expenses
  one by one, the averaging loop and the decrypting comparisons. Ciphertexts are
  terms recording how they were made. Decryption is an idealised homomorphism
  that evaluates such a term over the naturals.
- **The NBFC service** (`nbfc_service.dfy`). It has the little-endian serialiser
  for the threshold, with its round trip, and `generate_credit_proof`, which
  turns a refused proof into an invalid-argument error.

`bits.dfy` holds the arithmetic of bits (`Shr`, `Bit`, `Low`, powers of two), and
`wrappers.dfy` holds `Result`, the unsigned integer ranges and the gRPC status
kinds the services return.

## Model

| member | source | states |
|---|---|---|
| Plonky2.CircuitBuilder.constructor | zk_salary_circuit.rs:25-26 | a new builder holds no gates and no constraints |
| Plonky2.CircuitBuilder.AddVirtualTarget | zk_salary_circuit.rs:29-30 | appends an input gate; the new target is the next wire; nothing else changes |
| Plonky2.CircuitBuilder.SplitLe | zk_salary_circuit.rs:33-36 | appends n bit gates of `src`, least significant first, returns their wires in order and adds the constraint that their weighted sum equals `src` |
| Plonky2.CircuitBuilder.ConstantBool | zk_salary_circuit.rs:40-41 | appends a constant gate and returns its wire |
| Plonky2.CircuitBuilder.Not | zk_salary_circuit.rs:50 | appends a NOT gate and returns its wire |
| Plonky2.CircuitBuilder.And | zk_salary_circuit.rs:51 | appends an AND gate and returns its wire (also used at lines 57 and 61) |
| Plonky2.CircuitBuilder.IsEqual | zk_salary_circuit.rs:54 | appends an equality gate and returns its wire |
| Plonky2.CircuitBuilder.Or | zk_salary_circuit.rs:58 | appends an OR gate and returns its wire |
| Plonky2.CircuitBuilder.AssertOne | zk_salary_circuit.rs:65 | adds the constraint that the wire is one; gates are unchanged |
| Plonky2.BoolArith | zk_salary_circuit.rs:50-61 | on 0/1 values, the arithmetic AND (a·b) and OR (a+b−ab) agree with boolean AND and OR |
| Plonky2.WeightedSumOfBits | zk_salary_circuit.rs:33-36 | wires carrying the bits of x have weighted sum Σ bit_i·2^i equal to x's low |bits| bits |
| Bits.SplitExact | zk_salary_circuit.rs:33-36 | the low n bits of x give back x exactly when x < 2^n, and then x >> n is 0 |
| Bits.HighEqualIffBitsAgree | zk_salary_circuit.rs:54-61 | x >> k equals y >> k (below 2^n) exactly when x and y agree on every bit from k to n−1 |
| Bits.CompareStep | zk_salary_circuit.rs:56-61 | one step of the MSB-first comparison: x>>k > y>>k iff x>>(k+1) > y>>(k+1), or they are equal and bit k of x is 1 and of y is 0; equality likewise |
| ZkSalaryCircuit.CompareRound | zk_salary_circuit.rs:45-61 | one loop iteration appends not_t_bit, bit_greater, bit_equal, new_greater, the new is_greater and the new is_equal_so_far, in source order, and returns the last two wires |
| ZkSalaryCircuit.RoundAppended | zk_salary_circuit.rs:44-62 | the gates iteration j appends, with the loop's current wires, extend the first j rounds to the first j+1 |
| ZkSalaryCircuit.CreateSalaryThresholdCircuit | zk_salary_circuit.rs:18-68 | builds exactly `SalaryThresholdCircuit()`: targets 0 and 1, both 64-bit splits, the constants, 64 rounds from bit 63 down to 0, and assert_one on the last is_greater, which is the returned result wire |
| ZkSalaryCircuit.BuiltLaid | zk_salary_circuit.rs:44-62 | after n iterations the prefix and each earlier round stay where they were laid |
| ZkSalaryCircuit.TargetWireValues | zk_salary_circuit.rs:29-41 | the targets carry the witness salary and threshold; the constants carry 0 and 1 |
| ZkSalaryCircuit.BitWireValues | zk_salary_circuit.rs:33-36 | split_le's bit i wires carry bit i of salary and of threshold |
| ZkSalaryCircuit.BitCompareWires | zk_salary_circuit.rs:50-54 | not_t_bit = 1 − t_i; bit_greater is one iff s_i = 1 and t_i = 0; bit_equal is one iff s_i = t_i |
| ZkSalaryCircuit.RunningWires | zk_salary_circuit.rs:57-61 | new_greater = is_equal_so_far·bit_greater, is_greater' = is_greater OR new_greater, is_equal_so_far' = is_equal_so_far·bit_equal |
| ZkSalaryCircuit.RoundValues | zk_salary_circuit.rs:40-61 | loop invariant: after positions 63..k, is_greater is one iff salary>>k > threshold>>k, and is_equal_so_far is one iff salary>>k = threshold>>k |
| ZkSalaryCircuit.EqualSoFarIffBitsAgree | zk_salary_circuit.rs:41-61 | after positions 63..k, is_equal_so_far is one iff salary and threshold agree on every bit ≥ k |
| ZkSalaryCircuit.RoundMonotone | zk_salary_circuit.rs:58-61 | under any witness, is_greater never goes from one back to zero, nor is_equal_so_far from zero back to one |
| ZkSalaryCircuit.ComparatorResult | zk_salary_circuit.rs:44-62 | at loop exit the result wire is one iff salary > threshold; equal values give zero |
| ZkSalaryCircuit.ComparatorComputesGreater | zk_salary_circuit.rs:44-65 | for every salary and threshold below 2^64, the built circuit's result wire equals [salary > threshold] |
| ZkSalaryCircuit.SplitConstraintHolds | zk_salary_circuit.rs:33-36 | each split_le range check holds iff its value is below 2^64 |
| ZkSalaryCircuit.ResultConstraintHolds | zk_salary_circuit.rs:65 | within the range checks, the asserted is_greater == 1 holds iff salary > threshold |
| ZkSalaryCircuit.CircuitAcceptsIffGreater | zk_salary_circuit.rs:33-65 | the witness satisfies the circuit iff both values are below 2^64 and salary > threshold |
| ZkSalaryCircuit.LaidCircuitAcceptsIffGreater | zk_salary_circuit.rs:33-65 | the same for any gate list laid out like the built one |
| ZkSalaryCircuit.OnlyTargetsAreInputs | zk_salary_circuit.rs:29-30 | no wire other than the two targets is a virtual target |
| ZkSalaryCircuit.WitnessIsComplete | zk_salary_circuit.rs:89-95 | setting the two targets gives a complete witness |
| ZkSalaryCircuit.ProofExistsIffGreater | zk_salary_circuit.rs:89-99 | for u64 inputs the prover succeeds iff salary > threshold |
| ZkSalaryCircuit.GenerateSalaryThresholdProof | zk_salary_circuit.rs:71-110 | answers Ok(salary > threshold): Ok(false) at the guard when salary <= threshold, and for salary > threshold proving and verifying never fail |
| BankService.SaturatingToU32 | bank_service.rs:53 | the float-to-u32 cast: 0 below zero, the floor inside the range, u32::MAX above it |
| BankService.VerifyProofAndDecide | bank_service.rs:18-74 | a proof-check error becomes an internal status; a false check gives (not eligible, "Proof verification failed", 0); a true one is eligible iff max_expense_ratio ≥ 30%, with score in [700, 800) and the approval reason, or score 600 and the exceeds-maximum reason |
| BankService.EligibleIffAtLeast30 | bank_service.rs:46-47 | 0.3 <= percent/100 exactly when percent ≥ 30 |
| BankService.AdjustmentBelow100 | bank_service.rs:53-54 | when eligible, (1 − r/m)·100 lies in [0, 100), so the truncated adjustment is below 100 and the score lies in [700, 800) |
| BankService.ScoreRange | bank_service.rs:50-58 | the score is 700..799 when eligible and exactly 600 otherwise |
| BankService.ScoreMonotone | bank_service.rs:50-54 | a larger maximum ratio never lowers an eligible applicant's score |
| BankService.BoundaryIsEligible | bank_service.rs:46-54 | ratio equal to the maximum (30%) is eligible, with score 700 and the approval reason |
| FheUtils.EncryptExpenses | fhe_utils.rs:29-36 | same length as the input; element i is the encryption of expense i |
| FheUtils.EncryptedExpensesDecrypt | fhe_utils.rs:29-35 | decrypting the encrypted expenses gives the expenses back |
| FheUtils.SumCiphertexts | fhe_utils.rs:44-48 | the summing loop produces the left fold of unchecked_add starting from element 0 |
| FheUtils.FoldSumAddends | fhe_utils.rs:44-48 | the fold adds every element exactly once, in index order, starting from element 0 |
| FheUtils.FoldSumDecrypts | fhe_utils.rs:44-48 | the fold decrypts to the sum of the decrypted elements |
| FheUtils.ComputeEncryptedAverageExpense | fhe_utils.rs:39-60 | empty input gives the empty-expenses error; a length that is a multiple of 256 gives a zero u8 divisor and fails; otherwise the result is (fold sum / (len mod 256)) + encrypted noise, with noise in [0, 5] |
| FheUtils.AverageDecrypts | fhe_utils.rs:44-57 | the result decrypts to ΣE / (len mod 256) + noise, so it lies between ΣE / (len mod 256) and that plus 5 |
| FheUtils.LengthWrapsAt256 | fhe_utils.rs:50-51 | 257 expenses of 100 are divided by 1, so the "average" decrypts to at least 25700 |
| FheUtils.ComputeEncryptedAverageExpenseChecked | fhe_utils.rs:39-60 | the average with the length itself as divisor: errors on empty input and on 256 or more expenses, otherwise the fold sum / len plus noise in [0, 5] |
| FheUtils.CheckedAverageDecrypts | fhe_utils.rs:44-57 | the checked average decrypts to ΣE / len + noise |
| FheUtils.EncryptSalary | fhe_utils.rs:16-26 | the encrypted salary decrypts to the salary |
| FheUtils.IsSalaryGreaterThanThreshold | fhe_utils.rs:63-70 | never fails, and answers whether the decrypted salary exceeds the threshold; on an encrypted salary this is exactly salary > threshold (SalaryComparisonCorrect) |
| FheUtils.SalaryComparisonCorrect | fhe_utils.rs:63-70 | on an encrypted salary the comparison answers exactly Ok(salary > threshold) |
| FheUtils.DecryptAverageExpense | fhe_utils.rs:73-76 | never fails, and answers the decrypted value; on the average of encrypted expenses this is ΣE / (len mod 256) + noise (DecryptedAverageOfExpenses) |
| FheUtils.DecryptedAverageOfExpenses | fhe_utils.rs:73-76 | decrypting the average of encrypted expenses gives ΣE / (len mod 256) + noise |
| NbfcService.LeBytesAt | nbfc_service.rs:115 | byte i of the encoding is (x >> 8i) mod 256 |
| NbfcService.DecodeEncode | nbfc_service.rs:114-116 | decoding the n-byte encoding of x < 256^n gives x back |
| NbfcService.EncodeDecode | nbfc_service.rs:115 | encoding the decoded value of some bytes gives those bytes back |
| NbfcService.SerializePublicInputs | nbfc_service.rs:112-117 | exactly 8 bytes; byte i is (threshold >> 8i) mod 256; reading them little-endian gives the threshold back |
| NbfcService.SerializationInjective | nbfc_service.rs:115 | distinct thresholds serialise to distinct bytes |
| NbfcService.SaturatingToU64 | nbfc_service.rs:57 | the `salary as u64` cast: 0 below zero, the floor inside the range, u64::MAX above it |
| NbfcService.GenerateCreditProof | nbfc_service.rs:23-78 | answers Ok iff the cast salary exceeds the threshold; otherwise gives the invalid-argument error "Salary does not meet threshold requirements" and builds no response; on success it gives the placeholder proof, average and nonce and the 8-byte threshold encoding |

## Left out

- Goldilocks field arithmetic: wire values are integers, and `from_canonical_u64` and the split are taken over the naturals. The wrap-around of u64 values above the field modulus is not modelled.
- plonky2's `build`, `prove` and `verify` (zk_salary_circuit.rs:85-106) are idealised by `CircuitBuilder.Build`, `Prove` and `Verify`, whose contracts are the idealisation itself rather than proved properties. `Prove` succeeds exactly on a complete, satisfying witness, and `Verify` accepts the proof made for the same circuit. Soundness, zero-knowledge and the circuit configuration are not modelled. The split bits are given their honest values.
- The `Instant` timing and the `println!` lines in `generate_salary_threshold_proof` are output only.
- The circuit registers no public inputs, and its proof never leaves `generate_salary_threshold_proof`. The model keeps both as they are.
- `CompareRound` is the loop body of `create_salary_threshold_circuit`, written as its own method. The gates it appends are those of the source's loop body, in the same order.
- tfhe internals are not modelled: key generation, the real 2-bit message space of `PARAM_MESSAGE_2_CARRY_2`, carry overflow of the unchecked operations and ciphertext randomness. Decryption is assumed to be exact on every term.
- FheUtils.ComputeEncryptedAverageExpense: a zero u8 divisor (a length that is a multiple of 256) is modelled as an error result. The library's own behaviour there (a panic) is not modelled.
- `rand::thread_rng` is modelled as a nondeterministic choice of noise in [0, 5].
- IEEE floating point in `verify_proof_and_decide` is modelled with exact reals. The float-to-integer casts are written out as saturating floors, and rounding is not reproduced.
- BankService.VerifyProofAndDecide: the request field `max_expense_ratio` is taken to be a u32. Its protobuf definition is not part of this model, and main.rs only passes the literal 50. A signed field would admit negative maxima, which the model cannot express; the code would give not eligible and score 600 for them.
- BankService.VerifyProofAndDecide: the result of `verify_zk_proof` (bank_service.rs:79-83, a stub that always answers `Ok(true)`) is an input. The request's `threshold` field (bank_service.rs:37) is read but never used, so it is not modelled.
- NbfcService.GenerateCreditProof: the stubs `deserialize_encryption_context`, `deserialize_lwe` and the local `compute_encrypted_average_expense` always succeed, so their error branches cannot occur. `decrypt_salary` (constant 6000.0) becomes the `salary` parameter. `serialize_lwe`, `generate_nonce` and the placeholder proof are the constant byte lists they return.
- gRPC and tonic request/response wrapping, the two `start_*_server` functions, main.rs and build.rs are not part of this model.
- The bank's decision is deterministic in the proof-check result and the maximum ratio because it is a Dafny function. No separate lemma states this.

## Findings

| source | as written | input that shows it | evidently intended | confidence | as-written member | corrected member |
|---|---|---|---|---|---|---|
| fhe_utils.rs:50-51 | the average divides by `encrypted_expenses.len() as u8`, which is the length modulo 256 | 257 expenses of 100: the divisor is 1 and the "average" decrypts to at least 25700; 256 expenses give a zero divisor | divide by the number of expenses, and refuse lengths a u8 divisor cannot hold | not executed | FheUtils.LengthWrapsAt256 | FheUtils.CheckedAverageDecrypts |
