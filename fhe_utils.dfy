/**
 * The homomorphic helpers: encrypting expenses one by one, averaging encrypted
 * expenses with bounded noise, and the decrypting comparisons.
 *
 * Ciphertexts are terms that record how they were made (a fresh encryption, an
 * `unchecked_add`, an `unchecked_scalar_div`). Decryption is idealised as the
 * homomorphism that evaluates such a term over the naturals.
 */
module FheUtils {
  import opened Wrappers

  /** A non-zero u8 divisor: what `unchecked_scalar_div` accepts without failing. */
  type Divisor = d: int | 1 <= d < 0x100 witness 1

  datatype Ciphertext =
    | Encrypt(message: U64)
    | UncheckedAdd(left: Ciphertext, right: Ciphertext)
    | UncheckedScalarDiv(dividend: Ciphertext, divisor: Divisor)

  /** Idealised decryption: the scheme is assumed exact for every term. */
  function Decrypt(c: Ciphertext): nat
  {
    match c
    case Encrypt(m) => m
    case UncheckedAdd(a, b) => Decrypt(a) + Decrypt(b)
    case UncheckedScalarDiv(a, d) => Decrypt(a) / d
  }

  const EMPTY_EXPENSES: string := "Cannot compute average of empty expenses"
  const ZERO_DIVISOR: string := "attempt to divide by zero"

  /** Upper bound of the noise drawn for differential privacy. */
  const NOISE_LEVEL: U8 := 5

  function Sum(xs: seq<nat>): nat
  {
    if xs == [] then 0 else Sum(xs[..|xs| - 1]) + xs[|xs| - 1]
  }

  function Messages(es: seq<Ciphertext>): (ms: seq<nat>)
    ensures |ms| == |es| && forall i :: 0 <= i < |es| ==> ms[i] == Decrypt(es[i])
  {
    seq(|es|, i requires 0 <= i < |es| => Decrypt(es[i]))
  }

  /**
   * The sum the averaging loop accumulates: element 0, then `unchecked_add` of
   * each later element in index order.
   */
  function FoldSum(es: seq<Ciphertext>): Ciphertext
    requires |es| > 0
  {
    if |es| == 1 then es[0] else UncheckedAdd(FoldSum(es[..|es| - 1]), es[|es| - 1])
  }

  /** The n addends of a left-nested chain of n - 1 additions, in order. */
  function Addends(c: Ciphertext, n: nat): seq<Ciphertext>
    requires n > 0
  {
    if n == 1 then [c]
    else match c
      case UncheckedAdd(a, b) => Addends(a, n - 1) + [b]
      case _ => [c]
  }

  /** The fold adds every element exactly once, in index order, starting from element 0. */
  lemma {:induction false} FoldSumAddends(es: seq<Ciphertext>)
    requires |es| > 0
    ensures Addends(FoldSum(es), |es|) == es
  {
    if |es| > 1 {
      FoldSumAddends(es[..|es| - 1]);
      assert es[..|es| - 1] + [es[|es| - 1]] == es;
    }
  }

  /** Under the idealised decryption the fold decrypts to the sum of the decrypted elements. */
  lemma {:induction false} FoldSumDecrypts(es: seq<Ciphertext>)
    requires |es| > 0
    ensures Decrypt(FoldSum(es)) == Sum(Messages(es))
  {
    if |es| > 1 {
      FoldSumDecrypts(es[..|es| - 1]);
      assert Messages(es)[..|es| - 1] == Messages(es[..|es| - 1]);
    } else {
      assert Messages(es)[..0] == [];
    }
  }

  /** The result of averaging with a given divisor and noise. */
  function NoisyAverage(es: seq<Ciphertext>, count: Divisor, noise: U8): Ciphertext
    requires |es| > 0
  {
    UncheckedAdd(UncheckedScalarDiv(FoldSum(es), count), Encrypt(noise))
  }

  /** The summing loop of the average: starts from element 0 and adds each later element. */
  method SumCiphertexts(es: seq<Ciphertext>) returns (sum: Ciphertext)
    requires |es| > 0
    ensures sum == FoldSum(es)
  {
    sum := es[0];
    for i := 1 to |es|
      invariant sum == FoldSum(es[..i])
    {
      assert es[..i + 1][..i] == es[..i];
      sum := UncheckedAdd(sum, es[i]);
    }
    assert es[..|es|] == es;
  }

  /** `encrypt_expenses`: one fresh encryption per expense, in order; it never fails. */
  method EncryptExpenses(expenses: seq<U64>) returns (encrypted: seq<Ciphertext>)
    ensures |encrypted| == |expenses|
    ensures forall i :: 0 <= i < |expenses| ==> encrypted[i] == Encrypt(expenses[i])
  {
    encrypted := [];
    for i := 0 to |expenses|
      invariant |encrypted| == i
      invariant forall k :: 0 <= k < i ==> encrypted[k] == Encrypt(expenses[k])
    {
      encrypted := encrypted + [Encrypt(expenses[i])];
    }
  }

  /** Encrypting and then decrypting expenses gives the expenses back. */
  lemma EncryptedExpensesDecrypt(expenses: seq<U64>, encrypted: seq<Ciphertext>)
    requires |encrypted| == |expenses|
    requires forall i :: 0 <= i < |expenses| ==> encrypted[i] == Encrypt(expenses[i])
    ensures Messages(encrypted) == expenses
  {
  }

  /**
   * `compute_encrypted_average_expense` as written: fails on an empty slice, sums
   * the elements, divides by the length cast to u8 (the length modulo 256, which
   * the library refuses when it is 0) and adds an encryption of noise drawn from
   * 0..=5.
   */
  method ComputeEncryptedAverageExpense(es: seq<Ciphertext>) returns (r: Result<Ciphertext, string>)
    ensures |es| == 0 ==> r == Err(EMPTY_EXPENSES)
    ensures |es| > 0 && |es| % 256 == 0 ==> r == Err(ZERO_DIVISOR)
    ensures |es| % 256 != 0 ==>
              exists noise: U8 :: noise <= NOISE_LEVEL && r == Ok(NoisyAverage(es, |es| % 256, noise))
  {
    if |es| == 0 {
      return Err(EMPTY_EXPENSES);
    }
    var sum := SumCiphertexts(es);
    var count: U8 := |es| % 256;
    if count == 0 {
      return Err(ZERO_DIVISOR);
    }
    var avg := UncheckedScalarDiv(sum, count);
    var noise: U8 :| noise <= NOISE_LEVEL;
    r := Ok(UncheckedAdd(avg, Encrypt(noise)));
    assert r == Ok(NoisyAverage(es, count, noise));
  }

  /**
   * Under the idealised decryption, a successful average decrypts to the sum of
   * the expenses divided by the length modulo 256, plus noise in [0, 5].
   */
  lemma AverageDecrypts(es: seq<Ciphertext>, count: Divisor, noise: U8)
    requires |es| > 0 && count == |es| % 256 && noise <= NOISE_LEVEL
    ensures Decrypt(NoisyAverage(es, count, noise)) == Sum(Messages(es)) / (|es| % 256) + noise
    ensures Sum(Messages(es)) / (|es| % 256) <= Decrypt(NoisyAverage(es, count, noise)) <= Sum(Messages(es)) / (|es| % 256) + 5
  {
    FoldSumDecrypts(es);
  }

  /**
   * For 257 expenses of 100 the u8 cast divides by 1, so the "average" decrypts
   * to at least 25700 instead of about 100.
   */
  lemma LengthWrapsAt256()
    ensures var es := seq(257, i => Encrypt(100));
      Sum(Messages(es)) == 25700 && |es| % 256 == 1 &&
      forall noise: U8 :: noise <= NOISE_LEVEL ==> Decrypt(NoisyAverage(es, 1, noise)) >= 25700
  {
    var es := seq(257, i => Encrypt(100));
    ConstantSum(Messages(es), 100);
    forall noise: U8 | noise <= NOISE_LEVEL
      ensures Decrypt(NoisyAverage(es, 1, noise)) >= 25700
    {
      AverageDecrypts(es, 1, noise);
    }
  }

  lemma {:induction false} ConstantSum(xs: seq<nat>, v: nat)
    requires forall i :: 0 <= i < |xs| ==> xs[i] == v
    ensures Sum(xs) == |xs| * v
  {
    if xs != [] {
      ConstantSum(xs[..|xs| - 1], v);
    }
  }

  /**
   * The average with the length itself as divisor: fails on an empty slice and
   * on more expenses than a u8 divisor can count, instead of wrapping the length.
   */
  method ComputeEncryptedAverageExpenseChecked(es: seq<Ciphertext>) returns (r: Result<Ciphertext, string>)
    ensures |es| == 0 ==> r == Err(EMPTY_EXPENSES)
    ensures |es| >= 0x100 ==> r.Err?
    ensures 0 < |es| < 0x100 ==>
              exists noise: U8 :: noise <= NOISE_LEVEL && r == Ok(NoisyAverage(es, |es|, noise))
  {
    if |es| == 0 {
      return Err(EMPTY_EXPENSES);
    }
    if |es| >= 0x100 {
      return Err("Too many expenses for a u8 divisor");
    }
    var sum := SumCiphertexts(es);
    var count: Divisor := |es|;
    var noise: U8 :| noise <= NOISE_LEVEL;
    r := Ok(UncheckedAdd(UncheckedScalarDiv(sum, count), Encrypt(noise)));
    assert r == Ok(NoisyAverage(es, count, noise));
  }

  /**
   * The checked average decrypts to the true integer average of the expenses plus
   * noise in [0, 5].
   */
  lemma CheckedAverageDecrypts(es: seq<Ciphertext>, noise: U8)
    requires 0 < |es| < 0x100 && noise <= NOISE_LEVEL
    ensures Decrypt(NoisyAverage(es, |es|, noise)) == Sum(Messages(es)) / |es| + noise
  {
    FoldSumDecrypts(es);
  }

  /** `encrypt_salary`, without the key generation. */
  function EncryptSalary(salary: U64): (c: Ciphertext)
    ensures Decrypt(c) == salary
  {
    Encrypt(salary)
  }

  /** `is_salary_greater_than_threshold`: decrypts and compares; it never fails. */
  function IsSalaryGreaterThanThreshold(encryptedSalary: Ciphertext, threshold: U64): (r: Result<bool, string>)
    ensures r.Ok?
    ensures r.value <==> Decrypt(encryptedSalary) > threshold
  {
    Ok(Decrypt(encryptedSalary) > threshold)
  }

  /** On an encrypted salary, the comparison answers exactly salary > threshold. */
  lemma SalaryComparisonCorrect(salary: U64, threshold: U64)
    ensures IsSalaryGreaterThanThreshold(EncryptSalary(salary), threshold) == Ok(salary > threshold)
  {
  }

  /** `decrypt_average_expense`: never fails, and answers the decrypted value. */
  function DecryptAverageExpense(encryptedAvg: Ciphertext): (r: Result<nat, string>)
    ensures r.Ok?
    ensures r.value == Decrypt(encryptedAvg)
  {
    Ok(Decrypt(encryptedAvg))
  }

  /**
   * Decrypting the average of encrypted expenses gives the sum of the expenses
   * divided by the length modulo 256, plus noise.
   */
  lemma DecryptedAverageOfExpenses(expenses: seq<U64>, encrypted: seq<Ciphertext>, noise: U8)
    requires |encrypted| == |expenses| && |expenses| % 256 != 0 && noise <= NOISE_LEVEL
    requires forall i :: 0 <= i < |expenses| ==> encrypted[i] == Encrypt(expenses[i])
    ensures DecryptAverageExpense(NoisyAverage(encrypted, |expenses| % 256, noise))
            == Ok(Sum(expenses) / (|expenses| % 256) + noise)
  {
    EncryptedExpensesDecrypt(expenses, encrypted);
    AverageDecrypts(encrypted, |expenses| % 256, noise);
  }
}
