/**
 * The NBFC side: `generate_credit_proof`, which runs the salary proof and refuses
 * the request when it fails, and the little-endian serialiser for the public
 * input (the threshold).
 */
module NbfcService {
  import opened Wrappers
  import Bits
  import ZkSalaryCircuit

  /**
   * 256 to the power n: the weight of byte n. The encoding is stated byte by byte,
   * so its powers are kept in base 256; Pow256IsPow2 ties them to the bit weights.
   */
  function Pow256(n: nat): (r: nat)
    ensures r >= 1
  {
    if n == 0 then 1 else 256 * Pow256(n - 1)
  }

  /** Byte n weighs what bit 8n weighs. */
  lemma {:induction false} Pow256IsPow2(n: nat)
    ensures Pow256(n) == Bits.Pow2(8 * n)
  {
    if n > 0 {
      Pow256IsPow2(n - 1);
      Bits.Pow2Of8();
      Bits.Pow2Add(8 * (n - 1), 8);
    }
  }

  /** The n low bytes of x, least significant first (`to_le_bytes` for n = 8). */
  function LeBytes(x: nat, n: nat): (bs: seq<U8>)
    ensures |bs| == n
  {
    if n == 0 then [] else [x % 256] + LeBytes(x / 256, n - 1)
  }

  /** Reads little-endian bytes back into a number. */
  function FromLeBytes(bs: seq<U8>): nat
  {
    if bs == [] then 0 else bs[0] + 256 * FromLeBytes(bs[1..])
  }

  /** Division is determined by a quotient and a remainder below the divisor. */
  lemma DivUnique(x: nat, d: nat, q: nat, r: nat)
    requires d >= 1 && x == d * q + r && r < d
    ensures x / d == q
  {
    var q0, r0 := x / d, x % d;
    assert d * q0 + r0 == d * q + r;
    if q0 < q {
      MulMonotone(d, q0 + 1, q);
      assert false;
    } else if q0 > q {
      MulMonotone(d, q + 1, q0);
      assert false;
    }
  }

  lemma MulMonotone(d: nat, a: nat, b: nat)
    requires a <= b
    ensures d * a <= d * b
  {
  }

  lemma DivDiv(x: nat, p: nat)
    requires p >= 1
    ensures x / 256 / p == x / (256 * p)
  {
    var q, r := x / 256, x % 256;
    var q2, r2 := q / p, q % p;
    assert x == 256 * q + r;
    assert q == p * q2 + r2;
    assert x == (256 * p) * q2 + (256 * r2 + r) by {
      assert 256 * (p * q2) == (256 * p) * q2;
    }
    assert 256 * r2 + r < 256 * p by {
      MulMonotone(256, r2 + 1, p);
    }
    DivUnique(x, 256 * p, q2, 256 * r2 + r);
  }

  /** Byte i of the encoding is (x >> 8i) mod 256. */
  lemma {:induction false} LeBytesAt(x: nat, n: nat, i: nat)
    requires i < n
    ensures LeBytes(x, n)[i] == x / Pow256(i) % 256
  {
    if i > 0 {
      LeBytesAt(x / 256, n - 1, i - 1);
      DivDiv(x, Pow256(i - 1));
    }
  }

  /** Decoding the n-byte encoding of a number below 256^n gives the number back. */
  lemma {:induction false} DecodeEncode(x: nat, n: nat)
    requires x < Pow256(n)
    ensures FromLeBytes(LeBytes(x, n)) == x
  {
    if n > 0 {
      var bs := LeBytes(x, n);
      assert bs[1..] == LeBytes(x / 256, n - 1);
      DecodeEncode(x / 256, n - 1);
    }
  }

  /** Encoding the decoded value of n bytes gives the bytes back. */
  lemma {:induction false} EncodeDecode(bs: seq<U8>)
    ensures FromLeBytes(bs) < Pow256(|bs|)
    ensures LeBytes(FromLeBytes(bs), |bs|) == bs
  {
    if bs != [] {
      var rest := FromLeBytes(bs[1..]);
      EncodeDecode(bs[1..]);
      var x := bs[0] + 256 * rest;
      assert x % 256 == bs[0] && x / 256 == rest;
      assert LeBytes(x, |bs|) == [bs[0]] + bs[1..];
    }
  }

  lemma Pow256Of8()
    ensures Pow256(8) == 0x1_0000_0000_0000_0000
  {
    assert Pow256(2) == 0x1_0000;
    assert Pow256(4) == 0x1_0000_0000;
    assert Pow256(6) == 0x1_0000_0000_0000;
  }

  /** `serialize_public_inputs`: the threshold as eight little-endian bytes in a fresh buffer. */
  method SerializePublicInputs(threshold: U64) returns (buf: seq<U8>)
    ensures |buf| == 8
    ensures forall i :: 0 <= i < 8 ==> buf[i] == threshold / Pow256(i) % 256
    ensures FromLeBytes(buf) == threshold
  {
    buf := [];
    buf := buf + LeBytes(threshold, 8);
    assert buf == LeBytes(threshold, 8);
    forall i | 0 <= i < 8
      ensures buf[i] == threshold / Pow256(i) % 256
    {
      LeBytesAt(threshold, 8, i);
    }
    Pow256Of8();
    DecodeEncode(threshold, 8);
  }

  /** Distinct thresholds serialise to distinct bytes. */
  lemma SerializationInjective(t1: U64, t2: U64)
    ensures LeBytes(t1, 8) == LeBytes(t2, 8) ==> t1 == t2
  {
    Pow256Of8();
    DecodeEncode(t1, 8);
    DecodeEncode(t2, 8);
  }

  datatype CreditProofResponse = CreditProofResponse(
    zkpProof: seq<U8>,
    encryptedAvgExpense: seq<U8>,
    nonce: seq<U8>,
    publicInputs: seq<U8>)

  const NOT_ELIGIBLE: string := "Salary does not meet threshold requirements"

  /** Rust's saturating `as u64` on a (non-NaN) float. */
  function SaturatingToU64(x: real): (n: U64)
    ensures x < 0.0 ==> n == 0
    ensures 0.0 <= x < 18446744073709551616.0 ==> n as real <= x < n as real + 1.0
    ensures x >= 18446744073709551616.0 ==> n == U64_MAX
  {
    if x < 0.0 then 0
    else if x >= 18446744073709551616.0 then U64_MAX
    else x.Floor
  }

  /**
   * `generate_credit_proof` after the (always successful) deserialisation and
   * decryption steps: `salary` is what the salary decryption answered. It proves
   * salary > threshold, rejects the request with an invalid-argument status when
   * the proof is refused, and otherwise answers with the placeholder proof and
   * nonce, the placeholder average and the serialised threshold.
   */
  method GenerateCreditProof(salary: real, threshold: U64) returns (r: Result<CreditProofResponse, Status>)
    ensures r.Ok? <==> SaturatingToU64(salary) > threshold
    ensures SaturatingToU64(salary) <= threshold ==> r == Err(InvalidArgument(NOT_ELIGIBLE))
    ensures r.Ok? ==> r.value.zkpProof == [1, 2, 3, 4] && r.value.nonce == [5, 6, 7, 8]
    ensures r.Ok? ==> r.value.encryptedAvgExpense == [1, 2, 3, 4]
    ensures r.Ok? ==> |r.value.publicInputs| == 8 && FromLeBytes(r.value.publicInputs) == threshold
  {
    var proved := ZkSalaryCircuit.GenerateSalaryThresholdProof(SaturatingToU64(salary), threshold);
    var proofSuccessful: bool;
    match proved {
      case Err(e) => return Err(Internal("Failed to generate proof: " + e));
      case Ok(b) => proofSuccessful := b;
    }
    if !proofSuccessful {
      return Err(InvalidArgument(NOT_ELIGIBLE));
    }
    var zkpProof := [1, 2, 3, 4];
    var nonce := [5, 6, 7, 8];
    var publicInputs := SerializePublicInputs(threshold);
    r := Ok(CreditProofResponse(zkpProof, [1, 2, 3, 4], nonce, publicInputs));
  }
}
