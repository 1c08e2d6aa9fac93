/**
 * The salary-threshold circuit: both inputs are split into 64 little-endian
 * bits, the bits are compared from the most significant down while two running
 * booleans (`is_greater`, `is_equal_so_far`) are kept, and `is_greater` is
 * asserted to be one. Also the proof driver that refuses to prove when
 * salary <= threshold.
 */
module ZkSalaryCircuit {
  import opened Wrappers
  import opened Bits
  import opened Plonky2

  /** Width of the comparison. */
  const BITS: nat := 64

  // Wire layout of the circuit, in the order the builder creates the wires.
  const SALARY_TARGET: Wire := 0
  const THRESHOLD_TARGET: Wire := 1

  function SalaryBit(i: nat): Wire { 2 + i }
  function ThresholdBit(i: nat): Wire { 2 + BITS + i }

  const FALSE_WIRE: Wire := 2 + 2 * BITS
  const TRUE_WIRE: Wire := 3 + 2 * BITS

  /** First wire of round j; round j compares bit position BITS - 1 - j. */
  function RoundBase(j: nat): Wire { 4 + 2 * BITS + 6 * j }

  /** `is_greater` after j rounds. */
  function GreaterWire(j: nat): Wire
  {
    if j == 0 then FALSE_WIRE else RoundBase(j - 1) + 4
  }

  /** `is_equal_so_far` after j rounds. */
  function EqualWire(j: nat): Wire
  {
    if j == 0 then TRUE_WIRE else RoundBase(j - 1) + 5
  }

  const GATE_COUNT: nat := RoundBase(BITS)

  /**
   * The six gates of round j, which compares bit position BITS - 1 - j:
   * not_t_bit, bit_greater, bit_equal, new_greater, the new is_greater and the
   * new is_equal_so_far, in the order the builder adds them. This is the layout
   * view of `RoundAppend` (what one iteration appends, given its wires), spelled
   * out by position because the wire-value lemmas index into it; RoundAppended
   * proves the two agree.
   */
  function RoundGates(j: nat): (gs: seq<Gate>)
    requires j < BITS
    ensures |gs| == 6
  {
    var i, base := BITS - 1 - j, RoundBase(j);
    [ NotGate(ThresholdBit(i)),
      AndGate(SalaryBit(i), base),
      EqGate(SalaryBit(i), ThresholdBit(i)),
      AndGate(EqualWire(j), base + 1),
      OrGate(GreaterWire(j), base + 3),
      AndGate(EqualWire(j), base + 2) ]
  }

  function SalaryBits(): seq<Wire> { WireRange(SalaryBit(0), BITS) }
  function ThresholdBits(): seq<Wire> { WireRange(ThresholdBit(0), BITS) }

  /** The circuit `create_salary_threshold_circuit` builds. */
  function SalaryThresholdCircuit(): CircuitData
  {
    CircuitData(Built(BITS), CircuitConstraints())
  }

  /** The two split_le range checks, then assert_one on the final `is_greater`. */
  function CircuitConstraints(): seq<Constraint>
  {
    [BitsSum(SALARY_TARGET, SalaryBits()), BitsSum(THRESHOLD_TARGET, ThresholdBits()), One(GreaterWire(BITS))]
  }

  /** The witness `generate_salary_threshold_proof` sets. */
  function Witness(salary: nat, threshold: nat): PartialWitness
  {
    map[SALARY_TARGET := salary, THRESHOLD_TARGET := threshold]
  }

  /** The gates before the first round: the two targets, their bits and the two constants. */
  function PrefixGates(): (gs: seq<Gate>)
    ensures |gs| == RoundBase(0)
  {
    [Input, Input] + LeBits(SALARY_TARGET, BITS) + LeBits(THRESHOLD_TARGET, BITS) + [Const(false)] + [Const(true)]
  }

  /** The gates the builder holds after the first n rounds of the loop. */
  function Built(n: nat): (gs: seq<Gate>)
    requires n <= BITS
    ensures |gs| == RoundBase(n)
  {
    if n == 0 then PrefixGates() else Built(n - 1) + RoundGates(n - 1)
  }

  /**
   * The six gates one loop iteration appends when the builder already holds n gates:
   * not_t_bit, bit_greater, bit_equal, new_greater, the new is_greater and the new
   * is_equal_so_far, reading the given bit wires and running booleans.
   */
  function RoundAppend(n: nat, sBit: Wire, tBit: Wire, isGreater: Wire, isEqualSoFar: Wire): seq<Gate>
  {
    [ NotGate(tBit),
      AndGate(sBit, n),
      EqGate(sBit, tBit),
      AndGate(isEqualSoFar, n + 1),
      OrGate(isGreater, n + 3),
      AndGate(isEqualSoFar, n + 2) ]
  }

  /**
   * One iteration of the comparison loop: compares the salary bit with the
   * threshold bit and updates the two running booleans.
   */
  method CompareRound(builder: CircuitBuilder, sBit: Wire, tBit: Wire, isGreater: Wire, isEqualSoFar: Wire)
    returns (newIsGreater: Wire, newIsEqualSoFar: Wire)
    modifies builder
    ensures builder.gates == old(builder.gates) + RoundAppend(|old(builder.gates)|, sBit, tBit, isGreater, isEqualSoFar)
    ensures builder.constraints == old(builder.constraints)
    ensures newIsGreater == |old(builder.gates)| + 4 && newIsEqualSoFar == |old(builder.gates)| + 5
  {
    var notTBit := builder.Not(tBit);
    var bitGreater := builder.And(sBit, notTBit);
    var bitEqual := builder.IsEqual(sBit, tBit);
    var newGreater := builder.And(isEqualSoFar, bitGreater);
    newIsGreater := builder.Or(isGreater, newGreater);
    newIsEqualSoFar := builder.And(isEqualSoFar, bitEqual);
  }

  /** Appending round j's gates, with the wires the loop holds, to the first j rounds gives the first j + 1. */
  lemma RoundAppended(j: nat, sBit: Wire, tBit: Wire, isGreater: Wire, isEqualSoFar: Wire)
    requires j < BITS
    requires sBit == SalaryBit(BITS - 1 - j) && tBit == ThresholdBit(BITS - 1 - j)
    requires isGreater == GreaterWire(j) && isEqualSoFar == EqualWire(j)
    ensures Built(j) + RoundAppend(RoundBase(j), sBit, tBit, isGreater, isEqualSoFar) == Built(j + 1)
  {
  }

  /**
   * Builds the comparator circuit exactly as the source does: two virtual targets,
   * a 64-bit little-endian split of each, the constants false and true, then one
   * round of six gates per bit position from 63 down to 0, and finally
   * assert_one on the last is_greater.
   */
  method CreateSalaryThresholdCircuit() returns (builder: CircuitBuilder, salaryTarget: Wire, thresholdTarget: Wire, isGreater: Wire)
    ensures fresh(builder)
    ensures builder.Build() == SalaryThresholdCircuit()
    ensures salaryTarget == SALARY_TARGET && thresholdTarget == THRESHOLD_TARGET
    ensures isGreater == GreaterWire(BITS)
  {
    builder := new CircuitBuilder();
    salaryTarget := builder.AddVirtualTarget();
    thresholdTarget := builder.AddVirtualTarget();
    var salaryBits := builder.SplitLe(salaryTarget, BITS);
    var thresholdBits := builder.SplitLe(thresholdTarget, BITS);
    isGreater := builder.ConstantBool(false);
    var isEqualSoFar := builder.ConstantBool(true);
    assert builder.gates == Built(0);
    ghost var splitConstraints := builder.constraints;

    ghost var done := 0;
    for i := BITS downto 0
      invariant done == BITS - i
      invariant builder.gates == Built(done)
      invariant builder.constraints == splitConstraints
      invariant isGreater == GreaterWire(done) && isEqualSoFar == EqualWire(done)
    {
      var sBit := salaryBits[i];
      var tBit := thresholdBits[i];
      RoundAppended(done, sBit, tBit, isGreater, isEqualSoFar);
      isGreater, isEqualSoFar := CompareRound(builder, sBit, tBit, isGreater, isEqualSoFar);
      done := done + 1;
    }

    builder.AssertOne(isGreater);
  }

  // ---------------------------------------------------------------------------
  // Where the gates sit: the prefix, then round j at RoundBase(j).

  /** The gates of the circuit. */
  function CircuitGates(): (gs: seq<Gate>)
    ensures |gs| == GATE_COUNT
  {
    SalaryThresholdCircuit().gates
  }

  ghost predicate PrefixAt(gs: seq<Gate>)
  {
    RoundBase(0) <= |gs| && gs[..RoundBase(0)] == PrefixGates()
  }

  ghost predicate RoundAt(gs: seq<Gate>, j: nat)
    requires j < BITS
  {
    RoundBase(j + 1) <= |gs| && gs[RoundBase(j)..RoundBase(j + 1)] == RoundGates(j)
  }

  /** The first n rounds keep the prefix and every earlier round where they were laid. */
  lemma {:induction false} BuiltLaid(n: nat)
    requires n <= BITS
    ensures PrefixAt(Built(n))
    ensures forall j :: 0 <= j < n ==> RoundAt(Built(n), j)
  {
    if n > 0 {
      BuiltLaid(n - 1);
      var before := Built(n - 1);
      assert Built(n) == before + RoundGates(n - 1);
      assert Built(n)[..RoundBase(0)] == before[..RoundBase(0)];
      forall j | 0 <= j < n
        ensures RoundAt(Built(n), j)
      {
        if j < n - 1 {
          assert RoundAt(before, j);
          assert Built(n)[RoundBase(j)..RoundBase(j + 1)] == before[RoundBase(j)..RoundBase(j + 1)];
        } else {
          assert Built(n)[RoundBase(j)..RoundBase(j + 1)] == RoundGates(n - 1);
        }
      }
    }
  }

  lemma CircuitLaid()
    ensures PrefixAt(CircuitGates())
    ensures forall j :: 0 <= j < BITS ==> RoundAt(CircuitGates(), j)
  {
    BuiltLaid(BITS);
  }

  // ---------------------------------------------------------------------------
  // What the wires carry when the prover sets salary and threshold.

  /** The two targets carry the witness values; the constants carry 0 and 1. */
  lemma TargetWireValues(gs: seq<Gate>, salary: nat, threshold: nat)
    requires PrefixAt(gs)
    ensures var pw := Witness(salary, threshold);
      && Val(gs, pw, SALARY_TARGET) == salary
      && Val(gs, pw, THRESHOLD_TARGET) == threshold
      && Val(gs, pw, FALSE_WIRE) == 0
      && Val(gs, pw, TRUE_WIRE) == 1
  {
    var pw := Witness(salary, threshold);
    var pre := PrefixGates();
    assert gs[SALARY_TARGET] == pre[SALARY_TARGET] == Input;
    assert gs[THRESHOLD_TARGET] == pre[THRESHOLD_TARGET] == Input;
    assert gs[FALSE_WIRE] == pre[FALSE_WIRE] == Const(false);
    assert gs[TRUE_WIRE] == pre[TRUE_WIRE] == Const(true);
    ValInput(gs, pw, SALARY_TARGET);
    ValInput(gs, pw, THRESHOLD_TARGET);
    ValConst(gs, pw, FALSE_WIRE, false);
    ValConst(gs, pw, TRUE_WIRE, true);
  }

  /** split_le's bit wires carry the bits of the witness values. */
  lemma BitWireValues(gs: seq<Gate>, salary: nat, threshold: nat, i: nat)
    requires PrefixAt(gs) && i < BITS
    ensures Val(gs, Witness(salary, threshold), SalaryBit(i)) == Bit(salary, i)
    ensures Val(gs, Witness(salary, threshold), ThresholdBit(i)) == Bit(threshold, i)
  {
    var pw := Witness(salary, threshold);
    var pre := PrefixGates();
    TargetWireValues(gs, salary, threshold);
    assert gs[SalaryBit(i)] == pre[SalaryBit(i)] == LeBit(SALARY_TARGET, i);
    assert gs[ThresholdBit(i)] == pre[ThresholdBit(i)] == LeBit(THRESHOLD_TARGET, i);
    ValLeBit(gs, pw, SalaryBit(i), SALARY_TARGET, i);
    ValLeBit(gs, pw, ThresholdBit(i), THRESHOLD_TARGET, i);
  }

  /**
   * The first three wires of round j (bit position i = BITS - 1 - j): not_t_bit,
   * bit_greater, which is one exactly when the salary bit is 1 and the threshold
   * bit is 0, and bit_equal, which is one exactly when the two bits agree.
   */
  lemma BitCompareWires(gs: seq<Gate>, salary: nat, threshold: nat, j: nat)
    requires j < BITS && PrefixAt(gs) && RoundAt(gs, j)
    ensures var pw, i, base := Witness(salary, threshold), BITS - 1 - j, RoundBase(j);
      && Val(gs, pw, base) == 1 - Bit(threshold, i)
      && Val(gs, pw, base + 1) == FromBool(Bit(salary, i) == 1 && Bit(threshold, i) == 0)
      && Val(gs, pw, base + 2) == FromBool(Bit(salary, i) == Bit(threshold, i))
  {
    var pw, i, base := Witness(salary, threshold), BITS - 1 - j, RoundBase(j);
    BitWireValues(gs, salary, threshold, i);
    var round := RoundGates(j);
    assert gs[base] == round[0];
    assert gs[base + 1] == round[1];
    assert gs[base + 2] == round[2];
    ValNot(gs, pw, base, ThresholdBit(i));
    ValAnd(gs, pw, base + 1, SalaryBit(i), base);
    ValEq(gs, pw, base + 2, SalaryBit(i), ThresholdBit(i));
  }

  /**
   * The last three wires of round j, under any witness: new_greater =
   * is_equal_so_far AND bit_greater, the new is_greater = is_greater OR
   * new_greater, and the new is_equal_so_far = is_equal_so_far AND bit_equal.
   */
  lemma RunningWires(gs: seq<Gate>, pw: PartialWitness, j: nat)
    requires j < BITS && RoundAt(gs, j)
    ensures var base := RoundBase(j);
      && Val(gs, pw, base + 3) == Val(gs, pw, EqualWire(j)) * Val(gs, pw, base + 1)
      && Val(gs, pw, GreaterWire(j + 1))
         == (var g, n := Val(gs, pw, GreaterWire(j)), Val(gs, pw, base + 3); g + n - g * n)
      && Val(gs, pw, EqualWire(j + 1)) == Val(gs, pw, EqualWire(j)) * Val(gs, pw, base + 2)
  {
    var base := RoundBase(j);
    var round := RoundGates(j);
    assert gs[base + 3] == round[3];
    assert gs[base + 4] == round[4];
    assert gs[base + 5] == round[5];
    ValAnd(gs, pw, base + 3, EqualWire(j), base + 1);
    ValOr(gs, pw, base + 4, GreaterWire(j), base + 3);
    ValAnd(gs, pw, base + 5, EqualWire(j), base + 2);
  }

  /** The prefix and all BITS rounds sit where the builder puts them. */
  ghost predicate Laid(gs: seq<Gate>)
  {
    PrefixAt(gs) && forall j :: 0 <= j < BITS ==> RoundAt(gs, j)
  }

  /**
   * The loop invariant of the comparator, for salary and threshold below 2^BITS:
   * after the rounds for bit positions BITS - 1 down to BITS - j, `is_greater` is
   * one exactly when salary >> (BITS - j) exceeds threshold >> (BITS - j), and
   * `is_equal_so_far` is one exactly when the two shifted values are equal.
   * Both wires only ever carry 0 or 1.
   */
  lemma {:induction false} RoundValues(gs: seq<Gate>, salary: nat, threshold: nat, j: nat)
    requires Laid(gs) && salary < Pow2(BITS) && threshold < Pow2(BITS) && j <= BITS
    ensures var pw, k := Witness(salary, threshold), BITS - j;
      && Val(gs, pw, GreaterWire(j)) == FromBool(Shr(salary, k) > Shr(threshold, k))
      && Val(gs, pw, EqualWire(j)) == FromBool(Shr(salary, k) == Shr(threshold, k))
  {
    var pw := Witness(salary, threshold);
    if j == 0 {
      TargetWireValues(gs, salary, threshold);
      SplitExact(salary, BITS);
      SplitExact(threshold, BITS);
    } else {
      var r, i := j - 1, BITS - j;
      RoundValues(gs, salary, threshold, r);
      assert RoundAt(gs, r);
      BitCompareWires(gs, salary, threshold, r);
      RunningWires(gs, pw, r);
      CompareStep(salary, threshold, i);
      var greater, equal := Shr(salary, i + 1) > Shr(threshold, i + 1), Shr(salary, i + 1) == Shr(threshold, i + 1);
      var bitGreater := Bit(salary, i) == 1 && Bit(threshold, i) == 0;
      BoolArith(equal, bitGreater);
      BoolArith(greater, equal && bitGreater);
      BoolArith(equal, Bit(salary, i) == Bit(threshold, i));
    }
  }

  /**
   * After the rounds for bit positions BITS - 1 down to k = BITS - j,
   * `is_equal_so_far` is one exactly when salary and threshold agree on every bit
   * at position k or above.
   */
  lemma EqualSoFarIffBitsAgree(gs: seq<Gate>, salary: nat, threshold: nat, j: nat)
    requires Laid(gs) && salary < Pow2(BITS) && threshold < Pow2(BITS) && j <= BITS
    ensures Val(gs, Witness(salary, threshold), EqualWire(j)) == 1
            <==> forall p :: BITS - j <= p < BITS ==> Bit(salary, p) == Bit(threshold, p)
  {
    RoundValues(gs, salary, threshold, j);
    HighEqualIffBitsAgree(salary, threshold, BITS - j, BITS);
  }

  /**
   * Under any witness, a round never turns `is_greater` from one back to zero, nor
   * `is_equal_so_far` from zero back to one.
   */
  lemma RoundMonotone(gs: seq<Gate>, pw: PartialWitness, j: nat)
    requires j < BITS && RoundAt(gs, j)
    ensures Val(gs, pw, GreaterWire(j)) == 1 ==> Val(gs, pw, GreaterWire(j + 1)) == 1
    ensures Val(gs, pw, EqualWire(j)) == 0 ==> Val(gs, pw, EqualWire(j + 1)) == 0
  {
    RunningWires(gs, pw, j);
  }

  /**
   * At loop exit the result wire is one exactly when salary > threshold (so equal
   * values give zero), for salary and threshold below 2^BITS.
   */
  lemma ComparatorResult(gs: seq<Gate>, salary: nat, threshold: nat)
    requires Laid(gs) && salary < Pow2(BITS) && threshold < Pow2(BITS)
    ensures Val(gs, Witness(salary, threshold), GreaterWire(BITS)) == FromBool(salary > threshold)
    ensures salary == threshold ==> Val(gs, Witness(salary, threshold), GreaterWire(BITS)) == 0
  {
    RoundValues(gs, salary, threshold, BITS);
    assert Shr(salary, 0) == salary && Shr(threshold, 0) == threshold;
  }

  /** The built circuit's result wire is one exactly when salary > threshold, for every pair of inputs below 2^BITS. */
  lemma ComparatorComputesGreater()
    ensures forall salary: nat, threshold: nat :: salary < Pow2(BITS) && threshold < Pow2(BITS) ==>
              Val(CircuitGates(), Witness(salary, threshold), GreaterWire(BITS)) == FromBool(salary > threshold)
  {
    CircuitLaid();
    forall salary: nat, threshold: nat | salary < Pow2(BITS) && threshold < Pow2(BITS)
      ensures Val(CircuitGates(), Witness(salary, threshold), GreaterWire(BITS)) == FromBool(salary > threshold)
    {
      ComparatorResult(CircuitGates(), salary, threshold);
    }
  }

  /** The split_le constraint for `src` holds exactly when its value fits in BITS bits. */
  lemma SplitConstraintHolds(c: CircuitData, salary: nat, threshold: nat, src: Wire, value: nat, bits: seq<Wire>)
    requires PrefixAt(c.gates)
    requires (src == SALARY_TARGET && value == salary && bits == SalaryBits())
          || (src == THRESHOLD_TARGET && value == threshold && bits == ThresholdBits())
    ensures Holds(c, Witness(salary, threshold), BitsSum(src, bits)) <==> value < Pow2(BITS)
  {
    var gs, pw := c.gates, Witness(salary, threshold);
    forall j | 0 <= j < |bits|
      ensures Val(gs, pw, bits[j]) == Bit(value, j)
    {
      BitWireValues(gs, salary, threshold, j);
    }
    WeightedSumOfBits(gs, pw, bits, value);
    TargetWireValues(gs, salary, threshold);
    SplitExact(value, BITS);
  }

  /** Within the range checks, the assert_one constraint holds exactly when salary > threshold. */
  lemma ResultConstraintHolds(c: CircuitData, salary: nat, threshold: nat)
    requires Laid(c.gates) && salary < Pow2(BITS) && threshold < Pow2(BITS)
    ensures Holds(c, Witness(salary, threshold), One(GreaterWire(BITS))) <==> salary > threshold
  {
    ComparatorResult(c.gates, salary, threshold);
  }

  /**
   * The circuit is satisfied by the witness the prover sets exactly when both
   * values pass the 64-bit range checks and salary > threshold: the asserted
   * `is_greater == 1` is satisfiable precisely for salary > threshold.
   */
  lemma CircuitAcceptsIffGreater(salary: nat, threshold: nat)
    ensures Satisfied(SalaryThresholdCircuit(), Witness(salary, threshold))
            <==> salary < Pow2(BITS) && threshold < Pow2(BITS) && salary > threshold
  {
    CircuitLaid();
    LaidCircuitAcceptsIffGreater(SalaryThresholdCircuit(), salary, threshold);
  }

  lemma LaidCircuitAcceptsIffGreater(c: CircuitData, salary: nat, threshold: nat)
    requires Laid(c.gates) && c.constraints == CircuitConstraints()
    ensures Satisfied(c, Witness(salary, threshold))
            <==> salary < Pow2(BITS) && threshold < Pow2(BITS) && salary > threshold
  {
    var pw := Witness(salary, threshold);
    SatisfiedThree(c, pw);
    SplitConstraintHolds(c, salary, threshold, SALARY_TARGET, salary, SalaryBits());
    SplitConstraintHolds(c, salary, threshold, THRESHOLD_TARGET, threshold, ThresholdBits());
    if salary < Pow2(BITS) && threshold < Pow2(BITS) {
      ResultConstraintHolds(c, salary, threshold);
    }
  }

  /** The only virtual targets are the salary and threshold targets, so the prover's witness is complete. */
  lemma WitnessIsComplete(salary: nat, threshold: nat)
    ensures WitnessComplete(SalaryThresholdCircuit(), Witness(salary, threshold))
  {
    CircuitLaid();
    OnlyTargetsAreInputs(CircuitGates());
  }

  lemma OnlyTargetsAreInputs(gs: seq<Gate>)
    requires Laid(gs) && |gs| == GATE_COUNT
    ensures forall w :: 2 <= w < |gs| ==> !gs[w].Input?
  {
    forall w | 2 <= w < |gs|
      ensures !gs[w].Input?
    {
      if w < RoundBase(0) {
        var pre := PrefixGates();
        assert gs[w] == pre[w];
        if 2 <= w < SalaryBit(BITS) {
          assert pre[w] == LeBits(SALARY_TARGET, BITS)[w - 2];
        } else if SalaryBit(BITS) <= w < FALSE_WIRE {
          assert pre[w] == LeBits(THRESHOLD_TARGET, BITS)[w - SalaryBit(BITS)];
        }
      } else {
        var j := (w - RoundBase(0)) / 6;
        assert RoundBase(j) <= w < RoundBase(j + 1);
        assert RoundAt(gs, j);
        assert gs[w] == RoundGates(j)[w - RoundBase(j)];
      }
    }
  }

  /**
   * With u64 inputs (always inside the range checks), the idealised prover
   * succeeds on the circuit exactly when salary > threshold.
   */
  lemma ProofExistsIffGreater(salary: U64, threshold: U64)
    ensures Prove(SalaryThresholdCircuit(), Witness(salary, threshold)).Ok? <==> salary > threshold
  {
    Pow2Of64();
    WitnessIsComplete(salary, threshold);
    CircuitAcceptsIffGreater(salary, threshold);
  }

  /**
   * `generate_salary_threshold_proof`: answers Ok(false) without building anything
   * when salary <= threshold; otherwise builds the circuit, sets both targets,
   * proves and verifies, and answers Ok(true). Since a proof exists exactly when
   * salary > threshold, the answer is always Ok(salary > threshold).
   */
  method GenerateSalaryThresholdProof(salary: U64, threshold: U64) returns (r: Result<bool, string>)
    ensures r == Ok(salary > threshold)
  {
    if salary <= threshold {
      return Ok(false);
    }
    var builder, salaryTarget, thresholdTarget, resultTarget := CreateSalaryThresholdCircuit();
    var circuitData := builder.Build();
    var pw: PartialWitness := map[];
    pw := pw[salaryTarget := salary];
    pw := pw[thresholdTarget := threshold];
    assert pw == Witness(salary, threshold);
    ProofExistsIffGreater(salary, threshold);
    var proved := Prove(circuitData, pw);
    match proved {
      case Err(e) => return Err("Proving error: " + e);
      case Ok(_) =>
    }
    var verified := Verify(circuitData, proved.value);
    match verified {
      case Err(e) => return Err("Verification error: " + e);
      case Ok(_) =>
    }
    return Ok(true);
  }
}

