/**
 * The part of the plonky2 circuit builder that the salary circuit uses, as a
 * symbolic circuit: the builder appends gates (each gate defines one new wire)
 * and constraints, and does not see any witness. A witness assigns values to
 * the virtual targets; every other wire's value follows from its gate.
 *
 * Field elements are modelled as integers (no reduction modulo the Goldilocks
 * prime). Boolean gates use plonky2's arithmetic encodings: NOT a = 1 - a,
 * a AND b = a * b, a OR b = a + b - a * b. The bits produced by `split_le`
 * are given their honest witness values (bit i of the source wire).
 */
module Plonky2 {
  import opened Wrappers
  import opened Bits

  /** A target: the index of the gate that defines it. */
  type Wire = nat

  datatype Gate =
    | Input                           // add_virtual_target: value supplied by the witness
    | LeBit(src: Wire, index: nat)    // bit `index` of `src`, as produced by split_le
    | Const(value: bool)              // constant_bool
    | NotGate(a: Wire)                // not
    | AndGate(a: Wire, b: Wire)       // and
    | OrGate(a: Wire, b: Wire)        // or
    | EqGate(a: Wire, b: Wire)        // is_equal

  datatype Constraint =
    | One(w: Wire)                        // assert_one
    | BitsSum(src: Wire, bits: seq<Wire>) // split_le: the bits, weighted by 2^i, sum to src

  /** What `builder.build()` produces. */
  datatype CircuitData = CircuitData(gates: seq<Gate>, constraints: seq<Constraint>)

  /** Values the prover sets with `set_target`. */
  type PartialWitness = map<Wire, nat>

  function FromBool(b: bool): int
  {
    if b then 1 else 0
  }

  /** On 0/1 values the arithmetic AND and OR encodings agree with the boolean ones. */
  lemma BoolArith(a: bool, b: bool)
    ensures FromBool(a) * FromBool(b) == FromBool(a && b)
    ensures FromBool(a) + FromBool(b) - FromBool(a) * FromBool(b) == FromBool(a || b)
  {
  }

  /** Bit `index` of a wire value; field elements are never negative. */
  function BitOf(v: int, index: nat): nat
  {
    if v < 0 then 0 else Bit(v, index)
  }

  /** The value of wire w under witness pw (0 for wires no gate defines). */
  function Val(gates: seq<Gate>, pw: PartialWitness, w: Wire): int
    decreases w, 1
  {
    if w >= |gates| then 0
    else match gates[w]
      case Input => if w in pw then pw[w] else 0
      case LeBit(src, index) => BitOf(Arg(gates, pw, w, src), index)
      case Const(value) => FromBool(value)
      case NotGate(a) => 1 - Arg(gates, pw, w, a)
      case AndGate(a, b) => Arg(gates, pw, w, a) * Arg(gates, pw, w, b)
      case OrGate(a, b) =>
        var x, y := Arg(gates, pw, w, a), Arg(gates, pw, w, b);
        x + y - x * y
      case EqGate(a, b) => FromBool(Arg(gates, pw, w, a) == Arg(gates, pw, w, b))
  }

  /** The value of operand a of the gate defining w; a gate may only read earlier wires. */
  function Arg(gates: seq<Gate>, pw: PartialWitness, w: Wire, a: Wire): int
    decreases w, 0
  {
    if a < w then Val(gates, pw, a) else 0
  }

  // What each kind of gate computes, in terms of the values of earlier wires.

  lemma ValInput(gates: seq<Gate>, pw: PartialWitness, w: Wire)
    requires w < |gates| && gates[w] == Input && w in pw
    ensures Val(gates, pw, w) == pw[w]
  {
  }

  lemma ValLeBit(gates: seq<Gate>, pw: PartialWitness, w: Wire, src: Wire, index: nat)
    requires w < |gates| && gates[w] == LeBit(src, index) && src < w
    ensures Val(gates, pw, w) == BitOf(Val(gates, pw, src), index)
  {
  }

  lemma ValConst(gates: seq<Gate>, pw: PartialWitness, w: Wire, b: bool)
    requires w < |gates| && gates[w] == Const(b)
    ensures Val(gates, pw, w) == FromBool(b)
  {
  }

  lemma ValNot(gates: seq<Gate>, pw: PartialWitness, w: Wire, a: Wire)
    requires w < |gates| && gates[w] == NotGate(a) && a < w
    ensures Val(gates, pw, w) == 1 - Val(gates, pw, a)
  {
  }

  lemma ValAnd(gates: seq<Gate>, pw: PartialWitness, w: Wire, a: Wire, b: Wire)
    requires w < |gates| && gates[w] == AndGate(a, b) && a < w && b < w
    ensures Val(gates, pw, w) == Val(gates, pw, a) * Val(gates, pw, b)
  {
  }

  lemma ValOr(gates: seq<Gate>, pw: PartialWitness, w: Wire, a: Wire, b: Wire)
    requires w < |gates| && gates[w] == OrGate(a, b) && a < w && b < w
    ensures Val(gates, pw, w) == Val(gates, pw, a) + Val(gates, pw, b) - Val(gates, pw, a) * Val(gates, pw, b)
  {
  }

  lemma ValEq(gates: seq<Gate>, pw: PartialWitness, w: Wire, a: Wire, b: Wire)
    requires w < |gates| && gates[w] == EqGate(a, b) && a < w && b < w
    ensures Val(gates, pw, w) == FromBool(Val(gates, pw, a) == Val(gates, pw, b))
  {
  }

  /** The sum of the values of `bits`, bit j weighted by 2^j. */
  function WeightedSum(gates: seq<Gate>, pw: PartialWitness, bits: seq<Wire>): int
  {
    if bits == [] then 0
    else WeightedSum(gates, pw, bits[..|bits| - 1]) + Val(gates, pw, bits[|bits| - 1]) * Pow2(|bits| - 1)
  }

  predicate Holds(c: CircuitData, pw: PartialWitness, con: Constraint)
  {
    match con
    case One(w) => Val(c.gates, pw, w) == 1
    case BitsSum(src, bits) => WeightedSum(c.gates, pw, bits) == Val(c.gates, pw, src)
  }

  /** Every virtual target has been given a value. */
  predicate WitnessComplete(c: CircuitData, pw: PartialWitness)
  {
    forall w :: 0 <= w < |c.gates| && c.gates[w].Input? ==> w in pw
  }

  /** The witness satisfies every constraint of the circuit. */
  predicate Satisfied(c: CircuitData, pw: PartialWitness)
  {
    forall k :: 0 <= k < |c.constraints| ==> Holds(c, pw, c.constraints[k])
  }

  /** A circuit with three constraints is satisfied when each of the three holds. */
  lemma SatisfiedThree(c: CircuitData, pw: PartialWitness)
    requires |c.constraints| == 3
    ensures Satisfied(c, pw) <==>
              Holds(c, pw, c.constraints[0]) && Holds(c, pw, c.constraints[1]) && Holds(c, pw, c.constraints[2])
  {
    if Holds(c, pw, c.constraints[0]) && Holds(c, pw, c.constraints[1]) && Holds(c, pw, c.constraints[2]) {
      forall k | 0 <= k < 3
        ensures Holds(c, pw, c.constraints[k])
      {
        if k == 0 {} else if k == 1 {} else {}
      }
    }
  }

  /**
   * If the wires `bits` carry the bits of x, their weighted sum is the number
   * spelled by the |bits| low bits of x.
   */
  lemma {:induction false} WeightedSumOfBits(gates: seq<Gate>, pw: PartialWitness, bits: seq<Wire>, x: nat)
    requires forall j :: 0 <= j < |bits| ==> Val(gates, pw, bits[j]) == Bit(x, j)
    ensures WeightedSum(gates, pw, bits) == Low(x, |bits|)
  {
    if bits != [] {
      var n := |bits| - 1;
      WeightedSumOfBits(gates, pw, bits[..n], x);
    }
  }

  /**
   * An idealised proof: it records the circuit it was produced for. Proving and
   * verifying are plonky2 internals; the model assumes the prover succeeds exactly
   * on complete, satisfying witnesses and the verifier accepts the proofs the
   * prover makes for the same circuit.
   */
  datatype Proof = Proof(circuit: CircuitData)

  function Prove(c: CircuitData, pw: PartialWitness): (r: Result<Proof, string>)
    ensures r.Ok? <==> WitnessComplete(c, pw) && Satisfied(c, pw)
  {
    if !WitnessComplete(c, pw) then Err("a target was not set")
    else if !Satisfied(c, pw) then Err("a constraint is not satisfied")
    else Ok(Proof(c))
  }

  function Verify(c: CircuitData, proof: Proof): (r: Result<(), string>)
    ensures r.Ok? <==> proof.circuit == c
  {
    if proof.circuit == c then Ok(()) else Err("the proof is not for this circuit")
  }

  /** The wires first, first + 1, ..., first + n - 1. */
  function WireRange(first: Wire, n: nat): (ws: seq<Wire>)
    ensures |ws| == n && forall j :: 0 <= j < n ==> ws[j] == first + j
  {
    seq(n, j requires 0 <= j => first + j)
  }

  /** The n gates split_le appends for `src`: bit 0 first. */
  function LeBits(src: Wire, n: nat): (gs: seq<Gate>)
    ensures |gs| == n && forall j :: 0 <= j < n ==> gs[j] == LeBit(src, j)
  {
    seq(n, j requires 0 <= j => LeBit(src, j))
  }

  /** The circuit builder: it only ever appends gates and constraints. */
  class CircuitBuilder {
    var gates: seq<Gate>
    var constraints: seq<Constraint>

    constructor ()
      ensures gates == [] && constraints == []
    {
      gates := [];
      constraints := [];
    }

    function Build(): (c: CircuitData)
      reads this
      ensures c.gates == gates && c.constraints == constraints
    {
      CircuitData(gates, constraints)
    }

    /** Appends one gate; the new wire is its index. */
    method AddGate(g: Gate) returns (t: Wire)
      modifies this
      ensures t == |old(gates)|
      ensures gates == old(gates) + [g] && constraints == old(constraints)
    {
      t := |gates|;
      gates := gates + [g];
    }

    method AddVirtualTarget() returns (t: Wire)
      modifies this
      ensures t == |old(gates)|
      ensures gates == old(gates) + [Input] && constraints == old(constraints)
    {
      t := AddGate(Input);
    }

    /** Splits `src` into n little-endian bit wires and constrains them to sum to `src`. */
    method SplitLe(src: Wire, n: nat) returns (bits: seq<Wire>)
      modifies this
      ensures bits == WireRange(|old(gates)|, n)
      ensures gates == old(gates) + LeBits(src, n)
      ensures constraints == old(constraints) + [BitsSum(src, bits)]
    {
      bits := WireRange(|gates|, n);
      gates := gates + LeBits(src, n);
      constraints := constraints + [BitsSum(src, bits)];
    }

    method ConstantBool(b: bool) returns (t: Wire)
      modifies this
      ensures t == |old(gates)|
      ensures gates == old(gates) + [Const(b)] && constraints == old(constraints)
    {
      t := AddGate(Const(b));
    }

    method Not(a: Wire) returns (t: Wire)
      modifies this
      ensures t == |old(gates)|
      ensures gates == old(gates) + [NotGate(a)] && constraints == old(constraints)
    {
      t := AddGate(NotGate(a));
    }

    method And(a: Wire, b: Wire) returns (t: Wire)
      modifies this
      ensures t == |old(gates)|
      ensures gates == old(gates) + [AndGate(a, b)] && constraints == old(constraints)
    {
      t := AddGate(AndGate(a, b));
    }

    method Or(a: Wire, b: Wire) returns (t: Wire)
      modifies this
      ensures t == |old(gates)|
      ensures gates == old(gates) + [OrGate(a, b)] && constraints == old(constraints)
    {
      t := AddGate(OrGate(a, b));
    }

    method IsEqual(a: Wire, b: Wire) returns (t: Wire)
      modifies this
      ensures t == |old(gates)|
      ensures gates == old(gates) + [EqGate(a, b)] && constraints == old(constraints)
    {
      t := AddGate(EqGate(a, b));
    }

    method AssertOne(w: Wire)
      modifies this
      ensures gates == old(gates) && constraints == old(constraints) + [One(w)]
    {
      constraints := constraints + [One(w)];
    }
  }
}
