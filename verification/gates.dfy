/**
 * The gate operators of a circuit as exact matrices.
 *
 * A one-site gate is a 2x2 matrix indexed (output, input): the output is the
 * unprimed physical index and the input the primed one, since an operator is
 * contracted against a Psi whose physical indices were primed. Values of an
 * index are numbered 1 and 2 (1 is |0>, 2 is |1>).
 *
 * Every entry a gate sets is 0, 1, -1, i or -i, so entries are kept as those
 * five units; the Hadamard gate's factor 1/sqrt 2 is kept apart as a power of
 * 1/sqrt 2. A product of two matrices has entries that are sums of two unit
 * products; they are kept as the two terms, which is exact.
 *
 * A two-site gate acts on (site1, site2) with site1 the control; its 4x4
 * matrix is kept as a 2x2 grid of 2x2 blocks: the block in row o and column i
 * holds the entries whose site1 output is o and site1 input is i.
 */
module QuantumGates {
  import opened Labels

  /** A unit amplitude: 0, 1, -1, i or -i. */
  datatype Amp = Zero | One | MinusOne | I | MinusI

  function Neg(x: Amp): Amp
  {
    match x
    case Zero => Zero
    case One => MinusOne
    case MinusOne => One
    case I => MinusI
    case MinusI => I
  }

  function TimesI(x: Amp): Amp
  {
    match x
    case Zero => Zero
    case One => I
    case MinusOne => MinusI
    case I => MinusOne
    case MinusI => One
  }

  /** The product of two units is a unit. */
  function Times(x: Amp, y: Amp): Amp
  {
    match x
    case Zero => Zero
    case One => y
    case MinusOne => Neg(y)
    case I => TimesI(y)
    case MinusI => Neg(TimesI(y))
  }

  /** x + y where at least one of them is 0: the only sums the gate definitions form. */
  function Plus(x: Amp, y: Amp): (r: Amp)
    requires x == Zero || y == Zero
    ensures x == Zero ==> r == y
    ensures y == Zero ==> r == x
  {
    if x == Zero then y else x
  }

  /** a + b, kept as its two terms. */
  datatype Sum = Sum(a: Amp, b: Amp)

  /**
   * The sum equals the unit `x`. Two nonzero units never add up to a unit
   * (their sum is 0 or has modulus sqrt 2 or 2), so a sum is the unit x != 0
   * exactly when one term is x and the other 0, and it is 0 exactly when the
   * terms cancel.
   */
  predicate SumIs(s: Sum, x: Amp)
  {
    if x == Zero then s.b == Neg(s.a)
    else (s.a == x && s.b == Zero) || (s.a == Zero && s.b == x)
  }

  /** The sum equals 2: both terms are 1. */
  predicate SumIsTwo(s: Sum)
  {
    s.a == One && s.b == One
  }

  /** A row of a 2x2 matrix: the entries for input 1 and input 2. */
  datatype Row = Row(in1: Amp, in2: Amp)

  /** A 2x2 matrix by rows: output 1 and output 2. */
  datatype Mat2 = Mat2(out1: Row, out2: Row)

  const ZeroMat := Mat2(Row(Zero, Zero), Row(Zero, Zero))

  /** Id: (out 1, in 1) and (out 2, in 2) set to 1. */
  const IdMat := Mat2(Row(One, Zero), Row(Zero, One))
  /** X: (out 1, in 2) and (out 2, in 1) set to 1. */
  const XMat := Mat2(Row(Zero, One), Row(One, Zero))
  /** Y: (out 1, in 2) set to -i, (out 2, in 1) to i. */
  const YMat := Mat2(Row(Zero, MinusI), Row(I, Zero))
  /** Z: (out 1, in 1) set to 1, (out 2, in 2) to -1. */
  const ZMat := Mat2(Row(One, Zero), Row(Zero, MinusOne))
  /** |0><0|: (out 1, in 1) set to 1. */
  const Proj0Mat := Mat2(Row(One, Zero), Row(Zero, Zero))
  /** |1><1|: (out 2, in 2) set to 1. */
  const Proj1Mat := Mat2(Row(Zero, Zero), Row(Zero, One))
  /** |1><0|: (out 2, in 1) set to 1. */
  const Proj0To1Mat := Mat2(Row(Zero, Zero), Row(One, Zero))
  /** |0><1|: (out 1, in 2) set to 1. */
  const Proj1To0Mat := Mat2(Row(Zero, One), Row(Zero, Zero))

  /** No entry is nonzero in both matrices, so their sum has unit entries. */
  predicate Disjoint(a: Mat2, b: Mat2)
  {
    && (a.out1.in1 == Zero || b.out1.in1 == Zero) && (a.out1.in2 == Zero || b.out1.in2 == Zero)
    && (a.out2.in1 == Zero || b.out2.in1 == Zero) && (a.out2.in2 == Zero || b.out2.in2 == Zero)
  }

  function MatAdd(a: Mat2, b: Mat2): Mat2
    requires Disjoint(a, b)
  {
    Mat2(Row(Plus(a.out1.in1, b.out1.in1), Plus(a.out1.in2, b.out1.in2)),
         Row(Plus(a.out2.in1, b.out2.in1), Plus(a.out2.in2, b.out2.in2)))
  }

  function MatNeg(a: Mat2): Mat2
  {
    Mat2(Row(Neg(a.out1.in1), Neg(a.out1.in2)), Row(Neg(a.out2.in1), Neg(a.out2.in2)))
  }

  function MatScale(c: Amp, a: Mat2): Mat2
  {
    Mat2(Row(Times(c, a.out1.in1), Times(c, a.out1.in2)), Row(Times(c, a.out2.in1), Times(c, a.out2.in2)))
  }

  datatype SumRow = SumRow(in1: Sum, in2: Sum)

  /** A matrix whose entries are sums of two units: a product of two unit matrices. */
  datatype SumMat = SumMat(out1: SumRow, out2: SumRow)

  function RowTimes(r: Row, b: Mat2): SumRow
  {
    SumRow(Sum(Times(r.in1, b.out1.in1), Times(r.in2, b.out2.in1)),
           Sum(Times(r.in1, b.out1.in2), Times(r.in2, b.out2.in2)))
  }

  /** The composition: `a` applied after `b`. */
  function MatMul(a: Mat2, b: Mat2): SumMat
  {
    SumMat(RowTimes(a.out1, b), RowTimes(a.out2, b))
  }

  /** Every entry of the product equals the entry of `m`. */
  predicate SumMatIs(s: SumMat, m: Mat2)
  {
    && SumIs(s.out1.in1, m.out1.in1) && SumIs(s.out1.in2, m.out1.in2)
    && SumIs(s.out2.in1, m.out2.in1) && SumIs(s.out2.in2, m.out2.in2)
  }

  /** A state of one qubit: the amplitudes of |0> and |1>. */
  datatype Ket = Ket(c1: Amp, c2: Amp)

  const Ket0 := Ket(One, Zero)
  const Ket1 := Ket(Zero, One)

  datatype SumKet = SumKet(c1: Sum, c2: Sum)

  function Apply(m: Mat2, v: Ket): SumKet
  {
    SumKet(Sum(Times(m.out1.in1, v.c1), Times(m.out1.in2, v.c2)),
           Sum(Times(m.out2.in1, v.c1), Times(m.out2.in2, v.c2)))
  }

  predicate KetIs(s: SumKet, v: Ket)
  {
    SumIs(s.c1, v.c1) && SumIs(s.c2, v.c2)
  }

  /** An operator (1/sqrt 2)^scale * m. */
  datatype Operator = Operator(scale: int, m: Mat2)

  /** A composed operator (1/sqrt 2)^scale * m. */
  datatype SumOperator = SumOperator(scale: int, m: SumMat)

  function Compose(a: Operator, b: Operator): SumOperator
  {
    SumOperator(a.scale + b.scale, MatMul(a.m, b.m))
  }

  /**
   * (1/sqrt 2)^scale * m is the identity. With entries that are sums of two
   * units, the diagonal of m has modulus 0, 1, sqrt 2 or 2, so this holds
   * exactly when scale is 0 and m is the identity or scale is 2 and m is
   * twice the identity.
   */
  predicate IsIdentity(op: SumOperator)
  {
    && SumIs(op.m.out1.in2, Zero) && SumIs(op.m.out2.in1, Zero)
    && ((op.scale == 0 && SumIs(op.m.out1.in1, One) && SumIs(op.m.out2.in2, One))
        || (op.scale == 2 && SumIsTwo(op.m.out1.in1) && SumIsTwo(op.m.out2.in2)))
  }

  datatype OneSiteKind = Id | X | Y | Z | Proj0 | Proj1 | Proj0To1 | Proj1To0 | H

  /** A one-site gate: which one, and the site it acts on. */
  datatype OneSiteGate = OneSiteGate(kind: OneSiteKind, site: nat)

  /**
   * The matrix each gate's `op` fills, entry by entry: every entry it does
   * not set is 0. H is (1/sqrt 2)(Proj0 + Proj0To1) + (1/sqrt 2)(Proj1 - Proj1To0),
   * the two terms sharing the factor.
   */
  function Matrix(kind: OneSiteKind): (r: Operator)
    ensures r.scale == 0 || r.scale == 1
    ensures r.scale == 1 <==> kind == H
    ensures kind == H ==> r.m == Mat2(Row(One, MinusOne), Row(One, One))
  {
    match kind
    case Id => Operator(0, IdMat)
    case X => Operator(0, XMat)
    case Y => Operator(0, YMat)
    case Z => Operator(0, ZMat)
    case Proj0 => Operator(0, Proj0Mat)
    case Proj1 => Operator(0, Proj1Mat)
    case Proj0To1 => Operator(0, Proj0To1Mat)
    case Proj1To0 => Operator(0, Proj1To0Mat)
    case H => Operator(1, MatAdd(MatAdd(Proj0Mat, Proj0To1Mat), MatAdd(Proj1Mat, MatNeg(Proj1To0Mat))))
  }

  /** The indices `op(s)` carries: the gate site's physical index and its primed copy. */
  function OneSiteIndices(gate: OneSiteGate, s: seq<Index>): (t: Tensor)
    requires gate.site < |s|
    ensures |t| == 2 && s[gate.site] in t && Prime(s[gate.site]) in t
  {
    assert s[gate.site] != Prime(s[gate.site]);
    {s[gate.site], Prime(s[gate.site])}
  }

  /** X swaps the two basis states; Z keeps |0> and negates |1>; Y takes |0> to i|1> and |1> to -i|0>. */
  lemma PauliActions()
    ensures KetIs(Apply(Matrix(X).m, Ket0), Ket1) && KetIs(Apply(Matrix(X).m, Ket1), Ket0)
    ensures KetIs(Apply(Matrix(Z).m, Ket0), Ket0) && KetIs(Apply(Matrix(Z).m, Ket1), Ket(Zero, MinusOne))
    ensures KetIs(Apply(Matrix(Y).m, Ket0), Ket(Zero, I)) && KetIs(Apply(Matrix(Y).m, Ket1), Ket(MinusI, Zero))
  {
  }

  /** Id, X, Y and Z are their own inverses. */
  lemma PauliSquares(kind: OneSiteKind)
    requires kind == Id || kind == X || kind == Y || kind == Z
    ensures IsIdentity(Compose(Matrix(kind), Matrix(kind)))
  {
    match kind
    case Id => IdSquare();
    case X => XSquare();
    case Y => YSquare();
    case Z => ZSquare();
  }

  lemma IdSquare() ensures IsIdentity(Compose(Operator(0, IdMat), Operator(0, IdMat))) { }
  lemma XSquare() ensures IsIdentity(Compose(Operator(0, XMat), Operator(0, XMat))) { }
  lemma YSquare() ensures IsIdentity(Compose(Operator(0, YMat), Operator(0, YMat))) { }
  lemma ZSquare() ensures IsIdentity(Compose(Operator(0, ZMat), Operator(0, ZMat))) { }

  /** The projectors onto |0> and |1> sum to the identity, are idempotent and annihilate each other. */
  lemma Projectors()
    ensures Disjoint(Matrix(Proj0).m, Matrix(Proj1).m)
    ensures MatAdd(Matrix(Proj0).m, Matrix(Proj1).m) == Matrix(Id).m
    ensures SumMatIs(MatMul(Matrix(Proj0).m, Matrix(Proj0).m), Matrix(Proj0).m)
    ensures SumMatIs(MatMul(Matrix(Proj1).m, Matrix(Proj1).m), Matrix(Proj1).m)
    ensures SumMatIs(MatMul(Matrix(Proj0).m, Matrix(Proj1).m), ZeroMat)
    ensures SumMatIs(MatMul(Matrix(Proj1).m, Matrix(Proj0).m), ZeroMat)
  {
  }

  /** Proj0To1 = |1><0| takes |0> to |1> and kills |1>; Proj1To0 = |0><1| the other way round. */
  lemma Transitions()
    ensures KetIs(Apply(Matrix(Proj0To1).m, Ket0), Ket1) && KetIs(Apply(Matrix(Proj0To1).m, Ket1), Ket(Zero, Zero))
    ensures KetIs(Apply(Matrix(Proj1To0).m, Ket1), Ket0) && KetIs(Apply(Matrix(Proj1To0).m, Ket0), Ket(Zero, Zero))
    ensures SumMatIs(MatMul(Matrix(Proj1To0).m, Matrix(Proj0To1).m), Matrix(Proj0).m)
    ensures SumMatIs(MatMul(Matrix(Proj0To1).m, Matrix(Proj1To0).m), Matrix(Proj1).m)
  {
  }

  /** The textbook Hadamard gate (1/sqrt 2)[[1, 1], [1, -1]]. */
  const Hadamard := Operator(1, Mat2(Row(One, One), Row(One, MinusOne)))

  /**
   * The coded H is (1/sqrt 2)[[1, -1], [1, 1]] in (output, input) order: the
   * textbook Hadamard gate after Z. Applied twice it is not the identity but
   * (1/2)[[0, -2], [2, 0]], and it takes |1> to -|->, where the textbook
   * gate gives |->.
   */
  lemma CodedHadamardNotSelfInverse()
    ensures Matrix(H) == Operator(1, Mat2(Row(One, MinusOne), Row(One, One)))
    ensures SumMatIs(MatMul(Hadamard.m, Matrix(Z).m), Matrix(H).m)
    ensures !IsIdentity(Compose(Matrix(H), Matrix(H)))
    ensures Compose(Matrix(H), Matrix(H)) ==
            SumOperator(2, SumMat(SumRow(Sum(One, MinusOne), Sum(MinusOne, MinusOne)), SumRow(Sum(One, One), Sum(MinusOne, One))))
    ensures KetIs(Apply(Matrix(H).m, Ket1), Ket(MinusOne, One))
    ensures !KetIs(Apply(Matrix(H).m, Ket1), Ket(One, MinusOne))
  {
  }

  /** The gates with H replaced by the textbook Hadamard gate. */
  function CorrectedMatrix(kind: OneSiteKind): Operator
  {
    if kind == H then Hadamard else Matrix(kind)
  }

  /** The textbook Hadamard gate is its own inverse and takes |0> to |+> and |1> to |->. */
  lemma HadamardSelfInverse()
    ensures IsIdentity(Compose(CorrectedMatrix(H), CorrectedMatrix(H)))
    ensures KetIs(Apply(CorrectedMatrix(H).m, Ket0), Ket(One, One))
    ensures KetIs(Apply(CorrectedMatrix(H).m, Ket1), Ket(One, MinusOne))
  {
  }

  /** With the corrected H, every gate meant as a reflection (Id, X, Y, Z, H) is its own inverse. */
  lemma CorrectedReflections(kind: OneSiteKind)
    requires kind == Id || kind == X || kind == Y || kind == Z || kind == H
    ensures IsIdentity(Compose(CorrectedMatrix(kind), CorrectedMatrix(kind)))
  {
    if kind == H {
      HadamardSelfInverse();
    } else {
      PauliSquares(kind);
    }
  }

  datatype TwoSiteKind = CNOT | CY | CZ

  /** A two-site gate: which one, its control site and its target site. */
  datatype TwoSiteGate = TwoSiteGate(kind: TwoSiteKind, site1: nat, site2: nat)

  /** A row of blocks: the blocks for site1 input 1 and input 2. */
  datatype BlockRow = BlockRow(in1: Mat2, in2: Mat2)

  /** A 4x4 matrix as blocks indexed by site1's (output, input). */
  datatype Mat4 = Mat4(out1: BlockRow, out2: BlockRow)

  /** The product of a tensor on site1 and one on site2 (no shared index): their Kronecker product. */
  function Kron(a: Mat2, b: Mat2): Mat4
  {
    Mat4(BlockRow(MatScale(a.out1.in1, b), MatScale(a.out1.in2, b)),
         BlockRow(MatScale(a.out2.in1, b), MatScale(a.out2.in2, b)))
  }

  predicate Disjoint4(x: Mat4, y: Mat4)
  {
    && Disjoint(x.out1.in1, y.out1.in1) && Disjoint(x.out1.in2, y.out1.in2)
    && Disjoint(x.out2.in1, y.out2.in1) && Disjoint(x.out2.in2, y.out2.in2)
  }

  function Mat4Add(x: Mat4, y: Mat4): Mat4
    requires Disjoint4(x, y)
  {
    Mat4(BlockRow(MatAdd(x.out1.in1, y.out1.in1), MatAdd(x.out1.in2, y.out1.in2)),
         BlockRow(MatAdd(x.out2.in1, y.out2.in1), MatAdd(x.out2.in2, y.out2.in2)))
  }

  /** The one-site gate each controlled gate applies to site2 when site1 is |1>. */
  function Target(kind: TwoSiteKind): OneSiteKind
  {
    match kind
    case CNOT => X
    case CY => Y
    case CZ => Z
  }

  /** `op` of a controlled gate on two distinct sites: Proj0(site1) * Id(site2) + Proj1(site1) * T(site2). */
  function Matrix4(kind: TwoSiteKind): (r: Mat4)
    ensures r.out1.in2 == ZeroMat && r.out2.in1 == ZeroMat
    ensures r.out1.in1 == IdMat
  {
    Mat4Add(Kron(Matrix(Proj0).m, Matrix(Id).m), Kron(Matrix(Proj1).m, Matrix(Target(kind)).m))
  }

  /**
   * The indices `op(s)` of a two-site gate carries. Each term of the sum is an
   * operator on site1 times one on site2, and `*` contracts the indices they
   * share: on two sites with distinct indices all four physical indices and
   * primed copies remain, and when site1 is site2 the operator is a scalar.
   */
  function TwoSiteIndices(gate: TwoSiteGate, s: seq<Index>): (t: Tensor)
    requires gate.site1 < |s| && gate.site2 < |s|
    ensures forall x :: x in t ==> x == s[gate.site1] || x == Prime(s[gate.site1]) || x == s[gate.site2] || x == Prime(s[gate.site2])
    ensures {s[gate.site1], Prime(s[gate.site1])} !! {s[gate.site2], Prime(s[gate.site2])} ==>
              s[gate.site1] in t && Prime(s[gate.site1]) in t && s[gate.site2] in t && Prime(s[gate.site2]) in t
    ensures gate.site1 == gate.site2 ==> t == {}
  {
    Contract(OneSiteIndices(OneSiteGate(Proj0, gate.site1), s), OneSiteIndices(OneSiteGate(Id, gate.site2), s))
  }

  /**
   * A controlled gate is block diagonal: the identity on site2 while site1
   * is |0>, its target gate on site2 while site1 is |1>, and site1 is never
   * flipped.
   */
  lemma ControlledBlocks(kind: TwoSiteKind)
    ensures Matrix4(kind) == Mat4(BlockRow(IdMat, ZeroMat), BlockRow(ZeroMat, Matrix(Target(kind)).m))
  {
  }

  /**
   * CNOT, CY and CZ are their own inverses: being block diagonal, their
   * square is block diagonal with the squares of the blocks, and both blocks
   * square to the identity.
   */
  lemma ControlledSelfInverse(kind: TwoSiteKind)
    ensures var c := Matrix4(kind);
            && c.out1.in2 == ZeroMat && c.out2.in1 == ZeroMat
            && IsIdentity(SumOperator(0, MatMul(c.out1.in1, c.out1.in1)))
            && IsIdentity(SumOperator(0, MatMul(c.out2.in2, c.out2.in2)))
  {
    ControlledBlocks(kind);
    PauliSquares(Id);
    PauliSquares(Target(kind));
  }
}
