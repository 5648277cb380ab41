/**
 * The QASM interpreter's own bookkeeping: the classical bit array `_creg`, a
 * counter and a dictionary of register ranges for quantum registers, and the
 * same pair for classical registers. Statements arrive already parsed, by
 * kind. The simulation engine they drive is outside the model: a
 * measurement's outcome is a parameter, and a gate changes nothing here.
 */
module QasmInterpreter {
  import opened Registers
  import Circuits

  /** A parsed statement, by the kind the dispatch tests. */
  datatype Statement =
    | Format
    | QregDecl(name: string, size: int)
    | CregDecl(name: string, size: int)
    | Barrier
    | GateDecl
      /** `measure q[i] -> c[j]`: both operands indexed. */
    | MeasureBit(qreg: string, qindex: int, creg: string, cindex: int)
      /** A measure with one operand indexed and the other a whole register. */
    | MeasureMixed
    | Reset
    | UniversalUnitary(qreg: string, qindex: int)
    | Cnot(controlReg: string, controlIndex: int, targetReg: string, targetIndex: int)
    | CustomUnitary
      /** Any other kind of statement. */
    | Unknown

  /** The interpreter's state, without the engine. */
  datatype Machine = Machine(creg: seq<int>, qregs: Allocation, cregs: Allocation)

  /** The state after construction: `maxQubit` zero bits, both counters 0, no register. */
  function Initial(maxQubit: nat): (m: Machine)
    ensures |m.creg| == maxQubit && (forall k :: 0 <= k < maxQubit ==> m.creg[k] == 0)
    ensures Packed(m.qregs) && Packed(m.cregs)
  {
    Machine(seq(maxQubit, _ => 0), Allocation(0, map[]), Allocation(0, map[]))
  }

  /**
   * Python's list store `xs[i] = v`: a negative index counts back from the
   * end, and an index outside [-|xs|, |xs|) raises IndexError.
   */
  function Store(xs: seq<int>, i: int, v: int): (r: Result<seq<int>>)
    ensures r.Ok? <==> -|xs| <= i < |xs|
    ensures r.Raised? ==> r.error == IndexError
  {
    if 0 <= i < |xs| then Ok(xs[i := v])
    else if -|xs| <= i < 0 then Ok(xs[|xs| + i := v])
    else Raised(IndexError)
  }

  /** A store writes exactly one slot, the one `Position` names, and keeps the length. */
  lemma StoreOneSlot(xs: seq<int>, i: int, v: int)
    requires Store(xs, i, v).Ok?
    ensures var p := Position(|xs|, i);
            var ys := Store(xs, i, v).value;
            && 0 <= p < |xs| && |ys| == |xs| && ys[p] == v
            && forall k :: 0 <= k < |xs| && k != p ==> ys[k] == xs[k]
  {
  }

  /**
   * `_measure` of qubit `qindex` of `qreg` into bit `cindex` of `creg`: both
   * positions are looked up (KeyError for an unknown register, the index is
   * not checked), then the engine's outcome is stored at the classical
   * position.
   */
  function Measured(m: Machine, qreg: string, qindex: int, creg: string, cindex: int, outcome: int): (r: Result<Machine>)
    ensures r.Raised? ==> r.error == KeyError || r.error == IndexError
    ensures r.Ok? ==> r.value.qregs == m.qregs && r.value.cregs == m.cregs && |r.value.creg| == |m.creg|
  {
    match Locate(m.qregs, qreg, qindex)
    case Raised(e) => Raised(e)
    case Ok(_) =>
      match Locate(m.cregs, creg, cindex)
      case Raised(e) => Raised(e)
      case Ok(c) =>
        match Store(m.creg, c, outcome)
        case Raised(e) => Raised(e)
        case Ok(bits) => Ok(m.(creg := bits))
  }

  /**
   * `_execute_statement`: the new state, or the exception the statement
   * raises. `outcome` is what the engine reports if the statement measures.
   */
  function Step(m: Machine, s: Statement, outcome: int): (r: Result<Machine>)
    ensures r.Raised? ==> s.MeasureBit? || s.UniversalUnitary? || s.Cnot? || s.Unknown?
    ensures r.Ok? ==> |r.value.creg| == |m.creg|
    ensures r.Ok? && !s.MeasureBit? ==> r.value.creg == m.creg
    ensures r.Ok? && !s.QregDecl? ==> r.value.qregs == m.qregs
    ensures r.Ok? && !s.CregDecl? ==> r.value.cregs == m.cregs
  {
    match s
    case Format => Ok(m)
    case QregDecl(name, size) => Ok(m.(qregs := Allocate(m.qregs, name, size)))
    case CregDecl(name, size) => Ok(m.(cregs := Allocate(m.cregs, name, size)))
    case Barrier => Ok(m)
    case GateDecl => Ok(m)
    case MeasureBit(qreg, qindex, creg, cindex) => Measured(m, qreg, qindex, creg, cindex, outcome)
    case MeasureMixed => Ok(m)
    case Reset => Ok(m)
    case UniversalUnitary(qreg, qindex) =>
      (match Locate(m.qregs, qreg, qindex)
       case Raised(e) => Raised(e)
       case Ok(_) => Ok(m))
    // The source calls `_get_qreg_index` without `self`: a NameError, whatever the operands.
    case Cnot(_, _, _, _) => Raised(NameError)
    case CustomUnitary => Ok(m)
    case Unknown => Raised(Unimplemented)
  }

  /** The state and status at the end of a run. */
  datatype Finish = Finish(machine: Machine, status: Result<()>)

  /**
   * `execute`: the statements in order, stopping at the first exception. A
   * failing statement changes nothing, so the state is the one before it.
   * `outcomes[k]` is the engine's report for statement k.
   */
  function Run(m: Machine, stmts: seq<Statement>, outcomes: seq<int>): (r: Finish)
    requires |outcomes| == |stmts|
    ensures |r.machine.creg| == |m.creg|
    ensures (forall k :: 0 <= k < |stmts| ==> !stmts[k].QregDecl?) ==> r.machine.qregs == m.qregs
    ensures (forall k :: 0 <= k < |stmts| ==> !stmts[k].CregDecl?) ==> r.machine.cregs == m.cregs
    decreases |stmts|
  {
    if stmts == [] then Finish(m, Ok(()))
    else
      match Step(m, stmts[0], outcomes[0])
      case Raised(e) => Finish(m, Raised(e))
      case Ok(next) => Run(next, stmts[1..], outcomes[1..])
  }

  /** Format, Barrier, gate definitions, Reset, CustomUnitary and a mixed measure change nothing. */
  lemma NoOpStatements(m: Machine, s: Statement, outcome: int)
    requires s.Format? || s.Barrier? || s.GateDecl? || s.Reset? || s.CustomUnitary? || s.MeasureMixed?
    ensures Step(m, s, outcome) == Ok(m)
  {
  }

  /** Only an unknown kind raises `Unimplemented`, and a CNOT always fails. */
  lemma FailingStatements(m: Machine, s: Statement, outcome: int)
    ensures Step(m, s, outcome) == Raised(Unimplemented) <==> s.Unknown?
    ensures s.Cnot? ==> Step(m, s, outcome) == Raised(NameError)
  {
  }

  /**
   * A measure succeeds exactly when both registers are known and the
   * classical position is a valid list index; it then writes the outcome into
   * that one slot and changes nothing else.
   */
  lemma MeasureWritesOneSlot(m: Machine, qreg: string, qindex: int, creg: string, cindex: int, outcome: int)
    ensures var r := Measured(m, qreg, qindex, creg, cindex, outcome);
            r.Ok? <==> qreg in m.qregs.regs && creg in m.cregs.regs
                       && -|m.creg| <= m.cregs.regs[creg].start + cindex < |m.creg|
    ensures var r := Measured(m, qreg, qindex, creg, cindex, outcome);
            r.Ok? ==>
              var p := Position(|m.creg|, m.cregs.regs[creg].start + cindex);
              && r.value.qregs == m.qregs && r.value.cregs == m.cregs
              && |r.value.creg| == |m.creg| && 0 <= p < |m.creg| && r.value.creg[p] == outcome
              && forall k :: 0 <= k < |m.creg| && k != p ==> r.value.creg[k] == m.creg[k]
  {
    if qreg in m.qregs.regs && creg in m.cregs.regs {
      var c := m.cregs.regs[creg].start + cindex;
      if Store(m.creg, c, outcome).Ok? {
        StoreOneSlot(m.creg, c, outcome);
      }
    }
  }

  /** No statement changes the length of the classical bit array. */
  lemma StepKeepsLength(m: Machine, s: Statement, outcome: int)
    requires Step(m, s, outcome).Ok?
    ensures |Step(m, s, outcome).value.creg| == |m.creg|
  {
    if s.MeasureBit? {
      MeasureWritesOneSlot(m, s.qreg, s.qindex, s.creg, s.cindex, outcome);
    }
  }

  /** Declarations whose sizes are not negative. */
  predicate SizesNonNegative(stmts: seq<Statement>)
  {
    forall k :: 0 <= k < |stmts| ==> (stmts[k].QregDecl? || stmts[k].CregDecl?) ==> stmts[k].size >= 0
  }

  /** A statement keeps both allocations packed, provided a declaration's size is not negative. */
  lemma StepKeepsPacked(m: Machine, s: Statement, outcome: int)
    requires Packed(m.qregs) && Packed(m.cregs)
    requires (s.QregDecl? || s.CregDecl?) ==> s.size >= 0
    requires Step(m, s, outcome).Ok?
    ensures Packed(Step(m, s, outcome).value.qregs) && Packed(Step(m, s, outcome).value.cregs)
  {
    match s {
      case QregDecl(name, size) => AllocatePacked(m.qregs, name, size);
      case CregDecl(name, size) => AllocatePacked(m.cregs, name, size);
      case MeasureBit(qreg, qindex, creg, cindex) =>
        MeasureWritesOneSlot(m, qreg, qindex, creg, cindex, outcome);
      case _ =>
    }
  }

  /**
   * A run keeps the length of the classical bit array and, when no
   * declaration has a negative size, keeps the register ranges packed.
   */
  lemma {:induction false} RunInvariant(m: Machine, stmts: seq<Statement>, outcomes: seq<int>)
    requires |outcomes| == |stmts|
    ensures |Run(m, stmts, outcomes).machine.creg| == |m.creg|
    ensures Packed(m.qregs) && Packed(m.cregs) && SizesNonNegative(stmts)
            ==> Packed(Run(m, stmts, outcomes).machine.qregs) && Packed(Run(m, stmts, outcomes).machine.cregs)
    decreases |stmts|
  {
    if stmts != [] {
      var r := Step(m, stmts[0], outcomes[0]);
      if r.Ok? {
        StepKeepsLength(m, stmts[0], outcomes[0]);
        RunInvariant(r.value, stmts[1..], outcomes[1..]);
        if Packed(m.qregs) && Packed(m.cregs) && SizesNonNegative(stmts) {
          StepKeepsPacked(m, stmts[0], outcomes[0]);
          assert SizesNonNegative(stmts[1..]) by {
            forall k | 0 <= k < |stmts| - 1
              ensures (stmts[1..][k].QregDecl? || stmts[1..][k].CregDecl?) ==> stmts[1..][k].size >= 0
            {
              assert stmts[1..][k] == stmts[k + 1];
            }
          }
        }
      }
    }
  }

  /**
   * Running two programs one after the other is running the first, then, if
   * it raised nothing, the second from where it stopped.
   */
  lemma {:induction false} RunAppend(m: Machine, a: seq<Statement>, oa: seq<int>, b: seq<Statement>, ob: seq<int>)
    requires |oa| == |a| && |ob| == |b|
    ensures var f := Run(m, a, oa);
            Run(m, a + b, oa + ob) == if f.status.Raised? then f else Run(f.machine, b, ob)
    decreases |a|
  {
    if a == [] {
      assert a + b == b && oa + ob == ob;
    } else {
      assert (a + b)[0] == a[0] && (oa + ob)[0] == oa[0];
      assert (a + b)[1..] == a[1..] + b && (oa + ob)[1..] == oa[1..] + ob;
      var r := Step(m, a[0], oa[0]);
      if r.Ok? {
        RunAppend(r.value, a[1..], oa[1..], b, ob);
      }
    }
  }

  /**
   * `QASMInterpreter`: the number of hardware qubits of its fixed topology,
   * the classical bit array and the two register tables.
   */
  class Interpreter {
    const maxQubit: nat
    var creg: seq<int>
    var qregTop: int
    var qregInfo: map<string, RegisterInfo>
    var cregTop: int
    var cregInfo: map<string, RegisterInfo>

    function State(): Machine
      reads this
    {
      Machine(creg, Allocation(qregTop, qregInfo), Allocation(cregTop, cregInfo))
    }

    /** Built on the 53-qubit layout: one zero bit per hardware qubit, no register. */
    constructor ()
      ensures maxQubit == 53 && State() == Initial(53)
    {
      var topology := Circuits.MakeIbmq();
      maxQubit := topology.NumberOfBits();
      creg := seq(topology.NumberOfBits(), _ => 0);
      qregTop := 0;
      qregInfo := map[];
      cregTop := 0;
      cregInfo := map[];
    }

    /** `_add_qreg`: the overflow test raises nothing, so the counter may pass `maxQubit`. */
    method AddQreg(name: string, size: int)
      modifies this
      ensures State() == old(State()).(qregs := Allocate(old(State()).qregs, name, size))
    {
      qregInfo := qregInfo[name := RegisterInfo(qregTop, size)];
      qregTop := qregTop + size;
    }

    /** `_get_qreg_index`: start plus index for every index, its guard having no effect; KeyError for an unknown name. */
    function GetQregIndex(name: string, index: int): (r: Result<int>)
      reads this
      ensures r.Ok? <==> name in qregInfo
      ensures r.Ok? ==> r.value - index == qregInfo[name].start
    {
      Locate(Allocation(qregTop, qregInfo), name, index)
    }

    /** `_get_qreg_size`: KeyError for an unknown name. */
    function GetQregSize(name: string): (r: Result<int>)
      reads this
      ensures r.Ok? <==> name in qregInfo
      ensures r.Ok? ==> r.value == qregInfo[name].size
    {
      SizeOf(Allocation(qregTop, qregInfo), name)
    }

    /** `_add_creg`: the same bookkeeping on the classical counter and table. */
    method AddCreg(name: string, size: int)
      modifies this
      ensures State() == old(State()).(cregs := Allocate(old(State()).cregs, name, size))
    {
      cregInfo := cregInfo[name := RegisterInfo(cregTop, size)];
      cregTop := cregTop + size;
    }

    /** `_get_creg_index`: start plus index for every index; KeyError for an unknown name. */
    function GetCregIndex(name: string, index: int): (r: Result<int>)
      reads this
      ensures r.Ok? <==> name in cregInfo
      ensures r.Ok? ==> r.value - index == cregInfo[name].start
    {
      Locate(Allocation(cregTop, cregInfo), name, index)
    }

    /** `_get_creg_size`: KeyError for an unknown name. */
    function GetCregSize(name: string): (r: Result<int>)
      reads this
      ensures r.Ok? <==> name in cregInfo
      ensures r.Ok? ==> r.value == cregInfo[name].size
    {
      SizeOf(Allocation(cregTop, cregInfo), name)
    }

    /**
     * `_measure` with two indexed operands; `outcome` is what the engine's
     * `observe_qubit` returns. On an exception nothing has been written.
     */
    method Measure(qreg: string, qindex: int, creg': string, cindex: int, outcome: int) returns (r: Result<()>)
      modifies this
      ensures var s := Measured(old(State()), qreg, qindex, creg', cindex, outcome);
              && (s.Ok? ==> r == Ok(()) && State() == s.value)
              && (s.Raised? ==> r == Raised(s.error) && State() == old(State()))
    {
      var q := GetQregIndex(qreg, qindex);
      if q.Raised? {
        return Raised(q.error);
      }
      var c := GetCregIndex(creg', cindex);
      if c.Raised? {
        return Raised(c.error);
      }
      var bits := Store(creg, c.value, outcome);
      if bits.Raised? {
        return Raised(bits.error);
      }
      creg := bits.value;
      r := Ok(());
    }

    /** `_execute_statement`: dispatch on the kind of statement. */
    method ExecuteStatement(s: Statement, outcome: int) returns (r: Result<()>)
      modifies this
      ensures var st := Step(old(State()), s, outcome);
              && (st.Ok? ==> r == Ok(()) && State() == st.value)
              && (st.Raised? ==> r == Raised(st.error) && State() == old(State()))
    {
      match s {
        case Format =>
          r := Ok(());
        case QregDecl(name, size) =>
          AddQreg(name, size);
          r := Ok(());
        case CregDecl(name, size) =>
          AddCreg(name, size);
          r := Ok(());
        case Barrier =>
          r := Ok(());
        case GateDecl =>
          r := Ok(());
        case MeasureBit(qreg, qindex, creg', cindex) =>
          r := Measure(qreg, qindex, creg', cindex, outcome);
        case MeasureMixed =>
          r := Ok(());
        case Reset =>
          r := Ok(());
        case UniversalUnitary(qreg, qindex) =>
          var q := GetQregIndex(qreg, qindex);
          r := if q.Raised? then Raised(q.error) else Ok(());
        case Cnot(_, _, _, _) =>
          r := Raised(NameError);
        case CustomUnitary =>
          r := Ok(());
        case Unknown =>
          r := Raised(Unimplemented);
      }
    }

    /** `execute`: every statement in order; the first exception ends the run. */
    method Execute(stmts: seq<Statement>, outcomes: seq<int>) returns (r: Result<()>)
      requires |outcomes| == |stmts|
      modifies this
      ensures Finish(State(), r) == Run(old(State()), stmts, outcomes)
    {
      r := Ok(());
      var i := 0;
      while i < |stmts|
        invariant 0 <= i <= |stmts|
        invariant r == Ok(())
        invariant Run(old(State()), stmts, outcomes) == Run(State(), stmts[i..], outcomes[i..])
        decreases |stmts| - i
      {
        assert stmts[i..][1..] == stmts[i + 1..] && outcomes[i..][1..] == outcomes[i + 1..];
        r := ExecuteStatement(stmts[i], outcomes[i]);
        if r.Raised? {
          return;
        }
        i := i + 1;
      }
    }
  }
}
