/**
 * Register bookkeeping of the QASM front end. Quantum registers are contiguous
 * ranges of hardware qubits handed out from a running counter; classical
 * registers are bitfields read and written one bit at a time. A Python
 * exception becomes a `Raised` result.
 */
module Registers {
  import opened Bitfield

  /** The Python exceptions these operations can raise. */
  datatype PyError = KeyError | ValueError | IndexError | NameError | Unimplemented

  datatype Result<T> = Ok(value: T) | Raised(error: PyError)

  /** Where a register starts and how many positions it has. */
  datatype RegisterInfo = RegisterInfo(start: int, size: int)

  /** A running counter and the registers handed out so far. */
  datatype Allocation = Allocation(top: int, regs: map<string, RegisterInfo>)

  /** One `add(id, size)` request. */
  datatype Request = Request(name: string, size: int)

  /**
   * Records `name` at the current counter and advances the counter by `size`.
   * Nothing is refused: a name already present is overwritten (its old range
   * is orphaned) and nothing bounds the counter.
   */
  function Allocate(al: Allocation, name: string, size: int): (r: Allocation)
    ensures r.regs.Keys == al.regs.Keys + {name}
    ensures forall n :: n in al.regs && n != name ==> r.regs[n] == al.regs[n]
  {
    Allocation(al.top + size, al.regs[name := RegisterInfo(al.top, size)])
  }

  /** The allocation after a sequence of requests, from counter 0 and no register. */
  function Built(reqs: seq<Request>): Allocation
  {
    if reqs == [] then Allocation(0, map[])
    else Allocate(Built(reqs[..|reqs| - 1]), reqs[|reqs| - 1].name, reqs[|reqs| - 1].size)
  }

  /** The sum of the requested sizes. */
  function Total(reqs: seq<Request>): int
  {
    if reqs == [] then 0 else Total(reqs[..|reqs| - 1]) + reqs[|reqs| - 1].size
  }

  /** Some request names `name`. */
  predicate Requested(reqs: seq<Request>, name: string)
  {
    exists i :: 0 <= i < |reqs| && reqs[i].name == name
  }

  /** The counter is the sum of all requested sizes. */
  lemma {:induction false} BuiltTop(reqs: seq<Request>)
    ensures Built(reqs).top == Total(reqs)
  {
    if reqs != [] {
      BuiltTop(reqs[..|reqs| - 1]);
    }
  }

  lemma RequestedAppend(reqs: seq<Request>, r: Request, name: string)
    ensures Requested(reqs + [r], name) <==> Requested(reqs, name) || r.name == name
  {
    if Requested(reqs + [r], name) && r.name != name {
      var i :| 0 <= i < |reqs| + 1 && (reqs + [r])[i].name == name;
      assert reqs[i].name == name;
    }
    if Requested(reqs, name) {
      var i :| 0 <= i < |reqs| && reqs[i].name == name;
      assert (reqs + [r])[i].name == name;
    }
    if r.name == name {
      assert (reqs + [r])[|reqs|].name == name;
    }
  }

  /** A name has a register exactly when some request named it. */
  lemma {:induction false} BuiltNames(reqs: seq<Request>, name: string)
    ensures name in Built(reqs).regs <==> Requested(reqs, name)
  {
    if reqs != [] {
      var init := reqs[..|reqs| - 1];
      assert reqs == init + [reqs[|reqs| - 1]];
      BuiltNames(init, name);
      RequestedAppend(init, reqs[|reqs| - 1], name);
    }
  }

  /**
   * The register of a name is the one its LAST request made: it starts at the
   * sum of the sizes requested before that request, whatever came later.
   */
  lemma {:induction false} BuiltLatest(reqs: seq<Request>, i: nat)
    requires i < |reqs|
    requires forall k :: i < k < |reqs| ==> reqs[k].name != reqs[i].name
    ensures reqs[i].name in Built(reqs).regs
    ensures Built(reqs).regs[reqs[i].name] == RegisterInfo(Total(reqs[..i]), reqs[i].size)
  {
    var init := reqs[..|reqs| - 1];
    if i == |reqs| - 1 {
      BuiltTop(init);
    } else {
      assert init[..i] == reqs[..i];
      BuiltLatest(init, i);
    }
  }

  /**
   * The counter is not negative, every register lies inside [0, top) with a
   * size that is not negative, and the ranges of two different names do not
   * overlap.
   */
  ghost predicate Packed(al: Allocation)
  {
    && 0 <= al.top
    && (forall n :: n in al.regs ==>
          0 <= al.regs[n].start && 0 <= al.regs[n].size && al.regs[n].start + al.regs[n].size <= al.top)
    && (forall n, m :: n in al.regs && m in al.regs && n != m ==>
          al.regs[n].start + al.regs[n].size <= al.regs[m].start || al.regs[m].start + al.regs[m].size <= al.regs[n].start)
  }

  /** A request of a size that is not negative keeps the registers packed. */
  lemma AllocatePacked(al: Allocation, name: string, size: int)
    requires Packed(al) && size >= 0
    ensures Packed(Allocate(al, name, size))
  {
  }

  /** Requests whose sizes are not negative give packed registers. */
  lemma {:induction false} BuiltPacked(reqs: seq<Request>)
    requires forall k :: 0 <= k < |reqs| ==> reqs[k].size >= 0
    ensures Packed(Built(reqs))
  {
    if reqs != [] {
      BuiltPacked(reqs[..|reqs| - 1]);
      AllocatePacked(Built(reqs[..|reqs| - 1]), reqs[|reqs| - 1].name, reqs[|reqs| - 1].size);
    }
  }

  /**
   * The hardware position of `index` in register `name`: its start plus the
   * index. A missing name raises KeyError; the index is not checked.
   */
  function Locate(al: Allocation, name: string, index: int): (r: Result<int>)
    ensures r.Ok? <==> name in al.regs
    ensures r.Raised? ==> r.error == KeyError
  {
    if name in al.regs then Ok(al.regs[name].start + index) else Raised(KeyError)
  }

  /** The size of register `name`; KeyError when there is none. */
  function SizeOf(al: Allocation, name: string): (r: Result<int>)
    ensures r.Ok? <==> name in al.regs
    ensures r.Raised? ==> r.error == KeyError
  {
    if name in al.regs then Ok(al.regs[name].size) else Raised(KeyError)
  }

  /** In packed registers an in-range index lands inside [0, top). */
  lemma LocateInRange(al: Allocation, name: string, index: int)
    requires Packed(al) && name in al.regs && 0 <= index < al.regs[name].size
    ensures 0 <= Locate(al, name, index).value < al.top
  {
  }

  /** In packed registers two different in-range positions never share a hardware position. */
  lemma LocateInjective(al: Allocation, n1: string, i1: int, n2: string, i2: int)
    requires Packed(al)
    requires n1 in al.regs && 0 <= i1 < al.regs[n1].size
    requires n2 in al.regs && 0 <= i2 < al.regs[n2].size
    requires n1 != n2 || i1 != i2
    ensures Locate(al, n1, i1).value != Locate(al, n2, i2).value
  {
  }

  /** `QuantumRegisters`: the counter `_top`, the bound `_qubit_num` and the dictionary `_qregs`. */
  class QuantumRegisters {
    var top: int
    const qubitNum: int
    var qregs: map<string, RegisterInfo>
    /** The `add` calls made so far, in order. */
    ghost var requests: seq<Request>

    function Value(): Allocation
      reads this
    {
      Allocation(top, qregs)
    }

    ghost predicate Valid()
      reads this
    {
      Value() == Built(requests)
    }

    constructor (qubitNum: int)
      ensures Valid() && requests == [] && this.qubitNum == qubitNum
      ensures top == 0 && qregs == map[]
    {
      top := 0;
      this.qubitNum := qubitNum;
      qregs := map[];
      requests := [];
    }

    /**
     * `add`: the register starts at the counter, which then advances by
     * `size`. The duplicate-name and overflow tests raise nothing, so neither
     * is modelled as a check.
     */
    method Add(id: string, size: int)
      requires Valid()
      modifies this
      ensures Valid() && requests == old(requests) + [Request(id, size)]
      ensures Value() == Allocate(old(Value()), id, size)
    {
      qregs := qregs[id := RegisterInfo(top, size)];
      top := top + size;
      requests := requests + [Request(id, size)];
      assert requests[..|requests| - 1] == old(requests);
    }

    /** `get_hardware_index`: start plus index, for every index; KeyError for a name never added. */
    function GetHardwareIndex(id: string, index: int): (r: Result<int>)
      requires Valid()
      reads this
      ensures r.Ok? <==> Requested(requests, id)
      ensures r.Ok? ==> id in qregs && r.value == qregs[id].start + index
    {
      BuiltNames(requests, id);
      Locate(Value(), id, index)
    }

    /** `get_size`: KeyError for a name never added. */
    function GetSize(id: string): (r: Result<int>)
      requires Valid()
      reads this
      ensures r.Ok? <==> Requested(requests, id)
      ensures r.Ok? ==> id in qregs && r.value == qregs[id].size
    {
      BuiltNames(requests, id);
      SizeOf(Value(), id)
    }

    /** `__contains__`: exactly the names that have been added. */
    function Contains(id: string): (r: bool)
      requires Valid()
      reads this
      ensures r <==> Requested(requests, id)
    {
      BuiltNames(requests, id);
      id in qregs
    }
  }

  /** Python's adjustment in `get`: a negative index counts back from the register's size. */
  function Position(size: int, index: int): int
  {
    if index < 0 then size + index else index
  }

  /**
   * `get` on a bitfield `data` of a register of `size` bits: bit `index`,
   * a negative index first moved up by `size`. A position still negative is
   * a negative shift count, which raises ValueError.
   */
  function ReadBit(data: nat, size: int, index: int): (r: Result<nat>)
    ensures r.Raised? <==> Position(size, index) < 0
    ensures r.Raised? ==> r.error == ValueError
    ensures r.Ok? ==> r.value == 0 || r.value == 1
  {
    var p := Position(size, index);
    if p < 0 then Raised(ValueError)
    else
      BitIsBinary(data, p);
      Ok(Bit(data, p))
  }

  /**
   * `set` on a bitfield: value 0 clears bit `index` (`data & ~(1 << index)`),
   * value 1 sets it (`data | (1 << index)`), any other value changes nothing.
   * The index is not adjusted, so a negative one is a negative shift count
   * (ValueError) when the value is 0 or 1.
   */
  function Assign(data: nat, index: int, value: int): (r: Result<nat>)
    ensures r.Raised? <==> index < 0 && (value == 0 || value == 1)
    ensures r.Raised? ==> r.error == ValueError
  {
    if value == 0 then
      if index < 0 then Raised(ValueError) else Ok(AndNot(data, Pow2(index)))
    else if value == 1 then
      if index < 0 then Raised(ValueError) else Ok(Or(data, Pow2(index)))
    else Ok(data)
  }

  /** After `set`, bit `index` holds the value written when it is 0 or 1, and every other bit is as before. */
  lemma AssignBits(data: nat, index: int, value: int, j: nat)
    requires Assign(data, index, value).Ok?
    ensures Bit(Assign(data, index, value).value, j)
            == if j == index && (value == 0 || value == 1) then value else Bit(data, j)
  {
    if value == 0 || value == 1 {
      BitOfPow2(index, j);
      BitIsBinary(data, j);
      if value == 0 {
        BitOfAndNot(data, Pow2(index), j);
      } else {
        BitOfOr(data, Pow2(index), j);
      }
    }
  }

  /** Writing the same bit with the same value twice is the same as writing it once. */
  lemma AssignIdempotent(data: nat, index: int, value: int)
    requires Assign(data, index, value).Ok?
    ensures Assign(Assign(data, index, value).value, index, value) == Assign(data, index, value)
  {
    var once := Assign(data, index, value).value;
    var twice := Assign(once, index, value).value;
    forall j: nat
      ensures Bit(twice, j) == Bit(once, j)
    {
      AssignBits(data, index, value, j);
      AssignBits(once, index, value, j);
    }
    SameBits(twice, once);
  }

  /**
   * A `get` after a successful `set` of 0 or 1 at `index` reads the value
   * written there, and reads every other position as before.
   */
  lemma ReadAfterAssign(data: nat, size: int, index: int, value: int, k: int)
    requires value == 0 || value == 1
    requires Assign(data, index, value).Ok?
    ensures ReadBit(Assign(data, index, value).value, size, index) == Ok(value)
    ensures Position(size, k) != index
            ==> ReadBit(Assign(data, index, value).value, size, k) == ReadBit(data, size, k)
  {
    AssignBits(data, index, value, index);
    if 0 <= Position(size, k) != index {
      AssignBits(data, index, value, Position(size, k));
    }
  }

  /** A negative index reads the same bit as its position counted from the front. */
  lemma ReadFromEnd(data: nat, size: int, j: int)
    requires 0 <= j < size
    ensures ReadBit(data, size, j - size) == ReadBit(data, size, j)
  {
  }

  /** `ClassicalRegisters.RegInfo`: a size and a bitfield `_data` updated in place. */
  class ClassicalRegister {
    const size: int
    var data: nat

    /** A new register holds 0. */
    constructor (size: int)
      ensures this.size == size && data == 0
    {
      this.size := size;
      data := 0;
    }

    /** `get`: bit `index`, counted from the end when negative. */
    function Get(index: int): (r: Result<nat>)
      reads this
      ensures 0 <= index ==> r == Ok(Bit(data, index))
      ensures -size <= index < 0 ==> r == Ok(Bit(data, size + index))
      ensures index < 0 && index < -size ==> r == Raised(ValueError)
    {
      ReadBit(data, size, index)
    }

    /** `set`: writes a single bit of `data`, leaving every other bit as it was. */
    method Set(index: int, value: int) returns (r: Result<()>)
      modifies this
      ensures Assign(old(data), index, value).Ok? ==> r == Ok(()) && data == Assign(old(data), index, value).value
      ensures Assign(old(data), index, value).Raised? ==> r == Raised(ValueError) && data == old(data)
      ensures r.Ok? ==> forall j: nat ::
                Bit(data, j) == if j == index && (value == 0 || value == 1) then value else Bit(old(data), j)
    {
      if value == 0 {
        if index < 0 {
          return Raised(ValueError);
        }
        data := AndNot(data, Pow2(index));
      } else if value == 1 {
        if index < 0 {
          return Raised(ValueError);
        }
        data := Or(data, Pow2(index));
      }
      r := Ok(());
      forall j: nat
        ensures Bit(data, j) == if j == index && (value == 0 || value == 1) then value else Bit(old(data), j)
      {
        AssignBits(old(data), index, value, j);
      }
    }
  }

  /** `ClassicalRegisters`: a dictionary from names to bitfield registers. */
  class ClassicalRegisters {
    var cregs: map<string, ClassicalRegister>
    /** The `add` calls made so far, in order. */
    ghost var requests: seq<Request>

    /** Exactly the names requested have registers, and no two names share one. */
    ghost predicate Valid()
      reads this
    {
      && (forall n :: n in cregs <==> Requested(requests, n))
      && (forall n, m :: n in cregs && m in cregs && n != m ==> cregs[n] != cregs[m])
    }

    constructor ()
      ensures Valid() && cregs == map[] && requests == []
    {
      cregs := map[];
      requests := [];
    }

    /** `add`: a fresh register holding 0 under `id`, replacing any register of that name. */
    method Add(id: string, size: int)
      requires Valid()
      modifies this
      ensures Valid() && requests == old(requests) + [Request(id, size)]
      ensures cregs.Keys == old(cregs).Keys + {id}
      ensures fresh(cregs[id]) && cregs[id].size == size && cregs[id].data == 0
      ensures forall n :: n in old(cregs) && n != id ==> cregs[n] == old(cregs)[n]
    {
      var reg := new ClassicalRegister(size);
      cregs := cregs[id := reg];
      forall n
        ensures Requested(requests + [Request(id, size)], n) <==> Requested(requests, n) || n == id
      {
        RequestedAppend(requests, Request(id, size), n);
      }
      requests := requests + [Request(id, size)];
    }

    /** `get`: KeyError for a name never added. */
    function Get(id: string, index: int): (r: Result<nat>)
      requires Valid()
      reads this, cregs.Values
      ensures !Requested(requests, id) ==> r == Raised(KeyError)
      ensures Requested(requests, id) ==> r == ReadBit(cregs[id].data, cregs[id].size, index)
    {
      if id in cregs then cregs[id].Get(index) else Raised(KeyError)
    }

    /** `set`: KeyError for a name never added; otherwise one bit of that register and nothing else changes. */
    method Set(id: string, index: int, value: int) returns (r: Result<()>)
      requires Valid()
      modifies if id in cregs then {cregs[id]} else {}
      ensures !Requested(requests, id) ==> r == Raised(KeyError)
      ensures Requested(requests, id) ==>
                var a := Assign(old(cregs[id].data), index, value);
                (a.Ok? ==> r == Ok(()) && cregs[id].data == a.value)
                && (a.Raised? ==> r == Raised(a.error) && cregs[id].data == old(cregs[id].data))
      ensures forall n :: n in cregs && n != id ==> cregs[n].data == old(cregs[n].data)
    {
      if id in cregs {
        r := cregs[id].Set(index, value);
      } else {
        r := Raised(KeyError);
      }
    }

    /** `get_data`: the whole bitfield; KeyError for a name never added. */
    function GetData(id: string): (r: Result<nat>)
      requires Valid()
      reads this, cregs.Values
      ensures r.Ok? <==> Requested(requests, id)
      ensures r.Ok? ==> id in cregs && r.value == cregs[id].data
      ensures r.Raised? ==> r.error == KeyError
    {
      if id in cregs then Ok(cregs[id].data) else Raised(KeyError)
    }

    /** `get_size`: KeyError for a name never added. */
    function GetSize(id: string): (r: Result<int>)
      requires Valid()
      reads this
      ensures r.Ok? <==> Requested(requests, id)
      ensures r.Ok? ==> id in cregs && r.value == cregs[id].size
      ensures r.Raised? ==> r.error == KeyError
    {
      if id in cregs then Ok(cregs[id].size) else Raised(KeyError)
    }

    /** `__contains__`: exactly the names that have been added. */
    function Contains(id: string): (r: bool)
      requires Valid()
      reads this
      ensures r <==> Requested(requests, id)
    {
      id in cregs
    }
  }
}
