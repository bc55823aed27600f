/** The commit unit: the integer effect of one instruction on the register file and
    memory, and the plain sequential execution of a program by repeated commits. */
module Semantics {
  import opened Isa

  /** The architectural state: registers by name and sparse memory by address.
      An absent register or address reads as 0. */
  datatype Machine = Machine(registers: map<string, int>, memory: map<int, int>)

  /** Why a commit fails: an opcode with no commit case, a division by zero, or an
      arithmetic opcode whose instruction carries no immediate. */
  datatype ExecError = NotImplemented(op: string) | ZeroDivision | MissingImmediate(op: string)

  /** The value of a register operand; absent operands and unwritten registers read 0. */
  function Read(regs: map<string, int>, r: Option<string>): int
  {
    if r.Some? && r.value in regs then regs[r.value] else 0
  }

  /** The value at an address; unwritten addresses read 0. */
  function Fetch(mem: map<int, int>, addr: int): int
  {
    if addr in mem then mem[addr] else 0
  }

  /** Floor division (rounding toward negative infinity), as integer `//` does on
      operands of either sign. */
  function FloorDiv(a: int, b: int): (q: int)
    requires b != 0
    ensures b > 0 ==> q * b <= a < q * b + b
    ensures b < 0 ==> q * b + b < a <= q * b
  {
    if b > 0 then a / b else (-a) / (-b)
  }

  /** The opcodes the commit unit implements. */
  predicate Implemented(op: string)
  {
    op in {"li", "addi", "subi", "muli", "divi", "lw", "add", "sub", "mul", "div", "sw"}
  }

  /** The result selection of the commit unit: the value to be written to `rd`
      (`None` for a store), or the error the instruction raises. */
  function Evaluate(ins: Instruction, m: Machine): (r: Result<Option<int>, ExecError>)
    ensures r.Ok? ==> Implemented(ins.op) && (r.value.None? <==> ins.op == "sw")
  {
    var val1 := Read(m.registers, ins.rs1);
    var val2 := Read(m.registers, ins.rs2);
    var op := ins.op;
    if op == "li" then
      if ins.imm.None? then Err(MissingImmediate(op)) else Ok(Some(ins.imm.value))
    else if op == "addi" then
      if ins.imm.None? then Err(MissingImmediate(op)) else Ok(Some(val1 + ins.imm.value))
    else if op == "subi" then
      if ins.imm.None? then Err(MissingImmediate(op)) else Ok(Some(val1 - ins.imm.value))
    else if op == "muli" then
      if ins.imm.None? then Err(MissingImmediate(op)) else Ok(Some(val1 * ins.imm.value))
    else if op == "divi" then
      if ins.imm.None? then Err(MissingImmediate(op))
      else if ins.imm.value == 0 then Err(ZeroDivision)
      else Ok(Some(FloorDiv(val1, ins.imm.value)))
    else if op == "lw" then
      Ok(Some(Fetch(m.memory, Read(m.registers, ins.rs1) + ins.offset)))
    else if op == "add" then Ok(Some(val1 + val2))
    else if op == "sub" then Ok(Some(val1 - val2))
    else if op == "mul" then Ok(Some(val1 * val2))
    else if op == "div" then
      if val2 == 0 then Err(ZeroDivision) else Ok(Some(FloorDiv(val1, val2)))
    else if op == "sw" then Ok(None)
    else Err(NotImplemented(op))
  }

  /** The address a store writes: the base register `rd` plus the offset. */
  function StoreAddress(ins: Instruction, m: Machine): int
  {
    Read(m.registers, ins.rd) + ins.offset
  }

  /** The full effect of committing one instruction: a store writes memory, every
      other instruction writes its result to `rd` when `rd` is named. */
  function Commit(ins: Instruction, m: Machine): (r: Result<Machine, ExecError>)
  {
    match Evaluate(ins, m)
    case Err(e) => Err(e)
    case Ok(result) =>
      if ins.op == "sw" then
        Ok(m.(memory := m.memory[StoreAddress(ins, m) := Read(m.registers, ins.rs1)]))
      else if Named(ins.rd) then
        Ok(m.(registers := m.registers[ins.rd.value := result.value]))
      else
        Ok(m)
  }

  /** How a sequential execution ends: with the final state, or with the index of
      the first failing instruction, its error and the state just before it. */
  datatype Outcome = Completed(state: Machine) | Failed(at: nat, error: ExecError, state: Machine)

  /** Plain sequential execution of the first `n` instructions: commit them one
      after another, stopping at the first that fails. */
  function ExecuteFirst(prog: seq<Instruction>, n: nat, m: Machine): (o: Outcome)
    requires n <= |prog|
    ensures o.Failed? ==> o.at < n
    decreases n, 1
  {
    if n == 0 then Completed(m) else ExecuteThrough(prog, n - 1, m)
  }

  /** Plain sequential execution up to and including instruction `k`: it is
      committed in the state the instructions before it left, unless one of them
      already failed. */
  function ExecuteThrough(prog: seq<Instruction>, k: nat, m: Machine): (o: Outcome)
    requires k < |prog|
    ensures o.Failed? ==> o.at <= k
    decreases k + 1, 0
  {
    match ExecuteFirst(prog, k, m)
    case Failed(j, e, s) => Failed(j, e, s)
    case Completed(s) =>
      match Commit(prog[k], s)
      case Ok(s') => Completed(s')
      case Err(e) => Failed(k, e, s)
  }

  /** Plain sequential execution of the whole program. */
  function Execute(prog: seq<Instruction>, m: Machine): (o: Outcome)
    ensures o.Failed? ==> o.at < |prog|
  {
    ExecuteFirst(prog, |prog|, m)
  }

  // ---------------------------------------------------------------------------
  // Properties of the commit unit

  /** Integer `//` rounds toward negative infinity: -7 // 2 is -4, not -3. */
  lemma FloorDivRoundsDown()
    ensures FloorDiv(-7, 2) == -4 && FloorDiv(7, -2) == -4 && FloorDiv(-7, -2) == 3
  {
  }

  /** The floor quotient is the only integer within one divisor of the dividend
      on the side the floor rule picks. */
  lemma FloorDivUnique(a: int, b: int, q: int)
    requires b != 0
    requires b > 0 ==> q * b <= a < q * b + b
    requires b < 0 ==> q * b + b < a <= q * b
    ensures q == FloorDiv(a, b)
  {
    var f := FloorDiv(a, b);
    ScaleMonotone(q + 1, f, b);
    ScaleMonotone(f + 1, q, b);
  }

  /** Multiplying both sides of `x <= y` by `b` keeps the order when `b` is
      non-negative and reverses it when `b` is non-positive. */
  lemma ScaleMonotone(x: int, y: int, b: int)
    ensures x <= y && b >= 0 ==> x * b <= y * b
    ensures x <= y && b <= 0 ==> x * b >= y * b
  {
    if x <= y {
      assert y * b - x * b == (y - x) * b;
    }
  }

  /** A commit fails exactly when the opcode has no commit case, an arithmetic
      immediate form lacks its immediate, or the divisor is zero. */
  lemma CommitFailsExactly(ins: Instruction, m: Machine)
    ensures Commit(ins, m).Err? <==>
      !Implemented(ins.op) ||
      (ins.op in {"li", "addi", "subi", "muli", "divi"} && ins.imm.None?) ||
      (ins.op == "divi" && ins.imm.Some? && ins.imm.value == 0) ||
      (ins.op == "div" && Read(m.registers, ins.rs2) == 0)
    ensures Commit(ins, m).Err? ==>
      Commit(ins, m).error == (
        if !Implemented(ins.op) then NotImplemented(ins.op)
        else if ins.op != "div" && ins.imm.None? then MissingImmediate(ins.op)
        else ZeroDivision)
  {
  }

  /** A store changes only the memory cell at base + offset, to the value of `rs1`,
      and leaves every register unchanged. */
  lemma StoreWritesMemoryOnly(ins: Instruction, m: Machine)
    requires ins.op == "sw"
    ensures Commit(ins, m).Ok?
    ensures Commit(ins, m).value.registers == m.registers
    ensures var a := Read(m.registers, ins.rd) + ins.offset;
      Commit(ins, m).value.memory.Keys == m.memory.Keys + {a} &&
      Fetch(Commit(ins, m).value.memory, a) == Read(m.registers, ins.rs1) &&
      forall b :: b != a ==> Fetch(Commit(ins, m).value.memory, b) == Fetch(m.memory, b)
  {
  }

  /** Every other successful commit leaves memory unchanged and changes at most the
      register `rd`; an unnamed `rd` means nothing changes. */
  lemma NonStoreWritesRdOnly(ins: Instruction, m: Machine)
    requires ins.op != "sw" && Commit(ins, m).Ok?
    ensures Commit(ins, m).value.memory == m.memory
    ensures forall r :: r in m.registers && !(Named(ins.rd) && r == ins.rd.value) ==>
      r in Commit(ins, m).value.registers &&
      Commit(ins, m).value.registers[r] == m.registers[r]
    ensures !Named(ins.rd) ==> Commit(ins, m).value.registers == m.registers
    ensures Named(ins.rd) ==>
      Commit(ins, m).value.registers.Keys == m.registers.Keys + {ins.rd.value}
  {
  }

  /** The value a successful non-store commit writes to a named `rd`, opcode by
      opcode, with absent source registers reading as 0. */
  lemma CommitResult(ins: Instruction, m: Machine)
    requires ins.op != "sw" && Named(ins.rd) && Commit(ins, m).Ok?
    ensures var v := Commit(ins, m).value.registers[ins.rd.value];
      var a := Read(m.registers, ins.rs1);
      var b := Read(m.registers, ins.rs2);
      (ins.op == "li" ==> v == ins.imm.value) &&
      (ins.op == "addi" ==> v == a + ins.imm.value) &&
      (ins.op == "subi" ==> v == a - ins.imm.value) &&
      (ins.op == "muli" ==> v == a * ins.imm.value) &&
      (ins.op == "divi" ==> ins.imm.value != 0 && v == FloorDiv(a, ins.imm.value)) &&
      (ins.op == "add" ==> v == a + b) &&
      (ins.op == "sub" ==> v == a - b) &&
      (ins.op == "mul" ==> v == a * b) &&
      (ins.op == "div" ==> b != 0 && v == FloorDiv(a, b)) &&
      (ins.op == "lw" ==> v == Fetch(m.memory, a + ins.offset))
  {
  }

  /** Executing one more instruction commits it in the state the ones before it
      left, when they completed. */
  lemma ExecuteNext(prog: seq<Instruction>, n: nat, m0: Machine, m: Machine)
    requires n < |prog| && ExecuteFirst(prog, n, m0) == Completed(m)
    ensures ExecuteFirst(prog, n + 1, m0) ==
      if Commit(prog[n], m).Ok? then Completed(Commit(prog[n], m).value)
      else Failed(n, Commit(prog[n], m).error, m)
  {
  }

  /** `ms` is a run of successful commits over `prog`: each state is the one before
      it with the next instruction committed. */
  predicate CommitsAlong(prog: seq<Instruction>, ms: seq<Machine>)
  {
    |ms| == |prog| + 1 &&
    forall k :: 0 <= k < |prog| ==> CommitsTo(prog[k], ms[k], ms[k + 1])
  }

  /** Committing `ins` in state `m` succeeds and leaves state `m'`. */
  predicate CommitsTo(ins: Instruction, m: Machine, m': Machine)
  {
    Commit(ins, m) == Ok(m')
  }

  /** Sequential execution follows any run of successful commits: the first `n`
      instructions complete in the `n`-th state of the run. */
  lemma {:induction false} CommitsAlongExecutes(prog: seq<Instruction>, ms: seq<Machine>, n: nat)
    requires CommitsAlong(prog, ms) && n <= |prog|
    ensures ExecuteFirst(prog, n, ms[0]) == Completed(ms[n])
  {
    if n > 0 {
      CommitsAlongExecutes(prog, ms, n - 1);
      assert CommitsTo(prog[n - 1], ms[n - 1], ms[n]);
      ExecuteNext(prog, n - 1, ms[0], ms[n - 1]);
    }
  }

  /** The first failure ends the execution: once the first `n` instructions have
      failed, every longer prefix fails at the same instruction from the same state. */
  lemma {:induction false} FailureIsFinal(prog: seq<Instruction>, n: nat, n': nat, m: Machine)
    requires n <= n' <= |prog| && ExecuteFirst(prog, n, m).Failed?
    ensures ExecuteFirst(prog, n', m) == ExecuteFirst(prog, n, m)
    decreases n' - n
  {
    if n < n' {
      FailureIsFinal(prog, n, n' - 1, m);
    }
  }

  /** A failed execution stopped at its first failing instruction: the instructions
      before it completed in the reported state, and that instruction's commit
      fails there. */
  lemma {:induction false} FailedAtFirstError(prog: seq<Instruction>, n: nat, m: Machine)
    requires n <= |prog| && ExecuteFirst(prog, n, m).Failed?
    ensures var o := ExecuteFirst(prog, n, m);
      ExecuteFirst(prog, o.at, m) == Completed(o.state) &&
      Commit(prog[o.at], o.state) == Err(o.error)
    decreases n
  {
    if ExecuteFirst(prog, n - 1, m).Failed? {
      FailedAtFirstError(prog, n - 1, m);
    }
  }
}
