/** The simulator object: its configuration, the loaded program, the register file,
    memory and the total cycle count, with the operations that change them. `Run`
    schedules and commits the program in one pass and is proved to produce exactly
    the schedule of `Scoreboard` and the state of plain sequential execution. */
module Simulator {
  import opened Isa
  import opened Semantics
  import opened Scoreboard
  import opened Loader

  /** An instruction as the run leaves it once scheduled: its issue and
      completion cycles are those of its slot, everything else is unchanged. */
  function Annotated(ins: Instruction, s: Slot): (a: Instruction)
    ensures a.op == ins.op && a.rd == ins.rd && a.rs1 == ins.rs1 && a.rs2 == ins.rs2
    ensures a.imm == ins.imm && a.offset == ins.offset
    ensures a.startCycle == s.start && a.completeCycle == s.complete
  {
    ins.(startCycle := s.start, completeCycle := s.complete)
  }

  /** The program as the run leaves it after scheduling its first `n`
      instructions: each of those carries the issue and completion cycles of its
      slot, the others are untouched. */
  function Scheduled(cfg: Config, prog: seq<Instruction>, n: nat): (p: seq<Instruction>)
    requires AllSchedulable(cfg, prog) && n <= |prog|
    ensures |p| == |prog|
  {
    if n == 0 then prog
    else Scheduled(cfg, prog, n - 1)[n - 1 := Annotated(prog[n - 1], SlotOf(cfg, prog, n - 1))]
  }

  /** Scheduling the first `n` instructions fills in exactly their cycles: the
      first `n` instructions carry their slots, the rest are untouched. */
  lemma {:induction false} ScheduledCycles(cfg: Config, prog: seq<Instruction>, n: nat, j: nat)
    requires AllSchedulable(cfg, prog) && n <= |prog| && j < |prog|
    ensures Scheduled(cfg, prog, n)[j] == if j < n then Annotated(prog[j], SlotOf(cfg, prog, j)) else prog[j]
  {
    if n > 0 && j != n - 1 {
      ScheduledCycles(cfg, prog, n - 1, j);
    }
  }

  /** Filling in instruction `n`'s slot cycles extends the schedule of the first
      `n` instructions to the first `n + 1`. */
  lemma ScheduledNext(cfg: Config, prog: seq<Instruction>, n: nat, p: seq<Instruction>, start: int, complete: int)
    requires AllSchedulable(cfg, prog) && n < |prog| && p == Scheduled(cfg, prog, n)
    requires start == SlotOf(cfg, prog, n).start && complete == SlotOf(cfg, prog, n).complete
    ensures p[n := prog[n].(startCycle := start, completeCycle := complete)] == Scheduled(cfg, prog, n + 1)
  {
  }

  /** The run on the simulator's values: the program, the registers and the
      memory it starts from; what it returns is what `Run` stores back. */
  method RunProgram(config: Config, program: seq<Instruction>, registers: map<string, int>, memory: map<int, int>)
    returns (program': seq<Instruction>, registers': map<string, int>, memory': map<int, int>,
             totalTime: int, err: Option<ExecError>)
    requires AllSchedulable(config, program)
    ensures match Execute(program, Machine(registers, memory))
      case Completed(m) =>
        err.None? && registers' == m.registers && memory' == m.memory &&
        totalTime == TimingAt(config, program, |program|).total &&
        program' == Scheduled(config, program, |program|)
      case Failed(k, e, m) =>
        err == Some(e) && registers' == m.registers && memory' == m.memory &&
        program' == Scheduled(config, program, k + 1)
  {
    ghost var m0 := Machine(registers, memory);
    program', registers', memory' := program, registers, memory;
    var registerReadyAt: map<string, int> := map[];
    var unitsFreeAt := AllFree(config);
    totalTime := 0;
    var lastTime := 0;
    TimingStart(config, program);
    var i := 0;
    while i < |program'|
      invariant 0 <= i <= |program| == |program'|
      invariant Timing(registerReadyAt, unitsFreeAt, lastTime, totalTime) == TimingAt(config, program, i)
      invariant program' == Scheduled(config, program, i)
      invariant ExecuteFirst(program, i, m0) == Completed(Machine(registers', memory'))
    {
      var instr := program'[i];
      assert instr == program[i] by {
        ScheduledCycles(config, program, i, i);
      }
      var startTime, endTime;
      startTime, endTime, registerReadyAt, unitsFreeAt, totalTime :=
        IssueNext(config, program, i, registerReadyAt, unitsFreeAt, lastTime, totalTime, instr);
      lastTime := startTime;
      ScheduledNext(config, program, i, program', startTime, endTime);
      program' := program'[i := instr.(startCycle := startTime, completeCycle := endTime)];
      var m := Machine(registers', memory');
      ExecuteNext(program, i, m0, m);
      match Commit(instr, m) {
        case Err(e) =>
          err := Some(e);
          FailureIsFinal(program, i + 1, |program|, m0);
          return;
        case Ok(m') =>
          registers', memory' := m'.registers, m'.memory;
      }
      i := i + 1;
    }
    err := None;
  }

  /** The scheduling half of one iteration of the run: picks the unit instance and
      the issue and completion cycles of instruction `i` and updates the scoreboard,
      the busy-until lists and the running total, which before the step describe the
      state after the first `i` instructions and after it the state after `i + 1`. */
  method IssueNext(cfg: Config, ghost prog: seq<Instruction>, ghost i: nat,
                   registerReadyAt: map<string, int>, unitsFreeAt: map<string, seq<int>>,
                   lastTime: int, totalTime: int, instr: Instruction)
    returns (startTime: int, endTime: int, registerReadyAt': map<string, int>,
             unitsFreeAt': map<string, seq<int>>, totalTime': int)
    requires AllSchedulable(cfg, prog) && i < |prog| && instr == prog[i]
    requires Timing(registerReadyAt, unitsFreeAt, lastTime, totalTime) == TimingAt(cfg, prog, i)
    ensures startTime == SlotOf(cfg, prog, i).start && endTime == SlotOf(cfg, prog, i).complete
    ensures Timing(registerReadyAt', unitsFreeAt', startTime, totalTime') == TimingAt(cfg, prog, i + 1)
  {
    ghost var t := TimingAt(cfg, prog, i);
    var sourceRegs := ReadSet(instr);
    var dataReadyAt := DataReady(registerReadyAt, sourceRegs);
    var unitType := cfg.opToUnit[instr.op];
    var unitIndexToUse := FirstMinIndex(unitsFreeAt[unitType]);
    var earliestUnitFreeAt := unitsFreeAt[unitType][unitIndexToUse];
    startTime := Max(Max(dataReadyAt, earliestUnitFreeAt), lastTime) + 1;
    var latency := cfg.latency[instr.op];
    endTime := startTime + latency - 1;
    registerReadyAt' := registerReadyAt;
    if Named(instr.rd) && instr.op != "sw" {
      registerReadyAt' := registerReadyAt[instr.rd.value := endTime];
    }
    unitsFreeAt' := unitsFreeAt[unitType := unitsFreeAt[unitType][unitIndexToUse := endTime]];
    totalTime' := Max(totalTime, endTime);
    StepFields(cfg, t, instr, unitIndexToUse, startTime, endTime);
    TimingStep(cfg, prog, i);
  }

  class ILPSimulator {
    const config: Config
    var totalCycles: int
    var program: seq<Instruction>
    var registers: map<string, int>
    var memory: map<int, int>

    /** A fresh simulator: no program, empty registers and memory, no cycles. */
    constructor (config: Config)
      ensures this.config == config
      ensures totalCycles == 0 && program == [] && registers == map[] && memory == map[]
    {
      this.config := config;
      totalCycles := 0;
      program := [];
      registers := map[];
      memory := map[];
    }

    /** Forgets the program, the architectural state and the cycle count. */
    method Reset()
      modifies this
      ensures totalCycles == 0 && program == [] && registers == map[] && memory == map[]
    {
      totalCycles := 0;
      program := [];
      registers := map[];
      memory := map[];
    }

    /** Appends the instructions of the matched lines to the program; the first line
        with an unknown opcode stops loading with an error, keeping what was
        appended before it. */
    method Load(lines: seq<Line>) returns (err: Option<LoadError>)
      modifies this`program
      ensures program == old(program) + LoadLines(config, lines).program
      ensures err == LoadLines(config, lines).error
    {
      var i := 0;
      while i < |lines|
        invariant 0 <= i <= |lines|
        invariant |old(program)| <= |program| && program[..|old(program)|] == old(program)
        invariant LoadLines(config, lines[..i]) == Loaded(program[|old(program)|..], None)
      {
        assert lines[..i + 1][..i] == lines[..i];
        match Decode(config, lines[i]) {
          case Skip =>
          case Emit(ins) =>
            program := program + [ins];
            assert program[|old(program)|..] == LoadLines(config, lines[..i]).program + [ins];
          case Reject(op) =>
            err := Some(UnknownOperation(i, op));
            LoadErrorIsFinal(config, lines, i + 1);
            assert program == old(program) + program[|old(program)|..];
            return;
        }
        i := i + 1;
      }
      assert lines[..i] == lines;
      assert program == old(program) + program[|old(program)|..];
      err := None;
    }

    /** Applies one instruction's effect to the registers and memory, or reports the
        error it raises and changes nothing. */
    method ComputeAndCommit(instr: Instruction) returns (err: Option<ExecError>)
      modifies this`registers, this`memory
      ensures match Commit(instr, old(Machine(registers, memory)))
        case Ok(m) => err.None? && registers == m.registers && memory == m.memory
        case Err(e) => err == Some(e) && registers == old(registers) && memory == old(memory)
    {
      var result := Evaluate(instr, Machine(registers, memory));
      if result.Err? {
        return Some(result.error);
      }
      if instr.op == "sw" {
        var baseAddr := Read(registers, instr.rd);
        var address := baseAddr + instr.offset;
        var valueToStore := Read(registers, instr.rs1);
        memory := memory[address := valueToStore];
      } else if Named(instr.rd) {
        registers := registers[instr.rd.value := result.value.value];
      }
      err := None;
    }

    /** Schedules and commits the program in order. Each instruction gets its issue
        and completion cycles (the slot `Scoreboard` specifies) and its effect is
        committed at once; the total cycle count is set at the end. A failing commit
        stops the run: the instructions up to and including it keep their cycles,
        the state is that of the instructions before it, and the total is not set. */
    method Run() returns (err: Option<ExecError>)
      requires AllSchedulable(config, program)
      modifies this`program, this`registers, this`memory, this`totalCycles
      ensures match Execute(old(program), old(Machine(registers, memory)))
        case Completed(m) =>
          err.None? && registers == m.registers && memory == m.memory &&
          totalCycles == TimingAt(config, old(program), |old(program)|).total &&
          program == Scheduled(config, old(program), |old(program)|)
        case Failed(k, e, m) =>
          err == Some(e) && registers == m.registers && memory == m.memory &&
          totalCycles == old(totalCycles) &&
          program == Scheduled(config, old(program), k + 1)
    {
      var p, regs, mem, total;
      p, regs, mem, total, err := RunProgram(config, program, registers, memory);
      program, registers, memory := p, regs, mem;
      if err.None? {
        totalCycles := total;
      }
    }
  }
}
