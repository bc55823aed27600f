/** The instruction set and the machine configuration of the in-order simulator:
    the `Instruction` record, the configuration tables (unit counts, latencies,
    opcode-to-unit map) and the registers an instruction reads and writes. */
module Isa {

  datatype Option<+T> = None | Some(value: T)

  datatype Result<+T, +E> = Ok(value: T) | Err(error: E)

  /** The machine configuration: how many instances each unit type has, the latency
      of each opcode and the unit type each opcode occupies. It is an immutable value
      handed to the simulator, never shared mutable state. */
  datatype Config = Config(
    units: map<string, int>,
    latency: map<string, int>,
    opToUnit: map<string, string>)

  /** The default configuration the simulator is built with. */
  function DefaultConfig(): Config
  {
    Config(
      map["ALU" := 2, "MUL_DIV" := 1, "LOAD_STORE" := 1],
      map["add" := 1, "addi" := 1, "sub" := 1, "subi" := 1, "mul" := 3, "muli" := 3,
          "div" := 10, "divi" := 10, "lw" := 5, "li" := 5, "sw" := 5],
      map["add" := "ALU", "addi" := "ALU", "sub" := "ALU", "subi" := "ALU",
          "mul" := "MUL_DIV", "muli" := "MUL_DIV", "div" := "MUL_DIV", "divi" := "MUL_DIV",
          "lw" := "LOAD_STORE", "li" := "ALU", "sw" := "LOAD_STORE"])
  }

  /** One program instruction. Register operands and the immediate are optional;
      `startCycle` and `completeCycle` are -1 until the scheduler fills them in.
      For `sw`, `rd` holds the base-address register and `rs1` the stored value. */
  datatype Instruction = Instruction(
    op: string,
    rd: Option<string>,
    rs1: Option<string>,
    rs2: Option<string>,
    imm: Option<int>,
    offset: int,
    startCycle: int,
    completeCycle: int)

  /** A register operand is used only when it is present and non-empty
      (the truth value of an optional register name). */
  predicate Named(r: Option<string>)
  {
    r.Some? && r.value != ""
  }

  /** The registers whose ready-at cycle gates the issue: `rs1`, `rs2`, and for a
      store also `rd`, which holds the base address. */
  function ReadSet(ins: Instruction): (rs: seq<string>)
  {
    (if Named(ins.rs1) then [ins.rs1.value] else []) +
    (if Named(ins.rs2) then [ins.rs2.value] else []) +
    (if ins.op == "sw" && Named(ins.rd) then [ins.rd.value] else [])
  }

  lemma ReadSetMembers(ins: Instruction)
    ensures forall r :: r in ReadSet(ins) <==>
      (Named(ins.rs1) && r == ins.rs1.value) ||
      (Named(ins.rs2) && r == ins.rs2.value) ||
      (ins.op == "sw" && Named(ins.rd) && r == ins.rd.value)
  {
  }

  /** The register whose ready-at cycle the scoreboard sets: `rd` of every
      instruction except a store. */
  function Written(ins: Instruction): Option<string>
  {
    if Named(ins.rd) && ins.op != "sw" then ins.rd else None
  }

  /** What the scheduler needs to look up for one instruction without failing:
      its unit type, at least one instance of that type, and its latency. */
  predicate Schedulable(cfg: Config, ins: Instruction)
  {
    ins.op in cfg.opToUnit &&
    cfg.opToUnit[ins.op] in cfg.units &&
    cfg.units[cfg.opToUnit[ins.op]] >= 1 &&
    ins.op in cfg.latency
  }

  predicate AllSchedulable(cfg: Config, prog: seq<Instruction>)
  {
    forall i :: 0 <= i < |prog| ==> Schedulable(cfg, prog[i])
  }

  /** Every opcode the configuration knows can be scheduled. */
  predicate CoversOps(cfg: Config)
  {
    forall op :: op in cfg.opToUnit ==>
      cfg.opToUnit[op] in cfg.units && cfg.units[cfg.opToUnit[op]] >= 1 && op in cfg.latency
  }

  /** Every configured latency is at least one cycle. */
  predicate PositiveLatencies(cfg: Config)
  {
    forall op :: op in cfg.latency ==> cfg.latency[op] >= 1
  }

  lemma DefaultConfigIsSound()
    ensures CoversOps(DefaultConfig()) && PositiveLatencies(DefaultConfig())
  {
  }
}
