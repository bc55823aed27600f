/** The part of the program loader that turns an already-matched source line into an
    `Instruction`: the opcode check against the configuration and the per-shape field
    assignment, including the register swap for stores. Matching the text of a line
    against the four shapes is not modelled: a line arrives as the groups its shape
    captured, or as `Unmatched`. */
module Loader {
  import opened Isa

  /** A source line after matching, by shape:
      `op rd, rs1, rs2`; `op reg1, offset(reg2)`; `op rd, rs1, #imm`; `op rd, #imm`;
      or a line that matched none of them. */
  datatype Line =
    | RegReg(op: string, rd: string, rs1: string, rs2: string)
    | Memory(op: string, reg1: string, offset: int, reg2: string)
    | RegImm(op: string, rd: string, rs1: string, imm: int)
    | LoadImm(op: string, rd: string, imm: int)
    | Unmatched

  /** The loader's error: an opcode the configuration does not know, with the index
      of the line it is on. */
  datatype LoadError = UnknownOperation(line: nat, op: string)

  /** What the loader does with one line: skip it, append an instruction, or stop
      with an unknown opcode. */
  datatype Decoded = Skip | Emit(ins: Instruction) | Reject(op: string)

  /** The instruction a matched line becomes. For a memory-shaped store the two
      surface registers trade places, so that `rd` holds the base address and `rs1`
      the value stored. */
  function Decode(cfg: Config, line: Line): (d: Decoded)
    ensures d.Skip? <==> line.Unmatched?
    ensures d.Reject? <==> !line.Unmatched? && line.op !in cfg.opToUnit
    ensures d.Reject? ==> d.op == line.op
    ensures d.Emit? ==>
      d.ins.op == line.op && d.ins.op in cfg.opToUnit &&
      d.ins.startCycle == -1 && d.ins.completeCycle == -1
  {
    match line
    case Unmatched => Skip
    case RegReg(op, rd, rs1, rs2) =>
      if op !in cfg.opToUnit then Reject(op)
      else Emit(Instruction(op, Some(rd), Some(rs1), Some(rs2), None, 0, -1, -1))
    case Memory(op, reg1, offset, reg2) =>
      if op !in cfg.opToUnit then Reject(op)
      else if op == "sw" then Emit(Instruction(op, Some(reg2), Some(reg1), None, None, offset, -1, -1))
      else Emit(Instruction(op, Some(reg1), Some(reg2), None, None, offset, -1, -1))
    case RegImm(op, rd, rs1, imm) =>
      if op !in cfg.opToUnit then Reject(op)
      else Emit(Instruction(op, Some(rd), Some(rs1), None, Some(imm), 0, -1, -1))
    case LoadImm(op, rd, imm) =>
      if op !in cfg.opToUnit then Reject(op)
      else Emit(Instruction(op, Some(rd), None, None, Some(imm), 0, -1, -1))
  }

  /** What loading a file gives: the instructions appended so far and, if loading
      stopped early, why. */
  datatype Loaded = Loaded(program: seq<Instruction>, error: Option<LoadError>)

  /** Loading line by line: unmatched lines are skipped, matched lines appended, and
      the first unknown opcode stops the load (what was appended before it stays). */
  function LoadLines(cfg: Config, lines: seq<Line>): (r: Loaded)
    ensures |r.program| <= |lines|
    ensures forall i :: 0 <= i < |r.program| ==> r.program[i].op in cfg.opToUnit
    decreases |lines|
  {
    if lines == [] then Loaded([], None)
    else
      var n := |lines| - 1;
      var r := LoadLines(cfg, lines[..n]);
      if r.error.Some? then r
      else
        match Decode(cfg, lines[n])
        case Skip => r
        case Emit(ins) => Loaded(r.program + [ins], None)
        case Reject(op) => Loaded(r.program, Some(UnknownOperation(n, op)))
  }

  /** The instructions a file's lines decode to, in order, ignoring errors: what an
      `Emit` line contributes and nothing for the others. */
  function Emitted(cfg: Config, lines: seq<Line>): seq<Instruction>
    decreases |lines|
  {
    if lines == [] then []
    else
      (match Decode(cfg, lines[0]) case Emit(ins) => [ins] case _ => []) +
      Emitted(cfg, lines[1..])
  }

  // ---------------------------------------------------------------------------
  // Properties of the loader

  /** A store written `sw value, offset(base)` keeps the base register in `rd` and
      the stored register in `rs1`; any other memory-shaped opcode keeps the surface
      order. */
  lemma StoreSwapsRegisters(cfg: Config, op: string, reg1: string, offset: int, reg2: string)
    requires op in cfg.opToUnit
    ensures var d := Decode(cfg, Memory(op, reg1, offset, reg2));
      d.Emit? && d.ins.offset == offset && d.ins.rs2.None? && d.ins.imm.None? &&
      (op == "sw" ==> d.ins.rd == Some(reg2) && d.ins.rs1 == Some(reg1)) &&
      (op != "sw" ==> d.ins.rd == Some(reg1) && d.ins.rs1 == Some(reg2))
  {
  }

  /** Once an unknown opcode has stopped the load, later lines change nothing. */
  lemma {:induction false} LoadErrorIsFinal(cfg: Config, lines: seq<Line>, n: nat)
    requires n <= |lines| && LoadLines(cfg, lines[..n]).error.Some?
    ensures LoadLines(cfg, lines) == LoadLines(cfg, lines[..n])
    decreases |lines| - n
  {
    if n < |lines| {
      assert lines[..n + 1][..n] == lines[..n];
      LoadErrorIsFinal(cfg, lines, n + 1);
      assert lines[..|lines|] == lines;
    } else {
      assert lines[..n] == lines;
    }
  }

  /** The load fails exactly when some line carries an unknown opcode, and then it
      reports the first such line with its opcode. */
  lemma {:induction false} LoadReportsFirstUnknown(cfg: Config, lines: seq<Line>)
    ensures var r := LoadLines(cfg, lines);
      (r.error.None? <==> forall k :: 0 <= k < |lines| ==> !Decode(cfg, lines[k]).Reject?) &&
      (r.error.Some? ==>
        r.error.value.line < |lines| &&
        Decode(cfg, lines[r.error.value.line]) == Reject(r.error.value.op) &&
        forall k :: 0 <= k < r.error.value.line ==> !Decode(cfg, lines[k]).Reject?)
    decreases |lines|
  {
    if lines != [] {
      var n := |lines| - 1;
      LoadReportsFirstUnknown(cfg, lines[..n]);
      assert forall k :: 0 <= k < n ==> lines[..n][k] == lines[k];
    }
  }

  /** A file whose every line matches a shape with a known opcode loads to one
      instruction per line, in order. */
  lemma {:induction false} LoadDecodesEveryLine(cfg: Config, lines: seq<Line>)
    requires forall k :: 0 <= k < |lines| ==> Decode(cfg, lines[k]).Emit?
    ensures LoadLines(cfg, lines).error.None?
    ensures |LoadLines(cfg, lines).program| == |lines|
    ensures forall k :: 0 <= k < |lines| ==> LoadLines(cfg, lines).program[k] == Decode(cfg, lines[k]).ins
    decreases |lines|
  {
    if lines != [] {
      var n := |lines| - 1;
      assert forall k :: 0 <= k < n ==> lines[..n][k] == lines[k];
      LoadDecodesEveryLine(cfg, lines[..n]);
    }
  }

  /** Under a configuration that can schedule every opcode it knows, whatever the
      loader produces can be scheduled. */
  lemma LoadedIsSchedulable(cfg: Config, lines: seq<Line>)
    requires CoversOps(cfg)
    ensures AllSchedulable(cfg, LoadLines(cfg, lines).program)
  {
  }

  /** `Emitted` distributes over concatenation of files. */
  lemma {:induction false} EmittedAppend(cfg: Config, a: seq<Line>, b: seq<Line>)
    ensures Emitted(cfg, a + b) == Emitted(cfg, a) + Emitted(cfg, b)
    decreases |a|
  {
    if a != [] {
      assert (a + b)[0] == a[0];
      assert (a + b)[1..] == a[1..] + b;
      EmittedAppend(cfg, a[1..], b);
    } else {
      assert a + b == b;
    }
  }

  /** What loading leaves in the program: the instructions of every matched line,
      in order, with unmatched lines skipped; when an unknown opcode stops the load
      at line `e`, exactly those of the lines before `e`. */
  lemma {:induction false} LoadedProgram(cfg: Config, lines: seq<Line>)
    ensures var r := LoadLines(cfg, lines);
      (r.error.None? ==> r.program == Emitted(cfg, lines)) &&
      (r.error.Some? ==> r.error.value.line < |lines| && r.program == Emitted(cfg, lines[..r.error.value.line]))
    decreases |lines|
  {
    if lines != [] {
      var n := |lines| - 1;
      var init := lines[..n];
      LoadedProgram(cfg, init);
      var r := LoadLines(cfg, init);
      if r.error.Some? {
        assert init[..r.error.value.line] == lines[..r.error.value.line];
      } else {
        assert lines == init + [lines[n]];
        EmittedAppend(cfg, init, [lines[n]]);
        assert [lines[n]][1..] == [];
      }
    }
  }
}
