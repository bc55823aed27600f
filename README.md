# In-order ILP simulator: scheduler and commit unit in Dafny

This project models the engine of `ILPSimulator` (`inorder/simulator.py`): a
single-issue, in-order, scoreboard-style timing simulator for a small integer
instruction set. Each instruction goes through two phases:
- `run` walks the program once, in order. It issues each instruction at
  `max(data ready, unit instance free, previous issue) + 1`, on the first
  instance of its unit type with the smallest busy-until cycle. It completes the
  instruction `latency - 1` cycles later, then updates the per-register ready-at
  scoreboard, the instance's busy-until cycle and the running total.
- `compute_and_commit` then applies the instruction's integer effect to the
  register file and memory.

Modules:

- `Isa` (`isa.dfy`): the `Instruction` record, the machine configuration
  (unit counts, latencies, opcode-to-unit map) and the default configuration,
  with the registers an instruction reads and writes.
- `Semantics` (`semantics.dfy`): the commit unit as a pure `Commit` function, with
  floor division for `//`, absent registers and addresses reading 0, and errors
  as values. It also defines plain sequential execution (`Execute`) and the
  lemmas about both.
- `Scoreboard` (`scoreboard.dfy`): the scheduler's state (`Timing`), one issue
  step (`Issue`, `Advance`), and the state after the first `n` instructions
  (`TimingAt`) with each instruction's slot (`SlotOf`). Its lemmas cover
  in-order issue, data-hazard safety, the unit choice and busy-until
  monotonicity, the resource bound, and the total as the maximum completion.
- `Loader` (`loader.dfy`): the loader's field assignment for an already-matched
  line, including the opcode check and the register swap for stores, and what
  a whole file of such lines loads to.
- `Simulator` (`simulator.dfy`): the `ILPSimulator` class. Its fields are the
  configuration, program, registers, memory and cycle total. Its methods are
  `Reset`, `Load`, `ComputeAndCommit` and `Run`. The run's loop is `RunProgram`,
  which works on the simulator's values and keeps the source's local variables.
  It is proved to produce exactly the `Scoreboard` schedule and the state of
  sequential execution.
- `Scenarios` (`scenarios.dfy`): the programs of the repository's tests,
  worked through under the default configuration.

`Run` is the main theorem. When sequential execution of the program completes,
the registers and memory are its final state, every instruction carries its
slot's issue and completion cycles, and `totalCycles` is the total. When
instruction `k` fails to commit, the run stops with that error:
- the state is the one the instructions before `k` left;
- instructions `0..k` carry their cycles;
- `totalCycles` is unchanged.

This is what the source does when `compute_and_commit` raises.

The model keeps three behaviours of the code:
- A failing commit leaves the earlier instructions' effects and annotations in
  place. It does not roll back.
- The loader keeps the instructions appended before an unknown opcode.
- Lines that match no shape are skipped silently.

## Model

| member | source | states |
|---|---|---|
| `Isa.DefaultConfig` | inorder/simulator.py:5-37 | The default machine: the unit counts, latencies and opcode-to-unit map of the module-level configuration. It has no contract of its own; `Isa.DefaultConfigIsSound` and `Scenarios.DefaultUnitsFree` state its properties. |
| `Isa.DefaultConfigIsSound` | inorder/simulator.py:5-37 | The default configuration gives every opcode it knows a unit type with at least one instance and a latency, and every latency is at least 1. |
| `Isa.ReadSet` | inorder/simulator.py:127 | The registers an instruction reads: `rs1`, `rs2`, and `rd` for `sw`. It has no contract of its own; `Isa.ReadSetMembers` states its membership. |
| `Isa.Written` | inorder/simulator.py:144-145 | The register whose ready-at the scheduler sets: a named `rd` of any opcode but `sw`. It has no contract of its own; `Scoreboard.AdvanceReadyAt` and `Scoreboard.LastWriterSetsEntry` state what writing it does. |
| `Isa.ReadSetMembers` | inorder/simulator.py:127 | A register is in the read set exactly when it is a named `rs1`, a named `rs2`, or, for `sw` only, a named `rd`. |
| `Semantics.Read` | inorder/simulator.py:158-159 | A register's value, 0 when the register is unnamed or absent. It has no contract of its own; `Semantics.CommitResult` and `Semantics.StoreWritesMemoryOnly` state the values it gives the commit unit. |
| `Semantics.Fetch` | inorder/simulator.py:176 | A memory word, 0 at an address never written. It has no contract of its own; `Semantics.CommitResult` states what `lw` reads with it. |
| `Semantics.FloorDiv` | inorder/simulator.py:171-184 | The quotient satisfies the floor-division bounds for either sign of divisor. |
| `Semantics.FloorDivRoundsDown` | inorder/simulator.py:171-172 | `//` rounds toward negative infinity: -7 // 2 = -4, 7 // -2 = -4, -7 // -2 = 3. |
| `Semantics.FloorDivUnique` | inorder/simulator.py:183-184 | The floor quotient is the only integer within the floor bounds, so `FloorDiv` is exactly `//`. |
| `Semantics.Evaluate` | inorder/simulator.py:155-188 | A successful result selection implies an implemented opcode, and it yields no register value exactly for `sw`. |
| `Semantics.StoreAddress` | inorder/simulator.py:191-192 | The address a store writes: the base register `rd` plus the offset. It has no contract of its own; `Semantics.StoreWritesMemoryOnly` states the store's effect at that address. |
| `Semantics.Commit` | inorder/simulator.py:155-196 | The commit unit: the result of `Evaluate` written to `rd`, or for `sw` to memory. It has no contract of its own; `Semantics.CommitFailsExactly`, `Semantics.CommitResult`, `Semantics.StoreWritesMemoryOnly` and `Semantics.NonStoreWritesRdOnly` state its behaviour. |
| `Semantics.CommitFailsExactly` | inorder/simulator.py:163-188 | A commit fails exactly in three cases: an opcode with no commit case (`NotImplemented`), an immediate form without its immediate, or a zero divisor. Each failure reports which. |
| `Semantics.CommitResult` | inorder/simulator.py:158-184 | Opcode by opcode, the value written to `rd`: the immediate, `rs1` op immediate, `rs1` op `rs2`, floor quotients, and memory at `rs1 + offset` for `lw`. Absent sources read 0. |
| `Semantics.StoreWritesMemoryOnly` | inorder/simulator.py:190-194 | `sw` always succeeds. It writes the value of `rs1` at `rd + offset`, and changes no register and no other address. |
| `Semantics.NonStoreWritesRdOnly` | inorder/simulator.py:195-196 | Any other successful commit leaves memory unchanged and changes at most the named `rd`. An unnamed `rd` changes nothing. |
| `Semantics.ExecuteFirst` | inorder/simulator.py:126-151 | Committing the first `n` instructions in order, stopping at the first error: a failure is reported at an instruction before `n`. |
| `Semantics.ExecuteThrough` | inorder/simulator.py:126-151 | The same through instruction `k`: a failure is reported at `k` or earlier. |
| `Semantics.Execute` | inorder/simulator.py:126-151 | Sequential execution of the whole program; a failure is reported at one of its instructions. `Semantics.CommitsAlongExecutes`, `Semantics.FailureIsFinal` and `Semantics.FailedAtFirstError` state the rest. |
| `Semantics.CommitsAlongExecutes` | inorder/simulator.py:126-151 | Any run of successful commits is what sequential execution yields. |
| `Semantics.FailureIsFinal` | inorder/simulator.py:126-151 | Once an instruction fails, every longer prefix fails at the same instruction, from the same state. |
| `Semantics.FailedAtFirstError` | inorder/simulator.py:126-151 | A failed execution reports its first failing instruction: the instructions before it completed in the reported state, and its own commit fails there. |
| `Scoreboard.InitialTiming` | inorder/simulator.py:118-125 | The scheduler's start state: no ready-at entries, every instance free at 0, last issue and total 0. It has no contract of its own; `Scoreboard.TimingStart` states it. |
| `Scoreboard.AllFree` | inorder/simulator.py:120-122 | The initial busy-until lists cover exactly the configured unit types. |
| `Scoreboard.ReadyAtOf` | inorder/simulator.py:128 | A register's ready-at cycle, 0 when it has no entry. It has no contract of its own; `Scoreboard.DataReadyIsMax` and `Scoreboard.UnwrittenReadIsReady` state its properties. |
| `Scoreboard.DataReady` | inorder/simulator.py:128 | The data-ready cycle of a read set. It has no contract of its own; `Scoreboard.DataReadyIsMax` states that it is the maximum, or 0. |
| `Scoreboard.DataReadyIsMax` | inorder/simulator.py:128 | The data-ready cycle is the maximum ready-at cycle over the read set: it bounds every entry and equals one of them. It is 0 for an empty read set. |
| `Scoreboard.FirstMinIndex` | inorder/simulator.py:132-133 | The instance index chosen from a busy-until list is within the list; `Scoreboard.FirstMinIndexIsFirstMin` states that it is the first minimum. |
| `Scoreboard.FirstMinIndexIsFirstMin` | inorder/simulator.py:132-133 | The chosen index holds the minimum of the list, and every earlier index holds a strictly larger value. |
| `Scoreboard.Issue` | inorder/simulator.py:130-133 | The slot uses the opcode's unit type and an existing instance of it. |
| `Scoreboard.IssueChoice` | inorder/simulator.py:127-139 | The issue cycle is after the previous issue, after the chosen instance's busy-until cycle and after every read register's ready-at cycle. It is one more than one of those, or 1. Completion is issue + latency - 1. |
| `Scoreboard.Advance` | inorder/simulator.py:144-149 | A step keeps a busy-until list of the configured width for every unit type. |
| `Scoreboard.TimingAt` | inorder/simulator.py:118-149 | After any prefix of the program the busy-until lists keep their configured widths, and the last issue and the total are non-negative. |
| `Scoreboard.TimingStart` | inorder/simulator.py:118-125 | Before the first instruction, no register has a ready-at entry, every instance is free at 0, and the last issue and total are 0. |
| `Scoreboard.TimingStep` | inorder/simulator.py:126-149 | Each instruction advances the scheduler's state by exactly one issue step. |
| `Scoreboard.FollowsIsTiming` | inorder/simulator.py:118-149 | The scheduler's states are the only run that starts from the initial state and advances one instruction at a time. |
| `Scoreboard.SlotOf` | inorder/simulator.py:130-139 | The unit instance, issue and completion cycles of instruction `j`, issued from the state the instructions before it left. It has no contract of its own; `Scoreboard.IssueInOrder`, `Scoreboard.DataHazardSafe`, `Scoreboard.SameInstanceDisjoint` and `Scoreboard.CompletionCycle` state its properties. |
| `Scoreboard.IssueAfterPrevious` | inorder/simulator.py:135-136 | The first instruction issues at cycle 1 or later, and every later one at least one cycle after its predecessor. |
| `Scoreboard.IssueInOrder` | inorder/simulator.py:124-136 | Issue cycles strictly increase: instruction `j` issues at least `j - i` cycles after instruction `i`, and at cycle `j + 1` or later. |
| `Scoreboard.AdvanceReadyAt` | inorder/simulator.py:144-145 | One step sets the written register's ready-at to the completion cycle and leaves every other entry as it was. |
| `Scoreboard.ReadyAtStep` | inorder/simulator.py:144-145 | The same fact for instruction `n` of a program, in terms of its slot. |
| `Scoreboard.UnwrittenHasNoEntry` | inorder/simulator.py:144-145 | A register that no earlier instruction writes has no ready-at entry. |
| `Scoreboard.LastWriterSetsEntry` | inorder/simulator.py:144-145 | A register's ready-at entry is the completion cycle of its last writer; a `sw` never counts as a writer. |
| `Scoreboard.ReadyAtIsLastWrite` | inorder/simulator.py:118-145 | Both cases together: no entry without a writer, and otherwise the last writer's completion cycle. |
| `Scoreboard.DataHazardSafe` | inorder/simulator.py:127-135 | An instruction issues after the completion of the last earlier writer of every register it reads. |
| `Scoreboard.UnwrittenReadIsReady` | inorder/simulator.py:128 | A register that no earlier instruction writes is ready at cycle 0. |
| `Scoreboard.UnitChoice` | inorder/simulator.py:130-147 | The chosen instance is the first with the minimum busy-until cycle, and the issue is after that cycle. Afterwards only that entry changes, to the completion cycle, and with latencies of at least 1 it never decreases. |
| `Scoreboard.AdvanceFreeAt` | inorder/simulator.py:147 | One step changes only the chosen instance's busy-until cycle, to the completion cycle. |
| `Scoreboard.BusyUntilStep` | inorder/simulator.py:147 | With latencies of at least 1, no busy-until cycle decreases over one instruction. |
| `Scoreboard.BusyUntilMonotone` | inorder/simulator.py:147 | With latencies of at least 1, no busy-until cycle decreases over any stretch of the program. |
| `Scoreboard.SameInstanceDisjoint` | inorder/simulator.py:130-147 | Two instructions on the same instance do not overlap: the later one issues after the earlier one completes. |
| `Scoreboard.ResourceBound` | inorder/simulator.py:120-147 | At any cycle, at most as many instructions of a unit type are in flight as the type has instances. |
| `Scoreboard.CompletionCycle` | inorder/simulator.py:138-142 | Completion is issue + latency - 1, and not before issue when latencies are at least 1. |
| `Scoreboard.TotalStep` | inorder/simulator.py:149 | The total after an instruction is the maximum of the previous total and that instruction's completion. |
| `Scoreboard.TotalCoversCompletions` | inorder/simulator.py:149 | The total is at least every completion so far. |
| `Scoreboard.TotalIsSomeCompletion` | inorder/simulator.py:124-149 | The total is 0 or one of the completions; it is 0 for an empty program. |
| `Scoreboard.TotalIsMaxCompletion` | inorder/simulator.py:124-153 | The total equals the maximum completion cycle, and is 0 for an empty program. With latencies of at least 1 it is positive for a non-empty one. |
| `Loader.Decode` | inorder/simulator.py:87-115 | An unmatched line is skipped. A matched line with an opcode missing from the configuration is rejected with that opcode. Any other line becomes an instruction with that opcode and unset cycles. |
| `Loader.LoadLines` | inorder/simulator.py:80-115 | Loading yields at most one instruction per line, each with a known opcode. |
| `Loader.Emitted` | inorder/simulator.py:80-115 | The instructions of a file's matched lines, in order. It has no contract of its own and is the reference for `Loader.LoadedProgram`. |
| `Loader.LoadedProgram` | inorder/simulator.py:80-115 | Without an error, the loaded program is the instructions of the matched lines, in order, with unmatched lines skipped. When an unknown opcode on line `e` stops the load, the program is exactly the instructions of the lines before `e`. |
| `Loader.StoreSwapsRegisters` | inorder/simulator.py:101-103 | A memory-shaped `sw` puts the base register in `rd` and the stored register in `rs1`. Any other memory-shaped opcode keeps the written order. |
| `Loader.LoadErrorIsFinal` | inorder/simulator.py:89-90 | After an unknown opcode stops the load, later lines change nothing. |
| `Loader.LoadReportsFirstUnknown` | inorder/simulator.py:87-115 | Loading fails exactly when some line has an unknown opcode, and it reports the first such line and its opcode. |
| `Loader.LoadDecodesEveryLine` | inorder/simulator.py:80-115 | A file of matched lines with known opcodes loads to their instructions, one per line, in order. |
| `Loader.LoadedIsSchedulable` | inorder/simulator.py:89-130 | Under a configuration that covers its opcodes, everything the loader produces can be scheduled. |
| `Simulator.Annotated` | inorder/simulator.py:141-142 | Scheduling an instruction sets its issue and completion cycles to its slot's and keeps every other field. |
| `Simulator.Scheduled` | inorder/simulator.py:126-142 | Annotating a prefix of the program keeps the program's length. |
| `Simulator.ScheduledCycles` | inorder/simulator.py:126-142 | After `n` instructions are scheduled, exactly the first `n` carry their slots' cycles; the rest are untouched. |
| `Simulator.IssueNext` | inorder/simulator.py:127-149 | The scheduling half of one iteration yields the instruction's slot cycles and the scheduler's state after it. |
| `Simulator.RunProgram` | inorder/simulator.py:117-153 | The loop of `run`, on values. It returns sequential execution's final state, every instruction annotated and the total. If instruction `k` fails, it returns that error, the state before `k`, and instructions `0..k` annotated. |
| `Simulator.ILPSimulator.constructor` | inorder/simulator.py:54-57 | A new simulator keeps its configuration and starts with no program, empty registers and memory, and 0 cycles. |
| `Simulator.ILPSimulator.Reset` | inorder/simulator.py:59-71 | Reset empties the program, registers and memory and zeroes the cycle count. |
| `Simulator.ILPSimulator.Load` | inorder/simulator.py:73-115 | The loaded instructions are appended to the program; the first unknown opcode stops the load with its line. |
| `Simulator.ILPSimulator.ComputeAndCommit` | inorder/simulator.py:155-196 | Registers and memory become the commit's result. On an error, nothing changes and the error is returned. |
| `Simulator.ILPSimulator.Run` | inorder/simulator.py:117-153 | Both outcomes as in `RunProgram`, on the simulator's fields. The total cycle count is set only when the whole program commits. |
| `Scenarios.MixedFileLoads` | inorder/test/test_inorder.py:4-41 | The test file, whose whitespace-only last line matches no shape, loads to eight instructions with the checked fields; the store's base lands in `rd`. |
| `Scenarios.StoreLinesLoad` | inorder/test/test_inorder.py:73-84 | The run-test file, with its whitespace-only last line, loads to the `lw`, `add`, `sw` program. |
| `Scenarios.StoreProgramExecutes` | inorder/test/test_inorder.py:73-91 | From `t0 = 100` and memory `{100: 10}`, the program ends with `t1 = 10`, `t2 = 20` and memory 104 = 20. |
| `Scenarios.DefaultUnitsFree` | inorder/simulator.py:120-122 | Under the default configuration, both ALU instances, the multiplier and the load/store unit start free at cycle 0. |
| `Scenarios.LoadIssues` | inorder/test/test_inorder.py:73-92 | The `lw` issues at cycle 1 on the load/store unit and completes at 5. |
| `Scenarios.AddSlot` | inorder/test/test_inorder.py:73-92 | The `add` waits for `t1` and issues at 6 on the first ALU. |
| `Scenarios.AddIssues` | inorder/test/test_inorder.py:73-92 | Issuing the `add` makes `t2` ready after 6 and keeps that ALU busy until then. |
| `Scenarios.StoreIssues` | inorder/test/test_inorder.py:73-92 | The `sw` waits for `t2` and runs from 7 to 11 on the load/store unit. |
| `Scenarios.StoreProgramFollows` | inorder/test/test_inorder.py:73-92 | The scheduler's states over the run-test program are the four listed. |
| `Scenarios.StoreProgramSchedule` | inorder/test/test_inorder.py:73-92 | The slots are 1-5, 6-6 and 7-11, and the total is 11 cycles. |
| `Scenarios.StoreProgramCycles` | inorder/test/test_inorder.py:73-92 | The scheduled program carries issue cycles 1, 6, 7 and completion cycles 5, 6, 11. |
| `Scenarios.StoreRunMatchesTest` | inorder/test/test_inorder.py:73-92 | Running the test program yields the registers, memory, cycles and total the test checks. |
| `Scenarios.ArithmeticResults` | inorder/test/test_inorder.py:43-71 | The arithmetic program ends with t2 = 25, t3 = 15, t4 = 100, t5 = 4, t6 = 23, t7 = 18, s0 = 20 and s1 = 10. |
| `Scenarios.ArithmeticCommitsLow` | inorder/test/test_inorder.py:43-71 | Its first five instructions each commit their value. |
| `Scenarios.ArithmeticCommitsHigh` | inorder/test/test_inorder.py:43-71 | Its last five instructions, including both divisions, each commit their value. |

## Left out

- Reading the file and matching lines against the four regular expressions
  (`inorder/simulator.py:73-86`) are left out. A line arrives already matched,
  as the groups of its shape, or as `Unmatched`, which the loader skips.
- `print_timeline` is left out. It only formats and prints.
- Fields and state the engine never reads are left out: `status`,
  `result_value`, `raw_text`, the waiting and executing lists, `free_units` and
  `register_writeback_cycle`.
- The configuration is an immutable value given to the constructor, not the
  shared mutable module-level default.
- Instruction objects are values. `Run` replaces each program element with an
  annotated copy, so aliasing of the same object elsewhere is not modelled.
- `Simulator.ILPSimulator.Run` requires that every instruction can be scheduled:
  its opcode has a unit type with at least one instance, and a latency. The
  source raises `KeyError` or `ValueError` (from `min` of an empty list) in
  those cases, and those exceptions are not modelled.
  `Loader.LoadedIsSchedulable` shows that the requirement holds for any
  loaded program under a configuration that covers its opcodes.
- `Simulator.ILPSimulator.Run` runs its loop in `RunProgram` on the field
  values. It commits through the `Commit` function rather than by calling
  `ComputeAndCommit`, which is proved separately to implement `Commit`.
- `Semantics.Evaluate` reports `MissingImmediate` for `li` without an
  immediate, and `Semantics.CommitFailsExactly` counts that case as a failure.
  The loader does produce such an instruction: `li` written in the
  register-register shape (`li t1, t2, t3`) or in the memory shape
  (`li t1, 0(t0)`) loads with no immediate. The model ends the run at that
  instruction. The source instead stores `None` in `rd` and goes on, and a later
  arithmetic read of that register raises `TypeError`. A missing immediate for
  `addi`, `subi`, `muli` or `divi` raises `TypeError` in the source as well, and
  the model reports it as `MissingImmediate`. Registers hold integers only, so
  `None` as a register value is not modelled.
- Python's `ZeroDivisionError` is modelled as the `ZeroDivision` error value,
  not excluded by a precondition.
- Integers are unbounded, as Python's are.
