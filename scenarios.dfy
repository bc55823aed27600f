/** Worked examples: the programs of the repository's own tests, loaded, executed and
    scheduled under the default configuration, with the results the tests expect. */
module Scenarios {
  import opened Isa
  import opened Semantics
  import opened Scoreboard
  import opened Loader
  import opened Simulator

  /** The file of the loader test, as matched lines: eight instructions and the
      whitespace-only last line, which matches no shape. */
  function MixedLines(): seq<Line>
  {
    [Memory("lw", "t1", 0, "t0"),
     RegReg("add", "t2", "t1", "t1"),
     Memory("sw", "t2", 4, "t0"),
     RegImm("addi", "t3", "t1", 5),
     RegImm("subi", "t4", "t2", 3),
     RegImm("muli", "t5", "t3", 2),
     RegImm("divi", "t6", "t5", 4),
     LoadImm("li", "t7", 42),
     Unmatched]
  }

  /** Loading the mixed file yields one instruction per line with the fields the
      loader test checks; the store holds its base `t0` in `rd` and the stored `t2`
      in `rs1`. */
  lemma MixedFileLoads()
    ensures var r := LoadLines(DefaultConfig(), MixedLines());
      r.error.None? && |r.program| == 8 &&
      r.program[0].op == "lw" && r.program[0].rd == Some("t1") &&
      r.program[1].op == "add" && r.program[1].rs1 == Some("t1") &&
      r.program[2].op == "sw" && r.program[2].offset == 4 &&
      r.program[2].rd == Some("t0") && r.program[2].rs1 == Some("t2") &&
      r.program[3].op == "addi" && r.program[3].rs1 == Some("t1") && r.program[3].imm == Some(5) &&
      r.program[4].op == "subi" && r.program[4].rs1 == Some("t2") && r.program[4].imm == Some(3) &&
      r.program[5].op == "muli" && r.program[5].rs1 == Some("t3") && r.program[5].imm == Some(2) &&
      r.program[6].op == "divi" && r.program[6].rs1 == Some("t5") && r.program[6].imm == Some(4) &&
      r.program[7].op == "li" && r.program[7].imm == Some(42)
  {
    LoadDecodesEveryLine(DefaultConfig(), MixedLines()[..8]);
  }

  /** The file of the run test: load, double, store, and the whitespace-only last
      line. */
  function StoreLines(): seq<Line>
  {
    [Memory("lw", "t1", 0, "t0"),
     RegReg("add", "t2", "t1", "t1"),
     Memory("sw", "t2", 4, "t0"),
     Unmatched]
  }

  function StoreProgram(): seq<Instruction>
  {
    [Instruction("lw", Some("t1"), Some("t0"), None, None, 0, -1, -1),
     Instruction("add", Some("t2"), Some("t1"), Some("t1"), None, 0, -1, -1),
     Instruction("sw", Some("t0"), Some("t2"), None, None, 4, -1, -1)]
  }

  lemma StoreLinesLoad()
    ensures LoadLines(DefaultConfig(), StoreLines()) == Loaded(StoreProgram(), None)
  {
    LoadDecodesEveryLine(DefaultConfig(), StoreLines()[..3]);
  }

  /** With `t0 = 100` and memory `{100: 10}`, the program loads 10 into `t1`, writes
      20 to `t2` and stores it at address 104. */
  lemma StoreProgramExecutes()
    ensures Execute(StoreProgram(), Machine(map["t0" := 100], map[100 := 10])) ==
      Completed(Machine(map["t0" := 100, "t1" := 10, "t2" := 20], map[100 := 10, 104 := 20]))
  {
    var p := StoreProgram();
    var m0 := Machine(map["t0" := 100], map[100 := 10]);
    var m1 := Machine(map["t0" := 100, "t1" := 10], map[100 := 10]);
    var m2 := Machine(map["t0" := 100, "t1" := 10, "t2" := 20], map[100 := 10]);
    var m3 := Machine(map["t0" := 100, "t1" := 10, "t2" := 20], map[100 := 10, 104 := 20]);
    assert Commit(p[0], m0) == Ok(m1);
    ExecuteNext(p, 0, m0, m0);
    assert Commit(p[1], m1) == Ok(m2);
    ExecuteNext(p, 1, m0, m1);
    assert Commit(p[2], m2) == Ok(m3);
    ExecuteNext(p, 2, m0, m2);
  }

  /** The default configuration starts with both ALU instances, the multiplier and
      the load/store unit free at cycle 0. */
  lemma DefaultUnitsFree()
    ensures AllFree(DefaultConfig()) == map["ALU" := [0, 0], "MUL_DIV" := [0], "LOAD_STORE" := [0]]
  {
    assert Zeros(2) == [0, 0];
    assert Zeros(1) == [0];
    assert AllFree(DefaultConfig()).Keys == {"ALU", "MUL_DIV", "LOAD_STORE"};
  }

  /** The scheduler's states while the run-test program issues: before it starts,
      and after each of its three instructions. */
  function StoreTimings(): seq<Timing>
  {
    var t0 := Timing(map[], map["ALU" := [0, 0], "MUL_DIV" := [0], "LOAD_STORE" := [0]], 0, 0);
    var t1 := Timing(t0.readyAt["t1" := 5], t0.freeAt["LOAD_STORE" := [5]], 1, 5);
    var t2 := Timing(t1.readyAt["t2" := 6], t1.freeAt["ALU" := [6, 0]], 6, 6);
    var t3 := Timing(t2.readyAt, t2.freeAt["LOAD_STORE" := [11]], 7, 11);
    [t0, t1, t2, t3]
  }

  /** The load finds every unit idle and `t0` ready: it issues in cycle 1 on the
      load/store unit and `t1` is ready after cycle 5. */
  lemma LoadIssues()
    ensures StepsTo(DefaultConfig(), StoreTimings()[0], StoreProgram()[0], StoreTimings()[1])
    ensures Issue(DefaultConfig(), StoreTimings()[0], StoreProgram()[0]) == Slot("LOAD_STORE", 0, 1, 5)
  {
    var ins := StoreProgram()[0];
    assert ReadSet(ins) == ["t0"] && Written(ins) == Some("t1");
    assert DataReady(map[], ["t0"]) == 0;
    assert FirstMinIndex([0]) == 0;
    assert [0][0 := 5] == [5];
  }

  /** The add waits for `t1`: it issues in cycle 6 on the first ALU and completes in
      the same cycle. */
  lemma AddSlot()
    ensures Schedulable(DefaultConfig(), StoreProgram()[1]) && Fits(DefaultConfig(), StoreTimings()[1])
    ensures Issue(DefaultConfig(), StoreTimings()[1], StoreProgram()[1]) == Slot("ALU", 0, 6, 6)
  {
    var t, ins := StoreTimings()[1], StoreProgram()[1];
    assert ReadSet(ins) == ["t1", "t1"];
    assert DataReady(t.readyAt, ["t1", "t1"]) == 5;
    assert t.freeAt["ALU"] == [0, 0] && FirstMinIndex([0, 0]) == 0;
  }

  /** Issuing the add makes `t2` ready after cycle 6 and keeps the first ALU busy
      until then. */
  lemma AddIssues()
    ensures StepsTo(DefaultConfig(), StoreTimings()[1], StoreProgram()[1], StoreTimings()[2])
    ensures Issue(DefaultConfig(), StoreTimings()[1], StoreProgram()[1]) == Slot("ALU", 0, 6, 6)
  {
    AddSlot();
    var t, ins := StoreTimings()[1], StoreProgram()[1];
    assert Written(ins) == Some("t2");
    assert t.freeAt["ALU" := [0, 0][0 := 6]] == StoreTimings()[2].freeAt by {
      assert t.freeAt["ALU"] == [0, 0];
      assert [0, 0][0 := 6] == [6, 0];
    }
  }

  /** The store reads `t2` and the base `t0`; it waits for `t2` and issues in
      cycle 7 on the load/store unit, completing in cycle 11. */
  lemma StoreIssues()
    ensures StepsTo(DefaultConfig(), StoreTimings()[2], StoreProgram()[2], StoreTimings()[3])
    ensures Issue(DefaultConfig(), StoreTimings()[2], StoreProgram()[2]) == Slot("LOAD_STORE", 0, 7, 11)
  {
    var ins := StoreProgram()[2];
    assert ReadSet(ins) == ["t2", "t0"] && Written(ins) == None;
    assert DataReady(map["t1" := 5, "t2" := 6], ["t2", "t0"]) == 6;
    assert FirstMinIndex([5]) == 0;
    assert [5][0 := 11] == [11];
  }

  /** Issuing the run-test program instruction by instruction passes through
      exactly the states listed. */
  lemma StoreProgramFollows()
    ensures Follows(DefaultConfig(), StoreProgram(), StoreTimings())
  {
    var cfg, p, ts := DefaultConfig(), StoreProgram(), StoreTimings();
    forall k | 0 <= k < 3
      ensures StepsTo(cfg, ts[k], p[k], ts[k + 1])
    {
      if k == 0 {
        LoadIssues();
      } else if k == 1 {
        AddIssues();
      } else {
        StoreIssues();
      }
    }
    DefaultUnitsFree();
  }

  /** Under the default configuration the load issues in cycle 1 and completes in
      cycle 5, the add waits for `t1` and runs in cycle 6, the store waits for `t2`
      and runs from 7 to 11, and the program takes 11 cycles. */
  lemma StoreProgramSchedule()
    ensures AllSchedulable(DefaultConfig(), StoreProgram())
    ensures [SlotOf(DefaultConfig(), StoreProgram(), 0),
             SlotOf(DefaultConfig(), StoreProgram(), 1),
             SlotOf(DefaultConfig(), StoreProgram(), 2)] ==
            [Slot("LOAD_STORE", 0, 1, 5), Slot("ALU", 0, 6, 6), Slot("LOAD_STORE", 0, 7, 11)]
    ensures TimingAt(DefaultConfig(), StoreProgram(), 3).total == 11
  {
    StoreProgramFollows();
    FollowsIsTiming(DefaultConfig(), StoreProgram(), StoreTimings());
    LoadIssues();
    AddIssues();
    StoreIssues();
  }

  /** Once scheduled, the run-test program carries the cycles the timeline shows:
      the load 1 to 5, the add 6 to 6, the store 7 to 11. */
  lemma StoreProgramCycles()
    ensures AllSchedulable(DefaultConfig(), StoreProgram())
    ensures var s := Scheduled(DefaultConfig(), StoreProgram(), 3);
      [s[0].startCycle, s[1].startCycle, s[2].startCycle] == [1, 6, 7] &&
      [s[0].completeCycle, s[1].completeCycle, s[2].completeCycle] == [5, 6, 11]
  {
    StoreProgramSchedule();
    ScheduledCycles(DefaultConfig(), StoreProgram(), 3, 0);
    ScheduledCycles(DefaultConfig(), StoreProgram(), 3, 1);
    ScheduledCycles(DefaultConfig(), StoreProgram(), 3, 2);
  }

  /** The run test end to end on the simulator's values: the loaded program, run
      under the default configuration from `t0 = 100` and memory `{100: 10}`, ends
      with the registers, memory, schedule and cycle count the test expects. */
  method StoreRunMatchesTest() returns (regs: map<string, int>, mem: map<int, int>,
                                        prog: seq<Instruction>, total: int)
    ensures regs == map["t0" := 100, "t1" := 10, "t2" := 20]
    ensures mem == map[100 := 10, 104 := 20]
    ensures |prog| == 3
    ensures [prog[0].startCycle, prog[1].startCycle, prog[2].startCycle] == [1, 6, 7]
    ensures [prog[0].completeCycle, prog[1].completeCycle, prog[2].completeCycle] == [5, 6, 11]
    ensures total == 11
  {
    StoreProgramExecutes();
    StoreProgramCycles();
    var err;
    prog, regs, mem, total, err :=
      RunProgram(DefaultConfig(), StoreProgram(), map["t0" := 100], map[100 := 10]);
    StoreProgramSchedule();
  }

  /** The arithmetic test program: two immediates, then every register-register and
      register-immediate opcode on them. */
  function ArithmeticProgram(): seq<Instruction>
  {
    [Instruction("li", Some("t0"), None, None, Some(20), 0, -1, -1),
     Instruction("li", Some("t1"), None, None, Some(5), 0, -1, -1),
     Instruction("add", Some("t2"), Some("t0"), Some("t1"), None, 0, -1, -1),
     Instruction("sub", Some("t3"), Some("t0"), Some("t1"), None, 0, -1, -1),
     Instruction("mul", Some("t4"), Some("t0"), Some("t1"), None, 0, -1, -1),
     Instruction("div", Some("t5"), Some("t0"), Some("t1"), None, 0, -1, -1),
     Instruction("addi", Some("t6"), Some("t0"), None, Some(3), 0, -1, -1),
     Instruction("subi", Some("t7"), Some("t0"), None, Some(2), 0, -1, -1),
     Instruction("muli", Some("s0"), Some("t1"), None, Some(4), 0, -1, -1),
     Instruction("divi", Some("s1"), Some("t0"), None, Some(2), 0, -1, -1)]
  }

  /** The states the arithmetic program passes through from empty registers: each
      instruction writes its destination. */
  function ArithmeticStates(): seq<Machine>
  {
    var r0: map<string, int> := map[];
    var r1 := r0["t0" := 20];
    var r2 := r1["t1" := 5];
    var r3 := r2["t2" := 25];
    var r4 := r3["t3" := 15];
    var r5 := r4["t4" := 100];
    var r6 := r5["t5" := 4];
    var r7 := r6["t6" := 23];
    var r8 := r7["t7" := 18];
    var r9 := r8["s0" := 20];
    var r10 := r9["s1" := 10];
    [Machine(r0, map[]), Machine(r1, map[]), Machine(r2, map[]), Machine(r3, map[]),
     Machine(r4, map[]), Machine(r5, map[]), Machine(r6, map[]), Machine(r7, map[]),
     Machine(r8, map[]), Machine(r9, map[]), Machine(r10, map[])]
  }

  /** From empty registers the arithmetic program completes with
      t2 = 25, t3 = 15, t4 = 100, t5 = 4, t6 = 23, t7 = 18, s0 = 20 and s1 = 10. */
  lemma ArithmeticResults()
    ensures var o := Execute(ArithmeticProgram(), Machine(map[], map[]));
      o.Completed? && o.state.memory == map[] &&
      o.state.registers == map["t0" := 20, "t1" := 5, "t2" := 25, "t3" := 15, "t4" := 100,
                               "t5" := 4, "t6" := 23, "t7" := 18, "s0" := 20, "s1" := 10]
  {
    var p, ms := ArithmeticProgram(), ArithmeticStates();
    forall k | 0 <= k < 10
      ensures CommitsTo(p[k], ms[k], ms[k + 1])
    {
      if k < 5 {
        ArithmeticCommitsLow(k);
      } else {
        ArithmeticCommitsHigh(k);
      }
    }
    CommitsAlongExecutes(p, ms, 10);
  }

  /** The immediates, the add, the subtract and the multiply each commit. */
  lemma ArithmeticCommitsLow(k: nat)
    requires k < 5
    ensures Commit(ArithmeticProgram()[k], ArithmeticStates()[k]) == Ok(ArithmeticStates()[k + 1])
  {
    if k == 0 {
    } else if k == 1 {
    } else if k == 2 {
    } else if k == 3 {
    } else {
    }
  }

  /** The divide and the four immediate forms each commit; both divisions round
      down on positive operands. */
  lemma ArithmeticCommitsHigh(k: nat)
    requires 5 <= k < 10
    ensures Commit(ArithmeticProgram()[k], ArithmeticStates()[k]) == Ok(ArithmeticStates()[k + 1])
  {
    if k == 5 {
    } else if k == 6 {
    } else if k == 7 {
    } else if k == 8 {
    } else {
    }
  }
}
