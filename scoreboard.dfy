/** The scheduler of the in-order core as a specification: the scoreboard
    (per-register ready-at cycle), the busy-until cycle of every functional-unit
    instance, and the issue/completion cycle each instruction receives. The
    properties of the schedule (in-order issue, data-hazard safety, resource safety,
    the total cycle count) are proved here about these functions. */
module Scoreboard {
  import opened Isa

  /** The scheduler's state between two instructions: the register ready-at map,
      the busy-until list of each unit type, the previous issue cycle and the
      running maximum completion cycle. */
  datatype Timing = Timing(
    readyAt: map<string, int>,
    freeAt: map<string, seq<int>>,
    last: int,
    total: int)

  /** What one instruction is given: the unit type and instance it occupies, and
      its issue and completion cycles. */
  datatype Slot = Slot(unit: string, index: nat, start: int, complete: int)

  function Max(a: int, b: int): int
  {
    if a >= b then a else b
  }

  /** The length of the list `[0] * count`. */
  function Width(count: int): nat
  {
    if count < 0 then 0 else count
  }

  /** The list `[0] * n`. */
  function Zeros(n: nat): (z: seq<int>)
    ensures |z| == n && forall k :: 0 <= k < n ==> z[k] == 0
  {
    if n == 0 then [] else Zeros(n - 1) + [0]
  }

  /** Every instance of every unit type is free at cycle 0. */
  function AllFree(cfg: Config): (f: map<string, seq<int>>)
    ensures f.Keys == cfg.units.Keys
  {
    map u | u in cfg.units :: Zeros(Width(cfg.units[u]))
  }

  /** Nothing is pending: no register has a ready-at entry, every unit instance is
      free at cycle 0. */
  function InitialTiming(cfg: Config): Timing
  {
    Timing(map[], AllFree(cfg), 0, 0)
  }

  /** The busy-until lists have exactly the configured unit types and counts. */
  ghost predicate Fits(cfg: Config, t: Timing)
  {
    forall u :: u in cfg.units ==> u in t.freeAt && |t.freeAt[u]| == Width(cfg.units[u])
  }

  /** A register's ready-at cycle; a register never written is ready at cycle 0. */
  function ReadyAtOf(readyAt: map<string, int>, r: string): int
  {
    if r in readyAt then readyAt[r] else 0
  }

  /** The cycle at which every register in `regs` is ready: the largest ready-at
      among them, or 0 when there are none. */
  function DataReady(readyAt: map<string, int>, regs: seq<string>): int
  {
    if regs == [] then 0
    else if |regs| == 1 then ReadyAtOf(readyAt, regs[0])
    else Max(ReadyAtOf(readyAt, regs[0]), DataReady(readyAt, regs[1..]))
  }

  /** `DataReady` is the maximum of the ready-at cycles of `regs`, or 0 when
      `regs` is empty. */
  lemma {:induction false} DataReadyIsMax(readyAt: map<string, int>, regs: seq<string>)
    ensures regs == [] ==> DataReady(readyAt, regs) == 0
    ensures forall i :: 0 <= i < |regs| ==> ReadyAtOf(readyAt, regs[i]) <= DataReady(readyAt, regs)
    ensures regs != [] ==> exists i :: 0 <= i < |regs| && ReadyAtOf(readyAt, regs[i]) == DataReady(readyAt, regs)
  {
    if |regs| == 1 {
      assert ReadyAtOf(readyAt, regs[0]) == DataReady(readyAt, regs);
    } else if |regs| > 1 {
      var rest := regs[1..];
      var d := DataReady(readyAt, rest);
      DataReadyIsMax(readyAt, rest);
      var i :| 0 <= i < |rest| && ReadyAtOf(readyAt, rest[i]) == d;
      forall k | 1 <= k < |regs|
        ensures ReadyAtOf(readyAt, regs[k]) <= d
      {
        assert regs[k] == rest[k - 1];
      }
      if ReadyAtOf(readyAt, regs[0]) < d {
        assert regs[i + 1] == rest[i];
        assert ReadyAtOf(readyAt, regs[i + 1]) == DataReady(readyAt, regs);
      } else {
        assert ReadyAtOf(readyAt, regs[0]) == DataReady(readyAt, regs);
      }
    }
  }

  /** The position of the first smallest element: the instance that frees up
      earliest, ties going to the lowest index. */
  function FirstMinIndex(s: seq<int>): (k: nat)
    requires |s| > 0
    ensures k < |s|
    decreases |s|
  {
    if |s| == 1 then 0
    else
      var k := FirstMinIndex(s[..|s| - 1]);
      if s[|s| - 1] < s[k] then |s| - 1 else k
  }

  /** `FirstMinIndex` picks a smallest element, and every element before it is
      strictly larger. */
  lemma {:induction false} FirstMinIndexIsFirstMin(s: seq<int>)
    requires |s| > 0
    ensures var k := FirstMinIndex(s);
      (forall j :: 0 <= j < |s| ==> s[k] <= s[j]) && (forall j :: 0 <= j < k ==> s[k] < s[j])
    decreases |s|
  {
    if |s| > 1 {
      var init := s[..|s| - 1];
      FirstMinIndexIsFirstMin(init);
      assert forall j :: 0 <= j < |init| ==> init[j] == s[j];
    }
  }

  /** The slot the scheduler gives `ins` in state `t`: the earliest-free instance
      of its unit type, and the first cycle after the previous issue, after that
      instance frees up and after every register it reads is ready. */
  function Issue(cfg: Config, t: Timing, ins: Instruction): (s: Slot)
    requires Schedulable(cfg, ins) && Fits(cfg, t)
    ensures s.unit == cfg.opToUnit[ins.op] && s.unit in t.freeAt && s.index < |t.freeAt[s.unit]|
  {
    var u := cfg.opToUnit[ins.op];
    var k := FirstMinIndex(t.freeAt[u]);
    var start := Max(Max(DataReady(t.readyAt, ReadSet(ins)), t.freeAt[u][k]), t.last) + 1;
    Slot(u, k, start, start + cfg.latency[ins.op] - 1)
  }

  /** What the issued slot satisfies: the instance is the first of the earliest-free
      ones of the instruction's unit type; issue comes strictly after the previous
      issue, after that instance frees up and after every source register is ready,
      and at the first such cycle; completion comes `latency - 1` cycles later. */
  lemma IssueChoice(cfg: Config, t: Timing, ins: Instruction)
    requires Schedulable(cfg, ins) && Fits(cfg, t)
    ensures var s := Issue(cfg, t, ins);
      var free := t.freeAt[s.unit];
      (forall k :: 0 <= k < |free| ==> free[s.index] <= free[k]) &&
      (forall k :: 0 <= k < s.index ==> free[s.index] < free[k]) &&
      s.start > t.last && s.start > free[s.index] &&
      (forall r :: r in ReadSet(ins) ==> s.start > ReadyAtOf(t.readyAt, r)) &&
      (s.start == t.last + 1 || s.start == free[s.index] + 1 ||
       (ReadSet(ins) == [] && s.start == 1) ||
       (exists r :: r in ReadSet(ins) && s.start == ReadyAtOf(t.readyAt, r) + 1)) &&
      s.complete == s.start + cfg.latency[ins.op] - 1
  {
    var s := Issue(cfg, t, ins);
    var d := DataReady(t.readyAt, ReadSet(ins));
    DataReadyIsMax(t.readyAt, ReadSet(ins));
    FirstMinIndexIsFirstMin(t.freeAt[s.unit]);
    if ReadSet(ins) != [] && s.start == d + 1 {
      var i :| 0 <= i < |ReadSet(ins)| && ReadyAtOf(t.readyAt, ReadSet(ins)[i]) == d;
      assert ReadSet(ins)[i] in ReadSet(ins);
    }
  }

  /** The scheduler's state after issuing `ins`: the destination's ready-at becomes
      the completion cycle (never for a store), the chosen instance is busy until
      then, and the running total takes it into account. */
  function Advance(cfg: Config, t: Timing, ins: Instruction): (t': Timing)
    requires Schedulable(cfg, ins) && Fits(cfg, t)
    ensures Fits(cfg, t')
  {
    var s := Issue(cfg, t, ins);
    Timing(
      if Written(ins).Some? then t.readyAt[Written(ins).value := s.complete] else t.readyAt,
      t.freeAt[s.unit := t.freeAt[s.unit][s.index := s.complete]],
      s.start,
      Max(t.total, s.complete))
  }

  /** The scheduler's states over the first `n` instructions of `prog`, in program
      order: element `k` is the state after `k` of them. */
  function Trace(cfg: Config, prog: seq<Instruction>, n: nat): (ts: seq<Timing>)
    requires AllSchedulable(cfg, prog) && n <= |prog|
    ensures |ts| == n + 1 && Fits(cfg, ts[n]) && ts[n].last >= 0 && ts[n].total >= 0
    decreases n, 1
  {
    if n == 0 then [InitialTiming(cfg)] else Trace(cfg, prog, n - 1) + [Issued(cfg, prog, n)]
  }

  /** The state after the `n`-th instruction is issued from the state the ones
      before it left. */
  function Issued(cfg: Config, prog: seq<Instruction>, n: nat): (t: Timing)
    requires AllSchedulable(cfg, prog) && 0 < n <= |prog|
    ensures Fits(cfg, t) && t.last >= 0 && t.total >= 0
    decreases n, 0
  {
    Advance(cfg, Trace(cfg, prog, n - 1)[n - 1], prog[n - 1])
  }

  /** Extending the trace keeps the states already in it. */
  lemma {:induction false} TracePrefix(cfg: Config, prog: seq<Instruction>, k: nat, n: nat)
    requires AllSchedulable(cfg, prog) && k <= n <= |prog|
    ensures StateIn(cfg, prog, n, k) == StateIn(cfg, prog, k, k)
    decreases n
  {
    if k < n {
      TracePrefix(cfg, prog, k, n - 1);
      TraceKeeps(cfg, prog, k, n);
    }
  }

  /** Element `k` of the trace over the first `n` instructions. */
  function StateIn(cfg: Config, prog: seq<Instruction>, n: nat, k: nat): Timing
    requires AllSchedulable(cfg, prog) && k <= n <= |prog|
  {
    Trace(cfg, prog, n)[k]
  }

  /** One more instruction keeps the states already in the trace. */
  lemma TraceKeeps(cfg: Config, prog: seq<Instruction>, k: nat, n: nat)
    requires AllSchedulable(cfg, prog) && k < n <= |prog|
    ensures Trace(cfg, prog, n)[k] == Trace(cfg, prog, n - 1)[k]
  {
  }

  /** The scheduler's state after the first `n` instructions of `prog`. */
  function TimingAt(cfg: Config, prog: seq<Instruction>, n: nat): (t: Timing)
    requires AllSchedulable(cfg, prog) && n <= |prog|
    ensures Fits(cfg, t) && t.last >= 0 && t.total >= 0
  {
    TracePrefix(cfg, prog, n, |prog|);
    Trace(cfg, prog, |prog|)[n]
  }

  /** The scheduler starts from the initial state: no ready-at entries, every
      instance free at cycle 0, no issue and no completion yet. */
  lemma TimingStart(cfg: Config, prog: seq<Instruction>)
    requires AllSchedulable(cfg, prog)
    ensures TimingAt(cfg, prog, 0) == InitialTiming(cfg)
  {
    TracePrefix(cfg, prog, 0, |prog|);
  }

  /** Each instruction advances the state the instructions before it left. */
  lemma TimingStep(cfg: Config, prog: seq<Instruction>, n: nat)
    requires AllSchedulable(cfg, prog) && n < |prog|
    ensures TimingAt(cfg, prog, n + 1) == Advance(cfg, TimingAt(cfg, prog, n), prog[n])
  {
    var ts := Trace(cfg, prog, |prog|);
    assert ts[n] == Trace(cfg, prog, n)[n] by {
      TracePrefix(cfg, prog, n, |prog|);
    }
    assert ts[n + 1] == Issued(cfg, prog, n + 1) by {
      TracePrefix(cfg, prog, n + 1, |prog|);
    }
  }

  /** `ts` is a run of the scheduler over `prog`: it starts with nothing pending and
      each state is the one before it advanced by the next instruction. */
  ghost predicate Follows(cfg: Config, prog: seq<Instruction>, ts: seq<Timing>)
  {
    |ts| == |prog| + 1 && ts[0] == InitialTiming(cfg) &&
    forall k :: 0 <= k < |prog| ==> StepsTo(cfg, ts[k], prog[k], ts[k + 1])
  }

  /** Issuing `ins` from state `t` is possible and leads to state `t'`. */
  ghost predicate StepsTo(cfg: Config, t: Timing, ins: Instruction, t': Timing)
  {
    Schedulable(cfg, ins) && Fits(cfg, t) && Advance(cfg, t, ins) == t'
  }

  /** The scheduler's states are the only run over the program: any sequence of
      states that starts with nothing pending and advances instruction by
      instruction is the sequence of `TimingAt`. */
  lemma FollowsIsTiming(cfg: Config, prog: seq<Instruction>, ts: seq<Timing>)
    requires Follows(cfg, prog, ts)
    ensures AllSchedulable(cfg, prog)
    ensures forall n :: 0 <= n <= |prog| ==> TimingAt(cfg, prog, n) == ts[n]
  {
    forall i | 0 <= i < |prog|
      ensures Schedulable(cfg, prog[i])
    {
      assert StepsTo(cfg, ts[i], prog[i], ts[i + 1]);
    }
    forall n | 0 <= n <= |prog|
      ensures TimingAt(cfg, prog, n) == ts[n]
    {
      FollowsUpTo(cfg, prog, ts, n);
    }
  }

  lemma {:induction false} FollowsUpTo(cfg: Config, prog: seq<Instruction>, ts: seq<Timing>, n: nat)
    requires AllSchedulable(cfg, prog) && Follows(cfg, prog, ts) && n <= |prog|
    ensures TimingAt(cfg, prog, n) == ts[n]
  {
    if n == 0 {
      TimingStart(cfg, prog);
    } else {
      FollowsUpTo(cfg, prog, ts, n - 1);
      TimingStep(cfg, prog, n - 1);
      assert StepsTo(cfg, ts[n - 1], prog[n - 1], ts[n]);
    }
  }

  /** The slot of instruction `j` of `prog`: it is issued from the state left by
      the instructions before it. */
  function SlotOf(cfg: Config, prog: seq<Instruction>, j: nat): (s: Slot)
    requires AllSchedulable(cfg, prog) && j < |prog|
  {
    Issue(cfg, TimingAt(cfg, prog, j), prog[j])
  }

  /** One scheduling step written out field by field, as the scheduler computes it:
      the chosen instance `k`, the issue cycle `start` and the completion cycle `c`. */
  lemma StepFields(cfg: Config, t: Timing, ins: Instruction, k: nat, start: int, c: int)
    requires Schedulable(cfg, ins) && Fits(cfg, t)
    requires k == FirstMinIndex(t.freeAt[cfg.opToUnit[ins.op]])
    requires start == Max(Max(DataReady(t.readyAt, ReadSet(ins)), t.freeAt[cfg.opToUnit[ins.op]][k]), t.last) + 1
    requires c == start + cfg.latency[ins.op] - 1
    ensures Issue(cfg, t, ins) == Slot(cfg.opToUnit[ins.op], k, start, c)
    ensures Advance(cfg, t, ins).readyAt ==
      if Named(ins.rd) && ins.op != "sw" then t.readyAt[ins.rd.value := c] else t.readyAt
    ensures Advance(cfg, t, ins).freeAt ==
      t.freeAt[cfg.opToUnit[ins.op] := t.freeAt[cfg.opToUnit[ins.op]][k := c]]
    ensures Advance(cfg, t, ins).last == start
    ensures Advance(cfg, t, ins).total == Max(t.total, c)
  {
  }

  // ---------------------------------------------------------------------------
  // In-order, single-issue dispatch

  /** Each instruction issues at least one cycle after the one before it, and the
      first issues at cycle 1 or later. */
  lemma IssueAfterPrevious(cfg: Config, prog: seq<Instruction>, j: nat)
    requires AllSchedulable(cfg, prog) && j < |prog|
    ensures j == 0 ==> SlotOf(cfg, prog, j).start >= 1
    ensures j > 0 ==> SlotOf(cfg, prog, j).start >= SlotOf(cfg, prog, j - 1).start + 1
  {
    IssueChoice(cfg, TimingAt(cfg, prog, j), prog[j]);
    if j > 0 {
      TimingStep(cfg, prog, j - 1);
    }
  }

  /** Issue cycles strictly increase in program order, one cycle at least per
      instruction: instruction `j` issues no earlier than cycle `j + 1`. */
  lemma IssueInOrder(cfg: Config, prog: seq<Instruction>, i: nat, j: nat)
    requires AllSchedulable(cfg, prog) && i <= j < |prog|
    ensures SlotOf(cfg, prog, j).start >= SlotOf(cfg, prog, i).start + (j - i)
    ensures SlotOf(cfg, prog, j).start >= j + 1
  {
    var starts := seq(|prog|, k requires 0 <= k < |prog| => SlotOf(cfg, prog, k).start);
    forall k | 0 < k < |starts|
      ensures starts[k] >= starts[k - 1] + 1
    {
      IssueAfterPrevious(cfg, prog, k);
    }
    IssueAfterPrevious(cfg, prog, 0);
    Increasing(starts, i, j);
    Increasing(starts, 0, j);
  }

  /** In a sequence where each element exceeds the one before, elements `j - i`
      apart differ by at least `j - i`. */
  lemma {:induction false} Increasing(xs: seq<int>, i: nat, j: nat)
    requires forall k :: 0 < k < |xs| ==> xs[k] >= xs[k - 1] + 1
    requires i <= j < |xs|
    ensures xs[j] >= xs[i] + (j - i)
    decreases j - i
  {
    if i < j {
      Increasing(xs, i, j - 1);
    }
  }

  // ---------------------------------------------------------------------------
  // Data hazards

  /** Instruction `i` is the last one before position `n` that writes register `r`. */
  ghost predicate LastWriter(prog: seq<Instruction>, i: nat, n: nat, r: string)
  {
    i < n <= |prog| && Written(prog[i]) == Some(r) &&
    forall k :: i < k < n ==> Written(prog[k]) != Some(r)
  }

  /** One step sets the ready-at of the register the instruction writes to its
      completion cycle and leaves every other register's entry alone. */
  lemma AdvanceReadyAt(cfg: Config, t: Timing, ins: Instruction, r: string)
    requires Schedulable(cfg, ins) && Fits(cfg, t)
    ensures var after := Advance(cfg, t, ins).readyAt;
      (Written(ins) == Some(r) ==> r in after && after[r] == Issue(cfg, t, ins).complete) &&
      (Written(ins) != Some(r) ==> (r in after <==> r in t.readyAt) &&
                                   (r in after ==> after[r] == t.readyAt[r]))
  {
  }

  /** Instruction `n`'s step sets the ready-at of the register it writes to its
      completion cycle and leaves every other register's entry alone. */
  lemma ReadyAtStep(cfg: Config, prog: seq<Instruction>, n: nat, r: string)
    requires AllSchedulable(cfg, prog) && n < |prog|
    ensures var before := TimingAt(cfg, prog, n).readyAt;
      var after := TimingAt(cfg, prog, n + 1).readyAt;
      (Written(prog[n]) == Some(r) ==> r in after && after[r] == SlotOf(cfg, prog, n).complete) &&
      (Written(prog[n]) != Some(r) ==> (r in after <==> r in before) &&
                                       (r in after ==> after[r] == before[r]))
  {
    TimingStep(cfg, prog, n);
    AdvanceReadyAt(cfg, TimingAt(cfg, prog, n), prog[n], r);
  }

  /** A register none of the first `n` instructions writes has no ready-at entry. */
  lemma {:induction false} UnwrittenHasNoEntry(cfg: Config, prog: seq<Instruction>, n: nat, r: string)
    requires AllSchedulable(cfg, prog) && n <= |prog|
    requires forall k :: 0 <= k < n ==> Written(prog[k]) != Some(r)
    ensures r !in TimingAt(cfg, prog, n).readyAt
  {
    if n == 0 {
      TimingStart(cfg, prog);
    } else {
      UnwrittenHasNoEntry(cfg, prog, n - 1, r);
      ReadyAtStep(cfg, prog, n - 1, r);
    }
  }

  /** The ready-at entry of a register is the completion cycle of its last writer
      among the first `n` instructions. */
  lemma {:induction false} LastWriterSetsEntry(cfg: Config, prog: seq<Instruction>, i: nat, n: nat, r: string)
    requires AllSchedulable(cfg, prog) && LastWriter(prog, i, n, r)
    ensures r in TimingAt(cfg, prog, n).readyAt
    ensures TimingAt(cfg, prog, n).readyAt[r] == SlotOf(cfg, prog, i).complete
  {
    ReadyAtStep(cfg, prog, n - 1, r);
    if i < n - 1 {
      LastWriterSetsEntry(cfg, prog, i, n - 1, r);
    }
  }

  /** The scoreboard holds, for each register, the completion cycle of its last
      writer among the first `n` instructions; a register none of them wrote has
      no entry. */
  lemma ReadyAtIsLastWrite(cfg: Config, prog: seq<Instruction>, n: nat, r: string)
    requires AllSchedulable(cfg, prog) && n <= |prog|
    ensures (forall k :: 0 <= k < n ==> Written(prog[k]) != Some(r)) ==>
      r !in TimingAt(cfg, prog, n).readyAt
    ensures forall i: nat :: LastWriter(prog, i, n, r) ==>
      r in TimingAt(cfg, prog, n).readyAt &&
      TimingAt(cfg, prog, n).readyAt[r] == SlotOf(cfg, prog, i).complete
  {
    if forall k :: 0 <= k < n ==> Written(prog[k]) != Some(r) {
      UnwrittenHasNoEntry(cfg, prog, n, r);
    }
    forall i: nat | LastWriter(prog, i, n, r)
      ensures r in TimingAt(cfg, prog, n).readyAt &&
        TimingAt(cfg, prog, n).readyAt[r] == SlotOf(cfg, prog, i).complete
    {
      LastWriterSetsEntry(cfg, prog, i, n, r);
    }
  }

  /** Data-hazard safety: an instruction issues strictly after the completion cycle
      of the last earlier writer of every register it reads. */
  lemma DataHazardSafe(cfg: Config, prog: seq<Instruction>, i: nat, j: nat, r: string)
    requires AllSchedulable(cfg, prog) && j < |prog|
    requires r in ReadSet(prog[j]) && LastWriter(prog, i, j, r)
    ensures SlotOf(cfg, prog, j).start > SlotOf(cfg, prog, i).complete
  {
    IssueChoice(cfg, TimingAt(cfg, prog, j), prog[j]);
    ReadyAtIsLastWrite(cfg, prog, j, r);
  }

  /** A register that no earlier instruction writes holds nothing back: its
      ready-at is 0 when instruction `j` is issued. */
  lemma UnwrittenReadIsReady(cfg: Config, prog: seq<Instruction>, j: nat, r: string)
    requires AllSchedulable(cfg, prog) && j < |prog|
    requires forall k :: 0 <= k < j ==> Written(prog[k]) != Some(r)
    ensures ReadyAtOf(TimingAt(cfg, prog, j).readyAt, r) == 0
  {
    ReadyAtIsLastWrite(cfg, prog, j, r);
  }

  // ---------------------------------------------------------------------------
  // Functional units

  /** The unit instance chosen for instruction `j` is the first of its type with the
      smallest busy-until; it issues after that instance frees up; afterwards only
      that entry changes, to the completion cycle, which with positive latencies is
      no earlier than before. */
  lemma UnitChoice(cfg: Config, prog: seq<Instruction>, j: nat)
    requires AllSchedulable(cfg, prog) && j < |prog|
    ensures var s := SlotOf(cfg, prog, j);
      var before := TimingAt(cfg, prog, j).freeAt;
      var after := TimingAt(cfg, prog, j + 1).freeAt;
      s.unit == cfg.opToUnit[prog[j].op] && s.unit in before &&
      s.index < |before[s.unit]| &&
      (forall k :: 0 <= k < |before[s.unit]| ==> before[s.unit][s.index] <= before[s.unit][k]) &&
      (forall k :: 0 <= k < s.index ==> before[s.unit][s.index] < before[s.unit][k]) &&
      s.start > before[s.unit][s.index] &&
      after.Keys == before.Keys &&
      (forall u :: u in before && u != s.unit ==> after[u] == before[u]) &&
      |after[s.unit]| == |before[s.unit]| &&
      after[s.unit][s.index] == s.complete &&
      (forall k :: 0 <= k < |before[s.unit]| && k != s.index ==> after[s.unit][k] == before[s.unit][k]) &&
      (PositiveLatencies(cfg) ==> after[s.unit][s.index] >= before[s.unit][s.index])
  {
    IssueChoice(cfg, TimingAt(cfg, prog, j), prog[j]);
    TimingStep(cfg, prog, j);
  }

  /** Busy-until values never decrease over the run (latencies at least 1). */
  lemma {:induction false} BusyUntilMonotone(cfg: Config, prog: seq<Instruction>, i: nat, j: nat, u: string, k: nat)
    requires AllSchedulable(cfg, prog) && PositiveLatencies(cfg)
    requires i <= j <= |prog| && u in cfg.units && k < Width(cfg.units[u])
    ensures TimingAt(cfg, prog, i).freeAt[u][k] <= TimingAt(cfg, prog, j).freeAt[u][k]
    decreases j
  {
    if i < j {
      BusyUntilMonotone(cfg, prog, i, j - 1, u, k);
      BusyUntilStep(cfg, prog, j - 1, u, k);
    }
  }

  /** One instruction's step does not lower any busy-until value. */
  lemma BusyUntilStep(cfg: Config, prog: seq<Instruction>, n: nat, u: string, k: nat)
    requires AllSchedulable(cfg, prog) && PositiveLatencies(cfg)
    requires n < |prog| && u in cfg.units && k < Width(cfg.units[u])
    ensures TimingAt(cfg, prog, n).freeAt[u][k] <= TimingAt(cfg, prog, n + 1).freeAt[u][k]
  {
    TimingStep(cfg, prog, n);
    AdvanceFreeAt(cfg, TimingAt(cfg, prog, n), prog[n], u, k);
  }

  /** One step changes only the busy-until of the chosen instance, to the
      completion cycle; with positive latencies no entry decreases. */
  lemma AdvanceFreeAt(cfg: Config, t: Timing, ins: Instruction, u: string, k: nat)
    requires Schedulable(cfg, ins) && Fits(cfg, t) && u in cfg.units && k < Width(cfg.units[u])
    ensures var s := Issue(cfg, t, ins);
      var after := Advance(cfg, t, ins).freeAt;
      after[u][k] == (if u == s.unit && k == s.index then s.complete else t.freeAt[u][k]) &&
      (PositiveLatencies(cfg) ==> after[u][k] >= t.freeAt[u][k])
  {
  }

  /** Two instructions given the same unit instance never overlap: the later one
      issues after the earlier one completes. */
  lemma SameInstanceDisjoint(cfg: Config, prog: seq<Instruction>, i: nat, j: nat)
    requires AllSchedulable(cfg, prog) && PositiveLatencies(cfg) && i < j < |prog|
    requires SlotOf(cfg, prog, i).unit == SlotOf(cfg, prog, j).unit
    requires SlotOf(cfg, prog, i).index == SlotOf(cfg, prog, j).index
    ensures SlotOf(cfg, prog, j).start > SlotOf(cfg, prog, i).complete
  {
    var s := SlotOf(cfg, prog, i);
    UnitChoice(cfg, prog, i);
    UnitChoice(cfg, prog, j);
    BusyUntilMonotone(cfg, prog, i + 1, j, s.unit, s.index);
  }

  /** The instructions of unit type `u` whose [issue, completion] range contains
      cycle `c`. */
  ghost function BusyAt(cfg: Config, prog: seq<Instruction>, u: string, c: int): set<nat>
    requires AllSchedulable(cfg, prog)
  {
    set j: nat | j < |prog| && SlotOf(cfg, prog, j).unit == u &&
      SlotOf(cfg, prog, j).start <= c <= SlotOf(cfg, prog, j).complete
  }

  /** Resource safety: at any cycle, at most as many instructions occupy a unit type
      as it has instances. */
  lemma ResourceBound(cfg: Config, prog: seq<Instruction>, u: string, c: int)
    requires AllSchedulable(cfg, prog) && PositiveLatencies(cfg) && u in cfg.units
    ensures |BusyAt(cfg, prog, u, c)| <= Width(cfg.units[u])
  {
    var busy := BusyAt(cfg, prog, u, c);
    var index := seq(|prog|, j requires 0 <= j < |prog| => SlotOf(cfg, prog, j).index);
    forall j | j in busy
      ensures index[j] < Width(cfg.units[u])
    {
      UnitChoice(cfg, prog, j);
    }
    forall i, j | i in busy && j in busy && i != j
      ensures index[i] != index[j]
    {
      if index[i] == index[j] {
        if i < j {
          SameInstanceDisjoint(cfg, prog, i, j);
        } else {
          SameInstanceDisjoint(cfg, prog, j, i);
        }
      }
    }
    DistinctIndicesBound(index, busy, Width(cfg.units[u]));
  }

  /** Positions holding pairwise distinct values below `n` are at most `n` in
      number. */
  lemma {:induction false} DistinctIndicesBound(index: seq<nat>, js: set<nat>, n: nat)
    requires forall j :: j in js ==> j < |index| && index[j] < n
    requires forall i, j :: i in js && j in js && i != j ==> index[i] != index[j]
    ensures |js| <= n
    decreases n
  {
    if n > 0 {
      var top := set j | j in js && index[j] == n - 1;
      var rest := js - top;
      DistinctIndicesBound(index, rest, n - 1);
      if top != {} {
        var j :| j in top;
        assert top == {j};
      }
    }
  }

  // ---------------------------------------------------------------------------
  // Completion cycles and the total

  /** An instruction completes `latency - 1` cycles after it issues, so with
      positive latencies never before it issues. */
  lemma CompletionCycle(cfg: Config, prog: seq<Instruction>, j: nat)
    requires AllSchedulable(cfg, prog) && j < |prog|
    ensures SlotOf(cfg, prog, j).complete == SlotOf(cfg, prog, j).start + cfg.latency[prog[j].op] - 1
    ensures PositiveLatencies(cfg) ==> SlotOf(cfg, prog, j).complete >= SlotOf(cfg, prog, j).start
  {
    IssueChoice(cfg, TimingAt(cfg, prog, j), prog[j]);
  }

  /** One instruction's step raises the running total to its completion cycle if
      that is larger. */
  lemma TotalStep(cfg: Config, prog: seq<Instruction>, n: nat)
    requires AllSchedulable(cfg, prog) && n < |prog|
    ensures TimingAt(cfg, prog, n + 1).total == Max(TimingAt(cfg, prog, n).total, SlotOf(cfg, prog, n).complete)
  {
    TimingStep(cfg, prog, n);
  }

  /** The running total after `n` instructions is at least each of their
      completion cycles. */
  lemma {:induction false} TotalCoversCompletions(cfg: Config, prog: seq<Instruction>, n: nat)
    requires AllSchedulable(cfg, prog) && n <= |prog|
    ensures forall j :: 0 <= j < n ==> SlotOf(cfg, prog, j).complete <= TimingAt(cfg, prog, n).total
  {
    if n > 0 {
      TotalCoversCompletions(cfg, prog, n - 1);
      TotalStep(cfg, prog, n - 1);
    }
  }

  /** The running total after `n` instructions is 0 or one of their completion
      cycles; it is 0 before any instruction. */
  lemma {:induction false} TotalIsSomeCompletion(cfg: Config, prog: seq<Instruction>, n: nat)
    requires AllSchedulable(cfg, prog) && n <= |prog|
    ensures TimingAt(cfg, prog, n).total == 0 ||
      exists j :: 0 <= j < n && SlotOf(cfg, prog, j).complete == TimingAt(cfg, prog, n).total
    ensures n == 0 ==> TimingAt(cfg, prog, n).total == 0
  {
    if n == 0 {
      TimingStart(cfg, prog);
    } else {
      TotalIsSomeCompletion(cfg, prog, n - 1);
      TotalStep(cfg, prog, n - 1);
    }
  }

  /** The running total after `n` instructions is the largest of their completion
      cycles, or 0 when `n` is 0; with positive latencies every completion is at
      cycle 1 or later, so the total of a non-empty prefix is positive. */
  lemma TotalIsMaxCompletion(cfg: Config, prog: seq<Instruction>, n: nat)
    requires AllSchedulable(cfg, prog) && n <= |prog|
    ensures forall j :: 0 <= j < n ==> SlotOf(cfg, prog, j).complete <= TimingAt(cfg, prog, n).total
    ensures TimingAt(cfg, prog, n).total == 0 ||
      exists j :: 0 <= j < n && SlotOf(cfg, prog, j).complete == TimingAt(cfg, prog, n).total
    ensures n == 0 ==> TimingAt(cfg, prog, n).total == 0
    ensures n > 0 && PositiveLatencies(cfg) ==> TimingAt(cfg, prog, n).total > 0
  {
    TotalCoversCompletions(cfg, prog, n);
    TotalIsSomeCompletion(cfg, prog, n);
    if n > 0 && PositiveLatencies(cfg) {
      IssueInOrder(cfg, prog, n - 1, n - 1);
      CompletionCycle(cfg, prog, n - 1);
    }
  }
}
