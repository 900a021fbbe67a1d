/**
 * The pipeline hazard engine of the simulator's main loop (src/main.cpp): every cycle
 * the per-register counters are decremented, the next instruction is either held back
 * by a soft NOP (a stall) or issued, branches are followed by bubbles according to the
 * prediction policy, and an issued instruction that writes a register marks it busy.
 *
 * The instruction semantics (`execute`) and the timing profile of an instruction
 * (`calcRSNeeded`, `calcRTNeeded`, `calcResultDone`, `getRegWritten`) are parameters.
 */
module Hazards {
  import opened Ints
  import opened Simulator

  // ---------------------------------------------------------------------------
  // Pipeline phases and configuration
  // ---------------------------------------------------------------------------

  /** `pipPhase`: a pipeline stage number, from "not needed" (0) to write-back (5). */
  type Phase = p: int | 0 <= p <= 5

  const PhaseNone: Phase := 0
  const PhaseFetch: Phase := 1
  const PhaseDecode: Phase := 2
  const PhaseExecute: Phase := 3
  const PhaseMemory: Phase := 4
  const PhaseWriteback: Phase := 5

  /** The number of registers, and so the length of each counter array. */
  const RegisterCount: nat := 32

  /** `forwardingType`. */
  datatype Forwarding = NoForwarding | AluForwarding | FullForwarding

  /** `branchPredType`. */
  datatype BranchPrediction = NoPrediction | Perfect | PredictTaken | PredictNotTaken

  /** The command-line options the engine reads. */
  datatype Config = Config(
    forwarding: Forwarding,
    prediction: BranchPrediction,
    branchInDec: bool,
    useRegularNops: bool,
    instrLimit: Uint32)

  /** `regType`: which register field an instruction writes, if any. */
  datatype RegWritten = NoRegister | WritesRS | WritesRT | WritesRD

  /** The timing profile of one instruction. */
  datatype Profile = Profile(rSNeeded: Phase, rTNeeded: Phase, resultDone: Phase, written: RegWritten)

  /** The register an issued instruction writes, or -1 when it writes none. */
  function WrittenIndex(instr: Instruction, prof: Profile): int
  {
    match prof.written
    case WritesRS => instr.rS
    case WritesRT => instr.rT
    case WritesRD => instr.rD
    case NoRegister => -1
  }

  /**
   * The registers the engine indexes its counters with are in range: an operand that is
   * looked at (its phase and number are positive) and, for an instruction other than a
   * branch, the register written (a branch never marks a result register).
   */
  predicate Indexable(instr: Instruction, prof: Profile)
  {
    && (prof.rSNeeded > 0 && instr.rS > 0 ==> instr.rS < RegisterCount)
    && (prof.rTNeeded > 0 && instr.rT > 0 ==> instr.rT < RegisterCount)
    && (!IsBranch(instr) ==> WrittenIndex(instr, prof) < RegisterCount)
  }

  predicate ProgramIndexable(code: seq<Instruction>, profile: Instruction -> Profile)
  {
    forall i :: 0 <= i < |code| ==> Indexable(code[i], profile(code[i]))
  }

  // ---------------------------------------------------------------------------
  // The engine's state as a value, and one cycle of it
  // ---------------------------------------------------------------------------

  /** `regBusy`, `regDirty`, `lastSNOP` and `executedCode`. */
  datatype HazardState = HazardState(
    regBusy: seq<Phase>,
    regDirty: seq<Phase>,
    lastSNOP: bool,
    executedCode: seq<Instruction>)

  predicate WellFormed(s: HazardState)
  {
    |s.regBusy| == RegisterCount && |s.regDirty| == RegisterCount
  }

  function Zeroes(): (c: seq<Phase>)
    ensures |c| == RegisterCount
    ensures forall i :: 0 <= i < RegisterCount ==> c[i] == 0
  {
    seq(RegisterCount, _ => 0)
  }

  /** The state before the first cycle: all counters zero, nothing executed. */
  const Initial: HazardState := HazardState(Zeroes(), Zeroes(), false, [])

  /** Each counter that is positive goes down by one; a zero counter stays zero. */
  function Decremented(c: seq<Phase>): (r: seq<Phase>)
    ensures |r| == |c|
  {
    seq(|c|, i requires 0 <= i < |c| => if c[i] > 0 then c[i] - 1 else 0)
  }

  /** The counters after `n` cycles without new writes. */
  function Ticks(c: seq<Phase>, n: nat): (r: seq<Phase>)
    ensures |r| == |c|
  {
    if n == 0 then c else Decremented(Ticks(c, n - 1))
  }

  /** After `n` cycles a counter has gone down by `n`, and stops at zero. */
  lemma {:induction false} TicksValue(c: seq<Phase>, n: nat, i: nat)
    requires i < |c|
    ensures Ticks(c, n)[i] == if c[i] > n then c[i] - n else 0
  {
    if n > 0 {
      TicksValue(c, n - 1, i);
    }
  }

  /** The first thing every cycle does, stalled or not. */
  function Ticked(s: HazardState): HazardState
  {
    s.(regBusy := Decremented(s.regBusy), regDirty := Decremented(s.regDirty))
  }

  /** Whether operand register `r`, needed by stage `needed`, holds the instruction back. */
  predicate OperandStalls(fwd: Forwarding, s: HazardState, needed: Phase, r: Int8)
    requires WellFormed(s) && (needed > 0 && r > 0 ==> r < RegisterCount)
  {
    if needed > 0 && r > 0 then
      match fwd
      case FullForwarding => s.regBusy[r] >= needed
      case AluForwarding => s.regBusy[r] > 2 || (s.lastSNOP && s.regDirty[r] > 0)
      case NoForwarding => s.regDirty[r] > 0
    else false
  }

  /**
   * `addNOP`: the stall test on both operands. A stall needs an operand register above
   * zero, needed at a stage above zero, whose counters are not both zero.
   */
  predicate NeedsStall(fwd: Forwarding, s: HazardState, instr: Instruction, prof: Profile)
    requires WellFormed(s) && Indexable(instr, prof)
    ensures NeedsStall(fwd, s, instr, prof) ==>
      || (prof.rSNeeded > 0 && instr.rS > 0 && (s.regBusy[instr.rS] > 0 || s.regDirty[instr.rS] > 0))
      || (prof.rTNeeded > 0 && instr.rT > 0 && (s.regBusy[instr.rT] > 0 || s.regDirty[instr.rT] > 0))
  {
    OperandStalls(fwd, s, prof.rSNeeded, instr.rS) || OperandStalls(fwd, s, prof.rTNeeded, instr.rT)
  }

  /** The `nop` entry: named "NOP", a regular NOP or a soft NOP as configured, all other fields zero. */
  function NopEntry(cfg: Config): (nop: Instruction)
    ensures nop.displayName == "NOP" && nop.op == NotRelevant
    ensures nop.kind == (if cfg.useRegularNops then Nop else SNop)
  {
    Instruction("", "NOP", if cfg.useRegularNops then Nop else SNop, NotRelevant, 0, 0, 0, SizeFlag(Word), 0, "")
  }

  /** Whether the prediction policy pays for a branch with bubbles, given whether it was taken. */
  predicate Mispredicted(prediction: BranchPrediction, taken: bool)
  {
    match prediction
    case NoPrediction => true
    case PredictTaken => !taken
    case PredictNotTaken => taken
    case Perfect => false
  }

  /** The bubbles appended after a branch: one or two NOPs when the policy mispredicts, none otherwise. */
  function Bubbles(cfg: Config, taken: bool): (b: seq<Instruction>)
    ensures |b| == if !Mispredicted(cfg.prediction, taken) then 0 else if cfg.branchInDec then 1 else 2
    ensures forall i :: 0 <= i < |b| ==> b[i] == NopEntry(cfg)
  {
    if !Mispredicted(cfg.prediction, taken) then []
    else if cfg.branchInDec then [NopEntry(cfg)]
    else [NopEntry(cfg), NopEntry(cfg)]
  }

  predicate IsBranch(instr: Instruction)
  {
    instr.kind == Bra1 || instr.kind == Bra2
  }

  /** A stalled cycle: one NOP is executed instead of the instruction. */
  function Stalled(cfg: Config, s: HazardState): HazardState
  {
    s.(executedCode := s.executedCode + [NopEntry(cfg)], lastSNOP := true)
  }

  /** An issued instruction: appended, then followed by bubbles (a branch) or marking its result register. */
  function Issued(cfg: Config, s: HazardState, instr: Instruction, prof: Profile, taken: bool): (r: HazardState)
    requires WellFormed(s) && Indexable(instr, prof)
    ensures WellFormed(r)
  {
    var issued := s.(lastSNOP := false, executedCode := s.executedCode + [instr]);
    if IsBranch(instr) then issued.(executedCode := issued.executedCode + Bubbles(cfg, taken))
    else
      var w := WrittenIndex(instr, prof);
      if w < 0 then issued
      else issued.(regBusy := s.regBusy[w := prof.resultDone], regDirty := s.regDirty[w := PhaseWriteback - 2])
  }

  /** What one cycle yields: the new engine state, the program counter before the loop's increment, the machine state. */
  datatype StepOut<S> = StepOut(state: HazardState, pc: Uint32, machine: S)

  /**
   * One cycle at program counter `pc`. A stall sets the program counter back by one
   * (so that the loop's increment retries it); an issue runs `exec`, which returns the
   * new machine state and the program counter it leaves behind.
   */
  function Cycle<S>(cfg: Config, s: HazardState, instr: Instruction, prof: Profile, pc: Uint32, st: S,
                    exec: (Instruction, S, Uint32) -> (S, Uint32)): (r: StepOut<S>)
    requires WellFormed(s) && Indexable(instr, prof)
    ensures WellFormed(r.state)
    ensures |s.executedCode| < |r.state.executedCode| <= |s.executedCode| + 3
  {
    var t := Ticked(s);
    if NeedsStall(cfg.forwarding, t, instr, prof) then StepOut(Stalled(cfg, t), Wrap32(pc as int - 1), st)
    else
      var (st', pc') := exec(instr, st, pc);
      StepOut(Issued(cfg, t, instr, prof, pc' != pc), pc', st')
  }

  /** A cycle only appends to the trace: one to three entries. */
  lemma CycleExtendsTrace<S>(cfg: Config, s: HazardState, instr: Instruction, prof: Profile, pc: Uint32, st: S,
                             exec: (Instruction, S, Uint32) -> (S, Uint32))
    requires WellFormed(s) && Indexable(instr, prof)
    ensures var t := Cycle(cfg, s, instr, prof, pc, st, exec).state.executedCode;
            s.executedCode < t && |t| <= |s.executedCode| + 3
  {
  }

  /** How a run ends: the executed trace, or an abort because the instruction limit was exceeded. */
  datatype Outcome = Completed(executedCode: seq<Instruction>) | LimitReached

  /**
   * The execution loop from state `s` at program counter `pc`: it ends when the program
   * counter leaves the code, and aborts when, at the start of a cycle, more instructions
   * than the limit have been executed.
   */
  function Simulate<S>(cfg: Config, code: seq<Instruction>, profile: Instruction -> Profile,
                       exec: (Instruction, S, Uint32) -> (S, Uint32), s: HazardState, pc: Uint32, st: S): Outcome
    requires WellFormed(s) && ProgramIndexable(code, profile)
    decreases CyclesLeft(cfg, s), 1
  {
    if pc >= |code| then Completed(s.executedCode)
    else if |s.executedCode| > cfg.instrLimit then LimitReached
    else Continue(cfg, code, profile, exec, s, Cycle(cfg, s, code[pc], profile(code[pc]), pc, st, exec))
  }

  /** After a cycle `out` that started from `s`: the loop's increment `pc++`, then the next iteration. */
  function Continue<S>(cfg: Config, code: seq<Instruction>, profile: Instruction -> Profile,
                       exec: (Instruction, S, Uint32) -> (S, Uint32), s: HazardState, out: StepOut<S>): Outcome
    requires WellFormed(out.state) && ProgramIndexable(code, profile)
    requires |s.executedCode| < |out.state.executedCode| && |s.executedCode| <= cfg.instrLimit
    decreases CyclesLeft(cfg, s), 0
  {
    Simulate(cfg, code, profile, exec, out.state, Wrap32(out.pc as int + 1), out.machine)
  }

  /** A bound on the cycles left before the limit test aborts the run. */
  function CyclesLeft(cfg: Config, s: HazardState): nat
  {
    if |s.executedCode| > cfg.instrLimit then 0 else cfg.instrLimit + 1 - |s.executedCode|
  }

  /** One iteration of the execution loop, stated on the cycle's result. */
  lemma SimulateAdvance<S>(cfg: Config, code: seq<Instruction>, profile: Instruction -> Profile,
                           exec: (Instruction, S, Uint32) -> (S, Uint32), s: HazardState, pc: Uint32, st: S,
                           s': HazardState, pc': Uint32, st': S)
    requires WellFormed(s) && ProgramIndexable(code, profile)
    requires pc < |code| && |s.executedCode| <= cfg.instrLimit
    requires StepOut(s', pc', st') == Cycle(cfg, s, code[pc], profile(code[pc]), pc, st, exec)
    ensures WellFormed(s')
    ensures Simulate(cfg, code, profile, exec, s, pc, st) == Simulate(cfg, code, profile, exec, s', Wrap32(pc' as int + 1), st')
  {
    var out := Cycle(cfg, s, code[pc], profile(code[pc]), pc, st, exec);
    assert out.state == s' && out.pc == pc' && out.machine == st';
    assert Wrap32(out.pc as int + 1) == Wrap32(pc' as int + 1);
    SimulateStep(cfg, code, profile, exec, s, pc, st);
  }

  /** One iteration of the execution loop, when neither exit is taken. */
  lemma SimulateStep<S>(cfg: Config, code: seq<Instruction>, profile: Instruction -> Profile,
                        exec: (Instruction, S, Uint32) -> (S, Uint32), s: HazardState, pc: Uint32, st: S)
    requires WellFormed(s) && ProgramIndexable(code, profile)
    requires pc < |code| && |s.executedCode| <= cfg.instrLimit
    ensures var out := Cycle(cfg, s, code[pc], profile(code[pc]), pc, st, exec);
            Simulate(cfg, code, profile, exec, s, pc, st)
              == Simulate(cfg, code, profile, exec, out.state, Wrap32(out.pc as int + 1), out.machine)
  {
    var out := Cycle(cfg, s, code[pc], profile(code[pc]), pc, st, exec);
    SimulateContinues(cfg, code, profile, exec, s, pc, st);
    ContinueUnfolds(cfg, code, profile, exec, s, out);
  }

  /** Neither exit is taken: a cycle runs. */
  lemma SimulateContinues<S>(cfg: Config, code: seq<Instruction>, profile: Instruction -> Profile,
                             exec: (Instruction, S, Uint32) -> (S, Uint32), s: HazardState, pc: Uint32, st: S)
    requires WellFormed(s) && ProgramIndexable(code, profile)
    requires pc < |code| && |s.executedCode| <= cfg.instrLimit
    ensures Simulate(cfg, code, profile, exec, s, pc, st)
              == Continue(cfg, code, profile, exec, s, Cycle(cfg, s, code[pc], profile(code[pc]), pc, st, exec))
  {
  }

  /** After the cycle the loop goes on from its result. */
  lemma ContinueUnfolds<S>(cfg: Config, code: seq<Instruction>, profile: Instruction -> Profile,
                           exec: (Instruction, S, Uint32) -> (S, Uint32), s: HazardState, out: StepOut<S>)
    requires WellFormed(out.state) && ProgramIndexable(code, profile)
    requires |s.executedCode| < |out.state.executedCode| && |s.executedCode| <= cfg.instrLimit
    ensures Continue(cfg, code, profile, exec, s, out)
              == Simulate(cfg, code, profile, exec, out.state, Wrap32(out.pc as int + 1), out.machine)
  {
  }

  // ---------------------------------------------------------------------------
  // Properties of a cycle and of a run
  // ---------------------------------------------------------------------------

  /**
   * A stalled cycle appends exactly one NOP, sets the soft-NOP flag, sets no counter
   * (they are only decremented), leaves the machine alone, and after the loop's
   * increment the same program counter is tried again.
   */
  lemma StallRetries<S>(cfg: Config, s: HazardState, instr: Instruction, prof: Profile, pc: Uint32, st: S,
                        exec: (Instruction, S, Uint32) -> (S, Uint32))
    requires WellFormed(s) && Indexable(instr, prof)
    requires NeedsStall(cfg.forwarding, Ticked(s), instr, prof)
    ensures var out := Cycle(cfg, s, instr, prof, pc, st, exec);
            && Wrap32(out.pc as int + 1) == pc
            && out.machine == st
            && out.state.executedCode == s.executedCode + [NopEntry(cfg)]
            && out.state.lastSNOP
            && out.state.regBusy == Decremented(s.regBusy)
            && out.state.regDirty == Decremented(s.regDirty)
  {
    if pc == 0 {
      assert Wrap32(pc as int - 1) == U32 - 1;
    } else {
      assert Wrap32(pc as int - 1) == pc - 1;
    }
  }

  /**
   * An issued instruction is appended and clears the soft-NOP flag. A branch (and only a
   * branch, not a jump) is followed by its bubbles and sets no counter; any other
   * instruction that writes a register sets that register's busy counter to its result
   * stage and its dirty counter to WRITEBACK - 2, and no other counter.
   */
  lemma IssueEffects<S>(cfg: Config, s: HazardState, instr: Instruction, prof: Profile, pc: Uint32, st: S,
                        exec: (Instruction, S, Uint32) -> (S, Uint32))
    requires WellFormed(s) && Indexable(instr, prof)
    requires !NeedsStall(cfg.forwarding, Ticked(s), instr, prof)
    ensures var out := Cycle(cfg, s, instr, prof, pc, st, exec);
            var taken := exec(instr, st, pc).1 != pc;
            var w := WrittenIndex(instr, prof);
            && (out.machine, out.pc) == exec(instr, st, pc)
            && !out.state.lastSNOP
            && out.state.executedCode == s.executedCode + [instr] + (if IsBranch(instr) then Bubbles(cfg, taken) else [])
            && (forall i :: 0 <= i < RegisterCount && (IsBranch(instr) || i != w) ==>
                  out.state.regBusy[i] == Decremented(s.regBusy)[i] && out.state.regDirty[i] == Decremented(s.regDirty)[i])
            && (!IsBranch(instr) && w >= 0 ==>
                  out.state.regBusy[w] == prof.resultDone && out.state.regDirty[w] == PhaseWriteback - 2)
  {
    if IsBranch(instr) {
      assert Cycle(cfg, s, instr, prof, pc, st, exec).state.executedCode
        == s.executedCode + [instr] + Bubbles(cfg, exec(instr, st, pc).1 != pc);
    }
  }

  /** The counters `n` cycles after `s`, with no new write in between. */
  function Later(s: HazardState, n: nat): HazardState
  {
    s.(regBusy := Ticks(s.regBusy, n), regDirty := Ticks(s.regDirty, n))
  }

  /**
   * Without forwarding, an instruction that reads register `w` is held back for as long
   * as `w` waits for write-back: it stalls `n` cycles after the writer issued exactly
   * when `n < WRITEBACK - 2`.
   */
  lemma NoForwardingWaitsForWriteBack(cfg: Config, s: HazardState, instr: Instruction, prof: Profile,
                                      taken: bool, needed: Phase, n: nat)
    requires WellFormed(s) && Indexable(instr, prof)
    requires !IsBranch(instr) && WrittenIndex(instr, prof) > 0 && needed > 0
    ensures var w := WrittenIndex(instr, prof);
            var later := Later(Issued(cfg, s, instr, prof, taken), n);
            OperandStalls(NoForwarding, later, needed, w as Int8) <==> n < PhaseWriteback - 2
  {
    var w := WrittenIndex(instr, prof);
    TicksValue(Issued(cfg, s, instr, prof, taken).regDirty, n, w);
  }

  /**
   * With full forwarding, a reader of `w` that needs it by stage `needed` stalls `n`
   * cycles after the writer issued exactly when the result is not ready in time:
   * `n + needed <= resultDone`.
   */
  lemma FullForwardingWaitsForResult(cfg: Config, s: HazardState, instr: Instruction, prof: Profile,
                                     taken: bool, needed: Phase, n: nat)
    requires WellFormed(s) && Indexable(instr, prof)
    requires !IsBranch(instr) && WrittenIndex(instr, prof) > 0 && needed > 0
    ensures var w := WrittenIndex(instr, prof);
            var later := Later(Issued(cfg, s, instr, prof, taken), n);
            OperandStalls(FullForwarding, later, needed, w as Int8) <==> n + needed <= prof.resultDone
  {
    var w := WrittenIndex(instr, prof);
    TicksValue(Issued(cfg, s, instr, prof, taken).regBusy, n, w);
  }

  /**
   * With ALU-to-ALU forwarding only, a reader of `w` stalls `n` cycles after the writer
   * issued when the result is more than two stages away, or when the previous cycle was
   * a soft NOP and `w` still waits for write-back.
   */
  lemma AluForwardingStall(cfg: Config, s: HazardState, instr: Instruction, prof: Profile,
                           taken: bool, needed: Phase, n: nat, lastSNOP: bool)
    requires WellFormed(s) && Indexable(instr, prof)
    requires !IsBranch(instr) && WrittenIndex(instr, prof) > 0 && needed > 0
    ensures var w := WrittenIndex(instr, prof);
            var later := Later(Issued(cfg, s, instr, prof, taken), n).(lastSNOP := lastSNOP);
            var stalls := OperandStalls(AluForwarding, later, needed, w as Int8);
            stalls <==> n + 2 < prof.resultDone || (lastSNOP && n < PhaseWriteback - 2)
  {
    var w := WrittenIndex(instr, prof);
    var issued := Issued(cfg, s, instr, prof, taken);
    TicksValue(issued.regBusy, n, w);
    TicksValue(issued.regDirty, n, w);
  }

  /**
   * A run that completes extends the trace it started from, and ends with at most three
   * entries past the limit: the limit is only tested at the start of a cycle, and one
   * cycle appends at most an instruction and two bubbles.
   */
  lemma {:induction false} CompletedWithinLimit<S>(cfg: Config, code: seq<Instruction>, profile: Instruction -> Profile,
                                                   exec: (Instruction, S, Uint32) -> (S, Uint32),
                                                   s: HazardState, pc: Uint32, st: S)
    requires WellFormed(s) && ProgramIndexable(code, profile)
    requires |s.executedCode| <= cfg.instrLimit + 3
    ensures Simulate(cfg, code, profile, exec, s, pc, st).Completed? ==>
              var t := Simulate(cfg, code, profile, exec, s, pc, st).executedCode;
              s.executedCode <= t && |t| <= cfg.instrLimit + 3
    decreases cfg.instrLimit + 1 - |s.executedCode|
  {
    if pc < |code| && |s.executedCode| <= cfg.instrLimit {
      var out := Cycle(cfg, s, code[pc], profile(code[pc]), pc, st, exec);
      var next := Wrap32(out.pc as int + 1);
      SimulateStep(cfg, code, profile, exec, s, pc, st);
      CompletedWithinLimit(cfg, code, profile, exec, out.state, next, out.machine);
      var r := Simulate(cfg, code, profile, exec, out.state, next, out.machine);
      assert Simulate(cfg, code, profile, exec, s, pc, st) == r;
      if r.Completed? {
        CycleExtendsTrace(cfg, s, code[pc], profile(code[pc]), pc, st, exec);
        assert s.executedCode <= out.state.executedCode <= r.executedCode;
      }
    }
  }

  /**
   * With limit 0 only the first cycle runs: afterwards the trace is not empty, so the
   * run either leaves the code or is aborted.
   */
  lemma LimitZeroStopsAfterFirstCycle<S>(cfg: Config, code: seq<Instruction>, profile: Instruction -> Profile,
                                         exec: (Instruction, S, Uint32) -> (S, Uint32), st0: S)
    requires ProgramIndexable(code, profile) && cfg.instrLimit == 0 && |code| > 0
    ensures var out := Cycle(cfg, Initial, code[0], profile(code[0]), 0, st0, exec);
            var next := Wrap32(out.pc as int + 1);
            Simulate(cfg, code, profile, exec, Initial, 0, st0)
              == if next >= |code| then Completed(out.state.executedCode) else LimitReached
  {
    var out := Cycle(cfg, Initial, code[0], profile(code[0]), 0, st0, exec);
    SimulateStep(cfg, code, profile, exec, Initial, 0, st0);
    assert |out.state.executedCode| > 0;
  }

  // ---------------------------------------------------------------------------
  // The engine
  // ---------------------------------------------------------------------------

  /** The hazard engine: two 32-entry counter arrays updated in place, the soft-NOP flag and the trace. */
  class Engine {
    const cfg: Config
    const regBusy: array<Phase>
    const regDirty: array<Phase>
    var lastSNOP: bool
    var executedCode: seq<Instruction>

    ghost predicate Valid()
      reads this
    {
      regBusy.Length == RegisterCount && regDirty.Length == RegisterCount && regBusy != regDirty
    }

    function State(): HazardState
      reads this, regBusy, regDirty
    {
      HazardState(regBusy[..], regDirty[..], lastSNOP, executedCode)
    }

    constructor (cfg: Config)
      ensures Valid() && this.cfg == cfg && fresh(regBusy) && fresh(regDirty)
      ensures State() == Initial
    {
      this.cfg := cfg;
      regBusy := new Phase[RegisterCount](_ => 0);
      regDirty := new Phase[RegisterCount](_ => 0);
      lastSNOP := false;
      executedCode := [];
    }

    /** The start of every cycle: each positive counter goes down by one. */
    method Tick()
      requires Valid()
      modifies regBusy, regDirty
      ensures regBusy[..] == Decremented(old(regBusy[..]))
      ensures regDirty[..] == Decremented(old(regDirty[..]))
    {
      var i := 0;
      while i < RegisterCount
        invariant 0 <= i <= RegisterCount
        invariant forall t :: 0 <= t < i ==> regBusy[t] == Decremented(old(regBusy[..]))[t]
        invariant forall t :: i <= t < RegisterCount ==> regBusy[t] == old(regBusy[t])
        invariant forall t :: 0 <= t < i ==> regDirty[t] == Decremented(old(regDirty[..]))[t]
        invariant forall t :: i <= t < RegisterCount ==> regDirty[t] == old(regDirty[t])
      {
        if regBusy[i] > 0 {
          regBusy[i] := regBusy[i] - 1;
        }
        if regDirty[i] > 0 {
          regDirty[i] := regDirty[i] - 1;
        }
        i := i + 1;
      }
    }

    /** The stall test of the configured forwarding policy, on the counters as they are now. */
    method CheckStall(instr: Instruction, prof: Profile) returns (addNop: bool)
      requires Valid() && Indexable(instr, prof)
      ensures addNop == NeedsStall(cfg.forwarding, State(), instr, prof)
    {
      var rSPhase := prof.rSNeeded;
      var rTPhase := prof.rTNeeded;
      addNop := false;
      match cfg.forwarding {
        case FullForwarding =>
          if rSPhase > 0 && instr.rS > 0 {
            addNop := addNop || regBusy[instr.rS] >= rSPhase;
          }
          if rTPhase > 0 && instr.rT > 0 {
            addNop := addNop || regBusy[instr.rT] >= rTPhase;
          }
        case AluForwarding =>
          if rSPhase > 0 && instr.rS > 0 {
            addNop := addNop || regBusy[instr.rS] > 2 || (lastSNOP && regDirty[instr.rS] > 0);
          }
          if rTPhase > 0 && instr.rT > 0 {
            addNop := addNop || regBusy[instr.rT] > 2 || (lastSNOP && regDirty[instr.rT] > 0);
          }
        case NoForwarding =>
          if rSPhase > 0 && instr.rS > 0 {
            addNop := addNop || regDirty[instr.rS] > 0;
          }
          if rTPhase > 0 && instr.rT > 0 {
            addNop := addNop || regDirty[instr.rT] > 0;
          }
      }
    }

    /** The bubbles after an issued branch, appended one NOP at a time. */
    method AddBubbles(taken: bool)
      modifies this
      ensures executedCode == old(executedCode) + Bubbles(cfg, taken)
      ensures lastSNOP == old(lastSNOP)
    {
      var nop := NopEntry(cfg);
      match cfg.prediction {
        case NoPrediction =>
          executedCode := executedCode + [nop];
          if !cfg.branchInDec {
            executedCode := executedCode + [nop];
          }
        case PredictTaken =>
          if !taken {
            executedCode := executedCode + [nop];
            if !cfg.branchInDec {
              executedCode := executedCode + [nop];
            }
          }
        case PredictNotTaken =>
          if taken {
            executedCode := executedCode + [nop];
            if !cfg.branchInDec {
              executedCode := executedCode + [nop];
            }
          }
        case Perfect =>
      }
    }

    /**
     * One iteration of the execution loop at program counter `pc`, after the limit test:
     * returns the program counter the loop's increment applies to, and the machine state.
     */
    method Step<S>(instr: Instruction, prof: Profile, pc: Uint32, st: S,
                   exec: (Instruction, S, Uint32) -> (S, Uint32)) returns (pc': Uint32, st': S)
      requires Valid() && Indexable(instr, prof)
      modifies this, regBusy, regDirty
      ensures Valid()
      ensures StepOut(State(), pc', st') == Cycle(cfg, old(State()), instr, prof, pc, st, exec)
    {
      Tick();
      assert State() == Ticked(old(State()));
      var addNop := CheckStall(instr, prof);
      if addNop {
        executedCode := executedCode + [NopEntry(cfg)];
        lastSNOP := true;
        return Wrap32(pc as int - 1), st;
      }
      lastSNOP := false;
      var lastpc := pc;
      var (st1, pc1) := exec(instr, st, pc);
      executedCode := executedCode + [instr];
      if IsBranch(instr) {
        var taken := lastpc != pc1;
        AddBubbles(taken);
        return pc1, st1;
      }
      var w := WrittenIndex(instr, prof);
      if w < 0 {
        return pc1, st1;
      }
      regBusy[w] := prof.resultDone;
      regDirty[w] := PhaseWriteback - 2;
      return pc1, st1;
    }
  }

  /**
   * The execution loop (`for (uint pc = 0; pc < codeSize; pc++)`) on a fresh engine; the
   * result is the trace the timing diagram is drawn from, or the abort at the limit.
   */
  method Run<S>(cfg: Config, code: seq<Instruction>, profile: Instruction -> Profile,
                exec: (Instruction, S, Uint32) -> (S, Uint32), st0: S) returns (outcome: Outcome)
    requires ProgramIndexable(code, profile)
    ensures outcome == Simulate(cfg, code, profile, exec, Initial, 0, st0)
  {
    ghost var goal := Simulate(cfg, code, profile, exec, Initial, 0, st0);
    var engine := new Engine(cfg);
    ghost var state := Initial;
    var pc: Uint32 := 0;
    var st := st0;
    while pc < |code|
      invariant engine.Valid() && engine.cfg == cfg
      invariant fresh(engine) && fresh(engine.regBusy) && fresh(engine.regDirty)
      invariant engine.State() == state && WellFormed(state)
      invariant Simulate(cfg, code, profile, exec, state, pc, st) == goal
      decreases cfg.instrLimit + 1 - |engine.executedCode|
    {
      if |engine.executedCode| > cfg.instrLimit {
        return LimitReached;
      }
      var instr := code[pc];
      var prof := profile(instr);
      var pc1, st1 := engine.Step(instr, prof, pc, st, exec);
      SimulateAdvance(cfg, code, profile, exec, state, pc, st, engine.State(), pc1, st1);
      state := engine.State();
      pc := Wrap32(pc1 as int + 1);
      st := st1;
    }
    return Completed(engine.executedCode);
  }
}
