/**
 The translated program simulates the guest, over every run.
 */
module DbtSimulation {
  import opened Basics
  import opened DbtMachine
  import opened DbtCache
  import opened DbtInvariant
  import opened DbtGrowth
  import opened DbtTemplates
  import opened DbtLookup
  import opened DbtDispatch
  import opened DbtTarget
  import opened DbtRelation
  import opened DbtSteps

  lemma AgreeSelf(m: Mem, e: Word)
    ensures Agree(m, m, e, WINDOW)
  {
  }

  /** At the template of the guest's next instruction. */
  ghost predicate AtInstr(cfg: Config, p: Program, t: Target, s: Source)
    requires ValidProgram(p)
  {
    ValidConfig(cfg) && Rel(cfg, p, t, s, Start)
  }

  /** The operation at `t` can be run. */
  predicate CanRun(t: Target) {
    t.ip in t.cache.code && SafeRm(t.cache.code[t.ip])
  }

  lemma StraightTemplate(cfg: Config, p: Program, t: Target, s: Source)
    requires ValidProgram(p) && AtInstr(cfg, p, t, s) && p.at(s.pc).Straight?
    ensures var i := p.at(s.pc); var a := t.ip + i.outLen;
            && t.ip in t.cache.code && t.cache.code[t.ip] == Body(i.id, i.outLen) && t.cpu == s.cpu
            && (InstrStarts(cfg, p, t.cache, a, W(s.pc + i.len)) || JmpLink(t.cache, a, W(s.pc + i.len)))
  {
    hide Sound, Agree, W;
    StartOrLink(cfg, p, t.cache, t.ip + p.at(s.pc).outLen);
  }

  lemma StraightStep(cfg: Config, p: Program, t: Target, s: Source) returns (s': Source, ph: Phase)
    requires ValidProgram(p) && AtInstr(cfg, p, t, s) && p.at(s.pc).Straight?
    ensures CanRun(t) && Rel(cfg, p, Next(p, t), s', ph) && Executes(p, s, s', t.mem)
  {
    hide Sound, Agree, W, InstrStarts, JmpLink;
    StraightTemplate(cfg, p, t, s);
    s' := Exec(p, s.(mem := t.mem));
    AgreeSelf(s'.mem, s'.cpu.Esp());
    ph := if InstrStarts(cfg, p, t.cache, t.ip + p.at(s.pc).outLen, s'.pc) then Start else Link;
  }

  /** Jumps: the branch is the instruction. */
  lemma JumpStep(cfg: Config, p: Program, t: Target, s: Source) returns (s': Source, ph: Phase)
    requires ValidProgram(p) && AtInstr(cfg, p, t, s) && (p.at(s.pc).JmpDirect? || p.at(s.pc).Jcc?)
    ensures CanRun(t) && Rel(cfg, p, Next(p, t), s', ph) && Executes(p, s, s', t.mem)
  {
    hide Sound, Agree, W;
    var c := t.cache;
    s' := Exec(p, s.(mem := t.mem));
    AgreeSelf(s'.mem, s'.cpu.Esp());
    SoundLink(cfg, p, c, t.ip);
    if p.at(s.pc).JmpDirect? || p.cond(p.at(s.pc).cc, s.cpu.flags) {
      ph := AfterBranch(cfg, p, t, s', t.ip);
    } else {
      ph := Link;
    }
  }

  lemma LoopStep(cfg: Config, p: Program, t: Target, s: Source) returns (s': Source, ph: Phase)
    requires ValidProgram(p) && AtInstr(cfg, p, t, s) && p.at(s.pc).JccRel8?
    ensures CanRun(t) && Rel(cfg, p, Next(p, t), s', ph) && Executes(p, s, s', t.mem)
  {
    hide Sound, Agree, W, Fixed;
    var c := t.cache;
    var i := p.at(s.pc);
    FixedOp(c, t.ip, LoopOp(i.kind, t.ip + 4));
    FixedOp(c, t.ip + 2, JmpShort(t.ip + 9));
    s' := Exec(p, s.(mem := t.mem));
    AgreeSelf(s'.mem, s'.cpu.Esp());
    ph := if LoopTaken(p, i.kind, s.cpu) then Link else Short;
  }

  lemma CallDirectStep(cfg: Config, p: Program, t: Target, s: Source) returns (s': Source, ph: Phase)
    requires ValidProgram(p) && AtInstr(cfg, p, t, s) && p.at(s.pc).CallDirect?
    ensures CanRun(t) && Rel(cfg, p, Next(p, t), s', ph) && Executes(p, s, s', t.mem)
  {
    hide Sound, Agree, W, Fixed, Below, Write, Read, CallTrampolineAt;
    var c := t.cache;
    var i := p.at(s.pc);
    var next := W(s.pc + i.len);
    FixedOp(c, t.ip, PushImm(next));
    WordOf(next);
    FixedOp(c, t.ip + 5, c.code[t.ip + 5]);
    s', ph := Exec(p, s.(mem := t.mem)), Call(0);
    AgreeSelf(s'.mem, s'.cpu.Esp());
    AgreeSelf(t.mem, s.cpu.Esp());
  }

  lemma PushNextStep(cfg: Config, p: Program, t: Target, s: Source) returns (ph: Phase)
    requires ValidProgram(p) && AtInstr(cfg, p, t, s) && (p.at(s.pc).CallIndirect? || p.at(s.pc).Int80?)
    ensures CanRun(t) && Rel(cfg, p, Next(p, t), s, ph) && (ph == IndirectCall(0) || ph == System(0))
  {
    hide Sound, Agree, W, Fixed, Below, Write, Read;
    var c := t.cache;
    var i := p.at(s.pc);
    var next := W(s.pc + i.len);
    FixedOp(c, t.ip, PushImm(next));
    WordOf(next);
    SlotWrite(s.mem, t.mem, s.cpu.Esp(), 4, next);
    if i.Int80? {
      FixedOp(c, t.ip + 5, Jmp(SYSCALL));
      ph := System(0);
    } else {
      ph := IndirectCall(0);
    }
  }

  lemma JumpIndirectStep(cfg: Config, p: Program, t: Target, s: Source) returns (s': Source, ph: Phase)
    requires ValidProgram(p) && AtInstr(cfg, p, t, s) && p.at(s.pc).JmpIndirect?
    ensures CanRun(t) && Rel(cfg, p, Next(p, t), s', ph) && Executes(p, s, s', t.mem)
  {
    hide Sound, Agree, W, Fixed, Below, Write, Read, SieveDispatch;
    var c := t.cache;
    var push := PushOf(p.at(s.pc).rm, p.at(s.pc).gs);
    FixedOp(c, t.ip, push);
    FixedOp(c, t.ip + Len(push), Jmp(SieveDispatch(cfg)));
    s', ph := Exec(p, s.(mem := t.mem)), IndirectJump;
    assert ValidInstr(p.at(s.pc));
    AgreeSelf(t.mem, s.cpu.Esp());
    SlotWrite(t.mem, t.mem, s.cpu.Esp(), 4, s'.pc);
  }

  lemma ReturnStart(cfg: Config, p: Program, t: Target, s: Source) returns (s': Source, ph: Phase)
    requires ValidProgram(p) && AtInstr(cfg, p, t, s) && p.at(s.pc).Ret?
    ensures CanRun(t) && Rel(cfg, p, Next(p, t), s', ph) && Executes(p, s, s', t.mem)
  {
    hide Sound, Agree, W, Below, Write, Read, RetTrampolineAt;
    var e := s.cpu.Esp();
    ReturnOps(t.cache, t.ip);
    s', ph := Exec(p, s.(mem := t.mem)), Return(0);
    CpuLaws(s.cpu);
    UpAndDown(e, 4, 4);
    UpAndDown(e, 4, 8);
    AgreeSelf(t.mem, s'.cpu.Esp());
    SlotWrite(t.mem, t.mem, s'.cpu.Esp(), 8, s.cpu.Ecx());
  }

  lemma UpAndDown(e: Word, n: int, k: int)
    ensures Below(W(e + n), k) == Below(e, k - n)
    ensures Below(e, 0) == e
  {
  }

  lemma ReturnNStart(cfg: Config, p: Program, t: Target, s: Source) returns (s': Source, ph: Phase)
    requires ValidProgram(p) && AtInstr(cfg, p, t, s) && p.at(s.pc).RetN?
    ensures CanRun(t) && Rel(cfg, p, Next(p, t), s', ph) && Executes(p, s, s', t.mem)
  {
    hide Sound, Agree, W, Below, Write, Read, RetTrampolineAt, Fixed;
    var e := s.cpu.Esp();
    var count: int := p.at(s.pc).count;
    FixedOp(t.cache, t.ip, PopStack(count - 4));
    s', ph := Exec(p, s.(mem := t.mem)), ReturnN(count, 0);
    CpuLaws(s.cpu);
    UpAndDown(e, 4 + count, count);
    UpAndDown(e, 4 + count, 4);
    PopAddress(e, count);
    AgreeSelf(t.mem, s'.cpu.Esp());
    SlotWrite(t.mem, t.mem, s'.cpu.Esp(), 4, s'.pc);
  }

  lemma PopAddress(e: Word, count: int)
    ensures W(W(e + 4) + (count - 4)) == Below(e, -count)
    ensures W(e + 4) == Below(e, -4)
  {
  }

  /** The operand that is pushed after the return address reads what the guest's operand reads. */
  lemma OperandAfterPush(rm: Rm, gs: bool, cpu: Cpu, m: Mem)
    requires ValidRm(rm) && rm != RegRm(ESP) && ValidRm(AfterPush(rm))
    ensures Operand(AfterPush(rm), gs, cpu.WithEsp(Below(cpu.Esp(), 4)), m) == Operand(rm, gs, cpu, m)
  {
    hide Read, Effective;
    if rm.MemRm? {
      AddressAfterPush(rm, cpu);
    }
  }

  lemma AddressAfterPush(rm: Rm, cpu: Cpu)
    requires ValidRm(rm) && rm.MemRm? && ValidRm(AfterPush(rm))
    ensures Effective(AfterPush(rm), cpu.WithEsp(Below(cpu.Esp(), 4)).regs) == Effective(rm, cpu.regs)
  {
    var cpu' := cpu.WithEsp(Below(cpu.Esp(), 4));
    assert forall i :: 0 <= i < 8 && i != ESP ==> cpu'.regs[i] == cpu.regs[i];
    var x := if rm.index == -1 then 0 else Scaled(cpu.regs[rm.index], rm.scale);
    if rm.base == ESP {
      SumAfterPush(cpu.Esp(), x, rm.disp);
    }
  }

  /** A GS prefix does not matter for a register. */
  lemma PrefixOnRegister(rm: Rm, cpu: Cpu, m: Mem)
    requires ValidRm(rm)
    ensures rm.RegRm? ==> Operand(rm, true, cpu, m) == Operand(rm, false, cpu, m)
    ensures AfterPush(rm).RegRm? <==> rm.RegRm?
  {
  }

  lemma SumAfterPush(e: Word, x: int, d: int)
    ensures W(Below(e, 4) + x + (d + 4)) == W(e + x + d)
  {
  }

  lemma IndirectCallStart(cfg: Config, p: Program, t: Target, s: Source) returns (s': Source, ph: Phase)
    requires ValidProgram(p) && ValidConfig(cfg) && Rel(cfg, p, t, s, IndirectCall(0))
    ensures CanRun(t) && t.ip > SYSCALL && Rel(cfg, p, Next(p, t), s', ph) && Executes(p, s, s', t.mem)
    ensures ph == IndirectCall(1)
  {
    hide Sound, Agree, W, Below, Write, Read, Fixed, CallDispatch, Operand;
    var c := t.cache;
    var e := s.cpu.Esp();
    var rm := p.at(s.pc).rm;
    assert ValidInstr(p.at(s.pc));
    FixedOp(c, t.ip, PushOf(AfterPush(rm), p.at(s.pc).gs));
    SoundPlace(cfg, p, c, t.ip);
    OperandAfterPush(rm, p.at(s.pc).gs, s.cpu, t.mem);
    PrefixOnRegister(AfterPush(rm), t.cpu, t.mem);
    s', ph := Exec(p, s.(mem := t.mem)), IndirectCall(1);
    CpuLaws(s.cpu);
    BelowBelow(e, 4, 4);
    RewriteSame(t.mem, s'.mem, e, W(s.pc + p.at(s.pc).len));
    SlotWrite(s'.mem, t.mem, s'.cpu.Esp(), 4, s'.pc);
  }

  /** The return address is already where the call would push it. */
  lemma RewriteSame(m: Mem, m': Mem, e: Word, v: Word)
    requires Read(m, Below(e, 4)) == v && m' == Write(m, Below(e, 4), v)
    ensures forall a: Word :: m'(a) == m(a)
    ensures Agree(m', m, Below(e, 4), WINDOW)
  {
    hide W, Below;
    var b: int := Below(e, 4);
    BytesApart(b);
    ReadDigits(m(b), m(W(b + 1)), m(W(b + 2)), m(W(b + 3)));
  }

  lemma ReadDigits(a: Byte, b: Byte, c: Byte, d: Byte)
    ensures var v := a + 256 * b + 65536 * c + 16777216 * d;
            v % 256 == a && v / 256 % 256 == b && v / 65536 % 256 == c && v / 16777216 == d
  {
    var v2 := c + 256 * d;
    var v1 := b + 256 * v2;
    var v := a + 256 * v1;
    assert v / 256 == v1 && v1 / 256 == v2 && v2 / 256 == d;
    Quotients(v);
  }

  // ----- one step -----

  lemma StartPlace(cfg: Config, p: Program, t: Target, s: Source)
    requires ValidProgram(p) && ValidConfig(cfg) && Rel(cfg, p, t, s, Start)
    ensures t.ip > SYSCALL
  {
    hide Sound, InstrAt;
    SoundStart(cfg, p, t.cache, t.ip);
    assert t.ip in t.cache.code by { TemplateInCode(cfg, p, t.cache, t.cache.notes.origin, t.ip, s.pc); }
    SoundPlace(cfg, p, t.cache, t.ip);
  }

  /** The steps of the translated program that may follow before the guest executes its next instruction. */
  function Rank(ph: Phase): int {
    match ph
    case System(i) => 1 - i
    case IndirectCall(0) => 0
    case Start => 2
    case Direct(_, i) => 6 - i
    case Link => 7
    case Short => 8
    case Call(i) => 10 - i
    case Fallback => 3
    case Check(stub, x, i) => if i >= 4 then 20 - i else if stub then 28 + 8 * x - i else 23 - i
    case Dispatch(i) => 8 * TWO32 + 40 - i
    case IndirectJump => 8 * TWO32 + 41
    case IndirectCall(i) => 8 * TWO32 + 44 - i
    case Return(i) => 8 * TWO32 + 43 - i
    case ReturnN(_, i) => 8 * TWO32 + 45 - i
  }

  /** One step of the translated program: the guest executes one instruction, or nothing and the
      next one has come closer. */
  ghost predicate Simulates(cfg: Config, p: Program, t: Target, s: Source, ph: Phase, p': Program, t': Target, s': Source, ph': Phase)
    requires ValidProgram(p) && ValidProgram(p')
  {
    && Rel(cfg, p', t', s', ph')
    && (Executes(p, s, s', t.mem) || (s' == s && 0 <= Rank(ph') < Rank(ph)))
  }

  /** At the start of an instruction. */
  lemma StartStep(cfg: Config, p: Program, t: Target, s: Source) returns (s': Source, ph: Phase)
    requires ValidProgram(p) && ValidConfig(cfg) && Rel(cfg, p, t, s, Start)
    ensures t.ip > SYSCALL && CanRun(t) && Simulates(cfg, p, t, s, Start, p, Next(p, t), s', ph)
  {
    hide Next, Rel, Sound, InstrAt, Executes;
    StartPlace(cfg, p, t, s);
    match p.at(s.pc)
    case Straight(_, _, _) => s', ph := StraightStep(cfg, p, t, s);
    case JmpDirect(_, _) => s', ph := JumpStep(cfg, p, t, s);
    case Jcc(_, _, _) => s', ph := JumpStep(cfg, p, t, s);
    case JccRel8(_, _, _) => s', ph := LoopStep(cfg, p, t, s);
    case CallDirect(_, _) => s', ph := CallDirectStep(cfg, p, t, s);
    case CallIndirect(_, _, _) =>
      s' := s;
      ph := PushNextStep(cfg, p, t, s);
    case Int80(_) =>
      s' := s;
      ph := PushNextStep(cfg, p, t, s);
    case JmpIndirect(_, _, _) => s', ph := JumpIndirectStep(cfg, p, t, s);
    case Ret => s', ph := ReturnStart(cfg, p, t, s);
    case RetN(_, _) => s', ph := ReturnNStart(cfg, p, t, s);
  }

  /** The phases at an assembly stub. */
  predicate InStub(ph: Phase) {
    (ph.Direct? && ph.i == 3) || ph.Fallback? || (ph.System? && ph.i == 1)
  }

  lemma StubEntry(cfg: Config, p: Program, t: Target, s: Source, ph: Phase)
    requires ValidProgram(p) && Rel(cfg, p, t, s, ph) && InStub(ph)
    ensures t.ip == if ph.Direct? then FIND_DIRECT else if ph.Fallback? then SIEVE_FALLBACK else SYSCALL
  {
    hide Sound, Agree;
  }

  /** An operation of the code cache that is not at the start of an instruction. */
  lemma InnerStep(cfg: Config, p: Program, t: Target, s: Source, ph: Phase) returns (s': Source, ph': Phase)
    requires ValidProgram(p) && ValidConfig(cfg) && Rel(cfg, p, t, s, ph) && !InStub(ph) && ph != Start
    ensures t.ip > SYSCALL && CanRun(t) && Simulates(cfg, p, t, s, ph, p, Next(p, t), s', ph')
  {
    hide Next, Rel, Sound, Executes;
    PhaseBounds(cfg, p, t, s, ph);
    s' := s;
    match ph
    case Link => ph' := LinkStep(cfg, p, t, s);
    case Short => ShortStep(cfg, p, t, s); ph' := Link;
    case Direct(k, i) => DirectStep(cfg, p, t, s, k, i); ph' := Direct(k, i + 1);
    case Call(i) => CallStep(cfg, p, t, s, i); ph' := if i == 2 then Link else Call(i + 1);
    case IndirectCall(i) =>
      if i == 0 {
        s', ph' := IndirectCallStart(cfg, p, t, s);
      } else {
        IndirectCallStep(cfg, p, t, s, i);
        ph' := if i == 3 then Dispatch(1) else IndirectCall(i + 1);
      }
    case IndirectJump => IndirectJumpStep(cfg, p, t, s); ph' := Dispatch(0);
    case Dispatch(i) => ph' := DispatchStep(cfg, p, t, s, i);
    case Check(stub, x, i) =>
      if i <= 2 {
        ph' := CompareStep(cfg, p, t, s, stub, x, i);
      } else if i == 3 {
        ph' := MissStep(cfg, p, t, s, stub, x);
      } else {
        ph' := HitStep(cfg, p, t, s, stub, x, i);
      }
    case Return(i) => ph' := ReturnStep(cfg, p, t, s, i);
    case ReturnN(count, i) => ReturnNStep(cfg, p, t, s, count, i); ph' := if i == 0 then ReturnN(count, 1) else Return(0);
    case System(i) => SystemStep(cfg, p, t, s); ph' := System(1);
    case Start =>
    case Fallback =>
  }

  lemma PhaseBounds(cfg: Config, p: Program, t: Target, s: Source, ph: Phase)
    requires ValidProgram(p) && ValidConfig(cfg) && Rel(cfg, p, t, s, ph) && !InStub(ph)
    ensures match ph
            case Direct(_, i) => i <= 2
            case Call(i) => i <= 2
            case IndirectCall(i) => i <= 3
            case Dispatch(i) => i <= 2
            case Check(stub, x, i) => i <= 6 && 0 < x
            case Return(i) => i <= 2
            case ReturnN(_, i) => i <= 1
            case System(i) => i == 0
            case Fallback => false
            case _ => true
  {
    hide Sound, Agree;
    if ph.Check? {
      CheckPlace(cfg, p, t.cache, ph.stub, ph.x);
    }
  }

  /** Every step of the translated program, the assembly stubs included. */
  lemma StepSimulated(cfg: Config, p: Program, t: Target, s: Source, ph: Phase, p': Program, t': Target) returns (s': Source, ph': Phase)
    requires ValidProgram(p) && ValidProgram(p') && ValidConfig(cfg) && Rel(cfg, p, t, s, ph) && Step(cfg, p, t, p', t')
    ensures Simulates(cfg, p, t, s, ph, p', t', s', ph')
  {
    hide Next, Rel, Executes, FindDirectStep, SieveStep, SyscallStep;
    if ph == Start {
      s', ph' := StartStep(cfg, p, t, s);
    } else if InStub(ph) {
      StubEntry(cfg, p, t, s, ph);
      s', ph' := s, Start;
      match ph
      case Direct(k, _) => FindDirectReturns(cfg, p, t, s, k, t');
      case Fallback => SieveReturns(cfg, p, t, s, t');
      case _ => s' := SystemReturns(cfg, p, t, s, p', t');
    } else {
      s', ph' := InnerStep(cfg, p, t, s, ph);
    }
  }

  /** The translated program never runs into bytes that are no operation. */
  lemma NeverStuck(cfg: Config, p: Program, t: Target, s: Source, ph: Phase)
    requires ValidProgram(p) && ValidConfig(cfg) && Rel(cfg, p, t, s, ph)
    ensures t.ip in {FIND_DIRECT, SIEVE_FALLBACK, SYSCALL} || CanRun(t)
  {
    hide Next, Rel, Executes;
    if ph == Start {
      var s', ph' := StartStep(cfg, p, t, s);
    } else if InStub(ph) {
      StubEntry(cfg, p, t, s, ph);
    } else {
      var s', ph' := InnerStep(cfg, p, t, s, ph);
    }
  }

  // ----- runs -----

  /** A state of the translated program, with the guest program of that time. */
  datatype Moment = Moment(p: Program, t: Target)

  ghost predicate ValidPrograms(ts: seq<Moment>) {
    forall i :: 0 <= i < |ts| ==> ValidProgram(ts[i].p)
  }

  ghost predicate Runs(cfg: Config, ts: seq<Moment>) {
    && |ts| > 0 && ValidPrograms(ts)
    && forall i :: 0 <= i < |ts| - 1 ==> Step(cfg, ts[i].p, ts[i].t, ts[i + 1].p, ts[i + 1].t)
  }

  /** The guest's states beside a run: between two of them it executes at most one instruction. */
  ghost predicate Beside(cfg: Config, ts: seq<Moment>, ss: seq<Source>, phs: seq<Phase>) {
    && |ss| == |phs| == |ts| && ValidPrograms(ts)
    && (forall i :: 0 <= i < |ts| ==> Rel(cfg, ts[i].p, ts[i].t, ss[i], phs[i]))
    && (forall i :: 0 <= i < |ts| - 1 ==> Simulates(cfg, ts[i].p, ts[i].t, ss[i], phs[i], ts[i + 1].p, ts[i + 1].t, ss[i + 1], phs[i + 1]))
  }

  /** Every run of the translated program is a run of the guest, whatever the sieve, the return cache
      and the patched branches hold. */
  lemma {:induction false} RunSimulated(cfg: Config, ts: seq<Moment>, s: Source, ph: Phase) returns (ss: seq<Source>, phs: seq<Phase>)
    requires ValidConfig(cfg) && Runs(cfg, ts) && Rel(cfg, ts[0].p, ts[0].t, s, ph)
    ensures Beside(cfg, ts, ss, phs) && ss[0] == s && phs[0] == ph
    decreases |ts|
  {
    hide Rel, Step, Simulates;
    if |ts| == 1 {
      ss, phs := [s], [ph];
    } else {
      var s', ph' := StepSimulated(cfg, ts[0].p, ts[0].t, s, ph, ts[1].p, ts[1].t);
      assert Rel(cfg, ts[1].p, ts[1].t, s', ph') by { SimulatesRel(cfg, ts[0], s, ph, ts[1], s', ph'); }
      var rest := ts[1..];
      assert Runs(cfg, rest) by { RunsOn(cfg, ts); }
      var ss1, phs1 := RunSimulated(cfg, rest, s', ph');
      ss, phs := [s] + ss1, [ph] + phs1;
      assert forall i :: 0 < i < |ts| ==> ts[i] == rest[i - 1] && ss[i] == ss1[i - 1] && phs[i] == phs1[i - 1];
      forall i | 0 <= i < |ts| - 1
        ensures Simulates(cfg, ts[i].p, ts[i].t, ss[i], phs[i], ts[i + 1].p, ts[i + 1].t, ss[i + 1], phs[i + 1])
      {
        if i > 0 {
          assert Simulates(cfg, rest[i - 1].p, rest[i - 1].t, ss1[i - 1], phs1[i - 1], rest[i].p, rest[i].t, ss1[i], phs1[i]);
        }
      }
    }
  }

  lemma RunsOn(cfg: Config, ts: seq<Moment>)
    requires Runs(cfg, ts) && |ts| > 1
    ensures Runs(cfg, ts[1..])
  {
    hide Step;
    var rest := ts[1..];
    forall i | 0 <= i < |rest| - 1 ensures Step(cfg, rest[i].p, rest[i].t, rest[i + 1].p, rest[i + 1].t) {
      assert Step(cfg, ts[i + 1].p, ts[i + 1].t, ts[i + 2].p, ts[i + 2].t);
    }
  }

  lemma SimulatesRel(cfg: Config, a: Moment, s: Source, ph: Phase, b: Moment, s': Source, ph': Phase)
    requires ValidProgram(a.p) && ValidProgram(b.p) && Simulates(cfg, a.p, a.t, s, ph, b.p, b.t, s', ph')
    ensures Rel(cfg, b.p, b.t, s', ph')
  {
  }

  /** dbt_run: the first state of the translated program stands for the first state of the guest. */
  lemma RunStarts(cfg: Config, p: Program, c: Cache, s: Source)
    requires ValidProgram(p) && ValidConfig(cfg) && Sound(cfg, p, c)
    ensures var f := Find(cfg, p, c, s.pc); Rel(cfg, p, Target(f.start, s.cpu, s.mem, f.cache), s, Start)
  {
    hide Sound, Find, Extends, InstrStarts;
    FindInv(cfg, p, c, s.pc);
    HeadIsInstr(cfg, p, Find(cfg, p, c, s.pc).cache, Find(cfg, p, c, s.pc).start);
    AgreeSelf(s.mem, s.cpu.Esp());
  }

  /** Whenever the translated program is at the start of an instruction, the guest is at that
      instruction, with the same registers and flags and the same stack at and above esp. */
  lemma SameAtStart(cfg: Config, ts: seq<Moment>, ss: seq<Source>, phs: seq<Phase>, i: nat)
    requires Beside(cfg, ts, ss, phs) && i < |ts| && phs[i] == Start
    ensures var t := ts[i].t;
            && t.ip in t.cache.notes.origin && ss[i].pc == t.cache.notes.origin[t.ip] && t.cpu == ss[i].cpu
            && forall a: Word :: !InWindow(a, t.cpu.Esp(), WINDOW) ==> t.mem(a) == ss[i].mem(a)
  {
    hide Sound, InWindow, InstrAt;
    assert Rel(cfg, ts[i].p, ts[i].t, ss[i], phs[i]);
  }

  /** The stack at and above esp is outside the window. */
  lemma OutsideWindow(e: Word, k: int)
    requires 0 <= k < TWO32 - WINDOW
    ensures !InWindow(W(e + k), e, WINDOW)
  {
    DivMod(e + k);
    if k > 0 {
      ModUnique(e - W(e + k), TWO32 - k, (e + k) / TWO32 - 1);
    } else {
      ModUnique(e - W(e + k), 0, 0);
    }
  }

  /** The translated program keeps up: it takes at most as many steps as the rank says before the guest
      executes its next instruction. */
  lemma {:induction false} KeepsUp(cfg: Config, ts: seq<Moment>, ss: seq<Source>, phs: seq<Phase>)
    requires |ts| > 0 && Beside(cfg, ts, ss, phs) && 0 <= Rank(phs[0])
    requires forall i :: 0 <= i < |ts| - 1 ==> !Executes(ts[i].p, ss[i], ss[i + 1], ts[i].t.mem)
    ensures |ts| <= Rank(phs[0]) + 1
    decreases |ts|
  {
    hide Rel, Executes, Rank;
    if |ts| > 1 {
      assert Simulates(cfg, ts[0].p, ts[0].t, ss[0], phs[0], ts[1].p, ts[1].t, ss[1], phs[1]);
      KeepsUp(cfg, ts[1..], ss[1..], phs[1..]);
    }
  }

  /** The rank has a bound, so the guest never waits for long. */
  lemma RankBounded(cfg: Config, p: Program, t: Target, s: Source, ph: Phase)
    requires ValidProgram(p) && ValidConfig(cfg) && Rel(cfg, p, t, s, ph)
    ensures 0 <= Rank(ph) <= 8 * TWO32 + 45
  {
    hide Sound, Agree;
    if ph.Check? {
      CheckPlace(cfg, p, t.cache, ph.stub, ph.x);
    }
  }
}
