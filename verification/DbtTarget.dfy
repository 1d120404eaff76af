/**
 The machine that runs translated code: the operations in the code cache, and the assembly stubs
 of src/dbt/x86_trampoline.asm as specified steps that call into the translator.
 */
module DbtTarget {
  import opened Basics
  import opened DbtMachine
  import opened DbtCache

  datatype Target = Target(ip: int, cpu: Cpu, mem: Mem, cache: Cache)

  /** Bytes below the guest's stack pointer that translated code and the stubs may use. */
  const WINDOW := 0x1_0000
  const STUB_WINDOW := WINDOW - 16

  function Goto(t: Target, ip: int): Target {
    t.(ip := ip)
  }

  /** A push, going on `len` bytes further. */
  function Push(t: Target, v: Word, len: int): Target {
    var sp := Below(t.cpu.Esp(), 4);
    t.(ip := t.ip + len, cpu := t.cpu.WithEsp(sp), mem := Write(t.mem, sp, v))
  }

  function SetEcx(t: Target, v: Word, len: int): Target {
    t.(ip := t.ip + len, cpu := t.cpu.WithEcx(v))
  }

  function SetEsp(t: Target, v: Word, len: int): Target {
    t.(ip := t.ip + len, cpu := t.cpu.WithEsp(v))
  }

  /** Where a table jump or push finds no entry. */
  const NOWHERE := 0

  function Entry(table: seq<int>, i: Word): int {
    if i < |table| then table[i] else NOWHERE
  }

  predicate SafeRm(op: Op) {
    op.PushRm? || op.PushGs? ==> ValidRm(op.rm)
  }

  /** One operation of the code cache. */
  function Next(p: Program, t: Target): Target
    requires t.ip in t.cache.code && SafeRm(t.cache.code[t.ip])
  {
    var op := t.cache.code[t.ip];
    var esp := t.cpu.Esp();
    var n := Len(op);
    match op
    case Body(id, _) => var r := p.body(id, t.cpu, t.mem); t.(ip := t.ip + n, cpu := r.0, mem := r.1)
    case Jmp(dest) => Goto(t, dest)
    case JmpShort(dest) => Goto(t, dest)
    case JccOp(cc, dest) => Goto(t, if p.cond(cc, t.cpu.flags) then dest else t.ip + n)
    case LoopOp(kind, dest) => Goto(t, if LoopTaken(p, kind, t.cpu) then dest else t.ip + n).(cpu := LoopCpu(kind, t.cpu))
    case JecxzOp(dest) => Goto(t, if t.cpu.Ecx() == 0 then dest else t.ip + n)
    case PushImm(v) => Push(t, W(v), n)
    case PushRm(rm) => Push(t, Operand(rm, false, t.cpu, t.mem), n)
    case PushGs(rm) => Push(t, Operand(rm, true, t.cpu, t.mem), n)
    case StoreRet(slot, v) =>
      t.(ip := t.ip + n, cache := t.cache.(ret := if slot < |t.cache.ret| then t.cache.ret[slot := v] else t.cache.ret))
    case CallOp(dest, next) => Goto(Push(t, W(next), n), dest)
    case LeaEsp(k) => SetEsp(t, W(esp + k), n)
    case PopStack(k) => SetEsp(t, W(esp + 4), n).(mem := Write(t.mem, W(W(esp + 4) + k), Read(t.mem, esp)))
    case PushEcx => Push(t, t.cpu.Ecx(), n)
    case PopEcx => SetEsp(t, W(esp + 4), n).(cpu := t.cpu.WithEcx(Read(t.mem, esp)).WithEsp(W(esp + 4)))
    case LoadEcx => SetEcx(t, Read(t.mem, W(esp + 4)), n)
    case LeaEcx(pc, _) => SetEcx(t, W(t.cpu.Ecx() - pc), n)
    case MovzxEcx => SetEcx(t, Read(t.mem, W(esp + 4)) % 65536, n)
    case StoreEcx => t.(ip := t.ip + n, mem := Write(t.mem, esp, t.cpu.Ecx()))
    case JmpSieve => Goto(t, Entry(t.cache.sieve, t.cpu.Ecx()))
    case PushRet => Push(t, W(Entry(t.cache.ret, t.cpu.Ecx())), n)
    case RetOp => Goto(t, Read(t.mem, esp)).(cpu := t.cpu.WithEsp(W(esp + 4)))
  }

  // ----- the assembly stubs -----

  /** The stub returns to translated code at `start`, having used the stack below its own. */
  ghost predicate Returns(t: Target, t': Target, f: Found, cpu: Cpu, mem: Mem) {
    t'.cache == f.cache && t'.ip == f.start && t'.cpu == cpu && Agree(mem, t'.mem, t.cpu.Esp(), STUB_WINDOW)
  }

  /** dbt_find_direct_internal. */
  ghost predicate FindDirectStep(cfg: Config, p: Program, t: Target, t': Target)
    requires ValidProgram(p)
  {
    var esp := t.cpu.Esp();
    var pc, patch := Read(t.mem, esp), Read(t.mem, W(esp + 4));
    Returns(t, t', FindDirect(cfg, p, t.cache, pc, patch), t.cpu.WithEsp(W(esp + 8)), t.mem)
  }

  /** dbt_sieve_fallback; the translator has to find room for the new stub. */
  ghost predicate SieveStep(cfg: Config, p: Program, t: Target, t': Target)
    requires ValidProgram(p)
  {
    var esp := t.cpu.Esp();
    var pc := Read(t.mem, W(esp + 4));
    && SieveRoom(cfg, p, t.cache, pc)
    && Returns(t, t', FindSieve(cfg, p, t.cache, pc), t.cpu.WithEcx(Read(t.mem, esp)).WithEsp(W(esp + 8)), t.mem)
  }

  /** syscall_handler and dbt_find_indirect_internal. A system call may flush the cache, and then it may
      have changed the guest's code as well: from now on the program is `p'`. */
  ghost predicate SyscallStep(cfg: Config, p: Program, t: Target, p': Program, t': Target)
    requires ValidProgram(p) && ValidProgram(p')
  {
    var esp := t.cpu.Esp();
    var pc := Read(t.mem, esp);
    var r := p.sys(t.cpu.WithEsp(W(esp + 4)), t.mem);
    || (p' == p && AfterSyscall(cfg, p, t.cache, pc, r.0, r.1, t'))
    || AfterSyscall(cfg, p', Init(cfg), pc, r.0, r.1, t')
  }

  ghost predicate AfterSyscall(cfg: Config, p: Program, c: Cache, pc: Word, cpu: Cpu, mem: Mem, t': Target)
    requires ValidProgram(p)
  {
    var f := Find(cfg, p, c, pc);
    t'.cache == f.cache && t'.ip == f.start && t'.cpu == cpu && Agree(mem, t'.mem, cpu.Esp(), WINDOW)
  }

  ghost predicate Step(cfg: Config, p: Program, t: Target, p': Program, t': Target)
    requires ValidProgram(p) && ValidProgram(p')
  {
    if t.ip == SYSCALL then SyscallStep(cfg, p, t, p', t')
    else
      && p' == p
      && if t.ip == FIND_DIRECT then FindDirectStep(cfg, p, t, t')
         else if t.ip == SIEVE_FALLBACK then SieveStep(cfg, p, t, t')
         else t.ip in t.cache.code && SafeRm(t.cache.code[t.ip]) && t' == Next(p, t)
  }
}
