/**
 How a state of the translated program stands for a state of the guest, at every operation of
 every template and stub.
 */
module DbtRelation {
  import opened Basics
  import opened DbtMachine
  import opened DbtCache
  import opened DbtInvariant
  import opened DbtGrowth
  import opened DbtLookup
  import opened DbtDispatch
  import opened DbtTarget

  datatype Phase =
    | Start                 // at the template of the guest instruction
    | Link                  // at a patchable jump to its block
    | Short                 // at the short jump over the first branch of a loop instruction
    | Direct(k: int, i: nat)  // `i` operations into the stub of the branch at `k`; 3 is its target
    | Call(i: nat)          // direct call: return cache, call, trampoline
    | IndirectCall(i: nat)  // 0: the operand is still to be pushed
    | IndirectJump
    | Dispatch(i: nat)
    | Check(stub: bool, x: int, i: nat)
    | Fallback
    | Return(i: nat)
    | ReturnN(count: nat, i: nat)
    | System(i: nat)

  // ----- the stack below the guest's -----

  /** `k` bytes have been pushed; all else is the guest's. */
  ghost predicate Pushed(t: Target, s: Source, k: int) {
    t.cpu == s.cpu.WithEsp(Below(s.cpu.Esp(), k))
  }

  /** The word `k` bytes below the guest's stack pointer. */
  function Slot(t: Target, s: Source, k: int): Word {
    Read(t.mem, Below(s.cpu.Esp(), k))
  }

  /** The guest address to go to and the guest's ecx lie below its stack; `k` bytes are pushed. */
  ghost predicate Saved(t: Target, s: Source, k: int) {
    && t.cpu == s.cpu.WithEcx(t.cpu.Ecx()).WithEsp(Below(s.cpu.Esp(), k))
    && Slot(t, s, 4) == s.pc && Slot(t, s, 8) == s.cpu.Ecx()
  }

  // ----- checking stubs -----

  /** The guest address that the stub or postamble at `x` accepts. */
  function Accepts(c: Cache, stub: bool, x: int): Word {
    if stub then (if x in c.notes.stubs then c.notes.stubs[x] else 0)
    else if x in c.notes.posts then c.notes.posts[x] else 0
  }

  predicate IsCheck(c: Cache, stub: bool, x: int) {
    if stub then x in c.notes.stubs else x in c.notes.posts
  }

  function LongForm(c: Cache, stub: bool, x: int): bool {
    stub || LongLea(Accepts(c, stub, x))
  }

  /** The conditional jump of the check. */
  function CheckJump(c: Cache, stub: bool, x: int): int {
    x + 4 + Len(LeaEcx(Accepts(c, stub, x), LongForm(c, stub, x)))
  }

  // ----- the relation -----

  ghost predicate StoreOk(cfg: Config, c: Cache, k: int) {
    k in c.code && c.code[k].StoreRet? && c.code[k].slot < TABLE_ENTRIES && RetEntryOk(cfg, c, c.code[k].v)
  }

  ghost predicate CallTo(c: Cache, k: int, dest: int) {
    k in c.code && c.code[k].CallOp? && c.code[k].dest == dest
  }

  ghost predicate BranchTo(c: Cache, k: int, pc: Word) {
    k in c.notes.links && c.notes.links[k] == pc && k in c.code
  }

  /** The template of the instruction at `pc` begins at `a`. */
  ghost predicate InstrStarts(cfg: Config, p: Program, c: Cache, a: int, pc: Word) {
    a in c.notes.origin && c.notes.origin[a] == pc && InstrAt(cfg, p, c, c.notes.origin, a, pc)
  }

  ghost predicate At(cfg: Config, p: Program, t: Target, s: Source, ph: Phase)
    requires ValidProgram(p)
  {
    var c := t.cache;
    match ph
    case Start => InstrStarts(cfg, p, c, t.ip, s.pc) && t.cpu == s.cpu
    case Link => JmpLink(c, t.ip, s.pc) && t.cpu == s.cpu
    case Short => t.ip in c.code && c.code[t.ip].JmpShort? && JmpLink(c, c.code[t.ip].dest, s.pc) && t.cpu == s.cpu
    case Direct(k, i) =>
      && i <= 3 && BranchTo(c, k, s.pc)
      && (if i == 3 then t.ip == FIND_DIRECT else IsDirectStub(c, t.ip - 5 * i, s.pc, PatchAddr(c.code[k], k)))
      && (i == 0 ==> t.cpu == s.cpu)
      && (i == 1 ==> Pushed(t, s, 4)) && (1 <= i ==> Slot(t, s, 4) == PatchAddr(c.code[k], k))
      && (2 <= i ==> Pushed(t, s, 8) && Slot(t, s, 8) == s.pc)
    case Call(i) =>
      && i <= 2 && (if i == 2 then Pushed(t, s, 4) else t.cpu == s.cpu)
      && (i == 0 ==> StoreOk(cfg, c, t.ip))
      && (if i == 2 then CallTrampolineAt(c, t.ip, s.pc)
          else exists d :: CallTo(c, t.ip + (if i == 0 then 10 else 0), d) && CallTrampolineAt(c, d, s.pc))
    case IndirectCall(i) =>
      && i <= 3 && Pushed(t, s, if i == 3 then 8 else 4)
      && (if i == 0
          then p.at(s.pc).CallIndirect? && (var next := W(s.pc + p.at(s.pc).len);
               CallIndirectAt(cfg, c, t.ip - 5, p.at(s.pc).rm, p.at(s.pc).gs, next) && Slot(t, s, 4) == next)
          else Slot(t, s, 4) == s.pc)
      && (i == 1 ==> StoreOk(cfg, c, t.ip) && CallTo(c, t.ip + 10, CallDispatch(cfg)))
      && (i == 2 ==> CallTo(c, t.ip, CallDispatch(cfg)))
      && (i == 3 ==> t.ip == CallDispatch(cfg))
    case IndirectJump => t.ip in c.code && c.code[t.ip] == Jmp(SieveDispatch(cfg)) && Pushed(t, s, 4) && Slot(t, s, 4) == s.pc
    case Dispatch(i) =>
      && i <= 2
      && (i == 0 ==> t.ip == SieveDispatch(cfg) && Pushed(t, s, 4) && Slot(t, s, 4) == s.pc)
      && (i == 1 ==> (t.ip == ReturnFallback(cfg) || t.ip == CallDispatch(cfg) + 3) && Saved(t, s, 8))
      && (i == 2 ==> (t.ip == ReturnFallback(cfg) + 5 || t.ip == CallDispatch(cfg) + 8) && Saved(t, s, 8) && t.cpu.Ecx() == s.pc % TABLE_ENTRIES)
    case Check(stub, x, i) =>
      var j := CheckJump(c, stub, x);
      && i <= 6 && IsCheck(c, stub, x)
      && (i <= 4 ==> Saved(t, s, 8))
      && (i == 0 ==> t.ip == x)
      && (i == 1 ==> t.ip == x + 4 && t.cpu.Ecx() == s.pc)
      && (i == 2 ==> t.ip == j && t.cpu.Ecx() == W(s.pc - Accepts(c, stub, x)))
      && (i == 3 ==> t.ip == j + 2)
      && (i == 4 ==> t.ip == j + 7)
      && (i == 5 ==> t.ip == j + 8 && Pushed(t, s, 4))
      && (i == 6 ==> t.ip == x + 22 && stub && t.cpu == s.cpu)
      && (4 <= i ==> s.pc == Accepts(c, stub, x))
    case Fallback => t.ip == SIEVE_FALLBACK && Saved(t, s, 8)
    case Return(i) =>
      && i <= 2
      && RetTrampolineAt(c, t.ip - (if i == 0 then 1 else if i == 1 then 6 else 13))
      && Saved(t, s, if i == 2 then 12 else 8)
      && (i == 1 ==> t.cpu.Ecx() == s.pc % TABLE_ENTRIES)
      && (i == 2 ==> RetEntryOk(cfg, c, Slot(t, s, 12)))
    case ReturnN(count, i) =>
      && i <= 1 && Slot(t, s, 4) == s.pc
      && (if i == 0 then Fixed(c, t.ip, LeaEsp(count - 4)) && RetTrampolineAt(c, t.ip + Len(LeaEsp(count - 4))) && Pushed(t, s, count)
          else RetTrampolineAt(c, t.ip) && Pushed(t, s, 4))
    case System(i) =>
      && i <= 1 && p.at(s.pc).Int80? && Pushed(t, s, 4) && Slot(t, s, 4) == W(s.pc + p.at(s.pc).len)
      && (if i == 0 then t.ip in c.code && c.code[t.ip] == Jmp(SYSCALL) else t.ip == SYSCALL)
  }

  /** `t` stands for `s`: the same registers and flags up to what is being pushed, and the same
      memory up to the window below the guest's stack pointer. */
  ghost predicate Rel(cfg: Config, p: Program, t: Target, s: Source, ph: Phase)
    requires ValidProgram(p)
  {
    && Sound(cfg, p, t.cache)
    && Agree(s.mem, t.mem, s.cpu.Esp(), WINDOW)
    && At(cfg, p, t, s, ph)
  }

  /** The guest executes one instruction, its memory below the stack being `m`. */
  ghost predicate Executes(p: Program, s: Source, s': Source, m: Mem)
    requires ValidProgram(p)
  {
    Agree(s.mem, m, s.cpu.Esp(), WINDOW) && s' == Exec(p, s.(mem := m))
  }

  // ----- addresses -----

  lemma Above(e: Word, k: int, n: int)
    ensures W(Below(e, k) + n) == Below(e, k - n)
    ensures Below(e, 0) == e
  {
  }

  lemma WordOf(v: int)
    requires 0 <= v < TWO32
    ensures W(v) == v
  {
  }
}
