/**
 The two machines of the dynamic binary translator (src/dbt/x86.c).

 The source machine runs guest instructions; straight-line instructions are opaque state
 transformers. The memory just below the stack pointer is volatile: it may change between
 any two instructions, as it does under asynchronous signals. The operations of the target
 machine are what the translator writes into its code cache.
 */
module DbtMachine {
  import opened Basics

  type Regs = r: seq<Word> | |r| == 8 witness [0, 0, 0, 0, 0, 0, 0, 0]
  type Mem = Word -> Byte

  const ECX := 1
  const ESP := 4

  /** `gs` is the address that the GS segment starts at. */
  datatype Cpu = Cpu(regs: Regs, flags: Word, gs: Word) {
    function Esp(): Word { regs[ESP] }

    function Ecx(): Word { regs[ECX] }

    function WithEsp(v: Word): Cpu { this.(regs := regs[ESP := v]) }

    function WithEcx(v: Word): Cpu { this.(regs := regs[ECX := v]) }
  }

  // ----- memory -----

  function Read(m: Mem, a: Word): Word {
    m(a) + 256 * m(W(a + 1)) + 65536 * m(W(a + 2)) + 16777216 * m(W(a + 3))
  }

  function Write(m: Mem, a: Word, v: Word): Mem {
    (x: Word) =>
      if x == a then v % 256
      else if x == W(a + 1) then v / 256 % 256
      else if x == W(a + 2) then v / 65536 % 256
      else if x == W(a + 3) then v / 16777216
      else m(x)
  }

  lemma ReadBack(m: Mem, a: Word, v: Word)
    ensures Read(Write(m, a, v), a) == v
  {
    BytesApart(a);
    Digits(v);
    hide W;
  }

  lemma BytesApart(a: Word)
    ensures a != W(a + 1) && a != W(a + 2) && a != W(a + 3)
    ensures W(a + 1) != W(a + 2) && W(a + 1) != W(a + 3) && W(a + 2) != W(a + 3)
  {
  }

  lemma Digits(v: Word)
    ensures v % 256 + 256 * (v / 256 % 256) + 65536 * (v / 65536 % 256) + 16777216 * (v / 16777216) == v
    ensures v / 16777216 < 256
  {
    var v1 := v / 256;
    var v2 := v1 / 256;
    assert v == v1 * 256 + v % 256 && v1 == v2 * 256 + v1 % 256 && v2 == v2 / 256 * 256 + v2 % 256;
    Quotients(v);
  }

  lemma Quotients(v: nat)
    ensures v / 65536 == v / 256 / 256 && v / 16777216 == v / 256 / 256 / 256
  {
  }

  /** The address `k` bytes below `e`, counting around the end of the address space. */
  function Below(e: Word, k: int): Word {
    W(e - k)
  }

  /** `a` is one of the `size` bytes below `e`. */
  predicate InWindow(a: Word, e: Word, size: nat) {
    0 < W(e - a) <= size
  }

  ghost predicate Agree(m: Mem, m': Mem, e: Word, size: nat) {
    forall a: Word :: !InWindow(a, e, size) ==> m'(a) == m(a)
  }

  /** A word written just below `e` stays inside the window. */
  lemma WriteInWindow(m: Mem, e: Word, k: int, v: Word, size: nat)
    requires 4 <= k <= size < 0x8000_0000
    ensures Agree(m, Write(m, Below(e, k), v), e, size)
  {
    Dist(e, k, 0);
    Dist(e, k, 1);
    Dist(e, k, 2);
    Dist(e, k, 3);
    forall a: Word | !InWindow(a, e, size) ensures Write(m, Below(e, k), v)(a) == m(a) {
      WriteElsewhere(m, Below(e, k), v, a, e);
    }
  }

  /** Two words below `e` at distance four or more do not overlap. */
  lemma ReadOther(m: Mem, e: Word, k: int, j: int, v: Word)
    requires 4 <= k < 0x8000_0000 && 4 <= j < 0x8000_0000 && (4 <= k - j || 4 <= j - k)
    ensures Read(Write(m, Below(e, k), v), Below(e, j)) == Read(m, Below(e, j))
  {
    hide Write, W, Below;
    ByteApart(m, e, k, j, 0, v);
    ByteApart(m, e, k, j, 1, v);
    ByteApart(m, e, k, j, 2, v);
    ByteApart(m, e, k, j, 3, v);
    WordIsItself(Below(e, j));
  }

  lemma ByteApart(m: Mem, e: Word, k: int, j: int, i: int, v: Word)
    requires 4 <= k < 0x8000_0000 && 4 <= j < 0x8000_0000 && (4 <= k - j || 4 <= j - k) && 0 <= i < 4
    ensures var x := W(Below(e, j) + i); Write(m, Below(e, k), v)(x) == m(x)
  {
    hide W, Below, Write;
    Dist(e, j, i);
    Dist(e, k, 0);
    Dist(e, k, 1);
    Dist(e, k, 2);
    Dist(e, k, 3);
    WriteElsewhere(m, Below(e, k), v, W(Below(e, j) + i), e);
  }

  lemma WriteElsewhere(m: Mem, a: Word, v: Word, x: Word, e: Word)
    requires W(e - x) !in {W(e - W(a + 0)), W(e - W(a + 1)), W(e - W(a + 2)), W(e - W(a + 3))}
    ensures Write(m, a, v)(x) == m(x)
  {
    hide W;
    assert W(a + 0) == a by { WordIsItself(a); }
  }

  lemma WordIsItself(a: Word)
    ensures W(a + 0) == a
  {
  }

  /** The distance of `e` from the `i`-th byte of the word `k` below it. */
  lemma Dist(e: Word, k: int, i: int)
    requires 0 <= k - i < TWO32
    ensures W(e - W(Below(e, k) + i)) == k - i
  {
    DivMod(e - k);
    var b := Below(e, k);
    DivMod(b + i);
    var x := W(b + i);
    ModUnique(e - x, k - i, (e - k) / TWO32 + (b + i) / TWO32);
  }

  lemma DivMod(n: int)
    ensures n == n / TWO32 * TWO32 + W(n)
  {
  }

  lemma ModUnique(n: int, r: int, q: int)
    requires 0 <= r < TWO32 && n == q * TWO32 + r
    ensures W(n) == r
  {
  }

  lemma BelowBelow(e: Word, k: int, j: int)
    ensures Below(Below(e, k), j) == Below(e, k + j)
    ensures Below(e, 0) == e
  {
  }

  lemma AgreeTrans(m: Mem, m1: Mem, m2: Mem, e: Word, size: nat)
    requires Agree(m, m1, e, size) && Agree(m1, m2, e, size)
    ensures Agree(m, m2, e, size)
  {
  }

  /** Raising the stack pointer by `n` while widening the window by `n` keeps the agreement. */
  lemma AgreeRaised(m: Mem, m': Mem, e: Word, n: nat, size: nat)
    requires Agree(m, m', e, size) && n + size < 0x8000_0000
    ensures Agree(m, m', W(e + n), n + size)
  {
    forall a: Word | InWindow(a, e, size) ensures InWindow(a, W(e + n), n + size) {
      var d := W(e - a);
      DivMod(e - a);
      DivMod(e + n);
      ModUnique(W(e + n) - a, d + n, (e - a) / TWO32 - (e + n) / TWO32);
    }
  }

  // ----- operands -----

  /** The r/m operand of an indirect jump or call: a register, or memory at
      base + index * 2^scale + disp, where -1 stands for an absent register. */
  datatype Rm = RegRm(r: nat) | MemRm(base: int, index: int, scale: nat, disp: int)

  predicate ValidRm(rm: Rm) {
    match rm
    case RegRm(r) => r < 8
    case MemRm(b, i, s, d) => -1 <= b < 8 && -1 <= i < 8 && i != ESP && s < 4 && -0x8000_0000 <= d < 0x8000_0000
  }

  function Scaled(v: Word, scale: nat): int
    requires scale < 4
  {
    v * [1, 2, 4, 8][scale]
  }

  function Effective(rm: Rm, regs: Regs): Word
    requires ValidRm(rm) && rm.MemRm?
  {
    W((if rm.base == -1 then 0 else regs[rm.base]) + (if rm.index == -1 then 0 else Scaled(regs[rm.index], rm.scale)) + rm.disp)
  }

  /** The operand; `gs` tells that it has a GS prefix, which only matters for memory. */
  function Operand(rm: Rm, gs: bool, cpu: Cpu, m: Mem): Word
    requires ValidRm(rm)
  {
    if rm.RegRm? then cpu.regs[rm.r]
    else if gs then Read(m, W(cpu.gs + Effective(rm, cpu.regs)))
    else Read(m, Effective(rm, cpu.regs))
  }

  // ----- the source machine -----

  /** Loop kinds of opcodes E0..E3. */
  datatype LoopKind = LoopNe | LoopE | Loop | Jecxz

  datatype Instr =
    | Straight(id: nat, len: nat, outLen: nat)
    | JmpDirect(len: nat, dest: Word)
    | Jcc(cc: nat, len: nat, dest: Word)
    | JccRel8(kind: LoopKind, len: nat, dest: Word)
    | CallDirect(len: nat, dest: Word)
    | CallIndirect(len: nat, rm: Rm, gs: bool)
    | JmpIndirect(len: nat, rm: Rm, gs: bool)
    | Ret
    | RetN(len: nat, count: nat)
    | Int80(len: nat)

  /** An instruction the translator accepts. `call esp` is excluded: its code is wrong by the
      program's own comment (line 1703), and so is a GS-relative operand with esp as its base. A
      straight-line instruction becomes at most 128 bytes; the longest is mov to gs, with about 60. */
  predicate ValidInstr(i: Instr) {
    match i
    case Straight(_, _, outLen) => 0 < outLen <= 128
    case CallIndirect(_, rm, gs) => ValidRm(rm) && rm != RegRm(ESP) && (rm.MemRm? && rm.base == ESP ==> !gs && rm.disp + 4 < 0x8000_0000)
    case JmpIndirect(_, rm, gs) => ValidRm(rm) && (gs && rm.MemRm? ==> rm.base != ESP)
    case RetN(_, count) => count < 0x1_0000
    case _ => true
  }

  /** A guest program: its instructions and the meaning of everything the translator copies. */
  datatype Program = Program(
    at: Word -> Instr,
    body: (nat, Cpu, Mem) -> (Cpu, Mem),
    cond: (nat, Word) -> bool,
    sys: (Cpu, Mem) -> (Cpu, Mem))

  ghost predicate ValidProgram(p: Program) {
    forall pc: Word :: ValidInstr(p.at(pc))
  }

  datatype Source = Source(pc: Word, cpu: Cpu, mem: Mem)

  const ZERO_CC := 4

  function LoopTaken(p: Program, kind: LoopKind, cpu: Cpu): bool {
    match kind
    case LoopNe => W(cpu.Ecx() - 1) != 0 && !p.cond(ZERO_CC, cpu.flags)
    case LoopE => W(cpu.Ecx() - 1) != 0 && p.cond(ZERO_CC, cpu.flags)
    case Loop => W(cpu.Ecx() - 1) != 0
    case Jecxz => cpu.Ecx() == 0
  }

  function LoopCpu(kind: LoopKind, cpu: Cpu): Cpu {
    if kind.Jecxz? then cpu else cpu.WithEcx(W(cpu.Ecx() - 1))
  }

  /** One instruction of the guest. */
  function Exec(p: Program, s: Source): Source
    requires ValidInstr(p.at(s.pc))
  {
    var esp := s.cpu.Esp();
    match p.at(s.pc)
    case Straight(id, len, _) =>
      var r := p.body(id, s.cpu, s.mem);
      Source(W(s.pc + len), r.0, r.1)
    case JmpDirect(_, dest) => s.(pc := dest)
    case Jcc(cc, len, dest) => s.(pc := if p.cond(cc, s.cpu.flags) then dest else W(s.pc + len))
    case JccRel8(kind, len, dest) =>
      Source(if LoopTaken(p, kind, s.cpu) then dest else W(s.pc + len), LoopCpu(kind, s.cpu), s.mem)
    case CallDirect(len, dest) =>
      Source(dest, s.cpu.WithEsp(Below(esp, 4)), Write(s.mem, Below(esp, 4), W(s.pc + len)))
    case CallIndirect(len, rm, gs) =>
      Source(Operand(rm, gs, s.cpu, s.mem), s.cpu.WithEsp(Below(esp, 4)), Write(s.mem, Below(esp, 4), W(s.pc + len)))
    case JmpIndirect(_, rm, gs) => s.(pc := Operand(rm, gs, s.cpu, s.mem))
    case Ret => Source(Read(s.mem, esp), s.cpu.WithEsp(W(esp + 4)), s.mem)
    case RetN(_, count) => Source(Read(s.mem, esp), s.cpu.WithEsp(W(esp + 4 + count)), s.mem)
    case Int80(len) =>
      var r := p.sys(s.cpu, s.mem);
      Source(W(s.pc + len), r.0, r.1)
  }

  // ----- target operations -----

  datatype Op =
    | Body(id: nat, len: nat)                 // a copied instruction
    | Jmp(dest: int)                          // E9 rel32
    | JmpShort(dest: int)                     // EB rel8
    | JccOp(cc: nat, dest: int)               // 0F 8x rel32
    | LoopOp(kind: LoopKind, dest: int)       // E0..E3 rel8
    | JecxzOp(dest: int)                      // E3 rel8
    | PushImm(v: int)                         // 68 imm32
    | PushRm(rm: Rm)                          // 50+r or FF /6
    | PushGs(rm: Rm)                          // the same at gs, through a scratch register
    | StoreRet(slot: nat, v: int)             // mov return_cache[slot], v
    | CallOp(dest: int, next: int)            // E8 rel32; next is the address behind it
    | LeaEsp(k: int)                          // lea esp, [esp + k]
    | PopStack(k: int)                        // pop [esp + k], esp already raised
    | PushEcx                                 // 51
    | PopEcx                                  // 59
    | LoadEcx                                 // mov ecx, [esp + 4]
    | LeaEcx(pc: Word, long: bool)            // lea ecx, [ecx - pc]
    | MovzxEcx                                // movzx ecx, word ptr [esp + 4]
    | StoreEcx                                // mov [esp], ecx
    | JmpSieve                                // jmp [ecx*4 + sieve_table]
    | PushRet                                 // push [ecx*4 + return_cache]
    | RetOp                                   // C3

  predicate IsDisp8(d: int) {
    -128 <= d < 128
  }

  function SignExtended(w: Word): int {
    if w < 0x8000_0000 then w else w - TWO32
  }

  /** Bytes that gen_modrm_sib writes for a memory operand. */
  function ModrmLen(rm: Rm): nat
    requires rm.MemRm?
  {
    if rm.base == -1 && rm.index == -1 then 5
    else if rm.base == -1 then 6
    else if rm.base == ESP || rm.index != -1 then (if IsDisp8(rm.disp) then 3 else 6)
    else if IsDisp8(rm.disp) then 2 else 5
  }

  function Len(op: Op): (n: nat)
    ensures 0 < n || op.Body?
    ensures !op.Body? ==> n <= if op.PushGs? then 32 else 10
  {
    match op
    case Body(_, len) => len
    case Jmp(_) => 5
    case JmpShort(_) => 2
    case JccOp(_, _) => 6
    case LoopOp(_, _) => 2
    case JecxzOp(_) => 2
    case PushImm(_) => 5
    case PushRm(rm) => if rm.RegRm? then 1 else 1 + ModrmLen(rm)
    case PushGs(rm) => if rm.RegRm? then 1 else 22 + (if rm.base == -1 then 0 else 4) + ModrmLen(rm.(base := 0))
    case StoreRet(_, _) => 10
    case CallOp(_, _) => 5
    case LeaEsp(k) => if IsDisp8(k) then 4 else 7
    case PopStack(k) => if IsDisp8(k) then 4 else 7
    case PushEcx => 1
    case PopEcx => 1
    case LoadEcx => 4
    case LeaEcx(_, long) => if long then 6 else 3
    case MovzxEcx => 5
    case StoreEcx => 3
    case JmpSieve => 7
    case PushRet => 7
    case RetOp => 1
  }
}
