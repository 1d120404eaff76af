/**
 GS-relative instructions (src/dbt/x86.c): the address base is added through a scratch register
 that the instruction does not use.
 */
module GsRewrite {
  import opened Basics
  import opened DbtMachine
  import opened ModRM

  // ----- the registers an instruction uses -----

  /** What the translator knows of an instruction: its operand descriptors, its handler byte, its
      register field (-1 for none), and a rep prefix. */
  datatype Insn = Insn(ops: seq<Byte>, handler: Byte, r: int, rm: Rm, rep: bool)

  predicate Bit(n: Byte, i: nat)
    requires i < 8
  {
    n / [1, 2, 4, 8, 16, 32, 64, 128][i] % 2 == 1
  }

  /** get_implicit_register_usage; operands in the last three bits of the opcode get no register,
      because `op & 8` is 8 for them and the mask does not fit its byte. */
  function Implicit(op: Byte): set<nat> {
    if op / 64 > 0 then {}
    else if 1 <= op <= 4 then {0}
    else if op == 5 then {1}
    else if op == 6 then {2}
    else if 10 <= op <= 12 then {6}
    else if 13 <= op <= 15 then {7}
    else if op >= 16 && op / 8 % 2 == 0 then {0}
    else {}
  }

  const HANDLER_NORMAL := 4 // the bit of 0x10, which stands for ESP as well

  function HandlerRegs(h: Byte): set<nat> {
    if Bit(h, HANDLER_NORMAL) then set i | 0 <= i < 8 && Bit(h, i) else {}
  }

  function RmRegs(rm: Rm): set<nat>
    requires Operand8(rm)
  {
    match rm
    case RegRm(r) => {r}
    case MemRm(b, i, _, _) => (if b == -1 then {} else {b as nat}) + (if i == -1 then {} else {i as nat})
  }

  predicate ValidInsn(i: Insn) {
    |i.ops| == 3 && -1 <= i.r < 8 && ValidRm(i.rm) && i.rm.MemRm?
  }

  function Used(i: Insn): set<nat>
    requires ValidInsn(i)
  {
    Implicit(i.ops[0]) + Implicit(i.ops[1]) + Implicit(i.ops[2]) + HandlerRegs(i.handler)
    + (if i.r == -1 then {} else {i.r as nat}) + RmRegs(i.rm) + (if i.rep then {ECX} else {})
  }

  // The operand kinds that stand for registers without a ModR/M byte, by their codes.
  const AL := 1
  const AH := 2
  const AX_EAX := 3
  const AX_EAX_RAX := 4
  const CL := 5
  const DX := 6
  const SI_M8 := 10
  const SI_M16_32 := 11
  const SI_M16_32_64 := 12
  const DI_M8 := 13
  const DI_M16_32 := 14
  const DI_M16_32_64 := 15

  const EAX := 0
  const EDX := 2
  const ESI := 6
  const EDI := 7

  /** The operand lies in register `r`, or at the address there. */
  predicate Denotes(op: Byte, r: nat) {
    || (r == EAX && op in {AL, AH, AX_EAX, AX_EAX_RAX})
    || (r == ECX && op == CL)
    || (r == EDX && op == DX)
    || (r == ESI && op in {SI_M8, SI_M16_32, SI_M16_32_64})
    || (r == EDI && op in {DI_M8, DI_M16_32, DI_M16_32_64})
  }

  /** The instruction uses `r`: by an operand kind, by its handler's register mask, in its ModR/M and SIB
      bytes, or as the counter of a rep prefix. The other kinds stand for no register; a direct memory
      offset and an immediate only reserve eax. */
  predicate Uses(i: Insn, r: nat)
    requires ValidInsn(i) && r < 8
  {
    || Denotes(i.ops[0], r) || Denotes(i.ops[1], r) || Denotes(i.ops[2], r)
    || (Bit(i.handler, HANDLER_NORMAL) && Bit(i.handler, r))
    || i.r == r || i.rm.base == r || i.rm.index == r || (i.rep && r == ECX)
  }

  /** Exactly the registers that are used are avoided, and perhaps eax. */
  lemma UsedIs(i: Insn, r: nat)
    requires ValidInsn(i) && r < 8
    ensures Uses(i, r) ==> r in Used(i)
    ensures r in Used(i) ==> Uses(i, r) || (r == EAX && exists k :: 0 <= k < 3 && 16 <= i.ops[k] < 64 && i.ops[k] / 8 % 2 == 0)
  {
    ImplicitIs(i.ops[0], r);
    ImplicitIs(i.ops[1], r);
    ImplicitIs(i.ops[2], r);
  }

  lemma ImplicitIs(op: Byte, r: nat)
    ensures r in Implicit(op) <==> Denotes(op, r) || (r == EAX && 16 <= op < 64 && op / 8 % 2 == 0)
  {
  }

  /** The mask REG_AX, REG_CX and so on of the `i`-th register, if it is in the set. */
  function MaskIn(regs: set<nat>, i: nat): int
    requires i < 8
  {
    if i in regs then [0x01, 0x02, 0x04, 0x08, 0x10, 0x20, 0x40, 0x80][i] else 0
  }

  /** A handler byte with the bit of HANDLER_NORMAL is the sum of the masks of its registers. */
  lemma MaskIsSum(h: Byte)
    requires Bit(h, HANDLER_NORMAL)
    ensures var r := HandlerRegs(h);
            h == MaskIn(r, EAX) + MaskIn(r, ECX) + MaskIn(r, EDX) + MaskIn(r, 3) + MaskIn(r, ESP) + MaskIn(r, 5) + MaskIn(r, ESI) + MaskIn(r, EDI)
  {
    hide HandlerRegs, Bit, MaskIn;
    MaskDigit(h, 0);
    MaskDigit(h, 1);
    MaskDigit(h, 2);
    MaskDigit(h, 3);
    MaskDigit(h, 4);
    MaskDigit(h, 5);
    MaskDigit(h, 6);
    MaskDigit(h, 7);
    BinaryDigits(h);
  }

  lemma MaskDigit(h: Byte, i: nat)
    requires i < 8 && Bit(h, HANDLER_NORMAL)
    ensures MaskIn(HandlerRegs(h), i) == [0x01, 0x02, 0x04, 0x08, 0x10, 0x20, 0x40, 0x80][i] * (h / [1, 2, 4, 8, 16, 32, 64, 128][i] % 2)
  {
    assert i in HandlerRegs(h) <==> Bit(h, i);
  }

  lemma BinaryDigits(n: int)
    requires 0 <= n < 256
    ensures n == n % 2 + 2 * (n / 2 % 2) + 4 * (n / 4 % 2) + 8 * (n / 8 % 2) + 16 * (n / 16 % 2) + 32 * (n / 32 % 2) + 64 * (n / 64 % 2) + 128 * (n / 128 % 2)
  {
    assert n / 2 / 2 == n / 4;
    assert n / 4 / 2 == n / 8;
    assert n / 8 / 2 == n / 16;
    assert n / 16 / 2 == n / 32;
    assert n / 32 / 2 == n / 64;
    assert n / 64 / 2 == n / 128;
    assert n / 128 < 2;
  }

  const CANDIDATES: seq<nat> := [0, 1, 2, 3, 6, 7]

  function FirstUnused(used: set<nat>, from: seq<nat>): Option<nat> {
    if from == [] then None
    else if from[0] !in used then Some(from[0])
    else FirstUnused(used, from[1..])
  }

  /** find_unused_register; None stands for its breakpoint. */
  function FindUnused(i: Insn): (r: Option<nat>)
    requires ValidInsn(i)
    ensures r.Some? ==> r.value < 8 && r.value !in Used(i)
  {
    FirstUnusedIs(Used(i), CANDIDATES);
    FirstUnused(Used(i), CANDIDATES)
  }

  lemma {:induction false} FirstUnusedIs(used: set<nat>, from: seq<nat>)
    ensures match FirstUnused(used, from)
            case Some(t) => t in from && t !in used
            case None => forall k :: k in from ==> k in used
  {
    if from != [] && from[0] in used {
      FirstUnusedIs(used, from[1..]);
      assert forall k :: k in from ==> k == from[0] || k in from[1..];
    }
  }

  // ----- meaning -----

  /** What an instruction does with its memory operand at a given address. */
  type Meaning = (Word, Cpu, Mem) -> (Cpu, Mem)

  function SetReg(c: Cpu, t: nat, v: Word): Cpu
    requires t < 8
  {
    c.(regs := c.regs[t := v])
  }

  /** The instruction neither reads nor writes a register outside `used`. */
  ghost predicate Confined(f: Meaning, used: set<nat>) {
    forall t: nat, a: Word, c: Cpu, m: Mem, v: Word :: t < 8 && t !in used ==>
      f(a, SetReg(c, t, v), m) == (SetReg(f(a, c, m).0, t, v), f(a, c, m).1) && f(a, c, m).0.regs[t] == c.regs[t]
  }

  /** The original: at the base of GS plus the effective address. */
  function Original(f: Meaning, rm: Rm, gs: Word, c: Cpu, m: Mem): (Cpu, Mem)
    requires ValidRm(rm) && rm.MemRm?
  {
    f(W(gs + Effective(rm, c.regs)), c, m)
  }

  // ----- the rewritten code -----

  datatype State = State(cpu: Cpu, mem: Mem, scratch: Word)

  /** mov fs:[scratch], temp */
  function Save(s: State, t: nat): State
    requires t < 8
  {
    s.(scratch := s.cpu.regs[t])
  }

  /** mov temp, fs:[gs_addr] */
  function LoadBase(s: State, t: nat, gs: Word): State
    requires t < 8
  {
    s.(cpu := SetReg(s.cpu, t, gs))
  }

  /** lea temp, [temp + base] */
  function AddBase(s: State, t: nat, base: int): State
    requires t < 8 && -1 <= base < 8 && base != ESP
  {
    if base == -1 then s else s.(cpu := SetReg(s.cpu, t, Effective(MemRm(t, base, 0, 0), s.cpu.regs)))
  }

  /** The copied instruction, with the scratch register for its base. */
  function Copied(s: State, f: Meaning, rm: Rm): State
    requires ValidRm(rm) && rm.MemRm?
  {
    var r := f(Effective(rm, s.cpu.regs), s.cpu, s.mem);
    s.(cpu := r.0, mem := r.1)
  }

  /** mov temp, fs:[scratch] */
  function Restore(s: State, t: nat): State
    requires t < 8
  {
    s.(cpu := SetReg(s.cpu, t, s.scratch))
  }

  /** The five instructions that replace a GS-relative one (lines 1568-1608). */
  function Rewritten(f: Meaning, rm: Rm, gs: Word, t: nat, s: State): State
    requires ValidRm(rm) && rm.MemRm? && rm.base != ESP && t < 8
  {
    Restore(Copied(AddBase(LoadBase(Save(s, t), t, gs), t, rm.base), f, rm.(base := t)), t)
  }

  lemma SumOfBase(gs: Word, base: Word, x: int, d: int)
    ensures W(W(gs + base * 1 + 0) + x + d) == W(gs + W(base + x + d))
  {
    DivMod(gs + base);
    DivMod(base + x + d);
    DivMod(gs + W(base + x + d));
    ModUnique(W(gs + base) + x + d, W(gs + W(base + x + d)),
              (base + x + d) / TWO32 + (gs + W(base + x + d)) / TWO32 - (gs + base) / TWO32);
  }

  lemma AbsentBase(gs: Word, x: int, d: int)
    ensures W(gs + x + d) == W(gs + W(0 + x + d))
  {
    DivMod(x + d);
    DivMod(gs + W(x + d));
    ModUnique(gs + x + d, W(gs + W(x + d)), (x + d) / TWO32 + (gs + W(x + d)) / TWO32);
  }

  /** The copied instruction addresses what the original does. */
  lemma AddressKept(rm: Rm, gs: Word, t: nat, s: State)
    requires ValidRm(rm) && rm.MemRm? && rm.base != ESP && t < 8 && t != ESP && t != rm.base && t != rm.index
    ensures var s' := AddBase(LoadBase(Save(s, t), t, gs), t, rm.base);
            Effective(rm.(base := t), s'.cpu.regs) == W(gs + Effective(rm, s.cpu.regs))
  {
    var regs := s.cpu.regs;
    var x := if rm.index == -1 then 0 else Scaled(regs[rm.index], rm.scale);
    if rm.base == -1 {
      AbsentBase(gs, x, rm.disp);
    } else {
      SumOfBase(gs, regs[rm.base], x, rm.disp);
    }
  }

  /** A GS-relative instruction that is rewritten through the register that find_unused_register
      chooses has the same effect on every register, flag and memory cell as the original. */
  lemma RewriteCorrect(i: Insn, f: Meaning, gs: Word, s: State)
    requires ValidInsn(i) && i.rm.base != ESP && Confined(f, Used(i))
    ensures FindUnused(i).Some? ==>
              var s' := Rewritten(f, i.rm, gs, FindUnused(i).value, s);
              (s'.cpu, s'.mem) == Original(f, i.rm, gs, s.cpu, s.mem)
  {
    hide Used, Rewritten, Original, Confined;
    FirstUnusedIs(Used(i), CANDIDATES);
    if FindUnused(i).Some? {
      var t := FindUnused(i).value;
      assert t in {0, 1, 2, 3, 6, 7};
      assert t !in RmRegs(i.rm) by { RmIsUsed(i); }
      Untouched(i.rm, t);
      RewriteThrough(f, Used(i), i.rm, gs, t, s);
    }
  }

  lemma RmIsUsed(i: Insn)
    requires ValidInsn(i)
    ensures RmRegs(i.rm) <= Used(i)
  {
  }

  /** Any register outside the footprint will do. */
  lemma RewriteThrough(f: Meaning, used: set<nat>, rm: Rm, gs: Word, t: nat, s: State)
    requires ValidRm(rm) && rm.MemRm? && rm.base != ESP && t < 8 && t != ESP && t != rm.base && t != rm.index
    requires Confined(f, used) && t !in used
    ensures var s' := Rewritten(f, rm, gs, t, s); (s'.cpu, s'.mem) == Original(f, rm, gs, s.cpu, s.mem)
  {
    hide Effective, Confined, SetReg, LoadBase, AddBase;
    AddressKept(rm, gs, t, s);
    Prepared(rm, gs, t, s);
    var a := W(gs + Effective(rm, s.cpu.regs));
    var s1 := AddBase(LoadBase(Save(s, t), t, gs), t, rm.base);
    ConfinedAt(f, used, t, a, s.cpu, s.mem, s1.cpu.regs[t]);
    PutBack(f(a, s.cpu, s.mem).0, t, s1.cpu.regs[t]);
  }

  /** Before the copied instruction only the scratch register differs. */
  lemma Prepared(rm: Rm, gs: Word, t: nat, s: State)
    requires ValidRm(rm) && rm.MemRm? && rm.base != ESP && t < 8
    ensures var s1 := AddBase(LoadBase(Save(s, t), t, gs), t, rm.base);
            s1.cpu == SetReg(s.cpu, t, s1.cpu.regs[t]) && s1.mem == s.mem && s1.scratch == s.cpu.regs[t]
  {
    hide Effective;
  }

  lemma ConfinedAt(f: Meaning, used: set<nat>, t: nat, a: Word, c: Cpu, m: Mem, v: Word)
    requires Confined(f, used) && t !in used && t < 8
    ensures f(a, SetReg(c, t, v), m) == (SetReg(f(a, c, m).0, t, v), f(a, c, m).1) && f(a, c, m).0.regs[t] == c.regs[t]
  {
  }

  lemma PutBack(c: Cpu, t: nat, v: Word)
    requires t < 8
    ensures SetReg(SetReg(c, t, v), t, c.regs[t]) == c
  {
    assert c.regs[t := v][t := c.regs[t]] == c.regs;
  }

  lemma Untouched(rm: Rm, t: nat)
    requires ValidRm(rm) && rm.MemRm? && t !in RmRegs(rm)
    ensures t != rm.base && t != rm.index
  {
  }

  /** The operand bytes of `lea t, [t + base]` are read back as just that if and only if the base is not
      esp: for esp as an index gen_modrm_sib writes nothing, and the opcode swallows what follows. */
  lemma BaseAddedIff(t: nat, base: nat, rest: seq<Byte>)
    requires t < 8 && base < 8
    ensures var p := Decode(Encode(t, MemRm(t, base, 0, 0)) + rest);
            (p.Some? && p.value.r == t && p.value.rest == rest && SameOperand(MemRm(t, base, 0, 0), p.value.rm)) <==> base != ESP
  {
    if base == ESP {
      assert Encode(t, MemRm(t, base, 0, 0)) + rest == rest;
    } else {
      RoundTrip(t, MemRm(t, base, 0, 0), rest);
    }
  }

  // ----- indirect calls and jumps -----

  /** What a push does with its memory operand. */
  function Pushes(a: Word, c: Cpu, m: Mem): (Cpu, Mem) {
    var sp := Below(c.Esp(), 4);
    (c.WithEsp(sp), Write(m, sp, Read(m, a)))
  }

  /** dbt_gen_push_gs_rm: through any scratch register but esp that the operand does not use, the five
      instructions push the word at gs plus the effective address, and change nothing else. */
  lemma PushGsCorrect(rm: Rm, t: nat, s: State)
    requires ValidRm(rm) && rm.MemRm? && rm.base != ESP && t < 8 && t != ESP && t !in RmRegs(rm)
    ensures var s' := Rewritten(Pushes, rm, s.cpu.gs, t, s); var sp := Below(s.cpu.Esp(), 4);
            s'.cpu == s.cpu.WithEsp(sp) && s'.mem == Write(s.mem, sp, Operand(rm, true, s.cpu, s.mem))
  {
    hide Rewritten, Effective, Below, Read, Write, Confined;
    PushConfined();
    Untouched(rm, t);
    RewriteThrough(Pushes, {ESP}, rm, s.cpu.gs, t, s);
  }

  lemma PushConfined()
    ensures Confined(Pushes, {ESP})
  {
    hide Below, Read, Write;
    forall t: nat, a: Word, c: Cpu, m: Mem, v: Word | t < 8 && t !in {ESP}
      ensures Pushes(a, SetReg(c, t, v), m) == (SetReg(Pushes(a, c, m).0, t, v), Pushes(a, c, m).1) && Pushes(a, c, m).0.regs[t] == c.regs[t]
    {
      var sp := Below(c.Esp(), 4);
      assert c.regs[t := v][ESP := sp] == c.regs[ESP := sp][t := v];
    }
  }

  /** The register chosen is the first of eax, ecx, edx, ebx, esi and edi that is not used. */
  lemma FirstOfAll(i: Insn)
    requires ValidInsn(i) && FindUnused(i).Some?
    ensures var t := FindUnused(i).value;
            t in {EAX, ECX, EDX, 3, ESI, EDI} && t !in Used(i) && forall k: nat :: k < t && k in {EAX, ECX, EDX, 3, ESI, EDI} ==> k in Used(i)
  {
    hide Used;
    FirstUnusedIs(Used(i), CANDIDATES);
    Ascending(Used(i), CANDIDATES);
  }

  lemma {:induction false} Ascending(used: set<nat>, from: seq<nat>)
    requires forall i, j :: 0 <= i < j < |from| ==> from[i] < from[j]
    ensures FirstUnused(used, from).Some? ==> forall k :: k in from && k < FirstUnused(used, from).value ==> k in used
  {
    if from != [] && from[0] in used {
      Ascending(used, from[1..]);
      assert forall k :: k in from ==> k == from[0] || k in from[1..];
    }
  }

  /** The breakpoint is reached exactly if the instruction uses all six registers. */
  lemma NoneLeftIff(i: Insn)
    requires ValidInsn(i)
    ensures FindUnused(i) == None <==> {0, 1, 2, 3, 6, 7} <= Used(i)
  {
    FirstUnusedIs(Used(i), CANDIDATES);
    assert forall k :: k in CANDIDATES <==> k in {0, 1, 2, 3, 6, 7};
  }
}
