/**
 Every step of the translated program is matched by at most one instruction of the guest.
 */
module DbtSteps {
  import opened Basics
  import opened DbtMachine
  import opened DbtCache
  import opened DbtInvariant
  import opened DbtGrowth
  import opened DbtTemplates
  import opened DbtLookup
  import opened DbtDispatch
  import opened DbtTarget
  import opened DbtRelation

  // ----- what the invariant says about one address -----

  lemma SoundLink(cfg: Config, p: Program, c: Cache, k: int)
    requires Sound(cfg, p, c) && k in c.notes.links
    ensures LinkOk(c, k, c.notes.links[k])
  {
  }

  lemma SoundStart(cfg: Config, p: Program, c: Cache, a: int)
    requires Sound(cfg, p, c) && a in c.notes.origin
    ensures Template(cfg, p, c, c.notes.origin, a, c.notes.origin[a])
  {
  }

  /** A start is at its instruction, or at the jump to where the block goes on. */
  lemma StartOrLink(cfg: Config, p: Program, c: Cache, a: int)
    requires Sound(cfg, p, c) && a in c.notes.origin
    ensures InstrStarts(cfg, p, c, a, c.notes.origin[a]) || JmpLink(c, a, c.notes.origin[a])
  {
    hide InstrAt;
    SoundStart(cfg, p, c, a);
  }

  /** A block begins with its instruction. */
  lemma HeadIsInstr(cfg: Config, p: Program, c: Cache, a: int)
    requires Sound(cfg, p, c) && a in c.notes.heads
    ensures InstrStarts(cfg, p, c, a, c.notes.heads[a])
  {
    hide InstrAt, Inv;
    HeadStarts(cfg, p, c, a);
  }

  lemma SoundPost(cfg: Config, p: Program, c: Cache, x: int)
    requires Sound(cfg, p, c) && x in c.notes.posts
    ensures PostambleAt(c, c.notes.origin, x, c.notes.posts[x])
  {
  }

  lemma SoundStub(cfg: Config, p: Program, c: Cache, x: int)
    requires Sound(cfg, p, c) && x in c.notes.stubs
    ensures SieveStub(c, x, c.notes.stubs[x])
  {
  }

  lemma SoundDispatchers(cfg: Config, p: Program, c: Cache)
    requires Sound(cfg, p, c)
    ensures DispatchersOk(cfg, c)
  {
  }

  /** Addresses of code are words. */
  lemma SoundPlace(cfg: Config, p: Program, c: Cache, k: int)
    requires ValidConfig(cfg) && Sound(cfg, p, c) && k in c.code
    ensures SYSCALL < k && k + Len(c.code[k]) <= cfg.limit <= TWO32
  {
    DispatchRange(cfg);
    assert Placed1(c, SieveDispatch(cfg), cfg.limit, k);
  }

  // ----- memory -----

  /** Writing into a slot below the guest's stack. */
  lemma SlotWrite(m: Mem, m': Mem, e: Word, k: int, v: Word)
    requires Agree(m, m', e, WINDOW) && 4 <= k <= 16
    ensures Agree(m, Write(m', Below(e, k), v), e, WINDOW)
    ensures Read(Write(m', Below(e, k), v), Below(e, k)) == v
    ensures forall j :: 4 <= j <= 16 && (j >= k + 4 || j <= k - 4) ==> Read(Write(m', Below(e, k), v), Below(e, j)) == Read(m', Below(e, j))
  {
    hide Write, Read, Below, Agree;
    WriteInWindow(m', e, k, v, WINDOW);
    AgreeTrans(m, m', Write(m', Below(e, k), v), e, WINDOW);
    ReadBack(m', Below(e, k), v);
    forall j | 4 <= j <= 16 && (j >= k + 4 || j <= k - 4)
      ensures Read(Write(m', Below(e, k), v), Below(e, j)) == Read(m', Below(e, j))
    {
      ReadOther(m', e, k, j, v);
    }
  }

  lemma StubMemory(m: Mem, m1: Mem, m2: Mem, e: Word)
    requires Agree(m, m1, e, WINDOW) && Agree(m1, m2, Below(e, 8), STUB_WINDOW)
    ensures Agree(m, m2, e, WINDOW)
  {
    Above(e, 8, 8);
    AgreeRaised(m1, m2, Below(e, 8), 8, STUB_WINDOW);
    assert Agree(m1, m2, e, STUB_WINDOW + 8);
    AgreeTrans(m, m1, m2, e, WINDOW);
  }

  // ----- registers -----

  lemma CpuLaws(c: Cpu)
    ensures forall a, b :: c.WithEsp(a).WithEsp(b) == c.WithEsp(b)
    ensures forall a, b :: c.WithEcx(a).WithEcx(b) == c.WithEcx(b)
    ensures forall a, b :: c.WithEcx(a).WithEsp(b) == c.WithEsp(b).WithEcx(a)
    ensures c.WithEsp(c.Esp()) == c && c.WithEcx(c.Ecx()) == c
    ensures forall a :: c.WithEsp(a).Esp() == a && c.WithEsp(a).Ecx() == c.Ecx()
    ensures forall a :: c.WithEcx(a).Ecx() == a && c.WithEcx(a).Esp() == c.Esp()
  {
    assert c.regs[ESP := c.Esp()] == c.regs && c.regs[ECX := c.Ecx()] == c.regs;
    forall a, b ensures c.WithEsp(a).WithEsp(b) == c.WithEsp(b) {
      assert c.regs[ESP := a][ESP := b] == c.regs[ESP := b];
    }
    forall a, b ensures c.WithEcx(a).WithEcx(b) == c.WithEcx(b) {
      assert c.regs[ECX := a][ECX := b] == c.regs[ECX := b];
    }
    forall a, b ensures c.WithEcx(a).WithEsp(b) == c.WithEsp(b).WithEcx(a) {
      assert c.regs[ECX := a][ESP := b] == c.regs[ESP := b][ECX := a];
    }
  }

  // ----- branches -----

  lemma LinkStep(cfg: Config, p: Program, t: Target, s: Source) returns (ph: Phase)
    requires ValidProgram(p) && ValidConfig(cfg) && Rel(cfg, p, t, s, Link)
    ensures t.ip in t.cache.code && SafeRm(t.cache.code[t.ip]) && Rel(cfg, p, Next(p, t), s, ph)
    ensures t.ip > SYSCALL && (ph == Start || exists k :: ph == Direct(k, 0))
  {
    hide Sound, Agree;
    SoundLink(cfg, p, t.cache, t.ip);
    SoundPlace(cfg, p, t.cache, t.ip);
    ph := AfterBranch(cfg, p, t, s, t.ip);
  }

  /** Where a patchable branch leads. */
  lemma AfterBranch(cfg: Config, p: Program, t: Target, s: Source, k: int) returns (ph: Phase)
    requires ValidProgram(p) && Sound(cfg, p, t.cache) && BranchTo(t.cache, k, s.pc) && LinkOk(t.cache, k, s.pc)
    ensures forall t': Target :: t'.cache == t.cache && t'.cpu == s.cpu && t'.ip == BranchTarget(t.cache.code[k]) ==> At(cfg, p, t', s, ph)
    ensures ph == Start || ph == Direct(k, 0)
  {
    hide Fixed, Inv, InstrStarts;
    var x := BranchTarget(t.cache.code[k]);
    if x in t.cache.notes.heads && t.cache.notes.heads[x] == s.pc {
      HeadIsInstr(cfg, p, t.cache, x);
      ph := Start;
    } else {
      ph := Direct(k, 0);
    }
  }

  lemma ShortStep(cfg: Config, p: Program, t: Target, s: Source)
    requires ValidProgram(p) && ValidConfig(cfg) && Rel(cfg, p, t, s, Short)
    ensures t.ip in t.cache.code && SafeRm(t.cache.code[t.ip]) && Rel(cfg, p, Next(p, t), s, Link)
    ensures t.ip > SYSCALL
  {
    hide Sound, Agree;
    SoundPlace(cfg, p, t.cache, t.ip);
  }

  lemma FixedOp(c: Cache, k: int, op: Op)
    requires Fixed(c, k, op)
    ensures k in c.code && c.code[k] == op
  {
  }

  lemma DirectStep(cfg: Config, p: Program, t: Target, s: Source, k: int, i: nat)
    requires ValidProgram(p) && ValidConfig(cfg) && i <= 2 && Rel(cfg, p, t, s, Direct(k, i))
    ensures t.ip in t.cache.code && SafeRm(t.cache.code[t.ip]) && Rel(cfg, p, Next(p, t), s, Direct(k, i + 1))
    ensures t.ip > SYSCALL
  {
    hide Sound, Agree, Fixed, Below, Read, Write, W;
    var c := t.cache;
    var patch := PatchAddr(c.code[k], k);
    FixedOp(c, t.ip - 5 * i, PushImm(patch));
    FixedOp(c, t.ip - 5 * i + 5, PushImm(s.pc));
    FixedOp(c, t.ip - 5 * i + 10, Jmp(FIND_DIRECT));
    SoundPlace(cfg, p, c, t.ip);
    SoundPlace(cfg, p, c, k);
    SoundLink(cfg, p, c, k);
    WordOf(patch);
    WordOf(s.pc);
    var e := s.cpu.Esp();
    CpuLaws(s.cpu);
    BelowBelow(e, 4, 4);
    SlotWrite(s.mem, t.mem, e, 4, patch);
    SlotWrite(s.mem, t.mem, e, 8, s.pc);
  }

  lemma FindDirectReturns(cfg: Config, p: Program, t: Target, s: Source, k: int, t': Target)
    requires ValidProgram(p) && ValidConfig(cfg) && Rel(cfg, p, t, s, Direct(k, 3)) && FindDirectStep(cfg, p, t, t')
    ensures Rel(cfg, p, t', s, Start)
  {
    hide Sound, Agree, Fixed, Below, Read, W, FindDirect, Keeps, Find, InstrStarts;
    var e := s.cpu.Esp();
    CpuLaws(s.cpu);
    Above(e, 8, 4);
    Above(e, 8, 8);
    FindDirectInv(cfg, p, t.cache, s.pc, k);
    HeadIsInstr(cfg, p, t'.cache, t'.ip);
    StubMemory(s.mem, t.mem, t'.mem, e);
  }

  // ----- calls -----

  /** Overwriting an entry of the return cache. */
  lemma StoreRetSound(cfg: Config, p: Program, c: Cache, k: int)
    requires Sound(cfg, p, c) && StoreOk(cfg, c, k)
    ensures |c.ret| == TABLE_ENTRIES && Sound(cfg, p, c.(ret := c.ret[c.code[k].slot := c.code[k].v]))
  {
    hide Inv;
    TablesSizes(cfg, p, c);
    InvTables(cfg, p, c);
    Retabled(cfg, p, c, c.(ret := c.ret[c.code[k].slot := c.code[k].v]), c.notes.origin);
  }

  lemma TrampolineKept(c: Cache, ret: seq<int>)
    ensures forall k, dest :: CallTrampolineAt(c, k, dest) ==> CallTrampolineAt(c.(ret := ret), k, dest)
  {
  }

  lemma CallStep(cfg: Config, p: Program, t: Target, s: Source, i: nat)
    requires ValidProgram(p) && ValidConfig(cfg) && i <= 2 && Rel(cfg, p, t, s, Call(i))
    ensures t.ip in t.cache.code && SafeRm(t.cache.code[t.ip]) && Rel(cfg, p, Next(p, t), s, if i == 2 then Link else Call(i + 1))
    ensures t.ip > SYSCALL
  {
    hide Sound, Agree, Below, Read, Write, W, CallTrampolineAt;
    var c := t.cache;
    var e := s.cpu.Esp();
    CpuLaws(s.cpu);
    if i == 0 {
      StoreRetSound(cfg, p, c, t.ip);
      TrampolineKept(c, Next(p, t).cache.ret);
    } else if i == 1 {
      SlotWrite(s.mem, t.mem, e, 4, W(c.code[t.ip].next));
    } else {
      TrampolineOps(c, t.ip, s.pc);
      Above(e, 4, 4);
    }
    SoundPlace(cfg, p, c, t.ip);
  }

  lemma TrampolineOps(c: Cache, k: int, dest: Word)
    requires CallTrampolineAt(c, k, dest)
    ensures k in c.code && c.code[k] == LeaEsp(4) && JmpLink(c, k + 4, dest)
  {
  }

  /** After the operand of an indirect call has been pushed. */
  lemma IndirectCallStep(cfg: Config, p: Program, t: Target, s: Source, i: nat)
    requires ValidProgram(p) && ValidConfig(cfg) && 1 <= i <= 3 && Rel(cfg, p, t, s, IndirectCall(i))
    ensures t.ip in t.cache.code && SafeRm(t.cache.code[t.ip])
    ensures Rel(cfg, p, Next(p, t), s, if i == 3 then Dispatch(1) else IndirectCall(i + 1))
    ensures t.ip > SYSCALL
  {
    hide Sound, Agree, Below, Read, Write, W, Fixed, SieveDispatch, CallDispatch;
    var c := t.cache;
    var e := s.cpu.Esp();
    CpuLaws(s.cpu);
    if i == 1 {
      StoreRetSound(cfg, p, c, t.ip);
    } else if i == 2 {
      SlotWrite(s.mem, t.mem, e, 8, W(c.code[t.ip].next));
      BelowBelow(e, 4, 4);
    } else {
      SoundDispatchers(cfg, p, c);
      FixedOp(c, t.ip, StoreEcx);
      SlotWrite(s.mem, t.mem, e, 8, t.cpu.Ecx());
      SavedByStore(t, s, Next(p, t));
    }
    SoundPlace(cfg, p, c, t.ip);
  }

  lemma SavedByStore(t: Target, s: Source, t': Target)
    requires Pushed(t, s, 8) && t'.cpu == t.cpu && Slot(t', s, 4) == s.pc && Slot(t', s, 8) == t.cpu.Ecx()
    ensures Saved(t', s, 8)
  {
    hide Read, Below;
    CpuLaws(s.cpu);
  }

  lemma IndirectJumpStep(cfg: Config, p: Program, t: Target, s: Source)
    requires ValidProgram(p) && ValidConfig(cfg) && Rel(cfg, p, t, s, IndirectJump)
    ensures t.ip in t.cache.code && SafeRm(t.cache.code[t.ip]) && Rel(cfg, p, Next(p, t), s, Dispatch(0))
    ensures t.ip > SYSCALL
  {
    hide Sound, Agree, Below, Read, W, SieveDispatch;
    SoundPlace(cfg, p, t.cache, t.ip);
  }

  // ----- dispatch -----

  lemma CheckPlace(cfg: Config, p: Program, c: Cache, stub: bool, x: int)
    requires ValidConfig(cfg) && Sound(cfg, p, c) && IsCheck(c, stub, x)
    ensures SYSCALL < x < TWO32
  {
    hide Sound;
    CheckOps(cfg, p, c, stub, x);
    SoundPlace(cfg, p, c, x);
  }

  lemma DispatchStep(cfg: Config, p: Program, t: Target, s: Source, i: nat) returns (ph: Phase)
    requires ValidProgram(p) && ValidConfig(cfg) && i <= 2 && Rel(cfg, p, t, s, Dispatch(i))
    ensures t.ip in t.cache.code && SafeRm(t.cache.code[t.ip]) && Rel(cfg, p, Next(p, t), s, ph)
    ensures t.ip > SYSCALL
    ensures if i < 2 then ph == Dispatch(i + 1) else ph == Fallback || exists x :: 0 < x < TWO32 && ph == Check(true, x, 0)
  {
    hide Sound, Agree, Below, Read, Write, W, Fixed, SieveDispatch, CallDispatch;
    var c := t.cache;
    var e := s.cpu.Esp();
    CpuLaws(s.cpu);
    SoundDispatchers(cfg, p, c);
    if i == 0 {
      FixedOp(c, t.ip, PushEcx);
      BelowBelow(e, 4, 4);
      SlotWrite(s.mem, t.mem, e, 8, t.cpu.Ecx());
      ph := Dispatch(1);
    } else if i == 1 {
      FixedOp(c, t.ip, MovzxEcx);
      Above(e, 8, 4);
      ph := Dispatch(2);
    } else {
      FixedOp(c, t.ip, JmpSieve);
      TablesSizes(cfg, p, c);
      var x := c.sieve[s.pc % TABLE_ENTRIES];
      if x == SIEVE_FALLBACK {
        ph := Fallback;
      } else {
        CheckPlace(cfg, p, c, true, x);
        ph := Check(true, x, 0);
      }
    }
    SoundPlace(cfg, p, c, t.ip);
  }

  // ----- checking stubs -----

  /** The operations of a check. */
  ghost predicate Compares(c: Cache, x: int, pc: Word, long: bool) {
    var j := x + 4 + Len(LeaEcx(pc, long));
    && x in c.code && c.code[x] == LoadEcx && x + 4 in c.code && c.code[x + 4] == LeaEcx(pc, long)
    && j in c.code && c.code[j] == JecxzOp(j + 7) && j + 7 in c.code && c.code[j + 7] == PopEcx
    && j + 8 in c.code && c.code[j + 8] == LeaEsp(4)
  }

  lemma CheckOps(cfg: Config, p: Program, c: Cache, stub: bool, x: int)
    requires ValidConfig(cfg) && Sound(cfg, p, c) && IsCheck(c, stub, x)
    ensures Compares(c, x, Accepts(c, stub, x), LongForm(c, stub, x))
  {
    hide Inv, Len, LongLea, Checker, SieveStub, PostambleAt, Compares;
    if stub {
      SoundStub(cfg, p, c, x);
      StubChecks(c, x);
    } else {
      SoundPost(cfg, p, c, x);
      PostChecks(c, x);
    }
    CheckerOps(c, x, Accepts(c, stub, x), LongForm(c, stub, x));
  }

  lemma StubChecks(c: Cache, x: int)
    requires x in c.notes.stubs && SieveStub(c, x, c.notes.stubs[x])
    ensures Checker(c, x, c.notes.stubs[x], true)
  {
  }

  lemma PostChecks(c: Cache, x: int)
    requires x in c.notes.posts && PostambleAt(c, c.notes.origin, x, c.notes.posts[x])
    ensures Checker(c, x, c.notes.posts[x], LongLea(c.notes.posts[x]))
  {
  }

  lemma CheckerOps(c: Cache, x: int, pc: Word, long: bool)
    requires Checker(c, x, pc, long)
    ensures Compares(c, x, pc, long)
  {
    hide Len;
  }

  /** Where a check that fails goes on. */
  lemma CheckMiss(cfg: Config, p: Program, c: Cache, stub: bool, x: int)
    requires ValidConfig(cfg) && Sound(cfg, p, c) && IsCheck(c, stub, x)
    ensures var k := CheckJump(c, stub, x) + 2;
            && k in c.code && c.code[k].Jmp?
            && (c.code[k].dest == SIEVE_FALLBACK || (stub && c.code[k].dest in c.notes.stubs && c.code[k].dest < x))
  {
    hide Inv, LongLea;
    if stub {
      SoundStub(cfg, p, c, x);
      LongLen(Accepts(c, stub, x));
    } else {
      SoundPost(cfg, p, c, x);
    }
  }

  /** Where a check that succeeds goes on. */
  lemma CheckHit(cfg: Config, p: Program, c: Cache, stub: bool, x: int)
    requires ValidConfig(cfg) && Sound(cfg, p, c) && IsCheck(c, stub, x)
    ensures var q := Accepts(c, stub, x); var k := CheckJump(c, stub, x) + 12;
            if stub then k == x + 22 && k in c.code && c.code[k].Jmp? && c.code[k].dest in c.notes.heads && c.notes.heads[c.code[k].dest] == q
            else k in c.notes.origin && c.notes.origin[k] == q
  {
    hide Inv, LongLea;
    if stub {
      SoundStub(cfg, p, c, x);
      LongLen(Accepts(c, stub, x));
    } else {
      SoundPost(cfg, p, c, x);
    }
  }

  lemma Difference(a: Word, b: Word)
    ensures W(a - b) == 0 <==> a == b
  {
  }

  lemma CheckLens()
    ensures Len(LoadEcx) == 4 && Len(PopEcx) == 1 && Len(LeaEsp(4)) == 4
    ensures forall d :: Len(JecxzOp(d)) == 2
  {
  }

  lemma CompareStep(cfg: Config, p: Program, t: Target, s: Source, stub: bool, x: int, i: nat) returns (ph: Phase)
    requires ValidProgram(p) && ValidConfig(cfg) && Rel(cfg, p, t, s, Check(stub, x, i)) && i <= 2
    ensures t.ip in t.cache.code && SafeRm(t.cache.code[t.ip]) && Rel(cfg, p, Next(p, t), s, ph)
    ensures t.ip > SYSCALL && (ph == Check(stub, x, i + 1) || (i == 2 && ph == Check(stub, x, 4)))
  {
    hide Rel, Next;
    if i < 2 {
      LoadStep(cfg, p, t, s, stub, x, i);
      ph := Check(stub, x, i + 1);
    } else {
      ph := BranchStep(cfg, p, t, s, stub, x);
    }
  }

  lemma LoadStep(cfg: Config, p: Program, t: Target, s: Source, stub: bool, x: int, i: nat)
    requires ValidProgram(p) && ValidConfig(cfg) && Rel(cfg, p, t, s, Check(stub, x, i)) && i < 2
    ensures t.ip in t.cache.code && SafeRm(t.cache.code[t.ip]) && Rel(cfg, p, Next(p, t), s, Check(stub, x, i + 1))
    ensures t.ip > SYSCALL
  {
    hide Rel, Next;
    if i == 0 {
      LoadAddress(cfg, p, t, s, stub, x);
    } else {
      Subtract(cfg, p, t, s, stub, x);
    }
  }

  lemma LoadAddress(cfg: Config, p: Program, t: Target, s: Source, stub: bool, x: int)
    requires ValidProgram(p) && ValidConfig(cfg) && Rel(cfg, p, t, s, Check(stub, x, 0))
    ensures t.ip in t.cache.code && SafeRm(t.cache.code[t.ip]) && Rel(cfg, p, Next(p, t), s, Check(stub, x, 1))
    ensures t.ip > SYSCALL
  {
    hide Sound, Agree, Below, Read, Write, W, LongForm, Accepts, Len;
    CpuLaws(s.cpu);
    CheckOps(cfg, p, t.cache, stub, x);
    CheckLens();
    Above(s.cpu.Esp(), 8, 4);
    SoundPlace(cfg, p, t.cache, t.ip);
  }

  lemma Subtract(cfg: Config, p: Program, t: Target, s: Source, stub: bool, x: int)
    requires ValidProgram(p) && ValidConfig(cfg) && Rel(cfg, p, t, s, Check(stub, x, 1))
    ensures t.ip in t.cache.code && SafeRm(t.cache.code[t.ip]) && Rel(cfg, p, Next(p, t), s, Check(stub, x, 2))
    ensures t.ip > SYSCALL
  {
    hide Sound, Agree, Below, Read, Write, W, LongForm, Accepts, Len;
    CpuLaws(s.cpu);
    CheckOps(cfg, p, t.cache, stub, x);
    SoundPlace(cfg, p, t.cache, t.ip);
  }

  lemma BranchStep(cfg: Config, p: Program, t: Target, s: Source, stub: bool, x: int) returns (ph: Phase)
    requires ValidProgram(p) && ValidConfig(cfg) && Rel(cfg, p, t, s, Check(stub, x, 2))
    ensures t.ip in t.cache.code && SafeRm(t.cache.code[t.ip]) && Rel(cfg, p, Next(p, t), s, ph)
    ensures t.ip > SYSCALL && (ph == Check(stub, x, 3) || ph == Check(stub, x, 4))
  {
    hide Sound, Agree, Below, Read, Write, W, LongForm, Accepts, Len;
    var c := t.cache;
    CheckOps(cfg, p, c, stub, x);
    CheckLens();
    SoundPlace(cfg, p, c, t.ip);
    Difference(s.pc, Accepts(c, stub, x));
    ph := Check(stub, x, if t.cpu.Ecx() == 0 then 4 else 3);
  }

  lemma MissStep(cfg: Config, p: Program, t: Target, s: Source, stub: bool, x: int) returns (ph: Phase)
    requires ValidProgram(p) && ValidConfig(cfg) && Rel(cfg, p, t, s, Check(stub, x, 3))
    ensures t.ip in t.cache.code && SafeRm(t.cache.code[t.ip]) && Rel(cfg, p, Next(p, t), s, ph)
    ensures t.ip > SYSCALL && (ph == Fallback || (stub && exists n :: 0 < n < x && ph == Check(true, n, 0)))
  {
    hide Sound, Agree, Below, Read, Write, W, CheckJump, LongForm;
    CheckMiss(cfg, p, t.cache, stub, x);
    SoundPlace(cfg, p, t.cache, t.ip);
    var d := t.cache.code[t.ip].dest;
    if d != SIEVE_FALLBACK {
      CheckPlace(cfg, p, t.cache, true, d);
    }
    ph := if d == SIEVE_FALLBACK then Fallback else Check(true, d, 0);
  }

  lemma HitStep(cfg: Config, p: Program, t: Target, s: Source, stub: bool, x: int, i: nat) returns (ph: Phase)
    requires ValidProgram(p) && ValidConfig(cfg) && Rel(cfg, p, t, s, Check(stub, x, i)) && 4 <= i <= 6
    ensures t.ip in t.cache.code && SafeRm(t.cache.code[t.ip]) && Rel(cfg, p, Next(p, t), s, ph)
    ensures t.ip > SYSCALL && (ph == Start || ph == Link || (i < 6 && ph == Check(stub, x, i + 1)))
  {
    hide Rel, Next;
    if i == 4 {
      PopStep(cfg, p, t, s, stub, x);
      ph := Check(stub, x, 5);
    } else {
      ph := LeaveStep(cfg, p, t, s, stub, x, i);
    }
  }

  lemma PopStep(cfg: Config, p: Program, t: Target, s: Source, stub: bool, x: int)
    requires ValidProgram(p) && ValidConfig(cfg) && Rel(cfg, p, t, s, Check(stub, x, 4))
    ensures t.ip in t.cache.code && SafeRm(t.cache.code[t.ip]) && Rel(cfg, p, Next(p, t), s, Check(stub, x, 5))
    ensures t.ip > SYSCALL
  {
    hide Sound, Agree, Below, Read, Write, W, LongForm, Accepts, Len;
    CpuLaws(s.cpu);
    CheckOps(cfg, p, t.cache, stub, x);
    CheckLens();
    Above(s.cpu.Esp(), 8, 4);
    SoundPlace(cfg, p, t.cache, t.ip);
  }

  lemma LeaveStep(cfg: Config, p: Program, t: Target, s: Source, stub: bool, x: int, i: nat) returns (ph: Phase)
    requires ValidProgram(p) && ValidConfig(cfg) && Rel(cfg, p, t, s, Check(stub, x, i)) && 5 <= i <= 6
    ensures t.ip in t.cache.code && SafeRm(t.cache.code[t.ip]) && Rel(cfg, p, Next(p, t), s, ph)
    ensures t.ip > SYSCALL && (ph == Start || ph == Link || (i < 6 && ph == Check(stub, x, i + 1)))
  {
    hide Rel, Next, ValidProgram;
    if i == 6 {
      LeaveStub(cfg, p, t, s, stub, x);
      ph := Start;
    } else {
      ph := RestoreStack(cfg, p, t, s, stub, x);
    }
  }

  lemma LeaveStub(cfg: Config, p: Program, t: Target, s: Source, stub: bool, x: int)
    requires ValidProgram(p) && ValidConfig(cfg) && Rel(cfg, p, t, s, Check(stub, x, 6))
    ensures t.ip in t.cache.code && SafeRm(t.cache.code[t.ip]) && Rel(cfg, p, Next(p, t), s, Start)
    ensures t.ip > SYSCALL
  {
    hide Sound, Agree, Below, Read, Write, W, LongForm, Accepts, InstrStarts, JmpLink;
    CheckOps(cfg, p, t.cache, stub, x);
    CheckHit(cfg, p, t.cache, stub, x);
    SoundPlace(cfg, p, t.cache, t.ip);
    HeadIsInstr(cfg, p, t.cache, Next(p, t).ip);
  }

  lemma RestoreStack(cfg: Config, p: Program, t: Target, s: Source, stub: bool, x: int) returns (ph: Phase)
    requires ValidProgram(p) && ValidConfig(cfg) && Rel(cfg, p, t, s, Check(stub, x, 5))
    ensures t.ip in t.cache.code && SafeRm(t.cache.code[t.ip]) && Rel(cfg, p, Next(p, t), s, ph)
    ensures t.ip > SYSCALL && (ph == Start || ph == Link || ph == Check(stub, x, 6))
  {
    hide Sound, Agree, Below, Read, Write, W, LongForm, Accepts, InstrStarts, JmpLink;
    CpuLaws(s.cpu);
    CheckOps(cfg, p, t.cache, stub, x);
    CheckHit(cfg, p, t.cache, stub, x);
    Above(s.cpu.Esp(), 4, 4);
    SoundPlace(cfg, p, t.cache, t.ip);
    if stub {
      ph := Check(stub, x, 6);
    } else {
      var ip := Next(p, t).ip;
      StartOrLink(cfg, p, t.cache, ip);
      ph := if InstrStarts(cfg, p, t.cache, ip, s.pc) then Start else Link;
    }
  }

  lemma SieveReturns(cfg: Config, p: Program, t: Target, s: Source, t': Target)
    requires ValidProgram(p) && ValidConfig(cfg) && Rel(cfg, p, t, s, Fallback) && SieveStep(cfg, p, t, t')
    ensures Rel(cfg, p, t', s, Start)
  {
    hide Sound, Agree, Below, Read, W, FindSieve, Keeps, Find, InstrStarts;
    var e := s.cpu.Esp();
    CpuLaws(s.cpu);
    Above(e, 8, 4);
    Above(e, 8, 8);
    FindSieveInv(cfg, p, t.cache, s.pc);
    HeadIsInstr(cfg, p, t'.cache, t'.ip);
    StubMemory(s.mem, t.mem, t'.mem, e);
  }

  // ----- returns -----

  lemma ReturnOps(c: Cache, a: int)
    requires RetTrampolineAt(c, a)
    ensures a in c.code && c.code[a] == PushEcx && a + 1 in c.code && c.code[a + 1] == MovzxEcx
    ensures a + 6 in c.code && c.code[a + 6] == PushRet && a + 13 in c.code && c.code[a + 13] == RetOp
  {
  }

  /** An entry of the return cache is an address. */
  lemma RetEntryIsWord(cfg: Config, p: Program, c: Cache, v: int)
    requires ValidConfig(cfg) && Sound(cfg, p, c) && RetEntryOk(cfg, c, v)
    ensures W(v) == v
  {
    hide Inv, W;
    SoundDispatchers(cfg, p, c);
    if v == ReturnFallback(cfg) {
      FixedOp(c, v, MovzxEcx);
    } else {
      CheckOps(cfg, p, c, false, v);
    }
    SoundPlace(cfg, p, c, v);
    WordOf(v);
  }

  lemma ReturnStep(cfg: Config, p: Program, t: Target, s: Source, i: nat) returns (ph: Phase)
    requires ValidProgram(p) && ValidConfig(cfg) && i <= 2 && Rel(cfg, p, t, s, Return(i))
    ensures t.ip in t.cache.code && SafeRm(t.cache.code[t.ip]) && Rel(cfg, p, Next(p, t), s, ph)
    ensures t.ip > SYSCALL
    ensures if i < 2 then ph == Return(i + 1) else ph == Dispatch(1) || exists x :: ph == Check(false, x, 0)
  {
    hide Rel, Next;
    if i < 2 {
      ReturnLookup(cfg, p, t, s, i);
      ph := Return(i + 1);
    } else {
      ph := ReturnJump(cfg, p, t, s);
    }
  }

  lemma ReturnLookup(cfg: Config, p: Program, t: Target, s: Source, i: nat)
    requires ValidProgram(p) && ValidConfig(cfg) && i < 2 && Rel(cfg, p, t, s, Return(i))
    ensures t.ip in t.cache.code && SafeRm(t.cache.code[t.ip]) && Rel(cfg, p, Next(p, t), s, Return(i + 1))
    ensures t.ip > SYSCALL
  {
    hide Sound, Agree, Below, Read, Write, W, RetTrampolineAt, RetEntryOk;
    var c := t.cache;
    var e := s.cpu.Esp();
    CpuLaws(s.cpu);
    ReturnOps(c, t.ip - (if i == 0 then 1 else 6));
    TablesSizes(cfg, p, c);
    Above(e, 8, 4);
    BelowBelow(e, 8, 4);
    SoundPlace(cfg, p, c, t.ip);
    if i == 1 {
      var v := c.ret[s.pc % TABLE_ENTRIES];
      RetEntryIsWord(cfg, p, c, v);
      SlotWrite(s.mem, t.mem, e, 12, v);
    }
  }

  lemma ReturnJump(cfg: Config, p: Program, t: Target, s: Source) returns (ph: Phase)
    requires ValidProgram(p) && ValidConfig(cfg) && Rel(cfg, p, t, s, Return(2))
    ensures t.ip in t.cache.code && SafeRm(t.cache.code[t.ip]) && Rel(cfg, p, Next(p, t), s, ph)
    ensures t.ip > SYSCALL && (ph == Dispatch(1) || exists x :: ph == Check(false, x, 0))
  {
    hide Sound, Agree, Below, Read, Write, W, RetTrampolineAt, RetEntryOk;
    var v := Slot(t, s, 12);
    CpuLaws(s.cpu);
    ReturnOps(t.cache, t.ip - 13);
    Above(s.cpu.Esp(), 12, 4);
    SoundPlace(cfg, p, t.cache, t.ip);
    EntryCases(cfg, t.cache, v);
    ph := if v in t.cache.notes.posts then Check(false, v, 0) else Dispatch(1);
  }

  lemma EntryCases(cfg: Config, c: Cache, v: int)
    ensures RetEntryOk(cfg, c, v) ==> v == ReturnFallback(cfg) || v in c.notes.posts
  {
  }

  lemma ReturnNStep(cfg: Config, p: Program, t: Target, s: Source, count: nat, i: nat)
    requires ValidProgram(p) && ValidConfig(cfg) && i <= 1 && Rel(cfg, p, t, s, ReturnN(count, i))
    ensures t.ip in t.cache.code && SafeRm(t.cache.code[t.ip])
    ensures Rel(cfg, p, Next(p, t), s, if i == 0 then ReturnN(count, 1) else Return(0))
    ensures t.ip > SYSCALL
  {
    hide Rel, Next, ValidProgram;
    if i == 0 {
      LeaStep(cfg, p, t, s, count);
    } else {
      SaveStep(cfg, p, t, s, count);
    }
  }

  lemma LeaStep(cfg: Config, p: Program, t: Target, s: Source, count: nat)
    requires ValidProgram(p) && ValidConfig(cfg) && Rel(cfg, p, t, s, ReturnN(count, 0))
    ensures t.ip in t.cache.code && SafeRm(t.cache.code[t.ip]) && Rel(cfg, p, Next(p, t), s, ReturnN(count, 1))
    ensures t.ip > SYSCALL
  {
    hide Sound, Agree, Below, Read, Write, W, RetTrampolineAt, Fixed;
    CpuLaws(s.cpu);
    FixedOp(t.cache, t.ip, LeaEsp(count - 4));
    Above(s.cpu.Esp(), count, count - 4);
    SoundPlace(cfg, p, t.cache, t.ip);
  }

  lemma SaveStep(cfg: Config, p: Program, t: Target, s: Source, count: nat)
    requires ValidProgram(p) && ValidConfig(cfg) && Rel(cfg, p, t, s, ReturnN(count, 1))
    ensures t.ip in t.cache.code && SafeRm(t.cache.code[t.ip]) && Rel(cfg, p, Next(p, t), s, Return(0))
    ensures t.ip > SYSCALL
  {
    hide Sound, Agree, Below, Read, Write, W, RetTrampolineAt, Fixed;
    var e := s.cpu.Esp();
    CpuLaws(s.cpu);
    ReturnOps(t.cache, t.ip);
    BelowBelow(e, 4, 4);
    SlotWrite(s.mem, t.mem, e, 8, t.cpu.Ecx());
    SoundPlace(cfg, p, t.cache, t.ip);
  }

  // ----- system calls -----

  lemma SystemStep(cfg: Config, p: Program, t: Target, s: Source)
    requires ValidProgram(p) && ValidConfig(cfg) && Rel(cfg, p, t, s, System(0))
    ensures t.ip in t.cache.code && SafeRm(t.cache.code[t.ip]) && Rel(cfg, p, Next(p, t), s, System(1))
    ensures t.ip > SYSCALL
  {
    hide Sound, Agree, Below, Read, W;
    SoundPlace(cfg, p, t.cache, t.ip);
  }

  lemma SystemReturns(cfg: Config, p: Program, t: Target, s: Source, p': Program, t': Target) returns (s': Source)
    requires ValidProgram(p) && ValidProgram(p') && ValidConfig(cfg) && Rel(cfg, p, t, s, System(1)) && SyscallStep(cfg, p, t, p', t')
    ensures Rel(cfg, p', t', s', Start) && Executes(p, s, s', t.mem)
  {
    hide Sound, Agree, Below, Read, W, Find, Init, Extends, InstrStarts;
    var e := s.cpu.Esp();
    CpuLaws(s.cpu);
    Above(e, 4, 4);
    BelowBelow(e, 4, 0);
    s' := Exec(p, s.(mem := t.mem));
    InitInv(cfg, p');
    FindInv(cfg, p', Init(cfg), s'.pc);
    FindInv(cfg, p, t.cache, s'.pc);
    HeadIsInstr(cfg, p', t'.cache, t'.ip);
  }
}
