/**
 Each case of dbt_translate leaves behind the template of its instruction.
 */
module DbtTemplates {
  import opened Basics
  import opened DbtMachine
  import opened DbtCache
  import opened DbtInvariant
  import opened DbtGrowth

  /** `c` is a sound cache that grew out of `c0` without a new block start. */
  ghost predicate Grown(cfg: Config, p: Program, c0: Cache, c: Cache, org: map<int, Word>) {
    && Inv(cfg, p, c, org) && Extends(c0, c) && c.notes.origin == c0.notes.origin && c.notes.heads == c0.notes.heads
    && (forall k, op :: Fixed(c0, k, op) ==> Fixed(c, k, op))
    && (forall k, dest :: JmpLink(c0, k, dest) ==> JmpLink(c, k, dest))
  }

  lemma GrownHere(cfg: Config, p: Program, c: Cache, org: map<int, Word>)
    requires Inv(cfg, p, c, org)
    ensures Grown(cfg, p, c, c, org)
  {
    hide Inv, Fixed;
    ExtendsSelf(c);
  }

  lemma GrownTrans(cfg: Config, p: Program, c0: Cache, c: Cache, c': Cache, org: map<int, Word>, org': map<int, Word>)
    requires Grown(cfg, p, c0, c, org) && Grown(cfg, p, c, c', org')
    ensures Grown(cfg, p, c0, c', org')
  {
    hide Inv, Fixed, Extends, JmpLink;
    ExtendsTrans(c0, c, c');
  }

  /** One more operation at the front. */
  lemma PutGrown(cfg: Config, p: Program, c0: Cache, c: Cache, org: map<int, Word>, op: Op)
    requires Grown(cfg, p, c0, c, org) && 0 < Len(op) && c.out + Len(op) <= c.end
    ensures Grown(cfg, p, c0, Put(c, op), org) && Fixed(Put(c, op), c.out, op)
    ensures forall k, o :: Fixed(c, k, o) ==> Fixed(Put(c, op), k, o)
    ensures forall k, d :: JmpLink(c, k, d) ==> JmpLink(Put(c, op), k, d)
  {
    hide Inv, Fixed, Extends, JmpLink, Len;
    PutInv(cfg, p, c, org, op);
    FixedStays(c, Put(c, op));
    assert Put(c, op).notes.origin == c.notes.origin;
    assert Grown(cfg, p, c, Put(c, op), org);
    GrownTrans(cfg, p, c0, c, Put(c, op), org, org);
  }

  // ----- postambles and trampolines -----

  /** Nothing is noted at the front. */
  lemma FrontIsNew(cfg: Config, p: Program, c: Cache, org: map<int, Word>)
    requires Inv(cfg, p, c, org) && c.out < c.end
    ensures c.out !in c.code && c.out !in c.notes.posts && c.out !in c.notes.origin
  {
    GapIsFree(cfg, c, c.out);
    assert c.out in c.notes.posts ==> PostambleAt(c, org, c.out, c.notes.posts[c.out]);
  }

  lemma PostambleInv(cfg: Config, p: Program, c: Cache, org: map<int, Word>, pc: Word)
    requires Inv(cfg, p, c, org) && c.out + 22 <= c.end && PostEnd(c.out, pc) !in org
    ensures var c' := Postamble(c, pc); var org' := org[c'.out := pc];
            && c'.out == PostEnd(c.out, pc) && PostNoted(c', c.out, pc)
            && Grown(cfg, p, c, c', org')
  {
    hide Inv, Fixed, Extends, JmpLink, LongLea;
    var x, l := c.out, c.out + 4 + LeaLen(pc);
    var c1 := Put(c, LoadEcx);
    var c2 := Put(c1, LeaEcx(pc, LongLea(pc)));
    var c3 := Put(c2, JecxzOp(l + 7));
    var c4 := Put(c3, Jmp(SIEVE_FALLBACK));
    var c5 := Put(c4, PopEcx);
    var c6 := Put(c5, LeaEsp(4));
    GrownHere(cfg, p, c, org);
    FrontIsNew(cfg, p, c, org);
    PutGrown(cfg, p, c, c, org, LoadEcx);
    PutGrown(cfg, p, c, c1, org, LeaEcx(pc, LongLea(pc)));
    PutGrown(cfg, p, c, c2, org, JecxzOp(l + 7));
    PutGrown(cfg, p, c, c3, org, Jmp(SIEVE_FALLBACK));
    PutGrown(cfg, p, c, c4, org, PopEcx);
    PutGrown(cfg, p, c, c5, org, LeaEsp(4));
    NotePost(cfg, p, c, c6, org, x, pc);
  }

  /** A postamble that has been written is noted. */
  lemma NotePost(cfg: Config, p: Program, c0: Cache, c: Cache, org: map<int, Word>, x: int, pc: Word)
    requires Grown(cfg, p, c0, c, org) && Checker(c, x, pc, LongLea(pc)) && Fixed(c, x + 6 + LeaLen(pc), Jmp(SIEVE_FALLBACK))
    requires PostEnd(x, pc) !in org && x !in c.notes.posts
    ensures var c' := c.(notes := c.notes.(posts := c.notes.posts[x := pc])); Grown(cfg, p, c0, c', org[PostEnd(x, pc) := pc])
  {
    hide Inv, Fixed, Layout, NotesPlaced, PostambleAt, LinkOk, Extends, JmpLink, LongLea, Len, Checker;
    var c' := c.(notes := c.notes.(posts := c.notes.posts[x := pc]));
    var org' := org[PostEnd(x, pc) := pc];
    NoteKeeps(c, x, pc);
    NoteIsPost(c, org, x, pc);
    NotePlaced(cfg, p, c, org, x, pc);
    GrowCode(cfg, p, c, c', org, org');
    assert Grown(cfg, p, c, c', org');
    GrownTrans(cfg, p, c0, c, c', org, org');
  }

  lemma NoteKeeps(c: Cache, x: int, pc: Word)
    requires x !in c.notes.posts
    ensures var c' := c.(notes := c.notes.(posts := c.notes.posts[x := pc]));
            && Extends(c, c') && (forall k, op :: Fixed(c, k, op) ==> Fixed(c', k, op))
            && (forall k, dest :: JmpLink(c, k, dest) ==> JmpLink(c', k, dest))
  {
  }

  lemma NoteIsPost(c: Cache, org: map<int, Word>, x: int, pc: Word)
    requires Checker(c, x, pc, LongLea(pc)) && Fixed(c, x + 6 + LeaLen(pc), Jmp(SIEVE_FALLBACK))
    ensures PostambleAt(c.(notes := c.notes.(posts := c.notes.posts[x := pc])), org[PostEnd(x, pc) := pc], x, pc)
  {
    hide LongLea, Len;
  }

  lemma NotePlaced(cfg: Config, p: Program, c: Cache, org: map<int, Word>, x: int, pc: Word)
    requires Inv(cfg, p, c, org)
    ensures var c' := c.(notes := c.notes.(posts := c.notes.posts[x := pc])); Layout(cfg, c') && NotesPlaced(c')
  {
    SameLayout(cfg, c, c.(notes := c.notes.(posts := c.notes.posts[x := pc])));
  }

  lemma RetTrampolineInv(cfg: Config, p: Program, c0: Cache, c: Cache, org: map<int, Word>)
    requires Grown(cfg, p, c0, c, org) && c.out + 14 <= c.end
    ensures var c' := RetTrampoline(c); Grown(cfg, p, c0, c', org) && RetTrampolineAt(c', c.out)
    ensures forall k, op :: Fixed(c, k, op) ==> Fixed(RetTrampoline(c), k, op)
  {
    hide Inv, Fixed, Extends, JmpLink;
    var c1 := Put(c, PushEcx);
    var c2 := Put(c1, MovzxEcx);
    var c3 := Put(c2, PushRet);
    PutGrown(cfg, p, c0, c, org, PushEcx);
    PutGrown(cfg, p, c0, c1, org, MovzxEcx);
    PutGrown(cfg, p, c0, c2, org, PushRet);
    PutGrown(cfg, p, c0, c3, org, RetOp);
  }

  lemma PutJmpGrown(cfg: Config, p: Program, c0: Cache, c: Cache, org: map<int, Word>, dest: Word)
    requires Grown(cfg, p, c0, c, org) && c.out + STUB_SIZE + 5 <= c.end
    ensures var c' := PutJmp(c, dest);
            && Grown(cfg, p, c0, c', org) && Extends(c, c') && JmpLink(c', c.out, dest)
            && c'.out == c.out + 5 && c.end - STUB_SIZE <= c'.end
            && (forall k, op :: Fixed(c, k, op) ==> Fixed(c', k, op))
            && (forall k, d :: JmpLink(c, k, d) ==> JmpLink(c', k, d))
  {
    hide Inv, Fixed, Extends, JmpLink, PutJmp;
    PutJmpInv(cfg, p, c, org, dest);
    FixedStays(c, PutJmp(c, dest));
    assert Grown(cfg, p, c, PutJmp(c, dest), org);
    GrownTrans(cfg, p, c0, c, PutJmp(c, dest), org, org);
  }

  // ----- the call trampoline -----

  /** A jump written into a stub. */
  lemma StubJmpInv(cfg: Config, p: Program, c: Cache, org: map<int, Word>, a: int, lim: int, x: int, dest: Word)
    requires Inv(cfg, p, c, org) && Region(c, a, lim) && a + 5 <= lim <= cfg.limit && a - NEXT_OFFSET !in c.notes.stubs
    requires (x in c.notes.heads && c.notes.heads[x] == dest) || IsDirectStub(c, x, dest, a + 1)
    ensures var c' := PutAt(Link(c, a, dest), a, Jmp(x));
            Inv(cfg, p, c', org) && Extends(c, c') && JmpLink(c', a, dest) && c'.notes.origin == c.notes.origin && c'.notes.heads == c.notes.heads
  {
    hide Region, Layout, NotesPlaced, Fixed, Extends, IsDirectStub, LinkOk, SieveStub, PostambleAt, Template, TablesOk, DispatchersOk;
    var c' := PutAt(Link(c, a, dest), a, Jmp(x));
    StubJmpPlaced(cfg, c, a, lim, x, dest);
    LinkOfBranch(c, c', a, Jmp(x), dest);
    GrowCode(cfg, p, c, c', org, org);
  }

  lemma StubJmpPlaced(cfg: Config, c: Cache, a: int, lim: int, x: int, dest: Word)
    requires Layout(cfg, c) && NotesPlaced(c) && Region(c, a, lim) && a + 5 <= lim <= cfg.limit && a - NEXT_OFFSET !in c.notes.stubs
    ensures var c' := PutAt(Link(c, a, dest), a, Jmp(x));
            Layout(cfg, c') && NotesPlaced(c') && Extends(c, c') && JmpLink(c', a, dest)
  {
    hide SieveDispatch, CallDispatch, Layout;
    var c' := PutAt(Link(c, a, dest), a, Jmp(x));
    PutAtPlaced(cfg, c, a, Jmp(x));
    SameLayout(cfg, PutAt(c, a, Jmp(x)), c');
    BackIsFree(cfg, c, a, lim);
  }

  lemma BackIsFree(cfg: Config, c: Cache, a: int, lim: int)
    requires Layout(cfg, c) && Region(c, a, lim) && a < lim
    ensures a !in c.code
  {
    assert a in c.code ==> 0 < Len(c.code[a]);
  }

  lemma CallTrampolineInv(cfg: Config, p: Program, c: Cache, org: map<int, Word>, dest: Word)
    requires Inv(cfg, p, c, org) && c.out + 2 * STUB_SIZE <= c.end
    ensures var t := CallTrampoline(c, dest);
            && Grown(cfg, p, c, t.cache, org) && CallTrampolineAt(t.cache, t.addr, dest)
            && t.cache.out == c.out && c.end - 2 * STUB_SIZE <= t.cache.end
  {
    hide Inv, Extends, IsDirectStub, Fixed, JmpLink, DirectStub, DirectTrampoline, Region, Len;
    StubLens(0, 0);
    var c1 := Reserve(c);
    var e := c1.end;
    ReserveInv(cfg, p, c, org);
    var c2 := PutAt(c1, e, LeaEsp(4));
    PutAtInv(cfg, p, c1, org, LeaEsp(4), e, c.end);
    TrampolineInv(cfg, p, c2, org, dest, e + 5);
    var t := DirectTrampoline(c2, dest, e + 5);
    TrampolineRegion(cfg, p, c2, org, dest, e + 5, e + 4, c.end);
    NoStubBelow(cfg, p, c, org, e + 4 - NEXT_OFFSET);
    StubJmpInv(cfg, p, t.cache, org, e + 4, c.end, t.addr, dest);
    var c4 := CallTrampoline(c, dest).cache;
    ExtendsTrans(c, c1, c2);
    ExtendsTrans(c, c2, t.cache);
    ExtendsTrans(c, t.cache, c4);
    FixedStays(c2, t.cache);
    FixedStays(t.cache, c4);
    FixedStays(c, c4);
  }

  lemma TrampolineRegion(cfg: Config, p: Program, c: Cache, org: map<int, Word>, dest: Word, patch: int, used: int, lim: int)
    requires Inv(cfg, p, c, org) && Region(c, used, lim)
    ensures Region(DirectTrampoline(c, dest, patch).cache, used, lim)
  {
    hide DirectStub, Region;
    DirectStubRegion(cfg, c, dest, patch, used, lim);
  }

  lemma NoStubBelow(cfg: Config, p: Program, c: Cache, org: map<int, Word>, x: int)
    requires Inv(cfg, p, c, org) && x < c.end
    ensures x !in c.notes.stubs
  {
  }

  // ----- the templates -----

  /** What dbt_translate has to leave behind for the instruction at `pc`. */
  ghost predicate Emitted(cfg: Config, p: Program, c: Cache, c': Cache, org: map<int, Word>, pc: Word) {
    Grown(cfg, p, c, c', org) && InstrAt(cfg, p, c', org, c.out, pc)
  }

  lemma JccEmitted(cfg: Config, p: Program, c: Cache, org: map<int, Word>, pc: Word)
    requires Inv(cfg, p, c, org) && c.out + 800 <= c.end && p.at(pc).Jcc?
    ensures var i := p.at(pc); Emitted(cfg, p, c, GenJcc(c, i.cc, i.dest, W(pc + i.len)), org, pc)
  {
    hide Inv, Fixed, Extends, PutJmp, PutJcc;
    var i := p.at(pc);
    var c1 := PutJcc(c, i.cc, i.dest);
    PutJccInv(cfg, p, c, org, i.cc, i.dest);
    FixedStays(c, c1);
    PutJmpGrown(cfg, p, c, c1, org, W(pc + i.len));
    JccStays(c1, PutJmp(c1, W(pc + i.len)), c.out);
  }

  lemma JccStays(c: Cache, c': Cache, a: int)
    requires Extends(c, c') && a in c.notes.links && a in c.code
    ensures a in c'.notes.links && c'.notes.links[a] == c.notes.links[a] && a in c'.code && c'.code[a] == c.code[a]
  {
  }

  lemma JccRel8Emitted(cfg: Config, p: Program, c: Cache, org: map<int, Word>, pc: Word)
    requires Inv(cfg, p, c, org) && c.out + 800 <= c.end && p.at(pc).JccRel8?
    ensures var i := p.at(pc); Emitted(cfg, p, c, GenJccRel8(c, i.kind, i.dest, W(pc + i.len)), org, pc)
  {
    hide Inv, Fixed, Extends, JmpLink, PutJmp;
    var i := p.at(pc);
    var c1 := Put(c, LoopOp(i.kind, c.out + 4));
    var c2 := Put(c1, JmpShort(c.out + 9));
    GrownHere(cfg, p, c, org);
    PutGrown(cfg, p, c, c, org, LoopOp(i.kind, c.out + 4));
    PutGrown(cfg, p, c, c1, org, JmpShort(c.out + 9));
    PutJmpGrown(cfg, p, c, c2, org, i.dest);
    PutJmpGrown(cfg, p, c, PutJmp(c2, i.dest), org, W(pc + i.len));
  }

  lemma SmallEmitted(cfg: Config, p: Program, c: Cache, org: map<int, Word>, pc: Word)
    requires Inv(cfg, p, c, org) && c.out + 800 <= c.end
    ensures var i := p.at(pc); i.Int80? ==> Emitted(cfg, p, c, GenInt80(c, W(pc + i.len)), org, pc)
    ensures var i := p.at(pc); i.JmpIndirect? ==> Emitted(cfg, p, c, GenJmpIndirect(cfg, c, i.rm, i.gs), org, pc)
    ensures var i := p.at(pc); i.JmpDirect? ==> Emitted(cfg, p, c, PutJmp(c, i.dest), org, pc)
    ensures p.at(pc).Ret? ==> Emitted(cfg, p, c, RetTrampoline(c), org, pc)
  {
    hide Inv, Fixed, Extends, JmpLink, PutJmp, SieveDispatch, RetTrampoline, RetTrampolineAt;
    GrownHere(cfg, p, c, org);
    match p.at(pc)
    case Int80(len) =>
      PutGrown(cfg, p, c, c, org, PushImm(W(pc + len)));
      PutGrown(cfg, p, c, Put(c, PushImm(W(pc + len))), org, Jmp(SYSCALL));
    case JmpIndirect(_, rm, gs) =>
      PutGrown(cfg, p, c, c, org, PushOf(rm, gs));
      PutGrown(cfg, p, c, Put(c, PushOf(rm, gs)), org, Jmp(SieveDispatch(cfg)));
    case JmpDirect(_, dest) => PutJmpGrown(cfg, p, c, c, org, dest);
    case Ret => RetTrampolineInv(cfg, p, c, c, org);
    case _ =>
  }

  lemma RetNEmitted(cfg: Config, p: Program, c: Cache, org: map<int, Word>, pc: Word)
    requires Inv(cfg, p, c, org) && c.out + 800 <= c.end && p.at(pc).RetN?
    ensures Emitted(cfg, p, c, GenRetN(c, p.at(pc).count), org, pc)
  {
    hide Inv, Fixed, Extends, JmpLink, RetTrampoline;
    var k := p.at(pc).count - 4;
    var c1 := Put(c, PopStack(k));
    var c2 := Put(c1, LeaEsp(k));
    GrownHere(cfg, p, c, org);
    PutGrown(cfg, p, c, c, org, PopStack(k));
    PutGrown(cfg, p, c, c1, org, LeaEsp(k));
    RetTrampolineInv(cfg, p, c, c2, org);
  }

  lemma StraightEmitted(cfg: Config, p: Program, c: Cache, org: map<int, Word>, pc: Word)
    requires Inv(cfg, p, c, org) && c.out + 800 <= c.end && p.at(pc).Straight? && ValidInstr(p.at(pc))
    requires forall a :: c.out < a < c.end ==> a !in org
    ensures var i := p.at(pc); var c' := GenStraight(c, i.id, i.outLen);
            Emitted(cfg, p, c, c', org[c'.out := W(pc + i.len)], pc)
  {
    hide Inv, Fixed, Extends, JmpLink;
    var i := p.at(pc);
    var op := Body(i.id, i.outLen);
    GrownHere(cfg, p, c, org);
    PutGrown(cfg, p, c, c, org, op);
    MoreStarts(cfg, p, Put(c, op), org, c.out + i.outLen, W(pc + i.len));
  }

  /** The invariant does not mind one more open boundary. */
  lemma MoreStarts(cfg: Config, p: Program, c: Cache, org: map<int, Word>, a: int, pc: Word)
    requires Inv(cfg, p, c, org) && a !in org
    ensures Inv(cfg, p, c, org[a := pc])
  {
    hide LinkOk, SieveStub, PostambleAt, Template, Placed1;
    ExtendsSelf(c);
    GrowCode(cfg, p, c, c, org, org[a := pc]);
  }

  lemma CallDirectEmitted(cfg: Config, p: Program, c: Cache, org: map<int, Word>, pc: Word)
    requires Inv(cfg, p, c, org) && c.out + 800 <= c.end && p.at(pc).CallDirect?
    requires forall a :: c.out < a < c.end ==> a !in org
    ensures var i := p.at(pc); var next := W(pc + i.len); var c' := GenCallDirect(cfg, c, i.dest, next);
            Emitted(cfg, p, c, c', org[c'.out := next], pc)
  {
    hide Inv, Fixed, Extends, JmpLink, CallTrampoline, CallTrampolineAt, Postamble;
    var i := p.at(pc);
    var next, a := W(pc + i.len), c.out;
    var v := ReturnTarget(cfg, a + 20);
    var store := StoreRet(next % TABLE_ENTRIES, v);
    var c1 := Put(c, PushImm(next));
    var c2 := Put(c1, store);
    GrownHere(cfg, p, c, org);
    PutGrown(cfg, p, c, c, org, PushImm(next));
    PutGrown(cfg, p, c, c1, org, store);
    CallTrampolineInv(cfg, p, c2, org, i.dest);
    var t := CallTrampoline(c2, i.dest);
    GrownTrans(cfg, p, c, c2, t.cache, org, org);
    var call := CallOp(t.addr, a + 20);
    var c3 := Put(t.cache, call);
    PutGrown(cfg, p, c, t.cache, org, call);
    TrampolineStays(t.cache, c3, t.addr, i.dest);
    PostambleInv(cfg, p, c3, org, next);
    var c4 := Postamble(c3, next);
    GrownTrans(cfg, p, c, c3, c4, org, org[c4.out := next]);
    TrampolineStays(c3, c4, t.addr, i.dest);
    FixedIsThere(c4, a + 5, store);
    FixedIsThere(c4, a + 15, call);
  }

  lemma FixedIsThere(c: Cache, k: int, op: Op)
    requires Fixed(c, k, op)
    ensures k in c.code && c.code[k] == op && k !in c.notes.links
  {
  }

  lemma TrampolineStays(c: Cache, c': Cache, t: int, dest: Word)
    requires CallTrampolineAt(c, t, dest)
    requires forall k, op :: Fixed(c, k, op) ==> Fixed(c', k, op)
    requires forall k, d :: JmpLink(c, k, d) ==> JmpLink(c', k, d)
    ensures CallTrampolineAt(c', t, dest)
  {
    hide Fixed, JmpLink;
  }

  lemma CallIndirectThere(cfg: Config, c: Cache, a: int, rm: Rm, gs: bool, next: Word)
    requires var b := a + 5 + Len(PushOf(AfterPush(rm), gs));
             && Fixed(c, a, PushImm(next)) && Fixed(c, a + 5, PushOf(AfterPush(rm), gs))
             && Fixed(c, b, StoreRet(next % TABLE_ENTRIES, ReturnTarget(cfg, b + 15)))
             && Fixed(c, b + 10, CallOp(CallDispatch(cfg), b + 15)) && PostNoted(c, b + 15, next)
    ensures CallIndirectAt(cfg, c, a, rm, gs, next)
  {
    hide PushOf, AfterPush, CallDispatch;
  }

  /** The return address and the operand are pushed. */
  lemma OperandPushed(cfg: Config, p: Program, c: Cache, org: map<int, Word>, push: Op, next: Word)
    requires Inv(cfg, p, c, org) && c.out + 400 <= c.end && 0 < Len(push) <= 300
    ensures var c2 := Put(Put(c, PushImm(next)), push);
            && Grown(cfg, p, c, c2, org) && c2.out == c.out + 5 + Len(push) && c2.end == c.end
            && Fixed(c2, c.out, PushImm(next)) && Fixed(c2, c.out + 5, push)
  {
    hide Inv, Fixed, Extends, JmpLink;
    GrownHere(cfg, p, c, org);
    PutGrown(cfg, p, c, c, org, PushImm(next));
    PutGrown(cfg, p, c, Put(c, PushImm(next)), org, push);
  }

  lemma CallIndirectGrown(cfg: Config, p: Program, c: Cache, org: map<int, Word>, rm: Rm, gs: bool, next: Word)
    requires Inv(cfg, p, c, org) && c.out + 800 <= c.end
    requires forall a :: c.out < a < c.end ==> a !in org
    ensures var c' := GenCallIndirect(cfg, c, rm, gs, next);
            Grown(cfg, p, c, c', org[c'.out := next]) && CallIndirectAt(cfg, c', c.out, rm, gs, next)
  {
    hide Inv, Fixed, Extends, JmpLink, CallDispatch, Postamble, PushOf, AfterPush, CallIndirectAt, Len;
    var push := PushOf(AfterPush(rm), gs);
    PushLens(push);
    StoreLens();
    var b := c.out + 5 + Len(push);
    var store := StoreRet(next % TABLE_ENTRIES, ReturnTarget(cfg, b + 15));
    var call := CallOp(CallDispatch(cfg), b + 15);
    var c2 := Put(Put(c, PushImm(next)), push);
    var c3 := Put(c2, store);
    var c4 := Put(c3, call);
    OperandPushed(cfg, p, c, org, push, next);
    PutGrown(cfg, p, c, c2, org, store);
    PutGrown(cfg, p, c, c3, org, call);
    PostambleInv(cfg, p, c4, org, next);
    var c5 := Postamble(c4, next);
    GrownTrans(cfg, p, c, c4, c5, org, org[c5.out := next]);
    CallIndirectThere(cfg, c5, c.out, rm, gs, next);
  }

  lemma PushLens(op: Op)
    requires op.PushRm? || op.PushGs?
    ensures 0 < Len(op) <= 300
  {
  }

  lemma StoreLens()
    ensures forall slot, v :: Len(StoreRet(slot, v)) == 10
    ensures forall dest, n :: Len(CallOp(dest, n)) == 5
  {
  }

  lemma CallIndirectEmitted(cfg: Config, p: Program, c: Cache, org: map<int, Word>, pc: Word)
    requires Inv(cfg, p, c, org) && c.out + 800 <= c.end && p.at(pc).CallIndirect?
    requires forall a :: c.out < a < c.end ==> a !in org
    ensures var i := p.at(pc); var next := W(pc + i.len); var c' := GenCallIndirect(cfg, c, i.rm, i.gs, next);
            Emitted(cfg, p, c, c', org[c'.out := next], pc)
  {
    hide Inv, Grown, GenCallIndirect, CallIndirectAt;
    var i := p.at(pc);
    CallIndirectGrown(cfg, p, c, org, i.rm, i.gs, W(pc + i.len));
  }

  /** The code of a call makes the entry of its return address in the return cache lead to the postamble
      behind the call, which accepts just that address, unless everything is traced. */
  lemma CallRemembers(cfg: Config, p: Program, c: Cache, org: map<int, Word>, a: int, pc: Word)
    requires InstrAt(cfg, p, c, org, a, pc) && (p.at(pc).CallDirect? || p.at(pc).CallIndirect?)
    ensures var next := W(pc + p.at(pc).len);
            exists k, x :: Fixed(c, k, StoreRet(next % TABLE_ENTRIES, x))
                           && if cfg.traceAll then x == ReturnFallback(cfg) else x in c.notes.posts && c.notes.posts[x] == next
  {
    hide Fixed;
    var i := p.at(pc);
    var next := W(pc + i.len);
    var k := if i.CallDirect? then a + 5 else a + 5 + Len(PushOf(AfterPush(i.rm), i.gs));
    assert StoreRetAt(cfg, c, k, next) && PostNoted(c, k + 15, next);
    assert Fixed(c, k, StoreRet(next % TABLE_ENTRIES, c.code[k].v));
  }

  /** The branch at `k` of `c'` leads to the block that `dest` has in `c`, if it has one; only if it has
      none, a stub is made for the branch, below all others. */
  predicate Leads(c: Cache, c': Cache, k: int, dest: Word) {
    && k in c'.code
    && match FindBlock(c, dest)
       case Some(b) => BranchTarget(c'.code[k]) == b.start && c'.end == c.end
       case None => BranchTarget(c'.code[k]) == c'.end == c.end - STUB_SIZE
  }

  /** A branch or call to an address that has been translated already goes there at once. */
  lemma BranchesLead(c: Cache, cc: nat, dest: Word)
    ensures Leads(c, PutJmp(c, dest), c.out, dest) && Leads(c, PutJcc(c, cc, dest), c.out, dest)
    ensures var t := CallTrampoline(c, dest); t.addr == c.end - STUB_SIZE && Leads(Reserve(c), t.cache, t.addr + 4, dest)
  {
    hide Len, HashPc, FindIn;
  }

  /** The bytes and stubs still to come within one dbt_translate fit into the reserve of a block. */
  lemma CodeEmitted(cfg: Config, p: Program, c: Cache, org: map<int, Word>, pc: Word)
    requires Inv(cfg, p, c, org) && c.out + 800 <= c.end && ValidInstr(p.at(pc))
    requires forall a :: c.out < a < c.end ==> a !in org
    ensures var g := GenCode(cfg, p, c, pc);
            var org' := if g.more then org[g.cache.out := g.next] else org;
            && Grown(cfg, p, c, g.cache, org') && Template(cfg, p, g.cache, org', c.out, pc)
            && (c.end - c.out >= BLOCK_MAXSIZE ==> InstrAt(cfg, p, g.cache, org', c.out, pc))
  {
    hide Inv, Extends, Fixed, JmpLink, PutJmp, GenJcc, GenJccRel8, GenCallDirect, GenCallIndirect, GenJmpIndirect, GenInt80, RetTrampoline, GenRetN, InstrAt;
    if c.end - c.out < BLOCK_MAXSIZE {
      GrownHere(cfg, p, c, org);
      PutJmpGrown(cfg, p, c, c, org, pc);
    } else {
      match p.at(pc)
      case Straight(id, len, outLen) => StraightEmitted(cfg, p, c, org, pc);
      case Jcc(cc, len, dest) => JccEmitted(cfg, p, c, org, pc);
      case JccRel8(kind, len, dest) => JccRel8Emitted(cfg, p, c, org, pc);
      case CallDirect(len, dest) => CallDirectEmitted(cfg, p, c, org, pc);
      case CallIndirect(len, rm, gs) => CallIndirectEmitted(cfg, p, c, org, pc);
      case RetN(_, count) => RetNEmitted(cfg, p, c, org, pc);
      case _ => SmallEmitted(cfg, p, c, org, pc);
    }
  }
}
