/**
 Generating code keeps the invariant: every step of dbt_translate writes only to fresh
 addresses, and leaves behind the template of the instruction it translated.
 */
module DbtGrowth {
  import opened Basics
  import opened DbtMachine
  import opened DbtCache
  import opened DbtInvariant

  /** No code is in the gap between the blocks and the stubs. */
  lemma GapIsFree(cfg: Config, c: Cache, k: int)
    requires Layout(cfg, c) && c.out <= k < c.end
    ensures k !in c.code
  {
    assert k in c.code ==> Placed1(c, SieveDispatch(cfg), cfg.limit, k) && 0 < Len(c.code[k]);
  }

  /** What is new or rewritten in `c'` is right. */
  ghost predicate NewsOk(cfg: Config, p: Program, c: Cache, c': Cache, org': map<int, Word>) {
    && (forall k :: k in c'.notes.links && (k !in c.notes.links || k !in c.code || k !in c'.code || c'.code[k] != c.code[k]) ==> LinkOk(c', k, c'.notes.links[k]))
    && (forall x :: x in c'.notes.stubs && (x !in c.notes.stubs || x + NEXT_OFFSET !in c.code || x + NEXT_OFFSET !in c'.code || c'.code[x + NEXT_OFFSET] != c.code[x + NEXT_OFFSET]) ==>
          SieveStub(c', x, c'.notes.stubs[x]))
    && (forall x :: x in c'.notes.posts && x !in c.notes.posts ==> PostambleAt(c', org', x, c'.notes.posts[x]))
    && (forall a :: a in c'.notes.origin && a !in c.notes.origin ==>
          a in org' && org'[a] == c'.notes.origin[a] && Template(cfg, p, c', org', a, c'.notes.origin[a]))
    && (forall a :: a in c'.notes.heads && a !in c.notes.heads ==>
          a in c'.notes.origin && c'.notes.origin[a] == c'.notes.heads[a] && InstrAt(cfg, p, c', org', a, c'.notes.heads[a]))
  }

  /** The invariant after growth, once what is new or rewritten is right. */
  lemma Grow(cfg: Config, p: Program, c: Cache, c': Cache, org: map<int, Word>, org': map<int, Word>)
    requires Inv(cfg, p, c, org) && Keeps(c, c') && SubMap(org, org')
    requires Layout(cfg, c') && NotesPlaced(c') && TablesOk(cfg, c')
    requires NewsOk(cfg, p, c, c', org')
    ensures Inv(cfg, p, c', org')
  {
    hide Layout, NotesPlaced, TablesOk, LinksOk, StubsOk, PostsOk, StartsOk, HeadsOk, NewsOk, Keeps, SubMap, Fixed, SieveDispatch, CallDispatch, ReturnFallback;
    FixedKept(c, c');
    GrowLinks(cfg, p, c, c', org');
    GrowStubs(cfg, p, c, c', org');
    GrowPosts(cfg, p, c, c', org, org');
    GrowStarts(cfg, p, c, c', org, org');
    GrowHeads(cfg, p, c, c', org, org');
  }

  lemma GrowLinks(cfg: Config, p: Program, c: Cache, c': Cache, org': map<int, Word>)
    requires Keeps(c, c') && NewsOk(cfg, p, c, c', org') && LinksOk(c)
    ensures LinksOk(c')
  {
    hide LinkOk, Keeps, SieveStub, PostambleAt, Template;
    forall k | k in c'.notes.links ensures LinkOk(c', k, c'.notes.links[k]) {
      if k in c.notes.links && k in c.code && k in c'.code && c'.code[k] == c.code[k] {
        LinkKept(c, c', k, c.notes.links[k]);
        NotesKept(c, c');
      }
    }
  }

  lemma NotesKept(c: Cache, c': Cache)
    requires Keeps(c, c')
    ensures SubMap(c.notes.links, c'.notes.links) && SubMap(c.notes.stubs, c'.notes.stubs)
    ensures SubMap(c.notes.posts, c'.notes.posts) && SubMap(c.notes.origin, c'.notes.origin)
    ensures SubMap(c.notes.heads, c'.notes.heads)
  {
  }

  lemma GrowStubs(cfg: Config, p: Program, c: Cache, c': Cache, org': map<int, Word>)
    requires Keeps(c, c') && NewsOk(cfg, p, c, c', org') && StubsOk(c)
    ensures StubsOk(c')
  {
    hide LinkOk, Keeps, SieveStub, PostambleAt, Template;
    NotesKept(c, c');
    forall x | x in c'.notes.stubs ensures SieveStub(c', x, c'.notes.stubs[x]) {
      var k := x + NEXT_OFFSET;
      if x in c.notes.stubs && k in c.code && k in c'.code && c'.code[k] == c.code[k] {
        StubKept(c, c', x, c.notes.stubs[x]);
      }
    }
  }

  lemma GrowPosts(cfg: Config, p: Program, c: Cache, c': Cache, org: map<int, Word>, org': map<int, Word>)
    requires Keeps(c, c') && SubMap(org, org') && NewsOk(cfg, p, c, c', org') && PostsOk(c, org)
    ensures PostsOk(c', org')
  {
    hide LinkOk, Keeps, SieveStub, PostambleAt, Template;
    NotesKept(c, c');
    forall x | x in c'.notes.posts ensures PostambleAt(c', org', x, c'.notes.posts[x]) {
      if x in c.notes.posts {
        PostKept(c, c', org, org', x, c.notes.posts[x]);
      }
    }
  }

  lemma GrowStarts(cfg: Config, p: Program, c: Cache, c': Cache, org: map<int, Word>, org': map<int, Word>)
    requires Keeps(c, c') && SubMap(org, org') && NewsOk(cfg, p, c, c', org') && StartsOk(cfg, p, c, org)
    ensures StartsOk(cfg, p, c', org')
  {
    hide LinkOk, Keeps, SieveStub, PostambleAt, Template;
    NotesKept(c, c');
    forall a | a in c'.notes.origin ensures Template(cfg, p, c', org', a, c'.notes.origin[a]) {
      if a in c.notes.origin {
        TemplateKept(cfg, p, c, c', org, org', a, c.notes.origin[a]);
      }
    }
  }

  lemma GrowHeads(cfg: Config, p: Program, c: Cache, c': Cache, org: map<int, Word>, org': map<int, Word>)
    requires Keeps(c, c') && SubMap(org, org') && NewsOk(cfg, p, c, c', org') && HeadsOk(cfg, p, c, org)
    ensures HeadsOk(cfg, p, c', org')
  {
    hide LinkOk, Keeps, SieveStub, PostambleAt, Template, InstrAt;
    NotesKept(c, c');
    forall a | a in c'.notes.heads ensures InstrAt(cfg, p, c', org', a, c'.notes.heads[a]) {
      if a in c.notes.heads {
        InstrKept(cfg, p, c, c', org, org', a, c.notes.heads[a]);
      }
    }
  }

  lemma TablesKept(cfg: Config, c: Cache, c': Cache)
    requires TablesOk(cfg, c) && Keeps(c, c')
    requires c'.hash == c.hash && c'.sieve == c.sieve && c'.ret == c.ret
    ensures TablesOk(cfg, c')
  {
  }

  /** Code is added, and branches and postambles noted, but no block starts and no table changes. */
  lemma GrowCode(cfg: Config, p: Program, c: Cache, c': Cache, org: map<int, Word>, org': map<int, Word>)
    requires Inv(cfg, p, c, org) && Extends(c, c') && SubMap(org, org')
    requires Layout(cfg, c') && NotesPlaced(c')
    requires c'.hash == c.hash && c'.sieve == c.sieve && c'.ret == c.ret
    requires c'.notes.stubs == c.notes.stubs && c'.notes.origin == c.notes.origin && c'.notes.heads == c.notes.heads
    requires forall k :: k in c'.notes.links && k !in c.notes.links ==> LinkOk(c', k, c'.notes.links[k])
    requires forall x :: x in c'.notes.posts && x !in c.notes.posts ==> PostambleAt(c', org', x, c'.notes.posts[x])
    ensures Inv(cfg, p, c', org')
  {
    hide LinkOk, LinksOk, StubsOk, PostsOk, StartsOk, HeadsOk, SieveStub, PostambleAt, Template, InstrAt, TablesOk, DispatchersOk, Layout, SieveDispatch, CallDispatch, ReturnFallback;
    TablesKept(cfg, c, c');
    Grow(cfg, p, c, c', org, org');
  }

  /** Only the tables change. */
  lemma Retabled(cfg: Config, p: Program, c: Cache, c': Cache, org: map<int, Word>)
    requires Inv(cfg, p, c, org) && TablesOk(cfg, c')
    requires c'.code == c.code && c'.notes == c.notes && c'.out == c.out && c'.end == c.end
    ensures Inv(cfg, p, c', org) && Extends(c, c')
  {
    hide LinksOk, StubsOk, PostsOk, StartsOk, HeadsOk, TablesOk, DispatchersOk, Layout, Fixed, LinkOk, SieveStub, PostambleAt, Template, InstrAt;
    SameLayout(cfg, c, c');
    Grow(cfg, p, c, c', org, org);
  }

  lemma SameLayout(cfg: Config, c: Cache, c': Cache)
    requires Layout(cfg, c) && c'.code == c.code && c'.out == c.out && c'.end == c.end
    ensures Layout(cfg, c')
  {
    hide Placed1;
    forall k | k in c'.code ensures Placed1(c', SieveDispatch(cfg), cfg.limit, k) {
      SamePlace(c, c', SieveDispatch(cfg), cfg.limit, k);
    }
  }

  lemma SamePlace(c: Cache, c': Cache, lo: int, limit: int, k: int)
    requires k in c.code && Placed1(c, lo, limit, k) && c'.code == c.code && c'.out == c.out && c'.end == c.end
    ensures Placed1(c', lo, limit, k)
  {
  }

  // ----- writing at the front -----

  lemma PutInv(cfg: Config, p: Program, c: Cache, org: map<int, Word>, op: Op)
    requires Inv(cfg, p, c, org) && 0 < Len(op) && c.out + Len(op) <= c.end
    ensures Inv(cfg, p, Put(c, op), org) && Extends(c, Put(c, op)) && Fixed(Put(c, op), c.out, op)
  {
    var c' := Put(c, op);
    PutPlaced(cfg, c, op);
    assert c.out !in c.code by { if c.out < c.end { GapIsFree(cfg, c, c.out); } }
    GrowCode(cfg, p, c, c', org, org);
  }

  lemma PutPlaced(cfg: Config, c: Cache, op: Op)
    requires Layout(cfg, c) && NotesPlaced(c) && 0 < Len(op) && c.out + Len(op) <= c.end
    ensures Layout(cfg, Put(c, op)) && NotesPlaced(Put(c, op))
    ensures Extends(c, Put(c, op)) && Fixed(Put(c, op), c.out, op)
  {
    var c' := Put(c, op);
    GapIsFree(cfg, c, c.out);
    forall k | k in c.code ensures k + Len(c.code[k]) <= c.out || c.end <= k {
      assert Placed1(c, SieveDispatch(cfg), cfg.limit, k);
    }
    forall k | k in c'.code ensures Placed1(c', SieveDispatch(cfg), cfg.limit, k) {
      if k in c.code {
        assert Placed1(c, SieveDispatch(cfg), cfg.limit, k);
      }
    }
  }

  // ----- stubs at the back -----

  lemma PutAtPlaced(cfg: Config, c: Cache, a: int, op: Op)
    requires Layout(cfg, c) && NotesPlaced(c) && 0 < Len(op) && c.end <= a && a + Len(op) <= cfg.limit
    requires forall k :: k in c.code && c.end <= k ==> k + Len(c.code[k]) <= a || a + Len(op) <= k
    ensures Layout(cfg, PutAt(c, a, op)) && NotesPlaced(PutAt(c, a, op))
    ensures Extends(c, PutAt(c, a, op)) && Fixed(PutAt(c, a, op), a, op)
  {
    hide Extends, Fixed, SieveDispatch, CallDispatch;
    forall k | k in c.code ensures k + Len(c.code[k]) <= a || a + Len(op) <= k {
      assert Placed1(c, SieveDispatch(cfg), cfg.limit, k);
    }
    assert a in c.code ==> 0 < Len(c.code[a]);
    PutAtExtends(c, a, op);
    forall k | k in PutAt(c, a, op).code ensures Placed1(PutAt(c, a, op), SieveDispatch(cfg), cfg.limit, k) {
      if k in c.code {
        assert Placed1(c, SieveDispatch(cfg), cfg.limit, k);
      }
    }
  }

  lemma PutAtExtends(c: Cache, a: int, op: Op)
    requires NotesPlaced(c) && a !in c.code
    ensures Extends(c, PutAt(c, a, op)) && Fixed(PutAt(c, a, op), a, op)
  {
  }

  /** Room for one more stub: nothing is written yet. */
  lemma ReservePlaced(cfg: Config, c: Cache)
    requires Layout(cfg, c) && NotesPlaced(c) && c.out + STUB_SIZE <= c.end
    ensures Layout(cfg, Reserve(c)) && NotesPlaced(Reserve(c)) && Extends(c, Reserve(c))
    ensures forall k :: k in c.code && Reserve(c).end <= k ==> c.end <= k
  {
    hide SieveDispatch, CallDispatch;
    var c' := Reserve(c);
    forall k | k in c'.code ensures Placed1(c', SieveDispatch(cfg), cfg.limit, k) && (c'.end <= k ==> c.end <= k) {
      assert Placed1(c, SieveDispatch(cfg), cfg.limit, k);
    }
  }

  /** Behind `end` there is code below `used` and from `lim` on. */
  ghost predicate Region(c: Cache, used: int, lim: int) {
    c.end <= used && forall k :: k in c.code && c.end <= k ==> k + Len(c.code[k]) <= used || lim <= k
  }

  /** One more operation of a stub that is being written at the back. */
  lemma PutAtInv(cfg: Config, p: Program, c: Cache, org: map<int, Word>, op: Op, a: int, lim: int)
    requires Inv(cfg, p, c, org) && 0 < Len(op) && Region(c, a, lim) && a + Len(op) <= lim <= cfg.limit
    ensures var c' := PutAt(c, a, op);
            Inv(cfg, p, c', org) && Extends(c, c') && Fixed(c', a, op) && Region(c', a + Len(op), lim)
  {
    hide LinksOk, StubsOk, PostsOk, StartsOk, HeadsOk, TablesOk, DispatchersOk, Layout, NotesPlaced, Extends, Fixed, LinkOk, SieveStub, PostambleAt, Template;
    PutAtPlaced(cfg, c, a, op);
    GrowCode(cfg, p, c, PutAt(c, a, op), org, org);
  }

  lemma ReserveInv(cfg: Config, p: Program, c: Cache, org: map<int, Word>)
    requires Inv(cfg, p, c, org) && c.out + STUB_SIZE <= c.end
    ensures Inv(cfg, p, Reserve(c), org) && Extends(c, Reserve(c)) && Region(Reserve(c), c.end - STUB_SIZE, c.end)
    ensures c.end <= cfg.limit
  {
    ReservePlaced(cfg, c);
    GrowCode(cfg, p, c, Reserve(c), org, org);
  }

  lemma DirectStubInv(cfg: Config, p: Program, c: Cache, org: map<int, Word>, target: Word, patch: int)
    requires Inv(cfg, p, c, org) && c.out + STUB_SIZE <= c.end
    ensures var s := DirectStub(c, target, patch);
            Inv(cfg, p, s.cache, org) && Extends(c, s.cache) && IsDirectStub(s.cache, s.addr, target, patch)
            && s.addr == s.cache.end == c.end - STUB_SIZE && s.cache.out == c.out
    ensures var s := DirectStub(c, target, patch); s.cache.notes == c.notes && s.cache.hash == c.hash
  {
    hide Inv, Extends, Fixed, Len, Region;
    var c1 := Reserve(c);
    var x := c1.end;
    ReserveInv(cfg, p, c, org);
    StubLens(patch, target);
    var c2 := PutAt(c1, x, PushImm(patch));
    PutAtInv(cfg, p, c1, org, PushImm(patch), x, c.end);
    var c3 := PutAt(c2, x + 5, PushImm(target));
    PutAtInv(cfg, p, c2, org, PushImm(target), x + 5, c.end);
    var c4 := PutAt(c3, x + 10, Jmp(FIND_DIRECT));
    PutAtInv(cfg, p, c3, org, Jmp(FIND_DIRECT), x + 10, c.end);
    FixedStays(c2, c3);
    FixedStays(c3, c4);
    ExtendsTrans(c, c1, c2);
    ExtendsTrans(c, c2, c3);
    ExtendsTrans(c, c3, c4);
  }

  lemma FixedStays(c: Cache, c': Cache)
    requires Extends(c, c')
    ensures forall k, op :: Fixed(c, k, op) ==> Fixed(c', k, op)
    ensures forall k, dest :: JmpLink(c, k, dest) ==> JmpLink(c', k, dest)
  {
    FixedKept(c, c');
  }

  lemma StubLens(a: int, b: int)
    ensures Len(PushImm(a)) == 5 && Len(PushImm(b)) == 5 && Len(Jmp(FIND_DIRECT)) == 5 && Len(LeaEsp(4)) == 4
  {
  }

  lemma InvLayout(cfg: Config, p: Program, c: Cache, org: map<int, Word>)
    requires Inv(cfg, p, c, org)
    ensures c.out <= c.end <= cfg.limit
    ensures forall k :: k in c.code ==> k + Len(c.code[k]) <= c.out || c.end <= k
    ensures forall k :: k in c.notes.links ==> k in c.code
  {
    forall k | k in c.code ensures k + Len(c.code[k]) <= c.out || c.end <= k {
      assert Placed1(c, SieveDispatch(cfg), cfg.limit, k);
    }
  }

  lemma DirectStubRegion(cfg: Config, c: Cache, target: Word, patch: int, used: int, lim: int)
    requires Layout(cfg, c) && Region(c, used, lim)
    ensures Region(DirectStub(c, target, patch).cache, used, lim)
  {
    var s := DirectStub(c, target, patch);
    forall k | k in s.cache.code && s.cache.end <= k ensures k + Len(s.cache.code[k]) <= used || lim <= k {
      if k in c.code && k !in {s.addr, s.addr + 5, s.addr + 10} {
        assert Placed1(c, SieveDispatch(cfg), cfg.limit, k);
      }
    }
  }

  // ----- branches that may be patched -----

  /** A branch to `dest` may lead where dbt_get_direct_trampoline says. */
  lemma TrampolineInv(cfg: Config, p: Program, c: Cache, org: map<int, Word>, dest: Word, patch: int)
    requires Inv(cfg, p, c, org) && c.out + STUB_SIZE <= c.end
    ensures var t := DirectTrampoline(c, dest, patch);
            && Inv(cfg, p, t.cache, org) && Extends(c, t.cache)
            && t.cache.notes == c.notes && t.cache.out == c.out && c.end - STUB_SIZE <= t.cache.end <= c.end
            && ((t.addr in c.notes.heads && c.notes.heads[t.addr] == dest) || IsDirectStub(t.cache, t.addr, dest, patch))
  {
    hide Inv, Extends, IsDirectStub;
    match FindBlock(c, dest)
    case Some(b) =>
      FoundStarts(cfg, p, c, org, dest);
      ExtendsSelf(c);
    case None => DirectStubInv(cfg, p, c, org, dest, patch);
  }

  lemma ExtendsSelf(c: Cache)
    ensures Extends(c, c)
  {
  }

  lemma {:induction false} FindInChain(chain: seq<Block>, pc: Word)
    ensures match FindIn(chain, pc)
            case Some(b) => b in chain && b.pc == pc
            case None => forall b :: b in chain ==> b.pc != pc
  {
    if chain != [] && chain[0].pc != pc {
      FindInChain(chain[1..], pc);
      assert forall b :: b in chain ==> b == chain[0] || b in chain[1..];
    }
  }

  /** A cached block is the translation of the address it was looked up by. */
  lemma FoundStarts(cfg: Config, p: Program, c: Cache, org: map<int, Word>, pc: Word)
    requires Inv(cfg, p, c, org) && FindBlock(c, pc).Some?
    ensures var b := FindBlock(c, pc).value; b.start in c.notes.heads && c.notes.heads[b.start] == pc
  {
    FindInChain(c.hash[HashPc(pc)], pc);
  }

  /** Writing the branch itself. */
  lemma BranchInv(cfg: Config, p: Program, c: Cache, org: map<int, Word>, op: Op, dest: Word)
    requires Inv(cfg, p, c, org) && c.out + Len(op) <= c.end
    requires op.Jmp? || op.JccOp?
    requires var x := BranchTarget(op);
             (x in c.notes.heads && c.notes.heads[x] == dest) || IsDirectStub(c, x, dest, PatchAddr(op, c.out))
    ensures var c' := Put(Link(c, c.out, dest), op);
            && Inv(cfg, p, c', org) && Extends(c, c')
            && c.out in c'.notes.links && c'.notes.links[c.out] == dest && c.out in c'.code && c'.code[c.out] == op
  {
    var c' := Put(Link(c, c.out, dest), op);
    GapIsFree(cfg, c, c.out);
    BranchPlaced(cfg, c, op, dest);
    LinkOfBranch(c, c', c.out, op, dest);
    GrowCode(cfg, p, c, c', org, org);
  }

  lemma LinkOfBranch(c: Cache, c': Cache, k: int, op: Op, dest: Word)
    requires Extends(c, c') && k in c'.code && c'.code[k] == op && (op.Jmp? || op.JccOp?)
    requires k - NEXT_OFFSET !in c'.notes.stubs
    requires var x := BranchTarget(op);
             (x in c.notes.heads && c.notes.heads[x] == dest) || IsDirectStub(c, x, dest, PatchAddr(op, k))
    ensures LinkOk(c', k, dest)
  {
  }

  lemma BranchPlaced(cfg: Config, c: Cache, op: Op, dest: Word)
    requires Layout(cfg, c) && NotesPlaced(c) && 0 < Len(op) && c.out + Len(op) <= c.end
    ensures var c' := Put(Link(c, c.out, dest), op);
            Layout(cfg, c') && NotesPlaced(c') && Extends(c, c') && c.out - NEXT_OFFSET !in c'.notes.stubs
  {
    GapIsFree(cfg, c, c.out);
    PutPlaced(cfg, c, op);
    var d := Put(c, op);
    var c' := Put(Link(c, c.out, dest), op);
    assert c'.code == d.code && c'.out == d.out && c'.end == d.end;
    forall k | k in c'.code ensures Placed1(c', SieveDispatch(cfg), cfg.limit, k) {
      assert Placed1(d, SieveDispatch(cfg), cfg.limit, k);
    }
  }

  lemma PutJmpInv(cfg: Config, p: Program, c: Cache, org: map<int, Word>, dest: Word)
    requires Inv(cfg, p, c, org) && c.out + STUB_SIZE + 5 <= c.end
    ensures var c' := PutJmp(c, dest);
            Inv(cfg, p, c', org) && Extends(c, c') && JmpLink(c', c.out, dest)
    ensures PutJmp(c, dest).notes.origin == c.notes.origin && PutJmp(c, dest).notes.heads == c.notes.heads && Moved(c, PutJmp(c, dest), 5, 1) && PutJmp(c, dest).out == c.out + 5
  {
    hide Inv, Extends, IsDirectStub;
    TrampolineInv(cfg, p, c, org, dest, c.out + 1);
    var t := DirectTrampoline(c, dest, c.out + 1);
    BranchInv(cfg, p, t.cache, org, Jmp(t.addr), dest);
    ExtendsTrans(c, t.cache, PutJmp(c, dest));
  }

  lemma PutJccInv(cfg: Config, p: Program, c: Cache, org: map<int, Word>, cc: nat, dest: Word)
    requires Inv(cfg, p, c, org) && c.out + STUB_SIZE + 6 <= c.end
    ensures var c' := PutJcc(c, cc, dest);
            && Inv(cfg, p, c', org) && Extends(c, c')
            && c.out in c'.notes.links && c'.notes.links[c.out] == dest
            && c.out in c'.code && c'.code[c.out].JccOp? && c'.code[c.out].cc == cc
    ensures PutJcc(c, cc, dest).notes.origin == c.notes.origin && PutJcc(c, cc, dest).notes.heads == c.notes.heads && Moved(c, PutJcc(c, cc, dest), 6, 1)
    ensures PutJcc(c, cc, dest).out == c.out + 6
  {
    hide Inv, Extends, IsDirectStub;
    TrampolineInv(cfg, p, c, org, dest, c.out + 2);
    var t := DirectTrampoline(c, dest, c.out + 2);
    BranchInv(cfg, p, t.cache, org, JccOp(cc, t.addr), dest);
    ExtendsTrans(c, t.cache, PutJcc(c, cc, dest));
  }
}
