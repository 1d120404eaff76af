/**
 dbt_find and its callers keep the invariant, whatever they translate, flush, patch or chain.
 */
module DbtLookup {
  import opened Basics
  import opened DbtMachine
  import opened DbtCache
  import opened DbtInvariant
  import opened DbtGrowth
  import opened DbtTemplates

  // ----- a whole block -----

  /** The cache between two calls of the translator. */
  ghost predicate Sound(cfg: Config, p: Program, c: Cache) {
    Inv(cfg, p, c, c.notes.origin)
  }

  predicate SameTables(c: Cache, c': Cache) {
    && c'.hash == c.hash && c'.sieve == c.sieve && c'.ret == c.ret
    && c'.blocks == c.blocks && c'.tree == c.tree && c'.cacheTree == c.cacheTree
  }

  lemma SubMapSelf(m: map<int, Word>)
    ensures SubMap(m, m)
  {
  }

  lemma ExtendsKeeps(c: Cache, c': Cache)
    requires Extends(c, c')
    ensures Keeps(c, c')
  {
  }

  lemma GenInstrTables(cfg: Config, p: Program, c: Cache, pc: Word)
    ensures SameTables(c, GenInstr(cfg, p, c, pc).cache)
  {
    hide Len, SieveDispatch, CallDispatch, LongLea, LeaLen, PutJmp, PutJcc, CallTrampoline, Postamble, RetTrampoline, AfterPush, ReturnTarget;
    PiecesTables();
  }

  lemma PiecesTables()
    ensures forall c, dest :: SameTables(c, PutJmp(c, dest))
    ensures forall c, cc, dest :: SameTables(c, PutJcc(c, cc, dest))
    ensures forall c, dest :: SameTables(c, CallTrampoline(c, dest).cache)
    ensures forall c, pc :: SameTables(c, Postamble(c, pc))
    ensures forall c :: SameTables(c, RetTrampoline(c))
  {
    hide Len, LongLea, FindBlock;
  }

  /** The start of an instruction is noted once its code is in place. */
  lemma MarkInv(cfg: Config, p: Program, c: Cache, org: map<int, Word>, a: int, pc: Word)
    requires Inv(cfg, p, c, org) && Template(cfg, p, c, org, a, pc) && ValidInstr(p.at(pc))
    requires a in org && org[a] == pc && a !in c.notes.origin
    ensures Inv(cfg, p, Mark(c, a, pc), org) && Extends(c, Mark(c, a, pc))
  {
    hide LinkOk, LinksOk, StubsOk, PostsOk, StartsOk, HeadsOk, SieveStub, PostambleAt, Template, Layout, NotesPlaced, TablesOk, DispatchersOk, Fixed, Extends, InstrAt, ValidInstr;
    var c' := Mark(c, a, pc);
    TemplateInCode(cfg, p, c, org, a, pc);
    SameLayout(cfg, c, c');
    MarkKeeps(c, a, pc);
    TablesKept(cfg, c, c');
    TemplateKept(cfg, p, c, c', org, org, a, pc);
    Grow(cfg, p, c, c', org, org);
  }

  lemma MarkKeeps(c: Cache, a: int, pc: Word)
    requires a in c.code && a !in c.notes.origin && NotesPlaced(c)
    ensures Extends(c, Mark(c, a, pc)) && NotesPlaced(Mark(c, a, pc))
  {
  }

  lemma TemplateInCode(cfg: Config, p: Program, c: Cache, org: map<int, Word>, a: int, pc: Word)
    requires Template(cfg, p, c, org, a, pc)
    ensures a in c.code
  {
    hide Len, AfterPush, CallDispatch, SieveDispatch;
  }

  lemma GenInstrInv(cfg: Config, p: Program, c: Cache, pc: Word)
    requires Inv(cfg, p, c, c.notes.origin[c.out := pc]) && c.out + 832 <= c.end && ValidProgram(p)
    ensures var g := GenInstr(cfg, p, c, pc);
            && Inv(cfg, p, g.cache, if g.more then g.cache.notes.origin[g.cache.out := g.next] else g.cache.notes.origin)
            && Extends(c, g.cache) && g.cache.notes.origin == c.notes.origin[c.out := pc] && g.cache.notes.heads == c.notes.heads
            && (c.out + BLOCK_MAXSIZE <= c.end ==>
                  InstrAt(cfg, p, g.cache, if g.more then g.cache.notes.origin[g.cache.out := g.next] else g.cache.notes.origin, c.out, pc))
            && (g.more ==> g.cache.out + 832 <= g.cache.end)
  {
    hide Inv, Template, Extends, Keeps, Fixed, JmpLink, PutJmp, Handled, InstrAt;
    var org := c.notes.origin[c.out := pc];
    StartsAreBehind(cfg, p, c, org);
    CodeEmitted(cfg, p, c, org, pc);
    var g := GenCode(cfg, p, c, pc);
    GenInstrMoves(cfg, p, c, pc);
    var org' := if g.more then org[g.cache.out := g.next] else org;
    MarkInv(cfg, p, g.cache, org', c.out, pc);
    if c.out + BLOCK_MAXSIZE <= c.end {
      ExtendsKeeps(g.cache, Mark(g.cache, c.out, pc));
      SubMapSelf(org');
      InstrKept(cfg, p, g.cache, Mark(g.cache, c.out, pc), org', org', c.out, pc);
    }
    ExtendsTrans(c, g.cache, GenInstr(cfg, p, c, pc).cache);
  }

  lemma StartsAreBehind(cfg: Config, p: Program, c: Cache, org: map<int, Word>)
    requires Inv(cfg, p, c, org)
    ensures forall a :: c.out <= a < c.end ==> a !in c.notes.origin
  {
    forall a | c.out <= a < c.end ensures a !in c.notes.origin {
      GapIsFree(cfg, c, a);
    }
  }

  /** A block is sound to its end, and starts with the translation of `pc`. */
  lemma {:induction false} GenInv(cfg: Config, p: Program, c: Cache, pc: Word)
    requires Inv(cfg, p, c, c.notes.origin[c.out := pc]) && c.out + 832 <= c.end && ValidProgram(p)
    requires c.out !in c.notes.origin
    ensures var c' := Gen(cfg, p, c, pc);
            && Sound(cfg, p, c') && Extends(c, c') && SameTables(c, c')
            && c.out in c'.notes.origin && c'.notes.origin[c.out] == pc && c.out < c'.out
            && c'.notes.heads == c.notes.heads
            && (c.out + BLOCK_MAXSIZE <= c.end ==> InstrAt(cfg, p, c', c'.notes.origin, c.out, pc))
    decreases c.end - c.out + 1
  {
    hide Inv, GenInstr, Extends, Keeps, InstrAt;
    GenInstrMoves(cfg, p, c, pc);
    GenInstrInv(cfg, p, c, pc);
    GenInstrTables(cfg, p, c, pc);
    var g := GenInstr(cfg, p, c, pc);
    if g.more {
      InvLayout(cfg, p, g.cache, g.cache.notes.origin[g.cache.out := g.next]);
      StartsAreBehind(cfg, p, g.cache, g.cache.notes.origin[g.cache.out := g.next]);
      GenInv(cfg, p, g.cache, g.next);
      var c' := Gen(cfg, p, c, pc);
      ExtendsTrans(c, g.cache, c');
      ExtendsKeeps(c, c');
      NotesKept(c, c');
      ExtendsKeeps(g.cache, c');
      NotesKept(g.cache, c');
      if c.out + BLOCK_MAXSIZE <= c.end {
        InstrKept(cfg, p, g.cache, c', g.cache.notes.origin[g.cache.out := g.next], c'.notes.origin, c.out, pc);
      }
    }
  }

  // ----- the flushed cache -----

  lemma InitInv(cfg: Config, p: Program)
    requires ValidConfig(cfg)
    ensures Sound(cfg, p, Init(cfg)) && !Full(Init(cfg)) && Agreed(Init(cfg))
  {
    hide LinkOk, SieveStub, PostambleAt, Template, Layout, DispatchersOk;
    InitPlaced(cfg);
    var c := Init(cfg);
    assert Elems([]) == {};
    assert TablesOk(cfg, c);
  }

  lemma InitPlaced(cfg: Config)
    requires ValidConfig(cfg)
    ensures Layout(cfg, Init(cfg)) && DispatchersOk(cfg, Init(cfg)) && Init(cfg).out + BLOCK_MAXSIZE <= Init(cfg).end
  {
    hide Align16, SieveDispatch, CallDispatch, Dispatchers, Len, Layout;
    DispatchRange(cfg);
    DispatchersAt(cfg);
    LayoutOfSix(cfg, Init(cfg));
  }

  lemma DispatchersAt(cfg: Config)
    ensures var m := Dispatchers(cfg); var sd, ic := SieveDispatch(cfg), CallDispatch(cfg);
            && m.Keys == {sd, sd + 1, sd + 6, ic, ic + 3, ic + 8}
            && m[sd] == PushEcx && m[sd + 1] == MovzxEcx && m[sd + 6] == JmpSieve
            && m[ic] == StoreEcx && m[ic + 3] == MovzxEcx && m[ic + 8] == JmpSieve
  {
    hide Align16, SieveDispatch, CallDispatch;
    DispatchRange(cfg);
  }

  lemma LayoutOfSix(cfg: Config, c: Cache)
    requires c.code == Dispatchers(cfg) && c.out == CallDispatch(cfg) + 15 && c.end == cfg.limit && c.out <= c.end && cfg.limit % STUB_SIZE == 0
    ensures Layout(cfg, c)
  {
    hide Align16, SieveDispatch, CallDispatch, Dispatchers;
    DispatchRange(cfg);
    DispatchersAt(cfg);
    var m := Dispatchers(cfg);
    var sd, ic := SieveDispatch(cfg), CallDispatch(cfg);
    assert Len(m[sd]) == 1 && Len(m[sd + 1]) == 5 && Len(m[sd + 6]) == 7 && Len(m[ic]) == 3 && Len(m[ic + 3]) == 5 && Len(m[ic + 8]) == 7;
  }

  lemma DispatchRange(cfg: Config)
    ensures cfg.first <= SieveDispatch(cfg) <= cfg.first + 15
    ensures SieveDispatch(cfg) + 13 <= CallDispatch(cfg) <= SieveDispatch(cfg) + 28
  {
  }

  // ----- agreement of the four indexes of blocks -----

  ghost function Elems(s: seq<Block>): set<Block> {
    set b | b in s
  }

  /** The hash chains, the two trees and the block array hold the same blocks: each guest address
      at most once, in the order of their starts. */
  ghost predicate Agreed(c: Cache) {
    && |c.hash| == HASH_BUCKETS && |c.blocks| <= MAX_BLOCKS
    && c.tree == Elems(c.blocks) && c.cacheTree == Elems(c.blocks)
    && (forall i, j :: 0 <= i < j < |c.blocks| ==> c.blocks[i].start < c.blocks[j].start && c.blocks[i].pc != c.blocks[j].pc)
    && (forall i :: 0 <= i < |c.blocks| ==> c.blocks[i].start < c.out && c.blocks[i].start % 16 == 0)
    && (forall b :: b in c.blocks ==> b in c.hash[HashPc(b.pc)])
    && (forall h, i :: 0 <= h < HASH_BUCKETS && 0 <= i < |c.hash[h]| ==> c.hash[h][i] in c.blocks && HashPc(c.hash[h][i].pc) == h)
    && (forall h, i, j :: 0 <= h < HASH_BUCKETS && 0 <= i < j < |c.hash[h]| ==> c.hash[h][i] != c.hash[h][j])
  }

  /** A lookup finds the block of `pc` whenever there is one. */
  lemma FindBlockComplete(c: Cache, pc: Word)
    requires Agreed(c)
    ensures match FindBlock(c, pc)
            case Some(b) => b in c.blocks && b.pc == pc
            case None => forall b :: b in c.blocks ==> b.pc != pc
  {
    FindInChain(c.hash[HashPc(pc)], pc);
  }

  /** A block that has been translated and chained joins the agreement. */
  lemma ChainAgrees(c: Cache, c2: Cache, pc: Word)
    requires Agreed(c) && |c.blocks| < MAX_BLOCKS && FindBlock(c, pc) == None
    requires SameTables(NewBlock(c, pc), c2) && NewBlock(c, pc).out < c2.out
    ensures Agreed(Chain(c2, Block(pc, Align16(c.out))))
  {
    hide HashPc;
    FindBlockComplete(c, pc);
    var b := Block(pc, Align16(c.out));
    var c' := Chain(c2, b);
    assert c'.blocks == c.blocks + [b];
    assert Elems(c'.blocks) == Elems(c.blocks) + {b};
    assert b !in c.blocks;
    ChainsAgree(c, c', b);
  }

  lemma ChainsAgree(c: Cache, c': Cache, b: Block)
    requires Agreed(c) && b !in c.blocks
    requires c'.blocks == c.blocks + [b] && c'.hash == c.hash[HashPc(b.pc) := [b] + c.hash[HashPc(b.pc)]]
    ensures forall d :: d in c'.blocks ==> d in c'.hash[HashPc(d.pc)]
    ensures forall h, i :: 0 <= h < HASH_BUCKETS && 0 <= i < |c'.hash[h]| ==> c'.hash[h][i] in c'.blocks && HashPc(c'.hash[h][i].pc) == h
    ensures forall h, i, j :: 0 <= h < HASH_BUCKETS && 0 <= i < j < |c'.hash[h]| ==> c'.hash[h][i] != c'.hash[h][j]
  {
    hide HashPc;
    forall d | d in c'.blocks ensures d in c'.hash[HashPc(d.pc)] {
      if d in c.blocks {
        assert d in c.hash[HashPc(d.pc)];
      } else {
        assert c'.hash[HashPc(b.pc)][0] == b;
      }
    }
  }

  // ----- dbt_translate and dbt_find -----

  /** Moving the front up to the next boundary. */
  lemma AlignInv(cfg: Config, p: Program, c: Cache, pc: Word)
    requires Sound(cfg, p, c) && c.out + BLOCK_MAXSIZE <= c.end
    ensures var c' := NewBlock(c, pc);
            && Inv(cfg, p, c', c'.notes.origin[c'.out := pc]) && Extends(c, c')
            && c'.out + BLOCK_MAXSIZE <= c'.end && c'.out !in c'.notes.origin
  {
    hide LinkOk, SieveStub, PostambleAt, Template, InstrAt, LinksOk, StubsOk, PostsOk, StartsOk, HeadsOk, TablesOk, DispatchersOk, Layout, Keeps, SubMap;
    var c' := NewBlock(c, pc);
    AlignPlaced(cfg, c, pc);
    FreeAt(cfg, c, c'.out);
    MoreStart(c.notes.origin, c'.out, pc);
    assert Extends(c, c') by { SameNotes(c, c'); }
    GrowCode(cfg, p, c, c', c.notes.origin, c'.notes.origin[c'.out := pc]);
  }

  lemma MoreStart(m: map<int, Word>, a: int, pc: Word)
    requires a !in m
    ensures SubMap(m, m[a := pc])
  {
  }

  lemma SameNotes(c: Cache, c': Cache)
    requires c'.code == c.code && c'.notes == c.notes
    ensures Extends(c, c')
  {
  }

  lemma AlignPlaced(cfg: Config, c: Cache, pc: Word)
    requires Layout(cfg, c) && c.out + BLOCK_MAXSIZE <= c.end
    ensures var c' := NewBlock(c, pc); Layout(cfg, c') && c.out <= c'.out && c'.out + BLOCK_MAXSIZE <= c'.end
  {
    hide Align16;
    AlignRoom(c.out, c.end);
    var c' := NewBlock(c, pc);
    forall k | k in c'.code ensures Placed1(c', SieveDispatch(cfg), cfg.limit, k) {
      assert Placed1(c, SieveDispatch(cfg), cfg.limit, k);
    }
  }

  /** Aligning the start of a block up cannot use up its room, because the end is aligned as well. */
  lemma AlignRoom(out: int, end: int)
    requires end % STUB_SIZE == 0 && out + BLOCK_MAXSIZE <= end
    ensures out <= Align16(out) && Align16(out) + BLOCK_MAXSIZE <= end
  {
    var n, q := (out + 15) / 16, end / 32 * 2 - 64;
    assert n * 16 <= out + 15 < n * 16 + 16;
    assert end == end / 32 * 32;
    assert q * 16 == end - BLOCK_MAXSIZE >= out;
  }

  lemma FreeAt(cfg: Config, c: Cache, a: int)
    requires Layout(cfg, c) && NotesPlaced(c) && c.out <= a < c.end
    ensures a !in c.notes.origin
  {
    GapIsFree(cfg, c, a);
  }

  /** dbt_translate gives a sound cache in which `pc` has a new start, at which its own instruction
      begins: since `end` is a multiple of 32, aligning the start does not use up the room that was
      checked before. Nothing is dropped unless it flushed. */
  lemma TranslateInv(cfg: Config, p: Program, c: Cache, pc: Word)
    requires ValidConfig(cfg) && ValidProgram(p) && Sound(cfg, p, c)
    ensures var t := Translate(cfg, p, c, pc);
            && Sound(cfg, p, t.cache) && t.start in t.cache.notes.origin && t.cache.notes.origin[t.start] == pc
            && InstrAt(cfg, p, t.cache, t.cache.notes.origin, t.start, pc)
            && (!t.flushed ==> Extends(c, t.cache))
  {
    hide Inv, Extends, GenInstr, Gen, InstrAt;
    InitInv(cfg, p);
    var c0 := if Full(c) then Init(cfg) else c;
    var c1 := NewBlock(c0, pc);
    AlignInv(cfg, p, c0, pc);
    GenInv(cfg, p, c1, pc);
    ExtendsTrans(c0, c1, Gen(cfg, p, c1, pc));
  }

  /** A block that begins with its instruction may be found, and led to, from now on. */
  lemma ChainInv(cfg: Config, p: Program, c: Cache, b: Block)
    requires Sound(cfg, p, c) && b.start in c.notes.origin && c.notes.origin[b.start] == b.pc
    requires InstrAt(cfg, p, c, c.notes.origin, b.start, b.pc)
    ensures Sound(cfg, p, Chain(c, b)) && Extends(c, Chain(c, b))
    ensures b.start in Chain(c, b).notes.heads && Chain(c, b).notes.heads[b.start] == b.pc && Chain(c, b).notes.origin == c.notes.origin
  {
    hide LinkOk, LinksOk, StubsOk, PostsOk, StartsOk, NewsOk, SieveStub, PostambleAt, Template, Layout, NotesPlaced, TablesOk, DispatchersOk, Fixed, InstrAt, HashPc;
    var c' := Chain(c, b);
    TableSizes(cfg, c);
    SameLayout(cfg, c, c');
    ChainPlaced(cfg, c, b);
    SubMapSelf(c.notes.origin);
    InstrKept(cfg, p, c, c', c.notes.origin, c.notes.origin, b.start, b.pc);
    ChainNews(cfg, p, c, b);
    Grow(cfg, p, c, c', c.notes.origin, c.notes.origin);
  }

  lemma ChainNews(cfg: Config, p: Program, c: Cache, b: Block)
    requires NotesPlaced(c) && b.start in c.notes.origin && c.notes.origin[b.start] == b.pc
    requires InstrAt(cfg, p, Chain(c, b), c.notes.origin, b.start, b.pc)
    ensures NewsOk(cfg, p, c, Chain(c, b), c.notes.origin)
  {
    hide LinkOk, SieveStub, PostambleAt, Template, InstrAt, HashPc;
  }

  lemma TableSizes(cfg: Config, c: Cache)
    requires TablesOk(cfg, c)
    ensures |c.hash| == HASH_BUCKETS
  {
  }

  lemma ChainPlaced(cfg: Config, c: Cache, b: Block)
    requires NotesPlaced(c) && TablesOk(cfg, c) && SubMap(c.notes.heads, c.notes.origin) && b.start in c.notes.origin && c.notes.origin[b.start] == b.pc
    ensures NotesPlaced(Chain(c, b)) && TablesOk(cfg, Chain(c, b)) && Keeps(c, Chain(c, b))
  {
    hide HashPc;
  }

  lemma InvTables(cfg: Config, p: Program, c: Cache)
    requires Sound(cfg, p, c)
    ensures TablesOk(cfg, c)
  {
  }

  /** dbt_find returns the block of exactly this guest address, which begins with its instruction. */
  lemma FindInv(cfg: Config, p: Program, c: Cache, pc: Word)
    requires ValidConfig(cfg) && ValidProgram(p) && Sound(cfg, p, c)
    ensures var r := Find(cfg, p, c, pc);
            && Sound(cfg, p, r.cache) && r.start in r.cache.notes.heads && r.cache.notes.heads[r.start] == pc
            && (!r.flushed ==> Extends(c, r.cache))
  {
    hide Inv, Extends, Translate, HashPc, InstrAt;
    match FindBlock(c, pc)
    case Some(b) =>
      FoundStarts(cfg, p, c, c.notes.origin, pc);
      assert FindBlock(c, pc).value.pc == pc by { FindInChain(c.hash[HashPc(pc)], pc); }
      ExtendsSelf(c);
    case None =>
      TranslateInv(cfg, p, c, pc);
      var t := Translate(cfg, p, c, pc);
      ChainInv(cfg, p, t.cache, Block(pc, t.start));
      ExtendsOptional(c, t.cache, Chain(t.cache, Block(pc, t.start)), t.flushed);
  }

  /** Exactly what dbt_translate does: one more block at the next boundary, behind the others if there is
      room for it, and else in a cache that has been flushed. */
  lemma TranslateExact(cfg: Config, p: Program, c: Cache, pc: Word)
    requires ValidConfig(cfg) && ValidProgram(p) && Sound(cfg, p, c)
    ensures var t := Translate(cfg, p, c, pc); var b := Block(pc, t.start);
            var c0 := if t.flushed then Init(cfg) else c;
            && (t.flushed <==> |c.blocks| == MAX_BLOCKS || c.end - c.out < BLOCK_MAXSIZE)
            && Extends(c0, t.cache) && c0.out <= t.start < c0.out + 16 && t.start % 16 == 0 && t.start < t.cache.out
            && t.cache.blocks == c0.blocks + [b] && t.cache.tree == c0.tree + {b} && t.cache.cacheTree == c0.cacheTree + {b}
            && t.cache.hash == c0.hash && t.cache.sieve == c0.sieve && t.cache.ret == c0.ret
  {
    hide Inv, Extends, GenInstr, Gen, HashPc, InstrAt, Align16, Init;
    InitInv(cfg, p);
    var c0 := if Full(c) then Init(cfg) else c;
    var c1 := NewBlock(c0, pc);
    AlignInv(cfg, p, c0, pc);
    GenInv(cfg, p, c1, pc);
    ExtendsTrans(c0, c1, Gen(cfg, p, c1, pc));
    NextBoundary(c0.out);
  }

  lemma NextBoundary(n: int)
    ensures n <= Align16(n) < n + 16 && Align16(n) % 16 == 0
  {
  }

  /** Exactly what dbt_find does. A block that exists is returned as it is. Otherwise one more block is
      made, at the next boundary: behind the others if there is room for it, and else alone in a cache
      that has been flushed. */
  lemma FindExact(cfg: Config, p: Program, c: Cache, pc: Word)
    requires ValidConfig(cfg) && ValidProgram(p) && Sound(cfg, p, c)
    ensures var f := Find(cfg, p, c, pc);
            match FindBlock(c, pc)
            case Some(b) => f.cache == c && f.start == b.start && !f.flushed
            case None =>
              var b := Block(pc, f.start);
              var c0 := if f.flushed then Init(cfg) else c;
              && (f.flushed <==> |c.blocks| == MAX_BLOCKS || c.end - c.out < BLOCK_MAXSIZE)
              && Extends(c0, f.cache) && c0.out <= f.start < c0.out + 16 && f.start % 16 == 0 && f.start < f.cache.out
              && f.cache.blocks == c0.blocks + [b] && f.cache.tree == c0.tree + {b} && f.cache.cacheTree == c0.cacheTree + {b}
              && |c0.hash| == HASH_BUCKETS && f.cache.hash == c0.hash[HashPc(pc) := [b] + c0.hash[HashPc(pc)]]
              && f.cache.sieve == c0.sieve && f.cache.ret == c0.ret
  {
    hide Inv, Extends, Translate, HashPc, InstrAt, Init;
    if FindBlock(c, pc).None? {
      InitInv(cfg, p);
      TranslateExact(cfg, p, c, pc);
      TranslateInv(cfg, p, c, pc);
      var t := Translate(cfg, p, c, pc);
      var c0 := if t.flushed then Init(cfg) else c;
      ChainInv(cfg, p, t.cache, Block(pc, t.start));
      ExtendsTrans(c0, t.cache, Chain(t.cache, Block(pc, t.start)));
      InvTables(cfg, p, c0);
      TableSizes(cfg, c0);
    }
  }

  /** A block start is a start, and its instruction is there. */
  lemma HeadStarts(cfg: Config, p: Program, c: Cache, a: int)
    requires Sound(cfg, p, c) && a in c.notes.heads
    ensures a in c.notes.origin && c.notes.origin[a] == c.notes.heads[a] && InstrAt(cfg, p, c, c.notes.origin, a, c.notes.heads[a])
  {
  }

  lemma ExtendsOptional(c: Cache, c1: Cache, c2: Cache, flushed: bool)
    requires (!flushed ==> Extends(c, c1)) && Extends(c1, c2)
    ensures !flushed ==> Extends(c, c2)
  {
    if !flushed {
      ExtendsTrans(c, c1, c2);
    }
  }

  /** After dbt_find the four indexes agree again, and the next lookup of `pc` hits. */
  lemma FindAgrees(cfg: Config, p: Program, c: Cache, pc: Word)
    requires ValidConfig(cfg) && ValidProgram(p) && Sound(cfg, p, c) && Agreed(c)
    ensures var r := Find(cfg, p, c, pc); Agreed(r.cache) && FindBlock(r.cache, pc) == Some(Block(pc, r.start))
  {
    hide Inv, Extends, GenInstr, Gen, HashPc, Agreed, Chain, NewBlock;
    match FindBlock(c, pc)
    case Some(b) => FindBlockComplete(c, pc);
    case None =>
      InitInv(cfg, p);
      InitIsEmpty(cfg, pc);
      var c0 := if Full(c) then Init(cfg) else c;
      var c1 := NewBlock(c0, pc);
      AlignInv(cfg, p, c0, pc);
      GenInv(cfg, p, c1, pc);
      AgreedSizes(c0);
      assert c1.out == Align16(c0.out) && !Full(c0) by { AlignsTo(c0, pc); }
      var c2 := Gen(cfg, p, c1, pc);
      ChainAgrees(c0, c2, pc);
      AgreedSizes(Chain(c2, Block(pc, c1.out)));
      ChainFound(c2, Block(pc, c1.out));
  }

  lemma InitIsEmpty(cfg: Config, pc: Word)
    ensures FindBlock(Init(cfg), pc) == None
  {
    assert FindIn([], pc) == None;
  }

  lemma AlignsTo(c: Cache, pc: Word)
    ensures NewBlock(c, pc).out == Align16(c.out)
  {
  }

  lemma AgreedSizes(c: Cache)
    requires Agreed(c)
    ensures |c.hash| == HASH_BUCKETS && |c.blocks| <= MAX_BLOCKS
  {
  }

  lemma ChainFound(c: Cache, b: Block)
    requires |Chain(c, b).hash| == HASH_BUCKETS
    ensures FindBlock(Chain(c, b), b.pc) == Some(b)
  {
    hide HashPc;
  }
}
