/**
 The translator as the program runs it: the code cache, the hash chains and the two tables are
 updated in place. Every method is proved against the function of module DbtCache that says what
 it makes of the cache.
 */
module DbtTranslator {
  import opened Basics
  import opened DbtMachine
  import opened DbtCache
  import opened DbtInvariant
  import opened DbtGrowth
  import opened DbtTemplates
  import opened DbtLookup
  import opened DbtDispatch

  class Dbt {
    const cfg: Config
    const p: Program
    const hash: array<seq<Block>>
    const sieve: array<int>
    const ret: array<int>
    var code: map<int, Op>
    var out: int
    var end: int
    var blocks: seq<Block>
    var tree: set<Block>
    var cacheTree: set<Block>
    var flushed: bool
    ghost var notes: Notes

    ghost predicate Valid() {
      && ValidConfig(cfg) && ValidProgram(p) && sieve != ret
      && hash.Length == HASH_BUCKETS && sieve.Length == TABLE_ENTRIES && ret.Length == TABLE_ENTRIES
    }

    /** The cache as a value. */
    ghost function Model(): Cache
      reads this, hash, sieve, ret
    {
      Cache(code, out, end, blocks, tree, cacheTree, hash[..], sieve[..], ret[..], notes)
    }

    // ----- flushing -----

    constructor (cfg: Config, p: Program)
      requires ValidConfig(cfg) && ValidProgram(p)
      ensures Valid() && this.cfg == cfg && this.p == p && fresh(hash) && fresh(sieve) && fresh(ret)
      ensures Model() == Init(cfg) && Sound(cfg, p, Model()) && Agreed(Model())
    {
      this.cfg, this.p := cfg, p;
      hash := new seq<Block>[HASH_BUCKETS];
      sieve := new int[TABLE_ENTRIES];
      ret := new int[TABLE_ENTRIES];
      code, blocks, tree, cacheTree, flushed, notes := map[], [], {}, {}, false, Notes(map[], map[], map[], map[], map[]);
      out, end := 0, 0;
      new;
      Flush();
      InitInv(cfg, p);
    }

    /** dbt_flush, with dbt_gen_tables. */
    method Flush()
      requires Valid()
      modifies this, hash, sieve, ret
      ensures Model() == Init(cfg) && flushed
    {
      for i := 0 to hash.Length
        invariant forall j :: 0 <= j < i ==> hash[j] == []
        modifies hash
      {
        hash[i] := [];
      }
      blocks, tree, cacheTree := [], {}, {};
      code, out, end := Dispatchers(cfg), CallDispatch(cfg) + 15, cfg.limit;
      notes := Notes(map[], map[], map[], map[], map[]);
      for i := 0 to sieve.Length
        invariant forall j :: 0 <= j < i ==> sieve[j] == SIEVE_FALLBACK
        modifies sieve
      {
        sieve[i] := SIEVE_FALLBACK;
      }
      for i := 0 to ret.Length
        invariant forall j :: 0 <= j < i ==> ret[j] == ReturnFallback(cfg)
        invariant forall j :: 0 <= j < sieve.Length ==> sieve[j] == SIEVE_FALLBACK
        modifies ret
      {
        ret[i] := ReturnFallback(cfg);
      }
      flushed := true;
      SameTablesAsInit();
    }

    lemma SameTablesAsInit()
      requires Valid()
      requires forall j :: 0 <= j < hash.Length ==> hash[j] == []
      requires forall j :: 0 <= j < sieve.Length ==> sieve[j] == SIEVE_FALLBACK
      requires forall j :: 0 <= j < ret.Length ==> ret[j] == ReturnFallback(cfg)
      ensures hash[..] == Init(cfg).hash && sieve[..] == Init(cfg).sieve && ret[..] == Init(cfg).ret
    {
    }

    // ----- looking up -----

    /** find_block: along the hash chain. */
    method Lookup(pc: Word) returns (r: Option<Block>)
      requires Valid()
      ensures r == FindBlock(Model(), pc)
    {
      var chain := hash[HashPc(pc)];
      var i := 0;
      while i < |chain|
        invariant 0 <= i <= |chain|
        invariant FindIn(chain, pc) == FindIn(chain[i..], pc)
      {
        if chain[i].pc == pc {
          return Some(chain[i]);
        }
        i := i + 1;
      }
      return None;
    }

    // ----- generating -----

    method Gen(op: Op)
      modifies this`code, this`out
      ensures Model() == Put(old(Model()), op)
    {
      code := code[out := op];
      out := out + Len(op);
    }

    method Stub() returns (x: int)
      modifies this`end
      ensures Model() == Reserve(old(Model())) && x == end
    {
      end := end - STUB_SIZE;
      x := end;
    }

    method Write(a: int, op: Op)
      modifies this`code
      ensures Model() == PutAt(old(Model()), a, op)
    {
      code := code[a := op];
    }

    /** dbt_get_direct_trampoline. */
    method GetDirectTrampoline(target: Word, patch: int) returns (x: int)
      requires Valid()
      modifies this`code, this`end
      ensures Placed(Model(), x) == DirectTrampoline(old(Model()), target, patch)
    {
      var b := Lookup(target);
      if b.Some? {
        return b.value.start;
      }
      x := Stub();
      Write(x, PushImm(patch));
      Write(x + 5, PushImm(target));
      Write(x + 10, Jmp(FIND_DIRECT));
    }

    method GenJmp(dest: Word)
      requires Valid()
      modifies this`code, this`out, this`end, this`notes
      ensures Model() == PutJmp(old(Model()), dest)
    {
      hide DirectTrampoline, Len;
      var x := GetDirectTrampoline(dest, out + 1);
      notes := notes.(links := notes.links[out := dest]);
      Gen(Jmp(x));
    }

    method GenJcc(cc: nat, dest: Word)
      requires Valid()
      modifies this`code, this`out, this`end, this`notes
      ensures Model() == PutJcc(old(Model()), cc, dest)
    {
      hide DirectTrampoline, Len;
      var x := GetDirectTrampoline(dest, out + 2);
      notes := notes.(links := notes.links[out := dest]);
      Gen(JccOp(cc, x));
    }

    /** dbt_get_direct_call_trampoline. */
    method GetCallTrampoline(dest: Word) returns (e: int)
      requires Valid()
      modifies this`code, this`end, this`notes
      ensures Placed(Model(), e) == CallTrampoline(old(Model()), dest)
    {
      e := Stub();
      Write(e, LeaEsp(4));
      var x := GetDirectTrampoline(dest, e + 5);
      notes := notes.(links := notes.links[e + 4 := dest]);
      Write(e + 4, Jmp(x));
    }

    /** dbt_gen_call_postamble. */
    method GenPostamble(pc: Word)
      modifies this`code, this`out, this`notes
      ensures Model() == Postamble(old(Model()), pc)
    {
      hide Len, LongLea, Put;
      ghost var x, c := out, Model();
      Gen(LoadEcx);
      Gen(LeaEcx(pc, LongLea(pc)));
      ghost var c1 := Model();
      assert c1 == Put(Put(c, LoadEcx), LeaEcx(pc, LongLea(pc)));
      Gen(JecxzOp(out + 7));
      Gen(Jmp(SIEVE_FALLBACK));
      ghost var c2 := Model();
      assert c2 == Put(Put(c1, JecxzOp(c1.out + 7)), Jmp(SIEVE_FALLBACK));
      Gen(PopEcx);
      Gen(LeaEsp(4));
      assert Model() == Put(Put(c2, PopEcx), LeaEsp(4));
      notes := notes.(posts := notes.posts[x := pc]);
    }

    /** dbt_gen_ret_trampoline. */
    method GenRetTrampoline()
      modifies this`code, this`out
      ensures Model() == RetTrampoline(old(Model()))
    {
      Gen(PushEcx);
      Gen(MovzxEcx);
      Gen(PushRet);
      Gen(RetOp);
    }

    method GenLoop(kind: LoopKind, dest: Word, next: Word)
      requires Valid()
      modifies this`code, this`out, this`end, this`notes
      ensures Model() == GenJccRel8(old(Model()), kind, dest, next)
    {
      hide PutJmp;
      Gen(LoopOp(kind, out + 4));
      Gen(JmpShort(out + 7));
      GenJmp(dest);
      GenJmp(next);
    }

    method GenCall(dest: Word, next: Word)
      requires Valid()
      modifies this`code, this`out, this`end, this`notes
      ensures Model() == GenCallDirect(cfg, old(Model()), dest, next)
    {
      hide CallTrampoline, Postamble;
      Gen(PushImm(next));
      Gen(StoreRet(next % TABLE_ENTRIES, if cfg.traceAll then ReturnFallback(cfg) else out + 15));
      var t := GetCallTrampoline(dest);
      Gen(CallOp(t, out + 5));
      GenPostamble(next);
    }

    static lemma StoreLen()
      ensures forall slot, v :: Len(StoreRet(slot, v)) == 10
    {
    }

    method GenIndirectCall(rm: Rm, gs: bool, next: Word)
      modifies this`code, this`out, this`end, this`notes
      ensures Model() == GenCallIndirect(cfg, old(Model()), rm, gs, next)
    {
      hide CallDispatch, Postamble, AfterPush, PushOf, Len;
      StoreLen();
      Gen(PushImm(next));
      Gen(PushOf(AfterPush(rm), gs));
      ghost var c1 := Model();
      assert c1 == Put(Put(old(Model()), PushImm(next)), PushOf(AfterPush(rm), gs));
      Gen(StoreRet(next % TABLE_ENTRIES, if cfg.traceAll then ReturnFallback(cfg) else out + 15));
      Gen(CallOp(CallDispatch(cfg), out + 5));
      GenPostamble(next);
    }

    /** The handler of a control-flow instruction, or the copy of any other. */
    method Handle(i: Instr, next: Word) returns (more: bool)
      requires Valid()
      modifies this`code, this`out, this`end, this`notes
      ensures Model() == Handled(cfg, i, old(Model()), next) && more == FallsThrough(i)
    {
      hide PutJmp, PutJcc, GenJccRel8, GenCallDirect, GenCallIndirect, RetTrampoline, SieveDispatch, PushOf, Len, Put;
      more := FallsThrough(i);
      match i
      case Straight(id, _, outLen) => Gen(Body(id, outLen));
      case JmpDirect(_, dest) => GenJmp(dest);
      case Jcc(cc, _, dest) => GenJcc(cc, dest); GenJmp(next);
      case JccRel8(kind, _, dest) => GenLoop(kind, dest, next);
      case CallDirect(_, dest) => GenCall(dest, next);
      case CallIndirect(_, rm, gs) => GenIndirectCall(rm, gs, next);
      case JmpIndirect(_, rm, gs) => Gen(PushOf(rm, gs)); Gen(Jmp(SieveDispatch(cfg)));
      case Ret => GenRetTrampoline();
      case RetN(_, count) =>
        Gen(PopStack(count - 4));
        Gen(LeaEsp(count - 4));
        GenRetTrampoline();
      case Int80(_) => Gen(PushImm(next)); Gen(Jmp(SYSCALL));
    }

    // ----- blocks -----

    /** alloc_block, or dbt_flush and alloc_block again. */
    method AllocBlock(pc: Word) returns (start: int)
      requires Valid() && Sound(cfg, p, Model())
      modifies this, hash, sieve, ret
      ensures var c0 := if Full(old(Model())) then Init(cfg) else old(Model());
              Model() == NewBlock(c0, pc) && Sound(cfg, p, c0) && c0.out + BLOCK_MAXSIZE <= c0.end
      ensures start == Model().out && flushed == (old(flushed) || Full(old(Model())))
    {
      hide Inv, Init;
      if |blocks| == MAX_BLOCKS || end - out < BLOCK_MAXSIZE {
        Flush();
        InitInv(cfg, p);
      }
      start := Align16(out);
      var b := Block(pc, start);
      blocks := blocks + [b];
      tree := tree + {b};
      cacheTree := cacheTree + {b};
      out := start;
    }

    static lemma GenUnfolds(cfg: Config, p: Program, c: Cache, pc: Word)
      requires ValidProgram(p)
      ensures var g := GenInstr(cfg, p, c, pc);
              DbtCache.Gen(cfg, p, c, pc) == if g.more && g.cache.end >= g.cache.out then DbtCache.Gen(cfg, p, g.cache, g.next) else g.cache
    {
      hide GenInstr;
    }

    /** dbt_translate. */
    method Translate(pc: Word) returns (start: int)
      requires Valid() && Sound(cfg, p, Model())
      modifies this, hash, sieve, ret
      ensures var t := DbtCache.Translate(cfg, p, old(Model()), pc);
              Model() == t.cache && start == t.start && flushed == (old(flushed) || t.flushed)
    {
      hide Inv, Init, NewBlock, DbtCache.Gen, Handled, PutJmp, Extends, InstrAt, FallsThrough, InstrLen;
      start := AllocBlock(pc);
      ghost var c0 := if Full(old(Model())) then Init(cfg) else old(Model());
      AlignInv(cfg, p, c0, pc);
      ghost var c1 := Model();
      ghost var flag := flushed;
      var at: Word := pc;
      var more := true;
      while more
        invariant Valid() && flushed == flag
        invariant more ==> Inv(cfg, p, Model(), notes.origin[out := at]) && out + 832 <= end
        invariant DbtCache.Gen(cfg, p, c1, pc) == if more then DbtCache.Gen(cfg, p, Model(), at) else Model()
        decreases more, if more then end - out else 0
      {
        ghost var c := Model();
        GenInstrMoves(cfg, p, c, at);
        GenInstrInv(cfg, p, c, at);
        var here: int, was: Word := out, at;
        if end - out < BLOCK_MAXSIZE {
          GenJmp(at);
          more := false;
        } else {
          var i := p.at(at);
          at := W(at + InstrLen(i));
          more := Handle(i, at);
        }
        notes := notes.(origin := notes.origin[here := was]);
        assert Model() == GenInstr(cfg, p, c, was).cache;
        GenUnfolds(cfg, p, c, was);
      }
    }

    /** dbt_find. */
    method Find(pc: Word) returns (start: int)
      requires Valid() && Sound(cfg, p, Model())
      modifies this, hash, sieve, ret
      ensures var f := DbtCache.Find(cfg, p, old(Model()), pc);
              Model() == f.cache && start == f.start && flushed == (old(flushed) || f.flushed)
      ensures Sound(cfg, p, Model()) && (old(Agreed(Model())) ==> Agreed(Model()))
    {
      hide Inv, Init, DbtCache.Translate, Agreed, HashPc, Extends;
      FindInv(cfg, p, Model(), pc);
      if Agreed(Model()) {
        FindAgrees(cfg, p, Model(), pc);
      }
      var b := Lookup(pc);
      if b.Some? {
        return b.value.start;
      }
      start := Translate(pc);
      var h := HashPc(pc);
      hash[h] := [Block(pc, start)] + hash[h];
      notes := notes.(heads := notes.heads[start := pc]);
    }

    /** dbt_find_direct, called through a stub of the branch at `k`. */
    method FindDirect(pc: Word, patch: int, ghost k: int) returns (start: int)
      requires Valid() && Sound(cfg, p, Model())
      requires k in notes.links && notes.links[k] == pc && patch == PatchAddr(Model().code[k], k)
      modifies this, hash, sieve, ret
      ensures var f := DbtCache.FindDirect(cfg, p, old(Model()), pc, patch); Model() == f.cache && start == f.start
      ensures Sound(cfg, p, Model())
    {
      hide Inv, Init, DbtCache.Find, Agreed, Extends, Keeps;
      FindDirectInv(cfg, p, Model(), pc, k);
      flushed := false;
      start := Find(pc);
      if !flushed && !cfg.traceAll {
        var site := if patch - 1 in code && code[patch - 1].Jmp? then patch - 1 else patch - 2;
        if site in code {
          Write(site, Retarget(code[site], start));
        }
      }
    }

    // ----- the sieve -----

    /** dbt_gen_sieve. */
    method GenSieve(pc: Word, target: int) returns (x: int)
      modifies this`code, this`end, this`notes
      ensures Model() == DbtCache.GenSieve(old(Model()), pc, target) && x == end
    {
      x := Stub();
      Write(x, LoadEcx);
      Write(x + 4, LeaEcx(pc, true));
      Write(x + 10, JecxzOp(x + 17));
      Write(x + 12, Jmp(SIEVE_FALLBACK));
      Write(x + 17, PopEcx);
      Write(x + 18, LeaEsp(4));
      Write(x + 22, Jmp(target));
      notes := notes.(stubs := notes.stubs[x := pc]);
    }

    /** dbt_find_next_sieve, which adds its stub whether or not there is room for it. */
    method FindNextSieve(pc: Word) returns (start: int)
      requires Valid() && Sound(cfg, p, Model())
      modifies this, hash, sieve, ret
      ensures var f := FindSieve(cfg, p, old(Model()), pc); Model() == f.cache && start == f.start
      ensures Sound(cfg, p, Model()) <==> SieveRoom(cfg, p, old(Model()), pc)
    {
      hide Inv, Init, DbtCache.Find, Agreed, Extends, Keeps, DbtCache.GenSieve, SameTables, NextStub;
      FindSieveInv(cfg, p, Model(), pc);
      FindInv(cfg, p, Model(), pc);
      start := Find(pc);
      if cfg.traceAll {
        return;
      }
      ghost var c := Model();
      TablesSizes(cfg, p, c);
      GenSieveTables(c, pc, start);
      var x := GenSieve(pc, start);
      ghost var c1 := Model();
      var h := pc % TABLE_ENTRIES;
      if sieve[h] == SIEVE_FALLBACK {
        sieve[h] := x;
      } else {
        var current := sieve[h];
        OldStub(cfg, p, c, pc, start, current);
        var next := code[current + NEXT_OFFSET].dest;
        while next != SIEVE_FALLBACK
          invariant Model() == c1 && current in c.notes.stubs && next == NextStub(c1, current)
          invariant LastStub(c1, sieve[h]) == LastStub(c1, current)
          decreases current
        {
          OldStub(cfg, p, c, pc, start, current);
          current := next;
          OldStub(cfg, p, c, pc, start, current);
          next := code[current + NEXT_OFFSET].dest;
        }
        Write(current + NEXT_OFFSET, Jmp(x));
      }
    }

    // ----- changed code -----

    /** Stands for rb_lower_bound on the pc tree, which module RbTree proves. */
    method LowerBound(pc: Word) returns (r: Option<Block>)
      ensures IsLowerBound(tree, pc, r)
    {
      var rest := tree;
      r := None;
      while rest != {}
        invariant rest <= tree && IsLowerBound(tree - rest, pc, r)
        decreases rest
      {
        var b :| b in rest;
        rest := rest - {b};
        if pc <= b.pc && (r.None? || b.pc < r.value.pc) {
          r := Some(b);
        }
      }
      assert tree - rest == tree;
    }

    /** dbt_code_changed: afterwards no cached block starts in the changed range. */
    method CodeChanged(pc: Word, len: Word)
      requires Valid() && Sound(cfg, p, Model()) && Agreed(Model())
      modifies this, hash, sieve, ret
      ensures DbtDispatch.CodeChanged(cfg, old(Model()), pc, len, Model())
      ensures Sound(cfg, p, Model()) && Agreed(Model())
      ensures forall b :: b in blocks ==> !(pc <= b.pc <= W(pc + len))
    {
      ghost var c := Model();
      var r := LowerBound(pc);
      if r.Some? && r.value.pc <= W(pc + len) {
        Flush();
      }
      assert Model() == if r.Some? && r.value.pc <= W(pc + len) then Init(cfg) else c;
      CodeChangedExact(cfg, p, c, pc, len, Model());
    }
  }
}
