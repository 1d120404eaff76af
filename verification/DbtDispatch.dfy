/**
 Dispatch stays sound: patched branches, sieve chains and flushes.
 */
module DbtDispatch {
  import opened Basics
  import opened DbtMachine
  import opened DbtCache
  import opened DbtInvariant
  import opened DbtGrowth
  import opened DbtTemplates
  import opened DbtLookup

  /** Only the branch at `k` has been rewritten. */
  lemma NewsOfRewrite(cfg: Config, p: Program, c: Cache, k: int, op: Op)
    requires NotesPlaced(c)
    requires var c' := PutAt(c, k, op);
             && (k in c.notes.links ==> LinkOk(c', k, c.notes.links[k]))
             && (k - NEXT_OFFSET in c.notes.stubs ==> SieveStub(c', k - NEXT_OFFSET, c.notes.stubs[k - NEXT_OFFSET]))
    ensures NewsOk(cfg, p, c, PutAt(c, k, op), c.notes.origin)
  {
    hide LinkOk, SieveStub, PostambleAt, Template;
  }

  /** Only the sieve stub at `x` is new. */
  lemma NewsOfStub(cfg: Config, p: Program, c: Cache, c': Cache, x: int, pc: Word)
    requires NotesPlaced(c) && Extends(c, c') && c'.notes == c.notes.(stubs := c.notes.stubs[x := pc]) && SieveStub(c', x, pc)
    ensures NewsOk(cfg, p, c, c', c.notes.origin)
  {
    hide LinkOk, SieveStub, PostambleAt, Template;
  }

  // ----- patching -----

  /** The operand that a direct stub names belongs to its own branch. */
  lemma SiteIsBranch(cfg: Config, c: Cache, k: int)
    requires Layout(cfg, c) && k in c.code && (c.code[k].Jmp? || c.code[k].JccOp?)
    ensures Site(c, PatchAddr(c.code[k], k)) == k
  {
    assert c.code[k].JccOp? ==> k + 1 !in c.code by {
      assert k + 1 in c.code ==> k + Len(c.code[k]) <= k + 1;
    }
  }

  /** Patching a branch to the translation of its own target keeps everything sound. */
  lemma PatchInv(cfg: Config, p: Program, c: Cache, k: int, dest: int)
    requires Sound(cfg, p, c) && k in c.notes.links
    requires dest in c.notes.heads && c.notes.heads[dest] == c.notes.links[k]
    ensures var c' := Patch(c, PatchAddr(c.code[k], k), dest);
            && Sound(cfg, p, c') && Keeps(c, c') && c'.notes == c.notes && SameTables(c, c') && c'.end == c.end && c'.out == c.out
            && BranchTarget(c'.code[k]) == dest
    ensures k in c.code && (c.code[k].Jmp? || c.code[k].JccOp?)
    ensures Patch(c, PatchAddr(c.code[k], k), dest) == PutAt(c, k, Retarget(c.code[k], dest))
  {
    hide SieveStub, PostambleAt, Template, Fixed, LinkOk, Keeps, Site, NewsOk, SubMap, StubsOk, PostsOk, StartsOk, TablesOk, DispatchersOk, Layout;
    assert LinkOk(c, k, c.notes.links[k]);
    LinkIsBranch(c, k, c.notes.links[k]);
    SiteIsBranch(cfg, c, k);
    var c' := Patch(c, PatchAddr(c.code[k], k), dest);
    RetargetPlaced(cfg, c, k, dest);
    RetargetKeeps(c, k, dest);
    NewsOfRewrite(cfg, p, c, k, c'.code[k]);
    SubMapSelf(c.notes.origin);
    TablesKept(cfg, c, c');
    Grow(cfg, p, c, c', c.notes.origin, c.notes.origin);
  }

  lemma LinkIsBranch(c: Cache, k: int, dest: Word)
    requires LinkOk(c, k, dest)
    ensures k in c.code && (c.code[k].Jmp? || c.code[k].JccOp?)
  {
  }

  lemma RetargetKeeps(c: Cache, k: int, dest: int)
    requires k in c.notes.links && LinkOk(c, k, c.notes.links[k])
    requires dest in c.notes.heads && c.notes.heads[dest] == c.notes.links[k]
    ensures var c' := PutAt(c, k, Retarget(c.code[k], dest)); Keeps(c, c') && LinkOk(c', k, c.notes.links[k]) && k - NEXT_OFFSET !in c.notes.stubs && (NotesPlaced(c) ==> NotesPlaced(c'))
  {
  }

  lemma RetargetPlaced(cfg: Config, c: Cache, k: int, dest: int)
    requires Layout(cfg, c) && k in c.code && (c.code[k].Jmp? || c.code[k].JccOp?)
    ensures Layout(cfg, PutAt(c, k, Retarget(c.code[k], dest)))
  {
    var op := Retarget(c.code[k], dest);
    var c' := PutAt(c, k, op);
    assert Len(op) == Len(c.code[k]);
    forall m | m in c'.code ensures Placed1(c', SieveDispatch(cfg), cfg.limit, m) {
      assert Placed1(c, SieveDispatch(cfg), cfg.limit, m);
    }
  }

  /** dbt_find_direct, called through a stub of the branch at `k`: the caller continues at the
      translation of `pc`, and a patch never lands in a flushed cache. */
  lemma FindDirectInv(cfg: Config, p: Program, c: Cache, pc: Word, k: int)
    requires ValidConfig(cfg) && ValidProgram(p) && Sound(cfg, p, c) && k in c.notes.links && c.notes.links[k] == pc
    ensures var r := FindDirect(cfg, p, c, pc, PatchAddr(c.code[k], k));
            && Sound(cfg, p, r.cache) && r.start in r.cache.notes.heads && r.cache.notes.heads[r.start] == pc
            && (r.flushed ==> r.cache == Find(cfg, p, c, pc).cache)
            && (!r.flushed ==> Keeps(c, r.cache))
            && (!r.flushed && !cfg.traceAll ==> k in r.cache.code && BranchTarget(r.cache.code[k]) == r.start)
  {
    hide Inv, Find, Patch;
    InvLayout(cfg, p, c, c.notes.origin);
    FindInv(cfg, p, c, pc);
    var f := Find(cfg, p, c, pc);
    if !f.flushed && !cfg.traceAll {
      PatchInv(cfg, p, f.cache, k, f.start);
      KeepsTrans(c, f.cache, Patch(f.cache, PatchAddr(c.code[k], k), f.start));
    }
  }

  /** Exactly when the branch is patched: unless everything is traced, whenever the block was there or
      there was room for it. Nothing else is touched. */
  lemma FindDirectExact(cfg: Config, p: Program, c: Cache, pc: Word, k: int)
    requires ValidConfig(cfg) && ValidProgram(p) && Sound(cfg, p, c) && k in c.notes.links && c.notes.links[k] == pc
    ensures var r := FindDirect(cfg, p, c, pc, PatchAddr(c.code[k], k)); var f := Find(cfg, p, c, pc);
            && r.start == f.start && r.flushed == f.flushed
            && if cfg.traceAll || (FindBlock(c, pc).None? && (|c.blocks| == MAX_BLOCKS || c.end - c.out < BLOCK_MAXSIZE))
               then r.cache == f.cache
               else
                 && k in r.cache.code && BranchTarget(r.cache.code[k]) == r.start
                 && (if c.code[k].Jmp? then r.cache.code[k].Jmp? else r.cache.code[k].JccOp? && r.cache.code[k].cc == c.code[k].cc)
                 && r.cache == f.cache.(code := f.cache.code[k := r.cache.code[k]])
  {
    hide Inv, Find, Init, FindBlock, HashPc;
    InvLayout(cfg, p, c, c.notes.origin);
    FindInv(cfg, p, c, pc);
    FindExact(cfg, p, c, pc);
    var f := Find(cfg, p, c, pc);
    if !f.flushed && !cfg.traceAll {
      PatchInv(cfg, p, f.cache, k, f.start);
    }
  }

  // ----- the sieve -----

  /** A stub being written: placed, and everything older untouched. */
  ghost predicate Writing(cfg: Config, c: Cache, c': Cache, used: int) {
    && Layout(cfg, c') && NotesPlaced(c') && Extends(c, c') && Region(c', used, c.end)
    && c'.notes == c.notes && SameTables(c, c') && c'.out == c.out
  }

  lemma Written(cfg: Config, c: Cache, c': Cache, a: int, op: Op)
    requires Writing(cfg, c, c', a) && 0 < Len(op) && a + Len(op) <= c.end <= cfg.limit
    ensures Writing(cfg, c, PutAt(c', a, op), a + Len(op)) && Fixed(PutAt(c', a, op), a, op)
    ensures forall k, o :: Fixed(c', k, o) ==> Fixed(PutAt(c', a, op), k, o)
  {
    PutAtPlaced(cfg, c', a, op);
    FixedStays(c', PutAt(c', a, op));
    ExtendsTrans(c, c', PutAt(c', a, op));
  }

  lemma GenSieveWrites(cfg: Config, c: Cache, pc: Word, target: int)
    requires Layout(cfg, c) && NotesPlaced(c) && c.out + STUB_SIZE <= c.end
    ensures var c' := GenSieve(c, pc, target); var x := c'.end; var d := c'.(notes := c.notes);
            && x == c.end - STUB_SIZE && Writing(cfg, c, d, x + 27)
            && c'.notes == c.notes.(stubs := c.notes.stubs[x := pc])
            && Checker(d, x, pc, true) && Fixed(d, x + 12, Jmp(SIEVE_FALLBACK)) && Fixed(d, x + 22, Jmp(target))
  {
    hide Writing, Fixed, Layout, NotesPlaced;
    ReserveWriting(cfg, c);
    var c1 := Reserve(c);
    var x := c1.end;
    Written(cfg, c, c1, x, LoadEcx);
    var c2 := PutAt(c1, x, LoadEcx);
    Written(cfg, c, c2, x + 4, LeaEcx(pc, true));
    var c3 := PutAt(c2, x + 4, LeaEcx(pc, true));
    Written(cfg, c, c3, x + 10, JecxzOp(x + 17));
    var c4 := PutAt(c3, x + 10, JecxzOp(x + 17));
    Written(cfg, c, c4, x + 12, Jmp(SIEVE_FALLBACK));
    var c5 := PutAt(c4, x + 12, Jmp(SIEVE_FALLBACK));
    Written(cfg, c, c5, x + 17, PopEcx);
    var c6 := PutAt(c5, x + 17, PopEcx);
    Written(cfg, c, c6, x + 18, LeaEsp(4));
    var c7 := PutAt(c6, x + 18, LeaEsp(4));
    Written(cfg, c, c7, x + 22, Jmp(target));
    var c8 := PutAt(c7, x + 22, Jmp(target));
    assert GenSieve(c, pc, target).(notes := c.notes) == c8;
  }

  lemma ReserveWriting(cfg: Config, c: Cache)
    requires Layout(cfg, c) && NotesPlaced(c) && c.out + STUB_SIZE <= c.end
    ensures Writing(cfg, c, Reserve(c), c.end - STUB_SIZE) && c.end <= cfg.limit
  {
    ReservePlaced(cfg, c);
  }

  /** dbt_gen_sieve: the new stub is sound and ends its chain. */
  lemma GenSieveInv(cfg: Config, p: Program, c: Cache, pc: Word, target: int)
    requires Sound(cfg, p, c) && c.out + STUB_SIZE <= c.end
    requires target in c.notes.heads && c.notes.heads[target] == pc
    ensures var c' := GenSieve(c, pc, target);
            && Sound(cfg, p, c') && Extends(c, c') && SameTables(c, c') && c'.out == c.out
            && c'.end == c.end - STUB_SIZE && c'.notes == c.notes.(stubs := c.notes.stubs[c'.end := pc]) && c'.end !in c.notes.stubs
            && NextStub(c', c'.end) == SIEVE_FALLBACK
  {
    hide LinkOk, SieveStub, PostambleAt, Template, Extends, Keeps, SubMap, NewsOk, Checker, Fixed, Writing, NextStub, LinksOk, StubsOk, PostsOk, StartsOk, TablesOk, DispatchersOk, Layout, NotesPlaced;
    var c' := GenSieve(c, pc, target);
    GenSieveWrites(cfg, c, pc, target);
    NoteStub(cfg, c, c', pc, target);
    NewsOfStub(cfg, p, c, c', c'.end, pc);
    ExtendsKeeps(c, c');
    SubMapSelf(c.notes.origin);
    TablesKept(cfg, c, c');
    Grow(cfg, p, c, c', c.notes.origin, c.notes.origin);
  }

  lemma NoteStub(cfg: Config, c: Cache, c': Cache, pc: Word, target: int)
    requires Layout(cfg, c) && NotesPlaced(c)
    requires var d := c'.(notes := c.notes); var x := c'.end;
             && x == c.end - STUB_SIZE && c.out <= x && Writing(cfg, c, d, x + 27) && Checker(d, x, pc, true)
             && Fixed(d, x + 12, Jmp(SIEVE_FALLBACK)) && Fixed(d, x + 22, Jmp(target))
    requires c'.notes == c.notes.(stubs := c.notes.stubs[c'.end := pc])
    requires target in c.notes.heads && c.notes.heads[target] == pc
    ensures Layout(cfg, c') && NotesPlaced(c') && Extends(c, c') && SieveStub(c', c'.end, pc) && c'.end !in c.notes.stubs
    ensures NextStub(c', c'.end) == SIEVE_FALLBACK
  {
    hide Writing, Checker, Fixed, Extends, Layout, NotesPlaced, SieveStub;
    var d := c'.(notes := c.notes);
    GapIsFree(cfg, c, c'.end + 12);
    WritingPlaced(cfg, c, d, c'.end + 27);
    SameLayout(cfg, d, c');
    StubIsNoted(c, d, c', c'.end, pc, target);
  }

  lemma WritingPlaced(cfg: Config, c: Cache, d: Cache, used: int)
    requires Writing(cfg, c, d, used)
    ensures Layout(cfg, d) && NotesPlaced(d) && Extends(c, d)
  {
  }

  lemma StubIsNoted(c: Cache, d: Cache, c': Cache, x: int, pc: Word, target: int)
    requires Checker(d, x, pc, true) && Fixed(d, x + 12, Jmp(SIEVE_FALLBACK)) && Fixed(d, x + 22, Jmp(target))
    requires Extends(c, d) && NotesPlaced(d) && d.notes == c.notes && x < c.end && NotesPlaced(c) && x + 12 !in c.code && x == d.end
    requires c' == d.(notes := c.notes.(stubs := c.notes.stubs[x := pc]))
    requires target in c.notes.heads && c.notes.heads[target] == pc
    ensures x !in c.notes.stubs && Extends(c, c') && NotesPlaced(c') && SieveStub(c', x, pc) && NextStub(c', x) == SIEVE_FALLBACK
  {
    hide Len, Fixed, Extends;
    StubNoteKeeps(c, d, c', x, pc);
    FixedIsThere(d, x, LoadEcx);
    FixedIsThere(d, x + 12, Jmp(SIEVE_FALLBACK));
    FixedIsThere(d, x + 22, Jmp(target));
    LongLen(pc);
  }

  lemma StubNoteKeeps(c: Cache, d: Cache, c': Cache, x: int, pc: Word)
    requires Extends(c, d) && d.notes == c.notes && x < c.end && NotesPlaced(c) && x + 12 !in c.code
    requires c' == d.(notes := c.notes.(stubs := c.notes.stubs[x := pc]))
    ensures forall k, op :: Fixed(d, k, op) && k != x + 12 ==> Fixed(c', k, op)
    ensures Extends(c, c')
  {
  }

  lemma LongLen(pc: Word)
    ensures Len(LeaEcx(pc, true)) == 6
  {
  }

  // ----- the chains of the sieve -----

  /** The stubs of the chain that starts at `x`. */
  ghost function Stubs(c: Cache, x: int): seq<int>
    decreases x
  {
    var n := NextStub(c, x);
    if n == SIEVE_FALLBACK || !(0 <= n < x) then [x] else [x] + Stubs(c, n)
  }

  lemma StubNext(cfg: Config, p: Program, c: Cache, x: int)
    requires ValidConfig(cfg) && Sound(cfg, p, c) && x in c.notes.stubs
    ensures x in c.code && x + 4 in c.code && c.code[x + 4] == LeaEcx(c.notes.stubs[x], true)
    ensures x + 22 in c.code && c.code[x + 22].Jmp?
    ensures var t := c.code[x + 22].dest; t in c.notes.heads && c.notes.heads[t] == c.notes.stubs[x]
    ensures var n := NextStub(c, x);
            n == SIEVE_FALLBACK || (n in c.notes.stubs && 0 <= n < x && SameHash(c.notes.stubs[n], c.notes.stubs[x]))
    ensures x + NEXT_OFFSET in c.code && c.code[x + NEXT_OFFSET].Jmp?
  {
    hide LinkOk, PostambleAt, Template, Len;
    DispatchRange(cfg);
    assert SieveStub(c, x, c.notes.stubs[x]);
  }

  /** A chain is acyclic, stays in its bucket, and ends at the fallback. */
  lemma {:induction false} StubsChain(cfg: Config, p: Program, c: Cache, x: int)
    requires ValidConfig(cfg) && Sound(cfg, p, c) && x in c.notes.stubs
    ensures var s := Stubs(c, x);
            && s[0] == x && s[|s| - 1] == LastStub(c, x)
            && (forall i :: 0 <= i < |s| ==> s[i] in c.notes.stubs && SameHash(c.notes.stubs[s[i]], c.notes.stubs[x]))
            && (forall i :: 0 <= i < |s| - 1 ==> NextStub(c, s[i]) == s[i + 1])
            && NextStub(c, s[|s| - 1]) == SIEVE_FALLBACK
            && (forall i, j :: 0 <= i < j < |s| ==> s[j] < s[i])
    decreases x
  {
    hide Sound, NextStub;
    StubNext(cfg, p, c, x);
    var n := NextStub(c, x);
    if n != SIEVE_FALLBACK {
      StubsChain(cfg, p, c, n);
      var s, t := Stubs(c, x), Stubs(c, n);
      assert forall i :: 0 < i < |s| ==> s[i] == t[i - 1];
    }
  }

  /** Where the code of the chain at `x` sends the guest address `pc`. */
  function Lookup(c: Cache, x: int, pc: Word): int
    decreases x
  {
    if x == SIEVE_FALLBACK then SIEVE_FALLBACK
    else if x + 4 in c.code && c.code[x + 4].LeaEcx? && c.code[x + 4].pc == pc && x + 22 in c.code && c.code[x + 22].Jmp? then c.code[x + 22].dest
    else if !(0 <= NextStub(c, x) < x) then SIEVE_FALLBACK
    else Lookup(c, NextStub(c, x), pc)
  }

  /** A lookup of `pc` reaches its own translation if some stub of the chain accepts it, and the
      fallback otherwise. */
  lemma {:induction false} LookupExact(cfg: Config, p: Program, c: Cache, x: int, pc: Word)
    requires ValidConfig(cfg) && Sound(cfg, p, c) && x in c.notes.stubs
    ensures var t := Lookup(c, x, pc);
            if exists i :: 0 <= i < |Stubs(c, x)| && Stubs(c, x)[i] in c.notes.stubs && c.notes.stubs[Stubs(c, x)[i]] == pc
            then t in c.notes.heads && c.notes.heads[t] == pc
            else t == SIEVE_FALLBACK
    decreases x
  {
    hide Sound, NextStub;
    StubNext(cfg, p, c, x);
    NotFallback(cfg, p, c, x);
    var n := NextStub(c, x);
    if c.notes.stubs[x] == pc {
      assert Stubs(c, x)[0] == x;
    } else if n == SIEVE_FALLBACK {
      assert Stubs(c, x) == [x] && Lookup(c, n, pc) == SIEVE_FALLBACK;
    } else {
      LookupExact(cfg, p, c, n, pc);
      var s, t := Stubs(c, x), Stubs(c, n);
      assert s == [x] + t;
      assert forall i :: 0 <= i < |t| ==> t[i] == s[i + 1];
    }
  }

  lemma NotFallback(cfg: Config, p: Program, c: Cache, x: int)
    requires ValidConfig(cfg) && Sound(cfg, p, c) && (x in c.notes.stubs || x in c.notes.origin)
    ensures x > SYSCALL
  {
    DispatchRange(cfg);
    assert x in c.code;
    assert Placed1(c, SieveDispatch(cfg), cfg.limit, x);
  }

  /** Appending a stub for `pc` to its chain keeps everything sound if and only if there is room for it;
      the program does not check that there is. */
  lemma AppendInv(cfg: Config, p: Program, c: Cache, pc: Word, target: int)
    requires ValidConfig(cfg) && Sound(cfg, p, c) && target in c.notes.heads && c.notes.heads[target] == pc
    ensures Sound(cfg, p, AppendStub(c, pc, target)) <==> c.out + STUB_SIZE <= c.end
    ensures c.out + STUB_SIZE <= c.end ==> Keeps(c, AppendStub(c, pc, target))
    ensures AppendStub(c, pc, target).notes.heads == c.notes.heads
  {
    AppendEnds(c, pc, target);
    if c.out + STUB_SIZE <= c.end {
      AppendWithRoom(cfg, p, c, pc, target);
    } else if Sound(cfg, p, AppendStub(c, pc, target)) {
      InvLayout(cfg, p, AppendStub(c, pc, target), AppendStub(c, pc, target).notes.origin);
    }
  }

  lemma AppendEnds(c: Cache, pc: Word, target: int)
    ensures var c' := AppendStub(c, pc, target); c'.end == c.end - STUB_SIZE && c'.out == c.out && c'.notes.heads == c.notes.heads && c'.hash == c.hash
  {
  }

  /** The walk along a chain meets old stubs only, and those lie above the new one. */
  lemma OldStub(cfg: Config, p: Program, c: Cache, pc: Word, target: int, x: int)
    requires ValidConfig(cfg) && Sound(cfg, p, c) && x in c.notes.stubs
    ensures var c' := GenSieve(c, pc, target); var n := NextStub(c', x);
            && (n == SIEVE_FALLBACK || (n in c.notes.stubs && 0 <= n < x))
            && x + NEXT_OFFSET in c'.code && c'.code[x + NEXT_OFFSET].Jmp? && c'.code[x + NEXT_OFFSET].dest == n
  {
    hide Sound;
    StubNext(cfg, p, c, x);
    StubsBehind(cfg, p, c);
  }

  lemma GenSieveTables(c: Cache, pc: Word, target: int)
    ensures SameTables(c, GenSieve(c, pc, target)) && GenSieve(c, pc, target).sieve == c.sieve
  {
  }

  lemma AppendWithRoom(cfg: Config, p: Program, c: Cache, pc: Word, target: int)
    requires ValidConfig(cfg) && Sound(cfg, p, c) && c.out + STUB_SIZE <= c.end
    requires target in c.notes.heads && c.notes.heads[target] == pc
    ensures Sound(cfg, p, AppendStub(c, pc, target)) && Keeps(c, AppendStub(c, pc, target))
  {
    hide Sound, Keeps, Extends, GenSieve, SameTables, NextStub;
    var h := pc % TABLE_ENTRIES;
    var c1 := GenSieve(c, pc, target);
    GenSieveInv(cfg, p, c, pc, target);
    var x := c1.end;
    TablesSizes(cfg, p, c);
    SameSieve(c, c1);
    if c.sieve[h] == SIEVE_FALLBACK {
      SetHeadInv(cfg, p, c1, h, x);
      KeepsTrans(c, c1, AppendStub(c, pc, target));
    } else {
      StubsChain(cfg, p, c, c.sieve[h]);
      LastStays(cfg, p, c, c1, c.sieve[h]);
      var last := LastStub(c1, c.sieve[h]);
      StubsBehind(cfg, p, c);
      RelinkInv(cfg, p, c1, last, x);
      KeepsTrans(c, c1, AppendStub(c, pc, target));
    }
  }

  lemma {:induction false} LastStays(cfg: Config, p: Program, c: Cache, c': Cache, x: int)
    requires ValidConfig(cfg) && Sound(cfg, p, c) && x in c.notes.stubs && Extends(c, c')
    ensures LastStub(c', x) == LastStub(c, x)
    decreases x
  {
    hide Sound;
    StubNext(cfg, p, c, x);
    if NextStub(c, x) != SIEVE_FALLBACK {
      LastStays(cfg, p, c, c', NextStub(c, x));
    }
  }

  lemma SameSieve(c: Cache, c': Cache)
    requires SameTables(c, c')
    ensures c'.sieve == c.sieve
  {
  }

  lemma TablesSizes(cfg: Config, p: Program, c: Cache)
    requires Sound(cfg, p, c)
    ensures |c.sieve| == TABLE_ENTRIES && |c.ret| == TABLE_ENTRIES && |c.hash| == HASH_BUCKETS
    ensures forall h :: 0 <= h < TABLE_ENTRIES ==> c.sieve[h] == SIEVE_FALLBACK || (c.sieve[h] in c.notes.stubs && c.notes.stubs[c.sieve[h]] % TABLE_ENTRIES == h)
    ensures forall h :: 0 <= h < TABLE_ENTRIES ==> RetEntryOk(cfg, c, c.ret[h])
  {
  }

  lemma StubsBehind(cfg: Config, p: Program, c: Cache)
    requires Sound(cfg, p, c)
    ensures forall x :: x in c.notes.stubs ==> c.end <= x
  {
  }

  /** ... and from then on a lookup of `pc` reaches the translation of `pc`. */
  lemma AppendFinds(cfg: Config, p: Program, c: Cache, pc: Word, target: int)
    requires ValidConfig(cfg) && Sound(cfg, p, c) && target in c.notes.heads && c.notes.heads[target] == pc
    requires Sound(cfg, p, AppendStub(c, pc, target))
    ensures var c' := AppendStub(c, pc, target);
            && |c'.sieve| == TABLE_ENTRIES
            && var t := Lookup(c', c'.sieve[pc % TABLE_ENTRIES], pc); t in c'.notes.heads && c'.notes.heads[t] == pc
  {
    hide Sound, Keeps, Extends, GenSieve, SameTables, NextStub;
    var h := pc % TABLE_ENTRIES;
    var c1 := GenSieve(c, pc, target);
    var c' := AppendStub(c, pc, target);
    AppendInv(cfg, p, c, pc, target);
    GenSieveInv(cfg, p, c, pc, target);
    var x := c1.end;
    TablesSizes(cfg, p, c);
    SameSieve(c, c1);
    var head := c'.sieve[h];
    if c.sieve[h] != SIEVE_FALLBACK {
      StubsChain(cfg, p, c, head);
      LastStays(cfg, p, c, c1, head);
      StubsBehind(cfg, p, c);
      Reaches(cfg, p, c1, head, x);
    } else {
      assert Stubs(c', x)[0] == x;
    }
    LookupExact(cfg, p, c', head, pc);
  }

  /** ... and a lookup of any other address that reached its translation before still does. */
  lemma AppendKeeps(cfg: Config, p: Program, c: Cache, pc: Word, target: int, other: Word)
    requires ValidConfig(cfg) && Sound(cfg, p, c) && target in c.notes.heads && c.notes.heads[target] == pc
    requires Sound(cfg, p, AppendStub(c, pc, target))
    ensures var c' := AppendStub(c, pc, target); var h := other % TABLE_ENTRIES;
            && |c.sieve| == |c'.sieve| == TABLE_ENTRIES
            && (Lookup(c, c.sieve[h], other) != SIEVE_FALLBACK ==> Lookup(c', c'.sieve[h], other) == Lookup(c, c.sieve[h], other))
  {
    hide Sound, Keeps, Extends, GenSieve, SameTables, NextStub, Lookup;
    var c1 := GenSieve(c, pc, target);
    var c' := AppendStub(c, pc, target);
    AppendInv(cfg, p, c, pc, target);
    GenSieveInv(cfg, p, c, pc, target);
    TablesSizes(cfg, p, c);
    SameSieve(c, c1);
    LookupFallback(c, other);
    AppendLinks(cfg, p, c, pc, target);
    var y := c.sieve[other % TABLE_ENTRIES];
    if y != SIEVE_FALLBACK {
      LookupKept(cfg, p, c, c', y, other);
    }
  }

  lemma LookupFallback(c: Cache, pc: Word)
    ensures Lookup(c, SIEVE_FALLBACK, pc) == SIEVE_FALLBACK
  {
  }

  /** Only the link of the last stub of the chain changes. */
  lemma AppendLinks(cfg: Config, p: Program, c: Cache, pc: Word, target: int)
    requires ValidConfig(cfg) && Sound(cfg, p, c) && c.out + STUB_SIZE <= c.end && target in c.notes.heads && c.notes.heads[target] == pc
    ensures var c' := AppendStub(c, pc, target);
            forall y :: y in c.notes.stubs && NextStub(c, y) != SIEVE_FALLBACK ==> NextStub(c', y) == NextStub(c, y)
  {
    hide Sound, GenSieve, SameTables;
    var h := pc % TABLE_ENTRIES;
    var c1 := GenSieve(c, pc, target);
    var c' := AppendStub(c, pc, target);
    GenSieveInv(cfg, p, c, pc, target);
    TablesSizes(cfg, p, c);
    SameSieve(c, c1);
    if c.sieve[h] != SIEVE_FALLBACK {
      LastStays(cfg, p, c, c1, c.sieve[h]);
      LastEnds(cfg, p, c, c.sieve[h]);
    }
    forall y | y in c.notes.stubs && NextStub(c, y) != SIEVE_FALLBACK ensures NextStub(c', y) == NextStub(c, y) {
      StubNext(cfg, p, c, y);
    }
  }

  lemma {:induction false} LastEnds(cfg: Config, p: Program, c: Cache, x: int)
    requires ValidConfig(cfg) && Sound(cfg, p, c) && x in c.notes.stubs
    ensures NextStub(c, LastStub(c, x)) == SIEVE_FALLBACK
    decreases x
  {
    hide Sound;
    StubNext(cfg, p, c, x);
    if NextStub(c, x) != SIEVE_FALLBACK {
      LastEnds(cfg, p, c, NextStub(c, x));
    }
  }

  lemma {:induction false} LookupKept(cfg: Config, p: Program, c: Cache, c': Cache, x: int, pc: Word)
    requires ValidConfig(cfg) && Sound(cfg, p, c) && Keeps(c, c') && x in c.notes.stubs
    requires forall y :: y in c.notes.stubs && NextStub(c, y) != SIEVE_FALLBACK ==> NextStub(c', y) == NextStub(c, y)
    ensures Lookup(c, x, pc) != SIEVE_FALLBACK ==> Lookup(c', x, pc) == Lookup(c, x, pc)
    decreases x
  {
    hide Sound, Keeps, NextStub;
    StubNext(cfg, p, c, x);
    StubStays(cfg, p, c, c', x);
    NotFallback(cfg, p, c, x);
    var n := NextStub(c, x);
    if n == SIEVE_FALLBACK {
      LookupFallback(c, pc);
    } else {
      LookupKept(cfg, p, c, c', n, pc);
    }
  }

  lemma StubStays(cfg: Config, p: Program, c: Cache, c': Cache, x: int)
    requires Sound(cfg, p, c) && Keeps(c, c') && x in c.notes.stubs
    ensures x + 4 in c.code && x + 4 in c'.code && c'.code[x + 4] == c.code[x + 4]
    ensures x + 22 in c.code && x + 22 in c'.code && c'.code[x + 22] == c.code[x + 22]
  {
    hide LinkOk, PostambleAt, Template, Len;
    assert SieveStub(c, x, c.notes.stubs[x]);
    FixedKept(c, c');
  }

  lemma {:induction false} Reaches(cfg: Config, p: Program, c: Cache, y: int, x: int)
    requires ValidConfig(cfg) && Sound(cfg, p, c) && y in c.notes.stubs && x in c.notes.stubs && x < LastStub(c, y)
    ensures x in Stubs(PutAt(c, LastStub(c, y) + NEXT_OFFSET, Jmp(x)), y)
    decreases y
  {
    hide Sound;
    var c' := PutAt(c, LastStub(c, y) + NEXT_OFFSET, Jmp(x));
    StubNext(cfg, p, c, y);
    NotFallback(cfg, p, c, x);
    if NextStub(c, y) == SIEVE_FALLBACK {
      assert Stubs(c', x)[0] == x;
      assert Stubs(c', y) == [y] + Stubs(c', x);
    } else {
      StubsChain(cfg, p, c, y);
      assert Stubs(c', y) == [y] + Stubs(c', NextStub(c, y));
      Reaches(cfg, p, c, NextStub(c, y), x);
    }
  }

  /** The first stub of a chain. */
  lemma SetHeadInv(cfg: Config, p: Program, c: Cache, h: int, x: int)
    requires Sound(cfg, p, c) && 0 <= h < TABLE_ENTRIES && |c.sieve| == TABLE_ENTRIES
    requires x in c.notes.stubs && c.notes.stubs[x] % TABLE_ENTRIES == h
    ensures var c' := c.(sieve := c.sieve[h := x]); Sound(cfg, p, c') && Keeps(c, c')
  {
    hide Inv;
    InvTables(cfg, p, c);
    Retabled(cfg, p, c, c.(sieve := c.sieve[h := x]), c.notes.origin);
  }

  /** A further stub of a chain: the jump of the last one is rewritten. */
  lemma RelinkInv(cfg: Config, p: Program, c: Cache, last: int, x: int)
    requires ValidConfig(cfg) && Sound(cfg, p, c) && last in c.notes.stubs && x in c.notes.stubs && x < last
    requires SameHash(c.notes.stubs[last], c.notes.stubs[x])
    ensures var c' := PutAt(c, last + NEXT_OFFSET, Jmp(x)); Sound(cfg, p, c') && Keeps(c, c')
  {
    hide LinkOk, PostambleAt, Template, SieveStub, Fixed, Keeps, Len, NewsOk, SubMap, LinksOk, PostsOk, StartsOk, TablesOk, DispatchersOk, Layout, NotesPlaced;
    var k := last + NEXT_OFFSET;
    var c' := PutAt(c, k, Jmp(x));
    StubNext(cfg, p, c, last);
    RetargetPlaced(cfg, c, k, x);
    RelinkKeeps(c, last, x);
    NewsOfRewrite(cfg, p, c, k, Jmp(x));
    SubMapSelf(c.notes.origin);
    TablesKept(cfg, c, c');
    Grow(cfg, p, c, c', c.notes.origin, c.notes.origin);
  }

  lemma RelinkKeeps(c: Cache, last: int, x: int)
    requires last in c.notes.stubs && SieveStub(c, last, c.notes.stubs[last]) && NotesPlaced(c)
    requires x in c.notes.stubs && x < last && SameHash(c.notes.stubs[last], c.notes.stubs[x])
    ensures var c' := PutAt(c, last + NEXT_OFFSET, Jmp(x));
            Keeps(c, c') && NotesPlaced(c') && SieveStub(c', last, c.notes.stubs[last]) && last + NEXT_OFFSET !in c.notes.links
  {
    hide Len, Fixed, Keeps, Checker;
    var k := last + NEXT_OFFSET;
    var c' := PutAt(c, k, Jmp(x));
    RelinkedKeeps(c, last, x);
    FixedKept(c, c');
    CheckerKept(c, c', last, c.notes.stubs[last], true);
  }

  lemma CheckerKept(c: Cache, c': Cache, x: int, pc: Word, long: bool)
    requires Keeps(c, c') && Checker(c, x, pc, long)
    ensures Checker(c', x, pc, long)
  {
    hide Len, Fixed, Keeps;
    FixedKept(c, c');
  }

  lemma RelinkedKeeps(c: Cache, last: int, x: int)
    requires last in c.notes.stubs && last + NEXT_OFFSET in c.code && c.code[last + NEXT_OFFSET].Jmp?
    ensures Keeps(c, PutAt(c, last + NEXT_OFFSET, Jmp(x)))
  {
  }

  /** dbt_find_next_sieve leads to the block of `pc`, and keeps the cache sound if and only if there is
      room for the stub it adds. */
  lemma FindSieveInv(cfg: Config, p: Program, c: Cache, pc: Word)
    requires ValidConfig(cfg) && ValidProgram(p) && Sound(cfg, p, c)
    ensures var r := FindSieve(cfg, p, c, pc);
            && r.start in r.cache.notes.heads && r.cache.notes.heads[r.start] == pc
            && (Sound(cfg, p, r.cache) <==> SieveRoom(cfg, p, c, pc))
            && (!r.flushed && SieveRoom(cfg, p, c, pc) ==> Keeps(c, r.cache))
  {
    hide Sound, Extends, Keeps, Find, AppendStub;
    FindInv(cfg, p, c, pc);
    var f := Find(cfg, p, c, pc);
    AppendInv(cfg, p, f.cache, pc, f.start);
    if !f.flushed {
      ExtendsKeeps(c, f.cache);
      if SieveRoom(cfg, p, c, pc) && !cfg.traceAll {
        KeepsTrans(c, f.cache, AppendStub(f.cache, pc, f.start));
      }
    }
  }

  // ----- running out of room -----

  /** `n` calls of dbt_find_next_sieve for the same address. A return whose entry of the return cache a
      colliding call has replaced goes to the fallback without a walk along the chain, so the address
      may have its stub already. */
  function SieveCalls(cfg: Config, p: Program, c: Cache, pc: Word, n: nat): Cache
    requires ValidProgram(p)
  {
    if n == 0 then c else FindSieve(cfg, p, SieveCalls(cfg, p, c, pc, n - 1), pc).cache
  }

  lemma {:induction false} SieveCallsTake(cfg: Config, p: Program, c: Cache, pc: Word, n: nat)
    requires ValidProgram(p) && !cfg.traceAll && FindBlock(c, pc).Some?
    ensures var c' := SieveCalls(cfg, p, c, pc, n);
            c'.out == c.out && c'.end == c.end - n * STUB_SIZE && FindBlock(c', pc) == FindBlock(c, pc)
  {
    hide AppendStub, Translate, FindIn, HashPc, Chain;
    if n > 0 {
      SieveCallsTake(cfg, p, c, pc, n - 1);
      var c1 := SieveCalls(cfg, p, c, pc, n - 1);
      AppendEnds(c1, pc, FindBlock(c, pc).value.start);
    }
  }

  /** Once `pc` has its block, the cache stays sound for exactly as many calls as there is room for stubs. */
  lemma {:induction false} SieveCallsIff(cfg: Config, p: Program, c: Cache, pc: Word, n: nat)
    requires ValidConfig(cfg) && ValidProgram(p) && !cfg.traceAll && Sound(cfg, p, c) && FindBlock(c, pc).Some?
    ensures Sound(cfg, p, SieveCalls(cfg, p, c, pc, n)) <==> c.out + n * STUB_SIZE <= c.end
  {
    hide Sound, FindSieve, Find;
    var c' := SieveCalls(cfg, p, c, pc, n);
    SieveCallsTake(cfg, p, c, pc, n);
    if Sound(cfg, p, c') {
      SoundLayout(cfg, p, c');
    }
    if n == 0 {
      SoundLayout(cfg, p, c);
    } else if c.out + n * STUB_SIZE <= c.end {
      var c1 := SieveCalls(cfg, p, c, pc, n - 1);
      SieveCallsIff(cfg, p, c, pc, n - 1);
      SieveCallsTake(cfg, p, c, pc, n - 1);
      FindHits(cfg, p, c1, pc);
      FindSieveInv(cfg, p, c1, pc);
    }
  }

  lemma SoundLayout(cfg: Config, p: Program, c: Cache)
    requires Sound(cfg, p, c)
    ensures c.out <= c.end
  {
  }

  lemma FindHits(cfg: Config, p: Program, c: Cache, pc: Word)
    requires ValidProgram(p) && FindBlock(c, pc).Some?
    ensures Find(cfg, p, c, pc).cache == c
  {
  }

  /** So the program gets there: from the flushed state, by calls for one address alone, for every
      configuration without tracing and every guest program. */
  lemma SieveWithoutRoom(cfg: Config, p: Program, pc: Word) returns (n: nat)
    requires ValidConfig(cfg) && ValidProgram(p) && !cfg.traceAll
    ensures var c := SieveCalls(cfg, p, Find(cfg, p, Init(cfg), pc).cache, pc, n);
            Sound(cfg, p, c) && !SieveRoom(cfg, p, c, pc) && !Sound(cfg, p, FindSieve(cfg, p, c, pc).cache)
  {
    hide Sound, FindSieve, Find, Init;
    InitInv(cfg, p);
    FindInv(cfg, p, Init(cfg), pc);
    FindAgrees(cfg, p, Init(cfg), pc);
    var c := Find(cfg, p, Init(cfg), pc).cache;
    SoundLayout(cfg, p, c);
    n := (c.end - c.out) / STUB_SIZE;
    var c1 := SieveCalls(cfg, p, c, pc, n);
    SieveCallsIff(cfg, p, c, pc, n);
    SieveCallsTake(cfg, p, c, pc, n);
    FindHits(cfg, p, c1, pc);
    FindSieveInv(cfg, p, c1, pc);
  }

  // ----- changed code -----

  /** dbt_code_changed. */
  ghost predicate CodeChanged(cfg: Config, c: Cache, pc: Word, len: Word, c': Cache) {
    exists r :: IsLowerBound(c.tree, pc, r) && c' == if r.Some? && r.value.pc <= W(pc + len) then Init(cfg) else c
  }

  /** After a change of [pc, pc + len] no cached block starts there, and the cache is only flushed
      if one did. The end of the range wraps like the C sum does. */
  lemma CodeChangedExact(cfg: Config, p: Program, c: Cache, pc: Word, len: Word, c': Cache)
    requires ValidConfig(cfg) && Sound(cfg, p, c) && Agreed(c) && CodeChanged(cfg, c, pc, len, c')
    ensures Sound(cfg, p, c') && Agreed(c')
    ensures forall b :: b in c'.blocks ==> !(pc <= b.pc <= W(pc + len))
    ensures c' == if exists b :: b in c.blocks && pc <= b.pc <= W(pc + len) then Init(cfg) else c
  {
    hide Sound;
    InitInv(cfg, p);
    assert forall b :: b in c.blocks <==> b in c.tree;
  }
}
