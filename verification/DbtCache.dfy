/**
 The code cache of the translator as a value: what each generating and dispatching function
 of src/dbt/x86.c makes of it.

 `notes` is bookkeeping for the proofs: which addresses start the translation of which guest
 pc, which branch operands may be patched, and where the checking stubs are.
 */
module DbtCache {
  import opened Basics
  import opened DbtMachine

  // ----- layout -----

  /** `first` is where the dispatch trampolines go, `limit` the end of the cache: 8MB behind a base that
      VirtualAlloc aligns to 64kB. */
  datatype Config = Config(first: int, limit: int, traceAll: bool)

  ghost predicate ValidConfig(cfg: Config) {
    0x1_0000 <= cfg.first && cfg.first + 8192 <= cfg.limit <= TWO32 && cfg.limit % STUB_SIZE == 0
  }

  /** Entry points of the assembly stubs; they lie outside every cache. */
  const FIND_DIRECT := 1
  const SIEVE_FALLBACK := 2
  const SYSCALL := 3

  const HASH_BUCKETS := 4096
  const TABLE_ENTRIES := 65536
  const BLOCK_MAXSIZE := 1024
  const STUB_SIZE := 32
  /** DBT_BLOCKS_TABLE_SIZE / sizeof(struct dbt_block) */
  const MAX_BLOCKS := 233016

  function Align16(n: int): int {
    (n + 15) / 16 * 16
  }

  function SieveDispatch(cfg: Config): int { Align16(cfg.first) }

  function ReturnFallback(cfg: Config): int { SieveDispatch(cfg) + 1 }

  function CallDispatch(cfg: Config): int { Align16(SieveDispatch(cfg) + 13) }

  // ----- state -----

  datatype Block = Block(pc: Word, start: int)

  datatype Notes = Notes(
    origin: map<int, Word>,   // start of the translation of a guest instruction
    heads: map<int, Word>,    // those that a block starts with
    links: map<int, Word>,    // patchable branch, by the guest pc it leads to
    stubs: map<int, Word>,    // sieve stub, by the guest pc it accepts
    posts: map<int, Word>)    // call postamble, by the guest return address it accepts

  datatype Cache = Cache(
    code: map<int, Op>,
    out: int,
    end: int,
    blocks: seq<Block>,
    tree: set<Block>,
    cacheTree: set<Block>,
    hash: seq<seq<Block>>,
    sieve: seq<int>,
    ret: seq<int>,
    notes: Notes)

  function Dispatchers(cfg: Config): map<int, Op> {
    var sd, ic := SieveDispatch(cfg), CallDispatch(cfg);
    map[sd := PushEcx, sd + 1 := MovzxEcx, sd + 6 := JmpSieve,
        ic := StoreEcx, ic + 3 := MovzxEcx, ic + 8 := JmpSieve]
  }

  /** dbt_gen_tables on emptied hash chains: the state after dbt_flush. */
  function Init(cfg: Config): Cache {
    Cache(Dispatchers(cfg), CallDispatch(cfg) + 15, cfg.limit, [], {}, {},
          seq(HASH_BUCKETS, _ => []), seq(TABLE_ENTRIES, _ => SIEVE_FALLBACK),
          seq(TABLE_ENTRIES, _ => ReturnFallback(cfg)), Notes(map[], map[], map[], map[], map[]))
  }

  // ----- looking up -----

  function HashPc(pc: Word): (h: nat)
    ensures h < HASH_BUCKETS
  {
    W(pc + 8 * pc + 512 * pc) % HASH_BUCKETS
  }

  function FindIn(chain: seq<Block>, pc: Word): Option<Block> {
    if chain == [] then None
    else if chain[0].pc == pc then Some(chain[0])
    else FindIn(chain[1..], pc)
  }

  function FindBlock(c: Cache, pc: Word): Option<Block> {
    if |c.hash| == HASH_BUCKETS then FindIn(c.hash[HashPc(pc)], pc) else None
  }

  // ----- generating -----

  function Put(c: Cache, op: Op): Cache {
    c.(code := c.code[c.out := op], out := c.out + Len(op))
  }

  function PutAt(c: Cache, a: int, op: Op): Cache {
    c.(code := c.code[a := op])
  }

  /** The translation of the instruction at `pc` starts at `a`. */
  function Mark(c: Cache, a: int, pc: Word): Cache {
    c.(notes := c.notes.(origin := c.notes.origin[a := pc]))
  }

  function Link(c: Cache, site: int, dest: Word): Cache {
    c.(notes := c.notes.(links := c.notes.links[site := dest]))
  }

  function Reserve(c: Cache): Cache {
    c.(end := c.end - STUB_SIZE)
  }

  datatype Placed = Placed(cache: Cache, addr: int)

  /** The stub that asks for `target` and has the operand at `patch` rewritten. */
  function DirectStub(c: Cache, target: Word, patch: int): Placed {
    var c1 := Reserve(c);
    var x := c1.end;
    Placed(PutAt(PutAt(PutAt(c1, x, PushImm(patch)), x + 5, PushImm(target)), x + 10, Jmp(FIND_DIRECT)), x)
  }

  /** dbt_get_direct_trampoline. */
  function DirectTrampoline(c: Cache, target: Word, patch: int): Placed {
    match FindBlock(c, target)
    case Some(b) => Placed(c, b.start)
    case None => DirectStub(c, target, patch)
  }

  function PutJmp(c: Cache, dest: Word): Cache {
    var p := DirectTrampoline(c, dest, c.out + 1);
    Put(Link(p.cache, c.out, dest), Jmp(p.addr))
  }

  function PutJcc(c: Cache, cc: nat, dest: Word): Cache {
    var p := DirectTrampoline(c, dest, c.out + 2);
    Put(Link(p.cache, c.out, dest), JccOp(cc, p.addr))
  }

  /** dbt_get_direct_call_trampoline. */
  function CallTrampoline(c: Cache, dest: Word): Placed {
    var c1 := Reserve(c);
    var e := c1.end;
    var p := DirectTrampoline(PutAt(c1, e, LeaEsp(4)), dest, e + 5);
    Placed(PutAt(Link(p.cache, e + 4, dest), e + 4, Jmp(p.addr)), e)
  }

  function LongLea(pc: Word): bool {
    !IsDisp8(SignExtended(W(TWO32 - pc)))
  }

  function LeaLen(pc: Word): int {
    Len(LeaEcx(pc, LongLea(pc)))
  }

  /** dbt_gen_call_postamble. */
  function Postamble(c: Cache, pc: Word): Cache {
    var x := c.out;
    var c1 := Put(Put(c, LoadEcx), LeaEcx(pc, LongLea(pc)));
    var c2 := Put(Put(c1, JecxzOp(c1.out + 7)), Jmp(SIEVE_FALLBACK));
    var c3 := Put(Put(c2, PopEcx), LeaEsp(4));
    c3.(notes := c3.notes.(posts := c3.notes.posts[x := pc]))
  }

  /** dbt_gen_ret_trampoline. */
  function RetTrampoline(c: Cache): Cache {
    Put(Put(Put(Put(c, PushEcx), MovzxEcx), PushRet), RetOp)
  }

  /** The operand as it reads after the return address has been pushed (lines 1711-1712). */
  function AfterPush(rm: Rm): Rm {
    if rm.MemRm? && rm.base == ESP then rm.(disp := rm.disp + ESP) else rm
  }

  /** Where a return to `pc` is to be tried first (lines 1682-1685); `behind` follows the call. */
  function ReturnTarget(cfg: Config, behind: int): int {
    if cfg.traceAll then ReturnFallback(cfg) else behind
  }

  function GenStraight(c: Cache, id: nat, outLen: nat): Cache {
    Put(c, Body(id, outLen))
  }

  function GenJcc(c: Cache, cc: nat, dest: Word, next: Word): Cache {
    PutJmp(PutJcc(c, cc, dest), next)
  }

  function GenJccRel8(c: Cache, kind: LoopKind, dest: Word, next: Word): Cache {
    PutJmp(PutJmp(Put(Put(c, LoopOp(kind, c.out + 4)), JmpShort(c.out + 9)), dest), next)
  }

  function GenCallDirect(cfg: Config, c: Cache, dest: Word, next: Word): Cache {
    var c1 := Put(Put(c, PushImm(next)), StoreRet(next % TABLE_ENTRIES, ReturnTarget(cfg, c.out + 20)));
    var t := CallTrampoline(c1, dest);
    Postamble(Put(t.cache, CallOp(t.addr, c.out + 20)), next)
  }

  /** The push of an indirect operand (lines 1714-1731 and 1788-1799). */
  function PushOf(rm: Rm, gs: bool): (op: Op)
    ensures op.PushRm? || op.PushGs?
  {
    if gs && rm.MemRm? then PushGs(rm) else PushRm(rm)
  }

  function GenCallIndirect(cfg: Config, c: Cache, rm: Rm, gs: bool, next: Word): Cache {
    var c1 := Put(Put(c, PushImm(next)), PushOf(AfterPush(rm), gs));
    var c2 := Put(c1, StoreRet(next % TABLE_ENTRIES, ReturnTarget(cfg, c1.out + 15)));
    Postamble(Put(c2, CallOp(CallDispatch(cfg), c1.out + 15)), next)
  }

  function GenJmpIndirect(cfg: Config, c: Cache, rm: Rm, gs: bool): Cache {
    Put(Put(c, PushOf(rm, gs)), Jmp(SieveDispatch(cfg)))
  }

  function GenRetN(c: Cache, count: nat): Cache {
    RetTrampoline(Put(Put(c, PopStack(count - 4)), LeaEsp(count - 4)))
  }

  function GenInt80(c: Cache, next: Word): Cache {
    Put(Put(c, PushImm(next)), Jmp(SYSCALL))
  }

  /** Bytes of the guest instruction. */
  function InstrLen(i: Instr): nat {
    if i.Ret? then 1 else i.len
  }

  /** The block goes on behind the instruction. */
  predicate FallsThrough(i: Instr) {
    i.Straight? || i.CallDirect? || i.CallIndirect?
  }

  /** The handler of an instruction that is followed by guest address `next`. */
  function Handled(cfg: Config, i: Instr, c: Cache, next: Word): Cache {
    match i
    case Straight(id, _, outLen) => GenStraight(c, id, outLen)
    case JmpDirect(_, dest) => PutJmp(c, dest)
    case Jcc(cc, _, dest) => GenJcc(c, cc, dest, next)
    case JccRel8(kind, _, dest) => GenJccRel8(c, kind, dest, next)
    case CallDirect(_, dest) => GenCallDirect(cfg, c, dest, next)
    case CallIndirect(_, rm, gs) => GenCallIndirect(cfg, c, rm, gs, next)
    case JmpIndirect(_, rm, gs) => GenJmpIndirect(cfg, c, rm, gs)
    case Ret => RetTrampoline(c)
    case RetN(_, count) => GenRetN(c, count)
    case Int80(_) => GenInt80(c, next)
  }

  datatype Generated = Generated(cache: Cache, more: bool, next: Word)

  /** The code of one round of the loop of dbt_translate, at guest address `pc`. */
  function GenCode(cfg: Config, p: Program, c: Cache, pc: Word): Generated {
    if c.end - c.out < BLOCK_MAXSIZE then Generated(PutJmp(c, pc), false, pc)
    else
      var i := p.at(pc);
      var next := W(pc + InstrLen(i));
      Generated(Handled(cfg, i, c, next), FallsThrough(i), next)
  }

  function GenInstr(cfg: Config, p: Program, c: Cache, pc: Word): Generated {
    var g := GenCode(cfg, p, c, pc);
    g.(cache := Mark(g.cache, c.out, pc))
  }

  /** `c'` comes from `c` by writing at most `n` bytes and taking at most `k` stubs. */
  predicate Moved(c: Cache, c': Cache, n: int, k: int) {
    c.out <= c'.out <= c.out + n && c.end - k * STUB_SIZE <= c'.end <= c.end
  }

  lemma PutJmpMoves(c: Cache, dest: Word)
    ensures Moved(c, PutJmp(c, dest), 5, 1) && PutJmp(c, dest).out == c.out + 5
  {
  }

  lemma PutJccMoves(c: Cache, cc: nat, dest: Word)
    ensures Moved(c, PutJcc(c, cc, dest), 6, 1) && PutJcc(c, cc, dest).out == c.out + 6
  {
  }

  lemma CallTrampolineMoves(c: Cache, dest: Word)
    ensures Moved(c, CallTrampoline(c, dest).cache, 0, 2)
  {
  }

  lemma PostambleMoves(c: Cache, pc: Word)
    ensures Moved(c, Postamble(c, pc), 22, 0) && c.out < Postamble(c, pc).out
  {
  }

  lemma RetTrampolineMoves(c: Cache)
    ensures Moved(c, RetTrampoline(c), 14, 0) && c.out < RetTrampoline(c).out
  {
  }

  lemma GenCallDirectMoves(cfg: Config, c: Cache, dest: Word, next: Word)
    ensures Moved(c, GenCallDirect(cfg, c, dest, next), 128, 2) && c.out < GenCallDirect(cfg, c, dest, next).out
  {
    hide CallTrampoline, Postamble;
    var c1 := Put(Put(c, PushImm(next)), StoreRet(next % TABLE_ENTRIES, ReturnTarget(cfg, c.out + 20)));
    CallTrampolineMoves(c1, dest);
    var t := CallTrampoline(c1, dest);
    PostambleMoves(Put(t.cache, CallOp(t.addr, c.out + 20)), next);
  }

  lemma GenCallIndirectMoves(cfg: Config, c: Cache, rm: Rm, gs: bool, next: Word)
    ensures Moved(c, GenCallIndirect(cfg, c, rm, gs, next), 128, 2) && c.out < GenCallIndirect(cfg, c, rm, gs, next).out
  {
    hide Postamble, CallDispatch;
    var c1 := Put(Put(c, PushImm(next)), PushOf(AfterPush(rm), gs));
    var c2 := Put(c1, StoreRet(next % TABLE_ENTRIES, ReturnTarget(cfg, c1.out + 15)));
    PostambleMoves(Put(c2, CallOp(CallDispatch(cfg), c1.out + 15)), next);
  }

  lemma GenBranchMoves(c: Cache, cc: nat, kind: LoopKind, dest: Word, next: Word)
    ensures Moved(c, GenJcc(c, cc, dest, next), 128, 2) && c.out < GenJcc(c, cc, dest, next).out
    ensures Moved(c, GenJccRel8(c, kind, dest, next), 128, 2) && c.out < GenJccRel8(c, kind, dest, next).out
  {
    hide PutJmp, PutJcc;
    PutJccMoves(c, cc, dest);
    PutJmpMoves(PutJcc(c, cc, dest), next);
    var c2 := Put(Put(c, LoopOp(kind, c.out + 4)), JmpShort(c.out + 9));
    PutJmpMoves(c2, dest);
    PutJmpMoves(PutJmp(c2, dest), next);
  }

  lemma GenInstrMoves(cfg: Config, p: Program, c: Cache, pc: Word)
    requires ValidInstr(p.at(pc))
    ensures var g := GenInstr(cfg, p, c, pc);
            c.out < g.cache.out && Moved(c, g.cache, 128, 2)
  {
    hide PutJmp, GenJcc, GenJccRel8, GenCallDirect, GenCallIndirect, RetTrampoline, SieveDispatch;
    PutJmpMoves(c, pc);
    match p.at(pc)
    case Straight(id, len, outLen) =>
    case JmpDirect(_, dest) => PutJmpMoves(c, dest);
    case Jcc(cc, len, dest) => GenBranchMoves(c, cc, Loop, dest, W(pc + len));
    case JccRel8(kind, len, dest) => GenBranchMoves(c, 0, kind, dest, W(pc + len));
    case CallDirect(len, dest) => GenCallDirectMoves(cfg, c, dest, W(pc + len));
    case CallIndirect(len, rm, gs) => GenCallIndirectMoves(cfg, c, rm, gs, W(pc + len));
    case JmpIndirect(_, rm, gs) =>
    case Ret => RetTrampolineMoves(c);
    case RetN(_, count) => RetTrampolineMoves(Put(Put(c, PopStack(count - 4)), LeaEsp(count - 4)));
    case Int80(len) =>
  }

  /** The loop of dbt_translate from guest address `pc` on. */
  function Gen(cfg: Config, p: Program, c: Cache, pc: Word): Cache
    requires forall a: Word :: ValidInstr(p.at(a))
    decreases c.end - c.out + 1
  {
    GenInstrMoves(cfg, p, c, pc);
    var g := GenInstr(cfg, p, c, pc);
    if g.more && g.cache.end >= g.cache.out then Gen(cfg, p, g.cache, g.next) else g.cache
  }

  // ----- blocks -----

  /** alloc_block fails. */
  predicate Full(c: Cache) {
    |c.blocks| == MAX_BLOCKS || c.end - c.out < BLOCK_MAXSIZE
  }

  datatype Found = Found(cache: Cache, start: int, flushed: bool)

  function NewBlock(c: Cache, pc: Word): Cache {
    var b := Block(pc, Align16(c.out));
    c.(blocks := c.blocks + [b], tree := c.tree + {b}, cacheTree := c.cacheTree + {b}, out := b.start)
  }

  /** dbt_translate without a context: a new block, after a flush when there is no room. */
  function Translate(cfg: Config, p: Program, c: Cache, pc: Word): Found
    requires ValidProgram(p)
  {
    var c0 := if Full(c) then Init(cfg) else c;
    var c1 := NewBlock(c0, pc);
    Found(Gen(cfg, p, c1, pc), c1.out, Full(c))
  }

  /** slist_add of a new block; from now on it is found, and branches may lead to it. */
  function Chain(c: Cache, b: Block): Cache {
    if |c.hash| == HASH_BUCKETS
    then c.(hash := c.hash[HashPc(b.pc) := [b] + c.hash[HashPc(b.pc)]], notes := c.notes.(heads := c.notes.heads[b.start := b.pc]))
    else c
  }

  /** dbt_find. */
  function Find(cfg: Config, p: Program, c: Cache, pc: Word): Found
    requires ValidProgram(p)
  {
    match FindBlock(c, pc)
    case Some(b) => Found(c, b.start, false)
    case None =>
      var t := Translate(cfg, p, c, pc);
      t.(cache := Chain(t.cache, Block(pc, t.start)))
  }

  // ----- patching -----

  /** The branch whose operand lies at `patch`. */
  function Site(c: Cache, patch: int): int {
    if patch - 1 in c.code && c.code[patch - 1].Jmp? then patch - 1 else patch - 2
  }

  function Retarget(op: Op, dest: int): Op {
    match op
    case Jmp(_) => Jmp(dest)
    case JccOp(cc, _) => JccOp(cc, dest)
    case _ => op
  }

  function Patch(c: Cache, patch: int, dest: int): Cache {
    var k := Site(c, patch);
    if k in c.code then PutAt(c, k, Retarget(c.code[k], dest)) else c
  }

  /** dbt_find_direct: the caller continues at `start`. */
  function FindDirect(cfg: Config, p: Program, c: Cache, pc: Word, patch: int): Found
    requires ValidProgram(p)
  {
    var r := Find(cfg, p, c, pc);
    if !r.flushed && !cfg.traceAll then r.(cache := Patch(r.cache, patch, r.start)) else r
  }

  // ----- the sieve -----

  const NEXT_OFFSET := 12 // of the jump to the next stub; its operand is at offset 13

  /** dbt_gen_sieve. */
  function GenSieve(c: Cache, pc: Word, target: int): Cache {
    var c1 := Reserve(c);
    var x := c1.end;
    var c2 := PutAt(PutAt(PutAt(c1, x, LoadEcx), x + 4, LeaEcx(pc, true)), x + 10, JecxzOp(x + 17));
    var c3 := PutAt(PutAt(c2, x + 12, Jmp(SIEVE_FALLBACK)), x + 17, PopEcx);
    var c4 := PutAt(PutAt(c3, x + 18, LeaEsp(4)), x + 22, Jmp(target));
    c4.(notes := c4.notes.(stubs := c4.notes.stubs[x := pc]))
  }

  function NextStub(c: Cache, x: int): int {
    if x + NEXT_OFFSET in c.code && c.code[x + NEXT_OFFSET].Jmp? then c.code[x + NEXT_OFFSET].dest else SIEVE_FALLBACK
  }

  /** The last stub of the chain that starts at `x` (lines 2047-2055). */
  function LastStub(c: Cache, x: int): int
    decreases x
  {
    var n := NextStub(c, x);
    if n == SIEVE_FALLBACK || !(0 <= n < x) then x else LastStub(c, n)
  }

  function AppendStub(c: Cache, pc: Word, target: int): Cache {
    var h := pc % TABLE_ENTRIES;
    var c1 := GenSieve(c, pc, target);
    if |c.sieve| != TABLE_ENTRIES then c1
    else if c.sieve[h] == SIEVE_FALLBACK then c1.(sieve := c.sieve[h := c1.end])
    else PutAt(c1, LastStub(c1, c.sieve[h]) + NEXT_OFFSET, Jmp(c1.end))
  }

  /** dbt_find_next_sieve. */
  function FindSieve(cfg: Config, p: Program, c: Cache, pc: Word): Found
    requires ValidProgram(p)
  {
    var r := Find(cfg, p, c, pc);
    if cfg.traceAll then r else r.(cache := AppendStub(r.cache, pc, r.start))
  }

  /** There is room for one more stub once `pc` has been found; tracing adds none. */
  ghost predicate SieveRoom(cfg: Config, p: Program, c: Cache, pc: Word)
    requires ValidProgram(p)
  {
    var f := Find(cfg, p, c, pc).cache;
    cfg.traceAll || f.out + STUB_SIZE <= f.end
  }

  // ----- changed code -----

  /** The least cached pc that is not below `pc` (rb_lower_bound on the pc tree). */
  ghost predicate IsLowerBound(tree: set<Block>, pc: Word, r: Option<Block>) {
    match r
    case None => forall b :: b in tree ==> b.pc < pc
    case Some(b) => b in tree && pc <= b.pc && forall d :: d in tree && pc <= d.pc ==> b.pc <= d.pc
  }
}
