/**
 What every reachable code cache satisfies: each address recorded in the notes carries the
 code of its template, whatever has been patched, chained or cached so far.
 */
module DbtInvariant {
  import opened Basics
  import opened DbtMachine
  import opened DbtCache

  // ----- code that is never rewritten, and code that is -----

  /** `op` stands at `k` and is not one of the branches that get rewritten. */
  ghost predicate Fixed(c: Cache, k: int, op: Op) {
    k in c.code && c.code[k] == op && k !in c.notes.links && k - NEXT_OFFSET !in c.notes.stubs
  }

  ghost predicate IsDirectStub(c: Cache, x: int, dest: Word, patch: int) {
    Fixed(c, x, PushImm(patch)) && Fixed(c, x + 5, PushImm(dest)) && Fixed(c, x + 10, Jmp(FIND_DIRECT))
  }

  function BranchTarget(op: Op): int {
    match op
    case Jmp(d) => d
    case JccOp(_, d) => d
    case _ => 0
  }

  function PatchAddr(op: Op, k: int): int {
    if op.Jmp? then k + 1 else k + 2
  }

  /** The branch at `k` leads to the block of `dest`, or to the stub that will make it so. */
  ghost predicate LinkOk(c: Cache, k: int, dest: Word) {
    && k in c.code && (c.code[k].Jmp? || c.code[k].JccOp?) && k - NEXT_OFFSET !in c.notes.stubs
    && var x := BranchTarget(c.code[k]);
       || (x in c.notes.heads && c.notes.heads[x] == dest)
       || IsDirectStub(c, x, dest, PatchAddr(c.code[k], k))
  }

  ghost predicate JmpLink(c: Cache, k: int, dest: Word) {
    k in c.notes.links && c.notes.links[k] == dest && k in c.code && c.code[k].Jmp?
  }

  // ----- stubs -----

  /** Code that accepts the guest address on the stack if it is `pc`. */
  ghost predicate Checker(c: Cache, x: int, pc: Word, long: bool) {
    var l := x + 4 + Len(LeaEcx(pc, long));
    && Fixed(c, x, LoadEcx) && Fixed(c, x + 4, LeaEcx(pc, long)) && Fixed(c, l, JecxzOp(l + 7))
    && Fixed(c, l + 7, PopEcx) && Fixed(c, l + 8, LeaEsp(4))
  }

  predicate SameHash(pc: Word, pc': Word) {
    pc % TABLE_ENTRIES == pc' % TABLE_ENTRIES
  }

  /** A sieve stub hands its own guest address to its own translation, and any other guest address
      to the next stub of the chain, which lies lower. */
  ghost predicate SieveStub(c: Cache, x: int, pc: Word) {
    && Checker(c, x, pc, true)
    && x + NEXT_OFFSET in c.code && c.code[x + NEXT_OFFSET].Jmp? && x + NEXT_OFFSET !in c.notes.links
    && (var n := c.code[x + NEXT_OFFSET].dest; n == SIEVE_FALLBACK || (n in c.notes.stubs && n < x && SameHash(c.notes.stubs[n], pc)))
    && x + 22 in c.code && c.code[x + 22].Jmp? && Fixed(c, x + 22, c.code[x + 22])
    && (var t := c.code[x + 22].dest; t in c.notes.heads && c.notes.heads[t] == pc)
  }

  /** The address behind a postamble. */
  function PostEnd(x: int, pc: Word): int {
    x + 16 + LeaLen(pc)
  }

  ghost predicate PostambleAt(c: Cache, org: map<int, Word>, x: int, pc: Word) {
    && Checker(c, x, pc, LongLea(pc))
    && Fixed(c, x + 6 + LeaLen(pc), Jmp(SIEVE_FALLBACK))
    && PostEnd(x, pc) in org && org[PostEnd(x, pc)] == pc
  }

  ghost predicate RetEntryOk(cfg: Config, c: Cache, v: int) {
    v == ReturnFallback(cfg) || v in c.notes.posts
  }

  ghost predicate DispatchersOk(cfg: Config, c: Cache) {
    && Fixed(c, SieveDispatch(cfg), PushEcx) && Fixed(c, ReturnFallback(cfg), MovzxEcx)
    && Fixed(c, ReturnFallback(cfg) + 5, JmpSieve)
    && Fixed(c, CallDispatch(cfg), StoreEcx) && Fixed(c, CallDispatch(cfg) + 3, MovzxEcx)
    && Fixed(c, CallDispatch(cfg) + 8, JmpSieve)
  }

  // ----- templates -----

  ghost predicate StoreRetAt(cfg: Config, c: Cache, k: int, next: Word) {
    && k in c.code && c.code[k].StoreRet? && Fixed(c, k, c.code[k])
    && c.code[k].slot == next % TABLE_ENTRIES && RetEntryOk(cfg, c, c.code[k].v)
    && c.code[k].v == if cfg.traceAll then ReturnFallback(cfg) else k + 15
  }

  ghost predicate PostNoted(c: Cache, x: int, pc: Word) {
    x in c.notes.posts && c.notes.posts[x] == pc
  }

  ghost predicate CallTrampolineAt(c: Cache, t: int, dest: Word) {
    Fixed(c, t, LeaEsp(4)) && JmpLink(c, t + 4, dest)
  }

  ghost predicate CallDirectAt(cfg: Config, c: Cache, a: int, dest: Word, next: Word) {
    && Fixed(c, a, PushImm(next)) && StoreRetAt(cfg, c, a + 5, next)
    && a + 15 in c.code && c.code[a + 15].CallOp? && Fixed(c, a + 15, c.code[a + 15])
    && CallTrampolineAt(c, c.code[a + 15].dest, dest)
    && PostNoted(c, a + 20, next)
  }

  ghost predicate CallIndirectAt(cfg: Config, c: Cache, a: int, rm: Rm, gs: bool, next: Word) {
    var b := a + 5 + Len(PushOf(AfterPush(rm), gs));
    && Fixed(c, a, PushImm(next)) && Fixed(c, a + 5, PushOf(AfterPush(rm), gs)) && StoreRetAt(cfg, c, b, next)
    && b + 10 in c.code && c.code[b + 10].CallOp? && Fixed(c, b + 10, c.code[b + 10])
    && c.code[b + 10].dest == CallDispatch(cfg)
    && PostNoted(c, b + 15, next)
  }

  ghost predicate RetTrampolineAt(c: Cache, a: int) {
    Fixed(c, a, PushEcx) && Fixed(c, a + 1, MovzxEcx) && Fixed(c, a + 6, PushRet) && Fixed(c, a + 13, RetOp)
  }

  ghost predicate RetNAt(c: Cache, a: int, count: nat) {
    var l := Len(PopStack(count - 4));
    Fixed(c, a, PopStack(count - 4)) && Fixed(c, a + l, LeaEsp(count - 4)) && RetTrampolineAt(c, a + 2 * l)
  }

  /** The code at `a` for the guest instruction at `pc`. */
  ghost predicate InstrAt(cfg: Config, p: Program, c: Cache, org: map<int, Word>, a: int, pc: Word) {
    match p.at(pc)
    case Straight(id, len, outLen) => Fixed(c, a, Body(id, outLen)) && a + outLen in org && org[a + outLen] == W(pc + len)
    case JmpDirect(_, dest) => JmpLink(c, a, dest)
    case Jcc(cc, len, dest) =>
      && a in c.notes.links && c.notes.links[a] == dest && a in c.code && c.code[a].JccOp? && c.code[a].cc == cc
      && JmpLink(c, a + 6, W(pc + len))
    case JccRel8(kind, len, dest) =>
      && Fixed(c, a, LoopOp(kind, a + 4)) && Fixed(c, a + 2, JmpShort(a + 9))
      && JmpLink(c, a + 4, dest) && JmpLink(c, a + 9, W(pc + len))
    case CallDirect(len, dest) => CallDirectAt(cfg, c, a, dest, W(pc + len))
    case CallIndirect(len, rm, gs) => CallIndirectAt(cfg, c, a, rm, gs, W(pc + len))
    case JmpIndirect(_, rm, gs) => Fixed(c, a, PushOf(rm, gs)) && Fixed(c, a + Len(PushOf(rm, gs)), Jmp(SieveDispatch(cfg)))
    case Ret => RetTrampolineAt(c, a)
    case RetN(_, count) => RetNAt(c, a, count)
    case Int80(len) => Fixed(c, a, PushImm(W(pc + len))) && Fixed(c, a + 5, Jmp(SYSCALL))
  }

  /** The code at `a` for guest address `pc`: the instruction, or a jump to a later block. */
  ghost predicate Template(cfg: Config, p: Program, c: Cache, org: map<int, Word>, a: int, pc: Word) {
    JmpLink(c, a, pc) || InstrAt(cfg, p, c, org, a, pc)
  }

  // ----- the whole cache -----

  ghost predicate Placed1(c: Cache, lo: int, limit: int, k: int)
    requires k in c.code
  {
    (lo <= k && k + Len(c.code[k]) <= c.out) || (c.end <= k && k + Len(c.code[k]) <= limit)
  }

  ghost predicate Layout(cfg: Config, c: Cache) {
    && CallDispatch(cfg) + 15 <= c.out <= c.end <= cfg.limit && c.end % STUB_SIZE == 0
    && (forall k :: k in c.code ==> Placed1(c, SieveDispatch(cfg), cfg.limit, k))
    && (forall k, m :: k in c.code && m in c.code && k < m ==> k + Len(c.code[k]) <= m)
    && (forall k :: k in c.code && c.code[k].Body? ==> 0 < c.code[k].len)
  }

  ghost predicate NotesPlaced(c: Cache) {
    && (forall k :: k in c.notes.links ==> k in c.code)
    && (forall x :: x in c.notes.stubs ==> x in c.code && c.end <= x && x + NEXT_OFFSET in c.code)
    && (forall a :: a in c.notes.origin ==> a in c.code)
  }

  ghost predicate TablesOk(cfg: Config, c: Cache) {
    && |c.hash| == HASH_BUCKETS && |c.sieve| == TABLE_ENTRIES && |c.ret| == TABLE_ENTRIES
    && (forall h :: 0 <= h < TABLE_ENTRIES ==> c.sieve[h] == SIEVE_FALLBACK || (c.sieve[h] in c.notes.stubs && c.notes.stubs[c.sieve[h]] % TABLE_ENTRIES == h))
    && (forall h :: 0 <= h < TABLE_ENTRIES ==> RetEntryOk(cfg, c, c.ret[h]))
    && (forall h, i :: 0 <= h < HASH_BUCKETS && 0 <= i < |c.hash[h]| ==>
          c.hash[h][i].start in c.notes.heads && c.notes.heads[c.hash[h][i].start] == c.hash[h][i].pc)
  }

  ghost predicate LinksOk(c: Cache) {
    forall k :: k in c.notes.links ==> LinkOk(c, k, c.notes.links[k])
  }

  ghost predicate StubsOk(c: Cache) {
    forall x :: x in c.notes.stubs ==> SieveStub(c, x, c.notes.stubs[x])
  }

  ghost predicate PostsOk(c: Cache, org: map<int, Word>) {
    forall x :: x in c.notes.posts ==> PostambleAt(c, org, x, c.notes.posts[x])
  }

  ghost predicate StartsOk(cfg: Config, p: Program, c: Cache, org: map<int, Word>) {
    && SubMap(c.notes.origin, org)
    && (forall a :: a in c.notes.origin ==> Template(cfg, p, c, org, a, c.notes.origin[a]))
  }

  /** Every block begins with its instruction. */
  ghost predicate HeadsOk(cfg: Config, p: Program, c: Cache, org: map<int, Word>) {
    && SubMap(c.notes.heads, c.notes.origin)
    && (forall a :: a in c.notes.heads ==> InstrAt(cfg, p, c, org, a, c.notes.heads[a]))
  }

  /** The invariant; `org` extends the recorded starts by the one that is being translated. */
  ghost predicate Inv(cfg: Config, p: Program, c: Cache, org: map<int, Word>) {
    && Layout(cfg, c) && NotesPlaced(c) && DispatchersOk(cfg, c) && TablesOk(cfg, c)
    && LinksOk(c) && StubsOk(c) && PostsOk(c, org) && StartsOk(cfg, p, c, org) && HeadsOk(cfg, p, c, org)
  }

  // ----- growth -----

  /** A branch that is rewritten keeps its kind. */
  predicate SameKind(op: Op, op': Op) {
    (op.Jmp? && op'.Jmp?) || (op.JccOp? && op'.JccOp? && op.cc == op'.cc)
  }

  /** `c'` keeps the notes of `c` and its code, up to the targets of branches that may be rewritten. */
  ghost predicate Keeps(c: Cache, c': Cache) {
    && (forall k :: k in c.code ==> k in c'.code)
    && (forall k :: k in c.code && c'.code[k] != c.code[k] ==>
          (k in c.notes.links || k - NEXT_OFFSET in c.notes.stubs) && SameKind(c.code[k], c'.code[k]))
    && (forall k :: k in c.code && k in c'.notes.links ==> k in c.notes.links)
    && (forall k :: k in c.code && k - NEXT_OFFSET in c'.notes.stubs ==> k - NEXT_OFFSET in c.notes.stubs)
    && SubMap(c.notes.links, c'.notes.links) && SubMap(c.notes.stubs, c'.notes.stubs)
    && SubMap(c.notes.posts, c'.notes.posts) && SubMap(c.notes.origin, c'.notes.origin) && SubMap(c.notes.heads, c'.notes.heads)
  }

  ghost predicate SubMap(m: map<int, Word>, m': map<int, Word>) {
    forall k :: k in m ==> k in m' && m'[k] == m[k]
  }

  /** `c'` keeps all code of `c`, with the same standing, and all notes. */
  ghost predicate Extends(c: Cache, c': Cache) {
    Keeps(c, c') && forall k :: k in c.code ==> c'.code[k] == c.code[k]
  }

  lemma ExtendsTrans(c: Cache, c1: Cache, c2: Cache)
    requires Extends(c, c1) && Extends(c1, c2)
    ensures Extends(c, c2)
  {
  }

  lemma KeepsTrans(c: Cache, c1: Cache, c2: Cache)
    requires Extends(c, c1) && Keeps(c1, c2)
    ensures Keeps(c, c2)
  {
  }

  /** Code that is never rewritten stays. */
  lemma FixedKept(c: Cache, c': Cache)
    requires Keeps(c, c')
    ensures forall k, op :: Fixed(c, k, op) ==> Fixed(c', k, op)
    ensures forall k, dest :: JmpLink(c, k, dest) ==> JmpLink(c', k, dest)
  {
  }

  lemma LinkKept(c: Cache, c': Cache, k: int, dest: Word)
    requires Keeps(c, c') && LinkOk(c, k, dest) && c'.code[k] == c.code[k]
    ensures LinkOk(c', k, dest)
  {
    FixedKept(c, c');
  }

  lemma StubKept(c: Cache, c': Cache, x: int, pc: Word)
    requires Keeps(c, c') && SieveStub(c, x, pc) && c'.code[x + NEXT_OFFSET] == c.code[x + NEXT_OFFSET]
    ensures SieveStub(c', x, pc)
  {
    FixedKept(c, c');
    hide Len;
  }

  lemma PostKept(c: Cache, c': Cache, org: map<int, Word>, org': map<int, Word>, x: int, pc: Word)
    requires Keeps(c, c') && SubMap(org, org') && PostambleAt(c, org, x, pc)
    ensures PostambleAt(c', org', x, pc)
  {
    hide PostEnd, LeaLen, LongLea;
    FixedKept(c, c');
  }

  lemma InstrKept(cfg: Config, p: Program, c: Cache, c': Cache, org: map<int, Word>, org': map<int, Word>, a: int, pc: Word)
    requires Keeps(c, c') && SubMap(org, org') && InstrAt(cfg, p, c, org, a, pc)
    ensures InstrAt(cfg, p, c', org', a, pc)
  {
    hide CallDispatch, SieveDispatch, AfterPush, Len;
    FixedKept(c, c');
  }

  lemma TemplateKept(cfg: Config, p: Program, c: Cache, c': Cache, org: map<int, Word>, org': map<int, Word>, a: int, pc: Word)
    requires Keeps(c, c') && SubMap(org, org') && Template(cfg, p, c, org, a, pc)
    ensures Template(cfg, p, c', org', a, pc)
  {
    hide InstrAt;
    FixedKept(c, c');
    if !JmpLink(c, a, pc) {
      InstrKept(cfg, p, c, c', org, org', a, pc);
    }
  }
}
