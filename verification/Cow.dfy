/**
 Copy-on-write across fork (src/syscall/mm.c). Processes share section objects, one for each
 64kB block; every process has its own table of section handles and its own views of them, with
 a hardware protection for each page. The machine refines one that copies all memory at fork.
 */
module Cow {
  import opened Pages

  type Data = int

  /** A page of a private mapping; `init` is what the file holds there, or zeroes. */
  datatype PageEntry = PageEntry(prot: Prot, init: Data)

  /** `handles` is the section table; `views` gives, for each block that is mapped into the address
      space, the pages the hardware lets the process write. */
  datatype Process = Process(entries: map<int, PageEntry>, handles: map<int, nat>, views: map<int, set<int>>)

  type Section = s: seq<Data> | |s| == 16 witness [0, 0, 0, 0, 0, 0, 0, 0, 0, 0, 0, 0, 0, 0, 0, 0]

  const ZEROES: Section := [0, 0, 0, 0, 0, 0, 0, 0, 0, 0, 0, 0, 0, 0, 0, 0]

  datatype State = State(procs: map<nat, Process>, sections: map<nat, Section>)

  function InBlock(page: int): int {
    page % PAGES_PER_BLOCK
  }

  function PageAt(b: int, k: int): int {
    b * PAGES_PER_BLOCK + k
  }

  function BlockPages(b: int): set<int> {
    set k | 0 <= k < PAGES_PER_BLOCK :: PageAt(b, k)
  }

  lemma PagesOfBlock(b: int, page: int)
    ensures page in BlockPages(b) <==> BlockOf(page) == b
  {
    assert page == PageAt(BlockOf(page), InBlock(page));
    if BlockOf(page) == b {
      assert 0 <= InBlock(page) < PAGES_PER_BLOCK;
    }
    if page in BlockPages(b) {
      var k :| 0 <= k < PAGES_PER_BLOCK && page == PageAt(b, k);
    }
  }

  // ----- sections and their holders -----

  /** The handles to section `s`, over all processes; their number is the object's HandleCount. */
  ghost function Holders(st: State, s: nat): set<(nat, int)> {
    set pid, b | pid in st.procs && b in st.procs[pid].handles && st.procs[pid].handles[b] == s :: (pid, b)
  }

  ghost predicate Alone(st: State, pid: nat, b: int) {
    && pid in st.procs && b in st.procs[pid].handles
    && forall q, c :: q in st.procs && c in st.procs[q].handles && st.procs[q].handles[c] == st.procs[pid].handles[b] ==> q == pid && c == b
  }

  lemma AloneIsOneHandle(st: State, pid: nat, b: int)
    requires pid in st.procs && b in st.procs[pid].handles
    ensures Alone(st, pid, b) <==> |Holders(st, st.procs[pid].handles[b])| == 1
  {
    var h := Holders(st, st.procs[pid].handles[b]);
    assert (pid, b) in h;
    if |h| == 1 {
      forall q, c | q in st.procs && c in st.procs[q].handles && st.procs[q].handles[c] == st.procs[pid].handles[b] ensures q == pid && c == b {
        assert (q, c) in h;
        assert |h - {(pid, b)}| == 0;
        assert (q, c) !in h - {(pid, b)};
      }
    }
    if Alone(st, pid, b) {
      assert h == {(pid, b)};
    }
  }

  // ----- what the program does -----

  function Put(st: State, pid: nat, p: Process): State {
    st.(procs := st.procs[pid := p])
  }

  function SectionOf(st: State, s: nat): Section {
    if s in st.sections then st.sections[s] else ZEROES
  }

  /** load_block_protection: entries get their protection, without write permission if masked. */
  function LoadProtection(entries: map<int, PageEntry>, b: int, writable: set<int>, mask: bool): set<int> {
    set page | page in BlockPages(b) && (if page in entries then entries[page].prot.write && mask else page in writable)
  }

  /** map_entry_range over all entries of a fresh section. */
  function Fill(entries: map<int, PageEntry>, b: int, base: Section, pages: set<int>): Section {
    seq(PAGES_PER_BLOCK, k requires 0 <= k < PAGES_PER_BLOCK =>
      if PageAt(b, k) in entries && PageAt(b, k) in pages then entries[PageAt(b, k)].init else base[k])
  }

  /** handle_on_demand_page_fault, with `s` the new section object. */
  function OnDemand(st: State, pid: nat, b: int, s: nat): State
    requires pid in st.procs
  {
    var p := st.procs[pid];
    var view := LoadProtection(p.entries, b, BlockPages(b), true);
    Put(st, pid, p.(handles := p.handles[b := s], views := p.views[b := view]))
      .(sections := st.sections[s := Fill(p.entries, b, ZEROES, BlockPages(b))])
  }

  /** load_detached_block: does nothing if the section is mapped already. */
  function LoadDetached(st: State, pid: nat, b: int): State
    requires pid in st.procs
  {
    var p := st.procs[pid];
    if b in p.views then st
    else Put(st, pid, p.(views := p.views[b := LoadProtection(p.entries, b, BlockPages(b), false)]))
  }

  /** take_block_ownership: a section with further handles is duplicated into `s`, which is mapped
      with all pages writable. */
  ghost function TakeOwnership(st: State, pid: nat, b: int, s: nat): State
    requires pid in st.procs && b in st.procs[pid].handles
  {
    var p := st.procs[pid];
    if |Holders(st, p.handles[b])| == 1 then st
    else Put(st, pid, p.(handles := p.handles[b := s], views := p.views[b := BlockPages(b)]))
           .(sections := st.sections[s := SectionOf(st, p.handles[b])])
  }

  /** handle_cow_page_fault. */
  ghost function WriteFault(st: State, pid: nat, page: int, s: nat): State
    requires pid in st.procs && BlockOf(page) in st.procs[pid].handles
  {
    var b := BlockOf(page);
    if page !in st.procs[pid].entries || !st.procs[pid].entries[page].prot.write then st
    else
      var st1 := TakeOwnership(st, pid, b, s);
      var p := st1.procs[pid];
      var view := if b in p.views then p.views[b] else BlockPages(b);
      Put(st1, pid, p.(views := p.views[b := LoadProtection(p.entries, b, view, true)]))
  }

  datatype Handled = Handled(st: State, served: bool)

  /** mm_handle_page_fault and its result, without which the access is not tried again: the process
      ends, or its system call fails with EFAULT. A block that is loaded on demand counts as found
      only if its first page has an entry. */
  ghost function PageFault(st: State, pid: nat, page: int, write: bool, s: nat): Handled
    requires pid in st.procs
  {
    var p := st.procs[pid];
    var b := BlockOf(page);
    if !(0 <= page < SPACE_HIGH / PAGE_SIZE) then Handled(st, false)
    else if b !in p.handles then Handled(OnDemand(st, pid, b, s), PageAt(b, 0) in p.entries)
    else if !write then Handled(LoadDetached(st, pid, b), b !in p.views)
    else Handled(WriteFault(st, pid, page, s), page in p.entries && p.entries[page].prot.write)
  }

  /** The hardware executes a store. */
  function Store(st: State, pid: nat, page: int, d: Data): State
    requires pid in st.procs && BlockOf(page) in st.procs[pid].handles && st.procs[pid].handles[BlockOf(page)] in st.sections
  {
    var s := st.procs[pid].handles[BlockOf(page)];
    st.(sections := st.sections[s := st.sections[s][InBlock(page) := d]])
  }

  /** mm_fork: the child gets all handles but no views, and the parent's writable entries lose
      their hardware write permission. */
  function Fork(st: State, pid: nat, child: nat): State
    requires pid in st.procs
  {
    var p := st.procs[pid];
    var views := map b | b in p.views :: set page | page in p.views[b] && !(page in p.entries && p.entries[page].prot.write);
    Put(Put(st, pid, p.(views := views)), child, p.(views := map[]))
  }

  /** mmap gives the new pages their own protection and leaves the others of the block as they are. */
  function MapView(p: Process, b: int, added: map<int, PageEntry>): set<int> {
    set page | page in BlockPages(b) && if page in added then added[page].prot.write else b in p.views && page in p.views[b]
  }

  /** The part of mmap that concerns one block; its pages have been unmapped before. */
  ghost function Map(st: State, pid: nat, b: int, added: map<int, PageEntry>, s: nat): State
    requires pid in st.procs
  {
    var p := st.procs[pid];
    var st0 := Put(st, pid, p.(entries := p.entries + added));
    if b !in p.handles then st0
    else
      var st1 := LoadDetached(TakeOwnership(st0, pid, b, s), pid, b);
      var p1 := st1.procs[pid];
      var data := Fill(p1.entries, b, SectionOf(st1, p1.handles[b]), added.Keys);
      Put(st1, pid, p1.(views := p1.views[b := MapView(p1, b, added)])).(sections := st1.sections[p1.handles[b] := data])
  }

  /** The part of munmap that concerns one block: it is released with its last entry, and made
      inaccessible where other entries stay. */
  function Unmap(st: State, pid: nat, b: int, pages: set<int>): State
    requires pid in st.procs
  {
    var p := st.procs[pid];
    var p1 := p.(entries := p.entries - pages);
    if exists page :: page in p1.entries && BlockOf(page) == b
    then Put(st, pid, if b in p.views then p1.(views := p.views[b := p.views[b] - pages]) else p1)
    else Put(st, pid, p1.(handles := p.handles - {b}, views := p.views - {b}))
  }

  /** The part of mprotect that concerns one block: no page stays writable for the hardware. */
  function Protect(st: State, pid: nat, b: int, pages: set<int>, prot: Prot): State
    requires pid in st.procs
  {
    var p := st.procs[pid];
    var entries := map page | page in p.entries :: if page in pages then p.entries[page].(prot := prot) else p.entries[page];
    Put(st, pid, p.(entries := entries, views := if b in p.views then p.views[b := p.views[b] - pages] else p.views))
  }

  ghost function Apply(st: State, a: Action): State
    requires Enabled(st, a)
  {
    match a
    case Fault(pid, page, write, s) => PageFault(st, pid, page, write, s).st
    case Write(pid, page, d) => Store(st, pid, page, d)
    case Forks(pid, child) => Fork(st, pid, child)
    case Maps(pid, b, entries, s) => Map(st, pid, b, entries, s)
    case Unmaps(pid, b, pages) => Unmap(st, pid, b, pages)
    case Protects(pid, b, pages, prot) => Protect(st, pid, b, pages, prot)
    case Exits(pid) => Exit(st, pid)
  }

  function Exit(st: State, pid: nat): State {
    st.(procs := st.procs - {pid})
  }

  // ----- actions -----

  datatype Action =
    | Fault(pid: nat, page: int, write: bool, s: nat)
    | Write(pid: nat, page: int, d: Data)
    | Forks(pid: nat, child: nat)
    | Maps(pid: nat, b: int, entries: map<int, PageEntry>, s: nat)
    | Unmaps(pid: nat, b: int, pages: set<int>)
    | Protects(pid: nat, b: int, pages: set<int>, prot: Prot)
    | Exits(pid: nat)

  /** The hardware does not stop a store to `page`. */
  predicate CanStore(st: State, pid: nat, page: int) {
    && pid in st.procs && BlockOf(page) in st.procs[pid].handles && st.procs[pid].handles[BlockOf(page)] in st.sections
    && BlockOf(page) in st.procs[pid].views && page in st.procs[pid].views[BlockOf(page)]
  }

  predicate Permitted(st: State, pid: nat, page: int) {
    pid in st.procs && page in st.procs[pid].entries && st.procs[pid].entries[page].prot.write
  }

  /** When an action may happen: faults at any page, served or not, stores only where the entry
      permits them, new objects under unused names. */
  predicate Enabled(st: State, a: Action) {
    && a.pid in st.procs
    && var p := st.procs[a.pid];
       match a
       case Fault(_, _, _, s) => s !in st.sections
       case Write(_, page, _) => CanStore(st, a.pid, page) && Permitted(st, a.pid, page)
       case Forks(_, child) => child !in st.procs
       case Maps(_, b, entries, s) => s !in st.sections && entries.Keys <= BlockPages(b) && entries.Keys !! p.entries.Keys
       case Unmaps(_, b, pages) => pages <= BlockPages(b)
       case Protects(_, b, pages, _) => pages <= BlockPages(b)
       case Exits(_) => true
  }

  // ----- the invariant -----

  ghost predicate HandlesOk(st: State) {
    && (forall pid, b :: pid in st.procs && b in st.procs[pid].handles ==> st.procs[pid].handles[b] in st.sections)
    && (forall pid, b :: pid in st.procs && b in st.procs[pid].views ==> b in st.procs[pid].handles)
  }

  /** A page that its entry allows writing and that the hardware lets the process write lives in a
      section that nobody else holds. */
  ghost predicate WritableIsAlone(st: State) {
    forall pid, page :: CanStore(st, pid, page) && Permitted(st, pid, page) ==> Alone(st, pid, BlockOf(page))
  }

  ghost predicate Inv(st: State) {
    HandlesOk(st) && WritableIsAlone(st)
  }

  // ----- the machine that copies everything at fork -----

  datatype Cell = Cell(prot: Prot, data: Data)

  type Memories = map<nat, map<int, Cell>>

  /** What the process sees at `page`: the section, or what will be loaded into it. */
  function Visible(st: State, pid: nat, page: int): Data
    requires pid in st.procs && page in st.procs[pid].entries
  {
    var p := st.procs[pid];
    var b := BlockOf(page);
    if b in p.handles && p.handles[b] in st.sections then st.sections[p.handles[b]][InBlock(page)] else p.entries[page].init
  }

  function CellAt(st: State, pid: nat, page: int): Cell
    requires pid in st.procs && page in st.procs[pid].entries
  {
    Cell(st.procs[pid].entries[page].prot, Visible(st, pid, page))
  }

  function Memory(st: State, pid: nat): map<int, Cell>
    requires pid in st.procs
  {
    map page | page in st.procs[pid].entries :: CellAt(st, pid, page)
  }

  function Abs(st: State): Memories {
    map pid | pid in st.procs :: Memory(st, pid)
  }

  function Fresh(entries: map<int, PageEntry>): map<int, Cell> {
    map page | page in entries :: Cell(entries[page].prot, entries[page].init)
  }

  /** Faults do nothing, fork copies, and every other action touches the memory of its process only. */
  function RefApply(r: Memories, a: Action): Memories {
    if a.pid !in r then r
    else
      var m := r[a.pid];
      match a
      case Write(pid, page, d) => if page in m then r[pid := m[page := m[page].(data := d)]] else r
      case Forks(pid, child) => r[child := m]
      case Maps(pid, _, entries, _) => r[pid := m + Fresh(entries)]
      case Unmaps(pid, _, pages) => r[pid := m - pages]
      case Protects(pid, _, pages, prot) => r[pid := map page | page in m :: if page in pages then m[page].(prot := prot) else m[page]]
      case Exits(pid) => r - {pid}
      case _ => r
  }
}
