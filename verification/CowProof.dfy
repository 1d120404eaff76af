/**
 Every action on shared sections keeps each process's memory what it would be if fork copied it.
 */
module CowProof {
  import opened Pages
  import opened Cow

  // ----- equal memories -----

  lemma AbsIs(st: State, r: Memories)
    requires st.procs.Keys == r.Keys && forall pid :: pid in st.procs ==> Memory(st, pid) == r[pid]
    ensures Abs(st) == r
  {
  }

  /** A process whose entries and visible contents are the same has the same memory. */
  lemma SameMemory(st: State, pid: nat, st': State, pid': nat)
    requires pid in st.procs && pid' in st'.procs && st'.procs[pid'].entries == st.procs[pid].entries
    requires forall page :: page in st.procs[pid].entries ==> Visible(st', pid', page) == Visible(st, pid, page)
    ensures Memory(st', pid') == Memory(st, pid)
  {
  }

  /** Only process `pid` has changed, and only section `s`, which no other process sees. */
  ghost predicate Local(st: State, st': State, pid: nat, s: nat) {
    && pid in st.procs && st'.procs.Keys == st.procs.Keys
    && (forall q :: q in st.procs && q != pid ==> st'.procs[q] == st.procs[q])
    && (forall k :: k in st.sections && k != s ==> k in st'.sections && st'.sections[k] == st.sections[k])
    && (forall q, c :: q in st.procs && q != pid && c in st.procs[q].handles ==> st.procs[q].handles[c] != s)
  }

  lemma OthersSame(st: State, st': State, pid: nat, s: nat, q: nat)
    requires Local(st, st', pid, s) && HandlesOk(st) && q in st.procs && q != pid
    ensures Memory(st', q) == Memory(st, q)
  {
    SameMemory(st, q, st', q);
  }

  /** The invariant except at one block. */
  ghost predicate InvBut(st: State, pid: nat, b: int) {
    && HandlesOk(st)
    && forall q, page :: CanStore(st, q, page) && Permitted(st, q, page) && (q != pid || BlockOf(page) != b) ==> Alone(st, q, BlockOf(page))
  }

  // ----- faults -----

  lemma OnDemandOk(st: State, pid: nat, b: int, s: nat)
    requires Inv(st) && pid in st.procs && b !in st.procs[pid].handles && s !in st.sections
    ensures Inv(OnDemand(st, pid, b, s)) && Abs(OnDemand(st, pid, b, s)) == Abs(st)
  {
    var st' := OnDemand(st, pid, b, s);
    var p, p' := st.procs[pid], st'.procs[pid];
    forall page | page in p.entries ensures Visible(st', pid, page) == Visible(st, pid, page) {
      PagesOfBlock(b, page);
      if BlockOf(page) == b {
        assert PageAt(b, InBlock(page)) == page;
      }
    }
    SameMemory(st, pid, st', pid);
    forall q | q in st.procs && q != pid ensures Memory(st', q) == Memory(st, q) {
      OthersSame(st, st', pid, s, q);
    }
    AbsIs(st', Abs(st));
    forall q, page | CanStore(st', q, page) && Permitted(st', q, page) ensures Alone(st', q, BlockOf(page)) {
      if q != pid || BlockOf(page) != b {
        assert CanStore(st, q, page) && Permitted(st, q, page);
        assert Alone(st, q, BlockOf(page));
      }
    }
  }

  lemma LoadDetachedOk(st: State, pid: nat, b: int, but: bool)
    requires pid in st.procs && b in st.procs[pid].handles && if but then InvBut(st, pid, b) else Inv(st)
    ensures var st' := LoadDetached(st, pid, b); (if but then InvBut(st', pid, b) else Inv(st')) && Abs(st') == Abs(st)
  {
    var st' := LoadDetached(st, pid, b);
    forall q | q in st.procs ensures Memory(st', q) == Memory(st, q) {
      SameMemory(st, q, st', q);
    }
    AbsIs(st', Abs(st));
    forall q, page | CanStore(st', q, page) && Permitted(st', q, page) && !(but && q == pid && BlockOf(page) == b)
      ensures Alone(st', q, BlockOf(page))
    {
      assert page in st.procs[q].entries ==> page !in LoadProtection(st.procs[q].entries, b, BlockPages(b), false);
      assert CanStore(st, q, page);
      assert Alone(st, q, BlockOf(page));
    }
  }

  /** Ownership: afterwards the section has no other holder, and nobody's memory has changed. */
  lemma TakeOwnershipOk(st: State, pid: nat, b: int, s: nat)
    requires InvBut(st, pid, b) && pid in st.procs && b in st.procs[pid].handles && s !in st.sections
    ensures var st' := TakeOwnership(st, pid, b, s);
            && Inv(st') && Alone(st', pid, b) && Abs(st') == Abs(st)
            && st'.procs.Keys == st.procs.Keys && st'.procs[pid].entries == st.procs[pid].entries
            && st'.procs[pid].handles.Keys == st.procs[pid].handles.Keys
  {
    var st' := TakeOwnership(st, pid, b, s);
    var p := st.procs[pid];
    AloneIsOneHandle(st, pid, b);
    if !Alone(st, pid, b) {
      forall page | page in p.entries ensures Visible(st', pid, page) == Visible(st, pid, page) {
      }
      SameMemory(st, pid, st', pid);
      forall q | q in st.procs && q != pid ensures Memory(st', q) == Memory(st, q) {
        OthersSame(st, st', pid, s, q);
      }
      AbsIs(st', Abs(st));
      assert Alone(st', pid, b);
    }
    forall q, page | CanStore(st', q, page) && Permitted(st', q, page) ensures Alone(st', q, BlockOf(page)) {
      if q != pid || BlockOf(page) != b {
        assert CanStore(st, q, page) && Permitted(st, q, page);
        assert Alone(st, q, BlockOf(page));
      }
    }
  }

  /** New views of a block that nobody else holds. */
  lemma OwnViewOk(st: State, pid: nat, b: int, view: set<int>)
    requires Inv(st) && Alone(st, pid, b)
    ensures var p := st.procs[pid]; var st' := Put(st, pid, p.(views := p.views[b := view])); Inv(st') && Alone(st', pid, b) && Abs(st') == Abs(st)
  {
    var p := st.procs[pid];
    var st' := Put(st, pid, p.(views := p.views[b := view]));
    forall q | q in st.procs ensures Memory(st', q) == Memory(st, q) {
      SameMemory(st, q, st', q);
    }
    AbsIs(st', Abs(st));
    forall q, page | CanStore(st', q, page) && Permitted(st', q, page) ensures Alone(st', q, BlockOf(page)) {
      if q != pid || BlockOf(page) != b {
        assert CanStore(st, q, page) && Permitted(st, q, page);
        assert Alone(st, q, BlockOf(page));
      }
    }
  }

  lemma WriteFaultOk(st: State, pid: nat, page: int, s: nat)
    requires Inv(st) && pid in st.procs && BlockOf(page) in st.procs[pid].handles && s !in st.sections
    ensures Inv(WriteFault(st, pid, page, s)) && Abs(WriteFault(st, pid, page, s)) == Abs(st)
  {
    var b := BlockOf(page);
    if page in st.procs[pid].entries && st.procs[pid].entries[page].prot.write {
      TakeOwnershipOk(st, pid, b, s);
      var st1 := TakeOwnership(st, pid, b, s);
      var p := st1.procs[pid];
      OwnViewOk(st1, pid, b, LoadProtection(p.entries, b, if b in p.views then p.views[b] else BlockPages(b), true));
    }
  }

  // ----- stores -----

  /** A section that nobody else holds is the process's own memory. */
  lemma OwnSectionOk(st: State, pid: nat, b: int, data: Section)
    requires Inv(st) && Alone(st, pid, b)
    ensures var st' := st.(sections := st.sections[st.procs[pid].handles[b] := data]);
            && Inv(st') && Alone(st', pid, b)
            && (forall q :: q in st.procs && q != pid ==> Memory(st', q) == Memory(st, q))
            && (forall page :: page in st.procs[pid].entries ==>
                  Visible(st', pid, page) == if BlockOf(page) == b then data[InBlock(page)] else Visible(st, pid, page))
  {
    var s := st.procs[pid].handles[b];
    var st' := st.(sections := st.sections[s := data]);
    forall q | q in st.procs && q != pid ensures Memory(st', q) == Memory(st, q) {
      OthersSame(st, st', pid, s, q);
    }
    forall q, page | CanStore(st', q, page) && Permitted(st', q, page) ensures Alone(st', q, BlockOf(page)) {
      assert CanStore(st, q, page) && Permitted(st, q, page);
      assert Alone(st, q, BlockOf(page));
    }
  }

  lemma StoreOk(st: State, pid: nat, page: int, d: Data)
    requires Inv(st) && CanStore(st, pid, page) && Permitted(st, pid, page)
    ensures Inv(Store(st, pid, page, d)) && Abs(Store(st, pid, page, d)) == RefApply(Abs(st), Write(pid, page, d))
  {
    var b := BlockOf(page);
    var s := st.procs[pid].handles[b];
    var data := st.sections[s][InBlock(page) := d];
    OwnSectionOk(st, pid, b, data);
    var st' := Store(st, pid, page, d);
    var r := RefApply(Abs(st), Write(pid, page, d));
    forall x | x in st.procs[pid].entries ensures CellAt(st', pid, x) == r[pid][x] {
      if BlockOf(x) == b && InBlock(x) == InBlock(page) {
        assert x == PageAt(b, InBlock(x)) == page;
      }
    }
    assert Memory(st', pid) == r[pid];
    AbsIs(st', r);
  }

  // ----- fork -----

  lemma ForkOk(st: State, pid: nat, child: nat)
    requires Inv(st) && pid in st.procs && child !in st.procs
    ensures Inv(Fork(st, pid, child)) && Abs(Fork(st, pid, child)) == RefApply(Abs(st), Forks(pid, child))
  {
    var st' := Fork(st, pid, child);
    forall q | q in st.procs ensures Memory(st', q) == Memory(st, q) {
      SameMemory(st, q, st', q);
    }
    SameMemory(st, pid, st', child);
    AbsIs(st', RefApply(Abs(st), Forks(pid, child)));
    ForkInv(st, pid, child);
  }

  /** Neither the parent nor the child can store without a fault. */
  lemma ForkInv(st: State, pid: nat, child: nat)
    requires Inv(st) && pid in st.procs && child !in st.procs
    ensures Inv(Fork(st, pid, child))
  {
    var st' := Fork(st, pid, child);
    forall q, page | CanStore(st', q, page) && Permitted(st', q, page) ensures Alone(st', q, BlockOf(page)) {
      assert q != pid && q != child;
      assert CanStore(st, q, page) && Permitted(st, q, page);
      assert Alone(st, q, BlockOf(page));
    }
  }

  // ----- mmap, munmap, mprotect, exit -----

  /** Further entries are seen as they are loaded if nothing is in their block yet. */
  lemma AddEntriesOk(st: State, pid: nat, b: int, added: map<int, PageEntry>)
    requires Inv(st) && pid in st.procs && added.Keys <= BlockPages(b) && added.Keys !! st.procs[pid].entries.Keys
    ensures var p := st.procs[pid]; var st' := Put(st, pid, p.(entries := p.entries + added));
            && InvBut(st', pid, b) && (b !in p.handles ==> Inv(st'))
            && (forall q :: q in st.procs && q != pid ==> Memory(st', q) == Memory(st, q))
            && (forall page :: page in p.entries ==> CellAt(st', pid, page) == CellAt(st, pid, page))
            && (b !in p.handles ==> Memory(st', pid) == Memory(st, pid) + Fresh(added))
  {
    hide Inv, InvBut, Memory, CellAt;
    var p := st.procs[pid];
    var st' := Put(st, pid, p.(entries := p.entries + added));
    forall q | q in st.procs && q != pid ensures Memory(st', q) == Memory(st, q) {
      SameMemory(st, q, st', q);
    }
    AddedInv(st, pid, b, added);
    AddedCells(st, pid, b, added);
  }

  lemma AddedCells(st: State, pid: nat, b: int, added: map<int, PageEntry>)
    requires pid in st.procs && added.Keys <= BlockPages(b) && added.Keys !! st.procs[pid].entries.Keys
    ensures var p := st.procs[pid]; var st' := Put(st, pid, p.(entries := p.entries + added));
            && (forall page :: page in p.entries ==> CellAt(st', pid, page) == CellAt(st, pid, page))
            && (b !in p.handles ==> Memory(st', pid) == Memory(st, pid) + Fresh(added))
  {
    var p := st.procs[pid];
    var st' := Put(st, pid, p.(entries := p.entries + added));
    if b !in p.handles {
      forall page | page in st'.procs[pid].entries ensures CellAt(st', pid, page) == (Memory(st, pid) + Fresh(added))[page] {
        PagesOfBlock(b, page);
      }
    }
  }

  lemma AddedInv(st: State, pid: nat, b: int, added: map<int, PageEntry>)
    requires Inv(st) && pid in st.procs && added.Keys <= BlockPages(b) && added.Keys !! st.procs[pid].entries.Keys
    ensures var p := st.procs[pid]; var st' := Put(st, pid, p.(entries := p.entries + added));
            InvBut(st', pid, b) && (b !in p.handles ==> Inv(st'))
  {
    var p := st.procs[pid];
    var st' := Put(st, pid, p.(entries := p.entries + added));
    forall q, page | CanStore(st', q, page) && Permitted(st', q, page) && (q != pid || BlockOf(page) != b) ensures Alone(st', q, BlockOf(page)) {
      PagesOfBlock(b, page);
      assert CanStore(st, q, page) && Permitted(st, q, page);
      assert Alone(st, q, BlockOf(page));
    }
    assert b !in p.handles ==> forall q, page :: CanStore(st', q, page) ==> q != pid || BlockOf(page) != b;
  }

  lemma MapOk(st: State, pid: nat, b: int, added: map<int, PageEntry>, s: nat)
    requires Inv(st) && pid in st.procs && s !in st.sections && added.Keys <= BlockPages(b) && added.Keys !! st.procs[pid].entries.Keys
    ensures Inv(Map(st, pid, b, added, s)) && Abs(Map(st, pid, b, added, s)) == RefApply(Abs(st), Maps(pid, b, added, s))
  {
    hide Inv, InvBut, Alone, Memory, CellAt, Abs;
    HandlesIn(st, pid);
    var p := st.procs[pid];
    var st0 := Put(st, pid, p.(entries := p.entries + added));
    AbsAt(st, pid);
    AddEntriesOk(st, pid, b, added);
    if b !in p.handles {
      forall q | q in st.procs ensures q in Abs(st) && Abs(st)[q] == Memory(st, q) {
        AbsAt(st, q);
      }
      AbsIs(st0, RefApply(Abs(st), Maps(pid, b, added, s)));
    } else {
      OwnedAndLoaded(st0, pid, b, s);
      FillOk(st, st0, LoadDetached(TakeOwnership(st0, pid, b, s), pid, b), pid, b, added, s);
    }
  }

  lemma OwnedAndLoaded(st: State, pid: nat, b: int, s: nat)
    requires InvBut(st, pid, b) && pid in st.procs && b in st.procs[pid].handles && s !in st.sections
    ensures var st' := LoadDetached(TakeOwnership(st, pid, b, s), pid, b);
            && Inv(st') && Alone(st', pid, b) && Abs(st') == Abs(st)
            && st'.procs.Keys == st.procs.Keys && st'.procs[pid].entries == st.procs[pid].entries
  {
    hide Abs;
    TakeOwnershipOk(st, pid, b, s);
    var st1 := TakeOwnership(st, pid, b, s);
    LoadDetachedOk(st1, pid, b, false);
    LoadKeepsAlone(st1, pid, b);
  }

  /** The rest of mmap, once the section is the process's own and mapped. */
  lemma FillOk(st: State, st0: State, st2: State, pid: nat, b: int, added: map<int, PageEntry>, s: nat)
    requires pid in st.procs && added.Keys <= BlockPages(b) && added.Keys !! st.procs[pid].entries.Keys
    requires st0 == Put(st, pid, st.procs[pid].(entries := st.procs[pid].entries + added))
    requires forall q :: q in st.procs && q != pid ==> Memory(st0, q) == Memory(st, q)
    requires forall page :: page in st.procs[pid].entries ==> CellAt(st0, pid, page) == CellAt(st, pid, page)
    requires Inv(st2) && Alone(st2, pid, b) && Abs(st2) == Abs(st0) && st2.procs.Keys == st.procs.Keys && st2.procs[pid].entries == st0.procs[pid].entries
    ensures b in st2.procs[pid].handles && st2.procs[pid].handles[b] in st2.sections
    ensures var p2 := st2.procs[pid];
            var st4 := Put(st2, pid, p2.(views := p2.views[b := MapView(p2, b, added)]))
                         .(sections := st2.sections[p2.handles[b] := Fill(p2.entries, b, st2.sections[p2.handles[b]], added.Keys)]);
            Inv(st4) && Abs(st4) == RefApply(Abs(st), Maps(pid, b, added, s))
  {
    hide Inv, Alone, Memory, CellAt, Abs, Fill, MapView, BlockPages;
    HasSection(st2, pid, b);
    var p2 := st2.procs[pid];
    var data := Fill(p2.entries, b, st2.sections[p2.handles[b]], added.Keys);
    OwnSectionOk(st2, pid, b, data);
    var st3 := st2.(sections := st2.sections[p2.handles[b] := data]);
    var view := MapView(p2, b, added);
    OwnViewOk(st3, pid, b, view);
    FilledCells(st0, st2, st3, pid, b, added);
    MappedMemory(st, st0, st3, pid, added);
    forall q | q in st.procs ensures q in Abs(st) && Abs(st)[q] == Memory(st, q) && Memory(st2, q) == Memory(st0, q) {
      AbsAt(st, q);
      AbsAt(st0, q);
      AbsAt(st2, q);
    }
    AbsAt(st, pid);
    AbsIs(st3, RefApply(Abs(st), Maps(pid, b, added, s)));
  }

  lemma AbsAt(st: State, pid: nat)
    requires pid in st.procs
    ensures Abs(st).Keys == st.procs.Keys && Abs(st)[pid] == Memory(st, pid)
  {
  }

  lemma MappedMemory(st: State, st0: State, st3: State, pid: nat, added: map<int, PageEntry>)
    requires pid in st.procs && pid in st0.procs && pid in st3.procs
    requires st0.procs[pid].entries == st3.procs[pid].entries == st.procs[pid].entries + added && added.Keys !! st.procs[pid].entries.Keys
    requires forall page :: page in st.procs[pid].entries ==> CellAt(st0, pid, page) == CellAt(st, pid, page)
    requires forall page :: page in st0.procs[pid].entries ==>
               CellAt(st3, pid, page) == if page in added then Cell(added[page].prot, added[page].init) else CellAt(st0, pid, page)
    ensures Memory(st3, pid) == Memory(st, pid) + Fresh(added)
  {
    hide CellAt;
  }

  lemma HandlesIn(st: State, pid: nat)
    requires Inv(st) && pid in st.procs
    ensures forall b :: b in st.procs[pid].handles ==> st.procs[pid].handles[b] in st.sections
  {
  }

  lemma LoadKeepsAlone(st: State, pid: nat, b: int)
    requires Alone(st, pid, b)
    ensures Alone(LoadDetached(st, pid, b), pid, b)
    ensures var p' := LoadDetached(st, pid, b).procs[pid]; p'.entries == st.procs[pid].entries
  {
  }

  lemma HasSection(st: State, pid: nat, b: int)
    requires Inv(st) && Alone(st, pid, b)
    ensures pid in st.procs && b in st.procs[pid].handles && st.procs[pid].handles[b] in st.sections
  {
  }

  /** Once the new pages are filled in, the process sees them, and its other pages as before. */
  lemma FilledCells(st0: State, st2: State, st3: State, pid: nat, b: int, added: map<int, PageEntry>)
    requires pid in st0.procs && pid in st2.procs && st2.procs[pid].entries == st0.procs[pid].entries && Abs(st2) == Abs(st0)
    requires b in st2.procs[pid].handles && st2.procs[pid].handles[b] in st2.sections
    requires added.Keys <= BlockPages(b) && forall page :: page in added ==> page in st0.procs[pid].entries && st0.procs[pid].entries[page] == added[page]
    requires var s := st2.procs[pid].handles[b]; st3 == st2.(sections := st2.sections[s := Fill(st2.procs[pid].entries, b, st2.sections[s], added.Keys)])
    requires forall page :: page in st2.procs[pid].entries ==>
               Visible(st3, pid, page) == if BlockOf(page) == b then st3.sections[st2.procs[pid].handles[b]][InBlock(page)] else Visible(st2, pid, page)
    ensures forall page :: page in st0.procs[pid].entries ==>
              CellAt(st3, pid, page) == if page in added then Cell(added[page].prot, added[page].init) else CellAt(st0, pid, page)
  {
    forall page | page in st0.procs[pid].entries
      ensures CellAt(st3, pid, page) == if page in added then Cell(added[page].prot, added[page].init) else CellAt(st0, pid, page)
    {
      assert Abs(st2)[pid] == Abs(st0)[pid];
      assert Memory(st2, pid)[page] == Memory(st0, pid)[page];
      PagesOfBlock(b, page);
      if BlockOf(page) == b {
        assert page == PageAt(b, InBlock(page));
      }
    }
  }

  /** Only the entries, handles and views of `pid` have changed, and nothing became both permitted
      and writable, nor shared. */
  lemma ShrunkOk(st: State, st': State, pid: nat)
    requires Inv(st) && HandlesOk(st') && st'.sections == st.sections && st'.procs.Keys <= st.procs.Keys
    requires forall q :: q in st'.procs && q != pid ==> st'.procs[q] == st.procs[q]
    requires pid in st'.procs ==> forall b :: b in st'.procs[pid].handles ==> b in st.procs[pid].handles && st'.procs[pid].handles[b] == st.procs[pid].handles[b]
    requires forall page :: CanStore(st', pid, page) && Permitted(st', pid, page) ==> CanStore(st, pid, page) && Permitted(st, pid, page)
    ensures Inv(st') && forall q :: q in st'.procs && q != pid ==> Memory(st', q) == Memory(st, q)
  {
    forall q, page | CanStore(st', q, page) && Permitted(st', q, page) ensures Alone(st', q, BlockOf(page)) {
      assert CanStore(st, q, page) && Permitted(st, q, page);
      assert Alone(st, q, BlockOf(page));
    }
    forall q | q in st'.procs && q != pid ensures Memory(st', q) == Memory(st, q) {
      SameMemory(st, q, st', q);
    }
  }

  lemma UnmapShrinks(st: State, pid: nat, b: int, pages: set<int>)
    requires Inv(st) && pid in st.procs
    ensures var st' := Unmap(st, pid, b, pages);
            HandlesOk(st') && forall page :: CanStore(st', pid, page) && Permitted(st', pid, page) ==> CanStore(st, pid, page) && Permitted(st, pid, page)
  {
  }

  lemma UnmapOk(st: State, pid: nat, b: int, pages: set<int>)
    requires Inv(st) && pid in st.procs && pages <= BlockPages(b)
    ensures Inv(Unmap(st, pid, b, pages)) && Abs(Unmap(st, pid, b, pages)) == RefApply(Abs(st), Unmaps(pid, b, pages))
  {
    hide Inv, Memory;
    var st' := Unmap(st, pid, b, pages);
    UnmapShrinks(st, pid, b, pages);
    ShrunkOk(st, st', pid);
    UnmapCells(st, pid, b, pages);
    AbsIs(st', RefApply(Abs(st), Unmaps(pid, b, pages)));
  }

  lemma UnmapCells(st: State, pid: nat, b: int, pages: set<int>)
    requires pid in st.procs
    ensures Memory(Unmap(st, pid, b, pages), pid) == Memory(st, pid) - pages
  {
    var st' := Unmap(st, pid, b, pages);
    forall page | page in st'.procs[pid].entries ensures Visible(st', pid, page) == Visible(st, pid, page) {
    }
  }

  lemma ProtectOk(st: State, pid: nat, b: int, pages: set<int>, prot: Prot)
    requires Inv(st) && pid in st.procs && pages <= BlockPages(b)
    ensures Inv(Protect(st, pid, b, pages, prot)) && Abs(Protect(st, pid, b, pages, prot)) == RefApply(Abs(st), Protects(pid, b, pages, prot))
  {
    hide Inv, Memory;
    var st' := Protect(st, pid, b, pages, prot);
    ProtectShrinks(st, pid, b, pages, prot);
    ShrunkOk(st, st', pid);
    ProtectCells(st, pid, b, pages, prot);
    AbsIs(st', RefApply(Abs(st), Protects(pid, b, pages, prot)));
  }

  lemma ProtectShrinks(st: State, pid: nat, b: int, pages: set<int>, prot: Prot)
    requires Inv(st) && pid in st.procs && pages <= BlockPages(b)
    ensures var st' := Protect(st, pid, b, pages, prot);
            HandlesOk(st') && forall page :: CanStore(st', pid, page) && Permitted(st', pid, page) ==> CanStore(st, pid, page) && Permitted(st, pid, page)
  {
    var st' := Protect(st, pid, b, pages, prot);
    forall page | CanStore(st', pid, page) && Permitted(st', pid, page) ensures CanStore(st, pid, page) && Permitted(st, pid, page) {
      PagesOfBlock(b, page);
    }
  }

  lemma ProtectCells(st: State, pid: nat, b: int, pages: set<int>, prot: Prot)
    requires pid in st.procs
    ensures Memory(Protect(st, pid, b, pages, prot), pid) ==
            map page | page in Memory(st, pid) :: if page in pages then Memory(st, pid)[page].(prot := prot) else Memory(st, pid)[page]
  {
    var st' := Protect(st, pid, b, pages, prot);
    forall page | page in st.procs[pid].entries ensures Visible(st', pid, page) == Visible(st, pid, page) {
    }
  }

  lemma ExitOk(st: State, pid: nat)
    requires Inv(st) && pid in st.procs
    ensures Inv(Exit(st, pid)) && Abs(Exit(st, pid)) == RefApply(Abs(st), Exits(pid))
  {
    var st' := Exit(st, pid);
    ShrunkOk(st, st', pid);
    AbsIs(st', RefApply(Abs(st), Exits(pid)));
  }

  // ----- runs -----

  lemma PageFaultOk(st: State, pid: nat, page: int, write: bool, s: nat)
    requires Inv(st) && pid in st.procs && s !in st.sections
    ensures var st' := PageFault(st, pid, page, write, s).st; Inv(st') && Abs(st') == Abs(st)
  {
    hide Inv, Abs, OnDemand, LoadDetached, WriteFault;
    var b := BlockOf(page);
    if b !in st.procs[pid].handles {
      OnDemandOk(st, pid, b, s);
    } else if write {
      WriteFaultOk(st, pid, page, s);
    } else {
      LoadDetachedOk(st, pid, b, false);
    }
  }

  /** Copy-on-write isolation, one action at a time. */
  lemma ActionRefines(st: State, a: Action)
    requires Inv(st) && Enabled(st, a)
    ensures Inv(Apply(st, a)) && Abs(Apply(st, a)) == RefApply(Abs(st), a)
  {
    hide Inv, Abs, Memory;
    match a
    case Fault(pid, page, write, s) => PageFaultOk(st, pid, page, write, s);
    case Write(pid, page, d) => StoreOk(st, pid, page, d);
    case Forks(pid, child) => ForkOk(st, pid, child);
    case Maps(pid, b, entries, s) => MapOk(st, pid, b, entries, s);
    case Unmaps(pid, b, pages) => UnmapOk(st, pid, b, pages);
    case Protects(pid, b, pages, prot) => ProtectOk(st, pid, b, pages, prot);
    case Exits(pid) => ExitOk(st, pid);
  }

  /** A run: each state follows from the one before by some action. */
  ghost predicate Runs(ss: seq<State>, actions: seq<Action>) {
    |ss| == |actions| + 1 && forall i :: 0 <= i < |actions| ==> Enabled(ss[i], actions[i]) && ss[i + 1] == Apply(ss[i], actions[i])
  }

  /** The copying machine after the first `n` actions. */
  function RefAfter(r: Memories, actions: seq<Action>, n: nat): Memories
    requires n <= |actions|
  {
    if n == 0 then r else RefApply(RefAfter(r, actions, n - 1), actions[n - 1])
  }

  /** In every run of faults, permitted stores, forks, mmap, munmap, mprotect and exits over any number
      of processes, each process's memory is at all times that of the machine that copies everything
      at fork. */
  lemma {:induction false} Isolation(ss: seq<State>, actions: seq<Action>, n: nat)
    requires Runs(ss, actions) && Inv(ss[0]) && n <= |actions|
    ensures Inv(ss[n]) && Abs(ss[n]) == RefAfter(Abs(ss[0]), actions, n)
    decreases n
  {
    hide Inv, Abs, Apply, RefApply;
    if n > 0 {
      Isolation(ss, actions, n - 1);
      assert Enabled(ss[n - 1], actions[n - 1]) && ss[n - 1 + 1] == Apply(ss[n - 1], actions[n - 1]);
      ActionRefines(ss[n - 1], actions[n - 1]);
    }
  }

  /** A first process without sections. */
  lemma FirstProcess(pid: nat, entries: map<int, PageEntry>)
    ensures var st := State(map[pid := Process(entries, map[], map[])], map[]);
            Inv(st) && Abs(st) == map[pid := Fresh(entries)]
  {
    var st := State(map[pid := Process(entries, map[], map[])], map[]);
    assert Memory(st, pid) == Fresh(entries);
  }

  // ----- which faults are served -----

  /** Exactly which faults are served, for every page and access: none outside the address space; in a
      block without a section, those where the first page of the block has an entry; in a block with
      one, stores to pages whose entry permits writing, and reads while the block has no view. */
  lemma FaultServedIff(st: State, pid: nat, page: int, write: bool, s: nat)
    requires pid in st.procs
    ensures PageFault(st, pid, page, write, s).served
       <==> && 0 <= page < SPACE_HIGH / PAGE_SIZE
            && if BlockOf(page) !in st.procs[pid].handles then PageAt(BlockOf(page), 0) in st.procs[pid].entries
               else if write then Permitted(st, pid, page)
               else BlockOf(page) !in st.procs[pid].views
  {
  }

  /** After its fault, served or not, an access that the entry of its page allows would go through; so
      the one that is refused is the first one into a block whose first page has no entry. */
  lemma FaultOpens(st: State, pid: nat, page: int, write: bool, s: nat)
    requires Inv(st) && pid in st.procs && page in st.procs[pid].entries && 0 <= page < SPACE_HIGH / PAGE_SIZE && s !in st.sections
    requires if write then Permitted(st, pid, page) else BlockOf(page) !in st.procs[pid].views
    ensures var b := BlockOf(page); var f := PageFault(st, pid, page, write, s);
            && (!f.served <==> b !in st.procs[pid].handles && PageAt(b, 0) !in st.procs[pid].entries)
            && b in f.st.procs[pid].views && (write ==> CanStore(f.st, pid, page))
  {
    var b := BlockOf(page);
    PagesOfBlock(b, page);
    if write && b in st.procs[pid].handles {
      TakeOwnershipOk(st, pid, b, s);
      WriteFaultOk(st, pid, page, s);
    }
  }

  /** A store that its entry forbids stays impossible: if its fault is served at all, because the block
      has only then been loaded, the page is closed to it, and the next fault is refused. A read is not
      served twice either. */
  lemma FaultStaysClosed(st: State, pid: nat, page: int, write: bool, s: nat, s': nat)
    requires pid in st.procs && PageFault(st, pid, page, write, s).served && (write ==> !Permitted(st, pid, page))
    ensures var f := PageFault(st, pid, page, write, s);
            && pid in f.st.procs && !PageFault(f.st, pid, page, write, s').served
            && (write && page in st.procs[pid].entries ==> !CanStore(f.st, pid, page))
  {
    PagesOfBlock(BlockOf(page), page);
  }

  /** The first store into a mapping that begins with the second page of its block is refused. */
  lemma FaultRefused()
    ensures var st := State(map[0 := Process(map[1 := PageEntry(Prot(true, true, false), 0)], map[], map[])], map[]);
            && Inv(st) && Permitted(st, 0, 1)
            && !PageFault(st, 0, 1, true, 0).served && CanStore(PageFault(st, 0, 1, true, 0).st, 0, 1)
  {
    var st := State(map[0 := Process(map[1 := PageEntry(Prot(true, true, false), 0)], map[], map[])], map[]);
    FirstProcess(0, st.procs[0].entries);
    FaultOpens(st, 0, 1, true, 0);
  }
}
