/**
 Pages that the hardware lets a process write though their entry does not permit it, or though they
 have no entry: how they come about, how they go, and when a fork makes them leak.
 */
module CowLoose {
  import opened Pages
  import opened Cow
  import opened CowProof

  /** The page is loose: a store would not be stopped, but it should be. */
  predicate Loose(st: State, pid: nat, page: int) {
    CanStore(st, pid, page) && page in st.procs[pid].entries && !Permitted(st, pid, page)
  }

  // ----- one action -----

  /** mmap duplicates the shared section of the page's block, and maps the copy with all pages writable. */
  ghost predicate Loosens(st: State, a: Action, pid: nat, page: int) {
    && a.Maps? && a.pid == pid && pid in st.procs && BlockOf(page) == a.b
    && a.b in st.procs[pid].handles && !Alone(st, pid, a.b)
    && page in st.procs[pid].entries && !st.procs[pid].entries[page].prot.write
  }

  /** A write fault on a permitted page of the block, munmap or mprotect of the page, or the end of the
      process. */
  predicate Tightens(st: State, a: Action, pid: nat, page: int) {
    && a.pid == pid
    && match a
       case Fault(_, x, write, _) => write && 0 <= x < SPACE_HIGH / PAGE_SIZE && BlockOf(x) == BlockOf(page) && Permitted(st, pid, x)
       case Unmaps(_, _, pages) => page in pages
       case Protects(_, _, pages, _) => page in pages
       case Exits(_) => true
       case _ => false
  }

  lemma FaultLoose(st: State, a: Action, pid: nat, page: int)
    requires Inv(st) && Enabled(st, a) && a.Fault?
    ensures Loose(Apply(st, a), pid, page) <==> Loose(st, pid, page) && !Tightens(st, a, pid, page)
  {
    PagesOfBlock(BlockOf(a.page), page);
  }

  lemma AloneSame(st: State, st': State, pid: nat, b: int)
    requires st'.procs.Keys == st.procs.Keys && forall q :: q in st.procs ==> st'.procs[q].handles == st.procs[q].handles
    ensures Alone(st', pid, b) <==> Alone(st, pid, b)
  {
    if Alone(st, pid, b) {
      forall q, c | q in st'.procs && c in st'.procs[q].handles && st'.procs[q].handles[c] == st'.procs[pid].handles[b] ensures q == pid && c == b {
        assert st.procs[q].handles[c] == st.procs[pid].handles[b];
      }
    }
    if Alone(st', pid, b) {
      forall q, c | q in st.procs && c in st.procs[q].handles && st.procs[q].handles[c] == st.procs[pid].handles[b] ensures q == pid && c == b {
        assert st'.procs[q].handles[c] == st'.procs[pid].handles[b];
      }
    }
  }

  /** What mmap makes of an allocated block. */
  lemma MapViews(st: State, pid: nat, b: int, added: map<int, PageEntry>, s: nat)
    requires pid in st.procs && b in st.procs[pid].handles
    ensures var st' := Map(st, pid, b, added, s); var p, p' := st.procs[pid], st'.procs[pid];
            && pid in st'.procs && p'.entries == p.entries + added && p'.handles.Keys == p.handles.Keys && p'.handles[b] in st'.sections
            && p'.views.Keys == p.views.Keys + {b} && (forall c :: c in p.views && c != b ==> p'.views[c] == p.views[c])
            && forall page :: BlockOf(page) == b ==>
                 (page in p'.views[b] <==>
                    if page in added then added[page].prot.write
                    else if !Alone(st, pid, b) then true
                    else if b in p.views then page in p.views[b]
                    else page !in p.entries)
  {
    hide Alone, Fill, Holders, BlockPages;
    var st0 := Put(st, pid, st.procs[pid].(entries := st.procs[pid].entries + added));
    AloneIsOneHandle(st0, pid, b);
    AloneSame(st, st0, pid, b);
    forall page | BlockOf(page) == b ensures page in BlockPages(b) {
      PagesOfBlock(b, page);
    }
  }

  lemma MapSections(st: State, pid: nat, b: int, added: map<int, PageEntry>, s: nat)
    requires pid in st.procs
    ensures var st' := Map(st, pid, b, added, s);
            && st.sections.Keys <= st'.sections.Keys && (forall q :: q != pid ==> (q in st'.procs <==> q in st.procs) && (q in st.procs ==> st'.procs[q] == st.procs[q]))
            && (b !in st.procs[pid].handles ==> st' == Put(st, pid, st.procs[pid].(entries := st.procs[pid].entries + added)))
            && forall c :: c in st.procs[pid].handles && c != b ==> c in st'.procs[pid].handles && st'.procs[pid].handles[c] == st.procs[pid].handles[c]
  {
    hide Fill, Holders, BlockPages, MapView, LoadProtection;
  }

  lemma MapLoose(st: State, a: Action, pid: nat, page: int)
    requires Inv(st) && Enabled(st, a) && a.Maps?
    ensures Loose(Apply(st, a), pid, page) <==> Loosens(st, a, pid, page) || Loose(st, pid, page)
  {
    hide Alone, Map;
    PagesOfBlock(a.b, page);
    MapSections(st, a.pid, a.b, a.entries, a.s);
    if a.b in st.procs[a.pid].handles {
      MapViews(st, a.pid, a.b, a.entries, a.s);
    }
  }

  /** Exactly which actions make a page loose, and which ones end that. */
  lemma StepLoose(st: State, a: Action, pid: nat, page: int)
    requires Inv(st) && Enabled(st, a)
    ensures Loose(Apply(st, a), pid, page) <==> Loosens(st, a, pid, page) || (Loose(st, pid, page) && !Tightens(st, a, pid, page))
  {
    hide Alone;
    if a.Fault? {
      FaultLoose(st, a, pid, page);
    } else if a.Maps? {
      MapLoose(st, a, pid, page);
    }
  }

  // ----- runs -----

  /** The page was loosened in step `i` and nothing has ended that before state `m`. */
  ghost predicate LooseSince(ss: seq<State>, actions: seq<Action>, i: nat, m: nat, pid: nat, page: int) {
    && |ss| == |actions| + 1 && i < m < |ss| && Loosens(ss[i], actions[i], pid, page)
    && forall k :: i < k < m ==> !Tightens(ss[k], actions[k], pid, page)
  }

  /** Over all runs from a state without loose pages: a page is loose if and only if some mmap has
      duplicated its block while its entry did not permit writing, and since then the page has not been
      unmapped or protected and no write fault has been served in its block. */
  lemma {:induction false} LooseIff(ss: seq<State>, actions: seq<Action>, m: nat, pid: nat, page: int)
    requires Runs(ss, actions) && Inv(ss[0]) && m < |ss| && !Loose(ss[0], pid, page)
    ensures Loose(ss[m], pid, page) <==> exists i :: LooseSince(ss, actions, i, m, pid, page)
    decreases m
  {
    hide Inv, Abs, RefAfter, Apply, Enabled, Loose, Loosens, Tightens;
    if m > 0 {
      var n := m - 1;
      LooseIff(ss, actions, n, pid, page);
      Isolation(ss, actions, n);
      assert Enabled(ss[n], actions[n]) && ss[n + 1] == Apply(ss[n], actions[n]);
      StepLoose(ss[n], actions[n], pid, page);
      if Loosens(ss[n], actions[n], pid, page) {
        assert LooseSince(ss, actions, n, m, pid, page);
      } else if Loose(ss[m], pid, page) {
        var i :| LooseSince(ss, actions, i, n, pid, page);
        assert LooseSince(ss, actions, i, m, pid, page);
      } else if i: nat :| LooseSince(ss, actions, i, m, pid, page) {
        assert i < n ==> LooseSince(ss, actions, i, n, pid, page);
      }
    }
  }

  // ----- fork -----

  predicate HeldAt(st: State, pid: nat, b: int, s: nat) {
    pid in st.procs && b in st.procs[pid].handles && st.procs[pid].handles[b] == s
  }

  ghost predicate Held(st: State, b: int, s: nat) {
    exists pid :: HeldAt(st, pid, b, s)
  }

  /** Sections are shared by fork only, so each one is held for one block only. */
  ghost predicate OneBlock(st: State) {
    forall b, c, s :: Held(st, b, s) && Held(st, c, s) ==> b == c
  }

  /** Handles come from older ones for the same block, or name a new section. */
  lemma StepHolds(st: State, a: Action, q: nat, c: int, s: nat)
    requires Enabled(st, a) && HeldAt(Apply(st, a), q, c, s)
    ensures (exists pid :: HeldAt(st, pid, c, s)) || (a.Fault? && c == BlockOf(a.page) && s == a.s) || (a.Maps? && c == a.b && s == a.s)
  {
    hide BlockPages, Holders, LoadProtection, MapView, Fill;
    assert HeldAt(st, q, c, s) || HeldAt(st, a.pid, c, s) || (a.Fault? && c == BlockOf(a.page) && s == a.s) || (a.Maps? && c == a.b && s == a.s);
  }

  lemma StepOneBlock(st: State, a: Action)
    requires Inv(st) && OneBlock(st) && Enabled(st, a)
    ensures OneBlock(Apply(st, a))
  {
    hide Apply;
    var st' := Apply(st, a);
    forall b, c, s | Held(st', b, s) && Held(st', c, s) ensures b == c {
      var p :| HeldAt(st', p, b, s);
      var q :| HeldAt(st', q, c, s);
      StepHolds(st, a, p, b, s);
      StepHolds(st, a, q, c, s);
      assert s !in st.sections ==> !Held(st, b, s) && !Held(st, c, s);
      assert Held(st, b, s) && Held(st, c, s) ==> b == c;
    }
  }

  lemma {:induction false} RunOneBlock(ss: seq<State>, actions: seq<Action>, m: nat)
    requires Runs(ss, actions) && Inv(ss[0]) && OneBlock(ss[0]) && m < |ss|
    ensures OneBlock(ss[m])
    decreases m
  {
    hide Inv, Abs, RefAfter, Apply, OneBlock;
    if m > 0 {
      var n := m - 1;
      RunOneBlock(ss, actions, n);
      Isolation(ss, actions, n);
      assert Enabled(ss[n], actions[n]) && ss[n + 1] == Apply(ss[n], actions[n]);
      StepOneBlock(ss[n], actions[n]);
    }
  }

  /** The store changes the memory of `q`, and the hardware lets `pid` do it, permitted or not. */
  predicate Leak(st: State, pid: nat, page: int, d: Data, q: nat) {
    CanStore(st, pid, page) && q in st.procs && Memory(Store(st, pid, page, d), q) != Memory(st, q)
  }

  ghost predicate Leaks(st: State, pid: nat, q: nat) {
    exists page, d :: Leak(st, pid, page, d, q)
  }

  /** Exactly when a fork leaks: a store of the parent can reach the child's memory afterwards if and
      only if the parent has a loose page before. */
  lemma ForkLeaksIff(st: State, pid: nat, child: nat)
    requires OneBlock(st) && pid in st.procs && child !in st.procs
    ensures Leaks(Fork(st, pid, child), pid, child) <==> exists page :: Loose(st, pid, page)
  {
    hide Fork, OneBlock, Loose, Leak;
    if page :| Loose(st, pid, page) {
      var d := LooseLeaks(st, pid, child, page);
    }
    if page, d: Data :| Leak(Fork(st, pid, child), pid, page, d, child) {
      OnlyLoose(st, pid, child, page, d);
    }
  }

  lemma LooseLeaks(st: State, pid: nat, child: nat, page: int) returns (d: Data)
    requires pid in st.procs && child !in st.procs && Loose(st, pid, page)
    ensures Leak(Fork(st, pid, child), pid, page, d, child)
  {
    var st' := Fork(st, pid, child);
    d := Visible(st', child, page) + 1;
    assert Memory(Store(st', pid, page, d), child)[page] != Memory(st', child)[page];
  }

  lemma OnlyLoose(st: State, pid: nat, child: nat, page: int, d: Data)
    requires OneBlock(st) && pid in st.procs && child !in st.procs && Leak(Fork(st, pid, child), pid, page, d, child)
    ensures Loose(st, pid, page)
  {
    var st' := Fork(st, pid, child);
    var s := st.procs[pid].handles[BlockOf(page)];
    var x := Differs(st', Store(st', pid, page, d), child);
    assert HeldAt(st, pid, BlockOf(x), s) && HeldAt(st, pid, BlockOf(page), s);
    assert Held(st, BlockOf(page), s) && Held(st, BlockOf(x), s);
    assert x == PageAt(BlockOf(x), InBlock(x)) == page;
  }

  lemma Differs(st: State, st': State, q: nat) returns (x: int)
    requires q in st.procs && q in st'.procs && st'.procs[q].entries == st.procs[q].entries && Memory(st', q) != Memory(st, q)
    ensures x in st.procs[q].entries && Visible(st', q, x) != Visible(st, q, x)
  {
    if forall y :: y in st.procs[q].entries ==> Visible(st', q, y) == Visible(st, q, y) {
      SameMemory(st, q, st', q);
    }
    x :| x in st.procs[q].entries && Visible(st', q, x) != Visible(st, q, x);
  }

  /** The same over runs: a fork leaks if and only if some earlier mmap of the parent loosened a page
      that nothing has tightened since. */
  lemma RunLeaksIff(ss: seq<State>, actions: seq<Action>, m: nat, pid: nat, child: nat)
    requires Runs(ss, actions) && Inv(ss[0]) && OneBlock(ss[0]) && (forall q, page :: !Loose(ss[0], q, page))
    requires m < |actions| && actions[m] == Forks(pid, child)
    ensures Leaks(ss[m + 1], pid, child) <==> exists page, i :: LooseSince(ss, actions, i, m, pid, page)
  {
    hide Inv, OneBlock, Loose, Leaks, LooseSince, Fork;
    assert Enabled(ss[m], actions[m]) && ss[m + 1] == Apply(ss[m], actions[m]) == Fork(ss[m], pid, child);
    RunOneBlock(ss, actions, m);
    ForkLeaksIff(ss[m], pid, child);
    if page :| Loose(ss[m], pid, page) {
      LooseIff(ss, actions, m, pid, page);
      var i :| LooseSince(ss, actions, i, m, pid, page);
    }
    if page, i: nat :| LooseSince(ss, actions, i, m, pid, page) {
      LooseIff(ss, actions, m, pid, page);
    }
  }

  // ----- stores in general -----

  /** Another process has a page at the same place of the same section. */
  ghost predicate SharedPage(st: State, pid: nat, page: int)
    requires CanStore(st, pid, page)
  {
    exists q, x :: SeesPlace(st, q, x, st.procs[pid].handles[BlockOf(page)], InBlock(page)) && q != pid
  }

  predicate SeesPlace(st: State, q: nat, x: int, s: nat, k: int) {
    HeldAt(st, q, BlockOf(x), s) && x in st.procs[q].entries && InBlock(x) == k
  }

  /** Permitted or not, the stores that the hardware lets through at a page stay private if and only if no
      other process has a page there. */
  lemma StorePrivateIff(st: State, pid: nat, page: int)
    requires CanStore(st, pid, page)
    ensures !SharedPage(st, pid, page) <==>
            forall d: Data, q :: q in st.procs && q != pid ==> Memory(Store(st, pid, page, d), q) == Memory(st, q)
  {
    var s := st.procs[pid].handles[BlockOf(page)];
    if q, x :| SeesPlace(st, q, x, s, InBlock(page)) && q != pid {
      var st' := Store(st, pid, page, Visible(st, q, x) + 1);
      assert Memory(st', q)[x] == CellAt(st', q, x) != CellAt(st, q, x) == Memory(st, q)[x];
    } else {
      forall d: Data, q | q in st.procs && q != pid ensures Memory(Store(st, pid, page, d), q) == Memory(st, q) {
        var st' := Store(st, pid, page, d);
        forall x | x in st.procs[q].entries ensures CellAt(st', q, x) == CellAt(st, q, x) {
          assert !SeesPlace(st, q, x, s, InBlock(page));
        }
      }
    }
  }

  // ----- pages without an entry -----

  /** The page is stray: it has no entry, and still a store would not be stopped. */
  predicate Stray(st: State, pid: nat, page: int) {
    CanStore(st, pid, page) && page !in st.procs[pid].entries
  }

  /** The block is mapped anew with all pages writable, and only entries get a protection: when it is
      loaded, or when it is duplicated. */
  ghost predicate Strays(st: State, a: Action, pid: nat, page: int) {
    && a.pid == pid && pid in st.procs && page !in st.procs[pid].entries
    && var p, b := st.procs[pid], BlockOf(page);
       match a
       case Fault(_, x, write, _) =>
         && 0 <= x < SPACE_HIGH / PAGE_SIZE && BlockOf(x) == b
         && (b !in p.handles || (if write then Permitted(st, pid, x) && (b !in p.views || !Alone(st, pid, b)) else b !in p.views))
       case Maps(_, c, added, _) => c == b && page !in added && b in p.handles && (b !in p.views || !Alone(st, pid, b))
       case _ => false
  }

  /** The page is mapped, unmapped or protected, nothing is left in its block, or the process ends. */
  predicate Tidies(st: State, a: Action, pid: nat, page: int) {
    && a.pid == pid && pid in st.procs
    && match a
       case Maps(_, _, added, _) => page in added
       case Unmaps(_, b, pages) => page in pages || (BlockOf(page) == b && forall x :: x in st.procs[pid].entries && BlockOf(x) == b ==> x in pages)
       case Protects(_, _, pages, _) => page in pages
       case Exits(_) => true
       case _ => false
  }

  lemma FaultViews(st: State, pid: nat, page: int, write: bool, s: nat)
    requires pid in st.procs && 0 <= page < SPACE_HIGH / PAGE_SIZE
    ensures var st' := PageFault(st, pid, page, write, s).st; var p, b := st.procs[pid], BlockOf(page);
            && pid in st'.procs && st'.procs[pid].entries == p.entries
            && forall x :: BlockOf(x) == b && x !in p.entries && b in st'.procs[pid].views ==>
                 (x in st'.procs[pid].views[b] <==>
                    || b !in p.handles || b !in p.views || (write && Permitted(st, pid, page) && !Alone(st, pid, b)) || x in p.views[b])
    ensures var st' := PageFault(st, pid, page, write, s).st; var p, b := st.procs[pid], BlockOf(page);
            b in p.handles && write && !Permitted(st, pid, page) ==> st' == st
  {
    hide Alone;
    if BlockOf(page) in st.procs[pid].handles {
      AloneIsOneHandle(st, pid, BlockOf(page));
    }
    forall x | BlockOf(x) == BlockOf(page) ensures x in BlockPages(BlockOf(page)) {
      PagesOfBlock(BlockOf(page), x);
    }
  }

  lemma FaultStray(st: State, a: Action, pid: nat, page: int)
    requires Inv(st) && Enabled(st, a) && a.Fault?
    ensures Stray(Apply(st, a), pid, page) <==> Strays(st, a, pid, page) || Stray(st, pid, page)
  {
    hide Alone, Holders, Fill;
    PagesOfBlock(BlockOf(a.page), page);
    if 0 <= a.page < SPACE_HIGH / PAGE_SIZE {
      FaultViews(st, a.pid, a.page, a.write, a.s);
    }
  }

  lemma MapStray(st: State, a: Action, pid: nat, page: int)
    requires Inv(st) && Enabled(st, a) && a.Maps?
    ensures Stray(Apply(st, a), pid, page) <==> Strays(st, a, pid, page) || (Stray(st, pid, page) && !Tidies(st, a, pid, page))
  {
    hide Alone, Map;
    PagesOfBlock(a.b, page);
    MapSections(st, a.pid, a.b, a.entries, a.s);
    if a.b in st.procs[a.pid].handles {
      MapViews(st, a.pid, a.b, a.entries, a.s);
    }
  }

  lemma UnmapStray(st: State, a: Action, pid: nat, page: int)
    requires Inv(st) && Enabled(st, a) && a.Unmaps?
    ensures Stray(Apply(st, a), pid, page) <==> Stray(st, pid, page) && !Tidies(st, a, pid, page)
  {
    hide BlockPages;
    var p := st.procs[a.pid];
    PagesOfBlock(a.b, page);
    if exists x :: x in (p.entries - a.pages) && BlockOf(x) == a.b {
      var x :| x in (p.entries - a.pages) && BlockOf(x) == a.b;
      assert x in p.entries && x !in a.pages;
    } else {
      forall x | x in p.entries && BlockOf(x) == a.b ensures x in a.pages {
        assert x !in (p.entries - a.pages);
      }
    }
  }

  /** Exactly which actions make a page stray, and which ones end that. In particular munmap leaves no
      page of its range open to stores. */
  lemma StepStray(st: State, a: Action, pid: nat, page: int)
    requires Inv(st) && Enabled(st, a)
    ensures Stray(Apply(st, a), pid, page)
       <==> Strays(st, a, pid, page) || (Stray(st, pid, page) && !Tidies(st, a, pid, page))
  {
    hide Alone, BlockPages;
    if a.Fault? {
      FaultStray(st, a, pid, page);
    } else if a.Maps? {
      MapStray(st, a, pid, page);
    } else if a.Unmaps? {
      UnmapStray(st, a, pid, page);
    } else if a.Protects? {
      PagesOfBlock(a.b, page);
    } else {
      var st' := Apply(st, a);
      assert a.Write? ==> (Stray(st', pid, page) <==> Stray(st, pid, page));
      assert a.Forks? ==> (Stray(st', pid, page) <==> Stray(st, pid, page));
      assert a.Exits? ==> (Stray(st', pid, page) <==> (Stray(st, pid, page) && pid != a.pid));
    }
  }

  ghost predicate StraySince(ss: seq<State>, actions: seq<Action>, i: nat, m: nat, pid: nat, page: int) {
    && |ss| == |actions| + 1 && i < m < |ss| && Strays(ss[i], actions[i], pid, page)
    && forall k :: i < k < m ==> !Tidies(ss[k], actions[k], pid, page)
  }

  /** The same over runs from a state without stray pages. */
  lemma {:induction false} StrayIff(ss: seq<State>, actions: seq<Action>, m: nat, pid: nat, page: int)
    requires Runs(ss, actions) && Inv(ss[0]) && m < |ss| && !Stray(ss[0], pid, page)
    ensures Stray(ss[m], pid, page) <==> exists i :: StraySince(ss, actions, i, m, pid, page)
    decreases m
  {
    hide Inv, Abs, RefAfter, Apply, Enabled, Stray, Strays, Tidies;
    if m > 0 {
      var n := m - 1;
      StrayIff(ss, actions, n, pid, page);
      Isolation(ss, actions, n);
      assert Enabled(ss[n], actions[n]) && ss[n + 1] == Apply(ss[n], actions[n]);
      StepStray(ss[n], actions[n], pid, page);
      if Strays(ss[n], actions[n], pid, page) {
        assert StraySince(ss, actions, n, m, pid, page);
      } else if Stray(ss[m], pid, page) {
        var i :| StraySince(ss, actions, i, n, pid, page);
        assert StraySince(ss, actions, i, m, pid, page);
      } else if i: nat :| StraySince(ss, actions, i, m, pid, page) {
        assert i < n ==> StraySince(ss, actions, i, n, pid, page);
      }
    }
  }

  // ----- a run that leaks -----

  const RW := Prot(true, true, false)
  const RO := Prot(true, false, false)

  const TWO_PAGES: map<int, PageEntry> := map[0 := PageEntry(RW, 0), 1 := PageEntry(RO, 0)]
  const THIRD_PAGE: map<int, PageEntry> := map[2 := PageEntry(RW, 0)]

  /** Process 0 loads its block, forks, maps a third page into the block that it now shares, and forks
      again: what it then stores into its read-only page, process 2 sees. */
  lemma ReadOnlyLeak() returns (ss: seq<State>, actions: seq<Action>, d: Data)
    ensures Runs(ss, actions) && Inv(ss[0])
    ensures var st := ss[|actions|]; Loose(st, 0, 1) && Leak(st, 0, 1, d, 2)
  {
    hide Inv, Apply, Leak, Loose, Loosens, Alone, Fork;
    var st0 := State(map[0 := Process(TWO_PAGES, map[], map[])], map[]);
    FirstProcess(0, TWO_PAGES);
    actions := [Fault(0, 0, true, 0), Forks(0, 1), Maps(0, 0, THIRD_PAGE, 1), Forks(0, 2)];
    LeakLoads(st0);
    var st1 := Apply(st0, actions[0]);
    LeakForks(st1);
    var st2 := Apply(st1, actions[1]);
    LeakMaps(st2);
    var st3 := Apply(st2, actions[2]);
    ss := [st0, st1, st2, st3, Apply(st3, actions[3])];
    Isolation(ss, actions, 2);
    Isolation(ss, actions, 3);
    StepLoose(st2, actions[2], 0, 1);
    StepLoose(st3, actions[3], 0, 1);
    d := LeakSeen(st3);
  }

  lemma LeakLoads(st: State)
    requires st == State(map[0 := Process(TWO_PAGES, map[], map[])], map[])
    ensures Enabled(st, Fault(0, 0, true, 0))
    ensures var st' := Apply(st, Fault(0, 0, true, 0));
            st'.procs.Keys == {0} && st'.sections.Keys == {0} && st'.procs[0].entries == TWO_PAGES && st'.procs[0].handles == map[0 := 0]
  {
  }

  lemma LeakForks(st: State)
    requires st.procs.Keys == {0}
    ensures Enabled(st, Forks(0, 1))
    ensures var st' := Apply(st, Forks(0, 1)); var p := st.procs[0];
            && st'.procs.Keys == {0, 1} && st'.sections == st.sections && st'.procs[0].entries == p.entries
            && st'.procs[0].handles == st'.procs[1].handles == p.handles
  {
  }

  /** Section 0 has a second holder, so it is duplicated. */
  lemma LeakMaps(st: State)
    requires st.procs.Keys == {0, 1} && st.sections.Keys == {0}
    requires st.procs[0].entries == TWO_PAGES && st.procs[0].handles == st.procs[1].handles == map[0 := 0]
    ensures Enabled(st, Maps(0, 0, THIRD_PAGE, 1)) && Loosens(st, Maps(0, 0, THIRD_PAGE, 1), 0, 1)
    ensures Apply(st, Maps(0, 0, THIRD_PAGE, 1)).procs.Keys == {0, 1}
  {
    hide Map;
    PagesOfBlock(0, 2);
    assert 2 in BlockPages(0) && THIRD_PAGE.Keys == {2};
    assert 1 in st.procs && st.procs[1].handles[0] == 0;
    MapSections(st, 0, 0, THIRD_PAGE, 1);
    MapViews(st, 0, 0, THIRD_PAGE, 1);
  }

  lemma LeakSeen(st: State) returns (d: Data)
    requires Enabled(st, Forks(0, 2)) && Loose(st, 0, 1)
    ensures Leak(Apply(st, Forks(0, 2)), 0, 1, d, 2)
  {
    hide Loose, Leak;
    d := LooseLeaks(st, 0, 2, 1);
  }
}
