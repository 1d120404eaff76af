/**
 The process's page map, as the entry tree of src/syscall/mm.c represents it: a sequence of
 disjoint page intervals in the order of their addresses. Module RbTree proves that the tree is
 such a sequence.
 */
module PageMap {
  import opened Basics
  import opened Pages

  /** struct map_entry; `va` is INTERNAL_MAP_VIRTUALALLOC. */
  datatype Entry = Entry(start: nat, end: nat, prot: Prot, va: bool, noreset: bool, file: Option<nat>, offset: int)

  /** What the map says about one page. */
  datatype Page = Page(prot: Prot, va: bool, noreset: bool, file: Option<nat>, filePage: int)

  function PageOf(e: Entry, p: int): Page {
    Page(e.prot, e.va, e.noreset, e.file, if e.file.Some? then e.offset + (p - e.start) else 0)
  }

  predicate Covers(e: Entry, p: int) {
    e.start <= p <= e.end
  }

  /** Disjoint, in order, inside the address space. */
  ghost predicate Sorted(es: seq<Entry>) {
    && (forall i :: 0 <= i < |es| ==> es[i].start <= es[i].end < PAGES)
    && (forall i, j :: 0 <= i < j < |es| ==> es[i].end < es[j].start)
  }

  /** The page map. */
  function At(es: seq<Entry>, p: int): Option<Page> {
    if es == [] then None
    else if Covers(es[0], p) then Some(PageOf(es[0], p))
    else At(es[1..], p)
  }

  lemma {:induction false} AtConcat(a: seq<Entry>, b: seq<Entry>, p: int)
    ensures At(a + b, p) == if At(a, p).Some? then At(a, p) else At(b, p)
  {
    if a == [] {
      assert a + b == b;
    } else {
      assert (a + b)[1..] == a[1..] + b;
      AtConcat(a[1..], b, p);
    }
  }

  lemma {:induction false} AtNone(es: seq<Entry>, p: int)
    ensures At(es, p) == None <==> forall i :: 0 <= i < |es| ==> !Covers(es[i], p)
  {
    if es != [] && !Covers(es[0], p) {
      AtNone(es[1..], p);
      assert forall i :: 1 <= i < |es| ==> es[i] == es[1..][i - 1];
    }
  }

  lemma {:induction false} AtIndex(es: seq<Entry>, i: nat, p: int)
    requires Sorted(es) && i < |es| && Covers(es[i], p)
    ensures At(es, p) == Some(PageOf(es[i], p))
  {
    if i > 0 {
      AtIndex(es[1..], i - 1, p);
    }
  }

  /** Replacing one entry by others changes the map where they differ. */
  lemma AtReplaced(es: seq<Entry>, i: nat, put: seq<Entry>, p: int)
    requires Sorted(es) && i < |es| && (At(put, p).Some? ==> Covers(es[i], p))
    ensures At(es[..i] + put + es[i + 1..], p) == if Covers(es[i], p) then At(put, p) else At(es, p)
  {
    var a, b := es[..i], es[i + 1..];
    assert es == a + [es[i]] + b;
    AtConcat(a + put, b, p);
    AtConcat(a, put, p);
    AtConcat(a + [es[i]], b, p);
    AtConcat(a, [es[i]], p);
    AtNone(a, p);
    AtNone(b, p);
    AtNone([es[i]], p);
  }

  // ----- walking -----

  /** Entries that start at or before `p`. */
  function StartsUpTo(es: seq<Entry>, p: int): (n: nat)
    ensures n <= |es|
  {
    if es == [] || es[0].start > p then 0 else 1 + StartsUpTo(es[1..], p)
  }

  lemma {:induction false} StartsUpToIs(es: seq<Entry>, p: int)
    requires Sorted(es)
    ensures forall i :: 0 <= i < |es| ==> (i < StartsUpTo(es, p) <==> es[i].start <= p)
  {
    if es != [] && es[0].start <= p {
      StartsUpToIs(es[1..], p);
      assert forall i :: 1 <= i < |es| ==> es[i] == es[1..][i - 1];
    }
  }

  /** start_node: the last entry that starts at or before `p`, or else the first one. */
  function StartNode(es: seq<Entry>, p: int): nat {
    if StartsUpTo(es, p) == 0 then 0 else StartsUpTo(es, p) - 1
  }

  /** A walk from start_node meets every entry that ends at or after `p`. */
  lemma StartNodeSkips(es: seq<Entry>, p: int)
    requires Sorted(es)
    ensures StartNode(es, p) <= |es|
    ensures forall j :: 0 <= j < StartNode(es, p) ==> es[j].end < p
  {
    StartsUpToIs(es, p);
    var n := StartsUpTo(es, p);
    if n > 0 {
      assert es[n - 1].start <= p;
    }
  }

  // ----- files -----

  predicate Overlaps(e: Entry, s: int, t: int) {
    s <= t && e.start <= t && s <= e.end
  }

  /** References to `f` that are still accounted for once [s, t] has been unmapped: freeing a
      VirtualAlloc entry does not give its reference back. */
  function Due(es: seq<Entry>, f: nat, s: int, t: int): int {
    if es == [] then 0
    else (if es[0].file == Some(f) && !(es[0].va && Overlaps(es[0], s, t)) then 1 else 0) + Due(es[1..], f, s, t)
  }

  /** Entries that hold `f`. */
  function Holders(es: seq<Entry>, f: nat): int {
    Due(es, f, PAGES, -1)
  }

  lemma {:induction false} DueConcat(a: seq<Entry>, b: seq<Entry>, f: nat, s: int, t: int)
    ensures Due(a + b, f, s, t) == Due(a, f, s, t) + Due(b, f, s, t)
  {
    if a == [] {
      assert a + b == b;
    } else {
      assert (a + b)[1..] == a[1..] + b;
      DueConcat(a[1..], b, f, s, t);
    }
  }

  lemma DueReplaced(es: seq<Entry>, i: nat, put: seq<Entry>, f: nat, s: int, t: int)
    requires i < |es|
    ensures Due(es[..i] + put + es[i + 1..], f, s, t) == Due(es, f, s, t) - Due([es[i]], f, s, t) + Due(put, f, s, t)
  {
    var a, b := es[..i], es[i + 1..];
    assert es == a + [es[i]] + b;
    DueConcat(a + put, b, f, s, t);
    DueConcat(a, put, f, s, t);
    DueConcat(a + [es[i]], b, f, s, t);
    DueConcat(a, [es[i]], f, s, t);
  }

  lemma DueSmall(e1: Entry, e2: Entry, f: nat, s: int, t: int)
    ensures Due([e1], f, s, t) == if e1.file == Some(f) && !(e1.va && Overlaps(e1, s, t)) then 1 else 0
    ensures Due([e1, e2], f, s, t) == Due([e1], f, s, t) + Due([e2], f, s, t)
    ensures Due([], f, s, t) == 0
  {
    DueConcat([e1], [e2], f, s, t);
    assert [e1] + [e2] == [e1, e2];
    assert [e1][1..] == [];
  }

  lemma {:induction false} DueClear(es: seq<Entry>, f: nat, s: int, t: int)
    requires Sorted(es) && forall i :: 0 <= i < |es| ==> !Overlaps(es[i], s, t)
    ensures Due(es, f, s, t) == Holders(es, f)
  {
    if es != [] {
      DueClear(es[1..], f, s, t);
    }
  }

  // ----- blocks -----

  predicate Touches(e: Entry, b: int) {
    BlockOf(e.start) <= b <= BlockOf(e.end)
  }

  ghost predicate InUse(es: seq<Entry>, b: int) {
    exists i :: 0 <= i < |es| && Touches(es[i], b)
  }

  /** Every section belongs to a block that some entry touches, and no VirtualAlloc entry does. */
  ghost predicate SectionsOk(es: seq<Entry>, sections: set<int>) {
    forall b :: b in sections ==> 0 <= b && InUse(es, b) && forall i :: 0 <= i < |es| && Touches(es[i], b) ==> !es[i].va
  }

  predicate SharesFirst(es: seq<Entry>, i: nat)
    requires i < |es|
  {
    i > 0 && BlockOf(es[i - 1].end) == BlockOf(es[i].start)
  }

  predicate SharesLast(es: seq<Entry>, i: nat)
    requires i < |es|
  {
    i + 1 < |es| && BlockOf(es[i + 1].start) == BlockOf(es[i].end)
  }

  /** Checking the two neighbours suffices: another entry touches a block of entry `i` exactly when
      the block is its first and the previous entry ends there, or its last and the next one starts there. */
  lemma NeighboursSuffice(es: seq<Entry>, i: nat, b: int)
    requires Sorted(es) && i < |es| && Touches(es[i], b)
    ensures InUse(es[..i] + es[i + 1..], b) <==>
            (b == BlockOf(es[i].start) && SharesFirst(es, i)) || (b == BlockOf(es[i].end) && SharesLast(es, i))
  {
    var rest := es[..i] + es[i + 1..];
    forall j | 0 <= j < |es| && j != i && Touches(es[j], b)
      ensures (j < i && b == BlockOf(es[i].start) && SharesFirst(es, i)) || (j > i && b == BlockOf(es[i].end) && SharesLast(es, i))
    {
      if j < i {
        assert es[j].end <= es[i - 1].end < es[i].start;
      } else {
        assert es[i].end < es[i + 1].start <= es[j].start;
      }
    }
    if SharesFirst(es, i) && b == BlockOf(es[i].start) {
      assert Touches(es[i - 1], b) && rest[i - 1] == es[i - 1];
    }
    if SharesLast(es, i) && b == BlockOf(es[i].end) {
      assert Touches(es[i + 1], b) && rest[i] == es[i + 1];
    }
    if InUse(rest, b) {
      var k :| 0 <= k < |rest| && Touches(rest[k], b);
      var j := if k < i then k else k + 1;
      assert rest[k] == es[j];
    }
  }

  /** A block that entry `i` does not touch is in use without it just as with it. */
  lemma OtherBlocks(es: seq<Entry>, i: nat, b: int)
    requires i < |es| && !Touches(es[i], b)
    ensures InUse(es[..i] + es[i + 1..], b) <==> InUse(es, b)
  {
    var rest := es[..i] + es[i + 1..];
    if InUse(rest, b) {
      var k :| 0 <= k < |rest| && Touches(rest[k], b);
      assert rest[k] == es[if k < i then k else k + 1];
    }
    if InUse(es, b) {
      var j :| 0 <= j < |es| && Touches(es[j], b);
      assert rest[if j < i then j else j - 1] == es[j];
    }
  }

  lemma InUseReplaced(es: seq<Entry>, i: nat, put: seq<Entry>, b: int)
    requires i < |es|
    ensures InUse(es[..i] + put + es[i + 1..], b) <==> InUse(es[..i] + es[i + 1..], b) || InUse(put, b)
  {
    var r, w := es[..i] + put + es[i + 1..], es[..i] + es[i + 1..];
    if InUse(r, b) {
      var k :| 0 <= k < |r| && Touches(r[k], b);
      assert if k < i then r[k] == w[k] else if k < i + |put| then r[k] == put[k - i] else r[k] == w[k - |put|];
    }
    if InUse(w, b) {
      var k :| 0 <= k < |w| && Touches(w[k], b);
      assert w[k] == r[if k < i then k else k + |put|];
    }
    if InUse(put, b) {
      var k :| 0 <= k < |put| && Touches(put[k], b);
      assert put[k] == r[i + k];
    }
  }

  // ----- code -----

  /** dbt_code_changed is told about page `p` when [s, t] is unmapped: only the entries that end
      within the range are reported. */
  predicate Reported(es: seq<Entry>, s: int, t: int, p: int) {
    exists i :: 0 <= i < |es| && es[i].prot.exec && es[i].end <= t && Covers(es[i], p) && s <= p
  }

  lemma ReportedReplaced(es: seq<Entry>, i: nat, put: seq<Entry>, s: int, t: int, p: int)
    requires i < |es|
    ensures Reported(es[..i] + put + es[i + 1..], s, t, p) <==> Reported(es[..i] + es[i + 1..], s, t, p) || Reported(put, s, t, p)
  {
    var r, w := es[..i] + put + es[i + 1..], es[..i] + es[i + 1..];
    if Reported(r, s, t, p) {
      var k :| 0 <= k < |r| && r[k].prot.exec && r[k].end <= t && Covers(r[k], p) && s <= p;
      assert if k < i then r[k] == w[k] else if k < i + |put| then r[k] == put[k - i] else r[k] == w[k - |put|];
    }
    if Reported(w, s, t, p) {
      var k :| 0 <= k < |w| && w[k].prot.exec && w[k].end <= t && Covers(w[k], p) && s <= p;
      assert w[k] == r[if k < i then k else k + |put|];
    }
    if Reported(put, s, t, p) {
      var k :| 0 <= k < |put| && put[k].prot.exec && put[k].end <= t && Covers(put[k], p) && s <= p;
      assert put[k] == r[i + k];
    }
  }

  // ----- addresses -----

  function AlignToPage(n: int): Word {
    W(n + PAGE_SIZE - 1) / PAGE_SIZE * PAGE_SIZE
  }

  /** The least multiple of the page size that is not below `n`, or 0 if that is no 32-bit word. */
  lemma AlignToPageIs(n: Word)
    ensures var r := AlignToPage(n);
            r % PAGE_SIZE == 0 && if n <= TWO32 - PAGE_SIZE then n <= r < n + PAGE_SIZE else r == 0
  {
  }

  /** The checks of munmap and mprotect on an address and a length that is aligned already. */
  predicate RangeOk(addr: Word, length: Word) {
    addr < SPACE_HIGH && W(addr + length) < SPACE_HIGH && W(addr + length) >= addr
  }

  /** The three checks together: the first address behind the range lies in the space, without any wrap. */
  lemma RangeOkIff(addr: Word, length: Word)
    ensures RangeOk(addr, length) <==> addr + length < SPACE_HIGH
  {
  }

  function LastPage(addr: Word, length: Word): int {
    W(addr + length - 1) / PAGE_SIZE
  }

  /** The pages of an accepted range are those of [addr, addr + length), except that the empty range
      at address 0 stands for the whole address space. */
  lemma RangeExact(addr: Word, length: Word)
    requires addr % PAGE_SIZE == 0 && length % PAGE_SIZE == 0 && RangeOk(addr, length)
    ensures if addr == 0 && length == 0 then LastPage(addr, length) == PAGES - 1
            else forall p: nat :: addr / PAGE_SIZE <= p <= LastPage(addr, length) <==> addr <= p * PAGE_SIZE < addr + length
    ensures LastPage(addr, length) < PAGES
  {
  }
}
