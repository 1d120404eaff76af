/**
 The memory manager of one process (src/syscall/mm.c): munmap, mprotect and mmap on the entry
 tree, the table of section handles, and the references entries hold to files.
 */
module MemoryMap {
  import opened Basics
  import opened Pages
  import opened PageMap

  /** The entries without entry `i`. */
  function Without(es: seq<Entry>, i: nat): seq<Entry>
    requires i < |es|
  {
    es[..i] + es[i + 1..]
  }

  /** Freeing entry `i` makes `end_block--` wrap (line 326): it ends in block 0, the next entry
      starts there, and no previous one does. */
  predicate Wraps(es: seq<Entry>, i: nat)
    requires i < |es|
  {
    !es[i].va && BlockOf(es[i].end) == 0 && !SharesFirst(es, i) && SharesLast(es, i)
  }

  /** Unmapping [s, t] will free a piece that wraps. */
  predicate Wild(es: seq<Entry>, s: int, t: int) {
    && es != [] && s <= es[0].start <= t
    && (if es[0].va then es[0].end <= t && Wild(es[1..], s, t)
        else if es[0].end <= t then BlockOf(es[0].end) == 0 && |es| > 1 && BlockOf(es[1].start) == 0
        else BlockOf(t + 1) == 0)
  }

  function Refs(refs: map<nat, int>, f: nat): int {
    if f in refs then refs[f] else 0
  }

  /** An entry cut behind page `last`. */
  function Cut(e: Entry, last: nat): seq<Entry>
    requires e.start <= last < e.end
  {
    [e.(end := last), e.(start := last + 1, offset := if e.file.Some? then e.offset + (last + 1 - e.start) else e.offset)]
  }

  lemma CutSame(e: Entry, last: nat, p: int)
    requires e.start <= last < e.end
    ensures At(Cut(e, last), p) == At([e], p)
  {
    var c := Cut(e, last);
    assert c[1..] == [c[1]] && c[1..][1..] == [];
    assert At(c, p) == if Covers(c[0], p) then Some(PageOf(c[0], p)) else At(c[1..], p);
    assert At(c[1..], p) == if Covers(c[1], p) then Some(PageOf(c[1], p)) else None;
  }

  // ----- one round of munmap, on the entries alone -----

  /** Entry `i` lies in the range and is freed. */
  lemma WholeGone(es: seq<Entry>, i: nat, s: int, t: int)
    requires Sorted(es) && i < |es| && s <= es[i].start && es[i].end <= t
    requires forall j :: 0 <= j < i ==> !Overlaps(es[j], s, t)
    ensures var r := Without(es, i);
            && (forall f: nat :: Due(r, f, s, t) == Due(es, f, s, t) - if es[i].file == Some(f) && !es[i].va then 1 else 0)
            && (forall p :: Reported(es, s, t, p) <==> Reported(r, s, t, p) || (es[i].prot.exec && Covers(es[i], p)))
            && (forall b :: !Touches(es[i], b) ==> (InUse(r, b) <==> InUse(es, b)))
            && (forall b :: InUse(r, b) ==> InUse(es, b))
            && (if !Wild(es, s, t) then !Wild(r, s, t) && !Wraps(es, i) else if es[i].va then Wild(r, s, t) else Wraps(es, i))
  {
    var e, r := es[i], Without(es, i);
    assert r == es[..i] + [] + es[i + 1..];
    forall f: nat ensures Due(r, f, s, t) == Due(es, f, s, t) - if e.file == Some(f) && !e.va then 1 else 0 {
      DueReplaced(es, i, [], f, s, t);
      DueSmall(e, e, f, s, t);
    }
    forall p ensures Reported(es, s, t, p) <==> Reported(r, s, t, p) || (e.prot.exec && Covers(e, p)) {
      ReportedReplaced(es, i, [e], s, t, p);
      assert es == es[..i] + [e] + es[i + 1..];
      assert [e][0] == e;
    }
    forall b ensures (!Touches(e, b) ==> (InUse(r, b) <==> InUse(es, b))) && (InUse(r, b) ==> InUse(es, b)) {
      if !Touches(e, b) {
        OtherBlocks(es, i, b);
      } else {
        assert InUse(es, b);
      }
    }
    WildGone(es, i, s, t);
  }

  lemma {:induction false} WildLow(es: seq<Entry>, s: int, t: int)
    requires Sorted(es) && Wild(es, s, t)
    ensures BlockOf(es[0].start) == 0
  {
    if es[0].va {
      WildLow(es[1..], s, t);
      assert es[0].end < es[1].start;
    }
  }

  lemma WildGone(es: seq<Entry>, i: nat, s: int, t: int)
    requires Sorted(es) && i < |es| && s <= es[i].start && es[i].end <= t
    requires forall j :: 0 <= j < i ==> !Overlaps(es[j], s, t)
    ensures var r := Without(es, i);
            if !Wild(es, s, t) then !Wild(r, s, t) && !Wraps(es, i) else if es[i].va then Wild(r, s, t) else Wraps(es, i)
  {
    if i == 0 {
      WildFirst(es, s, t);
    } else {
      hide Wild;
      NotFirst(es, i);
      assert Without(es, i)[0] == es[0] && !Overlaps(es[0], s, t);
      NotWild(es, s, t);
      NotWild(Without(es, i), s, t);
    }
  }

  lemma WildFirst(es: seq<Entry>, s: int, t: int)
    requires Sorted(es) && es != [] && s <= es[0].start && es[0].end <= t
    ensures var r := Without(es, 0);
            if !Wild(es, s, t) then !Wild(r, s, t) && !Wraps(es, 0) else if es[0].va then Wild(r, s, t) else Wraps(es, 0)
  {
    hide Wild, Sorted;
    var r := es[1..];
    assert Without(es, 0) == r;
    SortedTail(es);
    WildUnfolds(es, s, t);
    NotWild([], s, t);
    if Wild(r, s, t) {
      WildLow(r, s, t);
    }
  }

  lemma SortedTail(es: seq<Entry>)
    requires Sorted(es) && es != []
    ensures Sorted(es[1..]) && es[0].start <= es[0].end && (|es| > 1 ==> es[0].end < es[1].start)
  {
  }

  lemma WildUnfolds(es: seq<Entry>, s: int, t: int)
    requires es != [] && s <= es[0].start <= t && es[0].end <= t
    ensures Wild(es, s, t) <==> if es[0].va then Wild(es[1..], s, t) else BlockOf(es[0].end) == 0 && |es| > 1 && BlockOf(es[1].start) == 0
  {
  }

  lemma NotWild(es: seq<Entry>, s: int, t: int)
    requires es == [] || es[0].start < s || t < es[0].start
    ensures !Wild(es, s, t)
  {
  }

  /** An entry that is not the lowest does not wrap. */
  lemma NotFirst(es: seq<Entry>, i: nat)
    requires Sorted(es) && 0 < i < |es|
    ensures !Wraps(es, i)
  {
    assert es[i - 1].start <= es[i - 1].end < es[i].start <= es[i].end;
  }

  /** A cut entry touches the same blocks, and holds its file once more. */
  lemma CutKeeps(es: seq<Entry>, i: nat, last: nat, s: int, t: int)
    requires Sorted(es) && i < |es| && es[i].start <= last < es[i].end
    requires last + 1 == s || last == t
    requires Overlaps(es[i], s, t) && s <= t
    ensures var r := es[..i] + Cut(es[i], last) + es[i + 1..];
            && (forall f: nat :: Due(r, f, s, t) == Due(es, f, s, t) + if es[i].file == Some(f) then 1 else 0)
            && (forall b :: InUse(r, b) <==> InUse(es, b))
  {
    var c := Cut(es[i], last);
    var r := es[..i] + c + es[i + 1..];
    forall f: nat ensures Due(r, f, s, t) == Due(es, f, s, t) + if es[i].file == Some(f) then 1 else 0 {
      DueReplaced(es, i, c, f, s, t);
      DueSmall(c[0], c[1], f, s, t);
      DueSmall(es[i], es[i], f, s, t);
    }
    forall b ensures InUse(r, b) <==> InUse(es, b) {
      InUseReplaced(es, i, c, b);
      InUseReplaced(es, i, [es[i]], b);
      assert es == es[..i] + [es[i]] + es[i + 1..];
      CutTouches(es[i], last, b);
    }
  }

  lemma CutTouches(e: Entry, last: nat, b: int)
    requires e.start <= last < e.end
    ensures InUse(Cut(e, last), b) <==> InUse([e], b)
  {
    var c := Cut(e, last);
    assert c[0].start == e.start && c[0].end == last && c[1].start == last + 1 && c[1].end == e.end;
    assert BlockOf(last + 1) <= BlockOf(last) + 1;
    if Touches(e, b) {
      assert Touches(c[0], b) || Touches(c[1], b);
      assert [e][0] == e;
    }
  }

  /** Entry `i` reaches beyond the range: its front is freed, and nobody tells the translator. */
  lemma FrontGone(es: seq<Entry>, i: nat, s: int, t: nat)
    requires Sorted(es) && i < |es| && s <= es[i].start <= t < es[i].end
    requires forall j :: 0 <= j < i ==> !Overlaps(es[j], s, t)
    ensures var c := es[..i] + Cut(es[i], t) + es[i + 1..]; var r := Without(c, i);
            && (forall p :: Reported(es, s, t, p) <==> Reported(r, s, t, p))
            && (Wild(es, s, t) <==> Wild(c, s, t))
            && r[i].start > t
  {
    var c := es[..i] + Cut(es[i], t) + es[i + 1..];
    var rest := [Cut(es[i], t)[1]];
    var r := Without(c, i);
    assert r == es[..i] + rest + es[i + 1..];
    forall p ensures Reported(es, s, t, p) <==> Reported(r, s, t, p) {
      ReportedReplaced(es, i, rest, s, t, p);
      ReportedReplaced(es, i, [es[i]], s, t, p);
      assert es == es[..i] + [es[i]] + es[i + 1..];
    }
    if i == 0 {
      assert c[1..][0].start > t && !Wild(c[1..], s, t);
    } else {
      assert c[0] == es[0] && !Overlaps(es[0], s, t);
    }
  }

  /** Entry `i` begins before the range and is cut in front of it. */
  lemma BackCut(es: seq<Entry>, i: nat, s: nat, t: int)
    requires Sorted(es) && i < |es| && es[i].start < s <= es[i].end && s <= t
    requires forall j :: 0 <= j < i ==> !Overlaps(es[j], s, t)
    ensures var r := es[..i] + Cut(es[i], s - 1) + es[i + 1..];
            && (forall p :: Reported(es, s, t, p) <==> Reported(r, s, t, p))
            && !Wild(es, s, t) && !Wild(r, s, t)
  {
    var c := Cut(es[i], s - 1);
    forall p ensures Reported(es, s, t, p) <==> Reported(es[..i] + c + es[i + 1..], s, t, p) {
      ReportedReplaced(es, i, c, s, t, p);
      ReportedReplaced(es, i, [es[i]], s, t, p);
      assert es == es[..i] + [es[i]] + es[i + 1..];
      assert c[1].end == es[i].end && c[1].prot == es[i].prot && c[1].start == s && c[0].end < s;
      assert [es[i]][0] == es[i];
    }
    assert i > 0 ==> !Overlaps(es[0], s, t);
  }

  /** The sections that are left when entry `i` has been freed. */
  lemma StillOk(es: seq<Entry>, i: nat, secs: set<int>, secs': set<int>)
    requires Sorted(es) && SectionsOk(es, secs) && i < |es|
    requires es[i].va ==> secs' == secs
    requires !es[i].va ==> forall b :: b in secs' <==> b in secs && (Touches(es[i], b) ==> InUse(Without(es, i), b))
    ensures SectionsOk(Without(es, i), secs') && secs' <= secs
    ensures forall b :: b in secs' <==> b in secs && InUse(Without(es, i), b)
  {
    var r := Without(es, i);
    forall b | b in secs ensures !Touches(es[i], b) ==> InUse(r, b) {
      if !Touches(es[i], b) {
        OtherBlocks(es, i, b);
      }
    }
    assert forall b :: b in secs' ==> b in secs;
    forall b, k | b in secs' && 0 <= k < |r| && Touches(r[k], b) ensures !r[k].va {
      assert r[k] == es[if k < i then k else k + 1];
    }
  }

  lemma CutOk(es: seq<Entry>, i: nat, last: nat, secs: set<int>)
    requires Sorted(es) && SectionsOk(es, secs) && i < |es| && es[i].start <= last < es[i].end
    ensures SectionsOk(es[..i] + Cut(es[i], last) + es[i + 1..], secs)
  {
    var c := Cut(es[i], last);
    var r := es[..i] + c + es[i + 1..];
    CutKeeps(es, i, last, last + 1, es[i].end);
    forall b, k | b in secs && 0 <= k < |r| && Touches(r[k], b) ensures !r[k].va {
      if i <= k < i + 2 {
        CutTouches(es[i], last, b);
        assert r[k] == c[k - i];
        assert InUse(c, b);
        assert Touches(es[i], b);
      } else {
        assert r[k] == es[if k < i then k else k - 1];
      }
    }
  }

  // ----- munmap as a relation -----

  datatype Maps = Maps(entries: seq<Entry>, refs: map<nat, int>, sections: set<int>, changed: set<int>)

  /** Once [s, t] is unmapped: exactly these pages have gone, the references of their entries have
      been given back, a section has been released exactly if no entry touches its block any more,
      and the translator knows of the code that has gone. */
  ghost predicate Unmapped(a: Maps, b: Maps, s: int, t: int) {
    && Sorted(b.entries) && SectionsOk(b.entries, b.sections)
    && (forall p :: At(b.entries, p) == if s <= p <= t then None else At(a.entries, p))
    && (forall f: nat :: Refs(b.refs, f) - Holders(b.entries, f) == Refs(a.refs, f) - Due(a.entries, f, s, t))
    && (forall k :: k in b.sections <==> k in a.sections && InUse(b.entries, k))
    && (forall p :: p in b.changed <==> p in a.changed || Reported(a.entries, s, t, p))
  }

  /** What munmap_internal_unsafe has done on its way there. */
  ghost predicate Toward(a: Maps, b: Maps, s: int, t: int) {
    && Sorted(b.entries) && SectionsOk(b.entries, b.sections) && b.sections <= a.sections
    && (forall p :: !(s <= p <= t) ==> At(b.entries, p) == At(a.entries, p))
    && (forall f: nat :: Refs(b.refs, f) - Due(b.entries, f, s, t) == Refs(a.refs, f) - Due(a.entries, f, s, t))
    && (forall k :: InUse(b.entries, k) ==> InUse(a.entries, k))
    && (forall k :: k in b.sections <==> k in a.sections && InUse(b.entries, k))
    && (Wild(b.entries, s, t) <==> Wild(a.entries, s, t))
    && (forall p :: p in b.changed || Reported(b.entries, s, t, p) <==> p in a.changed || Reported(a.entries, s, t, p))
  }

  lemma TowardStart(a: Maps, s: int, t: int)
    requires Sorted(a.entries) && SectionsOk(a.entries, a.sections)
    ensures Toward(a, a, s, t)
  {
  }

  lemma TowardTrans(a: Maps, b: Maps, c: Maps, s: int, t: int)
    requires Toward(a, b, s, t) && Toward(b, c, s, t)
    ensures Toward(a, c, s, t)
  {
    hide InUse, Sorted, SectionsOk, Wild, Reported;
  }

  lemma TowardWild(a: Maps, b: Maps, s: int, t: int)
    requires Toward(a, b, s, t) && Wild(b.entries, s, t)
    ensures Wild(a.entries, s, t)
  {
  }

  /** Nothing is left in the range. */
  lemma TowardEnd(a: Maps, b: Maps, s: int, t: int)
    requires Toward(a, b, s, t) && forall j :: 0 <= j < |b.entries| ==> !Overlaps(b.entries[j], s, t)
    ensures Unmapped(a, b, s, t) && !Wild(a.entries, s, t)
  {
    forall p ensures At(b.entries, p) == if s <= p <= t then None else At(a.entries, p) {
      if s <= p <= t {
        AtNone(b.entries, p);
      }
    }
    forall f: nat ensures Due(b.entries, f, s, t) == Holders(b.entries, f) {
      DueClear(b.entries, f, s, t);
    }
  }

  // ----- mprotect as a relation -----

  const EINVAL := -22
  const ENOMEM := -12

  predicate StartsAt(es: seq<Entry>, s: int) {
    exists i :: 0 <= i < |es| && es[i].start == s
  }

  /** What mprotect accepts: an empty range, a range that begins with an entry and is mapped
      throughout, and any range from page 0 on if no entry begins there. */
  ghost predicate Chained(es: seq<Entry>, s: int, t: int) {
    t < s || (s == 0 && !StartsAt(es, 0)) || (StartsAt(es, s) && forall p :: s <= p <= t ==> At(es, p).Some?)
  }

  /** A range that mprotect accepts is mapped throughout, unless it begins at page 0 and no entry does. */
  lemma AcceptedIsMapped(es: seq<Entry>, s: nat, t: int)
    requires Sorted(es) && Chained(es, s, t) && s <= t
    ensures (s == 0 && !StartsAt(es, 0)) <==> exists p :: s <= p <= t && At(es, p) == None
  {
    if s == 0 && !StartsAt(es, 0) {
      AtNone(es, 0);
      assert At(es, 0) == None;
    }
  }

  /** A range that is mapped throughout is refused exactly if it begins inside an entry. */
  lemma RefusedInside(es: seq<Entry>, s: nat, t: int)
    requires Sorted(es) && s <= t && forall p :: s <= p <= t ==> At(es, p).Some?
    ensures !Chained(es, s, t) <==> exists i :: 0 <= i < |es| && es[i].start < s <= es[i].end
  {
    AtNone(es, s);
    var i :| 0 <= i < |es| && Covers(es[i], s);
    assert es[i].start == s ==> StartsAt(es, s);
  }

  function NewProt(q: Option<Page>, prot: Prot): Option<Page> {
    if q.Some? && !q.value.va then Some(q.value.(prot := prot)) else q
  }

  /** Exactly the protections in the range have changed. */
  ghost predicate Protected(a: Maps, b: Maps, s: int, t: int, prot: Prot) {
    && Sorted(b.entries) && SectionsOk(b.entries, b.sections) && b.sections == a.sections && b.changed == a.changed
    && (forall p :: At(b.entries, p) == if s <= p <= t then NewProt(At(a.entries, p), prot) else At(a.entries, p))
    && (forall f: nat :: Refs(b.refs, f) - Holders(b.entries, f) == Refs(a.refs, f) - Holders(a.entries, f))
  }

  /** The check has passed the entries before `i`; `last` is the last page known to be mapped. */
  ghost predicate Walked(es: seq<Entry>, s: nat, last: Word, i: nat) {
    && i <= |es|
    && if last == W(s - 1) then forall j :: 0 <= j < i ==> es[j].end < s
       else i > 0 && s <= last == es[i - 1].end && StartsAt(es, s) && forall p :: s <= p <= last ==> At(es, p).Some?
  }

  lemma WalkOn(es: seq<Entry>, s: nat, last: Word, i: nat)
    requires Sorted(es) && s < PAGES && Walked(es, s, last, i) && i < |es|
    ensures es[i].end < s ==> Walked(es, s, last, i + 1)
    ensures es[i].end >= s && es[i].start == W(last + 1) ==> Walked(es, s, es[i].end, i + 1)
  {
    if es[i].end >= s && es[i].start == W(last + 1) {
      forall p | es[i].start <= p <= es[i].end ensures At(es, p).Some? {
        AtIndex(es, i, p);
      }
    }
  }

  /** The walk of the check has stopped in front of entry `i`. */
  lemma WalkEnds(es: seq<Entry>, s: nat, t: int, last: Word, i: nat)
    requires Sorted(es) && s < PAGES && t < PAGES && Walked(es, s, last, i)
    requires i < |es| && es[i].start <= t ==> es[i].end >= s && es[i].start != W(last + 1)
    ensures last >= t <==> Chained(es, s, t)
  {
    if last == W(s - 1) {
      forall j | 0 <= j < |es| ensures es[j].start != s || (s <= es[j].start && t < s) {
      }
    } else if last < t {
      forall j | 0 <= j < |es| ensures !Covers(es[j], last + 1) {
        if j < i {
          assert es[j].end <= es[i - 1].end;
        }
      }
      AtNone(es, last + 1);
    }
  }

  /** mprotect has reached page `front`. */
  ghost predicate Protecting(a: Maps, b: Maps, s: int, t: int, prot: Prot, front: int) {
    && Sorted(b.entries) && SectionsOk(b.entries, b.sections) && b.sections == a.sections && b.changed == a.changed
    && (forall p :: At(b.entries, p) == if s <= p <= t && p < front then NewProt(At(a.entries, p), prot) else At(a.entries, p))
    && (forall f: nat :: Refs(b.refs, f) - Holders(b.entries, f) == Refs(a.refs, f) - Holders(a.entries, f))
  }

  function Front(es: seq<Entry>, i: nat): int {
    if i < |es| then es[i].start else PAGES
  }

  /** Passing an entry whose pages in the range keep their protection. */
  lemma PassEntry(a: Maps, b: Maps, s: int, t: int, prot: Prot, i: nat)
    requires Protecting(a, b, s, t, prot, Front(b.entries, i)) && i < |b.entries|
    requires b.entries[i].va || !Overlaps(b.entries[i], s, t)
    ensures Protecting(a, b, s, t, prot, Front(b.entries, i + 1))
  {
    forall p ensures At(b.entries, p) == if s <= p <= t && p < Front(b.entries, i + 1) then NewProt(At(a.entries, p), prot) else At(a.entries, p) {
      if Front(b.entries, i) <= p < Front(b.entries, i + 1) {
        if Covers(b.entries[i], p) {
          AtIndex(b.entries, i, p);
        } else {
          AtNone(b.entries, p);
        }
      }
    }
  }

  /** Setting the protection of an entry in the range. */
  lemma PassChanged(a: Maps, b: Maps, c: Maps, s: int, t: int, prot: Prot, i: nat)
    requires Protecting(a, b, s, t, prot, Front(b.entries, i)) && i < |b.entries| == |c.entries|
    requires s <= b.entries[i].start && b.entries[i].end <= t && !b.entries[i].va
    requires c.entries == b.entries[..i] + [b.entries[i].(prot := prot)] + b.entries[i + 1..]
    requires Sorted(c.entries) && SectionsOk(c.entries, c.sections) && c.sections == b.sections && c.changed == b.changed && c.refs == b.refs
    requires forall p :: At(c.entries, p) == if Covers(c.entries[i], p) then Some(PageOf(c.entries[i], p)) else At(b.entries, p)
    requires forall f: nat :: Holders(c.entries, f) == Holders(b.entries, f)
    ensures Protecting(a, c, s, t, prot, Front(c.entries, i + 1))
  {
    forall p ensures At(c.entries, p) == if s <= p <= t && p < Front(c.entries, i + 1) then NewProt(At(a.entries, p), prot) else At(a.entries, p) {
      if Front(b.entries, i) <= p < Front(c.entries, i + 1) {
        if Covers(b.entries[i], p) {
          AtIndex(b.entries, i, p);
        } else {
          AtNone(b.entries, p);
        }
      }
    }
  }

  /** Everything in front of the range is passed, and everything behind it is irrelevant. */
  lemma ProtectStarts(a: Maps, s: int, t: int, prot: Prot, i: nat)
    requires Sorted(a.entries) && SectionsOk(a.entries, a.sections) && i <= |a.entries|
    requires forall j :: 0 <= j < i ==> a.entries[j].end < s
    ensures Protecting(a, a, s, t, prot, Front(a.entries, i))
  {
    forall p | s <= p < Front(a.entries, i) ensures At(a.entries, p) == None {
      forall j | 0 <= j < |a.entries| ensures !Covers(a.entries[j], p) {
      }
      AtNone(a.entries, p);
    }
  }

  /** Cutting an entry changes nothing. */
  lemma CutProtects(a: Maps, b: Maps, c: Maps, s: int, t: int, prot: Prot, front: int)
    requires Protecting(a, b, s, t, prot, front) && c.sections == b.sections && c.changed == b.changed
    requires Sorted(c.entries) && SectionsOk(c.entries, c.sections) && forall p :: At(c.entries, p) == At(b.entries, p)
    requires forall f: nat :: Refs(c.refs, f) - Holders(c.entries, f) == Refs(b.refs, f) - Holders(b.entries, f)
    ensures Protecting(a, c, s, t, prot, front)
  {
  }

  lemma ProtectEnds(a: Maps, b: Maps, s: int, t: int, prot: Prot, front: int)
    requires Protecting(a, b, s, t, prot, front) && t < front
    ensures Protected(a, b, s, t, prot)
  {
  }

  // ----- finding room -----

  const LOW := 0x1_0000   // the page of ADDRESS_ALLOCATION_LOW
  const HIGH := 0x7_0000  // the page of ADDRESS_ALLOCATION_HIGH

  /** The run [q, q + count) meets no entry; without any page it may not lie inside one either. */
  ghost predicate Clear(es: seq<Entry>, q: int, count: int) {
    forall i :: 0 <= i < |es| ==> es[i].end < q || q + count <= es[i].start
  }

  /** The pages [q, q + count) meet no entry. */
  ghost predicate Vacant(es: seq<Entry>, q: int, count: int) {
    0 < count ==> Clear(es, q, count)
  }

  /** A run that find_free_pages may return: between the limits, or at least below some entry; block-aligned
      if asked for; clear; and not in a block where a VirtualAlloc entry ends. */
  ghost predicate Fits(es: seq<Entry>, q: int, count: int, blockAlign: bool) {
    && LOW <= q < HIGH && (blockAlign ==> q % PAGES_PER_BLOCK == 0) && Clear(es, q, count)
    && (q + count <= HIGH || exists i :: 0 <= i < |es| && q + count <= es[i].start)
    && forall i :: 0 <= i < |es| && es[i].va && es[i].end < q ==> BlockOf(es[i].end) < BlockOf(q)
  }

  function AlignDown(n: nat): (r: nat)
    ensures r <= n && r % PAGES_PER_BLOCK == 0
  {
    n / PAGES_PER_BLOCK * PAGES_PER_BLOCK
  }

  /** A gap between entry `i - 1` and the entries from `i` on, which start at `last` or later. */
  lemma ClearBetween(es: seq<Entry>, i: nat, last: int, count: nat)
    requires Sorted(es) && 0 < i <= |es| && es[i - 1].end + count < last && forall j :: i <= j < |es| ==> last <= es[j].start
    ensures Clear(es, last - count, count)
  {
    assert forall j :: 0 <= j < i ==> es[j].end <= es[i - 1].end;
  }

  /** A run that find_free_pages_topdown may return: below the upper limit, with an aligned end if asked
      for; clear; and above the lower limit, or at least above some entry and with its end above it. */
  ghost predicate FitsBelow(es: seq<Entry>, q: int, count: int, blockAlign: bool) {
    && LOW < q + count <= HIGH && (blockAlign ==> (q + count) % PAGES_PER_BLOCK == 0) && Clear(es, q, count)
    && (LOW < q || exists i :: 0 <= i < |es| && es[i].end < q)
  }

  lemma FitsBelowIs(es: seq<Entry>, q: int, count: int, blockAlign: bool)
    requires LOW < q + count <= HIGH && (blockAlign ==> (q + count) % PAGES_PER_BLOCK == 0) && Clear(es, q, count)
    requires LOW < q || exists i :: 0 <= i < |es| && es[i].end < q
    ensures FitsBelow(es, q, count, blockAlign) && Vacant(es, q, count)
  {
  }

  /** No run that ends above `last` fits. */
  ghost predicate NoneAbove(es: seq<Entry>, last: int, count: int, blockAlign: bool) {
    forall q :: last < q + count ==> !FitsBelow(es, q, count, blockAlign)
  }

  lemma NoneAboveLimit(es: seq<Entry>, count: int, blockAlign: bool)
    ensures NoneAbove(es, HIGH, count, blockAlign)
  {
  }

  /** The mark drops to the start of entry `i`. */
  lemma NoneAboveEntry(es: seq<Entry>, i: nat, last: int, count: nat, blockAlign: bool)
    requires i < |es| && es[i].start < last && !(es[i].end < last && es[i].end + count < last) && NoneAbove(es, last, count, blockAlign)
    ensures NoneAbove(es, if blockAlign then AlignDown(es[i].start) else es[i].start, count, blockAlign)
  {
    hide FitsBelow, AlignDown;
    var mark := if blockAlign then AlignDown(es[i].start) else es[i].start;
    forall q | mark < q + count <= last ensures !FitsBelow(es, q, count, blockAlign) {
      NothingAbove(es, i, last, count, blockAlign, q);
    }
  }

  /** No run that starts above `lo` fits, since it would end above `last`. */
  lemma NoneAboveStart(es: seq<Entry>, last: int, lo: int, count: int, blockAlign: bool)
    requires NoneAbove(es, last, count, blockAlign) && last <= lo + count
    ensures forall q :: lo < q ==> !FitsBelow(es, q, count, blockAlign)
  {
    hide FitsBelow;
  }

  /** Below the mark there is no room either: the limit is reached, or no entry is left. */
  lemma NoneAtAll(es: seq<Entry>, last: int, count: nat, blockAlign: bool)
    requires NoneAbove(es, last, count, blockAlign)
    requires last <= LOW || (last <= LOW + count && forall j :: 0 <= j < |es| ==> last <= es[j].start <= es[j].end)
    ensures forall q :: !FitsBelow(es, q, count, blockAlign)
  {
  }

  /** Nothing above the new mark fits: it meets the entry. */
  lemma NothingAbove(es: seq<Entry>, i: nat, last: int, count: nat, blockAlign: bool, q: int)
    requires i < |es| && es[i].start < last && !(es[i].end < last && es[i].end + count < last)
    requires (if blockAlign then AlignDown(es[i].start) else es[i].start) < q + count <= last
    ensures !FitsBelow(es, q, count, blockAlign)
  {
    if blockAlign && (q + count) % PAGES_PER_BLOCK == 0 {
      var n, m := es[i].start / PAGES_PER_BLOCK, (q + count) / PAGES_PER_BLOCK;
      assert es[i].start < n * PAGES_PER_BLOCK + PAGES_PER_BLOCK;
      assert q + count == m * PAGES_PER_BLOCK && m > n;
    }
  }

  lemma ClearBelow(es: seq<Entry>, last: int, count: nat)
    requires forall j :: 0 <= j < |es| ==> last <= es[j].start
    ensures Clear(es, last - count, count)
  {
  }

  function AlignUp(n: int): int {
    (n + PAGES_PER_BLOCK - 1) / PAGES_PER_BLOCK * PAGES_PER_BLOCK
  }

  lemma NoneOverlaps(es: seq<Entry>, s: int, t: int)
    requires forall i :: 0 <= i < |es| ==> !Overlaps(es[i], s, t)
    ensures Vacant(es, s, t + 1 - s)
  {
  }

  lemma VacantOnceGone(a: Maps, b: Maps, s: int, t: int)
    requires Unmapped(a, b, s, t)
    ensures Sorted(b.entries) && SectionsOk(b.entries, b.sections) && Vacant(b.entries, s, t + 1 - s)
  {
    var es := b.entries;
    forall i | 0 <= i < |es| && s <= t ensures es[i].end < s || t < es[i].start {
      var p := if s < es[i].start then es[i].start else s;
      if Covers(es[i], p) {
        AtIndex(es, i, p);
      }
    }
  }

  /** Whole blocks that are free share no block with any entry. */
  lemma WholeBlocksApart(es: seq<Entry>, q: int, count: int, b: int)
    requires Sorted(es) && 0 < count && Vacant(es, q, count) && q % PAGES_PER_BLOCK == 0 && count % PAGES_PER_BLOCK == 0
    requires BlockOf(q) <= b <= BlockOf(q + count - 1)
    ensures !InUse(es, b)
  {
    forall i | 0 <= i < |es| ensures !Touches(es[i], b) {
      assert es[i].end < q || q + count <= es[i].start;
    }
  }

  /** No run that starts below `last` fits. */
  ghost predicate NoneBelow(es: seq<Entry>, last: int, count: int, blockAlign: bool) {
    forall q :: q < last ==> !Fits(es, q, count, blockAlign)
  }

  lemma NoneBelowLimit(es: seq<Entry>, count: int, blockAlign: bool)
    ensures NoneBelow(es, LOW, count, blockAlign)
  {
  }

  /** The mark rises behind entry `i`. */
  lemma NoneBelowEntry(es: seq<Entry>, i: nat, last: int, count: nat, blockAlign: bool)
    requires i < |es| && es[i].end >= last && !(es[i].start >= last && es[i].start - last >= count) && NoneBelow(es, last, count, blockAlign)
    ensures NoneBelow(es, if blockAlign || es[i].va then AlignUp(es[i].end + 1) else es[i].end + 1, count, blockAlign)
  {
    hide Fits, AlignUp;
    forall q | last <= q < if blockAlign || es[i].va then AlignUp(es[i].end + 1) else es[i].end + 1
      ensures !Fits(es, q, count, blockAlign)
    {
      NothingBelow(es, i, last, count, blockAlign, q);
    }
  }

  /** Nothing below the new mark fits: either it meets the entry, or it is in the rest of its block. */
  lemma NothingBelow(es: seq<Entry>, i: nat, last: int, count: nat, blockAlign: bool, q: int)
    requires i < |es| && es[i].end >= last && !(es[i].start >= last && es[i].start - last >= count)
    requires last <= q < if blockAlign || es[i].va then AlignUp(es[i].end + 1) else es[i].end + 1
    ensures !Fits(es, q, count, blockAlign)
  {
  }

  /** The mark itself fits, in front of entry `i` or, behind all entries, below the limit. */
  lemma MarkFits(es: seq<Entry>, i: nat, last: int, count: nat, blockAlign: bool)
    requires Sorted(es) && i <= |es| && LOW <= last < HIGH && (blockAlign ==> last % PAGES_PER_BLOCK == 0)
    requires forall j :: 0 <= j < i ==> es[j].end < last && (es[j].va ==> BlockOf(es[j].end) < BlockOf(last))
    requires if i < |es| then last + count <= es[i].start else last + count <= HIGH
    ensures Fits(es, last, count, blockAlign) && Vacant(es, last, count) && last + count < PAGES
  {
    assert i < |es| ==> es[i].start <= es[i].end < PAGES;
    forall j | i <= j < |es| ensures last + count <= es[j].start {
    }
  }

  /** Behind all entries there is nothing either. */
  lemma NoneAfterAll(es: seq<Entry>, last: int, count: nat, blockAlign: bool)
    requires NoneBelow(es, last, count, blockAlign)
    requires HIGH <= last || (HIGH < last + count && forall j :: 0 <= j < |es| ==> es[j].start <= last)
    ensures forall q :: !Fits(es, q, count, blockAlign)
  {
    forall q | last <= q ensures !Fits(es, q, count, blockAlign) {
    }
  }

  // ----- mmap as a relation -----

  const EBADF := -9
  const BLOCK_SIZE := 0x1_0000

  /** The flags of mmap and the internal flags of its callers. */
  datatype Flags = Flags(fixed: bool, shared: bool, anonymous: bool, stack: bool, topdown: bool, nooverwrite: bool, noreset: bool, va: bool)

  /** The memory is handed out in whole blocks. */
  predicate BlockAligned(flags: Flags) {
    flags.va || flags.stack || flags.shared
  }

  // Exactly which calls are refused, by their arguments and the entries before the call.

  predicate WrongRange(hint: Word, len: Word) {
    len == 0 || !RangeOk(hint, AlignToPage(len))
  }

  predicate BadFile(hint: Word, len: Word, flags: Flags, file: Option<nat>) {
    !WrongRange(hint, len) && !flags.anonymous && file.None?
  }

  predicate Invalid(hint: Word, len: Word, flags: Flags, file: Option<nat>) {
    || WrongRange(hint, len)
    || (flags.anonymous && file.Some?)
    || (!BadFile(hint, len, flags, file)
        && ((flags.va && (hint % BLOCK_SIZE != 0 || AlignToPage(len) % BLOCK_SIZE != 0))
            || (flags.fixed && !BlockAligned(flags) && hint % PAGE_SIZE != 0)))
  }

  /** The entry before `page` in the walk, or the first one, is a VirtualAlloc entry that ends in its block. */
  ghost predicate BehindVa(es: seq<Entry>, page: int) {
    exists i :: 0 <= i < |es| && es[i].va && BlockOf(es[i].end) == BlockOf(page)
                && (es[i].start < page || i == 0) && (i + 1 < |es| ==> page <= es[i + 1].start)
  }

  /** A run that mmap without MAP_FIXED may take. */
  ghost predicate Run(es: seq<Entry>, q: int, count: int, flags: Flags) {
    if flags.topdown then FitsBelow(es, q, count, BlockAligned(flags)) else Fits(es, q, count, BlockAligned(flags))
  }

  ghost predicate NoRoom(es: seq<Entry>, hint: Word, len: Word, flags: Flags) {
    if flags.fixed then
      || (BlockAligned(flags) && hint % BLOCK_SIZE != 0)
      || (hint % BLOCK_SIZE != 0 && BehindVa(es, hint / PAGE_SIZE))
      || (flags.nooverwrite && exists i :: 0 <= i < |es| && Overlaps(es[i], hint / PAGE_SIZE, LastPage(hint, AlignToPage(len))))
    else
      forall q :: !Run(es, q, AlignToPage(len) / PAGE_SIZE, flags)
  }

  /** What a call that is placed does to the map: page `p` of [s, t] shows page `offset + p - s` of the file. */
  ghost predicate Mapped(a: Maps, b: Maps, s: int, t: int, prot: Prot, flags: Flags, file: Option<nat>, offset: int) {
    && b.sections == a.sections && b.changed == a.changed
    && (forall p :: At(b.entries, p) ==
          if s <= p <= t then Some(Page(prot, flags.va || flags.stack, flags.noreset, file, if file.Some? then offset + (p - s) else 0))
          else At(a.entries, p))
    && (forall f: nat :: Refs(b.refs, f) == Refs(a.refs, f) + if file == Some(f) then 1 else 0)
    && (forall f: nat :: Holders(b.entries, f) == Holders(a.entries, f) + if file == Some(f) then 1 else 0)
    && (s <= t ==> Sorted(b.entries))
    && (s <= t && (!(flags.va || flags.stack) || (s % PAGES_PER_BLOCK == 0 && (t + 1) % PAGES_PER_BLOCK == 0)) ==> SectionsOk(b.entries, b.sections))
  }

  /** Entry `e` has come in addition; its pages were free. */
  ghost predicate Added(a: Maps, b: Maps, e: Entry) {
    && b.sections == a.sections && b.changed == a.changed
    && (forall p :: At(b.entries, p) == if Covers(e, p) then Some(PageOf(e, p)) else At(a.entries, p))
    && (forall f: nat :: Refs(b.refs, f) == Refs(a.refs, f) + if e.file == Some(f) then 1 else 0)
    && (forall f: nat :: Holders(b.entries, f) == Holders(a.entries, f) + if e.file == Some(f) then 1 else 0)
    && (e.start <= e.end ==> Sorted(b.entries))
    && (e.start <= e.end && (!e.va || (e.start % PAGES_PER_BLOCK == 0 && (e.end + 1) % PAGES_PER_BLOCK == 0)) ==> SectionsOk(b.entries, b.sections))
  }

  lemma AddedMap(a: seq<Entry>, i: nat, e: Entry, p: int)
    requires Sorted(a) && i <= |a| && Vacant(a, e.start, e.end + 1 - e.start)
    ensures At(a[..i] + [e] + a[i..], p) == if Covers(e, p) then Some(PageOf(e, p)) else At(a, p)
  {
    assert a == a[..i] + a[i..];
    AtConcat(a[..i] + [e], a[i..], p);
    AtConcat(a[..i], [e], p);
    AtConcat(a[..i], a[i..], p);
    AtNone(a[..i], p);
    AtNone([e], p);
  }

  lemma AddedHolders(a: seq<Entry>, i: nat, e: Entry, f: nat)
    requires i <= |a|
    ensures Holders(a[..i] + [e] + a[i..], f) == Holders(a, f) + if e.file == Some(f) then 1 else 0
  {
    assert a == a[..i] + a[i..];
    DueConcat(a[..i] + [e], a[i..], f, PAGES, -1);
    DueConcat(a[..i], [e], f, PAGES, -1);
    DueConcat(a[..i], a[i..], f, PAGES, -1);
    DueSmall(e, e, f, PAGES, -1);
  }

  lemma AddedSorted(a: seq<Entry>, e: Entry)
    requires Sorted(a) && e.start <= e.end < PAGES && Vacant(a, e.start, e.end + 1 - e.start)
    ensures var i := StartsUpTo(a, e.start); Sorted(a[..i] + [e] + a[i..])
  {
    StartsUpToIs(a, e.start);
    var i := StartsUpTo(a, e.start);
    forall j | 0 <= j < |a| ensures if j < i then a[j].end < e.start else e.end < a[j].start {
    }
    SortedInsert(a, i, e);
  }

  lemma SortedInsert(a: seq<Entry>, i: nat, e: Entry)
    requires Sorted(a) && e.start <= e.end < PAGES && i <= |a|
    requires forall j :: 0 <= j < |a| ==> if j < i then a[j].end < e.start else e.end < a[j].start
    ensures Sorted(a[..i] + [e] + a[i..])
  {
    var r := a[..i] + [e] + a[i..];
    forall j, k | 0 <= j < k < |r| ensures r[j].end < r[k].start {
      assert r[k] == if k < i then a[k] else if k == i then e else a[k - 1];
      assert r[j] == if j < i then a[j] else if j == i then e else a[j - 1];
    }
  }

  lemma AddedSections(a: seq<Entry>, secs: set<int>, i: nat, e: Entry)
    requires Sorted(a) && SectionsOk(a, secs) && i <= |a| && e.start <= e.end && Vacant(a, e.start, e.end + 1 - e.start)
    requires !e.va || (e.start % PAGES_PER_BLOCK == 0 && (e.end + 1) % PAGES_PER_BLOCK == 0)
    ensures SectionsOk(a[..i] + [e] + a[i..], secs)
  {
    var r := a[..i] + [e] + a[i..];
    forall b | b in secs ensures InUse(r, b) && forall k :: 0 <= k < |r| && Touches(r[k], b) ==> !r[k].va {
      var k :| 0 <= k < |a| && Touches(a[k], b);
      assert r[if k < i then k else k + 1] == a[k];
      if e.va && Touches(e, b) {
        WholeBlocksApart(a, e.start, e.end + 1 - e.start, b);
      }
    }
  }

  // ----- where the code departs from its intent: inputs that show it -----

  const RX := Prot(true, false, true)

  /** Two entries in block 0: unmapping the lower one does not return. */
  lemma WildExample()
    ensures Wild([Entry(0, 3, RX, false, false, None, 0), Entry(4, 7, RX, false, false, None, 0)], 0, 3)
  {
  }

  /** mprotect accepts pages 0 to 5 when nothing at all is mapped. */
  lemma ProtectNothing()
    ensures Chained([], 0, 5) && At([], 0) == None
  {
  }

  /** munmap(0, 0) is accepted and stands for every page. */
  lemma UnmapEverything()
    ensures RangeOk(0, AlignToPage(0)) && LastPage(0, AlignToPage(0)) == PAGES - 1
  {
  }

  /** The length of a mapping can wrap to 0: a length that is not 0 passes the checks, and the new entry
      ends in front of its start. */
  lemma EmptyEntry()
    ensures AlignToPage(0xFFFF_F001) == 0 && RangeOk(0x1000_0000, 0) && LastPage(0x1000_0000, 0) < 0x1000_0000 / PAGE_SIZE
  {
  }

  /** Where memory is full up to the last page, the only run of nine pages that mmap can take ends above the
      upper limit, in front of an entry there. */
  lemma AboveLimit()
    ensures var es := [Entry(LOW, HIGH - 2, RX, false, false, None, 0), Entry(HIGH + 8, HIGH + 9, RX, false, false, None, 0)];
            forall q :: Fits(es, q, 9, false) <==> q == HIGH - 1
  {
    var e0, e1 := Entry(LOW, HIGH - 2, RX, false, false, None, 0), Entry(HIGH + 8, HIGH + 9, RX, false, false, None, 0);
    var es := [e0, e1];
    assert es[0] == e0 && es[1] == e1;
    assert HIGH - 1 + 9 <= es[1].start;
  }

  /** From the top, a large run may begin below the lower limit, if some entry lies below it. */
  lemma BelowLimit()
    ensures FitsBelow([Entry(0, 3, RX, false, false, None, 0)], 100, HIGH - 100, false) && 100 < LOW
  {
    var es := [Entry(0, 3, RX, false, false, None, 0)];
    assert es[0].end < 100;
  }

  /** Code at page 0 of an entry of ten pages goes, and the translator is not told. */
  lemma UnreportedCode()
    ensures var es := [Entry(0, 9, RX, false, false, None, 0)]; At(es, 0).Some? && At(es, 0).value.prot.exec && !Reported(es, 0, 4, 0)
  {
  }

  /** The reference that a VirtualAlloc entry holds to file 7 is not given back. */
  lemma LeakedFile()
    ensures var es := [Entry(16, 31, RX, true, false, Some(7), 0)]; Holders(es, 7) == 1 && Due(es, 7, 16, 31) == 0
  {
    var e := Entry(16, 31, RX, true, false, Some(7), 0);
    DueSmall(e, e, 7, 16, 31);
    DueSmall(e, e, 7, PAGES, -1);
  }

  class Mm {
    var entries: seq<Entry>
    var refs: map<nat, int>
    var sections: set<int>
    var changed: set<int>      // pages that dbt_code_changed has been told about

    ghost function Now(): Maps
      reads this
    {
      Maps(entries, refs, sections, changed)
    }

    constructor ()
      ensures entries == [] && refs == map[] && sections == {} && changed == {}
    {
      entries, refs, sections, changed := [], map[], {}, {};
    }

    method Ref(f: Option<nat>, n: int)
      modifies this`refs
      ensures forall g: nat :: Refs(refs, g) == Refs(old(refs), g) + if f == Some(g) then n else 0
    {
      if f.Some? {
        refs := refs[f.value := Refs(refs, f.value) + n];
      }
    }

    /** split_map_entry: the map stays the same, and both parts hold the file. */
    method Split(i: nat, last: nat)
      requires Sorted(entries) && i < |entries| && entries[i].start <= last < entries[i].end
      modifies this`entries, this`refs
      ensures entries == old(entries)[..i] + Cut(old(entries)[i], last) + old(entries)[i + 1..]
      ensures forall g: nat :: Refs(refs, g) == Refs(old(refs), g) + if old(entries)[i].file == Some(g) then 1 else 0
      ensures Sorted(entries) && forall p :: At(entries, p) == At(old(entries), p)
    {
      var e := entries[i];
      Ref(e.file, 1);
      forall p ensures At(entries[..i] + Cut(e, last) + entries[i + 1..], p) == At(entries, p) {
        CutSame(e, last, p);
        AtNone([e], p);
        if Covers(e, p) {
          AtIndex(entries, i, p);
        }
        AtReplaced(entries, i, Cut(e, last), p);
      }
      entries := entries[..i] + Cut(e, last) + entries[i + 1..];
    }

    /** free_map_entry_blocks: of the blocks the entry touches, exactly those that no other entry
        touches are released. When the count of blocks wraps the loop over them has no end, and the
        call does not return: `done` is false then. */
    method FreeBlocks(i: nat) returns (done: bool)
      requires Sorted(entries) && i < |entries|
      modifies this`refs, this`sections
      ensures done <==> !Wraps(entries, i)
      ensures done ==> forall g: nat :: Refs(refs, g) == Refs(old(refs), g) - if entries[i].file == Some(g) && !entries[i].va then 1 else 0
      ensures entries[i].va ==> sections == old(sections)
      ensures done && !entries[i].va ==>
                forall b :: b in sections <==> b in old(sections) && (Touches(entries[i], b) ==> InUse(Without(entries, i), b))
    {
      var e := entries[i];
      if e.va {
        return true;
      }
      Ref(e.file, -1);
      var first, last: Word := BlockOf(e.start), BlockOf(e.end);
      if SharesFirst(entries, i) {
        first := first + 1;
      }
      if last >= first && SharesLast(entries, i) {
        last := W(last - 1);
      }
      if last == 0xFFFF_FFFF {
        return false;
      }
      ghost var before := sections;
      var b := first;
      while b <= last
        invariant first <= b && (b <= last + 1 || b == first)
        invariant forall c :: c in sections <==> c in before && !(first <= c < b)
        modifies this`sections
        decreases last + 1 - b
      {
        sections := sections - {b};
        b := b + 1;
      }
      forall c | c in before ensures c in sections <==> (Touches(e, c) ==> InUse(Without(entries, i), c)) {
        if Touches(e, c) {
          NeighboursSuffice(entries, i, c);
        }
      }
      done := true;
    }

    /** rb_remove. */
    method Remove(i: nat)
      requires Sorted(entries) && i < |entries|
      modifies this`entries
      ensures entries == old(entries)[..i] + old(entries)[i + 1..] && Sorted(entries)
      ensures forall p :: At(entries, p) == if Covers(old(entries)[i], p) then None else At(old(entries), p)
    {
      forall p ensures At(entries[..i] + entries[i + 1..], p) == if Covers(entries[i], p) then None else At(entries, p) {
        AtReplaced(entries, i, [], p);
        assert entries[..i] + [] + entries[i + 1..] == entries[..i] + entries[i + 1..];
      }
      entries := entries[..i] + entries[i + 1..];
    }

    // ----- munmap -----

    /** The part of munmap_internal_unsafe for one range. */
    method UnmapPages(s: nat, t: int) returns (done: bool)
      requires Sorted(entries) && SectionsOk(entries, sections) && t < PAGES
      modifies this
      ensures done <==> !Wild(old(entries), s, t)
      ensures done ==> Unmapped(old(Now()), Now(), s, t)
    {
      hide Toward, Sorted, SectionsOk;
      StartNodeSkips(entries, s);
      TowardStart(Now(), s, t);
      var i: nat := StartNode(entries, s);
      while i < |entries| && entries[i].start <= t
        invariant Toward(old(Now()), Now(), s, t) && Sorted(entries) && SectionsOk(entries, sections)
        invariant i <= |entries| && forall j :: 0 <= j < i ==> !Overlaps(entries[j], s, t)
        decreases |entries| - i, if i < |entries| && entries[i].start <= t && s <= entries[i].end then entries[i].end - entries[i].start + 1 else 0
      {
        ghost var before := Now();
        Proper(entries, i);
        var e := entries[i];
        var lo, hi := if s < e.start then e.start else s, if t < e.end then t else e.end;
        if lo > hi {
          TowardStart(before, s, t);
          i := i + 1;
        } else if lo == e.start {
          if hi == e.end {
            done := FreeWhole(i, s, t);
          } else {
            done := FreeFront(i, s, t);
          }
          if !done {
            TowardWild(old(Now()), before, s, t);
            return;
          }
        } else {
          CutFront(i, s, t);
          i := i + 1;
        }
        TowardTrans(old(Now()), before, Now(), s, t);
      }
      done := true;
      LaterStarts(entries, i, t);
      TowardEnd(old(Now()), Now(), s, t);
    }

    static lemma Proper(es: seq<Entry>, i: nat)
      requires Sorted(es) && i < |es|
      ensures es[i].start <= es[i].end < PAGES
    {
    }

    static lemma LaterStarts(es: seq<Entry>, i: nat, t: int)
      requires Sorted(es) && i <= |es| && (i < |es| ==> es[i].start > t)
      ensures forall j :: i <= j < |es| ==> es[j].start > t
    {
    }

    /** free_map_entry_blocks, rb_remove and free_map_entry. */
    method Free(i: nat, s: nat, t: int) returns (done: bool)
      requires Sorted(entries) && SectionsOk(entries, sections) && i < |entries| && s <= entries[i].start && entries[i].end <= t
      requires forall j :: 0 <= j < i ==> !Overlaps(entries[j], s, t)
      modifies this`entries, this`refs, this`sections
      ensures !done ==> Wild(old(entries), s, t)
      ensures done ==>
                && entries == Without(old(entries), i) && Sorted(entries) && SectionsOk(entries, sections)
                && (forall p :: !(s <= p <= t) ==> At(entries, p) == At(old(entries), p))
                && (forall f: nat :: Refs(refs, f) - Due(entries, f, s, t) == Refs(old(refs), f) - Due(old(entries), f, s, t))
                && (forall b :: InUse(entries, b) ==> InUse(old(entries), b))
                && sections <= old(sections) && (Wild(entries, s, t) <==> Wild(old(entries), s, t))
                && (forall b :: b in sections <==> b in old(sections) && InUse(entries, b))
    {
      WholeGone(entries, i, s, t);
      done := FreeBlocks(i);
      if !done {
        return;
      }
      Remove(i);
      StillOk(old(entries), i, old(sections), sections);
    }

    /** The entry lies in the range. */
    method FreeWhole(i: nat, s: nat, t: int) returns (done: bool)
      requires Sorted(entries) && SectionsOk(entries, sections) && i < |entries| && s <= entries[i].start && entries[i].end <= t
      requires forall j :: 0 <= j < i ==> !Overlaps(entries[j], s, t)
      modifies this
      ensures !done ==> Wild(old(entries), s, t)
      ensures done ==>
                && Toward(old(Now()), Now(), s, t) && Sorted(entries) && SectionsOk(entries, sections)
                && i <= |entries| == |old(entries)| - 1
                && forall j :: 0 <= j < i ==> !Overlaps(entries[j], s, t)
    {
      hide InUse, Wild, At, Wraps, Due, Reported, Refs;
      var e := entries[i];
      WholeGone(entries, i, s, t);
      if e.prot.exec {
        changed := changed + set p | e.start <= p <= e.end && Covers(e, p);
      }
      done := Free(i, s, t);
    }

    method FreeFront(i: nat, s: nat, t: nat) returns (done: bool)
      requires Sorted(entries) && SectionsOk(entries, sections) && i < |entries| && s <= entries[i].start <= t < entries[i].end
      requires forall j :: 0 <= j < i ==> !Overlaps(entries[j], s, t)
      modifies this
      ensures !done ==> Wild(old(entries), s, t)
      ensures done ==>
                && Toward(old(Now()), Now(), s, t) && Sorted(entries) && SectionsOk(entries, sections)
                && i < |entries| == |old(entries)| && entries[i].start > t
                && forall j :: 0 <= j < i ==> !Overlaps(entries[j], s, t)
    {
      hide InUse, Reported, Wild, Covers, At;
      FrontGone(entries, i, s, t);
      CutKeeps(entries, i, t, s, t);
      Split(i, t);
      CutOk(old(entries), i, t, sections);
      done := Free(i, s, t);
    }

    method CutFront(i: nat, s: nat, t: int)
      requires Sorted(entries) && SectionsOk(entries, sections) && i < |entries| && entries[i].start < s <= entries[i].end && s <= t
      requires forall j :: 0 <= j < i ==> !Overlaps(entries[j], s, t)
      modifies this
      ensures Toward(old(Now()), Now(), s, t) && Sorted(entries) && SectionsOk(entries, sections)
      ensures i + 1 < |entries| == |old(entries)| + 1 && entries[i + 1].start == s && entries[i + 1].end == old(entries)[i].end
      ensures forall j :: 0 <= j <= i ==> !Overlaps(entries[j], s, t)
    {
      hide InUse, Reported, Wild, Covers, At;
      BackCut(entries, i, s, t);
      CutKeeps(entries, i, s - 1, s, t);
      Split(i, s - 1);
      CutOk(old(entries), i, s - 1, sections);
    }

    /** munmap; it returns unless the range is accepted and wild. */
    method Munmap(addr: Word, length: Word) returns (done: bool, err: int)
      requires Sorted(entries) && SectionsOk(entries, sections)
      modifies this
      ensures var n := AlignToPage(length); var s, t := addr / PAGE_SIZE, LastPage(addr, n);
              if addr % PAGE_SIZE != 0 || !RangeOk(addr, n) then done && err == EINVAL && Now() == old(Now())
              else (done <==> !Wild(old(entries), s, t)) && (done ==> err == 0 && Unmapped(old(Now()), Now(), s, t))
    {
      if addr % PAGE_SIZE != 0 {
        return true, EINVAL;
      }
      var n := AlignToPage(length);
      if !RangeOk(addr, n) {
        return true, EINVAL;
      }
      RangeExact(addr, n);
      done := UnmapPages(addr / PAGE_SIZE, LastPage(addr, n));
      err := 0;
    }

    // ----- mprotect -----

    /** The check whether all pages of [s, t] are mapped. */
    method CheckMapped(s: nat, t: int) returns (ok: bool)
      requires Sorted(entries) && s < PAGES && t < PAGES
      ensures ok <==> Chained(entries, s, t)
    {
      hide Walked;
      StartNodeSkips(entries, s);
      var last: Word := W(s - 1);
      var i: nat := StartNode(entries, s);
      assert Walked(entries, s, last, i) by { WalkStarts(entries, s, i); }
      while i < |entries| && entries[i].start <= t
        invariant i <= |entries| && Walked(entries, s, last, i)
      {
        WalkOn(entries, s, last, i);
        var e := entries[i];
        if e.end >= s {
          if e.start != W(last + 1) {
            break;
          }
          last := e.end;
        }
        i := i + 1;
      }
      ok := last >= t;
      WalkEnds(entries, s, t, last, i);
    }

    static lemma WalkStarts(es: seq<Entry>, s: nat, i: nat)
      requires i <= |es| && forall j :: 0 <= j < i ==> es[j].end < s
      ensures Walked(es, s, W(s - 1), i)
    {
    }

    /** Entry `i` gets a new protection. */
    method SetProt(i: nat, prot: Prot)
      requires Sorted(entries) && SectionsOk(entries, sections) && i < |entries|
      modifies this`entries
      ensures entries == old(entries)[..i] + [old(entries)[i].(prot := prot)] + old(entries)[i + 1..]
      ensures Sorted(entries) && SectionsOk(entries, sections)
      ensures forall p :: At(entries, p) == if Covers(entries[i], p) then Some(PageOf(entries[i], p)) else At(old(entries), p)
      ensures forall f: nat :: Holders(entries, f) == Holders(old(entries), f)
    {
      var e := entries[i].(prot := prot);
      ghost var es := entries;
      forall p ensures At(es[..i] + [e] + es[i + 1..], p) == if Covers(e, p) then Some(PageOf(e, p)) else At(es, p) {
        AtNone([e], p);
        AtReplaced(es, i, [e], p);
      }
      forall f: nat ensures Holders(es[..i] + [e] + es[i + 1..], f) == Holders(es, f) {
        DueReplaced(es, i, [e], f, PAGES, -1);
        DueSmall(e, e, f, PAGES, -1);
        DueSmall(es[i], es[i], f, PAGES, -1);
      }
      ProtSections(entries, sections, i, prot);
      entries := entries[..i] + [e] + entries[i + 1..];
    }

    static lemma ProtSections(es: seq<Entry>, sections: set<int>, i: nat, prot: Prot)
      requires Sorted(es) && SectionsOk(es, sections) && i < |es|
      ensures var es' := es[..i] + [es[i].(prot := prot)] + es[i + 1..]; Sorted(es') && SectionsOk(es', sections)
    {
      hide Touches;
      var es' := es[..i] + [es[i].(prot := prot)] + es[i + 1..];
      forall b, k: nat | k < |es| ensures Touches(es'[k], b) <==> Touches(es[k], b) {
        SameTouch(es[i], es'[i], b);
      }
      forall b | InUse(es, b) ensures InUse(es', b) {
        var k: nat :| k < |es| && Touches(es[k], b);
        assert Touches(es'[k], b);
      }
    }

    static lemma SameTouch(e: Entry, f: Entry, b: int)
      requires e.start == f.start && e.end == f.end
      ensures Touches(e, b) <==> Touches(f, b)
    {
    }

    /** The protection of [s, t] becomes `prot`, except in VirtualAlloc entries. */
    method ProtectPages(s: nat, t: int, prot: Prot)
      requires Sorted(entries) && SectionsOk(entries, sections) && t < PAGES
      modifies this`entries, this`refs
      ensures Protected(old(Now()), Now(), s, t, prot)
    {
      hide Protecting, SectionsOk;
      StartNodeSkips(entries, s);
      var i: nat := StartNode(entries, s);
      ProtectStarts(Now(), s, t, prot, i);
      while i < |entries| && entries[i].start <= t
        invariant i <= |entries| && Sorted(entries) && SectionsOk(entries, sections)
        invariant Protecting(old(Now()), Now(), s, t, prot, Front(entries, i))
        decreases PAGES - Front(entries, i)
      {
        ProtectEntry(i, s, t, prot, old(Now()));
        i := i + 1;
      }
      ProtectEnds(old(Now()), Now(), s, t, prot, Front(entries, i));
    }

    /** One round of the loop; `a` is the map before the first. */
    method ProtectEntry(i: nat, s: nat, t: int, prot: Prot, ghost a: Maps)
      requires Sorted(entries) && SectionsOk(entries, sections) && t < PAGES
      requires i < |entries| && entries[i].start <= t && Protecting(a, Now(), s, t, prot, Front(entries, i))
      modifies this`entries, this`refs
      ensures Sorted(entries) && SectionsOk(entries, sections)
      ensures i < |entries| && entries[i].start == old(entries)[i].start && Protecting(a, Now(), s, t, prot, Front(entries, i + 1))
    {
      hide Protecting, At, Holders, InUse, SectionsOk, Sorted;
      Proper(entries, i);
      var e := entries[i];
      ghost var b := Now();
      var lo, hi := if s < e.start then e.start else s, if t < e.end then t else e.end;
      if lo > hi || e.va {
        PassEntry(a, b, s, t, prot, i);
      } else if lo == e.start && hi == e.end {
        SetProt(i, prot);
        PassChanged(a, b, Now(), s, t, prot, i);
      } else if lo == e.start {
        CutInRange(i, hi);
        ghost var c := Now();
        CutProtects(a, b, c, s, t, prot, Front(entries, i));
        SetProt(i, prot);
        PassChanged(a, c, Now(), s, t, prot, i);
      } else {
        CutInRange(i, lo - 1);
        CutProtects(a, b, Now(), s, t, prot, Front(entries, i));
        PassEntry(a, Now(), s, t, prot, i);
      }
    }

    method CutInRange(i: nat, last: nat)
      requires Sorted(entries) && SectionsOk(entries, sections) && i < |entries| && entries[i].start <= last < entries[i].end
      modifies this`entries, this`refs
      ensures entries == old(entries)[..i] + Cut(old(entries)[i], last) + old(entries)[i + 1..]
      ensures Sorted(entries) && SectionsOk(entries, sections) && forall p :: At(entries, p) == At(old(entries), p)
      ensures forall f: nat :: Refs(refs, f) - Holders(entries, f) == Refs(old(refs), f) - Holders(old(entries), f)
    {
      ghost var es := entries;
      Split(i, last);
      CutOk(es, i, last, sections);
      forall f: nat ensures Holders(entries, f) == Holders(es, f) + if es[i].file == Some(f) then 1 else 0 {
        var c := Cut(es[i], last);
        DueReplaced(es, i, c, f, PAGES, -1);
        DueSmall(c[0], c[1], f, PAGES, -1);
        DueSmall(es[i], es[i], f, PAGES, -1);
      }
    }

    /** mprotect; `hardware` tells whether the protection of the views could be changed. */
    method Mprotect(addr: Word, length: Word, prot: Prot, hardware: bool) returns (err: int)
      requires Sorted(entries) && SectionsOk(entries, sections)
      modifies this`entries, this`refs
      ensures var n := AlignToPage(length); var s := addr / PAGE_SIZE; var t := LastPage(addr, n);
              if addr % PAGE_SIZE != 0 || !RangeOk(addr, n) then err == EINVAL && Now() == old(Now())
              else if !Chained(old(entries), s, t) then err == ENOMEM && Now() == old(Now())
              else err == (if hardware then 0 else ENOMEM) && Protected(old(Now()), Now(), s, t, prot)
    {
      if addr % PAGE_SIZE != 0 {
        return EINVAL;
      }
      var n := AlignToPage(length);
      if !RangeOk(addr, n) {
        return EINVAL;
      }
      var s, t := addr / PAGE_SIZE, LastPage(addr, n);
      RangeExact(addr, n);
      var ok := CheckMapped(s, t);
      if !ok {
        return ENOMEM;
      }
      ProtectPages(s, t, prot);
      err := if hardware then 0 else ENOMEM;
    }

    // ----- finding room -----

    /** find_free_pages: the lowest run that fits, or 0 if there is none. */
    method FindFreePages(count: nat, blockAlign: bool) returns (r: nat)
      requires Sorted(entries)
      ensures r != 0 ==> Fits(entries, r, count, blockAlign) && Vacant(entries, r, count) && r + count < PAGES
      ensures r != 0 ==> forall q :: q < r ==> !Fits(entries, q, count, blockAlign)
      ensures r == 0 ==> forall q :: !Fits(entries, q, count, blockAlign)
    {
      hide Fits, NoneBelow, AlignUp, Vacant;
      NoneBelowLimit(entries, count, blockAlign);
      var last: nat := LOW;
      var i: nat := 0;
      while i < |entries|
        invariant i <= |entries| && LOW <= last < HIGH && (blockAlign ==> last % PAGES_PER_BLOCK == 0)
        invariant forall j :: 0 <= j < i ==> entries[j].end < last && (entries[j].va ==> BlockOf(entries[j].end) < BlockOf(last))
        invariant last % PAGES_PER_BLOCK == 0 || (i > 0 && entries[i - 1].end == last - 1)
        invariant NoneBelow(entries, last, count, blockAlign)
      {
        var e := entries[i];
        if e.start >= last && e.start - last >= count {
          MarkFits(entries, i, last, count, blockAlign);
          NoneBelowMark(entries, last, count, blockAlign);
          return last;
        } else if e.end >= last {
          NoneBelowEntry(entries, i, last, count, blockAlign);
          AlignUpIs(e.end + 1);
          last := e.end + 1;
          if blockAlign || e.va {
            last := AlignUp(last);
          }
        }
        if last >= HIGH {
          NoneAfterAll(entries, last, count, blockAlign);
          return 0;
        }
        i := i + 1;
      }
      if HIGH > last && HIGH - last >= count {
        MarkFits(entries, i, last, count, blockAlign);
        NoneBelowMark(entries, last, count, blockAlign);
        r := last;
      } else {
        AllProper(entries);
        NoneAfterAll(entries, last, count, blockAlign);
        r := 0;
      }
    }

    static lemma NoneBelowMark(es: seq<Entry>, last: int, count: nat, blockAlign: bool)
      requires NoneBelow(es, last, count, blockAlign)
      ensures forall q :: q < last ==> !Fits(es, q, count, blockAlign)
    {
    }

    static lemma AlignUpIs(n: int)
      ensures n <= AlignUp(n) < n + PAGES_PER_BLOCK && AlignUp(n) % PAGES_PER_BLOCK == 0 && BlockOf(n - 1) < BlockOf(AlignUp(n))
    {
    }

    /** find_free_pages_topdown: the highest run that fits, or 0 if there is none. */
    method FindFreePagesTopdown(count: nat, blockAlign: bool) returns (r: nat)
      requires Sorted(entries)
      ensures r != 0 ==> FitsBelow(entries, r, count, blockAlign) && Vacant(entries, r, count) && r + count <= HIGH
      ensures r != 0 ==> forall q :: r < q ==> !FitsBelow(entries, q, count, blockAlign)
      ensures r == 0 ==> forall q :: !FitsBelow(entries, q, count, blockAlign)
    {
      hide Vacant, Clear, FitsBelow, NoneAbove, AlignDown, Sorted;
      NoneAboveLimit(entries, count, blockAlign);
      var last: nat := HIGH;
      var i: nat := |entries|;
      while i > 0
        invariant i <= |entries| && LOW < last <= HIGH && (blockAlign ==> last % PAGES_PER_BLOCK == 0)
        invariant forall j :: i <= j < |entries| ==> last <= entries[j].start
        invariant NoneAbove(entries, last, count, blockAlign)
      {
        var e := entries[i - 1];
        if e.end < last && e.end + count < last {
          ClearBetween(entries, i, last, count);
          FitsBelowIs(entries, last - count, count, blockAlign);
          NoneAboveStart(entries, last, last - count, count, blockAlign);
          return last - count;
        } else if e.start < last {
          NoneAboveEntry(entries, i - 1, last, count, blockAlign);
          last := if blockAlign then AlignDown(e.start) else e.start;
        }
        if last <= LOW {
          NoneAtAll(entries, last, count, blockAlign);
          return 0;
        }
        i := i - 1;
      }
      if LOW < last && LOW + count < last {
        ClearBelow(entries, last, count);
        FitsBelowIs(entries, last - count, count, blockAlign);
        NoneAboveStart(entries, last, last - count, count, blockAlign);
        r := last - count;
      } else {
        AllProper(entries);
        NoneAtAll(entries, last, count, blockAlign);
        r := 0;
      }
    }

    static lemma AllProper(es: seq<Entry>)
      requires Sorted(es)
      ensures forall i :: 0 <= i < |es| ==> es[i].start <= es[i].end
    {
    }

    // ----- mmap -----

    /** The new entry of mmap. */
    method AddEntry(e: Entry)
      requires Sorted(entries) && SectionsOk(entries, sections) && e.end < PAGES && Vacant(entries, e.start, e.end + 1 - e.start)
      modifies this`entries, this`refs
      ensures Added(old(Now()), Now(), e)
    {
      hide Sorted, SectionsOk, At, Covers, Vacant;
      ghost var a := entries;
      var i := StartsUpTo(entries, e.start);
      forall p ensures At(a[..i] + [e] + a[i..], p) == if Covers(e, p) then Some(PageOf(e, p)) else At(a, p) {
        AddedMap(a, i, e, p);
      }
      forall f: nat ensures Holders(a[..i] + [e] + a[i..], f) == Holders(a, f) + if e.file == Some(f) then 1 else 0 {
        AddedHolders(a, i, e, f);
      }
      if e.start <= e.end && (!e.va || (e.start % PAGES_PER_BLOCK == 0 && (e.end + 1) % PAGES_PER_BLOCK == 0)) {
        AddedSections(a, sections, i, e);
      }
      if e.start <= e.end {
        AddedSorted(a, e);
      }
      entries := entries[..i] + [e] + entries[i..];
      Ref(e.file, 1);
    }

    /** INTERNAL_MAP_NOOVERWRITE: does any entry meet [s, t]? */
    method Collides(s: nat, t: int) returns (hit: bool)
      requires Sorted(entries)
      ensures hit <==> exists i :: 0 <= i < |entries| && Overlaps(entries[i], s, t)
    {
      StartNodeSkips(entries, s);
      var i: nat := StartNode(entries, s);
      while i < |entries| && entries[i].start <= t
        invariant i <= |entries| && forall j :: 0 <= j < i ==> !Overlaps(entries[j], s, t)
      {
        if s <= entries[i].end && s <= t {
          return true;
        }
        i := i + 1;
      }
      hit := false;
    }

    /** mmap, with memory for VirtualAlloc entries granted or refused by `memory`. `placed` tells that
        the call got as far as adding its entry at `addr`; `m` is the map after the pages in the way
        have gone. */
    method Mmap(hint: Word, len: Word, prot: Prot, flags: Flags, file: Option<nat>, offset: int, memory: bool)
      returns (done: bool, r: int, ghost placed: bool, ghost addr: int, ghost m: Maps)
      requires Sorted(entries) && SectionsOk(entries, sections)
      modifies this
      ensures Invalid(hint, len, flags, file) ==> done && !placed && r == EINVAL
      ensures BadFile(hint, len, flags, file) ==> done && !placed && r == EBADF
      ensures var accepted := !Invalid(hint, len, flags, file) && !BadFile(hint, len, flags, file);
              && (accepted && NoRoom(old(entries), hint, len, flags) ==> done && !placed && r == ENOMEM)
              && (accepted && !NoRoom(old(entries), hint, len, flags) ==>
                    && (done <==> !(flags.fixed && !flags.nooverwrite && Wild(old(entries), hint / PAGE_SIZE, LastPage(hint, AlignToPage(len)))))
                    && (done ==> placed))
      ensures done && !placed ==> Now() == old(Now())
      ensures done && placed ==>
                0 <= addr < SPACE_HIGH && addr % PAGE_SIZE == 0 &&
                var n := AlignToPage(len); var s, t := addr / PAGE_SIZE, LastPage(addr, n);
                && 0 <= t
                && (if flags.fixed then addr == hint
                    else Run(old(entries), s, n / PAGE_SIZE, flags)
                         && forall q :: Run(old(entries), q, n / PAGE_SIZE, flags) ==> if flags.topdown then q <= s else s <= q)
                && (if flags.fixed && !flags.nooverwrite then Unmapped(old(Now()), m, s, t)
                    else m == old(Now()) && Vacant(m.entries, s, t + 1 - s))
                && Mapped(m, Now(), s, t, prot, flags, file, offset)
                && r == if (flags.va || flags.stack) && !memory then ENOMEM else addr
    {
      hide Unmapped, Added, Mapped, Vacant, Run, BehindVa, Sorted, SectionsOk;
      m, done, placed, addr, r := Now(), true, false, 0, 0;
      if len == 0 {
        return true, EINVAL, false, 0, m;
      }
      var n := AlignToPage(len);
      if !RangeOk(hint, n) || (flags.anonymous && file.Some?) {
        return true, EINVAL, false, 0, m;
      }
      if !flags.anonymous && file.None? {
        return true, EBADF, false, 0, m;
      }
      if flags.va && (hint % BLOCK_SIZE != 0 || n % BLOCK_SIZE != 0) {
        return true, EINVAL, false, 0, m;
      }
      var refused, place := Place(hint, n, flags);
      if refused != 0 {
        return true, refused, false, 0, m;
      }
      var s, t := place / PAGE_SIZE, LastPage(place, n);
      if flags.fixed && flags.nooverwrite {
        var hit := Collides(s, t);
        if hit {
          return true, ENOMEM, false, 0, m;
        }
        NoneOverlaps(entries, s, t);
      } else if flags.fixed {
        done := UnmapPages(s, t);
        if !done {
          return;
        }
        m := Now();
        VacantOnceGone(old(Now()), m, s, t);
      }
      var e := Entry(s, t, prot, flags.va || flags.stack, flags.noreset, file, offset);
      AddEntry(e);
      AddedIsMapped(m, Now(), e, flags);
      placed, addr := true, place;
      r := if (flags.va || flags.stack) && !memory then ENOMEM else place;
    }

    static lemma AddedIsMapped(a: Maps, b: Maps, e: Entry, flags: Flags)
      requires Added(a, b, e) && e.va == (flags.va || flags.stack) && e.noreset == flags.noreset
      ensures Mapped(a, b, e.start, e.end, e.prot, flags, e.file, e.offset)
    {
      hide At, Sorted, SectionsOk;
    }

    /** The address of a new mapping. */
    method Place(hint: Word, n: Word, flags: Flags) returns (err: int, place: Word)
      requires Sorted(entries) && n % PAGE_SIZE == 0 && RangeOk(hint, n)
      ensures if flags.fixed then
                && (err == EINVAL <==> !BlockAligned(flags) && hint % PAGE_SIZE != 0)
                && (err == ENOMEM <==> hint % BLOCK_SIZE != 0 && (BlockAligned(flags) || (hint % PAGE_SIZE == 0 && BehindVa(entries, hint / PAGE_SIZE))))
              else err != EINVAL && (err == ENOMEM <==> forall q :: !Run(entries, q, n / PAGE_SIZE, flags))
      ensures err in {0, EINVAL, ENOMEM}
      ensures err == 0 ==> place < SPACE_HIGH && place % PAGE_SIZE == 0 && 0 <= LastPage(place, n) < PAGES && (flags.fixed ==> place == hint)
      ensures err == 0 && !flags.fixed ==>
                && Vacant(entries, place / PAGE_SIZE, LastPage(place, n) + 1 - place / PAGE_SIZE)
                && Run(entries, place / PAGE_SIZE, n / PAGE_SIZE, flags)
                && forall q :: Run(entries, q, n / PAGE_SIZE, flags) ==> if flags.topdown then q <= place / PAGE_SIZE else place / PAGE_SIZE <= q
    {
      hide Vacant, Fits, FitsBelow, Sorted, BehindVa;
      place := hint;
      if flags.fixed {
        err := CheckFixed(hint, BlockAligned(flags));
        return;
      }
      var page: nat;
      if flags.topdown {
        page := FindFreePagesTopdown(n / PAGE_SIZE, BlockAligned(flags));
      } else {
        page := FindFreePages(n / PAGE_SIZE, BlockAligned(flags));
        FitsBounds(entries, page, n / PAGE_SIZE, BlockAligned(flags));
      }
      if page == 0 {
        return ENOMEM, hint;
      }
      PagesOf(page, n);
      assert Run(entries, page, n / PAGE_SIZE, flags);
      err, place := 0, page * PAGE_SIZE;
    }

    static lemma FitsBounds(es: seq<Entry>, q: int, count: int, blockAlign: bool)
      ensures Fits(es, q, count, blockAlign) ==> q < HIGH
    {
    }

    static lemma PagesOf(page: nat, n: Word)
      requires 0 < page <= HIGH && n % PAGE_SIZE == 0 && page + n / PAGE_SIZE < PAGES
      ensures LastPage(page * PAGE_SIZE, n) == page + n / PAGE_SIZE - 1
    {
    }

    /** What MAP_FIXED does not allow. */
    method CheckFixed(addr: Word, blockAlign: bool) returns (err: int)
      requires Sorted(entries)
      ensures err in {0, EINVAL, ENOMEM}
      ensures err == EINVAL <==> !blockAlign && addr % PAGE_SIZE != 0
      ensures err == ENOMEM <==> addr % BLOCK_SIZE != 0 && (blockAlign || (addr % PAGE_SIZE == 0 && BehindVa(entries, addr / PAGE_SIZE)))
    {
      hide BehindVa, StartNode, BlockOf, Sorted;
      BlockOfAddress(addr);
      if blockAlign && addr % BLOCK_SIZE != 0 {
        return ENOMEM;
      }
      if addr % PAGE_SIZE != 0 {
        return EINVAL;
      }
      if addr % BLOCK_SIZE != 0 {
        var page: int := addr / PAGE_SIZE;
        var i := StartNode(entries, page - 1);
        BehindVaIs(entries, page);
        if i < |entries| && entries[i].va && BlockOf(entries[i].end) == addr / BLOCK_SIZE {
          return ENOMEM;
        }
      }
      err := 0;
    }

    static lemma BlockOfAddress(addr: Word)
      ensures BlockOf(addr / PAGE_SIZE) == addr / BLOCK_SIZE
      ensures addr % BLOCK_SIZE == 0 ==> addr % PAGE_SIZE == 0
    {
    }

    static lemma BehindVaIs(es: seq<Entry>, page: int)
      requires Sorted(es)
      ensures var i := StartNode(es, page - 1);
              BehindVa(es, page) <==> i < |es| && es[i].va && BlockOf(es[i].end) == BlockOf(page)
    {
      StartsUpToIs(es, page - 1);
      var i := StartNode(es, page - 1);
      if i < |es| {
        assert (es[i].start < page || i == 0) && (i + 1 < |es| ==> page <= es[i + 1].start);
        StartsRise(es);
      }
    }

    static lemma StartsRise(es: seq<Entry>)
      requires Sorted(es)
      ensures forall i, k :: 0 < i <= k < |es| ==> es[i].start <= es[k].start
    {
    }
  }
}
