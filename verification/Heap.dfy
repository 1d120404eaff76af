/**
 The pooled heap of src/heap.c: one chain of 64kB buckets for each power-of-two size, each bucket
 with a free list that is threaded through its free slots.
 */
module Heap {

  const BLOCK := 0x1_0000
  const HEADER := 12
  const POOLS := 11

  /** Sizes of the pools: 16 to 16384. */
  function ObjSize(p: nat): nat
    requires p < POOLS
  {
    [16, 32, 64, 128, 256, 512, 1024, 2048, 4096, 8192, 16384][p]
  }

  /** The first pool whose objects are large enough; POOLS if there is none. */
  function PoolFrom(size: int, p: nat): (r: nat)
    requires p <= POOLS
    ensures p <= r <= POOLS && (r < POOLS ==> size <= ObjSize(r)) && forall q :: p <= q < r ==> size > ObjSize(q)
    decreases POOLS - p
  {
    if p == POOLS || size <= ObjSize(p) then p else PoolFrom(size, p + 1)
  }

  function Pool(size: int): nat {
    PoolFrom(size, 0)
  }

  // ----- slots -----

  /** A slot starts inside its bucket; the end of the last one may lie behind it. */
  predicate IsSlot(base: int, size: nat, a: int) {
    0 < size && base + HEADER <= a < base + BLOCK && (a - base - HEADER) % size == 0
  }

  /** The slots from `a` on, in order. */
  function SlotsFrom(base: int, size: nat, a: int): seq<int>
    requires 0 < size
    decreases base + BLOCK - a
  {
    if a >= base + BLOCK then [] else [a] + SlotsFrom(base, size, a + size)
  }

  function Slots(base: int, size: nat): seq<int>
    requires 0 < size
  {
    SlotsFrom(base, size, base + HEADER)
  }

  lemma {:induction false} SlotsAre(base: int, size: nat, a: int)
    requires 0 < size && IsSlot(base, size, a)
    ensures var s := SlotsFrom(base, size, a);
            && (forall i :: 0 <= i < |s| ==> IsSlot(base, size, s[i]) && s[i] >= a)
            && (forall i, j :: 0 <= i < j < |s| ==> s[i] < s[j])
            && (forall x :: IsSlot(base, size, x) && x >= a ==> x in s)
    decreases base + BLOCK - a
  {
    var s := SlotsFrom(base, size, a);
    NextSlot(base, size, a);
    if a + size < base + BLOCK {
      SlotsAre(base, size, a + size);
      var t := SlotsFrom(base, size, a + size);
      assert s == [a] + t;
      forall x | IsSlot(base, size, x) && x >= a ensures x in s {
        if x != a {
          assert x in t;
        }
      }
    } else {
      assert SlotsFrom(base, size, a + size) == [];
      assert s == [a];
    }
  }

  /** Two objects of a bucket never overlap, but each bucket, whatever its pool, has exactly one that does not
      fit into its block: the last one, because the loop of alloc_bucket stops when the next slot would
      not begin in the block. */
  lemma OverrunIff(p: nat, base: int, a: int)
    requires p < POOLS && IsSlot(base, ObjSize(p), a)
    ensures forall b :: IsSlot(base, ObjSize(p), b) && a < b ==> a + ObjSize(p) <= b
    ensures base + BLOCK < a + ObjSize(p) <==> forall b :: IsSlot(base, ObjSize(p), b) ==> b <= a
    ensures base + BLOCK != a + ObjSize(p)
  {
    var size := ObjSize(p);
    NextSlot(base, size, a);
    var k := (a - base - HEADER) / size;
    assert a == base + HEADER + k * size;
    if base + BLOCK < a + size {
      forall b | IsSlot(base, size, b) ensures b <= a {
      }
    }
    NotWhole(p, k);
  }

  /** The room behind the header is no multiple of an object's size. */
  lemma NotWhole(p: nat, k: int)
    requires p < POOLS
    ensures HEADER + k * ObjSize(p) != BLOCK
  {
  }

  /** Slots are `size` apart. */
  lemma NextSlot(base: int, size: nat, a: int)
    requires 0 < size && IsSlot(base, size, a)
    ensures a + size < base + BLOCK ==> IsSlot(base, size, a + size)
    ensures forall x :: IsSlot(base, size, x) && x >= a ==> x == a || x >= a + size
  {
    var k := a - base - HEADER;
    ModStep(k, size);
    forall x | IsSlot(base, size, x) && x > a ensures x >= a + size {
      ModApart(k, x - base - HEADER, size);
    }
  }

  lemma ModStep(k: int, size: nat)
    requires 0 < size && k % size == 0
    ensures (k + size) % size == 0
  {
    var q := k / size;
    assert k == q * size;
    assert k + size == (q + 1) * size;
    MulMod(q + 1, size);
  }

  lemma MulMod(q: int, size: nat)
    requires 0 < size
    ensures q * size % size == 0
  {
    var n := q * size;
    var d := q - n / size;
    assert d * size == q * size - n / size * size == n % size;
    assert d >= 1 ==> d * size >= size;
    assert d <= 0 ==> d * size <= 0;
  }

  lemma ModApart(k: int, m: int, size: nat)
    requires 0 < size && k % size == 0 && m % size == 0 && k < m
    ensures m >= k + size
  {
    var q, r := k / size, m / size;
    assert k == q * size && m == r * size;
    assert r <= q ==> r * size <= q * size;
    assert q < r ==> (q + 1) * size <= r * size;
  }

  // ----- free lists -----

  /** The free list that starts at `first` runs through the slots `fr`. */
  ghost predicate Chain(words: map<int, int>, first: int, fr: seq<int>)
    decreases |fr|
  {
    if fr == [] then first == 0
    else first == fr[0] && fr[0] != 0 && fr[0] in words && Chain(words, words[fr[0]], fr[1..])
  }

  /** Writing elsewhere does not disturb a free list. */
  lemma {:induction false} ChainKept(words: map<int, int>, words': map<int, int>, first: int, fr: seq<int>)
    requires Chain(words, first, fr) && forall x :: x in fr ==> x in words' && (x in words ==> words'[x] == words[x])
    ensures Chain(words', first, fr)
    decreases |fr|
  {
    if fr != [] {
      ChainKept(words, words', words[fr[0]], fr[1..]);
    }
  }

  /** alloc_bucket threads all slots together. */
  lemma {:induction false} ChainOfSlots(words: map<int, int>, base: int, size: nat, a: int)
    requires 0 < size && a > 0
    requires forall x :: x in SlotsFrom(base, size, a) ==> x in words && words[x] == if x + size < base + BLOCK then x + size else 0
    ensures Chain(words, if a < base + BLOCK then a else 0, SlotsFrom(base, size, a))
    decreases base + BLOCK - a
  {
    if a < base + BLOCK {
      assert SlotsFrom(base, size, a) == [a] + SlotsFrom(base, size, a + size);
      ChainOfSlots(words, base, size, a + size);
    }
  }

  datatype Bucket = Bucket(base: int, refCnt: int, firstFree: int)

  predicate Distinct(s: seq<int>) {
    forall i, j :: 0 <= i < j < |s| ==> s[i] != s[j]
  }

  function BaseOf(a: int): int {
    a / BLOCK * BLOCK
  }

  /** The free list and the live slots of a bucket partition its slots, and ref_cnt counts the live ones. */
  ghost predicate BucketOk(words: map<int, int>, b: Bucket, size: nat, fr: seq<int>) {
    && 0 < size && 0 < b.base && b.base % BLOCK == 0
    && Distinct(fr) && (forall x :: x in fr ==> IsSlot(b.base, size, x))
    && Chain(words, b.firstFree, fr)
    && b.refCnt == |Slots(b.base, size)| - |fr|
  }

  lemma SlotBase(base: int, size: nat, a: int)
    requires base % BLOCK == 0 && IsSlot(base, size, a)
    ensures BaseOf(a) == base
  {
  }

  /** A bucket has no live slot exactly if ref_cnt is zero. */
  lemma NoneLiveIff(words: map<int, int>, b: Bucket, size: nat, fr: seq<int>)
    requires BucketOk(words, b, size, fr)
    ensures b.refCnt >= 0 && (b.refCnt == 0 <==> forall x :: IsSlot(b.base, size, x) ==> x in fr)
  {
    hide Chain;
    SlotSet(b.base, size);
    var s := Slots(b.base, size);
    DistinctSize(s);
    DistinctSize(fr);
    var F, S := set x | x in fr, set x | x in s;
    SubsetSize(F, S);
    assert S <= F ==> forall x :: IsSlot(b.base, size, x) ==> x in S;
  }

  /** The slots of a bucket, each once. */
  lemma SlotSet(base: int, size: nat)
    requires 0 < size
    ensures Distinct(Slots(base, size)) && forall x :: x in Slots(base, size) <==> IsSlot(base, size, x)
  {
    FirstIsSlot(base, size);
    SlotsAre(base, size, base + HEADER);
    var s := Slots(base, size);
    forall x ensures x in s <==> IsSlot(base, size, x) {
      if x in s {
        var i :| 0 <= i < |s| && s[i] == x;
      }
    }
  }

  lemma FirstIsSlot(base: int, size: nat)
    requires 0 < size
    ensures IsSlot(base, size, base + HEADER)
  {
  }

  lemma {:induction false} DistinctSize(s: seq<int>)
    requires Distinct(s)
    ensures |set x | x in s| == |s|
  {
    if s != [] {
      var t := s[..|s| - 1];
      DistinctSize(t);
      assert s == t + [s[|s| - 1]];
      assert (set x | x in s) == (set x | x in t) + {s[|s| - 1]};
      assert s[|s| - 1] !in t;
    }
  }

  lemma SubsetSize(f: set<int>, s: set<int>)
    requires f <= s
    ensures |f| <= |s| && (|f| == |s| <==> s <= f)
  {
    assert s == f + (s - f);
    assert |s| == |f| + |s - f|;
  }

  // ----- the heap as a value -----

  type Chains = seq<seq<Bucket>>
  type Words = map<int, int>        // the first word of each slot
  type Frees = map<int, seq<int>>   // the free list of each bucket

  predicate Has(chains: Chains, p: nat, i: nat) {
    p < POOLS && p < |chains| && i < |chains[p]|
  }

  ghost predicate HeapOk(chains: Chains, words: Words, frees: Frees) {
    && |chains| == POOLS
    && (forall p: nat, i: nat :: Has(chains, p, i) ==>
          chains[p][i].base in frees && BucketOk(words, chains[p][i], ObjSize(p), frees[chains[p][i].base]))
    && (forall p: nat, i: nat, q: nat, j: nat :: Has(chains, p, i) && Has(chains, q, j) && chains[p][i].base == chains[q][j].base ==> p == q && i == j)
  }

  /** `a` is a slot of bucket `i` of pool `p` that has been handed out. */
  ghost predicate LiveIn(chains: Chains, frees: Frees, p: nat, i: nat, a: int) {
    Has(chains, p, i) && IsSlot(chains[p][i].base, ObjSize(p), a) && chains[p][i].base in frees && a !in frees[chains[p][i].base]
  }

  ghost predicate Live(chains: Chains, frees: Frees, a: int) {
    exists p: nat, i: nat :: LiveIn(chains, frees, p, i, a)
  }

  /** Only the slots of `base` are written. */
  ghost predicate WritesIn(words: Words, words': Words, base: int) {
    forall x :: x in words && BaseOf(x) != base ==> x in words' && words'[x] == words[x]
  }

  lemma OtherBucketKept(words: Words, words': Words, base: int, b: Bucket, size: nat, fr: seq<int>)
    requires BucketOk(words, b, size, fr) && b.base != base && WritesIn(words, words', base)
    ensures BucketOk(words', b, size, fr)
  {
    ChainHas(words, b.firstFree, fr);
    forall x | x in fr ensures x in words' && (x in words ==> words'[x] == words[x]) {
      SlotBase(b.base, size, x);
    }
    ChainKept(words, words', b.firstFree, fr);
  }

  lemma {:induction false} ChainHas(words: Words, first: int, fr: seq<int>)
    requires Chain(words, first, fr)
    ensures forall x :: x in fr ==> x in words
    decreases |fr|
  {
    if fr != [] {
      ChainHas(words, words[fr[0]], fr[1..]);
      assert forall x :: x in fr ==> x == fr[0] || x in fr[1..];
    }
  }

  /** Bucket `i` of pool `p` gets a new header and free list. */
  lemma Updated(chains: Chains, words: Words, frees: Frees, p: nat, i: nat, b: Bucket, words': Words, fr: seq<int>)
    requires HeapOk(chains, words, frees) && Has(chains, p, i) && b.base == chains[p][i].base
    requires WritesIn(words, words', b.base) && BucketOk(words', b, ObjSize(p), fr)
    ensures var chains' := chains[p := chains[p][i := b]]; var frees' := frees[b.base := fr];
            && HeapOk(chains', words', frees')
            && forall a :: Live(chains', frees', a) <==>
                 if IsSlot(b.base, ObjSize(p), a) then a !in fr else Live(chains, frees, a)
  {
    var chains' := chains[p := chains[p][i := b]];
    var frees' := frees[b.base := fr];
    forall q: nat, j: nat | Has(chains', q, j)
      ensures Has(chains, q, j) && chains'[q][j].base == chains[q][j].base && chains'[q][j].base in frees'
      ensures BucketOk(words', chains'[q][j], ObjSize(q), frees'[chains'[q][j].base])
    {
      assert Has(chains, q, j);
      if q != p || j != i {
        OtherBucketKept(words, words', b.base, chains[q][j], ObjSize(q), frees[chains[q][j].base]);
      }
    }
    forall a ensures Live(chains', frees', a) <==> if IsSlot(b.base, ObjSize(p), a) then a !in fr else Live(chains, frees, a) {
      LiveUpdated(chains, words, frees, p, i, b, fr, a);
    }
  }

  lemma LiveUpdated(chains: Chains, words: Words, frees: Frees, p: nat, i: nat, b: Bucket, fr: seq<int>, a: int)
    requires HeapOk(chains, words, frees) && Has(chains, p, i) && b.base == chains[p][i].base
    ensures var chains' := chains[p := chains[p][i := b]]; var frees' := frees[b.base := fr];
            Live(chains', frees', a) <==> if IsSlot(b.base, ObjSize(p), a) then a !in fr else Live(chains, frees, a)
  {
    var chains' := chains[p := chains[p][i := b]];
    var frees' := frees[b.base := fr];
    assert BucketOk(words, chains[p][i], ObjSize(p), frees[b.base]);
    assert LiveIn(chains', frees', p, i, a) <==> IsSlot(b.base, ObjSize(p), a) && a !in fr;
    forall q: nat, j: nat | Has(chains, q, j) && (q != p || j != i)
      ensures LiveIn(chains', frees', q, j, a) <==> LiveIn(chains, frees, q, j, a)
      ensures LiveIn(chains, frees, q, j, a) ==> !IsSlot(b.base, ObjSize(p), a)
    {
      assert BucketOk(words, chains[q][j], ObjSize(q), frees[chains[q][j].base]);
      if IsSlot(chains[q][j].base, ObjSize(q), a) && IsSlot(b.base, ObjSize(p), a) {
        SlotBase(chains[q][j].base, ObjSize(q), a);
        SlotBase(b.base, ObjSize(p), a);
      }
    }
    if Live(chains', frees', a) {
      var q: nat, j: nat :| LiveIn(chains', frees', q, j, a);
      assert Has(chains, q, j);
      assert q == p && j == i ==> IsSlot(b.base, ObjSize(p), a);
    }
    if Live(chains, frees, a) && !IsSlot(b.base, ObjSize(p), a) {
      var q: nat, j: nat :| LiveIn(chains, frees, q, j, a);
      assert LiveIn(chains', frees', q, j, a);
    }
  }

  /** A bucket without live slots joins the chain of pool `p`. */
  lemma Joined(chains: Chains, words: Words, frees: Frees, p: nat, b: Bucket, words': Words)
    requires HeapOk(chains, words, frees) && p < POOLS && forall q: nat, j: nat :: Has(chains, q, j) ==> chains[q][j].base != b.base
    requires WritesIn(words, words', b.base) && BucketOk(words', b, ObjSize(p), Slots(b.base, ObjSize(p)))
    ensures var chains' := chains[p := chains[p] + [b]]; var frees' := frees[b.base := Slots(b.base, ObjSize(p))];
            HeapOk(chains', words', frees') && forall a :: Live(chains', frees', a) <==> Live(chains, frees, a)
  {
    var chains' := chains[p := chains[p] + [b]];
    var frees' := frees[b.base := Slots(b.base, ObjSize(p))];
    SlotSet(b.base, ObjSize(p));
    forall q: nat, j: nat | Has(chains', q, j)
      ensures chains'[q][j].base in frees' && BucketOk(words', chains'[q][j], ObjSize(q), frees'[chains'[q][j].base])
      ensures (Has(chains, q, j) && chains'[q][j] == chains[q][j]) || (q == p && j == |chains[p]| && chains'[q][j] == b)
    {
      if Has(chains, q, j) {
        OtherBucketKept(words, words', b.base, chains[q][j], ObjSize(q), frees[chains[q][j].base]);
      }
    }
    forall a ensures Live(chains', frees', a) <==> Live(chains, frees, a) {
      if Live(chains', frees', a) {
        var q: nat, j: nat :| LiveIn(chains', frees', q, j, a);
        assert LiveIn(chains, frees, q, j, a);
      }
      if Live(chains, frees, a) {
        var q: nat, j: nat :| LiveIn(chains, frees, q, j, a);
        assert LiveIn(chains', frees', q, j, a);
      }
    }
  }

  /** A bucket without live slots leaves its chain. */
  lemma Left(chains: Chains, words: Words, frees: Frees, p: nat, i: nat)
    requires HeapOk(chains, words, frees) && Has(chains, p, i) && chains[p][i].refCnt == 0
    ensures var chains' := chains[p := chains[p][..i] + chains[p][i + 1..]];
            HeapOk(chains', words, frees) && forall a :: Live(chains', frees, a) <==> Live(chains, frees, a)
  {
    hide Live, BucketOk;
    var c := chains[p];
    var chains' := chains[p := c[..i] + c[i + 1..]];
    forall q: nat, j: nat | Has(chains', q, j)
      ensures var j0 := if q == p && j >= i then j + 1 else j; Has(chains, q, j0) && chains'[q][j] == chains[q][j0]
    {
    }
    forall a ensures Live(chains', frees, a) <==> Live(chains, frees, a) {
      LiveLeft(chains, words, frees, p, i, a);
    }
  }

  lemma LiveLeft(chains: Chains, words: Words, frees: Frees, p: nat, i: nat, a: int)
    requires HeapOk(chains, words, frees) && Has(chains, p, i) && chains[p][i].refCnt == 0
    ensures Live(chains[p := chains[p][..i] + chains[p][i + 1..]], frees, a) <==> Live(chains, frees, a)
  {
    hide BucketOk;
    var chains' := chains[p := chains[p][..i] + chains[p][i + 1..]];
    var gone := chains[p][i];
    NoneLiveIff(words, gone, ObjSize(p), frees[gone.base]);
    if Live(chains', frees, a) {
      var q: nat, j: nat :| LiveIn(chains', frees, q, j, a);
      assert LiveIn(chains, frees, q, if q == p && j >= i then j + 1 else j, a);
    }
    if Live(chains, frees, a) {
      var q: nat, j: nat :| LiveIn(chains, frees, q, j, a);
      assert q != p || j != i;
      assert LiveIn(chains', frees, q, if q == p && j > i then j - 1 else j, a);
    }
  }

  ghost predicate NoneEmpty(chains: Chains) {
    forall p: nat, i: nat :: Has(chains, p, i) ==> chains[p][i].refCnt > 0
  }

  /** Taking the first free slot of a bucket. */
  lemma Taken(words: Words, b: Bucket, size: nat, fr: seq<int>)
    requires BucketOk(words, b, size, fr) && b.firstFree != 0
    ensures fr != [] && fr[0] == b.firstFree && b.firstFree in words
    ensures BucketOk(words, Bucket(b.base, b.refCnt + 1, words[b.firstFree]), size, fr[1..]) && b.firstFree !in fr[1..]
  {
  }

  /** Giving a live slot back. */
  lemma Given(words: Words, b: Bucket, size: nat, fr: seq<int>, a: int)
    requires BucketOk(words, b, size, fr) && IsSlot(b.base, size, a) && a !in fr
    ensures BucketOk(words[a := b.firstFree], Bucket(b.base, b.refCnt - 1, a), size, [a] + fr)
    ensures WritesIn(words, words[a := b.firstFree], b.base)
  {
    ChainHas(words, b.firstFree, fr);
    ChainKept(words, words[a := b.firstFree], b.firstFree, fr);
    assert ([a] + fr)[1..] == fr;
    SlotBase(b.base, size, a);
  }

  lemma FreshOk(words: Words, base: int, size: nat)
    requires 0 < base && base % BLOCK == 0 && 0 < size < BLOCK - HEADER
    requires forall x :: IsSlot(base, size, x) ==> x in words && words[x] == if x + size < base + BLOCK then x + size else 0
    ensures BucketOk(words, Bucket(base, 0, base + HEADER), size, Slots(base, size))
  {
    SlotSet(base, size);
    ChainOfSlots(words, base, size, base + HEADER);
  }

  ghost predicate Chained(chains: Chains, base: int) {
    exists p: nat, i: nat :: Has(chains, p, i) && chains[p][i].base == base
  }

  /** Pool `p` has a bucket at the block of `a`. */
  ghost predicate InPool(chains: Chains, p: nat, a: int) {
    exists i: nat :: Has(chains, p, i) && chains[p][i].base == BaseOf(a)
  }

  /** Another slot of the bucket of `a` is live. */
  ghost predicate OtherLive(chains: Chains, frees: Frees, a: int) {
    exists x :: x != a && BaseOf(x) == BaseOf(a) && Live(chains, frees, x)
  }

  /** ref_cnt will be zero exactly if no other slot of the bucket is live. */
  lemma LastIff(chains: Chains, words: Words, frees: Frees, p: nat, i: nat, a: int)
    requires HeapOk(chains, words, frees) && LiveIn(chains, frees, p, i, a)
    ensures var b := chains[p][i];
            && b.base == BaseOf(a) && a !in frees[b.base] && IsSlot(b.base, ObjSize(p), a)
            && (b.refCnt == 1 <==> !OtherLive(chains, frees, a))
  {
    var b := chains[p][i];
    var fr := frees[b.base];
    var size := ObjSize(p);
    SlotBase(b.base, size, a);
    Given(words, b, size, fr, a);
    NoneLiveIff(words[a := b.firstFree], Bucket(b.base, b.refCnt - 1, a), size, [a] + fr);
    if OtherLive(chains, frees, a) {
      var x :| x != a && BaseOf(x) == BaseOf(a) && Live(chains, frees, x);
      var q: nat, j: nat :| LiveIn(chains, frees, q, j, x);
      assert BucketOk(words, chains[q][j], ObjSize(q), frees[chains[q][j].base]);
      SlotBase(chains[q][j].base, ObjSize(q), x);
      assert q == p && j == i;
      assert x !in [a] + fr;
    }
    forall x | IsSlot(b.base, size, x) && x !in [a] + fr ensures OtherLive(chains, frees, a) {
      SlotBase(b.base, size, x);
      assert LiveIn(chains, frees, p, i, x);
      assert x != a;
    }
  }

  // ----- the heap as the program changes it -----

  class KernelHeap {
    var chains: Chains
    var words: Words
    ghost var frees: Frees

    /** heap_init. */
    constructor ()
      ensures HeapOk(chains, words, frees) && NoneEmpty(chains) && forall a :: !Live(chains, frees, a)
    {
      chains := seq(POOLS, _ => []);
      words, frees := map[], map[];
    }

    /** alloc_bucket: a new last bucket, at the address that mm_mmap has found. */
    method AllocBucket(p: nat, base: int)
      requires HeapOk(chains, words, frees) && p < POOLS && 0 < base && base % BLOCK == 0
      requires forall q: nat, j: nat :: Has(chains, q, j) ==> chains[q][j].base != base
      modifies this
      ensures HeapOk(chains, words, frees) && chains == old(chains)[p := old(chains)[p] + [Bucket(base, 0, base + HEADER)]]
      ensures forall a :: Live(chains, frees, a) <==> old(Live(chains, frees, a))
    {
      var size := ObjSize(p);
      var c := base + HEADER;
      ghost var before := words;
      FirstIsSlot(base, size);
      while c + size < base + BLOCK
        invariant IsSlot(base, size, c)
        invariant forall x :: IsSlot(base, size, x) && x < c ==> x in words && words[x] == x + size && x + size < base + BLOCK
        invariant forall x :: x in before && !IsSlot(base, size, x) ==> x in words && words[x] == before[x]
        invariant chains == old(chains) && frees == old(frees)
      {
        NextSlot(base, size, c);
        BackSlot(base, size, c);
        words := words[c := c + size];
        c := c + size;
      }
      NextSlot(base, size, c);
      words := words[c := 0];
      assert WritesIn(before, words, base) by {
        forall x | x in before && BaseOf(x) != base ensures !IsSlot(base, size, x) {
          if IsSlot(base, size, x) {
            SlotBase(base, size, x);
          }
        }
      }
      FreshOk(words, base, size);
      Joined(chains, before, frees, p, Bucket(base, 0, base + HEADER), words);
      frees := frees[base := Slots(base, size)];
      chains := chains[p := chains[p] + [Bucket(base, 0, base + HEADER)]];
    }

    /** kmalloc; `base` is where mm_mmap would put a new bucket. The result is a slot of the right
        size that was not live, and becomes the only new live one. */
    method Kmalloc(size: int, base: int) returns (r: int)
      requires HeapOk(chains, words, frees) && NoneEmpty(chains) && 0 < base && base % BLOCK == 0
      requires forall q: nat, j: nat :: Has(chains, q, j) ==> chains[q][j].base != base
      modifies this
      ensures HeapOk(chains, words, frees) && NoneEmpty(chains)
      ensures size > ObjSize(POOLS - 1) ==> r == 0 && chains == old(chains) && words == old(words)
      ensures size <= ObjSize(POOLS - 1) ==>
                && !old(Live(chains, frees, r)) && (forall a :: Live(chains, frees, a) <==> old(Live(chains, frees, a)) || a == r)
                && exists i: nat :: LiveIn(chains, frees, Pool(size), i, r)
    {
      var p := Pool(size);
      if p == POOLS {
        return 0;
      }
      var k := FindFree(p, base);
      r := TakeFrom(p, k);
      assert LiveIn(chains, frees, p, k, r);
    }

    /** Along the chain of pool `p` to a bucket with a free slot, which is a new one if need be. */
    method FindFree(p: nat, base: int) returns (k: nat)
      requires HeapOk(chains, words, frees) && NoneEmpty(chains) && p < POOLS && 0 < base && base % BLOCK == 0
      requires forall q: nat, j: nat :: Has(chains, q, j) ==> chains[q][j].base != base
      modifies this
      ensures HeapOk(chains, words, frees) && Has(chains, p, k) && chains[p][k].firstFree != 0
      ensures forall q: nat, j: nat :: Has(chains, q, j) && (q != p || j != k) ==> chains[q][j].refCnt > 0
      ensures forall a :: Live(chains, frees, a) <==> old(Live(chains, frees, a))
    {
      hide HeapOk, Live;
      assert |chains| == POOLS by { HeapSize(chains, words, frees); }
      ghost var added := false;
      if chains[p] == [] {
        AllocBucket(p, base);
        added := true;
      }
      k := 0;
      while chains[p][k].firstFree == 0
        invariant HeapOk(chains, words, frees) && Has(chains, p, k) && |chains| == POOLS
        invariant forall a :: Live(chains, frees, a) <==> old(Live(chains, frees, a))
        invariant if added then k + 1 == |chains[p]| && chains[p][k].firstFree == base + HEADER
                  else chains == old(chains)
        invariant forall q: nat, j: nat :: Has(chains, q, j) ==> chains[q][j].refCnt > 0 || (added && q == p && j == k)
        decreases if added then 0 else 1, |chains[p]| - k
      {
        if k + 1 == |chains[p]| {
          AllocBucket(p, base);
          added := true;
        }
        k := k + 1;
      }
    }

    static lemma HeapSize(chains: Chains, words: Words, frees: Frees)
      requires HeapOk(chains, words, frees)
      ensures |chains| == POOLS
    {
    }

    /** The first free slot of a bucket is handed out. */
    method TakeFrom(p: nat, k: nat) returns (r: int)
      requires HeapOk(chains, words, frees) && Has(chains, p, k) && chains[p][k].firstFree != 0
      requires forall q: nat, j: nat :: Has(chains, q, j) && (q != p || j != k) ==> chains[q][j].refCnt > 0
      modifies this
      ensures HeapOk(chains, words, frees) && NoneEmpty(chains)
      ensures !old(Live(chains, frees, r)) && (forall a :: Live(chains, frees, a) <==> old(Live(chains, frees, a)) || a == r)
      ensures LiveIn(chains, frees, p, k, r)
    {
      hide Live;
      var b := chains[p][k];
      ghost var fr := frees[b.base];
      assert BucketOk(words, b, ObjSize(p), fr);
      r := b.firstFree;
      Taken(words, b, ObjSize(p), fr);
      var b' := Bucket(b.base, b.refCnt + 1, words[r]);
      NoneLiveIff(words, b, ObjSize(p), fr);
      Updated(chains, words, frees, p, k, b', words, fr[1..]);
      LiveUpdated(chains, words, frees, p, k, b, fr, r);
      SameHeap(chains, frees, p, k);
      LiveUpdatedAll(chains, words, frees, p, k, fr);
      chains := chains[p := chains[p][k := b']];
      frees := frees[b.base := fr[1..]];
    }

    static lemma SameHeap(chains: Chains, frees: Frees, p: nat, k: nat)
      requires Has(chains, p, k) && chains[p][k].base in frees
      ensures chains[p := chains[p][k := chains[p][k]]] == chains && frees[chains[p][k].base := frees[chains[p][k].base]] == frees
    {
      assert chains[p][k := chains[p][k]] == chains[p];
    }

    /** The slots of a bucket are live exactly if they are not in its free list. */
    static lemma LiveUpdatedAll(chains: Chains, words: Words, frees: Frees, p: nat, k: nat, fr: seq<int>)
      requires HeapOk(chains, words, frees) && Has(chains, p, k) && chains[p][k].base in frees && fr == frees[chains[p][k].base]
      ensures forall a :: IsSlot(chains[p][k].base, ObjSize(p), a) ==> (Live(chains, frees, a) <==> a !in fr)
    {
      forall a | IsSlot(chains[p][k].base, ObjSize(p), a) ensures Live(chains, frees, a) <==> a !in fr {
        var b := chains[p][k];
        LiveUpdated(chains, words, frees, p, k, b, fr, a);
        SameHeap(chains, frees, p, k);
        assert chains[p := chains[p][k := b]] == chains && frees[b.base := fr] == frees;
      }
    }

    /** kfree: a live slot, given back with its right size, is not live any more, and no other is touched;
        its bucket leaves the chain exactly if it was the last one. Where the pool of the size has no
        bucket for the address, nothing happens. */
    method Kfree(a: int, size: int)
      requires HeapOk(chains, words, frees) && NoneEmpty(chains)
      requires InPool(chains, Pool(size), a) ==> exists i: nat :: LiveIn(chains, frees, Pool(size), i, a)
      modifies this
      ensures HeapOk(chains, words, frees) && NoneEmpty(chains)
      ensures !old(InPool(chains, Pool(size), a)) ==> chains == old(chains) && words == old(words) && frees == old(frees)
      ensures old(InPool(chains, Pool(size), a)) ==>
                && (forall x :: Live(chains, frees, x) <==> old(Live(chains, frees, x)) && x != a)
                && (Chained(chains, BaseOf(a)) <==> old(OtherLive(chains, frees, a)))
    {
      var p := Pool(size);
      if p == POOLS {
        return;
      }
      HeapSize(chains, words, frees);
      var i: nat := 0;
      while i < |chains[p]|
        invariant i <= |chains[p]| && forall j: nat :: j < i ==> chains[p][j].base != BaseOf(a)
      {
        if chains[p][i].base == BaseOf(a) {
          assert Has(chains, p, i);
          ghost var k: nat :| LiveIn(chains, frees, p, k, a);
          LiveBase(chains, words, frees, p, k, a);
          GiveBack(p, i, a);
          return;
        }
        i := i + 1;
      }
    }

    static lemma LiveBase(chains: Chains, words: Words, frees: Frees, p: nat, k: nat, a: int)
      requires HeapOk(chains, words, frees) && LiveIn(chains, frees, p, k, a)
      ensures chains[p][k].base == BaseOf(a)
      ensures forall i: nat :: Has(chains, p, i) && chains[p][i].base == BaseOf(a) ==> i == k
    {
      assert BucketOk(words, chains[p][k], ObjSize(p), frees[chains[p][k].base]);
      SlotBase(chains[p][k].base, ObjSize(p), a);
    }

    method GiveBack(p: nat, i: nat, a: int)
      requires HeapOk(chains, words, frees) && NoneEmpty(chains) && LiveIn(chains, frees, p, i, a)
      modifies this
      ensures HeapOk(chains, words, frees) && NoneEmpty(chains)
      ensures forall x :: Live(chains, frees, x) <==> old(Live(chains, frees, x)) && x != a
      ensures Chained(chains, BaseOf(a)) <==> old(OtherLive(chains, frees, a))
    {
      hide Live, OtherLive, Chained, BaseOf;
      LastIff(chains, words, frees, p, i, a);
      var b := chains[p][i];
      ghost var fr := frees[b.base];
      assert BucketOk(words, b, ObjSize(p), fr);
      Given(words, b, ObjSize(p), fr, a);
      var words' := words[a := b.firstFree];
      var b' := Bucket(b.base, b.refCnt - 1, a);
      Updated(chains, words, frees, p, i, b', words', [a] + fr);
      LiveUpdatedAll(chains, words, frees, p, i, fr);
      ghost var chains1 := chains[p := chains[p][i := b']];
      OnlyChained(chains1, words', frees[b.base := [a] + fr], p, i);
      words := words';
      chains := chains[p := chains[p][i := b']];
      frees := frees[b.base := [a] + fr];
      if b'.refCnt == 0 {
        Left(chains, words, frees, p, i);
        StillPositive(chains, p, i);
        chains := chains[p := chains[p][..i] + chains[p][i + 1..]];
      }
    }

    /** A bucket is chained as long as it is not taken out. */
    static lemma OnlyChained(chains: Chains, words: Words, frees: Frees, p: nat, i: nat)
      requires HeapOk(chains, words, frees) && Has(chains, p, i)
      ensures Chained(chains, chains[p][i].base)
      ensures !Chained(chains[p := chains[p][..i] + chains[p][i + 1..]], chains[p][i].base)
    {
      var r := chains[p := chains[p][..i] + chains[p][i + 1..]];
      forall q: nat, j: nat | Has(r, q, j) ensures r[q][j].base != chains[p][i].base {
        var j0 := if q == p && j >= i then j + 1 else j;
        assert Has(chains, q, j0) && r[q][j] == chains[q][j0];
      }
    }

    static lemma StillPositive(chains: Chains, p: nat, i: nat)
      requires Has(chains, p, i) && |chains| == POOLS
      requires forall q: nat, j: nat :: Has(chains, q, j) && (q != p || j != i) ==> chains[q][j].refCnt > 0
      ensures NoneEmpty(chains[p := chains[p][..i] + chains[p][i + 1..]])
    {
      var r := chains[p := chains[p][..i] + chains[p][i + 1..]];
      forall q: nat, j: nat | Has(r, q, j) ensures r[q][j].refCnt > 0 {
        var j0 := if q == p && j >= i then j + 1 else j;
        assert Has(chains, q, j0) && r[q][j] == chains[q][j0];
      }
    }
  }

  lemma BackSlot(base: int, size: nat, c: int)
    requires 0 < size && IsSlot(base, size, c)
    ensures forall x :: IsSlot(base, size, x) && x < c ==> x + size <= c
  {
    forall x | IsSlot(base, size, x) && x < c ensures x + size <= c {
      ModApart(x - base - HEADER, c - base - HEADER, size);
    }
  }
}
