/**
 The doubly linked wait lists of src/lib/list.h and futex_wake_requeue on them, in place.
 */
module WaitList {
  import opened Basics
  import opened WaitSpec

  /** struct futex_wait_block with its list node. */
  class Node {
    const thread: int
    var addr: int
    var prev: Node?
    var next: Node?

    constructor (thread: int, addr: int)
      ensures this.thread == thread && this.addr == addr
    {
      this.thread, this.addr, prev, next := thread, addr, null, null;
    }
  }

  class List {
    var head: Node?
    var tail: Node?

    /** list_init. */
    constructor ()
      ensures head == null && tail == null
      ensures Linked([])
    {
      head, tail := null, null;
    }

    /** The list consists of `ns`, linked both ways. */
    ghost predicate Linked(ns: seq<Node>)
      reads this, ns
    {
      && (forall i, j :: 0 <= i < j < |ns| ==> ns[i] != ns[j])
      && head == First(ns) && tail == Last(ns)
      && (forall i {:trigger ns[i].next} :: 0 <= i < |ns| ==> ns[i].next == After(ns, i))
      && (forall i {:trigger ns[i].prev} :: 0 <= i < |ns| ==> ns[i].prev == Before(ns, i))
    }

    /** list_add. */
    method Add(n: Node, ghost ns: seq<Node>)
      requires Linked(ns) && n !in ns
      modifies this, n`prev, n`next, (if ns == [] then {} else {Last(ns)})`next
      ensures Linked(ns + [n])
    {
      ghost var r := ns + [n];
      assert forall k :: 0 <= k < |r| ==> r[k] == if k < |ns| then ns[k] else n;
      if tail != null {
        assert ns[|ns| - 1] == tail;
        n.prev := tail;
        n.next := null;
        tail.next := n;
        tail := n;
      } else {
        n.prev, n.next := null, null;
        head := n;
        tail := n;
      }
    }

    /** list_head, or list_next of the block before. */
    method Behind(prev: Node?, ghost ns: seq<Node>, ghost j: nat) returns (r: Node?)
      requires Linked(ns) && j <= |ns| && prev == (if j == 0 then null else ns[j - 1])
      ensures r == if j < |ns| then ns[j] else null
    {
      r := if prev == null then head else prev.next;
    }

    /** list_remove; the links of the node itself stay as they are. */
    method Remove(n: Node, ghost ns: seq<Node>, ghost i: nat)
      requires Linked(ns) && i < |ns| && ns[i] == n
      modifies this, (if i > 0 then {ns[i - 1]} else {})`next, (if i + 1 < |ns| then {ns[i + 1]} else {})`prev
      ensures Linked(ns[..i] + ns[i + 1..])
      ensures n.next == old(n.next)
    {
      assert ns[i].prev == Before(ns, i) && ns[i].next == After(ns, i);
      ghost var r := ns[..i] + ns[i + 1..];
      Taken(ns, i);
      if head == n {
        head := n.next;
      }
      if tail == n {
        tail := n.prev;
      }
      if n.prev != null {
        n.prev.next := n.next;
      }
      if n.next != null {
        n.next.prev := n.prev;
      }
      forall k | 0 <= k < |r| ensures r[k].next == After(r, k) && r[k].prev == Before(r, k) {
        var j := if k < i then k else k + 1;
        assert r[k] == ns[j] && old(ns[j].next) == After(ns, j) && old(ns[j].prev) == Before(ns, j);
      }
    }
  }

  lemma Taken(ns: seq<Node>, i: nat)
    requires i < |ns| && forall j, k :: 0 <= j < k < |ns| ==> ns[j] != ns[k]
    ensures var r := ns[..i] + ns[i + 1..];
            && (forall k :: 0 <= k < |r| ==> r[k] == if k < i then ns[k] else ns[k + 1])
            && (forall j, k :: 0 <= j < k < |r| ==> r[j] != r[k])
            && First(r) == (if i == 0 then After(ns, 0) else ns[0])
            && Last(r) == (if i + 1 == |ns| then Before(ns, i) else ns[|ns| - 1])
  {
  }

  function Before(ns: seq<Node>, i: int): Node?
    requires 0 <= i < |ns|
  {
    if i > 0 then ns[i - 1] else null
  }

  function After(ns: seq<Node>, i: int): Node?
    requires 0 <= i < |ns|
  {
    if i + 1 < |ns| then ns[i + 1] else null
  }

  function First(ns: seq<Node>): Node? {
    if ns == [] then null else ns[0]
  }

  function Last(ns: seq<Node>): Node? {
    if ns == [] then null else ns[|ns| - 1]
  }

  /** The wait blocks as values. */
  ghost function View(ns: seq<Node>): seq<Waiter<Node>>
    reads ns
  {
    seq(|ns|, i requires 0 <= i < |ns| reads ns => Waiter(ns[i], ns[i].addr))
  }

  /** Taking a block out of a list, or putting one behind it, does the same to the view. */
  lemma ViewWithout(ns: seq<Node>, i: nat)
    requires i < |ns|
    ensures View(ns[..i] + ns[i + 1..]) == View(ns)[..i] + View(ns)[i + 1..]
  {
    var r := ns[..i] + ns[i + 1..];
    assert forall k :: 0 <= k < |r| ==> r[k] == if k < i then ns[k] else ns[k + 1];
  }

  lemma ViewWith(ns: seq<Node>, n: Node)
    ensures View(ns + [n]) == View(ns) + [Waiter(n, n.addr)]
  {
  }

  function NodesOf(ws: seq<Waiter<Node>>): seq<Node> {
    seq(|ws|, i requires 0 <= i < |ws| => ws[i].id)
  }

  const EAGAIN := -11

  /** futex_wake_requeue under its locks: `l1` is the list of the bucket of `addr`, `l2` that of the
      bucket of the requeue address if it is another one; `word` is the value at `addr` and `expected`
      the one that a requeue may compare it with. The threads of `woken` have their events set, in this
      order. */
  method WakeRequeue(word: int, expected: Option<int>, l1: List, l2: List?, addr: int, count: int, rq: Option<int>, ghost ns1: seq<Node>, ghost ns2: seq<Node>)
    returns (n: int, woken: seq<Node>, ghost ms1: seq<Node>, ghost ms2: seq<Node>)
    requires l1.Linked(ns1) && (forall x :: x in ns1 ==> x !in ns2)
    requires if l2 == null then ns2 == [] else l2 != l1 && rq.Some? && l2.Linked(ns2)
    modifies l1, l2, ns1, ns2
    ensures l1.Linked(ms1) && (l2 != null ==> l2.Linked(ms2))
    ensures rq.Some? && expected.Some? && word != expected.value ==>
              n == EAGAIN && woken == [] && ms1 == ns1 && ms2 == ns2 && View(ms1) == old(View(ns1)) && View(ms2) == old(View(ns2))
    ensures !(rq.Some? && expected.Some? && word != expected.value) ==>
              var o := Scan(old(View(ns1)), addr, count, rq, l2 == null, 0);
              && View(ms1) == o.kept && (l2 != null ==> View(ms2) == old(View(ns2)) + o.moved)
              && woken == NodesOf(o.woken) && n == |woken|
  {
    if rq.Some? && expected.Some? && word != expected.value {
      return EAGAIN, [], ns1, ns2;
    }
    n, woken, ms1, ms2 := WakeScan(l1, l2, addr, count, rq, ns1, ns2);
  }

  /** The loop over the wait list. */
  method WakeScan(l1: List, l2: List?, addr: int, count: int, rq: Option<int>, ghost ns1: seq<Node>, ghost ns2: seq<Node>)
    returns (n: int, woken: seq<Node>, ghost ms1: seq<Node>, ghost ms2: seq<Node>)
    requires l1.Linked(ns1) && (forall x :: x in ns1 ==> x !in ns2)
    requires if l2 == null then ns2 == [] else l2 != l1 && rq.Some? && l2.Linked(ns2)
    modifies l1, l2, ns1, ns2
    ensures var o := Scan(old(View(ns1)), addr, count, rq, l2 == null, 0);
            && l1.Linked(ms1) && View(ms1) == o.kept
            && (l2 != null ==> l2.Linked(ms2) && View(ms2) == old(View(ns2)) + o.moved)
            && woken == NodesOf(o.woken) && n == |woken|
  {
    hide OnTheWay, Scan, List.Linked, Apart, Within, View;
    n, woken, ms1, ms2 := 0, [], ns1, ns2;
    ghost var j: nat, mv: seq<Waiter<Node>>, wk: seq<Waiter<Node>> := 0, [], [];
    ghost var o := Scan(View(ns1), addr, count, rq, l2 == null, 0);
    ScanStarts(View(ns1), addr, count, rq, l2 == null);
    StartsApart(ns1, ns2);
    var prev: Node? := null;
    while true
      invariant l1.Linked(ms1) && j <= |ms1| && prev == (if j == 0 then null else ms1[j - 1])
      invariant (l2 != null ==> l2.Linked(ms2)) && Apart(ms1, ms2) && Within(ms1, ms2, ns1, ns2)
      invariant View(ms2) == old(View(ns2)) + mv
      invariant OnTheWay(o, View(ms1), j, mv, wk, addr, count, rq, l2 == null, n)
      invariant woken == NodesOf(wk) && n == |woken|
      decreases |ms1| - j
    {
      ghost var vs := View(ms1);
      ViewAt(ms1);
      if rq.None? && n == count {
        ScanStops(o, vs, j, mv, wk, addr, count, rq, l2 == null, n);
        break;
      }
      var link := l1.Behind(prev, ms1, j);
      if link == null {
        ScanStops(o, vs, j, mv, wk, addr, count, rq, l2 == null, n);
        break;
      }
      var cur: Node := link;
      InFootprint(ms1, ms2, ns1, ns2, j);
      if cur.addr != addr {
        ScanPasses(o, vs, j, mv, wk, addr, count, rq, l2 == null, n);
        prev, j := cur, j + 1;
      } else if n == count && rq.Some? {
        if l2 == null {
          ScanPasses(o, vs, j, mv, wk, addr, count, rq, true, n);
          Readdress(cur, rq.value, l1, ms1, ms2, j);
          prev, j := cur, j + 1;
        } else {
          ScanTakes(o, vs, j, mv, wk, addr, count, rq, false, n);
          Move(cur, rq.value, l1, l2, ms1, ms2, j);
          StillApart(ms1, ms2, ns1, ns2, j);
          ms1, ms2 := ms1[..j] + ms1[j + 1..], ms2 + [cur];
          mv := mv + [Waiter(cur, rq.value)];
        }
      } else {
        ScanTakes(o, vs, j, mv, wk, addr, count, rq, l2 == null, n);
        Take(cur, l1, l2, ms1, ms2, j);
        StillApart(ms1, ms2, ns1, ns2, j);
        ms1 := ms1[..j] + ms1[j + 1..];
        wk := wk + [Waiter(cur, addr)];
        woken := woken + [cur];
        n := n + 1;
      }
    }
  }

  // ----- footprints -----

  ghost predicate Apart(ms1: seq<Node>, ms2: seq<Node>) {
    forall x :: x in ms1 ==> x !in ms2
  }

  /** Blocks only go from the first list to the second. */
  ghost predicate Within(ms1: seq<Node>, ms2: seq<Node>, ns1: seq<Node>, ns2: seq<Node>) {
    (forall x :: x in ms1 ==> x in ns1) && (forall x :: x in ms2 ==> x in ns1 || x in ns2)
  }

  lemma StartsApart(ns1: seq<Node>, ns2: seq<Node>)
    requires forall x :: x in ns1 ==> x !in ns2
    ensures Apart(ns1, ns2) && Within(ns1, ns2, ns1, ns2)
  {
  }

  lemma StillApart(ms1: seq<Node>, ms2: seq<Node>, ns1: seq<Node>, ns2: seq<Node>, j: nat)
    requires Apart(ms1, ms2) && Within(ms1, ms2, ns1, ns2) && j < |ms1| && forall i, k :: 0 <= i < k < |ms1| ==> ms1[i] != ms1[k]
    ensures var r := ms1[..j] + ms1[j + 1..];
            Apart(r, ms2) && Apart(r, ms2 + [ms1[j]]) && Within(r, ms2, ns1, ns2) && Within(r, ms2 + [ms1[j]], ns1, ns2)
  {
    var r := ms1[..j] + ms1[j + 1..];
    assert forall x :: x in r ==> x in ms1;
    assert forall k :: 0 <= k < |r| ==> r[k] == ms1[if k < j then k else k + 1];
  }

  lemma ViewAt(ns: seq<Node>)
    ensures |View(ns)| == |ns| && forall i :: 0 <= i < |ns| ==> View(ns)[i] == Waiter(ns[i], ns[i].addr)
  {
  }

  /** What the list operations write belongs to the lists that were there from the start. */
  lemma InFootprint(ms1: seq<Node>, ms2: seq<Node>, ns1: seq<Node>, ns2: seq<Node>, j: nat)
    requires Within(ms1, ms2, ns1, ns2) && j < |ms1|
    ensures ms1[j] in ns1 && (j > 0 ==> ms1[j - 1] in ns1) && (j + 1 < |ms1| ==> ms1[j + 1] in ns1)
    ensures ms2 != [] ==> Last(ms2) in ns1 || Last(ms2) in ns2
  {
  }

  /** The wait block gets the requeue address and stays where it is. */
  method Readdress(cur: Node, to: int, l: List, ghost ns: seq<Node>, ghost ms: seq<Node>, ghost j: nat)
    requires l.Linked(ns) && j < |ns| && ns[j] == cur && Apart(ns, ms)
    modifies cur`addr
    ensures l.Linked(ns) && View(ns) == old(View(ns))[j := Waiter(cur, to)] && View(ms) == old(View(ms))
  {
    assert cur in ns && cur !in ms;
    cur.addr := to;
    assert View(ms) == old(View(ms));
  }

  /** The wait block leaves its list. */
  method Take(cur: Node, l1: List, l2: List?, ghost ns1: seq<Node>, ghost ns2: seq<Node>, ghost j: nat)
    requires l1 != l2 && l1.Linked(ns1) && (l2 != null ==> l2.Linked(ns2)) && j < |ns1| && ns1[j] == cur && Apart(ns1, ns2)
    modifies l1, (if j > 0 then {ns1[j - 1]} else {})`next, (if j + 1 < |ns1| then {ns1[j + 1]} else {})`prev
    ensures l1.Linked(ns1[..j] + ns1[j + 1..]) && View(ns1[..j] + ns1[j + 1..]) == old(View(ns1))[..j] + old(View(ns1))[j + 1..]
    ensures (l2 != null ==> l2.Linked(ns2)) && View(ns2) == old(View(ns2))
    ensures forall i, k :: 0 <= i < k < |ns1| ==> ns1[i] != ns1[k]
  {
    ViewWithout(ns1, j);
    ghost var r := ns1[..j] + ns1[j + 1..];
    InFootprint(ns1, [], ns1, [], j);
    l1.Remove(cur, ns1, j);
    assert View(r) == old(View(r));
    assert View(ns2) == old(View(ns2));
  }

  /** The wait block gets the requeue address and goes to the end of the other list. */
  method Move(cur: Node, to: int, l1: List, l2: List, ghost ns1: seq<Node>, ghost ns2: seq<Node>, ghost j: nat)
    requires l1 != l2 && l1.Linked(ns1) && l2.Linked(ns2) && j < |ns1| && ns1[j] == cur && Apart(ns1, ns2)
    modifies l1, l2, cur, (if j > 0 then {ns1[j - 1]} else {})`next, (if j + 1 < |ns1| then {ns1[j + 1]} else {})`prev
    modifies (if ns2 == [] then {} else {Last(ns2)})`next
    ensures l1.Linked(ns1[..j] + ns1[j + 1..]) && View(ns1[..j] + ns1[j + 1..]) == old(View(ns1))[..j] + old(View(ns1))[j + 1..]
    ensures l2.Linked(ns2 + [cur]) && View(ns2 + [cur]) == old(View(ns2)) + [Waiter(cur, to)]
    ensures forall i, k :: 0 <= i < k < |ns1| ==> ns1[i] != ns1[k]
  {
    hide List.Linked;
    ghost var r := ns1[..j] + ns1[j + 1..];
    Take(cur, l1, l2, ns1, ns2, j);
    StillApart(ns1, ns2, ns1, ns2, j);
    assert cur !in r && cur !in ns2;
    assert ns2 != [] ==> Last(ns2) in ns2 && Last(ns2) !in r;
    Append(cur, to, l1, l2, r, ns2);
  }

  method Append(cur: Node, to: int, l1: List, l2: List, ghost r: seq<Node>, ghost ns2: seq<Node>)
    requires l1 != l2 && l1.Linked(r) && l2.Linked(ns2) && cur !in r && cur !in ns2 && Apart(r, ns2)
    modifies l2, cur, (if ns2 == [] then {} else {Last(ns2)})`next
    ensures l1.Linked(r) && View(r) == old(View(r)) && l2.Linked(ns2 + [cur]) && View(ns2 + [cur]) == old(View(ns2)) + [Waiter(cur, to)]
  {
    hide List.Linked;
    assert ns2 != [] ==> Last(ns2) in ns2 && Last(ns2) !in r;
    cur.addr := to;
    assert View(ns2) == old(View(ns2));
    ViewWith(ns2, cur);
    l2.Add(cur, ns2);
    assert View(ns2 + [cur]) == old(View(ns2)) + [Waiter(cur, to)];
  }
}
