/**
 What futex_wake_requeue does to the waiters of a bucket (src/syscall/futex.c), as a function on
 the sequence of wait blocks, and what that means for the waiters.
 */
module WaitSpec {
  import opened Basics

  datatype Waiter<T> = Waiter(id: T, addr: int)

  /** What is left of the list, what has gone to the other bucket, and who was woken, in order. */
  datatype Outcome<T> = Outcome(kept: seq<Waiter<T>>, moved: seq<Waiter<T>>, woken: seq<Waiter<T>>)

  /** The scan of futex_wake_requeue, `n` waiters having been woken already; `same` tells that the
      two addresses share a bucket. */
  function Scan<T>(ws: seq<Waiter<T>>, addr: int, count: int, rq: Option<int>, same: bool, n: int): Outcome<T> {
    if ws == [] || (rq.None? && n == count) then Outcome(ws, [], [])
    else
      var w := ws[0];
      if w.addr != addr then
        var o := Scan(ws[1..], addr, count, rq, same, n);
        o.(kept := [w] + o.kept)
      else if n == count && rq.Some? then
        var o := Scan(ws[1..], addr, count, rq, same, n);
        if same then o.(kept := [w.(addr := rq.value)] + o.kept) else o.(moved := [w.(addr := rq.value)] + o.moved)
      else
        var o := Scan(ws[1..], addr, count, rq, same, n + 1);
        o.(woken := [w] + o.woken)
  }

  // ----- reference definitions -----

  /** The waiters on `addr`, in order. */
  function On<T>(ws: seq<Waiter<T>>, addr: int): seq<Waiter<T>> {
    if ws == [] then []
    else if ws[0].addr == addr then [ws[0]] + On(ws[1..], addr)
    else On(ws[1..], addr)
  }

  /** The waiters that are not on `addr`, in order. */
  function NotOn<T>(ws: seq<Waiter<T>>, addr: int): seq<Waiter<T>> {
    if ws == [] then []
    else if ws[0].addr != addr then [ws[0]] + NotOn(ws[1..], addr)
    else NotOn(ws[1..], addr)
  }

  function Readdressed<T>(ws: seq<Waiter<T>>, addr: int): seq<Waiter<T>> {
    if ws == [] then [] else [ws[0].(addr := addr)] + Readdressed(ws[1..], addr)
  }

  /** All but the first `k` waiters on `addr` get address `to`; the first `k` are taken out. */
  function Rest<T>(ws: seq<Waiter<T>>, addr: int, k: nat, to: int): seq<Waiter<T>> {
    if ws == [] then []
    else if ws[0].addr != addr then [ws[0]] + Rest(ws[1..], addr, k, to)
    else if k > 0 then Rest(ws[1..], addr, k - 1, to)
    else [ws[0].(addr := to)] + Rest(ws[1..], addr, 0, to)
  }

  /** How many are woken: a negative limit is none. */
  function Limit<T>(ws: seq<Waiter<T>>, addr: int, left: int): nat {
    if 0 <= left <= |On(ws, addr)| then left else |On(ws, addr)|
  }

  /** Exactly the first min(count, number of waiters) waiters on `addr` are woken, in the order in
      which they came; without requeue the others stay untouched, and with requeue they go, in order,
      to the new address. Waiters on other addresses are not touched. */
  lemma {:induction false} ScanExact<T>(ws: seq<Waiter<T>>, addr: int, count: int, rq: Option<int>, same: bool, n: int)
    requires n <= count || count < 0 <= n
    ensures var o := Scan(ws, addr, count, rq, same, n); var k := Limit(ws, addr, count - n);
            && o.woken == On(ws, addr)[..k]
            && (if rq.None? then o.kept == Rest(ws, addr, k, addr) && o.moved == []
                else if same then o.kept == Rest(ws, addr, k, rq.value) && o.moved == []
                else o.kept == NotOn(ws, addr) && o.moved == Readdressed(On(ws, addr)[k..], rq.value))
  {
    if ws == [] {
    } else if rq.None? && n == count {
      RestOfNone(ws, addr);
    } else if ws[0].addr != addr {
      ScanExact(ws[1..], addr, count, rq, same, n);
    } else if n == count && rq.Some? {
      ScanExact(ws[1..], addr, count, rq, same, n);
      assert On(ws, addr)[0..] == [ws[0]] + On(ws[1..], addr)[0..];
    } else {
      ScanExact(ws[1..], addr, count, rq, same, n + 1);
      var k := Limit(ws, addr, count - n);
      assert On(ws, addr)[..k] == [ws[0]] + On(ws[1..], addr)[..k - 1];
      assert On(ws, addr)[k..] == On(ws[1..], addr)[k - 1..];
    }
  }

  lemma {:induction false} RestOfNone<T>(ws: seq<Waiter<T>>, addr: int)
    ensures Rest(ws, addr, 0, addr) == ws
  {
    if ws != [] {
      RestOfNone(ws[1..], addr);
    }
  }

  // ----- consequences -----

  /** After a requeue no waiter is left on `addr`, unless it was requeued to `addr` itself. */
  lemma {:induction false} RequeueEmpties<T>(ws: seq<Waiter<T>>, addr: int, k: nat, to: int)
    ensures to != addr ==> On(Rest(ws, addr, k, to), addr) == []
    ensures to == addr ==> On(Rest(ws, addr, k, to), addr) == On(ws, addr)[if k <= |On(ws, addr)| then k else |On(ws, addr)|..]
    ensures On(NotOn(ws, addr), addr) == []
  {
    if ws != [] {
      var first := ws[0];
      if first.addr != addr {
        RequeueEmpties(ws[1..], addr, k, to);
      } else if k > 0 {
        RequeueEmpties(ws[1..], addr, k - 1, to);
      } else {
        RequeueEmpties(ws[1..], addr, 0, to);
        RestOfMoved(ws, addr, to);
      }
      OnCons(first, Rest(ws[1..], addr, k, to), addr);
      OnCons(first, NotOn(ws[1..], addr), addr);
    }
  }

  lemma RestOfMoved<T>(ws: seq<Waiter<T>>, addr: int, to: int)
    requires ws != [] && ws[0].addr == addr
    ensures On(Rest(ws, addr, 0, to), addr) == (if to == addr then [ws[0]] else []) + On(Rest(ws[1..], addr, 0, to), addr)
  {
    OnCons(ws[0].(addr := to), Rest(ws[1..], addr, 0, to), addr);
  }

  lemma OnCons<T>(w: Waiter<T>, ws: seq<Waiter<T>>, addr: int)
    ensures On([w] + ws, addr) == (if w.addr == addr then [w] else []) + On(ws, addr)
    ensures NotOn([w] + ws, addr) == (if w.addr != addr then [w] else []) + NotOn(ws, addr)
  {
    assert ([w] + ws)[1..] == ws;
  }

  function Ids<T>(ws: seq<Waiter<T>>): multiset<T> {
    if ws == [] then multiset{} else multiset{ws[0].id} + Ids(ws[1..])
  }

  /** Every wait block is kept, moved or woken, and each exactly once. */
  lemma {:induction false} ScanConserves<T>(ws: seq<Waiter<T>>, addr: int, count: int, rq: Option<int>, same: bool, n: int)
    ensures var o := Scan(ws, addr, count, rq, same, n); Ids(o.kept) + Ids(o.moved) + Ids(o.woken) == Ids(ws)
  {
    hide Ids, Scan;
    ScanUnfolds(ws, addr, count, rq, same, n);
    IdsNone<T>();
    if ws != [] && !(rq.None? && n == count) {
      var w := ws[0];
      var n' := if w.addr == addr && !(n == count && rq.Some?) then n + 1 else n;
      var o := Scan(ws[1..], addr, count, rq, same, n');
      ScanConserves(ws[1..], addr, count, rq, same, n');
      var v := if w.addr == addr && n == count && rq.Some? then w.(addr := rq.value) else w;
      IdsCons(v, o.kept);
      IdsCons(v, o.moved);
      IdsCons(v, o.woken);
      IdsCons(w, ws[1..]);
      assert [w] + ws[1..] == ws;
    }
  }

  lemma ScanUnfolds<T>(ws: seq<Waiter<T>>, addr: int, count: int, rq: Option<int>, same: bool, n: int)
    ensures ws == [] || (rq.None? && n == count) ==> Scan(ws, addr, count, rq, same, n) == Outcome(ws, [], [])
    ensures ws != [] && !(rq.None? && n == count) ==>
              var w := ws[0]; var o := Scan(ws, addr, count, rq, same, n);
              if w.addr != addr then
                var r := Scan(ws[1..], addr, count, rq, same, n); o == r.(kept := [w] + r.kept)
              else if n == count && rq.Some? then
                var r := Scan(ws[1..], addr, count, rq, same, n); var v := w.(addr := rq.value);
                o == if same then r.(kept := [v] + r.kept) else r.(moved := [v] + r.moved)
              else
                var r := Scan(ws[1..], addr, count, rq, same, n + 1); o == r.(woken := [w] + r.woken)
  {
  }

  lemma IdsNone<T>()
    ensures Ids<T>([]) == multiset{}
  {
  }

  lemma IdsCons<T>(w: Waiter<T>, ws: seq<Waiter<T>>)
    ensures Ids([w] + ws) == multiset{w.id} + Ids(ws)
  {
    assert ([w] + ws)[1..] == ws;
  }

  // ----- the scan, one block at a time -----

  /** With `j` blocks passed, `mv` moved and `wk` woken, the rest of the scan makes `o` of it. */
  ghost predicate OnTheWay<T>(o: Outcome<T>, vs: seq<Waiter<T>>, j: nat, mv: seq<Waiter<T>>, wk: seq<Waiter<T>>,
                              addr: int, count: int, rq: Option<int>, same: bool, n: int)
  {
    && j <= |vs|
    && var r := Scan(vs[j..], addr, count, rq, same, n);
       o.kept == vs[..j] + r.kept && o.moved == mv + r.moved && o.woken == wk + r.woken
  }

  lemma ScanStarts<T>(vs: seq<Waiter<T>>, addr: int, count: int, rq: Option<int>, same: bool)
    ensures OnTheWay(Scan(vs, addr, count, rq, same, 0), vs, 0, [], [], addr, count, rq, same, 0)
  {
    assert vs[0..] == vs;
  }

  lemma ScanStops<T>(o: Outcome<T>, vs: seq<Waiter<T>>, j: nat, mv: seq<Waiter<T>>, wk: seq<Waiter<T>>,
                     addr: int, count: int, rq: Option<int>, same: bool, n: int)
    requires OnTheWay(o, vs, j, mv, wk, addr, count, rq, same, n) && (j == |vs| || (rq.None? && n == count))
    ensures o == Outcome(vs, mv, wk)
  {
    assert vs[..j] + vs[j..] == vs;
  }

  lemma ScanPasses<T>(o: Outcome<T>, vs: seq<Waiter<T>>, j: nat, mv: seq<Waiter<T>>, wk: seq<Waiter<T>>,
                      addr: int, count: int, rq: Option<int>, same: bool, n: int)
    requires OnTheWay(o, vs, j, mv, wk, addr, count, rq, same, n) && j < |vs| && !(rq.None? && n == count)
    ensures vs[j].addr != addr ==> OnTheWay(o, vs, j + 1, mv, wk, addr, count, rq, same, n)
    ensures vs[j].addr == addr && n == count && rq.Some? && same ==>
              OnTheWay(o, vs[j := vs[j].(addr := rq.value)], j + 1, mv, wk, addr, count, rq, same, n)
  {
    assert vs[j..][1..] == vs[j + 1..] && vs[j..][0] == vs[j];
    assert vs[..j + 1] == vs[..j] + [vs[j]];
    if vs[j].addr == addr && rq.Some? {
      var vs' := vs[j := vs[j].(addr := rq.value)];
      assert vs'[j + 1..] == vs[j + 1..] && vs'[..j + 1] == vs[..j] + [vs'[j]];
    }
  }

  lemma ScanTakes<T>(o: Outcome<T>, vs: seq<Waiter<T>>, j: nat, mv: seq<Waiter<T>>, wk: seq<Waiter<T>>,
                     addr: int, count: int, rq: Option<int>, same: bool, n: int)
    requires OnTheWay(o, vs, j, mv, wk, addr, count, rq, same, n) && j < |vs| && !(rq.None? && n == count) && vs[j].addr == addr
    ensures var vs' := vs[..j] + vs[j + 1..];
            if n == count && rq.Some? then
              !same ==> OnTheWay(o, vs', j, mv + [vs[j].(addr := rq.value)], wk, addr, count, rq, same, n)
            else OnTheWay(o, vs', j, mv, wk + [vs[j]], addr, count, rq, same, n + 1)
  {
    var vs' := vs[..j] + vs[j + 1..];
    assert vs[j..][1..] == vs[j + 1..] && vs[j..][0] == vs[j];
    assert vs'[..j] == vs[..j] && vs'[j..] == vs[j + 1..];
  }
}
