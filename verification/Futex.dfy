/**
 The futex of src/syscall/futex.c as interleaved steps of any number of threads: bucket spin
 locks, wait blocks on the waiters' stacks, and auto-reset events. Requeueing stays within one
 bucket here.
 */
module Futex {
  import opened Basics

  const BUCKETS := 256

  function Bucket(addr: int): int {
    addr % BUCKETS
  }

  /** A wait block: the thread that owns it, the address it waits on, the value it compared, and
      whether it has been requeued. */
  datatype Block = Block(tid: nat, addr: int, val: int, moved: bool)

  const EINTR := -4
  const ETIMEDOUT := -110

  /** Where a thread is. Idle: outside, with the result of its last call; W: in futex_wait up to
      signal_wait; G: in futex_wait after signal_wait gave up, and why; K: in futex_wake_requeue. */
  datatype Phase =
    | Idle(result: int)
    | WLock(addr: int, val: int)
    | WHeld(addr: int, val: int)
    | WChecked(addr: int, val: int)
    | WAdded(addr: int, val: int)
    | WSkip(addr: int)
    | Asleep(addr: int, val: int)
    | Gone(addr: int, val: int, why: int)
    | GHeld(addr: int, val: int, why: int)
    | GDone(addr: int, why: int)
    | KLock(addr: int, count: int, rq: Option<int>)
    | KScan(addr: int, count: int, rq: Option<int>, i: nat, n: nat)
    | KNotify(addr: int, count: int, rq: Option<int>, i: nat, n: nat, victim: nat)
    | KDone(addr: int, n: nat)

  datatype State = State(
    words: int -> int,
    locks: map<int, nat>,          // a bucket that is locked, by its holder
    lists: map<int, seq<Block>>,
    events: set<nat>,              // threads whose wait event is set
    phases: map<nat, Phase>)

  function List(s: State, b: int): seq<Block> {
    if b in s.lists then s.lists[b] else []
  }

  // ----- steps -----

  datatype Action =
    | StartWait(tid: nat, addr: int, val: int)
    | StartWake(tid: nat, addr: int, count: int, rq: Option<int>)
    | Lock(tid: nat)
    | Check(tid: nat)
    | Append(tid: nat)
    | Unlock(tid: nat)
    | WakeUp(tid: nat)
    | GiveUp(tid: nat, why: int)
    | Recheck(tid: nat)
    | Scan(tid: nat)
    | Notify(tid: nat)
    | Change(tid: nat, addr: int, v: int)

  predicate Enabled(s: State, a: Action) {
    && a.tid in s.phases
    && var ph := s.phases[a.tid];
       match a
       case StartWait(_, _, _) => ph.Idle?
       case StartWake(_, addr, _, rq) => ph.Idle? && (rq.Some? ==> Bucket(rq.value) == Bucket(addr))
       case Lock(_) => (ph.WLock? || ph.Gone? || ph.KLock?) && Bucket(ph.addr) !in s.locks
       case Check(_) => ph.WHeld?
       case Append(_) => ph.WChecked?
       case Unlock(_) => ph.WSkip? || ph.WAdded? || ph.GDone? || ph.KDone?
       case WakeUp(t) => ph.Asleep? && t in s.events
       case GiveUp(_, why) => ph.Asleep? && why in {EINTR, ETIMEDOUT}
       case Recheck(_) => ph.GHeld?
       case Scan(_) => ph.KScan?
       case Notify(_) => ph.KNotify?
       case Change(_, _, _) => true
  }

  function Goto(s: State, t: nat, ph: Phase): State {
    s.(phases := s.phases[t := ph])
  }

  function WithList(s: State, b: int, l: seq<Block>): State {
    s.(lists := s.lists[b := l])
  }

  /** list_remove of the block of `t`, if it is there. */
  function Drop(l: seq<Block>, t: nat): seq<Block> {
    if l == [] then []
    else if l[0].tid == t then l[1..]
    else [l[0]] + Drop(l[1..], t)
  }

  function ScanStep(s: State, t: nat): State
    requires t in s.phases && s.phases[t].KScan?
  {
    var ph := s.phases[t];
    var b := Bucket(ph.addr);
    var l := List(s, b);
    if (ph.rq.None? && ph.n == ph.count) || ph.i >= |l| then Goto(s, t, KDone(ph.addr, ph.n))
    else if l[ph.i].addr != ph.addr then Goto(s, t, KScan(ph.addr, ph.count, ph.rq, ph.i + 1, ph.n))
    else if ph.n == ph.count && ph.rq.Some? then
      Goto(WithList(s, b, l[ph.i := l[ph.i].(addr := ph.rq.value, moved := true)]), t, KScan(ph.addr, ph.count, ph.rq, ph.i + 1, ph.n))
    else
      Goto(WithList(s, b, l[..ph.i] + l[ph.i + 1..]), t, KNotify(ph.addr, ph.count, ph.rq, ph.i, ph.n, l[ph.i].tid))
  }

  function Apply(s: State, a: Action): State
    requires Enabled(s, a)
  {
    var ph := s.phases[a.tid];
    match a
    case StartWait(t, addr, val) => Goto(s, t, WLock(addr, val))
    case StartWake(t, addr, count, rq) => Goto(s, t, KLock(addr, count, rq))
    case Lock(t) =>
      Goto(s.(locks := s.locks[Bucket(ph.addr) := t]), t,
           if ph.WLock? then WHeld(ph.addr, ph.val) else if ph.Gone? then GHeld(ph.addr, ph.val, ph.why)
           else KScan(ph.addr, ph.count, ph.rq, 0, 0))
    case Check(t) => Goto(s, t, if s.words(ph.addr) == ph.val then WChecked(ph.addr, ph.val) else WSkip(ph.addr))
    case Append(t) =>
      Goto(WithList(s, Bucket(ph.addr), List(s, Bucket(ph.addr)) + [Block(t, ph.addr, ph.val, false)]), t, WAdded(ph.addr, ph.val))
    case Unlock(t) =>
      Goto(s.(locks := s.locks - {Bucket(ph.addr)}), t,
           if ph.WAdded? then Asleep(ph.addr, ph.val) else Idle(if ph.KDone? then ph.n else if ph.GDone? then ph.why else 0))
    case WakeUp(t) => Goto(s.(events := s.events - {t}), t, Idle(0))
    case GiveUp(t, why) => Goto(s, t, Gone(ph.addr, ph.val, why))
    case Recheck(t) =>
      if t in s.events then Goto(s.(events := s.events - {t}), t, GDone(ph.addr, ph.why))
      else Goto(WithList(s, Bucket(ph.addr), Drop(List(s, Bucket(ph.addr)), t)), t, GDone(ph.addr, ph.why))
    case Scan(t) => ScanStep(s, t)
    case Notify(t) => Goto(s.(events := s.events + {ph.victim}), t, KScan(ph.addr, ph.count, ph.rq, ph.i, ph.n + 1))
    case Change(_, addr, v) => s.(words := x => if x == addr then v else s.words(x))
  }

  // ----- the invariant -----

  /** The bucket a thread has locked. */
  predicate Holds(ph: Phase, b: int) {
    (ph.WHeld? || ph.WChecked? || ph.WAdded? || ph.WSkip? || ph.GHeld? || ph.GDone? || ph.KScan? || ph.KNotify? || ph.KDone?)
    && Bucket(ph.addr) == b
  }

  /** The thread's wait block is alive and it has not yet learnt that it was woken. */
  predicate Waiting(ph: Phase) {
    ph.WAdded? || ph.Asleep? || ph.Gone? || ph.GHeld?
  }

  predicate Listed(s: State, b: int, t: nat) {
    exists i :: 0 <= i < |List(s, b)| && List(s, b)[i].tid == t
  }

  /** Removed from its list by the holder of bucket `b`, but its event is still to be set. */
  predicate Victim(s: State, b: int, t: nat) {
    b in s.locks && s.locks[b] in s.phases && s.phases[s.locks[b]].KNotify? && s.phases[s.locks[b]].victim == t
  }

  ghost predicate LocksOk(s: State) {
    && (forall b :: b in s.locks ==> s.locks[b] in s.phases && Holds(s.phases[s.locks[b]], b))
    && (forall t, b :: t in s.phases && Holds(s.phases[t], b) ==> b in s.locks && s.locks[b] == t)
  }

  /** Blocks in a list belong to waiting threads, at most one each, and lie in the right bucket. */
  ghost predicate ListsOk(s: State) {
    && (forall b, i :: 0 <= i < |List(s, b)| ==>
          var w := List(s, b)[i];
          && Bucket(w.addr) == b && w.tid in s.phases && Waiting(s.phases[w.tid]) && Bucket(s.phases[w.tid].addr) == b
          && w.val == s.phases[w.tid].val && (!w.moved ==> w.addr == s.phases[w.tid].addr))
    && (forall b, i, j :: 0 <= i < j < |List(s, b)| ==> List(s, b)[i].tid != List(s, b)[j].tid)
  }

  /** A waiting thread is in its list, or is about to be notified, or has its event set; exactly one
      of these. No other thread has its event set or is about to be notified. */
  ghost predicate EventsOk(s: State) {
    && (forall t :: t in s.phases && Waiting(s.phases[t]) ==>
          var b := Bucket(s.phases[t].addr);
          (t in s.events) == (!Listed(s, b, t) && !Victim(s, b, t)) && !(Listed(s, b, t) && Victim(s, b, t)))
    && (forall t :: t in s.events ==> t in s.phases && Waiting(s.phases[t]))
    && (forall k :: k in s.phases && s.phases[k].KNotify? ==>
          var v := s.phases[k].victim; v in s.phases && Waiting(s.phases[v]) && Bucket(s.phases[v].addr) == Bucket(s.phases[k].addr))
  }

  /** A waker has dealt with what it has passed. */
  ghost predicate ScansOk(s: State) {
    forall k :: k in s.phases && (s.phases[k].KScan? || s.phases[k].KNotify?) ==>
      var ph := s.phases[k];
      && ph.i <= |List(s, Bucket(ph.addr))|
      && forall j :: 0 <= j < ph.i ==> List(s, Bucket(ph.addr))[j].addr != ph.addr || ph.rq == Some(ph.addr)
  }

  ghost predicate Inv(s: State) {
    LocksOk(s) && ListsOk(s) && EventsOk(s) && ScansOk(s)
      && forall k :: k in s.phases ==> CallOk(s.phases[k])
  }

  // ----- every step keeps the invariant -----

  /** Only thread `t` has moved on, and locks of other threads are as before. */
  ghost predicate OnlyMoved(s: State, s': State, t: nat) {
    && t in s.phases && s'.phases.Keys == s.phases.Keys
    && (forall u :: u in s.phases && u != t ==> s'.phases[u] == s.phases[u])
    && (forall b :: b in s.locks && s.locks[b] != t ==> b in s'.locks && s'.locks[b] == s.locks[b])
    && (forall b :: b in s'.locks && s'.locks[b] != t ==> b in s.locks && s.locks[b] == s'.locks[b])
  }

  /** The thread has stayed a waiter on its address, or has not been and is not one. */
  ghost predicate SameRole(ph: Phase, ph': Phase) {
    && (Waiting(ph) <==> Waiting(ph')) && (Waiting(ph) ==> ph'.addr == ph.addr && ph'.val == ph.val)
    && !ph.KNotify? && !ph'.KNotify?
  }

  ghost predicate SameLists(s: State, s': State) {
    forall b :: List(s', b) == List(s, b)
  }

  lemma QuietLists(s: State, s': State, t: nat)
    requires ListsOk(s) && OnlyMoved(s, s', t) && SameLists(s, s') && SameRole(s.phases[t], s'.phases[t])
    ensures ListsOk(s')
  {
    assert forall b :: List(s', b) == List(s, b);
  }

  lemma QuietEvents(s: State, s': State, t: nat)
    requires EventsOk(s) && OnlyMoved(s, s', t) && SameLists(s, s') && s'.events == s.events && SameRole(s.phases[t], s'.phases[t])
    ensures EventsOk(s')
  {
    hide Listed, Victim;
    ListedSame(s, s');
    VictimSame(s, s', t);
    forall u | u in s'.phases && Waiting(s'.phases[u])
      ensures var b := Bucket(s'.phases[u].addr);
              (u in s'.events) == (!Listed(s', b, u) && !Victim(s', b, u)) && !(Listed(s', b, u) && Victim(s', b, u))
    {
      assert Waiting(s.phases[u]) && s.phases[u].addr == s'.phases[u].addr;
    }
    forall u | u in s'.events ensures u in s'.phases && Waiting(s'.phases[u]) {
      assert Waiting(s.phases[u]);
    }
    forall k | k in s'.phases && s'.phases[k].KNotify?
      ensures var v := s'.phases[k].victim; v in s'.phases && Waiting(s'.phases[v]) && Bucket(s'.phases[v].addr) == Bucket(s'.phases[k].addr)
    {
      assert s.phases[k].KNotify?;
    }
  }

  lemma ListedSame(s: State, s': State)
    requires SameLists(s, s')
    ensures forall b, u :: Listed(s', b, u) <==> Listed(s, b, u)
  {
    forall b, u ensures Listed(s', b, u) <==> Listed(s, b, u) {
      assert List(s', b) == List(s, b);
    }
  }

  lemma VictimSame(s: State, s': State, t: nat)
    requires OnlyMoved(s, s', t) && !s.phases[t].KNotify? && !s'.phases[t].KNotify?
    ensures forall b, u :: Victim(s', b, u) <==> Victim(s, b, u)
  {
    forall b, u ensures Victim(s', b, u) <==> Victim(s, b, u) {
      assert b in s.locks && s.locks[b] != t ==> b in s'.locks && s'.locks[b] == s.locks[b];
      assert b in s'.locks && s'.locks[b] != t ==> b in s.locks && s.locks[b] == s'.locks[b];
    }
  }

  /** The waker's arguments are those it was called with. */
  ghost predicate CallOk(ph: Phase) {
    (ph.KLock? || ph.KScan? || ph.KNotify?) && ph.rq.Some? ==> Bucket(ph.rq.value) == Bucket(ph.addr)
  }

  lemma QuietScans(s: State, s': State, t: nat)
    requires ScansOk(s) && OnlyMoved(s, s', t) && SameLists(s, s') && CallOk(s'.phases[t])
    requires s'.phases[t].KScan? ==> s'.phases[t].i == 0
    requires !s'.phases[t].KNotify?
    ensures ScansOk(s')
  {
  }

  /** Steps that touch no list and no event. */
  lemma QuietInv(s: State, a: Action)
    requires Inv(s) && Enabled(s, a) && (a.StartWait? || a.StartWake? || a.Check? || a.Lock? || a.Unlock? || a.GiveUp?)
    ensures Inv(Apply(s, a))
  {
    hide ListsOk, EventsOk, ScansOk, LocksOk;
    var s' := Apply(s, a);
    QuietLocks(s, a);
    QuietLists(s, s', a.tid);
    QuietEvents(s, s', a.tid);
    QuietScans(s, s', a.tid);
  }

  lemma QuietLocks(s: State, a: Action)
    requires LocksOk(s) && Enabled(s, a) && (a.StartWait? || a.StartWake? || a.Check? || a.Lock? || a.Unlock? || a.GiveUp?)
    ensures LocksOk(Apply(s, a)) && OnlyMoved(s, Apply(s, a), a.tid)
  {
    if a.Lock? || a.Unlock? {
      LockLocks(s, a);
    } else {
      var ph, ph' := s.phases[a.tid], Apply(s, a).phases[a.tid];
      assert forall c :: Holds(ph, c) <==> Holds(ph', c);
    }
  }

  lemma LockLocks(s: State, a: Action)
    requires LocksOk(s) && Enabled(s, a) && (a.Lock? || a.Unlock?)
    ensures LocksOk(Apply(s, a)) && OnlyMoved(s, Apply(s, a), a.tid)
  {
    var s' := Apply(s, a);
    var ph := s.phases[a.tid];
    var b := Bucket(ph.addr);
    assert a.Unlock? ==> Holds(ph, b) && b in s.locks && s.locks[b] == a.tid;
    forall u, c | u in s'.phases && Holds(s'.phases[u], c) ensures c in s'.locks && s'.locks[c] == u {
      if u != a.tid {
        assert c in s.locks && s.locks[c] == u;
      }
    }
  }

  lemma ChangeInv(s: State, a: Action)
    requires Inv(s) && Enabled(s, a) && a.Change?
    ensures Inv(Apply(s, a))
  {
    var s' := Apply(s, a);
    ListedSame(s, s');
    assert forall b :: List(s', b) == List(s, b);
    assert forall b, u :: Victim(s', b, u) <==> Victim(s, b, u);
  }

  /** A thread takes its own event. */
  lemma TakeEventInv(s: State, t: nat, ph: Phase)
    requires Inv(s) && t in s.phases && t in s.events && (s.phases[t].Asleep? || s.phases[t].GHeld?)
    requires ph == if s.phases[t].GHeld? then GDone(s.phases[t].addr, s.phases[t].why) else Idle(0)
    ensures Inv(Goto(s.(events := s.events - {t}), t, ph))
  {
    hide ListsOk, EventsOk, ScansOk;
    var s' := Goto(s.(events := s.events - {t}), t, ph);
    NotListed(s, t);
    TakeEventEvents(s, s', t);
    TakeEventLists(s, s', t);
    QuietScans(s, s', t);
  }

  lemma TakeEventLists(s: State, s': State, t: nat)
    requires ListsOk(s) && OnlyMoved(s, s', t) && SameLists(s, s') && forall b, i :: 0 <= i < |List(s, b)| ==> List(s, b)[i].tid != t
    ensures ListsOk(s')
  {
  }

  lemma TakeEventEvents(s: State, s': State, t: nat)
    requires Inv(s) && OnlyMoved(s, s', t) && SameLists(s, s') && s'.events == s.events - {t} && t in s.events
    requires !Waiting(s'.phases[t]) && !s'.phases[t].KNotify? && !s.phases[t].KNotify?
    ensures EventsOk(s')
  {
    hide Listed, Victim, ListsOk, ScansOk, LocksOk;
    ListedSame(s, s');
    VictimSame(s, s', t);
    NotVictim(s, t);
  }

  lemma NotListed(s: State, t: nat)
    requires Inv(s) && t in s.events
    ensures forall b, i :: 0 <= i < |List(s, b)| ==> List(s, b)[i].tid != t
  {
    forall b, i | 0 <= i < |List(s, b)| ensures List(s, b)[i].tid != t {
      assert Listed(s, b, List(s, b)[i].tid);
    }
  }

  lemma NotVictim(s: State, t: nat)
    requires Inv(s) && t in s.events
    ensures forall k :: k in s.phases && s.phases[k].KNotify? ==> s.phases[k].victim != t
  {
    forall k | k in s.phases && s.phases[k].KNotify? ensures s.phases[k].victim != t {
      assert Victim(s, Bucket(s.phases[k].addr), s.phases[k].victim);
    }
  }

  /** The list of bucket `b`, which thread `t` has locked, becomes `l`. */
  ghost predicate OnlyList(s: State, s': State, t: nat, b: int, l: seq<Block>) {
    && OnlyMoved(s, s', t) && s'.events == s.events && s'.locks == s.locks
    && Holds(s.phases[t], b) && Holds(s'.phases[t], b) && s'.phases[t].addr == s.phases[t].addr
    && List(s', b) == l && (forall c :: c != b ==> List(s', c) == List(s, c))
  }

  lemma ListLocks(s: State, s': State, t: nat, b: int, l: seq<Block>)
    requires LocksOk(s) && OnlyList(s, s', t, b, l)
    ensures LocksOk(s')
  {
  }

  /** Two threads that hold locks hold different ones. */
  lemma OneHolder(s: State, t: nat, u: nat)
    requires LocksOk(s) && t in s.phases && u in s.phases && t != u
    ensures forall b, c :: Holds(s.phases[t], b) && Holds(s.phases[u], c) ==> b != c
  {
    forall b, c | Holds(s.phases[t], b) && Holds(s.phases[u], c) ensures b != c {
      assert b in s.locks && s.locks[b] == t;
      assert c in s.locks && s.locks[c] == u;
    }
  }

  /** No other thread is scanning this list. */
  lemma ListScans(s: State, s': State, t: nat, b: int, l: seq<Block>)
    requires LocksOk(s) && ScansOk(s) && OnlyList(s, s', t, b, l)
    requires s'.phases[t].KScan? || s'.phases[t].KNotify? ==>
               s'.phases[t].i <= |l| && forall j :: 0 <= j < s'.phases[t].i ==> l[j].addr != s'.phases[t].addr || s'.phases[t].rq == Some(s'.phases[t].addr)
    ensures ScansOk(s')
  {
    forall k | k in s.phases && k != t && (s.phases[k].KScan? || s.phases[k].KNotify?) ensures Bucket(s.phases[k].addr) != b {
      OneHolder(s, k, t);
      assert Holds(s.phases[k], Bucket(s.phases[k].addr));
    }
  }

  lemma AppendInv(s: State, t: nat)
    requires Inv(s) && Enabled(s, Append(t))
    ensures Inv(Apply(s, Append(t)))
  {
    hide ListsOk, EventsOk, ScansOk, LocksOk, CallOk;
    var s' := Apply(s, Append(t));
    var b := Bucket(s.phases[t].addr);
    var l := List(s, b) + [Block(t, s.phases[t].addr, s.phases[t].val, false)];
    ListLocks(s, s', t, b, l);
    ListScans(s, s', t, b, l);
    NotWaiting(s, t);
    assert ListsOk(s') by {
      AppendLists(s, s', t, b, l);
    }
    assert EventsOk(s') by {
      AppendEvents(s, s', t, b, l);
    }
    assert forall k :: k in s'.phases ==> CallOk(s'.phases[k]) by {
      CallsKept(s, s', t);
    }
  }

  lemma CallsKept(s: State, s': State, t: nat)
    requires OnlyMoved(s, s', t) && CallOk(s'.phases[t]) && forall k :: k in s.phases ==> CallOk(s.phases[k])
    ensures forall k :: k in s'.phases ==> CallOk(s'.phases[k])
  {
  }

  lemma NotWaiting(s: State, t: nat)
    requires Inv(s) && t in s.phases && !Waiting(s.phases[t])
    ensures t !in s.events && forall b, i :: 0 <= i < |List(s, b)| ==> List(s, b)[i].tid != t
    ensures forall k :: k in s.phases && s.phases[k].KNotify? ==> s.phases[k].victim != t
  {
  }

  lemma AppendLists(s: State, s': State, t: nat, b: int, l: seq<Block>)
    requires ListsOk(s) && OnlyList(s, s', t, b, l) && Waiting(s'.phases[t])
    requires forall c, i :: 0 <= i < |List(s, c)| ==> List(s, c)[i].tid != t
    requires exists w :: l == List(s, b) + [w] && w.tid == t && Bucket(w.addr) == b && w.addr == s'.phases[t].addr && w.val == s'.phases[t].val
    ensures ListsOk(s')
  {
  }

  lemma AppendEvents(s: State, s': State, t: nat, b: int, l: seq<Block>)
    requires EventsOk(s) && OnlyList(s, s', t, b, l) && Waiting(s'.phases[t]) && !Waiting(s.phases[t]) && t !in s.events && !s.phases[t].KNotify?
    requires forall k :: k in s.phases && s.phases[k].KNotify? ==> s.phases[k].victim != t
    requires exists w :: l == List(s, b) + [w] && w.tid == t
    ensures EventsOk(s')
  {
    hide Victim;
    VictimSame(s, s', t);
    forall c, u ensures Listed(s', c, u) <==> Listed(s, c, u) || (c == b && u == t) {
      if c == b {
        assert l[|l| - 1].tid == t;
        if Listed(s, b, u) {
          var i :| 0 <= i < |List(s, b)| && List(s, b)[i].tid == u;
          assert l[i].tid == u;
        }
      }
    }
    assert !Victim(s, b, t) by { Unaimed(s, b, t); }
    hide Listed;
  }

  lemma Unaimed(s: State, b: int, t: nat)
    requires forall k :: k in s.phases && s.phases[k].KNotify? ==> s.phases[k].victim != t
    ensures !Victim(s, b, t)
  {
  }

  // ----- leaving a list -----

  /** A block is taken out of the list at `i`, by its owner or by a waker. */
  ghost predicate TakenOut(s: State, s': State, t: nat, b: int, i: nat, u: nat) {
    && i < |List(s, b)| && List(s, b)[i].tid == u
    && OnlyList(s, s', t, b, List(s, b)[..i] + List(s, b)[i + 1..])
  }

  lemma TakenLists(s: State, s': State, t: nat, b: int, i: nat, u: nat)
    requires ListsOk(s) && TakenOut(s, s', t, b, i, u) && (t != u ==> !Waiting(s.phases[t])) && (t == u ==> Waiting(s.phases[t]))
    ensures ListsOk(s')
    ensures forall c, v :: Listed(s', c, v) <==> Listed(s, c, v) && !(c == b && v == u)
  {
    hide Listed;
    TakenListed(s, s', t, b, i, u);
    var l, l' := List(s, b), List(s', b);
    forall c, k | 0 <= k < |List(s', c)|
      ensures var w := List(s', c)[k];
              && Bucket(w.addr) == c && w.tid in s'.phases && Waiting(s'.phases[w.tid]) && Bucket(s'.phases[w.tid].addr) == c
              && w.val == s'.phases[w.tid].val && (!w.moved ==> w.addr == s'.phases[w.tid].addr)
    {
      var k0 := if c == b && k >= i then k + 1 else k;
      assert List(s', c)[k] == List(s, c)[k0] && List(s, c)[k0].tid != u;
    }
    forall c, k, m | 0 <= k < m < |List(s', c)| ensures List(s', c)[k].tid != List(s', c)[m].tid {
      var k0, m0 := if c == b && k >= i then k + 1 else k, if c == b && m >= i then m + 1 else m;
      assert List(s', c)[k] == List(s, c)[k0] && List(s', c)[m] == List(s, c)[m0];
    }
  }

  lemma TakenListed(s: State, s': State, t: nat, b: int, i: nat, u: nat)
    requires ListsOk(s) && TakenOut(s, s', t, b, i, u)
    ensures forall c, v :: Listed(s', c, v) <==> Listed(s, c, v) && !(c == b && v == u)
  {
    var l, l' := List(s, b), List(s', b);
    assert forall k :: 0 <= k < |l'| ==> l'[k] == l[if k < i then k else k + 1];
    forall c, v ensures Listed(s', c, v) <==> Listed(s, c, v) && !(c == b && v == u) {
      if c == b && Listed(s, c, v) && v != u {
        var k :| 0 <= k < |l| && l[k].tid == v;
        assert l'[if k < i then k else k - 1].tid == v;
      }
      if c == b && Listed(s', c, v) {
        var k :| 0 <= k < |l'| && l'[k].tid == v;
        assert l[if k < i then k else k + 1].tid == v;
      }
    }
  }

  /** Drop takes out the block of a thread that is listed. */
  lemma {:induction false} DropIs(l: seq<Block>, t: nat) returns (i: nat)
    requires exists k :: 0 <= k < |l| && l[k].tid == t
    ensures i < |l| && l[i].tid == t && Drop(l, t) == l[..i] + l[i + 1..]
  {
    if l[0].tid == t {
      i := 0;
    } else {
      var k :| 0 <= k < |l| && l[k].tid == t;
      assert l[1..][k - 1].tid == t;
      var j := DropIs(l[1..], t);
      i := j + 1;
      assert l[..i] == [l[0]] + l[1..][..j];
    }
  }

  /** A thread that gave up and has not been woken removes its own block; it is in the list. */
  lemma RemoveSelfInv(s: State, t: nat)
    requires Inv(s) && t in s.phases && s.phases[t].GHeld? && t !in s.events
    ensures Inv(Apply(s, Recheck(t)))
    ensures Listed(s, Bucket(s.phases[t].addr), t)
  {
    hide ListsOk, EventsOk, ScansOk, LocksOk, CallOk;
    var s' := Apply(s, Recheck(t));
    var b := Bucket(s.phases[t].addr);
    SelfListed(s, t);
    var i := DropIs(List(s, b), t);
    ListLocks(s, s', t, b, List(s', b));
    ListScans(s, s', t, b, List(s', b));
    TakenLists(s, s', t, b, i, t);
    assert EventsOk(s') by {
      LeaveEvents(s, s', t, b, i);
    }
    CallsKept(s, s', t);
  }

  /** Whoever holds the lock of a waiter's bucket and notifies nobody finds it listed or its event set. */
  lemma SelfListed(s: State, t: nat)
    requires Inv(s) && t in s.phases && s.phases[t].GHeld? && t !in s.events
    ensures Listed(s, Bucket(s.phases[t].addr), t)
  {
    assert Holds(s.phases[t], Bucket(s.phases[t].addr));
  }

  lemma LeaveEvents(s: State, s': State, t: nat, b: int, i: nat)
    requires EventsOk(s) && LocksOk(s) && TakenOut(s, s', t, b, i, t) && s.phases[t].GHeld? && s'.phases[t].GDone?
    requires forall c, v :: Listed(s', c, v) <==> Listed(s, c, v) && !(c == b && v == t)
    requires Listed(s, b, t)
    ensures EventsOk(s')
  {
    hide Victim, Listed;
    VictimSame(s, s', t);
    forall k | k in s.phases && s.phases[k].KNotify? ensures s.phases[k].victim != t {
      OneHolder(s, k, t);
      assert Holds(s.phases[k], Bucket(s.phases[k].addr));
    }
  }

  /** A waker takes out a block, whose owner is then to be notified. */
  lemma TakeInv(s: State, t: nat, i: nat)
    requires Inv(s) && t in s.phases && s.phases[t].KScan? && i == s.phases[t].i && i < |List(s, Bucket(s.phases[t].addr))|
    requires var ph := s.phases[t]; List(s, Bucket(ph.addr))[i].addr == ph.addr
    ensures var ph := s.phases[t]; var b := Bucket(ph.addr); var l := List(s, b);
            Inv(Goto(WithList(s, b, l[..i] + l[i + 1..]), t, KNotify(ph.addr, ph.count, ph.rq, i, ph.n, l[i].tid)))
  {
    hide ListsOk, EventsOk, ScansOk, LocksOk, CallOk;
    var ph := s.phases[t];
    var b := Bucket(ph.addr);
    var l := List(s, b);
    var u := l[i].tid;
    var s' := Goto(WithList(s, b, l[..i] + l[i + 1..]), t, KNotify(ph.addr, ph.count, ph.rq, i, ph.n, u));
    ListLocks(s, s', t, b, List(s', b));
    ScanPrefix(s, t);
    ListScans(s, s', t, b, List(s', b));
    OwnerWaits(s, b, i);
    TakenLists(s, s', t, b, i, u);
    assert Listed(s, b, u);
    assert EventsOk(s') by {
      TakeEvents(s, s', t, b, i, u);
    }
    CallKept(ph, s'.phases[t]);
    CallsKept(s, s', t);
  }

  lemma CallKept(ph: Phase, ph': Phase)
    requires CallOk(ph) && ph.KScan? && (ph'.KNotify? || ph'.KScan?) && ph'.rq == ph.rq && ph'.addr == ph.addr
    ensures CallOk(ph')
  {
  }

  lemma ScanPrefix(s: State, t: nat)
    requires ScansOk(s) && t in s.phases && s.phases[t].KScan?
    ensures var ph := s.phases[t]; var l := List(s, Bucket(ph.addr));
            ph.i <= |l| && forall j :: 0 <= j < ph.i ==> l[j].addr != ph.addr || ph.rq == Some(ph.addr)
  {
  }

  lemma OwnerWaits(s: State, b: int, i: nat)
    requires ListsOk(s) && i < |List(s, b)|
    ensures var u := List(s, b)[i].tid; u in s.phases && Waiting(s.phases[u]) && Bucket(s.phases[u].addr) == b
  {
  }

  lemma TakeEvents(s: State, s': State, t: nat, b: int, i: nat, u: nat)
    requires EventsOk(s) && LocksOk(s) && TakenOut(s, s', t, b, i, u) && s.phases[t].KScan? && s'.phases[t].KNotify? && s'.phases[t].victim == u
    requires u in s.phases && Waiting(s.phases[u]) && Bucket(s.phases[u].addr) == b
    requires forall c, v :: Listed(s', c, v) <==> Listed(s, c, v) && !(c == b && v == u)
    requires Listed(s, b, u)
    ensures EventsOk(s')
  {
    hide Listed;
    forall c, v ensures Victim(s', c, v) <==> (if c == b then v == u else Victim(s, c, v)) {
      assert Holds(s.phases[t], b);
      assert c in s.locks && s.locks[c] == t ==> Holds(s.phases[t], c);
    }
    assert !Victim(s, b, u) by {
      assert Holds(s.phases[t], b);
    }
    forall v ensures !Victim(s, b, v) {
      assert Holds(s.phases[t], b);
    }
  }

  lemma NotifyInv(s: State, t: nat)
    requires Inv(s) && Enabled(s, Notify(t))
    ensures Inv(Apply(s, Notify(t)))
  {
    hide ListsOk, EventsOk, ScansOk, LocksOk, CallOk;
    var s' := Apply(s, Notify(t));
    assert LocksOk(s') && ListsOk(s') && ScansOk(s') by {
      NotifyRest(s, t);
    }
    assert EventsOk(s') by {
      NotifyEvents(s, t);
    }
    assert forall k :: k in s'.phases ==> CallOk(s'.phases[k]) by {
      NotifyCalls(s, t);
    }
  }

  lemma NotifyRest(s: State, t: nat)
    requires LocksOk(s) && ListsOk(s) && ScansOk(s) && Enabled(s, Notify(t))
    ensures var s' := Apply(s, Notify(t)); LocksOk(s') && ListsOk(s') && ScansOk(s')
  {
    var s' := Apply(s, Notify(t));
    assert forall b :: List(s', b) == List(s, b);
  }

  lemma NotifyCalls(s: State, t: nat)
    requires Enabled(s, Notify(t)) && forall k :: k in s.phases ==> CallOk(s.phases[k])
    ensures var s' := Apply(s, Notify(t)); forall k :: k in s'.phases ==> CallOk(s'.phases[k])
  {
    assert CallOk(s.phases[t]);
  }

  lemma NotifyEvents(s: State, t: nat)
    requires EventsOk(s) && LocksOk(s) && Enabled(s, Notify(t))
    ensures EventsOk(Apply(s, Notify(t)))
  {
    hide Listed;
    var s' := Apply(s, Notify(t));
    var u, b := s.phases[t].victim, Bucket(s.phases[t].addr);
    ListedSame(s, s');
    assert Holds(s.phases[t], b);
    forall c, v ensures Victim(s', c, v) <==> c != b && Victim(s, c, v) {
      assert c in s.locks && s.locks[c] == t ==> Holds(s.phases[t], c);
    }
    assert forall v :: Victim(s, b, v) <==> v == u;
  }

  // ----- scanning on -----

  /** A waker passes a block, perhaps giving it another address. */
  lemma PassInv(s: State, t: nat, l: seq<Block>)
    requires Inv(s) && t in s.phases && s.phases[t].KScan?
    requires var ph := s.phases[t]; var was := List(s, Bucket(ph.addr));
             && ph.i < |was| == |l| && (forall j :: 0 <= j < |l| && j != ph.i ==> l[j] == was[j])
             && l[ph.i].tid == was[ph.i].tid && l[ph.i].val == was[ph.i].val && (!l[ph.i].moved ==> l[ph.i] == was[ph.i]) && Bucket(l[ph.i].addr) == Bucket(ph.addr)
             && (l[ph.i].addr != ph.addr || ph.rq == Some(ph.addr))
    ensures var ph := s.phases[t]; Inv(Goto(WithList(s, Bucket(ph.addr), l), t, KScan(ph.addr, ph.count, ph.rq, ph.i + 1, ph.n)))
  {
    hide ListsOk, EventsOk, ScansOk, LocksOk, CallOk;
    var ph := s.phases[t];
    var b := Bucket(ph.addr);
    var s' := Goto(WithList(s, b, l), t, KScan(ph.addr, ph.count, ph.rq, ph.i + 1, ph.n));
    ListLocks(s, s', t, b, l);
    ScanPrefix(s, t);
    ListScans(s, s', t, b, l);
    CallKept(ph, s'.phases[t]);
    CallsKept(s, s', t);
    assert ListsOk(s') && EventsOk(s') by {
      RightBucket(s, b);
      SameOwners(s, s', t, b, l);
    }
  }

  lemma RightBucket(s: State, b: int)
    requires ListsOk(s)
    ensures forall i :: 0 <= i < |List(s, b)| ==> Bucket(List(s, b)[i].addr) == b
  {
  }

  /** The list keeps its owners in their order. */
  lemma SameOwners(s: State, s': State, t: nat, b: int, l: seq<Block>)
    requires ListsOk(s) && EventsOk(s) && OnlyList(s, s', t, b, l) && SameRole(s.phases[t], s'.phases[t])
    requires |l| == |List(s, b)| && forall j :: 0 <= j < |l| ==>
               var w := List(s, b)[j]; l[j].tid == w.tid && Bucket(l[j].addr) == b && l[j].val == w.val && (!l[j].moved ==> l[j] == w)
    ensures ListsOk(s') && EventsOk(s')
  {
    forall c, u ensures Listed(s', c, u) <==> Listed(s, c, u) {
      if Listed(s, c, u) {
        var i :| 0 <= i < |List(s, c)| && List(s, c)[i].tid == u;
        assert List(s', c)[i].tid == u;
      }
      if Listed(s', c, u) {
        var i :| 0 <= i < |List(s', c)| && List(s', c)[i].tid == u;
        assert List(s, c)[i].tid == u;
      }
    }
    VictimSame(s, s', t);
    assert EventsOk(s') by {
      hide Listed, Victim, ListsOk;
    }
  }

  lemma DoneInv(s: State, t: nat)
    requires Inv(s) && t in s.phases && s.phases[t].KScan?
    ensures Inv(Goto(s, t, KDone(s.phases[t].addr, s.phases[t].n)))
  {
    hide ListsOk, EventsOk, ScansOk;
    var s' := Goto(s, t, KDone(s.phases[t].addr, s.phases[t].n));
    QuietLists(s, s', t);
    QuietEvents(s, s', t);
    QuietScans(s, s', t);
  }

  lemma ScanInv(s: State, t: nat)
    requires Inv(s) && Enabled(s, Scan(t))
    ensures Inv(Apply(s, Scan(t)))
  {
    hide Inv;
    var ph := s.phases[t];
    var b := Bucket(ph.addr);
    var l := List(s, b);
    if (ph.rq.None? && ph.n == ph.count) || ph.i >= |l| {
      DoneInv(s, t);
    } else if l[ph.i].addr != ph.addr {
      InvRightBucket(s, t, b);
      PassInv(s, t, l);
      WithSameList(s, t, l);
    } else if ph.n == ph.count && ph.rq.Some? {
      InvRightBucket(s, t, b);
      PassInv(s, t, l[ph.i := l[ph.i].(addr := ph.rq.value, moved := true)]);
    } else {
      TakeInv(s, t, ph.i);
    }
  }

  lemma ChangeScans(s: State, s': State)
    requires ScansOk(s) && SameLists(s, s') && s'.phases == s.phases
    ensures ScansOk(s')
  {
  }

  /** Writing back the same list changes nothing that the invariant can see. */
  lemma WithSameList(s: State, t: nat, l: seq<Block>)
    requires t in s.phases && s.phases[t].KScan? && l == List(s, Bucket(s.phases[t].addr))
    requires Inv(Goto(WithList(s, Bucket(s.phases[t].addr), l), t, KScan(s.phases[t].addr, s.phases[t].count, s.phases[t].rq, s.phases[t].i + 1, s.phases[t].n)))
    ensures Inv(Goto(s, t, KScan(s.phases[t].addr, s.phases[t].count, s.phases[t].rq, s.phases[t].i + 1, s.phases[t].n)))
  {
    hide ListsOk, EventsOk, ScansOk;
    var ph := KScan(s.phases[t].addr, s.phases[t].count, s.phases[t].rq, s.phases[t].i + 1, s.phases[t].n);
    var s1, s2 := Goto(WithList(s, Bucket(ph.addr), l), t, ph), Goto(s, t, ph);
    QuietLists(s1, s2, t);
    QuietEvents(s1, s2, t);
    ChangeScans(s1, s2);
  }

  lemma InvRightBucket(s: State, t: nat, b: int)
    requires Inv(s) && t in s.phases && s.phases[t].KScan?
    ensures forall i :: 0 <= i < |List(s, b)| ==> Bucket(List(s, b)[i].addr) == b
    ensures s.phases[t].rq.Some? ==> Bucket(s.phases[t].rq.value) == Bucket(s.phases[t].addr)
  {
    RightBucket(s, b);
    assert CallOk(s.phases[t]);
  }

  /** Every interleaving of any number of waiters, wakers and writers keeps the invariant. */
  lemma StepInv(s: State, a: Action)
    requires Inv(s) && Enabled(s, a)
    ensures Inv(Apply(s, a))
  {
    hide Inv;
    match a
    case Append(t) => AppendInv(s, t);
    case WakeUp(t) => TakeEventInv(s, t, Idle(0));
    case Recheck(t) =>
      if t in s.events {
        TakeEventInv(s, t, GDone(s.phases[t].addr, s.phases[t].why));
      } else {
        RemoveSelfInv(s, t);
      }
    case Scan(t) => ScanInv(s, t);
    case Notify(t) => NotifyInv(s, t);
    case Change(_, _, _) => ChangeInv(s, a);
    case _ => QuietInv(s, a);
  }

  // ----- what the invariant gives -----

  /** When nobody is just notifying under the bucket lock, a waiter's event is set exactly when its
      block has left the list; a thread that is not waiting has no event set. */
  lemma EventIffLeft(s: State, t: nat)
    requires Inv(s) && t in s.phases
    ensures !Waiting(s.phases[t]) ==> t !in s.events
    ensures Waiting(s.phases[t]) ==>
              var b := Bucket(s.phases[t].addr);
              !(b in s.locks && s.phases[s.locks[b]].KNotify?) ==> (t in s.events <==> !Listed(s, b, t))
  {
  }

  /** A block in a list lives on the stack of a thread that is still in futex_wait. */
  lemma BlocksAreAlive(s: State, b: int, i: nat)
    requires Inv(s) && i < |List(s, b)|
    ensures var w := List(s, b)[i]; w.tid in s.phases && Waiting(s.phases[w.tid]) && w.val == s.phases[w.tid].val
  {
  }

  /** Two threads never hold the same bucket. */
  lemma MutualExclusion(s: State, t: nat, u: nat, b: int)
    requires Inv(s) && t in s.phases && u in s.phases && Holds(s.phases[t], b) && Holds(s.phases[u], b)
    ensures t == u
  {
    if t != u {
      OneHolder(s, t, u);
    }
  }

  // ----- no lost wakeup -----

  /** No thread that compared `v` at `addr` is listed, or about to be, unless it has been requeued. */
  ghost predicate Clear(s: State, addr: int, v: int) {
    && (forall i :: 0 <= i < |List(s, Bucket(addr))| ==>
          var w := List(s, Bucket(addr))[i]; w.addr == addr && w.val == v ==> w.moved)
    && (forall t :: t in s.phases ==> s.phases[t] != WChecked(addr, v))
  }

  /** A waker that has reached the end of the list leaves it clear. */
  lemma ScanClears(s: State, t: nat, v: int)
    requires Inv(s) && t in s.phases && s.phases[t].KScan? && s.phases[t].i >= |List(s, Bucket(s.phases[t].addr))|
    requires s.phases[t].rq != Some(s.phases[t].addr)
    ensures Clear(s, s.phases[t].addr, v)
  {
    var addr := s.phases[t].addr;
    forall u | u in s.phases ensures s.phases[u] != WChecked(addr, v) {
      if u != t {
        OneHolder(s, t, u);
        assert Holds(s.phases[t], Bucket(addr));
        assert s.phases[u] == WChecked(addr, v) ==> Holds(s.phases[u], Bucket(addr));
      }
    }
  }

  /** A waker that never counts up to its limit stops at the end of the list only. */
  lemma WakeAllReachesEnd(s: State, t: nat)
    requires Enabled(s, Scan(t)) && Apply(s, Scan(t)).phases[t].KDone?
    ensures s.phases[t].i >= |List(s, Bucket(s.phases[t].addr))| || (s.phases[t].rq.None? && s.phases[t].n == s.phases[t].count)
  {
  }

  lemma DropSubset(l: seq<Block>, t: nat)
    ensures forall i :: 0 <= i < |Drop(l, t)| ==> Drop(l, t)[i] in l
  {
  }

  /** As long as the word differs from `v`, a clear list stays clear. */
  lemma ClearStays(s: State, a: Action, addr: int, v: int)
    requires Clear(s, addr, v) && s.words(addr) != v && Enabled(s, a)
    ensures Clear(Apply(s, a), addr, v)
  {
    var s' := Apply(s, a);
    var b := Bucket(addr);
    forall i | 0 <= i < |List(s', b)| ensures var w := List(s', b)[i]; w.addr == addr && w.val == v ==> w.moved {
      var w := List(s', b)[i];
      if a.Recheck? {
        DropSubset(List(s, Bucket(s.phases[a.tid].addr)), a.tid);
      }
      assert w.moved || w in List(s, b) || (a.Append? && w == Block(a.tid, s.phases[a.tid].addr, s.phases[a.tid].val, false));
    }
  }

  /** A run: each state follows from the one before by some action. */
  ghost predicate Runs(ss: seq<State>, actions: seq<Action>) {
    |ss| == |actions| + 1 && forall i :: 0 <= i < |actions| ==> Enabled(ss[i], actions[i]) && ss[i + 1] == Apply(ss[i], actions[i])
  }

  lemma {:induction false} RunInv(ss: seq<State>, actions: seq<Action>, i: nat)
    requires Runs(ss, actions) && Inv(ss[0]) && i < |ss|
    ensures Inv(ss[i])
    decreases i
  {
    if i > 0 {
      RunInv(ss, actions, i - 1);
      assert Enabled(ss[i - 1], actions[i - 1]) && ss[i - 1 + 1] == Apply(ss[i - 1], actions[i - 1]);
      StepInv(ss[i - 1], actions[i - 1]);
    }
  }

  lemma {:induction false} RunClear(ss: seq<State>, actions: seq<Action>, k: nat, m: nat, addr: int, v: int)
    requires Runs(ss, actions) && k <= m < |ss| && Clear(ss[k], addr, v)
    requires forall i :: k <= i <= m ==> ss[i].words(addr) != v
    ensures Clear(ss[m], addr, v)
    decreases m
  {
    if k < m {
      RunClear(ss, actions, k, m - 1, addr, v);
      assert Enabled(ss[m - 1], actions[m - 1]) && ss[m - 1 + 1] == Apply(ss[m - 1], actions[m - 1]);
      ClearStays(ss[m - 1], actions[m - 1], addr, v);
    }
  }

  /** A waiter is woken, about to be, or waits elsewhere by now. */
  ghost predicate WokenOrMoved(s: State, t: nat, b: int) {
    || t in s.events || Victim(s, b, t)
    || exists i :: 0 <= i < |List(s, b)| && List(s, b)[i].tid == t && List(s, b)[i].moved
  }

  /** From the end of a scan on, as long as the word differs from `v`. */
  lemma AfterScan(ss: seq<State>, actions: seq<Action>, k: nat, m: nat, waker: nat, v: int, t: nat)
    requires Runs(ss, actions) && Inv(ss[0]) && k <= m < |ss|
    requires waker in ss[k].phases && ss[k].phases[waker].KScan?
    requires var ph := ss[k].phases[waker]; ph.i >= |List(ss[k], Bucket(ph.addr))| && ph.rq != Some(ph.addr)
    requires forall i :: k <= i <= m ==> ss[i].words(ss[k].phases[waker].addr) != v
    requires t in ss[m].phases && Waiting(ss[m].phases[t])
    requires ss[m].phases[t].addr == ss[k].phases[waker].addr && ss[m].phases[t].val == v
    ensures WokenOrMoved(ss[m], t, Bucket(ss[k].phases[waker].addr))
  {
    var addr := ss[k].phases[waker].addr;
    var b := Bucket(addr);
    RunInv(ss, actions, k);
    RunInv(ss, actions, m);
    ScanClears(ss[k], waker, v);
    RunClear(ss, actions, k, m, addr, v);
    if Listed(ss[m], b, t) {
      var i :| 0 <= i < |List(ss[m], b)| && List(ss[m], b)[i].tid == t;
      assert List(ss[m], b)[i].moved;
    }
  }

  /** The loop of futex_wake on `addr` with limit `count`. */
  predicate InWake(ph: Phase, addr: int, count: int) {
    (ph.KScan? || ph.KNotify?) && ph.addr == addr && ph.count == count && ph.rq == None
  }

  /** A waker stays in its loop with its arguments, until its scan ends. */
  lemma WakeGoesOn(s: State, a: Action, w: nat, addr: int, count: int)
    requires Enabled(s, a) && w in s.phases && InWake(s.phases[w], addr, count)
    ensures var ph' := Apply(s, a).phases[w];
            InWake(ph', addr, count) || (a == Scan(w) && s.phases[w].KScan? && ph' == KDone(addr, s.phases[w].n))
  {
  }

  lemma WakeBegins(s: State, w: nat, addr: int, count: int)
    requires Enabled(s, Lock(w)) && s.phases[w] == KLock(addr, count, None)
    ensures InWake(Apply(s, Lock(w)).phases[w], addr, count)
  {
  }

  lemma {:induction false} WakeLoop(ss: seq<State>, actions: seq<Action>, k0: nat, j: nat, w: nat, addr: int, count: int)
    requires Runs(ss, actions) && k0 < j < |ss| && actions[k0] == Lock(w) && w in ss[k0].phases && ss[k0].phases[w] == KLock(addr, count, None)
    requires forall i :: k0 < i <= j ==> w in ss[i].phases && !ss[i].phases[w].KDone?
    ensures w in ss[j].phases && InWake(ss[j].phases[w], addr, count)
    decreases j
  {
    hide Apply, Enabled, InWake;
    assert Enabled(ss[j - 1], actions[j - 1]) && ss[j - 1 + 1] == Apply(ss[j - 1], actions[j - 1]);
    if k0 + 1 == j {
      WakeBegins(ss[k0], w, addr, count);
    } else {
      WakeLoop(ss, actions, k0, j - 1, w, addr, count);
      WakeGoesOn(ss[j - 1], actions[j - 1], w, addr, count);
    }
  }

  /** No lost wakeup, over all interleavings with timeouts and interrupts: `w` takes the bucket for
      futex_wake on `addr` in step `k0` and is done in state `k1` without having been stopped by its
      limit, and since step `k0` the word has differed from `v`. Then in every state from `k1` on, as
      long as it still does, each thread that compared `v` there and is still in futex_wait has its
      event set, is being notified, or has been requeued. */
  lemma NoLostWakeup(ss: seq<State>, actions: seq<Action>, k0: nat, k1: nat, m: nat, w: nat, addr: int, count: int, v: int, t: nat)
    requires Runs(ss, actions) && Inv(ss[0]) && k0 + 1 < k1 <= m < |ss|
    requires actions[k0] == Lock(w) && w in ss[k0].phases && ss[k0].phases[w] == KLock(addr, count, None)
    requires forall i :: k0 < i < k1 ==> w in ss[i].phases && !ss[i].phases[w].KDone?
    requires w in ss[k1].phases && ss[k1].phases[w].KDone? && ss[k1].phases[w].n != count
    requires forall i :: k0 <= i <= m ==> ss[i].words(addr) != v
    requires t in ss[m].phases && Waiting(ss[m].phases[t]) && ss[m].phases[t].addr == addr && ss[m].phases[t].val == v
    ensures WokenOrMoved(ss[m], t, Bucket(addr))
  {
    hide Apply;
    var k := k1 - 1;
    WakeLoop(ss, actions, k0, k, w, addr, count);
    assert Enabled(ss[k], actions[k]) && ss[k + 1] == Apply(ss[k], actions[k]);
    WakeGoesOn(ss[k], actions[k], w, addr, count);
    WakeAllReachesEnd(ss[k], w);
    AfterScan(ss, actions, k, m, w, v, t);
  }

  /** At the start nobody waits. */
  lemma InitInv(words: int -> int, tids: set<nat>)
    ensures Inv(State(words, map[], map[], {}, map t | t in tids :: Idle(0)))
  {
  }
}
