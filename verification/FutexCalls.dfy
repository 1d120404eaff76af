/**
 Whole calls of futex_wait and futex_wake_requeue, over all interleavings with other threads: who
 waits, who returns when and with what, and that a wake is one scan of the list it has locked.
 */
module FutexCalls {
  import opened Basics
  import opened Futex
  import WaitSpec

  // ----- one step -----

  /** A thread moves by its own steps only. */
  lemma OwnStep(s: State, a: Action, t: nat)
    requires Enabled(s, a) && t in s.phases && (a.tid != t || a.Change?)
    ensures t in Apply(s, a).phases && Apply(s, a).phases[t] == s.phases[t]
  {
  }

  /** Nobody else touches the list of a bucket that a thread holds. */
  lemma HeldList(s: State, a: Action, t: nat, b: int)
    requires Inv(s) && Enabled(s, a) && t in s.phases && a.tid != t && Holds(s.phases[t], b)
    ensures List(Apply(s, a), b) == List(s, b)
  {
    if Holds(s.phases[a.tid], b) {
      MutualExclusion(s, a.tid, t, b);
    }
  }

  ghost predicate Unlisted(s: State, t: nat) {
    forall b :: !Listed(s, b, t)
  }

  // ----- futex_wait: to wait or not to wait -----

  /** How far futex_wait has got at state `k`, having taken the bucket in step `i`. */
  ghost predicate Deciding(ss: seq<State>, actions: seq<Action>, i: nat, k: nat, t: nat, addr: int, val: int)
    requires i < k < |ss| && |ss| == |actions| + 1
  {
    && t in ss[k].phases
    && var ph := ss[k].phases[t];
       || (ph == WHeld(addr, val) && forall c: nat :: i < c < k ==> actions[c] != Check(t))
       || exists c: nat :: CheckedAt(ss, actions, i, c, k, t)
                      && if ss[c].words(addr) != val then ph == WSkip(addr)
                         else ph == WChecked(addr, val)
                              || (ph == WAdded(addr, val) && LastIs(List(ss[k], Bucket(addr)), Block(t, addr, val, false)))
  }

  predicate LastIs(l: seq<Block>, w: Block) {
    l != [] && l[|l| - 1] == w
  }

  /** Step `c` is the only comparison between steps `i` and `k`. */
  ghost predicate CheckedAt(ss: seq<State>, actions: seq<Action>, i: nat, c: nat, k: nat, t: nat)
    requires k <= |actions|
  {
    i < c < k && c < |ss| && actions[c] == Check(t) && forall d: nat :: i < d < k && actions[d] == Check(t) ==> d == c
  }

  /** A step of another thread, or a change of memory. */
  lemma DecidingElsewhere(ss: seq<State>, actions: seq<Action>, i: nat, k: nat, t: nat, addr: int, val: int)
    requires Runs(ss, actions) && i < k < |actions| && Inv(ss[k]) && (actions[k].tid != t || actions[k].Change?)
    requires Deciding(ss, actions, i, k, t, addr, val)
    ensures Deciding(ss, actions, i, k + 1, t, addr, val)
  {
    hide Inv, Apply, Enabled, LastIs;
    var s, a, s' := ss[k], actions[k], ss[k + 1];
    assert Enabled(s, a) && s' == Apply(s, a);
    OwnStep(s, a, t);
    assert Holds(s.phases[t], Bucket(addr)) ==> List(s', Bucket(addr)) == List(s, Bucket(addr)) by { SameList(s, a, t, Bucket(addr)); }
    if s.phases[t] == WHeld(addr, val) && forall c: nat :: i < c < k ==> actions[c] != Check(t) {
    } else {
      var c := Compared(ss, actions, i, k, t, addr, val);
      assert CheckedAt(ss, actions, i, c, k + 1, t);
    }
  }

  lemma SameList(s: State, a: Action, t: nat, b: int)
    requires Inv(s) && Enabled(s, a) && t in s.phases && (a.tid != t || a.Change?)
    ensures Holds(s.phases[t], b) ==> List(Apply(s, a), b) == List(s, b)
  {
    hide Inv;
    if a.tid != t && Holds(s.phases[t], b) {
      HeldList(s, a, t, b);
    }
  }

  lemma Compared(ss: seq<State>, actions: seq<Action>, i: nat, k: nat, t: nat, addr: int, val: int) returns (c: nat)
    requires i < k < |ss| && |ss| == |actions| + 1 && Deciding(ss, actions, i, k, t, addr, val)
    requires !(ss[k].phases[t] == WHeld(addr, val) && forall c: nat :: i < c < k ==> actions[c] != Check(t))
    ensures CheckedAt(ss, actions, i, c, k, t)
            && if ss[c].words(addr) != val then ss[k].phases[t] == WSkip(addr)
               else ss[k].phases[t] == WChecked(addr, val)
                    || (ss[k].phases[t] == WAdded(addr, val) && LastIs(List(ss[k], Bucket(addr)), Block(t, addr, val, false)))
  {
    c :| CheckedAt(ss, actions, i, c, k, t)
         && if ss[c].words(addr) != val then ss[k].phases[t] == WSkip(addr)
            else ss[k].phases[t] == WChecked(addr, val)
                 || (ss[k].phases[t] == WAdded(addr, val) && LastIs(List(ss[k], Bucket(addr)), Block(t, addr, val, false)));
  }

  /** Its own next step. */
  lemma DecidingNext(ss: seq<State>, actions: seq<Action>, i: nat, k: nat, t: nat, addr: int, val: int)
    requires Runs(ss, actions) && i < k < |actions| && actions[k].tid == t && !actions[k].Change? && actions[k] != Unlock(t)
    requires Deciding(ss, actions, i, k, t, addr, val)
    ensures Deciding(ss, actions, i, k + 1, t, addr, val)
  {
    var s, a, s' := ss[k], actions[k], ss[k + 1];
    assert Enabled(s, a) && s' == Apply(s, a);
    if s.phases[t] == WHeld(addr, val) && forall c: nat :: i < c < k ==> actions[c] != Check(t) {
      assert CheckedAt(ss, actions, i, k, k + 1, t);
    } else {
      var c := Compared(ss, actions, i, k, t, addr, val);
      assert CheckedAt(ss, actions, i, c, k + 1, t);
    }
  }

  lemma {:induction false} DecidingOn(ss: seq<State>, actions: seq<Action>, i: nat, k: nat, t: nat, addr: int, val: int)
    requires Runs(ss, actions) && Inv(ss[0]) && i < k <= |actions| && actions[i] == Lock(t) && t in ss[i].phases && ss[i].phases[t] == WLock(addr, val)
    requires forall j :: i < j < k ==> actions[j] != Unlock(t)
    ensures Deciding(ss, actions, i, k, t, addr, val)
    decreases k
  {
    hide Inv, Deciding;
    if k == i + 1 {
      assert Enabled(ss[i], actions[i]) && ss[i + 1] == Apply(ss[i], actions[i]);
      assert Deciding(ss, actions, i, k, t, addr, val) by { Begins(ss, actions, i, t, addr, val); }
    } else {
      DecidingOn(ss, actions, i, k - 1, t, addr, val);
      RunInv(ss, actions, k - 1);
      if actions[k - 1].tid != t || actions[k - 1].Change? {
        DecidingElsewhere(ss, actions, i, k - 1, t, addr, val);
      } else {
        DecidingNext(ss, actions, i, k - 1, t, addr, val);
      }
    }
  }

  lemma Begins(ss: seq<State>, actions: seq<Action>, i: nat, t: nat, addr: int, val: int)
    requires Runs(ss, actions) && i < |actions| && actions[i] == Lock(t) && t in ss[i].phases && ss[i].phases[t] == WLock(addr, val)
    ensures Deciding(ss, actions, i, i + 1, t, addr, val)
  {
    assert Enabled(ss[i], actions[i]) && ss[i + 1] == Apply(ss[i], actions[i]);
  }

  /** A thread that takes the bucket for futex_wait compares exactly once before it lets go of it. If the
      word differed from `val` then, it returns 0 without having waited; if not, its block is the last
      in the list when it lets go, and it sleeps. */
  lemma WaitDecides(ss: seq<State>, actions: seq<Action>, i: nat, j: nat, t: nat, addr: int, val: int) returns (c: nat)
    requires Runs(ss, actions) && Inv(ss[0]) && i < j < |actions| && actions[i] == Lock(t) && t in ss[i].phases && ss[i].phases[t] == WLock(addr, val)
    requires actions[j] == Unlock(t) && forall k :: i < k < j ==> actions[k] != Unlock(t)
    ensures CheckedAt(ss, actions, i, c, j, t) && t in ss[j + 1].phases
    ensures if ss[c].words(addr) != val then ss[j + 1].phases[t] == Idle(0) && Unlisted(ss[j + 1], t)
            else ss[j + 1].phases[t] == Asleep(addr, val) && LastIs(List(ss[j + 1], Bucket(addr)), Block(t, addr, val, false))
  {
    DecidingOn(ss, actions, i, j, t, addr, val);
    assert Enabled(ss[j], actions[j]) && ss[j + 1] == Apply(ss[j], actions[j]);
    RunInv(ss, actions, j + 1);
    c := Compared(ss, actions, i, j, t, addr, val);
  }

  // ----- futex_wait: to return -----

  /** What a thread that slept at state `k` is doing at state `m`. */
  ghost predicate Sleeping(ss: seq<State>, actions: seq<Action>, k: nat, m: nat, t: nat, ph: Phase)
    requires m <= |actions|
  {
    match ph
    case Asleep(_, _) => true
    case Gone(_, _, why) => GaveUp(actions, k, m, t, why)
    case GHeld(_, _, why) => GaveUp(actions, k, m, t, why)
    case GDone(_, why) => GaveUp(actions, k, m, t, why)
    case Idle(r) => GaveUp(actions, k, m, t, r) || (r == 0 && TookEvent(ss, actions, k, m, t))
    case _ => false
  }

  ghost predicate GaveUp(actions: seq<Action>, k: nat, m: nat, t: nat, why: int)
    requires m <= |actions|
  {
    why in {EINTR, ETIMEDOUT} && exists c :: k <= c < m && actions[c] == GiveUp(t, why)
  }

  ghost predicate TookEvent(ss: seq<State>, actions: seq<Action>, k: nat, m: nat, t: nat)
    requires m <= |actions|
  {
    exists c :: k <= c < m && c < |ss| && actions[c] == WakeUp(t) && t in ss[c].events
  }

  lemma {:induction false} SleepsOn(ss: seq<State>, actions: seq<Action>, k: nat, m: nat, t: nat)
    requires Runs(ss, actions) && k <= m <= |actions| && t in ss[k].phases && ss[k].phases[t].Asleep?
    requires forall j :: k < j < m ==> t in ss[j].phases && !ss[j].phases[t].Idle?
    ensures t in ss[m].phases && Sleeping(ss, actions, k, m, t, ss[m].phases[t])
    decreases m
  {
    if k < m {
      var n := m - 1;
      SleepsOn(ss, actions, k, n, t);
      assert Enabled(ss[n], actions[n]) && ss[n + 1] == Apply(ss[n], actions[n]);
      if actions[n].tid != t || actions[n].Change? {
        OwnStep(ss[n], actions[n], t);
      }
    }
  }

  /** A sleeping thread returns 0 only after taking its event, and EINTR or ETIMEDOUT only after it gave
      up for that reason; by then it is not listed any more and its event is not set. */
  lemma WaitReturns(ss: seq<State>, actions: seq<Action>, k: nat, m: nat, t: nat)
    requires Runs(ss, actions) && Inv(ss[0]) && k < m <= |actions| && t in ss[k].phases && ss[k].phases[t].Asleep?
    requires t in ss[m].phases && ss[m].phases[t].Idle? && forall j :: k < j < m ==> t in ss[j].phases && !ss[j].phases[t].Idle?
    ensures var r := ss[m].phases[t].result;
            r in {0, EINTR, ETIMEDOUT} && if r == 0 then TookEvent(ss, actions, k, m, t) else GaveUp(actions, k, m, t, r)
    ensures t !in ss[m].events && Unlisted(ss[m], t)
  {
    SleepsOn(ss, actions, k, m, t);
    RunInv(ss, actions, m);
  }

  // ----- futex_wake_requeue is one scan -----

  /** The list as module WaitSpec sees it. */
  function View(l: seq<Block>): seq<WaitSpec.Waiter<nat>> {
    seq(|l|, i requires 0 <= i < |l| => WaitSpec.Waiter(l[i].tid, l[i].addr))
  }

  function Ids(ws: seq<WaitSpec.Waiter<nat>>): seq<nat> {
    seq(|ws|, i requires 0 <= i < |ws| => ws[i].id)
  }

  /** The threads whose events `w` sets in steps `i` to `k`, in order. */
  function WokenBy(ss: seq<State>, actions: seq<Action>, i: nat, k: nat, w: nat): seq<nat>
    requires i <= k <= |actions| && |ss| == |actions| + 1
  {
    if i == k then []
    else WokenBy(ss, actions, i, k - 1, w)
         + if actions[k - 1] == Notify(w) && w in ss[k - 1].phases && ss[k - 1].phases[w].KNotify? then [ss[k - 1].phases[w].victim] else []
  }

  /** What is still to come of the scan `o` of a whole list, once `done` has been woken and the list is
      `l`, gone through up to `i`. */
  ghost predicate Remains(o: WaitSpec.Outcome<nat>, l: seq<Block>, i: nat, done: seq<nat>, addr: int, count: int, rq: Option<int>) {
    && i <= |l|
    && var rest := WaitSpec.Scan(View(l[i..]), addr, count, rq, true, |done|);
       o.kept == View(l[..i]) + rest.kept && Ids(o.woken) == done + Ids(rest.woken)
  }

  ghost predicate Scanning(s: State, w: nat, o: WaitSpec.Outcome<nat>, done: seq<nat>, addr: int, count: int, rq: Option<int>) {
    && w in s.phases
    && var l := List(s, Bucket(addr));
       match s.phases[w]
       case KScan(a, c, r, i, n) => a == addr && c == count && r == rq && n == |done| && Remains(o, l, i, done, addr, count, rq)
       case KNotify(a, c, r, i, n, v) => a == addr && c == count && r == rq && n == |done| && Remains(o, l, i, done + [v], addr, count, rq)
       case KDone(a, n) => a == addr && n == |done| && View(l) == o.kept && done == Ids(o.woken)
       case _ => false
  }

  lemma ViewSplit(l: seq<Block>, i: nat)
    requires i < |l|
    ensures View(l[i..]) == [WaitSpec.Waiter(l[i].tid, l[i].addr)] + View(l[i + 1..])
    ensures View(l[i..])[1..] == View(l[i + 1..])
    ensures View(l[..i + 1]) == View(l[..i]) + [WaitSpec.Waiter(l[i].tid, l[i].addr)]
  {
  }

  /** One turn of the loop. */
  lemma TurnRemains(s: State, w: nat, o: WaitSpec.Outcome<nat>, done: seq<nat>, addr: int, count: int, rq: Option<int>)
    requires Scanning(s, w, o, done, addr, count, rq) && s.phases[w].KScan?
    ensures Scanning(ScanStep(s, w), w, o, done, addr, count, rq)
  {
    var l := List(s, Bucket(addr));
    var i, n := s.phases[w].i, s.phases[w].n;
    var l' := List(ScanStep(s, w), Bucket(addr));
    if (rq.None? && n == count) || i >= |l| {
      assert l[..i] + l[i..] == l;
      assert View(l) == View(l[..i]) + View(l[i..]);
      assert Ids([]) == [];
    } else {
      ViewSplit(l, i);
      if l[i].addr != addr {
        KeptOne(View(l[..i]), WaitSpec.Waiter(l[i].tid, l[i].addr), WaitSpec.Scan(View(l[i + 1..]), addr, count, rq, true, n).kept);
      } else if n == count && rq.Some? {
        var x := l[i].(addr := rq.value, moved := true);
        assert l' == l[i := x] && l'[..i] == l[..i] && l'[i + 1..] == l[i + 1..];
        ViewSplit(l', i);
        KeptOne(View(l[..i]), WaitSpec.Waiter(x.tid, x.addr), WaitSpec.Scan(View(l[i + 1..]), addr, count, rq, true, n).kept);
      } else {
        assert l' == l[..i] + l[i + 1..] && l'[..i] == l[..i] && l'[i..] == l[i + 1..];
        var rest := WaitSpec.Scan(View(l[i + 1..]), addr, count, rq, true, n + 1);
        assert Ids([WaitSpec.Waiter(l[i].tid, l[i].addr)] + rest.woken) == [l[i].tid] + Ids(rest.woken);
        assert done + ([l[i].tid] + Ids(rest.woken)) == (done + [l[i].tid]) + Ids(rest.woken);
      }
    }
  }

  lemma KeptOne(a: seq<WaitSpec.Waiter<nat>>, w: WaitSpec.Waiter<nat>, b: seq<WaitSpec.Waiter<nat>>)
    ensures a + ([w] + b) == (a + [w]) + b
  {
  }

  lemma ScanningStep(s: State, a: Action, w: nat, o: WaitSpec.Outcome<nat>, done: seq<nat>, addr: int, count: int, rq: Option<int>)
    requires Inv(s) && Enabled(s, a) && a != Unlock(w) && Scanning(s, w, o, done, addr, count, rq)
    ensures Scanning(Apply(s, a), w, o, if a == Notify(w) then done + [s.phases[w].victim] else done, addr, count, rq)
  {
    hide Inv, Remains;
    if a.tid != w || a.Change? {
      OwnStep(s, a, w);
      if a.tid != w {
        HeldList(s, a, w, Bucket(addr));
      }
    } else if s.phases[w].KScan? {
      TurnRemains(s, w, o, done, addr, count, rq);
    } else {
      assert a == Notify(w) && s.phases[w].KNotify?;
      assert Apply(s, a).phases[w] == KScan(addr, count, rq, s.phases[w].i, |done + [s.phases[w].victim]|);
      assert List(Apply(s, a), Bucket(addr)) == List(s, Bucket(addr));
    }
  }

  lemma {:induction false} ScanningOn(ss: seq<State>, actions: seq<Action>, i: nat, k: nat, w: nat, addr: int, count: int, rq: Option<int>)
    requires Runs(ss, actions) && Inv(ss[0]) && i < k <= |actions| && actions[i] == Lock(w) && w in ss[i].phases && ss[i].phases[w] == KLock(addr, count, rq)
    requires forall j :: i < j < k ==> actions[j] != Unlock(w)
    ensures Scanning(ss[k], w, WaitSpec.Scan(View(List(ss[i], Bucket(addr))), addr, count, rq, true, 0), WokenBy(ss, actions, i, k, w), addr, count, rq)
    decreases k
  {
    hide Inv, Scanning, Apply;
    var o := WaitSpec.Scan(View(List(ss[i], Bucket(addr))), addr, count, rq, true, 0);
    var n := k - 1;
    assert Enabled(ss[n], actions[n]) && ss[n + 1] == Apply(ss[n], actions[n]);
    if n == i {
      ScanBegins(ss[i], w, addr, count, rq);
      assert WokenBy(ss, actions, i, k, w) == [];
    } else {
      ScanningOn(ss, actions, i, n, w, addr, count, rq);
      RunInv(ss, actions, n);
      var done := WokenBy(ss, actions, i, n, w);
      ScanningStep(ss[n], actions[n], w, o, done, addr, count, rq);
      assert WokenBy(ss, actions, i, k, w) == if actions[n] == Notify(w) then done + [ss[n].phases[w].victim] else done;
    }
  }

  lemma ScanBegins(s: State, w: nat, addr: int, count: int, rq: Option<int>)
    requires Enabled(s, Lock(w)) && s.phases[w] == KLock(addr, count, rq)
    ensures Scanning(Apply(s, Lock(w)), w, WaitSpec.Scan(View(List(s, Bucket(addr))), addr, count, rq, true, 0), [], addr, count, rq)
  {
    var l := List(s, Bucket(addr));
    assert l[0..] == l && View(l[..0]) == [];
  }

  /** A call of futex_wake or of a requeue within the bucket, from taking the bucket in step `i` to letting
      go of it in step `j`, is one scan of the list it found, whatever other threads do meanwhile: what
      it leaves, whose events it sets in which order, and its result. Module WaitSpec says what such a
      scan does. */
  lemma WakeIsScan(ss: seq<State>, actions: seq<Action>, i: nat, j: nat, w: nat, addr: int, count: int, rq: Option<int>)
    requires Runs(ss, actions) && Inv(ss[0]) && i < j < |actions| && actions[i] == Lock(w) && w in ss[i].phases && ss[i].phases[w] == KLock(addr, count, rq)
    requires actions[j] == Unlock(w) && forall k :: i < k < j ==> actions[k] != Unlock(w)
    ensures var o := WaitSpec.Scan(View(List(ss[i], Bucket(addr))), addr, count, rq, true, 0);
            && View(List(ss[j + 1], Bucket(addr))) == o.kept && WokenBy(ss, actions, i, j, w) == Ids(o.woken)
            && w in ss[j + 1].phases && ss[j + 1].phases[w] == Idle(|o.woken|)
  {
    ScanningOn(ss, actions, i, j, w, addr, count, rq);
    assert Enabled(ss[j], actions[j]) && ss[j + 1] == Apply(ss[j], actions[j]);
  }
}
