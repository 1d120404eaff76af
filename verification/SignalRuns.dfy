/**
 Signals over whole runs: what a handler is protected from while it runs, that masks and actions stay
 as they were set, and what decides the fate of a signal.
 */
module SignalRuns {
  import opened Basics
  import opened Signal

  // ----- while a handler runs -----

  /** `blocked` is the mask of the handler whose frame is the one at depth `d`; handlers nested in it
      block at least that. */
  predicate Protected(th: Thread, d: nat, blocked: set<nat>) {
    && d < |th.frames| && blocked <= th.mask
    && (forall e :: d < e < |th.frames| ==> blocked <= th.frames[e].mask)
    && blocked == if d + 1 < |th.frames| then th.frames[d + 1].mask else th.mask
  }

  /** The thread's own changes of its mask. */
  predicate SetsMask(a: Action, t: nat) {
    (a.SetMask? || a.SwapMask?) && a.t == t
  }

  lemma ProtectedStep(s: State, a: Action, t: nat, d: nat, blocked: set<nat>)
    requires Enabled(s, a) && t in s.threads && Protected(s.threads[t], d, blocked) && !SetsMask(a, t)
    ensures var s' := Apply(s, a); t in s'.threads && (d < |s'.threads[t].frames| ==> Protected(s'.threads[t], d, blocked))
  {
    hide SomeTakes;
  }

  lemma ProtectedBegins(s: State, t: nat)
    requires Enabled(s, SetUp(t))
    ensures var th := s.threads[t]; var sig := th.given.value.sig;
            && t in Apply(s, SetUp(t)).threads
            && Protected(Apply(s, SetUp(t)).threads[t], |th.frames|,
                         th.mask + {sig} + if sig in s.handlers.masks then s.handlers.masks[sig] else {})
  {
  }

  lemma {:induction false} ProtectedOn(ss: seq<State>, actions: seq<Action>, i: nat, k: nat, t: nat, blocked: set<nat>)
    requires Runs(ss, actions) && i < k < |ss| && actions[i] == SetUp(t) && t in ss[i].threads && ss[i].threads[t].given.Some?
    requires forall j :: i < j <= k ==> t in ss[j].threads && |ss[i].threads[t].frames| < |ss[j].threads[t].frames|
    requires forall j :: i < j < k ==> !SetsMask(actions[j], t)
    requires var sig := ss[i].threads[t].given.value.sig;
             blocked == ss[i].threads[t].mask + {sig} + if sig in ss[i].handlers.masks then ss[i].handlers.masks[sig] else {}
    ensures Protected(ss[k].threads[t], |ss[i].threads[t].frames|, blocked)
    decreases k
  {
    hide Enabled, Apply, SetsMask, Protected;
    var n := k - 1;
    assert Enabled(ss[n], actions[n]) && ss[n + 1] == Apply(ss[n], actions[n]);
    if n == i {
      ProtectedBegins(ss[i], t);
    } else {
      ProtectedOn(ss, actions, i, n, t, blocked);
      ProtectedStep(ss[n], actions[n], t, |ss[i].threads[t].frames|, blocked);
    }
  }

  /** From the set-up of a handler in step `i` to the sigreturn that matches it, as long as the thread does
      not change its mask itself: none of the signals blocked before, nor the handled signal, nor any in
      the sa_mask of its action at the time, is given to the thread; and while no further handler is
      nested in it, the thread accepts exactly the other signals. */
  lemma HandlerBlocks(ss: seq<State>, actions: seq<Action>, i: nat, k: nat, t: nat)
    requires Runs(ss, actions) && Inv(ss[0]) && i < k < |ss| && actions[i] == SetUp(t) && t in ss[i].threads && ss[i].threads[t].given.Some?
    requires forall j :: i < j <= k ==> t in ss[j].threads && |ss[i].threads[t].frames| < |ss[j].threads[t].frames|
    requires forall j :: i < j < k ==> !SetsMask(actions[j], t)
    ensures var sig := ss[i].threads[t].given.value.sig; var th := ss[k].threads[t];
            var blocked := ss[i].threads[t].mask + {sig} + if sig in ss[i].handlers.masks then ss[i].handlers.masks[sig] else {};
            && (k < |actions| && actions[k] == Give(t) ==> InHand(ss[k]).Some? && InHand(ss[k]).value.sig !in blocked)
            && (|th.frames| == |ss[i].threads[t].frames| + 1 && th.given.None? ==> forall x :: Takes(th, x) <==> x !in blocked)
  {
    var sig := ss[i].threads[t].given.value.sig;
    var blocked := ss[i].threads[t].mask + {sig} + if sig in ss[i].handlers.masks then ss[i].handlers.masks[sig] else {};
    ProtectedOn(ss, actions, i, k, t, blocked);
    RunInv(ss, actions, k);
    OneThread(ss[k], t);
    assert k < |actions| ==> Enabled(ss[k], actions[k]);
  }

  // ----- what has been set stays -----

  predicate ChangesMask(a: Action, t: nat) {
    SetsMask(a, t) || a == SetUp(t) || a == SigReturn(t)
  }

  /** A mask that has been set holds until the next change. */
  lemma {:induction false} MaskHolds(ss: seq<State>, actions: seq<Action>, i: nat, k: nat, t: nat)
    requires Runs(ss, actions) && i < k < |ss| && SetsMask(actions[i], t)
    requires forall j :: i < j < k ==> !ChangesMask(actions[j], t)
    ensures t in ss[k].threads && ss[k].threads[t].mask == actions[i].mask
    decreases k
  {
    hide SomeTakes;
    var n := k - 1;
    assert Enabled(ss[n], actions[n]) && ss[n + 1] == Apply(ss[n], actions[n]);
    if i < n {
      MaskHolds(ss, actions, i, n, t);
      MaskKept(ss[n], actions[n], t);
    }
  }

  lemma MaskKept(s: State, a: Action, t: nat)
    requires Enabled(s, a) && t in s.threads && !ChangesMask(a, t)
    ensures t in Apply(s, a).threads && Apply(s, a).threads[t].mask == s.threads[t].mask
  {
    hide SomeTakes;
  }

  /** An action that has been set holds until the next one for its signal. */
  lemma {:induction false} ActionHolds(ss: seq<State>, actions: seq<Action>, i: nat, k: nat)
    requires Runs(ss, actions) && i < k < |ss| && actions[i].SetAction?
    requires forall j :: i < j < k && actions[j].SetAction? ==> actions[j].sig != actions[i].sig
    ensures var h, a := ss[k].handlers, actions[i];
            (a.sig in h.none <==> a.ignored) && a.sig in h.masks && h.masks[a.sig] == a.mask
    decreases k
  {
    hide SomeTakes;
    var n := k - 1;
    assert Enabled(ss[n], actions[n]) && ss[n + 1] == Apply(ss[n], actions[n]);
    if i < n {
      ActionHolds(ss, actions, i, n);
      HandlersKept(ss[n], actions[n]);
    }
  }

  lemma HandlersKept(s: State, a: Action)
    requires Enabled(s, a)
    ensures a.SetAction? || Apply(s, a).handlers == s.handlers
  {
    hide SomeTakes;
  }

  // ----- what decides the fate of a signal -----

  /** A signal is given only to a thread that takes it, and then its process handles it; it is dropped only
      without a handler; it becomes pending only when there is a handler and no thread takes it; and a
      pending one is merged only with a later one of the same number. */
  lemma FateReasons(s: State, a: Action, id: nat)
    requires Inv(s) && Enabled(s, a) && id in s.fates && (s.fates[id] == InWork || s.fates[id].Pending?)
    ensures id in Apply(s, a).fates
    ensures var s' := Apply(s, a);
            match s'.fates[id]
            case Given(t) => InHand(s).Some? && InHand(s).value.id == id && t in s.threads && Takes(s.threads[t], InHand(s).value.sig)
                             && InHand(s).value.sig !in s.handlers.none
            case Dropped => InHand(s).Some? && InHand(s).value.id == id && InHand(s).value.sig in s.handlers.none
            case Pending(sig) => s.fates[id] == Pending(sig)
                                 || (InHand(s).Some? && InHand(s).value == Info(id, sig) && sig !in s.handlers.none && !SomeTakes(s, sig))
            case Merged => s.fates[id].Pending? && s.work.Killing? && s.work.info.sig == s.fates[id].sig && s'.fates[s.work.info.id] == s.fates[id]
            case f => f == s.fates[id]
  {
    hide ThreadsOk, SomeTakes;
    if InHand(s).Some? {
      InHandIs(s);
    }
    if a.Keep? && s.work.Killing? && InHand(s).value.sig in s.pending {
      PendingFate(s.pending, s.fates, InHand(s).value.sig);
    }
  }

  /** The pending signals are announced exactly by a sigreturn or a change of mask other than rt_sigsuspend's
      after which the thread's mask lets one of them through. */
  lemma AnnouncesIff(s: State, a: Action)
    requires Enabled(s, a)
    ensures Apply(s, a).queue == s.queue + [Deliver]
       <==> (a.SetMask? || a.SigReturn?) && exists sig :: sig in s.pending && sig !in Apply(s, a).threads[a.t].mask
  {
    hide SomeTakes;
    var q := Apply(s, a).queue;
    assert q == s.queue + [Deliver] ==> |q| == |s.queue| + 1 && q[|s.queue|] == Deliver;
    if a.SetMask? || a.SigReturn? {
      var mask := Apply(s, a).threads[a.t].mask;
      if !(s.pending.Keys <= mask) {
        var sig :| sig in s.pending.Keys && sig !in mask;
        assert sig in s.pending;
      }
    }
  }

  // ----- order -----

  /** `x` is queued in front of `y`. */
  ghost predicate Ahead(s: State, x: Info, y: Info) {
    exists i, j :: 0 <= i < j < |s.queue| && s.queue[i] == Kill(x) && s.queue[j] == Kill(y)
  }

  lemma AheadStep(s: State, a: Action, x: Info, y: Info)
    requires Inv(s) && Enabled(s, a) && Ahead(s, x, y)
    ensures Ahead(Apply(s, a), x, y) || (a == TakePacket && Apply(s, a).work == Killing(x))
  {
    hide SomeTakes, ThreadsOk, FatesOk;
    var i, j :| 0 <= i < j < |s.queue| && s.queue[i] == Kill(x) && s.queue[j] == Kill(y);
    var q := Apply(s, a).queue;
    if a == TakePacket {
      assert i > 0 ==> q[i - 1] == Kill(x) && q[j - 1] == Kill(y);
    } else {
      assert q[i] == Kill(x) && q[j] == Kill(y);
    }
  }

  /** What is no longer queued is never queued again. */
  lemma StillQueued(s: State, a: Action, x: Info)
    requires Inv(s) && Enabled(s, a) && x.id in s.fates
    ensures x.id in Apply(s, a).fates
    ensures Apply(s, a).fates[x.id] == Queued ==> s.fates[x.id] == Queued && (Kill(x) in s.queue ==> Kill(x) in Apply(s, a).queue)
  {
    hide Inv, Enabled, SomeTakes;
    FatesOnward(s, a, x.id);
    if Kill(x) in s.queue {
      var i :| 0 <= i < |s.queue| && s.queue[i] == Kill(x);
      QueueMoves(s, a);
      var q := Apply(s, a).queue;
      assert a == TakePacket && i > 0 ==> q[i - 1] == Kill(x);
      assert a != TakePacket ==> q[i] == Kill(x);
    }
  }

  lemma QueueMoves(s: State, a: Action)
    requires Enabled(s, a)
    ensures var q := Apply(s, a).queue;
            if a == TakePacket then s.queue != [] && q == s.queue[1..] && (s.queue[0].Kill? ==> s.queue[0].info.id in Apply(s, a).fates && Apply(s, a).fates[s.queue[0].info.id] == InWork)
            else |s.queue| <= |q| && q[..|s.queue|] == s.queue
  {
    hide SomeTakes;
  }

  lemma RaiseQueues(s: State, x: Info)
    requires Enabled(s, Raise(x))
    ensures var s' := Apply(s, Raise(x)); x.id in s'.fates && s'.fates[x.id] == Queued && s'.queue == s.queue + [Kill(x)]
  {
  }

  lemma {:induction false} QueuedOn(ss: seq<State>, actions: seq<Action>, i: nat, k: nat, x: Info)
    requires Runs(ss, actions) && Inv(ss[0]) && i < k < |ss| && actions[i] == Raise(x)
    ensures x.id in ss[k].fates && (ss[k].fates[x.id] == Queued ==> Kill(x) in ss[k].queue)
    decreases k
  {
    hide Inv, Enabled, Apply;
    var n := k - 1;
    assert Enabled(ss[n], actions[n]) && ss[n + 1] == Apply(ss[n], actions[n]);
    if i == n {
      RaiseQueues(ss[n], x);
      assert ss[k].queue[|ss[n].queue|] == Kill(x);
    } else {
      QueuedOn(ss, actions, i, n, x);
      RunInv(ss, actions, n);
      StillQueued(ss[n], actions[n], x);
    }
  }

  /** Signals are worked on in the order in which they were raised: as long as one is queued, a later one
      is queued behind it. */
  lemma {:induction false} InOrder(ss: seq<State>, actions: seq<Action>, i: nat, j: nat, k: nat, x: Info, y: Info)
    requires Runs(ss, actions) && Inv(ss[0]) && i < j < k < |ss| && actions[i] == Raise(x) && actions[j] == Raise(y)
    ensures x.id in ss[k].fates && y.id in ss[k].fates
    ensures ss[k].fates[x.id] == Queued ==> Ahead(ss[k], x, y)
    decreases k
  {
    hide Inv, Enabled, Apply, Ahead;
    var n := k - 1;
    QueuedOn(ss, actions, i, k, x);
    QueuedOn(ss, actions, j, k, y);
    assert Enabled(ss[n], actions[n]) && ss[n + 1] == Apply(ss[n], actions[n]);
    QueuedOn(ss, actions, i, n, x);
    RunInv(ss, actions, n);
    StillQueued(ss[n], actions[n], x);
    if j == n {
      RaiseQueues(ss[n], y);
      if ss[n].fates[x.id] == Queued {
        BehindAll(ss[n].queue, x, y, ss[k]);
      }
    } else {
      InOrder(ss, actions, i, j, n, x, y);
      if ss[k].fates[x.id] == Queued {
        AheadStep(ss[n], actions[n], x, y);
        if actions[n] == TakePacket && ss[k].work == Killing(x) {
          TakenIsInWork(ss[n], actions[n], x);
        }
      }
    }
  }

  lemma TakenIsInWork(s: State, a: Action, x: Info)
    requires Enabled(s, a) && a == TakePacket && Apply(s, a).work == Killing(x)
    ensures x.id in Apply(s, a).fates && Apply(s, a).fates[x.id] == InWork
  {
  }

  lemma BehindAll(q: seq<Packet>, x: Info, y: Info, s: State)
    requires Kill(x) in q && s.queue == q + [Kill(y)]
    ensures Ahead(s, x, y)
  {
    var i :| 0 <= i < |q| && q[i] == Kill(x);
    assert s.queue[i] == Kill(x) && s.queue[|q|] == Kill(y);
  }
}
