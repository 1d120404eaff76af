/**
 Signal hand-off (src/syscall/sig.c with dbt_set_return_addr and dbt_deliver_signal of
 src/dbt/x86.c): the signal thread gives signals to threads that it suspends anywhere, also in the
 middle of dbt_set_return_addr.
 */
module Signal {
  import opened Basics

  const NSIG := 64
  const SIGKILL := 9
  const SIGSTOP := 19

  /** One raised signal; `id` tells it from all others. */
  datatype Info = Info(id: nat, sig: nat)

  /** Where a thread is: in translated code; in the kernel, before dbt_set_return_addr; after each of
      the three steps of dbt_set_return_addr; at the signal trampoline; in dbt_setup_signal_handler. */
  datatype Phase = Cache | Native | WroteEip | WroteReturn | Checked | Trampoline | SettingUp

  datatype Frame = Frame(mask: set<nat>, info: Info)

  /** `toTrampoline` tells where the saved return address leads, `flag` is signal_pending, `given` is
      current_siginfo from the hand-off until the handler is set up. */
  datatype Thread = Thread(
    phase: Phase,
    toTrampoline: bool,
    flag: bool,
    accept: bool,
    mask: set<nat>,
    given: Option<Info>,
    frames: seq<Frame>)

  datatype Packet = Kill(info: Info) | Deliver

  /** The signal thread: waiting for a packet, handling a raised signal, or going through the pending ones. */
  datatype Work = Waiting | Killing(info: Info) | Scanning(i: nat)

  /** What has become of a raised signal. */
  datatype Fate = Queued | InWork | Pending(sig: nat) | Given(t: nat) | Handled(t: nat) | Dropped | Merged

  datatype State = State(
    threads: map<nat, Thread>,
    queue: seq<Packet>,
    work: Work,
    pending: map<nat, Info>,
    fates: map<nat, Fate>,
    handlers: Handlers)

  /** What the process wants to be done: signals without a handler, and the sa_mask fields, empty at first. */
  datatype Handlers = Handlers(none: set<nat>, masks: map<nat, set<nat>>)

  function MaskOf(h: Handlers, sig: nat): set<nat> {
    if sig in h.masks then h.masks[sig] else {}
  }

  // ----- steps of a thread -----

  function Set(s: State, t: nat, th: Thread): State {
    s.(threads := s.threads[t := th])
  }

  function Fated(s: State, id: nat, f: Fate): State {
    s.(fates := s.fates[id := f])
  }

  /** send_pending_signal, with the thread's new mask. */
  function SendPending(s: State, mask: set<nat>): State {
    if s.pending.Keys <= mask then s else s.(queue := s.queue + [Deliver])
  }

  // ----- giving a signal to a thread -----

  /** A thread that signal_thread_deliver_signal may choose. */
  predicate Takes(th: Thread, sig: nat) {
    th.accept && sig !in th.mask
  }

  predicate SomeTakes(s: State, sig: nat) {
    exists t :: t in s.threads && Takes(s.threads[t], sig)
  }

  /** The thread is suspended, redirected and resumed: in the code cache it goes to the trampoline at
      once, elsewhere its return address is replaced. */
  function HandOff(th: Thread, info: Info): Thread {
    var th1 := th.(accept := false, given := Some(info));
    if th.phase == Cache then th1.(phase := Trampoline) else th1.(flag := true, toTrampoline := true)
  }

  datatype Action =
    | Raise(info: Info)
    | EnterKernel(t: nat)
    | WriteEip(t: nat)
    | WriteReturn(t: nat)
    | CheckFlag(t: nat)
    | Jump(t: nat)
    | ClearFlag(t: nat)
    | SetUp(t: nat)
    | SigReturn(t: nat)
    | SetMask(t: nat, mask: set<nat>)
    | SwapMask(t: nat, mask: set<nat>)    // the mask changes of rt_sigsuspend, which announce nothing
    | SetAction(t: nat, sig: nat, ignored: bool, mask: set<nat>)
    | TakePacket
    | Give(t: nat)        // the signal in hand goes to thread t
    | NoHandler           // it is ignored, or the default is done
    | Keep                // nobody takes it: it is or stays pending
    | SkipSignal          // the scan passes a signal that is not pending, or ends

  /** The signal that the signal thread has in hand. */
  function InHand(s: State): Option<Info> {
    match s.work
    case Killing(info) => Some(info)
    case Scanning(i) => if i < NSIG && i in s.pending then Some(s.pending[i]) else None
    case Waiting => None
  }

  /** The signal mutex is free. */
  predicate Unlocked(s: State) {
    s.work.Waiting?
  }

  predicate Enabled(s: State, a: Action) {
    match a
    case Raise(info) => info.id !in s.fates && info.sig < NSIG
    case EnterKernel(t) => t in s.threads && s.threads[t].phase == Cache
    case WriteEip(t) => t in s.threads && s.threads[t].phase == Native
    case WriteReturn(t) => t in s.threads && s.threads[t].phase == WroteEip
    case CheckFlag(t) => t in s.threads && s.threads[t].phase == WroteReturn
    case Jump(t) => t in s.threads && s.threads[t].phase == Checked
    case ClearFlag(t) => t in s.threads && s.threads[t].phase == Trampoline
    case SetUp(t) => t in s.threads && s.threads[t].phase == SettingUp && s.threads[t].given.Some? && Unlocked(s)
    case SigReturn(t) => t in s.threads && s.threads[t].phase == Native && s.threads[t].frames != [] && Unlocked(s)
    case SetMask(t, _) => t in s.threads && s.threads[t].phase == Native && Unlocked(s)
    case SwapMask(t, _) => t in s.threads && s.threads[t].phase == Native && Unlocked(s)
    case SetAction(t, sig, _, _) =>
      t in s.threads && s.threads[t].phase == Native && Unlocked(s) && sig < NSIG && sig != SIGKILL && sig != SIGSTOP
    case TakePacket => s.work.Waiting? && s.queue != []
    case Give(t) => InHand(s).Some? && InHand(s).value.sig !in s.handlers.none && t in s.threads && Takes(s.threads[t], InHand(s).value.sig)
    case NoHandler => InHand(s).Some? && InHand(s).value.sig in s.handlers.none
    case Keep => InHand(s).Some? && InHand(s).value.sig !in s.handlers.none && !SomeTakes(s, InHand(s).value.sig)
    case SkipSignal => s.work.Scanning? && InHand(s).None?
  }

  /** The signal thread is done with the signal in hand. */
  function Next(s: State): State {
    s.(work := if s.work.Scanning? then Scanning(s.work.i + 1) else Waiting)
  }

  /** A signal in hand that leaves the pending ones. */
  function Taken(s: State): State {
    if s.work.Scanning? then s.(pending := s.pending - {s.work.i}) else s
  }

  function Apply(s: State, a: Action): State
    requires Enabled(s, a)
  {
    match a
    case Raise(info) => Fated(s, info.id, Queued).(queue := s.queue + [Kill(info)])
    case EnterKernel(t) => Set(s, t, s.threads[t].(phase := Native))
    case WriteEip(t) => Set(s, t, s.threads[t].(phase := WroteEip))
    case WriteReturn(t) => Set(s, t, s.threads[t].(phase := WroteReturn, toTrampoline := false))
    case CheckFlag(t) =>
      Set(s, t, s.threads[t].(phase := Checked, toTrampoline := s.threads[t].flag || s.threads[t].toTrampoline))
    case Jump(t) => Set(s, t, s.threads[t].(phase := if s.threads[t].toTrampoline then Trampoline else Cache))
    case ClearFlag(t) => Set(s, t, s.threads[t].(phase := SettingUp, flag := false))
    case SetUp(t) =>
      var th := s.threads[t];
      var info := th.given.value;
      Fated(Set(s, t, th.(phase := Native, accept := true, given := None,
                          mask := th.mask + {info.sig} + MaskOf(s.handlers, info.sig), frames := th.frames + [Frame(th.mask, info)])),
            info.id, Handled(t))
    case SigReturn(t) =>
      var th := s.threads[t];
      var mask := th.frames[|th.frames| - 1].mask;
      SendPending(Set(s, t, th.(mask := mask, frames := th.frames[..|th.frames| - 1])), mask)
    case SetMask(t, mask) => SendPending(Set(s, t, s.threads[t].(mask := mask)), mask)
    case SwapMask(t, mask) => Set(s, t, s.threads[t].(mask := mask))
    case SetAction(_, sig, ignored, mask) =>
      s.(handlers := Handlers(if ignored then s.handlers.none + {sig} else s.handlers.none - {sig}, s.handlers.masks[sig := mask]))
    case TakePacket =>
      (match s.queue[0]
       case Kill(info) => Fated(s, info.id, InWork).(queue := s.queue[1..], work := Killing(info))
       case Deliver => s.(queue := s.queue[1..], work := Scanning(0)))
    case Give(t) =>
      var info := InHand(s).value;
      Next(Fated(Set(Taken(s), t, HandOff(s.threads[t], info)), info.id, Given(t)))
    case NoHandler => Next(Fated(Taken(s), InHand(s).value.id, Dropped))
    case Keep =>
      var info := InHand(s).value;
      if s.work.Scanning? then Next(s)
      else
        var s1 := if info.sig in s.pending then Fated(s, s.pending[info.sig].id, Merged) else s;
        Next(Fated(s1, info.id, Pending(info.sig)).(pending := s.pending[info.sig := info]))
    case SkipSignal => s.(work := if s.work.i < NSIG then Scanning(s.work.i + 1) else Waiting)
  }

  // ----- the invariant -----

  /** A thread with a signal in its hands is on its way to the trampoline, wherever it is; one without
      is not. */
  predicate ThreadOk(th: Thread) {
    && (th.accept <==> th.given.None?)
    && (th.given.Some? ==>
          match th.phase
          case Cache => false
          case Native => th.flag
          case WroteEip => th.flag
          case WroteReturn => th.flag
          case Checked => th.toTrampoline
          case Trampoline => true
          case SettingUp => !th.flag)
    && (th.given.None? ==>
          && !th.flag && th.phase != Trampoline && th.phase != SettingUp
          && (th.phase == WroteReturn || th.phase == Checked ==> !th.toTrampoline))
  }

  ghost predicate ThreadsOk(s: State) {
    forall t :: t in s.threads ==> ThreadOk(s.threads[t])
  }

  // Every raised signal is exactly where its fate says.

  ghost predicate QueueOk(queue: seq<Packet>, fates: map<nat, Fate>) {
    && (forall i :: 0 <= i < |queue| && queue[i].Kill? ==> queue[i].info.id in fates && fates[queue[i].info.id] == Queued && queue[i].info.sig < NSIG)
    && (forall i, j :: 0 <= i < j < |queue| && queue[i].Kill? && queue[j].Kill? ==> queue[i].info.id != queue[j].info.id)
    && (forall id :: id in fates && fates[id] == Queued ==> InQueue(queue, id))
  }

  predicate InQueue(queue: seq<Packet>, id: nat) {
    exists i :: 0 <= i < |queue| && queue[i].Kill? && queue[i].info.id == id
  }

  ghost predicate WorkOk(work: Work, fates: map<nat, Fate>) {
    && (work.Killing? ==> work.info.id in fates && fates[work.info.id] == InWork && work.info.sig < NSIG)
    && (forall id :: id in fates && fates[id] == InWork ==> work.Killing? && work.info.id == id)
  }

  ghost predicate PendingOk(pending: map<nat, Info>, fates: map<nat, Fate>) {
    && (forall sig :: sig in pending ==> pending[sig].sig == sig && sig < NSIG && pending[sig].id in fates && fates[pending[sig].id] == Pending(sig))
    && (forall id, sig :: id in fates && fates[id] == Pending(sig) ==> sig in pending && pending[sig].id == id)
  }

  ghost predicate GivenOk(threads: map<nat, Thread>, fates: map<nat, Fate>) {
    && (forall t :: t in threads && threads[t].given.Some? ==> threads[t].given.value.id in fates && fates[threads[t].given.value.id] == Given(t))
    && (forall id, t :: id in fates && fates[id] == Given(t) ==> t in threads && threads[t].given.Some? && threads[t].given.value.id == id)
  }

  ghost predicate FatesOk(s: State) {
    QueueOk(s.queue, s.fates) && WorkOk(s.work, s.fates) && PendingOk(s.pending, s.fates) && GivenOk(s.threads, s.fates)
  }

  ghost predicate Inv(s: State) {
    ThreadsOk(s) && FatesOk(s)
  }

  // ----- every step keeps the invariant -----

  lemma StepThreads(s: State, a: Action)
    requires ThreadsOk(s) && Enabled(s, a)
    ensures ThreadsOk(Apply(s, a))
  {
    hide SomeTakes;
    forall t | t in Apply(s, a).threads ensures ThreadOk(Apply(s, a).threads[t]) {
      assert t in s.threads ==> ThreadOk(s.threads[t]);
    }
  }

  /** The fate of `id` changes from something that is not of a kind to something that is not either. */
  lemma QueueSame(queue: seq<Packet>, fates: map<nat, Fate>, id: nat, now: Fate)
    requires QueueOk(queue, fates) && now != Queued && (id in fates ==> fates[id] != Queued)
    ensures QueueOk(queue, fates[id := now])
  {
    hide InQueue;
  }

  lemma WorkSame(work: Work, fates: map<nat, Fate>, id: nat, now: Fate)
    requires WorkOk(work, fates) && now != InWork && (id in fates ==> fates[id] != InWork)
    ensures WorkOk(work, fates[id := now])
  {
  }

  lemma PendingSame(pending: map<nat, Info>, fates: map<nat, Fate>, id: nat, now: Fate)
    requires PendingOk(pending, fates) && !now.Pending? && (id in fates ==> !fates[id].Pending?)
    ensures PendingOk(pending, fates[id := now])
  {
  }

  lemma GivenKept(threads: map<nat, Thread>, fates: map<nat, Fate>, id: nat, now: Fate)
    requires GivenOk(threads, fates) && !now.Given? && (id in fates ==> !fates[id].Given?)
    ensures GivenOk(threads, fates[id := now])
  {
  }

  /** A pending signal is taken out, or another one put in its place. */
  lemma PendingDrops(pending: map<nat, Info>, fates: map<nat, Fate>, sig: nat, now: Fate)
    requires PendingOk(pending, fates) && sig in pending && !now.Pending?
    ensures PendingOk(pending - {sig}, fates[pending[sig].id := now])
  {
  }

  lemma PendingGets(pending: map<nat, Info>, fates: map<nat, Fate>, info: Info)
    requires PendingOk(pending, fates) && info.sig !in pending && info.sig < NSIG && (info.id in fates ==> !fates[info.id].Pending?)
    ensures PendingOk(pending[info.sig := info], fates[info.id := Pending(info.sig)])
  {
  }

  lemma GivenGets(threads: map<nat, Thread>, fates: map<nat, Fate>, t: nat, th: Thread, info: Info)
    requires GivenOk(threads, fates) && t in threads && threads[t].given.None? && th.given == Some(info)
    requires info.id in fates ==> !fates[info.id].Given?
    ensures GivenOk(threads[t := th], fates[info.id := Given(t)])
  {
  }

  lemma GivenDrops(threads: map<nat, Thread>, fates: map<nat, Fate>, t: nat, th: Thread, now: Fate)
    requires GivenOk(threads, fates) && t in threads && threads[t].given.Some? && th.given.None? && !now.Given?
    ensures GivenOk(threads[t := th], fates[threads[t].given.value.id := now])
  {
  }

  lemma DeliverQueued(queue: seq<Packet>, fates: map<nat, Fate>)
    requires QueueOk(queue, fates)
    ensures QueueOk(queue + [Deliver], fates)
  {
    forall id | InQueue(queue, id) ensures InQueue(queue + [Deliver], id) {
      var i :| 0 <= i < |queue| && queue[i].Kill? && queue[i].info.id == id;
      assert (queue + [Deliver])[i] == queue[i];
    }
  }

  lemma GivenSame(threads: map<nat, Thread>, threads': map<nat, Thread>, fates: map<nat, Fate>)
    requires GivenOk(threads, fates) && threads'.Keys == threads.Keys && forall t :: t in threads ==> threads'[t].given == threads[t].given
    ensures GivenOk(threads', fates)
  {
  }

  lemma RaiseFates(s: State, info: Info)
    requires FatesOk(s) && Enabled(s, Raise(info))
    ensures FatesOk(Apply(s, Raise(info)))
  {
    hide WorkOk, PendingOk, GivenOk;
    var s' := Apply(s, Raise(info));
    WorkSame(s.work, s.fates, info.id, Queued);
    PendingSame(s.pending, s.fates, info.id, Queued);
    GivenKept(s.threads, s.fates, info.id, Queued);
    assert s'.queue[|s.queue|] == Kill(info);
    forall id | InQueue(s.queue, id) ensures InQueue(s'.queue, id) {
      var i :| 0 <= i < |s.queue| && s.queue[i].Kill? && s.queue[i].info.id == id;
      assert s'.queue[i] == s.queue[i];
    }
  }

  lemma TakeFates(s: State)
    requires FatesOk(s) && Enabled(s, TakePacket)
    ensures FatesOk(Apply(s, TakePacket))
  {
    hide PendingOk, GivenOk;
    var s' := Apply(s, TakePacket);
    if s.queue[0].Kill? {
      PendingSame(s.pending, s.fates, s.queue[0].info.id, InWork);
      GivenKept(s.threads, s.fates, s.queue[0].info.id, InWork);
    }
    forall id | InQueue(s.queue, id) && !(s.queue[0].Kill? && s.queue[0].info.id == id) ensures InQueue(s'.queue, id) {
      var i :| 0 <= i < |s.queue| && s.queue[i].Kill? && s.queue[i].info.id == id;
      assert s'.queue[i - 1] == s.queue[i];
    }
  }

  lemma SetUpFates(s: State, t: nat)
    requires FatesOk(s) && Enabled(s, SetUp(t))
    ensures FatesOk(Apply(s, SetUp(t)))
  {
    hide QueueOk, WorkOk, PendingOk, GivenOk;
    var s' := Apply(s, SetUp(t));
    var id := s.threads[t].given.value.id;
    assert id in s.fates && s.fates[id] == Given(t) by { GivenFate(s.threads, s.fates, t); }
    QueueSame(s.queue, s.fates, id, Handled(t));
    WorkSame(s.work, s.fates, id, Handled(t));
    PendingSame(s.pending, s.fates, id, Handled(t));
    GivenDrops(s.threads, s.fates, t, s'.threads[t], Handled(t));
  }

  lemma GivenFate(threads: map<nat, Thread>, fates: map<nat, Fate>, t: nat)
    requires GivenOk(threads, fates) && t in threads && threads[t].given.Some?
    ensures threads[t].given.value.id in fates && fates[threads[t].given.value.id] == Given(t)
  {
  }

  /** The signal in hand is the one being worked on, or a pending one. */
  lemma InHandIs(s: State)
    requires FatesOk(s) && InHand(s).Some?
    ensures var info := InHand(s).value;
            && info.id in s.fates && info.sig < NSIG
            && (if s.work.Killing? then s.fates[info.id] == InWork else s.work.i in s.pending && info.sig == s.work.i && s.fates[info.id] == Pending(info.sig))
  {
    hide QueueOk, GivenOk;
  }

  /** The signal in hand is no longer worked on nor pending. */
  lemma TakenFates(s: State, now: Fate)
    requires FatesOk(s) && InHand(s).Some? && (now.Given? || now.Dropped?)
    ensures var s1 := Next(Fated(Taken(s), InHand(s).value.id, now));
            QueueOk(s1.queue, s1.fates) && WorkOk(s1.work, s1.fates) && PendingOk(s1.pending, s1.fates)
  {
    hide QueueOk, GivenOk, PendingOk;
    InHandIs(s);
    var info := InHand(s).value;
    QueueSame(s.queue, s.fates, info.id, now);
    if s.work.Killing? {
      PendingSame(s.pending, s.fates, info.id, now);
    } else {
      PendingDrops(s.pending, s.fates, s.work.i, now);
    }
  }

  lemma GiveFates(s: State, t: nat)
    requires FatesOk(s) && ThreadsOk(s) && Enabled(s, Give(t))
    ensures FatesOk(Apply(s, Give(t)))
  {
    hide QueueOk, WorkOk, PendingOk, GivenOk, ThreadsOk;
    OneThread(s, t);
    TakenFates(s, Given(t));
    InHandIs(s);
    GivenGets(s.threads, s.fates, t, HandOff(s.threads[t], InHand(s).value), InHand(s).value);
  }

  lemma OneThread(s: State, t: nat)
    requires ThreadsOk(s) && t in s.threads
    ensures ThreadOk(s.threads[t])
  {
  }

  lemma DropFates(s: State)
    requires FatesOk(s) && Enabled(s, NoHandler)
    ensures FatesOk(Apply(s, NoHandler))
  {
    hide QueueOk, WorkOk, PendingOk, GivenOk;
    TakenFates(s, Dropped);
    InHandIs(s);
    GivenKept(s.threads, s.fates, InHand(s).value.id, Dropped);
  }

  /** A raised signal that nobody takes becomes pending; one that was pending already is merged with it. */
  lemma KeepFates(s: State)
    requires FatesOk(s) && Enabled(s, Keep)
    ensures FatesOk(Apply(s, Keep))
  {
    hide QueueOk, WorkOk, PendingOk, GivenOk, SomeTakes;
    InHandIs(s);
    var info := InHand(s).value;
    if s.work.Killing? {
      var f, p := s.fates, s.pending;
      if info.sig in s.pending {
        var id := s.pending[info.sig].id;
        assert f[id] == Pending(info.sig) by { PendingFate(s.pending, s.fates, info.sig); }
        QueueSame(s.queue, f, id, Merged);
        WorkSame(s.work, f, id, Merged);
        GivenKept(s.threads, f, id, Merged);
        PendingDrops(p, f, info.sig, Merged);
        f, p := f[id := Merged], p - {info.sig};
      }
      QueueSame(s.queue, f, info.id, Pending(info.sig));
      GivenKept(s.threads, f, info.id, Pending(info.sig));
      PendingGets(p, f, info);
      WorkDone(s.work, f, info.id, Pending(info.sig));
      assert p[info.sig := info] == s.pending[info.sig := info];
    } else {
      WorkScans(s);
    }
  }

  lemma PendingFate(pending: map<nat, Info>, fates: map<nat, Fate>, sig: nat)
    requires PendingOk(pending, fates) && sig in pending
    ensures pending[sig].id in fates && fates[pending[sig].id] == Pending(sig)
  {
  }

  lemma WorkDone(work: Work, fates: map<nat, Fate>, id: nat, now: Fate)
    requires WorkOk(work, fates) && work.Killing? && work.info.id == id && now != InWork
    ensures WorkOk(Waiting, fates[id := now])
  {
  }

  lemma StepFates(s: State, a: Action)
    requires Inv(s) && Enabled(s, a)
    ensures FatesOk(Apply(s, a))
  {
    hide QueueOk, WorkOk, PendingOk, GivenOk, ThreadsOk;
    var s' := Apply(s, a);
    match a
    case Raise(info) => RaiseFates(s, info);
    case TakePacket => TakeFates(s);
    case SetUp(t) => SetUpFates(s, t);
    case Give(t) => GiveFates(s, t);
    case NoHandler => DropFates(s);
    case Keep => KeepFates(s);
    case SkipSignal =>
      assert WorkOk(s'.work, s'.fates) by { WorkScans(s); }
    case _ =>
      GivenSame(s.threads, s'.threads, s.fates);
      DeliverQueued(s.queue, s.fates);
  }

  lemma WorkScans(s: State)
    requires WorkOk(s.work, s.fates) && !s.work.Killing?
    ensures forall w: Work :: !w.Killing? ==> WorkOk(w, s.fates)
  {
  }

  /** Every interleaving of the signal thread with any number of threads keeps the invariant. */
  lemma StepInv(s: State, a: Action)
    requires Inv(s) && Enabled(s, a)
    ensures Inv(Apply(s, a))
  {
    hide ThreadsOk, FatesOk;
    StepThreads(s, a);
    StepFates(s, a);
  }

  // ----- what the invariant gives -----

  /** A thread's next transfer to user code enters the trampoline exactly if a signal has been given to
      it, wherever in dbt_set_return_addr that happened. */
  lemma JumpEntersIff(s: State, t: nat)
    requires Inv(s) && Enabled(s, Jump(t))
    ensures Apply(s, Jump(t)).threads[t].phase == if s.threads[t].given.Some? then Trampoline else Cache
  {
    hide FatesOk;
    OneThread(s, t);
  }

  /** A signal that has been given to a thread stays there until its handler is set up. */
  lemma NotOverwritten(s: State, a: Action, t: nat)
    requires Inv(s) && Enabled(s, a) && t in s.threads && s.threads[t].given.Some?
    ensures var s' := Apply(s, a);
            && t in s'.threads
            && (if a == SetUp(t) then s'.threads[t].given.None? && s'.threads[t].frames == s.threads[t].frames + [Frame(s.threads[t].mask, s.threads[t].given.value)]
                else s'.threads[t].given == s.threads[t].given)
  {
    hide FatesOk;
    OneThread(s, t);
  }

  /** From the trampoline a thread goes on to its handler and nowhere else, so it enters it once. */
  lemma TrampolineOnce(s: State, a: Action, t: nat)
    requires Inv(s) && Enabled(s, a) && t in s.threads
    ensures var th, th' := s.threads[t], Apply(s, a).threads[t];
            && (th.phase == Trampoline ==> th' == th || a == ClearFlag(t))
            && (th.phase == SettingUp ==> th' == th || a == SetUp(t))
            && (th'.phase == Trampoline && th.phase != Trampoline ==> (a == Jump(t) || a == Give(t)) && th'.given.Some?)
  {
    hide FatesOk;
    OneThread(s, t);
  }

  /** Each raised signal is still on its way, pending, in a thread's hands, handled, dropped for want of
      a handler, or merged with a later one that was pending for the same number. */
  lemma Accounted(s: State, id: nat)
    requires Inv(s) && id in s.fates
    ensures match s.fates[id]
            case Queued => InQueue(s.queue, id)
            case InWork => s.work.Killing? && s.work.info.id == id
            case Pending(sig) => sig in s.pending && s.pending[sig].id == id
            case Given(t) => t in s.threads && s.threads[t].given.Some? && s.threads[t].given.value.id == id
            case _ => true
  {
    hide ThreadsOk;
  }

  /** How the fate of a signal may change. */
  predicate Onward(f: Fate, f': Fate) {
    match f
    case Queued => f' == f || f'.InWork?
    case InWork => f' == f || f'.Pending? || f'.Given? || f'.Dropped?
    case Pending(_) => f' == f || f'.Given? || f'.Dropped? || f'.Merged?
    case Given(t) => f' == f || f' == Handled(t)
    case _ => f' == f
  }

  /** No signal is lost or handled twice. */
  lemma FatesOnward(s: State, a: Action, id: nat)
    requires Inv(s) && Enabled(s, a) && id in s.fates
    ensures id in Apply(s, a).fates && Onward(s.fates[id], Apply(s, a).fates[id])
  {
    hide ThreadsOk, SomeTakes;
    if InHand(s).Some? {
      InHandIs(s);
    }
    if a.Keep? && s.work.Killing? && InHand(s).value.sig in s.pending {
      PendingFate(s.pending, s.fates, InHand(s).value.sig);
    }
    if a.SetUp? {
      GivenFate(s.threads, s.fates, a.t);
    }
  }

  // ----- nested handlers -----

  ghost predicate Runs(ss: seq<State>, actions: seq<Action>) {
    |ss| == |actions| + 1 && forall i :: 0 <= i < |actions| ==> Enabled(ss[i], actions[i]) && ss[i + 1] == Apply(ss[i], actions[i])
  }

  /** A step leaves a frame alone as long as it is not the one that is returned from. */
  lemma FrameKept(s: State, a: Action, t: nat, d: nat)
    requires Enabled(s, a) && t in s.threads && d < |s.threads[t].frames|
    ensures var s' := Apply(s, a); t in s'.threads && (d < |s'.threads[t].frames| ==> s'.threads[t].frames[d] == s.threads[t].frames[d])
    ensures |s.threads[t].frames| - 1 <= |Apply(s, a).threads[t].frames|
  {
    hide SomeTakes;
  }

  lemma {:induction false} FrameStays(ss: seq<State>, actions: seq<Action>, i: nat, j: nat, t: nat, d: nat)
    requires Runs(ss, actions) && i <= j < |ss|
    requires forall k :: i <= k <= j ==> t in ss[k].threads && d < |ss[k].threads[t].frames|
    ensures ss[j].threads[t].frames[d] == ss[i].threads[t].frames[d]
    decreases j - i
  {
    hide Apply, Enabled;
    if i < j {
      FrameStays(ss, actions, i, j - 1, t, d);
      assert Enabled(ss[j - 1], actions[j - 1]) && ss[j - 1 + 1] == Apply(ss[j - 1], actions[j - 1]);
      FrameKept(ss[j - 1], actions[j - 1], t, d);
    }
  }

  /** Nested sigreturns: the one that matches the set-up of a handler restores the mask the thread had
      when the handler was set up, whatever handlers and mask changes came in between. */
  lemma SigReturnRestores(ss: seq<State>, actions: seq<Action>, i: nat, j: nat, t: nat)
    requires Runs(ss, actions) && i < j < |actions| && actions[i] == SetUp(t) && actions[j] == SigReturn(t)
    requires forall k :: i < k <= j ==> t in ss[k].threads && |ss[i].threads[t].frames| < |ss[k].threads[t].frames|
    requires |ss[j].threads[t].frames| == |ss[i].threads[t].frames| + 1
    ensures ss[j + 1].threads[t].mask == ss[i].threads[t].mask
    ensures |ss[j + 1].threads[t].frames| == |ss[i].threads[t].frames|
  {
    var d := |ss[i].threads[t].frames|;
    assert Enabled(ss[i], actions[i]) && ss[i + 1] == Apply(ss[i], actions[i]);
    assert Enabled(ss[j], actions[j]) && ss[j + 1] == Apply(ss[j], actions[j]);
    FrameStays(ss, actions, i + 1, j, t, d);
  }

  /** At the start no signal has been raised and every thread accepts one. */
  function Start(masks: map<nat, set<nat>>, handlers: Handlers): (s: State)
    ensures Inv(s) && s.pending == map[]
  {
    State(map t | t in masks :: Thread(Native, false, false, true, masks[t], None, []), [], Waiting, map[], map[], handlers)
  }

  lemma {:induction false} RunInv(ss: seq<State>, actions: seq<Action>, i: nat)
    requires Runs(ss, actions) && Inv(ss[0]) && i < |ss|
    ensures Inv(ss[i])
    decreases i
  {
    if i > 0 {
      RunInv(ss, actions, i - 1);
      assert Enabled(ss[i - 1], actions[i - 1]) && ss[i - 1 + 1] == Apply(ss[i - 1], actions[i - 1]);
      StepInv(ss[i - 1], actions[i - 1]);
    }
  }

  // ----- pending signals that are left behind -----

  ghost predicate Announced(s: State) {
    Deliver in s.queue
  }

  /** The last thing that was done to the thread. */
  predicate Opens(a: Action, t: nat) {
    (a.SetUp? || a.SwapMask?) && a.t == t
  }

  predicate Touches(a: Action, t: nat) {
    (a.SetUp? || a.SwapMask? || a.SetMask? || a.SigReturn? || a.Give?) && a.t == t
  }

  /** The signal thread is going through the pending signals. */
  predicate Looking(s: State) {
    s.work.Scanning?
  }

  /** The last of these steps of `t` before state `m` was step `i`, a handler set up or a mask changed
      by rt_sigsuspend, and the pending signals have not been gone through since. */
  ghost predicate OpenSince(ss: seq<State>, actions: seq<Action>, i: nat, m: nat, t: nat) {
    && i < m < |ss| && |ss| == |actions| + 1 && Opens(actions[i], t)
    && (forall k :: i < k < m ==> !Touches(actions[k], t))
    && (forall k :: i < k <= m ==> !Looking(ss[k]))
  }

  /** A pending signal that a thread would take will be looked at, or the thread has only just become
      ready for it. */
  ghost predicate Explained(ss: seq<State>, actions: seq<Action>, m: nat, t: nat, sig: nat)
    requires m < |ss|
  {
    || Announced(ss[m])
    || (ss[m].work.Scanning? && ss[m].work.i <= sig)
    || exists i :: OpenSince(ss, actions, i, m, t)
  }

  predicate CouldTake(s: State, t: nat, sig: nat) {
    sig in s.pending && t in s.threads && Takes(s.threads[t], sig)
  }

  /** One step of the induction. */
  lemma StillExplained(ss: seq<State>, actions: seq<Action>, m: nat, t: nat, sig: nat)
    requires Runs(ss, actions) && m < |actions| && Inv(ss[m])
    requires CouldTake(ss[m], t, sig) ==> Explained(ss, actions, m, t, sig)
    requires CouldTake(ss[m + 1], t, sig)
    ensures Explained(ss, actions, m + 1, t, sig)
  {
    hide Apply, Enabled, Inv, CouldTake, Opens, Touches;
    var s, a, s' := ss[m], actions[m], ss[m + 1];
    assert Enabled(s, a) && s' == Apply(s, a);
    if Opens(a, t) {
      OpensUnlocked(s, a, t);
      assert OpenSince(ss, actions, m, m + 1, t);
    } else {
      BecomesReady(s, a, t, sig);
      if !Announced(s') && !(s'.work.Scanning? && s'.work.i <= sig) {
        PendingIsSignal(s, t, sig);
        StaysLookedAt(s, a, t, sig);
        var i :| OpenSince(ss, actions, i, m, t);
        assert OpenSince(ss, actions, i, m + 1, t);
      }
    }
  }

  lemma OpensUnlocked(s: State, a: Action, t: nat)
    requires Enabled(s, a) && Opens(a, t)
    ensures !Looking(Apply(s, a))
  {
  }

  /** Only these steps make a thread ready for a pending signal without an announcement. */
  lemma BecomesReady(s: State, a: Action, t: nat, sig: nat)
    requires Enabled(s, a) && CouldTake(Apply(s, a), t, sig) && !Opens(a, t)
    ensures Announced(Apply(s, a)) || CouldTake(s, t, sig)
  {
  }

  lemma PendingIsSignal(s: State, t: nat, sig: nat)
    requires Inv(s) && CouldTake(s, t, sig)
    ensures sig < NSIG && sig in s.pending && s.pending[sig].sig == sig
  {
    assert s.pending[sig].sig == sig;
  }

  lemma AnnouncedUntilTaken(s: State, a: Action)
    requires Enabled(s, a) && Announced(s)
    ensures Announced(Apply(s, a)) || Apply(s, a).work == Scanning(0)
  {
    hide SomeTakes;
    if a.TakePacket? && s.queue[0].Kill? {
      var i :| 0 <= i < |s.queue| && s.queue[i] == Deliver;
      assert Apply(s, a).queue[i - 1] == Deliver;
    }
  }

  /** What was announced is looked at, and what is looked at is given away or taken by nobody. */
  lemma StaysLookedAt(s: State, a: Action, t: nat, sig: nat)
    requires sig < NSIG && (sig in s.pending ==> s.pending[sig].sig == sig)
    requires Enabled(s, a) && CouldTake(s, t, sig) && CouldTake(Apply(s, a), t, sig)
    requires var s' := Apply(s, a); !Announced(s') && !(s'.work.Scanning? && s'.work.i <= sig)
    ensures !Announced(s) && !(s.work.Scanning? && s.work.i <= sig) && (!Opens(a, t) ==> !Touches(a, t))
    ensures Apply(s, a).work.Scanning? ==> s.work.Scanning?
  {
    if Announced(s) {
      AnnouncedUntilTaken(s, a);
    }
  }

  lemma {:induction false} RunExplained(ss: seq<State>, actions: seq<Action>, m: nat, t: nat, sig: nat)
    requires Runs(ss, actions) && Inv(ss[0]) && ss[0].pending == map[] && m < |ss| && CouldTake(ss[m], t, sig)
    ensures Explained(ss, actions, m, t, sig)
    decreases m
  {
    if m > 0 {
      if CouldTake(ss[m - 1], t, sig) {
        RunExplained(ss, actions, m - 1, t, sig);
      }
      RunInv(ss, actions, m - 1);
      StillExplained(ss, actions, m - 1, t, sig);
    }
  }

  /** Nothing else in between makes the thread ready or unready. */
  lemma {:induction false} OpenKept(ss: seq<State>, actions: seq<Action>, i: nat, m: nat, t: nat)
    requires Runs(ss, actions) && OpenSince(ss, actions, i, m, t)
    ensures t in ss[i + 1].threads && t in ss[m].threads
    ensures ss[m].threads[t].accept == ss[i + 1].threads[t].accept && ss[m].threads[t].mask == ss[i + 1].threads[t].mask
    decreases m
  {
    hide Apply, Enabled, Opens, Touches, Looking;
    assert Enabled(ss[m - 1], actions[m - 1]) && ss[m - 1 + 1] == Apply(ss[m - 1], actions[m - 1]);
    if i + 1 < m {
      OpenKept(ss, actions, i, m - 1, t);
      OthersKeep(ss[m - 1], actions[m - 1], t);
    } else {
      OpensAThread(ss[i], actions[i], t);
    }
  }

  lemma OpensAThread(s: State, a: Action, t: nat)
    requires Enabled(s, a) && Opens(a, t)
    ensures t in Apply(s, a).threads
  {
  }

  lemma OthersKeep(s: State, a: Action, t: nat)
    requires Enabled(s, a) && !Touches(a, t) && t in s.threads
    ensures var s' := Apply(s, a); t in s'.threads && s'.threads[t].accept == s.threads[t].accept && s'.threads[t].mask == s.threads[t].mask
  {
    hide SomeTakes;
  }

  /** With no announcement queued and the pending signals not being gone through, a thread could take a
      pending signal if and only if it has set up a handler, or changed its mask in rt_sigsuspend,
      since they were last gone through, was given nothing and set no mask since, and came out of that
      accepting with the signal unmasked. */
  lemma LeftBehindIff(ss: seq<State>, actions: seq<Action>, m: nat, t: nat, sig: nat)
    requires Runs(ss, actions) && Inv(ss[0]) && ss[0].pending == map[] && m < |ss|
    requires sig in ss[m].pending && !Announced(ss[m]) && !ss[m].work.Scanning?
    ensures CouldTake(ss[m], t, sig)
       <==> exists i :: OpenSince(ss, actions, i, m, t) && t in ss[i + 1].threads && Takes(ss[i + 1].threads[t], sig)
  {
    if CouldTake(ss[m], t, sig) {
      RunExplained(ss, actions, m, t, sig);
      var i :| OpenSince(ss, actions, i, m, t);
      OpenKept(ss, actions, i, m, t);
    }
    if i :| OpenSince(ss, actions, i, m, t) && t in ss[i + 1].threads && Takes(ss[i + 1].threads[t], sig) {
      OpenKept(ss, actions, i, m, t);
    }
  }

  lemma RunsOn(ss: seq<State>, actions: seq<Action>, more: seq<State>, further: seq<Action>)
    requires Runs(ss, actions) && Runs(more, further) && ss[|actions|] == more[0]
    ensures Runs(ss + more[1..], actions + further)
    ensures (ss + more[1..])[|actions + further|] == more[|further|]
  {
    hide Enabled, Apply;
    var all, acts := ss + more[1..], actions + further;
    forall i | 0 <= i < |acts| ensures Enabled(all[i], acts[i]) && all[i + 1] == Apply(all[i], acts[i]) {
      if i < |actions| {
        assert acts[i] == actions[i] && all[i + 1] == ss[i + 1];
      } else {
        var j := i - |actions|;
        assert acts[i] == further[j] && all[i] == more[j] && all[i + 1] == more[j + 1];
      }
    }
  }

  /** A thread that has signal 10 in its hands, while nothing or 12 is pending. */
  function Busy(phase: Phase, pending: map<nat, Info>, fates: map<nat, Fate>): State {
    State(map[0 := Thread(phase, phase != WroteReturn, phase != SettingUp, false, {}, Some(Info(0, 10)), [])], [], Waiting,
          pending, fates, Handlers({}, map[]))
  }

  lemma Given10() returns (ss: seq<State>, actions: seq<Action>)
    ensures Runs(ss, actions) && Inv(ss[0]) && ss[0].pending == map[] && ss[|actions|] == Busy(Native, map[], map[0 := Given(0)])
  {
    hide Inv, Apply, Enabled;
    var s0 := Start(map[0 := {}], Handlers({}, map[]));
    var s1 := State(s0.threads, [Kill(Info(0, 10))], Waiting, map[], map[0 := Queued], s0.handlers);
    var s2 := State(s0.threads, [], Killing(Info(0, 10)), map[], map[0 := InWork], s0.handlers);
    Raised10(s0, s1, s2);
    GivenInNative(s2);
    ss, actions := [s0, s1, s2, Apply(s2, Give(0))], [Raise(Info(0, 10)), TakePacket, Give(0)];
  }

  lemma Raised10(s0: State, s1: State, s2: State)
    requires s0.work.Waiting? && s0.queue == [] && s0.pending == map[] && s0.fates == map[]
    requires s1 == s0.(queue := [Kill(Info(0, 10))], fates := map[0 := Queued])
    requires s2 == s0.(work := Killing(Info(0, 10)), fates := map[0 := InWork])
    ensures Enabled(s0, Raise(Info(0, 10))) && s1 == Apply(s0, Raise(Info(0, 10)))
    ensures Enabled(s1, TakePacket) && s2 == Apply(s1, TakePacket)
  {
  }

  lemma GivenInNative(s: State)
    requires s == State(map[0 := Thread(Native, false, false, true, {}, None, [])], [], Killing(Info(0, 10)),
                        map[], map[0 := InWork], Handlers({}, map[]))
    ensures Enabled(s, Give(0)) && Apply(s, Give(0)) == Busy(Native, map[], map[0 := Given(0)])
  {
  }

  lemma Kept12() returns (ss: seq<State>, actions: seq<Action>)
    ensures Runs(ss, actions) && ss[0] == Busy(Native, map[], map[0 := Given(0)])
    ensures ss[|actions|] == Busy(Native, map[12 := Info(1, 12)], map[0 := Given(0), 1 := Pending(12)])
  {
    hide Apply, Enabled;
    var s0 := Busy(Native, map[], map[0 := Given(0)]);
    var s1 := s0.(queue := [Kill(Info(1, 12))], fates := map[0 := Given(0), 1 := Queued]);
    var s2 := s0.(work := Killing(Info(1, 12)), fates := map[0 := Given(0), 1 := InWork]);
    Raised12(s0, s1, s2);
    KeptPending(s2);
    ss, actions := [s0, s1, s2, Apply(s2, Keep)], [Raise(Info(1, 12)), TakePacket, Keep];
  }

  lemma Raised12(s0: State, s1: State, s2: State)
    requires s0 == Busy(Native, map[], map[0 := Given(0)])
    requires s1 == s0.(queue := [Kill(Info(1, 12))], fates := map[0 := Given(0), 1 := Queued])
    requires s2 == s0.(work := Killing(Info(1, 12)), fates := map[0 := Given(0), 1 := InWork])
    ensures Enabled(s0, Raise(Info(1, 12))) && s1 == Apply(s0, Raise(Info(1, 12)))
    ensures Enabled(s1, TakePacket) && s2 == Apply(s1, TakePacket)
  {
  }

  lemma KeptPending(s: State)
    requires s == Busy(Native, map[], map[0 := Given(0), 1 := InWork]).(work := Killing(Info(1, 12)))
    ensures Enabled(s, Keep) && Apply(s, Keep) == Busy(Native, map[12 := Info(1, 12)], map[0 := Given(0), 1 := Pending(12)])
  {
  }

  lemma BusyStep(phase: Phase, a: Action, phase': Phase, pending: map<nat, Info>, fates: map<nat, Fate>)
    requires match a
             case WriteEip(t) => t == 0 && phase == Native && phase' == WroteEip
             case WriteReturn(t) => t == 0 && phase == WroteEip && phase' == WroteReturn
             case CheckFlag(t) => t == 0 && phase == WroteReturn && phase' == Checked
             case Jump(t) => t == 0 && phase == Checked && phase' == Trampoline
             case ClearFlag(t) => t == 0 && phase == Trampoline && phase' == SettingUp
             case _ => false
    ensures Enabled(Busy(phase, pending, fates), a) && Apply(Busy(phase, pending, fates), a) == Busy(phase', pending, fates)
  {
  }

  lemma BusySetUp(s: State)
    requires s == Busy(SettingUp, s.pending, s.fates) && 12 in s.pending
    ensures Enabled(s, SetUp(0))
    ensures var s' := Apply(s, SetUp(0)); CouldTake(s', 0, 12) && s'.handlers == s.handlers && s'.queue == [] && s'.work.Waiting?
  {
  }

  lemma HandlerSetUp(s: State) returns (ss: seq<State>, actions: seq<Action>)
    requires s == Busy(Native, s.pending, s.fates) && 12 in s.pending
    ensures Runs(ss, actions) && ss[0] == s
    ensures var s' := ss[|actions|]; CouldTake(s', 0, 12) && s'.handlers == s.handlers && s'.queue == [] && s'.work.Waiting?
  {
    hide Enabled, Apply, CouldTake;
    var p, f := s.pending, s.fates;
    BusyStep(Native, WriteEip(0), WroteEip, p, f);
    BusyStep(WroteEip, WriteReturn(0), WroteReturn, p, f);
    BusyStep(WroteReturn, CheckFlag(0), Checked, p, f);
    BusyStep(Checked, Jump(0), Trampoline, p, f);
    BusyStep(Trampoline, ClearFlag(0), SettingUp, p, f);
    var last := Busy(SettingUp, p, f);
    BusySetUp(last);
    ss := [s, Busy(WroteEip, p, f), Busy(WroteReturn, p, f), Busy(Checked, p, f), Busy(Trampoline, p, f), last, Apply(last, SetUp(0))];
    actions := [WriteEip(0), WriteReturn(0), CheckFlag(0), Jump(0), ClearFlag(0), SetUp(0)];
  }

  /** It does happen: signal 12 is raised while the only thread still has signal 10 in its hands. When
      the handler of 10 has been set up, the thread could take 12, but nobody gives it to it. */
  lemma LeftBehind() returns (ss: seq<State>, actions: seq<Action>)
    ensures Runs(ss, actions) && Inv(ss[0]) && ss[0].pending == map[]
    ensures var s := ss[|actions|]; CouldTake(s, 0, 12) && 12 !in s.handlers.none && s.queue == [] && s.work.Waiting?
  {
    hide Enabled, Apply, Inv, CouldTake;
    var s1, a1 := Given10();
    var s2, a2 := Kept12();
    var s3, a3 := HandlerSetUp(s2[|a2|]);
    RunsOn(s2, a2, s3, a3);
    RunsOn(s1, a1, s2 + s3[1..], a2 + a3);
    ss, actions := s1 + (s2 + s3[1..])[1..], a1 + (a2 + a3);
  }
}
