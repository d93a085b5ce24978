/** The profiler under its lock: guards, reports and the signal handler, in every interleaving. */
module Protocol {
  import opened Entries
  import opened Collectors
  import opened Profilers
  import FramePointers
  import SpillLogs

  type ThreadId = nat
  type GuardId = nat

  /** The spin lock around the profiler. Only a handler activation of a thread, never the thread's own
      code, takes it with `inHandler`. */
  datatype Lock = Free | Read(readers: set<ThreadId>) | Write(holder: ThreadId, inHandler: bool)

  datatype Builder = Builder(onStack: bool, blocklist: FramePointers.Segments)

  /** Where a thread's own code is. Between two positions it does one thing. */
  datatype Pc =
    | Idle
    | BuildTrigger(b: Builder)      // about to take the read lock, to force the lazy profiler
    | BuildTriggered(b: Builder)    // holds the read lock
    | BuildWait(b: Builder)         // about to take the write lock
    | BuildLocked(b: Builder)
    | BuildConfigured               // on_stack and blocklist written
    | BuildStarted                  // start() succeeded
    | BuildGuarded(g: GuardId)      // timer armed, guard made
    | BuildRefused                  // build answers an error
    | DropTimer(g: GuardId)         // about to drop the timer
    | DropWait(g: GuardId)
    | DropLocked(g: GuardId)
    | DropUnregistered(g: GuardId)  // the saved action is back
    | DropDone(g: GuardId)          // stop() has answered
    | ReportWait(exclusive: bool)
    | ReportLocked(exclusive: bool)

  /** Where a thread's activation of the signal handler is, if it has one. */
  datatype HandlerPc = Absent | Entered | Locked | Recorded | Leaving

  datatype Thread = Thread(pc: Pc, handler: HandlerPc)

  /** `created` tells whether the lazy profiler could be made. `accepted` lists the samples taken since the
      collector in place was installed; `forgotten` says how many of them init() took out of the counter without
      replacing the collector; `broken` records that some stop() failed. */
  datatype System<+K> = System(
    created: bool, lock: Lock, threads: map<ThreadId, Thread>, world: World<K>, armed: bool,
    available: set<GuardId>, live: set<GuardId>, nextGuard: GuardId,
    accepted: seq<Call<K>>, forgotten: nat, broken: bool)

  datatype Step<+K> =
    | Build(b: Builder)
    | DropGuard(g: GuardId)
    | Report(exclusive: bool)       // `build` takes the lock exclusively, `build_unresolved` shared
    | Advance(ok: bool)             // the thread's own code goes on; `ok` answers a system call it makes
    | Signal                        // SIGPROF arrives at the thread
    | HandlerStep(sample: Option<Call<K>>)  // the handler goes on; no sample if its frame is blocklisted

  function SetPc<K>(s: System<K>, t: ThreadId, pc: Pc): System<K>
    requires t in s.threads
  {
    s.(threads := s.threads[t := s.threads[t].(pc := pc)])
  }

  function SetHandler<K>(s: System<K>, t: ThreadId, h: HandlerPc): System<K>
    requires t in s.threads
  {
    s.(threads := s.threads[t := s.threads[t].(handler := h)])
  }

  predicate CanRead(lock: Lock) { !lock.Write? }

  function AddReader(lock: Lock, t: ThreadId): Lock {
    if lock.Read? then Read(lock.readers + {t}) else Read({t})
  }

  function RemoveReader(lock: Lock, t: ThreadId): Lock {
    if lock.Read? && lock.readers - {t} != {} then Read(lock.readers - {t}) else Free
  }

  predicate AcquiresWrite(pc: Pc) {
    pc.BuildWait? || pc.DropWait? || (pc.ReportWait? && pc.exclusive)
  }

  predicate AcquiresRead(pc: Pc) {
    pc.BuildTrigger? || (pc.ReportWait? && !pc.exclusive)
  }

  predicate ReleasesWrite(pc: Pc) {
    pc.BuildGuarded? || pc.BuildRefused? || pc.DropDone? || (pc.ReportLocked? && pc.exclusive)
  }

  predicate ReleasesRead(pc: Pc) {
    pc.BuildTriggered? || (pc.ReportLocked? && !pc.exclusive)
  }

  function LockAfter(lock: Lock, t: ThreadId, pc: Pc): Lock {
    if AcquiresWrite(pc) then Write(t, false)
    else if AcquiresRead(pc) then AddReader(lock, t)
    else if ReleasesWrite(pc) then Free
    else if ReleasesRead(pc) then RemoveReader(lock, t)
    else lock
  }

  /** Whether thread `t`'s own code can go on: only waiting for the lock stops it. */
  predicate CanAdvance<K>(s: System<K>, t: ThreadId)
    requires t in s.threads
  {
    var pc := s.threads[t].pc;
    && !pc.Idle?
    && (AcquiresWrite(pc) ==> s.lock.Free?)
    && (AcquiresRead(pc) ==> CanRead(s.lock))
  }

  /** While its handler runs, a thread's own code stands still; SIGPROF is masked in its own handler. */
  predicate Enabled<K>(s: System<K>, t: ThreadId, step: Step<K>) {
    && t in s.threads
    && match step
       case Build(_) => s.threads[t] == Thread(Idle, Absent)
       case DropGuard(g) => s.threads[t] == Thread(Idle, Absent) && g in s.available
       case Report(_) => s.threads[t] == Thread(Idle, Absent)
       case Advance(_) => s.threads[t].handler.Absent? && CanAdvance(s, t)
       case Signal => s.threads[t].handler.Absent? && s.world.sigprof.Handler?
       case HandlerStep(sample) => !s.threads[t].handler.Absent? && (sample.Some? ==> sample.value.count == 1)
  }

  /** What the action at position `pc` does to the profiler and to SIGPROF's disposition. */
  function WorldAfter<K, C>(w: World<K>, cfg: Config<K, C>, created: bool, pc: Pc, ok: bool): World<K> {
    match pc
    case BuildLocked(b) => if created then w.(prof := w.prof.(onStack := b.onStack, blocklist := b.blocklist)) else w
    case BuildConfigured => Started(w, ok).0
    case DropLocked(_) => if w.prof.running then Unregister(w, ok).0 else w
    case DropUnregistered(_) => w.(prof := Inited(w.prof, cfg, ok).0)
    case _ => w
  }

  /** Whether the action at `pc` is a stop() that fails. */
  function StopFails<K>(w: World<K>, pc: Pc, ok: bool): bool {
    match pc
    case DropLocked(_) => w.prof.running && Unregister(w, ok).1.Err?
    case DropUnregistered(_) => !ok
    case _ => false
  }

  function PcAfter<K>(w: World<K>, created: bool, nextGuard: GuardId, pc: Pc, ok: bool): Pc {
    match pc
    case Idle => Idle
    case BuildTrigger(b) => BuildTriggered(b)
    case BuildTriggered(b) => BuildWait(b)
    case BuildWait(b) => BuildLocked(b)
    case BuildLocked(_) => if created then BuildConfigured else BuildRefused
    case BuildConfigured => if Started(w, ok).1.Ok? then BuildStarted else BuildRefused
    case BuildStarted => BuildGuarded(nextGuard)
    case BuildGuarded(_) => Idle
    case BuildRefused => Idle
    case DropTimer(g) => DropWait(g)
    case DropWait(g) => DropLocked(g)
    case DropLocked(g) => if w.prof.running && Unregister(w, ok).1.Ok? then DropUnregistered(g) else DropDone(g)
    case DropUnregistered(g) => DropDone(g)
    case DropDone(_) => Idle
    case ReportWait(exclusive) => ReportLocked(exclusive)
    case ReportLocked(_) => Idle
  }

  /** The thread's own code goes on by one action. */
  function AdvanceFrom<K, C>(s: System<K>, cfg: Config<K, C>, t: ThreadId, ok: bool): System<K>
    requires t in s.threads
  {
    var pc := s.threads[t].pc;
    System(
      s.created,
      LockAfter(s.lock, t, pc),
      s.threads[t := Thread(PcAfter(s.world, s.created, s.nextGuard, pc, ok), s.threads[t].handler)],
      WorldAfter(s.world, cfg, s.created, pc, ok),
      if pc.BuildStarted? then true else if pc.DropTimer? then false else s.armed,
      if pc.BuildGuarded? then s.available + {pc.g} else s.available,
      if pc.BuildStarted? then s.live + {s.nextGuard} else if pc.DropDone? then s.live - {pc.g} else s.live,
      if pc.BuildStarted? then s.nextGuard + 1 else s.nextGuard,
      if pc.DropUnregistered? && ok then [] else s.accepted,
      if pc.DropUnregistered? then (if ok then 0 else |s.accepted|) else s.forgotten,
      s.broken || StopFails(s.world, pc, ok))
  }

  function HandlerFrom<K, C(==)>(s: System<K>, cfg: Config<K, C>, t: ThreadId, sample: Option<Call<K>>): System<K>
    requires t in s.threads && CollectorShaped(s.world.prof, cfg)
  {
    match s.threads[t].handler
    case Absent => s
    case Entered =>
      if s.lock.Free? then SetHandler(s.(lock := Write(t, true)), t, Locked) else SetHandler(s, t, Leaving)
    case Locked =>
      if !s.created || sample.None? then SetHandler(s, t, Recorded)
      else
        SetHandler(
          s.(world := s.world.(prof := Sampled(s.world.prof, cfg, sample.value.key, sample.value.write)),
            accepted := s.accepted + [sample.value]),
          t, Recorded)
    case Recorded => SetHandler(s.(lock := Free), t, Leaving)
    case Leaving => SetHandler(s, t, Absent)
  }

  predicate CollectorShaped<K, C>(p: Profiler<K>, cfg: Config<K, C>) {
    |p.data.table| == cfg.keys.buckets > 0 && SpillLogs.LayoutOk(cfg.lay) && |p.data.log.buffer| == cfg.lay.block
  }

  function Do<K, C(==)>(s: System<K>, cfg: Config<K, C>, t: ThreadId, step: Step<K>): System<K>
    requires Enabled(s, t, step) && CollectorShaped(s.world.prof, cfg)
  {
    match step
    case Build(b) => SetPc(s, t, BuildTrigger(b))
    case DropGuard(g) => SetPc(s.(available := s.available - {g}), t, DropTimer(g))
    case Report(exclusive) => SetPc(s, t, ReportWait(exclusive))
    case Advance(ok) => AdvanceFrom(s, cfg, t, ok)
    case Signal => SetHandler(s, t, Entered)
    case HandlerStep(sample) => HandlerFrom(s, cfg, t, sample)
  }

  /** Nothing has happened yet; SIGPROF has some disposition of the application's. */
  ghost predicate Initial<K, C>(s: System<K>, cfg: Config<K, C>) {
    && s.lock == Free && !s.armed && s.available == {} && s.live == {} && s.accepted == []
    && s.forgotten == 0 && !s.broken
    && s.world.prof == NewProfiler(cfg) && s.world.sigprof.Foreign?
    && forall t :: t in s.threads ==> s.threads[t] == Thread(Idle, Absent)
  }

  // ---- The lock ----

  predicate WritesAt(pc: Pc) {
    pc.BuildLocked? || pc.BuildConfigured? || pc.BuildStarted? || pc.BuildGuarded? || pc.BuildRefused?
    || pc.DropLocked? || pc.DropUnregistered? || pc.DropDone? || (pc.ReportLocked? && pc.exclusive)
  }

  predicate ReadsAt(pc: Pc) {
    pc.BuildTriggered? || (pc.ReportLocked? && !pc.exclusive)
  }

  /** Thread `t` is inside a critical section exactly when the lock says so. */
  ghost predicate LockAgrees<K>(s: System<K>, t: ThreadId) {
    t in s.threads ==>
      && (WritesAt(s.threads[t].pc) <==> s.lock == Write(t, false))
      && (ReadsAt(s.threads[t].pc) <==> s.lock.Read? && t in s.lock.readers)
      && (s.threads[t].handler in {Locked, Recorded} <==> s.lock == Write(t, true))
  }

  ghost predicate LockOk<K>(s: System<K>) {
    LockShape(s) && forall t :: LockAgrees(s, t)
  }

  function ReadersOf(lock: Lock): set<ThreadId> {
    if lock.Read? then lock.readers else {}
  }

  /** A step of thread `t` leaves every other thread where it is, and its hold of the lock as it is. */
  ghost predicate OnlyMoves<K>(s: System<K>, after: System<K>, t: ThreadId, u: ThreadId) {
    && after.threads.Keys == s.threads.Keys
    && (u in s.threads && u != t ==>
      && after.threads[u] == s.threads[u]
      && (s.lock == Write(u, false) <==> after.lock == Write(u, false))
      && (s.lock == Write(u, true) <==> after.lock == Write(u, true))
      && (u in ReadersOf(s.lock) <==> u in ReadersOf(after.lock)))
  }

  ghost predicate LockShape<K>(s: System<K>) {
    && (s.lock.Read? ==> s.lock.readers != {} && s.lock.readers <= s.threads.Keys)
    && (s.lock.Write? ==> s.lock.holder in s.threads)
  }

  /** Which positions hold the lock follows from where it is taken and released. */
  lemma {:induction false} AdvancePc<K, C>(s: System<K>, cfg: Config<K, C>, t: ThreadId, ok: bool)
    requires t in s.threads && !s.threads[t].pc.Idle?
    ensures var after := AdvanceFrom(s, cfg, t, ok);
      var pc := s.threads[t].pc;
      && after.lock == LockAfter(s.lock, t, pc)
      && t in after.threads && after.threads == s.threads[t := s.threads[t].(pc := after.threads[t].pc)]
      && (WritesAt(after.threads[t].pc) <==> AcquiresWrite(pc) || (WritesAt(pc) && !ReleasesWrite(pc)))
      && (ReadsAt(after.threads[t].pc) <==> AcquiresRead(pc) || (ReadsAt(pc) && !ReleasesRead(pc)))
  {
  }

  lemma {:induction false} AdvanceLock<K, C>(s: System<K>, cfg: Config<K, C>, t: ThreadId, ok: bool, u: ThreadId)
    requires LockShape(s) && LockAgrees(s, t) && Enabled(s, t, Advance(ok))
    ensures var after := AdvanceFrom(s, cfg, t, ok);
      LockShape(after) && LockAgrees(after, t) && OnlyMoves(s, after, t, u)
  {
    AdvancePc(s, cfg, t, ok);
  }

  /** The handler takes the lock on entering, if it is free, and gives it back after its sample. */
  lemma {:induction false} HandlerPcMoves<K, C>(s: System<K>, cfg: Config<K, C>, t: ThreadId, sample: Option<Call<K>>)
    requires CollectorShaped(s.world.prof, cfg) && t in s.threads && !s.threads[t].handler.Absent?
    ensures var after := HandlerFrom(s, cfg, t, sample);
      var h := s.threads[t].handler;
      && t in after.threads
      && after.threads == s.threads[t := s.threads[t].(handler := after.threads[t].handler)]
      && after.lock
        == (if h.Entered? && s.lock.Free? then Write(t, true) else if h.Recorded? then Free else s.lock)
      && (after.threads[t].handler in {Locked, Recorded} <==> (h.Entered? && s.lock.Free?) || h.Locked?)
  {
  }

  lemma {:induction false} HandlerLock<K, C>(
    s: System<K>, cfg: Config<K, C>, t: ThreadId, sample: Option<Call<K>>, u: ThreadId)
    requires LockShape(s) && LockAgrees(s, t) && CollectorShaped(s.world.prof, cfg)
    requires Enabled(s, t, HandlerStep(sample))
    ensures var after := HandlerFrom(s, cfg, t, sample);
      LockShape(after) && LockAgrees(after, t) && OnlyMoves(s, after, t, u)
  {
    HandlerPcMoves(s, cfg, t, sample);
  }

  /** Every step keeps the lock and the threads' positions in agreement. */
  lemma {:induction false} LockStep<K, C>(s: System<K>, cfg: Config<K, C>, t: ThreadId, step: Step<K>)
    requires LockOk(s) && CollectorShaped(s.world.prof, cfg) && Enabled(s, t, step)
    ensures LockOk(Do(s, cfg, t, step))
    ensures forall u :: OnlyMoves(s, Do(s, cfg, t, step), t, u)
  {
    var after := Do(s, cfg, t, step);
    assert LockAgrees(s, t);
    forall u ensures LockAgrees(after, t) && OnlyMoves(s, after, t, u) {
      if step.Advance? {
        AdvanceLock(s, cfg, t, step.ok, u);
      } else if step.HandlerStep? {
        HandlerLock(s, cfg, t, step.sample, u);
      }
    }
    forall u ensures LockAgrees(after, u) {
      assert LockAgrees(s, u) && OnlyMoves(s, after, t, u);
    }
    if step.Advance? {
      AdvanceLock(s, cfg, t, step.ok, t);
    } else if step.HandlerStep? {
      HandlerLock(s, cfg, t, step.sample, t);
    }
  }

  // ---- The guards ----

  function GuardAt(pc: Pc): Option<GuardId> {
    match pc
    case BuildGuarded(g) => Some(g)
    case DropTimer(g) => Some(g)
    case DropWait(g) => Some(g)
    case DropLocked(g) => Some(g)
    case DropUnregistered(g) => Some(g)
    case DropDone(g) => Some(g)
    case _ => None
  }

  /** A guard a thread is making or dropping is live, and not in the application's hands. */
  ghost predicate GuardAgrees<K>(s: System<K>, t: ThreadId) {
    t in s.threads && GuardAt(s.threads[t].pc).Some? ==>
      var g := GuardAt(s.threads[t].pc).value;
      g in s.live && g !in s.available
  }

  /** No two threads have the same guard in hand. */
  ghost predicate GuardsApart<K>(s: System<K>, t: ThreadId, u: ThreadId) {
    t in s.threads && u in s.threads && t != u && GuardAt(s.threads[t].pc).Some? ==>
      GuardAt(s.threads[t].pc) != GuardAt(s.threads[u].pc)
  }

  /** The state of the profiler while no start or stop is half done. */
  ghost predicate Settled<K>(s: System<K>, original: Disposition) {
    && (s.world.prof.running <==> s.live != {})
    && (if s.world.prof.running
        then s.world.sigprof.Handler? && s.world.prof.oldSigaction == Some(original)
        else s.world.sigprof == original && s.world.prof.oldSigaction == None)
  }

  /** The position of the thread whose own code holds the write lock, or none. */
  function Holder<K>(s: System<K>): Pc {
    if s.lock.Write? && !s.lock.inHandler && s.lock.holder in s.threads then s.threads[s.lock.holder].pc else Idle
  }

  /** Where the lock holder is in a start or a stop, and what it has changed so far. Once a stop has failed,
      the flag stays up for good, and no guard is left to take it down. */
  ghost predicate Lifecycle<K>(s: System<K>, original: Disposition) {
    var w := s.world;
    match Holder(s)
    case BuildStarted =>
      !s.broken && s.live == {} && w.prof.running && w.sigprof.Handler? && w.prof.oldSigaction == Some(original)
    case DropUnregistered(g) =>
      !s.broken && s.live == {g} && w.prof.running && w.sigprof == original && w.prof.oldSigaction == None
    case DropDone(g) =>
      && s.live == {g}
      && if s.broken then w.prof.running
         else !w.prof.running && w.sigprof == original && w.prof.oldSigaction == None
    case _ => if s.broken then w.prof.running && s.live == {} else Settled(s, original)
  }

  /** How one step moves guards: it makes one, hands it over, takes it back, destroys it, or none of these. */
  ghost predicate GuardMove<K>(s: System<K>, after: System<K>, t: ThreadId)
    requires t in s.threads && t in after.threads
  {
    var pc, next := s.threads[t].pc, after.threads[t].pc;
    || (GuardAt(next) == GuardAt(pc)
      && after.live == s.live && after.available == s.available && after.nextGuard == s.nextGuard)
    || (pc.BuildStarted? && GuardAt(next) == Some(s.nextGuard)
      && after.live == s.live + {s.nextGuard} && after.available == s.available && after.nextGuard == s.nextGuard + 1)
    || (pc.BuildGuarded? && GuardAt(next) == None
      && after.live == s.live && after.available == s.available + {pc.g} && after.nextGuard == s.nextGuard)
    || (pc.Idle? && next.DropTimer? && next.g in s.available
      && after.live == s.live && after.available == s.available - {next.g} && after.nextGuard == s.nextGuard)
    || (pc.DropDone? && GuardAt(next) == None
      && after.live == s.live - {pc.g} && after.available == s.available && after.nextGuard == s.nextGuard)
  }

  lemma {:induction false} AdvanceMovesGuards<K, C>(s: System<K>, cfg: Config<K, C>, t: ThreadId, ok: bool)
    requires t in s.threads && !s.threads[t].pc.Idle?
    ensures GuardMove(s, AdvanceFrom(s, cfg, t, ok), t)
  {
    var pc := s.threads[t].pc;
    var next := PcAfter(s.world, s.created, s.nextGuard, pc, ok);
    if !pc.BuildStarted? && !pc.BuildGuarded? && !pc.DropDone? {
      assert GuardAt(next) == GuardAt(pc);
    }
  }

  lemma {:induction false} HandlerMovesNoGuards<K, C>(
    s: System<K>, cfg: Config<K, C>, t: ThreadId, sample: Option<Call<K>>)
    requires CollectorShaped(s.world.prof, cfg) && t in s.threads
    ensures t in HandlerFrom(s, cfg, t, sample).threads && GuardMove(s, HandlerFrom(s, cfg, t, sample), t)
  {
  }

  lemma {:induction false} GuardMoves<K, C>(s: System<K>, cfg: Config<K, C>, t: ThreadId, step: Step<K>)
    requires CollectorShaped(s.world.prof, cfg) && Enabled(s, t, step)
    ensures t in Do(s, cfg, t, step).threads && GuardMove(s, Do(s, cfg, t, step), t)
  {
    if step.Advance? {
      AdvanceMovesGuards(s, cfg, t, step.ok);
    } else if step.HandlerStep? {
      HandlerMovesNoGuards(s, cfg, t, step.sample);
    }
  }

  ghost predicate HandsOk<K>(s: System<K>) {
    && (forall t :: GuardAgrees(s, t))
    && (forall t, u :: GuardsApart(s, t, u))
    && s.available <= s.live
    && (forall g :: g in s.live ==> g < s.nextGuard)
  }

  lemma {:induction false} HandsStep<K, C>(s: System<K>, cfg: Config<K, C>, t: ThreadId, step: Step<K>)
    requires LockOk(s) && CollectorShaped(s.world.prof, cfg) && Enabled(s, t, step) && HandsOk(s)
    ensures HandsOk(Do(s, cfg, t, step))
  {
    var after := Do(s, cfg, t, step);
    LockStep(s, cfg, t, step);
    GuardMoves(s, cfg, t, step);
    assert GuardAgrees(s, t) && OnlyMoves(s, after, t, t);
    forall u ensures GuardAgrees(after, u) {
      assert GuardAgrees(s, u) && OnlyMoves(s, after, t, u) && GuardsApart(s, t, u);
    }
    forall u, v ensures GuardsApart(after, u, v) {
      assert GuardsApart(s, u, v) && OnlyMoves(s, after, t, u) && OnlyMoves(s, after, t, v);
      assert GuardAgrees(s, u) && GuardAgrees(s, v);
    }
  }

  /** What a start or stop depends on: untouched by every step that is not the lock holder's own. */
  ghost predicate SameLifecycle<K>(s: System<K>, after: System<K>) {
    && after.world.prof.running == s.world.prof.running
    && after.world.prof.oldSigaction == s.world.prof.oldSigaction
    && after.world.sigprof == s.world.sigprof
    && after.broken == s.broken && after.created == s.created
  }

  ghost predicate LifecycleOk<K>(s: System<K>, original: Disposition) {
    && original.Foreign?
    && (forall g, h :: g in s.live && h in s.live ==> g == h)
    && (!s.created ==> !s.world.prof.running && !Holder(s).BuildConfigured?)
    && Lifecycle(s, original)
  }

  /** A thread's own code outside the write lock may take it, and changes nothing else that matters here. */
  lemma {:induction false} OutsiderAdvances<K, C>(
    s: System<K>, cfg: Config<K, C>, t: ThreadId, ok: bool, original: Disposition)
    requires LockShape(s) && LockAgrees(s, t) && Enabled(s, t, Advance(ok)) && !WritesAt(s.threads[t].pc)
    requires LifecycleOk(s, original)
    ensures LifecycleOk(AdvanceFrom(s, cfg, t, ok), original)
  {
    var after := AdvanceFrom(s, cfg, t, ok);
    assert SameLifecycle(s, after) && after.live == s.live;
    if AcquiresWrite(s.threads[t].pc) {
      assert Holder(s) == Idle;
    } else {
      assert Holder(after) == Holder(s);
    }
  }

  lemma {:induction false} HolderAdvances<K, C>(
    s: System<K>, cfg: Config<K, C>, t: ThreadId, ok: bool, original: Disposition)
    requires s.lock == Write(t, false) && LockAgrees(s, t) && Enabled(s, t, Advance(ok))
    requires GuardAgrees(s, t) && LifecycleOk(s, original)
    ensures LifecycleOk(AdvanceFrom(s, cfg, t, ok), original)
  {
    assert Holder(s) == s.threads[t].pc;
    var after := AdvanceFrom(s, cfg, t, ok);
    if !ReleasesWrite(s.threads[t].pc) {
      assert Holder(after) == after.threads[t].pc;
    }
  }

  /** Calls, signals and handlers touch nothing a start or stop depends on, and no lock of a thread's own code. */
  lemma {:induction false} HandlerIsOutside<K, C>(
    s: System<K>, cfg: Config<K, C>, t: ThreadId, sample: Option<Call<K>>)
    requires CollectorShaped(s.world.prof, cfg) && LockAgrees(s, t) && t in s.threads
    ensures var after := HandlerFrom(s, cfg, t, sample);
      SameLifecycle(s, after) && after.live == s.live && Holder(after) == Holder(s)
  {
  }

  lemma {:induction false} CallIsOutside<K, C>(s: System<K>, cfg: Config<K, C>, t: ThreadId, step: Step<K>)
    requires CollectorShaped(s.world.prof, cfg) && LockAgrees(s, t) && Enabled(s, t, step)
    requires !step.Advance? && !step.HandlerStep?
    ensures var after := Do(s, cfg, t, step);
      SameLifecycle(s, after) && after.live == s.live && Holder(after) == Holder(s)
  {
  }

  lemma {:induction false} OutsideKeeps<K>(s: System<K>, after: System<K>, original: Disposition)
    requires LifecycleOk(s, original)
    requires SameLifecycle(s, after) && after.live == s.live && Holder(after) == Holder(s)
    ensures LifecycleOk(after, original)
  {
  }

  lemma {:induction false} LifecycleStep<K, C>(
    s: System<K>, cfg: Config<K, C>, t: ThreadId, step: Step<K>, original: Disposition)
    requires LockOk(s) && CollectorShaped(s.world.prof, cfg) && Enabled(s, t, step)
    requires HandsOk(s) && LifecycleOk(s, original)
    ensures LifecycleOk(Do(s, cfg, t, step), original)
  {
    assert LockAgrees(s, t) && GuardAgrees(s, t);
    if step.Advance? {
      if WritesAt(s.threads[t].pc) {
        HolderAdvances(s, cfg, t, step.ok, original);
      } else {
        OutsiderAdvances(s, cfg, t, step.ok, original);
      }
    } else {
      if step.HandlerStep? {
        HandlerIsOutside(s, cfg, t, step.sample);
      } else {
        CallIsOutside(s, cfg, t, step);
      }
      OutsideKeeps(s, Do(s, cfg, t, step), original);
    }
  }

  // ---- The timer ----

  /** Where a guard's timer has been dropped already. */
  predicate StopsAt(pc: Pc) {
    pc.DropWait? || pc.DropLocked? || pc.DropUnregistered? || pc.DropDone?
  }

  ghost predicate TicksOn<K>(s: System<K>, t: ThreadId) {
    t in s.threads ==> !StopsAt(s.threads[t].pc)
  }

  /** An armed timer has a live guard, the handler to tick at, and no stop under way. */
  ghost predicate ArmedOk<K>(s: System<K>) {
    s.armed ==> s.live != {} && s.world.sigprof.Handler? && forall t :: TicksOn(s, t)
  }

  /** Where the timer is armed, and what a step of an armed system can change. */
  lemma {:induction false} AdvanceArmed<K, C>(
    s: System<K>, cfg: Config<K, C>, t: ThreadId, ok: bool, original: Disposition)
    requires LockAgrees(s, t) && Enabled(s, t, Advance(ok)) && LifecycleOk(s, original)
    requires AdvanceFrom(s, cfg, t, ok).armed
    requires s.armed ==> s.live != {} && s.world.sigprof.Handler? && TicksOn(s, t)
    ensures var after := AdvanceFrom(s, cfg, t, ok);
      && after.live != {} && after.world.sigprof.Handler? && TicksOn(after, t)
      && (!s.armed ==> s.live == {})
  {
    var pc := s.threads[t].pc;
    if pc.BuildStarted? {
      assert Holder(s) == pc;
      assert s.nextGuard in AdvanceFrom(s, cfg, t, ok).live;
    } else {
      assert AdvanceFrom(s, cfg, t, ok).live == s.live;
    }
  }

  lemma {:induction false} ArmedStep<K, C>(
    s: System<K>, cfg: Config<K, C>, t: ThreadId, step: Step<K>, original: Disposition)
    requires LockOk(s) && CollectorShaped(s.world.prof, cfg) && Enabled(s, t, step)
    requires HandsOk(s) && LifecycleOk(s, original) && ArmedOk(s)
    ensures ArmedOk(Do(s, cfg, t, step))
  {
    var after := Do(s, cfg, t, step);
    assert LockAgrees(s, t) && (s.armed ==> TicksOn(s, t));
    if after.armed {
      if step.Advance? {
        AdvanceArmed(s, cfg, t, step.ok, original);
      } else if step.HandlerStep? {
        HandlerIsOutside(s, cfg, t, step.sample);
        HandlerPcMoves(s, cfg, t, step.sample);
      } else {
        CallIsOutside(s, cfg, t, step);
      }
      LockStep(s, cfg, t, step);
      forall u ensures TicksOn(after, u) {
        assert OnlyMoves(s, after, t, u) && GuardAgrees(s, u);
        assert s.armed ==> TicksOn(s, u);
      }
    }
  }

  // ---- The samples ----

  /** The collector in place has been given exactly the accepted samples, one count each, and the counter
      counts those it has not been made to forget. */
  ghost predicate AcceptedOk<K, C>(s: System<K>, cfg: Config<K, C>) {
    Counted(s.world.prof, s.accepted, s.forgotten, cfg)
  }

  ghost predicate Counted<K, C>(p: Profiler<K>, accepted: seq<Call<K>>, forgotten: nat, cfg: Config<K, C>) {
    && cfg.keys.buckets > 0 && SpillLogs.LayoutOk(cfg.lay)
    && p.data == Run(cfg, accepted).state
    && (forall i :: 0 <= i < |accepted| ==> accepted[i].count == 1)
    && forgotten <= |accepted| == p.sampleCounter + forgotten
  }

  lemma {:induction false} AdvanceSamples<K, C>(s: System<K>, cfg: Config<K, C>, t: ThreadId, ok: bool)
    requires AcceptedOk(s, cfg) && t in s.threads
    ensures AcceptedOk(AdvanceFrom(s, cfg, t, ok), cfg)
  {
    var pc := s.threads[t].pc;
    var after := WorldAfter(s.world, cfg, s.created, pc, ok).prof;
    if !pc.DropUnregistered? {
      assert after.data == s.world.prof.data && after.sampleCounter == s.world.prof.sampleCounter;
    }
  }

  /** Sampling extends the run the collector stands for by one call. */
  lemma {:induction false} CountedSample<K, C>(
    p: Profiler<K>, accepted: seq<Call<K>>, forgotten: nat, cfg: Config<K, C>, call: Call<K>)
    requires Counted(p, accepted, forgotten, cfg) && CollectorShaped(p, cfg) && call.count == 1
    ensures Counted(Sampled(p, cfg, call.key, call.write), accepted + [call], forgotten, cfg)
  {
    RunThen(cfg, accepted, call);
  }

  lemma {:induction false} HandlerSamples<K, C>(s: System<K>, cfg: Config<K, C>, t: ThreadId, call: Call<K>)
    requires AcceptedOk(s, cfg) && CollectorShaped(s.world.prof, cfg) && t in s.threads && call.count == 1
    ensures AcceptedOk(HandlerFrom(s, cfg, t, Some(call)), cfg)
  {
    var after := HandlerFrom(s, cfg, t, Some(call));
    HandlerFields(s, cfg, t, call);
    if s.threads[t].handler.Locked? && s.created {
      CountedSample(s.world.prof, s.accepted, s.forgotten, cfg, call);
      assert Counted(after.world.prof, after.accepted, after.forgotten, cfg);
    } else {
      SamplesOnly(s, after, cfg);
    }
  }

  /** A handler step changes profiler and samples only by sampling. */
  lemma {:induction false} HandlerFields<K, C>(s: System<K>, cfg: Config<K, C>, t: ThreadId, call: Call<K>)
    requires CollectorShaped(s.world.prof, cfg) && t in s.threads
    ensures var after := HandlerFrom(s, cfg, t, Some(call));
      && after.forgotten == s.forgotten
      && if s.threads[t].handler.Locked? && s.created
         then after.accepted == s.accepted + [call]
           && after.world.prof == Sampled(s.world.prof, cfg, call.key, call.write)
         else after.accepted == s.accepted && after.world.prof == s.world.prof
  {
  }

  /** The samples are a matter of the profiler, of what was accepted, and of no other part of the system. */
  lemma {:induction false} SamplesOnly<K, C>(s: System<K>, after: System<K>, cfg: Config<K, C>)
    requires AcceptedOk(s, cfg)
    requires after.world.prof == s.world.prof && after.accepted == s.accepted && after.forgotten == s.forgotten
    ensures AcceptedOk(after, cfg)
  {
  }

  lemma {:induction false} SampleStep<K, C>(s: System<K>, cfg: Config<K, C>, t: ThreadId, step: Step<K>)
    requires AcceptedOk(s, cfg) && CollectorShaped(s.world.prof, cfg) && Enabled(s, t, step)
    ensures AcceptedOk(Do(s, cfg, t, step), cfg)
  {
    if step.Advance? {
      AdvanceSamples(s, cfg, t, step.ok);
    } else if step.HandlerStep? && step.sample.Some? {
      HandlerSamples(s, cfg, t, step.sample.value);
    } else {
      SamplesOnly(s, Do(s, cfg, t, step), cfg);
    }
  }

  lemma {:induction false} SamplesShape<K, C>(s: System<K>, cfg: Config<K, C>)
    requires AcceptedOk(s, cfg)
    ensures CollectorShaped(s.world.prof, cfg)
  {
  }

  // ---- Runs ----

  datatype Event<+K> = Event(t: ThreadId, step: Step<K>)

  /** The state after `events`, if each is possible when its turn comes. */
  function Exec<K, C(==)>(s: System<K>, cfg: Config<K, C>, events: seq<Event<K>>): Option<System<K>>
    decreases |events|
  {
    if |events| == 0 then Some(s)
    else if !CollectorShaped(s.world.prof, cfg) || !Enabled(s, events[0].t, events[0].step) then None
    else Exec(Do(s, cfg, events[0].t, events[0].step), cfg, events[1..])
  }

  /** The two system calls of a stop(): putting the saved action back, and creating the next collector. */
  datatype Failure = SigactionFailed | NewFailed

  /** What fails when `e` happens in `s`, going by the answer the event carries. */
  function FailureOf<K>(s: System<K>, e: Event<K>): set<Failure>
    requires e.t in s.threads
  {
    if !e.step.Advance? || e.step.ok then {}
    else
      match s.threads[e.t].pc
      case DropLocked(_) => if s.world.prof.running && s.world.prof.oldSigaction.Some? then {SigactionFailed} else {}
      case DropUnregistered(_) => {NewFailed}
      case _ => {}
  }

  /** What failed in the course of `events`. */
  function Failures<K, C(==)>(s: System<K>, cfg: Config<K, C>, events: seq<Event<K>>): set<Failure>
    decreases |events|
  {
    if |events| == 0 then {}
    else if !CollectorShaped(s.world.prof, cfg) || !Enabled(s, events[0].t, events[0].step) then {}
    else FailureOf(s, events[0]) + Failures(Do(s, cfg, events[0].t, events[0].step), cfg, events[1..])
  }

  lemma {:induction false} FailureBreaks<K, C>(s: System<K>, cfg: Config<K, C>, e: Event<K>)
    requires CollectorShaped(s.world.prof, cfg) && Enabled(s, e.t, e.step)
    ensures Do(s, cfg, e.t, e.step).broken <==> s.broken || FailureOf(s, e) != {}
    ensures s.forgotten == 0 ==>
      (Do(s, cfg, e.t, e.step).forgotten > 0 <==> NewFailed in FailureOf(s, e) && s.accepted != [])
  {
    assert SigactionFailed in {SigactionFailed} && NewFailed in {NewFailed};
  }

  /** `broken` is set by exactly the failed answers. */
  lemma {:induction false} BrokenIff<K, C>(s: System<K>, cfg: Config<K, C>, events: seq<Event<K>>)
    requires Exec(s, cfg, events).Some?
    ensures Exec(s, cfg, events).value.broken <==> s.broken || Failures(s, cfg, events) != {}
    decreases |events|
  {
    if |events| > 0 {
      FailureBreaks(s, cfg, events[0]);
      BrokenIff(Do(s, cfg, events[0].t, events[0].step), cfg, events[1..]);
    }
  }

  ghost predicate Inv<K, C>(s: System<K>, cfg: Config<K, C>, original: Disposition) {
    && LockOk(s) && HandsOk(s) && LifecycleOk(s, original) && ArmedOk(s) && AcceptedOk(s, cfg)
    && CollectorShaped(s.world.prof, cfg)
  }

  lemma {:induction false} InitialInv<K, C>(s: System<K>, cfg: Config<K, C>)
    requires Initial(s, cfg) && cfg.keys.buckets > 0 && SpillLogs.LayoutOk(cfg.lay)
    ensures Inv(s, cfg, s.world.sigprof)
  {
  }

  lemma {:induction false} InvStep<K, C>(
    s: System<K>, cfg: Config<K, C>, t: ThreadId, step: Step<K>, original: Disposition)
    requires Inv(s, cfg, original) && Enabled(s, t, step)
    ensures Inv(Do(s, cfg, t, step), cfg, original)
  {
    LockStep(s, cfg, t, step);
    HandsStep(s, cfg, t, step);
    LifecycleStep(s, cfg, t, step, original);
    ArmedStep(s, cfg, t, step, original);
    SampleStep(s, cfg, t, step);
    SamplesShape(Do(s, cfg, t, step), cfg);
  }

  lemma {:induction false} InvKept<K, C>(
    s: System<K>, cfg: Config<K, C>, events: seq<Event<K>>, original: Disposition)
    requires Inv(s, cfg, original) && Exec(s, cfg, events).Some?
    ensures Inv(Exec(s, cfg, events).value, cfg, original)
    decreases |events|
  {
    if |events| > 0 {
      InvStep(s, cfg, events[0].t, events[0].step, original);
      InvKept(Do(s, cfg, events[0].t, events[0].step), cfg, events[1..], original);
    }
  }

  /** What a step of a broken system leaves: nothing forgotten is remembered, and no guard is made. */
  lemma {:induction false} BrokenStep<K, C>(
    s: System<K>, cfg: Config<K, C>, t: ThreadId, step: Step<K>, original: Disposition)
    requires CollectorShaped(s.world.prof, cfg) && Enabled(s, t, step)
    requires LockAgrees(s, t) && LifecycleOk(s, original) && s.broken
    ensures var after := Do(s, cfg, t, step);
      after.broken && after.forgotten == s.forgotten && after.nextGuard == s.nextGuard
  {
    if step.Advance? && WritesAt(s.threads[t].pc) {
      assert Holder(s) == s.threads[t].pc;
    }
  }

  lemma {:induction false} BrokenRun<K, C>(
    s: System<K>, cfg: Config<K, C>, events: seq<Event<K>>, original: Disposition)
    requires Inv(s, cfg, original) && s.broken && Exec(s, cfg, events).Some?
    ensures var after := Exec(s, cfg, events).value;
      after.broken && after.forgotten == s.forgotten && after.nextGuard == s.nextGuard
    decreases |events|
  {
    if |events| > 0 {
      var t, step := events[0].t, events[0].step;
      assert LockAgrees(s, t);
      BrokenStep(s, cfg, t, step, original);
      InvStep(s, cfg, t, step, original);
      BrokenRun(Do(s, cfg, t, step), cfg, events[1..], original);
    }
  }

  /** Some event answers that no collector could be created, in a state in which samples had been accepted. */
  predicate Forgets<K, C(==)>(s: System<K>, cfg: Config<K, C>, events: seq<Event<K>>)
    decreases |events|
  {
    if |events| == 0 then false
    else if !CollectorShaped(s.world.prof, cfg) || !Enabled(s, events[0].t, events[0].step) then false
    else
      || (NewFailed in FailureOf(s, events[0]) && s.accepted != [])
      || Forgets(Do(s, cfg, events[0].t, events[0].step), cfg, events[1..])
  }

  lemma {:induction false} ForgetsIff<K, C>(
    s: System<K>, cfg: Config<K, C>, events: seq<Event<K>>, original: Disposition)
    requires Inv(s, cfg, original) && s.forgotten == 0 && Exec(s, cfg, events).Some?
    ensures Exec(s, cfg, events).value.forgotten > 0 <==> Forgets(s, cfg, events)
    decreases |events|
  {
    if |events| > 0 {
      var e := events[0];
      var after := Do(s, cfg, e.t, e.step);
      FailureBreaks(s, cfg, e);
      InvStep(s, cfg, e.t, e.step, original);
      if after.forgotten > 0 {
        BrokenRun(after, cfg, events[1..], original);
      } else {
        ForgetsIff(after, cfg, events[1..], original);
      }
    }
  }

  // ---- What the protocol guarantees ----

  /** Mutual exclusion: a step that changes the profiler is the write holder's own, and nothing changes it
      while somebody reads. */
  lemma {:induction false} OnlyHolderMutates<K, C>(s: System<K>, cfg: Config<K, C>, t: ThreadId, step: Step<K>)
    requires LockOk(s) && CollectorShaped(s.world.prof, cfg) && Enabled(s, t, step)
    ensures Do(s, cfg, t, step).world.prof != s.world.prof ==> s.lock == Write(t, step.HandlerStep?)
    ensures s.lock.Read? ==> Do(s, cfg, t, step).world.prof == s.world.prof
  {
    assert LockAgrees(s, t);
  }

  /** No event is an action of `t`'s own code. */
  ghost predicate StaysPut<K>(events: seq<Event<K>>, t: ThreadId) {
    forall i :: 0 <= i < |events| ==> !(events[i].t == t && events[i].step.Advance?)
  }

  lemma {:induction false} ReaderUndisturbed<K, C>(
    s: System<K>, cfg: Config<K, C>, t: ThreadId, u: ThreadId, step: Step<K>)
    requires LockOk(s) && CollectorShaped(s.world.prof, cfg) && Enabled(s, u, step)
    requires t in s.threads && s.threads[t].pc.ReportLocked? && !(u == t && step.Advance?)
    ensures var after := Do(s, cfg, u, step);
      after.world.prof == s.world.prof && t in after.threads && after.threads[t].pc == s.threads[t].pc
  {
    assert LockAgrees(s, t) && LockAgrees(s, u);
    OnlyHolderMutates(s, cfg, u, step);
    LockStep(s, cfg, u, step);
    assert OnlyMoves(s, Do(s, cfg, u, step), u, t);
  }

  /** A report reads one state: from taking the lock to giving it back, whatever other threads and all signal
      handlers do in between, the profiler and its collector do not change. */
  lemma {:induction false} ReportReadsOneState<K, C>(
    s: System<K>, cfg: Config<K, C>, t: ThreadId, events: seq<Event<K>>)
    requires LockOk(s) && Exec(s, cfg, events).Some?
    requires t in s.threads && s.threads[t].pc.ReportLocked? && StaysPut(events, t)
    ensures var after := Exec(s, cfg, events).value;
      after.world.prof == s.world.prof && t in after.threads && after.threads[t].pc == s.threads[t].pc
    decreases |events|
  {
    if |events| > 0 {
      ReaderUndisturbed(s, cfg, t, events[0].t, events[0].step);
      LockStep(s, cfg, events[0].t, events[0].step);
      ReportReadsOneState(Do(s, cfg, events[0].t, events[0].step), cfg, t, events[1..]);
    }
  }

  /** A handler always can go on. One that finds the lock taken is gone after two steps and leaves the
      profiler, the lock and the samples as they were: it dropped its sample instead of waiting. */
  lemma {:induction false} HandlerNeverWaits<K, C>(
    s: System<K>, cfg: Config<K, C>, t: ThreadId, a: Option<Call<K>>, b: Option<Call<K>>)
    requires LockOk(s) && CollectorShaped(s.world.prof, cfg)
    requires t in s.threads && s.threads[t].handler != Absent
    requires (a.Some? ==> a.value.count == 1) && (b.Some? ==> b.value.count == 1)
    ensures Enabled(s, t, HandlerStep(a))
    ensures s.threads[t].handler.Entered? && !s.lock.Free? ==>
      Exec(s, cfg, [Event(t, HandlerStep(a)), Event(t, HandlerStep(b))])
        == Some(s.(threads := s.threads[t := s.threads[t].(handler := Absent)]))
  {
    if s.threads[t].handler.Entered? && !s.lock.Free? {
      var events := [Event(t, HandlerStep(a)), Event(t, HandlerStep(b))];
      var s1 := Do(s, cfg, t, HandlerStep(a));
      var s2 := Do(s1, cfg, t, HandlerStep(b));
      assert s2 == s.(threads := s.threads[t := s.threads[t].(handler := Absent)]);
      assert events[1..] == [Event(t, HandlerStep(b))];
      assert Exec(s1, cfg, events[1..]) == Exec(s2, cfg, events[1..][1..]);
    }
  }

  /** A handler that finds the lock free takes one sample and gives the lock back, whether or not the
      profiler is running at that moment. */
  lemma {:induction false} HandlerSamplesOnce<K, C>(s: System<K>, cfg: Config<K, C>, t: ThreadId, call: Call<K>)
    requires CollectorShaped(s.world.prof, cfg) && s.created && s.lock.Free? && call.count == 1
    requires t in s.threads && s.threads[t].handler.Entered?
    ensures var step := Event(t, HandlerStep(Some(call)));
      var r := Exec(s, cfg, [step, step, step, step]);
      r == Some(s.(
        threads := s.threads[t := s.threads[t].(handler := Absent)], accepted := s.accepted + [call],
        world := s.world.(prof := Sampled(s.world.prof, cfg, call.key, call.write))))
  {
    var step := HandlerStep(Some(call));
    var e := Event(t, step);
    var s1 := Do(s, cfg, t, step);
    var s2 := Do(s1, cfg, t, step);
    var s3 := Do(s2, cfg, t, step);
    var s4 := Do(s3, cfg, t, step);
    assert [e, e, e, e][1..] == [e, e, e] && [e, e, e][1..] == [e, e] && [e, e][1..] == [e] && [e][1..] == [];
    assert Exec(s3, cfg, [e]) == Exec(s4, cfg, []);
    assert Exec(s2, cfg, [e, e]) == Exec(s3, cfg, [e]);
    assert Exec(s1, cfg, [e, e, e]) == Exec(s2, cfg, [e, e]);
    assert s4.threads == s.threads[t := s.threads[t].(handler := Absent)];
  }

  /** Without a sample, because its frame is blocklisted or there is no profiler, the handler takes the lock and
      gives it back, and nothing else happens. */
  lemma {:induction false} HandlerSkips<K, C>(s: System<K>, cfg: Config<K, C>, t: ThreadId, sample: Option<Call<K>>)
    requires CollectorShaped(s.world.prof, cfg) && s.lock.Free? && t in s.threads && s.threads[t].handler.Entered?
    requires sample.None? || (!s.created && sample.value.count == 1)
    ensures var step := Event(t, HandlerStep(sample));
      Exec(s, cfg, [step, step, step, step]) == Some(s.(threads := s.threads[t := s.threads[t].(handler := Absent)]))
  {
    var step := HandlerStep(sample);
    var e := Event(t, step);
    var s1 := Do(s, cfg, t, step);
    var s2 := Do(s1, cfg, t, step);
    var s3 := Do(s2, cfg, t, step);
    var s4 := Do(s3, cfg, t, step);
    assert [e, e, e, e][1..] == [e, e, e] && [e, e, e][1..] == [e, e] && [e, e][1..] == [e] && [e][1..] == [];
    assert Exec(s3, cfg, [e]) == Exec(s4, cfg, []);
    assert Exec(s2, cfg, [e, e]) == Exec(s3, cfg, [e]);
    assert Exec(s1, cfg, [e, e, e]) == Exec(s2, cfg, [e, e]);
    assert s4.threads == s.threads[t := s.threads[t].(handler := Absent)];
  }

  ghost predicate HoldsLock<K>(s: System<K>, t: ThreadId) {
    s.lock == Write(t, true) || s.lock == Write(t, false) || t in ReadersOf(s.lock)
  }

  /** How many steps of its own a thread that holds the lock is from releasing it. */
  function StepsToRelease(th: Thread): nat {
    var own := match th.pc
      case BuildLocked(_) => 4
      case BuildConfigured => 3
      case BuildStarted => 2
      case DropLocked(_) => 3
      case DropUnregistered(_) => 2
      case _ => 1;
    match th.handler
    case Absent => own
    case Entered => own + 2
    case Leaving => own + 1
    case Locked => 2
    case Recorded => 1
  }

  /** What a thread that holds the lock does next, left to itself. */
  function OwnStep<K>(th: Thread): Step<K> {
    if th.handler.Absent? then Advance(true) else HandlerStep(None)
  }

  lemma {:induction false} AdvanceReleases<K, C>(s: System<K>, cfg: Config<K, C>, t: ThreadId)
    requires t in s.threads && LockAgrees(s, t) && HoldsLock(s, t) && s.threads[t].handler.Absent?
    ensures Enabled(s, t, Advance(true))
    ensures var after := AdvanceFrom(s, cfg, t, true);
      !HoldsLock(after, t) || StepsToRelease(after.threads[t]) < StepsToRelease(s.threads[t])
  {
  }

  lemma {:induction false} AdvanceKeepsShape<K, C>(s: System<K>, cfg: Config<K, C>, t: ThreadId, ok: bool)
    requires t in s.threads && CollectorShaped(s.world.prof, cfg)
    ensures CollectorShaped(AdvanceFrom(s, cfg, t, ok).world.prof, cfg)
  {
    var pc := s.threads[t].pc;
    if !pc.DropUnregistered? {
      assert WorldAfter(s.world, cfg, s.created, pc, ok).prof.data == s.world.prof.data;
    }
  }

  lemma {:induction false} HandlerKeepsShape<K, C>(s: System<K>, cfg: Config<K, C>, t: ThreadId)
    requires t in s.threads && CollectorShaped(s.world.prof, cfg)
    ensures var after := HandlerFrom(s, cfg, t, None);
      t in after.threads && after.world == s.world
  {
  }

  lemma {:induction false} HandlerReleases<K, C>(s: System<K>, cfg: Config<K, C>, t: ThreadId)
    requires t in s.threads && LockAgrees(s, t) && CollectorShaped(s.world.prof, cfg)
    requires HoldsLock(s, t) && !s.threads[t].handler.Absent?
    ensures var after := HandlerFrom(s, cfg, t, None);
      !HoldsLock(after, t) || StepsToRelease(after.threads[t]) < StepsToRelease(s.threads[t])
  {
  }

  lemma {:induction false} OwnStepReleases<K, C>(s: System<K>, cfg: Config<K, C>, t: ThreadId)
    requires LockOk(s) && CollectorShaped(s.world.prof, cfg) && HoldsLock(s, t)
    ensures t in s.threads && Enabled(s, t, OwnStep(s.threads[t]))
    ensures var after := Do(s, cfg, t, OwnStep(s.threads[t]));
      && t in after.threads && CollectorShaped(after.world.prof, cfg)
      && (!HoldsLock(after, t) || StepsToRelease(after.threads[t]) < StepsToRelease(s.threads[t]))
  {
    assert LockAgrees(s, t);
    if s.threads[t].handler.Absent? {
      AdvanceReleases(s, cfg, t);
      AdvanceKeepsShape(s, cfg, t, true);
    } else {
      HandlerReleases(s, cfg, t);
      HandlerKeepsShape(s, cfg, t);
    }
  }

  /** No deadlock: whoever holds the lock, in its own code or in a handler, and even if a handler has just
      interrupted it there, is a bounded number of its own steps, each possible, from giving it back. */
  lemma {:induction false} HolderReleases<K, C>(s: System<K>, cfg: Config<K, C>, t: ThreadId)
    returns (events: seq<Event<K>>)
    requires LockOk(s) && CollectorShaped(s.world.prof, cfg) && HoldsLock(s, t)
    ensures t in s.threads && |events| <= StepsToRelease(s.threads[t]) <= 6
    ensures forall i :: 0 <= i < |events| ==> events[i].t == t && !events[i].step.Signal?
    ensures Exec(s, cfg, events).Some? && !HoldsLock(Exec(s, cfg, events).value, t)
    decreases if t in s.threads then StepsToRelease(s.threads[t]) else 0
  {
    OwnStepReleases(s, cfg, t);
    var step := OwnStep(s.threads[t]);
    var after := Do(s, cfg, t, step);
    var rest := [];
    if HoldsLock(after, t) {
      LockStep(s, cfg, t, step);
      rest := HolderReleases(after, cfg, t);
    }
    events := [Event(t, step)] + rest;
    assert events[1..] == rest;
  }

  /** No start or stop is under way. */
  ghost predicate Quiescent<K>(s: System<K>) {
    !(s.lock.Write? && !s.lock.inHandler)
  }

  /** Guard, flag and disposition coincide, and without a guard SIGPROF is as the application had it. */
  ghost predicate Coincide<K>(s: System<K>, original: Disposition) {
    && (s.world.prof.running <==> s.live != {})
    && (s.world.sigprof.Handler? <==> s.live != {})
    && (s.live == {} ==> s.world.sigprof == original)
  }

  /** Lifecycle over every run: never two live guards; and in quiescent states guard, flag and handler
      coincide exactly as long as neither system call of a stop() has failed. */
  lemma {:induction false} LifecycleHolds<K, C>(init: System<K>, cfg: Config<K, C>, events: seq<Event<K>>)
    requires Initial(init, cfg) && cfg.keys.buckets > 0 && SpillLogs.LayoutOk(cfg.lay)
    requires Exec(init, cfg, events).Some?
    ensures var s := Exec(init, cfg, events).value;
      && (forall g, h :: g in s.live && h in s.live ==> g == h)
      && (Quiescent(s) ==> (Coincide(s, init.world.sigprof) <==> Failures(init, cfg, events) == {}))
  {
    InitialInv(init, cfg);
    InvKept(init, cfg, events, init.world.sigprof);
    BrokenIff(init, cfg, events);
  }

  lemma {:induction false} UncreatedStep<K, C>(
    s: System<K>, cfg: Config<K, C>, t: ThreadId, step: Step<K>, original: Disposition)
    requires CollectorShaped(s.world.prof, cfg) && Enabled(s, t, step)
    requires LockAgrees(s, t) && LifecycleOk(s, original) && !s.created && !s.broken
    ensures var after := Do(s, cfg, t, step);
      && !after.created && after.world == s.world && after.nextGuard == s.nextGuard && !after.broken
      && after.accepted == s.accepted
  {
    if step.Advance? && WritesAt(s.threads[t].pc) {
      assert Holder(s) == s.threads[t].pc;
    }
  }

  /** A profiler that could not be created: builds are refused, handlers take no samples, and nothing changes the
      profiler or SIGPROF, over every run. */
  lemma {:induction false} UncreatedDoesNothing<K, C>(
    s: System<K>, cfg: Config<K, C>, events: seq<Event<K>>, original: Disposition)
    requires Inv(s, cfg, original) && !s.created && !s.broken && Exec(s, cfg, events).Some?
    ensures var after := Exec(s, cfg, events).value;
      after.world == s.world && after.nextGuard == s.nextGuard && after.accepted == s.accepted
    decreases |events|
  {
    if |events| > 0 {
      var t, step := events[0].t, events[0].step;
      assert LockAgrees(s, t);
      UncreatedStep(s, cfg, t, step, original);
      InvStep(s, cfg, t, step, original);
      UncreatedDoesNothing(Do(s, cfg, t, step), cfg, events[1..], original);
    }
  }

  /** Some event answers a start() with success. */
  predicate Starts<K, C(==)>(s: System<K>, cfg: Config<K, C>, events: seq<Event<K>>)
    decreases |events|
  {
    if |events| == 0 then false
    else if !CollectorShaped(s.world.prof, cfg) || !Enabled(s, events[0].t, events[0].step) then false
    else
      || (events[0].step == Advance(true) && s.threads[events[0].t].pc.BuildConfigured?)
      || Starts(Do(s, cfg, events[0].t, events[0].step), cfg, events[1..])
  }

  /** The handler is not installed, was not, and runs nowhere. */
  ghost predicate Dormant<K>(s: System<K>, original: Disposition) {
    && s.world.sigprof == original && original.Foreign?
    && !s.world.prof.running && s.world.prof.oldSigaction == None && s.accepted == []
    && forall t :: t in s.threads ==> s.threads[t].handler.Absent?
  }

  lemma {:induction false} DormantStep<K, C>(
    s: System<K>, cfg: Config<K, C>, t: ThreadId, step: Step<K>, original: Disposition)
    requires CollectorShaped(s.world.prof, cfg) && Enabled(s, t, step) && Dormant(s, original)
    requires !(step == Advance(true) && s.threads[t].pc.BuildConfigured?)
    ensures Dormant(Do(s, cfg, t, step), original)
  {
  }

  lemma {:induction false} DormantRun<K, C>(
    s: System<K>, cfg: Config<K, C>, events: seq<Event<K>>, original: Disposition)
    requires Dormant(s, original) && Exec(s, cfg, events).Some? && !Starts(s, cfg, events)
    ensures Dormant(Exec(s, cfg, events).value, original)
    decreases |events|
  {
    if |events| > 0 {
      DormantStep(s, cfg, events[0].t, events[0].step, original);
      DormantRun(Do(s, cfg, events[0].t, events[0].step), cfg, events[1..], original);
    }
  }

  /** No sample without a start: in a run in which no start() succeeds SIGPROF is never touched, no handler ever
      runs, and no sample is taken. */
  lemma {:induction false} SamplesNeedAStart<K, C>(init: System<K>, cfg: Config<K, C>, events: seq<Event<K>>)
    requires Initial(init, cfg) && Exec(init, cfg, events).Some? && !Starts(init, cfg, events)
    ensures var s := Exec(init, cfg, events).value;
      && s.world.sigprof == init.world.sigprof && s.accepted == []
      && forall t :: t in s.threads ==> s.threads[t].handler.Absent?
  {
    DormantRun(init, cfg, events, init.world.sigprof);
  }

  /** A timer that ticks never meets the application's own disposition of SIGPROF: over every run, while it is
      armed the handler is installed and a guard is live. */
  lemma {:induction false} TimerMeetsHandler<K, C>(init: System<K>, cfg: Config<K, C>, events: seq<Event<K>>)
    requires Initial(init, cfg) && cfg.keys.buckets > 0 && SpillLogs.LayoutOk(cfg.lay)
    requires Exec(init, cfg, events).Some?
    ensures var s := Exec(init, cfg, events).value;
      s.armed ==> s.world.sigprof.Handler? && s.live != {}
  {
    InitialInv(init, cfg);
    InvKept(init, cfg, events, init.world.sigprof);
  }

  lemma {:induction false} ForgettingIsFailing<K, C>(s: System<K>, cfg: Config<K, C>, events: seq<Event<K>>)
    requires Forgets(s, cfg, events)
    ensures NewFailed in Failures(s, cfg, events)
    decreases |events|
  {
    var after := Do(s, cfg, events[0].t, events[0].step);
    if Forgets(after, cfg, events[1..]) {
      ForgettingIsFailing(after, cfg, events[1..]);
    }
  }

  /** The counter is the number of samples given to the collector in place, over every run, if and only if no
      collector failed to be created while samples were held; putting the saved action back may fail. */
  lemma {:induction false} CounterIsAccepted<K, C>(init: System<K>, cfg: Config<K, C>, events: seq<Event<K>>)
    requires Initial(init, cfg) && cfg.keys.buckets > 0 && SpillLogs.LayoutOk(cfg.lay)
    requires Exec(init, cfg, events).Some?
    ensures var s := Exec(init, cfg, events).value;
      && s.world.prof.data == Run(cfg, s.accepted).state
      && 0 <= s.world.prof.sampleCounter <= |s.accepted|
      && (s.world.prof.sampleCounter == |s.accepted| <==> !Forgets(init, cfg, events))
    ensures Forgets(init, cfg, events) ==> NewFailed in Failures(init, cfg, events)
  {
    InitialInv(init, cfg);
    InvKept(init, cfg, events, init.world.sigprof);
    ForgetsIff(init, cfg, events, init.world.sigprof);
    if Forgets(init, cfg, events) {
      ForgettingIsFailing(init, cfg, events);
    }
  }

  /** After a failed stop() the profiler says it is running, though no guard is left, and none is made again. */
  lemma {:induction false} BrokenForGood<K, C>(
    s: System<K>, cfg: Config<K, C>, events: seq<Event<K>>, original: Disposition)
    requires Inv(s, cfg, original) && s.broken && Exec(s, cfg, events).Some?
    ensures var after := Exec(s, cfg, events).value;
      && after.broken && after.world.prof.running && (Quiescent(after) ==> after.live == {})
      && after.nextGuard == s.nextGuard
  {
    BrokenRun(s, cfg, events, original);
    InvKept(s, cfg, events, original);
  }

  // ---- Build and drop as wholes ----

  lemma {:induction false} ExecSplit<K, C>(s: System<K>, cfg: Config<K, C>, a: seq<Event<K>>, b: seq<Event<K>>)
    ensures Exec(s, cfg, a + b) ==
      match Exec(s, cfg, a) { case Some(mid) => Exec(mid, cfg, b) case None => None }
    decreases |a|
  {
    if |a| == 0 {
      assert a + b == b;
    } else if CollectorShaped(s.world.prof, cfg) && Enabled(s, a[0].t, a[0].step) {
      assert (a + b)[1..] == a[1..] + b;
      ExecSplit(Do(s, cfg, a[0].t, a[0].step), cfg, a[1..], b);
    }
  }

  lemma {:induction false} ExecThen<K, C>(
    s: System<K>, cfg: Config<K, C>, a: seq<Event<K>>, mid: System<K>, b: seq<Event<K>>)
    requires Exec(s, cfg, a) == Some(mid)
    ensures Exec(s, cfg, a + b) == Exec(mid, cfg, b)
  {
    ExecSplit(s, cfg, a, b);
  }

  lemma {:induction false} ExecOne<K, C>(s: System<K>, cfg: Config<K, C>, t: ThreadId, step: Step<K>)
    requires CollectorShaped(s.world.prof, cfg) && Enabled(s, t, step)
    ensures Exec(s, cfg, [Event(t, step)]) == Some(Do(s, cfg, t, step))
  {
    assert [Event(t, step)][1..] == [];
  }

  /** `s` with thread `t` alone in its own code at `pc`, and the lock as given. */
  function At<K>(s: System<K>, t: ThreadId, pc: Pc, lock: Lock): System<K> {
    s.(threads := s.threads[t := Thread(pc, Absent)], lock := lock)
  }

  function Advances<K>(t: ThreadId, oks: seq<bool>): seq<Event<K>> {
    seq(|oks|, i requires 0 <= i < |oks| => Event(t, Advance(oks[i])))
  }

  /** Three steps of thread `t`'s own code. */
  lemma {:induction false} AdvanceThrice<K, C>(s: System<K>, cfg: Config<K, C>, t: ThreadId, oks: seq<bool>,
      s1: System<K>, s2: System<K>, s3: System<K>)
    requires |oks| == 3 && CollectorShaped(s.world.prof, cfg)
    requires CollectorShaped(s1.world.prof, cfg) && CollectorShaped(s2.world.prof, cfg)
    requires Enabled(s, t, Advance(oks[0])) && s1 == AdvanceFrom(s, cfg, t, oks[0])
    requires Enabled(s1, t, Advance(oks[1])) && s2 == AdvanceFrom(s1, cfg, t, oks[1])
    requires Enabled(s2, t, Advance(oks[2])) && s3 == AdvanceFrom(s2, cfg, t, oks[2])
    ensures Exec(s, cfg, Advances(t, oks)) == Some(s3)
  {
    ExecOne(s, cfg, t, Advance(oks[0]));
    ExecOne(s1, cfg, t, Advance(oks[1]));
    ExecOne(s2, cfg, t, Advance(oks[2]));
    var e0, e1, e2: Event<K> := Event(t, Advance(oks[0])), Event(t, Advance(oks[1])), Event(t, Advance(oks[2]));
    ExecSplit(s, cfg, [e0], [e1]);
    ExecSplit(s, cfg, [e0] + [e1], [e2]);
    assert Advances(t, oks) == [e0] + [e1] + [e2];
  }

  /** What `build` leaves behind when start() succeeds: the settings, the saved action, the flag, the handler,
      an armed timer, and a new guard in the application's hands. */
  function Built<K>(s: System<K>, b: Builder): System<K> {
    var w := s.world.(prof := s.world.prof.(onStack := b.onStack, blocklist := b.blocklist));
    s.(world := Started(w, true).0, armed := true, available := s.available + {s.nextGuard},
       live := s.live + {s.nextGuard}, nextGuard := s.nextGuard + 1)
  }

  function Configured<K>(s: System<K>, b: Builder): System<K> {
    s.(world := s.world.(prof := s.world.prof.(onStack := b.onStack, blocklist := b.blocklist)))
  }

  lemma {:induction false} BuildEnters<K, C>(s: System<K>, cfg: Config<K, C>, t: ThreadId, b: Builder)
    requires CollectorShaped(s.world.prof, cfg) && s.lock.Free?
    requires t in s.threads && s.threads[t] == Thread(Idle, Absent)
    ensures Exec(s, cfg, [Event(t, Build(b))] + Advances(t, [true, true, true]))
      == Some(At(s, t, BuildLocked(b), Write(t, false)))
  {
    var s0 := At(s, t, BuildTrigger(b), Free);
    ExecOne(s, cfg, t, Build(b));
    AdvanceThrice(s0, cfg, t, [true, true, true], At(s, t, BuildTriggered(b), Read({t})),
      At(s, t, BuildWait(b), Free), At(s, t, BuildLocked(b), Write(t, false)));
    ExecThen(s, cfg, [Event(t, Build(b))], s0, Advances(t, [true, true, true]));
  }

  lemma {:induction false} BuildConfigures<K, C>(s: System<K>, cfg: Config<K, C>, t: ThreadId, b: Builder, ok: bool)
    requires t in s.threads && s.threads[t] == Thread(BuildLocked(b), Absent) && s.created
    ensures Enabled(s, t, Advance(ok))
    ensures AdvanceFrom(s, cfg, t, ok) == At(Configured(s, b), t, BuildConfigured, s.lock)
  {
  }

  lemma {:induction false} BuildRegisters<K, C>(s: System<K>, cfg: Config<K, C>, t: ThreadId)
    requires t in s.threads && s.threads[t] == Thread(BuildConfigured, Absent) && !s.world.prof.running
    ensures Enabled(s, t, Advance(true))
    ensures AdvanceFrom(s, cfg, t, true) == At(s.(world := Started(s.world, true).0), t, BuildStarted, s.lock)
  {
  }

  lemma {:induction false} BuildArms<K, C>(s: System<K>, cfg: Config<K, C>, t: ThreadId)
    requires t in s.threads && s.threads[t] == Thread(BuildStarted, Absent)
    ensures Enabled(s, t, Advance(true))
    ensures AdvanceFrom(s, cfg, t, true) == At(
      s.(armed := true, live := s.live + {s.nextGuard}, nextGuard := s.nextGuard + 1),
      t, BuildGuarded(s.nextGuard), s.lock)
  {
  }

  lemma {:induction false} BuildHandsOver<K, C>(s: System<K>, cfg: Config<K, C>, t: ThreadId, g: GuardId)
    requires t in s.threads && s.threads[t] == Thread(BuildGuarded(g), Absent)
    ensures Enabled(s, t, Advance(true))
    ensures AdvanceFrom(s, cfg, t, true) == At(s.(available := s.available + {g}), t, Idle, Free)
  {
  }

  lemma {:induction false} BuildStarts<K, C>(s: System<K>, cfg: Config<K, C>, t: ThreadId, b: Builder)
    requires CollectorShaped(s.world.prof, cfg) && s.created && !s.world.prof.running
    requires t in s.threads && s.threads[t] == Thread(BuildLocked(b), Absent) && s.lock == Write(t, false)
    ensures Exec(s, cfg, Advances(t, [true, true, true]) + [Event(t, Advance(true))])
      == Some(At(Built(s, b), t, Idle, Free))
  {
    var s1 := AdvanceFrom(s, cfg, t, true);
    BuildConfigures(s, cfg, t, b, true);
    var s2 := AdvanceFrom(s1, cfg, t, true);
    BuildRegisters(s1, cfg, t);
    var s3 := AdvanceFrom(s2, cfg, t, true);
    BuildArms(s2, cfg, t);
    var s4 := AdvanceFrom(s3, cfg, t, true);
    BuildHandsOver(s3, cfg, t, s.nextGuard);
    assert s4.threads == s.threads[t := Thread(Idle, Absent)];
    AdvanceThrice(s, cfg, t, [true, true, true], s1, s2, s3);
    ExecThen(s, cfg, Advances(t, [true, true, true]), s3, [Event(t, Advance(true))]);
    ExecOne(s3, cfg, t, Advance(true));
  }

  lemma {:induction false} BuildLocks<K, C>(s: System<K>, cfg: Config<K, C>, t: ThreadId, b: Builder, ok: bool)
    requires s.lock.Free? && t in s.threads && s.threads[t] == Thread(BuildWait(b), Absent)
    ensures Enabled(s, t, Advance(ok))
    ensures AdvanceFrom(s, cfg, t, ok) == At(s, t, BuildLocked(b), Write(t, false))
  {
  }

  lemma {:induction false} BuildIsRefused<K, C>(s: System<K>, cfg: Config<K, C>, t: ThreadId, ok: bool)
    requires t in s.threads && s.threads[t] == Thread(BuildConfigured, Absent) && s.world.prof.running
    ensures Enabled(s, t, Advance(ok))
    ensures AdvanceFrom(s, cfg, t, ok) == At(s, t, BuildRefused, s.lock)
  {
  }

  lemma {:induction false} RefusedReleases<K, C>(s: System<K>, cfg: Config<K, C>, t: ThreadId, ok: bool)
    requires t in s.threads && s.threads[t] == Thread(BuildRefused, Absent)
    ensures Enabled(s, t, Advance(ok))
    ensures AdvanceFrom(s, cfg, t, ok) == At(s, t, Idle, Free)
  {
  }

  /** A second build is refused, and changes nothing but the settings it wrote before start() could fail. */
  lemma {:induction false} SecondBuildRefused<K, C>(s: System<K>, cfg: Config<K, C>, t: ThreadId, ok: bool)
    requires CollectorShaped(s.world.prof, cfg) && s.created && s.lock.Free? && s.world.prof.running
    requires t in s.threads && s.threads[t].pc.BuildWait? && s.threads[t].handler.Absent?
    ensures var e: Event<K> := Event(t, Advance(ok));
      var b := s.threads[t].pc.b;
      Exec(s, cfg, [e, e, e, e]) == Some(s.(
        threads := s.threads[t := Thread(Idle, Absent)],
        world := s.world.(prof := s.world.prof.(onStack := b.onStack, blocklist := b.blocklist))))
  {
    var e: Event<K> := Event(t, Advance(ok));
    var b := s.threads[t].pc.b;
    var s1 := AdvanceFrom(s, cfg, t, ok);
    BuildLocks(s, cfg, t, b, ok);
    var s2 := AdvanceFrom(s1, cfg, t, ok);
    BuildConfigures(s1, cfg, t, b, ok);
    var s3 := AdvanceFrom(s2, cfg, t, ok);
    BuildIsRefused(s2, cfg, t, ok);
    var s4 := AdvanceFrom(s3, cfg, t, ok);
    RefusedReleases(s3, cfg, t, ok);
    assert s4.threads == s.threads[t := Thread(Idle, Absent)];
    AdvanceThrice(s, cfg, t, [ok, ok, ok], s1, s2, s3);
    ExecThen(s, cfg, Advances(t, [ok, ok, ok]), s3, [e]);
    ExecOne(s3, cfg, t, Advance(ok));
    assert Advances(t, [ok, ok, ok]) + [e] == [e, e, e, e];
  }

  /** The events of a build whose sigaction succeeds. */
  function BuildEvents<K>(t: ThreadId, b: Builder): seq<Event<K>> {
    [Event(t, Build(b))] + Advances(t, [true, true, true])
    + (Advances(t, [true, true, true]) + [Event(t, Advance(true))])
  }

  /** Left alone, a build of a stopped profiler runs through and does just that. */
  lemma {:induction false} BuildAlone<K, C>(s: System<K>, cfg: Config<K, C>, t: ThreadId, b: Builder)
    requires CollectorShaped(s.world.prof, cfg) && s.created && s.lock.Free? && !s.world.prof.running
    requires t in s.threads && s.threads[t] == Thread(Idle, Absent)
    ensures Exec(s, cfg, BuildEvents(t, b)) == Some(Built(s, b))
  {
    var mid := At(s, t, BuildLocked(b), Write(t, false));
    BuildEnters(s, cfg, t, b);
    BuildStarts(mid, cfg, t, b);
    ExecThen(s, cfg, [Event(t, Build(b))] + Advances(t, [true, true, true]), mid,
      Advances(t, [true, true, true]) + [Event(t, Advance(true))]);
    assert At(Built(mid, b), t, Idle, Free).threads == s.threads;
  }

  /** The events of a drop, and the answers of its two system calls. */
  function DropEvents<K>(t: ThreadId, g: GuardId, sigOk: bool, newOk: bool): seq<Event<K>> {
    [Event(t, DropGuard(g))] + [Event(t, Advance(true))] + DropLockedEvents(t, sigOk, newOk)
  }

  function DropLockedEvents<K>(t: ThreadId, sigOk: bool, newOk: bool): seq<Event<K>> {
    if sigOk then Advances(t, [true, sigOk, newOk]) + [Event(t, Advance(true))] else Advances(t, [true, sigOk, true])
  }

  lemma {:induction false} DropEnters<K, C>(s: System<K>, cfg: Config<K, C>, t: ThreadId, g: GuardId)
    requires CollectorShaped(s.world.prof, cfg) && s.lock.Free? && g in s.available
    requires t in s.threads && s.threads[t] == Thread(Idle, Absent)
    ensures Exec(s, cfg, [Event(t, DropGuard(g))] + [Event(t, Advance(true))])
      == Some(At(s.(available := s.available - {g}, armed := false), t, DropWait(g), Free))
  {
    var s0 := At(s.(available := s.available - {g}), t, DropTimer(g), Free);
    ExecOne(s, cfg, t, DropGuard(g));
    ExecOne(s0, cfg, t, Advance(true));
    assert AdvanceFrom(s0, cfg, t, true).threads == s.threads[t := Thread(DropWait(g), Absent)];
    ExecThen(s, cfg, [Event(t, DropGuard(g))], s0, [Event(t, Advance(true))]);
  }

  /** What a drop leaves behind once it has the write lock. */
  function Dropped<K, C>(s: System<K>, cfg: Config<K, C>, g: GuardId, sigOk: bool, newOk: bool): System<K> {
    s.(world := Stopped(s.world, cfg, sigOk, newOk).0, live := s.live - {g},
       accepted := if sigOk && newOk then [] else s.accepted,
       forgotten := if !sigOk then s.forgotten else if newOk then 0 else |s.accepted|,
       broken := s.broken || !(sigOk && newOk))
  }

  lemma {:induction false} DropLocks<K, C>(s: System<K>, cfg: Config<K, C>, t: ThreadId, g: GuardId)
    requires s.lock.Free? && t in s.threads && s.threads[t] == Thread(DropWait(g), Absent)
    ensures Enabled(s, t, Advance(true))
    ensures AdvanceFrom(s, cfg, t, true) == At(s, t, DropLocked(g), Write(t, false))
  {
  }

  /** The first half of stop(), once the lock is held. */
  lemma {:induction false} DropRestores<K, C>(s: System<K>, cfg: Config<K, C>, t: ThreadId, g: GuardId, sigOk: bool)
    requires t in s.threads && s.threads[t] == Thread(DropLocked(g), Absent)
    requires s.world.prof.running && s.world.prof.oldSigaction.Some?
    ensures Enabled(s, t, Advance(sigOk))
    ensures AdvanceFrom(s, cfg, t, sigOk) == At(
      s.(world := Unregister(s.world, sigOk).0, broken := s.broken || !sigOk), t,
      if sigOk then DropUnregistered(g) else DropDone(g), s.lock)
  {
  }

  /** The second half. */
  lemma {:induction false} DropInits<K, C>(s: System<K>, cfg: Config<K, C>, t: ThreadId, g: GuardId, newOk: bool)
    requires t in s.threads && s.threads[t] == Thread(DropUnregistered(g), Absent)
    ensures Enabled(s, t, Advance(newOk))
    ensures AdvanceFrom(s, cfg, t, newOk) == At(
      s.(world := s.world.(prof := Inited(s.world.prof, cfg, newOk).0),
         accepted := if newOk then [] else s.accepted, forgotten := if newOk then 0 else |s.accepted|,
         broken := s.broken || !newOk), t, DropDone(g), s.lock)
  {
  }

  lemma {:induction false} DropReleases<K, C>(s: System<K>, cfg: Config<K, C>, t: ThreadId, g: GuardId)
    requires t in s.threads && s.threads[t] == Thread(DropDone(g), Absent)
    ensures Enabled(s, t, Advance(true))
    ensures AdvanceFrom(s, cfg, t, true) == At(s.(live := s.live - {g}), t, Idle, Free)
  {
  }

  /** A stop() of a profiler that is not running is refused and changes nothing. */
  lemma {:induction false} DropOfStopped<K, C>(s: System<K>, cfg: Config<K, C>, t: ThreadId, g: GuardId, ok: bool)
    requires t in s.threads && s.threads[t] == Thread(DropLocked(g), Absent) && !s.world.prof.running
    ensures Enabled(s, t, Advance(ok)) && AdvanceFrom(s, cfg, t, ok) == At(s, t, DropDone(g), s.lock)
  {
  }

  lemma {:induction false} DropUnregisters<K, C>(s: System<K>, cfg: Config<K, C>, t: ThreadId, g: GuardId, newOk: bool)
    requires CollectorShaped(s.world.prof, cfg) && s.lock.Free? && s.world.prof.running
    requires s.world.prof.oldSigaction.Some?
    requires t in s.threads && s.threads[t] == Thread(DropWait(g), Absent)
    ensures Exec(s, cfg, DropLockedEvents(t, true, newOk)) == Some(At(Dropped(s, cfg, g, true, newOk), t, Idle, Free))
  {
    var s1 := AdvanceFrom(s, cfg, t, true);
    DropLocks(s, cfg, t, g);
    var s2 := AdvanceFrom(s1, cfg, t, true);
    DropRestores(s1, cfg, t, g, true);
    var s3 := AdvanceFrom(s2, cfg, t, newOk);
    DropInits(s2, cfg, t, g, newOk);
    var s4 := AdvanceFrom(s3, cfg, t, true);
    DropReleases(s3, cfg, t, g);
    assert s4.threads == s.threads[t := Thread(Idle, Absent)];
    assert s4.world == Stopped(s.world, cfg, true, newOk).0;
    AdvanceThrice(s, cfg, t, [true, true, newOk], s1, s2, s3);
    ExecThen(s, cfg, Advances(t, [true, true, newOk]), s3, [Event(t, Advance(true))]);
    ExecOne(s3, cfg, t, Advance(true));
  }

  lemma {:induction false} DropCannotUnregister<K, C>(
    s: System<K>, cfg: Config<K, C>, t: ThreadId, g: GuardId, newOk: bool)
    requires CollectorShaped(s.world.prof, cfg) && s.lock.Free? && s.world.prof.running
    requires s.world.prof.oldSigaction.Some?
    requires t in s.threads && s.threads[t] == Thread(DropWait(g), Absent)
    ensures Exec(s, cfg, DropLockedEvents(t, false, newOk)) == Some(At(Dropped(s, cfg, g, false, newOk), t, Idle, Free))
  {
    var s1 := AdvanceFrom(s, cfg, t, true);
    DropLocks(s, cfg, t, g);
    var s2 := AdvanceFrom(s1, cfg, t, false);
    DropRestores(s1, cfg, t, g, false);
    var s3 := AdvanceFrom(s2, cfg, t, true);
    DropReleases(s2, cfg, t, g);
    assert s3.threads == s.threads[t := Thread(Idle, Absent)];
    assert s3.world == Stopped(s.world, cfg, false, newOk).0;
    AdvanceThrice(s, cfg, t, [true, false, true], s1, s2, s3);
  }

  /** Left alone, dropping the guard of a running profiler runs through and does exactly what stop() does;
      the timer is disarmed and the guard gone even if that fails. */
  lemma {:induction false} DropAlone<K, C>(
    s: System<K>, cfg: Config<K, C>, t: ThreadId, g: GuardId, sigOk: bool, newOk: bool)
    requires CollectorShaped(s.world.prof, cfg) && s.lock.Free? && s.world.prof.running
    requires s.world.prof.oldSigaction.Some? && g in s.available
    requires t in s.threads && s.threads[t] == Thread(Idle, Absent)
    ensures Exec(s, cfg, DropEvents(t, g, sigOk, newOk)) == Some(s.(
      world := Stopped(s.world, cfg, sigOk, newOk).0, armed := false,
      available := s.available - {g}, live := s.live - {g},
      accepted := if sigOk && newOk then [] else s.accepted,
      forgotten := if !sigOk then s.forgotten else if newOk then 0 else |s.accepted|,
      broken := s.broken || !(sigOk && newOk)))
  {
    var mid := At(s.(available := s.available - {g}, armed := false), t, DropWait(g), Free);
    DropEnters(s, cfg, t, g);
    if sigOk {
      DropUnregisters(mid, cfg, t, g, newOk);
    } else {
      DropCannotUnregister(mid, cfg, t, g, newOk);
    }
    ExecThen(s, cfg, [Event(t, DropGuard(g))] + [Event(t, Advance(true))], mid, DropLockedEvents(t, sigOk, newOk));
    assert Exec(mid, cfg, DropLockedEvents(t, sigOk, newOk)).value.threads == s.threads;
  }

  /** A build followed by a drop of the guard it made, from a stopped, quiescent state. */
  lemma {:induction false} BuildThenDrop<K, C>(
    s: System<K>, cfg: Config<K, C>, t: ThreadId, b: Builder, sigOk: bool, newOk: bool)
    requires CollectorShaped(s.world.prof, cfg) && s.created && s.lock.Free? && !s.world.prof.running
    requires t in s.threads && s.threads[t] == Thread(Idle, Absent) && s.live == {} && s.available == {}
    ensures Exec(s, cfg, BuildEvents(t, b) + DropEvents(t, s.nextGuard, sigOk, newOk)) == Some(s.(
      world := Stopped(Built(s, b).world, cfg, sigOk, newOk).0, armed := false, nextGuard := s.nextGuard + 1,
      accepted := if sigOk && newOk then [] else s.accepted,
      forgotten := if !sigOk then s.forgotten else if newOk then 0 else |s.accepted|,
      broken := s.broken || !(sigOk && newOk)))
  {
    BuildAlone(s, cfg, t, b);
    ExecThen(s, cfg, BuildEvents(t, b), Built(s, b), DropEvents(t, s.nextGuard, sigOk, newOk));
    DropAlone(Built(s, b), cfg, t, s.nextGuard, sigOk, newOk);
  }

  /** A stop() can fail: after a build and a drop with either system call of the drop failing, the profiler is
      flagged as running with no guard left and the lock free; the handler stays installed if it was sigaction
      that failed, and if it was not, SIGPROF is as it was. */
  lemma {:induction false} StopCanFail<K, C>(
    s: System<K>, cfg: Config<K, C>, t: ThreadId, b: Builder, sigOk: bool, newOk: bool)
    requires CollectorShaped(s.world.prof, cfg) && s.created && s.lock.Free? && !s.world.prof.running
    requires t in s.threads && s.threads[t] == Thread(Idle, Absent) && s.live == {} && s.available == {}
    requires !(sigOk && newOk)
    ensures var r := Exec(s, cfg, BuildEvents(t, b) + DropEvents(t, s.nextGuard, sigOk, newOk));
      && r.Some? && r.value.broken && r.value.live == {} && r.value.lock.Free? && !r.value.armed
      && r.value.world.prof.running && r.value.world.prof.oldSigaction == None
      && r.value.world.sigprof == (if sigOk then s.world.sigprof else Handler(b.onStack))
  {
    BuildThenDrop(s, cfg, t, b, sigOk, newOk);
  }

  /** A build followed by a drop, both successful, is undone but for the settings: disposition, saved action,
      flag, timer and guards are as before, and the collector is empty. */
  lemma {:induction false} DropUndoesBuild<K, C>(s: System<K>, cfg: Config<K, C>, t: ThreadId, b: Builder)
    requires CollectorShaped(s.world.prof, cfg) && s.created && s.lock.Free? && !s.world.prof.running
    requires t in s.threads && s.threads[t] == Thread(Idle, Absent) && s.live == {} && s.available == {}
    ensures Exec(s, cfg, BuildEvents(t, b) + DropEvents(t, s.nextGuard, true, true)) == Some(s.(
      world := World(
        Profiler(Fresh(cfg), 0, None, false, b.onStack, b.blocklist), s.world.sigprof),
      armed := false, nextGuard := s.nextGuard + 1, accepted := [], forgotten := 0))
  {
    BuildThenDrop(s, cfg, t, b, true, true);
  }

  /** One signal to thread `t`, and its handler's four steps with the sample `call`. */
  function SampleEvents<K>(t: ThreadId, call: Call<K>): seq<Event<K>> {
    var step := Event(t, HandlerStep(Some(call)));
    [Event(t, Signal)] + [step, step, step, step]
  }

  lemma {:induction false} SampleAlone<K, C>(s: System<K>, cfg: Config<K, C>, t: ThreadId, call: Call<K>)
    requires CollectorShaped(s.world.prof, cfg) && s.created && s.lock.Free? && call.count == 1
    requires t in s.threads && s.threads[t].handler.Absent? && s.world.sigprof.Handler?
    ensures Exec(s, cfg, SampleEvents(t, call)) == Some(s.(accepted := s.accepted + [call],
      world := s.world.(prof := Sampled(s.world.prof, cfg, call.key, call.write))))
  {
    var s0 := SetHandler(s, t, Entered);
    var step := Event(t, HandlerStep(Some(call)));
    ExecOne(s, cfg, t, Signal);
    HandlerSamplesOnce(s0, cfg, t, call);
    ExecThen(s, cfg, [Event(t, Signal)], s0, [step, step, step, step]);
    assert s0.threads[t := s0.threads[t].(handler := Absent)] == s.threads;
  }

  /** A build, one sample, and a drop whose stop() cannot create the next collector. */
  function ForgettingEvents<K>(t: ThreadId, b: Builder, call: Call<K>, g: GuardId): seq<Event<K>> {
    BuildEvents(t, b) + SampleEvents(t, call) + DropEvents(t, g, true, false)
  }

  lemma {:induction false} SampledShape<K, C>(p: Profiler<K>, cfg: Config<K, C>, call: Call<K>)
    requires CollectorShaped(p, cfg)
    ensures CollectorShaped(Sampled(p, cfg, call.key, call.write), cfg)
  {
  }

  /** The counter can fall behind for good: such a run, from nothing, ends with the sample in the collector, the
      flag up, and a counter of zero. */
  lemma {:induction false} CounterFallsBehind<K, C>(
    init: System<K>, cfg: Config<K, C>, t: ThreadId, b: Builder, call: Call<K>)
    requires Initial(init, cfg) && cfg.keys.buckets > 0 && SpillLogs.LayoutOk(cfg.lay) && init.created
    requires t in init.threads && call.count == 1
    ensures var r := Exec(init, cfg, ForgettingEvents(t, b, call, init.nextGuard));
      && r.Some? && r.value.accepted == [call] && r.value.world.prof.data == Run(cfg, [call]).state
      && r.value.world.prof.sampleCounter == 0 && r.value.world.prof.running && r.value.live == {}
    ensures Forgets(init, cfg, ForgettingEvents(t, b, call, init.nextGuard))
  {
    var s1 := Built(init, b);
    var s2 := s1.(accepted := [] + [call],
      world := s1.world.(prof := Sampled(s1.world.prof, cfg, call.key, call.write)));
    BuildAlone(init, cfg, t, b);
    SampleAlone(s1, cfg, t, call);
    ExecThen(init, cfg, BuildEvents(t, b), s1, SampleEvents(t, call));
    SampledShape(s1.world.prof, cfg, call);
    DropAlone(s2, cfg, t, init.nextGuard, true, false);
    ExecThen(init, cfg, BuildEvents(t, b) + SampleEvents(t, call), s2, DropEvents(t, init.nextGuard, true, false));
    CounterIsAccepted(init, cfg, ForgettingEvents(t, b, call, init.nextGuard));
  }

  // ---- Reports as wholes ----

  function ReportEvents<K>(t: ThreadId, exclusive: bool): seq<Event<K>> {
    [Event(t, Report(exclusive))] + [Event(t, Advance(true))]
  }

  /** Where nobody writes, a report that reads shared gets in beside the readers there are; where the lock is
      free, one that needs it exclusively gets it alone. */
  lemma {:induction false} ReportEnters<K, C>(s: System<K>, cfg: Config<K, C>, t: ThreadId, exclusive: bool)
    requires CollectorShaped(s.world.prof, cfg) && t in s.threads && s.threads[t] == Thread(Idle, Absent)
    requires if exclusive then s.lock.Free? else !s.lock.Write?
    ensures Exec(s, cfg, ReportEvents(t, exclusive)) == Some(At(s, t, ReportLocked(exclusive),
      if exclusive then Write(t, false) else Read(ReadersOf(s.lock) + {t})))
  {
    var s0 := At(s, t, ReportWait(exclusive), s.lock);
    ExecOne(s, cfg, t, Report(exclusive));
    ExecOne(s0, cfg, t, Advance(true));
    assert AdvanceFrom(s0, cfg, t, true).threads == s.threads[t := Thread(ReportLocked(exclusive), Absent)];
    ExecThen(s, cfg, [Event(t, Report(exclusive))], s0, [Event(t, Advance(true))]);
    assert {} + {t} == {t};
  }

  /** Left alone, a report takes the lock its kind needs, gives it back, and leaves everything as it was. */
  lemma {:induction false} ReportAlone<K, C>(s: System<K>, cfg: Config<K, C>, t: ThreadId, exclusive: bool)
    requires CollectorShaped(s.world.prof, cfg) && s.lock.Free?
    requires t in s.threads && s.threads[t] == Thread(Idle, Absent)
    ensures Exec(s, cfg, ReportEvents(t, exclusive)) == Some(At(s, t, ReportLocked(exclusive),
      if exclusive then Write(t, false) else Read({t})))
    ensures Exec(s, cfg, ReportEvents(t, exclusive) + [Event(t, Advance(true))]) == Some(s)
  {
    var mid := At(s, t, ReportLocked(exclusive), if exclusive then Write(t, false) else Read({t}));
    ReportEnters(s, cfg, t, exclusive);
    assert {} + {t} == {t};
    ExecOne(mid, cfg, t, Advance(true));
    ExecThen(s, cfg, ReportEvents(t, exclusive), mid, [Event(t, Advance(true))]);
    assert AdvanceFrom(mid, cfg, t, true).threads == s.threads;
  }

  /** Two reports that read shared are in at once. */
  lemma {:induction false} SharedReportsMeet<K, C>(s: System<K>, cfg: Config<K, C>, t: ThreadId, u: ThreadId)
    requires CollectorShaped(s.world.prof, cfg) && s.lock.Free? && t != u && t in s.threads && u in s.threads
    requires s.threads[t] == Thread(Idle, Absent) && s.threads[u] == Thread(Idle, Absent)
    ensures var r := Exec(s, cfg, ReportEvents(t, false) + ReportEvents(u, false));
      && r.Some? && r.value.lock == Read({t, u}) && r.value.threads.Keys == s.threads.Keys
      && r.value.threads[t].pc == ReportLocked(false) && r.value.threads[u].pc == ReportLocked(false)
  {
    var mid := At(s, t, ReportLocked(false), Read({t}));
    ReportAlone(s, cfg, t, false);
    ReportEnters(mid, cfg, u, false);
    ExecThen(s, cfg, ReportEvents(t, false), mid, ReportEvents(u, false));
    assert {t} + {u} == {t, u};
  }

  /** A report that waits can go in if and only if nobody has the lock or, for one that reads shared, nobody has
      it but readers. */
  lemma {:induction false} ReportEntersIff<K, C>(s: System<K>, cfg: Config<K, C>, t: ThreadId, ok: bool)
    requires LockOk(s) && t in s.threads && s.threads[t].pc.ReportWait? && s.threads[t].handler.Absent?
    ensures Enabled(s, t, Advance(ok)) <==>
      forall u :: HoldsLock(s, u) ==> !s.threads[t].pc.exclusive && u in ReadersOf(s.lock)
  {
    if s.lock.Write? {
      assert HoldsLock(s, s.lock.holder);
    } else if s.lock.Read? {
      var u :| u in s.lock.readers;
      assert HoldsLock(s, u);
    }
  }

  /** While a thread is in an exclusive report, no other is in a report or can go into one; while one is in a
      shared report, none is in an exclusive one or can go into one. */
  lemma {:induction false} ExclusiveReportsExclude<K, C>(s: System<K>, t: ThreadId, u: ThreadId, ok: bool)
    requires LockOk(s) && t in s.threads && u in s.threads && t != u && s.threads[t].pc.ReportLocked?
    ensures s.threads[u].pc.ReportLocked? ==> !s.threads[t].pc.exclusive && !s.threads[u].pc.exclusive
    ensures s.threads[u].pc.ReportWait? && Enabled(s, u, Advance(ok)) ==>
      !s.threads[t].pc.exclusive && !s.threads[u].pc.exclusive
  {
    assert LockAgrees(s, t) && LockAgrees(s, u);
  }
}
