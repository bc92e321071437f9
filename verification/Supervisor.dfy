/**
 * The supervisor's process table as a state machine.
 *
 * Each step is one critical section or one atomic channel operation of a goroutine: a caller of
 * EnsureRunning, the start goroutine of a process, its exit watcher, or a Stop. Goroutines
 * interleave freely; the key lock is part of the state.
 */
module Supervisor {
  import opened Keys

  type Pid = nat

  /** Where the start goroutine of a process is. */
  datatype Phase =
    | Queued     // waiting for the key lock
    | Preparing  // run spec, hydrate, init, port: nothing launched yet
    | Polling    // launched, health check not passed yet
    | Passed     // health check passed, ready not closed yet
    | Killing    // never went healthy: waiting for the exit watcher
    | Failing    // failed closed, entry not forgotten yet
    | Over       // key lock released

  /** Where the exit watcher of a launched process is. */
  datatype Watcher = NotStarted | Watching | Forgetting | Gone

  /** One `process`. The three counters count the closes of its channels. */
  datatype Process = Process(
    key: Key,
    phase: Phase,
    watcher: Watcher,
    port: nat,
    launched: bool,
    exited: bool,
    passedHealth: bool,
    readyCloses: nat,
    failedCloses: nat,
    doneCloses: nat)
  {
    predicate Ready() { readyCloses > 0 }

    predicate Failed() { failedCloses > 0 }

    predicate Done() { doneCloses > 0 }

    /** The operating system still runs it. */
    predicate Live() { launched && !exited }

    predicate StartHoldsLock() { phase != Queued && phase != Over }
  }

  /** A call of EnsureRunning; `round` counts its retries. */
  datatype Caller =
    | Asking(key: Key, round: nat)
    | Waiting(key: Key, p: Pid, round: nat)
    | Dropping(key: Key, p: Pid, round: nat, retry: bool)
    | Returned(key: Key, p: Pid, port: nat)
    | Refused(key: Key)

  /** A call of Stop. */
  datatype Stopper =
    | WantsLock(key: Key)
    | HasLock(key: Key)
    | AwaitsExit(key: Key, p: Pid)
    | Stopped(key: Key, p: Pid)
    | FoundNothing(key: Key)
  {
    predicate HoldsLock() { HasLock? || AwaitsExit? }
  }

  datatype Holder = ByStart(p: Pid) | ByStop(t: nat)

  datatype State = State(
    procs: map<Key, Pid>,
    table: map<Pid, Process>,
    nextPid: Pid,
    locks: map<Key, Holder>,
    callers: map<nat, Caller>,
    stoppers: map<nat, Stopper>,
    stopping: bool)

  const INIT := State(map[], map[], 0, map[], map[], map[], false)

  // ---- What the start goroutine and the exit watcher do to their process ----

  datatype Op =
    | TakeLock
    | FailBeforeLaunch
    | Launch(port: nat)
    | HealthOk
    | CloseReady
    | Unhealthy
    | FailAfterExit
    | StartForget
    | Exit
    | CloseDone
    | WatcherForget
  {
    predicate Forgets() { StartForget? || WatcherForget? }

    predicate ReleasesLock() { CloseReady? || StartForget? }
  }

  predicate CanRun(x: Process, op: Op) {
    match op
    case TakeLock => x.phase == Queued
    case FailBeforeLaunch => x.phase == Preparing
    case Launch(_) => x.phase == Preparing
    case HealthOk => x.phase == Polling
    case CloseReady => x.phase == Passed
    case Unhealthy => x.phase == Polling
    case FailAfterExit => x.phase == Killing && x.Done()
    case StartForget => x.phase == Failing
    case Exit => x.Live()
    case CloseDone => x.watcher == Watching && x.exited
    case WatcherForget => x.watcher == Forgetting
  }

  function Run(x: Process, op: Op): Process
    requires CanRun(x, op)
  {
    match op
    case TakeLock => x.(phase := Preparing)
    case FailBeforeLaunch => x.(phase := Failing, failedCloses := x.failedCloses + 1)
    case Launch(port) => x.(phase := Polling, watcher := Watching, port := port, launched := true)
    case HealthOk => x.(phase := Passed, passedHealth := true)
    case CloseReady => x.(phase := Over, readyCloses := x.readyCloses + 1)
    case Unhealthy => x.(phase := Killing)
    case FailAfterExit => x.(phase := Failing, failedCloses := x.failedCloses + 1)
    case StartForget => x.(phase := Over)
    case Exit => x.(exited := true)
    case CloseDone => x.(watcher := Forgetting, doneCloses := x.doneCloses + 1)
    case WatcherForget => x.(watcher := Gone)
  }

  // ---- Steps ----

  datatype Step =
    | Call(c: nat, k: Key)
    | Lookup(c: nat)
    | SeeReady(c: nat)
    | SeeFailed(c: nat)
    | GiveUp(c: nat)
    | CallerForget(c: nat)
    | OnProcess(p: Pid, op: Op)
    | RequestStop(t: nat, k: Key)
    | StopLock(t: nat)
    | StopRead(t: nat)
    | StopForget(t: nat)
    | Shutdown

  /** `forget`: the entry goes only if p is still the tracked one. */
  function Forget(procs: map<Key, Pid>, k: Key, p: Pid): map<Key, Pid> {
    if k in procs && procs[k] == p then procs - {k} else procs
  }

  predicate Enabled(s: State, e: Step) {
    match e
    case Call(c, _) => c !in s.callers
    case Lookup(c) => c in s.callers && s.callers[c].Asking?
    case SeeReady(c) =>
      c in s.callers && s.callers[c].Waiting? && s.callers[c].p in s.table && s.table[s.callers[c].p].Ready()
    case SeeFailed(c) =>
      c in s.callers && s.callers[c].Waiting? && s.callers[c].p in s.table && s.table[s.callers[c].p].Failed()
    case GiveUp(c) => c in s.callers && s.callers[c].Waiting?
    case CallerForget(c) => c in s.callers && s.callers[c].Dropping?
    case OnProcess(p, op) =>
      p in s.table && CanRun(s.table[p], op) && (op.TakeLock? ==> s.table[p].key !in s.locks)
    case RequestStop(t, _) => t !in s.stoppers
    case StopLock(t) => t in s.stoppers && s.stoppers[t].WantsLock? && s.stoppers[t].key !in s.locks
    case StopRead(t) => t in s.stoppers && s.stoppers[t].HasLock?
    case StopForget(t) =>
      t in s.stoppers && s.stoppers[t].AwaitsExit? && s.stoppers[t].p in s.table &&
      s.table[s.stoppers[t].p].Done()
    case Shutdown => true
  }

  /** EnsureRunning's critical section: refuse, join the tracked process, or track a new one. */
  function LookupSection(s: State, c: nat): State
    requires Enabled(s, Lookup(c))
  {
    var k, round := s.callers[c].key, s.callers[c].round;
    if s.stopping then
      s.(callers := s.callers[c := Refused(k)])
    else if k in s.procs then
      s.(callers := s.callers[c := Waiting(k, s.procs[k], round)])
    else
      var p := s.nextPid;
      s.(nextPid := p + 1,
         procs := s.procs[k := p],
         table := s.table[p := Process(k, Queued, NotStarted, 0, false, false, false, 0, 0, 0)],
         callers := s.callers[c := Waiting(k, p, round)])
  }

  /** What a caller does once its process is ready: return the port, or drop a process that died since. */
  function AfterReady(s: State, w: Caller): Caller
    requires w.Waiting? && w.p in s.table
  {
    if s.table[w.p].Done() then Dropping(w.key, w.p, w.round, true) else Returned(w.key, w.p, s.table[w.p].port)
  }

  /** stopLocked's decision: nothing tracked, nothing launched yet, or a process to stop. */
  function StopReadSection(s: State, t: nat): State
    requires Enabled(s, StopRead(t))
  {
    var k := s.stoppers[t].key;
    if k in s.procs && s.procs[k] in s.table && s.table[s.procs[k]].launched then
      s.(stoppers := s.stoppers[t := AwaitsExit(k, s.procs[k])])
    else
      s.(stoppers := s.stoppers[t := FoundNothing(k)], locks := s.locks - {k})
  }

  function ProcessSection(s: State, p: Pid, op: Op): State
    requires Enabled(s, OnProcess(p, op))
  {
    var x := s.table[p];
    s.(table := s.table[p := Run(x, op)],
       procs := if op.Forgets() then Forget(s.procs, x.key, p) else s.procs,
       locks := if op.TakeLock? then s.locks[x.key := ByStart(p)]
                else if op.ReleasesLock() then s.locks - {x.key} else s.locks)
  }

  function Apply(s: State, e: Step): State
    requires Enabled(s, e)
  {
    match e
    case Call(c, k) => s.(callers := s.callers[c := Asking(k, 0)])
    case Lookup(c) => LookupSection(s, c)
    case SeeReady(c) => s.(callers := s.callers[c := AfterReady(s, s.callers[c])])
    case SeeFailed(c) =>
      var w := s.callers[c];
      s.(callers := s.callers[c := Dropping(w.key, w.p, w.round, false)])
    case GiveUp(c) => s.(callers := s.callers[c := Refused(s.callers[c].key)])
    case CallerForget(c) =>
      var w := s.callers[c];
      s.(procs := Forget(s.procs, w.key, w.p),
         callers := s.callers[c := if w.retry && w.round == 0 then Asking(w.key, 1) else Refused(w.key)])
    case OnProcess(p, op) => ProcessSection(s, p, op)
    case RequestStop(t, k) => s.(stoppers := s.stoppers[t := WantsLock(k)])
    case StopLock(t) =>
      s.(stoppers := s.stoppers[t := HasLock(s.stoppers[t].key)],
         locks := s.locks[s.stoppers[t].key := ByStop(t)])
    case StopRead(t) => StopReadSection(s, t)
    case StopForget(t) =>
      var w := s.stoppers[t];
      s.(procs := Forget(s.procs, w.key, w.p),
         stoppers := s.stoppers[t := Stopped(w.key, w.p)],
         locks := s.locks - {w.key})
    case Shutdown => s.(stopping := true)
  }

  // ---- The invariant ----

  /** What the fields of one process may look like together. */
  ghost predicate ProcessOk(x: Process) {
    && (x.phase == Queued || x.phase == Preparing ==> !x.launched && !x.Ready() && !x.Failed())
    && (x.phase == Polling || x.phase == Passed || x.phase == Killing ==> x.launched && !x.Ready() && !x.Failed())
    && (x.phase == Passed ==> x.passedHealth)
    && (x.phase == Failing ==> x.Failed() && !x.Ready())
    && (x.phase == Over ==> x.readyCloses + x.failedCloses == 1)
    && x.readyCloses + x.failedCloses <= 1
    && x.doneCloses <= 1
    && (x.launched <==> x.watcher != NotStarted)
    && (x.Done() <==> x.watcher == Forgetting || x.watcher == Gone)
    && (x.Done() ==> x.exited)
    && (x.exited ==> x.launched)
    && (x.Ready() ==> x.launched && x.passedHealth)
    && (x.Failed() && x.launched ==> x.Done())
  }

  ghost predicate Tracked(s: State, p: Pid)
    requires p in s.table
  {
    s.table[p].key in s.procs && s.procs[s.table[p].key] == p
  }

  /** A process whose outcome is open, or that still runs, is the tracked one. */
  ghost predicate EntryOk(s: State, p: Pid)
    requires p in s.table
  {
    var x := s.table[p];
    p < s.nextPid && ProcessOk(x) && (!x.Failed() && !x.Done() ==> Tracked(s, p))
  }

  predicate KeyOk(s: State, k: Key)
    requires k in s.procs
  {
    s.procs[k] in s.table && s.table[s.procs[k]].key == k
  }

  ghost predicate TableOk(s: State) {
    && (forall p | p in s.table :: EntryOk(s, p))
    && (forall k | k in s.procs :: KeyOk(s, k))
  }

  predicate StartLockOk(s: State, p: Pid)
    requires p in s.table
  {
    s.table[p].StartHoldsLock() ==> s.table[p].key in s.locks && s.locks[s.table[p].key] == ByStart(p)
  }

  predicate StopLockOk(s: State, t: nat)
    requires t in s.stoppers
  {
    s.stoppers[t].HoldsLock() ==> s.stoppers[t].key in s.locks && s.locks[s.stoppers[t].key] == ByStop(t)
  }

  ghost predicate LocksOk(s: State) {
    && (forall p | p in s.table :: StartLockOk(s, p))
    && (forall t | t in s.stoppers :: StopLockOk(s, t))
  }

  ghost predicate CallerOk(s: State, w: Caller) {
    match w
    case Asking(_, _) => true
    case Refused(_) => true
    case Waiting(k, p, _) => p in s.table && s.table[p].key == k
    case Dropping(k, p, _, _) => p in s.table && s.table[p].key == k && (s.table[p].Failed() || s.table[p].Done())
    case Returned(k, p, port) =>
      p in s.table && s.table[p].key == k && s.table[p].Ready() && s.table[p].port == port
  }

  ghost predicate StopperOk(s: State, w: Stopper) {
    match w
    case AwaitsExit(k, p) => p in s.table && s.table[p].key == k && s.table[p].launched
    case Stopped(k, p) => p in s.table && s.table[p].key == k && s.table[p].Done() && !Tracked(s, p)
    case _ => true
  }

  ghost predicate Inv(s: State) {
    && TableOk(s)
    && LocksOk(s)
    && (forall c | c in s.callers :: CallerOk(s, s.callers[c]))
    && (forall t | t in s.stoppers :: StopperOk(s, s.stoppers[t]))
  }

  // ---- Every step keeps it ----

  /** What never changes back: identities, launches, closed channels. */
  ghost predicate Later(x: Process, x': Process) {
    && x'.key == x.key
    && (x.launched ==> x'.launched && x'.port == x.port)
    && (x.Ready() ==> x'.Ready())
    && (x.Failed() ==> x'.Failed())
    && (x.Done() ==> x'.Done())
    && (x.exited ==> x'.exited)
  }

  lemma RunKeepsProcess(x: Process, op: Op)
    requires ProcessOk(x) && CanRun(x, op)
    ensures ProcessOk(Run(x, op)) && Later(x, Run(x, op))
    ensures op.Forgets() ==> x.Failed() || x.Done()
    ensures Run(x, op).StartHoldsLock() <==> (x.StartHoldsLock() || op.TakeLock?) && !op.ReleasesLock()
    ensures op.TakeLock? ==> !x.StartHoldsLock()
    ensures op.ReleasesLock() ==> x.StartHoldsLock()
  {
  }

  /** Processes stay and move forward, and an entry that was forgotten stays forgotten. */
  ghost predicate Grows(s: State, s': State) {
    forall p | p in s.table ::
      p in s'.table && Later(s.table[p], s'.table[p]) && (Tracked(s', p) ==> Tracked(s, p))
  }

  lemma ForgetKeepsTable(s: State, s': State, p: Pid)
    requires TableOk(s) && p in s.table && (s.table[p].Failed() || s.table[p].Done())
    requires s'.table == s.table && s'.nextPid == s.nextPid && s'.procs == Forget(s.procs, s.table[p].key, p)
    ensures TableOk(s') && Grows(s, s') && !Tracked(s', p)
  {
  }

  lemma PutKeepsTable(s: State, s': State, p: Pid, x': Process)
    requires TableOk(s) && p in s.table && ProcessOk(x') && Later(s.table[p], x')
    requires s'.table == s.table[p := x'] && s'.nextPid == s.nextPid && s'.procs == s.procs
    ensures TableOk(s') && Grows(s, s')
  {
  }

  lemma ProcessStepKeepsTable(s: State, p: Pid, op: Op)
    requires TableOk(s) && Enabled(s, OnProcess(p, op))
    ensures TableOk(ProcessSection(s, p, op)) && Grows(s, ProcessSection(s, p, op))
  {
    var x, s' := s.table[p], ProcessSection(s, p, op);
    RunKeepsProcess(x, op);
    var mid := s.(table := s.table[p := Run(x, op)]);
    PutKeepsTable(s, mid, p, Run(x, op));
    if op.Forgets() {
      ForgetKeepsTable(mid, s', p);
    }
  }

  lemma LookupKeepsTable(s: State, c: nat)
    requires TableOk(s) && Enabled(s, Lookup(c))
    ensures TableOk(LookupSection(s, c)) && Grows(s, LookupSection(s, c))
  {
    var k, s' := s.callers[c].key, LookupSection(s, c);
    if s.stopping || k in s.procs {
      SameTableKept(s, s');
    } else {
      TrackNewKeepsTable(s, s', k);
      TrackNewGrows(s, s', k);
    }
  }

  predicate TracksNew(s: State, s': State, k: Key) {
    && k !in s.procs && s'.procs == s.procs[k := s.nextPid] && s'.nextPid == s.nextPid + 1
    && s'.table == s.table[s.nextPid := Process(k, Queued, NotStarted, 0, false, false, false, 0, 0, 0)]
  }

  lemma TrackNewGrows(s: State, s': State, k: Key)
    requires TableOk(s) && TracksNew(s, s', k)
    ensures Grows(s, s')
  {
    forall p | p in s.table ensures p in s'.table && s'.table[p] == s.table[p] && (Tracked(s', p) <==> Tracked(s, p)) {
      assert EntryOk(s, p);
    }
  }

  lemma TrackNewKeepsTable(s: State, s': State, k: Key)
    requires TableOk(s) && TracksNew(s, s', k)
    ensures TableOk(s')
  {
    forall p | p in s'.table ensures EntryOk(s', p) {
      if p in s.table { assert EntryOk(s, p); }
    }
    forall q | q in s'.procs ensures KeyOk(s', q) {
      if q != k { assert KeyOk(s, q) && EntryOk(s, s.procs[q]); }
    }
  }

  lemma SameTableKept(s: State, s': State)
    requires TableOk(s) && s'.table == s.table && s'.procs == s.procs && s'.nextPid == s.nextPid
    ensures TableOk(s') && Grows(s, s')
  {
  }

  lemma StepKeepsTable(s: State, e: Step)
    requires Inv(s) && Enabled(s, e)
    ensures TableOk(Apply(s, e)) && Grows(s, Apply(s, e))
  {
    var s' := Apply(s, e);
    if e.Lookup? {
      LookupKeepsTable(s, e.c);
    } else if e.OnProcess? {
      ProcessStepKeepsTable(s, e.p, e.op);
    } else if e.CallerForget? {
      assert CallerOk(s, s.callers[e.c]);
      ForgetKeepsTable(s, s', s.callers[e.c].p);
    } else if e.StopForget? {
      assert StopperOk(s, s.stoppers[e.t]);
      ForgetKeepsTable(s, s', s.stoppers[e.t].p);
    } else {
      SameTableKept(s, s');
    }
  }

  /** The lock table stays right as long as no start changes its hold and no stop does. */
  lemma SameHoldsKeepLocks(s: State, s': State)
    requires LocksOk(s) && s'.locks == s.locks && s'.stoppers == s.stoppers
    requires forall p | p in s'.table && s'.table[p].StartHoldsLock() ::
               p in s.table && s.table[p].StartHoldsLock() && s.table[p].key == s'.table[p].key
    ensures LocksOk(s')
  {
    forall p | p in s'.table ensures StartLockOk(s', p) {
      if s'.table[p].StartHoldsLock() { assert StartLockOk(s, p); }
    }
    forall t | t in s'.stoppers ensures StopLockOk(s', t) {
      assert StopLockOk(s, t);
    }
  }

  lemma StopStepKeepsLocks(s: State, e: Step)
    requires Inv(s) && Enabled(s, e) && (e.RequestStop? || e.StopLock? || e.StopRead? || e.StopForget?)
    ensures LocksOk(Apply(s, e))
  {
    var s' := Apply(s, e);
    assert e.t in s.stoppers ==> StopLockOk(s, e.t);
    forall p | p in s'.table ensures StartLockOk(s', p) {
      assert StartLockOk(s, p);
    }
    forall t | t in s'.stoppers ensures StopLockOk(s', t) {
      if t != e.t { assert StopLockOk(s, t); }
    }
  }

  lemma ProcessStepKeepsLocks(s: State, p: Pid, op: Op)
    requires TableOk(s) && LocksOk(s) && Enabled(s, OnProcess(p, op))
    ensures LocksOk(ProcessSection(s, p, op))
  {
    var s' := ProcessSection(s, p, op);
    assert EntryOk(s, p) && StartLockOk(s, p);
    RunKeepsProcess(s.table[p], op);
    forall q | q in s'.table ensures StartLockOk(s', q) {
      assert StartLockOk(s, q);
    }
    forall t | t in s'.stoppers ensures StopLockOk(s', t) {
      assert StopLockOk(s, t);
    }
  }

  lemma StepKeepsLocks(s: State, e: Step)
    requires Inv(s) && Enabled(s, e)
    ensures LocksOk(Apply(s, e))
  {
    if e.OnProcess? {
      ProcessStepKeepsLocks(s, e.p, e.op);
    } else if e.RequestStop? || e.StopLock? || e.StopRead? || e.StopForget? {
      StopStepKeepsLocks(s, e);
    } else {
      SameHoldsKeepLocks(s, Apply(s, e));
    }
  }

  lemma GrowsKeepsCaller(s: State, s': State, w: Caller)
    requires Grows(s, s') && CallerOk(s, w) && TableOk(s)
    ensures CallerOk(s', w)
  {
    if w.Returned? { assert ProcessOk(s.table[w.p]); }
  }

  lemma LookupWritesCaller(s: State, c: nat)
    requires TableOk(s) && Enabled(s, Lookup(c))
    ensures var s' := LookupSection(s, c); CallerOk(s', s'.callers[c])
  {
    var k := s.callers[c].key;
    if !s.stopping && k in s.procs { assert KeyOk(s, k); }
  }

  /** The one caller entry a step writes. */
  lemma StepWritesCaller(s: State, e: Step, c: nat)
    requires Inv(s) && Enabled(s, e) && c in Apply(s, e).callers
    requires !(c in s.callers && Apply(s, e).callers[c] == s.callers[c])
    ensures CallerOk(Apply(s, e), Apply(s, e).callers[c])
  {
    if e.Lookup? {
      LookupWritesCaller(s, e.c);
    } else if c in s.callers {
      assert CallerOk(s, s.callers[c]);
    }
  }

  lemma StepKeepsCallers(s: State, e: Step)
    requires Inv(s) && Enabled(s, e)
    ensures forall c | c in Apply(s, e).callers :: CallerOk(Apply(s, e), Apply(s, e).callers[c])
  {
    var s' := Apply(s, e);
    StepKeepsTable(s, e);
    forall c | c in s'.callers ensures CallerOk(s', s'.callers[c]) {
      if c in s.callers && s'.callers[c] == s.callers[c] {
        GrowsKeepsCaller(s, s', s.callers[c]);
      } else {
        StepWritesCaller(s, e, c);
      }
    }
  }

  lemma StepKeepsStoppers(s: State, e: Step)
    requires Inv(s) && Enabled(s, e)
    ensures forall t | t in Apply(s, e).stoppers :: StopperOk(Apply(s, e), Apply(s, e).stoppers[t])
  {
    var s' := Apply(s, e);
    StepKeepsTable(s, e);
    forall t | t in s'.stoppers ensures StopperOk(s', s'.stoppers[t]) {
      if t in s.stoppers && s'.stoppers[t] == s.stoppers[t] {
        GrowsKeepsStopper(s, s', s.stoppers[t]);
      } else {
        StepWritesStopper(s, e, t);
      }
    }
  }

  lemma GrowsKeepsStopper(s: State, s': State, w: Stopper)
    requires Grows(s, s') && StopperOk(s, w)
    ensures StopperOk(s', w)
  {
  }

  lemma StopReadWritesStopper(s: State, t: nat)
    requires TableOk(s) && Enabled(s, StopRead(t))
    ensures var s' := StopReadSection(s, t); StopperOk(s', s'.stoppers[t])
  {
    var k := s.stoppers[t].key;
    if k in s.procs { assert KeyOk(s, k); }
  }

  lemma StopForgetWritesStopper(s: State, t: nat)
    requires TableOk(s) && Enabled(s, StopForget(t)) && StopperOk(s, s.stoppers[t])
    ensures var s' := Apply(s, StopForget(t)); StopperOk(s', s'.stoppers[t])
  {
  }

  /** The one stopper entry a step writes. */
  lemma StepWritesStopper(s: State, e: Step, t: nat)
    requires Inv(s) && Enabled(s, e) && t in Apply(s, e).stoppers
    requires !(t in s.stoppers && Apply(s, e).stoppers[t] == s.stoppers[t])
    ensures StopperOk(Apply(s, e), Apply(s, e).stoppers[t])
  {
    if e.StopRead? {
      StopReadWritesStopper(s, e.t);
    } else if e.StopForget? {
      StopForgetWritesStopper(s, e.t);
    }
  }

  /** No interleaving breaks the invariant. */
  lemma StepKeepsInv(s: State, e: Step)
    requires Inv(s) && Enabled(s, e)
    ensures Inv(Apply(s, e))
  {
    StepKeepsTable(s, e);
    StepKeepsLocks(s, e);
    StepKeepsCallers(s, e);
    StepKeepsStoppers(s, e);
  }

  // ---- Runs ----

  ghost predicate StepsTo(s: State, e: Step, s': State) {
    Enabled(s, e) && s' == Apply(s, e)
  }

  ghost predicate StepAt(states: seq<State>, steps: seq<Step>, i: nat)
    requires i < |steps| < |states|
  {
    StepsTo(states[i], steps[i], states[i + 1])
  }

  /** A run: every state follows from the one before by some enabled step. */
  ghost predicate IsRun(states: seq<State>, steps: seq<Step>) {
    && |states| == |steps| + 1
    && forall i | 0 <= i < |steps| :: StepAt(states, steps, i)
  }

  lemma {:induction false} RunKeepsInv(states: seq<State>, steps: seq<Step>, i: nat)
    requires IsRun(states, steps) && Inv(states[0]) && i < |states|
    ensures Inv(states[i])
  {
    if i > 0 {
      assert StepAt(states, steps, i - 1);
      RunKeepsInv(states, steps, i - 1);
      StepKeepsInv(states[i - 1], steps[i - 1]);
    }
  }

  /**
   * In every state of every run: a launched process that has not exited is the tracked one, so a key
   * has at most one live process, and at most one start goroutine past the key lock.
   */
  lemma AtMostOneLiveProcess(states: seq<State>, steps: seq<Step>, i: nat)
    requires IsRun(states, steps) && states[0] == INIT && i < |states|
    ensures var s := states[i];
      && (forall p | p in s.table && s.table[p].Live() :: Tracked(s, p))
      && (forall p, q | p in s.table && q in s.table && s.table[p].Live() && s.table[q].Live() &&
                        s.table[p].key == s.table[q].key :: p == q)
      && (forall p, q | p in s.table && q in s.table && s.table[p].StartHoldsLock() && s.table[q].StartHoldsLock() &&
                        s.table[p].key == s.table[q].key :: p == q)
  {
    RunKeepsInv(states, steps, i);
    var s := states[i];
    forall p | p in s.table && s.table[p].Live() ensures Tracked(s, p) {
      assert ProcessOk(s.table[p]);
    }
  }

  /** No channel is closed twice, ready and failed exclude each other, and a finished start closed one of them. */
  lemma ChannelsCloseOnce(states: seq<State>, steps: seq<Step>, i: nat)
    requires IsRun(states, steps) && states[0] == INIT && i < |states|
    ensures forall p | p in states[i].table ::
      var x := states[i].table[p];
      && x.readyCloses + x.failedCloses <= 1 && x.doneCloses <= 1
      && (x.phase == Over || x.phase == Failing <==> x.readyCloses + x.failedCloses == 1)
  {
    RunKeepsInv(states, steps, i);
    forall p | p in states[i].table ensures ProcessOk(states[i].table[p]) {
    }
  }

  /** A port EnsureRunning returned is the port of a process of that key that passed its health check. */
  lemma ReturnedPortPassedHealth(states: seq<State>, steps: seq<Step>, i: nat, c: nat)
    requires IsRun(states, steps) && states[0] == INIT && i < |states|
    requires c in states[i].callers && states[i].callers[c].Returned?
    ensures var w := states[i].callers[c];
      && w.p in states[i].table
      && var x := states[i].table[w.p]; x.key == w.key && x.port == w.port && x.launched && x.passedHealth
  {
    RunKeepsInv(states, steps, i);
    var w := states[i].callers[c];
    assert CallerOk(states[i], w);
    assert ProcessOk(states[i].table[w.p]);
  }

  lemma StepAfterShutdown(s: State, e: Step, s': State)
    requires StepsTo(s, e, s') && s.stopping
    ensures s'.stopping && s'.table.Keys == s.table.Keys
  {
  }

  /** Once shutdown began no new attempt enters the table. One that is queued already may still launch. */
  lemma {:induction false} ShutdownCreatesNothing(states: seq<State>, steps: seq<Step>, i: nat, j: nat)
    requires IsRun(states, steps) && i <= j < |states| && states[i].stopping
    ensures states[j].stopping && states[j].table.Keys == states[i].table.Keys
  {
    if i < j {
      assert StepAt(states, steps, j - 1);
      ShutdownCreatesNothing(states, steps, i, j - 1);
      StepAfterShutdown(states[j - 1], steps[j - 1], states[j]);
    }
  }

  /** A process that Stop found launched is dead when Stop returns, and is never tracked again. */
  lemma StopLeavesItDead(states: seq<State>, steps: seq<Step>, i: nat, t: nat)
    requires IsRun(states, steps) && states[0] == INIT && i < |states|
    requires t in states[i].stoppers && states[i].stoppers[t].Stopped?
    ensures var w := states[i].stoppers[t];
      w.p in states[i].table && states[i].table[w.p].exited && !Tracked(states[i], w.p)
  {
    RunKeepsInv(states, steps, i);
    var w := states[i].stoppers[t];
    assert StopperOk(states[i], w);
    assert ProcessOk(states[i].table[w.p]);
  }

  /** Stopper t was told to stop the key of p, which had been launched: p is dead once t has returned. */
  ghost predicate StopDecides(s: State, p: Pid, t: nat) {
    && p in s.table && s.table[p].launched && t in s.stoppers && s.stoppers[t].key == s.table[p].key
    && (s.stoppers[t].AwaitsExit? ==> s.stoppers[t].p == p || s.table[p].exited)
    && (s.stoppers[t].Stopped? || s.stoppers[t].FoundNothing? ==> s.table[p].exited)
  }

  lemma StopperMoves(s: State, e: Step, t: nat)
    requires Enabled(s, e) && t in s.stoppers
    ensures var s' := Apply(s, e); t in s'.stoppers && s'.stoppers[t].key == s.stoppers[t].key
    ensures e != StopLock(t) && e != StopRead(t) && e != StopForget(t) ==> Apply(s, e).stoppers[t] == s.stoppers[t]
  {
  }

  /** A live process is the tracked one, so a stop that looks now sees it. */
  lemma StopSeesLive(s: State, p: Pid, t: nat)
    requires TableOk(s) && StopDecides(s, p, t) && Enabled(s, StopRead(t))
    ensures StopDecides(StopReadSection(s, t), p, t)
  {
    assert EntryOk(s, p);
  }

  lemma StopDecidesKept(s: State, e: Step, p: Pid, t: nat)
    requires Inv(s) && Enabled(s, e) && StopDecides(s, p, t)
    ensures StopDecides(Apply(s, e), p, t)
  {
    var s' := Apply(s, e);
    StopperMoves(s, e, t);
    if e == StopRead(t) {
      StopSeesLive(s, p, t);
    } else {
      StepKeepsTable(s, e);
      assert EntryOk(s, p) && Later(s.table[p], s'.table[p]);
    }
  }

  /**
   * A process that was launched when a stop of its key was requested, by shutdown or by anybody, has exited
   * once that stop has returned, whichever way it returned.
   */
  lemma {:induction false} StopAfterLaunchKills(states: seq<State>, steps: seq<Step>, i: nat, j: nat, p: Pid, t: nat)
    requires IsRun(states, steps) && states[0] == INIT && i < j < |states|
    requires p in states[i].table && states[i].table[p].launched && steps[i] == RequestStop(t, states[i].table[p].key)
    ensures StopDecides(states[j], p, t)
    ensures states[j].stoppers[t].Stopped? || states[j].stoppers[t].FoundNothing? ==> states[j].table[p].exited
  {
    assert StepAt(states, steps, j - 1) && StepAt(states, steps, i);
    RunKeepsInv(states, steps, j - 1);
    if i < j - 1 {
      StopAfterLaunchKills(states, steps, i, j - 1, p, t);
      StopDecidesKept(states[j - 1], steps[j - 1], p, t);
    }
  }

  // ---- The table in memory ----

  /** Touch times after a call: the process's own, and its tracked backend's when the key is a paired frontend. */
  function Touched(touches: map<Pid, int>, procs: map<Key, Pid>, k: Key, p: Pid, now: int): map<Pid, int> {
    if HasPeer(k) && PeerOf(k) in procs then touches[p := now][procs[PeerOf(k)] := now] else touches[p := now]
  }

  /** A touch of p at now: it, and the tracked backend of a paired frontend, have that time, the others theirs. */
  lemma TouchedIff(touches: map<Pid, int>, procs: map<Key, Pid>, k: Key, p: Pid, now: int, q: Pid)
    ensures var t := Touched(touches, procs, k, p, now);
      var mine := q == p || (k.side == Frontend && k.peer != "" && Key(k.repo, Backend, k.peer, "") in procs &&
                             procs[Key(k.repo, Backend, k.peer, "")] == q);
      && (q in t <==> mine || q in touches)
      && (q in t ==> t[q] == if mine then now else touches[q])
  {
  }

  /** In a consistent state what is tracked is in the table, as EnsureLookup needs it, and stays consistent. */
  lemma LookupKeepsInv(s: State, c: nat)
    requires Inv(s) && Enabled(s, Lookup(c))
    ensures var k := s.callers[c].key; k in s.procs ==> s.procs[k] in s.table
    ensures Inv(Apply(s, Lookup(c))) && Apply(s, Lookup(c)) == LookupSection(s, c)
  {
    var k := s.callers[c].key;
    assert k in s.procs ==> KeyOk(s, k);
    StepKeepsInv(s, Lookup(c));
  }

  /** The fields of Manager that the critical sections above change, with the warm and cold counters. */
  class Manager {
    var procs: map<Key, Pid>
    var table: map<Pid, Process>
    var nextPid: Pid
    var stopping: bool
    var touches: map<Pid, int>
    var failures: set<Key>
    var warmHits: nat
    var coldStarts: nat

    /** This object holds the table part of the state machine's state. */
    ghost predicate Holds(s: State)
      reads this
    {
      s.procs == procs && s.table == table && s.nextPid == nextPid && s.stopping == stopping
    }

    constructor ()
      ensures Holds(INIT) && touches == map[] && failures == {} && warmHits == 0 && coldStarts == 0
    {
      procs, table, nextPid, stopping, warmHits, coldStarts := map[], map[], 0, false, 0, 0;
      touches, failures := map[], {};
    }

    /**
     * The locked part of one round of EnsureRunning: exactly the Lookup step. A round is a warm hit when it
     * joins a healthy process, a cold start otherwise, and nothing at all during shutdown. A new attempt
     * clears the key's failure, and every round touches the process and a paired frontend's backend.
     */
    method EnsureLookup(k: Key, now: int, ghost s: State, ghost c: nat) returns (refused: bool, p: Pid)
      requires Holds(s) && Enabled(s, Lookup(c)) && s.callers[c].key == k && (k in procs ==> procs[k] in table)
      modifies this
      ensures Holds(LookupSection(s, c))
      ensures refused <==> stopping
      ensures !refused ==>
        k in procs && p == procs[k] && LookupSection(s, c).callers[c] == Waiting(k, p, s.callers[c].round)
      ensures warmHits + coldStarts == old(warmHits + coldStarts) + (if refused then 0 else 1)
      ensures warmHits > old(warmHits) <==> !refused && k in old(procs) && table[p].Ready()
      ensures failures == if refused || k in old(procs) then old(failures) else old(failures) - {k}
      ensures touches == if refused then old(touches) else Touched(old(touches), procs, k, p, now)
    {
      if stopping {
        return true, 0;
      }
      refused := false;
      if k in procs {
        p := Join(k);
      } else {
        p := TrackNew(k);
      }
      Touch(k, p, now);
    }

    /** The tracked process serves this call too. */
    method Join(k: Key) returns (p: Pid)
      requires k in procs && procs[k] in table
      modifies this`warmHits, this`coldStarts
      ensures p == procs[k] && warmHits + coldStarts == old(warmHits + coldStarts) + 1
      ensures warmHits == old(warmHits) + if table[p].Ready() then 1 else 0
    {
      p := procs[k];
      if table[p].Ready() {
        warmHits := warmHits + 1;
      } else {
        coldStarts := coldStarts + 1;
      }
    }

    /** A new attempt, not started yet, becomes the key's entry and owns its outcome. */
    method TrackNew(k: Key) returns (p: Pid)
      modifies this`procs, this`table, this`nextPid, this`failures, this`coldStarts
      ensures p == old(nextPid) && nextPid == p + 1 && procs == old(procs)[k := p] && failures == old(failures) - {k}
      ensures coldStarts == old(coldStarts) + 1
      ensures table == old(table)[p := Process(k, Queued, NotStarted, 0, false, false, false, 0, 0, 0)]
    {
      p := nextPid;
      nextPid := nextPid + 1;
      table := table[p := Process(k, Queued, NotStarted, 0, false, false, false, 0, 0, 0)];
      procs := procs[k := p];
      failures := failures - {k};
      coldStarts := coldStarts + 1;
    }

    method Touch(k: Key, p: Pid, now: int)
      modifies this`touches
      ensures touches == Touched(old(touches), procs, k, p, now)
    {
      touches := touches[p := now];
      if HasPeer(k) && PeerOf(k) in procs {
        touches := touches[procs[PeerOf(k)] := now];
      }
    }

    /**
     * forget, as every goroutine calls it: the process is no longer tracked under k, a newer attempt that
     * took its place is, and once the process has failed or exited the table stays sound without it.
     */
    method ForgetEntry(k: Key, p: Pid, ghost s: State)
      requires Holds(s)
      modifies this`procs
      ensures k in procs <==> k in old(procs) && old(procs)[k] != p
      ensures forall q | q in procs :: q in old(procs) && procs[q] == old(procs)[q]
      ensures forall q | q in old(procs) && q != k :: q in procs
      ensures TableOk(s) && p in table && table[p].key == k && (table[p].Failed() || table[p].Done()) ==>
        var after := s.(procs := procs); Holds(after) && TableOk(after) && Grows(s, after) && !Tracked(after, p)
    {
      if TableOk(s) && p in table && table[p].key == k && (table[p].Failed() || table[p].Done()) {
        ForgetKeepsTable(s, s.(procs := Forget(procs, k, p)), p);
      }
      if k in procs && procs[k] == p {
        procs := procs - {k};
      }
    }
  }
}
