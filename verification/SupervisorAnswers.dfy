/** What callers of EnsureRunning are told over whole runs of the process table, and that nobody waits in vain. */
module SupervisorAnswers {
  import opened Keys
  import opened Supervisor

  /** A step of this caller's own. */
  predicate IsCallers(e: Step, c: nat) {
    match e
    case Call(d, _) => d == c
    case Lookup(d) => d == c
    case SeeReady(d) => d == c
    case SeeFailed(d) => d == c
    case GiveUp(d) => d == c
    case CallerForget(d) => d == c
    case _ => false
  }

  lemma OthersLeaveCaller(s: State, e: Step, c: nat)
    requires Enabled(s, e) && c in s.callers && !IsCallers(e, c)
    ensures c in Apply(s, e).callers && Apply(s, e).callers[c] == s.callers[c]
  {
  }

  ghost predicate NoneBetween(steps: seq<Step>, i: nat, j: nat, c: nat)
    requires j <= |steps|
  {
    forall m | i < m < j :: !IsCallers(steps[m], c)
  }

  lemma {:induction false} CallerRests(states: seq<State>, steps: seq<Step>, i: nat, j: nat, c: nat)
    requires IsRun(states, steps) && i < j < |states| && c in states[i + 1].callers && NoneBetween(steps, i, j, c)
    ensures c in states[j].callers && states[j].callers[c] == states[i + 1].callers[c]
  {
    assert StepAt(states, steps, i) && StepAt(states, steps, j - 1);
    if i + 1 < j {
      CallerRests(states, steps, i, j - 1, c);
      OthersLeaveCaller(states[j - 1], steps[j - 1], c);
    }
  }

  // ---- Shutdown ----

  /** The supervisor shuts down exactly from a Shutdown step on. */
  lemma {:induction false} StoppingIff(states: seq<State>, steps: seq<Step>, j: nat)
    requires IsRun(states, steps) && states[0] == INIT && j <= |steps|
    ensures states[j].stopping <==> HappenedBefore(steps, j, Shutdown)
  {
    if j > 0 {
      assert StepAt(states, steps, j - 1);
      StoppingIff(states, steps, j - 1);
      if HappenedBefore(steps, j, Shutdown) && steps[j - 1] != Shutdown {
        assert HappenedBefore(steps, j - 1, Shutdown);
      }
    }
  }

  /** Whoever asks after it is refused, and no attempt is tracked that was not before. */
  lemma AfterShutdown(states: seq<State>, steps: seq<Step>, i: nat, j: nat)
    requires IsRun(states, steps) && states[0] == INIT && i < j <= |steps| && steps[i] == Shutdown
    ensures states[j].table.Keys == states[i].table.Keys
    ensures j < |steps| && steps[j].Lookup? ==>
      && Enabled(states[j], steps[j]) && steps[j].c in states[j + 1].callers
      && states[j + 1].callers[steps[j].c] == Refused(states[j].callers[steps[j].c].key)
      && states[j + 1].table == states[j].table
  {
    StoppingIff(states, steps, i + 1);
    assert StepAt(states, steps, i);
    ShutdownCreatesNothing(states, steps, i + 1, j);
    if j < |steps| { assert StepAt(states, steps, j); }
  }

  // ---- A process that became ready ----

  /** A caller that sees its process ready is given its port exactly if the process has not been seen to exit. */
  lemma ReadyAnswer(states: seq<State>, steps: seq<Step>, i: nat, c: nat)
    requires IsRun(states, steps) && states[0] == INIT && i < |steps| && steps[i] == SeeReady(c)
    ensures Enabled(states[i], steps[i])
    ensures var w := states[i].callers[c]; var x := states[i].table[w.p];
      && x.key == w.key && x.readyCloses == 1 && x.failedCloses == 0
      && c in states[i + 1].callers && (states[i + 1].callers[c].Returned? <==> x.doneCloses == 0)
      && (x.doneCloses == 0 ==> states[i + 1].callers[c] == Returned(w.key, w.p, x.port))
  {
    RunKeepsInv(states, steps, i);
    assert StepAt(states, steps, i);
    var w := states[i].callers[c];
    assert CallerOk(states[i], w) && EntryOk(states[i], w.p);
  }

  /** The process a caller waits for failed, or died after it became ready. */
  ghost predicate Lost(s: State, e: Step, c: nat) {
    && c in s.callers && s.callers[c].Waiting? && s.callers[c].p in s.table
    && (e == SeeFailed(c) || (e == SeeReady(c) && s.table[s.callers[c].p].doneCloses > 0))
  }

  /**
   * Such a caller's next step leaves that process untracked. If it died in the caller's first round the caller
   * asks again, and in the second it is refused; a process that failed is not tried again.
   */
  lemma LostIsDroppedOrRetried(states: seq<State>, steps: seq<Step>, i: nat, j: nat, c: nat)
    requires IsRun(states, steps) && states[0] == INIT && i < j < |steps| && Lost(states[i], steps[i], c)
    requires NoneBetween(steps, i, j, c) && IsCallers(steps[j], c)
    ensures var w := states[i].callers[c];
      && w.p in states[j + 1].table && !Tracked(states[j + 1], w.p)
      && c in states[j + 1].callers
      && states[j + 1].callers[c] ==
         if steps[i] == SeeReady(c) && w.round == 0 then Asking(w.key, 1) else Refused(w.key)
  {
    assert StepAt(states, steps, i) && StepAt(states, steps, j);
    CallerRests(states, steps, i, j, c);
    RunKeepsInv(states, steps, j);
    var w := states[i].callers[c];
    assert CallerOk(states[j], states[j].callers[c]);
  }

  // ---- Why a call fails ----

  ghost predicate DiedBefore(states: seq<State>, steps: seq<Step>, j: nat, c: nat, round: nat)
    requires j <= |steps| < |states|
  {
    exists m :: 0 <= m < j && steps[m] == SeeReady(c) && Lost(states[m], steps[m], c) &&
                states[m].callers[c].round == round
  }

  ghost predicate HappenedBefore(steps: seq<Step>, j: nat, e: Step)
    requires j <= |steps|
  {
    exists m :: 0 <= m < j && steps[m] == e
  }

  ghost predicate ShutOutBefore(states: seq<State>, steps: seq<Step>, j: nat, c: nat)
    requires j <= |steps| < |states|
  {
    exists m :: 0 <= m < j && steps[m] == Lookup(c) && states[m].stopping
  }

  /** What a caller's state says about its past. */
  ghost predicate Explained(states: seq<State>, steps: seq<Step>, j: nat, c: nat)
    requires j <= |steps| < |states|
  {
    c in states[j].callers ==>
    match states[j].callers[c]
    case Asking(_, round) => RoundExplained(states, steps, j, c, round)
    case Waiting(_, _, round) => RoundExplained(states, steps, j, c, round)
    case Dropping(_, _, round, retry) =>
      RoundExplained(states, steps, j, c, round) &&
      (if retry then DiedBefore(states, steps, j, c, round) else HappenedBefore(steps, j, SeeFailed(c)))
    case Returned(_, _, _) => true
    case Refused(_) => Reason(states, steps, j, c)
  }

  ghost predicate RoundExplained(states: seq<State>, steps: seq<Step>, j: nat, c: nat, round: nat)
    requires j <= |steps| < |states|
  {
    round <= 1 && (round == 1 ==> DiedBefore(states, steps, j, c, 0))
  }

  /** Shut out, out of patience, the start failed, or two processes in a row died after becoming ready. */
  ghost predicate Reason(states: seq<State>, steps: seq<Step>, j: nat, c: nat)
    requires j <= |steps| < |states|
  {
    || ShutOutBefore(states, steps, j, c)
    || HappenedBefore(steps, j, GiveUp(c)) || HappenedBefore(steps, j, SeeFailed(c))
    || (DiedBefore(states, steps, j, c, 0) && DiedBefore(states, steps, j, c, 1))
  }

  /** What happened before j - 1, or at j - 1, happened before j. */
  lemma PastGrows(states: seq<State>, steps: seq<Step>, j: nat, c: nat)
    requires 0 < j <= |steps| < |states|
    ensures forall round :: DiedBefore(states, steps, j - 1, c, round) ==> DiedBefore(states, steps, j, c, round)
    ensures forall e :: HappenedBefore(steps, j - 1, e) ==> HappenedBefore(steps, j, e)
    ensures ShutOutBefore(states, steps, j - 1, c) ==> ShutOutBefore(states, steps, j, c)
    ensures HappenedBefore(steps, j, steps[j - 1])
    ensures steps[j - 1] == Lookup(c) && states[j - 1].stopping ==> ShutOutBefore(states, steps, j, c)
    ensures steps[j - 1] == SeeReady(c) && Lost(states[j - 1], steps[j - 1], c) ==>
      DiedBefore(states, steps, j, c, states[j - 1].callers[c].round)
  {
  }

  /** The state a caller is in after a step, by its state before. */
  lemma CallerMoves(s: State, e: Step, c: nat)
    requires Enabled(s, e) && c in Apply(s, e).callers
    ensures var w := Apply(s, e).callers[c];
      if c !in s.callers then w.Asking? && w.round == 0
      else if !IsCallers(e, c) then w == s.callers[c]
      else match e
        case Lookup(_) =>
          s.callers[c].Asking? && (if s.stopping then w.Refused? else w.Waiting? && w.round == s.callers[c].round)
        case SeeReady(_) =>
          w.Returned? || (Lost(s, e, c) && w.Dropping? && w.retry && w.round == s.callers[c].round)
        case SeeFailed(_) => s.callers[c].Waiting? && w.Dropping? && !w.retry && w.round == s.callers[c].round
        case GiveUp(_) => w.Refused?
        case CallerForget(_) =>
          var d := s.callers[c];
          d.Dropping? && (if d.retry && d.round == 0 then w.Asking? && w.round == 1 else w.Refused?)
        case _ => false
  {
  }

  lemma {:induction false} CallerIsExplained(states: seq<State>, steps: seq<Step>, j: nat, c: nat)
    requires IsRun(states, steps) && states[0] == INIT && j <= |steps|
    ensures Explained(states, steps, j, c)
  {
    if j > 0 && c in states[j].callers {
      assert StepAt(states, steps, j - 1);
      CallerIsExplained(states, steps, j - 1, c);
      PastGrows(states, steps, j, c);
      CallerMoves(states[j - 1], steps[j - 1], c);
    }
  }

  /** Every call that is turned down was so for one of these reasons. */
  lemma RefusalHasReason(states: seq<State>, steps: seq<Step>, j: nat, c: nat)
    requires IsRun(states, steps) && states[0] == INIT && j <= |steps|
    requires c in states[j].callers && states[j].callers[c].Refused?
    ensures Reason(states, steps, j, c)
  {
    CallerIsExplained(states, steps, j, c);
  }

  // ---- Where a port comes from ----

  lemma StepStays(states: seq<State>, steps: seq<Step>, i: nat, p: Pid)
    requires IsRun(states, steps) && states[0] == INIT && i < |steps| && p in states[i].table
    ensures p in states[i + 1].table && Later(states[i].table[p], states[i + 1].table[p])
  {
    RunKeepsInv(states, steps, i);
    assert StepAt(states, steps, i);
    StepKeepsTable(states[i], steps[i]);
  }

  ghost predicate Stays(x: Process, s: State, p: Pid) {
    p in s.table && Later(x, s.table[p])
  }

  lemma StaysOneMore(x: Process, states: seq<State>, steps: seq<Step>, i: nat, p: Pid)
    requires IsRun(states, steps) && states[0] == INIT && i < |steps| && Stays(x, states[i], p)
    ensures Stays(x, states[i + 1], p)
  {
    StepStays(states, steps, i, p);
  }

  lemma {:induction false} ProcessStays(states: seq<State>, steps: seq<Step>, i: nat, j: nat, p: Pid)
    requires IsRun(states, steps) && states[0] == INIT && i <= j < |states| && p in states[i].table
    ensures Stays(states[i].table[p], states[j], p)
  {
    if i < j {
      ProcessStays(states, steps, i, j - 1, p);
      StaysOneMore(states[i].table[p], states, steps, j - 1, p);
    }
  }

  lemma {:induction false} LaunchedAt(states: seq<State>, steps: seq<Step>, j: nat, p: Pid) returns (a: nat)
    requires IsRun(states, steps) && states[0] == INIT && j < |states|
    requires p in states[j].table && states[j].table[p].launched
    ensures a < j && steps[a] == OnProcess(p, Launch(states[j].table[p].port))
  {
    assert j > 0;
    assert StepAt(states, steps, j - 1);
    if p in states[j - 1].table && states[j - 1].table[p].launched {
      a := LaunchedAt(states, steps, j - 1, p);
      ProcessStays(states, steps, j - 1, j, p);
    } else {
      a := j - 1;
    }
  }

  lemma {:induction false} HealthyAt(states: seq<State>, steps: seq<Step>, j: nat, p: Pid) returns (b: nat)
    requires IsRun(states, steps) && states[0] == INIT && j < |states|
    requires p in states[j].table && states[j].table[p].passedHealth
    ensures b < j && steps[b] == OnProcess(p, HealthOk)
  {
    assert j > 0;
    assert StepAt(states, steps, j - 1);
    if p in states[j - 1].table && states[j - 1].table[p].passedHealth {
      b := HealthyAt(states, steps, j - 1, p);
    } else {
      b := j - 1;
    }
  }

  lemma {:induction false} ReadyAt(states: seq<State>, steps: seq<Step>, j: nat, p: Pid) returns (d: nat)
    requires IsRun(states, steps) && states[0] == INIT && j < |states|
    requires p in states[j].table && states[j].table[p].Ready()
    ensures d < j && steps[d] == OnProcess(p, CloseReady)
  {
    assert j > 0;
    assert StepAt(states, steps, j - 1);
    if p in states[j - 1].table && states[j - 1].table[p].Ready() {
      d := ReadyAt(states, steps, j - 1, p);
    } else {
      d := j - 1;
    }
  }

  /** A port that a caller was given is the one its process was launched with, before its health check passed. */
  lemma PortWasLaunched(states: seq<State>, steps: seq<Step>, j: nat, c: nat) returns (a: nat, b: nat, d: nat)
    requires IsRun(states, steps) && states[0] == INIT && j < |states|
    requires c in states[j].callers && states[j].callers[c].Returned?
    ensures var w := states[j].callers[c];
      && a < b < d < j && steps[a] == OnProcess(w.p, Launch(w.port))
      && steps[b] == OnProcess(w.p, HealthOk) && steps[d] == OnProcess(w.p, CloseReady)
  {
    RunKeepsInv(states, steps, j);
    var p := states[j].callers[c].p;
    assert CallerOk(states[j], states[j].callers[c]);
    d := ReadyAt(states, steps, j, p);
    assert StepAt(states, steps, d);
    RunKeepsInv(states, steps, d);
    assert EntryOk(states[d], p);
    b := HealthyAt(states, steps, d, p);
    assert StepAt(states, steps, b);
    RunKeepsInv(states, steps, b);
    assert EntryOk(states[b], p);
    a := LaunchedAt(states, steps, b, p);
    ProcessStays(states, steps, b, j, p);
  }

  // ---- Nobody is stuck ----

  /** Whoever the lock table says holds a key's lock does. */
  predicate HolderOk(s: State, k: Key)
    requires k in s.locks
  {
    match s.locks[k]
    case ByStart(p) => p in s.table && s.table[p].key == k && s.table[p].StartHoldsLock()
    case ByStop(t) => t in s.stoppers && s.stoppers[t].key == k && s.stoppers[t].HoldsLock()
  }

  lemma ProcessKeepsHolder(s: State, p: Pid, op: Op, k: Key)
    requires TableOk(s) && LocksOk(s) && Enabled(s, OnProcess(p, op))
    requires k in ProcessSection(s, p, op).locks && (k in s.locks ==> HolderOk(s, k))
    ensures HolderOk(ProcessSection(s, p, op), k)
  {
    assert EntryOk(s, p) && StartLockOk(s, p);
    RunKeepsProcess(s.table[p], op);
  }

  lemma StopKeepsHolder(s: State, e: Step, k: Key)
    requires LocksOk(s) && Enabled(s, e) && (e.RequestStop? || e.StopLock? || e.StopRead? || e.StopForget?)
    requires k in Apply(s, e).locks && (k in s.locks ==> HolderOk(s, k))
    ensures HolderOk(Apply(s, e), k)
  {
    assert e.t in s.stoppers ==> StopLockOk(s, e.t);
  }

  /** The others touch no lock, no stopper and no process that is there. */
  lemma OtherKeepsHolder(s: State, e: Step, k: Key)
    requires TableOk(s) && Enabled(s, e) && k in s.locks && HolderOk(s, k)
    requires !e.OnProcess? && !e.RequestStop? && !e.StopLock? && !e.StopRead? && !e.StopForget?
    ensures k in Apply(s, e).locks && HolderOk(Apply(s, e), k)
  {
    if s.locks[k].ByStart? { assert EntryOk(s, s.locks[k].p); }
  }

  lemma StepKeepsHolder(s: State, e: Step, k: Key)
    requires Inv(s) && Enabled(s, e) && k in Apply(s, e).locks && (k in s.locks ==> HolderOk(s, k))
    ensures HolderOk(Apply(s, e), k)
  {
    if e.OnProcess? {
      ProcessKeepsHolder(s, e.p, e.op, k);
    } else if e.RequestStop? || e.StopLock? || e.StopRead? || e.StopForget? {
      StopKeepsHolder(s, e, k);
    } else {
      OtherKeepsHolder(s, e, k);
    }
  }

  lemma {:induction false} HoldersHold(states: seq<State>, steps: seq<Step>, i: nat, k: Key)
    requires IsRun(states, steps) && states[0] == INIT && i < |states| && k in states[i].locks
    ensures HolderOk(states[i], k)
  {
    assert i > 0;
    assert StepAt(states, steps, i - 1);
    RunKeepsInv(states, steps, i - 1);
    if k in states[i - 1].locks {
      HoldersHold(states, steps, i - 1, k);
    }
    StepKeepsHolder(states[i - 1], steps[i - 1], k);
  }

  /** A start past the key lock can always take its next step, or its process can exit or be seen to have. */
  lemma StartMoves(s: State, p: Pid) returns (op: Op)
    requires p in s.table && ProcessOk(s.table[p]) && s.table[p].StartHoldsLock()
    ensures Enabled(s, OnProcess(p, op))
  {
    var x := s.table[p];
    match x.phase
    case Preparing => op := FailBeforeLaunch;
    case Polling => op := HealthOk;
    case Passed => op := CloseReady;
    case Failing => op := StartForget;
    case Killing => op := if x.Done() then FailAfterExit else if x.exited then CloseDone else Exit;
  }

  /** The step is one of whoever holds the lock of k, or of the process it waits for. */
  predicate IsHolders(s: State, e: Step, k: Key)
    requires k in s.locks
  {
    match s.locks[k]
    case ByStart(p) => e.OnProcess? && e.p == p
    case ByStop(t) =>
      e == StopRead(t) || e == StopForget(t) || (t in s.stoppers && s.stoppers[t].AwaitsExit? && e.OnProcess? &&
      e.p == s.stoppers[t].p)
  }

  lemma HolderMoves(s: State, k: Key) returns (e: Step)
    requires Inv(s) && k in s.locks && HolderOk(s, k)
    ensures Enabled(s, e) && IsHolders(s, e, k)
  {
    match s.locks[k]
    case ByStart(p) =>
      assert EntryOk(s, p);
      var op := StartMoves(s, p);
      e := OnProcess(p, op);
    case ByStop(t) =>
      var w := s.stoppers[t];
      assert StopperOk(s, w);
      if w.HasLock? {
        e := StopRead(t);
      } else {
        assert EntryOk(s, w.p);
        var x := s.table[w.p];
        e := if x.Done() then StopForget(t) else OnProcess(w.p, if x.exited then CloseDone else Exit);
      }
  }

  /**
   * In every state of every run, a caller that waits can take its answer, or the start it waits for can move, or
   * whoever holds the lock that start is queued for can.
   */
  lemma WaiterIsServed(states: seq<State>, steps: seq<Step>, i: nat, c: nat) returns (e: Step)
    requires IsRun(states, steps) && states[0] == INIT && i < |states|
    requires c in states[i].callers && states[i].callers[c].Waiting?
    ensures var s := states[i]; var w := s.callers[c];
      && Enabled(s, e)
      && (e == SeeReady(c) || e == SeeFailed(c) || (e.OnProcess? && e.p == w.p) ||
          (w.key in s.locks && IsHolders(s, e, w.key)))
  {
    RunKeepsInv(states, steps, i);
    var s, w := states[i], states[i].callers[c];
    assert CallerOk(s, w) && EntryOk(s, w.p);
    var x := s.table[w.p];
    if x.phase == Over {
      e := if x.Ready() then SeeReady(c) else SeeFailed(c);
    } else if x.phase != Queued {
      var op := StartMoves(s, w.p);
      e := OnProcess(w.p, op);
    } else if w.key !in s.locks {
      e := OnProcess(w.p, TakeLock);
    } else {
      HoldersHold(states, steps, i, w.key);
      e := HolderMoves(s, w.key);
    }
  }

  /** Likewise for a stop that has not returned. */
  lemma StopIsServed(states: seq<State>, steps: seq<Step>, i: nat, t: nat) returns (e: Step)
    requires IsRun(states, steps) && states[0] == INIT && i < |states|
    requires t in states[i].stoppers && !states[i].stoppers[t].Stopped? && !states[i].stoppers[t].FoundNothing?
    ensures var s := states[i]; var k := s.stoppers[t].key;
      Enabled(s, e) && (e == StopLock(t) || (k in s.locks && IsHolders(s, e, k)))
  {
    RunKeepsInv(states, steps, i);
    var s, k := states[i], states[i].stoppers[t].key;
    if k !in s.locks {
      assert StopLockOk(s, t);
      e := StopLock(t);
    } else {
      HoldersHold(states, steps, i, k);
      e := HolderMoves(s, k);
    }
  }
}
