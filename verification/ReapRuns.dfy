/**
 * Runs of the reaper: it decides on a snapshot of the table and stops what it chose key by key, while processes
 * start, are touched and exit in between. Each stop takes whatever is tracked under its key by then.
 */
module ReapRuns {
  import opened Keys
  import R = Reap

  /** A tracked process: which attempt at its key it is, and what the reaper reads of it. */
  datatype Entry = Entry(attempt: nat, launched: bool, proc: R.Proc)

  type Table = map<Key, Entry>

  datatype Policy = Policy(minWarm: nat, maxWarm: nat, override: nat)

  /** A pass in flight: the table it saw and when, what it goes by, and the keys it has yet to stop. */
  datatype Pass = Resting | Stopping(seen: Table, at: nat, policy: Policy, idle: set<Key>, left: seq<Key>)

  datatype State = State(table: Table, next: nat, clock: nat, pass: Pass)

  const INIT := State(map[], 0, 1, Resting)

  datatype Step =
    | Tick(d: nat)
    | Track(k: Key, limit: int) // a new attempt
    | Launch(k: Key)
    | Ready(k: Key)
    | Touch(k: Key)
    | Exit(k: Key)
    | Leave(k: Key)             // forgotten, or stopped by somebody else
    | Snapshot(policy: Policy, floor: set<Key>, idle: seq<Key>, pruned: seq<Key>)
    | StopNext
    | Rest

  function Procs(table: Table): map<Key, R.Proc> {
    map k | k in table :: table[k].proc
  }

  ghost predicate Enabled(s: State, e: Step) {
    match e
    case Tick(_) => true
    case Track(k, _) => k !in s.table
    case Launch(k) => k in s.table && !s.table[k].launched
    case Ready(k) => k in s.table && s.table[k].launched && !s.table[k].proc.ready
    case Touch(k) => k in s.table
    case Exit(k) => k in s.table && s.table[k].launched && !s.table[k].proc.exited
    case Leave(k) => k in s.table
    case Snapshot(p, floor, idle, pruned) =>
      s.pass.Resting? &&
      R.Decides(Procs(s.table), p.minWarm, p.maxWarm, p.override, s.clock, idle, pruned, floor)
    case StopNext => s.pass.Stopping? && s.pass.left != []
    case Rest => s.pass.Stopping? && s.pass.left == []
  }

  /** What the next stop takes: whatever has been launched under the key. */
  predicate Stops(s: State, k: Key) {
    s.pass.Stopping? && s.pass.left != [] && s.pass.left[0] == k && k in s.table && s.table[k].launched
  }

  function WithProc(s: State, k: Key, p: R.Proc): State
    requires k in s.table
  {
    s.(table := s.table[k := s.table[k].(proc := p)])
  }

  ghost function Apply(s: State, e: Step): State
    requires Enabled(s, e)
  {
    match e
    case Tick(d) => s.(clock := s.clock + d)
    case Track(k, limit) =>
      s.(table := s.table[k := Entry(s.next, false, R.Proc(s.clock, limit, false, false))], next := s.next + 1)
    case Launch(k) => s.(table := s.table[k := s.table[k].(launched := true)])
    case Ready(k) => WithProc(s, k, s.table[k].proc.(ready := true))
    case Touch(k) => WithProc(s, k, s.table[k].proc.(touch := s.clock))
    case Exit(k) => WithProc(s, k, s.table[k].proc.(exited := true))
    case Leave(k) => s.(table := s.table - {k})
    case Snapshot(p, _, idle, pruned) =>
      s.(pass := Stopping(s.table, s.clock, p, R.Elems(idle), idle + pruned))
    case StopNext =>
      var k := s.pass.left[0];
      s.(table := if Stops(s, k) then s.table - {k} else s.table, pass := s.pass.(left := s.pass.left[1..]))
    case Rest => s.(pass := Resting)
  }

  ghost predicate StepsTo(s: State, e: Step, s': State) {
    Enabled(s, e) && s' == Apply(s, e)
  }

  ghost predicate IsRun(states: seq<State>, steps: seq<Step>) {
    && |states| == |steps| + 1
    && states[0] == INIT
    && forall i | 0 <= i < |steps| :: StepsTo(states[i], steps[i], states[i + 1])
  }

  // ---- The snapshot behind a stop ----

  /** The pass in flight after j began with the snapshot at i. */
  ghost predicate FromSnapshot(states: seq<State>, steps: seq<Step>, i: nat, j: nat)
    requires |states| == |steps| + 1
  {
    && i < j < |states| && steps[i].Snapshot? && states[j].pass.Stopping?
    && var p := states[j].pass; var e := steps[i];
    && p.seen == states[i].table == states[i + 1].table && p.at == states[i].clock && p.policy == e.policy
    && p.idle == R.Elems(e.idle)
    && (forall k | k in p.left :: k in e.idle || k in e.pruned)
  }

  /** Every pass in flight began with one. */
  lemma {:induction false} SnapshotOf(states: seq<State>, steps: seq<Step>, j: nat) returns (i: nat)
    requires IsRun(states, steps) && j < |states| && states[j].pass.Stopping?
    ensures FromSnapshot(states, steps, i, j)
  {
    assert j > 0;
    assert StepsTo(states[j - 1], steps[j - 1], states[j]);
    if steps[j - 1].Snapshot? {
      i := j - 1;
    } else {
      i := SnapshotOf(states, steps, j - 1);
    }
  }

  /** Nothing stops that the snapshot did not expose: a candidate past its floor, not paired, timed out or prunable. */
  lemma StopsWereChosen(states: seq<State>, steps: seq<Step>, j: nat, k: Key) returns (i: nat)
    requires IsRun(states, steps) && j < |states| && Stops(states[j], k)
    ensures FromSnapshot(states, steps, i, j)
    ensures var procs := Procs(states[i].table); var p := states[j].pass;
      && k in R.Exposed(procs, steps[i].floor) && R.IsFloor(procs, steps[i].floor, p.policy.minWarm)
      && (if k in p.idle then R.TimedOut(procs, k, p.policy.override, p.at)
          else !R.TimedOut(procs, k, p.policy.override, p.at) && !R.Active(procs, k, p.at))
  {
    i := SnapshotOf(states, steps, j);
    assert StepsTo(states[i], steps[i], states[i + 1]);
    var e := steps[i];
    assert k in states[j].pass.left;
    assert k in e.idle <==> k in R.Elems(e.idle);
    if k !in e.idle { assert k in R.Elems(e.pruned); }
  }

  // ---- A pass that nothing disturbs ----

  /** Only stops from i on, up to j. */
  ghost predicate OnlyStops(steps: seq<Step>, i: nat, j: nat)
    requires j <= |steps|
  {
    forall m | i <= m < j :: steps[m].StopNext?
  }

  lemma {:induction false} StoppedSoFar(states: seq<State>, steps: seq<Step>, i: nat, j: nat)
    requires IsRun(states, steps) && i < j < |states| && steps[i].Snapshot? && OnlyStops(steps, i + 1, j)
    requires forall k | k in states[i].table && states[i].table[k].proc.ready :: states[i].table[k].launched
    ensures states[j].pass.Stopping?
    ensures forall k | k in states[i].table && k !in steps[i].idle && k !in steps[i].pruned :: k in states[j].table
    ensures forall k | k in states[j].table :: k in states[i].table && states[j].table[k] == states[i].table[k]
    ensures forall k | k in states[j].table && (k in steps[i].idle || k in steps[i].pruned) :: k in states[j].pass.left
    ensures forall k | k in states[j].pass.left ::
      k in states[i].table && states[i].table[k].launched && (k in steps[i].idle || k in steps[i].pruned)
  {
    assert StepsTo(states[j - 1], steps[j - 1], states[j]);
    if j == i + 1 {
      forall k | k in states[j].pass.left ensures k in states[i].table && states[i].table[k].launched {
        assert k in R.Elems(steps[i].idle) || k in R.Elems(steps[i].pruned);
      }
    } else {
      StoppedSoFar(states, steps, i, j - 1);
      var left := states[j - 1].pass.left;
      assert left == [left[0]] + left[1..];
    }
  }

  /** A pass that nothing disturbs leaves exactly what its snapshot did not choose, whatever order the stops take. */
  lemma QuietPassStopsItsChoices(states: seq<State>, steps: seq<Step>, i: nat, j: nat)
    requires IsRun(states, steps) && i < j < |steps| && steps[i].Snapshot? && OnlyStops(steps, i + 1, j)
    requires steps[j].Rest?
    ensures forall k :: k in states[j].table <==>
      k in states[i].table && k !in steps[i].idle && k !in steps[i].pruned
    ensures forall k | k in states[j].table :: states[j].table[k] == states[i].table[k]
  {
    ReadyIsLaunched(states, steps, i);
    StoppedSoFar(states, steps, i, j);
    assert StepsTo(states[j], steps[j], states[j + 1]);
  }

  lemma {:induction false} ReadyIsLaunched(states: seq<State>, steps: seq<Step>, j: nat)
    requires IsRun(states, steps) && j < |states|
    ensures forall k | k in states[j].table && states[j].table[k].proc.ready :: states[j].table[k].launched
  {
    if j > 0 {
      ReadyIsLaunched(states, steps, j - 1);
      assert StepsTo(states[j - 1], steps[j - 1], states[j]);
    }
  }

  // ---- What happened since ----

  /** The step touches k, or tracks a new attempt at it. */
  predicate Uses(e: Step, k: Key) {
    e == Touch(k) || (e.Track? && e.k == k)
  }

  ghost predicate UsedBetween(steps: seq<Step>, a: nat, j: nat, k: Key)
    requires j <= |steps|
  {
    exists m :: a <= m < j && Uses(steps[m], k)
  }

  lemma {:induction false} ClockGrows(states: seq<State>, steps: seq<Step>, a: nat, j: nat)
    requires IsRun(states, steps) && a <= j < |states|
    ensures states[a].clock <= states[j].clock && states[a].next <= states[j].next
  {
    if a < j {
      ClockGrows(states, steps, a, j - 1);
      assert StepsTo(states[j - 1], steps[j - 1], states[j]);
    }
  }

  /** A step that does not use k leaves its touch time, its attempt and its timeout, if it leaves the key at all. */
  lemma OtherSteps(s: State, e: Step, k: Key)
    requires Enabled(s, e) && !Uses(e, k) && k in Apply(s, e).table
    ensures k in s.table && Apply(s, e).table[k].attempt == s.table[k].attempt
    ensures Apply(s, e).table[k].proc.touch == s.table[k].proc.touch
    ensures Apply(s, e).table[k].proc.idle == s.table[k].proc.idle
  {
  }

  /** A touch time is the clock at the last use of the key, and with no use it is the one before. */
  lemma {:induction false} TouchIsLastUse(states: seq<State>, steps: seq<Step>, a: nat, j: nat, k: Key)
    requires IsRun(states, steps) && a <= j < |states| && k in states[j].table
    ensures forall m | a <= m < j && Uses(steps[m], k) :: states[m].clock <= states[j].table[k].proc.touch
    ensures UsedBetween(steps, a, j, k) ==>
      exists m :: a <= m < j && Uses(steps[m], k) && states[m].clock == states[j].table[k].proc.touch
    ensures !UsedBetween(steps, a, j, k) ==>
      k in states[a].table && states[j].table[k].proc.touch == states[a].table[k].proc.touch &&
      states[j].table[k].proc.idle == states[a].table[k].proc.idle
  {
    if a < j {
      assert StepsTo(states[j - 1], steps[j - 1], states[j]);
      if Uses(steps[j - 1], k) {
        forall m | a <= m < j ensures states[m].clock <= states[j - 1].clock {
          ClockGrows(states, steps, m, j - 1);
        }
      } else {
        OtherSteps(states[j - 1], steps[j - 1], k);
        TouchIsLastUse(states, steps, a, j - 1, k);
        assert UsedBetween(steps, a, j, k) <==> UsedBetween(steps, a, j - 1, k);
      }
    }
  }

  /** The key was used between a and j, less than this long before j. */
  ghost predicate UsedWithin(states: seq<State>, steps: seq<Step>, a: nat, j: nat, k: Key, window: int)
    requires |states| == |steps| + 1 && j < |states|
  {
    exists m :: a <= m < j && Uses(steps[m], k) && states[j].clock - states[m].clock < window
  }

  lemma TouchedWithinIff(states: seq<State>, steps: seq<Step>, a: nat, j: nat, k: Key, window: int)
    requires IsRun(states, steps) && a <= j < |states| && k in states[j].table
    requires k in states[a].table && states[a].clock - states[a].table[k].proc.touch >= window
    ensures states[j].clock - states[j].table[k].proc.touch < window <==>
      UsedWithin(states, steps, a, j, k, window)
  {
    TouchIsLastUse(states, steps, a, j, k);
    ClockGrows(states, steps, a, j);
    if UsedBetween(steps, a, j, k) {
      var m :| a <= m < j && Uses(steps[m], k) && states[m].clock == states[j].table[k].proc.touch;
    }
  }

  /**
   * Pruning spares what is actively used, as of the snapshot. The process it stops is in active use exactly if
   * its key was touched or tracked anew since the snapshot, within the window.
   */
  lemma PrunedWhileActiveIff(states: seq<State>, steps: seq<Step>, j: nat, k: Key) returns (i: nat)
    requires IsRun(states, steps) && j < |states| && Stops(states[j], k) && k !in states[j].pass.idle
    ensures FromSnapshot(states, steps, i, j)
    ensures R.Active(Procs(states[j].table), k, states[j].clock) <==>
      UsedWithin(states, steps, i + 1, j, k, R.WARM_ACTIVE_WINDOW)
  {
    i := StopsWereChosen(states, steps, j, k);
    assert StepsTo(states[i], steps[i], states[i + 1]);
    TouchedWithinIff(states, steps, i + 1, j, k, R.WARM_ACTIVE_WINDOW);
  }

  /**
   * A process that is stopped for idling out has not been idle for its limit exactly if its key was used since
   * the snapshot, that recently. The limit is the server's, or the one the snapshot saw unless a new attempt came.
   */
  lemma IdledOutWhileUsedIff(states: seq<State>, steps: seq<Step>, j: nat, k: Key) returns (i: nat)
    requires IsRun(states, steps) && j < |states| && Stops(states[j], k) && k in states[j].pass.idle
    ensures FromSnapshot(states, steps, i, j) && k in states[i].table
    ensures var limit := R.IdleLimit(Procs(states[i].table), k, states[j].pass.policy.override);
      states[j].clock - states[j].table[k].proc.touch <= limit <==>
        UsedWithin(states, steps, i + 1, j, k, limit + 1)
  {
    i := StopsWereChosen(states, steps, j, k);
    assert StepsTo(states[i], steps[i], states[i + 1]);
    var limit := R.IdleLimit(Procs(states[i].table), k, states[j].pass.policy.override);
    TouchedWithinIff(states, steps, i + 1, j, k, limit + 1);
  }

  // ---- Another attempt ----

  ghost predicate TrackedBetween(steps: seq<Step>, a: nat, j: nat, k: Key)
    requires j <= |steps|
  {
    exists m :: a <= m < j && steps[m].Track? && steps[m].k == k
  }

  lemma {:induction false} AttemptsAreOld(states: seq<State>, steps: seq<Step>, j: nat, k: Key)
    requires IsRun(states, steps) && j < |states| && k in states[j].table
    ensures states[j].table[k].attempt < states[j].next
  {
    assert j > 0;
    assert StepsTo(states[j - 1], steps[j - 1], states[j]);
    if k in states[j - 1].table {
      AttemptsAreOld(states, steps, j - 1, k);
    }
  }

  lemma {:induction false} AttemptIsLast(states: seq<State>, steps: seq<Step>, a: nat, j: nat, k: Key)
    requires IsRun(states, steps) && a <= j < |states| && k in states[j].table
    ensures TrackedBetween(steps, a, j, k) ==> states[j].table[k].attempt >= states[a].next
    ensures !TrackedBetween(steps, a, j, k) ==>
      k in states[a].table && states[j].table[k].attempt == states[a].table[k].attempt
  {
    if a < j {
      assert StepsTo(states[j - 1], steps[j - 1], states[j]);
      if steps[j - 1].Track? && steps[j - 1].k == k {
        ClockGrows(states, steps, a, j - 1);
      } else {
        assert k in states[j - 1].table && states[j].table[k].attempt == states[j - 1].table[k].attempt;
        AttemptIsLast(states, steps, a, j - 1, k);
        assert TrackedBetween(steps, a, j, k) <==> TrackedBetween(steps, a, j - 1, k);
      }
    }
  }

  /** The process that is stopped is another than the one chosen exactly if a new attempt was tracked since. */
  lemma NewAttemptStoppedIff(states: seq<State>, steps: seq<Step>, j: nat, k: Key) returns (i: nat)
    requires IsRun(states, steps) && j < |states| && Stops(states[j], k)
    ensures FromSnapshot(states, steps, i, j) && k in states[i].table
    ensures states[j].table[k].attempt != states[i].table[k].attempt <==> TrackedBetween(steps, i + 1, j, k)
  {
    i := StopsWereChosen(states, steps, j, k);
    assert StepsTo(states[i], steps[i], states[i + 1]);
    AttemptsAreOld(states, steps, i, k);
    AttemptIsLast(states, steps, i + 1, j, k);
  }

  // ---- Pairs ----

  /** The step makes f ready or touches it. */
  predicate Readies(e: Step, f: Key) {
    e == Ready(f) || e == Touch(f)
  }

  ghost predicate LiveAndTouched(s: State, f: Key) {
    f in s.table && s.table[f].proc.ready && !s.table[f].proc.exited && s.table[f].proc.touch > 0
  }

  lemma LiveIsCandidate(s: State, f: Key)
    ensures LiveAndTouched(s, f) <==> f in R.Candidates(Procs(s.table)) && Procs(s.table)[f].touch > 0
  {
  }

  lemma {:induction false} LiveSince(states: seq<State>, steps: seq<Step>, a: nat, j: nat, f: Key) returns (m: nat)
    requires IsRun(states, steps) && a <= j < |states| && LiveAndTouched(states[j], f) && !LiveAndTouched(states[a], f)
    ensures a <= m < j && Readies(steps[m], f)
  {
    assert StepsTo(states[j - 1], steps[j - 1], states[j]);
    if Readies(steps[j - 1], f) {
      m := j - 1;
    } else {
      m := LiveSince(states, steps, a, j - 1, f);
    }
  }

  /**
   * A backend is spared while a frontend that is paired with it runs, as of the snapshot. One that is stopped
   * under a running frontend lost it to a frontend that became ready, or was first touched, since.
   */
  lemma StrandedFrontendIsNew(states: seq<State>, steps: seq<Step>, j: nat, k: Key) returns (i: nat, f: Key, m: nat)
    requires IsRun(states, steps) && j < |states| && Stops(states[j], k) && R.Paired(Procs(states[j].table), k)
    ensures FromSnapshot(states, steps, i, j)
    ensures HasPeer(f) && PeerOf(f) == k && f in states[j].table && i < m < j && Readies(steps[m], f)
  {
    i := StopsWereChosen(states, steps, j, k);
    var procs := Procs(states[j].table);
    f :| f in R.Candidates(procs) && HasPeer(f) && PeerOf(f) == k && procs[f].touch > 0;
    LiveIsCandidate(states[i + 1], f);
    assert !R.Paired(Procs(states[i + 1].table), k);
    m := LiveSince(states, steps, i + 1, j, f);
  }

  // ---- It happens ----

  /** A process with a timeout of a second idles out, is touched, and is stopped all the same, in full use. */
  lemma TouchedProcessIsStopped(k: Key) returns (states: seq<State>, steps: seq<Step>)
    ensures IsRun(states, steps) && |steps| == 6 && steps[5] == Touch(k)
    ensures Stops(states[6], k) && states[6].table[k].proc.touch == states[6].clock
  {
    var p := Policy(0, 0, 0);
    var e0 := Entry(0, false, R.Proc(1, 1, false, false));
    var e1 := e0.(launched := true);
    var e2 := e1.(proc := R.Proc(1, 1, true, false));
    var pass := Stopping(map[k := e2], 4, p, {k}, [k]);
    steps := [Track(k, 1), Launch(k), Ready(k), Tick(3), Snapshot(p, {}, [k], []), Touch(k)];
    states := [INIT, State(map[k := e0], 1, 1, Resting), State(map[k := e1], 1, 1, Resting),
               State(map[k := e2], 1, 1, Resting), State(map[k := e2], 1, 4, Resting),
               State(map[k := e2], 1, 4, pass), State(map[k := e2.(proc := R.Proc(4, 1, true, false))], 1, 4, pass)];
    OneIdlesOut(k, e2);
    assert map[][k := e0] == map[k := e0] && map[k := e0][k := e1] == map[k := e1];
    assert map[k := e1][k := e2] == map[k := e2] && [k] + [] == [k];
    assert StepsTo(states[0], steps[0], states[1]) && StepsTo(states[1], steps[1], states[2]);
    assert StepsTo(states[2], steps[2], states[3]) && StepsTo(states[3], steps[3], states[4]);
    assert StepsTo(states[4], steps[4], states[5]) && StepsTo(states[5], steps[5], states[6]);
  }

  lemma OneIdlesOut(k: Key, e: Entry)
    requires e.proc == R.Proc(1, 1, true, false)
    ensures R.Decides(Procs(map[k := e]), 0, 0, 0, 4, [k], [], {}) && R.Elems([k]) == {k}
  {
    var procs := Procs(map[k := e]);
    assert R.Candidates(procs) == {k};
    assert !R.Paired(procs, k);
    assert R.IdleStops(procs, {}, 0, 4) == {k};
  }
}
