/**
 * Deploy-network membership: a backend and its frontend share a Docker network that the first of them
 * creates and the last one out removes, with no count kept anywhere.
 *
 * The daemon is a small machine: it refuses to remove a network while an endpoint is attached, an
 * endpoint attaches when a container starts and is gone at the latest when the container is removed.
 */
module DeployNetwork {

  /** Where one container start and its reaper are. */
  datatype Phase =
    | Wants        // image pulled, waiting for netMu
    | Locked       // holds netMu
    | Resolved     // network looked up or created
    | Created      // container exists, not started
    | Running
    | Exited       // reaper saw the exit; container still there
    | Removed      // container gone, network not given back yet
    | Released
    | Aborted      // start failed and the network was given back
    | NoNetwork    // EnsureNetwork failed
    | CreateFailed // CreateContainer failed: returned without giving the network back

  datatype Container = Container(name: string, net: nat, phase: Phase, attached: bool)
  {
    predicate HoldsMu() { phase == Locked || phase == Resolved || phase == Created }

    /** It still owes its network a removal attempt. */
    predicate Owes() {
      phase == Resolved || phase == Created || phase == Running || phase == Exited || phase == Removed
    }
  }

  /** The last thing that decided about a network: a failed create left it, or somebody tried to remove it. */
  datatype Decision = LeftBehind | GivenBack

  datatype State = State(
    networks: map<nat, string>,
    nextNet: nat,
    holder: set<nat>,
    containers: map<nat, Container>,
    decisions: map<nat, Decision>)

  const INIT := State(map[], 0, {}, map[], map[])

  datatype Step =
    | Begin(c: nat, name: string)
    | Lock(c: nat)
    | Ensure(c: nat, n: nat)
    | EnsureFails(c: nat)
    | Create(c: nat)
    | CreateFails(c: nat)
    | Start(c: nat)
    | StartFails(c: nat)
    | Exit(c: nat, detaches: bool)
    | Reap(c: nat)
    | Release(c: nat)
    | Purge(n: nat)

  predicate In(s: State, c: nat, phase: Phase) {
    c in s.containers && s.containers[c].phase == phase
  }

  predicate Enabled(s: State, e: Step) {
    match e
    case Begin(c, _) => c !in s.containers
    case Lock(c) => In(s, c, Wants) && s.holder == {}
    case Ensure(c, n) =>
      In(s, c, Locked) &&
      (if n in s.networks then s.networks[n] == s.containers[c].name
       else n == s.nextNet && s.containers[c].name !in s.networks.Values)
    case EnsureFails(c) => In(s, c, Locked)
    case Create(c) => In(s, c, Resolved)
    case CreateFails(c) => In(s, c, Resolved)
    case Start(c) => In(s, c, Created) && s.containers[c].net in s.networks
    case StartFails(c) => In(s, c, Created)
    case Exit(c, _) => In(s, c, Running)
    case Reap(c) => In(s, c, Exited)
    case Release(c) => In(s, c, Removed) && s.holder == {}
    case Purge(_) => s.holder == {}
  }

  /** The daemon's answer to a removal. */
  function RemoveNetwork(networks: map<nat, string>, containers: map<nat, Container>, n: nat): map<nat, string> {
    if exists c :: c in containers && containers[c].attached && containers[c].net == n then networks else networks - {n}
  }

  function Move(s: State, c: nat, phase: Phase): State
    requires c in s.containers
  {
    s.(containers := s.containers[c := s.containers[c].(phase := phase)])
  }

  /** EnsureNetwork: n is the existing network of that name, or a new one when there is none. */
  function EnsureSection(s: State, c: nat, n: nat): State
    requires Enabled(s, Ensure(c, n))
  {
    var name := s.containers[c].name;
    s.(networks := s.networks[n := name],
       nextNet := if n in s.networks then s.nextNet else s.nextNet + 1,
       containers := s.containers[c := s.containers[c].(net := n, phase := Resolved)])
  }

  /** Removes the network of c, if the daemon lets it, and moves c on. */
  function GiveBack(s: State, c: nat, phase: Phase): State
    requires c in s.containers
  {
    var n := s.containers[c].net;
    Move(s, c, phase).(networks := RemoveNetwork(s.networks, s.containers, n), decisions := s.decisions[n := GivenBack])
  }

  function Apply(s: State, e: Step): State
    requires Enabled(s, e)
  {
    match e
    case Begin(c, name) => s.(containers := s.containers[c := Container(name, 0, Wants, false)])
    case Lock(c) => Move(s, c, Locked).(holder := {c})
    case Ensure(c, n) => EnsureSection(s, c, n)
    case EnsureFails(c) => Move(s, c, NoNetwork).(holder := {})
    case Create(c) => Move(s, c, Created)
    case CreateFails(c) =>
      Move(s, c, CreateFailed).(holder := {}, decisions := s.decisions[s.containers[c].net := LeftBehind])
    case Start(c) =>
      s.(containers := s.containers[c := s.containers[c].(phase := Running, attached := true)], holder := {})
    case StartFails(c) => GiveBack(s, c, Aborted).(holder := {})
    case Exit(c, detaches) =>
      s.(containers := s.containers[c := s.containers[c].(phase := Exited, attached := !detaches)])
    case Reap(c) => s.(containers := s.containers[c := s.containers[c].(phase := Removed, attached := false)])
    case Release(c) => GiveBack(s, c, Released)
    case Purge(n) =>
      s.(networks := RemoveNetwork(s.networks, s.containers, n), decisions := s.decisions[n := GivenBack])
  }

  // ---- The invariant ----

  ghost predicate ContainerOk(s: State, c: nat)
    requires c in s.containers
  {
    var x := s.containers[c];
    && (x.HoldsMu() <==> c in s.holder)
    && (x.phase == Running ==> x.attached)
    && (x.attached ==> x.phase == Running || x.phase == Exited)
    // A network that is resolved or has an endpoint exists under its name.
    && (x.phase == Resolved || x.phase == Created || x.attached ==> x.net in s.networks && s.networks[x.net] == x.name)
  }

  ghost predicate Owed(s: State, n: nat) {
    exists c :: c in s.containers && s.containers[c].Owes() && s.containers[c].net == n
  }

  ghost predicate NetworkOk(s: State, n: nat) {
    && (n in s.networks ==> n < s.nextNet && (Owed(s, n) || LeftBehindIs(s, n)))
    && (LeftBehindIs(s, n) ==> n in s.networks)
  }

  ghost predicate LeftBehindIs(s: State, n: nat) {
    n in s.decisions && s.decisions[n] == LeftBehind
  }

  ghost predicate Inv(s: State) {
    && (forall c | c in s.containers :: ContainerOk(s, c))
    && (forall c, d | c in s.holder && d in s.holder :: c == d)
    && (forall c | c in s.holder :: c in s.containers)
    && (forall n :: NetworkOk(s, n))
    && (forall m, n | m in s.networks && n in s.networks && s.networks[m] == s.networks[n] :: m == n)
  }

  lemma StepKeepsContainers(s: State, e: Step)
    requires Inv(s) && Enabled(s, e)
    ensures forall c | c in Apply(s, e).containers :: ContainerOk(Apply(s, e), c)
  {
    var s' := Apply(s, e);
    forall c | c in s'.containers ensures ContainerOk(s', c) {
      if c in s.containers { assert ContainerOk(s, c); }
      if e.StartFails? || e.Release? || e.Lock? || e.Ensure? {
        assert ContainerOk(s, e.c);
      }
      RemovalSparesAttached(s, c);
    }
  }

  /** Whatever a removal does, the network of an attached container survives it. */
  lemma RemovalSparesAttached(s: State, c: nat)
    ensures c in s.containers && s.containers[c].attached ==> forall n ::
      s.containers[c].net in RemoveNetwork(s.networks, s.containers, n) <==> s.containers[c].net in s.networks
  {
  }

  /** A network that survives a removal is still owed by someone other than the container that gave it back. */
  lemma SurvivorIsOwed(s: State, n: nat, c: nat)
    requires forall d | d in s.containers :: ContainerOk(s, d)
    requires n in RemoveNetwork(s.networks, s.containers, n)
    requires c in s.containers ==> !s.containers[c].attached
    ensures exists d :: d in s.containers && d != c && s.containers[d].Owes() && s.containers[d].net == n
  {
    var d :| d in s.containers && s.containers[d].attached && s.containers[d].net == n;
    assert ContainerOk(s, d);
  }

  lemma StepKeepsNetworks(s: State, e: Step, n: nat)
    requires Inv(s) && Enabled(s, e)
    ensures NetworkOk(Apply(s, e), n)
  {
    var s' := Apply(s, e);
    assert NetworkOk(s, n);
    if e.StartFails? || e.Release? {
      GiveBackKeepsNetworks(s, e, n);
    } else if e.Purge? {
      PurgeKeepsNetworks(s, e.n, n);
    } else if e.Ensure? && n == e.n {
      assert s'.containers[e.c].Owes();
    } else if Owed(s, n) {
      var d :| d in s.containers && s.containers[d].Owes() && s.containers[d].net == n;
      assert d in s'.containers;
      if e.CreateFails? { assert s'.containers[e.c].phase == CreateFailed; }
    }
  }

  lemma GiveBackKeepsNetworks(s: State, e: Step, n: nat)
    requires Inv(s) && Enabled(s, e) && (e.StartFails? || e.Release?)
    ensures NetworkOk(Apply(s, e), n)
  {
    var s' := Apply(s, e);
    assert NetworkOk(s, n) && ContainerOk(s, e.c);
    if n in s'.networks && n == s.containers[e.c].net {
      SurvivorIsOwed(s, n, e.c);
      var d :| d in s.containers && d != e.c && s.containers[d].Owes() && s.containers[d].net == n;
      assert s'.containers[d] == s.containers[d];
    } else if Owed(s, n) {
      var d :| d in s.containers && s.containers[d].Owes() && s.containers[d].net == n;
      assert d in s'.containers;
    }
  }

  lemma PurgeKeepsNetworks(s: State, m: nat, n: nat)
    requires Inv(s) && Enabled(s, Purge(m))
    ensures NetworkOk(Apply(s, Purge(m)), n)
  {
    var s' := Apply(s, Purge(m));
    assert NetworkOk(s, n) && s'.containers == s.containers;
    if n in s'.networks && n == m {
      var d :| d in s.containers && s.containers[d].attached && s.containers[d].net == n;
      assert ContainerOk(s, d);
      assert Owed(s, n);
    }
  }

  lemma StepKeepsRest(s: State, e: Step)
    requires Inv(s) && Enabled(s, e)
    ensures var s' := Apply(s, e);
      && (forall c, d | c in s'.holder && d in s'.holder :: c == d)
      && (forall c | c in s'.holder :: c in s'.containers)
      && (forall m, n | m in s'.networks && n in s'.networks && s'.networks[m] == s'.networks[n] :: m == n)
  {
  }

  lemma StepKeepsInv(s: State, e: Step)
    requires Inv(s) && Enabled(s, e)
    ensures Inv(Apply(s, e))
  {
    StepKeepsContainers(s, e);
    forall n ensures NetworkOk(Apply(s, e), n) {
      StepKeepsNetworks(s, e, n);
    }
    StepKeepsRest(s, e);
  }

  // ---- Runs ----

  ghost predicate IsRun(states: seq<State>, steps: seq<Step>) {
    && |states| == |steps| + 1
    && states[0] == INIT
    && forall i | 0 <= i < |steps| :: Enabled(states[i], steps[i]) && states[i + 1] == Apply(states[i], steps[i])
  }

  lemma {:induction false} RunKeepsInv(states: seq<State>, steps: seq<Step>, i: nat)
    requires IsRun(states, steps) && i < |states|
    ensures Inv(states[i])
  {
    if i > 0 {
      RunKeepsInv(states, steps, i - 1);
      StepKeepsInv(states[i - 1], steps[i - 1]);
    }
  }

  /**
   * Whatever starts, exits and reaps interleave: every running container's network exists, a start never
   * finds its network gone, and two running containers of one deploy are on the same network.
   */
  lemma RunningNetworkExists(states: seq<State>, steps: seq<Step>, i: nat)
    requires IsRun(states, steps) && i < |states|
    ensures var s := states[i];
      && (forall c | c in s.containers && s.containers[c].phase == Running :: s.containers[c].net in s.networks)
      && (forall c | In(s, c, Created) :: Enabled(s, Start(c)))
      && (forall c, d | In(s, c, Running) && In(s, d, Running) && s.containers[c].name == s.containers[d].name ::
            s.containers[c].net == s.containers[d].net)
  {
    RunKeepsInv(states, steps, i);
    var s := states[i];
    forall c | c in s.containers ensures ContainerOk(s, c) {
    }
  }

  /** A step of this container's start or reaper. */
  predicate IsContainers(e: Step, c: nat) {
    match e
    case Begin(_, _) => false
    case Purge(_) => false
    case _ => e.c == c
  }

  /** Whoever holds netMu can go on: a created container can start, its network being there. */
  lemma HolderMoves(s: State, c: nat) returns (e: Step)
    requires Inv(s) && c in s.holder
    ensures Enabled(s, e) && IsContainers(e, c)
  {
    var x := s.containers[c];
    assert ContainerOk(s, c);
    e := if x.phase == Locked then EnsureFails(c) else if x.phase == Resolved then Create(c) else Start(c);
  }

  /**
   * In every state of every run, a container that has not come to an end can take its next step, or the one that
   * holds netMu can.
   */
  lemma NobodyIsStuck(states: seq<State>, steps: seq<Step>, i: nat, c: nat) returns (e: Step)
    requires IsRun(states, steps) && i < |states| && c in states[i].containers
    requires var phase := states[i].containers[c].phase;
      phase == Wants || states[i].containers[c].Owes() || phase == Locked
    ensures Enabled(states[i], e)
    ensures IsContainers(e, c) || exists d :: d in states[i].holder && IsContainers(e, d)
  {
    RunKeepsInv(states, steps, i);
    var s := states[i];
    assert ContainerOk(s, c);
    var phase := s.containers[c].phase;
    if phase == Running {
      e := Exit(c, true);
    } else if phase == Exited {
      e := Reap(c);
    } else if s.holder == {} {
      e := if phase == Wants then Lock(c) else Release(c);
    } else {
      var d :| d in s.holder;
      e := HolderMoves(s, d);
    }
  }

  /** The last out takes the network along: once nothing else is attached, giving it back removes it. */
  lemma LastOneOutRemoves(s: State, c: nat)
    requires Enabled(s, Release(c))
    requires forall d | d in s.containers && s.containers[d].attached :: s.containers[d].net != s.containers[c].net
    ensures Apply(s, Release(c)).networks == s.networks - {s.containers[c].net}
  {
  }

  /** No container is between its network lookup and its removal attempt. */
  ghost predicate Quiet(s: State) {
    forall c | c in s.containers :: !s.containers[c].Owes()
  }

  /**
   * Once every container was reaped or aborted, a network is left exactly if the last decision about it
   * was a failed CreateContainer, the one path that returns without giving it back.
   */
  lemma LeftoverIffCreateFailed(states: seq<State>, steps: seq<Step>, i: nat, n: nat)
    requires IsRun(states, steps) && i < |states| && Quiet(states[i])
    ensures n in states[i].networks <==> n in states[i].decisions && states[i].decisions[n] == LeftBehind
  {
    RunKeepsInv(states, steps, i);
    assert NetworkOk(states[i], n);
  }

  /** So without a failed CreateContainer no network remains. */
  lemma {:induction false} NothingLeftBehind(states: seq<State>, steps: seq<Step>, i: nat)
    requires IsRun(states, steps) && i < |states|
    requires forall j | 0 <= j < i :: !steps[j].CreateFails?
    ensures forall n :: n in states[i].decisions ==> states[i].decisions[n] == GivenBack
    ensures Quiet(states[i]) ==> states[i].networks == map[]
  {
    if i > 0 { NothingLeftBehind(states, steps, i - 1); }
    if Quiet(states[i]) {
      forall n ensures n !in states[i].networks { LeftoverIffCreateFailed(states, steps, i, n); }
    }
  }

  /** The leak on that path: one start whose CreateContainer fails leaves its network for good. */
  lemma CreateFailureLeaks(name: string) returns (states: seq<State>, steps: seq<Step>)
    ensures IsRun(states, steps) && Quiet(states[|steps|]) && 0 in states[|steps|].networks
  {
    steps := [Begin(0, name), Lock(0), Ensure(0, 0), CreateFails(0)];
    var s1 := Apply(INIT, steps[0]);
    var s2 := Apply(s1, steps[1]);
    assert s2.containers[0].name !in s2.networks.Values;
    var s3 := Apply(s2, steps[2]);
    var s4 := Apply(s3, steps[3]);
    states := [INIT, s1, s2, s3, s4];
  }
}
