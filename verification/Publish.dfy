/**
 * Publishing artifact directories and forking state directories, by staging and one atomic rename.
 *
 * os.Rename first looks at its target and refuses a directory; the rename(2) behind it is atomic and
 * takes a free name or an empty directory. Publishers, forkers and crashes interleave step by step.
 */
module Publish {

  /** The entries of a directory tree, by relative path. */
  type Tree = map<string, string>

  datatype Job = Artifact(overwrite: bool) | ForkOf(src: string)

  /** Looking and Renaming are the two halves of os.Rename. */
  datatype Pc = Staging | Checking | Displacing | Looking | Renaming | Rechecking | Succeeded | Failed

  /** One call of publish or ForkStateDir: the whole tree it is to land, and what is staged so far. */
  datatype Thread = Thread(job: Job, dest: string, want: Tree, staged: Tree, pc: Pc)
  {
    predicate Staged() { pc == Checking || pc == Displacing || pc == Looking || pc == Renaming }
  }

  /** `dirs` are the published directories by name; `wanted` are the trees ever meant for a name. */
  datatype State = State(dirs: map<string, Tree>, threads: map<nat, Thread>, wanted: set<(string, Tree)>)

  const INIT := State(map[], map[], {})

  datatype Step =
    | BeginPublish(t: nat, dest: string, overwrite: bool, want: Tree)
    | BeginFork(t: nat, src: string, dest: string)
    | WriteEntry(t: nat, path: string)
    | StagingFails(t: nat)
    | Staged(t: nat)
    | CheckDest(t: nat)
    | Displace(t: nat)
    | DisplaceFails(t: nat)
    | Look(t: nat)
    | Rename(t: nat)
    | RenameFails(t: nat)
    | Recheck(t: nat)
    | InitFresh(dest: string)
    | Crash

  predicate At(s: State, t: nat, pc: Pc) {
    t in s.threads && s.threads[t].pc == pc
  }

  predicate Enabled(s: State, e: Step) {
    match e
    case BeginPublish(t, _, _, _) => t !in s.threads
    case BeginFork(t, _, _) => t !in s.threads
    case WriteEntry(t, path) => At(s, t, Staging) && path in s.threads[t].want && path !in s.threads[t].staged
    case StagingFails(t) => At(s, t, Staging)
    case Staged(t) => At(s, t, Staging) && s.threads[t].staged == s.threads[t].want
    case CheckDest(t) => At(s, t, Checking)
    case Displace(t) => At(s, t, Displacing)
    case DisplaceFails(t) => At(s, t, Displacing)
    case Look(t) => At(s, t, Looking)
    case Rename(t) => At(s, t, Renaming)
    case RenameFails(t) => At(s, t, Renaming)
    case Recheck(t) => At(s, t, Rechecking)
    case InitFresh(_) => true
    case Crash => true
  }

  predicate RenameAllowed(dirs: map<string, Tree>, dest: string) {
    dest in dirs ==> dirs[dest] == map[]
  }

  function Goto(s: State, t: nat, pc: Pc): State
    requires t in s.threads
  {
    s.(threads := s.threads[t := s.threads[t].(pc := pc)])
  }

  function BeginForkSection(s: State, t: nat, src: string, dest: string): State {
    if dest in s.dirs then s.(threads := s.threads[t := Thread(ForkOf(src), dest, map[], map[], Succeeded)])
    else if src !in s.dirs then s.(threads := s.threads[t := Thread(ForkOf(src), dest, map[], map[], Failed)])
    else s.(threads := s.threads[t := Thread(ForkOf(src), dest, s.dirs[src], map[], Staging)],
            wanted := s.wanted + {(dest, s.dirs[src])})
  }

  function Apply(s: State, e: Step): State
    requires Enabled(s, e)
  {
    match e
    case BeginPublish(t, dest, overwrite, want) =>
      s.(threads := s.threads[t := Thread(Artifact(overwrite), dest, want, map[], Staging)],
         wanted := s.wanted + {(dest, want)})
    case BeginFork(t, src, dest) => BeginForkSection(s, t, src, dest)
    case WriteEntry(t, path) =>
      var x := s.threads[t];
      s.(threads := s.threads[t := x.(staged := x.staged[path := x.want[path]])])
    case StagingFails(t) => Goto(s, t, Failed)
    case Staged(t) => Goto(s, t, if s.threads[t].job.ForkOf? then Looking else Checking)
    case CheckDest(t) =>
      var x := s.threads[t];
      Goto(s, t, if x.dest !in s.dirs then Looking
                 else if x.job == Artifact(true) then Displacing else Succeeded)
    case Displace(t) =>
      var x := s.threads[t];
      if x.dest in s.dirs then Goto(s, t, Looking).(dirs := s.dirs - {x.dest}) else Goto(s, t, Failed)
    case DisplaceFails(t) => Goto(s, t, Failed)
    case Look(t) => Goto(s, t, if s.threads[t].dest in s.dirs then Rechecking else Renaming)
    case Rename(t) =>
      var x := s.threads[t];
      if RenameAllowed(s.dirs, x.dest) then Goto(s, t, Succeeded).(dirs := s.dirs[x.dest := x.staged])
      else Goto(s, t, Rechecking)
    case RenameFails(t) => Goto(s, t, Rechecking)
    case Recheck(t) => Goto(s, t, if s.threads[t].dest in s.dirs then Succeeded else Failed)
    case InitFresh(dest) =>
      if dest in s.dirs then s else s.(dirs := s.dirs[dest := map[]], wanted := s.wanted + {(dest, map[])})
    case Crash => s.(threads := map[])
  }

  ghost predicate ThreadOk(s: State, x: Thread) {
    && (x.pc == Staging || x.Staged() ==> (x.dest, x.want) in s.wanted)
    && (x.Staged() ==> x.staged == x.want)
    && (x.pc == Displacing ==> x.job == Artifact(true))
    && (x.job.ForkOf? && x.pc != Succeeded && x.pc != Failed ==> x.job.src != x.dest)
  }

  ghost predicate Inv(s: State) {
    && (forall t | t in s.threads :: ThreadOk(s, s.threads[t]))
    // A published directory is one whole tree that was meant for it.
    && (forall n | n in s.dirs :: (n, s.dirs[n]) in s.wanted)
  }

  lemma StepKeepsInv(s: State, e: Step)
    requires Inv(s) && Enabled(s, e)
    ensures Inv(Apply(s, e))
  {
    var s' := Apply(s, e);
    forall t | t in s'.threads ensures ThreadOk(s', s'.threads[t]) {
      if t in s.threads { assert ThreadOk(s, s.threads[t]); }
    }
    if e.Rename? { assert ThreadOk(s, s.threads[e.t]); }
  }

  predicate StepsTo(s: State, e: Step, s': State) {
    Enabled(s, e) && s' == Apply(s, e)
  }

  ghost predicate IsRun(states: seq<State>, steps: seq<Step>) {
    && |states| == |steps| + 1
    && states[0] == INIT
    && forall i | 0 <= i < |steps| :: StepsTo(states[i], steps[i], states[i + 1])
  }

  lemma {:induction false} RunKeepsInv(states: seq<State>, steps: seq<Step>, i: nat)
    requires IsRun(states, steps) && i < |states|
    ensures Inv(states[i])
  {
    if i > 0 {
      assert StepsTo(states[i - 1], steps[i - 1], states[i]);
      RunKeepsInv(states, steps, i - 1);
      StepKeepsInv(states[i - 1], steps[i - 1]);
    }
  }

  /**
   * At every moment of every run, crashes included, a destination is absent or holds one whole tree: one
   * handed to a publisher of that name, copied by a forker to it, or the fresh empty state directory.
   */
  lemma DestinationIsWhole(states: seq<State>, steps: seq<Step>, i: nat, n: string)
    requires IsRun(states, steps) && i < |states| && n in states[i].dirs
    ensures exists j :: 0 <= j < i && Supplies(states[j], steps[j], n, states[i].dirs[n])
  {
    RunKeepsInv(states, steps, i);
    WantedIsSupplied(states, steps, i, n, states[i].dirs[n]);
  }

  /** The step brings tree in as the whole content meant for name n. */
  ghost predicate Supplies(s: State, e: Step, n: string, tree: Tree) {
    match e
    case BeginPublish(_, dest, _, want) => dest == n && want == tree
    case BeginFork(_, src, dest) => dest == n && src in s.dirs && s.dirs[src] == tree
    case InitFresh(dest) => dest == n && tree == map[]
    case _ => false
  }

  lemma {:induction false} WantedIsSupplied(states: seq<State>, steps: seq<Step>, i: nat, n: string, tree: Tree)
    requires IsRun(states, steps) && i < |states| && (n, tree) in states[i].wanted
    ensures exists j :: 0 <= j < i && Supplies(states[j], steps[j], n, tree)
  {
    assert i > 0 ==> StepsTo(states[i - 1], steps[i - 1], states[i]);
    if (n, tree) in states[i - 1].wanted {
      WantedIsSupplied(states, steps, i - 1, n, tree);
    } else {
      assert Supplies(states[i - 1], steps[i - 1], n, tree);
    }
  }

  // ---- What becomes of an existing directory ----

  /** An overwriting publisher moves the directory aside. */
  predicate Displaces(s: State, e: Step, n: string) {
    e.Displace? && At(s, e.t, Displacing) && s.threads[e.t].dest == n && n in s.dirs
  }

  /** The race in os.Rename: an empty directory that appeared since the look is replaced by something else. */
  predicate Replaces(s: State, e: Step, n: string) {
    e.Rename? && At(s, e.t, Renaming) && s.threads[e.t].dest == n && n in s.dirs && s.dirs[n] == map[] &&
    s.threads[e.t].staged != map[]
  }

  predicate Stays(s: State, e: Step, n: string)
    requires Enabled(s, e) && n in s.dirs
  {
    n in Apply(s, e).dirs && Apply(s, e).dirs[n] == s.dirs[n]
  }

  /** Exactly those two change an existing directory, and only an overwriting publisher displaces. */
  lemma ExistingChangesIff(s: State, e: Step, n: string)
    requires Inv(s) && Enabled(s, e) && n in s.dirs
    ensures !Stays(s, e, n) <==> Changes(s, e, n)
    ensures Displaces(s, e, n) ==> s.threads[e.t].job == Artifact(true)
  {
    if e.Displace? { assert ThreadOk(s, s.threads[e.t]); }
  }

  predicate Changes(s: State, e: Step, n: string) {
    Displaces(s, e, n) || Replaces(s, e, n)
  }

  ghost predicate SameThroughout(states: seq<State>, i: nat, j: nat, n: string)
    requires i <= j < |states| && n in states[i].dirs
  {
    forall k | i <= k <= j :: n in states[k].dirs && states[k].dirs[n] == states[i].dirs[n]
  }

  /** In every run a published directory is the same at every moment exactly until one of the two happens. */
  lemma {:induction false} PublishedStays(states: seq<State>, steps: seq<Step>, i: nat, j: nat, n: string)
    requires IsRun(states, steps) && i <= j < |states| && n in states[i].dirs
    ensures SameThroughout(states, i, j, n) <==> forall k | i <= k < j :: !Changes(states[k], steps[k], n)
  {
    if i < j {
      assert StepsTo(states[j - 1], steps[j - 1], states[j]);
      PublishedStays(states, steps, i, j - 1, n);
      RunKeepsInv(states, steps, j - 1);
      if n in states[j - 1].dirs {
        ExistingChangesIff(states[j - 1], steps[j - 1], n);
      }
      assert SameThroughout(states, i, j, n) <==>
        SameThroughout(states, i, j - 1, n) && n in states[j].dirs && states[j].dirs[n] == states[i].dirs[n];
      assert SameThroughout(states, i, j - 1, n) ==> states[j - 1].dirs[n] == states[i].dirs[n];
    }
  }

  /** No publisher of n under way overwrites. */
  predicate NobodyOverwrites(s: State, n: string) {
    forall t | t in s.threads && s.threads[t].dest == n :: s.threads[t].job != Artifact(true)
  }

  ghost predicate NoOverwriteOf(states: seq<State>, n: string) {
    forall i | 0 <= i < |states| :: NobodyOverwrites(states[i], n)
  }

  /** Whatever os.Rename saw of n still holds when it renames: the look and the rename are as one. */
  ghost predicate RenamesUnraced(states: seq<State>, steps: seq<Step>, n: string)
    requires |states| == |steps| + 1
  {
    forall k | 0 <= k < |steps| && steps[k].Rename? && At(states[k], steps[k].t, Renaming) ::
      states[k].threads[steps[k].t].dest == n ==> n !in states[k].dirs
  }

  /** Without overwriting publishers and with an atomic os.Rename nothing that exists ever changes, empty or not. */
  lemma AtomicRenameKeepsExisting(states: seq<State>, steps: seq<Step>, i: nat, j: nat, n: string)
    requires IsRun(states, steps) && i <= j < |states| && n in states[i].dirs
    requires NoOverwriteOf(states, n) && RenamesUnraced(states, steps, n)
    ensures n in states[j].dirs && states[j].dirs[n] == states[i].dirs[n]
  {
    forall k | i <= k < j ensures !Changes(states[k], steps[k], n) {
      assert StepsTo(states[k], steps[k], states[k + 1]);
      RunKeepsInv(states, steps, k);
      if n in states[k].dirs {
        ExistingChangesIff(states[k], steps[k], n);
      }
    }
    PublishedStays(states, steps, i, j, n);
  }

  /** Every tree meant for n is this one, as for a content-addressed artifact. */
  predicate OnlyTree(s: State, n: string, tree: Tree) {
    forall w | w in s.wanted && w.0 == n :: w.1 == tree
  }

  lemma WantedGrows(s: State, e: Step)
    requires Enabled(s, e)
    ensures s.wanted <= Apply(s, e).wanted
  {
  }

  lemma ArtifactStep(s: State, e: Step, n: string, tree: Tree)
    requires Inv(s) && Enabled(s, e) && n in s.dirs && s.dirs[n] == tree && OnlyTree(s, n, tree)
    requires NobodyOverwrites(s, n)
    ensures n in Apply(s, e).dirs && Apply(s, e).dirs[n] == tree
  {
    ExistingChangesIff(s, e, n);
    if e.Rename? { assert ThreadOk(s, s.threads[e.t]); }
  }

  /** A content-addressed artifact that nobody overwrites never changes, whatever races. */
  lemma {:induction false} ArtifactNeverChanges(states: seq<State>, steps: seq<Step>, i: nat, j: nat, n: string,
      tree: Tree)
    requires IsRun(states, steps) && i <= j < |states| && n in states[i].dirs
    requires NoOverwriteOf(states, n) && OnlyTree(states[j], n, tree)
    ensures n in states[j].dirs && states[i].dirs[n] == tree && states[j].dirs[n] == tree
    decreases j
  {
    if i < j {
      var s, e := states[j - 1], steps[j - 1];
      assert StepsTo(s, e, states[j]);
      WantedGrows(s, e);
      RunKeepsInv(states, steps, j - 1);
      ArtifactNeverChanges(states, steps, i, j - 1, n, tree);
      ArtifactStep(s, e, n, tree);
    } else {
      RunKeepsInv(states, steps, j);
      assert (n, states[j].dirs[n]) in states[j].wanted;
    }
  }

  /** The step is taken by a thread that forks n, or begins such a thread. */
  predicate ForksFrom(s: State, e: Step, n: string) {
    match e
    case BeginFork(_, src, _) => src == n
    case InitFresh(_) => false
    case Crash => false
    case BeginPublish(_, _, _, _) => false
    case _ => e.t in s.threads && s.threads[e.t].job == ForkOf(n)
  }

  /** In no run does any step of a fork, from its beginning to its end, change the directory it forks. */
  lemma ForkSparesSource(states: seq<State>, steps: seq<Step>, k: nat, n: string)
    requires IsRun(states, steps) && k < |steps| && n in states[k].dirs && ForksFrom(states[k], steps[k], n)
    ensures n in states[k + 1].dirs && states[k + 1].dirs[n] == states[k].dirs[n]
  {
    RunKeepsInv(states, steps, k);
    assert StepsTo(states[k], steps[k], states[k + 1]);
    ExistingChangesIff(states[k], steps[k], n);
    if !steps[k].BeginFork? {
      assert ThreadOk(states[k], states[k].threads[steps[k].t]);
    }
  }

  /** A fork of src that has looked and not renamed yet. */
  function InRename(src: string, dest: string, tree: Tree): State {
    State(map[src := tree], map[0 := Thread(ForkOf(src), dest, tree, tree, Renaming)], {(src, tree), (dest, tree)})
  }

  lemma ForkReachesRename(src: string, dest: string, tree: Tree) returns (es: seq<Step>)
    requires src != dest
    ensures Legal(State(map[src := tree], map[], {(src, tree)}), es)
    ensures Run(State(map[src := tree], map[], {(src, tree)}), es) == InRename(src, dest, tree)
  {
    var s := State(map[src := tree], map[], {(src, tree)});
    var begin := [BeginFork(0, src, dest)];
    RunOne(s, begin);
    var s1 := Run(s, begin);
    assert s1.wanted == {(src, tree), (dest, tree)};
    var staging := StagingRun(s1, 0);
    RunJoins(s, begin, staging);
    var s2 := Run(s1, staging);
    RunOne(s2, [Look(0)]);
    RunJoins(s, begin + staging, [Look(0)]);
    es := begin + staging + [Look(0)];
    assert Run(s2, [Look(0)]).threads == InRename(src, dest, tree).threads;
  }

  /** The race is possible: a fresh state directory that appears inside a fork's os.Rename is replaced. */
  lemma EmptyDirectoryIsReplaced(src: string, dest: string, tree: Tree) returns (s: State, es: seq<Step>)
    requires src != dest && tree != map[]
    ensures Inv(s) && s.dirs == map[src := tree] && s.threads == map[] && Legal(s, es)
    ensures var before := Run(s, es);
      && Enabled(before, InitFresh(dest))
      && var raced := Apply(before, InitFresh(dest));
      && dest in raced.dirs && Enabled(raced, Rename(0)) && Replaces(raced, Rename(0), dest) &&
        !Stays(raced, Rename(0), dest)
  {
    s := State(map[src := tree], map[], {(src, tree)});
    es := ForkReachesRename(src, dest, tree);
  }

  /** A publisher or forker that succeeds leaves the destination present, at that moment. */
  lemma SuccessMeansPresent(s: State, e: Step, t: nat)
    requires Enabled(s, e) && At(Apply(s, e), t, Succeeded) && !At(s, t, Succeeded)
    ensures Apply(s, e).threads[t].dest in Apply(s, e).dirs
  {
  }

  // ---- One caller with nothing in between ----

  ghost predicate Legal(s: State, es: seq<Step>)
    decreases |es|
  {
    es == [] || (Enabled(s, es[0]) && Legal(Apply(s, es[0]), es[1..]))
  }

  ghost function Run(s: State, es: seq<Step>): State
    requires Legal(s, es)
    decreases |es|
  {
    if es == [] then s else Run(Apply(s, es[0]), es[1..])
  }

  lemma RunOne(s: State, es: seq<Step>)
    requires es != []
    ensures Legal(s, es) <==> Enabled(s, es[0]) && Legal(Apply(s, es[0]), es[1..])
    ensures Legal(s, es) ==> Run(s, es) == Run(Apply(s, es[0]), es[1..])
  {
  }

  lemma {:induction false} RunJoins(s: State, a: seq<Step>, b: seq<Step>)
    requires (Legal(s, a) && Legal(Run(s, a), b)) || Legal(s, a + b)
    ensures Legal(s, a) && Legal(Run(s, a), b) && Legal(s, a + b) && Run(s, a + b) == Run(Run(s, a), b)
    decreases |a|
  {
    if a == [] {
      assert a + b == b;
    } else {
      assert (a + b)[0] == a[0] && (a + b)[1..] == a[1..] + b;
      RunJoins(Apply(s, a[0]), a[1..], b);
    }
  }

  /** Which calls of one publish or fork fail. */
  datatype Faults = Faults(staging: bool, displace: bool, rename: bool)

  datatype Outcome = Outcome(dirs: map<string, Tree>, ok: bool)

  /** The rename, alone: it lands unless it fails or the name is taken, and a taken name is success too. */
  function Renamed(dirs: map<string, Tree>, dest: string, tree: Tree, fails: bool): Outcome {
    if dest in dirs then Outcome(dirs, true)
    else if fails then Outcome(dirs, false)
    else Outcome(dirs[dest := tree], true)
  }

  function Published(dirs: map<string, Tree>, dest: string, tree: Tree, overwrite: bool, f: Faults): Outcome {
    if f.staging then Outcome(dirs, false) else CheckedIn(dirs, dest, tree, overwrite, f)
  }

  /** What publish makes of a staged tree. */
  function CheckedIn(dirs: map<string, Tree>, dest: string, tree: Tree, overwrite: bool, f: Faults): Outcome {
    if dest !in dirs then Renamed(dirs, dest, tree, f.rename)
    else if !overwrite then Outcome(dirs, true)
    else if f.displace then Outcome(dirs, false)
    else Renamed(dirs - {dest}, dest, tree, f.rename)
  }

  function Forked(dirs: map<string, Tree>, src: string, dest: string, f: Faults): Outcome {
    if dest in dirs then Outcome(dirs, true)
    else if src !in dirs || f.staging then Outcome(dirs, false)
    else Renamed(dirs, dest, dirs[src], f.rename)
  }

  /** The state that thread t reaches when it ends with this outcome. */
  predicate Ends(s: State, t: nat, o: Outcome) {
    s.dirs == o.dirs && At(s, t, if o.ok then Succeeded else Failed)
  }

  /** Staging the rest of a tree, entry by entry. */
  lemma {:induction false} StagingRun(s: State, t: nat) returns (es: seq<Step>)
    requires At(s, t, Staging) && s.threads[t].staged.Keys <= s.threads[t].want.Keys
    requires forall p | p in s.threads[t].staged :: s.threads[t].staged[p] == s.threads[t].want[p]
    ensures Legal(s, es)
    ensures var x := s.threads[t];
      Run(s, es) == s.(threads := s.threads[t :=
        x.(staged := x.want, pc := if x.job.ForkOf? then Looking else Checking)])
    decreases s.threads[t].want.Keys - s.threads[t].staged.Keys
  {
    var x := s.threads[t];
    if x.staged.Keys == x.want.Keys {
      assert x.staged == x.want;
      es := [Staged(t)];
      RunOne(s, es);
    } else {
      var p :| p in x.want && p !in x.staged;
      assert p in x.want.Keys - x.staged.Keys;
      var rest := StagingRun(Apply(s, WriteEntry(t, p)), t);
      es := [WriteEntry(t, p)] + rest;
      RunOne(s, es);
      assert es[1..] == rest;
    }
  }

  lemma RenameRun(s: State, t: nat, fails: bool) returns (es: seq<Step>)
    requires At(s, t, Looking)
    ensures Legal(s, es) && Ends(Run(s, es), t, Renamed(s.dirs, s.threads[t].dest, s.threads[t].staged, fails))
  {
    if s.threads[t].dest in s.dirs {
      es := [Look(t), Recheck(t)];
    } else if fails {
      es := [Look(t), RenameFails(t), Recheck(t)];
      RunOne(Apply(Apply(s, Look(t)), RenameFails(t)), es[2..]);
    } else {
      es := [Look(t), Rename(t)];
    }
    RunOne(s, es);
    RunOne(Apply(s, es[0]), es[1..]);
  }

  /** A publish with nothing in between is a run of these steps by one thread. */
  lemma PublishIsARun(s: State, t: nat, dest: string, tree: Tree, overwrite: bool, f: Faults) returns (es: seq<Step>)
    requires t !in s.threads
    ensures Legal(s, es) && Ends(Run(s, es), t, Published(s.dirs, dest, tree, overwrite, f))
  {
    var begin := [BeginPublish(t, dest, overwrite, tree)];
    RunOne(s, begin);
    var s1 := Run(s, begin);
    if f.staging {
      RunOne(s1, [StagingFails(t)]);
      RunJoins(s, begin, [StagingFails(t)]);
      return begin + [StagingFails(t)];
    }
    var staging := StagingRun(s1, t);
    RunJoins(s, begin, staging);
    var last := CheckRun(Run(s1, staging), t, f);
    RunJoins(s, begin + staging, last);
    es := begin + staging + last;
  }

  lemma CheckRun(s: State, t: nat, f: Faults) returns (es: seq<Step>)
    requires At(s, t, Checking) && s.threads[t].job.Artifact?
    ensures Legal(s, es)
    ensures var x := s.threads[t]; Ends(Run(s, es), t, CheckedIn(s.dirs, x.dest, x.staged, x.job.overwrite, f))
  {
    var x := s.threads[t];
    var checked := Apply(s, CheckDest(t));
    var rest;
    if x.dest !in s.dirs {
      rest := RenameRun(checked, t, f.rename);
    } else if !x.job.overwrite {
      rest := [];
    } else if f.displace {
      rest := [DisplaceFails(t)];
      RunOne(checked, rest);
    } else {
      var last := RenameRun(Apply(checked, Displace(t)), t, f.rename);
      rest := [Displace(t)] + last;
      RunOne(checked, rest);
      assert rest[1..] == last;
    }
    es := [CheckDest(t)] + rest;
    RunOne(s, es);
    assert es[1..] == rest;
  }

  /** So is a fork. */
  lemma ForkIsARun(s: State, t: nat, src: string, dest: string, f: Faults) returns (es: seq<Step>)
    requires t !in s.threads
    ensures Legal(s, es) && Ends(Run(s, es), t, Forked(s.dirs, src, dest, f))
  {
    var begin := [BeginFork(t, src, dest)];
    RunOne(s, begin);
    es := begin;
    var s1 := Run(s, begin);
    if s1.threads[t].pc != Staging {
      return;
    }
    if f.staging {
      RunOne(s1, [StagingFails(t)]);
      RunJoins(s, begin, [StagingFails(t)]);
      return begin + [StagingFails(t)];
    }
    var staging := StagingRun(s1, t);
    RunJoins(s, begin, staging);
    var last := RenameRun(Run(s1, staging), t, f.rename);
    RunJoins(s, begin + staging, last);
    es := begin + staging + last;
  }

  class Store {
    var dirs: map<string, Tree>

    constructor ()
      ensures dirs == map[]
    {
      dirs := map[];
    }

    method Publish(dest: string, tree: Tree, overwrite: bool, f: Faults) returns (ok: bool)
      modifies this
      ensures Outcome(dirs, ok) == Published(old(dirs), dest, tree, overwrite, f)
      ensures ok ==> dest in dirs && (overwrite || dest !in old(dirs) ==> dirs[dest] == tree)
      ensures !overwrite && dest in old(dirs) && !f.staging ==> ok && dirs == old(dirs)
      ensures f == Faults(false, false, false) ==> ok
      ensures forall n | n != dest :: (n in dirs <==> n in old(dirs)) && (n in dirs ==> dirs[n] == old(dirs)[n])
    {
      if f.staging {
        return false;
      }
      if dest in dirs {
        if !overwrite {
          return true;
        }
        if f.displace {
          return false;
        }
        dirs := dirs - {dest};
      }
      ok := Rename(dest, tree, f.rename);
    }

    /** os.Rename of a staged tree, with the check that follows its failure. */
    method Rename(dest: string, tree: Tree, fails: bool) returns (ok: bool)
      modifies this
      ensures Outcome(dirs, ok) == Renamed(old(dirs), dest, tree, fails)
    {
      if dest !in dirs && !fails {
        dirs := dirs[dest := tree];
        return true;
      }
      ok := dest in dirs;
    }

    method Fork(src: string, dest: string, f: Faults) returns (ok: bool)
      modifies this
      ensures Outcome(dirs, ok) == Forked(old(dirs), src, dest, f)
      ensures src in old(dirs) ==> src in dirs && dirs[src] == old(dirs)[src]
      ensures ok && dest !in old(dirs) ==> src in dirs && dest in dirs && dirs[dest] == dirs[src]
      ensures dest in old(dirs) ==> ok && dirs == old(dirs)
      ensures dest !in old(dirs) ==> (ok <==> src in old(dirs) && !f.staging && !f.rename)
    {
      if dest in dirs {
        return true;
      }
      if src !in dirs || f.staging {
        return false;
      }
      var copied := dirs[src];
      ok := Rename(dest, copied, f.rename);
    }
  }
}
