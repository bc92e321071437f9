/**
 * Runs of the watcher over one repository: pushes to the origin, edits of the watch settings, deploys
 * requested by others and restarts, between any two steps of a pass.
 */
module WatchRuns {

  import opened Basics
  import opened Globs
  import opened Watch

  /** How far the pass in flight is. The row is the one read when the pass began. */
  datatype Pc =
    | Idle
    | Listed(row: Row)
    | Fetched(row: Row, changed: bool)
    | Chose(row: Row, changed: bool, tips: seq<Tip>, evict: bool)
    | Visiting(row: Row, changed: bool, tips: seq<Tip>, evict: bool, local: set<Sha>, next: nat)
    | Evicting(row: Row, changed: bool, tips: seq<Tip>)
    | Recording(row: Row, changed: bool, tips: seq<Tip>)
  {
    predicate HasTips() { Chose? || Visiting? || Evicting? || Recording? }

    /** The fetch of this pass moved refs. */
    predicate Moved() { (Fetched? || HasTips()) && changed }
  }

  /** requests: the commits the watcher has asked for so far. */
  datatype State = State(remote: Refs, mirror: Refs, repo: Repo, cache: Option<Pass>, pc: Pc, requests: seq<Sha>)

  datatype Step =
    | Push(refs: Refs)
    | SetWatch(watch: bool, patterns: string, backfill: bool)
    | OutsideFetch             // a deploy requested by branch name fetches the mirror
    | OutsideDeploy(sha: Sha)  // somebody else's deploy row
    | Restart
    | List
    | NotPolled                // a PollAll that skips the repository
    | Fetch
    | Choose
    | Baseline
    | Load
    | Visit(created: bool)
    | Prune
    | Evict(evictable: set<Sha>)
    | Record
    | Fail                     // the pass ends with an error

  predicate Enabled(s: State, e: Step) {
    match e
    case Push(_) => true
    case SetWatch(_, _, _) => true
    case OutsideFetch => true
    case OutsideDeploy(sha) => sha !in s.repo.deploys
    case Restart => true
    case List => s.pc.Idle? && s.repo.row.watch
    case NotPolled => s.pc.Idle?
    case Fetch => s.pc.Listed?
    case Choose => s.pc.Fetched?
    case Baseline => s.pc.Chose? && !s.pc.row.baselined
    case Load => s.pc.Chose? && s.pc.row.baselined
    case Visit(_) => s.pc.Visiting? && s.pc.next < |s.pc.tips|
    case Prune => s.pc.Visiting? && s.pc.next == |s.pc.tips|
    case Evict(_) => s.pc.Evicting?
    case Record => s.pc.Recording?
    case Fail => !s.pc.Idle?
  }

  function FetchMirror(s: State): State {
    if Changed(s.remote, s.mirror) then s.(mirror := s.remote) else s
  }

  /** The pass would ask for the tip now. */
  ghost predicate WantsTip(env: Env, s: State)
    requires s.pc.Visiting? && s.pc.next < |s.pc.tips|
  {
    var tip := s.pc.tips[s.pc.next];
    Matches(env, s.pc.row.patterns, tip.branch) && tip.sha !in s.pc.local && tip.sha !in s.repo.deploys
  }

  ghost function VisitTip(env: Env, s: State, created: bool): State
    requires s.pc.Visiting? && s.pc.next < |s.pc.tips|
  {
    var sha := s.pc.tips[s.pc.next].sha;
    var t := s.(pc := s.pc.(next := s.pc.next + 1));
    if WantsTip(env, s)
    then t.(requests := s.requests + [sha], repo := s.repo.(deploys := WithDeploy(s.repo.deploys, sha, created)))
    else t
  }

  /** The baseline is pruned only by an evicting pass that loaded a non-empty one. */
  function PruneTips(s: State): State
    requires s.pc.Visiting?
  {
    if !s.pc.evict then s.(pc := Recording(s.pc.row, s.pc.changed, s.pc.tips))
    else s.(repo := if s.pc.local != {} then Pruned(s.repo, s.pc.tips) else s.repo,
            pc := Evicting(s.pc.row, s.pc.changed, s.pc.tips))
  }

  ghost function Apply(env: Env, s: State, e: Step): State
    requires Enabled(s, e)
  {
    match e
    case Push(refs) => s.(remote := refs)
    case SetWatch(watch, patterns, backfill) => s.(repo := Switched(s.repo, watch, patterns, backfill))
    case OutsideFetch => FetchMirror(s)
    case OutsideDeploy(sha) => s.(repo := s.repo.(deploys := s.repo.deploys + [sha]))
    case Restart => s.(cache := None, pc := Idle)
    case List => s.(pc := Listed(s.repo.row))
    case NotPolled => s.(cache := None)
    case Fetch => FetchMirror(s).(pc := Fetched(s.pc.row, Changed(s.remote, s.mirror)))
    case Choose =>
      var c := Chosen(s.cache, s.pc.changed, s.mirror, s.repo.deploys);
      s.(pc := Chose(s.pc.row, s.pc.changed, c.tips, c.evict))
    case Baseline =>
      s.(repo := WithBaseline(s.repo, s.pc.tips),
         pc := Chose(s.pc.row.(baselined := true), s.pc.changed, s.pc.tips, s.pc.evict))
    case Load => s.(pc := Visiting(s.pc.row, s.pc.changed, s.pc.tips, s.pc.evict, s.repo.baseline, 0))
    case Visit(created) => VisitTip(env, s, created)
    case Prune => PruneTips(s)
    case Evict(evictable) =>
      s.(repo := Evicted(env, s.repo, s.pc.tips, evictable), pc := Recording(s.pc.row, s.pc.changed, s.pc.tips))
    case Record => s.(cache := Some(Pass(s.pc.tips, |s.repo.deploys|)), pc := Idle)
    case Fail => s.(pc := Idle)
  }

  ghost predicate Legal(env: Env, s: State, es: seq<Step>)
    decreases |es|
  {
    es == [] || (Enabled(s, es[0]) && Legal(env, Apply(env, s, es[0]), es[1..]))
  }

  ghost function Run(env: Env, s: State, es: seq<Step>): State
    requires Legal(env, s, es)
    decreases |es|
  {
    if es == [] then s else Run(env, Apply(env, s, es[0]), es[1..])
  }

  // ---- Commits that were there before watching ----

  /** Watching has been switched on without backfill and no pass has taken the baseline yet. */
  predicate AwaitsBaseline(s: State) {
    && s.repo.row.watch && !s.repo.row.baselined
    && (s.pc.Idle? || ((s.pc.Listed? || s.pc.Fetched? || s.pc.Chose?) && !s.pc.row.baselined))
  }

  /** The commit is in the baseline, and in the copy of the pass in flight. */
  predicate Held(s: State, sha: Sha) {
    && s.repo.row.watch && s.repo.row.baselined && sha in s.repo.baseline
    && (!s.pc.Idle? ==> s.pc.row.baselined)
    && (s.pc.Visiting? ==> sha in s.pc.local)
  }

  /** What does not release a commit: anything but switching watching off and pruning by a pass whose tips lack it. */
  predicate Spares(s: State, e: Step, sha: Sha) {
    && (e.SetWatch? ==> e.watch)
    && (e.Prune? && s.pc.Visiting? && s.pc.evict ==> sha in Shas(s.pc.tips))
  }

  /** No edit of the patterns and no other step releases a held commit, and held commits are not asked for. */
  lemma HeldUntilReleased(env: Env, s: State, e: Step, sha: Sha)
    requires Held(s, sha) && Enabled(s, e)
    ensures Held(Apply(env, s, e), sha) <==> Spares(s, e, sha)
    ensures s.requests <= Apply(env, s, e).requests
    ensures sha !in Apply(env, s, e).requests[|s.requests|..]
  {
  }

  ghost predicate AllSpare(env: Env, s: State, es: seq<Step>, sha: Sha)
    requires Legal(env, s, es)
    decreases |es|
  {
    es == [] || (Spares(s, es[0], sha) && AllSpare(env, Apply(env, s, es[0]), es[1..], sha))
  }

  lemma {:induction false} HeldIsNeverRequested(env: Env, s: State, es: seq<Step>, sha: Sha)
    requires Held(s, sha) && Legal(env, s, es) && AllSpare(env, s, es, sha)
    ensures var t := Run(env, s, es); Held(t, sha) && s.requests <= t.requests && sha !in t.requests[|s.requests|..]
    decreases |es|
  {
    if es != [] {
      HeldUntilReleased(env, s, es[0], sha);
      HeldIsNeverRequested(env, Apply(env, s, es[0]), es[1..], sha);
    }
  }

  /** Before the baseline is taken nothing is asked for, whatever else happens. */
  lemma {:induction false} ArmedRequestsNothing(env: Env, s: State, es: seq<Step>)
    requires AwaitsBaseline(s) && Legal(env, s, es) && forall e | e in es :: !e.Baseline? && (e.SetWatch? ==> e.watch)
    ensures AwaitsBaseline(Run(env, s, es)) && Run(env, s, es).requests == s.requests
    decreases |es|
  {
    if es != [] {
      assert es[0] in es && forall e | e in es[1..] :: e in es;
      ArmedRequestsNothing(env, Apply(env, s, es[0]), es[1..]);
    }
  }

  /**
   * Watching is switched on without backfill while no pass is in flight. Until it is switched off again,
   * nothing is asked for before the first pass, and a tip of that pass is not asked for before a pass
   * prunes the baseline with tips that lack it.
   */
  lemma OldTipsAreNotDeployed(env: Env, s: State, patterns: string, before: seq<Step>, after: seq<Step>, sha: Sha)
    requires s.pc.Idle? && !s.repo.row.watch
    requires var on := Apply(env, s, SetWatch(true, patterns, false));
      && Legal(env, on, before) && (forall e | e in before :: !e.Baseline? && (e.SetWatch? ==> e.watch))
      && var first := Run(env, on, before);
      && Enabled(first, Baseline) && sha in Shas(first.pc.tips)
      && Legal(env, Apply(env, first, Baseline), after) && AllSpare(env, Apply(env, first, Baseline), after, sha)
    ensures var on := Apply(env, s, SetWatch(true, patterns, false));
      var first := Run(env, on, before);
      var end := Run(env, Apply(env, first, Baseline), after);
      first.requests == s.requests && s.requests <= end.requests && sha !in end.requests[|s.requests|..]
  {
    var on := Apply(env, s, SetWatch(true, patterns, false));
    ArmedRequestsNothing(env, on, before);
    HeldIsNeverRequested(env, Apply(env, Run(env, on, before), Baseline), after, sha);
  }

  /**
   * Every commit asked for in a run was, at that moment, a matching tip of the pass, outside its baseline and
   * without a deploy row.
   */
  lemma {:induction false} RequestsWereWanted(env: Env, s: State, es: seq<Step>, sha: Sha) returns (k: nat)
    requires Legal(env, s, es) && sha in Run(env, s, es).requests && sha !in s.requests
    ensures k < |es| && Legal(env, s, es[..k])
    ensures var u := Run(env, s, es[..k]);
      && u.pc.Visiting? && es[k].Visit? && u.pc.next < |u.pc.tips|
      && u.pc.tips[u.pc.next].sha == sha && WantsTip(env, u)
    decreases |es|
  {
    var t := Apply(env, s, es[0]);
    if sha in t.requests {
      k := 0;
    } else {
      k := RequestsWereWanted(env, t, es[1..], sha);
      k := k + 1;
      assert es[..k][0] == es[0] && es[..k][1..] == es[1..][..k - 1];
    }
  }

  // ---- A pass without interleaving ----

  /** The state after the loop over the rest of the tips. */
  ghost function VisitedRest(env: Env, s: State, w: World): State
    requires s.pc.Visiting? && s.pc.next <= |s.pc.tips|
  {
    var v := VisitAll(env, s.pc.row.patterns, s.pc.tips[s.pc.next..], s.pc.local, s.repo.deploys, w);
    s.(repo := s.repo.(deploys := v.deploys), requests := s.requests + v.requested,
       pc := if v.ok then s.pc.(next := |s.pc.tips|) else Idle)
  }

  /** One visit takes the loop one tip further. */
  lemma VisitNext(env: Env, s: State, w: World)
    requires s.pc.Visiting? && s.pc.next < |s.pc.tips|
    requires var tip := s.pc.tips[s.pc.next];
      Matches(env, s.pc.row.patterns, tip.branch) && tip.sha !in s.pc.local ==> !w.lookupFails(tip.sha)
    ensures VisitedRest(env, s, w) == VisitedRest(env, VisitTip(env, s, w.created(s.pc.tips[s.pc.next].sha)), w)
  {
    var i := s.pc.next;
    var tip := s.pc.tips[i];
    assert s.pc.tips[i..][0] == tip && s.pc.tips[i..][1..] == s.pc.tips[i + 1..];
    var t := VisitTip(env, s, w.created(tip.sha));
    var v' := VisitAll(env, s.pc.row.patterns, s.pc.tips[i + 1..], s.pc.local, t.repo.deploys, w);
    assert s.requests + [tip.sha] + v'.requested == s.requests + ([tip.sha] + v'.requested);
  }

  /** Visiting the rest of the tips is the loop of a whole pass. */
  lemma {:induction false} VisitRun(env: Env, s: State, w: World) returns (es: seq<Step>)
    requires s.pc.Visiting? && s.pc.next <= |s.pc.tips|
    ensures Legal(env, s, es)
    ensures Run(env, s, es) == VisitedRest(env, s, w)
    decreases if s.pc.Visiting? then |s.pc.tips| - s.pc.next else 0
  {
    if s.pc.next == |s.pc.tips| {
      es := [];
      assert s.requests + [] == s.requests;
    } else {
      var i := s.pc.next;
      var tip := s.pc.tips[i];
      assert s.pc.tips[i..][0] == tip && s.pc.tips[i..][1..] == s.pc.tips[i + 1..];
      if Matches(env, s.pc.row.patterns, tip.branch) && tip.sha !in s.pc.local && w.lookupFails(tip.sha) {
        es := [Fail];
        Unfold1(env, s, es);
        assert es[1..] == [] && s.requests + [] == s.requests;
      } else {
        var e := Visit(w.created(tip.sha));
        VisitNext(env, s, w);
        var rest := VisitRun(env, Apply(env, s, e), w);
        es := [e] + rest;
        assert es[1..] == rest;
        Unfold1(env, s, es);
      }
    }
  }

  lemma {:induction false} RunJoins(env: Env, s: State, a: seq<Step>, b: seq<Step>)
    requires Legal(env, s, a) && Legal(env, Run(env, s, a), b)
    ensures Legal(env, s, a + b) && Run(env, s, a + b) == Run(env, Run(env, s, a), b)
    decreases |a|
  {
    if a == [] {
      assert a + b == b;
    } else {
      RunJoins(env, Apply(env, s, a[0]), a[1..], b);
      assert (a + b)[0] == a[0] && (a + b)[1..] == a[1..] + b;
    }
  }

  /** The end of a pass: what reconciling whole tables leaves is what these steps leave. */
  lemma FinishRun(env: Env, s: State, w: World) returns (es: seq<Step>)
    requires s.pc.Visiting? && s.pc.next == |s.pc.tips|
    ensures Legal(env, s, es)
    ensures var o := Finished(env, s.repo, s.pc.local, s.pc.tips, s.pc.evict, w);
      Run(env, s, es) == s.(repo := o.repo, pc := Idle,
                            cache := if o.ok then Some(Pass(s.pc.tips, |o.repo.deploys|)) else s.cache)
  {
    if !s.pc.evict {
      es := if w.fails(LatestDeploy) then [Prune, Fail] else [Prune, Record];
    } else if s.pc.local != {} && w.fails(PruneBaseline) {
      es := [Fail];
    } else if w.fails(EvictUnreachable) {
      es := [Prune, Fail];
    } else {
      es := [Prune, Evict(w.evictable), if w.fails(LatestDeploy) then Fail else Record];
    }
    Unfold(env, s, es);
  }

  /** Runs of up to three steps, unfolded. */
  lemma Unfold(env: Env, s: State, es: seq<Step>)
    requires 1 <= |es| <= 3
    ensures Legal(env, s, es) <==> Enabled(s, es[0]) && var t := Apply(env, s, es[0]);
      |es| == 1 || (Enabled(t, es[1]) && (|es| == 2 || Enabled(Apply(env, t, es[1]), es[2])))
    ensures Legal(env, s, es) ==> Run(env, s, es) == (var t := Apply(env, s, es[0]);
      if |es| == 1 then t else var u := Apply(env, t, es[1]); if |es| == 2 then u else Apply(env, u, es[2]))
  {
    Unfold1(env, s, es);
    if |es| > 1 && Enabled(s, es[0]) {
      var t := Apply(env, s, es[0]);
      Unfold1(env, t, es[1..]);
      if |es| > 2 && Enabled(t, es[1]) {
        Unfold1(env, Apply(env, t, es[1]), es[1..][1..]);
      }
    }
  }

  lemma Unfold1(env: Env, s: State, es: seq<Step>)
    requires es != []
    ensures Legal(env, s, es) <==> Enabled(s, es[0]) && Legal(env, Apply(env, s, es[0]), es[1..])
    ensures Legal(env, s, es) ==> Run(env, s, es) == Run(env, Apply(env, s, es[0]), es[1..])
  {
  }

  /** Reconciling on whole tables is a run of the steps. */
  lemma ReconcileIsARun(env: Env, s: State, w: World) returns (es: seq<Step>)
    requires s.pc.Chose?
    ensures Legal(env, s, es)
    ensures var o := Reconciled(env, s.repo, s.pc.row, s.pc.tips, s.pc.evict, w);
      Run(env, s, es) == s.(repo := o.repo, requests := s.requests + o.requested, pc := Idle,
                            cache := if o.ok then Some(Pass(s.pc.tips, |o.repo.deploys|)) else s.cache)
  {
    assert s.requests + [] == s.requests;
    if !s.pc.row.baselined && w.fails(SetBaseline) {
      es := [Fail];
      Unfold(env, s, es);
    } else if w.fails(LoadBaseline) {
      es := if s.pc.row.baselined then [Fail] else [Baseline, Fail];
      Unfold(env, s, es);
    } else {
      var load := if s.pc.row.baselined then [Load] else [Baseline, Load];
      Unfold(env, s, load);
      var loaded := Run(env, s, load);
      var visits := VisitRun(env, loaded, w);
      RunJoins(env, s, load, visits);
      es := load + visits;
      assert loaded.pc.tips[0..] == s.pc.tips;
      var end := Run(env, s, es);
      if !end.pc.Idle? {
        var finish := FinishRun(env, end, w);
        RunJoins(env, s, es, finish);
        es := es + finish;
      }
    }
  }

  // ---- The rest of a pass ----

  /** A pass that has its tips to go through still. */
  predicate HasTipsLeft(s: State) {
    s.pc.Chose? || (s.pc.Visiting? && s.pc.next <= |s.pc.tips|)
  }

  function TipsLeft(s: State): seq<Tip>
    requires HasTipsLeft(s)
  {
    if s.pc.Chose? then s.pc.tips else s.pc.tips[s.pc.next..]
  }

  /** The baseline the pass goes by: the copy it loaded, or what it is about to take or load. */
  function BaselineOf(s: State): set<Sha>
    requires HasTipsLeft(s)
  {
    if s.pc.Visiting? then s.pc.local else Armed(s.repo, s.pc.row, s.pc.tips).baseline
  }

  /** What the rest of the pass comes to with nothing in between. */
  ghost function Rest(env: Env, s: State, w: World): Outcome
    requires HasTipsLeft(s)
  {
    if s.pc.Chose? then Reconciled(env, s.repo, s.pc.row, s.pc.tips, s.pc.evict, w)
    else
      var v := VisitAll(env, s.pc.row.patterns, TipsLeft(s), s.pc.local, s.repo.deploys, w);
      var r := s.repo.(deploys := v.deploys);
      if !v.ok then Outcome(r, v.requested, false)
      else Finished(env, r, s.pc.local, s.pc.tips, s.pc.evict, w).(requested := v.requested)
  }

  /** It is a run of the steps, from either place. */
  lemma RestIsARun(env: Env, s: State, w: World) returns (es: seq<Step>)
    requires HasTipsLeft(s)
    ensures Legal(env, s, es)
    ensures var o := Rest(env, s, w);
      Run(env, s, es) == s.(repo := o.repo, requests := s.requests + o.requested, pc := Idle,
                            cache := if o.ok then Some(Pass(s.pc.tips, |o.repo.deploys|)) else s.cache)
  {
    if s.pc.Chose? {
      es := ReconcileIsARun(env, s, w);
    } else {
      es := VisitRun(env, s, w);
      var end := Run(env, s, es);
      if !end.pc.Idle? {
        var finish := FinishRun(env, end, w);
        RunJoins(env, s, es, finish);
        es := es + finish;
      }
    }
  }

  /** Every matching tip that is left is known or has a deploy row. */
  ghost predicate AllDeployed(env: Env, s: State, known: set<Sha>)
    requires HasTipsLeft(s)
  {
    forall t | t in TipsLeft(s) && Matches(env, s.pc.row.patterns, t.branch) ::
      t.sha in known || t.sha in s.repo.deploys
  }

  /**
   * Wherever it is, the rest of a pass asks for nothing exactly if every matching tip left is in its baseline or
   * has a deploy row; a failing call can only spare requests.
   */
  lemma RestAsksNothingIff(env: Env, s: State, w: World)
    requires HasTipsLeft(s)
    ensures AllDeployed(env, s, BaselineOf(s)) ==> Rest(env, s, w).requested == []
    ensures Rest(env, s, w).ok && Rest(env, s, w).requested == [] ==> AllDeployed(env, s, BaselineOf(s))
  {
    var row, left, local, deploys := s.pc.row, TipsLeft(s), BaselineOf(s), s.repo.deploys;
    var v := VisitAll(env, row.patterns, left, local, deploys, w);
    if v.requested != [] {
      PassAsksForTheWanted(env, row.patterns, left, local, deploys, w, v.requested[0]);
    } else if v.ok {
      forall t | t in left && Matches(env, row.patterns, t.branch) ensures t.sha in local || t.sha in deploys {
        PassAsksForTheWanted(env, row.patterns, left, local, deploys, w, t.sha);
      }
    }
  }

  // ---- Watching switched on under a pass ----

  /** A pass that has read its row, at any place before its last request. */
  predicate Underway(s: State) {
    s.pc.Listed? || s.pc.Fetched? || HasTipsLeft(s)
  }

  /** The steps that bring it to its tips. */
  function Ahead(s: State): seq<Step> {
    if s.pc.Listed? then [Fetch, Choose] else if s.pc.Fetched? then [Choose] else []
  }

  /** A pass under way when watching is switched on will still fetch and choose, if it has not. */
  lemma SwitchedReachesTips(env: Env, s: State, patterns: string, backfill: bool) returns (t: State)
    requires Underway(s) && !s.repo.row.watch
    ensures var on := Apply(env, s, SetWatch(true, patterns, backfill));
      Legal(env, on, Ahead(s)) && t == Run(env, on, Ahead(s)) && HasTipsLeft(t)
    ensures t.pc.row == s.pc.row && t.requests == s.requests && t.repo == Switched(s.repo, true, patterns, backfill)
    ensures s.pc.Visiting? ==> t.pc == s.pc
    ensures !s.pc.Visiting? ==> t.pc.Chose?
  {
    var on := Apply(env, s, SetWatch(true, patterns, backfill));
    if Ahead(s) != [] { Unfold(env, on, Ahead(s)); }
    t := Run(env, on, Ahead(s));
  }

  /**
   * A pass that read its row before watching was switched on, wherever it is then. If it has not loaded its
   * baseline it asks for nothing exactly when that row was waiting for its baseline too, or no matching tip
   * lacks a deploy row; if it has, exactly when the matching tips it has not come to are in the copy it loaded
   * or have a deploy row. A failing call can only spare requests.
   */
  lemma SwitchUnderAPass(env: Env, s: State, patterns: string, backfill: bool, w: World) returns (t: State)
    requires Underway(s) && !s.repo.row.watch
    ensures var on := Apply(env, s, SetWatch(true, patterns, backfill));
      Legal(env, on, Ahead(s)) && t == Run(env, on, Ahead(s)) && HasTipsLeft(t) && t.requests == s.requests
    ensures var o := Rest(env, t, w);
      var nothing := if s.pc.Visiting? then AllDeployed(env, t, s.pc.local)
                     else !s.pc.row.baselined || AllDeployed(env, t, {});
      (nothing ==> o.requested == []) && (o.ok && o.requested == [] ==> nothing)
  {
    t := SwitchedReachesTips(env, s, patterns, backfill);
    RestAsksNothingIff(env, t, w);
    assert t.pc.Chose? ==> forall tip | tip in t.pc.tips :: tip.sha in Shas(t.pc.tips);
  }

  /** Without patterns every branch matches. */
  lemma NoPatternsMatch(env: Env, branch: string)
    ensures Matches(env, "", branch)
  {
    assert Split("", ',') == [""] && Trim(env.space, "") == "" && TrimAll(env.space, [""][1..]) == [];
    assert SplitPatterns(env.space, "") == [];
  }

  /** Turned off and on during a pass, watching loads an empty baseline into it. */
  lemma OffAndOn(env: Env, s: State) returns (es: seq<Step>)
    requires s.pc.Chose? && s.pc.row.baselined && s.repo.row.watch
    ensures es == [SetWatch(false, "", false), SetWatch(true, "", false), Load] && Legal(env, s, es)
    ensures var t := Run(env, s, es);
      && t.pc == Visiting(s.pc.row, s.pc.changed, s.pc.tips, s.pc.evict, {}, 0)
      && t.repo.deploys == s.repo.deploys && t.requests == s.requests
  {
    es := [SetWatch(false, "", false), SetWatch(true, "", false), Load];
    Unfold(env, s, es);
  }

  /** Such a request does happen: watching is turned off and on again while a pass is under way. */
  lemma OffAndOnDeploysOldTips(env: Env) returns (s: State, es: seq<Step>)
    ensures s.pc.Idle? && Held(s, "c") && s.requests == []
    ensures es == [List, Fetch, Choose, SetWatch(false, "", false), SetWatch(true, "", false), Load, Visit(true)]
    ensures Legal(env, s, es) && Run(env, s, es).requests == ["c"]
  {
    var refs := Refs([Tip("main", "c")], map[]);
    s := State(refs, refs, Repo(Row(true, "", true), {"c"}, [], {}), None, Idle, []);
    var a := [List, Fetch, Choose];
    Unfold(env, s, a);
    var chose := Run(env, s, a);
    var b := OffAndOn(env, chose);
    RunJoins(env, s, a, b);
    VisitsMain(env, Run(env, chose, b));
    RunJoins(env, s, a + b, [Visit(true)]);
    es := a + b + [Visit(true)];
  }

  lemma VisitsMain(env: Env, s: State)
    requires s.pc.Visiting? && s.pc.tips == [Tip("main", "c")] && s.pc.row.patterns == "" && s.pc.next == 0
    requires s.pc.local == {} && s.repo.deploys == [] && s.requests == []
    ensures Legal(env, s, [Visit(true)]) && Run(env, s, [Visit(true)]).requests == ["c"]
  {
    NoPatternsMatch(env, "main");
    Unfold(env, s, [Visit(true)]);
  }

  /** And when the pass has loaded its baseline before, as it was while every tip was to be deployed. */
  lemma LoadedPassDeploysOldTips(env: Env) returns (s: State, es: seq<Step>)
    ensures s.pc.Idle? && s.repo.row.watch && s.repo.baseline == {} && s.requests == [] && s.mirror == s.remote
    ensures es == [List, Fetch, Choose, Load, SetWatch(false, "", false), SetWatch(true, "", false), Visit(true)]
    ensures Legal(env, s, es[..6])
    ensures var on := Run(env, s, es[..6]); !on.repo.row.baselined && on.pc.Visiting? && "c" in Shas(on.pc.tips)
    ensures Legal(env, s, es) && Run(env, s, es).requests == ["c"]
  {
    var refs := Refs([Tip("main", "c")], map[]);
    s := State(refs, refs, Repo(Row(true, "", true), {}, [], {}), None, Idle, []);
    var a, b := [List, Fetch, Choose], [Load, SetWatch(false, "", false), SetWatch(true, "", false)];
    Unfold(env, s, a);
    var chose := Run(env, s, a);
    Unfold(env, chose, b);
    RunJoins(env, s, a, b);
    VisitsMain(env, Run(env, chose, b));
    RunJoins(env, s, a + b, [Visit(true)]);
    es := a + b + [Visit(true)];
    assert es[..6] == a + b;
  }

  // ---- Quiet polls ----

  /** The cached pass and the pass in flight have the tips the mirror has, the cache until a pass brings others. */
  predicate InSync(s: State) {
    && (s.pc.HasTips() ==> s.pc.tips == s.mirror.tips)
    && (s.cache.Some? && !s.pc.Moved() ==> s.cache.value.tips == s.mirror.tips)
  }

  /**
   * A fetch by somebody else that moves branches while tips are remembered, or the failure of a pass after its
   * own fetch moved some and before it recorded them.
   */
  predicate Disturbs(s: State, e: Step) {
    || (e.OutsideFetch? && FetchMirror(s).mirror.tips != s.mirror.tips &&
        (s.pc.HasTips() || (s.cache.Some? && !s.pc.Moved())))
    || (e.Fail? && s.pc.Moved() && s.cache.Some? && s.cache.value.tips != s.mirror.tips)
  }

  /** These are the only two steps after which remembered tips are wrong. */
  lemma SyncUntilDisturbed(env: Env, s: State, e: Step)
    requires InSync(s) && Enabled(s, e)
    ensures InSync(Apply(env, s, e)) <==> !Disturbs(s, e)
  {
  }

  ghost predicate Undisturbed(env: Env, s: State, es: seq<Step>)
    requires Legal(env, s, es)
    decreases |es|
  {
    es == [] || (!Disturbs(s, es[0]) && Undisturbed(env, Apply(env, s, es[0]), es[1..]))
  }

  lemma {:induction false} RunKeepsSync(env: Env, s: State, es: seq<Step>)
    requires InSync(s) && Legal(env, s, es) && Undisturbed(env, s, es)
    ensures InSync(Run(env, s, es))
    decreases |es|
  {
    if es != [] {
      SyncUntilDisturbed(env, s, es[0]);
      RunKeepsSync(env, Apply(env, s, es[0]), es[1..]);
    }
  }

  predicate HasRefs(r: Refs) {
    r.tips != [] || r.others != map[]
  }

  /**
   * After an undisturbed run a poll that fetches and chooses works from the origin's tips, quiet or not, exactly
   * if the origin has refs or the mirror has no tips either.
   */
  lemma PollSeesTheOrigin(env: Env, s: State, es: seq<Step>)
    requires s.pc.Idle? && s.cache.None?
    requires Legal(env, s, es) && Undisturbed(env, s, es) && Run(env, s, es).pc.Listed?
    ensures var t := Run(env, s, es);
      && Legal(env, t, [Fetch, Choose])
      && (Run(env, t, [Fetch, Choose]).pc.tips == t.remote.tips <==> HasRefs(t.remote) || t.mirror.tips == [])
  {
    RunKeepsSync(env, s, es);
    Unfold(env, Run(env, s, es), [Fetch, Choose]);
  }

  /**
   * The condition is exact for any state: a poll misses the origin's tips only on a fetch that reports nothing,
   * with other tips remembered, or with none remembered and other tips left in the mirror.
   */
  lemma QuietPollExact(env: Env, t: State)
    requires t.pc.Listed?
    ensures Legal(env, t, [Fetch, Choose])
    ensures Run(env, t, [Fetch, Choose]).pc.tips == t.remote.tips <==>
      if HasRefs(t.remote) then t.remote != t.mirror || t.cache.None? || t.cache.value.tips == t.mirror.tips
      else if t.cache.Some? then t.cache.value.tips == [] else t.mirror.tips == []
  {
    Unfold(env, t, [Fetch, Choose]);
  }

  // ---- An origin that loses its refs ----

  /** The origin has no refs, and everything that is remembered is the mirror as it was. */
  predicate Emptied(s: State, mirror: Refs) {
    && !HasRefs(s.remote) && s.mirror == mirror
    && (s.pc.HasTips() ==> s.pc.tips == mirror.tips)
    && (s.cache.Some? ==> s.cache.value.tips == mirror.tips)
  }

  ghost predicate NothingPushed(es: seq<Step>) {
    forall i | 0 <= i < |es| && es[i].Push? :: !HasRefs(es[i].refs)
  }

  /**
   * An origin from which every ref was deleted is read as one where nothing changed. As long as nothing is pushed,
   * no poll, full or quiet, marks the deploy of a commit that the old tips reach.
   */
  lemma {:induction false} EmptiedOriginReclaimsNothing(env: Env, s: State, es: seq<Step>, mirror: Refs, sha: Sha)
    requires Emptied(s, mirror) && Legal(env, s, es) && NothingPushed(es)
    requires Reached(env, mirror.tips, sha) && sha !in s.repo.evicted
    ensures Emptied(Run(env, s, es), mirror) && sha !in Run(env, s, es).repo.evicted
    decreases |es|
  {
    if es != [] {
      var t := Apply(env, s, es[0]);
      assert es[0].Push? ==> !HasRefs(es[0].refs);
      assert Emptied(t, mirror) && sha !in t.repo.evicted;
      assert forall i | 0 <= i < |es[1..]| :: es[1..][i] == es[i + 1];
      EmptiedOriginReclaimsNothing(env, t, es[1..], mirror, sha);
    }
  }

  /** It happens without any disturbance: the only branch is deleted, and the next poll still works from it. */
  lemma EmptiedOriginKeepsItsTips(env: Env) returns (s: State, es: seq<Step>)
    ensures s.pc.Idle? && s.cache.None? && s.mirror.tips == [Tip("main", "c")] && s.repo.deploys == ["c"]
    ensures es == [Push(Refs([], map[])), List] && Legal(env, s, es) && Undisturbed(env, s, es)
    ensures var t := Run(env, s, es);
      && Emptied(t, s.mirror) && t.remote.tips == []
      && Legal(env, t, [Fetch, Choose]) && Run(env, t, [Fetch, Choose]).pc.tips == [Tip("main", "c")]
  {
    var refs := Refs([Tip("main", "c")], map[]);
    s := State(refs, refs, Repo(Row(true, "", true), {}, ["c"], {}), None, Idle, []);
    es := [Push(Refs([], map[])), List];
    Unfold(env, s, es);
    assert es[1..] == [List] && es[1..][1..] == [];
    Unfold(env, Run(env, s, es), [Fetch, Choose]);
  }

  /**
   * A push whose refs somebody else's fetch brings in is missed: the poll that follows asks for nothing
   * and remembers the old tips once more.
   */
  lemma OutsideFetchHidesAPush(env: Env) returns (s: State, push: Refs, t: State)
    ensures s.pc.Idle? && s.cache.Some? && InSync(s) && s.repo.row == Row(true, "", true)
    ensures push.tips == [Tip("main", "d")] && "d" !in s.repo.baseline && "d" !in s.repo.deploys
    ensures Legal(env, s, [Push(push), OutsideFetch]) && t == Run(env, s, [Push(push), OutsideFetch])
    ensures forall w: World :: Missed(env, t, "d", w)
  {
    var refs := Refs([Tip("main", "c")], map[]);
    push := Refs([Tip("main", "d")], map[]);
    s := State(refs, refs, Repo(Row(true, "", true), {"c"}, [], {}), Some(Pass(refs.tips, 0)), Idle, []);
    Unfold(env, s, [Push(push), OutsideFetch]);
    t := Run(env, s, [Push(push), OutsideFetch]);
    assert refs.tips[0] != push.tips[0];
    forall w: World ensures Missed(env, t, "d", w) {
      assert t.remote == t.mirror == push && t.cache == Some(Pass(refs.tips, 0));
      assert refs.tips[1..] == [] && VisitAll(env, "", refs.tips, {"c"}, [], w) == Visited([], [], true);
    }
  }

  /** A poll leaves the commit, a branch tip of the mirror, without a request, and everything as it was. */
  ghost predicate Missed(env: Env, t: State, sha: Sha, w: World) {
    sha in Shas(t.mirror.tips) && sha !in t.repo.deploys &&
    PollOnce(env, t.repo, t.repo.row, t.mirror, t.cache, Some(t.remote), w) == Polled(t.repo, t.mirror, t.cache, [])
  }

  /** A pass that fails after its fetch loses the push in the same way. */
  lemma FailedPassHidesAPush(env: Env) returns (s: State, push: Refs, t: State)
    ensures s.pc.Idle? && s.cache.Some? && InSync(s) && s.repo.row == Row(true, "", true)
    ensures push.tips == [Tip("main", "d")] && "d" !in s.repo.baseline && "d" !in s.repo.deploys
    ensures Legal(env, s, [Push(push), List, Fetch]) && Legal(env, Run(env, s, [Push(push), List, Fetch]), [Fail])
    ensures t == Run(env, Run(env, s, [Push(push), List, Fetch]), [Fail])
    ensures forall w: World :: Missed(env, t, "d", w)
  {
    var refs := Refs([Tip("main", "c")], map[]);
    push := Refs([Tip("main", "d")], map[]);
    s := State(refs, refs, Repo(Row(true, "", true), {"c"}, [], {}), Some(Pass(refs.tips, 0)), Idle, []);
    Unfold(env, s, [Push(push), List, Fetch]);
    var u := Run(env, s, [Push(push), List, Fetch]);
    assert refs.tips[0] != push.tips[0];
    Unfold(env, u, [Fail]);
    t := Run(env, u, [Fail]);
    forall w: World ensures Missed(env, t, "d", w) {
      assert t.remote == t.mirror == push && t.cache == Some(Pass(refs.tips, 0));
      assert refs.tips[1..] == [] && VisitAll(env, "", refs.tips, {"c"}, [], w) == Visited([], [], true);
    }
  }

  // ---- What eviction spares ----

  /** Eviction against these tips marks no deploy that a tip of the mirror reaches. */
  ghost predicate SparesLive(env: Env, r: Repo, tips: seq<Tip>, mirror: seq<Tip>, evictable: set<Sha>) {
    forall sha | sha in Unreached(env, r, tips, evictable) :: !Reached(env, mirror, sha)
  }

  /** Every tip of the mirror is in the history of a tip of the pass. */
  predicate Covers(env: Env, tips: seq<Tip>, mirror: seq<Tip>) {
    forall t | t in mirror :: Reached(env, tips, t.sha)
  }

  ghost predicate IsHistory(env: Env) {
    && (forall c :: env.reaches(c, c))
    && (forall a, b, c | env.reaches(a, b) && env.reaches(b, c) :: env.reaches(a, c))
  }

  lemma CoveredReach(env: Env, tips: seq<Tip>, mirror: seq<Tip>, sha: Sha)
    requires IsHistory(env) && Covers(env, tips, mirror) && Reached(env, mirror, sha)
    ensures Reached(env, tips, sha)
  {
    var t :| t in mirror && env.reaches(t.sha, sha);
    var u :| u in tips && env.reaches(u.sha, t.sha);
    assert env.reaches(u.sha, sha);
  }

  /** Whatever the deploys, eviction spares the live ones exactly if the pass's tips cover the mirror's. */
  lemma EvictionSparesLiveIff(env: Env, tips: seq<Tip>, mirror: seq<Tip>)
    requires IsHistory(env)
    ensures (forall r, evictable :: SparesLive(env, r, tips, mirror, evictable)) <==> Covers(env, tips, mirror)
  {
    if Covers(env, tips, mirror) {
      forall r, evictable ensures SparesLive(env, r, tips, mirror, evictable) {
        forall sha | Reached(env, mirror, sha) ensures Reached(env, tips, sha) {
          CoveredReach(env, tips, mirror, sha);
        }
      }
    } else {
      var t :| t in mirror && !Reached(env, tips, t.sha);
      var r := Repo(Row(true, "", true), {}, [t.sha], {});
      assert env.reaches(t.sha, t.sha) && t.sha in Unreached(env, r, tips, {t.sha});
      assert !SparesLive(env, r, tips, mirror, {t.sha});
    }
  }

  /** After an undisturbed run no eviction marks the deploy of a commit a mirror tip reaches. */
  lemma UndisturbedEvictionSparesLive(env: Env, s: State, es: seq<Step>, evictable: set<Sha>)
    requires s.pc.Idle? && s.cache.None?
    requires Legal(env, s, es) && Undisturbed(env, s, es) && Run(env, s, es).pc.Evicting?
    ensures var t := Run(env, s, es); SparesLive(env, t.repo, t.pc.tips, t.mirror.tips, evictable)
  {
    RunKeepsSync(env, s, es);
  }

  /** One repository on main, watched, with a baselined first commit and a pass over it remembered. */
  function Remembering(remote: Refs, mirror: Refs, deploys: seq<Sha>): State {
    State(remote, mirror, Repo(Row(true, "", true), {"c"}, deploys, {}), Some(Pass([Tip("main", "c")], 0)), Idle, [])
  }

  /** A quiet poll over the remembered tip, with a deploy row it has not seen, evicts that deploy. */
  lemma QuietPollEvicts(env: Env, now: Refs) returns (poll: seq<Step>)
    requires !env.reaches("c", "d")
    ensures var t := Remembering(now, now, ["d"]);
      Legal(env, t, poll) && Evict({"d"}) in poll && "d" in Run(env, t, poll).repo.evicted &&
        Run(env, t, poll).mirror == now
  {
    var tips := [Tip("main", "c")];
    var t := Remembering(now, now, ["d"]);
    var a, b := [List, Fetch, Choose], [Load, Visit(true), Prune];
    Unfold(env, t, a);
    var chose := t.(pc := Chose(Row(true, "", true), false, tips, true));
    assert Run(env, t, a) == chose;
    Unfold(env, chose, b);
    RunJoins(env, t, a, b);
    var pruned := Run(env, chose, b);
    Unfold(env, pruned, [Evict({"d"})]);
    RunJoins(env, t, a + b, [Evict({"d"})]);
    poll := a + b + [Evict({"d"})];
    assert poll[6] == Evict({"d"});
    assert !Reached(env, tips, "d");
  }

  /**
   * Disturbed, it can: somebody asks for a deploy by branch name, which fetches the branch's new commit, and
   * the quiet poll that follows evicts that deploy, judging it by the tips it remembers.
   */
  lemma OutsideDeployIsEvicted(env: Env) returns (s: State, es: seq<Step>, poll: seq<Step>)
    requires !env.reaches("c", "d")
    ensures s.pc.Idle? && s.cache.Some? && InSync(s)
    ensures es == [Push(Refs([Tip("main", "d")], map[])), OutsideFetch, OutsideDeploy("d")] && Legal(env, s, es)
    ensures Legal(env, Run(env, s, es), poll)
    ensures var t := Run(env, Run(env, s, es), poll); t.mirror.tips == [Tip("main", "d")] && "d" in t.repo.evicted
  {
    var refs, push := Refs([Tip("main", "c")], map[]), Refs([Tip("main", "d")], map[]);
    s := Remembering(refs, refs, []);
    es := [Push(push), OutsideFetch, OutsideDeploy("d")];
    assert refs.tips[0] != push.tips[0];
    Unfold(env, s, es);
    assert Run(env, s, es) == Remembering(push, push, ["d"]);
    poll := QuietPollEvicts(env, push);
  }
}
