/** What whole passes of the watcher ask for and evict, in terms of the tips, the rows and the switch. */
module WatchAnswers {
  import opened Basics
  import opened Globs
  import opened Watch

  predicate NothingFails(w: World, tips: seq<Tip>) {
    (forall c :: !w.fails(c)) && forall t | t in tips :: !w.lookupFails(t.sha)
  }

  /** Some tip of a branch the patterns watch is this commit. */
  ghost predicate IsMatchingTip(env: Env, patterns: string, tips: seq<Tip>, sha: Sha) {
    exists t | t in tips :: t.sha == sha && Matches(env, patterns, t.branch)
  }

  lemma {:induction false} VisitGetsThrough(env: Env, patterns: string, tips: seq<Tip>, local: set<Sha>,
      deploys: seq<Sha>, w: World)
    requires NothingFails(w, tips)
    ensures VisitAll(env, patterns, tips, local, deploys, w).ok
  {
    if tips != [] {
      var rest, sha := tips[1..], tips[0].sha;
      assert forall t | t in rest :: t in tips;
      VisitGetsThrough(env, patterns, rest, local, deploys, w);
      VisitGetsThrough(env, patterns, rest, local, WithDeploy(deploys, sha, w.created(sha)), w);
    }
  }

  /** A pass without failures asks for the matching tips that are outside its baseline and have no row. */
  lemma PassAsksFor(env: Env, r: Repo, row: Row, tips: seq<Tip>, evict: bool, w: World, sha: Sha)
    requires NothingFails(w, tips)
    ensures var o := Reconciled(env, r, row, tips, evict, w);
      && o.ok
      && (sha in o.requested <==>
            sha !in Armed(r, row, tips).baseline && sha !in r.deploys && IsMatchingTip(env, row.patterns, tips, sha))
      && (sha in o.repo.deploys <==> sha in r.deploys || (sha in o.requested && w.created(sha)))
  {
    var local := Armed(r, row, tips).baseline;
    VisitGetsThrough(env, row.patterns, tips, local, r.deploys, w);
    PassAsksForTheWanted(env, row.patterns, tips, local, r.deploys, w, sha);
  }

  // ---- The first passes after switching on ----

  /**
   * Watching was off and is switched on while no pass is in flight. With backfill the first pass asks for exactly
   * the matching tips without a deploy, and without backfill for nothing.
   */
  lemma FirstPassAfterSwitchOn(env: Env, r: Repo, patterns: string, backfill: bool, tips: seq<Tip>, evict: bool,
      w: World, sha: Sha)
    requires !r.row.watch && NothingFails(w, tips)
    ensures var on := Switched(r, true, patterns, backfill);
      var o := Reconciled(env, on, on.row, tips, evict, w);
      && o.ok
      && (sha in o.requested <==> backfill && sha !in r.deploys && IsMatchingTip(env, patterns, tips, sha))
  {
    var on := Switched(r, true, patterns, backfill);
    PassAsksFor(env, on, on.row, tips, evict, w, sha);
    assert forall t | t in tips :: t.sha in Shas(tips);
  }

  /** Without backfill the next pass asks for exactly the matching tips that the first one did not see. */
  lemma NextPassSeesChangesOnly(env: Env, r: Repo, patterns: string, tips: seq<Tip>, evict: bool, w: World,
      later: seq<Tip>, evict': bool, w': World, sha: Sha)
    requires !r.row.watch && NothingFails(w, tips) && NothingFails(w', later)
    ensures var on := Switched(r, true, patterns, false);
      var first := Reconciled(env, on, on.row, tips, evict, w);
      var next := Reconciled(env, first.repo, first.repo.row, later, evict', w');
      && next.ok
      && (sha in next.requested <==>
            sha !in Shas(tips) && sha !in r.deploys && IsMatchingTip(env, patterns, later, sha))
  {
    var on := Switched(r, true, patterns, false);
    var first := Reconciled(env, on, on.row, tips, evict, w);
    FirstPassAfterSwitchOn(env, r, patterns, false, tips, evict, w, sha);
    PassAsksFor(env, on, on.row, tips, evict, w, sha);
    PassAsksFor(env, first.repo, first.repo.row, later, evict', w', sha);
    assert Shas(tips) * Shas(tips) == Shas(tips);
  }

  /** Editing the patterns of a watched repository shows the next pass other branches and the same baseline. */
  lemma EditedPatternsKeepBaseline(env: Env, r: Repo, patterns: string, backfill: bool, tips: seq<Tip>, evict: bool,
      w: World, sha: Sha)
    requires r.row.watch && r.row.baselined && NothingFails(w, tips)
    ensures var edited := Switched(r, true, patterns, backfill);
      var o := Reconciled(env, edited, edited.row, tips, evict, w);
      && o.ok
      && (sha in o.requested <==>
            sha !in r.baseline && sha !in r.deploys && IsMatchingTip(env, patterns, tips, sha))
  {
    var edited := Switched(r, true, patterns, backfill);
    PassAsksFor(env, edited, edited.row, tips, evict, w, sha);
  }

  // ---- What a poll evicts ----

  /** Nothing tells a poll to look at reachability: a pass is remembered, no ref moved, and no row appeared. */
  predicate IsQuiet(r: Repo, mirror: Refs, cache: Option<Pass>, remote: Refs) {
    cache.Some? && !Changed(remote, mirror) && |r.deploys| <= cache.value.maxDeploy
  }

  /**
   * A poll without failures newly marks a deploy exactly if it is not quiet and no tip it works from reaches the
   * commit of this evictable row.
   */
  lemma PollEvictsIff(env: Env, r: Repo, mirror: Refs, cache: Option<Pass>, remote: Refs, w: World, sha: Sha)
    requires r.row.baselined && forall c :: !w.fails(c)
    ensures var p := PollOnce(env, r, r.row, mirror, cache, Some(remote), w);
      var after := if Changed(remote, mirror) then remote else mirror;
      var tips := if cache.Some? && !Changed(remote, mirror) then cache.value.tips else after.tips;
      (forall t :: !w.lookupFails(t)) ==>
      (sha in p.repo.evicted <==>
        || sha in r.evicted
        || (!IsQuiet(r, mirror, cache, remote) && sha in w.evictable && sha in p.repo.deploys &&
            forall t | t in tips :: !env.reaches(t.sha, sha)))
  {
    var after := if Changed(remote, mirror) then remote else mirror;
    var c := Chosen(cache, Changed(remote, mirror), after, r.deploys);
    if forall t :: !w.lookupFails(t) {
      VisitGetsThrough(env, r.row.patterns, c.tips, r.baseline, r.deploys, w);
    }
  }

  /** Whatever fails or not, a quiet poll marks nothing. */
  lemma QuietPollMarksNothing(env: Env, r: Repo, mirror: Refs, cache: Option<Pass>, remote: Refs, w: World)
    requires IsQuiet(r, mirror, cache, remote)
    ensures PollOnce(env, r, r.row, mirror, cache, Some(remote), w).repo.evicted == r.evicted
  {
  }

  /**
   * A deploy that was building when its branch was force-pushed is left to finish, to be caught later. The polls
   * that follow are quiet, and do not catch it when it has become ready, however often they are repeated.
   */
  lemma BuildingDeployIsMissed(env: Env, full: World, quiet: World) returns (r: Repo, refs: Refs)
    requires !env.reaches("c", "d") && env.reaches("c", "c")
    requires NothingFails(full, [Tip("main", "c")]) && full.evictable == {} && quiet.evictable == {"d"}
    ensures r == Repo(Row(true, "", true), {}, ["d", "c"], {}) && refs == Refs([Tip("main", "c")], map[])
    ensures var first := PollOnce(env, r, r.row, refs, None, Some(refs), full);
      && first.repo == r && first.cache == Some(Pass(refs.tips, 2))
      && PollOnce(env, r, r.row, refs, first.cache, Some(refs), quiet) == Polled(r, refs, first.cache, [])
      && "d" in Unreached(env, r, refs.tips, quiet.evictable)
  {
    refs := Refs([Tip("main", "c")], map[]);
    r := Repo(Row(true, "", true), {}, ["d", "c"], {});
    NothingToVisit(env, r, refs.tips, full);
    NothingToVisit(env, r, refs.tips, quiet);
    assert Unreached(env, r, refs.tips, {}) == {};
    assert forall t | t in refs.tips :: t == Tip("main", "c");
  }

  /** One tip that has its row leaves nothing to ask for, unless looking it up fails. */
  lemma NothingToVisit(env: Env, r: Repo, tips: seq<Tip>, w: World)
    requires |tips| == 1 && tips[0].sha in r.deploys
    ensures var v := VisitAll(env, r.row.patterns, tips, r.baseline, r.deploys, w);
      v.deploys == r.deploys && v.requested == [] && (!w.lookupFails(tips[0].sha) ==> v.ok)
  {
    assert tips[1..] == [];
  }
}
