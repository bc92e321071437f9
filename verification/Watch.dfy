/**
 * The watcher: polling a repository's mirror, requesting deploys for branch tips, and the baseline of
 * tips that were there before watching started.
 *
 * One repository's tables are a Repo value. Store and Watcher are the program's objects; the machine
 * below them takes a pass apart into the steps other requests can get between. Repositories do not
 * share any of this state, so the machine follows a single one.
 */
module Watch {

  import opened Basics
  import opened Globs

  type Sha = string

  datatype Tip = Tip(branch: string, sha: Sha)

  /** Branch heads in name order, and every other ref. */
  datatype Refs = Refs(tips: seq<Tip>, others: map<string, Sha>)

  datatype Row = Row(watch: bool, patterns: string, baselined: bool)

  /** A repository's row, its baseline rows, its deploy rows by commit, oldest first, and those marked evicted. */
  datatype Repo = Repo(row: Row, baseline: set<Sha>, deploys: seq<Sha>, evicted: set<Sha>)

  /** What a quiet poll reuses. */
  datatype Pass = Pass(tips: seq<Tip>, maxDeploy: nat)

  /** path.Match, the notion of white space, and which commits a commit has in its history. */
  datatype Env = Env(segment: SegmentMatch, space: Space, reaches: (Sha, Sha) -> bool)

  datatype Call = BranchTips | SetBaseline | LoadBaseline | PruneBaseline | EvictUnreachable | LatestDeploy

  /**
   * How the calls of one pass turn out. `evictable` are the commits that resolve in the mirror, whose deploy
   * is queued or ready when eviction looks, and whose row can be updated.
   */
  datatype World = World(fails: Call -> bool, lookupFails: Sha -> bool, created: Sha -> bool, evictable: set<Sha>)

  function Shas(tips: seq<Tip>): set<Sha> {
    set t | t in tips :: t.sha
  }

  ghost predicate Matches(env: Env, patterns: string, branch: string) {
    var list := Elems(SplitPatterns(env.space, patterns));
    Included(env.segment, list, branch) && !Excluded(env.segment, list, branch)
  }

  // ---- The tables ----

  /** Switching on arms the baseline, switching off drops it, editing the patterns of a watched repository keeps it. */
  function Switched(r: Repo, watch: bool, patterns: string, backfill: bool): Repo {
    if watch && r.row.watch then r.(row := r.row.(patterns := patterns))
    else r.(row := Row(watch, patterns, !watch || backfill), baseline := {})
  }

  function WithBaseline(r: Repo, tips: seq<Tip>): Repo {
    r.(row := r.row.(baselined := true), baseline := Shas(tips))
  }

  function Pruned(r: Repo, tips: seq<Tip>): Repo {
    r.(baseline := r.baseline * Shas(tips))
  }

  /** Some tip has the commit in its history. */
  predicate Reached(env: Env, tips: seq<Tip>, sha: Sha) {
    exists t | t in tips :: env.reaches(t.sha, sha)
  }

  /** The deploys EvictUnreachable reclaims: of the evictable, those no tip reaches. */
  function Unreached(env: Env, r: Repo, tips: seq<Tip>, evictable: set<Sha>): set<Sha> {
    set sha | sha in evictable && sha in r.deploys && !Reached(env, tips, sha)
  }

  function Evicted(env: Env, r: Repo, tips: seq<Tip>, evictable: set<Sha>): Repo {
    r.(evicted := r.evicted + Unreached(env, r, tips, evictable))
  }

  class Store {
    var repos: map<nat, Repo>

    method SetRepoWatch(id: nat, watch: bool, branches: string, backfill: bool) returns (r: Option<Row>)
      modifies this
      ensures id !in old(repos) ==> r.None? && repos == old(repos)
      ensures id in old(repos) ==>
        && repos == old(repos)[id := Switched(old(repos)[id], watch, branches, backfill)]
        && r == Some(repos[id].row) && r.value.watch == watch && r.value.patterns == branches
      // Only the edge from off to on arms the baseline, without backfill, and only that or switching off clears it.
      ensures id in old(repos) ==>
        var was := old(repos)[id].row; var kept := watch && was.watch;
        && repos[id].row.baselined == (if kept then was.baselined else !watch || backfill)
        && repos[id].baseline == (if kept then old(repos)[id].baseline else {})
        && repos[id].deploys == old(repos)[id].deploys && repos[id].evicted == old(repos)[id].evicted
    {
      if id !in repos {
        return None;
      }
      var row := repos[id].row;
      var arm := watch && !row.watch;
      if arm || !watch {
        repos := repos[id := repos[id].(baseline := {})];
      }
      var baselined := !arm || backfill;
      row := Row(watch, branches, if arm || !watch then baselined else row.baselined);
      repos := repos[id := repos[id].(row := row)];
      r := Some(row);
    }

    method SetWatchBaseline(id: nat, tips: seq<Tip>)
      requires id in repos
      modifies this
      ensures repos == old(repos)[id := WithBaseline(old(repos)[id], tips)]
    {
      repos := repos[id := repos[id].(baseline := {})];
      var i := 0;
      assert Shas(tips[..i]) == {};
      while i < |tips|
        invariant 0 <= i <= |tips|
        invariant repos == old(repos)[id := old(repos)[id].(baseline := Shas(tips[..i]))]
      {
        repos := repos[id := repos[id].(baseline := repos[id].baseline + {tips[i].sha})];
        i := i + 1;
        assert tips[..i] == tips[..i - 1] + [tips[i - 1]];
        assert Shas(tips[..i]) == Shas(tips[..i - 1]) + {tips[i - 1].sha};
      }
      assert tips[..i] == tips;
      repos := repos[id := repos[id].(row := repos[id].row.(baselined := true))];
    }

    method PruneWatchBaseline(id: nat, tips: seq<Tip>)
      requires id in repos
      modifies this
      ensures repos == old(repos)[id := Pruned(old(repos)[id], tips)]
    {
      if |tips| == 0 {
        repos := repos[id := repos[id].(baseline := {})];
      } else {
        repos := repos[id := repos[id].(baseline := set sha | sha in repos[id].baseline && sha in Shas(tips))];
      }
      assert repos[id].baseline == Pruned(old(repos)[id], tips).baseline;
    }

    /** Marks the deploys no tip reaches, one row at a time. */
    method Evict(env: Env, id: nat, tips: seq<Tip>, evictable: set<Sha>)
      requires id in repos
      modifies this
      ensures repos == old(repos)[id := Evicted(env, old(repos)[id], tips, evictable)]
      ensures forall sha :: sha in repos[id].evicted <==>
        || sha in old(repos)[id].evicted
        || (sha in evictable && sha in repos[id].deploys && forall t | t in tips :: !env.reaches(t.sha, sha))
    {
      var r := repos[id];
      var gone: set<Sha> := {};
      var i := 0;
      while i < |r.deploys|
        invariant 0 <= i <= |r.deploys|
        invariant gone == set sha | sha in evictable && sha in r.deploys[..i] && !Reached(env, tips, sha)
      {
        var sha := r.deploys[i];
        assert r.deploys[..i + 1] == r.deploys[..i] + [sha];
        i := i + 1;
        if sha in evictable && !Reached(env, tips, sha) {
          gone := gone + {sha};
        }
      }
      assert r.deploys[..i] == r.deploys;
      repos := repos[id := r.(evicted := r.evicted + gone)];
    }
  }

  // ---- One pass with nothing in between ----

  datatype Visited = Visited(deploys: seq<Sha>, requested: seq<Sha>, ok: bool)

  /** A deploy is requested for each matching tip outside the baseline that has no row. */
  ghost function VisitAll(env: Env, patterns: string, tips: seq<Tip>, local: set<Sha>, deploys: seq<Sha>,
      w: World): Visited
  {
    if tips == [] then Visited(deploys, [], true)
    else if !Matches(env, patterns, tips[0].branch) || tips[0].sha in local then
      VisitAll(env, patterns, tips[1..], local, deploys, w)
    else if w.lookupFails(tips[0].sha) then Visited(deploys, [], false)
    else if tips[0].sha in deploys then VisitAll(env, patterns, tips[1..], local, deploys, w)
    else
      var after := WithDeploy(deploys, tips[0].sha, w.created(tips[0].sha));
      Requested(tips[0].sha, VisitAll(env, patterns, tips[1..], local, after, w))
  }

  function Requested(sha: Sha, v: Visited): Visited {
    v.(requested := [sha] + v.requested)
  }

  function WithDeploy(deploys: seq<Sha>, sha: Sha, created: bool): seq<Sha> {
    if created then deploys + [sha] else deploys
  }

  datatype Outcome = Outcome(repo: Repo, requested: seq<Sha>, ok: bool)

  function Armed(r: Repo, row: Row, tips: seq<Tip>): Repo {
    if row.baselined then r else WithBaseline(r, tips)
  }

  /** A pass over the tips for a row read earlier, up to the first call that fails. */
  ghost function Reconciled(env: Env, r: Repo, row: Row, tips: seq<Tip>, evict: bool, w: World): Outcome {
    if !row.baselined && w.fails(SetBaseline) then Outcome(r, [], false)
    else
      var local := Armed(r, row, tips).baseline;
      if w.fails(LoadBaseline) then Outcome(Armed(r, row, tips), [], false)
      else
        var v := VisitAll(env, row.patterns, tips, local, r.deploys, w);
        if !v.ok then Outcome(Armed(r, row, tips).(deploys := v.deploys), v.requested, false)
        else Finished(env, Armed(r, row, tips).(deploys := v.deploys), local, tips, evict, w).(requested := v.requested)
  }

  /** What follows the requests: pruning and eviction if the pass evicts, and the last look at the rows. */
  function Finished(env: Env, r: Repo, local: set<Sha>, tips: seq<Tip>, evict: bool, w: World): Outcome {
    if !evict then Outcome(r, [], !w.fails(LatestDeploy))
    else if local != {} && w.fails(PruneBaseline) then Outcome(r, [], false)
    else
      var pruned := if local != {} then Pruned(r, tips) else r;
      if w.fails(EvictUnreachable) then Outcome(pruned, [], false)
      else Outcome(Evicted(env, pruned, tips, w.evictable), [], !w.fails(LatestDeploy))
  }

  /** The commits a pass asks for: matching tips, outside the baseline, without a deploy row. */
  ghost predicate Wanted(env: Env, patterns: string, tips: seq<Tip>, local: set<Sha>, deploys: seq<Sha>, sha: Sha) {
    sha !in local && sha !in deploys && exists t | t in tips :: t.sha == sha && Matches(env, patterns, t.branch)
  }

  /** A pass that gets through asks for exactly those, and what it adds to the rows is what it created. */
  lemma {:induction false} PassAsksForTheWanted(env: Env, patterns: string, tips: seq<Tip>, local: set<Sha>,
      deploys: seq<Sha>, w: World, sha: Sha)
    ensures var v := VisitAll(env, patterns, tips, local, deploys, w);
      && (sha in v.requested ==> Wanted(env, patterns, tips, local, deploys, sha))
      && (v.ok && Wanted(env, patterns, tips, local, deploys, sha) ==> sha in v.requested)
      && (sha in v.deploys <==> sha in deploys || (sha in v.requested && w.created(sha)))
  {
    if tips != [] {
      var rest := tips[1..];
      var t := tips[0];
      assert forall u :: u in tips <==> u == t || u in rest;
      if !Matches(env, patterns, t.branch) || t.sha in local || w.lookupFails(t.sha) || t.sha in deploys {
        PassAsksForTheWanted(env, patterns, rest, local, deploys, w, sha);
      } else {
        PassAsksForTheWanted(env, patterns, rest, local, WithDeploy(deploys, t.sha, w.created(t.sha)), w, sha);
      }
    }
  }

  ghost predicate Distinct(s: seq<Sha>) {
    forall i, j | 0 <= i < j < |s| :: s[i] != s[j]
  }

  /** No pass gives a commit a second row. */
  lemma {:induction false} RowsStayDistinct(env: Env, patterns: string, tips: seq<Tip>, local: set<Sha>,
      deploys: seq<Sha>, w: World)
    requires Distinct(deploys)
    ensures Distinct(VisitAll(env, patterns, tips, local, deploys, w).deploys)
  {
    if tips != [] {
      var t := tips[0];
      if !Matches(env, patterns, t.branch) || t.sha in local || w.lookupFails(t.sha) || t.sha in deploys {
        RowsStayDistinct(env, patterns, tips[1..], local, deploys, w);
      } else {
        RowsStayDistinct(env, patterns, tips[1..], local, WithDeploy(deploys, t.sha, w.created(t.sha)), w);
      }
    }
  }

  /** The next pass over the same tips asks again for exactly the requests that left no row. */
  lemma NextPassRetriesFailures(env: Env, r: Repo, row: Row, tips: seq<Tip>, evict: bool, again: bool, w: World,
      w': World, sha: Sha)
    requires Reconciled(env, r, row, tips, evict, w).ok
    requires Reconciled(env, Reconciled(env, r, row, tips, evict, w).repo, row.(baselined := true), tips, again, w').ok
    ensures var first := Reconciled(env, r, row, tips, evict, w);
      var second := Reconciled(env, first.repo, row.(baselined := true), tips, again, w');
      sha in second.requested <==> sha in first.requested && !w.created(sha)
  {
    var local := Armed(r, row, tips).baseline;
    var first := Reconciled(env, r, row, tips, evict, w);
    PassAsksForTheWanted(env, row.patterns, tips, local, r.deploys, w, sha);
    PassAsksForTheWanted(env, row.patterns, tips, first.repo.baseline, first.repo.deploys, w', sha);
    assert forall t | t in tips :: t.sha in Shas(tips);
  }

  // ---- The poll loop ----

  /** An origin without refs is read as "nothing changed". */
  predicate Changed(remote: Refs, mirror: Refs) {
    !(remote.tips == [] && remote.others == map[]) && remote != mirror
  }

  /** What a poll works from. */
  datatype Choice = Choice(tips: seq<Tip>, evict: bool)

  function Chosen(cache: Option<Pass>, changed: bool, mirror: Refs, deploys: seq<Sha>): Choice {
    if cache.Some? && !changed then Choice(cache.value.tips, |deploys| > cache.value.maxDeploy)
    else Choice(mirror.tips, true)
  }

  /** The repository, its mirror and its cached pass after a poll. */
  datatype Polled = Polled(repo: Repo, mirror: Refs, cache: Option<Pass>, requested: seq<Sha>)

  ghost function PollOnce(env: Env, r: Repo, row: Row, mirror: Refs, cache: Option<Pass>, remote: Option<Refs>,
      w: World): Polled
  {
    if remote.None? then Polled(r, mirror, cache, [])
    else
      var changed := Changed(remote.value, mirror);
      var after := if changed then remote.value else mirror;
      var c := Chosen(cache, changed, after, r.deploys);
      if w.fails(if cache.Some? && !changed then LatestDeploy else BranchTips) then Polled(r, after, cache, [])
      else
        var o := Reconciled(env, r, row, c.tips, c.evict, w);
        Polled(o.repo, after, if o.ok then Some(Pass(c.tips, |o.repo.deploys|)) else cache, o.requested)
  }

  function Lookup<V>(m: map<nat, V>, id: nat): Option<V> {
    if id in m then Some(m[id]) else None
  }

  class Watcher {
    const db: Store
    var lastPass: map<nat, Pass>
    var mirrors: map<nat, Refs>

    constructor (db: Store, mirrors: map<nat, Refs>)
      ensures this.db == db && lastPass == map[] && this.mirrors == mirrors
    {
      this.db, lastPass, this.mirrors := db, map[], mirrors;
    }

    ghost function Now(): (v: View)
      reads this, db
    {
      View(db.repos, mirrors, lastPass)
    }

    /** Requests deploys for the tips, evicts, and caches the pass if nothing failed. */
    method Reconcile(env: Env, id: nat, row: Row, tips: seq<Tip>, evict: bool, w: World)
      returns (ok: bool, requested: seq<Sha>)
      requires id in db.repos
      modifies db, this`lastPass
      ensures var o := Reconciled(env, old(db.repos)[id], row, tips, evict, w);
        && db.repos == old(db.repos)[id := o.repo]
        && requested == o.requested && ok == o.ok
        && lastPass == if ok then old(lastPass)[id := Pass(tips, |o.repo.deploys|)] else old(lastPass)
    {
      ok, requested := false, [];
      if !row.baselined {
        if w.fails(SetBaseline) { return; }
        db.SetWatchBaseline(id, tips);
      }
      if w.fails(LoadBaseline) { return; }
      var baseline := db.repos[id].baseline;
      ok, requested := RequestTips(env, id, row.patterns, tips, baseline, w);
      if !ok { return; }
      ok := false;
      if evict {
        if baseline != {} {
          if w.fails(PruneBaseline) { return; }
          db.PruneWatchBaseline(id, tips);
        }
        if w.fails(EvictUnreachable) { return; }
        db.Evict(env, id, tips, w.evictable);
      }
      if w.fails(LatestDeploy) { return; }
      lastPass := lastPass[id := Pass(tips, |db.repos[id].deploys|)];
      ok := true;
    }

    method RequestTips(env: Env, id: nat, watchBranches: string, tips: seq<Tip>, baseline: set<Sha>, w: World)
      returns (ok: bool, requested: seq<Sha>)
      requires id in db.repos
      modifies db
      ensures var v := VisitAll(env, watchBranches, tips, baseline, old(db.repos)[id].deploys, w);
        && db.repos == old(db.repos)[id := old(db.repos)[id].(deploys := v.deploys)]
        && ok == v.ok && requested == v.requested
    {
      requested := [];
      var patterns := SplitPatterns(env.space, watchBranches);
      var i := 0;
      while i < |tips|
        invariant 0 <= i <= |tips| && id in db.repos
        invariant db.repos == old(db.repos)[id := old(db.repos)[id].(deploys := db.repos[id].deploys)]
        invariant var rest := VisitAll(env, watchBranches, tips[i..], baseline, db.repos[id].deploys, w);
          VisitAll(env, watchBranches, tips, baseline, old(db.repos)[id].deploys, w) ==
            rest.(requested := requested + rest.requested)
      {
        var tip := tips[i];
        assert tips[i..][0] == tip && tips[i..][1..] == tips[i + 1..];
        i := i + 1;
        var matches := MatchBranch(env.segment, patterns, tip.branch);
        if !matches || tip.sha in baseline { continue; }
        if w.lookupFails(tip.sha) { return false, requested; }
        if tip.sha in db.repos[id].deploys { continue; }
        requested := requested + [tip.sha];
        var r := db.repos[id];
        db.repos := db.repos[id := r.(deploys := WithDeploy(r.deploys, tip.sha, w.created(tip.sha)))];
      }
      ok := true;
    }

    /** Fetches, then works from the cached pass if no ref moved and from the mirror otherwise. */
    method PollRepo(env: Env, id: nat, row: Row, remote: Option<Refs>, w: World) returns (requested: seq<Sha>)
      requires id in db.repos && id in mirrors
      modifies db, this
      ensures Now() == AfterPoll(env, id, row, remote, w, old(Now()))
      ensures requested ==
        PollOnce(env, old(db.repos)[id], row, old(mirrors)[id], Lookup(old(lastPass), id), remote, w).requested
    {
      requested := [];
      if remote.None? { return; }
      var changed := Changed(remote.value, mirrors[id]);
      if changed {
        mirrors := mirrors[id := remote.value];
      }
      var ok;
      if id in lastPass && !changed {
        if w.fails(LatestDeploy) { return; }
        ok, requested := Reconcile(env, id, row, lastPass[id].tips, |db.repos[id].deploys| > lastPass[id].maxDeploy, w);
      } else {
        if w.fails(BranchTips) { return; }
        ok, requested := Reconcile(env, id, row, mirrors[id].tips, true, w);
      }
    }

    /**
     * Polls the watched repositories that are ready and forgets the passes of all others. `ready` are those
     * whose clone is ready and whose turn comes before the context is cancelled.
     */
    method PollAll(env: Env, order: seq<nat>, ready: set<nat>, remotes: map<nat, Refs>, w: nat -> World)
      requires Orders(order, db.repos.Keys)
      requires db.repos.Keys <= mirrors.Keys
      modifies db, this
      ensures db.repos.Keys == old(db.repos).Keys && mirrors.Keys == old(mirrors).Keys
      ensures PolledAll(env, ready, remotes, w, old(Now()), Now())
    {
      ghost var was := Now();
      var rows := db.repos;
      var polled: set<nat> := {};
      var i := 0;
      while i < |order|
        invariant 0 <= i <= |order|
        invariant db.repos.Keys == rows.Keys && mirrors.Keys == was.mirrors.Keys
        invariant polled <= rows.Keys
        invariant Progress(env, order, i, polled, ready, remotes, w, was, Now())
      {
        var id := order[i];
        Progressed(env, order, i, polled, ready, remotes, w, was, Now());
        if rows[id].row.watch && id in ready {
          polled := polled + {id};
          var _ := PollRepo(env, id, rows[id].row, Lookup(remotes, id), w(id));
        }
        i := i + 1;
      }
      AllPolled(env, order, polled, ready, remotes, w, was, Now());
      lastPass := map id | id in lastPass && id in polled :: lastPass[id];
    }
  }

  /** The order lists every key once. */
  ghost predicate Orders(order: seq<nat>, keys: set<nat>) {
    && (forall id :: id in order <==> id in keys)
    && (forall i, j | 0 <= i < j < |order| :: order[i] != order[j])
  }

  /** The tables, mirrors and passes of every repository. */
  datatype View = View(repos: map<nat, Repo>, mirrors: map<nat, Refs>, lastPass: map<nat, Pass>)

  ghost predicate Untouched(id: nat, was: View, now: View) {
    && Lookup(now.repos, id) == Lookup(was.repos, id)
    && Lookup(now.mirrors, id) == Lookup(was.mirrors, id)
    && Lookup(now.lastPass, id) == Lookup(was.lastPass, id)
  }

  ghost predicate PollDone(env: Env, id: nat, remote: Option<Refs>, w: World, was: View, now: View)
    requires id in was.repos && id in was.mirrors
  {
    var p := PollOnce(env, was.repos[id], was.repos[id].row, was.mirrors[id], Lookup(was.lastPass, id), remote, w);
    Lookup(now.repos, id) == Some(p.repo) && Lookup(now.mirrors, id) == Some(p.mirror) &&
      Lookup(now.lastPass, id) == p.cache
  }

  ghost predicate After(env: Env, id: nat, polled: bool, remotes: map<nat, Refs>, w: nat -> World, was: View, now: View)
    requires id in was.repos && id in was.mirrors
  {
    if polled then PollDone(env, id, Lookup(remotes, id), w(id), was, now) else Untouched(id, was, now)
  }

  ghost function AfterPoll(env: Env, id: nat, row: Row, remote: Option<Refs>, w: World, v: View): View
    requires id in v.repos && id in v.mirrors
  {
    var p := PollOnce(env, v.repos[id], row, v.mirrors[id], Lookup(v.lastPass, id), remote, w);
    View(v.repos[id := p.repo], v.mirrors[id := p.mirror],
         if p.cache.Some? then v.lastPass[id := p.cache.value] else v.lastPass - {id})
  }

  /** The first i repositories have had their turn. */
  ghost predicate Progress(env: Env, order: seq<nat>, i: nat, polled: set<nat>, ready: set<nat>,
      remotes: map<nat, Refs>, w: nat -> World, was: View, now: View)
    requires i <= |order| && Orders(order, was.repos.Keys) && was.repos.Keys <= was.mirrors.Keys
  {
    && (forall j | 0 <= j < i :: order[j] in polled <==> was.repos[order[j]].row.watch && order[j] in ready)
    && (forall j | i <= j < |order| :: order[j] !in polled && Untouched(order[j], was, now))
    && (forall j | 0 <= j < i :: After(env, order[j], order[j] in polled, remotes, w, was, now))
  }

  /** Every repository that is watched and ready was polled once; no other kept its pass. */
  ghost predicate PolledAll(env: Env, ready: set<nat>, remotes: map<nat, Refs>, w: nat -> World, was: View, now: View)
    requires was.repos.Keys <= was.mirrors.Keys
  {
    && (forall id | id in was.repos ::
          if was.repos[id].row.watch && id in ready then PollDone(env, id, Lookup(remotes, id), w(id), was, now)
          else Untouched(id, was.(lastPass := map[]), now))
    && (forall id | id in now.lastPass :: id in was.repos)
  }

  lemma AllPolled(env: Env, order: seq<nat>, polled: set<nat>, ready: set<nat>, remotes: map<nat, Refs>,
      w: nat -> World, was: View, now: View)
    requires Orders(order, was.repos.Keys)
    requires was.repos.Keys <= was.mirrors.Keys && polled <= was.repos.Keys
    requires Progress(env, order, |order|, polled, ready, remotes, w, was, now)
    ensures var lastPass := map id | id in now.lastPass && id in polled :: now.lastPass[id];
      PolledAll(env, ready, remotes, w, was, now.(lastPass := lastPass))
  {
    var end := now.(lastPass := map id | id in now.lastPass && id in polled :: now.lastPass[id]);
    forall id | id in was.repos
      ensures After(env, id, id in polled, remotes, w, was, now)
      ensures id in polled <==> was.repos[id].row.watch && id in ready
    {
      var j :| 0 <= j < |order| && order[j] == id;
    }
    forall id | id in was.repos && id in polled ensures PollDone(env, id, Lookup(remotes, id), w(id), was, end) {
      assert After(env, id, true, remotes, w, was, now);
    }
    forall id | id in was.repos && id !in polled ensures Untouched(id, was.(lastPass := map[]), end) {
      assert After(env, id, false, remotes, w, was, now);
    }
  }

  lemma SkippedOne(env: Env, order: seq<nat>, i: nat, polled: set<nat>, ready: set<nat>,
      remotes: map<nat, Refs>, w: nat -> World, was: View, now: View)
    requires i < |order| && Orders(order, was.repos.Keys) && was.repos.Keys <= was.mirrors.Keys
    requires Progress(env, order, i, polled, ready, remotes, w, was, now)
    requires !(was.repos[order[i]].row.watch && order[i] in ready)
    ensures Progress(env, order, i + 1, polled, ready, remotes, w, was, now)
  {
    assert Untouched(order[i], was, now);
  }

  lemma PolledOne(env: Env, order: seq<nat>, i: nat, polled: set<nat>, ready: set<nat>,
      remotes: map<nat, Refs>, w: nat -> World, was: View, now: View, after: View)
    requires i < |order| && Orders(order, was.repos.Keys) && was.repos.Keys <= was.mirrors.Keys
    requires Progress(env, order, i, polled, ready, remotes, w, was, now)
    requires was.repos[order[i]].row.watch && order[i] in ready
    requires PollDone(env, order[i], Lookup(remotes, order[i]), w(order[i]), was, after)
    requires forall k | k != order[i] :: Untouched(k, now, after)
    ensures Progress(env, order, i + 1, polled + {order[i]}, ready, remotes, w, was, after)
  {
    forall j | 0 <= j < i ensures After(env, order[j], order[j] in polled, remotes, w, was, after) {
      assert Untouched(order[j], now, after);
    }
    forall j | i < j < |order| ensures Untouched(order[j], was, after) {
      assert Untouched(order[j], was, now) && Untouched(order[j], now, after);
    }
  }

  lemma PollIsLocal(env: Env, id: nat, remote: Option<Refs>, w: World, was: View, now: View)
    requires id in was.repos && id in was.mirrors && Untouched(id, was, now)
    ensures id in now.repos && id in now.mirrors && now.repos[id] == was.repos[id]
    ensures var after := AfterPoll(env, id, was.repos[id].row, remote, w, now);
      PollDone(env, id, remote, w, was, after) && forall k | k != id :: Untouched(k, now, after)
  {
    assert Lookup(now.repos, id) == Some(was.repos[id]) && Lookup(now.mirrors, id) == Some(was.mirrors[id]);
  }

  /** The next repository has its turn. */
  lemma Progressed(env: Env, order: seq<nat>, i: nat, polled: set<nat>, ready: set<nat>, remotes: map<nat, Refs>,
      w: nat -> World, was: View, now: View)
    requires i < |order| && Orders(order, was.repos.Keys) && was.repos.Keys <= was.mirrors.Keys
    requires Progress(env, order, i, polled, ready, remotes, w, was, now)
    ensures var id := order[i];
      id in now.repos && id in now.mirrors && now.repos[id] == was.repos[id] &&
      if was.repos[id].row.watch && id in ready
      then Progress(env, order, i + 1, polled + {id}, ready, remotes, w, was,
                    AfterPoll(env, id, was.repos[id].row, Lookup(remotes, id), w(id), now))
      else Progress(env, order, i + 1, polled, ready, remotes, w, was, now)
  {
    var id := order[i];
    assert Untouched(id, was, now);
    PollIsLocal(env, id, Lookup(remotes, id), w(id), was, now);
    if was.repos[id].row.watch && id in ready {
      var after := AfterPoll(env, id, was.repos[id].row, Lookup(remotes, id), w(id), now);
      PolledOne(env, order, i, polled, ready, remotes, w, was, now, after);
    } else {
      SkippedOne(env, order, i, polled, ready, remotes, w, was, now);
    }
  }
}
