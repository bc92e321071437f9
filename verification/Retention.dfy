/** The retention sweep and the reclaiming of artifacts no surviving deploy references. */
module Retention {

  import opened Basics

  datatype Status = Queued | Building | Ready | Failed | Evicted

  /** A deploy row. Hashes may be empty; `created` is None when the timestamp does not parse. */
  datatype Deploy = Deploy(id: nat, repo: nat, status: Status, created: Option<int>, be: string, fe: string,
      dl: set<string>)

  datatype Kind = Backend | Frontend | Download

  /** A content-addressed artifact on disk. */
  datatype Artifact = Artifact(repo: nat, kind: Kind, hash: string)

  /** Limits of 0 are off. */
  datatype Policy = Policy(maxPerRepo: nat, maxAgeDays: nat)
  {
    predicate Enabled() { maxPerRepo > 0 || maxAgeDays > 0 }
  }

  /** What one sweep decides by: the policy, the instant its age limit reaches back to, and the alias targets. */
  datatype Rules = Rules(policy: Policy, cutoff: int, aliased: set<nat>)

  function Uses(d: Deploy): set<Artifact> {
    (if d.be != "" then {Artifact(d.repo, Backend, d.be)} else {})
    + (if d.fe != "" then {Artifact(d.repo, Frontend, d.fe)} else {})
    + (set h | h in d.dl :: Artifact(d.repo, Download, h))
  }

  /** What the non-evicted deploys reference. */
  ghost function Referenced(rows: seq<Deploy>): set<Artifact> {
    set i, a | 0 <= i < |rows| && rows[i].status != Evicted && a in Uses(rows[i]) :: a
  }

  // ---- The decision of one sweep, row by row, newest first ----

  /** What the sweep carries from row to row: retained deploys per repo and repos whose newest ready deploy was seen. */
  datatype Tally = Tally(kept: map<nat, nat>, newestReady: set<nat>)

  function Kept(t: Tally, repo: nat): nat {
    if repo in t.kept then t.kept[repo] else 0
  }

  predicate NewestReady(t: Tally, d: Deploy) {
    d.status == Ready && d.repo !in t.newestReady
  }

  predicate Protected(t: Tally, aliased: set<nat>, d: Deploy) {
    d.status == Queued || d.status == Building || d.id in aliased || NewestReady(t, d)
  }

  predicate TooOld(w: Rules, d: Deploy) {
    w.policy.maxAgeDays > 0 && d.created.Some? && d.created.value < w.cutoff
  }

  /** The sweep wants to evict d. */
  predicate Wants(w: Rules, t: Tally, d: Deploy) {
    && d.status != Evicted && !Protected(t, w.aliased, d)
    && ((w.policy.maxPerRepo > 0 && Kept(t, d.repo) >= w.policy.maxPerRepo) || TooOld(w, d))
  }

  /** The tally after a row. A deploy the sweep wants gone is not counted, whether or not its eviction is recorded. */
  function Next(w: Rules, t: Tally, d: Deploy): Tally {
    if d.status == Evicted then t
    else
      var t' := if NewestReady(t, d) then t.(newestReady := t.newestReady + {d.repo}) else t;
      if Wants(w, t, d) then t' else t'.(kept := t'.kept[d.repo := Kept(t', d.repo) + 1])
  }

  function TallyAt(w: Rules, rows: seq<Deploy>, i: nat): Tally
    requires i <= |rows|
  {
    if i == 0 then Tally(map[], {})
    else Next(w, TallyAt(w, rows, i - 1), rows[i - 1])
  }

  /** The row at i goes: wanted, and its eviction is recorded. `stuck` are the ids whose row update fails. */
  predicate Goes(w: Rules, stuck: set<nat>, rows: seq<Deploy>, i: nat)
    requires i < |rows|
  {
    w.policy.Enabled() && Wants(w, TallyAt(w, rows, i), rows[i]) && rows[i].id !in stuck
  }

  /** The table after the first n rows of a sweep. */
  function Swept(w: Rules, stuck: set<nat>, rows: seq<Deploy>, n: nat): seq<Deploy>
    requires n <= |rows|
  {
    seq(|rows|, i requires 0 <= i < |rows| =>
      if i < n && Goes(w, stuck, rows, i) then rows[i].(status := Evicted) else rows[i])
  }

  // ---- The database and the disk ----

  class Store {
    var rows: seq<Deploy>   // newest first
    var files: set<Artifact>

    constructor (rows: seq<Deploy>, files: set<Artifact>)
      ensures this.rows == rows && this.files == files
    {
      this.rows, this.files := rows, files;
    }

    /** SetDeployEvicted on the row at i. */
    method SetEvicted(i: nat)
      requires i < |rows|
      modifies this`rows
      ensures rows == old(rows)[i := old(rows)[i].(status := Evicted)]
    {
      rows := rows[i := rows[i].(status := Evicted)];
    }

    /** The hashes the non-evicted deploys of a repo hold; an empty hash is none. */
    method LiveHashes(repo: nat) returns (be: set<string>, fe: set<string>, dl: set<string>)
      ensures forall h :: h in be <==> h != "" && Artifact(repo, Backend, h) in Referenced(rows)
      ensures forall h :: h in fe <==> h != "" && Artifact(repo, Frontend, h) in Referenced(rows)
      ensures forall h :: h in dl <==> Artifact(repo, Download, h) in Referenced(rows)
    {
      be, fe, dl := {}, {}, {};
      var i := 0;
      while i < |rows|
        invariant 0 <= i <= |rows|
        invariant forall h :: h in be <==> h != "" && exists j :: 0 <= j < i && Live(rows[j], repo) && rows[j].be == h
        invariant forall h :: h in fe <==> h != "" && exists j :: 0 <= j < i && Live(rows[j], repo) && rows[j].fe == h
        invariant forall h :: h in dl <==> exists j :: 0 <= j < i && Live(rows[j], repo) && h in rows[j].dl
      {
        var r := rows[i];
        if Live(r, repo) {
          if r.be != "" {
            be := be + {r.be};
          }
          if r.fe != "" {
            fe := fe + {r.fe};
          }
          dl := dl + r.dl;
        }
        i := i + 1;
      }
      forall h ensures h in be <==> h != "" && Artifact(repo, Backend, h) in Referenced(rows) {
        ReferencedBy(rows, Artifact(repo, Backend, h));
      }
      forall h ensures h in fe <==> h != "" && Artifact(repo, Frontend, h) in Referenced(rows) {
        ReferencedBy(rows, Artifact(repo, Frontend, h));
      }
      forall h ensures h in dl <==> Artifact(repo, Download, h) in Referenced(rows) {
        ReferencedBy(rows, Artifact(repo, Download, h));
      }
    }

    /**
     * GCDeploy: removes what d uses and no non-evicted deploy of its repo still references, but for what
     * cannot be deleted. When the surviving deploys cannot be listed nothing is removed.
     */
    method GCDeploy(d: Deploy, listFails: bool, stays: set<Artifact>)
      modifies this`files
      ensures files == if listFails then old(files) else old(files) - (Uses(d) - Referenced(rows) - stays)
    {
      if listFails {
        return;
      }
      var liveBe, liveFe, liveDl := LiveHashes(d.repo);
      ghost var live := Referenced(rows);
      if d.be != "" && d.be !in liveBe {
        files := files - ({Artifact(d.repo, Backend, d.be)} - stays);
      }
      if d.fe != "" && d.fe !in liveFe {
        files := files - ({Artifact(d.repo, Frontend, d.fe)} - stays);
      }
      var goneDl := set h | h in d.dl && h !in liveDl :: Artifact(d.repo, Download, h);
      files := files - (goneDl - stays);
      forall a | a in old(files) ensures a in files <==> !(a in Uses(d) && a !in live && a !in stays) {
        UsesKinds(d, a);
        assert a == Artifact(a.repo, a.kind, a.hash);
      }
    }

    /**
     * Sweep. Evicts exactly the rows the policy wants gone and whose update succeeds. Afterwards the disk has
     * lost what they used and no survivor references, but for what cannot be deleted. `unlisted` are the
     * deploys whose reclaim could not list the survivors; with any of those, less is removed but never more.
     */
    method Sweep(w: Rules, stuck: set<nat>, unlisted: set<nat>, stays: set<Artifact>) returns (evicted: seq<nat>)
      modifies this
      ensures rows == Swept(w, stuck, old(rows), |old(rows)|)
      ensures forall id :: id in evicted <==> EvictedBefore(w, stuck, old(rows), |old(rows)|, id)
      ensures Reclaimed(Gone(w, stuck, old(rows), |old(rows)|, rows), stays, old(files), files, unlisted == {})
      ensures forall a | a in old(files) && a in Referenced(rows) :: a in files
    {
      evicted := [];
      var all := rows;
      if !w.policy.Enabled() {
        NothingSwept(w, stuck, all);
        return;
      }
      var t := Tally(map[], {});
      var i := 0;
      SweepingStarts(w, stuck, all, stays, files, unlisted == {});
      while i < |all|
        invariant 0 <= i <= |all|
        invariant t == TallyAt(w, all, i)
        invariant Sweeping(w, stuck, all, stays, old(files), unlisted == {}, i, rows, evicted, files)
      {
        var row := all[i];
        SweepingNext(w, stuck, all, stays, old(files), unlisted == {}, i, rows, evicted, files, row.id in unlisted);
        if Wants(w, t, row) && row.id !in stuck {
          SetEvicted(i);
          GCDeploy(row, row.id in unlisted, stays);
          evicted := evicted + [row.id];
        }
        t := Next(w, t, row);
        i := i + 1;
      }
    }
  }

  /** The deploy is one of the first n rows the sweep evicts. */
  ghost predicate EvictedBefore(w: Rules, stuck: set<nat>, rows: seq<Deploy>, n: nat, id: nat)
    requires n <= |rows|
  {
    exists i :: 0 <= i < n && Goes(w, stuck, rows, i) && rows[i].id == id
  }

  /** What the deploys evicted by the first n rows used and the table afterwards does not reference. */
  ghost function Gone(w: Rules, stuck: set<nat>, rows: seq<Deploy>, n: nat, after: seq<Deploy>): set<Artifact>
    requires n <= |rows|
  {
    UsedByEvicted(w, stuck, rows, n) - Referenced(after)
  }

  /** Nothing but that left the disk, and when every reclaim could list all of it that can be deleted did. */
  ghost predicate Reclaimed(gone: set<Artifact>, stays: set<Artifact>, was: set<Artifact>, files: set<Artifact>,
      exact: bool)
  {
    was - gone <= files <= was && (exact ==> files == was - (gone - stays))
  }

  /** Rows, result and disk of a sweep after its first i rows. */
  ghost predicate Sweeping(w: Rules, stuck: set<nat>, all: seq<Deploy>, stays: set<Artifact>, was: set<Artifact>,
                           exact: bool, i: nat, rows: seq<Deploy>, evicted: seq<nat>, files: set<Artifact>)
    requires i <= |all|
  {
    && rows == Swept(w, stuck, all, i)
    && (forall id :: id in evicted <==> EvictedBefore(w, stuck, all, i, id))
    && Reclaimed(Gone(w, stuck, all, i, rows), stays, was, files, exact)
  }

  lemma SweepingStarts(w: Rules, stuck: set<nat>, all: seq<Deploy>, stays: set<Artifact>, files: set<Artifact>,
      exact: bool)
    ensures Sweeping(w, stuck, all, stays, files, exact, 0, all, [], files)
  {
    assert all == Swept(w, stuck, all, 0);
  }

  lemma NothingSwept(w: Rules, stuck: set<nat>, all: seq<Deploy>)
    requires !w.policy.Enabled()
    ensures all == Swept(w, stuck, all, |all|)
    ensures forall id :: !EvictedBefore(w, stuck, all, |all|, id)
    ensures UsedByEvicted(w, stuck, all, |all|) == {}
  {
  }

  /** The next row either stays, or its deploy is evicted and reclaimed. */
  lemma SweepingNext(w: Rules, stuck: set<nat>, all: seq<Deploy>, stays: set<Artifact>, was: set<Artifact>, exact: bool,
                     i: nat, rows: seq<Deploy>, evicted: seq<nat>, files: set<Artifact>, skipped: bool)
    requires i < |all| && w.policy.Enabled() && (exact ==> !skipped)
    requires Sweeping(w, stuck, all, stays, was, exact, i, rows, evicted, files)
    ensures var rows' := rows[i := rows[i].(status := Evicted)];
      var files' := if skipped then files else files - (Uses(all[i]) - Referenced(rows') - stays);
      if Goes(w, stuck, all, i)
      then Sweeping(w, stuck, all, stays, was, exact, i + 1, rows', evicted + [all[i].id], files')
      else Sweeping(w, stuck, all, stays, was, exact, i + 1, rows, evicted, files)
  {
    SweptNext(w, stuck, all, i);
    EvictedNext(w, stuck, all, i);
    assert forall id :: id in evicted + [all[i].id] <==> id in evicted || id == all[i].id;
    if Goes(w, stuck, all, i) {
      var live' := Referenced(rows[i := rows[i].(status := Evicted)]);
      ReclaimNext(UsedByEvicted(w, stuck, all, i), Referenced(rows), stays, was, files, exact, Uses(all[i]), live',
        skipped);
    }
  }

  lemma EvictedNext(w: Rules, stuck: set<nat>, rows: seq<Deploy>, i: nat)
    requires i < |rows|
    ensures forall id :: EvictedBefore(w, stuck, rows, i + 1, id) <==>
      EvictedBefore(w, stuck, rows, i, id) || (Goes(w, stuck, rows, i) && rows[i].id == id)
  {
    forall id | EvictedBefore(w, stuck, rows, i, id) ensures EvictedBefore(w, stuck, rows, i + 1, id) {
      var j :| 0 <= j < i && Goes(w, stuck, rows, j) && rows[j].id == id;
      assert j < i + 1;
    }
    if Goes(w, stuck, rows, i) {
      assert EvictedBefore(w, stuck, rows, i + 1, rows[i].id);
    }
  }

  /** Reclaiming one more deploy's artifacts after its row went. */
  lemma ReclaimNext(used: set<Artifact>, live: set<Artifact>, stays: set<Artifact>, was: set<Artifact>,
      files: set<Artifact>,
                    exact: bool, mine: set<Artifact>, live': set<Artifact>, skipped: bool)
    requires Reclaimed(used - live, stays, was, files, exact) && live' <= live <= live' + mine
    requires exact ==> !skipped
    ensures var files' := if skipped then files else files - (mine - live' - stays);
      Reclaimed(used + mine - live', stays, was, files', exact)
  {
  }

  predicate Live(d: Deploy, repo: nat) {
    d.repo == repo && d.status != Evicted
  }

  lemma ReferencedBy(rows: seq<Deploy>, a: Artifact)
    ensures a in Referenced(rows) <==> exists j :: 0 <= j < |rows| && Live(rows[j], a.repo) && a in Uses(rows[j])
    ensures match a.kind
      case Backend =>
        a in Referenced(rows) <==>
        a.hash != "" && exists j :: 0 <= j < |rows| && Live(rows[j], a.repo) && rows[j].be == a.hash
      case Frontend =>
        a in Referenced(rows) <==>
        a.hash != "" && exists j :: 0 <= j < |rows| && Live(rows[j], a.repo) && rows[j].fe == a.hash
      case Download =>
        a in Referenced(rows) <==> exists j :: 0 <= j < |rows| && Live(rows[j], a.repo) && a.hash in rows[j].dl
  {
    forall j | 0 <= j < |rows| { UsesKinds(rows[j], a); }
  }

  lemma UsesKinds(d: Deploy, a: Artifact)
    ensures a in Uses(d) <==> a.repo == d.repo && match a.kind
      case Backend => a.hash == d.be && d.be != ""
      case Frontend => a.hash == d.fe && d.fe != ""
      case Download => a.hash in d.dl
  {
  }

  /** What the deploys evicted by the first n rows of a sweep used. */
  ghost function UsedByEvicted(w: Rules, stuck: set<nat>, rows: seq<Deploy>, n: nat): set<Artifact>
    requires n <= |rows|
  {
    set i, a | 0 <= i < n && Goes(w, stuck, rows, i) && a in Uses(rows[i]) :: a
  }

  lemma SweptNext(w: Rules, stuck: set<nat>, rows: seq<Deploy>, i: nat)
    requires i < |rows|
    ensures var before := Swept(w, stuck, rows, i); var after := Swept(w, stuck, rows, i + 1);
      && before[i] == rows[i]
      && (Goes(w, stuck, rows, i) ==>
            && after == before[i := rows[i].(status := Evicted)]
            && Referenced(after) <= Referenced(before) <= Referenced(after) + Uses(rows[i])
            && UsedByEvicted(w, stuck, rows, i + 1) ==
               UsedByEvicted(w, stuck, rows, i) + Uses(rows[i]))
      && (!Goes(w, stuck, rows, i) ==>
            && after == before
            && UsedByEvicted(w, stuck, rows, i + 1) == UsedByEvicted(w, stuck, rows, i))
  {
    var before, after := Swept(w, stuck, rows, i), Swept(w, stuck, rows, i + 1);
    if Goes(w, stuck, rows, i) {
      EvictRow(before, i);
    }
  }

  lemma EvictRow(rows: seq<Deploy>, i: nat)
    requires i < |rows|
    ensures var after := rows[i := rows[i].(status := Evicted)];
      Referenced(after) <= Referenced(rows) <= Referenced(after) + Uses(rows[i])
  {
    var after := rows[i := rows[i].(status := Evicted)];
    forall a | a in Referenced(rows) ensures a in Referenced(after) + Uses(rows[i]) {
      var j :| 0 <= j < |rows| && rows[j].status != Evicted && a in Uses(rows[j]);
      if j != i { assert after[j] == rows[j]; }
    }
    forall a | a in Referenced(after) ensures a in Referenced(rows) {
      var j :| 0 <= j < |rows| && after[j].status != Evicted && a in Uses(after[j]);
      assert after[j] == rows[j];
    }
  }

  // ---- What a sweep promises ----

  /** Queued or building, an alias target, or the newest ready deploy of its repo. */
  ghost predicate Shielded(rows: seq<Deploy>, aliased: set<nat>, i: nat)
    requires i < |rows|
  {
    || rows[i].status == Queued || rows[i].status == Building || rows[i].id in aliased
    || (rows[i].status == Ready && forall j | 0 <= j < i && rows[j].repo == rows[i].repo :: rows[j].status != Ready)
  }

  /** Shielded deploys survive any sweep. */
  lemma ShieldedDeploysSurvive(w: Rules, stuck: set<nat>, rows: seq<Deploy>, i: nat)
    requires i < |rows| && Shielded(rows, w.aliased, i)
    ensures Swept(w, stuck, rows, |rows|)[i] == rows[i]
  {
    NewestReadySeen(w, rows, i, rows[i].repo);
  }

  /** The tally knows exactly the repos with a ready row so far. */
  lemma {:induction false} NewestReadySeen(w: Rules, rows: seq<Deploy>, i: nat, repo: nat)
    requires i <= |rows|
    ensures repo in TallyAt(w, rows, i).newestReady <==>
            exists j :: 0 <= j < i && rows[j].repo == repo && rows[j].status == Ready
  {
    if i > 0 {
      NewestReadySeen(w, rows, i - 1, repo);
      assert rows[i - 1].repo == repo && rows[i - 1].status == Ready ==>
        repo in TallyAt(w, rows, i).newestReady;
    }
  }

  /** How many of the first i rows of a repo the policy lets stay. */
  ghost function Staying(w: Rules, rows: seq<Deploy>, i: nat, repo: nat): nat
    requires i <= |rows|
  {
    if i == 0 then 0 else
      Staying(w, rows, i - 1, repo) +
      (if rows[i - 1].repo == repo && rows[i - 1].status != Evicted &&
          !Wants(w, TallyAt(w, rows, i - 1), rows[i - 1]) then 1 else 0)
  }

  lemma {:induction false} KeptCountsStaying(w: Rules, rows: seq<Deploy>, i: nat, repo: nat)
    requires i <= |rows|
    ensures Kept(TallyAt(w, rows, i), repo) == Staying(w, rows, i, repo)
  {
    if i > 0 { KeptCountsStaying(w, rows, i - 1, repo); }
  }

  /**
   * When every row update succeeds, a deploy goes exactly if it is unshielded and either beyond the newest
   * maxPerRepo that stay in its repo, or too old. A timestamp that does not parse is never too old.
   */
  lemma EvictedIffOverLimit(w: Rules, rows: seq<Deploy>, i: nat)
    requires i < |rows| && rows[i].status != Evicted
    ensures Swept(w, {}, rows, |rows|)[i].status == Evicted <==>
      && !Shielded(rows, w.aliased, i)
      && ((w.policy.maxPerRepo > 0 && Staying(w, rows, i, rows[i].repo) >= w.policy.maxPerRepo) ||
          (w.policy.maxAgeDays > 0 && rows[i].created.Some? && rows[i].created.value < w.cutoff))
  {
    KeptCountsStaying(w, rows, i, rows[i].repo);
    NewestReadySeen(w, rows, i, rows[i].repo);
  }

  /** How many of the first i rows of a repo are not evicted. */
  ghost function Unevicted(rows: seq<Deploy>, i: nat, repo: nat): nat
    requires i <= |rows|
  {
    if i == 0 then 0 else
      Unevicted(rows, i - 1, repo) + (if rows[i - 1].repo == repo && rows[i - 1].status != Evicted then 1 else 0)
  }

  lemma {:induction false} StayingIsUnevicted(w: Rules, rows: seq<Deploy>, i: nat, repo: nat)
    requires i <= |rows| && w.policy.Enabled()
    ensures Staying(w, rows, i, repo) == Unevicted(Swept(w, {}, rows, |rows|), i, repo)
  {
    if i > 0 { StayingIsUnevicted(w, rows, i - 1, repo); }
  }

  /**
   * The whole outcome in terms of the two tables, whatever limits are set: a deploy is evicted by a sweep exactly
   * if it is unshielded and, with a count limit, that many newer ones of its repo are left, or, with an age limit,
   * it was created before the cutoff. With neither limit nothing changes.
   */
  lemma SweepOutcome(w: Rules, rows: seq<Deploy>, i: nat)
    requires i < |rows|
    ensures var after := Swept(w, {}, rows, |rows|);
      && |after| == |rows| && (after[i] == rows[i] || after[i] == rows[i].(status := Evicted))
      && (rows[i].status != Evicted ==>
            (after[i].status == Evicted <==>
              && !Shielded(rows, w.aliased, i)
              && ((w.policy.maxPerRepo > 0 && Unevicted(after, i, rows[i].repo) >= w.policy.maxPerRepo) ||
                  (w.policy.maxAgeDays > 0 && rows[i].created.Some? && rows[i].created.value < w.cutoff))))
  {
    if w.policy.Enabled() {
      KeptCountsStaying(w, rows, i, rows[i].repo);
      NewestReadySeen(w, rows, i, rows[i].repo);
      StayingIsUnevicted(w, rows, i, rows[i].repo);
    }
  }

  /** An already evicted row leaves the tally as a row that just went. */
  lemma {:induction false} SameTally(w: Rules, stuck: set<nat>, rows: seq<Deploy>, i: nat)
    requires i <= |rows| && w.policy.Enabled()
    ensures TallyAt(w, Swept(w, stuck, rows, |rows|), i) == TallyAt(w, rows, i)
  {
    if i > 0 { SameTally(w, stuck, rows, i - 1); }
  }

  /** A second sweep at the same clock touches only deploys whose eviction failed to be recorded the first time. */
  lemma SecondSweepOnlyRetries(w: Rules, stuck: set<nat>, stuck2: set<nat>, rows: seq<Deploy>, i: nat)
    requires i < |rows|
    requires Goes(w, stuck2, Swept(w, stuck, rows, |rows|), i)
    ensures rows[i].id in stuck && rows[i].id !in stuck2
  {
    SameTally(w, stuck, rows, i);
  }

  /** So when every eviction is recorded, it evicts nothing. */
  lemma SecondSweepEvictsNothing(w: Rules, rows: seq<Deploy>)
    ensures var once := Swept(w, {}, rows, |rows|);
      Swept(w, {}, once, |rows|) == once
  {
    var once := Swept(w, {}, rows, |rows|);
    forall i | 0 <= i < |rows| ensures !Goes(w, {}, once, i) {
      if Goes(w, {}, once, i) {
        SecondSweepOnlyRetries(w, {}, {}, rows, i);
      }
    }
  }
}
