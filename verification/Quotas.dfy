/** The fleet-wide warm floor, split into one quota per worker. */
module Quotas {
  import opened Keys
  import R = Reap

  datatype Status = Running | Starting | Crashed

  /** One key of the merged fleet report. */
  datatype Entry = Entry(worker: string, touch: nat, status: Status)

  type Report = map<Key, Entry>

  /** Crashed records hold no floor slot. */
  function Live(report: Report): set<Key> {
    set k | k in report && report[k].status != Crashed
  }

  function LiveOn(report: Report, w: string): set<Key> {
    set k | k in Live(report) && report[k].worker == w
  }

  /** Nothing outside `top` was touched later than something in it. */
  ghost predicate MostRecent(report: Report, top: set<Key>) {
    top <= Live(report) && forall f, c | f in top && c in Live(report) - top :: report[f].touch >= report[c].touch
  }

  ghost function Sum(quotas: map<string, nat>): nat {
    if quotas == map[] then 0 else var w :| w in quotas; quotas[w] + Sum(quotas - {w})
  }

  lemma {:induction false} SumTake(quotas: map<string, nat>, w: string)
    requires w in quotas
    ensures Sum(quotas) == quotas[w] + Sum(quotas - {w})
  {
    var v :| v in quotas && Sum(quotas) == quotas[v] + Sum(quotas - {v});
    if v != w {
      SumTake(quotas - {v}, w);
      SumTake(quotas - {w}, v);
      assert quotas - {v} - {w} == quotas - {w} - {v};
    }
  }

  function Quota(quotas: map<string, nat>, w: string): nat {
    if w in quotas then quotas[w] else 0
  }

  lemma SumCountUp(quotas: map<string, nat>, w: string)
    ensures Sum(quotas[w := Quota(quotas, w) + 1]) == Sum(quotas) + 1
  {
    var after := quotas[w := Quota(quotas, w) + 1];
    SumTake(after, w);
    if w in quotas {
      SumTake(quotas, w);
      assert after - {w} == quotas - {w};
    } else {
      assert after - {w} == quotas;
    }
  }

  /** The quotas count `top` worker by worker, and their sum is its size. */
  ghost predicate Counted(report: Report, quotas: map<string, nat>, top: set<Key>) {
    Sum(quotas) == |top| && forall w :: Quota(quotas, w) == |top * LiveOn(report, w)|
  }

  /**
   * The shares of the floor: the `want` most recently touched live processes of the fleet, counted per
   * worker. A negative floor is unset; outside the active window every share is 0.
   */
  method MinWarmQuotas(report: Report, want: int, windowOpen: bool)
    returns (quotas: map<string, nat>, ok: bool, ghost top: set<Key>)
    ensures ok <==> want >= 0
    ensures Counted(report, quotas, top)
    ensures MostRecent(report, top)
    ensures |top| == if want > 0 && windowOpen then R.Min(want, |Live(report)|) else 0
  {
    quotas, top := map[], {};
    ok := want >= 0;
    NoneCounted(report);
    if want <= 0 || !windowOpen {
      return;
    }
    var keys := ByRecency(report);
    var i := 0;
    while i < |keys| && i < want
      invariant 0 <= i <= |keys| && i <= want
      invariant quotas == Tally(report, keys[..i])
    {
      TallyNext(report, keys, i);
      var w := report[keys[i]].worker;
      quotas := quotas[w := Quota(quotas, w) + 1];
      i := i + 1;
    }
    top := R.Elems(keys[..i]);
    TopCounts(report, keys, i);
  }

  predicate Reported(report: Report, keys: seq<Key>) {
    forall i | 0 <= i < |keys| :: keys[i] in report
  }

  /** How often each worker occurs in a list of keys. */
  function Tally(report: Report, keys: seq<Key>): map<string, nat>
    requires Reported(report, keys)
  {
    if keys == [] then map[] else
      var rest := Tally(report, keys[..|keys| - 1]);
      var w := report[keys[|keys| - 1]].worker;
      rest[w := Quota(rest, w) + 1]
  }

  lemma TallyNext(report: Report, keys: seq<Key>, i: nat)
    requires RanksLive(report, keys) && i < |keys|
    ensures keys[i] in report
    ensures var w := report[keys[i]].worker; var q := Tally(report, keys[..i]);
      Tally(report, keys[..i + 1]) == q[w := Quota(q, w) + 1]
  {
    assert forall j | 0 <= j < |keys| :: keys[j] in Live(report);
    assert keys[..i + 1][..i] == keys[..i];
  }

  lemma TopCounts(report: Report, keys: seq<Key>, n: nat)
    requires RanksLive(report, keys) && n <= |keys|
    ensures var top := R.Elems(keys[..n]);
      Counted(report, Tally(report, keys[..n]), top) && MostRecent(report, top) && |top| == n &&
        |keys| == |Live(report)|
  {
    DistinctSize(keys);
    DistinctSize(keys[..n]);
    TallyCounts(report, keys[..n]);
    TopIsHead(report, keys, n);
  }

  lemma NoneCounted(report: Report)
    ensures Counted(report, map[], {})
  {
    assert forall w :: {} * LiveOn(report, w) == {};
  }

  lemma TallyStep(report: Report, keys: seq<Key>)
    requires keys != [] && R.Distinct(keys) && Reported(report, keys) && keys[|keys| - 1] in Live(report)
    requires Counted(report, Tally(report, keys[..|keys| - 1]), R.Elems(keys[..|keys| - 1]))
    ensures Counted(report, Tally(report, keys), R.Elems(keys))
  {
    var n := |keys| - 1;
    TallyLast(report, keys);
    ElemsLast(keys);
    CountNext(report, Tally(report, keys[..n]), R.Elems(keys[..n]), keys[n]);
  }

  lemma TallyLast(report: Report, keys: seq<Key>)
    requires keys != [] && Reported(report, keys)
    ensures var n := |keys| - 1; var q := Tally(report, keys[..n]); var w := report[keys[n]].worker;
      Tally(report, keys) == q[w := Quota(q, w) + 1]
  {
  }

  lemma ElemsLast(keys: seq<Key>)
    requires keys != [] && R.Distinct(keys)
    ensures var n := |keys| - 1;
      R.Elems(keys) == R.Elems(keys[..n]) + {keys[n]} && keys[n] !in R.Elems(keys[..n])
  {
    var n := |keys| - 1;
    HeadNext(keys, n);
    assert keys[..n + 1] == keys;
  }

  lemma {:induction false} TallyCounts(report: Report, keys: seq<Key>)
    requires R.Distinct(keys) && Reported(report, keys) && forall k | k in keys :: k in Live(report)
    ensures Counted(report, Tally(report, keys), R.Elems(keys))
  {
    if keys == [] {
      assert R.Elems(keys) == {};
      NoneCounted(report);
    } else {
      var n := |keys| - 1;
      TallyCounts(report, keys[..n]);
      TallyStep(report, keys);
    }
  }

  /** The live keys, each once, latest touch first. */
  ghost predicate RanksLive(report: Report, keys: seq<Key>) {
    && R.Distinct(keys) && R.Elems(keys) == Live(report)
    && Reported(report, keys) && (forall k | k in keys :: k in Live(report))
    && forall i, j | 0 <= i < j < |keys| :: report[keys[i]].touch >= report[keys[j]].touch
  }

  method ByRecency(report: Report) returns (keys: seq<Key>)
    ensures RanksLive(report, keys)
  {
    var procs := map k | k in Live(report) :: R.Proc(report[k].touch, 0, true, false);
    assert R.Candidates(procs) == Live(report);
    var cands := R.SortedCandidates(procs);
    keys := seq(|cands|, i requires 0 <= i < |cands| => cands[i].k);
    forall k | k in Live(report) ensures k in keys {
      var i :| 0 <= i < |cands| && cands[i].k == k;
      assert keys[i] == k;
    }
    forall i, j | 0 <= i < j < |keys| ensures report[keys[i]].touch >= report[keys[j]].touch {
      assert !R.Ahead(cands[j].k, cands[j].touch, cands[i].k, cands[i].touch);
    }
  }

  lemma {:induction false} DistinctSize(keys: seq<Key>)
    requires R.Distinct(keys)
    ensures |R.Elems(keys)| == |keys|
  {
    if keys != [] {
      var n := |keys| - 1;
      HeadNext(keys, n);
      assert keys[..n + 1] == keys;
      DistinctSize(keys[..n]);
    }
  }

  lemma HeadNext(keys: seq<Key>, i: nat)
    requires R.Distinct(keys) && i < |keys|
    ensures keys[i] in R.Elems(keys) && keys[i] !in R.Elems(keys[..i])
    ensures R.Elems(keys[..i + 1]) == R.Elems(keys[..i]) + {keys[i]}
  {
    assert keys[..i + 1] == keys[..i] + [keys[i]];
  }

  lemma SizeNext(report: Report, top: set<Key>, k: Key, w: string)
    requires k in Live(report) && k !in top
    ensures |(top + {k}) * LiveOn(report, w)| ==
            |top * LiveOn(report, w)| + (if w == report[k].worker then 1 else 0)
  {
    if w == report[k].worker {
      assert (top + {k}) * LiveOn(report, w) == top * LiveOn(report, w) + {k};
    } else {
      assert (top + {k}) * LiveOn(report, w) == top * LiveOn(report, w);
    }
  }

  lemma CountNext(report: Report, quotas: map<string, nat>, top: set<Key>, k: Key)
    requires Counted(report, quotas, top) && k in Live(report) && k !in top
    ensures Counted(report, quotas[report[k].worker := Quota(quotas, report[k].worker) + 1], top + {k})
  {
    var w' := report[k].worker;
    var after := quotas[w' := Quota(quotas, w') + 1];
    SumCountUp(quotas, w');
    forall w ensures Quota(after, w) == |(top + {k}) * LiveOn(report, w)| {
      SizeNext(report, top, k, w);
      assert Quota(quotas, w) == |top * LiveOn(report, w)|;
    }
    assert |top + {k}| == |top| + 1;
  }

  lemma TopIsHead(report: Report, keys: seq<Key>, n: nat)
    requires RanksLive(report, keys) && n <= |keys|
    ensures MostRecent(report, R.Elems(keys[..n]))
  {
    var top := R.Elems(keys[..n]);
    assert forall j | 0 <= j < n :: keys[..n][j] in top && keys[j] in R.Elems(keys);
    assert forall k | k in top :: k in R.Elems(keys);
    forall f, c | f in top && c in Live(report) - top ensures report[f].touch >= report[c].touch {
      var i :| 0 <= i < n && keys[..n][i] == f;
      assert c in R.Elems(keys);
      var j :| 0 <= j < |keys| && keys[j] == c;
      assert n <= j;
    }
  }

  // ---- What the workers protect together ----

  function RunningOn(report: Report, w: string): set<Key> {
    set k | k in LiveOn(report, w) && report[k].status == Running
  }

  ghost predicate AllRun(report: Report, keys: set<Key>)
    requires keys <= Live(report)
  {
    forall k | k in keys :: report[k].status == Running
  }

  /**
   * The worker has, ready, exactly what the report lists as running there, and protects a floor of its quota.
   * What is still starting has no floor yet.
   */
  ghost predicate InSync(report: Report, quotas: map<string, nat>, tables: map<string, map<Key, R.Proc>>,
                         floors: map<string, set<Key>>, w: string)
  {
    && w in tables && w in floors
    && R.Candidates(tables[w]) == RunningOn(report, w)
    && (forall c | c in RunningOn(report, w) :: tables[w][c].touch == report[c].touch)
    && R.IsFloor(tables[w], floors[w], Quota(quotas, w))
  }

  /** So has every worker with something live. In particular no key runs on two workers. */
  ghost predicate FleetInSync(report: Report, quotas: map<string, nat>, tables: map<string, map<Key, R.Proc>>,
                              floors: map<string, set<Key>>)
  {
    forall k | k in Live(report) :: InSync(report, quotas, tables, floors, report[k].worker)
  }

  ghost function Protected(report: Report, floors: map<string, set<Key>>): set<Key>
    requires forall k | k in Live(report) :: report[k].worker in floors
  {
    set k | k in Live(report) && k in floors[report[k].worker]
  }

  lemma Swap(a: set<Key>, b: set<Key>, x: Key) returns (y: Key)
    requires |a| == |b| && x in a && x !in b
    ensures y in b && y !in a
  {
    if b <= a {
      assert b <= a - {x};
      Subset(b, a - {x});
    }
    y :| y in b && y !in a;
  }

  lemma {:induction false} Subset(a: set<Key>, b: set<Key>)
    requires a <= b
    ensures |a| <= |b|
  {
    if a != {} {
      var x :| x in a;
      Subset(a - {x}, b - {x});
    }
  }

  /** A set with no more than another on every worker is no larger, and smaller if it has fewer on some. */
  lemma {:induction false} LeByWorker(report: Report, a: set<Key>, b: set<Key>, v: string)
    requires a <= Live(report) && b <= Live(report)
    requires forall w :: |a * LiveOn(report, w)| <= |b * LiveOn(report, w)|
    ensures |a| <= |b| && (|a * LiveOn(report, v)| < |b * LiveOn(report, v)| ==> |a| < |b|)
  {
    if a + b == {} {
      assert a * LiveOn(report, v) == {} && b * LiveOn(report, v) == {};
      return;
    }
    var k :| k in a + b;
    var w := report[k].worker;
    var a', b' := a - LiveOn(report, w), b - LiveOn(report, w);
    assert k in a + b && k !in a' + b' && a' + b' <= a + b;
    forall u ensures |a' * LiveOn(report, u)| <= |b' * LiveOn(report, u)| {
      WithoutWorker(report, a, w, u);
      WithoutWorker(report, b, w, u);
    }
    WithoutWorker(report, a, w, v);
    WithoutWorker(report, b, w, v);
    LeByWorker(report, a', b', v);
  }

  lemma WithoutWorker(report: Report, a: set<Key>, w: string, u: string)
    requires a <= Live(report)
    ensures (a - LiveOn(report, w)) * LiveOn(report, u) == if u == w then {} else a * LiveOn(report, u)
    ensures |a| == |a - LiveOn(report, w)| + |a * LiveOn(report, w)|
  {
    assert a == (a - LiveOn(report, w)) + a * LiveOn(report, w);
  }

  /** Sets that agree worker by worker in size agree in size. */
  lemma SizeByWorker(report: Report, a: set<Key>, b: set<Key>)
    requires a <= Live(report) && b <= Live(report)
    requires forall w :: |a * LiveOn(report, w)| == |b * LiveOn(report, w)|
    ensures |a| == |b|
  {
    LeByWorker(report, a, b, "");
    LeByWorker(report, b, a, "");
  }

  /** What a worker protects of the fleet is its floor. */
  lemma FloorIs(report: Report, quotas: map<string, nat>, tables: map<string, map<Key, R.Proc>>,
                floors: map<string, set<Key>>, w: string)
    requires FleetInSync(report, quotas, tables, floors) && LiveOn(report, w) != {}
    ensures w in tables && w in floors && R.IsFloor(tables[w], floors[w], Quota(quotas, w))
    ensures R.Candidates(tables[w]) == RunningOn(report, w)
    ensures Protected(report, floors) * LiveOn(report, w) == floors[w]
  {
    var k :| k in LiveOn(report, w);
    assert InSync(report, quotas, tables, floors, w);
    assert floors[w] <= RunningOn(report, w) <= LiveOn(report, w);
  }

  /** A worker keeps no more than its share of what the quotas count, and all of it if that runs. */
  lemma FloorSizes(report: Report, quotas: map<string, nat>, tables: map<string, map<Key, R.Proc>>,
                   floors: map<string, set<Key>>, top: set<Key>, w: string)
    requires FleetInSync(report, quotas, tables, floors) && top <= Live(report)
    requires Counted(report, quotas, top)
    ensures |Protected(report, floors) * LiveOn(report, w)| <= |top * LiveOn(report, w)|
    ensures AllRun(report, top) ==> |Protected(report, floors) * LiveOn(report, w)| == |top * LiveOn(report, w)|
  {
    if LiveOn(report, w) == {} {
      assert Protected(report, floors) * LiveOn(report, w) == {} && top * LiveOn(report, w) == {};
    } else {
      FloorIs(report, quotas, tables, floors, w);
      if AllRun(report, top) {
        Subset(top * LiveOn(report, w), RunningOn(report, w));
      }
    }
  }

  lemma ProtectedRun(report: Report, quotas: map<string, nat>, tables: map<string, map<Key, R.Proc>>,
                     floors: map<string, set<Key>>)
    requires FleetInSync(report, quotas, tables, floors)
    ensures AllRun(report, Protected(report, floors))
  {
    forall k | k in Protected(report, floors) ensures report[k].status == Running {
      assert k in LiveOn(report, report[k].worker);
      FloorIs(report, quotas, tables, floors, report[k].worker);
      assert k in RunningOn(report, report[k].worker);
    }
  }

  /**
   * If what the quotas count is running, the workers together protect as many processes as the floor asks for,
   * and the most recent ones: no unprotected process was touched later than a protected one, started or not,
   * however ties are broken anywhere.
   */
  lemma QuotasProtectTheTop(report: Report, quotas: map<string, nat>, tables: map<string, map<Key, R.Proc>>,
                            floors: map<string, set<Key>>, top: set<Key>)
    requires FleetInSync(report, quotas, tables, floors)
    requires MostRecent(report, top) && Counted(report, quotas, top) && AllRun(report, top)
    ensures |Protected(report, floors)| == |top| && MostRecent(report, Protected(report, floors))
  {
    var G := Protected(report, floors);
    forall w ensures |G * LiveOn(report, w)| == |top * LiveOn(report, w)| {
      FloorSizes(report, quotas, tables, floors, top, w);
    }
    SizeByWorker(report, G, top);
    forall g, c | g in G && c in Live(report) - G ensures report[g].touch >= report[c].touch {
      // Some f of the fleet's top is no later than g, and some d outside it is no earlier than c.
      var f, d := g, c;
      if g !in top {
        f := Swap(G * LiveOn(report, report[g].worker), top * LiveOn(report, report[g].worker), g);
        NotAheadOnWorker(report, quotas, tables, floors, g, f);
      }
      if c in top {
        d := Swap(top * LiveOn(report, report[c].worker), G * LiveOn(report, report[c].worker), c);
        NotAheadOnWorker(report, quotas, tables, floors, d, c);
      }
      assert report[f].touch >= report[d].touch;
    }
  }

  lemma NotAheadOnWorker(report: Report, quotas: map<string, nat>, tables: map<string, map<Key, R.Proc>>,
                         floors: map<string, set<Key>>, g: Key, c: Key)
    requires FleetInSync(report, quotas, tables, floors)
    requires g in Protected(report, floors) && c in Live(report) - Protected(report, floors)
    requires report[g].worker == report[c].worker && report[c].status == Running
    ensures report[g].touch >= report[c].touch
  {
    var w := report[g].worker;
    assert g in LiveOn(report, w) && c in LiveOn(report, w);
    FloorIs(report, quotas, tables, floors, w);
    assert c in RunningOn(report, w) && g in RunningOn(report, w);
    assert !R.AheadIn(tables[w], c, g);
  }

  /** A choice of the fleet's most recent that the quotas count and that runs throughout. */
  ghost predicate IsRunningTop(report: Report, quotas: map<string, nat>, top: set<Key>) {
    MostRecent(report, top) && Counted(report, quotas, top) && AllRun(report, top)
  }

  /**
   * The workers protect the fleet's floor exactly if some such choice exists; ties in the touches may leave
   * several, and what is still starting below them does no harm.
   */
  lemma ProtectTheTopIff(report: Report, quotas: map<string, nat>, tables: map<string, map<Key, R.Proc>>,
                         floors: map<string, set<Key>>, top: set<Key>)
    requires FleetInSync(report, quotas, tables, floors)
    requires MostRecent(report, top) && Counted(report, quotas, top)
    ensures |Protected(report, floors)| == |top| && MostRecent(report, Protected(report, floors)) <==>
      exists t :: IsRunningTop(report, quotas, t)
  {
    var G := Protected(report, floors);
    if t :| IsRunningTop(report, quotas, t) {
      QuotasProtectTheTop(report, quotas, tables, floors, t);
    }
    if |G| == |top| && MostRecent(report, G) {
      ProtectedRun(report, quotas, tables, floors);
      forall w ensures |G * LiveOn(report, w)| <= |top * LiveOn(report, w)| {
        FloorSizes(report, quotas, tables, floors, top, w);
      }
      forall w ensures Quota(quotas, w) == |G * LiveOn(report, w)| {
        LeByWorker(report, G, top, w);
      }
      assert IsRunningTop(report, quotas, G);
    }
  }

  ghost predicate DistinctTouches(report: Report) {
    forall j, k | j in Live(report) && k in Live(report) && report[j].touch == report[k].touch :: j == k
  }

  lemma MostRecentIsUnique(report: Report, a: set<Key>, b: set<Key>)
    requires MostRecent(report, a) && MostRecent(report, b) && |a| == |b| && DistinctTouches(report)
    ensures a == b
  {
    if x :| x in a && x !in b {
      var y := Swap(a, b, x);
    } else if y :| y in b && y !in a {
      var x := Swap(b, a, y);
    }
  }

  /** With distinct touches, the workers protect exactly the fleet's top if and only if all of it is running. */
  lemma DistinctTouchesProtectExactly(report: Report, quotas: map<string, nat>, tables: map<string, map<Key, R.Proc>>,
                                      floors: map<string, set<Key>>, top: set<Key>)
    requires FleetInSync(report, quotas, tables, floors) && DistinctTouches(report)
    requires MostRecent(report, top) && Counted(report, quotas, top)
    ensures Protected(report, floors) == top <==> AllRun(report, top)
  {
    ProtectedRun(report, quotas, tables, floors);
    if AllRun(report, top) {
      QuotasProtectTheTop(report, quotas, tables, floors, top);
      MostRecentIsUnique(report, Protected(report, floors), top);
    }
  }

  function StartingAbove(k: Key, other: Key): Report {
    map[k := Entry("a", 2, Starting), other := Entry("b", 1, Running)]
  }

  lemma StartingAboveCounts(k: Key, other: Key)
    requires k != other
    ensures DistinctTouches(StartingAbove(k, other)) && MostRecent(StartingAbove(k, other), {k})
    ensures Counted(StartingAbove(k, other), map["a" := 1], {k})
  {
    var report, quotas := StartingAbove(k, other), map["a" := 1];
    SumTake(quotas, "a");
    assert quotas - {"a"} == map[] && Live(report) == {k, other};
    forall w ensures Quota(quotas, w) == |{k} * LiveOn(report, w)| {
      assert {k} * LiveOn(report, w) == if w == "a" then {k} else {};
    }
  }

  /** A worker that runs what is reported and protects nothing is in sync if it has no quota or nothing runs. */
  lemma NothingToProtect(report: Report, quotas: map<string, nat>, tables: map<string, map<Key, R.Proc>>,
                         floors: map<string, set<Key>>, w: string, runs: set<Key>)
    requires w in tables && w in floors && floors[w] == {} && R.Candidates(tables[w]) == RunningOn(report, w) == runs
    requires forall c | c in runs :: tables[w][c].touch == report[c].touch
    requires Quota(quotas, w) == 0 || runs == {}
    ensures InSync(report, quotas, tables, floors, w)
  {
  }

  /** The case happens: a process reported while it starts takes a quota that its worker then spends on nothing. */
  lemma StartingProcessTakesAQuota(k: Key, other: Key)
    returns (tables: map<string, map<Key, R.Proc>>, floors: map<string, set<Key>>)
    requires k != other
    ensures DistinctTouches(StartingAbove(k, other)) && MostRecent(StartingAbove(k, other), {k})
    ensures Counted(StartingAbove(k, other), map["a" := 1], {k})
    ensures FleetInSync(StartingAbove(k, other), map["a" := 1], tables, floors)
    ensures Protected(StartingAbove(k, other), floors) == {}
  {
    StartingAboveCounts(k, other);
    tables := map["a" := map[k := R.Proc(2, 0, false, false)], "b" := map[other := R.Proc(1, 0, true, false)]];
    floors := map["a" := {}, "b" := {}];
    var report := StartingAbove(k, other);
    NothingToProtect(report, map["a" := 1], tables, floors, "a", {});
    NothingToProtect(report, map["a" := 1], tables, floors, "b", {other});
  }
}
