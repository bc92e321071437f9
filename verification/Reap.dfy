/** The warm policy of one node: the floor, idle timeouts and pruning to the warm target. */
module Reap {
  import opened Keys
  import opened Sequences

  /** The part of a tracked process the reaper reads. A touch of 0 is the zero time; idle 0 means no timeout. */
  datatype Proc = Proc(touch: nat, idle: int, ready: bool, exited: bool)

  datatype Cand = Cand(k: Key, touch: nat, idle: int)

  /** Seconds a touched process counts as actively used. */
  const WARM_ACTIVE_WINDOW := 120

  function Candidates(procs: map<Key, Proc>): set<Key> {
    set k | k in procs && procs[k].ready && !procs[k].exited
  }

  /** A backend whose frontend is live on this node. */
  ghost predicate Paired(procs: map<Key, Proc>, b: Key) {
    exists f | f in Candidates(procs) :: HasPeer(f) && PeerOf(f) == b && procs[f].touch > 0
  }

  /** a goes strictly ahead of b: touched later, or a backend against a frontend touched at the same time. */
  predicate Ahead(a: Key, aTouch: nat, b: Key, bTouch: nat) {
    aTouch > bTouch || (aTouch == bTouch && a.side == Backend && b.side == Frontend)
  }

  ghost predicate AheadIn(procs: map<Key, Proc>, a: Key, b: Key) {
    a in procs && b in procs && Ahead(a, procs[a].touch, b, procs[b].touch)
  }

  /** F is a choice of the n most recent candidates. */
  ghost predicate IsFloor(procs: map<Key, Proc>, F: set<Key>, n: nat) {
    && F <= Candidates(procs)
    && |F| == Min(n, |Candidates(procs)|)
    && forall f, c | f in F && c in Candidates(procs) - F :: !AheadIn(procs, c, f)
  }

  function Min(a: nat, b: nat): nat {
    if a < b then a else b
  }

  /** The idle timeout in force for k. */
  function IdleLimit(procs: map<Key, Proc>, k: Key, override: nat): int
    requires k in procs
  {
    if override > 0 then override else procs[k].idle
  }

  predicate TimedOut(procs: map<Key, Proc>, k: Key, override: nat, now: int)
    requires k in procs
  {
    IdleLimit(procs, k, override) > 0 && now - procs[k].touch > IdleLimit(procs, k, override)
  }

  predicate Active(procs: map<Key, Proc>, k: Key, now: int)
    requires k in procs
  {
    now - procs[k].touch < WARM_ACTIVE_WINDOW
  }

  // ---- Sorting ----

  ghost predicate Sorted(s: seq<Cand>) {
    forall i, j | 0 <= i < j < |s| :: !Ahead(s[j].k, s[j].touch, s[i].k, s[i].touch)
  }

  ghost predicate Distinct<T(!new)>(s: seq<T>) {
    forall i, j | 0 <= i < j < |s| :: s[i] != s[j]
  }

  /** Every element of s is the candidate entry of its key, each key once. */
  ghost predicate Lists(procs: map<Key, Proc>, s: seq<Cand>, keys: set<Key>) {
    && (forall i | 0 <= i < |s| :: s[i].k in keys && s[i].k in procs &&
          s[i].touch == procs[s[i].k].touch && s[i].idle == procs[s[i].k].idle)
    && (forall i, j | 0 <= i < j < |s| :: s[i].k != s[j].k)
    && (forall k | k in keys :: exists i :: 0 <= i < |s| && s[i].k == k)
  }

  lemma {:induction false} ListsSize(procs: map<Key, Proc>, s: seq<Cand>, keys: set<Key>)
    requires Lists(procs, s, keys)
    ensures |s| == |keys|
  {
    if s == [] {
      assert keys == {};
    } else {
      var n := |s| - 1;
      ListsDropLast(procs, s, keys);
      ListsSize(procs, s[..n], keys - {s[n].k});
    }
  }

  /** Collects the candidates in some order of the table and sorts them, most recent first. */
  method SortedCandidates(procs: map<Key, Proc>) returns (s: seq<Cand>)
    ensures Lists(procs, s, Candidates(procs)) && Sorted(s)
  {
    s := [];
    var rest := procs.Keys;
    while rest != {}
      invariant rest <= procs.Keys
      invariant Lists(procs, s, Candidates(procs) - rest) && Sorted(s)
      decreases rest
    {
      var k :| k in rest;
      ghost var before := Candidates(procs) - rest;
      if procs[k].ready && !procs[k].exited {
        assert k !in before;
        s := Insert(procs, s, Cand(k, procs[k].touch, procs[k].idle), before);
        assert before + {k} == Candidates(procs) - (rest - {k});
      } else {
        assert before == Candidates(procs) - (rest - {k});
      }
      rest := rest - {k};
    }
    assert Candidates(procs) - rest == Candidates(procs);
  }

  method Insert(procs: map<Key, Proc>, s: seq<Cand>, c: Cand, ghost keys: set<Key>) returns (t: seq<Cand>)
    requires Lists(procs, s, keys) && Sorted(s) && c.k !in keys
    requires c.k in procs && c.touch == procs[c.k].touch && c.idle == procs[c.k].idle
    ensures Lists(procs, t, keys + {c.k}) && Sorted(t)
  {
    var i := |s|;
    while i > 0 && Ahead(c.k, c.touch, s[i - 1].k, s[i - 1].touch)
      invariant 0 <= i <= |s|
      invariant forall j | i <= j < |s| :: Ahead(c.k, c.touch, s[j].k, s[j].touch)
    {
      i := i - 1;
    }
    t := s[..i] + [c] + s[i..];
    InsertAtIs(s, c, i);
    InsertLists(procs, s, c, i, keys);
    InsertSorted(s, c, i);
  }

  lemma ListsAppend(procs: map<Key, Proc>, s: seq<Cand>, c: Cand, keys: set<Key>)
    requires Lists(procs, s, keys) && c.k !in keys
    requires c.k in procs && c.touch == procs[c.k].touch && c.idle == procs[c.k].idle
    ensures Lists(procs, s + [c], keys + {c.k})
  {
    forall k | k in keys + {c.k} ensures exists i :: 0 <= i < |s| + 1 && (s + [c])[i].k == k {
      if k == c.k {
        assert (s + [c])[|s|].k == k;
      } else {
        var i :| 0 <= i < |s| && s[i].k == k;
        assert (s + [c])[i].k == k;
      }
    }
  }

  lemma ListsDropLast(procs: map<Key, Proc>, s: seq<Cand>, keys: set<Key>)
    requires Lists(procs, s, keys) && s != []
    ensures Lists(procs, s[..|s| - 1], keys - {s[|s| - 1].k})
  {
    var n := |s| - 1;
    forall k | k in keys - {s[n].k} ensures exists i :: 0 <= i < n && s[..n][i].k == k {
      var i :| 0 <= i < |s| && s[i].k == k;
      assert s[..n][i].k == k;
    }
  }

  lemma {:induction false} InsertLists(procs: map<Key, Proc>, s: seq<Cand>, c: Cand, i: nat, keys: set<Key>)
    requires Lists(procs, s, keys) && c.k !in keys && i <= |s|
    requires c.k in procs && c.touch == procs[c.k].touch && c.idle == procs[c.k].idle
    ensures Lists(procs, InsertAt(s, c, i), keys + {c.k})
  {
    if i == |s| {
      ListsAppend(procs, s, c, keys);
    } else {
      var n := |s| - 1;
      var last := s[n];
      ListsDropLast(procs, s, keys);
      InsertLists(procs, s[..n], c, i, keys - {last.k});
      ListsAppend(procs, InsertAt(s[..n], c, i), last, keys - {last.k} + {c.k});
      TakeAndAdd(keys, last.k, c.k);
    }
  }

  lemma InsertSorted(s: seq<Cand>, c: Cand, i: nat)
    requires Sorted(s) && i <= |s|
    requires forall j | i <= j < |s| :: Ahead(c.k, c.touch, s[j].k, s[j].touch)
    requires i > 0 ==> !Ahead(c.k, c.touch, s[i - 1].k, s[i - 1].touch)
    ensures Sorted(s[..i] + [c] + s[i..])
  {
    forall j | 0 <= j < i ensures !Ahead(c.k, c.touch, s[j].k, s[j].touch) {
      if j < i - 1 { assert !Ahead(s[i - 1].k, s[i - 1].touch, s[j].k, s[j].touch); }
    }
  }

  // ---- One pass ----

  /** Non-floor candidates nothing in the policy shields from the idle timeout. */
  ghost function Exposed(procs: map<Key, Proc>, floor: set<Key>): set<Key> {
    set k | k in Candidates(procs) - floor && !Paired(procs, k)
  }

  ghost function IdleStops(procs: map<Key, Proc>, floor: set<Key>, override: nat, now: int): set<Key> {
    set k | k in Exposed(procs, floor) && TimedOut(procs, k, override, now)
  }

  /** Those left after the idle stops that the warm target may prune. */
  ghost function Prunable(procs: map<Key, Proc>, floor: set<Key>, override: nat, now: int): set<Key> {
    set k | k in Exposed(procs, floor) && !TimedOut(procs, k, override, now) && !Active(procs, k, now)
  }

  ghost function Elems(s: seq<Key>): set<Key> {
    set k | k in s
  }

  ghost predicate InRange(s: seq<Cand>, lo: nat, hi: nat, k: Key)
    requires hi <= |s|
  {
    exists j :: lo <= j < hi && s[j].k == k
  }

  ghost function KeysOf(s: seq<Cand>): set<Key> {
    set i | 0 <= i < |s| :: s[i].k
  }

  /** The set form of pairedTouch: the backends of live frontends. */
  method PairedBackends(procs: map<Key, Proc>) returns (paired: set<Key>)
    ensures forall b :: b in paired <==> Paired(procs, b)
  {
    paired := {};
    var rest := procs.Keys;
    while rest != {}
      invariant rest <= procs.Keys
      invariant forall b :: b in paired <==>
        exists f | f in Candidates(procs) - rest :: HasPeer(f) && PeerOf(f) == b && procs[f].touch > 0
      decreases rest
    {
      var k :| k in rest;
      if procs[k].ready && !procs[k].exited && HasPeer(k) && procs[k].touch > 0 {
        paired := paired + {PeerOf(k)};
      }
      rest := rest - {k};
    }
  }

  lemma DropOne(procs: map<Key, Proc>, s: seq<Cand>, keys: set<Key>, i: nat)
    requires Lists(procs, s, keys) && Sorted(s) && i < |s|
    ensures Lists(procs, s[..i] + s[i + 1..], keys - {s[i].k}) && Sorted(s[..i] + s[i + 1..])
  {
    var t := s[..i] + s[i + 1..];
    forall k | k in keys - {s[i].k} ensures exists j :: 0 <= j < |t| && t[j].k == k {
      var j :| 0 <= j < |s| && s[j].k == k;
      assert t[if j < i then j else j - 1] == s[j];
    }
  }

  lemma HeadLists(procs: map<Key, Proc>, cands: seq<Cand>, keys: set<Key>, n: nat)
    requires Lists(procs, cands, keys) && n <= |cands|
    ensures Lists(procs, cands[..n], KeysOf(cands[..n]))
    ensures forall i | 0 <= i < |cands| :: cands[i].k in KeysOf(cands[..n]) <==> i < n
  {
    assert forall i | 0 <= i < n :: cands[..n][i].k in KeysOf(cands[..n]);
  }

  lemma FloorIsHead(procs: map<Key, Proc>, cands: seq<Cand>, minWarm: nat)
    requires Lists(procs, cands, Candidates(procs)) && Sorted(cands)
    ensures IsFloor(procs, KeysOf(cands[..Min(minWarm, |cands|)]), minWarm)
  {
    var n := Min(minWarm, |cands|);
    var F := KeysOf(cands[..n]);
    HeadLists(procs, cands, Candidates(procs), n);
    ListsSize(procs, cands, Candidates(procs));
    ListsSize(procs, cands[..n], F);
    forall f, c | f in F && c in Candidates(procs) - F ensures !AheadIn(procs, c, f) {
      var i :| 0 <= i < n && cands[..n][i].k == f;
      var j :| 0 <= j < |cands| && cands[j].k == c;
    }
  }

  /** First half of a pass: everything past the floor that is not paired and timed out goes. */
  method StopIdle(procs: map<Key, Proc>, cands: seq<Cand>, n: nat, paired: set<Key>, override: nat, now: int)
    returns (idle: seq<Key>, alive: seq<Cand>)
    requires Lists(procs, cands, Candidates(procs)) && Sorted(cands) && n <= |cands|
    requires forall b :: b in paired <==> Paired(procs, b)
    ensures Distinct(idle) && Elems(idle) == IdleStops(procs, KeysOf(cands[..n]), override, now)
    ensures forall k :: k in idle <==>
      k in Exposed(procs, KeysOf(cands[..n])) &&
      (if override > 0 then now - procs[k].touch > override
       else procs[k].idle > 0 && now - procs[k].touch > procs[k].idle)
    ensures Lists(procs, alive, Candidates(procs) - Elems(idle)) && Sorted(alive)
    ensures n <= |alive| && alive[..n] == cands[..n]
    ensures |alive| + |idle| == |cands|
  {
    idle, alive := [], cands[..n];
    IdlingStarts(procs, cands, n, override, now);
    var i := n;
    while i < |cands|
      invariant n <= i <= |cands|
      invariant Idling(procs, cands, n, i, override, now, idle, alive)
    {
      var c := cands[i];
      var limit := if override > 0 then override else c.idle;
      IdlingNext(procs, cands, n, i, override, now, idle, alive);
      if c.k !in paired && limit > 0 && now - c.touch > limit {
        idle := idle + [c.k];
      } else {
        alive := alive + [c];
      }
      i := i + 1;
    }
    IdlingEnds(procs, cands, n, override, now, idle, alive);
    IdleStopsIff(procs, KeysOf(cands[..n]), override, now, idle);
  }

  lemma IdleStopsIff(procs: map<Key, Proc>, floor: set<Key>, override: nat, now: int, idle: seq<Key>)
    requires Elems(idle) == IdleStops(procs, floor, override, now)
    ensures forall k :: k in idle <==>
      k in Exposed(procs, floor) &&
      (if override > 0 then now - procs[k].touch > override
       else procs[k].idle > 0 && now - procs[k].touch > procs[k].idle)
  {
    assert forall k :: k in idle <==> k in Elems(idle);
  }

  /** After entry i: what stopped so far is what idles out among n..i, and the rest is left in order. */
  ghost predicate Idling(procs: map<Key, Proc>, cands: seq<Cand>, n: nat, i: nat, override: nat, now: int,
      idle: seq<Key>, alive: seq<Cand>)
    requires n <= i <= |cands|
  {
    && n <= |alive| && alive[..n] == cands[..n] && |alive| + |idle| == i
    && Left(procs, cands, i, idle, alive)
    && forall k :: k in idle <==> StopsBefore(procs, cands, n, i, override, now, k)
  }

  lemma IdlingStarts(procs: map<Key, Proc>, cands: seq<Cand>, n: nat, override: nat, now: int)
    requires Lists(procs, cands, Candidates(procs)) && Sorted(cands) && n <= |cands|
    ensures Idling(procs, cands, n, n, override, now, [], cands[..n])
  {
    assert cands[..n] + cands[n..] == cands;
    assert Candidates(procs) - Elems([]) == Candidates(procs);
  }

  lemma IdlingNext(procs: map<Key, Proc>, cands: seq<Cand>, n: nat, i: nat, override: nat, now: int, idle: seq<Key>,
      alive: seq<Cand>)
    requires Lists(procs, cands, Candidates(procs)) && n <= i < |cands|
    requires Idling(procs, cands, n, i, override, now, idle, alive)
    ensures var c := cands[i];
      && c.k in procs && c.touch == procs[c.k].touch && c.idle == procs[c.k].idle
      && if !Paired(procs, c.k) && TimedOut(procs, c.k, override, now)
         then Idling(procs, cands, n, i + 1, override, now, idle + [c.k], alive)
         else Idling(procs, cands, n, i + 1, override, now, idle, alive + [c])
  {
    StopsNext(procs, cands, n, i, override, now);
    LeftNext(procs, cands, i, idle, alive);
    var more := alive + [cands[i]];
    assert more[..n] == alive[..n];
  }

  lemma IdlingEnds(procs: map<Key, Proc>, cands: seq<Cand>, n: nat, override: nat, now: int, idle: seq<Key>,
      alive: seq<Cand>)
    requires Lists(procs, cands, Candidates(procs)) && n <= |cands|
    requires Idling(procs, cands, n, |cands|, override, now, idle, alive)
    ensures Distinct(idle) && Elems(idle) == IdleStops(procs, KeysOf(cands[..n]), override, now)
    ensures Lists(procs, alive, Candidates(procs) - Elems(idle)) && Sorted(alive)
  {
    assert alive + cands[|cands|..] == alive;
    StopsAreIdleStops(procs, cands, n, override, now);
  }

  /** After i entries, those still alive and those to come are the candidates that did not idle out. */
  ghost predicate Left(procs: map<Key, Proc>, cands: seq<Cand>, i: nat, idle: seq<Key>, alive: seq<Cand>)
    requires i <= |cands|
  {
    && Distinct(idle) && Sorted(alive + cands[i..])
    && Lists(procs, alive + cands[i..], Candidates(procs) - Elems(idle))
  }

  lemma LeftNext(procs: map<Key, Proc>, cands: seq<Cand>, i: nat, idle: seq<Key>, alive: seq<Cand>)
    requires i < |cands| && Left(procs, cands, i, idle, alive)
    requires Lists(procs, cands, Candidates(procs))
    ensures cands[i].k in procs && cands[i].touch == procs[cands[i].k].touch && cands[i].idle == procs[cands[i].k].idle
    ensures Left(procs, cands, i + 1, idle, alive + [cands[i]])
    ensures Left(procs, cands, i + 1, idle + [cands[i].k], alive)
  {
    var c := cands[i];
    assert alive + [c] + cands[i + 1..] == alive + cands[i..];
    DropNext(procs, alive, cands[i..], Elems(idle));
    assert cands[i..][1..] == cands[i + 1..];
    assert Elems(idle + [c.k]) == Elems(idle) + {c.k};
    assert c.k !in Elems(idle);
    DistinctAppend(idle, c.k);
  }

  lemma DistinctAppend(s: seq<Key>, k: Key)
    requires Distinct(s) && k !in s
    ensures Distinct(s + [k])
  {
    DistinctConcat(s, [k]);
  }

  lemma DistinctConcat(s: seq<Key>, t: seq<Key>)
    requires Distinct(s) && Distinct(t) && forall k | k in s :: k !in t
    ensures Distinct(s + t)
  {
    var all := s + t;
    forall i, j | 0 <= i < j < |all| ensures all[i] != all[j] {
      if i < |s| <= j {
        assert all[i] == s[i] && all[j] == t[j - |s|];
        assert s[i] in s && t[j - |s|] in t;
      } else if j < |s| {
        assert all[i] == s[i] && all[j] == s[j];
      } else {
        assert all[i] == t[i - |s|] && all[j] == t[j - |s|];
      }
    }
  }

  /** Stopping the next candidate takes it out of the sorted list of those left. */
  lemma DropNext(procs: map<Key, Proc>, alive: seq<Cand>, rest: seq<Cand>, idle: set<Key>)
    requires rest != []
    requires Lists(procs, alive + rest, Candidates(procs) - idle) && Sorted(alive + rest)
    ensures rest[0].k !in idle
    ensures Lists(procs, alive + rest[1..], Candidates(procs) - (idle + {rest[0].k})) && Sorted(alive + rest[1..])
  {
    var all := alive + rest;
    DropOne(procs, all, Candidates(procs) - idle, |alive|);
    assert all[|alive|] == rest[0];
    assert all[..|alive|] + all[|alive| + 1..] == alive + rest[1..];
    assert Candidates(procs) - idle - {rest[0].k} == Candidates(procs) - (idle + {rest[0].k});
  }

  lemma StopsNext(procs: map<Key, Proc>, cands: seq<Cand>, n: nat, i: nat, override: nat, now: int)
    requires Lists(procs, cands, Candidates(procs)) && n <= i < |cands|
    ensures forall k :: StopsBefore(procs, cands, n, i + 1, override, now, k) <==>
      StopsBefore(procs, cands, n, i, override, now, k) ||
      (k == cands[i].k && !Paired(procs, k) && TimedOut(procs, k, override, now))
  {
    forall k | k in procs ensures InRange(cands, n, i + 1, k) <==> InRange(cands, n, i, k) || k == cands[i].k {
      if InRange(cands, n, i, k) {
        var j :| n <= j < i && cands[j].k == k;
        assert n <= j < i + 1;
      }
    }
  }

  /** k is one of the entries n..i that the idle timeout stops. */
  ghost predicate StopsBefore(procs: map<Key, Proc>, cands: seq<Cand>, n: nat, i: nat, override: nat, now: int, k: Key)
    requires n <= i <= |cands|
  {
    k in procs && !Paired(procs, k) && TimedOut(procs, k, override, now) && InRange(cands, n, i, k)
  }

  lemma StopsAreIdleStops(procs: map<Key, Proc>, cands: seq<Cand>, n: nat, override: nat, now: int)
    requires Lists(procs, cands, Candidates(procs)) && n <= |cands|
    ensures forall k :: k in IdleStops(procs, KeysOf(cands[..n]), override, now) <==>
                        StopsBefore(procs, cands, n, |cands|, override, now, k)
  {
    var F := KeysOf(cands[..n]);
    forall k | k in Candidates(procs) ensures k !in F <==> InRange(cands, n, |cands|, k) {
      var j :| 0 <= j < |cands| && cands[j].k == k;
      if j < n { assert cands[..n][j].k == k; }
    }
  }

  /** Second half of a pass, from the old end: the prunable entries of alive[n..], at most excess of them. */
  method Prune(procs: map<Key, Proc>, alive: seq<Cand>, n: nat, paired: set<Key>, now: int, excess: nat)
    returns (pruned: seq<Key>)
    requires n <= |alive| && Sorted(alive) && Lists(procs, alive, KeysOf(alive))
    requires forall b :: b in paired <==> Paired(procs, b)
    ensures Distinct(pruned) && |pruned| <= excess
    ensures forall k | k in pruned :: PrunableAt(procs, alive, n, now, k)
    ensures |pruned| < excess ==> forall k | PrunableAt(procs, alive, n, now, k) :: k in pruned
    ensures forall k, c | k in pruned && PrunableAt(procs, alive, n, now, c) && c !in pruned :: !AheadIn(procs, k, c)
    ensures forall i, j | 0 <= i < j < |pruned| :: !AheadIn(procs, pruned[i], pruned[j])
  {
    pruned := [];
    var left := excess;
    var i := |alive|;
    while i > n && left > 0
      invariant n <= i <= |alive| && left >= 0 && left + |pruned| == excess && Distinct(pruned)
      invariant forall k :: k in pruned <==> PrunableAt(procs, alive, i, now, k)
      invariant forall a, b | 0 <= a < b < |pruned| :: !AheadIn(procs, pruned[a], pruned[b])
    {
      i := i - 1;
      var c := alive[i];
      if c.k in paired || now - c.touch < WARM_ACTIVE_WINDOW {
        continue;
      }
      forall a | 0 <= a < |pruned| ensures pruned[a] != c.k && !AheadIn(procs, pruned[a], c.k) {
        assert PrunableAt(procs, alive, i + 1, now, pruned[a]);
        var j :| i + 1 <= j < |alive| && alive[j].k == pruned[a];
        assert !Ahead(alive[j].k, alive[j].touch, c.k, c.touch);
      }
      DistinctAppend(pruned, c.k);
      pruned := pruned + [c.k];
      left := left - 1;
    }
  }

  /** k is an unpaired, inactive entry of alive[n..]. */
  ghost predicate PrunableAt(procs: map<Key, Proc>, alive: seq<Cand>, n: nat, now: int, k: Key) {
    k in procs && !Paired(procs, k) && !Active(procs, k, now) && InRange(alive, n, |alive|, k)
  }

  /** What one pass over a table is to stop. */
  ghost predicate Decides(procs: map<Key, Proc>, minWarm: nat, maxWarm: nat, override: nat, now: int, idle: seq<Key>,
      pruned: seq<Key>, floor: set<Key>)
  {
    && Distinct(idle + pruned)
    // The floor is a choice of the most recent candidates, and nothing in it stops.
    && IsFloor(procs, floor, minWarm)
    && Elems(idle) == IdleStops(procs, floor, override, now)
    && Elems(pruned) <= Prunable(procs, floor, override, now)
    // Pruning needs a target, never goes below it, and takes the oldest first.
    && (pruned != [] ==> 0 < maxWarm <= |Candidates(procs)| - |idle| - |pruned|)
    && (forall k, c | k in pruned && c in Prunable(procs, floor, override, now) && c !in pruned ::
          !AheadIn(procs, k, c))
    && (forall i, j | 0 <= i < j < |pruned| :: !AheadIn(procs, pruned[i], pruned[j]))
    // Above the target only what may not be pruned is left.
    && (0 < maxWarm < |Candidates(procs)| - |idle| - |pruned| ==>
          Elems(pruned) == Prunable(procs, floor, override, now))
  }

  /**
   * The keys one reap pass stops: first for idling out, then for the warm target. A target or floor of
   * 0 is none, an override of 0 leaves the per-process timeouts in force.
   */
  method Reap(procs: map<Key, Proc>, minWarm: nat, maxWarm: nat, override: nat, now: int)
    returns (idle: seq<Key>, pruned: seq<Key>, ghost floor: set<Key>)
    ensures Decides(procs, minWarm, maxWarm, override, now, idle, pruned, floor)
    // In particular the server's limit, when set, stands for every process's own.
    ensures override > 0 ==>
      forall k :: k in idle <==> k in Exposed(procs, floor) && now - procs[k].touch > override
    ensures override == 0 ==>
      forall k :: k in idle <==>
        k in Exposed(procs, floor) && procs[k].idle > 0 && now - procs[k].touch > procs[k].idle
    // And what is pruned was not touched for two minutes.
    ensures forall k | k in pruned :: k in Exposed(procs, floor) && now - procs[k].touch >= 120
  {
    var cands := SortedCandidates(procs);
    ListsSize(procs, cands, Candidates(procs));
    var paired := PairedBackends(procs);
    var n := Min(minWarm, |cands|);
    floor := KeysOf(cands[..n]);
    FloorIsHead(procs, cands, minWarm);
    var alive;
    idle, alive := StopIdle(procs, cands, n, paired, override, now);
    pruned := [];
    if maxWarm > 0 && |alive| > maxWarm {
      AliveKeys(procs, alive, Candidates(procs) - Elems(idle));
      pruned := Prune(procs, alive, n, paired, now, |alive| - maxWarm);
      PrunableEntries(procs, alive, n, override, now, Elems(idle));
      forall k | k in idle ensures k !in pruned {
        assert k in Elems(idle);
      }
    }
    DistinctConcat(idle, pruned);
    IdleStopsIff(procs, floor, override, now, idle);
    assert forall k | k in pruned :: k in Elems(pruned);
  }

  /** Exposed are the healthy processes outside the floor that are not the backend of a live, touched frontend. */
  lemma ExposedIff(procs: map<Key, Proc>, floor: set<Key>, k: Key)
    ensures k in Exposed(procs, floor) <==>
      && k in procs && procs[k].ready && !procs[k].exited && k !in floor
      && !(exists f :: f in procs && procs[f].ready && !procs[f].exited && procs[f].touch > 0 &&
             f.side == Frontend && f.peer != "" && k == Key(f.repo, Backend, f.peer, ""))
  {
    if f :| f in procs && procs[f].ready && !procs[f].exited && procs[f].touch > 0 &&
            f.side == Frontend && f.peer != "" && k == Key(f.repo, Backend, f.peer, "") {
      assert f in Candidates(procs) && PeerOf(f) == k;
    }
  }

  /** A floor keeps as many of the healthy processes as asked, or all, and nothing outside was touched later. */
  lemma FloorMeans(procs: map<Key, Proc>, floor: set<Key>, n: nat, f: Key, c: Key)
    requires IsFloor(procs, floor, n) && f in floor
    requires c in procs && procs[c].ready && !procs[c].exited && c !in floor
    ensures |floor| == n
    ensures procs[f].ready && !procs[f].exited && procs[c].touch <= procs[f].touch
    ensures procs[c].touch == procs[f].touch ==> !(c.side == Backend && f.side == Frontend)
  {
    assert c in Candidates(procs) && !AheadIn(procs, c, f);
    if |floor| != n {
      ProperIsSmaller(floor, Candidates(procs), c);
    }
  }

  lemma {:induction false} ProperIsSmaller(a: set<Key>, b: set<Key>, x: Key)
    requires a <= b && x in b && x !in a
    ensures |a| < |b|
  {
    if a != {} {
      var y :| y in a;
      ProperIsSmaller(a - {y}, b - {y}, x);
    }
  }

  lemma AliveKeys(procs: map<Key, Proc>, alive: seq<Cand>, keys: set<Key>)
    requires Lists(procs, alive, keys)
    ensures KeysOf(alive) == keys
  {
  }

  /** The entries past the floor that Prune may take are exactly the prunable keys. */
  lemma PrunableEntries(procs: map<Key, Proc>, alive: seq<Cand>, n: nat, override: nat, now: int, idle: set<Key>)
    requires n <= |alive| && Lists(procs, alive, Candidates(procs) - idle)
    requires idle == IdleStops(procs, KeysOf(alive[..n]), override, now)
    ensures forall k :: PrunableAt(procs, alive, n, now, k) <==> k in Prunable(procs, KeysOf(alive[..n]), override, now)
  {
    var F := KeysOf(alive[..n]);
    forall k | k in Candidates(procs) - idle ensures k !in F <==> InRange(alive, n, |alive|, k) {
      var j :| 0 <= j < |alive| && alive[j].k == k;
      if j < n { assert alive[..n][j].k == k; }
    }
  }
}
