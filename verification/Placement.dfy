/** Where the control node places a key: rendezvous hashing among workers with room, least load otherwise. */
module Placement {
  import opened Basics
  import opened Keys

  /** What placement reads of a worker. maxWarm 0 or less is unlimited; lastBeat 0 is "never heard of". */
  datatype Worker = Worker(running: nat, maxWarm: int, draining: bool, reachable: bool, lastBeat: nat)
  {
    predicate Full() { maxWarm > 0 && running >= maxWarm }

    function Load(): real {
      if maxWarm > 0 then running as real / maxWarm as real else 0.0
    }
  }

  /** What the rendezvous hash is taken over. */
  datatype PlacementKey = PlacementKey(repo: int, hash: string)

  function KeyFor(k: Key): PlacementKey {
    PlacementKey(k.repo, if HasPeer(k) then k.peer else k.hash)
  }

  /** The rendezvous weight of a worker id for a key; which hash it is does not matter here. */
  type Weights = (string, PlacementKey) -> nat

  type Registry = map<string, Worker>

  /** When the registry is read: the clock and the staleness bound. */
  datatype Clock = Clock(now: nat, staleAfter: nat)

  predicate Fresh(w: Worker, clock: Clock) {
    w.reachable && w.lastBeat > 0 && clock.now - w.lastBeat < clock.staleAfter
  }

  predicate Takes(w: Worker, clock: Clock) {
    Fresh(w, clock) && !w.draining
  }

  function Takers(ws: Registry, clock: Clock): set<string> {
    set id | id in ws && Takes(ws[id], clock)
  }

  /** a is a strictly better place than b: room before no room, then weight, or load and then weight. */
  predicate Better(ws: Registry, hrw: Weights, key: PlacementKey, a: string, b: string)
    requires a in ws && b in ws
  {
    if ws[a].Full() && ws[b].Full() then
      ws[a].Load() < ws[b].Load() || (ws[a].Load() == ws[b].Load() && hrw(a, key) > hrw(b, key))
    else if !ws[a].Full() && !ws[b].Full() then hrw(a, key) > hrw(b, key)
    else !ws[a].Full()
  }

  /** Nothing that takes placements beats the choice, and there is none only when nothing takes them. */
  ghost predicate IsChoice(ws: Registry, clock: Clock, hrw: Weights, key: PlacementKey, r: Option<string>) {
    && (r.None? <==> Takers(ws, clock) == {})
    && (r.Some? ==>
          && r.value in Takers(ws, clock)
          && forall v | v in Takers(ws, clock) :: !Better(ws, hrw, key, v, r.value))
  }

  ghost predicate DistinctWeights(ws: Registry, hrw: Weights, key: PlacementKey) {
    forall a, b | a in ws && b in ws && hrw(a, key) == hrw(b, key) :: a == b
  }

  method List(ws: Registry) returns (ids: seq<string>)
    ensures forall id :: id in ids <==> id in ws
  {
    ids := [];
    var rest := ws.Keys;
    while rest != {}
      invariant rest <= ws.Keys && forall id :: id in ids <==> id in ws.Keys - rest
      decreases rest
    {
      var id :| id in rest;
      rest, ids := rest - {id}, ids + [id];
    }
  }

  /** The first of the heaviest, in the order given. */
  method TopWeight(ids: seq<string>, hrw: Weights, key: PlacementKey) returns (best: string)
    requires ids != []
    ensures best in ids && forall id | id in ids :: hrw(id, key) <= hrw(best, key)
  {
    best := ids[0];
    var score, i := hrw(best, key), 1;
    while i < |ids|
      invariant 1 <= i <= |ids| && best in ids && score == hrw(best, key)
      invariant forall j | 0 <= j < i :: hrw(ids[j], key) <= score
    {
      if hrw(ids[i], key) > score {
        best, score := ids[i], hrw(ids[i], key);
      }
      i := i + 1;
    }
  }

  method LeastLoaded(ws: Registry, ids: seq<string>, hrw: Weights, key: PlacementKey) returns (best: string)
    requires ids != [] && forall id | id in ids :: id in ws
    ensures best in ids
    ensures forall id | id in ids ::
      ws[best].Load() < ws[id].Load() || (ws[best].Load() == ws[id].Load() && hrw(id, key) <= hrw(best, key))
  {
    best := ids[0];
    var i := 1;
    while i < |ids|
      invariant 1 <= i <= |ids| && best in ids
      invariant forall j | 0 <= j < i ::
        ws[best].Load() < ws[ids[j]].Load() || (ws[best].Load() == ws[ids[j]].Load() &&
          hrw(ids[j], key) <= hrw(best, key))
    {
      var id := ids[i];
      if ws[id].Load() < ws[best].Load() || (ws[id].Load() == ws[best].Load() && hrw(id, key) > hrw(best, key)) {
        best := id;
      }
      i := i + 1;
    }
  }

  /** Registry.place, whatever order the registry is listed in. */
  method Place(ws: Registry, clock: Clock, hrw: Weights, k: Key) returns (r: Option<string>)
    ensures IsChoice(ws, clock, hrw, KeyFor(k), r)
  {
    var key := KeyFor(k);
    var ids := List(ws);
    var eligible, fallback := [], [];
    var i := 0;
    while i < |ids|
      invariant 0 <= i <= |ids|
      invariant forall id :: id in fallback <==> id in ids[..i] && id in Takers(ws, clock)
      invariant forall id :: id in eligible <==> id in fallback && !ws[id].Full()
    {
      var id := ids[i];
      assert ids[..i + 1] == ids[..i] + [id];
      if Takes(ws[id], clock) {
        fallback := fallback + [id];
        if ws[id].maxWarm <= 0 || ws[id].running < ws[id].maxWarm {
          eligible := eligible + [id];
        }
      }
      i := i + 1;
    }
    assert ids[..i] == ids;
    if eligible != [] {
      assert eligible[0] in Takers(ws, clock);
      var best := TopWeight(eligible, hrw, key);
      return Some(best);
    }
    if fallback == [] {
      assert forall id | id in Takers(ws, clock) :: id in fallback;
      return None;
    }
    assert fallback[0] in fallback;
    assert forall id | id in fallback :: ws[id].Full();
    var best := LeastLoaded(ws, fallback, hrw, key);
    r := Some(best);
  }

  // ---- What placement promises ----

  /** The choice is a function of the registry: no iteration order, and no other tie, decides it. */
  lemma ChoiceIsUnique(ws: Registry, clock: Clock, hrw: Weights, key: PlacementKey, r: Option<string>,
      q: Option<string>)
    requires IsChoice(ws, clock, hrw, key, r) && IsChoice(ws, clock, hrw, key, q)
    requires DistinctWeights(ws, hrw, key)
    ensures r == q
  {
    if r.Some? && q.Some? {
      assert !Better(ws, hrw, key, r.value, q.value) && !Better(ws, hrw, key, q.value, r.value);
    }
  }

  /** The order of the registry decides between two workers: equal weight, and both with room or equally loaded. */
  predicate Tied(ws: Registry, hrw: Weights, key: PlacementKey, a: string, b: string)
    requires a in ws && b in ws
  {
    && hrw(a, key) == hrw(b, key)
    && (ws[a].Full() <==> ws[b].Full())
    && (ws[a].Full() ==> ws[a].Load() == ws[b].Load())
  }

  /** Next to a choice, the other choices are exactly the workers that take placements and tie with it. */
  lemma ChoicesAreTied(ws: Registry, clock: Clock, hrw: Weights, key: PlacementKey, a: string, q: Option<string>)
    requires IsChoice(ws, clock, hrw, key, Some(a))
    ensures IsChoice(ws, clock, hrw, key, q) <==>
      q.Some? && q.value in Takers(ws, clock) && Tied(ws, hrw, key, a, q.value)
  {
    if q.Some? && q.value in Takers(ws, clock) {
      var b := q.value;
      if IsChoice(ws, clock, hrw, key, q) {
        assert !Better(ws, hrw, key, a, b) && !Better(ws, hrw, key, b, a);
      }
      if Tied(ws, hrw, key, a, b) {
        forall v | v in Takers(ws, clock) ensures !Better(ws, hrw, key, v, b) {
          assert !Better(ws, hrw, key, v, a);
        }
      }
    }
  }

  /** For instance two workers of equal weight, both with room. */
  lemma EqualWeightsLeaveAChoice(hrw: Weights, key: PlacementKey, a: string, b: string)
    requires a != b && hrw(a, key) == hrw(b, key)
    ensures var ws := map[a := Worker(0, 1, false, true, 1), b := Worker(0, 1, false, true, 1)];
      IsChoice(ws, Clock(1, 1), hrw, key, Some(a)) && IsChoice(ws, Clock(1, 1), hrw, key, Some(b))
  {
    var ws := map[a := Worker(0, 1, false, true, 1), b := Worker(0, 1, false, true, 1)];
    assert a in Takers(ws, Clock(1, 1));
  }

  /** Losing a worker moves only the keys that were placed on it. */
  lemma RemovalMovesOnlyItsKeys(ws: Registry, clock: Clock, hrw: Weights, key: PlacementKey, gone: string,
                                before: Option<string>, after: Option<string>)
    requires DistinctWeights(ws, hrw, key)
    requires IsChoice(ws, clock, hrw, key, before) && IsChoice(ws - {gone}, clock, hrw, key, after)
    ensures before != Some(gone) ==> after == before
  {
    if before != Some(gone) {
      var rest := ws - {gone};
      assert Takers(rest, clock) == Takers(ws, clock) - {gone};
      if before.None? {
        assert Takers(rest, clock) == {};
      } else {
        assert before.value in Takers(rest, clock);
        forall v | v in Takers(rest, clock) ensures !Better(rest, hrw, key, v, before.value) {
          assert !Better(ws, hrw, key, v, before.value);
        }
      }
      ChoiceIsUnique(rest, clock, hrw, key, before, after);
    }
  }

  /** A new worker takes keys only onto itself. */
  lemma AdditionMovesOnlyOntoIt(ws: Registry, clock: Clock, hrw: Weights, key: PlacementKey, id: string, w: Worker,
                                before: Option<string>, after: Option<string>)
    requires id !in ws && DistinctWeights(ws[id := w], hrw, key)
    requires IsChoice(ws, clock, hrw, key, before) && IsChoice(ws[id := w], clock, hrw, key, after)
    ensures after == before || after == Some(id)
  {
    assert ws[id := w] - {id} == ws;
    if after != Some(id) {
      RemovalMovesOnlyItsKeys(ws[id := w], clock, hrw, key, id, after, before);
    }
  }

  /** A full worker is chosen only when every fresh, non-draining worker is full. */
  lemma FullOnlyWhenAllFull(ws: Registry, clock: Clock, hrw: Weights, key: PlacementKey, r: Option<string>)
    requires IsChoice(ws, clock, hrw, key, r) && r.Some? && ws[r.value].Full()
    ensures forall id | id in ws && Takes(ws[id], clock) :: ws[id].Full()
  {
    forall id | id in ws && Takes(ws[id], clock) ensures ws[id].Full() {
      assert id in Takers(ws, clock) && !Better(ws, hrw, key, id, r.value);
    }
  }

  /** A process-mode frontend goes where its backend goes. */
  lemma PairPlacedTogether(ws: Registry, clock: Clock, hrw: Weights, fe: Key, r: Option<string>, q: Option<string>)
    requires HasPeer(fe) && DistinctWeights(ws, hrw, KeyFor(PeerOf(fe)))
    requires IsChoice(ws, clock, hrw, KeyFor(fe), r) && IsChoice(ws, clock, hrw, KeyFor(PeerOf(fe)), q)
    ensures r == q
  {
    ChoiceIsUnique(ws, clock, hrw, KeyFor(fe), r, q);
  }

  /** The worker has been heard of lately, and does not drain. */
  predicate TakesNow(w: Worker, clock: Clock) {
    w.reachable && w.lastBeat > 0 && w.lastBeat + clock.staleAfter > clock.now && !w.draining
  }

  predicate HasRoom(w: Worker) {
    w.maxWarm <= 0 || w.running < w.maxWarm
  }

  /**
   * What a placement is, worker by worker. Nothing is chosen exactly if no worker takes anything. The choice takes
   * placements; with room it outweighs or equals every other taker with room; without, no taker has room and it is
   * no fuller for its size than any other, nor outweighed by one as full.
   */
  lemma ChoiceMeans(ws: Registry, clock: Clock, hrw: Weights, key: PlacementKey, r: Option<string>, v: string)
    requires IsChoice(ws, clock, hrw, key, r) && v in ws && TakesNow(ws[v], clock)
    ensures r.Some? && r.value in ws && TakesNow(ws[r.value], clock)
    ensures HasRoom(ws[v]) ==> HasRoom(ws[r.value]) && hrw(v, key) <= hrw(r.value, key)
    ensures !HasRoom(ws[r.value]) ==>
      var b, x := ws[r.value], ws[v];
      && b.running as real / b.maxWarm as real <= x.running as real / x.maxWarm as real
      && (b.running as real / b.maxWarm as real == x.running as real / x.maxWarm as real ==>
            hrw(v, key) <= hrw(r.value, key))
  {
    assert v in Takers(ws, clock);
    assert !Better(ws, hrw, key, v, r.value);
  }

  /** A backend is placed by its repository and hash, and so is a frontend that has none. */
  lemma SameKeyIff(a: Key, b: Key)
    ensures KeyFor(a) == KeyFor(b) <==>
      && a.repo == b.repo
      && (if a.side == Frontend && a.peer != "" then a.peer else a.hash) ==
         (if b.side == Frontend && b.peer != "" then b.peer else b.hash)
  {
  }

  // ---- Hit counters ----

  /** One worker's hit counters as the control node sees them: banked history plus the current boot. */
  class HitCounters {
    var warmBase: nat
    var coldBase: nat
    var warm: nat
    var cold: nat

    constructor ()
      ensures warmBase == coldBase == warm == cold == 0
    {
      warmBase, coldBase, warm, cold := 0, 0, 0, 0;
    }

    function WarmTotal(): nat
      reads this
    {
      warmBase + warm
    }

    function ColdTotal(): nat
      reads this
    {
      coldBase + cold
    }

    /**
     * A heartbeat reports since-boot counters. The totals never fall, and grow by exactly the news: the
     * increase within one boot, or everything the new boot counted once a counter ran backwards.
     */
    method RecordHeartbeat(hbWarm: nat, hbCold: nat, reachable: bool)
      modifies this
      ensures WarmTotal() >= old(WarmTotal()) && ColdTotal() >= old(ColdTotal())
      ensures !reachable ==> WarmTotal() == old(WarmTotal()) && ColdTotal() == old(ColdTotal())
      ensures reachable ==> warm == hbWarm && cold == hbCold
      ensures reachable && hbWarm >= old(warm) && hbCold >= old(cold) ==>
        WarmTotal() == old(WarmTotal()) + (hbWarm - old(warm)) && ColdTotal() == old(ColdTotal()) + (hbCold - old(cold))
      ensures reachable && (hbWarm < old(warm) || hbCold < old(cold)) ==>
        WarmTotal() == old(WarmTotal()) + hbWarm && ColdTotal() == old(ColdTotal()) + hbCold
    {
      if reachable {
        if hbWarm < warm || hbCold < cold {
          warmBase, coldBase := warmBase + warm, coldBase + cold;
        }
        warm, cold := hbWarm, hbCold;
      }
    }
  }
}
