/** Which deployed commits have fallen out of a repository's branch history. */
module Reachability {

  type Hash(==,!new) = nat

  /** Parent lists of the commits the mirror has; a missing commit is a dead end of the walk. */
  type Graph = map<Hash, seq<Hash>>

  datatype Result = Ok(shas: seq<string>) | Cancelled

  function Parents(g: Graph, h: Hash): seq<Hash> {
    if h in g then g[h] else []
  }

  /** path[0] is a root and every next commit is a parent of the one before. */
  ghost predicate IsPath(g: Graph, roots: set<Hash>, path: seq<Hash>) {
    && path != [] && path[0] in roots
    && forall i | 0 <= i < |path| - 1 :: path[i] in g && path[i + 1] in g[path[i]]
  }

  ghost predicate Reaches(g: Graph, roots: set<Hash>, h: Hash) {
    exists path :: IsPath(g, roots, path) && path[|path| - 1] == h
  }

  /** The commits that names resolve to; a name the mirror does not know resolves to nothing. */
  function Resolved(resolve: map<string, Hash>, names: seq<string>): set<Hash> {
    set n | n in names && n in resolve :: resolve[n]
  }

  /** First occurrences of the names that satisfy `keep`, in input order. */
  function Select(names: seq<string>, keep: set<string>): seq<string> {
    if names == [] then [] else
      var n := |names| - 1;
      var rest := Select(names[..n], keep);
      if names[n] in keep && names[n] !in names[..n] then rest + [names[n]] else rest
  }

  /** The names that resolve to a commit no tip reaches. */
  ghost function Unreachable(g: Graph, resolve: map<string, Hash>, candidates: seq<string>,
      tips: seq<string>): set<string>
  {
    set n | n in candidates && n in resolve && !Reaches(g, Resolved(resolve, tips), resolve[n])
  }

  lemma ReachStep(g: Graph, roots: set<Hash>, h: Hash, p: Hash)
    requires Reaches(g, roots, h) && p in Parents(g, h)
    ensures Reaches(g, roots, p)
  {
    var path :| IsPath(g, roots, path) && path[|path| - 1] == h;
    assert IsPath(g, roots, path + [p]);
    assert (path + [p])[|path|] == p;
  }

  lemma ReachRoot(g: Graph, roots: set<Hash>, h: Hash)
    requires h in roots
    ensures Reaches(g, roots, h)
  {
    assert IsPath(g, roots, [h]);
    assert [h][|[h]| - 1] == h;
  }

  /** A set with the roots that is closed under parents holds everything reachable. */
  lemma {:induction false} ClosedHoldsPath(g: Graph, roots: set<Hash>, closed: set<Hash>, path: seq<Hash>)
    requires roots <= closed && forall h, p | h in closed && p in Parents(g, h) :: p in closed
    requires IsPath(g, roots, path)
    ensures path[|path| - 1] in closed
  {
    if |path| > 1 {
      ClosedHoldsPath(g, roots, closed, path[..|path| - 1]);
      assert path[|path| - 2] in closed;
    }
  }

  /** Every commit the walk can meet. */
  ghost function Universe(g: Graph, roots: set<Hash>): set<Hash> {
    roots + set h, i | h in g && 0 <= i < |g[h]| :: g[h][i]
  }

  /** What the depth-first walk keeps: visited commits are reachable and their parents visited or queued. */
  ghost predicate WalkInv(g: Graph, roots: set<Hash>, visited: set<Hash>, queue: seq<Hash>) {
    && (forall h | h in visited || h in queue :: Reaches(g, roots, h) && h in Universe(g, roots))
    && (forall h | h in roots :: h in visited || h in queue)
    && (forall h, p | h in visited && p in Parents(g, h) :: p in visited || p in queue)
  }

  /** Popping the last queued commit, and queueing its parents when it is new. */
  lemma WalkSkip(g: Graph, roots: set<Hash>, visited: set<Hash>, queue: seq<Hash>)
    requires WalkInv(g, roots, visited, queue) && queue != [] && queue[|queue| - 1] in visited
    ensures WalkInv(g, roots, visited, queue[..|queue| - 1])
  {
    assert queue == queue[..|queue| - 1] + [queue[|queue| - 1]];
  }

  lemma WalkVisit(g: Graph, roots: set<Hash>, visited: set<Hash>, queue: seq<Hash>, h: Hash)
    requires WalkInv(g, roots, visited, queue + [h])
    ensures WalkInv(g, roots, visited + {h}, queue + Parents(g, h))
  {
    var queue' := queue + Parents(g, h);
    forall x ensures x in queue' <==> x in queue || x in Parents(g, h) {
    }
    forall x ensures x in queue + [h] <==> x in queue || x == h {
    }
    forall p | p in Parents(g, h) ensures Reaches(g, roots, p) && p in Universe(g, roots) {
      ReachStep(g, roots, h, p);
    }
  }

  /** With an empty queue the visited commits are exactly the reachable ones. */
  lemma WalkDone(g: Graph, roots: set<Hash>, visited: set<Hash>, h: Hash)
    requires WalkInv(g, roots, visited, [])
    ensures Reaches(g, roots, h) <==> h in visited
  {
    if Reaches(g, roots, h) {
      var path :| IsPath(g, roots, path) && path[|path| - 1] == h;
      ClosedHoldsPath(g, roots, visited, path);
    }
  }

  function Filter(names: seq<string>, keep: set<string>): seq<string> {
    if names == [] then [] else
      Filter(names[..|names| - 1], keep) + (if names[|names| - 1] in keep then [names[|names| - 1]] else [])
  }

  lemma FilterNext(names: seq<string>, keep: set<string>, i: nat)
    requires i < |names|
    ensures Filter(names[..i + 1], keep) == Filter(names[..i], keep) + (if names[i] in keep then [names[i]] else [])
  {
    assert names[..i + 1][..i] == names[..i];
  }

  lemma {:induction false} FilterSelect(names: seq<string>, wide: set<string>, narrow: set<string>)
    requires narrow <= wide
    ensures Filter(Select(names, wide), narrow) == Select(names, narrow)
    ensures forall n :: n in Select(names, wide) <==> n in names && n in wide
  {
    if names != [] {
      var n := |names| - 1;
      FilterSelect(names[..n], wide, narrow);
      var rest := Select(names[..n], wide);
      assert (rest + [names[n]])[..|rest|] == rest;
      assert names == names[..n] + [names[n]];
    }
  }

  datatype Candidate = Candidate(orig: string, hash: Hash)

  function Origs(cands: seq<Candidate>): seq<string> {
    seq(|cands|, i requires 0 <= i < |cands| => cands[i].orig)
  }

  /** The first loop: distinct resolvable candidates and the set of their commits. */
  method Gather(resolve: map<string, Hash>, candidates: seq<string>)
    returns (cands: seq<Candidate>, remaining: set<Hash>)
    ensures Origs(cands) == Select(candidates, resolve.Keys)
    ensures forall i | 0 <= i < |cands| :: cands[i].orig in resolve && cands[i].hash == resolve[cands[i].orig]
    ensures forall h :: h in remaining <==> exists i :: 0 <= i < |cands| && cands[i].hash == h
  {
    cands, remaining := [], {};
    var seen: set<string> := {};
    var i := 0;
    while i < |candidates|
      invariant 0 <= i <= |candidates|
      invariant seen == set c | c in candidates[..i]
      invariant Origs(cands) == Select(candidates[..i], resolve.Keys)
      invariant forall j | 0 <= j < |cands| :: cands[j].orig in resolve && cands[j].hash == resolve[cands[j].orig]
      invariant forall h :: h in remaining <==> exists j :: 0 <= j < |cands| && cands[j].hash == h
    {
      var c := candidates[i];
      assert candidates[..i + 1][..i] == candidates[..i] && candidates[..i + 1] == candidates[..i] + [c];
      if c !in seen {
        seen := seen + {c};
        if c in resolve {
          var more := cands + [Candidate(c, resolve[c])];
          assert Origs(more) == Origs(cands) + [c];
          assert more[|cands|].hash == resolve[c];
          assert forall j | 0 <= j < |cands| :: more[j] == cands[j];
          cands, remaining := more, remaining + {resolve[c]};
        }
      }
      i := i + 1;
    }
    assert candidates[..i] == candidates;
  }

  ghost function Elems(tips: seq<Hash>): set<Hash> {
    set t | t in tips
  }

  /**
   * The ancestry walk. It stops when nothing is queued or every candidate was visited, so a candidate was
   * visited exactly if it is reachable. `cancelAt` is the round before which the context is cancelled,
   * negative for never.
   */
  method Walk(g: Graph, tips: seq<Hash>, wanted: set<Hash>, cancelAt: int) returns (visited: set<Hash>, cancelled: bool)
    ensures !cancelled ==> forall h | h in wanted :: h in visited <==> Reaches(g, Elems(tips), h)
    ensures cancelled ==> cancelAt >= 0
  {
    ghost var roots := Elems(tips);
    var queue, remaining, round := tips, wanted, 0;
    visited := {};
    forall h | h in roots ensures Reaches(g, roots, h) { ReachRoot(g, roots, h); }
    while queue != [] && remaining != {}
      invariant WalkInv(g, roots, visited, queue)
      invariant remaining == wanted - visited && round >= 0
      decreases Universe(g, roots) - visited, |queue|
    {
      if round == cancelAt {
        return visited, true;
      }
      round := round + 1;
      var h := queue[|queue| - 1];
      assert queue == queue[..|queue| - 1] + [h];
      queue := queue[..|queue| - 1];
      if h in visited {
        WalkSkip(g, roots, visited, queue + [h]);
        continue;
      }
      WalkVisit(g, roots, visited, queue, h);
      visited := visited + {h};
      remaining := remaining - {h};
      queue := queue + Parents(g, h);
    }
    cancelled := false;
    forall h | h in wanted ensures h in visited <==> Reaches(g, roots, h) {
      if remaining != {} { WalkDone(g, roots, visited, h); }
    }
  }

  /** The commits the walk starts from: those of the tips that resolve. */
  method Roots(resolve: map<string, Hash>, tips: seq<string>) returns (roots: seq<Hash>)
    ensures Elems(roots) == Resolved(resolve, tips)
  {
    roots := [];
    var i := 0;
    while i < |tips|
      invariant 0 <= i <= |tips|
      invariant forall h :: h in roots <==> h in Resolved(resolve, tips[..i])
    {
      assert tips[..i + 1] == tips[..i] + [tips[i]];
      if tips[i] in resolve {
        roots := roots + [resolve[tips[i]]];
      }
      i := i + 1;
    }
    assert tips[..i] == tips;
  }

  /**
   * UnreachableSHAs: exactly the distinct resolvable candidates that no tip reaches, in input order,
   * unless the context is cancelled during the walk.
   */
  method UnreachableSHAs(g: Graph, resolve: map<string, Hash>, candidates: seq<string>, tips: seq<string>,
      cancelAt: int)
    returns (r: Result)
    ensures r.Ok? ==> r.shas == Select(candidates, Unreachable(g, resolve, candidates, tips))
    ensures cancelAt < 0 ==> r.Ok?
  {
    var cands, remaining := Gather(resolve, candidates);
    ghost var gone := Unreachable(g, resolve, candidates, tips);
    FilterSelect(candidates, resolve.Keys, gone);
    if cands == [] {
      assert Origs(cands) == [];
      return Ok([]);
    }
    var roots := Roots(resolve, tips);
    var visited, cancelled := Walk(g, roots, remaining, cancelAt);
    if cancelled {
      return Cancelled;
    }
    var shas, i := [], 0;
    while i < |cands|
      invariant 0 <= i <= |cands| && shas == Filter(Origs(cands)[..i], gone)
    {
      var c := cands[i];
      FilterNext(Origs(cands), gone, i);
      assert c.orig in Select(candidates, resolve.Keys);
      assert c.hash in remaining;
      if c.hash !in visited {
        shas := shas + [c.orig];
      }
      i := i + 1;
    }
    assert Origs(cands)[..i] == Origs(cands);
    r := Ok(shas);
  }

  /** at[i] is where the i-th listed name first occurs, and these places increase. */
  ghost predicate FirstOccurrences(names: seq<string>, listed: seq<string>, at: seq<nat>) {
    && |at| == |listed|
    && (forall i | 0 <= i < |at| :: at[i] < |names| && names[at[i]] == listed[i] && listed[i] !in names[..at[i]])
    && (forall i, j | 0 <= i < j < |at| :: at[i] < at[j])
  }

  /** A longer list of names has its first occurrences where the shorter one has them. */
  lemma OccurrencesLater(names: seq<string>, listed: seq<string>, at: seq<nat>)
    requires names != [] && FirstOccurrences(names[..|names| - 1], listed, at)
    ensures FirstOccurrences(names, listed, at) && forall i | 0 <= i < |at| :: at[i] < |names| - 1
  {
    var n := |names| - 1;
    forall i | 0 <= i < |at| ensures at[i] < n && names[at[i]] == listed[i] && listed[i] !in names[..at[i]] {
      assert names[..n][at[i]] == listed[i] && names[..n][..at[i]] == names[..at[i]];
    }
  }

  lemma OneMoreOccurrence(names: seq<string>, listed: seq<string>, at: seq<nat>)
    requires names != [] && FirstOccurrences(names, listed, at) && forall i | 0 <= i < |at| :: at[i] < |names| - 1
    requires names[|names| - 1] !in names[..|names| - 1]
    ensures FirstOccurrences(names, listed + [names[|names| - 1]], at + [|names| - 1])
  {
  }

  /** What Select keeps: exactly the names to keep, each once, in the order of their first occurrences. */
  lemma {:induction false} SelectMeaning(names: seq<string>, keep: set<string>) returns (at: seq<nat>)
    ensures forall n :: n in Select(names, keep) <==> n in names && n in keep
    ensures forall i, j | 0 <= i < j < |Select(names, keep)| :: Select(names, keep)[i] != Select(names, keep)[j]
    ensures FirstOccurrences(names, Select(names, keep), at)
  {
    at := [];
    if names != [] {
      var n := |names| - 1;
      var before := SelectMeaning(names[..n], keep);
      assert names == names[..n] + [names[n]];
      OccurrencesLater(names, Select(names[..n], keep), before);
      at := before;
      if names[n] in keep && names[n] !in names[..n] {
        at := before + [n];
        OneMoreOccurrence(names, Select(names[..n], keep), before);
      }
    }
  }
}
