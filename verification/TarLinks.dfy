/**
 * Where extraction writes when an entry's path meets links that came before it. Names are confined to the
 * root as written; places are, exactly as long as no link that is met leads out.
 */
module TarLinks {

  import opened Basics
  import opened TarArchive

  ghost predicate HasDirAbove(cfg: Config, s: Progress, a: Path) {
    a != [] && Get(cfg, s, a).Some? ==> Get(cfg, s, Parent(a)) == Some(FsDir)
  }

  /** Everything there has a directory above it. */
  ghost predicate Tree(cfg: Config, s: Progress) {
    Get(cfg, s, []) == Some(FsDir) && forall a :: HasDirAbove(cfg, s, a)
  }

  /**
   * The root is not "/", it is written as the place it is, and the directories above it are directories. The
   * root's own name may hold anything.
   */
  ghost predicate RootChain(cfg: Config, s: Progress) {
    && cfg.root == cfg.home != [] && Plain(cfg.root) && Get(cfg, s, cfg.root).Some?
    && forall k | 0 <= k < |cfg.root| :: Get(cfg, s, cfg.root[..k]) == Some(FsDir)
  }

  ghost predicate Sound(cfg: Config, s: Progress) {
    Tree(cfg, s) && RootChain(cfg, s)
  }

  // ---- Lookups ----

  /** A lookup of a longer path goes on where the lookup of the shorter one ended, if that is a directory. */
  lemma {:induction false} ResolveJoins(cfg: Config, s: Progress, cur: Path, a: RawPath, b: RawPath, links: nat)
    requires Tree(cfg, s) && Get(cfg, s, cur) == Some(FsDir) && b != []
    ensures var f := Resolve(cfg, s, cur, a, links);
      Resolve(cfg, s, cur, a + b, links) ==
      if f.Found? && Get(cfg, s, f.place) == Some(FsDir) then Resolve(cfg, s, f.place, b, f.links) else Lost
    decreases links, |a|
  {
    if a == [] {
      assert a + b == b;
    } else {
      var next, rest := cur + [a[0]], a[1..];
      assert (a + b)[0] == a[0] && (a + b)[1..] == rest + b;
      if a[0] == "" || a[0] == "." {
        ResolveJoins(cfg, s, cur, rest, b, links);
      } else if a[0] == ".." {
        assert HasDirAbove(cfg, s, cur);
        ResolveJoins(cfg, s, Parent(cur), rest, b, links);
      } else {
        match Get(cfg, s, next)
        case Some(FsDir) => ResolveJoins(cfg, s, next, rest, b, links);
        case Some(FsLink(target)) =>
          if links > 0 {
            assert target + (rest + b) == (target + rest) + b;
            ResolveJoins(cfg, s, if IsAbs(target) then [] else cur, target + rest, b, links - 1);
          }
        case _ =>
      }
    }
  }

  /** What a lookup finds is there and no link, or missing from a directory that is there. */
  lemma {:induction false} ResolveFinds(cfg: Config, s: Progress, cur: Path, a: RawPath, links: nat)
    requires Tree(cfg, s) && Get(cfg, s, cur) == Some(FsDir)
    ensures var f := Resolve(cfg, s, cur, a, links);
      f.Found? ==>
        && !IsLink(Get(cfg, s, f.place))
        && (Get(cfg, s, f.place).None? ==> f.place != [] && Get(cfg, s, Parent(f.place)) == Some(FsDir))
    decreases links, |a|
  {
    if a != [] {
      var next, rest := cur + [a[0]], a[1..];
      assert Parent(next) == cur;
      if a[0] == "" || a[0] == "." {
        ResolveFinds(cfg, s, cur, rest, links);
      } else if a[0] == ".." {
        assert HasDirAbove(cfg, s, cur);
        ResolveFinds(cfg, s, Parent(cur), rest, links);
      } else {
        match Get(cfg, s, next)
        case Some(FsDir) => ResolveFinds(cfg, s, next, rest, links);
        case Some(FsLink(target)) =>
          if links > 0 {
            ResolveFinds(cfg, s, if IsAbs(target) then [] else cur, target + rest, links - 1);
          }
        case _ =>
      }
    }
  }

  lemma StatKept(cfg: Config, s: Progress, t: Progress, a: Path)
    requires KeepsWays(cfg, s, t) && Stat(cfg, s, a) == Some(FsDir)
    ensures Stat(cfg, t, a) == Some(FsDir) && PlaceOf(cfg, t, a) == PlaceOf(cfg, s, a)
  {
    ResolveKept(cfg, s, t, [], a, MAX_LINKS);
  }

  /** Looking up a name: in the directory its parent leads to, and through the link there if it is one. */
  lemma PlaceStep(cfg: Config, s: Progress, a: Path)
    requires Tree(cfg, s) && a != [] && PlainName(a[|a| - 1])
    ensures PlaceOf(cfg, s, a).Some? ==> Stat(cfg, s, Parent(a)) == Some(FsDir)
    ensures Stat(cfg, s, Parent(a)) == Some(FsDir) ==>
      var name := PlaceOf(cfg, s, Parent(a)).value + [a[|a| - 1]];
      NamePlace(cfg, s, a) == Some(name) && (!IsLink(Get(cfg, s, name)) ==> PlaceOf(cfg, s, a) == Some(name))
  {
    var c := a[|a| - 1];
    assert a == Parent(a) + [c];
    ResolveJoins(cfg, s, [], Parent(a), [c], MAX_LINKS);
    assert [c][1..] == [];
  }

  // ---- Leaving the root ----

  /** The prefixes of a from the root on that lead anywhere lead below the root. */
  ghost predicate StaysBelow(cfg: Config, s: Progress, a: Path) {
    forall k | |cfg.root| <= k <= |a| :: PlaceOf(cfg, s, a[..k]).Some? ==> cfg.root <= PlaceOf(cfg, s, a[..k]).value
  }

  /** Up to k the path is below the root, where its next name is a link that leads out. */
  ghost predicate MeetsWayOut(cfg: Config, s: Progress, a: Path, k: nat)
    requires |cfg.root| <= k <= |a| && 0 < k
  {
    && NamePlace(cfg, s, a[..k]).Some? && cfg.root <= NamePlace(cfg, s, a[..k]).value
    && IsLink(Get(cfg, s, NamePlace(cfg, s, a[..k]).value))
    && PlaceOf(cfg, s, a[..k]).Some? && !(cfg.root <= PlaceOf(cfg, s, a[..k]).value)
  }

  /** A chain of directories from "/" down, with no link in it. */
  ghost predicate IsChain(cfg: Config, s: Progress, a: Path) {
    Plain(a) && forall i | 0 <= i <= |a| :: Get(cfg, s, a[..i]) == Some(FsDir)
  }

  /** A directory at the end of one is found where it is. */
  lemma ChainEnds(cfg: Config, s: Progress, a: Path)
    requires IsChain(cfg, s, a)
    ensures Resolve(cfg, s, [], a, MAX_LINKS) == Found(a, MAX_LINKS)
    ensures PlaceOf(cfg, s, a) == Some(a) && Stat(cfg, s, a) == Some(FsDir) && MkdirAll(cfg, s, a) == s
  {
    ResolveChain(cfg, s, a);
    assert a[..|a|] == a;
  }

  lemma {:induction false} ResolveChain(cfg: Config, s: Progress, a: Path)
    requires IsChain(cfg, s, a)
    ensures Resolve(cfg, s, [], a, MAX_LINKS) == Found(a, MAX_LINKS)
    decreases |a|
  {
    if a != [] {
      var up, c := Parent(a), a[|a| - 1];
      ChainDropsLast(cfg, s, a);
      ResolveChain(cfg, s, up);
      ResolveGoesOn(cfg, s, [], up, [c], MAX_LINKS);
      OneName(cfg, s, up, c, MAX_LINKS);
    }
  }

  lemma ChainDropsLast(cfg: Config, s: Progress, a: Path)
    requires IsChain(cfg, s, a) && a != []
    ensures IsChain(cfg, s, Parent(a)) && Get(cfg, s, Parent(a)) == Some(FsDir) && Get(cfg, s, a) == Some(FsDir)
    ensures a == Parent(a) + [a[|a| - 1]] && PlainName(a[|a| - 1])
  {
    var up := Parent(a);
    assert a[..|a|] == a && up[..|up|] == up;
    forall i | 0 <= i <= |up| ensures Get(cfg, s, up[..i]) == Some(FsDir) {
      assert up[..i] == a[..i];
    }
  }

  lemma ChainIsFound(cfg: Config, s: Progress, k: nat)
    requires RootChain(cfg, s) && k < |cfg.root|
    ensures PlaceOf(cfg, s, cfg.root[..k]) == Some(cfg.root[..k]) && Stat(cfg, s, cfg.root[..k]) == Some(FsDir)
    ensures MkdirAll(cfg, s, cfg.root[..k]) == s
  {
    var a := cfg.root[..k];
    forall i | 0 <= i <= |a| ensures Get(cfg, s, a[..i]) == Some(FsDir) {
      assert a[..i] == cfg.root[..i];
    }
    ChainEnds(cfg, s, a);
  }

  /** The path of a name below the root leaves it exactly if it meets, still below, a link that leads out. */
  lemma {:induction false} LeavesIffMeetsWayOut(cfg: Config, s: Progress, a: Path)
    requires Sound(cfg, s) && Plain(a) && cfg.root <= a
    ensures !StaysBelow(cfg, s, a) <==> exists k :: |cfg.root| <= k <= |a| && 0 < k && MeetsWayOut(cfg, s, a, k)
    decreases |a|
  {
    if !StaysBelow(cfg, s, a) {
      var k := FirstOut(cfg, s, a);
    }
  }

  lemma {:induction false} FirstOut(cfg: Config, s: Progress, a: Path) returns (k: nat)
    requires Sound(cfg, s) && Plain(a) && cfg.root <= a && a != [] && !StaysBelow(cfg, s, a)
    ensures |cfg.root| <= k <= |a| && 0 < k && MeetsWayOut(cfg, s, a, k)
    decreases |a|
  {
    var n := |a|;
    var up := Parent(a);
    assert forall i | 0 <= i < n :: a[..i] == up[..i];
    assert a[..n] == a;
    if n > |cfg.root| && up != [] && !StaysBelow(cfg, s, up) {
      k := FirstOut(cfg, s, up);
      assert a[..k] == up[..k];
    } else {
      k := n;
      PlaceStep(cfg, s, a);
      if n == |cfg.root| {
        ChainIsFound(cfg, s, n - 1);
        assert up == cfg.root[..n - 1];
      } else {
        assert up[..n - 1] == up;
      }
    }
  }

  // ---- Writing ----

  lemma GetPut(cfg: Config, s: Progress, a: Path, node: FsNode, q: Path)
    ensures Get(cfg, Put(cfg, s, a, node), q) == if q == a then Some(node) else Get(cfg, s, q)
  {
    if cfg.home <= a && cfg.home <= q && a[|cfg.home|..] == q[|cfg.home|..] {
      assert a == cfg.home + a[|cfg.home|..] && q == cfg.home + q[|cfg.home|..];
    }
  }

  lemma GetDrop(cfg: Config, s: Progress, a: Path, q: Path)
    ensures Get(cfg, Drop(cfg, s, a), q) == if q == a then None else Get(cfg, s, q)
  {
    if cfg.home <= a && cfg.home <= q && a[|cfg.home|..] == q[|cfg.home|..] {
      assert a == cfg.home + a[|cfg.home|..] && q == cfg.home + q[|cfg.home|..];
    }
  }

  /** t differs from s at the one place at most. */
  ghost predicate SameBut(cfg: Config, s: Progress, t: Progress, place: Path) {
    forall q | q != place :: Get(cfg, t, q) == Get(cfg, s, q)
  }

  /** A place that was free, below a directory, or that held nothing with something below it, may hold anything. */
  lemma SoundWith(cfg: Config, s: Progress, t: Progress, place: Path)
    requires Sound(cfg, s) && SameBut(cfg, s, t, place) && Get(cfg, t, place).Some?
    requires place != [] && Get(cfg, s, Parent(place)) == Some(FsDir)
    requires Get(cfg, t, place) == Get(cfg, s, place) || Childless(cfg, s, place)
    ensures Sound(cfg, t)
  {
    assert Parent(place) != place;
    forall a ensures HasDirAbove(cfg, t, a) {
      assert HasDirAbove(cfg, s, a);
      if a != [] && Parent(a) == place { assert Get(cfg, t, a) == Get(cfg, s, a); }
    }
    forall k | 0 <= k < |cfg.root| ensures Get(cfg, t, cfg.root[..k]) == Some(FsDir) {
      assert Get(cfg, s, cfg.root[..k]) == Some(FsDir);
      assert Parent(cfg.root[..k + 1]) == cfg.root[..k];
      assert cfg.root[..|cfg.root|] == cfg.root;
      assert k + 1 < |cfg.root| ==> Get(cfg, s, cfg.root[..k + 1]) == Some(FsDir);
    }
  }

  ghost predicate Childless(cfg: Config, s: Progress, place: Path) {
    forall a | a != [] && Parent(a) == place :: Get(cfg, s, a).None?
  }

  /** Anything but a directory has nothing below it, and so has whatever can be removed. */
  lemma ChildlessIf(cfg: Config, s: Progress, place: Path)
    requires Tree(cfg, s)
    requires Get(cfg, s, place) != Some(FsDir) || Removable(cfg, s, place)
    ensures Childless(cfg, s, place)
  {
    forall a | a != [] && Parent(a) == place ensures Get(cfg, s, a).None? {
      assert HasDirAbove(cfg, s, a);
      assert place < a;
      if cfg.root <= a {
        assert cfg.root + a[|cfg.root|..] == a;
      }
    }
  }

  /** t is s with directories made where nothing was. */
  ghost predicate Grows(cfg: Config, s: Progress, t: Progress) {
    forall q :: Get(cfg, t, q) == Get(cfg, s, q) || (Get(cfg, s, q).None? && Get(cfg, t, q) == Some(FsDir))
  }

  /** A directory made in a directory that is there. */
  lemma NewDir(cfg: Config, s: Progress, place: Path)
    requires Sound(cfg, s) && place != [] && Get(cfg, s, Parent(place)) == Some(FsDir) && Get(cfg, s, place).None?
    ensures var t := Put(cfg, s, place, FsDir); Sound(cfg, t) && Grows(cfg, s, t) && SameBut(cfg, s, t, place)
  {
    var t := Put(cfg, s, place, FsDir);
    forall q ensures Get(cfg, t, q) == if q == place then Some(FsDir) else Get(cfg, s, q) {
      GetPut(cfg, s, place, FsDir, q);
    }
    ChildlessIf(cfg, s, place);
    SoundWith(cfg, s, t, place);
  }

  lemma NameIsInDir(cfg: Config, s: Progress, a: Path)
    requires Tree(cfg, s) && NamePlace(cfg, s, a).Some?
    ensures var place := NamePlace(cfg, s, a).value;
      place != [] && Parent(place) == PlaceOf(cfg, s, Parent(a)).value && Get(cfg, s, Parent(place)) == Some(FsDir)
  {
  }

  /** What os.MkdirAll of a leaves: only new directories, and a itself found, empty unless nothing changed. */
  ghost predicate Made(cfg: Config, s: Progress, t: Progress, a: Path) {
    t.err.None? ==>
      Sound(cfg, t) && Grows(cfg, s, t) && Stat(cfg, t, a) == Some(FsDir) &&
      (t == s || Childless(cfg, t, PlaceOf(cfg, t, a).value))
  }

  lemma {:induction false} MkdirMakes(cfg: Config, s: Progress, a: Path)
    requires Sound(cfg, s) && Plain(a) && s.err.None?
    ensures Made(cfg, s, MkdirAll(cfg, s, a), a)
    decreases |a|
  {
    if Stat(cfg, s, a).None? && a != [] {
      MkdirMakes(cfg, s, Parent(a));
      var t := MkdirAll(cfg, s, Parent(a));
      if t.err.None? {
        MkdirLastMakes(cfg, s, t, a);
      }
    }
  }

  lemma MkdirLastMakes(cfg: Config, s: Progress, t: Progress, a: Path)
    requires Sound(cfg, s) && Plain(a) && a != [] && Stat(cfg, s, a).None? && t.err.None?
    requires Made(cfg, s, t, Parent(a))
    ensures Made(cfg, s, MkdirLast(cfg, t, a), a)
    ensures var r := MkdirLast(cfg, t, a);
      r.err.None? ==> r == Put(cfg, t, NamePlace(cfg, t, a).value, FsDir) && PlaceOf(cfg, r, a) == NamePlace(cfg, t, a)
  {
    PlaceStep(cfg, t, a);
    NameIsInDir(cfg, t, a);
    var place := NamePlace(cfg, t, a).value;
    if Get(cfg, t, place).None? {
      NewDir(cfg, t, place);
      var r := Put(cfg, t, place, FsDir);
      GetPut(cfg, t, place, FsDir, place);
      StatKept(cfg, t, r, Parent(a));
      PlaceStep(cfg, r, a);
      ChildlessIf(cfg, t, place);
      ChildlessKept(cfg, t, r, place);
    } else {
      NoDirYet(cfg, s, t, a);
    }
  }

  lemma ChildlessKept(cfg: Config, s: Progress, t: Progress, place: Path)
    requires Childless(cfg, s, place) && SameBut(cfg, s, t, place) && place != []
    ensures Childless(cfg, t, place)
  {
    forall a | a != [] && Parent(a) == place ensures Get(cfg, t, a).None? {
      assert Get(cfg, t, a) == Get(cfg, s, a);
    }
  }

  /** If a was not found, the directory its name would be in is new and empty, or has no directory of that name. */
  lemma NoDirYet(cfg: Config, s: Progress, t: Progress, a: Path)
    requires Sound(cfg, s) && Plain(a) && a != [] && Stat(cfg, s, a).None?
    requires Made(cfg, s, t, Parent(a)) && t.err.None? && NamePlace(cfg, t, a).Some?
    ensures Get(cfg, t, NamePlace(cfg, t, a).value) != Some(FsDir)
  {
    NameIsInDir(cfg, t, a);
    if t == s {
      PlaceStep(cfg, s, a);
    }
  }

  // ---- Writing below the root ----

  predicate LiesBelow(cfg: Config, s: Progress, a: Path) {
    PlaceOf(cfg, s, a).Some? && cfg.root <= PlaceOf(cfg, s, a).value
  }

  /** As long as a path stays below the root, os.MkdirAll touches nothing outside and ends below the root. */
  lemma {:induction false} MkdirStays(cfg: Config, s: Progress, a: Path)
    requires Sound(cfg, s) && Plain(a) && s.err.None? && (cfg.root <= a || a == Parent(cfg.root)) &&
      StaysBelow(cfg, s, a)
    ensures var t := MkdirAll(cfg, s, a);
      t.host == s.host && (t.err.None? && cfg.root <= a ==> LiesBelow(cfg, t, a))
    decreases |a|
  {
    assert a[..|a|] == a;
    if !(cfg.root <= a) {
      ChainIsFound(cfg, s, |a|);
    } else if Stat(cfg, s, a).None? && a != [] {
      var up := Parent(a);
      if |a| == |cfg.root| {
        assert up == Parent(cfg.root);
      } else {
        assert cfg.root <= up;
      }
      forall k | |cfg.root| <= k <= |up| && PlaceOf(cfg, s, up[..k]).Some?
        ensures cfg.root <= PlaceOf(cfg, s, up[..k]).value
      {
        assert up[..k] == a[..k];
      }
      MkdirStays(cfg, s, up);
      MkdirMakes(cfg, s, up);
      var t := MkdirAll(cfg, s, up);
      if t.err.None? {
        MkdirLastMakes(cfg, s, t, a);
        NameStays(cfg, t, a);
      }
    }
  }

  /** The name of a, in a directory below the root, is below the root; so is the root's own name. */
  lemma NameStays(cfg: Config, t: Progress, a: Path)
    requires Sound(cfg, t) && Plain(a) && cfg.root <= a && a != [] && Stat(cfg, t, Parent(a)) == Some(FsDir)
    requires |a| > |cfg.root| ==> LiesBelow(cfg, t, Parent(a))
    ensures NamePlace(cfg, t, a).Some? && cfg.root <= NamePlace(cfg, t, a).value
  {
    PlaceStep(cfg, t, a);
    if |a| == |cfg.root| {
      ChainIsFound(cfg, t, |a| - 1);
      assert Parent(a) == cfg.root[..|a| - 1];
    }
  }

  /** t is what os.MkdirAll of the directory of a made of s. */
  ghost predicate DirMade(cfg: Config, s: Progress, t: Progress, a: Path) {
    && Sound(cfg, s) && Plain(a) && cfg.root <= a && s.err.None?
    && t == MkdirAll(cfg, s, Parent(a)) && t.err.None?
  }

  lemma UpStays(cfg: Config, s: Progress, a: Path)
    requires Sound(cfg, s) && Plain(a) && cfg.root <= a && s.err.None? && StaysBelow(cfg, s, Parent(a))
    ensures var t := MkdirAll(cfg, s, Parent(a));
      t.host == s.host && (t.err.None? && |a| > |cfg.root| ==> LiesBelow(cfg, t, Parent(a)))
  {
    var up := Parent(a);
    if |a| > |cfg.root| { assert cfg.root <= up; } else { assert a == cfg.root; }
    MkdirStays(cfg, s, up);
  }

  lemma DirMadeIs(cfg: Config, s: Progress, t: Progress, a: Path)
    requires DirMade(cfg, s, t, a) && StaysBelow(cfg, s, Parent(a))
    ensures t.host == s.host && Made(cfg, s, t, Parent(a))
    ensures NamePlace(cfg, t, a).Some? && cfg.root <= NamePlace(cfg, t, a).value
  {
    UpStays(cfg, s, a);
    MkdirMakes(cfg, s, Parent(a));
    NameStays(cfg, t, a);
  }

  lemma StaysUpTo(cfg: Config, s: Progress, a: Path)
    requires StaysBelow(cfg, s, a)
    ensures StaysBelow(cfg, s, Parent(a))
  {
    forall k | |cfg.root| <= k <= |Parent(a)| && PlaceOf(cfg, s, Parent(a)[..k]).Some?
      ensures cfg.root <= PlaceOf(cfg, s, Parent(a)[..k]).value
    {
      assert Parent(a)[..k] == a[..k];
    }
  }

  /** A file whose path stays below the root lands below it. */
  lemma FilePlaceStays(cfg: Config, s: Progress, t: Progress, a: Path)
    requires DirMade(cfg, s, t, a) && StaysBelow(cfg, s, a)
    ensures t.host == s.host && (PlaceOf(cfg, t, a).Some? ==> LiesBelow(cfg, t, a))
  {
    StaysUpTo(cfg, s, a);
    DirMadeIs(cfg, s, t, a);
    assert a[..|a|] == a;
    if t != s {
      PlaceStep(cfg, t, a);
      NameIsInDir(cfg, t, a);
    }
  }

  lemma WriteStays(cfg: Config, s: Progress, t: Progress, a: Path, content: Bytes, perm: nat)
    requires DirMade(cfg, s, t, a) && StaysBelow(cfg, s, a)
    ensures WriteFile(cfg, t, a, content, perm).host == s.host
  {
    FilePlaceStays(cfg, s, t, a);
    StaysUpTo(cfg, s, a);
    DirMadeIs(cfg, s, t, a);
    WriteBelowStays(cfg, t, a, content, perm);
  }

  /** A file whose name and place are below the root. */
  lemma WriteBelowStays(cfg: Config, t: Progress, a: Path, content: Bytes, perm: nat)
    requires NamePlace(cfg, t, a).Some? && cfg.root <= NamePlace(cfg, t, a).value
    requires PlaceOf(cfg, t, a).Some? ==> cfg.root <= PlaceOf(cfg, t, a).value
    requires cfg.root == cfg.home
    ensures WriteFile(cfg, t, a, content, perm).host == t.host
  {
    if PlaceOf(cfg, t, a).Some? {
      var place := PlaceOf(cfg, t, a).value;
      if Get(cfg, t, place).None? || Get(cfg, t, place).value.FsFile? {
        NamePlaceKept(cfg, t, place, a);
      }
    }
  }

  /** Writing a file does not move names. */
  lemma NamePlaceKept(cfg: Config, t: Progress, place: Path, a: Path)
    requires Get(cfg, t, place).None? || Get(cfg, t, place).value.FsFile?
    requires NamePlace(cfg, t, a).Some?
    ensures forall content, mode, n ::
      NamePlace(cfg, Put(cfg, t, place, FsFile(content, mode)).(total := n), a) == NamePlace(cfg, t, a)
  {
    forall content, mode, n: nat
      ensures NamePlace(cfg, Put(cfg, t, place, FsFile(content, mode)).(total := n), a) == NamePlace(cfg, t, a)
    {
      var u := Put(cfg, t, place, FsFile(content, mode)).(total := n);
      forall q | Get(cfg, t, q).Some? && !Get(cfg, t, q).value.FsFile? ensures Get(cfg, u, q) == Get(cfg, t, q) {
        GetPut(cfg, t, place, FsFile(content, mode), q);
      }
      StatKept(cfg, t, u, Parent(a));
    }
  }

  /** The path an entry's extraction follows links on: a link itself is made, not followed. */
  function Followed(a: Path, body: Body): Path {
    if body.DirBody? || body.FileBody? then a else Parent(a)
  }

  /** An entry whose path stays below the root changes nothing outside. */
  lemma EntryStays(cfg: Config, s: Progress, a: Path, body: Body)
    requires Sound(cfg, s) && s.err.None? && Plain(a) && cfg.root <= a && StaysBelow(cfg, s, Followed(a, body))
    ensures ExtractTo(cfg, s, a, body).host == s.host
  {
    if body.DirBody? {
      MkdirStays(cfg, s, a);
    } else if !body.OtherBody? {
      if body.FileBody? { StaysUpTo(cfg, s, a); }
      UpStays(cfg, s, a);
      var t := MkdirAll(cfg, s, Parent(a));
      if t.err.None? {
        DirMadeIs(cfg, s, t, a);
        if body.FileBody? { WriteStays(cfg, s, t, a, body.content, body.perm); }
      }
    }
  }

  // ---- Whole archives ----

  lemma WriteSound(cfg: Config, t: Progress, a: Path, content: Bytes, perm: nat)
    requires Sound(cfg, t)
    ensures var r := WriteFile(cfg, t, a, content, perm); r.err.None? ==> Sound(cfg, r)
  {
    var r := WriteFile(cfg, t, a, content, perm);
    if r.err.None? && PlaceOf(cfg, t, a).Some? {
      var place := PlaceOf(cfg, t, a).value;
      ResolveFinds(cfg, t, [], a, MAX_LINKS);
      assert HasDirAbove(cfg, t, place);
      var node := FsFile(content, if Get(cfg, t, place).Some? then Get(cfg, t, place).value.perm else perm);
      forall q ensures Get(cfg, r, q) == if q == place then Some(node) else Get(cfg, t, q) {
        GetPut(cfg, t, place, node, q);
      }
      ChildlessIf(cfg, t, place);
      SoundWith(cfg, t, r, place);
    }
  }

  /** Removing what can be removed at a name and putting a link there. */
  lemma RelinkSound(cfg: Config, t: Progress, a: Path, node: FsNode)
    requires Sound(cfg, t) && NamePlace(cfg, t, a).Some?
    requires Get(cfg, Removed(cfg, t, NamePlace(cfg, t, a).value), NamePlace(cfg, t, a).value).None?
    ensures var place := NamePlace(cfg, t, a).value;
      Sound(cfg, Put(cfg, Removed(cfg, t, place), place, node).(seen := true))
  {
    var place := NamePlace(cfg, t, a).value;
    NameIsInDir(cfg, t, a);
    var u := Removed(cfg, t, place);
    var r := Put(cfg, u, place, node).(seen := true);
    forall q ensures Get(cfg, r, q) == if q == place then Some(node) else Get(cfg, t, q) {
      GetPut(cfg, u, place, node, q);
      GetDrop(cfg, t, place, q);
    }
    ChildlessIf(cfg, t, place);
    SoundWith(cfg, t, r, place);
  }

  lemma LinkSound(cfg: Config, t: Progress, a: Path, target: RawPath, source: Path)
    requires Sound(cfg, t)
    ensures MakeSymlink(cfg, t, a, target).err.None? ==> Sound(cfg, MakeSymlink(cfg, t, a, target))
    ensures MakeHardlink(cfg, t, a, source).err.None? ==> Sound(cfg, MakeHardlink(cfg, t, a, source))
  {
    if NamePlace(cfg, t, a).Some? {
      var u := Removed(cfg, t, NamePlace(cfg, t, a).value);
      if Get(cfg, u, NamePlace(cfg, t, a).value).None? {
        RelinkSound(cfg, t, a, FsLink(target));
        var from := NamePlace(cfg, u, source);
        if from.Some? && Get(cfg, u, from.value).Some? {
          RelinkSound(cfg, t, a, Get(cfg, u, from.value).value);
        }
      }
    }
  }

  lemma EntrySound(cfg: Config, s: Progress, a: Path, body: Body)
    requires Sound(cfg, s) && s.err.None? && Plain(a)
    ensures var r := ExtractTo(cfg, s, a, body); r.err.None? ==> Sound(cfg, r)
  {
    if body.DirBody? {
      MkdirMakes(cfg, s, a);
    } else {
      MkdirMakes(cfg, s, Parent(a));
      var t := MkdirAll(cfg, s, Parent(a));
      if t.err.None? {
        match body
        case FileBody(content, perm) => WriteSound(cfg, t, a, content, perm);
        case SymlinkBody(target) => LinkSound(cfg, t, a, target, []);
        case HardlinkBody(target) =>
          if SafeJoin(target).Some? { LinkSound(cfg, t, a, [], cfg.root + SafeJoin(target).value); }
        case _ =>
      }
    }
  }

  /** Some entry, when its turn comes, meets a link that leads out on the path its extraction follows. */
  ghost predicate SomeMeetsWayOut(cfg: Config, s: Progress, entries: seq<Entry>)
    decreases |entries|
  {
    entries != [] && s.err.None? &&
    (MeetsSomeWayOut(cfg, s, entries[0]) || SomeMeetsWayOut(cfg, ExtractEntry(cfg, s, entries[0]), entries[1..]))
  }

  ghost predicate MeetsSomeWayOut(cfg: Config, s: Progress, e: Entry) {
    SafeJoin(e.name).Some? &&
    var a := Followed(cfg.root + SafeJoin(e.name).value, e.body);
    exists k :: |cfg.root| <= k <= |a| && 0 < k && MeetsWayOut(cfg, s, a, k)
  }

  /** Nothing outside the root changes unless some entry does. */
  lemma {:induction false} OutsideChangesOnlyThroughLinks(cfg: Config, s: Progress, entries: seq<Entry>)
    requires Sound(cfg, s) || s.err.Some?
    ensures ExtractAll(cfg, s, entries).host == s.host || SomeMeetsWayOut(cfg, s, entries)
    decreases |entries|
  {
    if entries != [] && s.err.None? {
      var e := entries[0];
      var r := ExtractEntry(cfg, s, e);
      if SafeJoin(e.name).Some? {
        var p := SafeJoin(e.name).value;
        var a := cfg.root + p;
        EntryNamesStayBelowRoot(e.name);
        assert Plain(a);
        EntrySound(cfg, s, a, e.body);
        if !MeetsSomeWayOut(cfg, s, e) {
          FollowedStays(cfg, s, a, e.body);
          EntryStays(cfg, s, a, e.body);
        }
      }
      OutsideChangesOnlyThroughLinks(cfg, r, entries[1..]);
    }
  }

  /** Some entry's path, when its turn comes, leads outside the root. */
  ghost predicate SomeLeaves(cfg: Config, s: Progress, entries: seq<Entry>)
    decreases |entries|
  {
    entries != [] && s.err.None? && var e := entries[0];
    || (SafeJoin(e.name).Some? && !StaysBelow(cfg, s, Followed(cfg.root + SafeJoin(e.name).value, e.body)))
    || SomeLeaves(cfg, ExtractEntry(cfg, s, e), entries[1..])
  }

  /** Exactly then, whatever the archive, some entry's path meets a link that leads out. */
  lemma {:induction false} ArchiveLeavesIff(cfg: Config, s: Progress, entries: seq<Entry>)
    requires Sound(cfg, s) || s.err.Some?
    ensures SomeLeaves(cfg, s, entries) <==> SomeMeetsWayOut(cfg, s, entries)
    decreases |entries|
  {
    if entries != [] && s.err.None? {
      var e := entries[0];
      if SafeJoin(e.name).Some? {
        var a := cfg.root + SafeJoin(e.name).value;
        EntryNamesStayBelowRoot(e.name);
        assert Plain(a);
        EntrySound(cfg, s, a, e.body);
        if cfg.root <= Followed(a, e.body) {
          LeavesIffMeetsWayOut(cfg, s, Followed(a, e.body));
        }
      }
      ArchiveLeavesIff(cfg, ExtractEntry(cfg, s, e), entries[1..]);
    }
  }

  lemma FollowedStays(cfg: Config, s: Progress, a: Path, body: Body)
    requires Sound(cfg, s) && Plain(a) && cfg.root <= a
    requires var f := Followed(a, body); forall k | |cfg.root| <= k <= |f| && 0 < k :: !MeetsWayOut(cfg, s, f, k)
    ensures StaysBelow(cfg, s, Followed(a, body))
  {
    var f := Followed(a, body);
    if cfg.root <= f {
      LeavesIffMeetsWayOut(cfg, s, f);
    }
  }

  // ---- Entries that meet no link ----

  /** No name on the path, from the root's on, holds a link. */
  ghost predicate Unlinked(cfg: Config, s: Progress, a: Path) {
    forall k | |cfg.root| <= k <= |a| :: !IsLink(Get(cfg, s, a[..k]))
  }

  /** The root's own name leads to itself unless it holds a link. */
  lemma RootPlaceIff(cfg: Config, s: Progress)
    requires Sound(cfg, s) && PlaceOf(cfg, s, cfg.root).Some?
    ensures PlaceOf(cfg, s, cfg.root) == Some(cfg.root) <==> !IsLink(Get(cfg, s, cfg.root))
  {
    var n := |cfg.root|;
    ChainIsFound(cfg, s, n - 1);
    assert cfg.root == cfg.root[..n - 1] + [cfg.root[n - 1]] && Parent(cfg.root) == cfg.root[..n - 1];
    PlaceStep(cfg, s, cfg.root);
    ResolveFinds(cfg, s, [], cfg.root, MAX_LINKS);
  }

  lemma UnlinkedStep(cfg: Config, s: Progress, a: Path)
    requires |a| > |cfg.root|
    ensures Unlinked(cfg, s, a) <==> Unlinked(cfg, s, Parent(a)) && !IsLink(Get(cfg, s, a))
  {
    var up := Parent(a);
    assert a[..|a|] == a && forall k | 0 <= k < |a| :: a[..k] == up[..k];
  }

  /** What a path below the root leads to is where it says exactly if it meets no link. */
  lemma {:induction false} PlaceIsNameIff(cfg: Config, s: Progress, a: Path)
    requires Sound(cfg, s) && Plain(a) && cfg.root <= a && PlaceOf(cfg, s, a).Some?
    ensures PlaceOf(cfg, s, a) == Some(a) <==> Unlinked(cfg, s, a)
    decreases |a|
  {
    if |a| == |cfg.root| {
      assert a == cfg.root && a[..|a|] == a;
      RootPlaceIff(cfg, s);
    } else {
      var up := Parent(a);
      assert a == up + [a[|a| - 1]];
      PlaceStep(cfg, s, a);
      ResolveFinds(cfg, s, [], a, MAX_LINKS);
      PlaceIsNameIff(cfg, s, up);
      UnlinkedStep(cfg, s, a);
      if PlaceOf(cfg, s, a) == Some(a) {
        UpIsUnlinked(cfg, s, a);
      }
    }
  }

  /** A place that is found is no link, and neither is anything above it. */
  lemma UpIsUnlinked(cfg: Config, s: Progress, a: Path)
    requires Sound(cfg, s) && PlaceOf(cfg, s, a) == Some(a) && |a| > |cfg.root|
    ensures Unlinked(cfg, s, Parent(a))
  {
    ResolveFinds(cfg, s, [], a, MAX_LINKS);
    DirsAbove(cfg, s, a);
    assert forall k | 0 <= k < |a| :: a[..k] == Parent(a)[..k];
  }

  /** Above anything that is there are only directories. */
  lemma {:induction false} DirsAbove(cfg: Config, s: Progress, a: Path)
    requires Tree(cfg, s) && (Get(cfg, s, a).Some? || (a != [] && Get(cfg, s, Parent(a)) == Some(FsDir)))
    ensures forall k | 0 <= k < |a| :: Get(cfg, s, a[..k]) == Some(FsDir)
    decreases |a|
  {
    if a != [] {
      assert HasDirAbove(cfg, s, a);
      DirsAbove(cfg, s, Parent(a));
      assert forall k | 0 <= k < |a| - 1 :: a[..k] == Parent(a)[..k];
      assert a[..|a| - 1] == Parent(a);
    }
  }

  lemma UnlinkedStays(cfg: Config, s: Progress, a: Path)
    requires Sound(cfg, s) && Plain(a) && Unlinked(cfg, s, a) && (cfg.root <= a || |a| < |cfg.root|)
    ensures StaysBelow(cfg, s, a)
  {
    forall k | |cfg.root| <= k <= |a| && PlaceOf(cfg, s, a[..k]).Some?
      ensures cfg.root <= PlaceOf(cfg, s, a[..k]).value
    {
      assert forall j | |cfg.root| <= j <= k :: a[..k][..j] == a[..j];
      PlaceIsNameIff(cfg, s, a[..k]);
    }
  }

  /** Below the root, links are only at these names. */
  ghost predicate LinksOnlyAt(cfg: Config, s: Progress, names: set<Path>) {
    forall q | cfg.root <= q && IsLink(Get(cfg, s, q)) :: q in names
  }

  predicate MakesLink(body: Body) {
    body.SymlinkBody? || body.HardlinkBody?
  }

  /** No entry's path passes an earlier link entry's name: something the names of an archive show. */
  ghost predicate PassesNoLink(cfg: Config, entries: seq<Entry>, names: set<Path>)
    decreases |entries|
  {
    entries == [] || SafeJoin(entries[0].name).None? ||
    var a := cfg.root + SafeJoin(entries[0].name).value;
    && (forall n | n in names :: !(n <= Followed(a, entries[0].body)))
    && PassesNoLink(cfg, entries[1..], if MakesLink(entries[0].body) then names + {a} else names)
  }

  lemma LinksStayAt(cfg: Config, s: Progress, a: Path, body: Body, names: set<Path>)
    requires Sound(cfg, s) && s.err.None? && Plain(a) && cfg.root <= a && LinksOnlyAt(cfg, s, names)
    requires Unlinked(cfg, s, Followed(a, body))
    ensures var r := ExtractTo(cfg, s, a, body);
      r.err.None? ==> LinksOnlyAt(cfg, r, if MakesLink(body) then names + {a} else names)
  {
    var r := ExtractTo(cfg, s, a, body);
    if body.DirBody? {
      MkdirMakes(cfg, s, a);
    } else if !body.OtherBody? && r.err.None? {
      MkdirMakes(cfg, s, Parent(a));
      var t := MkdirAll(cfg, s, Parent(a));
      assert LinksOnlyAt(cfg, t, names);
      if body.FileBody? {
        forall q | IsLink(Get(cfg, r, q)) ensures IsLink(Get(cfg, t, q)) {
          WriteMakesNoLink(cfg, t, a, body.content, body.perm, q);
        }
      } else {
        UnlinkedKept(cfg, s, t, Parent(a));
        NameOfUnlinked(cfg, t, a);
        forall q | q != a ensures IsLink(Get(cfg, r, q)) ==> IsLink(Get(cfg, t, q)) {
          RelinkOnlyAt(cfg, t, a, body, q);
        }
      }
    }
  }

  lemma WriteMakesNoLink(cfg: Config, t: Progress, a: Path, content: Bytes, perm: nat, q: Path)
    requires WriteFile(cfg, t, a, content, perm).err.None?
    ensures IsLink(Get(cfg, WriteFile(cfg, t, a, content, perm), q)) ==> IsLink(Get(cfg, t, q))
  {
    var place := PlaceOf(cfg, t, a).value;
    var node := FsFile(content, if Get(cfg, t, place).Some? then Get(cfg, t, place).value.perm else perm);
    GetPut(cfg, t, place, node, q);
  }

  lemma RelinkOnlyAt(cfg: Config, t: Progress, a: Path, body: Body, q: Path)
    requires MakesLink(body) && NamePlace(cfg, t, a) == Some(a) && q != a
    requires var r := ExtractFrom(cfg, t, a, body); r.err.None?
    ensures Get(cfg, ExtractFrom(cfg, t, a, body), q) == Get(cfg, t, q)
  {
    var u := Removed(cfg, t, a);
    GetDrop(cfg, t, a, q);
    if body.SymlinkBody? {
      GetPut(cfg, u, a, FsLink(body.target), q);
    } else {
      GetPut(cfg, u, a, Get(cfg, u, NamePlace(cfg, u, cfg.root + SafeJoin(body.target).value).value).value, q);
    }
  }

  /** What a link entry does once its directory is made. */
  function ExtractFrom(cfg: Config, t: Progress, a: Path, body: Body): Progress
    requires MakesLink(body)
  {
    if body.SymlinkBody? then MakeSymlink(cfg, t, a, body.target)
    else if SafeJoin(body.target).None? then Fail(t, BadLink)
    else MakeHardlink(cfg, t, a, cfg.root + SafeJoin(body.target).value)
  }

  lemma UnlinkedKept(cfg: Config, s: Progress, t: Progress, a: Path)
    requires Grows(cfg, s, t) && Unlinked(cfg, s, a)
    ensures Unlinked(cfg, t, a)
  {
  }

  /** A name whose directory's path meets no link is at its own place. */
  lemma NameOfUnlinked(cfg: Config, t: Progress, a: Path)
    requires Sound(cfg, t) && Plain(a) && cfg.root <= a && a != []
    requires Unlinked(cfg, t, Parent(a)) && Stat(cfg, t, Parent(a)) == Some(FsDir)
    ensures NamePlace(cfg, t, a) == Some(a)
  {
    var up := Parent(a);
    assert a == up + [a[|a| - 1]];
    if |a| > |cfg.root| {
      assert cfg.root <= up;
      PlaceIsNameIff(cfg, t, up);
    } else {
      assert up == cfg.root[..|a| - 1];
      ChainIsFound(cfg, t, |a| - 1);
    }
  }

  /** Archives in which no path passes an earlier link change nothing outside the root. */
  lemma {:induction false} UnlinkedArchivesStayInside(cfg: Config, s: Progress, entries: seq<Entry>, names: set<Path>)
    requires (Sound(cfg, s) && LinksOnlyAt(cfg, s, names)) || s.err.Some?
    requires PassesNoLink(cfg, entries, names)
    ensures ExtractAll(cfg, s, entries).host == s.host
    decreases |entries|
  {
    if entries != [] && s.err.None? {
      var e := entries[0];
      if SafeJoin(e.name).Some? {
        var a := cfg.root + SafeJoin(e.name).value;
        EntryNamesStayBelowRoot(e.name);
        assert Plain(a);
        var f := Followed(a, e.body);
        forall k | |cfg.root| <= k <= |f| ensures !IsLink(Get(cfg, s, f[..k])) {
          assert f[..k] <= f && cfg.root <= f[..k];
        }
        assert cfg.root <= f || |f| < |cfg.root|;
        UnlinkedStays(cfg, s, f);
        EntryStays(cfg, s, a, e.body);
        EntrySound(cfg, s, a, e.body);
        LinksStayAt(cfg, s, a, e.body, names);
        var names' := if MakesLink(e.body) then names + {a} else names;
        UnlinkedArchivesStayInside(cfg, ExtractEntry(cfg, s, e), entries[1..], names');
      } else {
        assert ExtractEntry(cfg, s, e).err.Some?;
      }
    }
  }

  /** In a fresh directory: nothing outside changes unless an entry meets a way out, which names alone can rule out. */
  lemma ExtractionStaysInside(cfg: Config, entries: seq<Entry>)
    requires Sound(cfg, Fresh(cfg)) && Outcome(cfg, entries).host != cfg.host
    ensures SomeMeetsWayOut(cfg, Fresh(cfg), entries) && !PassesNoLink(cfg, entries, {})
  {
    OutsideChangesOnlyThroughLinks(cfg, Fresh(cfg), entries);
    if PassesNoLink(cfg, entries, {}) {
      HostHasNoLinksBelow(cfg);
      UnlinkedArchivesStayInside(cfg, Fresh(cfg), entries, {});
    }
  }

  lemma HostHasNoLinksBelow(cfg: Config)
    requires cfg.root == cfg.home
    ensures LinksOnlyAt(cfg, Fresh(cfg), {})
  {
  }

  /**
   * A file into a directory that is there changes what is outside exactly if its place is outside and held
   * other content.
   */
  lemma FileChangesOutsideIff(cfg: Config, s: Progress, a: Path, content: Bytes, perm: nat)
    requires Sound(cfg, s) && s.err.None? && Stat(cfg, s, Parent(a)) == Some(FsDir)
    requires ExtractTo(cfg, s, a, FileBody(content, perm)).err.None?
    ensures PlaceOf(cfg, s, a).Some?
    ensures ExtractTo(cfg, s, a, FileBody(content, perm)).host != s.host <==>
      var place := PlaceOf(cfg, s, a).value; !(cfg.root <= place) && !HoldsFile(s.host, place, content)
  {
    var place := PlaceOf(cfg, s, a).value;
    var node := FsFile(content, if Get(cfg, s, place).Some? then Get(cfg, s, place).value.perm else perm);
    if !(cfg.root <= place) {
      assert ExtractTo(cfg, s, a, FileBody(content, perm)).host == s.host[place := node];
      if HoldsFile(s.host, place, content) {
        assert s.host[place := node] == s.host;
      }
    }
  }

  predicate HoldsFile(fs: Fs, place: Path, content: Bytes) {
    place in fs && fs[place].FsFile? && fs[place].content == content
  }

  // ---- A link that stays inside ----

  const LINK_TREE: Fs := map[[] := FsDir, ["a"] := FsLink(["."])]

  /** The extraction directory after a link "a" to ".". */
  function WithLink(cfg: Config): Progress {
    Progress(LINK_TREE, 0, true, None, cfg.host)
  }

  lemma RootIsOpen(cfg: Config)
    requires Sound(cfg, Fresh(cfg))
    ensures RootOpen(cfg) && cfg.root + [] == cfg.root
  {
    assert cfg.root[..|cfg.root|] == cfg.root && cfg.root + [] == cfg.root;
    ChainEnds(cfg, Fresh(cfg), cfg.root);
  }

  lemma {:induction false} CleanAbsPlain(p: Path)
    requires Plain(p)
    ensures CleanAbs(p) == p && CleanAbs(p + ["."]) == p
  {
    assert (p + ["."])[..|p|] == p;
    if p != [] { CleanAbsPlain(p[..|p| - 1]); }
  }

  lemma DotIsAccepted(cfg: Config)
    requires Plain(cfg.root)
    ensures LinkAccepted(cfg, cfg.root + ["a"], ["."])
  {
    CleanAbsPlain(cfg.root);
    assert Parent(cfg.root + ["a"]) == cfg.root;
  }

  lemma LinkIsMade(cfg: Config)
    requires Sound(cfg, Fresh(cfg))
    ensures ExtractEntry(cfg, Fresh(cfg), Entry(["a"], SymlinkBody(["."]))) == WithLink(cfg)
  {
    var s, link := Fresh(cfg), Entry(["a"], SymlinkBody(["."]));
    DotIsAccepted(cfg);
    assert IsOpen(cfg, s, []) by { RootIsOpen(cfg); }
    assert [] + ["a"] == ["a"];
    LeafEntryLands(cfg, s, [], "a", Symlink(["."]));
    AllOfOne(cfg, s, link);
    assert EMPTY_ROOT[["a"] := FsLink(["."])] == LINK_TREE;
  }

  lemma EntryLeavesSound(cfg: Config, s: Progress, e: Entry)
    requires Sound(cfg, s) && s.err.None?
    ensures var r := ExtractEntry(cfg, s, e); r.err.None? ==> Sound(cfg, r)
  {
    if SafeJoin(e.name).Some? {
      var a := cfg.root + SafeJoin(e.name).value;
      EntryNamesStayBelowRoot(e.name);
      assert Plain(a);
      EntrySound(cfg, s, a, e.body);
    }
  }

  lemma LinkTreeIsSound(cfg: Config)
    requires Sound(cfg, Fresh(cfg))
    ensures Sound(cfg, WithLink(cfg)) && IsChain(cfg, WithLink(cfg), cfg.root)
  {
    LinkIsMade(cfg);
    EntryLeavesSound(cfg, Fresh(cfg), Entry(["a"], SymlinkBody(["."])));
    assert cfg.root[..|cfg.root|] == cfg.root;
  }

  lemma LinkLeadsToRoot(cfg: Config)
    requires Sound(cfg, WithLink(cfg)) && IsChain(cfg, WithLink(cfg), cfg.root)
    ensures PlaceOf(cfg, WithLink(cfg), cfg.root + ["a"]) == Some(cfg.root)
    ensures Stat(cfg, WithLink(cfg), cfg.root + ["a"]) == Some(FsDir)
  {
    var s := WithLink(cfg);
    ChainEnds(cfg, s, cfg.root);
    ResolveGoesOn(cfg, s, [], cfg.root, ["a"], MAX_LINKS);
    PlaceBelowRoot(cfg, s, ["a"], FsDir);
    assert ["a"][1..] == [] && ["."] + [] == ["."] && ["."][1..] == [];
    assert Resolve(cfg, s, cfg.root, ["."], MAX_LINKS - 1) == Found(cfg.root, MAX_LINKS - 1);
  }

  lemma FileThroughLink(cfg: Config, content: Bytes, perm: nat)
    requires Sound(cfg, WithLink(cfg)) && IsChain(cfg, WithLink(cfg), cfg.root) && cfg.cap <= 0
    ensures ExtractEntry(cfg, WithLink(cfg), Entry(["a", "x"], FileBody(content, perm))).fs ==
      LINK_TREE[["x"] := FsFile(content, perm)]
  {
    var s := WithLink(cfg);
    LinkLeadsToRoot(cfg);
    PlainEntryLands(["a", "x"]);
    var a := cfg.root + ["a", "x"];
    assert a == cfg.root + ["a"] + ["x"] && Parent(a) == cfg.root + ["a"];
    PlaceStep(cfg, s, a);
    PlaceBelowRoot(cfg, s, ["x"], FsFile(content, perm));
  }

  /** A file whose name passes a link lands where the link leads, under either link policy: "a/x" at "x". */
  lemma EntryLandsElsewhere(cfg: Config, content: Bytes, perm: nat)
    requires Sound(cfg, Fresh(cfg)) && cfg.cap <= 0
    ensures
      var entries := [Entry(["a"], SymlinkBody(["."])), Entry(["a", "x"], FileBody(content, perm))];
      ExtractAll(cfg, Fresh(cfg), entries).fs == LINK_TREE[["x"] := FsFile(content, perm)]
  {
    var file := Entry(["a", "x"], FileBody(content, perm));
    var entries := [Entry(["a"], SymlinkBody(["."])), file];
    LinkIsMade(cfg);
    LinkTreeIsSound(cfg);
    FileThroughLink(cfg, content, perm);
    assert entries[1..] == [file] && [file][1..] == [];
    var r := ExtractEntry(cfg, WithLink(cfg), file);
    assert ExtractAll(cfg, WithLink(cfg), [file]) == ExtractAll(cfg, r, []) == r;
    assert ExtractAll(cfg, Fresh(cfg), entries) == ExtractAll(cfg, WithLink(cfg), [file]);
  }

  // ---- Leaving happens ----

  /** An extraction directory that holds a link to the directory above it. */
  function WithLinkUp(cfg: Config): Progress {
    Progress(map[[] := FsDir, ["a"] := FsLink([".."])], 0, true, None, cfg.host)
  }

  lemma LinkUpIsSound(cfg: Config)
    requires Sound(cfg, Fresh(cfg))
    ensures Sound(cfg, WithLinkUp(cfg))
  {
    var s, t, a := Fresh(cfg), WithLinkUp(cfg), cfg.root + ["a"];
    PlaceBelowRoot(cfg, s, ["a"], FsDir);
    PlaceBelowRoot(cfg, t, ["a"], FsDir);
    forall q | q != a ensures Get(cfg, t, q) == Get(cfg, s, q) {
      if cfg.root <= q { assert q == cfg.root + q[|cfg.root|..]; }
    }
    assert Parent(a) == cfg.root && cfg.root[|cfg.root|..] == [];
    ChildlessIf(cfg, s, a);
    SoundWith(cfg, s, t, a);
  }

  lemma LinkUpLeadsUp(cfg: Config)
    requires Sound(cfg, WithLinkUp(cfg))
    ensures PlaceOf(cfg, WithLinkUp(cfg), cfg.root + ["a"]) == Some(Parent(cfg.root))
    ensures Stat(cfg, WithLinkUp(cfg), cfg.root + ["a"]) == Some(FsDir)
    ensures NamePlace(cfg, WithLinkUp(cfg), cfg.root + ["a"]) == Some(cfg.root + ["a"])
  {
    var s := WithLinkUp(cfg);
    assert cfg.root[..|cfg.root|] == cfg.root && cfg.root[|cfg.root|..] == [];
    assert Parent(cfg.root) == cfg.root[..|cfg.root| - 1] && Parent(cfg.root + ["a"]) == cfg.root;
    ChainEnds(cfg, s, cfg.root);
    ResolveGoesOn(cfg, s, [], cfg.root, ["a"], MAX_LINKS);
    PlaceBelowRoot(cfg, s, ["a"], FsDir);
    assert ["a"][1..] == [] && [".."] + [] == [".."] && [".."][1..] == [];
    assert Resolve(cfg, s, cfg.root, [".."], MAX_LINKS - 1) == Found(Parent(cfg.root), MAX_LINKS - 1);
  }

  /**
   * Where such a link is, a file named below it leaves the root, and changes what is outside exactly if it is not
   * there already with this content. So both sides of the equivalences above do occur, and leaving the root is
   * not yet changing anything.
   */
  lemma LeavingHappens(cfg: Config, x: string, content: Bytes, perm: nat)
    requires Sound(cfg, Fresh(cfg)) && cfg.cap <= 0 && PlainName(x) && x != cfg.root[|cfg.root| - 1]
    requires var place := Parent(cfg.root) + [x]; place in cfg.host ==> cfg.host[place].FsFile?
    ensures var s, entries := WithLinkUp(cfg), [Entry(["a", x], FileBody(content, perm))];
      && Sound(cfg, s) && SomeLeaves(cfg, s, entries) && SomeMeetsWayOut(cfg, s, entries)
      && (ExtractAll(cfg, s, entries).host != cfg.host <==> !HoldsFile(cfg.host, Parent(cfg.root) + [x], content))
  {
    var s, e, a := WithLinkUp(cfg), Entry(["a", x], FileBody(content, perm)), cfg.root + ["a", x];
    LinkUpIsSound(cfg);
    LinkUpLeadsUp(cfg);
    PlainEntryLands(["a", x]);
    assert a[..|cfg.root| + 1] == cfg.root + ["a"] == Parent(a);
    assert !StaysBelow(cfg, s, a);
    AllOfOne(cfg, s, e);
    ArchiveLeavesIff(cfg, s, [e]);
    var place := Parent(cfg.root) + [x];
    assert place[|cfg.root| - 1] == x && !(cfg.root <= place);
    PlaceStep(cfg, s, a);
    FileChangesOutsideIff(cfg, s, a, content, perm);
  }
}
