/** Entry names and link targets as written: which are refused, and where the others lead when no link is met. */
module TarNames {
  import opened Basics
  import opened TarArchive

  /** How deep a relative path is below where it starts: plain names lead down, ".." leads up. */
  function Depth(raw: RawPath): int {
    if raw == [] then 0 else
      var last := raw[|raw| - 1];
      Depth(raw[..|raw| - 1]) + (if PlainName(last) then 1 else if last == ".." then -1 else 0)
  }

  /** Somewhere on the way it is above where it started. */
  predicate ClimbsOut(raw: RawPath) {
    raw != [] && (ClimbsOut(raw[..|raw| - 1]) || Depth(raw) < 0)
  }

  /** The cleaned path keeps a leading ".." exactly if it climbs out; otherwise it is as long as it is deep. */
  lemma {:induction false} CleanClimbsIff(raw: RawPath)
    ensures ClimbsOut(raw) <==> Clean(raw) != [] && Clean(raw)[0] == ".."
    ensures !ClimbsOut(raw) ==> |Clean(raw)| == Depth(raw) && Plain(Clean(raw))
  {
    if raw != [] {
      CleanClimbsIff(raw[..|raw| - 1]);
    }
  }

  /** A name is refused exactly if it is empty, absolute or climbs out of the root. */
  lemma RefusedIff(name: RawPath)
    ensures SafeJoin(name).None? <==> name == [] || name == [""] || (|name| > 1 && name[0] == "") || ClimbsOut(name)
  {
    CleanClimbsIff(name);
  }

  lemma {:induction false} CleanAbsOfPlain(p: Path)
    requires Plain(p)
    ensures CleanAbs(p) == p
  {
    if p != [] {
      assert Plain(p[..|p| - 1]);
      CleanAbsOfPlain(p[..|p| - 1]);
    }
  }

  /** Any other name leads where its path from the root on leads once cleaned. */
  lemma {:induction false} JoinIsCleaned(root: Path, name: RawPath)
    requires Plain(root) && !ClimbsOut(name)
    ensures CleanAbs(root + name) == root + Clean(name)
  {
    if name == [] {
      assert root + name == root && root + Clean(name) == root;
      CleanAbsOfPlain(root);
    } else {
      var n := |name| - 1;
      JoinIsCleaned(root, name[..n]);
      CleanClimbsIff(name[..n]);
      assert (root + name)[..|root + name| - 1] == root + name[..n];
      var done := Clean(name[..n]);
      if name[n] == ".." {
        assert (root + done)[..|root + done| - 1] == root + done[..|done| - 1];
      } else if PlainName(name[n]) {
        assert root + done + [name[n]] == root + (done + [name[n]]);
      }
    }
  }

  // ---- What lookups make of written paths ----

  lemma {:induction false} CleanAbsJoins(a: RawPath, b: RawPath)
    ensures CleanAbs(a + b) == CleanAbs(CleanAbs(a) + b)
    decreases |b|
  {
    CleanAbsIsPlain(a);
    if b == [] {
      assert a + b == a && CleanAbs(a) + b == CleanAbs(a);
      CleanAbsOfPlain(CleanAbs(a));
    } else {
      CleanAbsJoins(a, b[..|b| - 1]);
      assert (a + b)[..|a + b| - 1] == a + b[..|b| - 1];
      var c := CleanAbs(a) + b;
      assert c[..|c| - 1] == CleanAbs(a) + b[..|b| - 1];
    }
  }

  lemma {:induction false} CleanAbsIsPlain(raw: RawPath)
    ensures Plain(CleanAbs(raw))
  {
    if raw != [] { CleanAbsIsPlain(raw[..|raw| - 1]); }
  }

  /** One name of a lookup in a directory. */
  function After(cur: Path, x: string): Path {
    if x == "" || x == "." then cur else if x == ".." then Parent(cur) else cur + [x]
  }

  lemma CleanedStep(cur: Path, x: string, rest: RawPath)
    requires Plain(cur)
    ensures CleanAbs(cur + ([x] + rest)) == CleanAbs(After(cur, x) + rest) && Plain(After(cur, x))
    ensures CleanAbs(After(cur, x)) == After(cur, x)
  {
    OneCleaned(cur, x);
    CleanAbsOfPlain(After(cur, x));
    CleanedFirst(cur, x, rest);
  }

  lemma CleanedFirst(cur: Path, x: string, rest: RawPath)
    ensures CleanAbs(cur + ([x] + rest)) == CleanAbs(CleanAbs(cur + [x]) + rest)
  {
    var first := cur + [x];
    assert cur + ([x] + rest) == first + rest;
    CleanAbsJoins(first, rest);
  }

  /** A lookup that meets no link ends where the cleaned path says. */
  lemma {:induction false} LookupIsCleaned(cfg: Config, s: Progress, cur: Path, raw: RawPath, links: nat)
    requires Plain(cur)
    requires Resolve(cfg, s, cur, raw, links).Found? && Resolve(cfg, s, cur, raw, links).links == links
    ensures Resolve(cfg, s, cur, raw, links).place == CleanAbs(cur + raw)
    decreases |raw|
  {
    if raw == [] {
      assert cur + raw == cur;
      CleanAbsOfPlain(cur);
    } else {
      var x, rest := raw[0], raw[1..];
      assert raw == [x] + rest;
      CleanedStep(cur, x, rest);
      FirstOfLookup(cfg, s, cur, raw, links);
      if rest == [] {
        assert After(cur, x) + rest == After(cur, x);
      } else {
        LookupIsCleaned(cfg, s, After(cur, x), rest, links);
      }
    }
  }

  /** A lookup that meets no link takes its first name as it is written, and goes on from there. */
  lemma FirstOfLookup(cfg: Config, s: Progress, cur: Path, raw: RawPath, links: nat)
    requires raw != []
    requires Resolve(cfg, s, cur, raw, links).Found? && Resolve(cfg, s, cur, raw, links).links == links
    ensures if raw[1..] == [] then Resolve(cfg, s, cur, raw, links).place == After(cur, raw[0])
            else Resolve(cfg, s, cur, raw, links) == Resolve(cfg, s, After(cur, raw[0]), raw[1..], links)
  {
    if PlainName(raw[0]) { LinkCosts(cfg, s, cur, raw, links); }
  }

  lemma OneCleaned(cur: Path, x: string)
    requires Plain(cur)
    ensures CleanAbs(cur + [x]) == After(cur, x) && Plain(After(cur, x))
  {
    CleanAbsOfPlain(cur);
    assert (cur + [x])[..|cur|] == cur;
  }

  lemma {:induction false} LinksOnlyFall(cfg: Config, s: Progress, cur: Path, raw: RawPath, links: nat)
    ensures var f := Resolve(cfg, s, cur, raw, links); f.Found? ==> f.links <= links
    decreases links, |raw|
  {
    if raw != [] {
      var next, rest := cur + [raw[0]], raw[1..];
      if raw[0] == "" || raw[0] == "." {
        LinksOnlyFall(cfg, s, cur, rest, links);
      } else if raw[0] == ".." {
        LinksOnlyFall(cfg, s, Parent(cur), rest, links);
      } else {
        match Get(cfg, s, next)
        case Some(FsDir) => LinksOnlyFall(cfg, s, next, rest, links);
        case Some(FsLink(target)) =>
          if links > 0 {
            LinksOnlyFall(cfg, s, if IsAbs(target) then [] else cur, target + rest, links - 1);
          }
        case _ =>
      }
    }
  }

  /** So when none was spent the first name is no link. */
  lemma LinkCosts(cfg: Config, s: Progress, cur: Path, raw: RawPath, links: nat)
    requires raw != [] && PlainName(raw[0])
    requires Resolve(cfg, s, cur, raw, links).Found? && Resolve(cfg, s, cur, raw, links).links == links
    ensures !IsLink(Get(cfg, s, cur + [raw[0]]))
    ensures raw[1..] != [] ==> Get(cfg, s, cur + [raw[0]]) == Some(FsDir)
  {
    var next, rest := cur + [raw[0]], raw[1..];
    if links > 0 {
      match Get(cfg, s, next)
      case Some(FsLink(target)) =>
        LinksOnlyFall(cfg, s, if IsAbs(target) then [] else cur, target + rest, links - 1);
      case _ =>
    }
  }

  // ---- Which links an extraction refuses ----

  /** A target that is absolute, or that leads out of the root from the directory of the link, as written. */
  predicate LeadsOut(root: Path, name: RawPath, target: RawPath) {
    || (|target| > 1 && target[0] == "")
    || (SafeJoin(name).Some? && !(root <= CleanAbs(Parent(root + SafeJoin(name).value) + target)))
  }

  /** Without the payload policy, a symlink that is absolute, or leads out of the root as written, ends it. */
  lemma {:induction false} StrictLinkFails(cfg: Config, s: Progress, entries: seq<Entry>, i: nat)
    requires !cfg.payload && i < |entries| && entries[i].body.SymlinkBody?
    requires LeadsOut(cfg.root, entries[i].name, entries[i].body.target)
    ensures ExtractAll(cfg, s, entries).err.Some?
    decreases |entries|
  {
    if s.err.None? {
      if i > 0 {
        assert entries[1..][i - 1] == entries[i];
        StrictLinkFails(cfg, ExtractEntry(cfg, s, entries[0]), entries[1..], i - 1);
      } else {
        assert ExtractEntry(cfg, s, entries[0]).err.Some?;
      }
    }
  }

  /** A hard link whose target is refused as a name ends it under either policy. */
  lemma {:induction false} HardlinkFails(cfg: Config, s: Progress, entries: seq<Entry>, i: nat)
    requires i < |entries| && entries[i].body.HardlinkBody?
    requires var t := entries[i].body.target; t == [] || t == [""] || (|t| > 1 && t[0] == "") || ClimbsOut(t)
    ensures ExtractAll(cfg, s, entries).err.Some?
    decreases |entries|
  {
    if s.err.None? {
      if i > 0 {
        assert entries[1..][i - 1] == entries[i];
        HardlinkFails(cfg, ExtractEntry(cfg, s, entries[0]), entries[1..], i - 1);
      } else {
        RefusedIff(entries[0].body.target);
        assert ExtractEntry(cfg, s, entries[0]).err.Some?;
      }
    }
  }

  /** Under the payload policy no symlink is refused, wherever it leads. */
  lemma {:induction false} PayloadLinksAreAccepted(cfg: Config, dir: Path, kids: Kids)
    requires cfg.payload
    ensures LinksAccepted(cfg, dir, kids)
    decreases kids
  {
    match kids
    case Nil =>
    case Cons(name, node, rest) =>
      PayloadLinksAreAccepted(cfg, dir, rest);
      if node.Dir? { PayloadLinksAreAccepted(cfg, dir + [name], node.kids); }
  }
}
