/** Extracting an archive over what it left before: files are rewritten, links replaced, and nothing changes. */
module TarAgain {
  import opened Basics
  import opened TarArchive

  /** The tree is there, below an open directory. */
  ghost predicate IsThere(cfg: Config, s: Progress, dir: Path, kids: Kids) {
    IsOpen(cfg, s, dir) && forall q | q in Flatten(dir, kids) :: q in s.fs && s.fs[q] == Flatten(dir, kids)[q]
  }

  lemma ThereSplits(cfg: Config, s: Progress, dir: Path, name: string, node: Node, rest: Kids)
    requires WellFormed(Cons(name, node, rest)) && IsThere(cfg, s, dir, Cons(name, node, rest))
    ensures IsThere(cfg, s, dir, rest)
    ensures forall q | q in FlattenNode(dir + [name], node) ::
      q in s.fs && s.fs[q] == FlattenNode(dir + [name], node)[q]
  {
    var one := Cons(name, node, Nil);
    assert Flatten(dir, Nil) == map[] && Flatten(dir, one) == FlattenNode(dir + [name], node);
    FlattenBelow(dir, one);
    FlattenBelow(dir, rest);
    assert Names(one) == {name};
    forall q | q in FlattenNode(dir + [name], node) ensures q !in Flatten(dir, rest) {
      assert InNames(dir, Names(one), q) && !InNames(dir, Names(rest), q);
    }
  }

  /** A file over itself: the same content under the mode it has. */
  lemma FileAgain(cfg: Config, s: Progress, dir: Path, name: string, content: Bytes, perm: nat)
    requires s.err.None? && IsOpen(cfg, s, dir) && PlainName(name) && Plain(dir)
    requires dir + [name] in s.fs && s.fs[dir + [name]].FsFile? && s.fs[dir + [name]].content == content
    ensures var r := ExtractEntry(cfg, s, Entry(dir + [name], FileBody(content, perm)));
      if cfg.cap > 0 && s.total + |content| > cfg.cap then r.err == Some(TooLarge)
      else r == s.(total := s.total + |content|, seen := true)
  {
    var p := dir + [name];
    PlainEntryLands(p);
    Nested(cfg.root, dir, name);
    PlaceBelowRoot(cfg, s, p, s.fs[p]);
    ChildIsFound(cfg, s, dir, name);
    assert s.fs[p := s.fs[p]] == s.fs;
  }

  /** A link over itself, or over any other link or file. */
  lemma LinkAgain(cfg: Config, s: Progress, dir: Path, name: string, target: RawPath)
    requires s.err.None? && IsOpen(cfg, s, dir) && PlainName(name) && Plain(dir) && target != [""]
    requires dir + [name] in s.fs && !s.fs[dir + [name]].FsDir?
    ensures var r := ExtractEntry(cfg, s, Entry(dir + [name], SymlinkBody(target)));
      if LinkAccepted(cfg, cfg.root + (dir + [name]), target)
      then r == s.(fs := s.fs[dir + [name] := FsLink(target)], seen := true)
      else r.err == Some(BadLink)
  {
    var p := dir + [name];
    PlainEntryLands(p);
    Nested(cfg.root, dir, name);
    PlaceBelowRoot(cfg, s, p, s.fs[p]);
    ChildIsFound(cfg, s, dir, name);
    var t := Drop(cfg, s, cfg.home + p);
    assert t == s.(fs := s.fs - {p});
    PlaceBelowRoot(cfg, t, p, FsLink(target));
    assert (s.fs - {p})[p := FsLink(target)] == s.fs[p := FsLink(target)];
  }

  /** A directory that is there stays as it is. */
  lemma DirAgain(cfg: Config, s: Progress, dir: Path, name: string)
    requires s.err.None? && IsOpen(cfg, s, dir) && PlainName(name) && Plain(dir)
    requires dir + [name] in s.fs && s.fs[dir + [name]] == FsDir
    ensures ExtractEntry(cfg, s, Entry(dir + [name], DirBody)) == s && IsOpen(cfg, s, dir + [name])
  {
    var p := dir + [name];
    PlainEntryLands(p);
    PlaceBelowRoot(cfg, s, p, FsDir);
    ChildIsFound(cfg, s, dir, name);
    Nested(cfg.root, dir, name);
  }

  /** r is s with this much more counted, and nothing else different. */
  ghost predicate OnlyCounted(s: Progress, size: nat, content: bool, r: Progress) {
    r == s.(total := s.total + size, seen := s.seen || content)
  }

  lemma CountedIsThere(cfg: Config, s: Progress, r: Progress, dir: Path, kids: Kids)
    requires IsThere(cfg, s, dir, kids) && r.fs == s.fs && r.host == s.host
    ensures IsThere(cfg, r, dir, kids)
  {
    assert s.fs == s.fs + map[];
    OpenKept(cfg, s, r, dir, map[]);
  }

  /** Extracting the walk of a tree that is there changes nothing, and fails exactly as the first time. */
  lemma {:induction false} WalkAgain(cfg: Config, s: Progress, dir: Path, kids: Kids)
    requires s.err.None? && WellFormed(kids) && IsThere(cfg, s, dir, kids) && (cfg.cap > 0 ==> s.total <= cfg.cap)
    ensures var r := ExtractAll(cfg, s, Walk(dir, kids));
      if Acceptable(cfg, s.total, dir, kids) then OnlyCounted(s, Size(kids), HasContent(kids), r) else r.err.Some?
    decreases kids, 1
  {
    match kids
    case Nil =>
    case Cons(name, node, rest) =>
      var mid := ExtractAll(cfg, s, WalkNode(dir + [name], node));
      ExtractConcat(cfg, s, WalkNode(dir + [name], node), Walk(dir, rest));
      AcceptableSplits(cfg, s.total, dir, name, node, rest);
      ThereSplits(cfg, s, dir, name, node, rest);
      NodeAgain(cfg, s, dir, name, node, rest);
      if mid.err.None? {
        CountedIsThere(cfg, s, mid, dir, rest);
        WalkAgain(cfg, mid, dir, rest);
      }
  }

  lemma {:induction false} NodeAgain(cfg: Config, s: Progress, dir: Path, name: string, node: Node, rest: Kids)
    requires s.err.None? && WellFormed(Cons(name, node, rest)) && (cfg.cap > 0 ==> s.total <= cfg.cap)
    requires IsThere(cfg, s, dir, Cons(name, node, rest))
    ensures var r := ExtractAll(cfg, s, WalkNode(dir + [name], node)); var one := Cons(name, node, Nil);
      if Acceptable(cfg, s.total, dir, one) then OnlyCounted(s, Size(one), HasContent(one), r) else r.err.Some?
    decreases node, 0
  {
    ThereSplits(cfg, s, dir, name, node, rest);
    PlainBelow(cfg, dir);
    if node.Dir? {
      var p := dir + [name];
      OneDir(cfg, s.total, dir, name, node.kids);
      SubtreeIsThere(cfg, s, p, node.kids);
      DirAgain(cfg, s, dir, name);
      FirstOfDir(cfg, s, p, node.kids);
      WalkAgain(cfg, s, p, node.kids);
    } else {
      LeafAgain(cfg, s, dir, name, node);
    }
  }

  lemma LeafAgain(cfg: Config, s: Progress, dir: Path, name: string, node: Node)
    requires s.err.None? && (cfg.cap > 0 ==> s.total <= cfg.cap)
    requires !node.Dir? && (node.Symlink? ==> node.target != [""])
    requires IsOpen(cfg, s, dir) && Plain(dir) && PlainName(name)
    requires forall q | q in FlattenNode(dir + [name], node) ::
      q in s.fs && s.fs[q] == FlattenNode(dir + [name], node)[q]
    ensures var r := ExtractAll(cfg, s, WalkNode(dir + [name], node)); var one := Cons(name, node, Nil);
      if Acceptable(cfg, s.total, dir, one) then OnlyCounted(s, Size(one), HasContent(one), r) else r.err.Some?
  {
    var p := dir + [name];
    AllOfOne(cfg, s, WalkNode(p, node)[0]);
    OneLeaf(cfg, s.total, dir, name, node);
    match node
    case File(content, perm) =>
      assert p in FlattenNode(p, node);
      FileAgain(cfg, s, dir, name, content, perm);
    case Symlink(target) =>
      assert p in FlattenNode(p, node);
      LinkAgain(cfg, s, dir, name, target);
      assert s.fs[p := FsLink(target)] == s.fs;
    case Special => PlainEntryLands(p);
    case Dir(_) =>
  }

  lemma OneLeaf(cfg: Config, total: nat, dir: Path, name: string, node: Node)
    requires !node.Dir?
    ensures var one := Cons(name, node, Nil);
      && Size(one) == (if node.File? then |node.content| else 0)
      && (HasContent(one) <==> !node.Special?)
      && (Acceptable(cfg, total, dir, one) <==>
          && (node.Symlink? ==> LinkAccepted(cfg, cfg.root + (dir + [name]), node.target))
          && (cfg.cap > 0 ==> total + Size(one) <= cfg.cap))
  {
    assert Size(Nil) == 0 && LinksAccepted(cfg, dir, Nil) && !HasContent(Nil);
    Nested(cfg.root, dir, name);
  }

  lemma SubtreeIsThere(cfg: Config, s: Progress, p: Path, kids: Kids)
    requires forall q | q in FlattenNode(p, Dir(kids)) :: q in s.fs && s.fs[q] == FlattenNode(p, Dir(kids))[q]
    ensures p in s.fs && s.fs[p] == FsDir
    ensures forall q | q in Flatten(p, kids) :: q in s.fs && s.fs[q] == Flatten(p, kids)[q]
  {
    FlattenBelow(p, kids);
    assert p in FlattenNode(p, Dir(kids)) && p !in Flatten(p, kids);
  }

  /**
   * A whole archive, saved from a tree, extracted once more over its own result: it succeeds with the same tree,
   * or is refused as it would be in an empty directory.
   */
  lemma ExtractingAgain(cfg: Config, kids: Kids)
    requires WellFormed(kids) && RootOpen(cfg)
    requires Outcome(cfg, Walk([], kids)).err.None?
    ensures var first := Outcome(cfg, Walk([], kids));
      var again := ExtractAll(cfg, first.(total := 0, seen := false), Walk([], kids));
      again == first
  {
    RoundTrip(cfg, kids);
    var first := Outcome(cfg, Walk([], kids));
    var s := first.(total := 0, seen := false);
    FlattenBelow([], kids);
    OpenKept(cfg, Fresh(cfg), s, [], Flatten([], kids));
    WalkAgain(cfg, s, [], kids);
  }
}
