/** Saving an artifact directory as a tar stream and extracting it again. */
module TarArchive {

  import opened Basics

  /** A clean relative path: its components, none of them empty, "." or "..". */
  type Path = seq<string>

  /** A path as written: what lies between its slashes. "" is [""], and an absolute path starts with "". */
  type RawPath = seq<string>

  type Bytes = seq<bv8>

  /** A directory tree as the walk meets it, children in lexical order. */
  datatype Node = File(content: Bytes, perm: nat) | Symlink(target: RawPath) | Dir(kids: Kids) | Special

  datatype Kids = Nil | Cons(name: string, node: Node, rest: Kids)

  datatype Body =
    | DirBody
    | FileBody(content: Bytes, perm: nat)
    | SymlinkBody(target: RawPath)
    | HardlinkBody(target: RawPath)
    | OtherBody

  datatype Entry = Entry(name: RawPath, body: Body)

  // ---- Writing ----

  /** The entries of a walk below `dir`: a directory comes before its children. */
  function Walk(dir: Path, kids: Kids): seq<Entry>
    decreases kids
  {
    match kids
    case Nil => []
    case Cons(name, node, rest) => WalkNode(dir + [name], node) + Walk(dir, rest)
  }

  function WalkNode(p: Path, node: Node): seq<Entry>
    decreases node
  {
    match node
    case File(content, perm) => [Entry(p, FileBody(content, perm))]
    case Symlink(target) => [Entry(p, SymlinkBody(target))]
    case Dir(kids) => [Entry(p, DirBody)] + Walk(p, kids)
    case Special => [Entry(p, OtherBody)]
  }

  /** Regular-file content bytes below a directory. */
  function Size(kids: Kids): nat {
    match kids
    case Nil => 0
    case Cons(_, node, rest) =>
      (match node case File(content, _) => |content| case Dir(sub) => Size(sub) case _ => 0) + Size(rest)
  }

  function BytesIn(entries: seq<Entry>): nat {
    if entries == [] then 0 else
      BytesIn(entries[..|entries| - 1]) +
      (var b := entries[|entries| - 1].body; if b.FileBody? then |b.content| else 0)
  }

  function FilesIn(entries: seq<Entry>): nat {
    if entries == [] then 0 else
      FilesIn(entries[..|entries| - 1]) + (if entries[|entries| - 1].body.FileBody? then 1 else 0)
  }

  datatype TarResult = TarOk(stream: seq<Entry>, size: nat, count: nat) | SourceGone | Unsupported

  /** tarDir over the walk of a directory. `gone` are the paths that vanish before they are read. */
  method TarDir(kids: Kids, gone: set<RawPath>) returns (r: TarResult)
    ensures r.TarOk? <==> forall e | e in Walk([], kids) :: e.body != OtherBody && e.name !in gone
    ensures r.TarOk? ==> r.stream == Walk([], kids) && r.size == Size(kids) && r.count == FilesIn(r.stream)
    ensures r.SourceGone? ==> exists e | e in Walk([], kids) :: e.name in gone
    ensures r.Unsupported? ==> exists e | e in Walk([], kids) :: e.body == OtherBody && e.name !in gone
  {
    var entries := Walk([], kids);
    var stream: seq<Entry>, size, count := [], 0, 0;
    var i := 0;
    while i < |entries|
      invariant 0 <= i <= |entries| && stream == entries[..i]
      invariant size == BytesIn(stream) && count == FilesIn(stream)
      invariant forall e | e in stream :: e.body != OtherBody && e.name !in gone
    {
      var e := entries[i];
      assert e in entries;
      if e.name in gone {
        return SourceGone;
      }
      if e.body == OtherBody {
        return Unsupported;
      }
      assert (stream + [e])[..i] == stream;
      if e.body.FileBody? {
        size, count := size + |e.body.content|, count + 1;
      }
      stream := stream + [e];
      i := i + 1;
    }
    assert entries[..i] == entries;
    WalkBytes([], kids);
    r := TarOk(stream, size, count);
  }

  lemma {:induction false} BytesConcat(a: seq<Entry>, b: seq<Entry>)
    ensures BytesIn(a + b) == BytesIn(a) + BytesIn(b)
  {
    if b == [] {
      assert a + b == a;
    } else {
      assert (a + b)[..|a + b| - 1] == a + b[..|b| - 1];
      BytesConcat(a, b[..|b| - 1]);
    }
  }

  lemma {:induction false} WalkBytes(dir: Path, kids: Kids)
    ensures BytesIn(Walk(dir, kids)) == Size(kids)
    decreases kids
  {
    match kids
    case Nil =>
    case Cons(name, node, rest) =>
      WalkBytes(dir, rest);
      BytesConcat(WalkNode(dir + [name], node), Walk(dir, rest));
      if node.Dir? {
        WalkBytes(dir + [name], node.kids);
        BytesConcat([Entry(dir + [name], DirBody)], Walk(dir + [name], node.kids));
      }
  }

  // ---- Paths ----

  /** filepath.Clean of a relative path. */
  function Clean(raw: RawPath): RawPath {
    if raw == [] then [] else
      var done, last := Clean(raw[..|raw| - 1]), raw[|raw| - 1];
      if last == "" || last == "." then done
      else if last != ".." then done + [last]
      else if done != [] && done[|done| - 1] != ".." then done[..|done| - 1]
      else done + [".."]
  }

  /** filepath.Clean of an absolute path: ".." at the root stays there. */
  function CleanAbs(raw: RawPath): RawPath {
    if raw == [] then [] else
      var done, last := CleanAbs(raw[..|raw| - 1]), raw[|raw| - 1];
      if last == "" || last == "." then done
      else if last != ".." then done + [last]
      else if done != [] then done[..|done| - 1] else []
  }

  predicate IsAbs(raw: RawPath) {
    |raw| > 1 && raw[0] == ""
  }

  predicate PlainName(name: string) {
    name != "" && name != "." && name != ".."
  }

  /** safeJoin: where an entry name lands below the extraction root, or nothing. */
  function SafeJoin(name: RawPath): Option<Path> {
    if name == [] || name == [""] || IsAbs(name) then None
    else
      var clean := Clean(name);
      if clean != [] && clean[0] == ".." then None else Some(clean)
  }

  /** A link target, read from directory `dir`, lies inside the root as written. */
  predicate WithinRoot(root: Path, dir: Path, target: RawPath) {
    root <= CleanAbs(dir + target)
  }

  ghost predicate Plain(p: Path) {
    forall i | 0 <= i < |p| :: PlainName(p[i])
  }

  /** ".." in a cleaned relative path only leads it, so one that does not start with ".." has none. */
  lemma {:induction false} CleanLeadsWithDots(raw: RawPath)
    ensures forall i | 0 <= i < |Clean(raw)| :: Clean(raw)[i] != "" && Clean(raw)[i] != "."
    ensures forall i, j | 0 <= i < j < |Clean(raw)| && Clean(raw)[j] == ".." :: Clean(raw)[i] == ".."
  {
    if raw != [] { CleanLeadsWithDots(raw[..|raw| - 1]); }
  }

  /** As written, an accepted entry name leads by plain components from the root down. */
  lemma EntryNamesStayBelowRoot(name: RawPath)
    ensures SafeJoin(name).Some? ==> Plain(SafeJoin(name).value)
  {
    CleanLeadsWithDots(name);
  }

  lemma {:induction false} CleanPlain(p: Path)
    requires Plain(p)
    ensures Clean(p) == p
  {
    if p != [] { CleanPlain(p[..|p| - 1]); }
  }

  // ---- The file system ----

  datatype FsNode = FsDir | FsFile(content: Bytes, perm: nat) | FsLink(target: RawPath)

  type Fs = map<Path, FsNode>

  const EMPTY_ROOT: Fs := map[[] := FsDir]

  datatype Error = BadName | BadLink | IoError | TooLarge | NoFiles

  /**
   * Where to extract: `root` is the directory's absolute path as written, `home` the place it leads to, elsewhere
   * when a link is on the way. `host` is what the rest of the file system holds at first. Caps of 0 or less are
   * off. `payload` lifts the link restriction for symlinks.
   */
  datatype Config = Config(root: Path, home: Path, cap: int, payload: bool, host: Fs)

  /** The tree below the root's place, by paths from there, and everything outside of it by absolute paths. */
  datatype Progress = Progress(fs: Fs, total: nat, seen: bool, err: Option<Error>, host: Fs)

  function Fail(s: Progress, e: Error): Progress {
    s.(err := Some(e))
  }

  function Get(cfg: Config, s: Progress, a: Path): Option<FsNode> {
    if cfg.home <= a then (if a[|cfg.home|..] in s.fs then Some(s.fs[a[|cfg.home|..]]) else None)
    else if a in s.host then Some(s.host[a]) else None
  }

  function Put(cfg: Config, s: Progress, a: Path, node: FsNode): Progress {
    if cfg.home <= a then s.(fs := s.fs[a[|cfg.home|..] := node]) else s.(host := s.host[a := node])
  }

  function Drop(cfg: Config, s: Progress, a: Path): Progress {
    if cfg.home <= a then s.(fs := s.fs - {a[|cfg.home|..]}) else s.(host := s.host - {a})
  }

  function Parent(p: Path): Path {
    if p == [] then [] else p[..|p| - 1]
  }

  /** How many links one lookup follows. */
  const MAX_LINKS := 40

  datatype Found = Lost | Found(place: Path, links: nat)

  /**
   * The place a path names, read from directory `cur`, following at most `links` links. Only the last
   * component may be missing.
   */
  function Resolve(cfg: Config, s: Progress, cur: Path, raw: RawPath, links: nat): Found
    decreases links, |raw|
  {
    if raw == [] then Found(cur, links)
    else
      var next, rest := cur + [raw[0]], raw[1..];
      if raw[0] == "" || raw[0] == "." then Resolve(cfg, s, cur, rest, links)
      else if raw[0] == ".." then Resolve(cfg, s, Parent(cur), rest, links)
      else match Get(cfg, s, next)
        case Some(FsDir) => Resolve(cfg, s, next, rest, links)
        case Some(FsLink(target)) =>
          if links == 0 then Lost
          else Resolve(cfg, s, if IsAbs(target) then [] else cur, target + rest, links - 1)
        case _ => if rest == [] then Found(next, links) else Lost
  }

  function PlaceOf(cfg: Config, s: Progress, a: Path): Option<Path> {
    var found := Resolve(cfg, s, [], a, MAX_LINKS);
    if found.Found? then Some(found.place) else None
  }

  function Stat(cfg: Config, s: Progress, a: Path): Option<FsNode> {
    var place := PlaceOf(cfg, s, a);
    if place.Some? then Get(cfg, s, place.value) else None
  }

  /** The place of a name itself, a link there not followed. */
  function NamePlace(cfg: Config, s: Progress, a: Path): Option<Path> {
    if a != [] && Stat(cfg, s, Parent(a)) == Some(FsDir) then Some(PlaceOf(cfg, s, Parent(a)).value + [a[|a| - 1]])
    else None
  }

  // ---- Extracting ----

  /** os.MkdirAll. */
  function MkdirAll(cfg: Config, s: Progress, a: Path): Progress
    decreases |a|
  {
    match Stat(cfg, s, a)
    case Some(node) => if node == FsDir then s else Fail(s, IoError)
    case None =>
      if a == [] then Fail(s, IoError)
      else
        var t := MkdirAll(cfg, s, Parent(a));
        if t.err.Some? then t else MkdirLast(cfg, t, a)
  }

  function MkdirLast(cfg: Config, s: Progress, a: Path): Progress {
    match NamePlace(cfg, s, a)
    case None => Fail(s, IoError)
    case Some(place) =>
      match Get(cfg, s, place)
      case None => Put(cfg, s, place, FsDir)
      case Some(node) => if node == FsDir then s else Fail(s, IoError)
  }

  /** os.Remove takes a file, a link or an empty directory away and fails otherwise. */
  predicate Removable(cfg: Config, s: Progress, place: Path) {
    && Get(cfg, s, place).Some?
    && (Get(cfg, s, place) == Some(FsDir) ==>
          (forall q | q in s.fs :: !(place < cfg.home + q)) &&
          (forall q | q in s.host :: cfg.home <= q || !(place < q)))
  }

  function Removed(cfg: Config, s: Progress, place: Path): Progress {
    if Removable(cfg, s, place) then Drop(cfg, s, place) else s
  }

  /** writeFileFrom: at most one byte past the budget is written, and then the name goes away again. */
  function WriteFile(cfg: Config, s: Progress, a: Path, content: Bytes, perm: nat): Progress {
    match PlaceOf(cfg, s, a)
    case None => Fail(s, IoError)
    case Some(place) =>
      var there := Get(cfg, s, place);
      if there.Some? && !there.value.FsFile? then Fail(s, IoError)
      else
        var mode := if there.Some? then there.value.perm else perm;
        if cfg.cap > 0 && s.total + |content| > cfg.cap then
          var n := if s.total <= cfg.cap then cfg.cap - s.total + 1 else 0;
          var t := Put(cfg, s, place, FsFile(content[..n], mode)).(total := s.total + n);
          Fail(if NamePlace(cfg, t, a).Some? then Removed(cfg, t, NamePlace(cfg, t, a).value) else t, TooLarge)
        else
          Put(cfg, s, place, FsFile(content, mode)).(total := s.total + |content|, seen := true)
  }

  predicate LinkAccepted(cfg: Config, a: Path, target: RawPath) {
    cfg.payload || (!IsAbs(target) && WithinRoot(cfg.root, Parent(a), target))
  }

  /** os.Symlink in place of whatever can be removed there. An empty target is refused. */
  function MakeSymlink(cfg: Config, s: Progress, a: Path, target: RawPath): Progress {
    match NamePlace(cfg, s, a)
    case None => Fail(s, IoError)
    case Some(place) =>
      var t := Removed(cfg, s, place);
      if Get(cfg, t, place).Some? || target == [""] then Fail(t, IoError)
      else Put(cfg, t, place, FsLink(target)).(seen := true)
  }

  /** os.Link: the source is looked up after the removal, and a link there is linked, not followed. */
  function MakeHardlink(cfg: Config, s: Progress, a: Path, source: Path): Progress {
    match NamePlace(cfg, s, a)
    case None => Fail(s, IoError)
    case Some(place) =>
      var t := Removed(cfg, s, place);
      var from := NamePlace(cfg, t, source);
      var node := if from.Some? then Get(cfg, t, from.value) else None;
      if Get(cfg, t, place).Some? || node.None? || node == Some(FsDir) then Fail(t, IoError)
      else Put(cfg, t, place, node.value).(seen := true)
  }

  /** One entry of extractTarStream. */
  function ExtractEntry(cfg: Config, s: Progress, e: Entry): Progress {
    match SafeJoin(e.name)
    case None => Fail(s, BadName)
    case Some(p) => ExtractTo(cfg, s, cfg.root + p, e.body)
  }

  function ExtractTo(cfg: Config, s: Progress, a: Path, body: Body): Progress {
    match body
    case DirBody => MkdirAll(cfg, s, a)
    case FileBody(content, perm) =>
      var t := MkdirAll(cfg, s, Parent(a));
      if t.err.Some? then t else WriteFile(cfg, t, a, content, perm)
    case SymlinkBody(target) =>
      if !LinkAccepted(cfg, a, target) then Fail(s, BadLink)
      else
        var t := MkdirAll(cfg, s, Parent(a));
        if t.err.Some? then t else MakeSymlink(cfg, t, a, target)
    case HardlinkBody(target) =>
      if SafeJoin(target).None? then Fail(s, BadLink)
      else
        var t := MkdirAll(cfg, s, Parent(a));
        if t.err.Some? then t else MakeHardlink(cfg, t, a, cfg.root + SafeJoin(target).value)
    case OtherBody => s
  }

  /** The entries in order, up to the first error. */
  function ExtractAll(cfg: Config, s: Progress, entries: seq<Entry>): Progress
    decreases |entries|
  {
    if entries == [] || s.err.Some? then s
    else ExtractAll(cfg, ExtractEntry(cfg, s, entries[0]), entries[1..])
  }

  function Fresh(cfg: Config): Progress {
    Progress(EMPTY_ROOT, 0, false, None, cfg.host)
  }

  /** The outcome of a whole extraction: an archive with neither files nor links is an error too. */
  function Outcome(cfg: Config, entries: seq<Entry>): Progress {
    var s := ExtractAll(cfg, Fresh(cfg), entries);
    if s.err.None? && !s.seen then Fail(s, NoFiles) else s
  }

  lemma {:induction false} MkdirKeepsCount(cfg: Config, s: Progress, a: Path)
    ensures var t := MkdirAll(cfg, s, a); t.total == s.total && t.seen == s.seen
    decreases |a|
  {
    if Stat(cfg, s, a).None? && a != [] { MkdirKeepsCount(cfg, s, Parent(a)); }
  }

  lemma WriteWithinCap(cfg: Config, s: Progress, a: Path, content: Bytes, perm: nat)
    requires cfg.cap > 0 ==> s.total <= cfg.cap
    ensures var r := WriteFile(cfg, s, a, content, perm);
      cfg.cap > 0 ==> r.total <= cfg.cap + 1 && (r.err.None? ==> r.total <= cfg.cap)
  {
  }

  lemma LinksKeepCount(cfg: Config, s: Progress, a: Path, target: RawPath, source: Path)
    ensures MakeSymlink(cfg, s, a, target).total == s.total
    ensures MakeHardlink(cfg, s, a, source).total == s.total
  {
  }

  lemma BodyWithinCap(cfg: Config, s: Progress, a: Path, body: Body)
    requires cfg.cap > 0 ==> s.total <= cfg.cap
    ensures var r := ExtractTo(cfg, s, a, body);
      cfg.cap > 0 ==> r.total <= cfg.cap + 1 && (r.err.None? ==> r.total <= cfg.cap)
  {
    MkdirKeepsCount(cfg, s, a);
    MkdirKeepsCount(cfg, s, Parent(a));
    var t := MkdirAll(cfg, s, Parent(a));
    match body
    case FileBody(content, perm) => WriteWithinCap(cfg, t, a, content, perm);
    case SymlinkBody(target) => LinksKeepCount(cfg, t, a, target, []);
    case HardlinkBody(target) =>
      if SafeJoin(target).Some? { LinksKeepCount(cfg, t, a, [], cfg.root + SafeJoin(target).value); }
    case _ =>
  }

  lemma EntryWithinCap(cfg: Config, s: Progress, e: Entry)
    requires cfg.cap > 0 ==> s.total <= cfg.cap
    ensures var r := ExtractEntry(cfg, s, e);
      cfg.cap > 0 ==> r.total <= cfg.cap + 1 && (r.err.None? ==> r.total <= cfg.cap)
  {
    if SafeJoin(e.name).Some? {
      BodyWithinCap(cfg, s, cfg.root + SafeJoin(e.name).value, e.body);
    }
  }

  method ExtractTarStream(cfg: Config, entries: seq<Entry>) returns (r: Progress)
    ensures r == Outcome(cfg, entries)
    ensures cfg.cap > 0 ==> r.total <= cfg.cap + 1 && (r.err.None? ==> r.total <= cfg.cap)
  {
    r := Fresh(cfg);
    var i := 0;
    while i < |entries| && r.err.None?
      invariant 0 <= i <= |entries|
      invariant ExtractAll(cfg, r, entries[i..]) == ExtractAll(cfg, Fresh(cfg), entries)
      invariant cfg.cap > 0 ==> r.total <= cfg.cap + 1 && (r.err.None? ==> r.total <= cfg.cap)
    {
      EntryWithinCap(cfg, r, entries[i]);
      r := ExtractEntry(cfg, r, entries[i]);
      i := i + 1;
    }
    if r.err.None? && !r.seen {
      r := Fail(r, NoFiles);
    }
  }

  // ---- The round trip ----

  ghost function Names(kids: Kids): set<string> {
    match kids case Nil => {} case Cons(name, _, rest) => {name} + Names(rest)
  }

  /** Sibling names are plain and distinct and links have targets, at every level, as on any filesystem. */
  ghost predicate WellFormed(kids: Kids) {
    match kids
    case Nil => true
    case Cons(name, node, rest) =>
      && PlainName(name) && name !in Names(rest) && (node.Symlink? ==> node.target != [""])
      && (node.Dir? ==> WellFormed(node.kids)) && WellFormed(rest)
  }

  /** The tree as paths. */
  ghost function Flatten(dir: Path, kids: Kids): Fs
    decreases kids
  {
    match kids
    case Nil => map[]
    case Cons(name, node, rest) => FlattenNode(dir + [name], node) + Flatten(dir, rest)
  }

  ghost function FlattenNode(p: Path, node: Node): Fs
    decreases node
  {
    match node
    case File(content, perm) => map[p := FsFile(content, perm)]
    case Symlink(target) => map[p := FsLink(target)]
    case Dir(kids) => map[p := FsDir] + Flatten(p, kids)
    case Special => map[]
  }

  /** There is a file or a link somewhere. */
  ghost predicate HasContent(kids: Kids) {
    match kids
    case Nil => false
    case Cons(_, node, rest) => node.File? || node.Symlink? || (node.Dir? && HasContent(node.kids)) || HasContent(rest)
  }

  ghost predicate LinksAccepted(cfg: Config, dir: Path, kids: Kids)
    decreases kids
  {
    match kids
    case Nil => true
    case Cons(name, node, rest) =>
      && (node.Symlink? ==> LinkAccepted(cfg, cfg.root + dir + [name], node.target))
      && (node.Dir? ==> LinksAccepted(cfg, dir + [name], node.kids))
      && LinksAccepted(cfg, dir, rest)
  }

  ghost predicate Acceptable(cfg: Config, total: nat, dir: Path, kids: Kids) {
    LinksAccepted(cfg, dir, kids) && (cfg.cap > 0 ==> total + Size(kids) <= cfg.cap)
  }

  /** The directory p of the extraction is there, at its place, and found under the root's name. */
  ghost predicate IsOpen(cfg: Config, s: Progress, p: Path) {
    && Plain(cfg.root + p)
    && PlaceOf(cfg, s, cfg.root + p) == Some(cfg.home + p)
    && Get(cfg, s, cfg.home + p) == Some(FsDir)
  }

  /** The extraction directory is there and empty. */
  ghost predicate RootOpen(cfg: Config) {
    IsOpen(cfg, Fresh(cfg), [])
  }

  ghost predicate InNames(dir: Path, names: set<string>, q: Path) {
    dir < q && q[|dir|] in names
  }

  /** The state is about to extract kids into dir: dir is there and none of them is yet. */
  ghost predicate ReadyFor(cfg: Config, s: Progress, dir: Path, kids: Kids) {
    && s.err.None? && WellFormed(kids) && IsOpen(cfg, s, dir)
    && (forall q | q in s.fs :: !InNames(dir, Names(kids), q))
    && (cfg.cap > 0 ==> s.total <= cfg.cap)
  }

  lemma {:induction false} ExtractConcat(cfg: Config, s: Progress, a: seq<Entry>, b: seq<Entry>)
    ensures ExtractAll(cfg, s, a + b) == ExtractAll(cfg, ExtractAll(cfg, s, a), b)
    decreases |a|
  {
    if a == [] {
      assert a + b == b;
    } else if s.err.None? {
      assert (a + b)[1..] == a[1..] + b;
      ExtractConcat(cfg, ExtractEntry(cfg, s, a[0]), a[1..], b);
    }
  }

  lemma {:induction false} FlattenBelow(dir: Path, kids: Kids)
    ensures forall q | q in Flatten(dir, kids) :: InNames(dir, Names(kids), q)
    decreases kids
  {
    match kids
    case Nil =>
    case Cons(name, node, rest) =>
      FlattenBelow(dir, rest);
      var p := dir + [name];
      if node.Dir? { FlattenBelow(p, node.kids); }
      forall q | q in FlattenNode(p, node) ensures InNames(dir, Names(kids), q) {
        assert q == p || (node.Dir? && q in Flatten(p, node.kids));
        BelowChild(dir, name, q);
        assert dir < p && p[|dir|] == name;
      }
  }

  lemma BelowChild(dir: Path, name: string, q: Path)
    ensures dir + [name] < q ==> InNames(dir, {name}, q)
  {
    if dir + [name] < q { assert (dir + [name])[|dir|] == q[|dir|]; }
  }

  lemma PlainEntryLands(p: Path)
    requires Plain(p) && p != []
    ensures SafeJoin(p) == Some(p)
  {
    assert PlainName(p[0]);
    CleanPlain(p);
  }

  /** A lookup of a longer path goes on from the directory where the lookup of the shorter one ended. */
  lemma {:induction false} ResolveGoesOn(cfg: Config, s: Progress, cur: Path, a: RawPath, b: RawPath, links: nat)
    requires b != []
    requires var f := Resolve(cfg, s, cur, a, links); f.Found? && Get(cfg, s, f.place) == Some(FsDir)
    ensures var f := Resolve(cfg, s, cur, a, links);
      Resolve(cfg, s, cur, a + b, links) == Resolve(cfg, s, f.place, b, f.links)
    decreases links, |a|
  {
    if a == [] {
      assert a + b == b;
    } else {
      var next, rest := cur + [a[0]], a[1..];
      assert (a + b)[0] == a[0] && (a + b)[1..] == rest + b;
      if a[0] == "" || a[0] == "." {
        ResolveGoesOn(cfg, s, cur, rest, b, links);
      } else if a[0] == ".." {
        ResolveGoesOn(cfg, s, Parent(cur), rest, b, links);
      } else {
        match Get(cfg, s, next)
        case Some(FsDir) => ResolveGoesOn(cfg, s, next, rest, b, links);
        case Some(FsLink(target)) =>
          assert target + (rest + b) == (target + rest) + b;
          ResolveGoesOn(cfg, s, if IsAbs(target) then [] else cur, target + rest, b, links - 1);
        case _ =>
      }
    }
  }

  /** Directories and links of s are in t as they were. */
  ghost predicate KeepsWays(cfg: Config, s: Progress, t: Progress) {
    forall q | Get(cfg, s, q).Some? && !Get(cfg, s, q).value.FsFile? :: Get(cfg, t, q) == Get(cfg, s, q)
  }

  /** Then a directory that is found in s is found there in t. */
  lemma {:induction false} ResolveKept(cfg: Config, s: Progress, t: Progress, cur: Path, a: RawPath, links: nat)
    requires KeepsWays(cfg, s, t)
    requires var f := Resolve(cfg, s, cur, a, links); f.Found? && Get(cfg, s, f.place) == Some(FsDir)
    ensures Resolve(cfg, t, cur, a, links) == Resolve(cfg, s, cur, a, links)
    decreases links, |a|
  {
    if a != [] {
      var next, rest := cur + [a[0]], a[1..];
      if a[0] == "" || a[0] == "." {
        ResolveKept(cfg, s, t, cur, rest, links);
      } else if a[0] == ".." {
        ResolveKept(cfg, s, t, Parent(cur), rest, links);
      } else {
        match Get(cfg, s, next)
        case Some(FsDir) => ResolveKept(cfg, s, t, next, rest, links);
        case Some(FsLink(target)) =>
          if links > 0 {
            ResolveKept(cfg, s, t, if IsAbs(target) then [] else cur, target + rest, links - 1);
          }
        case _ =>
      }
    }
  }

  predicate IsLink(node: Option<FsNode>) {
    node.Some? && node.value.FsLink?
  }

  lemma Nested(root: Path, dir: Path, name: string)
    ensures root + (dir + [name]) == root + dir + [name] && Parent(root + (dir + [name])) == root + dir
  {
  }

  /** One name that is no link is found where it is written. */
  lemma OneName(cfg: Config, s: Progress, cur: Path, name: string, links: nat)
    requires PlainName(name) && !IsLink(Get(cfg, s, cur + [name]))
    ensures Resolve(cfg, s, cur, [name], links) == Found(cur + [name], links)
  {
    assert [name][1..] == [];
    assert Resolve(cfg, s, cur + [name], [], links) == Found(cur + [name], links);
  }

  /** A name in a directory that is found is at its place, and found there if it is no link. */
  lemma NameIsFound(cfg: Config, s: Progress, a: Path, place: Path, name: string)
    requires PlaceOf(cfg, s, a) == Some(place) && Get(cfg, s, place) == Some(FsDir) && PlainName(name)
    ensures MkdirAll(cfg, s, a) == s && NamePlace(cfg, s, a + [name]) == Some(place + [name])
    ensures !IsLink(Get(cfg, s, place + [name])) ==> PlaceOf(cfg, s, a + [name]) == Some(place + [name])
  {
    assert Parent(a + [name]) == a;
    ResolveGoesOn(cfg, s, [], a, [name], MAX_LINKS);
    if !IsLink(Get(cfg, s, place + [name])) {
      OneName(cfg, s, place, name, Resolve(cfg, s, [], a, MAX_LINKS).links);
    }
  }

  /** A name in an open directory is found at its place, if it is no link. */
  lemma ChildIsFound(cfg: Config, s: Progress, dir: Path, name: string)
    requires IsOpen(cfg, s, dir) && PlainName(name)
    ensures MkdirAll(cfg, s, cfg.root + dir) == s
    ensures NamePlace(cfg, s, cfg.root + (dir + [name])) == Some(cfg.home + (dir + [name]))
    ensures !IsLink(Get(cfg, s, cfg.home + (dir + [name]))) ==>
      PlaceOf(cfg, s, cfg.root + (dir + [name])) == Some(cfg.home + (dir + [name]))
  {
    Nested(cfg.root, dir, name);
    Nested(cfg.home, dir, name);
    NameIsFound(cfg, s, cfg.root + dir, cfg.home + dir, name);
  }

  lemma PlaceBelowRoot(cfg: Config, s: Progress, p: Path, node: FsNode)
    ensures cfg.home <= cfg.home + p && (cfg.home + p)[|cfg.home|..] == p
    ensures Put(cfg, s, cfg.home + p, node) == s.(fs := s.fs[p := node])
    ensures Get(cfg, s, cfg.home + p) == if p in s.fs then Some(s.fs[p]) else None
  {
    assert (cfg.home + p)[|cfg.home|..] == p;
  }

  /** Entries where nothing was leave an open directory open. */
  lemma OpenKept(cfg: Config, s: Progress, r: Progress, dir: Path, added: Fs)
    requires IsOpen(cfg, s, dir) && r.fs == s.fs + added && r.host == s.host
    requires forall q | q in added :: q !in s.fs
    ensures IsOpen(cfg, r, dir)
  {
    ResolveKept(cfg, s, r, [], cfg.root + dir, MAX_LINKS);
  }

  /** A directory that is missing from one that is there is made, and nothing else is. */
  lemma MkdirOne(cfg: Config, s: Progress, a: Path, place: Path)
    requires s.err.None? && a != [] && MkdirAll(cfg, s, Parent(a)) == s
    requires PlaceOf(cfg, s, a) == Some(place) && NamePlace(cfg, s, a) == Some(place) && Get(cfg, s, place).None?
    ensures MkdirAll(cfg, s, a) == Put(cfg, s, place, FsDir)
  {
  }

  lemma DirEntryMakes(cfg: Config, s: Progress, dir: Path, name: string)
    requires s.err.None? && Plain(dir) && PlainName(name) && IsOpen(cfg, s, dir) && dir + [name] !in s.fs
    ensures ExtractEntry(cfg, s, Entry(dir + [name], DirBody)) == s.(fs := s.fs[dir + [name] := FsDir])
  {
    var p := dir + [name];
    PlainEntryLands(p);
    Nested(cfg.root, dir, name);
    PlaceBelowRoot(cfg, s, p, FsDir);
    ChildIsFound(cfg, s, dir, name);
    MkdirOne(cfg, s, cfg.root + p, cfg.home + p);
  }

  /** A directory entry for a new child of an open directory opens it. */
  lemma DirEntryOpens(cfg: Config, s: Progress, dir: Path, name: string)
    requires s.err.None? && Plain(dir) && PlainName(name) && IsOpen(cfg, s, dir) && dir + [name] !in s.fs
    ensures var t := s.(fs := s.fs[dir + [name] := FsDir]);
      ExtractEntry(cfg, s, Entry(dir + [name], DirBody)) == t && IsOpen(cfg, t, dir + [name])
  {
    var p, t := dir + [name], s.(fs := s.fs[dir + [name] := FsDir]);
    DirEntryMakes(cfg, s, dir, name);
    PlaceBelowRoot(cfg, t, p, FsDir);
    assert t.fs == s.fs + map[p := FsDir];
    OpenKept(cfg, s, t, dir, map[p := FsDir]);
    ChildIsFound(cfg, t, dir, name);
    Nested(cfg.root, dir, name);
  }

  /** What extracting one file, link or special entry to p may come to. */
  ghost predicate LeafOutcome(cfg: Config, s: Progress, p: Path, node: Node, r: Progress) {
    if node.File? then
      if cfg.cap > 0 && s.total + |node.content| > cfg.cap then r.err.Some?
      else r == s.(fs := s.fs[p := FsFile(node.content, node.perm)], total := s.total + |node.content|, seen := true)
    else if node.Symlink? then
      if LinkAccepted(cfg, cfg.root + p, node.target) then r == s.(fs := s.fs[p := FsLink(node.target)], seen := true)
      else r.err.Some?
    else r == s
  }

  lemma AllOfOne(cfg: Config, s: Progress, e: Entry)
    requires s.err.None?
    ensures ExtractAll(cfg, s, [e]) == ExtractEntry(cfg, s, e)
  {
    assert [e][1..] == [];
  }

  lemma FileLands(cfg: Config, s: Progress, dir: Path, name: string, content: Bytes, perm: nat)
    requires s.err.None? && Plain(dir) && PlainName(name) && IsOpen(cfg, s, dir) && dir + [name] !in s.fs
    ensures var r := ExtractEntry(cfg, s, Entry(dir + [name], FileBody(content, perm)));
      LeafOutcome(cfg, s, dir + [name], File(content, perm), r)
  {
    var p := dir + [name];
    PlainEntryLands(p);
    Nested(cfg.root, dir, name);
    ChildIsFound(cfg, s, dir, name);
    PlaceBelowRoot(cfg, s, p, FsFile(content, perm));
  }

  lemma LinkLands(cfg: Config, s: Progress, dir: Path, name: string, target: RawPath)
    requires s.err.None? && Plain(dir) && PlainName(name) && IsOpen(cfg, s, dir) && dir + [name] !in s.fs
    requires target != [""]
    ensures var r := ExtractEntry(cfg, s, Entry(dir + [name], SymlinkBody(target)));
      LeafOutcome(cfg, s, dir + [name], Symlink(target), r)
  {
    var p := dir + [name];
    PlainEntryLands(p);
    Nested(cfg.root, dir, name);
    ChildIsFound(cfg, s, dir, name);
    PlaceBelowRoot(cfg, s, p, FsLink(target));
  }

  lemma SpecialLands(cfg: Config, s: Progress, p: Path)
    requires Plain(p) && p != []
    ensures ExtractEntry(cfg, s, Entry(p, OtherBody)) == s
  {
    PlainEntryLands(p);
  }

  lemma LeafEntryLands(cfg: Config, s: Progress, dir: Path, name: string, node: Node)
    requires s.err.None? && Plain(dir) && PlainName(name) && IsOpen(cfg, s, dir) && dir + [name] !in s.fs
    requires !node.Dir? && (node.Symlink? ==> node.target != [""])
    ensures LeafOutcome(cfg, s, dir + [name], node, ExtractAll(cfg, s, WalkNode(dir + [name], node)))
  {
    var p := dir + [name];
    AllOfOne(cfg, s, WalkNode(p, node)[0]);
    if node.File? {
      FileLands(cfg, s, dir, name, node.content, node.perm);
    } else if node.Symlink? {
      LinkLands(cfg, s, dir, name, node.target);
    } else {
      SpecialLands(cfg, s, p);
    }
  }

  lemma MapAssoc(a: Fs, b: Fs, c: Fs)
    ensures a + b + c == a + (b + c)
  {
  }

  /** r is s with `added` extracted, `size` more content bytes, and `content` telling of a file or a link. */
  ghost predicate Extracted(s: Progress, added: Fs, size: nat, content: bool, r: Progress) {
    r == s.(fs := s.fs + added, total := s.total + size, seen := s.seen || content)
  }

  lemma NodeLeavesReady(cfg: Config, s: Progress, dir: Path, name: string, node: Node, rest: Kids, r: Progress)
    requires ReadyFor(cfg, s, dir, Cons(name, node, rest))
    requires r.fs == s.fs + FlattenNode(dir + [name], node) && r.host == s.host && r.err.None?
    requires cfg.cap > 0 ==> r.total <= cfg.cap
    ensures ReadyFor(cfg, r, dir, rest)
  {
    var one := Cons(name, node, Nil);
    FlattenBelow(dir, one);
    assert Flatten(dir, Nil) == map[];
    assert Flatten(dir, one) == FlattenNode(dir + [name], node);
    assert Names(one) == {name} && name !in Names(rest);
    forall q | q in r.fs ensures !InNames(dir, Names(rest), q) {
      if q in FlattenNode(dir + [name], node) { assert InNames(dir, Names(one), q); }
      else { assert !InNames(dir, Names(Cons(name, node, rest)), q); }
    }
    forall q | q in FlattenNode(dir + [name], node) ensures q !in s.fs {
      assert InNames(dir, Names(one), q) && InNames(dir, Names(Cons(name, node, rest)), q);
    }
    OpenKept(cfg, s, r, dir, FlattenNode(dir + [name], node));
  }

  lemma InsideIsReady(cfg: Config, s: Progress, dir: Path, name: string, kids: Kids, rest: Kids)
    requires ReadyFor(cfg, s, dir, Cons(name, Dir(kids), rest)) && dir + [name] !in s.fs
    ensures ReadyFor(cfg, s.(fs := s.fs[dir + [name] := FsDir]), dir + [name], kids)
  {
    var p := dir + [name];
    PlainBelow(cfg, dir);
    DirEntryOpens(cfg, s, dir, name);
    forall q | q in s.fs ensures !InNames(p, Names(kids), q) {
      BelowChild(dir, name, q);
    }
  }

  lemma PlainBelow(cfg: Config, dir: Path)
    requires Plain(cfg.root + dir)
    ensures Plain(dir)
  {
    forall i | 0 <= i < |dir| ensures PlainName(dir[i]) {
      assert (cfg.root + dir)[|cfg.root| + i] == dir[i];
    }
  }

  lemma AcceptableSplits(cfg: Config, total: nat, dir: Path, name: string, node: Node, rest: Kids)
    ensures var one := Cons(name, node, Nil);
      && Size(Cons(name, node, rest)) == Size(one) + Size(rest)
      && (HasContent(Cons(name, node, rest)) <==> HasContent(one) || HasContent(rest))
      && (Acceptable(cfg, total, dir, Cons(name, node, rest)) <==>
          Acceptable(cfg, total, dir, one) && Acceptable(cfg, total + Size(one), dir, rest))
  {
    assert Size(Nil) == 0 && LinksAccepted(cfg, dir, Nil) && !HasContent(Nil);
  }

  /**
   * Extracting the walk of a directory into it rebuilds it, adds its content bytes to the count, and
   * fails exactly if a link is not accepted or the cap is exceeded.
   */
  lemma {:induction false} ExtractWalk(cfg: Config, s: Progress, dir: Path, kids: Kids)
    requires ReadyFor(cfg, s, dir, kids)
    ensures var r := ExtractAll(cfg, s, Walk(dir, kids));
      if Acceptable(cfg, s.total, dir, kids) then Extracted(s, Flatten(dir, kids), Size(kids), HasContent(kids), r)
      else r.err.Some?
    decreases kids
  {
    match kids
    case Nil => assert s.fs + Flatten(dir, kids) == s.fs;
    case Cons(name, node, rest) =>
      var p := dir + [name];
      var mid := ExtractAll(cfg, s, WalkNode(p, node));
      ExtractConcat(cfg, s, WalkNode(p, node), Walk(dir, rest));
      AcceptableSplits(cfg, s.total, dir, name, node, rest);
      ExtractWalkNode(cfg, s, dir, name, node, rest);
      if mid.err.None? {
        NodeLeavesReady(cfg, s, dir, name, node, rest, mid);
        ExtractWalk(cfg, mid, dir, rest);
        MapAssoc(s.fs, FlattenNode(p, node), Flatten(dir, rest));
      }
  }

  lemma {:induction false} ExtractWalkNode(cfg: Config, s: Progress, dir: Path, name: string, node: Node, rest: Kids)
    requires ReadyFor(cfg, s, dir, Cons(name, node, rest))
    ensures var r := ExtractAll(cfg, s, WalkNode(dir + [name], node)); var one := Cons(name, node, Nil);
      if Acceptable(cfg, s.total, dir, one)
      then Extracted(s, FlattenNode(dir + [name], node), Size(one), HasContent(one), r)
      else r.err.Some?
    decreases node, 0
  {
    NameIsFree(cfg, s, dir, name, node, rest);
    if node.Dir? {
      var p := dir + [name];
      var inside := s.(fs := s.fs[p := FsDir]);
      OneDir(cfg, s.total, dir, name, node.kids);
      FirstOfDir(cfg, s, p, node.kids);
      DirEntryOpens(cfg, s, dir, name);
      InsideIsReady(cfg, s, dir, name, node.kids, rest);
      ExtractWalk(cfg, inside, p, node.kids);
      DirThenKids(s.fs, p, node.kids);
    } else {
      LeafEntryLands(cfg, s, dir, name, node);
      LeafExtracted(cfg, s, dir, name, node);
    }
  }

  lemma NameIsFree(cfg: Config, s: Progress, dir: Path, name: string, node: Node, rest: Kids)
    requires ReadyFor(cfg, s, dir, Cons(name, node, rest))
    ensures dir + [name] !in s.fs && Plain(dir)
  {
    assert InNames(dir, Names(Cons(name, node, rest)), dir + [name]);
    PlainBelow(cfg, dir);
  }

  lemma OneDir(cfg: Config, total: nat, dir: Path, name: string, kids: Kids)
    ensures var one := Cons(name, Dir(kids), Nil);
      && Size(one) == Size(kids)
      && (HasContent(one) <==> HasContent(kids))
      && (Acceptable(cfg, total, dir, one) <==> Acceptable(cfg, total, dir + [name], kids))
  {
    assert Size(Nil) == 0 && LinksAccepted(cfg, dir, Nil) && !HasContent(Nil);
  }

  lemma FirstOfDir(cfg: Config, s: Progress, p: Path, kids: Kids)
    requires s.err.None?
    ensures ExtractAll(cfg, s, WalkNode(p, Dir(kids))) ==
      ExtractAll(cfg, ExtractEntry(cfg, s, Entry(p, DirBody)), Walk(p, kids))
  {
    assert ([Entry(p, DirBody)] + Walk(p, kids))[1..] == Walk(p, kids);
  }

  lemma DirThenKids(fs: Fs, p: Path, kids: Kids)
    ensures fs[p := FsDir] + Flatten(p, kids) == fs + FlattenNode(p, Dir(kids))
  {
    assert fs[p := FsDir] == fs + map[p := FsDir];
    MapAssoc(fs, map[p := FsDir], Flatten(p, kids));
  }

  lemma LeafExtracted(cfg: Config, s: Progress, dir: Path, name: string, node: Node)
    requires !node.Dir? && s.err.None? && (cfg.cap > 0 ==> s.total <= cfg.cap)
    ensures var one := Cons(name, node, Nil);
      forall r | LeafOutcome(cfg, s, dir + [name], node, r) ::
        if Acceptable(cfg, s.total, dir, one)
        then Extracted(s, FlattenNode(dir + [name], node), Size(one), HasContent(one), r)
        else r.err.Some?
  {
    var p, one := dir + [name], Cons(name, node, Nil);
    Nested(cfg.root, dir, name);
    assert Size(Nil) == 0 && LinksAccepted(cfg, dir, Nil) && !HasContent(Nil);
    match node
    case File(content, perm) => assert s.fs + map[p := FsFile(content, perm)] == s.fs[p := FsFile(content, perm)];
    case Symlink(target) => assert s.fs + map[p := FsLink(target)] == s.fs[p := FsLink(target)];
    case Special => assert s.fs + FlattenNode(p, node) == s.fs;
    case Dir(_) =>
  }

  /**
   * Extracting what tarDir wrote succeeds exactly for a tree with a file or a link, whose links the policy
   * accepts and whose content fits the cap; then it rebuilds the tree and counts the bytes tarDir counted.
   */
  lemma RoundTrip(cfg: Config, kids: Kids)
    requires WellFormed(kids) && RootOpen(cfg)
    ensures var r := Outcome(cfg, Walk([], kids));
      && (r.err.None? <==> HasContent(kids) && Acceptable(cfg, 0, [], kids))
      && (r.err.None? ==> r.fs == EMPTY_ROOT + Flatten([], kids) && r.total == Size(kids) && r.host == cfg.host)
  {
    ExtractWalk(cfg, Fresh(cfg), [], kids);
  }

  /** A tree of directories only does not survive the trip. */
  lemma OnlyDirectoriesFail(cfg: Config)
    requires RootOpen(cfg)
    ensures Outcome(cfg, Walk([], Cons("d", Dir(Nil), Nil))).err == Some(NoFiles)
  {
    ExtractWalk(cfg, Fresh(cfg), [], Cons("d", Dir(Nil), Nil));
  }
}
