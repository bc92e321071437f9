/** Trimming the local artifact cache back to a size watermark, coldest artifacts first. */
module CacheEviction {

  import opened Sequences

  /** An artifact directory, named by repository, side and hash. */
  type Dir(==,!new) = string

  /** Its publish time and its real recursive size. */
  datatype OnDisk = OnDisk(mtime: int, size: nat)

  datatype Memo = Memo(mtime: int, size: nat)

  type Disk = map<Dir, OnDisk>

  datatype Entry = Entry(dir: Dir, bytes: nat, born: int, recency: int)

  ghost function Bytes(disk: Disk): nat {
    if disk == map[] then 0 else var d :| d in disk; disk[d].size + Bytes(disk - {d})
  }

  lemma {:induction false} BytesTake(disk: Disk, d: Dir)
    requires d in disk
    ensures Bytes(disk) == disk[d].size + Bytes(disk - {d})
  {
    var c :| c in disk && Bytes(disk) == disk[c].size + Bytes(disk - {c});
    if c != d {
      BytesTake(disk - {c}, d);
      BytesTake(disk - {d}, c);
      assert disk - {c} - {d} == disk - {d} - {c};
    }
  }

  function Sum(entries: seq<Entry>): nat {
    if entries == [] then 0 else Sum(entries[..|entries| - 1]) + entries[|entries| - 1].bytes
  }

  /** The later of publish and last access. */
  function Recency(disk: Disk, accessed: map<Dir, int>, d: Dir): int
    requires d in disk
  {
    if d in accessed && accessed[d] > disk[d].mtime then accessed[d] else disk[d].mtime
  }

  /** entries describe the directories in `dirs`, each once, with their real sizes. */
  ghost predicate Lists(disk: Disk, accessed: map<Dir, int>, entries: seq<Entry>, dirs: set<Dir>) {
    && dirs <= disk.Keys
    && (forall i | 0 <= i < |entries| :: entries[i].dir in dirs && entries[i].dir in disk &&
          entries[i] == Entry(entries[i].dir, disk[entries[i].dir].size, disk[entries[i].dir].mtime,
                              Recency(disk, accessed, entries[i].dir)))
    && (forall i, j | 0 <= i < j < |entries| :: entries[i].dir != entries[j].dir)
    && (forall d | d in dirs :: exists i :: 0 <= i < |entries| && entries[i].dir == d)
  }

  lemma ListsAppend(disk: Disk, accessed: map<Dir, int>, entries: seq<Entry>, dirs: set<Dir>, e: Entry)
    requires Lists(disk, accessed, entries, dirs) && e.dir in disk && e.dir !in dirs
    requires e == Entry(e.dir, disk[e.dir].size, disk[e.dir].mtime, Recency(disk, accessed, e.dir))
    ensures Lists(disk, accessed, entries + [e], dirs + {e.dir})
  {
    var more := entries + [e];
    forall d | d in dirs + {e.dir} ensures exists i :: 0 <= i < |more| && more[i].dir == d {
      if d == e.dir {
        assert more[|entries|].dir == d;
      } else {
        var i :| 0 <= i < |entries| && entries[i].dir == d;
        assert more[i].dir == d;
      }
    }
  }

  lemma ListsDropLast(disk: Disk, accessed: map<Dir, int>, entries: seq<Entry>, dirs: set<Dir>)
    requires Lists(disk, accessed, entries, dirs) && entries != []
    ensures Lists(disk, accessed, entries[..|entries| - 1], dirs - {entries[|entries| - 1].dir})
  {
    var n := |entries| - 1;
    forall c | c in dirs - {entries[n].dir} ensures exists i :: 0 <= i < n && entries[..n][i].dir == c {
      var i :| 0 <= i < |entries| && entries[i].dir == c;
      assert entries[..n][i].dir == c;
    }
  }

  lemma MinusLast(disk: Disk, dirs: set<Dir>, d: Dir)
    requires d in dirs
    ensures disk - (dirs - {d}) - {d} == disk - dirs
  {
  }

  lemma {:induction false} ListedBytes(disk: Disk, accessed: map<Dir, int>, entries: seq<Entry>, dirs: set<Dir>)
    requires Lists(disk, accessed, entries, dirs)
    ensures Bytes(disk) == Sum(entries) + Bytes(disk - dirs)
  {
    if entries == [] {
      assert disk - dirs == disk;
    } else {
      var n := |entries| - 1;
      var d := entries[n].dir;
      ListsDropLast(disk, accessed, entries, dirs);
      ListedBytes(disk, accessed, entries[..n], dirs - {d});
      BytesTake(disk - (dirs - {d}), d);
      MinusLast(disk, dirs, d);
    }
  }

  ghost predicate ByRecency(entries: seq<Entry>) {
    forall i, j | 0 <= i < j < |entries| :: entries[i].recency <= entries[j].recency
  }

  method Sort(entries: seq<Entry>, ghost disk: Disk, ghost accessed: map<Dir, int>) returns (sorted: seq<Entry>)
    requires Lists(disk, accessed, entries, disk.Keys)
    ensures Lists(disk, accessed, sorted, disk.Keys) && ByRecency(sorted)
  {
    sorted := [];
    ghost var dirs: set<Dir> := {};
    var i := 0;
    while i < |entries|
      invariant 0 <= i <= |entries|
      invariant forall j | 0 <= j < |entries| :: entries[j].dir in dirs <==> j < i
      invariant Lists(disk, accessed, sorted, dirs) && ByRecency(sorted)
    {
      sorted := Insert(sorted, entries[i], disk, accessed, dirs);
      dirs := dirs + {entries[i].dir};
      i := i + 1;
    }
    assert dirs == disk.Keys;
  }

  method Insert(sorted: seq<Entry>, e: Entry, ghost disk: Disk, ghost accessed: map<Dir, int>, ghost dirs: set<Dir>)
    returns (t: seq<Entry>)
    requires Lists(disk, accessed, sorted, dirs) && ByRecency(sorted) && e.dir in disk && e.dir !in dirs
    requires e == Entry(e.dir, disk[e.dir].size, disk[e.dir].mtime, Recency(disk, accessed, e.dir))
    ensures Lists(disk, accessed, t, dirs + {e.dir}) && ByRecency(t)
  {
    var at := |sorted|;
    while at > 0 && sorted[at - 1].recency > e.recency
      invariant 0 <= at <= |sorted|
      invariant forall j | at <= j < |sorted| :: sorted[j].recency > e.recency
    {
      at := at - 1;
    }
    t := sorted[..at] + [e] + sorted[at..];
    InsertAtIs(sorted, e, at);
    InsertLists(disk, accessed, sorted, dirs, e, at);
    InsertSorted(sorted, e, at);
  }

  lemma InsertSorted(sorted: seq<Entry>, e: Entry, at: nat)
    requires ByRecency(sorted) && at <= |sorted|
    requires forall j | at <= j < |sorted| :: sorted[j].recency > e.recency
    requires at > 0 ==> sorted[at - 1].recency <= e.recency
    ensures ByRecency(sorted[..at] + [e] + sorted[at..])
  {
  }

  lemma {:induction false} InsertLists(disk: Disk, accessed: map<Dir, int>, sorted: seq<Entry>, dirs: set<Dir>,
      e: Entry, at: nat)
    requires Lists(disk, accessed, sorted, dirs) && e.dir in disk && e.dir !in dirs && at <= |sorted|
    requires e == Entry(e.dir, disk[e.dir].size, disk[e.dir].mtime, Recency(disk, accessed, e.dir))
    ensures Lists(disk, accessed, InsertAt(sorted, e, at), dirs + {e.dir})
  {
    if at == |sorted| {
      ListsAppend(disk, accessed, sorted, dirs, e);
    } else {
      var n := |sorted| - 1;
      var last := sorted[n];
      ListsDropLast(disk, accessed, sorted, dirs);
      InsertLists(disk, accessed, sorted[..n], dirs - {last.dir}, e, at);
      ListsAppend(disk, accessed, InsertAt(sorted[..n], e, at), dirs - {last.dir} + {e.dir}, last);
      TakeAndAdd(dirs, last.dir, e.dir);
    }
  }

  ghost function Dirs(entries: seq<Entry>): set<Dir> {
    set i | 0 <= i < |entries| :: entries[i].dir
  }

  // ---- Which entries go ----

  /** Published less than minAge ago, when its upload may still be running, or pinned by the caller. */
  predicate Spared(e: Entry, now: int, minAge: nat, protect: Dir -> bool) {
    (minAge > 0 && e.born > now - minAge) || protect(e.dir)
  }

  datatype Rules = Rules(maxBytes: int, minAge: nat, now: int, protect: Dir -> bool, broken: set<Dir>)

  /** The first n entries without the spared ones. */
  ghost function Taken(r: Rules, entries: seq<Entry>, n: nat): seq<Entry>
    requires n <= |entries|
  {
    if n == 0 then []
    else if Spared(entries[n - 1], r.now, r.minAge, r.protect) then Taken(r, entries, n - 1)
    else Taken(r, entries, n - 1) + [entries[n - 1]]
  }

  ghost predicate Distinct(p: seq<Entry>) {
    forall i, j | 0 <= i < j < |p| :: p[i].dir != p[j].dir
  }

  lemma {:induction false} TakenMeaning(r: Rules, entries: seq<Entry>, n: nat)
    requires n <= |entries| && ByRecency(entries) && Distinct(entries)
    ensures var p := Taken(r, entries, n);
      && (forall x :: x in p <==> x in entries[..n] && !Spared(x, r.now, r.minAge, r.protect))
      && ByRecency(p) && Distinct(p)
  {
    if n > 0 {
      var p, e := Taken(r, entries, n - 1), entries[n - 1];
      TakenMeaning(r, entries, n - 1);
      assert entries[..n] == entries[..n - 1] + [e];
      forall i | 0 <= i < |p| ensures p[i].recency <= e.recency && p[i].dir != e.dir {
        assert p[i] in p;
        var j :| 0 <= j < n - 1 && entries[..n - 1][j] == p[i];
      }
    }
  }

  /** Every shorter removal sequence was what had been removed at some earlier entry. */
  lemma {:induction false} TakenPrefix(r: Rules, entries: seq<Entry>, n: nat, k: nat) returns (j: nat)
    requires n <= |entries| && k < |Taken(r, entries, n)|
    ensures j < n && Taken(r, entries, j) == Taken(r, entries, n)[..k]
  {
    var p := Taken(r, entries, n - 1);
    if Spared(entries[n - 1], r.now, r.minAge, r.protect) || k < |p| {
      j := TakenPrefix(r, entries, n - 1, k);
      if k < |p| && |Taken(r, entries, n)| > |p| { assert (p + [entries[n - 1]])[..k] == p[..k]; }
    } else {
      j := n - 1;
      assert (p + [entries[n - 1]])[..k] == p;
    }
  }

  /** The watermark was exceeded at each of the first n entries. */
  ghost predicate OverUntil(r: Rules, entries: seq<Entry>, resident: int, n: nat)
    requires n <= |entries|
  {
    n == 0 || (OverUntil(r, entries, resident, n - 1) && resident - Sum(Taken(r, entries, n - 1)) > r.maxBytes)
  }

  lemma {:induction false} OverBefore(r: Rules, entries: seq<Entry>, resident: int, n: nat, j: nat)
    requires j < n <= |entries| && OverUntil(r, entries, resident, n)
    ensures resident - Sum(Taken(r, entries, j)) > r.maxBytes
  {
    if j < n - 1 { OverBefore(r, entries, resident, n - 1, j); }
  }

  /** The loop stopped at entry n: watermark met, nothing left, or a directory it cannot delete. */
  ghost predicate StoppedAt(r: Rules, entries: seq<Entry>, resident: int, n: nat, failed: bool)
    requires n <= |entries|
  {
    && OverUntil(r, entries, resident, n)
    && (!failed ==> n == |entries| || resident - Sum(Taken(r, entries, n)) <= r.maxBytes)
    && (failed ==> n < |entries| && entries[n].dir in r.broken && !Spared(entries[n], r.now, r.minAge, r.protect))
  }

  /**
   * What was removed: enough or all that may go, unless a deletion failed; nothing once the watermark was
   * met; and never a directory warmer than a removable one that stays.
   */
  ghost predicate GoodSweep(r: Rules, entries: seq<Entry>, resident: int, p: seq<Entry>, failed: bool) {
    && (forall x | x in p :: x in entries && !Spared(x, r.now, r.minAge, r.protect))
    && (!failed ==>
          || resident - Sum(p) <= r.maxBytes
          || forall e | e in entries && e !in p :: Spared(e, r.now, r.minAge, r.protect))
    && (failed ==> exists e :: e in entries && e !in p && e.dir in r.broken)
    && (forall k | 0 <= k < |p| :: resident - Sum(p[..k]) > r.maxBytes)
    && (forall x, e | x in p && e in entries && e !in p && !Spared(e, r.now, r.minAge, r.protect) ::
          x.recency <= e.recency)
    && ByRecency(p) && Distinct(p)
  }

  lemma StoppedSweepIsGood(r: Rules, entries: seq<Entry>, resident: int, n: nat, failed: bool)
    requires n <= |entries| && ByRecency(entries) && Distinct(entries) && StoppedAt(r, entries, resident, n, failed)
    ensures GoodSweep(r, entries, resident, Taken(r, entries, n), failed)
  {
    var p := Taken(r, entries, n);
    TakenMeaning(r, entries, n);
    assert forall i | 0 <= i < n :: entries[..n][i] == entries[i];
    forall k | 0 <= k < |p| ensures resident - Sum(p[..k]) > r.maxBytes {
      var j := TakenPrefix(r, entries, n, k);
      OverBefore(r, entries, resident, n, j);
    }
    forall x, e | x in p && e in entries && e !in p && !Spared(e, r.now, r.minAge, r.protect)
      ensures x.recency <= e.recency
    {
      var i :| 0 <= i < n && entries[..n][i] == x;
      var j :| 0 <= j < |entries| && entries[j] == e;
      assert j >= n;
    }
    assert n < |entries| ==> entries[n] !in entries[..n];
    if n == |entries| { assert entries[..n] == entries; }
  }

  /** The caller pins the directory, or it was published less than a set age ago. */
  predicate MustStay(r: Rules, disk: Disk, d: Dir)
    requires d in disk
  {
    r.protect(d) || (r.minAge > 0 && r.now - disk[d].mtime < r.minAge)
  }

  /**
   * A good sweep of a whole disk, directory by directory: what must stay stays; unless a deletion failed the
   * watermark is met or only what must stay is left; a disk within it loses nothing; and what goes was used no
   * later than anything removable that is left.
   */
  ghost predicate Trimmed(r: Rules, was: Disk, accessed: map<Dir, int>, disk: Disk, failed: bool) {
    && (forall d | d in was && d !in disk :: !MustStay(r, was, d))
    && (!failed && Bytes(disk) > r.maxBytes ==> forall d | d in was && d in disk :: MustStay(r, was, d))
    && (Bytes(was) <= r.maxBytes ==> disk == was)
    && (forall d, e | d in was && d !in disk && e in was && e in disk && !MustStay(r, was, e) ::
          LastUse(was, accessed, d) <= LastUse(was, accessed, e))
  }

  function LastUse(disk: Disk, accessed: map<Dir, int>, d: Dir): int
    requires d in disk
  {
    if d in accessed && accessed[d] >= disk[d].mtime then accessed[d] else disk[d].mtime
  }

  lemma EntryOf(disk: Disk, accessed: map<Dir, int>, entries: seq<Entry>, dirs: set<Dir>, d: Dir) returns (e: Entry)
    requires Lists(disk, accessed, entries, dirs) && d in dirs
    ensures e in entries && e == Entry(d, disk[d].size, disk[d].mtime, LastUse(disk, accessed, d))
  {
    var i :| 0 <= i < |entries| && entries[i].dir == d;
    e := entries[i];
  }

  lemma SparedIff(r: Rules, disk: Disk, accessed: map<Dir, int>, d: Dir, e: Entry)
    requires d in disk && e == Entry(d, disk[d].size, disk[d].mtime, LastUse(disk, accessed, d))
    ensures Spared(e, r.now, r.minAge, r.protect) <==> MustStay(r, disk, d)
  {
  }

  /** A sweep of exactly the listed directories, with the ones it removed listed too. */
  ghost predicate IsSweepOf(r: Rules, was: Disk, accessed: map<Dir, int>, entries: seq<Entry>, p: seq<Entry>,
      failed: bool)
  {
    && Lists(was, accessed, entries, was.Keys) && GoodSweep(r, entries, Bytes(was), p, failed)
    && Lists(was, accessed, p, Dirs(p)) && Sum(p) == Bytes(was) - Bytes(was - Dirs(p))
  }

  lemma RemovedMayGo(r: Rules, was: Disk, accessed: map<Dir, int>, entries: seq<Entry>, p: seq<Entry>, failed: bool,
      d: Dir) returns (x: Entry)
    requires IsSweepOf(r, was, accessed, entries, p, failed) && d in was && d !in was - Dirs(p)
    ensures !MustStay(r, was, d) && x in p && x.recency == LastUse(was, accessed, d)
  {
    x := EntryOf(was, accessed, p, Dirs(p), d);
    SparedIff(r, was, accessed, d, x);
  }

  lemma LeftIsListed(r: Rules, was: Disk, accessed: map<Dir, int>, entries: seq<Entry>, p: seq<Entry>, failed: bool,
      d: Dir) returns (e: Entry)
    requires IsSweepOf(r, was, accessed, entries, p, failed) && d in was && d in was - Dirs(p)
    ensures e in entries && e !in p && e.recency == LastUse(was, accessed, d)
    ensures Spared(e, r.now, r.minAge, r.protect) <==> MustStay(r, was, d)
  {
    e := EntryOf(was, accessed, entries, was.Keys, d);
    SparedIff(r, was, accessed, d, e);
    NotRemoved(p, e);
  }

  lemma WithinStaysWhole(r: Rules, was: Disk, accessed: map<Dir, int>, entries: seq<Entry>, p: seq<Entry>, failed: bool)
    requires IsSweepOf(r, was, accessed, entries, p, failed) && Bytes(was) <= r.maxBytes
    ensures was - Dirs(p) == was
  {
    assert p[..0] == [];
    assert p == [];
  }

  lemma GoodSweepTrims(r: Rules, was: Disk, accessed: map<Dir, int>, entries: seq<Entry>, p: seq<Entry>, failed: bool)
    requires IsSweepOf(r, was, accessed, entries, p, failed)
    ensures Trimmed(r, was, accessed, was - Dirs(p), failed)
  {
    var disk := was - Dirs(p);
    forall d | d in was && d !in disk ensures !MustStay(r, was, d) {
      var x := RemovedMayGo(r, was, accessed, entries, p, failed, d);
    }
    forall d | !failed && Bytes(disk) > r.maxBytes && d in was && d in disk ensures MustStay(r, was, d) {
      var e := LeftIsListed(r, was, accessed, entries, p, failed, d);
      assert Bytes(was) - Sum(p) > r.maxBytes;
    }
    if Bytes(was) <= r.maxBytes { WithinStaysWhole(r, was, accessed, entries, p, failed); }
    forall d, c | d in was && d !in disk && c in was && c in disk && !MustStay(r, was, c)
      ensures LastUse(was, accessed, d) <= LastUse(was, accessed, c)
    {
      var x := RemovedMayGo(r, was, accessed, entries, p, failed, d);
      var e := LeftIsListed(r, was, accessed, entries, p, failed, c);
    }
  }

  /** The sorted entries of a whole disk, swept up to where the loop stopped. */
  lemma SweepStops(r: Rules, was: Disk, accessed: map<Dir, int>, entries: seq<Entry>, n: nat, failed: bool)
    requires Lists(was, accessed, entries, was.Keys) && ByRecency(entries) && n <= |entries|
    requires StoppedAt(r, entries, Bytes(was), n, failed)
    ensures IsSweepOf(r, was, accessed, entries, Taken(r, entries, n), failed)
  {
    var p := Taken(r, entries, n);
    StoppedSweepIsGood(r, entries, Bytes(was), n, failed);
    SubLists(was, accessed, entries, p);
    ListedBytes(was, accessed, p, Dirs(p));
  }

  lemma NotRemoved(p: seq<Entry>, e: Entry)
    requires e.dir !in Dirs(p)
    ensures e !in p
  {
    forall i | 0 <= i < |p| ensures p[i] != e {
      assert p[i].dir in Dirs(p);
    }
  }

  lemma MinusNone<V>(m: map<Dir, V>)
    ensures m - Dirs([]) == m
  {
    assert Dirs([]) == {};
  }

  lemma AllListed(disk: Disk, accessed: map<Dir, int>, entries: seq<Entry>)
    requires Lists(disk, accessed, entries, disk.Keys)
    ensures Sum(entries) == Bytes(disk)
  {
    ListedBytes(disk, accessed, entries, disk.Keys);
    assert disk - disk.Keys == map[];
  }

  class Store {
    var disk: Disk
    var accessed: map<Dir, int>
    var sizeCache: map<Dir, Memo>
    /** Every (directory, mtime, size) that was ever on disk. */
    ghost var history: set<(Dir, int, nat)>

    /** Memoized sizes were once real. */
    ghost predicate Valid()
      reads this
    {
      && (forall d | d in disk :: (d, disk[d].mtime, disk[d].size) in history)
      && (forall d | d in sizeCache :: (d, sizeCache[d].mtime, sizeCache[d].size) in history)
    }

    /** A directory whose content changed has a new mtime. */
    ghost predicate MtimeTells()
      reads this
    {
      forall h, g | h in history && g in history && h.0 == g.0 && h.1 == g.1 :: h.2 == g.2
    }

    constructor ()
      ensures Valid() && MtimeTells() && disk == map[] && history == {}
    {
      disk, accessed, sizeCache, history := map[], map[], map[], {};
    }

    /** The rest of the program lands a directory, new or over an old one. */
    method Publish(d: Dir, x: OnDisk)
      requires Valid()
      modifies this
      ensures Valid() && disk == old(disk)[d := x] && history == old(history) + {(d, x.mtime, x.size)}
      ensures old(MtimeTells()) && (forall h | h in old(history) && h.0 == d && h.1 == x.mtime :: h.2 == x.size) ==>
        MtimeTells()
      ensures sizeCache == old(sizeCache) && accessed == old(accessed)
    {
      disk, history := disk[d := x], history + {(d, x.mtime, x.size)};
    }

    method NoteAccess(d: Dir, now: int)
      requires Valid()
      modifies this`accessed
      ensures accessed == old(accessed)[d := now] && Valid()
    {
      accessed := accessed[d := now];
    }

    /** cachedDirSize: the memo is the real size as long as mtimes tell contents apart. */
    method CachedDirSize(d: Dir, mtime: int) returns (size: nat)
      requires Valid() && d in disk && disk[d].mtime == mtime
      modifies this`sizeCache
      ensures Valid() && (MtimeTells() ==> size == disk[d].size)
      ensures sizeCache == old(sizeCache)[d := Memo(mtime, size)]
    {
      if d in sizeCache && sizeCache[d].mtime == mtime {
        size := sizeCache[d].size;
        assert (d, mtime, size) in history && (d, mtime, disk[d].size) in history;
        assert sizeCache == sizeCache[d := Memo(mtime, size)];
      } else {
        size := disk[d].size;
        sizeCache := sizeCache[d := Memo(mtime, size)];
      }
    }

    method ResidentArtifacts() returns (entries: seq<Entry>)
      requires Valid() && MtimeTells()
      modifies this`sizeCache
      ensures Valid() && Lists(disk, accessed, entries, disk.Keys)
    {
      entries := [];
      var rest := disk.Keys;
      while rest != {}
        invariant Valid() && rest <= disk.Keys && Lists(disk, accessed, entries, disk.Keys - rest)
        decreases rest
      {
        var d :| d in rest;
        var born := disk[d].mtime;
        var recency := born;
        if d in accessed && accessed[d] > recency {
          recency := accessed[d];
        }
        var bytes := CachedDirSize(d, born);
        ListsAppend(disk, accessed, entries, disk.Keys - rest, Entry(d, bytes, born, recency));
        entries, rest := entries + [Entry(d, bytes, born, recency)], rest - {d};
        assert disk.Keys - rest == disk.Keys - (rest + {d}) + {d};
      }
      assert disk.Keys - rest == disk.Keys;
    }

    /**
     * EvictCacheToWatermark. `order` is what was removed, in order. Its size is reported, the rest of the
     * disk is untouched, and it was a good sweep: at the end the watermark is met or every survivor is spared
     * (or a directory could not be deleted), no removal came after the watermark was met, and no removable
     * survivor is colder than anything removed.
     */
    method EvictCacheToWatermark(hasTier: bool, r: Rules)
      returns (freed: nat, failed: bool, ghost order: seq<Entry>, ghost entries: seq<Entry>)
      requires Valid() && MtimeTells()
      modifies this
      ensures Valid() && MtimeTells() && history == old(history)
      ensures disk == old(disk) - Dirs(order) && accessed == old(accessed) - Dirs(order)
      ensures freed == Bytes(old(disk)) - Bytes(disk)
      ensures if hasTier then IsSweepOf(r, old(disk), old(accessed), entries, order, failed) else order == [] && !failed
      ensures if hasTier then Trimmed(r, old(disk), old(accessed), disk, failed) else disk == old(disk)
    {
      freed, failed, order, entries := 0, false, [], [];
      if !hasTier {
        assert Dirs(order) == {};
        return;
      }
      freed, failed, order, entries := SweepCache(r);
      GoodSweepTrims(r, old(disk), old(accessed), entries, order, failed);
    }

    /** The sweep once there is a tier to refill from. */
    method SweepCache(r: Rules)
      returns (freed: nat, failed: bool, ghost order: seq<Entry>, ghost sorted: seq<Entry>)
      requires Valid() && MtimeTells()
      modifies this
      ensures Valid() && history == old(history)
      ensures disk == old(disk) - Dirs(order) && accessed == old(accessed) - Dirs(order) && freed == Sum(order)
      ensures IsSweepOf(r, old(disk), old(accessed), sorted, order, failed)
    {
      freed, failed, order := 0, false, [];
      var all := ResidentArtifacts();
      AllListed(disk, accessed, all);
      var total: int := Sum(all);
      var entries := Sort(all, disk, accessed);
      sorted := entries;
      if total <= r.maxBytes {
        SweepStops(r, disk, accessed, entries, 0, false);
        MinusNone(disk);
        MinusNone(accessed);
        return;
      }
      ghost var n;
      freed, failed, order, n := Remove(entries, total, r);
      SweepStops(r, old(disk), old(accessed), entries, n, failed);
    }

    /** Removes a directory with its access time and its memo. */
    method Delete(d: Dir)
      requires Valid()
      modifies this
      ensures Valid() && history == old(history)
      ensures disk == old(disk) - {d} && accessed == old(accessed) - {d} && sizeCache == old(sizeCache) - {d}
    {
      disk, accessed, sizeCache := disk - {d}, accessed - {d}, sizeCache - {d};
    }

    /** The eviction loop over the sorted entries. */
    method Remove(entries: seq<Entry>, resident: int, r: Rules)
      returns (freed: nat, failed: bool, ghost order: seq<Entry>, ghost n: nat)
      requires Valid()
      modifies this
      ensures Valid() && history == old(history)
      ensures n <= |entries| && order == Taken(r, entries, n) && StoppedAt(r, entries, resident, n, failed)
      ensures disk == old(disk) - Dirs(order) && accessed == old(accessed) - Dirs(order) && freed == Sum(order)
    {
      freed, failed, order, n := 0, false, [], 0;
      var total := resident;
      var i := 0;
      RemovingStarts(r, entries, resident, disk, accessed);
      while i < |entries| && total > r.maxBytes && !failed
        invariant n == i && freed == Sum(order) && total == resident - freed
        invariant Valid() && history == old(history)
        invariant Removing(r, entries, resident, old(disk), old(accessed), i, failed, order, disk, accessed)
        decreases |entries| - i, !failed
      {
        var e := entries[i];
        RemovingNext(r, entries, resident, old(disk), old(accessed), i, order, disk, accessed);
        if !Spared(e, r.now, r.minAge, r.protect) {
          if e.dir in r.broken {
            failed := true;
            continue;
          }
          Delete(e.dir);
          total, freed := total - e.bytes, freed + e.bytes;
          order := order + [e];
        }
        i, n := i + 1, n + 1;
      }
    }
  }

  /** The loop at entry i: what it removed so far, and whether it could not delete that entry. */
  ghost predicate Removing(r: Rules, entries: seq<Entry>, resident: int, was: Disk, wasAccessed: map<Dir, int>, i: nat,
      failed: bool, order: seq<Entry>, disk: Disk, accessed: map<Dir, int>)
  {
    && i <= |entries| && order == Taken(r, entries, i) && OverUntil(r, entries, resident, i)
    && (failed ==>
          i < |entries| && entries[i].dir in r.broken && !Spared(entries[i], r.now, r.minAge, r.protect))
    && disk == was - Dirs(order) && accessed == wasAccessed - Dirs(order)
  }

  lemma RemovingStarts(r: Rules, entries: seq<Entry>, resident: int, disk: Disk, accessed: map<Dir, int>)
    ensures Removing(r, entries, resident, disk, accessed, 0, false, [], disk, accessed)
  {
    MinusNone(disk);
    MinusNone(accessed);
  }

  lemma RemovingNext(r: Rules, entries: seq<Entry>, resident: int, was: Disk, wasAccessed: map<Dir, int>, i: nat,
      order: seq<Entry>, disk: Disk, accessed: map<Dir, int>)
    requires Removing(r, entries, resident, was, wasAccessed, i, false, order, disk, accessed)
    requires i < |entries| && resident - Sum(order) > r.maxBytes
    ensures var e := entries[i];
      if Spared(e, r.now, r.minAge, r.protect) then
        Removing(r, entries, resident, was, wasAccessed, i + 1, false, order, disk, accessed)
      else
        && Sum(order + [e]) == Sum(order) + e.bytes
        && (e.dir in r.broken ==> Removing(r, entries, resident, was, wasAccessed, i, true, order, disk, accessed))
        && Removing(r, entries, resident, was, wasAccessed, i + 1, false, order + [e], disk - {e.dir},
                    accessed - {e.dir})
  {
    RemoveNext(r, entries, resident, i);
    MinusMore(was, Dirs(order), entries[i].dir);
    MinusMore(wasAccessed, Dirs(order), entries[i].dir);
  }

  /** One more entry of the loop. */
  lemma RemoveNext(r: Rules, entries: seq<Entry>, resident: int, i: nat)
    requires i < |entries| && OverUntil(r, entries, resident, i)
    ensures resident - Sum(Taken(r, entries, i)) > r.maxBytes ==> OverUntil(r, entries, resident, i + 1)
    ensures var order := Taken(r, entries, i); var e := entries[i];
      && Sum(order + [e]) == Sum(order) + e.bytes && Dirs(order + [e]) == Dirs(order) + {e.dir}
      && Taken(r, entries, i + 1) == if Spared(e, r.now, r.minAge, r.protect) then order else order + [e]
  {
    var order := Taken(r, entries, i);
    DirsAppend(order, entries[i]);
    assert (order + [entries[i]])[..|order|] == order;
  }

  lemma MinusMore<V>(m: map<Dir, V>, gone: set<Dir>, d: Dir)
    ensures m - gone - {d} == m - (gone + {d})
  {
  }

  lemma SubLists(disk: Disk, accessed: map<Dir, int>, entries: seq<Entry>, order: seq<Entry>)
    requires Lists(disk, accessed, entries, disk.Keys) && Distinct(order) && forall x | x in order :: x in entries
    ensures Lists(disk, accessed, order, Dirs(order))
  {
    forall i | 0 <= i < |order| ensures exists j :: 0 <= j < |entries| && entries[j] == order[i] {
      assert order[i] in entries;
    }
  }

  lemma DirsAppend(entries: seq<Entry>, e: Entry)
    ensures Dirs(entries + [e]) == Dirs(entries) + {e.dir}
  {
    var more := entries + [e];
    assert more[|entries|] == e && forall i | 0 <= i < |entries| :: more[i] == entries[i];
  }
}
