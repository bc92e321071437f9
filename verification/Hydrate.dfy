/** Refilling the local artifact cache from the durable tier. */
module Hydrate {
  import T = TarArchive
  import N = TarNames

  datatype Side = Frontend | Backend | Download

  datatype ArtifactKey = ArtifactKey(repo: string, side: Side, hash: string)

  /**
   * What the tier holds for a key: the tar entries that can be read in full, whether the stream ends inside
   * another one, and the content size recorded at Save, 0 when unknown.
   */
  datatype Object = Object(stream: seq<T.Entry>, torn: bool, want: nat)

  /** How the tier answers a read: it may fail at once, or report a broken transfer only at the end. */
  datatype TierState = NoTier | Tier(objects: map<ArtifactKey, Object>, opens: bool, closesCleanly: bool)

  datatype Error =
    | EmptyHash
    | TierMissing
    | OpenFailed
    | NotInTier
    | ScratchFailed
    | ExtractFailed(cause: T.Error)
    | CloseFailed
    | SizeMismatch
    | PublishFailed

  /** The scratch directory, its place and surroundings, the size cap, and whether making and publishing it work. */
  datatype Local = Local(root: T.Path, home: T.Path, host: T.Fs, cap: int, scratch: bool, publish: bool)

  datatype Result = Resident | Hydrated | Failed(error: Error)

  /** Backend trees are executed payloads; every other side keeps the strict link policy. */
  function ConfigFor(local: Local, side: Side): T.Config {
    T.Config(local.root, local.home, local.cap, side == Backend, local.host)
  }

  /** The object extracts without error into content bytes that are the recorded ones. */
  predicate Intact(cfg: T.Config, o: Object) {
    var x := T.Outcome(cfg, o.stream);
    x.err.None? && !o.torn && (o.want > 0 ==> x.total == o.want)
  }

  /** Some symlink in the object is absolute or leads out of the scratch directory as written. */
  predicate SomeLinkLeadsOut(local: Local, o: Object) {
    exists i :: 0 <= i < |o.stream| && o.stream[i].body.SymlinkBody? &&
                N.LeadsOut(local.root, o.stream[i].name, o.stream[i].body.target)
  }

  lemma LeadingOutIsNotIntact(local: Local, side: Side, o: Object)
    requires side != Backend && SomeLinkLeadsOut(local, o)
    ensures !Intact(ConfigFor(local, side), o)
  {
    var i :| 0 <= i < |o.stream| && o.stream[i].body.SymlinkBody? &&
             N.LeadsOut(local.root, o.stream[i].name, o.stream[i].body.target);
    var cfg := ConfigFor(local, side);
    N.StrictLinkFails(cfg, T.Fresh(cfg), o.stream, i);
  }

  /** An object whose size was recorded is not intact with other content; one without a record is not compared. */
  lemma IntactIff(cfg: T.Config, o: Object)
    ensures Intact(cfg, o) <==>
      && !o.torn && T.Outcome(cfg, o.stream).err.None?
      && (o.want == 0 || T.BytesIn(o.stream) == o.want)
  {
    TotalIsBytes(cfg, T.Fresh(cfg), o.stream);
  }

  class Store {
    var resident: map<ArtifactKey, T.Fs>

    constructor ()
      ensures resident == map[]
    {
      resident := map[];
    }

    /**
     * Hydrate. It publishes only a completely extracted tree whose content bytes are the recorded ones,
     * touches no other key, and never displaces what is resident.
     */
    method Hydrate(k: ArtifactKey, tier: TierState, local: Local) returns (r: Result)
      modifies this
      ensures r == Resident <==> k.hash != "" && k in old(resident)
      ensures r != Hydrated ==> resident == old(resident)
      // Which failure is reported: the first that applies.
      ensures r == Failed(EmptyHash) <==> k.hash == ""
      ensures r == Failed(TierMissing) <==> k.hash != "" && k !in old(resident) && tier.NoTier?
      ensures r == Failed(OpenFailed) <==> k.hash != "" && k !in old(resident) && tier.Tier? && !tier.opens
      ensures r == Failed(NotInTier) <==>
        k.hash != "" && k !in old(resident) && tier.Tier? && tier.opens && k !in tier.objects
      ensures r == Hydrated <==>
        && k.hash != "" && k !in old(resident) && tier.Tier? && tier.opens && tier.closesCleanly && k in tier.objects
        && local.scratch && local.publish && Intact(ConfigFor(local, k.side), tier.objects[k])
      // Backend trees may hold any symlink. On every other side one that leads out keeps the object away.
      ensures k.side != Backend && tier.Tier? && k in tier.objects && SomeLinkLeadsOut(local, tier.objects[k]) ==>
        r != Hydrated
      ensures r == Hydrated ==>
        && tier.Tier? && k in tier.objects
        && var x := T.Outcome(ConfigFor(local, k.side), tier.objects[k].stream);
        resident == old(resident)[k := x.fs] && (local.cap > 0 ==> x.total <= local.cap)
    {
      if k.side != Backend && tier.Tier? && k in tier.objects && SomeLinkLeadsOut(local, tier.objects[k]) {
        LeadingOutIsNotIntact(local, k.side, tier.objects[k]);
      }
      if k.hash == "" {
        return Failed(EmptyHash);
      }
      if k in resident {
        return Resident;
      }
      if tier.NoTier? {
        return Failed(TierMissing);
      }
      if !tier.opens {
        return Failed(OpenFailed);
      }
      if k !in tier.objects {
        return Failed(NotInTier);
      }
      if !local.scratch {
        return Failed(ScratchFailed);
      }
      var o := tier.objects[k];
      var x := T.ExtractTarStream(ConfigFor(local, k.side), o.stream);
      if x.err.Some? {
        return Failed(ExtractFailed(x.err.value));
      }
      if o.torn {
        return Failed(ExtractFailed(T.IoError));
      }
      if !tier.closesCleanly {
        return Failed(CloseFailed);
      }
      if o.want > 0 && x.total != o.want {
        return Failed(SizeMismatch);
      }
      if !local.publish {
        return Failed(PublishFailed);
      }
      resident := resident[k := x.fs];
      r := Hydrated;
    }

    /** Save followed by Hydrate on an empty node: what tarDir archived comes back, entry for entry. */
    method SaveThenHydrate(k: ArtifactKey, kids: T.Kids, local: Local) returns (r: Result)
      requires k.hash != "" && k !in resident && local.scratch && local.publish
      requires T.WellFormed(kids) && T.RootOpen(ConfigFor(local, k.side))
      modifies this
      ensures r == Hydrated <==>
        && (forall e | e in T.Walk([], kids) :: e.body != T.OtherBody)
        && T.HasContent(kids) && T.Acceptable(ConfigFor(local, k.side), 0, [], kids)
      // A backend tree comes back whatever its symlinks lead to.
      ensures k.side == Backend && T.HasContent(kids) && (local.cap > 0 ==> T.Size(kids) <= local.cap) ==>
        (r == Hydrated <==> forall e | e in T.Walk([], kids) :: e.body != T.OtherBody)
      ensures r == Hydrated ==> resident == old(resident)[k := T.EMPTY_ROOT + T.Flatten([], kids)]
      ensures r != Hydrated ==> resident == old(resident)
    {
      var saved := T.TarDir(kids, {});
      if !saved.TarOk? {
        return Failed(NotInTier);
      }
      if k.side == Backend { N.PayloadLinksAreAccepted(ConfigFor(local, k.side), [], kids); }
      T.RoundTrip(ConfigFor(local, k.side), kids);
      r := Hydrate(k, Tier(map[k := Object(saved.stream, false, saved.size)], true, true), local);
    }
  }

  /** A stream cut short is accepted exactly if it was cut between entries, extracts, and no content bytes were cut. */
  lemma TruncationIsCaught(cfg: T.Config, stream: seq<T.Entry>, cut: nat, torn: bool)
    requires cut <= |stream| && T.BytesIn(stream) > 0
    ensures Intact(cfg, Object(stream[..cut], torn, T.BytesIn(stream))) <==>
      !torn && T.Outcome(cfg, stream[..cut]).err.None? && T.BytesIn(stream[cut..]) == 0
  {
    assert stream == stream[..cut] + stream[cut..];
    T.BytesConcat(stream[..cut], stream[cut..]);
    TotalIsBytes(cfg, T.Fresh(cfg), stream[..cut]);
  }

  lemma EntryTotal(cfg: T.Config, s: T.Progress, e: T.Entry)
    ensures var r := T.ExtractEntry(cfg, s, e);
      r.err.None? ==> r.total == s.total + if e.body.FileBody? then |e.body.content| else 0
  {
    if T.SafeJoin(e.name).Some? {
      var a := cfg.root + T.SafeJoin(e.name).value;
      T.MkdirKeepsCount(cfg, s, a);
      T.MkdirKeepsCount(cfg, s, T.Parent(a));
      var t := T.MkdirAll(cfg, s, T.Parent(a));
      if e.body.SymlinkBody? {
        T.LinksKeepCount(cfg, t, a, e.body.target, []);
      } else if e.body.HardlinkBody? && T.SafeJoin(e.body.target).Some? {
        T.LinksKeepCount(cfg, t, a, [], cfg.root + T.SafeJoin(e.body.target).value);
      }
    }
  }

  lemma BytesFirst(entries: seq<T.Entry>)
    requires entries != []
    ensures T.BytesIn(entries) ==
      (if entries[0].body.FileBody? then |entries[0].body.content| else 0) + T.BytesIn(entries[1..])
  {
    T.BytesConcat([entries[0]], entries[1..]);
    assert [entries[0]] + entries[1..] == entries && [entries[0]][..0] == [];
  }

  /** An extraction without error counts exactly the content bytes of its stream. */
  lemma {:induction false} TotalIsBytes(cfg: T.Config, s: T.Progress, entries: seq<T.Entry>)
    ensures var r := T.ExtractAll(cfg, s, entries); r.err.None? ==> r.total == s.total + T.BytesIn(entries)
    decreases |entries|
  {
    if entries != [] && s.err.None? {
      TotalIsBytes(cfg, T.ExtractEntry(cfg, s, entries[0]), entries[1..]);
      EntryTotal(cfg, s, entries[0]);
      BytesFirst(entries);
    }
  }
}
