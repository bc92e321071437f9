/** That an init which succeeded is not repeated, and that one whose effects are gone is. */
module InitOnce {
  import opened Basics
  import opened InitProtocol

  /** A worker after these offers. */
  function Offers(w: Worker, flags: seq<bool>): Worker {
    if flags == [] then w else Run(Offers(w, flags[..|flags| - 1]), Offer(flags[|flags| - 1]))
  }

  /** What the next start of the worker does about init. */
  function NextStart(w: Worker): Start
    requires CanRun(w, ReadSpec)
  {
    Run(Run(w, ReadSpec), Decide).start
  }

  /** Offers change only the cache, which says done if it did or some offer does, and never under a revocation. */
  lemma {:induction false} OffersAre(w: Worker, flags: seq<bool>)
    ensures var v := Offers(w, flags);
      && v.start == w.start && v.revoked == w.revoked && v.healthy == w.healthy && v.log == w.log
      && (flags == [] ==> v == w)
      && (flags != [] ==> v.spec == Some(!w.revoked && (w.spec == Some(true) || true in flags)))
  {
    if flags != [] {
      var before, last := flags[..|flags| - 1], flags[|flags| - 1];
      OffersAre(w, before);
      assert flags == before + [last];
    }
  }

  /**
   * A start on a worker skips init exactly if nothing is revoked there and its cache or an offer since says done.
   * So an offered "done" is honoured, on a worker that just booted too, and offering "not done" takes nothing back.
   */
  lemma OfferedDoneIsHonoured(w: Worker, flags: seq<bool>)
    requires w.start == NoStart && flags != []
    ensures var v := Offers(w, flags);
      && CanRun(v, ReadSpec)
      && NextStart(v) ==
         if !w.revoked && (w.spec == Some(true) || true in flags) then Launched(true) else RunningInit
  {
    OffersAre(w, flags);
  }

  /** However a start that ran init goes on, the starts that follow it skip init, whatever is offered. */
  lemma SuccessIsRemembered(w: Worker, after: Op, flags: seq<bool>)
    requires w.start == RunningInit && w.spec.Some?
    requires after == BecomesHealthy || after == LaunchFails || after == NeverHealthy
    ensures var v := Offers(Run(Run(Run(w, InitSucceeds), MarkDone), after), flags);
      CanRun(v, ReadSpec) && NextStart(v) == Launched(true)
  {
    OffersAre(Run(Run(Run(w, InitSucceeds), MarkDone), after), flags);
  }

  /** A start that skipped init and never went healthy makes the next one run it, even if "done" is offered again. */
  lemma FailedSkipRerunsInit(w: Worker, flags: seq<bool>)
    requires w.start == Launched(true) && w.spec.Some?
    ensures var v := Offers(Run(w, NeverHealthy), flags); CanRun(v, ReadSpec) && NextStart(v) == RunningInit
  {
    OffersAre(Run(w, NeverHealthy), flags);
  }

  /** No other end of such a start does: while nothing is revoked the next one skips init again. */
  lemma OtherEndsKeepTheFlag(w: Worker, after: Op, flags: seq<bool>)
    requires w.start == Launched(true) && w.spec == Some(true) && !w.revoked
    requires after == BecomesHealthy || after == LaunchFails
    ensures var v := Offers(Run(w, after), flags); CanRun(v, ReadSpec) && NextStart(v) == Launched(true)
  {
    OffersAre(Run(w, after), flags);
  }

  /** A failed init is tried again. */
  lemma FailedInitIsRetried(w: Worker, flags: seq<bool>)
    requires w.start == RunningInit && w.spec.Some? && (w.revoked || (w.spec == Some(false) && true !in flags))
    ensures var v := Offers(Run(w, InitFails), flags); CanRun(v, ReadSpec) && NextStart(v) == RunningInit
  {
    OffersAre(Run(w, InitFails), flags);
  }

  // ---- Across the fleet ----

  /** The control row moves exactly on a recorded reply to an ensure of its own that proves the row wrong. */
  lemma RowMovesIff(s: State, e: Step)
    requires Enabled(s, e)
    ensures Apply(s, e).row != s.row <==>
      && e.Receive? && e.recorded && !s.requests[e.r].offerOnly
      && (if s.row then s.requests[e.r].shipped && s.requests[e.r].phase == Answered(false)
          else !s.requests[e.r].shipped && s.requests[e.r].phase == Answered(true))
  {
  }

  /** An ensure of worker w, delivered, and what the start after it does about init. */
  ghost predicate EnsureLeadsTo(s: State, r: nat, w: nat, offerOnly: bool, start: Start) {
    && Enabled(s, Send(r, w, offerOnly))
    && var s1 := Apply(s, Send(r, w, offerOnly));
    && Enabled(s1, Deliver(r))
    && var s2 := Apply(s1, Deliver(r));
    && Enabled(s2, OnWorker(w, ReadSpec))
    && var s3 := Apply(s2, OnWorker(w, ReadSpec));
    && Enabled(s3, OnWorker(w, Decide))
    && Apply(s3, OnWorker(w, Decide)).workers[w].start == start
  }

  /** An ensure makes a worker run init unless the row or the worker's cache says done and nothing is revoked. */
  lemma EnsureRunsInitIff(s: State, r: nat, w: nat, offerOnly: bool)
    requires r !in s.requests && w in s.workers && s.workers[w].start == NoStart
    ensures var x := s.workers[w];
      EnsureLeadsTo(s, r, w, offerOnly,
        if !x.revoked && (s.row || x.spec == Some(true)) then Launched(true) else RunningInit)
  {
  }

  /** A success that came back recorded spares every other worker its init, one that just booted too. */
  lemma AdoptionReachesWorkers(s: State, r: nat, r': nat, w: nat, offerOnly: bool)
    requires r in s.requests && s.requests[r].phase == Answered(true)
    requires !s.requests[r].shipped && !s.requests[r].offerOnly
    requires r' !in s.requests && w in s.workers && s.workers[w].start == NoStart && !s.workers[w].revoked
    ensures Enabled(s, Receive(r, true)) && EnsureLeadsTo(Apply(s, Receive(r, true)), r', w, offerOnly, Launched(true))
  {
    EnsureRunsInitIff(Apply(s, Receive(r, true)), r', w, offerOnly);
  }

  /** A start failure that came back recorded makes every worker whose own cache does not say done run init. */
  lemma RevocationReachesWorkers(s: State, r: nat, r': nat, w: nat, offerOnly: bool)
    requires r in s.requests && s.requests[r].phase == Answered(false)
    requires s.requests[r].shipped && !s.requests[r].offerOnly
    requires r' !in s.requests && w in s.workers && s.workers[w].start == NoStart && s.workers[w].spec != Some(true)
    ensures Enabled(s, Receive(r, true)) && EnsureLeadsTo(Apply(s, Receive(r, true)), r', w, offerOnly, RunningInit)
  {
    EnsureRunsInitIff(Apply(s, Receive(r, true)), r', w, offerOnly);
  }
}
