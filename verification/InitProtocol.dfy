/**
 * The init-done protocol between the control node and its workers, for one backend artifact that has
 * init steps. The control node's row and every worker's wire cache hold an init-done flag; ensures
 * ship the row's value, replies may arrive late or never, and workers reboot at any time.
 *
 * A worker's own database has no artifact row, so every spec it starts from came over the wire.
 */
module InitProtocol {
  import opened Basics
  import opened Keys

  /** What happened on a worker since it booted. */
  datatype Event = InitSucceeded | SkippedInit | Revoked

  /** Where the worker's start goroutine is; the key lock admits one at a time. */
  datatype Start =
    | NoStart
    | HasSpec(initDone: bool)   // the wire spec is read, the revocation mark is not
    | RunningInit
    | InitDone                  // init succeeded, not recorded yet
    | Launched(skipped: bool)

  datatype Worker = Worker(spec: Option<bool>, revoked: bool, start: Start, healthy: bool, log: seq<Event>)

  const BOOTED := Worker(None, false, NoStart, false, [])

  // ---- The critical sections of one worker ----

  datatype Op =
    | Offer(flag: bool)
    | ReadSpec
    | Decide
    | InitFails
    | InitSucceeds
    | MarkDone
    | LaunchFails
    | BecomesHealthy
    | NeverHealthy
    | Exits

  /** OfferWireSpec: sticky, except that a revocation wins over the cache and the offer. */
  function OfferWireSpec(spec: Option<bool>, revoked: bool, flag: bool): Option<bool> {
    Some((flag || spec == Some(true)) && !revoked)
  }

  predicate CanRun(w: Worker, op: Op) {
    match op
    case Offer(_) => true
    case ReadSpec => w.start == NoStart && w.spec.Some?
    case Decide => w.start.HasSpec?
    case InitFails => w.start == RunningInit
    case InitSucceeds => w.start == RunningInit
    case MarkDone => w.start == InitDone
    case LaunchFails => w.start.Launched?
    case BecomesHealthy => w.start.Launched?
    case NeverHealthy => w.start.Launched?
    case Exits => w.healthy
  }

  function Run(w: Worker, op: Op): Worker
    requires CanRun(w, op)
  {
    match op
    case Offer(flag) => w.(spec := OfferWireSpec(w.spec, w.revoked, flag))
    case ReadSpec => w.(start := HasSpec(w.spec.value))
    case Decide =>
      if w.start.initDone && !w.revoked then w.(start := Launched(true), log := w.log + [SkippedInit])
      else w.(start := RunningInit)
    case InitFails => w.(start := NoStart)
    case InitSucceeds => w.(start := InitDone, log := w.log + [InitSucceeded])
    case MarkDone => w.(start := Launched(false), revoked := false, spec := if w.spec.Some? then Some(true) else None)
    case LaunchFails => w.(start := NoStart)
    case BecomesHealthy => w.(start := NoStart, healthy := true)
    case NeverHealthy =>
      if w.start.skipped then
        w.(start := NoStart, revoked := true,
           spec := if w.spec.Some? then Some(false) else None, log := w.log + [Revoked])
      else w.(start := NoStart)
    case Exits => w.(healthy := false)
  }

  // ---- The whole protocol ----

  /** An ensure in flight. `offerOnly` marks the peer spec of a frontend ensure: its reply proves nothing. */
  datatype Request = Request(worker: nat, shipped: bool, offerOnly: bool, phase: RequestPhase)

  datatype RequestPhase = Sent | Delivered | Answered(ok: bool) | Received

  /** `inits` counts the successful inits anywhere, ever. */
  datatype State = State(row: bool, workers: map<nat, Worker>, requests: map<nat, Request>, inits: nat)

  const INIT := State(false, map[], map[], 0)

  datatype Step =
    | Boot(w: nat)
    | Send(r: nat, w: nat, offerOnly: bool)
    | Deliver(r: nat)
    | Answer(r: nat, ok: bool)
    | Receive(r: nat, recorded: bool)
    | OnWorker(w: nat, op: Op)

  /** A reply that is lost is one whose Receive step never happens. */
  predicate Enabled(s: State, e: Step) {
    match e
    case Boot(_) => true
    case Send(r, w, _) => r !in s.requests
    case Deliver(r) => r in s.requests && s.requests[r].phase == Sent && s.requests[r].worker in s.workers
    case Answer(r, ok) =>
      r in s.requests && s.requests[r].phase == Delivered && s.requests[r].worker in s.workers &&
      (ok ==> s.workers[s.requests[r].worker].healthy)
    case Receive(r, _) => r in s.requests && s.requests[r].phase.Answered?
    case OnWorker(w, op) => w in s.workers && !op.Offer? && CanRun(s.workers[w], op)
  }

  /**
   * What the control node's client makes of a reply: a success that shipped "not done" marks the row, a
   * start failure that shipped "done" clears it. `recorded` is false when the row update itself fails.
   */
  function RowAfter(row: bool, q: Request, recorded: bool): bool
    requires q.phase.Answered?
  {
    if q.offerOnly || !recorded then row
    else if q.phase.ok && !q.shipped then true
    else if !q.phase.ok && q.shipped then false
    else row
  }

  function Apply(s: State, e: Step): State
    requires Enabled(s, e)
  {
    match e
    case Boot(w) => s.(workers := s.workers[w := BOOTED])
    case Send(r, w, offerOnly) => s.(requests := s.requests[r := Request(w, s.row, offerOnly, Sent)])
    case Deliver(r) =>
      var q := s.requests[r];
      s.(requests := s.requests[r := q.(phase := Delivered)],
         workers := s.workers[q.worker := Run(s.workers[q.worker], Offer(q.shipped))])
    case Answer(r, ok) => s.(requests := s.requests[r := s.requests[r].(phase := Answered(ok))])
    case Receive(r, recorded) =>
      s.(row := RowAfter(s.row, s.requests[r], recorded),
         requests := s.requests[r := s.requests[r].(phase := Received)])
    case OnWorker(w, op) =>
      s.(workers := s.workers[w := Run(s.workers[w], op)],
         inits := if op.InitSucceeds? then s.inits + 1 else s.inits)
  }

  // ---- Logs ----

  /** The last init success or revocation in a log. */
  function LastMark(log: seq<Event>): Option<Event> {
    if log == [] then None
    else if log[|log| - 1] == SkippedInit then LastMark(log[..|log| - 1])
    else Some(log[|log| - 1])
  }

  /** A log whose every entry was legal when it was appended. */
  ghost predicate LegalLog(log: seq<Event>) {
    forall i | 0 <= i < |log| :: LegalNext(log[..i], log[i])
  }

  /** An init runs only when the last one is revoked or unknown, and only a start that skipped init revokes. */
  ghost predicate LegalNext(log: seq<Event>, e: Event) {
    match e
    case InitSucceeded => LastMark(log) != Some(InitSucceeded)
    case SkippedInit => LastMark(log) != Some(Revoked)
    case Revoked => log != [] && log[|log| - 1] == SkippedInit
  }

  lemma LegalAppend(log: seq<Event>, e: Event)
    requires LegalLog(log) && LegalNext(log, e)
    ensures LegalLog(log + [e])
    ensures LastMark(log + [e]) == if e == SkippedInit then LastMark(log) else Some(e)
  {
    var log' := log + [e];
    assert log'[..|log|] == log;
    forall i | 0 <= i < |log| ensures log'[..i] == log[..i] && log'[i] == log[i] {
    }
  }

  /** The last mark of a prefix is at or after any mark in it. */
  lemma {:induction false} MarkBefore(log: seq<Event>, i: nat, j: nat) returns (m: nat)
    requires i < j <= |log| && log[i] != SkippedInit
    ensures i <= m < j && LastMark(log[..j]) == Some(log[m])
  {
    assert log[..j][..j - 1] == log[..j - 1];
    if log[j - 1] != SkippedInit {
      m := j - 1;
    } else {
      m := MarkBefore(log, i, j - 1);
    }
  }

  // ---- The invariant ----

  predicate ClaimsInit(w: Worker) {
    || w.spec == Some(true) || w.start == HasSpec(true) || w.start == InitDone || w.start.Launched?
    || w.healthy || w.log != []
  }

  ghost predicate WorkerOk(w: Worker, inits: nat) {
    && LegalLog(w.log)
    && (w.start != InitDone ==> (w.revoked <==> LastMark(w.log) == Some(Revoked)))
    && (w.start != InitDone && LastMark(w.log) == Some(InitSucceeded) ==> w.spec == Some(true))
    && (w.revoked ==> w.spec != Some(true))
    && (w.start != NoStart ==> w.spec.Some?)
    && (w.start.HasSpec? && LastMark(w.log) == Some(InitSucceeded) ==> w.start.initDone)
    && (w.start == RunningInit ==> LastMark(w.log) != Some(InitSucceeded))
    && (w.start == InitDone ==> LastMark(w.log) == Some(InitSucceeded))
    && (w.start == Launched(true) ==> w.log != [] && w.log[|w.log| - 1] == SkippedInit)
    // Every claim that init was done needs a success somewhere.
    && (ClaimsInit(w) ==> inits > 0)
  }

  ghost predicate RequestOk(q: Request, inits: nat) {
    q.shipped || q.phase == Answered(true) ==> inits > 0
  }

  ghost predicate Inv(s: State) {
    && (s.row ==> s.inits > 0)
    && (forall w | w in s.workers :: WorkerOk(s.workers[w], s.inits))
    && (forall r | r in s.requests :: RequestOk(s.requests[r], s.inits))
  }

  lemma RunKeepsWorker(w: Worker, op: Op, inits: nat)
    requires WorkerOk(w, inits) && CanRun(w, op) && (op.Offer? && op.flag ==> inits > 0)
    ensures WorkerOk(Run(w, op), if op.InitSucceeds? then inits + 1 else inits)
  {
    if op.Decide? || op.InitSucceeds? || op.NeverHealthy? {
      LoggedOpKeepsWorker(w, op, inits);
    }
  }

  /** The operations that can append to the log. */
  lemma LoggedOpKeepsWorker(w: Worker, op: Op, inits: nat)
    requires WorkerOk(w, inits) && CanRun(w, op) && (op.Decide? || op.InitSucceeds? || op.NeverHealthy?)
    ensures WorkerOk(Run(w, op), if op.InitSucceeds? then inits + 1 else inits)
  {
    var w' := Run(w, op);
    if op.InitSucceeds? {
      LegalAppend(w.log, InitSucceeded);
    } else if op.NeverHealthy? && w.start.skipped {
      LegalAppend(w.log, Revoked);
    } else if op.Decide? && w.start.initDone && !w.revoked {
      LegalAppend(w.log, SkippedInit);
    }
  }

  lemma StepKeepsInv(s: State, e: Step)
    requires Inv(s) && Enabled(s, e)
    ensures Inv(Apply(s, e))
  {
    if e.Deliver? {
      assert RequestOk(s.requests[e.r], s.inits);
      RunKeepsWorker(s.workers[s.requests[e.r].worker], Offer(s.requests[e.r].shipped), s.inits);
    } else if e.OnWorker? {
      RunKeepsWorker(s.workers[e.w], e.op, s.inits);
    } else if e.Answer? {
      assert WorkerOk(s.workers[s.requests[e.r].worker], s.inits);
    }
  }

  // ---- Runs ----

  ghost predicate IsRun(states: seq<State>, steps: seq<Step>) {
    && |states| == |steps| + 1
    && states[0] == INIT
    && forall i | 0 <= i < |steps| :: Enabled(states[i], steps[i]) && states[i + 1] == Apply(states[i], steps[i])
  }

  lemma {:induction false} RunKeepsInv(states: seq<State>, steps: seq<Step>, i: nat)
    requires IsRun(states, steps) && i < |states|
    ensures Inv(states[i])
  {
    if i > 0 {
      RunKeepsInv(states, steps, i - 1);
      StepKeepsInv(states[i - 1], steps[i - 1]);
    }
  }

  /** `inits` counts exactly the InitSucceeds steps taken so far. */
  lemma {:induction false} InitsComeFromSteps(states: seq<State>, steps: seq<Step>, i: nat)
    requires IsRun(states, steps) && i < |states| && states[i].inits > 0
    ensures exists j :: 0 <= j < i && steps[j].OnWorker? && steps[j].op == InitSucceeds
  {
    if states[i - 1].inits > 0 {
      InitsComeFromSteps(states, steps, i - 1);
    } else {
      assert steps[i - 1].OnWorker? && steps[i - 1].op == InitSucceeds;
    }
  }

  /** The worker's cache says done, or a start here has skipped init since boot. */
  predicate SaysDone(w: Worker) {
    w.spec == Some(true) || SkippedInit in w.log
  }

  /**
   * A set flag, in the control row or in any worker's cache, and every start that skipped init, come
   * after a step in which init succeeded somewhere.
   */
  lemma FlagTracesBackToInit(states: seq<State>, steps: seq<Step>, i: nat)
    requires IsRun(states, steps) && i < |states|
    requires states[i].row || exists w :: w in states[i].workers && SaysDone(states[i].workers[w])
    ensures exists j :: 0 <= j < i && steps[j].OnWorker? && steps[j].op == InitSucceeds
  {
    RunKeepsInv(states, steps, i);
    if !states[i].row {
      var w :| w in states[i].workers && SaysDone(states[i].workers[w]);
      assert WorkerOk(states[i].workers[w], states[i].inits);
    }
    InitsComeFromSteps(states, steps, i);
  }

  /** Within one boot, a start skips init after a revocation only once an init succeeded in between. */
  lemma NoSkipAfterRevocation(states: seq<State>, steps: seq<Step>, i: nat, w: nat, a: nat, b: nat)
    requires IsRun(states, steps) && i < |states| && w in states[i].workers
    requires a < b < |states[i].workers[w].log|
    requires states[i].workers[w].log[a] == Revoked && states[i].workers[w].log[b] == SkippedInit
    ensures exists m :: a < m < b && states[i].workers[w].log[m] == InitSucceeded
  {
    RunKeepsInv(states, steps, i);
    var log := states[i].workers[w].log;
    assert WorkerOk(states[i].workers[w], states[i].inits);
    var m := MarkBefore(log, a, b);
    assert LegalNext(log[..b], log[b]);
    NoSkipMark(log[..b]);
    assert log[m] == InitSucceeded;
  }

  lemma {:induction false} NoSkipMark(log: seq<Event>)
    ensures LastMark(log) != Some(SkippedInit)
  {
    if log != [] { NoSkipMark(log[..|log| - 1]); }
  }

  /** Entry m is the revocation by a start that skipped init. */
  predicate FailedSkip(log: seq<Event>, m: nat) {
    0 < m < |log| && log[m - 1] == SkippedInit && log[m] == Revoked
  }

  /** Within one boot, init re-ran only because a start in between skipped it and then never went healthy. */
  lemma ReInitNeedsFailedSkip(states: seq<State>, steps: seq<Step>, i: nat, w: nat, a: nat, b: nat)
    requires IsRun(states, steps) && i < |states| && w in states[i].workers
    requires a < b < |states[i].workers[w].log|
    requires states[i].workers[w].log[a] == states[i].workers[w].log[b] == InitSucceeded
    ensures exists m :: a < m - 1 && m < b && FailedSkip(states[i].workers[w].log, m)
  {
    RunKeepsInv(states, steps, i);
    var log := states[i].workers[w].log;
    assert WorkerOk(states[i].workers[w], states[i].inits);
    var m := MarkBefore(log, a, b);
    NoSkipMark(log[..b]);
    assert LegalNext(log[..b], log[b]) && log[m] == Revoked;
    assert LegalNext(log[..m], log[m]);
    assert FailedSkip(log, m);
  }

  // ---- The maps in memory ----

  /** How an ensure ended for the control node's client. */
  datatype Outcome = Success | HttpError(status: nat) | TransportError

  /** Only the worker's own "this start failed" answer counts; every other failure proves nothing. */
  predicate IsStartFailure(o: Outcome) {
    o == HttpError(502)
  }

  function Offered(w: Worker, spec: Option<bool>): Worker {
    if spec.Some? then Run(w, Offer(spec.value)) else w
  }

  /** The init bookkeeping of one node: the wire cache, the revocation marks, and its artifact rows. */
  class Manager {
    var wireSpecs: map<Key, bool>
    var initRevoked: set<Key>
    var rows: map<Key, bool>

    constructor ()
      ensures wireSpecs == map[] && initRevoked == {} && rows == map[]
    {
      wireSpecs, initRevoked, rows := map[], {}, map[];
    }

    /** This node's view of k is the cache and the mark of worker state w. */
    ghost predicate Shows(k: Key, w: Worker)
      reads this
    {
      w.spec == (if k in wireSpecs then Some(wireSpecs[k]) else None) && (w.revoked <==> k in initRevoked)
    }

    /** Nothing about any other key moved. */
    twostate predicate OthersSame(k: Key)
      reads this
    {
      forall k' | k' != k ::
        && (k' in wireSpecs <==> k' in old(wireSpecs))
        && (k' in wireSpecs ==> wireSpecs[k'] == old(wireSpecs)[k'])
        && (k' in initRevoked <==> k' in old(initRevoked))
        && (k' in rows <==> k' in old(rows)) && (k' in rows ==> rows[k'] == old(rows)[k'])
    }

    method OfferWireSpec(k: Key, flag: bool, ghost w: Worker)
      requires Shows(k, w)
      modifies this`wireSpecs
      ensures Shows(k, Run(w, Offer(flag))) && OthersSame(k)
      ensures k in wireSpecs
      ensures wireSpecs[k] <==> k !in initRevoked && (flag || (k in old(wireSpecs) && old(wireSpecs)[k]))
    {
      var done := flag;
      if k in wireSpecs && wireSpecs[k] {
        done := true;
      }
      if k in initRevoked {
        done := false;
      }
      wireSpecs := wireSpecs[k := done];
    }

    /**
     * handleEnsure: both shipped specs are offered before anything starts, and the reply is one the
     * client may take for a failed start exactly if the ensure failed here.
     */
    method HandleEnsure(k: Key, spec: Option<bool>, peerSpec: Option<bool>, started: bool, ghost w: Worker,
        ghost v: Worker)
      returns (reply: Outcome)
      requires Shows(k, w) && (HasPeer(k) ==> Shows(PeerOf(k), v))
      modifies this
      ensures Shows(k, Offered(w, spec)) && (HasPeer(k) ==> Shows(PeerOf(k), Offered(v, peerSpec)))
      ensures rows == old(rows) && initRevoked == old(initRevoked)
      ensures forall k' | k' != k && !(HasPeer(k) && k' == PeerOf(k)) ::
        (k' in wireSpecs <==> k' in old(wireSpecs)) && (k' in wireSpecs ==> wireSpecs[k'] == old(wireSpecs)[k'])
      ensures spec.Some? ==>
        && k in wireSpecs
        && (wireSpecs[k] <==> k !in initRevoked && (spec.value || (k in old(wireSpecs) && old(wireSpecs)[k])))
      ensures reply == if started then Success else HttpError(502)
    {
      if spec.Some? {
        OfferWireSpec(k, spec.value, w);
      }
      if peerSpec.Some? && HasPeer(k) {
        OfferWireSpec(PeerOf(k), peerSpec.value, v);
      }
      reply := if started then Success else HttpError(502);
    }

    /** loadRunSpec's flag: this node's row when it has one, the wire cache otherwise, and never a revoked one. */
    method LoadInitDone(k: Key) returns (found: bool, fromWire: bool, initDone: bool)
      ensures found <==> k in rows || k in wireSpecs
      ensures found ==> (fromWire <==> k !in rows)
      ensures initDone <==> found && k !in initRevoked && (if k in rows then rows[k] else wireSpecs[k])
      ensures forall w: Worker | found && fromWire && Shows(k, w) && w.start == NoStart ::
        CanRun(w, ReadSpec) && (initDone <==> Run(Run(w, ReadSpec), Decide).start == Launched(true))
    {
      if k in rows {
        return true, false, rows[k] && k !in initRevoked;
      }
      if k in wireSpecs {
        return true, true, wireSpecs[k] && k !in initRevoked;
      }
      return false, false, false;
    }

    /** markInitDone. When the row cannot be updated the start fails, with this node's memory already saying done. */
    method MarkInitDone(k: Key, fromWire: bool, rowFails: bool, ghost w: Worker) returns (ok: bool)
      requires Shows(k, w) && w.start == InitDone
      modifies this
      ensures Shows(k, Run(w, MarkDone)) && OthersSame(k)
      ensures k !in initRevoked && (k in wireSpecs <==> k in old(wireSpecs)) && (k in wireSpecs ==> wireSpecs[k])
      ensures ok <==> fromWire || !rowFails
      ensures rows == if fromWire || rowFails || k !in old(rows) then old(rows) else old(rows)[k := true]
    {
      initRevoked := initRevoked - {k};
      if k in wireSpecs {
        wireSpecs := wireSpecs[k := true];
      }
      if fromWire {
        return true;
      }
      ok := !rowFails;
      if ok && k in rows {
        rows := rows[k := true];
      }
    }

    /**
     * revokeInitDone, after a start that skipped init never went healthy. A row that cannot be cleared is
     * logged; the mark in memory stands.
     */
    method RevokeAfterFailedSkip(k: Key, fromWire: bool, rowFails: bool, ghost w: Worker)
      requires Shows(k, w) && w.start == Launched(true)
      modifies this
      ensures Shows(k, Run(w, NeverHealthy)) && OthersSame(k)
      ensures k in initRevoked && (k in wireSpecs <==> k in old(wireSpecs)) && (k in wireSpecs ==> !wireSpecs[k])
      ensures rows == if fromWire || rowFails || k !in old(rows) then old(rows) else old(rows)[k := false]
    {
      initRevoked := initRevoked + {k};
      if k in wireSpecs {
        wireSpecs := wireSpecs[k := false];
      }
      if !fromWire && !rowFails && k in rows {
        rows := rows[k := false];
      }
    }

    /**
     * The control node's side of one backend ensure that shipped its row's flag: adopt, revoke, or leave it.
     * `recorded` is whether the row update works; a failing one changes nothing else about the ensure.
     */
    method SettleEnsure(k: Key, shipped: bool, outcome: Outcome, recorded: bool)
      requires k.side == Backend && k in rows
      modifies this
      ensures OthersSame(k)
      ensures k in rows && rows[k] == match outcome
        case Success => RowAfter(old(rows)[k], Request(0, shipped, false, Answered(true)), recorded)
        case HttpError(502) => RowAfter(old(rows)[k], Request(0, shipped, false, Answered(false)), recorded)
        case _ => old(rows)[k]
      ensures k in rows && rows[k] ==
        if recorded && !shipped && outcome == Success then true
        else if recorded && shipped && outcome == HttpError(502) then false
        else old(rows)[k]
      ensures k in initRevoked <==> k in old(initRevoked) || (shipped && outcome == HttpError(502))
    {
      if outcome != Success {
        if shipped && IsStartFailure(outcome) {
          initRevoked := initRevoked + {k};
          if k in wireSpecs {
            wireSpecs := wireSpecs[k := false];
          }
          if recorded {
            rows := rows[k := false];
          }
        }
        return;
      }
      if !shipped && recorded {
        rows := rows[k := true];
      }
    }
  }
}
