/**
 * Incremental log views: a page echoes the attempt and the offset it last saw and receives only what was
 * appended since, from numbered run logs or from one build log.
 */
module LogCursor {

  import opened Basics

  /** A fresh view starts at most tail bytes before the end; one answer holds at most chunk bytes. */
  datatype Caps = Caps(tail: nat, chunk: nat)

  const RUN_CAPS := Caps(256 * 1024, 0x10_0000)
  const BUILD_CAPS := Caps(0x4000, 0x1_0000)

  datatype Chunk = Chunk(attempt: int, offset: int, content: seq<byte>, truncated: bool)

  datatype Result = Ok(chunk: Chunk) | Err(attempt: int)

  // ---- One answer ----

  /** The cursor belongs to this file. */
  predicate Follows(size: nat, latest: int, attempt: int, offset: int) {
    attempt == latest && 0 <= offset <= size
  }

  function Start(caps: Caps, size: nat, latest: int, attempt: int, offset: int): (start: nat)
    ensures start <= size
  {
    if Follows(size, latest, attempt, offset) then offset else TailStart(caps, size)
  }

  function TailStart(caps: Caps, size: nat): nat {
    if size > caps.tail then size - caps.tail else 0
  }

  function Min(a: nat, b: nat): nat {
    if a < b then a else b
  }

  function View(caps: Caps, file: seq<byte>, latest: int, attempt: int, offset: int): Chunk {
    var start := Start(caps, |file|, latest, attempt, offset);
    var end := start + Min(|file| - start, caps.chunk);
    Chunk(latest, end, file[start..end], !Follows(|file|, latest, attempt, offset) && |file| > caps.tail)
  }

  /**
   * What an answer holds. It is a run of the file's bytes up to the offset, as long as one answer may be. It starts
   * at the echoed offset if the cursor is of this log and in it, and otherwise at most a tail before the end; and it
   * is marked as cut exactly if something before it is neither in it nor before the echoed offset.
   */
  lemma ViewMeans(caps: Caps, file: seq<byte>, latest: int, attempt: int, offset: int) returns (start: nat)
    ensures var c := View(caps, file, latest, attempt, offset);
      && c.attempt == latest && start <= c.offset <= |file| && c.content == file[start..c.offset]
      && |c.content| == (if |file| - start < caps.chunk then |file| - start else caps.chunk)
      && start == (if attempt == latest && 0 <= offset <= |file| then offset
                   else if |file| > caps.tail then |file| - caps.tail else 0)
      && (c.truncated <==> start > 0 && !(attempt == latest && start == offset))
  {
    start := Start(caps, |file|, latest, attempt, offset);
  }

  /** A first view of a run log starts at most 256 KiB before its end, of a build log 16 KiB, and is marked if cut. */
  lemma FirstViews(file: seq<byte>, latest: int)
    requires latest != 0
    ensures var run := View(RUN_CAPS, file, latest, 0, 0); var build := View(BUILD_CAPS, file, latest, 0, 0);
      && run == Chunk(latest, |file|, if |file| > 262144 then file[|file| - 262144..] else file, |file| > 262144)
      && build == Chunk(latest, |file|, if |file| > 16384 then file[|file| - 16384..] else file, |file| > 16384)
  {
    assert file[0..|file|] == file;
  }

  /** What one answer carries on from an echoed cursor: a mebibyte of a run log, 64 KiB of a build log. */
  lemma NextViews(file: seq<byte>, latest: int, offset: nat)
    requires offset <= |file|
    ensures |View(RUN_CAPS, file, latest, latest, offset).content| == Min(|file| - offset, 1048576)
    ensures |View(BUILD_CAPS, file, latest, latest, offset).content| == Min(|file| - offset, 65536)
  {
  }

  /** The numbers that file names parse to; 0 stands for "never started". */
  ghost predicate IsLatest(names: seq<Option<int>>, n: int) {
    && n >= 0 && (n == 0 || Some(n) in names)
    && forall k | Some(k) in names :: k <= n
  }

  /** The view of the newest run log, which its canonical name has to open. */
  method RunLog(names: seq<Option<int>>, files: map<int, seq<byte>>, attempt: int, offset: int)
    returns (r: Result, ghost latest: int)
    ensures IsLatest(names, latest)
    ensures latest == 0 ==> r == Ok(Chunk(0, 0, [], false))
    ensures latest != 0 ==>
      r == if latest in files then Ok(View(RUN_CAPS, files[latest], latest, attempt, offset)) else Err(latest)
  {
    var newest := 0;
    var i := 0;
    while i < |names|
      invariant 0 <= i <= |names| && IsLatest(names[..i], newest)
    {
      assert names[..i + 1] == names[..i] + [names[i]];
      if names[i].Some? && names[i].value > newest {
        newest := names[i].value;
      }
      i := i + 1;
    }
    assert names[..i] == names;
    latest := newest;
    if newest == 0 {
      return Ok(Chunk(0, 0, [], false)), latest;
    }
    if newest !in files {
      return Err(newest), latest;
    }
    var file := files[newest];
    var size := |file|;
    var start, truncated := 0, false;
    if attempt == newest && 0 <= offset <= size {
      start := offset;
    } else if size > RUN_CAPS.tail {
      start := size - RUN_CAPS.tail;
      truncated := true;
    }
    var n := if size - start < RUN_CAPS.chunk then size - start else RUN_CAPS.chunk;
    r := Ok(Chunk(newest, start + n, file[start..start + n], truncated));
  }

  /** A log that has not been opened yet reads as an empty one. */
  method TailFile(file: Option<seq<byte>>, viewAttempt: int, reqAttempt: int, offset: int) returns (c: Chunk)
    ensures c == View(BUILD_CAPS, if file.Some? then file.value else [], viewAttempt, reqAttempt, offset)
  {
    if file.None? {
      return Chunk(viewAttempt, 0, [], false);
    }
    var size := |file.value|;
    var start, truncated := 0, false;
    if reqAttempt == viewAttempt && 0 <= offset <= size {
      start := offset;
    } else if size > BUILD_CAPS.tail {
      start := size - BUILD_CAPS.tail;
      truncated := true;
    }
    var n := if size - start < BUILD_CAPS.chunk then size - start else BUILD_CAPS.chunk;
    c := Chunk(viewAttempt, start + n, file.value[start..start + n], truncated);
  }

  // ---- The page ----

  /** What the page shows and echoes. */
  datatype Shown = Shown(attempt: int, offset: int, text: seq<byte>)

  const OPENED := Shown(0, 0, [])

  /** An answer without an attempt changes nothing; another attempt clears the pane. */
  function Ticked(p: Shown, c: Option<Chunk>): Shown {
    if c.None? || c.value.attempt == 0 then p
    else Shown(c.value.attempt, c.value.offset, (if c.value.attempt != p.attempt then [] else p.text) + c.value.content)
  }

  class Page {
    var attempt: int
    var offset: int
    var text: seq<byte>

    function Show(): (p: Shown)
      reads this
    {
      Shown(attempt, offset, text)
    }

    constructor ()
      ensures Show() == OPENED
    {
      attempt, offset, text := 0, 0, [];
    }

    method Tick(c: Option<Chunk>)
      modifies this
      ensures Show() == Ticked(old(Show()), c)
    {
      if c.None? {
        return;
      }
      if c.value.attempt != 0 {
        if c.value.attempt != attempt {
          attempt := c.value.attempt;
          text := [];
        }
        if c.value.content != [] {
          text := text + c.value.content;
        }
        offset := c.value.offset;
      }
    }
  }

  // ---- Sessions over append-only logs ----

  /** Logs 1 to latest exist; from is where the page's first view of its attempt began. */
  datatype State = State(latest: nat, files: map<int, seq<byte>>, page: Shown, from: nat)

  datatype Step =
    | Append(n: int, bytes: seq<byte>)
    | NewAttempt            // opens the log after the last
    | Poll
    | PollLost

  predicate Enabled(s: State, e: Step) {
    e.Append? ==> e.n in s.files
  }

  function Answer(caps: Caps, s: State): Chunk {
    if s.latest in s.files then View(caps, s.files[s.latest], s.latest, s.page.attempt, s.page.offset)
    else Chunk(0, 0, [], false)
  }

  function Apply(caps: Caps, s: State, e: Step): State
    requires Enabled(s, e)
  {
    match e
    case Append(n, bytes) => s.(files := s.files[n := s.files[n] + bytes])
    case NewAttempt => s.(latest := s.latest + 1, files := s.files[s.latest + 1 := []])
    case PollLost => s
    case Poll =>
      s.(page := Ticked(s.page, Some(Answer(caps, s))),
         from := if s.latest in s.files && s.latest != s.page.attempt
           then TailStart(caps, |s.files[s.latest]|) else s.from)
  }

  ghost predicate Legal(caps: Caps, s: State, es: seq<Step>)
    decreases |es|
  {
    es == [] || (Enabled(s, es[0]) && Legal(caps, Apply(caps, s, es[0]), es[1..]))
  }

  function Run(caps: Caps, s: State, es: seq<Step>): State
    requires Legal(caps, s, es)
    decreases |es|
  {
    if es == [] then s else Run(caps, Apply(caps, s, es[0]), es[1..])
  }

  const INIT := State(0, map[], OPENED, 0)

  /** The page shows exactly the bytes of its attempt's log from its first view's start to its offset. */
  ghost predicate Inv(s: State) {
    && (forall n :: n in s.files <==> 1 <= n <= s.latest)
    && (if s.page.attempt == 0 then s.page == OPENED
        else s.page.attempt in s.files && s.from <= s.page.offset <= |s.files[s.page.attempt]| &&
             s.page.text == s.files[s.page.attempt][s.from..s.page.offset])
  }

  lemma StepKeepsInv(caps: Caps, s: State, e: Step)
    requires Inv(s) && Enabled(s, e)
    ensures Inv(Apply(caps, s, e))
  {
    if e.Poll? && s.latest in s.files && s.page.attempt == s.latest {
      var file := s.files[s.latest];
      var c := Answer(caps, s);
      assert file[s.from..s.page.offset] + file[s.page.offset..c.offset] == file[s.from..c.offset];
    }
  }

  lemma {:induction false} RunKeepsInv(caps: Caps, s: State, es: seq<Step>)
    requires Inv(s) && Legal(caps, s, es)
    ensures Inv(Run(caps, s, es))
    decreases |es|
  {
    if es != [] {
      StepKeepsInv(caps, s, es[0]);
      RunKeepsInv(caps, Apply(caps, s, es[0]), es[1..]);
    }
  }

  /** t is s with the same view of the same log, further on, and the log longer. */
  predicate Continues(s: State, t: State) {
    var a := s.page.attempt;
    && a != 0 && t.page.attempt == a && t.from == s.from && s.page.offset <= t.page.offset
    && a in s.files && a in t.files && s.files[a] <= t.files[a]
  }

  lemma StepContinues(caps: Caps, s: State, e: Step)
    requires Inv(s) && Enabled(s, e) && s.page.attempt != 0 && Apply(caps, s, e).page.attempt == s.page.attempt
    ensures Continues(s, Apply(caps, s, e))
  {
  }

  lemma {:induction false} RunContinues(caps: Caps, s: State, es: seq<Step>)
    requires Inv(s) && Legal(caps, s, es) && s.page.attempt != 0
    requires Run(caps, s, es).page.attempt == s.page.attempt
    ensures Continues(s, Run(caps, s, es))
    decreases |es|
  {
    if es != [] {
      var u := Apply(caps, s, es[0]);
      StepKeepsInv(caps, s, es[0]);
      AttemptsGrow(caps, s, [es[0]]);
      AttemptsGrow(caps, u, es[1..]);
      StepContinues(caps, s, es[0]);
      RunContinues(caps, u, es[1..]);
    }
  }

  lemma Slices(file: seq<byte>, log: seq<byte>, a: nat, b: nat, c: nat)
    requires file <= log && a <= b <= |file| && b <= c <= |log|
    ensures file[a..b] + log[b..c] == log[a..c]
  {
  }

  /** Nothing the page shows is lost or repeated while its attempt stays: what is added is the log's next bytes. */
  lemma SameAttemptContinues(caps: Caps, s: State, es: seq<Step>)
    requires Inv(s) && Legal(caps, s, es) && s.page.attempt != 0
    requires Run(caps, s, es).page.attempt == s.page.attempt
    ensures var t := Run(caps, s, es); var a := s.page.attempt;
      && t.from == s.from && s.page.offset <= t.page.offset
      && a in t.files && s.files[a] <= t.files[a] && t.page.offset <= |t.files[a]|
      && t.page.text == s.page.text + t.files[a][s.page.offset..t.page.offset]
  {
    RunContinues(caps, s, es);
    RunKeepsInv(caps, s, es);
    var t, a := Run(caps, s, es), s.page.attempt;
    Slices(s.files[a], t.files[a], s.from, s.page.offset, t.page.offset);
  }

  lemma {:induction false} AttemptsGrow(caps: Caps, s: State, es: seq<Step>)
    requires Inv(s) && Legal(caps, s, es)
    ensures s.page.attempt <= Run(caps, s, es).page.attempt
    decreases |es|
  {
    if es != [] {
      StepKeepsInv(caps, s, es[0]);
      AttemptsGrow(caps, Apply(caps, s, es[0]), es[1..]);
    }
  }

  /** A poll after a restart shows a tail of the new log and nothing of the old one. */
  lemma RestartResets(caps: Caps, s: State)
    requires Inv(s) && s.latest != 0 && s.page.attempt != s.latest && caps.tail <= caps.chunk
    ensures var t := Apply(caps, s, Poll); var log := s.files[s.latest];
      && t.page == Shown(s.latest, |log|, log[TailStart(caps, |log|)..])
      && Ticked(OPENED, Some(View(caps, log, s.latest, 0, 0))) == t.page
      && |t.page.text| == Min(|log|, caps.tail)
  {
  }

  function Polls(caps: Caps, s: State, k: nat): State
    decreases k
  {
    if k == 0 then s else Polls(caps, Apply(caps, s, Poll), k - 1)
  }

  function PollsNeeded(caps: Caps, backlog: nat): nat
    requires caps.chunk > 0
    decreases backlog
  {
    if backlog == 0 then 0 else if backlog <= caps.chunk then 1 else 1 + PollsNeeded(caps, backlog - caps.chunk)
  }

  /** That is the backlog divided by the chunk size, rounded up. */
  lemma {:induction false} PollsNeededIs(caps: Caps, backlog: nat)
    requires caps.chunk > 0
    ensures var k := PollsNeeded(caps, backlog); k * caps.chunk >= backlog && (k > 0 ==> (k - 1) * caps.chunk < backlog)
    decreases backlog
  {
    if backlog > caps.chunk {
      PollsNeededIs(caps, backlog - caps.chunk);
      var k := PollsNeeded(caps, backlog);
      assert k * caps.chunk == (k - 1) * caps.chunk + caps.chunk;
      assert (k - 1) * caps.chunk == (k - 2) * caps.chunk + caps.chunk;
    }
  }

  /** Once appends stop a page is up to date after exactly that many polls and no fewer. */
  lemma {:induction false} CatchesUp(caps: Caps, s: State, k: nat)
    requires Inv(s) && s.latest != 0 && s.page.attempt == s.latest && caps.chunk > 0
    ensures var t := Polls(caps, s, k); var log := s.files[s.latest];
      && Inv(t) && t.files == s.files && t.page.attempt == s.latest && t.from == s.from
      && (t.page.offset == |log| <==> k >= PollsNeeded(caps, |log| - s.page.offset))
    decreases k
  {
    if k > 0 {
      StepKeepsInv(caps, s, Poll);
      CatchesUp(caps, Apply(caps, s, Poll), k - 1);
    }
  }

  /** Where an answer from a start ends. */
  function End(caps: Caps, size: nat, start: nat): nat
    requires start <= size
  {
    start + Min(size - start, caps.chunk)
  }

  /** With the cursor at q, the pane holds the log's tail up to q, and the next answer ends where a first one would. */
  predicate ContinuesLikeNew(caps: Caps, text: seq<byte>, log: seq<byte>, q: nat)
    requires q <= |log|
  {
    var t := TailStart(caps, |log|);
    t <= q && text == log[t..q] && End(caps, |log|, q) == End(caps, |log|, t)
  }

  lemma NothingAdded(text: seq<byte>, shown: seq<byte>)
    ensures text + shown == shown <==> text == []
  {
    assert |text + shown| == |text| + |shown|;
    assert [] + shown == shown;
  }

  lemma ShownUpTo(text: seq<byte>, log: seq<byte>, t: nat, q: nat, e: nat)
    requires t <= e <= |log| && q <= e
    ensures text + log[q..e] == log[t..e] <==> t <= q && text == log[t..q]
  {
    if text + log[q..e] == log[t..e] {
      assert |text + log[q..e]| == |text| + (e - q);
      assert text == (text + log[q..e])[..|text|] == log[t..e][..|text|] == log[t..q];
    }
    if t <= q { assert log[t..q] + log[q..e] == log[t..e]; }
  }

  /**
   * One page can be shown the build log first and a run log after it. It starts over on the second log
   * like a new page exactly if the attempts differ, or its cursor is past that log and it shows nothing,
   * or its cursor is in that log and it shows the log's tail up to there. Build logs are numbered 1 and 2,
   * run logs from 1.
   */
  lemma SwitchResets(caps: Caps, p: Shown, log: seq<byte>, latest: int)
    requires latest != 0
    ensures Ticked(p, Some(View(caps, log, latest, p.attempt, p.offset))) ==
            Ticked(OPENED, Some(View(caps, log, latest, 0, 0))) <==>
      || p.attempt != latest
      || (if 0 <= p.offset <= |log| then ContinuesLikeNew(caps, p.text, log, p.offset) else p.text == [])
  {
    var t := TailStart(caps, |log|);
    var shown := log[t..End(caps, |log|, t)];
    if 0 <= p.offset <= |log| && End(caps, |log|, p.offset) == End(caps, |log|, t) {
      ShownUpTo(p.text, log, t, p.offset, End(caps, |log|, t));
    }
    NothingAdded(p.text, shown);
  }

  /** With equal numbers it keeps the first log's text and skips as much of the second. */
  lemma EqualNumbersMixLogs(build: seq<byte>, run: seq<byte>)
    requires 0 < |build| <= |run| && |build| <= BUILD_CAPS.tail && |run| <= RUN_CAPS.tail
    ensures var p := Ticked(OPENED, Some(View(BUILD_CAPS, build, 1, 0, 0)));
      && p == Shown(1, |build|, build)
      && Ticked(p, Some(View(RUN_CAPS, run, 1, p.attempt, p.offset))) == Shown(1, |run|, build + run[|build|..])
      && Ticked(OPENED, Some(View(RUN_CAPS, run, 1, 0, 0))) == Shown(1, |run|, run)
  {
    var p := Ticked(OPENED, Some(View(BUILD_CAPS, build, 1, 0, 0)));
    assert build[0..|build|] == build && [] + build == build;
    assert run[0..|run|] == run && [] + run == run;
    assert run[|build|..|run|] == run[|build|..];
  }
}
