/** Branch patterns: `**` globs, include and exclude lists, and their canonical form. */
module Globs {

  import opened Basics

  /** path.Match on one segment; what it accepts does not matter here. */
  type SegmentMatch = (string, string) -> bool

  // ---- Globs ----

  /** A "**" consumes zero or more segments, every other pattern segment exactly one. */
  predicate MatchSegments(m: SegmentMatch, pat: seq<string>, name: seq<string>)
    decreases |pat|
  {
    if pat == [] then name == []
    else if pat[0] == "**" then exists i :: 0 <= i <= |name| && MatchSegments(m, pat[1..], name[i..])
    else name != [] && m(pat[0], name[0]) && MatchSegments(m, pat[1..], name[1..])
  }

  function Concat(runs: seq<seq<string>>): seq<string> {
    if runs == [] then [] else runs[0] + Concat(runs[1..])
  }

  /** What one pattern segment may take. */
  predicate Takes(m: SegmentMatch, p: string, run: seq<string>) {
    p == "**" || (|run| == 1 && m(p, run[0]))
  }

  /** The name is cut into one run per pattern segment. */
  ghost predicate IsCut(m: SegmentMatch, pat: seq<string>, name: seq<string>, runs: seq<seq<string>>) {
    |runs| == |pat| && Concat(runs) == name && forall i | 0 <= i < |pat| :: Takes(m, pat[i], runs[i])
  }

  /** Matching is exactly the existence of such a cut. */
  lemma MatchIffCut(m: SegmentMatch, pat: seq<string>, name: seq<string>)
    ensures MatchSegments(m, pat, name) <==> exists runs :: IsCut(m, pat, name, runs)
  {
    if MatchSegments(m, pat, name) {
      var runs := CutOfMatch(m, pat, name);
    }
    if runs :| IsCut(m, pat, name, runs) {
      MatchOfCut(m, pat, name, runs);
    }
  }

  lemma {:induction false} CutOfMatch(m: SegmentMatch, pat: seq<string>, name: seq<string>)
    returns (runs: seq<seq<string>>)
    requires MatchSegments(m, pat, name)
    ensures IsCut(m, pat, name, runs)
    decreases |pat|
  {
    if pat == [] {
      runs := [];
    } else {
      var i := 1;
      if pat[0] == "**" {
        i :| 0 <= i <= |name| && MatchSegments(m, pat[1..], name[i..]);
      }
      var rest := CutOfMatch(m, pat[1..], name[i..]);
      runs := [name[..i]] + rest;
      assert runs[1..] == rest;
      assert name == name[..i] + name[i..];
    }
  }

  lemma {:induction false} MatchOfCut(m: SegmentMatch, pat: seq<string>, name: seq<string>, runs: seq<seq<string>>)
    requires IsCut(m, pat, name, runs)
    ensures MatchSegments(m, pat, name)
    decreases |pat|
  {
    if pat != [] {
      var i := |runs[0]|;
      assert Takes(m, pat[0], runs[0]);
      assert name[i..] == Concat(runs[1..]);
      forall j | 0 <= j < |pat| - 1 ensures Takes(m, pat[1..][j], runs[1..][j]) {
        assert Takes(m, pat[j + 1], runs[j + 1]);
      }
      MatchOfCut(m, pat[1..], name[i..], runs[1..]);
    }
  }

  // ---- Include and exclude lists ----

  function Split(s: string, sep: char): seq<string> {
    if s == "" then [""]
    else
      var rest := Split(s[1..], sep);
      if s[0] == sep then [""] + rest else [[s[0]] + rest[0]] + rest[1..]
  }

  predicate MatchGlob(m: SegmentMatch, pattern: string, branch: string) {
    MatchSegments(m, Split(pattern, '/'), Split(branch, '/'))
  }

  lemma {:induction false} SplitWithout(s: string, sep: char)
    ensures |Split(s, sep)| == 1 <==> sep !in s
    ensures sep !in s ==> Split(s, sep) == [s]
  {
    if s != "" {
      SplitWithout(s[1..], sep);
      assert s == [s[0]] + s[1..];
    }
  }

  /** A pattern without slashes is for branches without slashes, and "**" for every branch. */
  lemma OneSegmentIff(m: SegmentMatch, p: string, branch: string)
    requires '/' !in p && p != "**"
    ensures MatchGlob(m, p, branch) <==> '/' !in branch && m(p, branch)
  {
    SplitWithout(p, '/');
    SplitWithout(branch, '/');
    var name := Split(branch, '/');
    assert Split(p, '/') == [p] && [p][1..] == [];
    assert MatchSegments(m, [p], name) <==> name != [] && m(p, name[0]) && MatchSegments(m, [], name[1..]);
  }

  lemma DoubleStarMatchesAll(m: SegmentMatch, branch: string)
    ensures MatchGlob(m, "**", branch)
  {
    SplitWithout("**", '/');
    var name := Split(branch, '/');
    assert ["**"][1..] == [] && name[|name|..] == [];
    assert MatchSegments(m, [], name[|name|..]);
  }

  predicate Negated(p: string) {
    p != "" && p[0] == '!'
  }

  /** Some exclude pattern matches. */
  ghost predicate Excluded(m: SegmentMatch, patterns: set<string>, branch: string) {
    exists p | p in patterns :: Negated(p) && MatchGlob(m, p[1..], branch)
  }

  /** An include pattern matches, or there is none. */
  ghost predicate Included(m: SegmentMatch, patterns: set<string>, branch: string) {
    (forall p | p in patterns :: Negated(p)) || exists p | p in patterns :: !Negated(p) && MatchGlob(m, p, branch)
  }

  ghost function Elems(s: seq<string>): set<string> {
    set p | p in s
  }

  /** A branch is watched if it is included and not excluded, whatever the order of the patterns. */
  method MatchBranch(m: SegmentMatch, patterns: seq<string>, branch: string) returns (r: bool)
    ensures r <==> Included(m, Elems(patterns), branch) && !Excluded(m, Elems(patterns), branch)
  {
    var hasInclude, included := false, false;
    var i := 0;
    while i < |patterns|
      invariant 0 <= i <= |patterns|
      invariant forall j | 0 <= j < i :: Negated(patterns[j]) ==> !MatchGlob(m, patterns[j][1..], branch)
      invariant hasInclude <==> exists j :: 0 <= j < i && !Negated(patterns[j])
      invariant included <==> exists j :: 0 <= j < i && !Negated(patterns[j]) && MatchGlob(m, patterns[j], branch)
    {
      var p := patterns[i];
      assert p in Elems(patterns);
      if Negated(p) {
        if MatchGlob(m, p[1..], branch) {
          return false;
        }
      } else {
        hasInclude := true;
        if MatchGlob(m, p, branch) {
          included := true;
        }
      }
      i := i + 1;
    }
    assert forall j | 0 <= j < |patterns| :: patterns[j] in Elems(patterns);
    r := !hasInclude || included;
  }

  /** Permuting or repeating patterns changes nothing. */
  lemma OrderDoesNotMatter(m: SegmentMatch, a: seq<string>, b: seq<string>, branch: string)
    requires multiset(a) == multiset(b)
    ensures Included(m, Elems(a), branch) <==> Included(m, Elems(b), branch)
    ensures Excluded(m, Elems(a), branch) <==> Excluded(m, Elems(b), branch)
  {
    forall p ensures p in a <==> p in b {
      assert p in multiset(a) <==> p in multiset(b);
    }
    assert Elems(a) == Elems(b);
  }

  // ---- The canonical form of a pattern list ----

  type Space = char -> bool

  function TrimLeft(sp: Space, s: string): string {
    if s != "" && sp(s[0]) then TrimLeft(sp, s[1..]) else s
  }

  function TrimRight(sp: Space, s: string): string {
    if s != "" && sp(s[|s| - 1]) then TrimRight(sp, s[..|s| - 1]) else s
  }

  function Trim(sp: Space, s: string): string {
    TrimRight(sp, TrimLeft(sp, s))
  }

  function TrimAll(sp: Space, parts: seq<string>): seq<string> {
    if parts == [] then []
    else (if Trim(sp, parts[0]) != "" then [Trim(sp, parts[0])] else []) + TrimAll(sp, parts[1..])
  }

  function SplitPatterns(sp: Space, s: string): seq<string> {
    TrimAll(sp, Split(s, ','))
  }

  function Join(parts: seq<string>): string {
    if parts == [] then "" else if |parts| == 1 then parts[0] else parts[0] + "," + Join(parts[1..])
  }

  /** A pattern is refused when it is a bare "!" or one of its segments is malformed. */
  predicate ValidPattern(malformed: string -> bool, p: string) {
    var glob := if Negated(p) then p[1..] else p;
    glob != "" && forall seg | seg in Split(glob, '/') :: seg == "**" || !malformed(seg)
  }

  /** A "!" in front changes nothing about a pattern's validity, and alone it is refused like nothing at all. */
  lemma ValidPatternIff(malformed: string -> bool, p: string)
    requires p == "" || p[0] != '!'
    ensures ValidPattern(malformed, "!" + p) <==> ValidPattern(malformed, p)
    ensures ValidPattern(malformed, p) <==>
      p != "" && forall seg | seg in Split(p, '/') :: seg == "**" || !malformed(seg)
  {
    assert ("!" + p)[1..] == p;
  }

  method ValidatePatterns(sp: Space, malformed: string -> bool, s: string) returns (r: Option<string>)
    ensures r.Some? <==> forall p | p in SplitPatterns(sp, s) :: ValidPattern(malformed, p)
    ensures r.Some? ==> SplitPatterns(sp, r.value) == SplitPatterns(sp, s)
  {
    var parts := SplitPatterns(sp, s);
    var valid := AllValid(malformed, parts);
    if !valid {
      return None;
    }
    CanonicalSplitsTheSame(sp, s);
    r := Some(Join(parts));
  }

  /** The loop of ValidatePatterns. */
  method AllValid(malformed: string -> bool, parts: seq<string>) returns (ok: bool)
    ensures ok <==> forall p | p in parts :: ValidPattern(malformed, p)
  {
    var i := 0;
    while i < |parts|
      invariant 0 <= i <= |parts| && forall j | 0 <= j < i :: ValidPattern(malformed, parts[j])
    {
      if !ValidPattern(malformed, parts[i]) {
        assert parts[i] in parts;
        return false;
      }
      i := i + 1;
    }
    ok := true;
  }

  /** No separator, not empty, and nothing to trim. */
  ghost predicate Canonical(sp: Space, p: string) {
    p != "" && ',' !in p && Trim(sp, p) == p
  }

  lemma {:induction false} TrimLeftIs(sp: Space, s: string)
    ensures var t := TrimLeft(sp, s); (t != "" ==> !sp(t[0])) && (forall c | c in t :: c in s)
  {
    if s != "" && sp(s[0]) { TrimLeftIs(sp, s[1..]); }
  }

  lemma {:induction false} TrimRightIs(sp: Space, s: string)
    ensures var t := TrimRight(sp, s); t <= s && (t != "" ==> !sp(t[|t| - 1]))
  {
    if s != "" && sp(s[|s| - 1]) { TrimRightIs(sp, s[..|s| - 1]); }
  }

  lemma {:induction false} TrimLeftCuts(sp: Space, s: string) returns (n: nat)
    ensures n <= |s| && TrimLeft(sp, s) == s[n..] && forall i | 0 <= i < n :: sp(s[i])
  {
    n := 0;
    if s != "" && sp(s[0]) {
      n := TrimLeftCuts(sp, s[1..]);
      n := n + 1;
    }
  }

  lemma {:induction false} TrimRightCuts(sp: Space, s: string) returns (n: nat)
    ensures n <= |s| && TrimRight(sp, s) == s[..n] && forall i | n <= i < |s| :: sp(s[i])
  {
    n := |s|;
    if s != "" && sp(s[|s| - 1]) {
      n := TrimRightCuts(sp, s[..|s| - 1]);
    }
  }

  /** Trimming takes white space off both ends, all of it and nothing else. */
  lemma TrimCuts(sp: Space, s: string) returns (a: nat, b: nat)
    ensures a <= b <= |s| && Trim(sp, s) == s[a..b]
    ensures forall i | 0 <= i < |s| && !(a <= i < b) :: sp(s[i])
    ensures a < b ==> !sp(s[a]) && !sp(s[b - 1])
  {
    a := TrimLeftCuts(sp, s);
    var n := TrimRightCuts(sp, s[a..]);
    b := a + n;
    TrimLeftIs(sp, s);
    TrimRightIs(sp, s[a..]);
    forall i | b <= i < |s| ensures sp(s[i]) {
      assert s[a..][i - a] == s[i];
    }
  }

  lemma TrimIsIdempotent(sp: Space, s: string)
    ensures Trim(sp, Trim(sp, s)) == Trim(sp, s)
    ensures forall c | c in Trim(sp, s) :: c in s
  {
    TrimLeftIs(sp, s);
    TrimRightIs(sp, TrimLeft(sp, s));
  }

  lemma {:induction false} SplitHasNoSeparator(s: string, sep: char)
    ensures Split(s, sep) != [] && forall p | p in Split(s, sep) :: sep !in p
  {
    if s != "" {
      SplitHasNoSeparator(s[1..], sep);
      var rest := Split(s[1..], sep);
      assert rest[0] in rest && forall p | p in rest[1..] :: p in rest;
    }
  }

  lemma {:induction false} TrimAllIsCanonical(sp: Space, parts: seq<string>)
    requires forall p | p in parts :: ',' !in p
    ensures forall p | p in TrimAll(sp, parts) :: Canonical(sp, p)
  {
    if parts != [] {
      TrimIsIdempotent(sp, parts[0]);
      assert parts[0] in parts && forall p | p in parts[1..] :: p in parts;
      TrimAllIsCanonical(sp, parts[1..]);
    }
  }

  lemma {:induction false} TrimAllKeeps(sp: Space, parts: seq<string>)
    requires forall p | p in parts :: Canonical(sp, p)
    ensures TrimAll(sp, parts) == parts
  {
    if parts != [] {
      assert parts[0] in parts && forall p | p in parts[1..] :: p in parts;
      TrimAllKeeps(sp, parts[1..]);
    }
  }

  lemma {:induction false} SplitAfterPart(p: string, rest: string)
    requires ',' !in p
    ensures Split(p + "," + rest, ',') == [p] + Split(rest, ',')
    ensures Split(p, ',') == [p]
  {
    if p == "" {
      assert p + "," + rest == "," + rest && ("," + rest)[1..] == rest;
    } else {
      SplitAfterPart(p[1..], rest);
      assert (p + "," + rest)[1..] == p[1..] + "," + rest;
      assert [p[0]] + p[1..] == p;
    }
  }

  lemma {:induction false} SplitJoin(parts: seq<string>)
    requires parts != [] && forall p | p in parts :: ',' !in p
    ensures Split(Join(parts), ',') == parts
  {
    assert parts[0] in parts;
    if |parts| == 1 {
      SplitAfterPart(parts[0], "");
    } else {
      assert forall p | p in parts[1..] :: p in parts;
      SplitJoin(parts[1..]);
      SplitAfterPart(parts[0], Join(parts[1..]));
    }
  }

  /** Splitting the canonical form gives the patterns of the input. */
  lemma CanonicalSplitsTheSame(sp: Space, s: string)
    ensures SplitPatterns(sp, Join(SplitPatterns(sp, s))) == SplitPatterns(sp, s)
  {
    var parts := SplitPatterns(sp, s);
    SplitHasNoSeparator(s, ',');
    TrimAllIsCanonical(sp, Split(s, ','));
    if parts == [] {
      assert Split("", ',') == [""] && Trim(sp, "") == "";
    } else {
      SplitJoin(parts);
      TrimAllKeeps(sp, parts);
    }
  }
}
