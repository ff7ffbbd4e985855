/** tagparse.go: reading the header of a Go source file, extracting its
    `// +build` lines and parsing them into a build constraint.

    The syntax is that of go/build: a space separates alternatives (OR), a
    comma separates conjuncts (AND) and a leading `!` negates a tag.  Several
    `+build` lines are joined with a space, so they are OR'd together. */
module TagParse {
  import opened Wrappers
  import opened Strs
  import opened Seqs

  /** A build constraint: atag, negtag, andtag and ortag. */
  datatype Tag =
    | ATag(name: string)
    | NegTag(name: string)
    | AndTag(terms: seq<Tag>)
    | OrTag(terms: seq<Tag>)

  /** An io.Reader as a bufio.Scanner sees it: the lines it yields, and the
      error that ends the scan after the last of them, if there is one. */
  datatype Reader = Reader(lines: seq<string>, failure: Option<Error>)

  const PackageClause := "package "
  const BuildMarker := "+build "

  // ---------------------------------------------------------------------
  // readUntilPackage

  /** A line that, once trimmed, starts the package clause. */
  predicate IsPackageClause(line: string)
  {
    HasPrefix(TrimSpace(line), PackageClause)
  }

  /** The trimmed lines before the first package clause. */
  function Header(lines: seq<string>): seq<string>
  {
    if lines == [] || IsPackageClause(lines[0]) then []
    else [TrimSpace(lines[0])] + Header(lines[1..])
  }

  /** The header is the trimmed prefix of the lines that stops exactly at
      the first package clause, or at the end. */
  lemma {:induction false} HeaderMeaning(lines: seq<string>)
    ensures |Header(lines)| <= |lines|
    ensures forall k | 0 <= k < |Header(lines)| :: Header(lines)[k] == TrimSpace(lines[k]) && !IsPackageClause(lines[k])
    ensures |Header(lines)| < |lines| ==> IsPackageClause(lines[|Header(lines)|])
  {
    if lines != [] && !IsPackageClause(lines[0]) {
      HeaderMeaning(lines[1..]);
    }
  }

  /** What readUntilPackage returns: the header lines, unless the scan ran
      into its error before reaching a package clause. */
  function HeaderLines(r: Reader): Result<seq<string>>
  {
    if r.failure.Some? && forall k | 0 <= k < |r.lines| :: !IsPackageClause(r.lines[k])
    then Failure(r.failure.value)
    else Success(Header(r.lines))
  }

  /** readUntilPackage: collect trimmed lines until the first package
      clause; a scan error before it yields the error. */
  method ReadUntilPackage(r: Reader) returns (res: Result<seq<string>>)
    ensures res == HeaderLines(r)
  {
    var lines: seq<string> := [];
    var i := 0;
    while i < |r.lines|
      invariant 0 <= i <= |r.lines| && |lines| == i
      invariant forall k | 0 <= k < i :: lines[k] == TrimSpace(r.lines[k]) && !IsPackageClause(r.lines[k])
    {
      var line := TrimSpace(r.lines[i]);
      if HasPrefix(line, PackageClause) {
        HeaderDone(r.lines, lines);
        return Success(lines);
      }
      lines := lines + [line];
      i := i + 1;
    }
    HeaderDone(r.lines, lines);
    if r.failure.Some? {
      return Failure(r.failure.value);
    }
    res := Success(lines);
  }

  /** The scan has stopped, at a package clause or at the end: what it
      collected is the header. */
  lemma {:induction false} HeaderDone(lines: seq<string>, acc: seq<string>)
    requires |acc| <= |lines|
    requires forall k | 0 <= k < |acc| :: acc[k] == TrimSpace(lines[k]) && !IsPackageClause(lines[k])
    requires |acc| < |lines| ==> IsPackageClause(lines[|acc|])
    ensures Header(lines) == acc
  {
    if acc == [] {
      assert lines == [] || IsPackageClause(lines[0]);
    } else {
      var rest, tail := lines[1..], acc[1..];
      assert !IsPackageClause(lines[0]) && acc[0] == TrimSpace(lines[0]);
      assert forall k | 0 <= k < |tail| :: tail[k] == acc[k + 1] && rest[k] == lines[k + 1];
      assert |tail| < |rest| ==> rest[|tail|] == lines[|acc|];
      HeaderDone(rest, tail);
      assert Header(lines) == [acc[0]] + tail;
      assert acc == [acc[0]] + tail;
    }
  }

  // ---------------------------------------------------------------------
  // extractBuildTags

  /** A line holding the `+build ` marker. */
  predicate IsBuildLine(line: string)
  {
    IndexOf(line, BuildMarker) >= 0
  }

  /** The trimmed text after the first `+build ` of a build line. */
  function BuildTail(line: string): string
    requires IsBuildLine(line)
  {
    TrimSpace(line[IndexOf(line, BuildMarker) + |BuildMarker|..])
  }

  /** The tails of the run of build lines that starts `lines`. */
  function BuildRun(lines: seq<string>): seq<string>
  {
    if lines == [] || !IsBuildLine(lines[0]) then []
    else [BuildTail(lines[0])] + BuildRun(lines[1..])
  }

  /** The run ends at the first line that is not a build line. */
  lemma {:induction false} BuildRunEnd(lines: seq<string>)
    ensures |BuildRun(lines)| <= |lines|
    ensures |BuildRun(lines)| < |lines| ==> !IsBuildLine(lines[|BuildRun(lines)|])
  {
    if lines != [] && IsBuildLine(lines[0]) {
      BuildRunEnd(lines[1..]);
      var n := |BuildRun(lines[1..])|;
      if n + 1 < |lines| {
        assert lines[n + 1] == lines[1..][n];
      }
    }
  }

  /** Each element of the run is the tail of the build line at its index. */
  lemma {:induction false} BuildRunAt(lines: seq<string>, k: nat)
    requires k < |BuildRun(lines)|
    ensures k < |lines| && IsBuildLine(lines[k]) && BuildRun(lines)[k] == BuildTail(lines[k])
  {
    if k > 0 {
      BuildRunAt(lines[1..], k - 1);
    }
  }

  /** The tails of the first run of build lines. */
  function BuildLines(lines: seq<string>): seq<string>
  {
    if lines == [] then []
    else if !IsBuildLine(lines[0]) then BuildLines(lines[1..])
    else BuildRun(lines)
  }

  /** BuildLines is the run that starts at the first build line, and is
      empty when there is none. */
  lemma {:induction false} BuildLinesFirstRun(lines: seq<string>)
    ensures match FirstIndex(lines, IsBuildLine)
      case None => BuildLines(lines) == []
      case Some(s) => BuildLines(lines) == BuildRun(lines[s..])
  {
    if lines != [] && !IsBuildLine(lines[0]) {
      BuildLinesFirstRun(lines[1..]);
      match FirstIndex(lines[1..], IsBuildLine)
      case None =>
      case Some(s) =>
        assert lines[1..][s..] == lines[s + 1..];
    }
  }

  /** How the first build line and the run after it move one line on. */
  lemma BuildStep(lines: seq<string>, i: nat)
    requires i < |lines|
    ensures !IsBuildLine(lines[i]) ==>
      BuildRun(lines[i..]) == [] && BuildLines(lines[i..]) == BuildLines(lines[i + 1..])
    ensures IsBuildLine(lines[i]) ==>
      BuildLines(lines[i..]) == BuildRun(lines[i..])
      && BuildRun(lines[i..]) == [BuildTail(lines[i])] + BuildRun(lines[i + 1..])
  {
    var rest := lines[i..];
    assert rest[0] == lines[i] && rest[1..] == lines[i + 1..];
  }

  /** extractBuildTags: the tails of the first run of build lines, joined
      by single spaces. */
  method ExtractBuildTags(lines: seq<string>) returns (r: string)
    ensures r == Join(BuildLines(lines), " ")
  {
    var inbuild := false;
    var out: seq<string> := [];
    var i := 0;
    while i < |lines|
      invariant 0 <= i <= |lines|
      invariant inbuild ==> 0 < i
      invariant !inbuild ==> out == [] && BuildLines(lines) == BuildLines(lines[i..])
      invariant inbuild ==> BuildLines(lines) == out + BuildRun(lines[i..])
    {
      var p := IndexOf(lines[i], BuildMarker);
      BuildStep(lines, i);
      if p < 0 {
        if inbuild {
          assert BuildLines(lines) == out + [] == out;
          break;
        }
        i := i + 1;
        continue;
      }
      inbuild := true;
      out := out + [TrimSpace(lines[i][p + |BuildMarker|..])];
      i := i + 1;
    }
    if i == |lines| {
      assert lines[i..] == [];
      assert BuildLines(lines) == out + [] == out;
    }
    r := Join(out, " ");
  }

  // ---------------------------------------------------------------------
  // parseOr, parseAnd, parse1

  /** parse1: a negated tag for a token starting with `!`, else a tag; the
      empty token makes the source index out of range (a panic). */
  function Parse1(tok: string): Result<Tag>
  {
    if |tok| == 0 then Failure(EmptyTagToken)
    else if tok[0] == '!' then Success(NegTag(tok[1..]))
    else Success(ATag(tok))
  }

  function Parse1All(toks: seq<string>): (r: Result<seq<Tag>>)
    ensures r.Success? ==> |r.value| == |toks|
  {
    if toks == [] then Success([])
    else match Parse1(toks[0])
      case Failure(e) => Failure(e)
      case Success(t) =>
        match Parse1All(toks[1..])
        case Failure(e) => Failure(e)
        case Success(ts) => Success([t] + ts)
  }

  /** parseAnd: the comma-separated conjuncts; a conjunction only when
      there is more than one. */
  function ParseAnd(s: string): Result<Tag>
  {
    var ands := Split(s, ',');
    if |ands| == 1 then Parse1(ands[0])
    else match Parse1All(ands)
      case Failure(e) => Failure(e)
      case Success(ts) => Success(AndTag(ts))
  }

  function ParseAndAll(parts: seq<string>): (r: Result<seq<Tag>>)
    ensures r.Success? ==> |r.value| == |parts|
  {
    if parts == [] then Success([])
    else match ParseAnd(parts[0])
      case Failure(e) => Failure(e)
      case Success(t) =>
        match ParseAndAll(parts[1..])
        case Failure(e) => Failure(e)
        case Success(ts) => Success([t] + ts)
  }

  /** parseOr: no constraint (nil) for the empty string, else the
      space-separated alternatives; a disjunction only when there is more
      than one. */
  function ParseOr(s: string): Result<Option<Tag>>
  {
    if |s| == 0 then Success(None)
    else
      var ors := Split(s, ' ');
      if |ors| == 1 then
        match ParseAnd(ors[0])
        case Failure(e) => Failure(e)
        case Success(t) => Success(Some(t))
      else
        match ParseAndAll(ors)
        case Failure(e) => Failure(e)
        case Success(ts) => Success(Some(OrTag(ts)))
  }

  /** The inputs parseOr handles: every alternative and every conjunct in it
      is a non-empty token. */
  predicate TokensNonEmpty(s: string)
  {
    forall o | o in Split(s, ' ') :: forall a | a in Split(o, ',') :: |a| > 0
  }

  lemma {:induction false} Parse1AllFails(toks: seq<string>)
    ensures Parse1All(toks).Failure? <==> exists a | a in toks :: |a| == 0
    ensures Parse1All(toks).Failure? ==> Parse1All(toks).error == EmptyTagToken
  {
    if toks != [] {
      Parse1AllFails(toks[1..]);
      assert forall a | a in toks :: a == toks[0] || a in toks[1..];
    }
  }

  lemma ParseAndFails(s: string)
    ensures ParseAnd(s).Failure? <==> exists a | a in Split(s, ',') :: |a| == 0
    ensures ParseAnd(s).Failure? ==> ParseAnd(s).error == EmptyTagToken
  {
    Parse1AllFails(Split(s, ','));
  }

  lemma {:induction false} ParseAndAllFails(parts: seq<string>)
    ensures ParseAndAll(parts).Failure? <==> exists o | o in parts :: exists a | a in Split(o, ',') :: |a| == 0
    ensures ParseAndAll(parts).Failure? ==> ParseAndAll(parts).error == EmptyTagToken
  {
    if parts != [] {
      ParseAndFails(parts[0]);
      ParseAndAllFails(parts[1..]);
      assert forall o | o in parts :: o == parts[0] || o in parts[1..];
    }
  }

  /** parseOr gives up (the source panics) exactly on a non-empty input with
      an empty token: doubled or stray spaces or commas. */
  lemma ParseOrFails(s: string)
    ensures ParseOr(s).Failure? <==> |s| > 0 && !TokensNonEmpty(s)
    ensures ParseOr(s).Failure? ==> ParseOr(s).error == EmptyTagToken
    ensures |s| == 0 ==> ParseOr(s) == Success(None)
  {
    if |s| > 0 {
      var ors := Split(s, ' ');
      ParseAndAllFails(ors);
      if |ors| == 1 {
        ParseAndFails(ors[0]);
        assert forall o | o in ors :: o == ors[0];
      }
    }
  }

  // ---------------------------------------------------------------------
  // match

  /** atag.match: the tag is one of those set. */
  predicate HasTag(name: string, tags: seq<string>)
  {
    name in tags
  }

  /** (tag).match: whether the constraint holds when exactly `tags` are set. */
  function Match(t: Tag, tags: seq<string>): bool
    decreases t
  {
    match t
    case ATag(n) => HasTag(n, tags)
    case NegTag(n) => !HasTag(n, tags)
    case AndTag(ts) => MatchAll(ts, tags)
    case OrTag(ts) => MatchAny(ts, tags)
  }

  /** The loop of andtag.match: false at the first term that fails. */
  function MatchAll(ts: seq<Tag>, tags: seq<string>): bool
    decreases ts
  {
    if ts == [] then true
    else if !Match(ts[0], tags) then false
    else MatchAll(ts[1..], tags)
  }

  /** The loop of ortag.match: true at the first term that holds. */
  function MatchAny(ts: seq<Tag>, tags: seq<string>): bool
    decreases ts
  {
    if ts == [] then false
    else if Match(ts[0], tags) then true
    else MatchAny(ts[1..], tags)
  }

  /** A conjunction holds iff every term does (so the empty one holds); a
      disjunction holds iff some term does (so the empty one does not); a
      negated tag holds iff the tag does not. */
  lemma {:induction false} MatchMeaning(t: Tag, tags: seq<string>)
    ensures t.ATag? ==> (Match(t, tags) <==> t.name in tags)
    ensures t.NegTag? ==> (Match(t, tags) <==> t.name !in tags)
    ensures t.AndTag? ==> (Match(t, tags) <==> forall i | 0 <= i < |t.terms| :: Match(t.terms[i], tags))
    ensures t.OrTag? ==> (Match(t, tags) <==> exists i | 0 <= i < |t.terms| :: Match(t.terms[i], tags))
  {
    match t
    case ATag(_) =>
    case NegTag(_) =>
    case AndTag(ts) => MatchAllMeaning(ts, tags);
    case OrTag(ts) => MatchAnyMeaning(ts, tags);
  }

  lemma {:induction false} MatchAllMeaning(ts: seq<Tag>, tags: seq<string>)
    ensures MatchAll(ts, tags) <==> forall i | 0 <= i < |ts| :: Match(ts[i], tags)
  {
    if ts != [] {
      MatchAllMeaning(ts[1..], tags);
      assert forall i | 1 <= i < |ts| :: ts[i] == ts[1..][i - 1];
    }
  }

  lemma {:induction false} MatchAnyMeaning(ts: seq<Tag>, tags: seq<string>)
    ensures MatchAny(ts, tags) <==> exists i | 0 <= i < |ts| :: Match(ts[i], tags)
  {
    if ts != [] {
      MatchAnyMeaning(ts[1..], tags);
      if !Match(ts[0], tags) && exists i | 0 <= i < |ts| :: Match(ts[i], tags) {
        var i :| 0 <= i < |ts| && Match(ts[i], tags);
        assert ts[1..][i - 1] == ts[i];
      }
      if MatchAny(ts[1..], tags) {
        var i :| 0 <= i < |ts[1..]| && Match(ts[1..][i], tags);
        assert ts[i + 1] == ts[1..][i];
      }
    }
  }

  // ---------------------------------------------------------------------
  // parseTags

  /** What parseTags gives for a reader: parseOr of the joined build lines of
      the header, or the reader's error. */
  function TagsOfReader(r: Reader): Result<Option<Tag>>
  {
    match HeaderLines(r)
    case Failure(e) => Failure(e)
    case Success(lines) => ParseOr(Join(BuildLines(lines), " "))
  }

  method ParseTags(r: Reader) returns (res: Result<Option<Tag>>)
    ensures res == TagsOfReader(r)
  {
    var lines := ReadUntilPackage(r);
    if lines.Failure? {
      return Failure(lines.error);
    }
    var bt := ExtractBuildTags(lines.value);
    res := ParseOr(bt);
  }
}
