/** tagparse_test.go: the printer `tagfmt`, the structural comparison
    `tagcmp`, and the `te` and `ebt` tables, with the facts that tie the
    printer to the parser of tagparse.go. */
module TagFormat {
  import opened Wrappers
  import opened Strs
  import opened TagParse

  // ---------------------------------------------------------------------
  // tagfmt

  /** tagfmt: a tag as text; alternatives joined by spaces and conjuncts by
      commas. */
  function Format(t: Tag): string
    decreases t
  {
    match t
    case ATag(n) => n
    case NegTag(n) => "!" + n
    case OrTag(ts) => Join(FormatAll(ts), " ")
    case AndTag(ts) => Join(FormatAll(ts), ",")
  }

  /** The printed terms of a disjunction or conjunction, in order. */
  function FormatAll(ts: seq<Tag>): (r: seq<string>)
    decreases ts
    ensures |r| == |ts|
  {
    if ts == [] then [] else [Format(ts[0])] + FormatAll(ts[1..])
  }

  /** tagfmt of a possibly nil tag. */
  function FormatOpt(t: Option<Tag>): string
  {
    match t
    case None => ""
    case Some(t) => Format(t)
  }

  // ---------------------------------------------------------------------
  // The trees parseOr produces

  /** A token as parse1 reads it back: no separator inside, and a plain tag
      neither empty nor starting with `!`. */
  predicate LeafCanon(t: Tag)
  {
    match t
    case ATag(n) => |n| > 0 && n[0] != '!' && ' ' !in n && ',' !in n
    case NegTag(n) => ' ' !in n && ',' !in n
    case _ => false
  }

  /** What parseAnd produces: a token, or a conjunction of two or more. */
  predicate AndCanon(t: Tag)
  {
    LeafCanon(t) || (t.AndTag? && |t.terms| >= 2 && forall i | 0 <= i < |t.terms| :: LeafCanon(t.terms[i]))
  }

  /** What parseOr produces for a non-empty input: a parseAnd result, or a
      disjunction of two or more. */
  predicate Canonical(t: Tag)
  {
    AndCanon(t) || (t.OrTag? && |t.terms| >= 2 && forall i | 0 <= i < |t.terms| :: AndCanon(t.terms[i]))
  }

  // ---------------------------------------------------------------------
  // Parsing then printing gives back the input

  lemma Parse1Format(tok: string)
    requires ' ' !in tok && ',' !in tok
    ensures Parse1(tok).Success? ==> Format(Parse1(tok).value) == tok && LeafCanon(Parse1(tok).value)
  {
    if |tok| > 0 && tok[0] == '!' {
      assert tok == "!" + tok[1..];
    }
  }

  lemma {:induction false} Parse1AllFormat(toks: seq<string>)
    requires forall i | 0 <= i < |toks| :: ' ' !in toks[i] && ',' !in toks[i]
    ensures Parse1All(toks).Success? ==>
      FormatAll(Parse1All(toks).value) == toks
      && forall i | 0 <= i < |toks| :: LeafCanon(Parse1All(toks).value[i])
  {
    if toks != [] {
      Parse1Format(toks[0]);
      Parse1AllFormat(toks[1..]);
      if Parse1All(toks).Success? {
        var ts := Parse1All(toks).value;
        assert ts[1..] == Parse1All(toks[1..]).value;
        assert toks == [toks[0]] + toks[1..];
        forall i | 1 <= i < |toks|
          ensures LeafCanon(ts[i])
        {
          assert ts[i] == ts[1..][i - 1];
        }
      }
    }
  }

  lemma ParseAndFormat(s: string)
    requires ' ' !in s
    ensures ParseAnd(s).Success? ==> Format(ParseAnd(s).value) == s && AndCanon(ParseAnd(s).value)
  {
    var ands := Split(s, ',');
    SplitPiecesWithout(s, ',', ' ');
    JoinSplit(s, ',');
    if |ands| == 1 {
      Parse1Format(ands[0]);
    } else {
      Parse1AllFormat(ands);
    }
  }

  lemma {:induction false} ParseAndAllFormat(parts: seq<string>)
    requires forall i | 0 <= i < |parts| :: ' ' !in parts[i]
    ensures ParseAndAll(parts).Success? ==>
      FormatAll(ParseAndAll(parts).value) == parts
      && forall i | 0 <= i < |parts| :: AndCanon(ParseAndAll(parts).value[i])
  {
    if parts != [] {
      ParseAndFormat(parts[0]);
      ParseAndAllFormat(parts[1..]);
      if ParseAndAll(parts).Success? {
        var ts := ParseAndAll(parts).value;
        assert ts[1..] == ParseAndAll(parts[1..]).value;
        assert parts == [parts[0]] + parts[1..];
        forall i | 1 <= i < |parts|
          ensures AndCanon(ts[i])
        {
          assert ts[i] == ts[1..][i - 1];
        }
      }
    }
  }

  /** Round trip: printing what parseOr accepts gives back the input, and
      parseOr only ever builds canonical trees. */
  lemma ParseOrFormat(s: string)
    ensures ParseOr(s).Success? ==> FormatOpt(ParseOr(s).value) == s
    ensures ParseOr(s).Success? && ParseOr(s).value.Some? ==> Canonical(ParseOr(s).value.value)
  {
    if |s| > 0 {
      var ors := Split(s, ' ');
      JoinSplit(s, ' ');
      if |ors| == 1 {
        ParseAndFormat(ors[0]);
      } else {
        ParseAndAllFormat(ors);
      }
    }
  }

  // ---------------------------------------------------------------------
  // Printing then parsing gives back the tree

  lemma FormatLeafNonEmpty(t: Tag)
    requires AndCanon(t)
    ensures |Format(t)| > 0 && ' ' !in Format(t)
  {
    if t.AndTag? {
      var fs := FormatAll(t.terms);
      FormatAllLeaves(t.terms);
      JoinWithout(fs, ",", ' ');
      assert Format(t) == fs[0] + "," + Join(fs[1..], ",");
    } else if t.NegTag? {
      assert Format(t) == "!" + t.name;
    }
  }

  lemma {:induction false} FormatAllLeaves(ts: seq<Tag>)
    requires forall i | 0 <= i < |ts| :: LeafCanon(ts[i])
    ensures forall i | 0 <= i < |ts| :: ' ' !in FormatAll(ts)[i] && ',' !in FormatAll(ts)[i]
  {
    if ts != [] {
      FormatAllLeaves(ts[1..]);
      if ts[0].NegTag? {
        assert Format(ts[0]) == "!" + ts[0].name;
      }
      forall i | 1 <= i < |ts|
        ensures ' ' !in FormatAll(ts)[i] && ',' !in FormatAll(ts)[i]
      {
        assert FormatAll(ts)[i] == FormatAll(ts[1..])[i - 1];
      }
    }
  }

  lemma Format1Parse(t: Tag)
    requires LeafCanon(t)
    ensures Parse1(Format(t)) == Success(t)
  {
    if t.NegTag? {
      assert ("!" + t.name)[1..] == t.name;
    }
  }

  lemma {:induction false} FormatAll1Parse(ts: seq<Tag>)
    requires forall i | 0 <= i < |ts| :: LeafCanon(ts[i])
    ensures Parse1All(FormatAll(ts)) == Success(ts)
  {
    if ts != [] {
      Format1Parse(ts[0]);
      FormatAll1Parse(ts[1..]);
      assert FormatAll(ts)[1..] == FormatAll(ts[1..]);
      assert [ts[0]] + ts[1..] == ts;
    }
  }

  lemma FormatAndParse(t: Tag)
    requires AndCanon(t)
    ensures ParseAnd(Format(t)) == Success(t)
  {
    if LeafCanon(t) {
      FormatAllLeaves([t]);
      assert FormatAll([t]) == [Format(t)];
      SplitWithout(Format(t), ',');
      Format1Parse(t);
    } else {
      var fs := FormatAll(t.terms);
      FormatAllLeaves(t.terms);
      SplitJoin(fs, ',');
      FormatAll1Parse(t.terms);
    }
  }

  lemma {:induction false} FormatAllAndParse(ts: seq<Tag>)
    requires forall i | 0 <= i < |ts| :: AndCanon(ts[i])
    ensures ParseAndAll(FormatAll(ts)) == Success(ts)
    ensures forall i | 0 <= i < |ts| :: ' ' !in FormatAll(ts)[i] && |FormatAll(ts)[i]| > 0
  {
    if ts != [] {
      FormatAndParse(ts[0]);
      FormatLeafNonEmpty(ts[0]);
      FormatAllAndParse(ts[1..]);
      assert FormatAll(ts)[1..] == FormatAll(ts[1..]);
      assert [ts[0]] + ts[1..] == ts;
      forall i | 1 <= i < |ts|
        ensures ' ' !in FormatAll(ts)[i] && |FormatAll(ts)[i]| > 0
      {
        assert FormatAll(ts)[i] == FormatAll(ts[1..])[i - 1];
      }
    }
  }

  /** The reverse round trip: every canonical tree is what parseOr reads
      from its printed form.  With ParseOrFormat, tagfmt is a bijection
      between the inputs parseOr accepts and the canonical trees. */
  lemma FormatParse(t: Tag)
    requires Canonical(t)
    ensures ParseOr(Format(t)) == Success(Some(t))
  {
    if AndCanon(t) {
      FormatLeafNonEmpty(t);
      SplitWithout(Format(t), ' ');
      FormatAndParse(t);
    } else {
      var gs := FormatAll(t.terms);
      FormatAllAndParse(t.terms);
      SplitJoin(gs, ' ');
      assert Format(t) == gs[0] + " " + Join(gs[1..], " ");
    }
  }

  // ---------------------------------------------------------------------
  // tagcmp

  /** tagcmp on non-nil tags: same constructor, same name or pairwise
      equal terms in the same order. */
  function Cmp(a: Tag, b: Tag): bool
    decreases a
  {
    match a
    case ATag(n) => b.ATag? && n == b.name
    case NegTag(n) => b.NegTag? && n == b.name
    case AndTag(xs) => b.AndTag? && CmpAll(xs, b.terms)
    case OrTag(xs) => b.OrTag? && CmpAll(xs, b.terms)
  }

  /** The length check and loop shared by the andtag and ortag cases. */
  function CmpAll(xs: seq<Tag>, ys: seq<Tag>): bool
    decreases xs
  {
    if |xs| != |ys| then false
    else if xs == [] then true
    else if !Cmp(xs[0], ys[0]) then false
    else CmpAll(xs[1..], ys[1..])
  }

  /** tagcmp: nil equals only nil. */
  function TagCmp(a: Option<Tag>, b: Option<Tag>): bool
  {
    if a.None? then b.None? else b.Some? && Cmp(a.value, b.value)
  }

  /** tagcmp is exactly equality of trees. */
  lemma {:induction false} CmpIsEquality(a: Tag, b: Tag)
    ensures Cmp(a, b) <==> a == b
    decreases a
  {
    match a
    case ATag(_) =>
    case NegTag(_) =>
    case AndTag(xs) =>
      if b.AndTag? { CmpAllIsEquality(xs, b.terms); }
    case OrTag(xs) =>
      if b.OrTag? { CmpAllIsEquality(xs, b.terms); }
  }

  lemma {:induction false} CmpAllIsEquality(xs: seq<Tag>, ys: seq<Tag>)
    ensures CmpAll(xs, ys) <==> xs == ys
    decreases xs
  {
    if |xs| == |ys| && xs != [] {
      CmpIsEquality(xs[0], ys[0]);
      CmpAllIsEquality(xs[1..], ys[1..]);
      if xs[0] == ys[0] && xs[1..] == ys[1..] {
        assert xs == [xs[0]] + xs[1..] && ys == [ys[0]] + ys[1..];
      }
    }
  }

  lemma TagCmpIsEquality(a: Option<Tag>, b: Option<Tag>)
    ensures TagCmp(a, b) <==> a == b
  {
    if a.Some? && b.Some? {
      CmpIsEquality(a.value, b.value);
    }
  }

  // ---------------------------------------------------------------------
  // The te table

  // The rows of the te table: parseOr of each input is tagcmp-equal to
  // the expected tree (tagcmp being equality), and tagfmt of the tree is
  // the input.  The first row, "" and nil, is part of ParseOrFails.

  lemma TeTag()
    ensures ParseOr("tag") == Success(Some(ATag("tag")))
  {
    TeRow(ATag("tag"), "tag");
  }

  lemma TeNegTag()
    ensures ParseOr("!tag") == Success(Some(NegTag("tag")))
  {
    TeRow(NegTag("tag"), "!tag");
  }

  lemma TeOr()
    ensures ParseOr("a b") == Success(Some(OrTag([ATag("a"), ATag("b")])))
  {
    TeRow(OrTag([ATag("a"), ATag("b")]), "a b");
  }

  lemma TeOr3()
    ensures ParseOr("a b c") == Success(Some(OrTag([ATag("a"), ATag("b"), ATag("c")])))
  {
    TeRow(OrTag([ATag("a"), ATag("b"), ATag("c")]), "a b c");
  }

  lemma TeAnd()
    ensures ParseOr("a,b") == Success(Some(AndTag([ATag("a"), ATag("b")])))
  {
    TeRow(AndTag([ATag("a"), ATag("b")]), "a,b");
  }

  lemma TeAnd3()
    ensures ParseOr("a,b,c") == Success(Some(AndTag([ATag("a"), ATag("b"), ATag("c")])))
  {
    TeRow(AndTag([ATag("a"), ATag("b"), ATag("c")]), "a,b,c");
  }

  lemma TeOrOfAnd()
    ensures ParseOr("a b,c") == Success(Some(OrTag([ATag("a"), AndTag([ATag("b"), ATag("c")])])))
  {
    TeRow(OrTag([ATag("a"), AndTag([ATag("b"), ATag("c")])]), "a b,c");
  }

  lemma TeAndInOr()
    ensures ParseOr("a,b c") == Success(Some(OrTag([AndTag([ATag("a"), ATag("b")]), ATag("c")])))
  {
    TeRow(OrTag([AndTag([ATag("a"), ATag("b")]), ATag("c")]), "a,b c");
  }

  lemma TeNegated()
    ensures ParseOr("a,!b !c,d") == Success(Some(OrTag([AndTag([ATag("a"), NegTag("b")]), AndTag([NegTag("c"), ATag("d")])])))
  {
    TeRow(OrTag([AndTag([ATag("a"), NegTag("b")]), AndTag([NegTag("c"), ATag("d")])]), "a,!b !c,d");
  }

  /** One non-empty row: a canonical tree printed as `s` is what parseOr
      reads from `s`. */
  lemma TeRow(t: Tag, s: string)
    requires Canonical(t) && Format(t) == s
    ensures ParseOr(s) == Success(Some(t))
  {
    FormatParse(t);
  }

  // ---------------------------------------------------------------------
  // The ebt table

  /** A line without `+` is not a build line. */
  lemma NotBuildLine(line: string)
    requires '+' !in line
    ensures !IsBuildLine(line)
  {
    forall j
      ensures !OccursAt(line, BuildMarker, j)
    {
      if 0 <= j && j + |BuildMarker| <= |line| {
        assert line[j..j + |BuildMarker|][0] == line[j];
      }
    }
    IndexOfFirst(line, BuildMarker);
  }

  /** A word: no `+`, and no white space at either end. */
  predicate Word(w: string)
  {
    '+' !in w && w != [] && !IsSpace(w[0]) && !IsSpace(w[|w| - 1])
  }

  /** `// +build ` followed by a word: a build line whose tail is the word. */
  lemma BuildComment(w: string)
    requires Word(w)
    ensures IsBuildLine("// +build " + w) && BuildTail("// +build " + w) == w
  {
    var line := "// +build " + w;
    assert OccursAt(line, BuildMarker, 3) by {
      assert line[3..10] == BuildMarker;
    }
    forall j | 0 <= j < 3
      ensures !OccursAt(line, BuildMarker, j)
    {
      assert line[j..j + |BuildMarker|][0] == line[j];
    }
    IndexOfFirst(line, BuildMarker);
    assert line[10..] == w;
    assert LeadingSpace(w) == 0;
    assert TrailingStart(w) == |w|;
  }

  // The rows of the ebt table, for any word in place of `test`, `a` and `b`
  // and any line without `+` in place of the ones that are not comments:
  // the extracted constraint, with a blank line or a text line ending a
  // block and two `+build` lines joined by a space.

  lemma EbtOnly(w: string)
    requires Word(w)
    ensures Join(BuildLines(["// +build " + w]), " ") == w
  {
    var t := "// +build " + w;
    BuildComment(w);
    assert [t][1..] == [];
    assert BuildRun([t]) == [w] + BuildRun([]);
    assert BuildLines([t]) == [w];
  }

  lemma EbtBlankAfter(x: string, w: string)
    requires '+' !in x && Word(w)
    ensures Join(BuildLines([x, "// +build " + w, "", ""]), " ") == w
  {
    var t := "// +build " + w;
    BuildComment(w);
    NotBuildLine(x);
    NotBuildLine("");
    assert [x, t, "", ""][1..] == [t, "", ""];
    assert [t, "", ""][1..] == ["", ""];
    assert BuildRun(["", ""]) == [];
    assert BuildLines([x, t, "", ""]) == [w];
  }

  lemma EbtTextAfter(x: string, w: string)
    requires '+' !in x && Word(w)
    ensures Join(BuildLines(["// +build " + w, x]), " ") == w
  {
    var t := "// +build " + w;
    BuildComment(w);
    NotBuildLine(x);
    assert [t, x][1..] == [x];
    assert BuildRun([x]) == [];
    assert BuildRun([t, x]) == [w] + BuildRun([x]);
    assert BuildLines([t, x]) == [w];
  }

  lemma EbtTextAround(x: string, w: string, y: string)
    requires '+' !in x && '+' !in y && Word(w)
    ensures Join(BuildLines([x, "// +build " + w, y]), " ") == w
  {
    var t := "// +build " + w;
    BuildComment(w);
    NotBuildLine(x);
    NotBuildLine(y);
    assert [x, t, y][1..] == [t, y];
    assert [t, y][1..] == [y];
    assert BuildRun([y]) == [];
    assert BuildRun([t, y]) == [w] + BuildRun([y]);
    assert BuildLines([x, t, y]) == BuildLines([t, y]) == BuildRun([t, y]);
  }

  lemma EbtTwoLines(a: string, b: string)
    requires Word(a) && Word(b)
    ensures Join(BuildLines(["// +build " + a, "// +build " + b]), " ") == a + " " + b
  {
    var ta, tb := "// +build " + a, "// +build " + b;
    BuildComment(a);
    BuildComment(b);
    assert [ta, tb][1..] == [tb] && [tb][1..] == [];
    assert BuildRun([tb]) == [b] + BuildRun([]);
    assert BuildRun([ta, tb]) == [a] + BuildRun([tb]);
    assert BuildLines([ta, tb]) == [a, b];
  }
}
