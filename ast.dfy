/** ast.go: declaration lists of a parsed package, their filters, the
    splitting of grouped declarations and the search by name.  The go/ast
    syntax tree is reduced to what these functions look at: the kind of each
    declaration, the token of a general declaration, its positions and its
    specs, and the names (and, for value specs, the values) of each spec. */
module Ast {
  import opened Seqs
  import opened Strs

  /** The tokens a general declaration can carry. */
  datatype Token = IMPORT | CONST | TYPE | VAR

  datatype Spec =
    | ImportSpec(path: string)
    | TypeSpec(name: string)
    | ValueSpec(doc: string, names: seq<string>, typ: string, values: seq<string>, comment: string)

  datatype Decl =
    | BadDecl
    | FuncDecl(name: string)
    | GenDecl(doc: string, tokPos: int, tok: Token, lparen: int, specs: seq<Spec>, rparen: int)

  datatype AstFile = AstFile(decls: seq<Decl>)

  /** An ast.Package: its name and its files by file name. */
  datatype AstPackage = AstPackage(name: string, files: map<string, AstFile>)

  /** The declarations `Decls` keeps: functions, and general declarations
      other than imports. */
  predicate IsTopDecl(d: Decl)
  {
    d.FuncDecl? || (d.GenDecl? && d.tok != IMPORT)
  }

  /** (*Package).Decls over the package's files, visited in `order`, the
      order in which the range over the files map happens to run. */
  function Decls(files: map<string, AstFile>, order: seq<string>): (ds: seq<Decl>)
    requires Enumerates(order, files.Keys)
    ensures forall d | d in ds :: IsTopDecl(d) && exists f | f in files :: d in files[f].decls
    ensures forall f, d | f in files && d in files[f].decls && IsTopDecl(d) :: d in ds
    ensures ds == Concat(seq(|order|, k requires 0 <= k < |order| => Filter(files[order[k]].decls, IsTopDecl)))
  {
    DeclsOfSound(files, order);
    DeclsOfComplete(files, order);
    DeclsOfConcat(files, order);
    DeclsOf(files, order)
  }

  /** The kept declarations of the files named in `order`, file after file,
      each file's in its own order. */
  function DeclsOf(files: map<string, AstFile>, order: seq<string>): (ds: seq<Decl>)
    requires forall f | f in order :: f in files
  {
    if order == [] then []
    else DeclsOf(files, order[..|order| - 1]) + Filter(files[order[|order| - 1]].decls, IsTopDecl)
  }

  /** Everything DeclsOf keeps is a top-level declaration of one of the
      files. */
  lemma {:induction false} DeclsOfSound(files: map<string, AstFile>, order: seq<string>)
    requires forall f | f in order :: f in files
    ensures forall d | d in DeclsOf(files, order) :: IsTopDecl(d) && exists f | f in order :: d in files[f].decls
  {
    if order != [] {
      var init := order[..|order| - 1];
      var last := order[|order| - 1];
      DeclsOfSound(files, init);
      forall d | d in DeclsOf(files, order)
        ensures IsTopDecl(d) && exists f | f in order :: d in files[f].decls
      {
        if d in DeclsOf(files, init) {
          var f :| f in init && d in files[f].decls;
          assert f in order;
        } else {
          assert last in order && d in files[last].decls;
        }
      }
    }
  }

  /** DeclsOf keeps every top-level declaration of the files. */
  lemma {:induction false} DeclsOfComplete(files: map<string, AstFile>, order: seq<string>)
    requires forall f | f in order :: f in files
    ensures forall f, d | f in order && d in files[f].decls && IsTopDecl(d) :: d in DeclsOf(files, order)
  {
    if order != [] {
      var init := order[..|order| - 1];
      var last := order[|order| - 1];
      DeclsOfComplete(files, init);
      forall f, d | f in order && d in files[f].decls && IsTopDecl(d)
        ensures d in DeclsOf(files, order)
      {
        if f in init {
          assert d in DeclsOf(files, init);
        } else {
          assert order == init + [last];
          assert f == last;
          FilterKeeps(files[last].decls, IsTopDecl, d);
        }
      }
    }
  }

  /** DeclsOf is the kept declarations of each file in turn, the files in
      `order`. */
  lemma {:induction false} DeclsOfConcat(files: map<string, AstFile>, order: seq<string>)
    requires forall f | f in order :: f in files
    ensures DeclsOf(files, order) == Concat(seq(|order|, k requires 0 <= k < |order| => Filter(files[order[k]].decls, IsTopDecl)))
  {
    var parts := seq(|order|, k requires 0 <= k < |order| => Filter(files[order[k]].decls, IsTopDecl));
    if order != [] {
      var init := order[..|order| - 1];
      var front := seq(|init|, k requires 0 <= k < |init| => Filter(files[init[k]].decls, IsTopDecl));
      DeclsOfConcat(files, init);
      assert parts[..|parts| - 1] == front by {
        forall k | 0 <= k < |front| ensures parts[..|parts| - 1][k] == front[k]
        {
          assert init[k] == order[k];
        }
      }
      assert Concat(parts) == Concat(front) + parts[|parts| - 1];
    }
  }

  /** Funcs: the function declarations, in order. */
  function Funcs(ds: seq<Decl>): (r: seq<Decl>)
    ensures IsSubseq(r, ds)
    ensures forall d | d in r :: d.FuncDecl?
    ensures forall d | d in ds && d.FuncDecl? :: d in r
  {
    Filter(ds, (d: Decl) => d.FuncDecl?)
  }

  /** gendecl: the general declarations with token `t`, in order.
      Types, Consts and Vars are this filter for TYPE, CONST and VAR; as
      every result carries its token, the three results share no element. */
  function GenDecls(ds: seq<Decl>, t: Token): (r: seq<Decl>)
    ensures IsSubseq(r, ds)
    ensures forall d | d in r :: d.GenDecl? && d.tok == t
    ensures forall d | d in ds && d.GenDecl? && d.tok == t :: d in r
  {
    Filter(ds, (d: Decl) => d.GenDecl? && d.tok == t)
  }

  function Types(ds: seq<Decl>): seq<Decl> { GenDecls(ds, TYPE) }
  function Consts(ds: seq<Decl>): seq<Decl> { GenDecls(ds, CONST) }
  function Vars(ds: seq<Decl>): seq<Decl> { GenDecls(ds, VAR) }

  /** A declaration that is a type, a constant and a variable declaration
      list at once does not exist. */
  lemma TokenFiltersDisjoint(ds: seq<Decl>, d: Decl)
    ensures !(d in Types(ds) && d in Consts(ds))
    ensures !(d in Types(ds) && d in Vars(ds))
    ensures !(d in Consts(ds) && d in Vars(ds))
  {
  }

  /** dupdecl: a copy of the general declaration `g` holding the single spec `s`. */
  function DupDecl(g: Decl, s: Spec): (r: Decl)
    requires g.GenDecl?
    ensures r.GenDecl? && r.specs == [s]
    ensures SameHeader(g, r)
  {
    GenDecl(g.doc, g.tokPos, g.tok, g.lparen, [s], g.rparen)
  }

  /** Two general declarations with the same doc, token and positions. */
  predicate SameHeader(g: Decl, r: Decl)
    requires g.GenDecl? && r.GenDecl?
  {
    r.doc == g.doc && r.tokPos == g.tokPos && r.tok == g.tok && r.lparen == g.lparen && r.rparen == g.rparen
  }

  /** The one-spec declarations SplitSpecs makes of the spec `s` of `g`. */
  function SplitSpec(g: Decl, s: Spec): (r: seq<Decl>)
    requires g.GenDecl?
    ensures forall d | d in r :: d.GenDecl? && |d.specs| == 1 && SameHeader(g, d)
  {
    match s
    case ValueSpec(doc, names, typ, values, comment) =>
      if |names| > 1 && |names| == |values| then
        seq(|names|, i requires 0 <= i < |names| => DupDecl(g, ValueSpec(doc, [names[i]], typ, [values[i]], comment)))
      else [DupDecl(g, s)]
    case TypeSpec(_) => [DupDecl(g, s)]
    case ImportSpec(_) => []
  }

  /** The one-spec declarations SplitSpecs makes of the specs of `g`. */
  function SplitGen(g: Decl, specs: seq<Spec>): (r: seq<Decl>)
    requires g.GenDecl?
    ensures forall d | d in r :: d.GenDecl? && |d.specs| == 1 && SameHeader(g, d)
  {
    if specs == [] then [] else SplitSpec(g, specs[0]) + SplitGen(g, specs[1..])
  }

  /** SplitSpecs: every general declaration is replaced by one declaration
      per spec (per name, for value specs that pair each name with a value);
      every other declaration is passed through. */
  function SplitSpecs(ds: seq<Decl>): (out: seq<Decl>)
    ensures forall d | d in out && d.GenDecl? :: |d.specs| == 1
    ensures forall d | d in out && d.GenDecl? :: exists g | g in ds && g.GenDecl? :: SameHeader(g, d)
    ensures forall d | d in out && !d.GenDecl? :: d in ds
    ensures forall d | d in ds && !d.GenDecl? :: d in out
  {
    if ds == [] then []
    else
      var d := ds[0];
      var rest := SplitSpecs(ds[1..]);
      assert forall x | x in ds[1..] :: x in ds;
      if d.GenDecl? then SplitGen(d, d.specs) + rest else [d] + rest
  }

  /** What SplitSpec makes of each kind of spec: a value spec pairing
      several names with as many values becomes one declaration per name,
      the i-th holding the i-th name and the i-th value with the spec's doc,
      type and comment; any other value spec, and a type spec, is kept whole
      under the header of `g`; an import spec yields nothing. */
  lemma SplitSpecPieces(g: Decl, s: Spec)
    requires g.GenDecl?
    ensures s.ValueSpec? && |s.names| > 1 && |s.names| == |s.values| ==>
      |SplitSpec(g, s)| == |s.names| &&
      forall i | 0 <= i < |s.names| ::
        SplitSpec(g, s)[i].specs == [ValueSpec(s.doc, [s.names[i]], s.typ, [s.values[i]], s.comment)]
    ensures s.ValueSpec? && !(|s.names| > 1 && |s.names| == |s.values|) ==>
      SplitSpec(g, s) == [GenDecl(g.doc, g.tokPos, g.tok, g.lparen, [s], g.rparen)]
    ensures s.TypeSpec? ==> SplitSpec(g, s) == [GenDecl(g.doc, g.tokPos, g.tok, g.lparen, [s], g.rparen)]
    ensures s.ImportSpec? ==> SplitSpec(g, s) == []
  {
  }

  /** SplitGen is the split of each spec in turn, in the order of the specs. */
  lemma {:induction false} SplitGenPieces(g: Decl, specs: seq<Spec>)
    requires g.GenDecl?
    ensures SplitGen(g, specs) == Concat(seq(|specs|, j requires 0 <= j < |specs| => SplitSpec(g, specs[j])))
  {
    if specs != [] {
      var parts := seq(|specs|, j requires 0 <= j < |specs| => SplitSpec(g, specs[j]));
      var tail := specs[1..];
      var rest := seq(|tail|, j requires 0 <= j < |tail| => SplitSpec(g, tail[j]));
      SplitGenPieces(g, tail);
      assert parts == [parts[0]] + rest by {
        forall j | 0 <= j < |parts| ensures parts[j] == ([parts[0]] + rest)[j]
        {
          if j > 0 { assert tail[j - 1] == specs[j]; }
        }
      }
      ConcatCons(parts[0], rest);
    }
  }

  /** The pieces SplitSpecs makes of one declaration: the split of its
      specs for a general declaration, the declaration itself otherwise. */
  function Pieces(d: Decl): seq<Decl>
  {
    if d.GenDecl? then SplitGen(d, d.specs) else [d]
  }

  /** SplitSpecs is the pieces of each declaration in turn, in the order of
      the declarations; with SplitGenPieces and SplitSpecPieces this fixes
      every spec of the output, values, type, doc and comment included. */
  lemma {:induction false} SplitSpecsPieces(ds: seq<Decl>)
    ensures SplitSpecs(ds) == Concat(seq(|ds|, i requires 0 <= i < |ds| => Pieces(ds[i])))
  {
    if ds != [] {
      var parts := seq(|ds|, i requires 0 <= i < |ds| => Pieces(ds[i]));
      var tail := ds[1..];
      var rest := seq(|tail|, i requires 0 <= i < |tail| => Pieces(tail[i]));
      SplitSpecsPieces(tail);
      assert parts == [parts[0]] + rest by {
        forall i | 0 <= i < |parts| ensures parts[i] == ([parts[0]] + rest)[i]
        {
          if i > 0 { assert tail[i - 1] == ds[i]; }
        }
      }
      ConcatCons(parts[0], rest);
      assert SplitSpecs(ds) == parts[0] + SplitSpecs(tail);
    }
  }

  /** The names a spec declares. */
  function SpecNames(s: Spec): seq<string>
  {
    match s
    case ImportSpec(_) => []
    case TypeSpec(n) => [n]
    case ValueSpec(_, names, _, _, _) => names
  }

  function SpecsNames(specs: seq<Spec>): seq<string>
  {
    if specs == [] then [] else SpecNames(specs[0]) + SpecsNames(specs[1..])
  }

  /** The names a declaration declares, in order. */
  function NamesOf(d: Decl): seq<string>
  {
    match d
    case BadDecl => []
    case FuncDecl(n) => [n]
    case GenDecl(_, _, _, _, specs, _) => SpecsNames(specs)
  }

  /** The names a list of declarations declares, in order. */
  function DeclaredNames(ds: seq<Decl>): seq<string>
  {
    if ds == [] then [] else NamesOf(ds[0]) + DeclaredNames(ds[1..])
  }

  lemma {:induction false} DeclaredNamesAppend(a: seq<Decl>, b: seq<Decl>)
    ensures DeclaredNames(a + b) == DeclaredNames(a) + DeclaredNames(b)
  {
    if a == [] {
      assert a + b == b;
    } else {
      var ab := a + b;
      assert ab[0] == a[0] && ab[1..] == a[1..] + b;
      DeclaredNamesAppend(a[1..], b);
      calc {
        DeclaredNames(ab);
        NamesOf(a[0]) + DeclaredNames(a[1..] + b);
        NamesOf(a[0]) + (DeclaredNames(a[1..]) + DeclaredNames(b));
        (NamesOf(a[0]) + DeclaredNames(a[1..])) + DeclaredNames(b);
      }
    }
  }

  lemma {:induction false} SplitSpecNames(g: Decl, s: Spec)
    requires g.GenDecl?
    ensures DeclaredNames(SplitSpec(g, s)) == SpecNames(s)
  {
    match s
    case ValueSpec(doc, names, typ, values, comment) =>
      if |names| > 1 && |names| == |values| {
        var r := SplitSpec(g, s);
        SplitValueNames(g, doc, names, typ, values, comment, |names|);
        assert r == seq(|names|, i requires 0 <= i < |names| => DupDecl(g, ValueSpec(doc, [names[i]], typ, [values[i]], comment)));
        assert names[..|names|] == names;
      } else {
        assert SplitSpec(g, s) == [DupDecl(g, s)];
        assert DeclaredNames([DupDecl(g, s)]) == NamesOf(DupDecl(g, s)) + DeclaredNames([]);
        assert SpecsNames([s]) == SpecNames(s) + SpecsNames([]);
      }
    case TypeSpec(_) =>
      assert DeclaredNames([DupDecl(g, s)]) == NamesOf(DupDecl(g, s)) + DeclaredNames([]);
      assert SpecsNames([s]) == SpecNames(s) + SpecsNames([]);
    case ImportSpec(_) =>
  }

  lemma {:induction false} SplitValueNames(g: Decl, doc: string, names: seq<string>, typ: string, values: seq<string>, comment: string, k: nat)
    requires g.GenDecl? && k <= |names| == |values|
    ensures DeclaredNames(seq(k, i requires 0 <= i < k => DupDecl(g, ValueSpec(doc, [names[i]], typ, [values[i]], comment)))) == names[..k]
  {
    var r := seq(k, i requires 0 <= i < k => DupDecl(g, ValueSpec(doc, [names[i]], typ, [values[i]], comment)));
    if k > 0 {
      SplitValueNames(g, doc, names, typ, values, comment, k - 1);
      var r' := seq(k - 1, i requires 0 <= i < k - 1 => DupDecl(g, ValueSpec(doc, [names[i]], typ, [values[i]], comment)));
      assert r == r' + [r[k - 1]];
      DeclaredNamesAppend(r', [r[k - 1]]);
      assert DeclaredNames([r[k - 1]]) == NamesOf(r[k - 1]) + DeclaredNames([]);
      assert SpecsNames([ValueSpec(doc, [names[k - 1]], typ, [values[k - 1]], comment)]) == [names[k - 1]] + SpecsNames([]);
      assert names[..k] == names[..k - 1] + [names[k - 1]];
    }
  }

  lemma {:induction false} SplitGenNames(g: Decl, specs: seq<Spec>)
    requires g.GenDecl?
    ensures DeclaredNames(SplitGen(g, specs)) == SpecsNames(specs)
  {
    if specs != [] {
      SplitGenNames(g, specs[1..]);
      SplitSpecNames(g, specs[0]);
      DeclaredNamesAppend(SplitSpec(g, specs[0]), SplitGen(g, specs[1..]));
    }
  }

  /** Splitting loses no declared name and reorders none: the names
      declared by the split list are those of the original, in order. */
  lemma {:induction false} SplitSpecsKeepsNames(ds: seq<Decl>)
    ensures DeclaredNames(SplitSpecs(ds)) == DeclaredNames(ds)
  {
    if ds != [] {
      SplitSpecsKeepsNames(ds[1..]);
      var d := ds[0];
      if d.GenDecl? {
        SplitGenNames(d, d.specs);
        DeclaredNamesAppend(SplitGen(d, d.specs), SplitSpecs(ds[1..]));
      } else {
        DeclaredNamesAppend([d], SplitSpecs(ds[1..]));
        assert DeclaredNames([d]) == NamesOf(d) + DeclaredNames([]);
      }
    }
  }

  /** PrefixMatcher(prefix).MatchString(s) */
  function PrefixMatch(prefix: string, s: string): (r: bool)
    ensures r <==> |prefix| <= |s| && forall i | 0 <= i < |prefix| :: s[i] == prefix[i]
  {
    HasPrefix(s, prefix)
  }

  /** A declaration Named keeps: a function whose name matches, or a
      general declaration with a type or value spec whose name matches. */
  predicate NameMatches(d: Decl, m: string -> bool)
  {
    exists n | n in NamesOf(d) :: m(n)
  }

  /** Named: the declarations one of whose names matches `m`, in order. */
  function Named(ds: seq<Decl>, m: string -> bool): (r: seq<Decl>)
    ensures IsSubseq(r, ds)
    ensures forall d | d in r :: NameMatches(d, m)
    ensures forall d | d in ds && NameMatches(d, m) :: d in r
  {
    Filter(ds, (d: Decl) => NameMatches(d, m))
  }

  /** A function declaration is named iff its name matches; a bad
      declaration or an import list never is. */
  lemma NamedCases(d: Decl, m: string -> bool)
    ensures d.FuncDecl? ==> (NameMatches(d, m) <==> m(d.name))
    ensures d.BadDecl? ==> !NameMatches(d, m)
    ensures d.GenDecl? && (forall s | s in d.specs :: s.ImportSpec?) ==> !NameMatches(d, m)
  {
    if d.GenDecl? && (forall s | s in d.specs :: s.ImportSpec?) {
      ImportSpecsNameless(d.specs);
    }
  }

  lemma {:induction false} ImportSpecsNameless(specs: seq<Spec>)
    requires forall s | s in specs :: s.ImportSpec?
    ensures SpecsNames(specs) == []
  {
    if specs != [] {
      ImportSpecsNameless(specs[1..]);
    }
  }
}
