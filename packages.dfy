/** packages.go: operations over a list of packages.  The generic
    order-preserving Filter is Seqs.Filter. */
module PackageList {
  import opened Wrappers
  import opened Seqs
  import opened GoBuild
  import opened Oracles
  import opened TagParse
  import opened Pkg

  /** NoStdlib: the packages not from GOROOT, in order. */
  function NoStdlib(ps: seq<Package>): (r: seq<Package>)
    ensures IsSubseq(r, ps)
    ensures forall p | p in ps :: p in r <==> !p.build.goroot
    ensures forall p | p in ps :: multiset(r)[p] == if p.build.goroot then 0 else multiset(ps)[p]
  {
    Filter(ps, (p: Package) => !p.build.goroot)
  }

  /** HasFilesMatching: the packages with at least one file whose
      constraint holds under `want`, in order. */
  function HasFilesMatching(ps: seq<Package>, want: seq<string>): (r: seq<Package>)
    reads set p | p in ps
    ensures IsSubseq(r, ps)
    ensures forall p | p in ps :: p in r <==> p.HasMatchingFile(want)
    ensures forall p | p in ps :: multiset(r)[p] == if p.HasMatchingFile(want) then multiset(ps)[p] else 0
  {
    var matching := set p | p in ps && p.HasMatchingFile(want);
    Filter(ps, (p: Package) => p in matching)
  }

  /** Parse: each package in turn, stopping at the first error.  Packages
      before the failing one end up parsed, the failing one and those
      after it are left as they were; with no error every package is
      parsed.  A package listed twice is parsed once. */
  method Parse(host: Host, ps: seq<Package>, parseComments: bool) returns (err: Option<Error>)
    modifies set p | p in ps
    ensures err.None? ==> forall p | p in ps :: p.ast.Some?
    ensures err.Some? ==> exists k | 0 <= k < |ps| ::
      (forall j | 0 <= j < k :: ps[j].ast.Some?)
      && old(ps[k].ast).None? && ParseAst(host, ps[k].build, parseComments) == Failure(err.value)
      && (forall p | p in ps && p !in ps[..k] :: p.ast == old(p.ast))
    ensures forall p | p in ps :: old(p.ast).Some? ==> p.ast == old(p.ast)
    ensures forall p | p in ps :: old(p.ast).None? && p.ast.Some? ==>
      ParseAst(host, p.build, parseComments).Success? && p.ast == Some(ParseAst(host, p.build, parseComments).value)
    ensures forall p | p in ps :: p.doc == old(p.doc) && p.tags == old(p.tags)
  {
    for i := 0 to |ps|
      invariant forall j | 0 <= j < i :: ps[j].ast.Some?
      invariant forall p | p in ps && p !in ps[..i] :: p.ast == old(p.ast)
      invariant forall p | p in ps :: old(p.ast).Some? ==> p.ast == old(p.ast)
      invariant forall p | p in ps :: old(p.ast).None? && p.ast.Some? ==>
        ParseAst(host, p.build, parseComments).Success? && p.ast == Some(ParseAst(host, p.build, parseComments).value)
      invariant forall p | p in ps :: p.doc == old(p.doc) && p.tags == old(p.tags)
    {
      assert forall p | p in ps[..i + 1] :: p in ps[..i] || p == ps[i];
      err := ps[i].Parse(host, parseComments);
      if err.Some? {
        assert (forall j | 0 <= j < i :: ps[j].ast.Some?)
          && old(ps[i].ast).None? && ParseAst(host, ps[i].build, parseComments) == Failure(err.value)
          && (forall p | p in ps && p !in ps[..i] :: p.ast == old(p.ast));
        return;
      }
    }
    err := None;
  }

  /** ParseDocs: as Parse, for the documentation. */
  method ParseDocs(host: Host, ps: seq<Package>, mode: int) returns (err: Option<Error>)
    modifies set p | p in ps
    ensures err.None? ==> forall p | p in ps :: p.doc.Some?
    ensures err.Some? ==> exists k | 0 <= k < |ps| ::
      (forall j | 0 <= j < k :: ps[j].doc.Some?)
      && old(ps[k].doc).None? && ParseAst(host, ps[k].build, true) == Failure(err.value)
      && (forall p | p in ps && p !in ps[..k] :: p.doc == old(p.doc))
    ensures forall p | p in ps :: old(p.doc).Some? ==> p.doc == old(p.doc)
    ensures forall p | p in ps :: old(p.doc).None? && p.doc.Some? ==>
      ParseAst(host, p.build, true).Success?
      && p.doc == Some(host.docNew(ParseAst(host, p.build, true).value, p.build.importPath, mode))
    ensures forall p | p in ps :: p.ast == old(p.ast) && p.tags == old(p.tags)
  {
    for i := 0 to |ps|
      invariant forall j | 0 <= j < i :: ps[j].doc.Some?
      invariant forall p | p in ps && p !in ps[..i] :: p.doc == old(p.doc)
      invariant forall p | p in ps :: old(p.doc).Some? ==> p.doc == old(p.doc)
      invariant forall p | p in ps :: old(p.doc).None? && p.doc.Some? ==>
        ParseAst(host, p.build, true).Success?
        && p.doc == Some(host.docNew(ParseAst(host, p.build, true).value, p.build.importPath, mode))
      invariant forall p | p in ps :: p.ast == old(p.ast) && p.tags == old(p.tags)
    {
      assert forall p | p in ps[..i + 1] :: p in ps[..i] || p == ps[i];
      err := ps[i].ParseDocs(host, mode);
      if err.Some? {
        assert (forall j | 0 <= j < i :: ps[j].doc.Some?)
          && old(ps[i].doc).None? && ParseAst(host, ps[i].build, true) == Failure(err.value)
          && (forall p | p in ps && p !in ps[..i] :: p.doc == old(p.doc));
        return;
      }
    }
    err := None;
  }

  /** The tag map a package's ParseTags computes, or its error. */
  function TagsOfPackage(host: Host, p: Package): Result<map<string, Tag>>
  {
    TagIndex(host, p.build.dir, p.build.goFiles)
  }

  /** ParseTags: each package in turn, stopping at the first error.  The
      packages before the failing one get their tag maps, the failing one
      and those after it keep theirs; with no error every package gets its
      tag map. */
  method ParseTags(host: Host, ps: seq<Package>) returns (err: Option<Error>)
    modifies set p | p in ps
    ensures err.None? ==> forall p | p in ps :: TagsOfPackage(host, p) == Success(p.tags)
    ensures err.Some? ==> exists k | 0 <= k < |ps| ::
      (forall j | 0 <= j < k :: TagsOfPackage(host, ps[j]) == Success(ps[j].tags))
      && TagsOfPackage(host, ps[k]) == Failure(err.value)
      && (forall p | p in ps && p !in ps[..k] :: p.tags == old(p.tags))
    ensures forall p | p in ps :: p.ast == old(p.ast) && p.doc == old(p.doc)
  {
    for i := 0 to |ps|
      invariant forall j | 0 <= j < i :: TagsOfPackage(host, ps[j]) == Success(ps[j].tags)
      invariant forall p | p in ps && p !in ps[..i] :: p.tags == old(p.tags)
      invariant forall p | p in ps :: p.ast == old(p.ast) && p.doc == old(p.doc)
    {
      assert forall p | p in ps[..i + 1] :: p in ps[..i] || p == ps[i];
      err := TagsOfNext(host, ps, i);
      if err.Some? {
        assert (forall j | 0 <= j < i :: TagsOfPackage(host, ps[j]) == Success(ps[j].tags))
          && TagsOfPackage(host, ps[i]) == Failure(err.value)
          && (forall p | p in ps && p !in ps[..i] :: p.tags == old(p.tags));
        return;
      }
    }
    err := None;
  }

  /** One turn of ParseTags' loop: the tag map of `ps[i]`, after those of
      the packages before it. */
  method TagsOfNext(host: Host, ps: seq<Package>, i: nat) returns (err: Option<Error>)
    requires i < |ps|
    requires forall j | 0 <= j < i :: TagsOfPackage(host, ps[j]) == Success(ps[j].tags)
    modifies ps[i]
    ensures err.None? ==> forall j | 0 <= j <= i :: TagsOfPackage(host, ps[j]) == Success(ps[j].tags)
    ensures err.Some? ==> TagsOfPackage(host, ps[i]) == Failure(err.value) && ps[i].tags == old(ps[i].tags)
    ensures ps[i].ast == old(ps[i].ast) && ps[i].doc == old(ps[i].doc)
  {
    err := ps[i].ParseTags(host);
    if err.None? {
      forall j | 0 <= j < i
        ensures TagsOfPackage(host, ps[j]) == Success(ps[j].tags)
      {
        if ps[j] != ps[i] {
          assert ps[j].tags == old(ps[j].tags);
        }
      }
    }
  }
}
