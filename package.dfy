/** package.go: a package as the library hands it out, with its lazily
    filled syntax tree, documentation and per-file build constraints, and
    the selection of files by build tags. */
module Pkg {
  import opened Wrappers
  import opened Seqs
  import opened GoBuild
  import opened Ast
  import opened TagParse
  import opened Oracles

  /** The constraint of one file of the package: parseTags of the opened
      file, or the error of opening or reading it. */
  function FileTag(host: Host, dir: string, file: string): Result<Option<Tag>>
  {
    match host.open(JoinPath(host, dir, file))
    case Failure(e) => Failure(e)
    case Success(r) => TagsOfReader(r)
  }

  /** Opening one file and running parseTags on it. */
  method ReadFileTag(host: Host, dir: string, file: string) returns (r: Result<Option<Tag>>)
    ensures r == FileTag(host, dir, file)
  {
    var f := host.open(JoinPath(host, dir, file));
    if f.Failure? {
      return Failure(f.error);
    }
    r := TagParse.ParseTags(f.value);
  }

  /** The filename → tag map ParseTags builds from `files`, in order,
      stopping at the first error; files without a constraint are left
      out. */
  function TagIndex(host: Host, dir: string, files: seq<string>): Result<map<string, Tag>>
  {
    if files == [] then Success(map[])
    else match TagIndex(host, dir, files[..|files| - 1])
      case Failure(e) => Failure(e)
      case Success(m) =>
        var f := files[|files| - 1];
        match FileTag(host, dir, f)
        case Failure(e) => Failure(e)
        case Success(None) => Success(m)
        case Success(Some(t)) => Success(m[f := t])
  }

  /** On success the map holds exactly the files with a constraint, each
      with its own; on failure the error is that of the first file that
      could not be opened or read. */
  lemma {:induction false} TagIndexMeaning(host: Host, dir: string, files: seq<string>)
    ensures TagIndex(host, dir, files).Success? ==>
      var m := TagIndex(host, dir, files).value;
      (forall f :: f in m <==> f in files && FileTag(host, dir, f).Success? && FileTag(host, dir, f).value.Some?)
      && (forall f | f in m :: FileTag(host, dir, f) == Success(Some(m[f])))
    ensures TagIndex(host, dir, files).Success? <==> forall f | f in files :: FileTag(host, dir, f).Success?
    ensures TagIndex(host, dir, files).Failure? ==>
      exists i | 0 <= i < |files| :: FileTag(host, dir, files[i]) == Failure(TagIndex(host, dir, files).error)
        && forall j | 0 <= j < i :: FileTag(host, dir, files[j]).Success?
  {
    if files != [] {
      var init := files[..|files| - 1];
      TagIndexMeaning(host, dir, init);
      assert forall f | f in files :: f in init || f == files[|files| - 1];
      assert forall j | 0 <= j < |init| :: init[j] == files[j];
    }
  }

  /** One more file: TagIndex of a prefix extended by one element. */
  lemma TagIndexStep(host: Host, dir: string, files: seq<string>, i: nat)
    requires i < |files|
    ensures TagIndex(host, dir, files[..i + 1]) ==
      match TagIndex(host, dir, files[..i])
      case Failure(e) => Failure(e)
      case Success(m) =>
        match FileTag(host, dir, files[i])
        case Failure(e) => Failure(e)
        case Success(None) => Success(m)
        case Success(Some(t)) => Success(m[files[i] := t])
  {
    assert files[..i + 1][..i] == files[..i];
  }

  /** Once a prefix of the files fails, the whole list fails the same way. */
  lemma {:induction false} TagIndexFailureSticks(host: Host, dir: string, files: seq<string>, i: nat)
    requires i <= |files| && TagIndex(host, dir, files[..i]).Failure?
    ensures TagIndex(host, dir, files) == TagIndex(host, dir, files[..i])
    decreases |files| - i
  {
    if i < |files| {
      TagIndexStep(host, dir, files, i);
      TagIndexFailureSticks(host, dir, files, i + 1);
    } else {
      assert files[..i] == files;
    }
  }

  /** parse: go/parser over the package directory, restricted to the
      package's Go files, then the package of the expected name. */
  function ParseAst(host: Host, meta: PkgMeta, comments: bool): Result<AstPackage>
  {
    match host.parseDir(meta.dir, (set f | f in meta.goFiles), comments)
    case Failure(e) => Failure(e)
    case Success(pkgs) =>
      if meta.name in pkgs then Success(pkgs[meta.name]) else Failure(NoPackageNamed(meta.name))
  }

  class Package {
    const context: Context
    const build: PkgMeta
    var ast: Option<AstPackage>
    var doc: Option<DocPackage>
    var tags: map<string, Tag>

    /** A package as Import creates it: context and metadata, nothing
        parsed yet. */
    constructor (context: Context, build: PkgMeta)
      ensures this.context == context && this.build == build
      ensures ast == None && doc == None && tags == map[]
    {
      this.context := context;
      this.build := build;
      ast := None;
      doc := None;
      tags := map[];
    }

    /** ParseTags: on success the tag map is replaced by the one built
        from the Go files; on error it is left as it was. */
    method ParseTags(host: Host) returns (err: Option<Error>)
      modifies this
      ensures TagIndex(host, build.dir, build.goFiles).Success? ==>
        err == None && tags == TagIndex(host, build.dir, build.goFiles).value
      ensures TagIndex(host, build.dir, build.goFiles).Failure? ==>
        err == Some(TagIndex(host, build.dir, build.goFiles).error) && tags == old(tags)
      ensures ast == old(ast) && doc == old(doc)
    {
      var files := build.goFiles;
      var m: map<string, Tag> := map[];
      for i := 0 to |files|
        invariant TagIndex(host, build.dir, files[..i]) == Success(m)
        invariant ast == old(ast) && doc == old(doc) && tags == old(tags)
      {
        TagIndexStep(host, build.dir, files, i);
        var bt := ReadFileTag(host, build.dir, files[i]);
        if bt.Failure? {
          TagIndexFailureSticks(host, build.dir, files, i + 1);
          return Some(bt.error);
        }
        if bt.value.Some? {
          m := m[files[i] := bt.value.value];
        }
      }
      assert files[..|files|] == files;
      tags := m;
      err := None;
    }

    /** FilesMatching, with the files visited in `order`, one possible
        order of Go's iteration over the tag map: nothing for no tags,
        else exactly the files whose constraint holds, each once. */
    function FilesMatching(want: seq<string>, order: seq<string>): (files: seq<string>)
      reads this
      requires Enumerates(order, tags.Keys)
      ensures |want| == 0 ==> files == []
      ensures forall f :: f in files <==> |want| > 0 && f in tags && Match(tags[f], want)
      ensures NoDup(files) && IsSubseq(files, order)
    {
      if |want| == 0 then []
      else
        var m := tags;
        var keep := (f: string) => f in m && Match(m[f], want);
        FilterNoDup(order, keep);
        Filter(order, keep)
    }

    /** Some file has a constraint that holds under `want`. */
    predicate HasMatchingFile(want: seq<string>)
      reads this
    {
      |want| > 0 && exists f | f in tags :: Match(tags[f], want)
    }

    /** Whether FilesMatching finds anything does not depend on the order
        of iteration. */
    lemma FilesMatchingNonEmpty(want: seq<string>, order: seq<string>)
      requires Enumerates(order, tags.Keys)
      ensures |FilesMatching(want, order)| > 0 <==> HasMatchingFile(want)
    {
      if HasMatchingFile(want) {
        var f :| f in tags && Match(tags[f], want);
        assert f in FilesMatching(want, order);
      }
    }

    /** ASTFilesMatching: the syntax tree of each file FilesMatching
        returns, in the same order; None where the file is missing from
        the tree.  The tree must have been parsed unless no file matches. */
    function ASTFilesMatching(want: seq<string>, order: seq<string>): (r: seq<Option<AstFile>>)
      reads this
      requires Enumerates(order, tags.Keys)
      requires |FilesMatching(want, order)| > 0 ==> ast.Some?
      ensures var files := FilesMatching(want, order);
        |r| == |files|
        && forall i | 0 <= i < |r| ::
             (r[i].Some? <==> files[i] in ast.value.files)
             && (r[i].Some? ==> r[i].value == ast.value.files[files[i]])
    {
      var files := FilesMatching(want, order);
      if |files| == 0 then []
      else
        var parsed := ast.value.files;
        seq(|files|, i requires 0 <= i < |files| => if files[i] in parsed then Some(parsed[files[i]]) else None)
    }

    /** Parse: a no-op once the tree is set; otherwise the tree is set from
        the parser, or the parser's error is returned and it stays unset. */
    method Parse(host: Host, parseComments: bool) returns (err: Option<Error>)
      modifies this
      ensures old(ast).Some? ==> err == None && ast == old(ast)
      ensures old(ast).None? ==>
        match ParseAst(host, build, parseComments)
        case Success(a) => err == None && ast == Some(a)
        case Failure(e) => err == Some(e) && ast == None
      ensures err.None? <==> ast.Some?
      ensures doc == old(doc) && tags == old(tags)
    {
      if ast.Some? {
        return None;
      }
      var pkg := ParseAst(host, build, parseComments);
      if pkg.Failure? {
        return Some(pkg.error);
      }
      ast := Some(pkg.value);
      err := None;
    }

    /** ParseDocs: a no-op once the documentation is set; otherwise it is
        computed from a fresh parse with comments, or the parser's error is
        returned and it stays unset. */
    method ParseDocs(host: Host, mode: int) returns (err: Option<Error>)
      modifies this
      ensures old(doc).Some? ==> err == None && doc == old(doc)
      ensures old(doc).None? ==>
        match ParseAst(host, build, true)
        case Success(a) => err == None && doc == Some(host.docNew(a, build.importPath, mode))
        case Failure(e) => err == Some(e) && doc == None
      ensures err.None? <==> doc.Some?
      ensures ast == old(ast) && tags == old(tags)
    {
      if doc.Some? {
        return None;
      }
      var pkg := ParseAst(host, build, true);
      if pkg.Failure? {
        return Some(pkg.error);
      }
      doc := Some(host.docNew(pkg.value, build.importPath, mode));
      err := None;
    }
  }
}
