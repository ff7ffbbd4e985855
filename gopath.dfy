/** gopath.go: the normalised list of source roots ($GOROOT/src and each
    $GOPATH/src) and ToImport, which turns a directory or an import path
    into a root and an import path. */
module GoPath {
  import opened Wrappers
  import opened Strs
  import opened Seqs
  import opened Oracles

  /** init: every root is cleaned and given a trailing separator, in place,
      so that a root is a prefix of exactly the paths below it. */
  method Init(host: Host, gopaths: array<string>)
    modifies gopaths
    ensures forall i | 0 <= i < gopaths.Length :: gopaths[i] == host.clean(old(gopaths[i])) + Separator
    ensures forall i | 0 <= i < gopaths.Length :: HasSuffix(gopaths[i], Separator)
  {
    for i := 0 to gopaths.Length
      invariant forall j | 0 <= j < i :: gopaths[j] == host.clean(old(gopaths[j])) + Separator
      invariant forall j | i <= j < gopaths.Length :: gopaths[j] == old(gopaths[j])
    {
      gopaths[i] := host.clean(gopaths[i]) + Separator;
    }
    forall i | 0 <= i < gopaths.Length
      ensures HasSuffix(gopaths[i], Separator)
    {
      var r := gopaths[i];
      assert r[|r| - |Separator|..] == Separator;
    }
  }

  /** A root and an import path below it. */
  datatype Location = Location(root: string, imp: string)

  /** "" and "." both name the working directory. */
  predicate IsCurrentDir(path: string)
  {
    path == "" || path == "."
  }

  /** The cleaned path ToImport resolves: the working directory for "" and
      ".", the argument otherwise. */
  function Target(host: Host, path: string): Result<string>
  {
    if IsCurrentDir(path) then
      match host.getwd
      case Failure(e) => Failure(e)
      case Success(wd) => Success(host.clean(wd))
    else Success(host.clean(path))
  }

  /** A root the (absolute) path lies under, and that is a directory. */
  predicate ContainsPath(host: Host, path: string, root: string)
  {
    HasPrefix(path, root) && IsDir(host, root)
  }

  /** A root under which the import path names a directory. */
  predicate HoldsImport(host: Host, path: string, root: string)
  {
    IsDir(host, JoinPath(host, root, path))
  }

  /** ToImport: the first root containing the path, with the rest of the
      path as import path; failing that, the first root holding the path
      as an import path; failing that, an error naming the argument ("."
      for ""). */
  function ToImport(host: Host, roots: seq<string>, path: string): (r: Result<Location>)
    ensures r.Success? ==> r.value.root in roots && Target(host, path).Success?
  {
    match Target(host, path)
    case Failure(e) => Failure(e)
    case Success(p) => ToImportFrom(host, roots, if IsCurrentDir(path) then "." else path, p)
  }

  /** The working directory stands in for "" and "."; when it cannot be
      read, its error is the result. */
  lemma ToImportWorkingDir(host: Host, roots: seq<string>, path: string)
    requires IsCurrentDir(path)
    ensures host.getwd.Failure? ==> ToImport(host, roots, path) == Failure(host.getwd.error)
    ensures host.getwd.Success? ==> ToImport(host, roots, path) == ToImportFrom(host, roots, ".", host.clean(host.getwd.value))
  {
  }

  /** The two passes of ToImport over the path to resolve, `p`; `arg` is
      what the error message names. */
  function ToImportFrom(host: Host, roots: seq<string>, arg: string, p: string): (r: Result<Location>)
    ensures r.Success? ==> r.value.root in roots
  {
    match FirstIndex(roots, (root: string) => ContainsPath(host, p, root))
    case Some(i) => Success(Location(roots[i], p[|roots[i]|..]))
    case None =>
      match FirstIndex(roots, (root: string) => HoldsImport(host, p, root))
      case Some(i) => Success(Location(roots[i], p))
      case None => Failure(NotInGopath(arg))
  }

  /** The absolute pass: the first root, in list order, that is a prefix of
      the path and a directory wins, and root followed by import path gives
      back the path. */
  lemma ToImportFirstRoot(host: Host, roots: seq<string>, path: string, i: nat)
    requires Target(host, path).Success?
    requires i < |roots| && ContainsPath(host, Target(host, path).value, roots[i])
    requires forall j | 0 <= j < i :: !ContainsPath(host, Target(host, path).value, roots[j])
    ensures ToImport(host, roots, path).Success?
    ensures ToImport(host, roots, path).value.root == roots[i]
    ensures roots[i] + ToImport(host, roots, path).value.imp == Target(host, path).value
  {
    var p := Target(host, path).value;
    var f := (root: string) => ContainsPath(host, p, root);
    var k := FirstIndex(roots, f);
    assert k.Some? && k.value == i by {
      assert f(roots[i]);
    }
    assert p == p[..|roots[i]|] + p[|roots[i]|..];
  }

  /** The import-path pass, reached only when no root contains the path:
      the first root under which it names a directory wins, and the import
      path is the path itself. */
  lemma ToImportFirstHolder(host: Host, roots: seq<string>, path: string, i: nat)
    requires Target(host, path).Success?
    requires forall j | 0 <= j < |roots| :: !ContainsPath(host, Target(host, path).value, roots[j])
    requires i < |roots| && HoldsImport(host, Target(host, path).value, roots[i])
    requires forall j | 0 <= j < i :: !HoldsImport(host, Target(host, path).value, roots[j])
    ensures ToImport(host, roots, path) == Success(Location(roots[i], Target(host, path).value))
  {
    var p := Target(host, path).value;
    var f := (root: string) => HoldsImport(host, p, root);
    var k := FirstIndex(roots, f);
    assert k.Some? && k.value == i by {
      assert f(roots[i]);
    }
  }

  /** With no root containing or holding the path, the error names the
      argument, "." standing for "". */
  lemma ToImportNotFound(host: Host, roots: seq<string>, path: string)
    requires Target(host, path).Success?
    requires forall j | 0 <= j < |roots| :: !ContainsPath(host, Target(host, path).value, roots[j])
    requires forall j | 0 <= j < |roots| :: !HoldsImport(host, Target(host, path).value, roots[j])
    ensures ToImport(host, roots, path) == Failure(NotInGopath(if IsCurrentDir(path) then "." else path))
  {
  }

  /** Every answer is one of the two passes' answers. */
  lemma ToImportSound(host: Host, roots: seq<string>, path: string)
    requires ToImport(host, roots, path).Success?
    ensures var loc := ToImport(host, roots, path).value;
      var p := Target(host, path).value;
      (ContainsPath(host, p, loc.root) && loc.root + loc.imp == p)
      || (HoldsImport(host, p, loc.root) && loc.imp == p)
  {
    var p := Target(host, path).value;
    var loc := ToImport(host, roots, path).value;
    if HasPrefix(p, loc.root) {
      assert p == p[..|loc.root|] + p[|loc.root|..];
    }
  }
}
