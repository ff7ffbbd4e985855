/** gocli/import.go: turning command-line arguments into package lists. */
module GoCli {
  import opened Wrappers
  import opened Seqs
  import opened GoBuild
  import opened Oracles
  import opened Pkg
  import opened Importing

  /** What importing one path gave, as far as the final cache can tell: no
      packages and the error, or the one package the path denotes. */
  predicate ImportsResult(host: Host, roots: seq<string>, c: Context, ip: string, ps: seq<Package>, err: Option<Error>,
                          cache: map<Ident, Package>)
  {
    match err
    case Some(e) => ps == [] && Explains(host, roots, c, ip, Failure(e), cache)
    case None => |ps| == 1 && Explains(host, roots, c, ip, Success(ps[0]), cache)
  }

  /** What one argument gave: an argument whose base name is "..." is a
      tree, refused when trees are not allowed; any other is one import. */
  predicate ArgResult(host: Host, roots: seq<string>, c: Context, notree: bool, arg: string, ps: seq<Package>,
                      err: Option<Error>, log: seq<Result<Package>>, cache: map<Ident, Package>)
  {
    if host.base(arg) == "..." then
      if notree then ps == [] && err == Some(CannotUseTree)
      else TreeResult(host, roots, c, host.dir(arg), ps, err, log, cache)
    else ImportsResult(host, roots, c, arg, ps, err, cache)
  }

  lemma ArgResultStable(host: Host, roots: seq<string>, c: Context, notree: bool, arg: string, ps: seq<Package>,
                        err: Option<Error>, log: seq<Result<Package>>, cache: map<Ident, Package>, bigger: map<Ident, Package>)
    requires ArgResult(host, roots, c, notree, arg, ps, err, log, cache) && Extends(cache, bigger)
    ensures ArgResult(host, roots, c, notree, arg, ps, err, log, bigger)
  {
    if host.base(arg) != "..." {
      var out := if err.Some? then Failure(err.value) else Success(ps[0]);
      ExplainsStable(host, roots, c, arg, out, cache, bigger);
    } else if !notree {
      TreeResultStable(host, roots, c, host.dir(arg), ps, err, log, cache, bigger);
    }
  }

  /** The errors among the outcomes, in order. */
  function ErrorsOf(outs: seq<Option<Error>>): (r: seq<Error>)
    ensures |r| <= |outs|
    ensures forall e | e in r :: Some(e) in outs
  {
    if outs == [] then []
    else
      var last := outs[|outs| - 1];
      ErrorsOf(outs[..|outs| - 1]) + (if last.Some? then [last.value] else [])
  }

  /** The first of the collected errors is the first argument's error. */
  lemma {:induction false} ErrorsOfFirst(outs: seq<Option<Error>>)
    ensures |ErrorsOf(outs)| == 0 <==> FirstSome(outs).None?
    ensures |ErrorsOf(outs)| > 0 ==> FirstSome(outs) == Some(ErrorsOf(outs)[0])
  {
    if outs != [] {
      var init := outs[..|outs| - 1];
      ErrorsOfFirst(init);
      FirstSomeAppend(init, outs[|outs| - 1]);
      assert init + [outs[|outs| - 1]] == outs;
    }
  }

  lemma {:induction false} FirstSomeAppend(outs: seq<Option<Error>>, x: Option<Error>)
    ensures FirstSome(outs + [x]) == if FirstSome(outs).Some? then FirstSome(outs) else x
  {
    if outs == [] {
      assert [x][1..] == [];
    } else {
      assert (outs + [x])[1..] == outs[1..] + [x];
      FirstSomeAppend(outs[1..], x);
    }
  }

  /** imports: Import, giving a one-element list on success and no list
      plus the error on failure. */
  method Imports(imp: Importer, ctx: Option<Context>, ip: string) returns (pkgs: seq<Package>, err: Option<Error>)
    requires imp.Valid()
    modifies imp
    ensures imp.Valid() && Extends(old(imp.cache), imp.cache)
    ensures ImportsResult(imp.host, imp.roots, imp.ResolveCtx(ctx), ip, pkgs, err, imp.cache)
    ensures PlanImport(imp.host, imp.roots, old(imp.cache), imp.ResolveCtx(ctx), ip).StepFail? ==>
      pkgs == [] && err == Some(PlanImport(imp.host, imp.roots, old(imp.cache), imp.ResolveCtx(ctx), ip).err)
  {
    var r := imp.Import(ctx, ip);
    if r.Failure? {
      return [], Some(r.error);
    }
    return [r.value], None;
  }

  /** Import: one package list per argument, in argument order, or the
      current directory's when there are none; the errors are collected in
      the order they arose. */
  method CliImport(imp: Importer, notree: bool, ctx: Option<Context>, args: seq<string>)
    returns (pkgs: seq<seq<Package>>, errs: seq<Error>, ghost outs: seq<Option<Error>>, ghost logs: seq<seq<Result<Package>>>)
    requires imp.Valid()
    modifies imp
    ensures imp.Valid() && Extends(old(imp.cache), imp.cache)
    ensures |pkgs| == |outs| == |logs| == if |args| == 0 then 1 else |args|
    ensures errs == ErrorsOf(outs)
    ensures |args| == 0 ==> ImportsResult(imp.host, imp.roots, imp.ResolveCtx(ctx), "", pkgs[0], outs[0], imp.cache)
    ensures forall k | 0 <= k < |args| ::
      ArgResult(imp.host, imp.roots, imp.ResolveCtx(ctx), notree, args[k], pkgs[k], outs[k], logs[k], imp.cache)
  {
    if |args| == 0 {
      var ps, err := Imports(imp, ctx, "");
      pkgs, outs, logs := [ps], [err], [[]];
      assert outs[..0] == [];
      errs := if err.Some? then [err.value] else [];
      return;
    }
    var c := imp.ResolveCtx(ctx);
    pkgs, errs, outs, logs := [], [], [], [];
    for i := 0 to |args|
      invariant imp.Valid() && Extends(old(imp.cache), imp.cache)
      invariant |pkgs| == |outs| == |logs| == i
      invariant errs == ErrorsOf(outs)
      invariant ArgsResult(imp.host, imp.roots, c, notree, args, pkgs, outs, logs, imp.cache)
    {
      ghost var before := imp.cache;
      var ps, err, log := ImportArg(imp, notree, ctx, args[i]);
      ArgsStable(imp.host, imp.roots, c, notree, args, pkgs, outs, logs, before, imp.cache);
      ArgsPush(imp.host, imp.roots, c, notree, args, pkgs, outs, logs, ps, err, log, imp.cache);
      assert (outs + [err])[..i] == outs;
      pkgs, outs, logs := pkgs + [ps], outs + [err], logs + [log];
      if err.Some? {
        errs := errs + [err.value];
      }
    }
  }

  /** One argument, as the loop body of Import dispatches it. */
  method ImportArg(imp: Importer, notree: bool, ctx: Option<Context>, arg: string)
    returns (ps: seq<Package>, err: Option<Error>, ghost log: seq<Result<Package>>)
    requires imp.Valid()
    modifies imp
    ensures imp.Valid() && Extends(old(imp.cache), imp.cache)
    ensures ArgResult(imp.host, imp.roots, imp.ResolveCtx(ctx), notree, arg, ps, err, log, imp.cache)
  {
    log := [];
    if imp.host.base(arg) == "..." {
      if notree {
        ps, err := [], Some(CannotUseTree);
      } else {
        ps, err, log := imp.ImportTree(ctx, imp.host.dir(arg));
      }
    } else {
      ps, err := Imports(imp, ctx, arg);
    }
  }

  /** Every argument handled so far is accounted for. */
  predicate ArgsResult(host: Host, roots: seq<string>, c: Context, notree: bool, args: seq<string>,
                       pkgs: seq<seq<Package>>, outs: seq<Option<Error>>, logs: seq<seq<Result<Package>>>,
                       cache: map<Ident, Package>)
  {
    |pkgs| == |outs| == |logs| <= |args|
    && forall k | 0 <= k < |pkgs| :: ArgResult(host, roots, c, notree, args[k], pkgs[k], outs[k], logs[k], cache)
  }

  lemma ArgsPush(host: Host, roots: seq<string>, c: Context, notree: bool, args: seq<string>,
                 pkgs: seq<seq<Package>>, outs: seq<Option<Error>>, logs: seq<seq<Result<Package>>>,
                 ps: seq<Package>, err: Option<Error>, log: seq<Result<Package>>, cache: map<Ident, Package>)
    requires ArgsResult(host, roots, c, notree, args, pkgs, outs, logs, cache) && |pkgs| < |args|
    requires ArgResult(host, roots, c, notree, args[|pkgs|], ps, err, log, cache)
    ensures ArgsResult(host, roots, c, notree, args, pkgs + [ps], outs + [err], logs + [log], cache)
  {
    var pkgs', outs', logs' := pkgs + [ps], outs + [err], logs + [log];
    forall k | 0 <= k < |pkgs'|
      ensures ArgResult(host, roots, c, notree, args[k], pkgs'[k], outs'[k], logs'[k], cache)
    {
      if k < |pkgs| {
        assert pkgs'[k] == pkgs[k] && outs'[k] == outs[k] && logs'[k] == logs[k];
      }
    }
  }

  lemma ArgsStable(host: Host, roots: seq<string>, c: Context, notree: bool, args: seq<string>,
                   pkgs: seq<seq<Package>>, outs: seq<Option<Error>>, logs: seq<seq<Result<Package>>>,
                   cache: map<Ident, Package>, bigger: map<Ident, Package>)
    requires ArgsResult(host, roots, c, notree, args, pkgs, outs, logs, cache) && Extends(cache, bigger)
    ensures ArgsResult(host, roots, c, notree, args, pkgs, outs, logs, bigger)
  {
    forall k | 0 <= k < |pkgs|
      ensures ArgResult(host, roots, c, notree, args[k], pkgs[k], outs[k], logs[k], bigger)
    {
      ArgResultStable(host, roots, c, notree, args[k], pkgs[k], outs[k], logs[k], cache, bigger);
    }
  }

  /** FirstError: the lists unchanged, with the first error if any. */
  function FirstError(pkgs: seq<seq<Package>>, errs: seq<Error>): (r: (seq<seq<Package>>, Option<Error>))
    ensures r.0 == pkgs
    ensures r.1.None? <==> |errs| == 0
    ensures r.1.Some? ==> r.1.value == errs[0] && r.1.value in errs
  {
    if |errs| == 0 then (pkgs, None) else (pkgs, Some(errs[0]))
  }

  /** Applied to Import's results, FirstError reports the error of the first
      argument that failed. */
  lemma FirstErrorOfImport(pkgs: seq<seq<Package>>, outs: seq<Option<Error>>)
    ensures FirstError(pkgs, ErrorsOf(outs)).1 == FirstSome(outs)
  {
    ErrorsOfFirst(outs);
  }

  /** ImportOne: more than one argument is refused before anything is
      imported; otherwise the one list Import produced, or its error. */
  method ImportOne(imp: Importer, notree: bool, ctx: Option<Context>, args: seq<string>)
    returns (res: Result<seq<Package>>, ghost ps: seq<Package>, ghost err: Option<Error>, ghost log: seq<Result<Package>>)
    requires imp.Valid()
    modifies imp
    ensures imp.Valid() && Extends(old(imp.cache), imp.cache)
    ensures |args| > 1 ==> res == Failure(OnlyOnePackage) && imp.cache == old(imp.cache)
    ensures |args| == 0 ==> ImportsResult(imp.host, imp.roots, imp.ResolveCtx(ctx), "", ps, err, imp.cache)
    ensures |args| == 1 ==> ArgResult(imp.host, imp.roots, imp.ResolveCtx(ctx), notree, args[0], ps, err, log, imp.cache)
    ensures |args| <= 1 ==> res == if err.Some? then Failure(err.value) else Success(ps)
  {
    if |args| > 1 {
      return Failure(OnlyOnePackage), [], None, [];
    }
    var pkgs, errs, outs, logs := CliImport(imp, notree, ctx, args);
    var r := FirstError(pkgs, errs);
    FirstErrorOfImport(pkgs, outs);
    assert outs == [outs[0]];
    ps, err, log := pkgs[0], outs[0], logs[0];
    if r.1.Some? {
      return Failure(r.1.value), ps, err, log;
    }
    res := Success(r.0[0]);
  }

  /** Flatten: the lists concatenated in order, then made unique by
      Packages.Uniq, which is not part of this model and is a parameter. */
  method Flatten(pss: seq<seq<Package>>, uniq: seq<Package> -> seq<Package>) returns (out: seq<Package>)
    ensures out == uniq(Concat(pss))
  {
    var all: seq<Package> := [];
    for i := 0 to |pss|
      invariant all == Concat(pss[..i])
    {
      assert pss[..i + 1][..i] == pss[..i];
      all := all + pss[i];
    }
    assert pss[..|pss|] == pss;
    out := uniq(all);
  }
}
