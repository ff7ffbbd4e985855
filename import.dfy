/** import.go: the package cache keyed by context pointer and import path,
    Import, the directory-tree walk behind ImportTree and ImportAll, and
    the dependency closure of ImportDeps and ImportRec. */
module Importing {
  import opened Wrappers
  import opened Seqs
  import opened Strs
  import opened GoBuild
  import opened Oracles
  import opened GoPath
  import opened Pkg

  /** ident: the cache key.  Contexts are compared by pointer, so two
      contexts with equal contents have separate entries. */
  datatype Ident = Ident(ctx: Context, imp: string)

  /** `b` keeps every entry of `a`: the cache only ever gains entries. */
  predicate Extends(a: map<Ident, Package>, b: map<Ident, Package>)
  {
    forall k | k in a :: k in b && b[k] == a[k]
  }

  /** Every import list the loader can produce names paths of a finite
      universe: the import graph is finite. */
  ghost predicate LoaderBounded(host: Host, universe: set<string>)
  {
    forall c: BuildSettings, path: string, root: string ::
      host.load(c, path, root).Success? ==>
        forall i | i in host.load(c, path, root).value.imports :: i in universe
  }

  // ---------------------------------------------------------------------
  // One Import

  /** What Import does for `path` under context `c`, given the cache: fail
      with ToImport's error, return the cached package, fail with the
      loader's error, or load `meta` and store a new package under `key`. */
  datatype Step = StepFail(err: Error) | StepHit(pkg: Package) | StepLoad(key: Ident, meta: PkgMeta)

  function PlanImport(host: Host, roots: seq<string>, cache: map<Ident, Package>, c: Context, path: string): Step
  {
    match ToImport(host, roots, path)
    case Failure(e) => StepFail(e)
    case Success(loc) =>
      var key := Ident(c, loc.imp);
      if key in cache then StepHit(cache[key])
      else
        match host.load(c.Settings(), loc.imp, loc.root)
        case Failure(e) => StepFail(e)
        case Success(meta) => StepLoad(key, meta)
  }

  /** A failure of ToImport is Import's result, whatever the cache holds. */
  lemma PlanImportToImportFails(host: Host, roots: seq<string>, cache: map<Ident, Package>, c: Context, path: string)
    requires ToImport(host, roots, path).Failure?
    ensures PlanImport(host, roots, cache, c, path) == StepFail(ToImport(host, roots, path).error)
  {
  }

  /** After a load is stored, importing the same path again under the same
      context returns the stored package; a hit stays a hit with the same
      package however the cache grows. */
  lemma PlanImportRepeat(host: Host, roots: seq<string>, cache: map<Ident, Package>, c: Context, path: string, q: Package)
    ensures PlanImport(host, roots, cache, c, path).StepLoad? ==>
      var key := PlanImport(host, roots, cache, c, path).key;
      PlanImport(host, roots, cache[key := q], c, path) == StepHit(q)
    ensures forall bigger: map<Ident, Package> {:trigger Extends(cache, bigger)} |
      Extends(cache, bigger) && PlanImport(host, roots, cache, c, path).StepHit? ::
        PlanImport(host, roots, bigger, c, path) == PlanImport(host, roots, cache, c, path)
  {
  }

  /** Entries stored under one context never affect another context, even
      one with the same contents. */
  lemma PlanImportIsolation(host: Host, roots: seq<string>, cache: map<Ident, Package>,
                            c1: Context, c2: Context, imp: string, q: Package, path: string)
    requires c1 != c2
    ensures PlanImport(host, roots, cache[Ident(c1, imp) := q], c2, path) == PlanImport(host, roots, cache, c2, path)
  {
  }

  /** On a hit the loader is not consulted: any other loader gives the same
      step. */
  lemma PlanImportHitSkipsLoader(host: Host, roots: seq<string>, cache: map<Ident, Package>, c: Context, path: string,
                                 load: (BuildSettings, string, string) -> Result<PkgMeta>)
    requires PlanImport(host, roots, cache, c, path).StepHit?
    ensures PlanImport(host.(load := load), roots, cache, c, path) == PlanImport(host, roots, cache, c, path)
  {
  }

  /** `out` is what importing `path` under `c` gave, as far as a later
      cache can tell: ToImport's error, the loader's error, or the package
      the cache holds for the key. */
  predicate Explains(host: Host, roots: seq<string>, c: Context, path: string, out: Result<Package>, cache: map<Ident, Package>)
  {
    match ToImport(host, roots, path)
    case Failure(e) => out == Failure(e)
    case Success(loc) =>
      match out
      case Success(q) => Ident(c, loc.imp) in cache && cache[Ident(c, loc.imp)] == q
      case Failure(e) => host.load(c.Settings(), loc.imp, loc.root) == Failure(e)
  }

  /** The cache entry `q` under key `k` is the package Import builds when
      it loads `from`: ToImport resolves `from` to the key's import path,
      and the loader, asked under the key's context, gave q's metadata. */
  predicate Loaded(host: Host, roots: seq<string>, k: Ident, from: string, q: Package)
  {
    match ToImport(host, roots, from)
    case Failure(_) => false
    case Success(loc) =>
      loc.imp == k.imp && q.context == k.ctx
      && host.load(k.ctx.Settings(), loc.imp, loc.root) == Success(q.build)
  }

  /** Every entry of `cache` is the package Import built when it loaded the
      path `from` records for its key. */
  predicate CacheLoaded(host: Host, roots: seq<string>, cache: map<Ident, Package>, from: map<Ident, string>)
  {
    forall k {:trigger EntryLoaded(host, roots, cache, from, k)} | k in cache :: EntryLoaded(host, roots, cache, from, k)
  }

  /** The entry under `k`, if any, was loaded for the path `from` records. */
  predicate EntryLoaded(host: Host, roots: seq<string>, cache: map<Ident, Package>, from: map<Ident, string>, k: Ident)
  {
    k in cache ==> k in from && Loaded(host, roots, k, from[k], cache[k])
  }

  /** Storing the package Import builds from the loader's answer for `path`
      under a new key keeps every entry loaded. */
  lemma CacheLoadedAdd(host: Host, roots: seq<string>, cache: map<Ident, Package>, from: map<Ident, string>,
                       c: Context, path: string, q: Package)
    requires CacheLoaded(host, roots, cache, from)
    requires PlanImport(host, roots, cache, c, path).StepLoad?
    requires q.context == c && q.build == PlanImport(host, roots, cache, c, path).meta
    ensures
      var key := PlanImport(host, roots, cache, c, path).key;
      CacheLoaded(host, roots, cache[key := q], from[key := path])
  {
    var key := PlanImport(host, roots, cache, c, path).key;
    var cache2, from2 := cache[key := q], from[key := path];
    assert Loaded(host, roots, key, path, q);
    forall k | k in cache2
      ensures EntryLoaded(host, roots, cache2, from2, k)
    {
      if k != key {
        assert EntryLoaded(host, roots, cache, from, k);
      }
    }
  }

  /** A hit returns a package Import built from the loader's answer for a
      path that resolves to the same key. */
  lemma CacheLoadedHit(host: Host, roots: seq<string>, cache: map<Ident, Package>, from: map<Ident, string>,
                       c: Context, path: string)
    requires CacheLoaded(host, roots, cache, from)
    requires PlanImport(host, roots, cache, c, path).StepHit?
    ensures
      var key := Ident(c, ToImport(host, roots, path).value.imp);
      key in from && Loaded(host, roots, key, from[key], PlanImport(host, roots, cache, c, path).pkg)
  {
    var key := Ident(c, ToImport(host, roots, path).value.imp);
    assert EntryLoaded(host, roots, cache, from, key);
  }

  /** What a cache explains, every larger cache explains. */
  lemma ExplainsStable(host: Host, roots: seq<string>, c: Context, path: string, out: Result<Package>,
                       cache: map<Ident, Package>, bigger: map<Ident, Package>)
    requires Explains(host, roots, c, path, out, cache) && Extends(cache, bigger)
    ensures Explains(host, roots, c, path, out, bigger)
  {
    if ToImport(host, roots, path).Success? && out.Success? {
      var key := Ident(c, ToImport(host, roots, path).value.imp);
      assert key in cache;
    }
  }

  // ---------------------------------------------------------------------
  // The directory walk

  /** One step of importdir: a directory that could not be listed, or a
      directory with Go files that Import is tried on. */
  datatype Visit = ReadFailed(error: Error) | Attempt(dir: string)

  /** A directory holds a regular file whose name ends in ".go". */
  predicate HasGoFiles(es: seq<Entry>)
  {
    exists i | 0 <= i < |es| :: es[i].File? && HasSuffix(es[i].name, ".go")
  }

  /** The sub-directories, in listing order. */
  function DirsOf(es: seq<Entry>): (ds: seq<Entry>)
    ensures forall d | d in ds :: d in es && d.Dir?
  {
    if es == [] then []
    else (if es[0].Dir? then [es[0]] else []) + DirsOf(es[1..])
  }

  /** importdir's pre-order walk: the directory itself (tried when it has
      Go files), then each sub-directory in turn. */
  function Plan(host: Host, dir: string, l: Listing): seq<Visit>
    decreases l
  {
    match l
    case Unreadable(e) => [ReadFailed(e)]
    case Entries(es) => (if HasGoFiles(es) then [Attempt(dir)] else []) + PlanEntries(host, dir, es)
  }

  function PlanEntries(host: Host, dir: string, es: seq<Entry>): seq<Visit>
    decreases es
  {
    if es == [] then []
    else (if es[0].Dir? then Plan(host, JoinPath(host, dir, es[0].name), es[0].listing) else [])
         + PlanEntries(host, dir, es[1..])
  }

  /** The walk of a listed directory tries it exactly when it has Go files,
      and before anything below it. */
  lemma PlanSelfFirst(host: Host, dir: string, es: seq<Entry>)
    ensures HasGoFiles(es) <==> |Plan(host, dir, Entries(es))| == |PlanEntries(host, dir, es)| + 1
    ensures HasGoFiles(es) ==> Plan(host, dir, Entries(es))[0] == Attempt(dir)
  {
  }

  /** Every sub-directory is walked, whether or not its parent could be
      imported: its whole walk is part of the parent's. */
  lemma {:induction false} PlanEntriesCoversSubdirs(host: Host, dir: string, es: seq<Entry>, i: nat)
    requires i < |es| && es[i].Dir?
    ensures forall v | v in Plan(host, JoinPath(host, dir, es[i].name), es[i].listing) :: v in PlanEntries(host, dir, es)
    decreases i
  {
    if i > 0 {
      PlanEntriesCoversSubdirs(host, dir, es[1..], i - 1);
    }
  }

  /** Walking the collected sub-directories is walking the listing. */
  lemma {:induction false} PlanEntriesDirs(host: Host, dir: string, es: seq<Entry>)
    ensures PlanEntries(host, dir, DirsOf(es)) == PlanEntries(host, dir, es)
  {
    if es != [] {
      PlanEntriesDirs(host, dir, es[1..]);
      if es[0].Dir? {
        assert DirsOf(es) == [es[0]] + DirsOf(es[1..]);
        assert DirsOf(es)[0] == es[0] && DirsOf(es)[1..] == DirsOf(es[1..]);
      } else {
        assert DirsOf(es) == DirsOf(es[1..]);
      }
    }
  }

  /** How one visit turned out: a listing failure is its error. */
  predicate Accounts(host: Host, roots: seq<string>, c: Context, v: Visit, out: Result<Package>, cache: map<Ident, Package>)
  {
    match v
    case ReadFailed(e) => out == Failure(e)
    case Attempt(d) => Explains(host, roots, c, d, out, cache)
  }

  predicate AllAccounted(host: Host, roots: seq<string>, c: Context, plan: seq<Visit>, log: seq<Result<Package>>, cache: map<Ident, Package>)
  {
    |plan| == |log| && forall k | 0 <= k < |log| :: Accounts(host, roots, c, plan[k], log[k], cache)
  }

  lemma AccountedStable(host: Host, roots: seq<string>, c: Context, plan: seq<Visit>, log: seq<Result<Package>>,
                        cache: map<Ident, Package>, bigger: map<Ident, Package>)
    requires AllAccounted(host, roots, c, plan, log, cache) && Extends(cache, bigger)
    ensures AllAccounted(host, roots, c, plan, log, bigger)
  {
    forall k | 0 <= k < |log|
      ensures Accounts(host, roots, c, plan[k], log[k], bigger)
    {
      if plan[k].Attempt? {
        ExplainsStable(host, roots, c, plan[k].dir, log[k], cache, bigger);
      }
    }
  }

  lemma AccountedAppend(host: Host, roots: seq<string>, c: Context, p1: seq<Visit>, l1: seq<Result<Package>>,
                        p2: seq<Visit>, l2: seq<Result<Package>>, cache: map<Ident, Package>)
    requires AllAccounted(host, roots, c, p1, l1, cache) && AllAccounted(host, roots, c, p2, l2, cache)
    ensures AllAccounted(host, roots, c, p1 + p2, l1 + l2, cache)
  {
    assert forall k | |l1| <= k < |l1| + |l2| :: (l1 + l2)[k] == l2[k - |l1|] && (p1 + p2)[k] == p2[k - |l1|];
  }

  /** The packages of the successful outcomes, in order. */
  function Successes(log: seq<Result<Package>>): (r: seq<Package>)
    ensures forall q | q in r :: Success(q) in log
    ensures |r| <= |log|
  {
    if log == [] then []
    else (if log[0].Success? then [log[0].value] else []) + Successes(log[1..])
  }

  /** The first error in the log, if any. */
  function FirstFailure(log: seq<Result<Package>>): (r: Option<Error>)
    ensures r.None? <==> forall k | 0 <= k < |log| :: log[k].Success?
    ensures r.Some? ==> exists k | 0 <= k < |log| :: log[k] == Failure(r.value) && forall j | 0 <= j < k :: log[j].Success?
  {
    if log == [] then None
    else if log[0].Failure? then Some(log[0].error)
    else
      var r := FirstFailure(log[1..]);
      assert forall k | 1 <= k < |log| :: log[k] == log[1..][k - 1];
      r
  }

  /** The first-error cell after `log`: kept once set. */
  function Keep(first: Option<Error>, log: seq<Result<Package>>): Option<Error>
  {
    if first.Some? then first else FirstFailure(log)
  }

  lemma {:induction false} SuccessesAppend(a: seq<Result<Package>>, b: seq<Result<Package>>)
    ensures Successes(a + b) == Successes(a) + Successes(b)
  {
    if a != [] {
      SuccessesAppend(a[1..], b);
      assert (a + b)[1..] == a[1..] + b;
    } else {
      assert a + b == b;
    }
  }

  lemma {:induction false} KeepAppend(first: Option<Error>, a: seq<Result<Package>>, b: seq<Result<Package>>)
    ensures Keep(Keep(first, a), b) == Keep(first, a + b)
  {
    if a != [] && first.None? && a[0].Success? {
      KeepAppend(first, a[1..], b);
      assert (a + b)[1..] == a[1..] + b;
    } else if a == [] {
      assert a + b == b;
    }
  }

  /** What ImportTree gave for `root`: the error of making it absolute, or
      the successes and the first error of the walk of its tree. */
  predicate TreeResult(host: Host, roots: seq<string>, c: Context, root: string, pkgs: seq<Package>, first: Option<Error>,
                       log: seq<Result<Package>>, cache: map<Ident, Package>)
  {
    match host.abs(root)
    case Failure(e) => pkgs == [] && first == Some(e)
    case Success(dir) =>
      AllAccounted(host, roots, c, Plan(host, dir, host.tree(dir)), log, cache)
      && pkgs == Successes(log) && first == FirstFailure(log)
  }

  lemma TreeResultStable(host: Host, roots: seq<string>, c: Context, root: string, pkgs: seq<Package>, first: Option<Error>,
                         log: seq<Result<Package>>, cache: map<Ident, Package>, bigger: map<Ident, Package>)
    requires TreeResult(host, roots, c, root, pkgs, first, log, cache) && Extends(cache, bigger)
    ensures TreeResult(host, roots, c, root, pkgs, first, log, bigger)
  {
    if host.abs(root).Success? {
      var dir := host.abs(root).value;
      AccountedStable(host, roots, c, Plan(host, dir, host.tree(dir)), log, cache, bigger);
    }
  }

  // ---------------------------------------------------------------------
  // The three discrepancies between the code and its documentation

  /** importdir's handling of an Import result as written: the else branch
      also runs when the import failed after the first error was already
      recorded, appending the nil package. */
  function RecordAsWritten(acc: seq<Option<Package>>, first: Option<Error>, r: Result<Package>): (seq<Option<Package>>, Option<Error>)
  {
    if r.Failure? && first.None? then (acc, Some(r.error))
    else (acc + [if r.Success? then Some(r.value) else None], first)
  }

  /** A second failing directory adds a nil package to the result. */
  lemma RecordAsWrittenAppendsNil(acc: seq<Option<Package>>, e1: Error, e2: Error)
    ensures RecordAsWritten(acc, Some(e1), Failure(e2)) == (acc + [None], Some(e1))
    ensures None in RecordAsWritten(acc, Some(e1), Failure(e2)).0
  {
  }

  /** importdir's handling as intended: a package is appended only when the
      import succeeded, and an error is recorded only while none is. */
  function Record(acc: seq<Package>, first: Option<Error>, r: Result<Package>): (seq<Package>, Option<Error>)
  {
    match r
    case Success(q) => (acc + [q], first)
    case Failure(e) => (acc, if first.None? then Some(e) else first)
  }

  /** Record adds exactly the successes and keeps the first error. */
  lemma RecordMeaning(acc: seq<Package>, first: Option<Error>, r: Result<Package>)
    ensures Record(acc, first, r) == (acc + Successes([r]), Keep(first, [r]))
  {
    assert [r][1..] == [];
    assert Successes([r]) == (if r.Success? then [r.value] else []) + Successes([]);
    if r.Failure? {
      assert FirstFailure([r]) == Some(r.error);
      assert acc + Successes([r]) == acc + [] == acc;
    } else {
      assert FirstFailure([r]) == FirstFailure([]) == None;
      assert Successes([r]) == [r.value];
    }
  }

  /** ImportAll's error handling as written: the error is copied only when
      one is already set, and none ever is. */
  function CombineAsWritten(first: Option<Error>, err: Option<Error>): Option<Error>
  {
    if first.Some? then err else first
  }

  function FoldAsWritten(first: Option<Error>, errs: seq<Option<Error>>): Option<Error>
    decreases |errs|
  {
    if errs == [] then first else FoldAsWritten(CombineAsWritten(first, errs[0]), errs[1..])
  }

  /** As written, ImportAll never reports an error, whatever its trees
      report. */
  lemma {:induction false} ImportAllAsWrittenNeverFails(errs: seq<Option<Error>>)
    ensures FoldAsWritten(None, errs) == None
  {
    if errs != [] {
      ImportAllAsWrittenNeverFails(errs[1..]);
    }
  }

  /** ImportAll's error handling as intended: the first error is kept. */
  function Combine(first: Option<Error>, err: Option<Error>): Option<Error>
  {
    if first.None? then err else first
  }

  /** The first error of a list of optional errors. */
  function FirstSome(errs: seq<Option<Error>>): (r: Option<Error>)
    ensures r.None? <==> forall k | 0 <= k < |errs| :: errs[k].None?
    ensures r.Some? ==> exists k | 0 <= k < |errs| :: errs[k] == r && forall j | 0 <= j < k :: errs[j].None?
  {
    if errs == [] then None
    else if errs[0].Some? then errs[0]
    else
      var r := FirstSome(errs[1..]);
      assert forall k | 1 <= k < |errs| :: errs[k] == errs[1..][k - 1];
      r
  }

  /** Combining the trees' errors in order yields the first of them. */
  lemma {:induction false} CombineFirst(errs: seq<Option<Error>>, k: nat)
    requires k <= |errs|
    ensures Combine(FirstSome(errs[..k]), FirstSome(errs[k..])) == FirstSome(errs)
    decreases k
  {
    if k > 0 {
      assert errs[1..][..k - 1] == errs[1..k];
      assert errs[1..][k - 1..] == errs[k..];
      CombineFirst(errs[1..], k - 1);
      assert errs[..k][1..] == errs[1..k];
    } else {
      assert errs[k..] == errs;
    }
  }

  /** ImportRec's result as written: the package prepended to ImportDeps's
      list, which already starts with it. */
  function RecResultAsWritten(pkg: Package, deps: seq<Package>): seq<Package>
  {
    [pkg] + deps
  }

  /** As written the root is listed twice. */
  lemma RecResultAsWrittenDuplicates(pkg: Package, deps: seq<Package>)
    requires |deps| > 0 && deps[0] == pkg
    ensures RecResultAsWritten(pkg, deps)[0] == RecResultAsWritten(pkg, deps)[1] == pkg
    ensures multiset(RecResultAsWritten(pkg, deps))[pkg] == multiset(deps)[pkg] + 1
  {
  }

  /** ImportRec's result as intended: ImportDeps's list, which starts with
      the package. */
  function RecResult(pkg: Package, deps: seq<Package>): seq<Package>
  {
    deps
  }

  /** As intended the package comes first and every package is listed as
      often as ImportDeps lists it. */
  lemma RecResultFirst(pkg: Package, deps: seq<Package>)
    requires |deps| > 0 && deps[0] == pkg
    ensures RecResult(pkg, deps)[0] == pkg
    ensures multiset(RecResult(pkg, deps)) == multiset(deps)
  {
  }

  // ---------------------------------------------------------------------
  // The importer

  /** The state of the library: its oracles, the normalised roots, the
      default context and the package cache. */
  class Importer {
    const host: Host
    const roots: seq<string>
    const defaultCtx: Context
    ghost const universe: set<string>
    var cache: map<Ident, Package>
    /** For each cache key, the path whose import stored the entry. */
    ghost var loadedFrom: map<Ident, string>

    /** Every cached package carries its key's context and is the package
        Import built from the loader's answer for a path it imported; the
        loader's import lists stay inside the universe. */
    ghost predicate Valid()
      reads this
    {
      LoaderBounded(host, universe)
      && (forall k | k in cache :: cache[k].context == k.ctx)
      && CacheLoaded(host, roots, cache, loadedFrom)
      && Bounded(cache, universe)
    }

    constructor (host: Host, roots: seq<string>, defaultCtx: Context, ghost universe: set<string>)
      requires LoaderBounded(host, universe)
      ensures Valid()
      ensures this.host == host && this.roots == roots && this.defaultCtx == defaultCtx && this.universe == universe
      ensures cache == map[]
    {
      this.host := host;
      this.roots := roots;
      this.defaultCtx := defaultCtx;
      this.universe := universe;
      cache := map[];
      loadedFrom := map[];
    }

    /** Context: the default context itself when no tags are given, else a
        new context whose build tags are the default's followed by `tags`. */
    method MakeContext(tags: seq<string>) returns (c: Context)
      ensures |tags| == 0 ==> c == defaultCtx
      ensures |tags| > 0 ==>
        fresh(c) && c.buildTags == defaultCtx.buildTags + tags
        && c.goos == defaultCtx.goos && c.goarch == defaultCtx.goarch
    {
      if |tags| == 0 {
        return defaultCtx;
      }
      c := new Context(defaultCtx.buildTags + tags, defaultCtx.goos, defaultCtx.goarch);
    }

    /** The context a nil context stands for. */
    function ResolveCtx(ctx: Option<Context>): Context
    {
      if ctx.None? then defaultCtx else ctx.value
    }

    /** Import: the step PlanImport chooses, carried out.  Only a
        successful load changes the cache, by one new entry. */
    method Import(ctx: Option<Context>, path: string) returns (res: Result<Package>)
      requires Valid()
      modifies this
      ensures Valid() && Extends(old(cache), cache)
      ensures match PlanImport(host, roots, old(cache), ResolveCtx(ctx), path)
        case StepFail(e) => res == Failure(e) && cache == old(cache)
        case StepHit(q) => res == Success(q) && cache == old(cache)
        case StepLoad(key, meta) =>
          res.Success? && fresh(res.value) && cache == old(cache)[key := res.value]
          && res.value.context == ResolveCtx(ctx) && res.value.build == meta
          && res.value.ast == None && res.value.doc == None && res.value.tags == map[]
      ensures Explains(host, roots, ResolveCtx(ctx), path, res, cache)
      ensures res.Success? ==> forall i | i in res.value.build.imports :: i in universe
    {
      var c := if ctx.None? then defaultCtx else ctx.value;
      var loc := ToImport(host, roots, path);
      if loc.Failure? {
        return Failure(loc.error);
      }
      var key := Ident(c, loc.value.imp);
      if key in cache {
        return Success(cache[key]);
      }
      var meta := host.load(c.Settings(), loc.value.imp, loc.value.root);
      if meta.Failure? {
        return Failure(meta.error);
      }
      var pkg := new Package(c, meta.value);
      CacheLoadedAdd(host, roots, cache, loadedFrom, c, path, pkg);
      cache := cache[key := pkg];
      loadedFrom := loadedFrom[key := path];
      res := Success(pkg);
    }

    /** importdir: the walk Plan describes, with one outcome per visit.
        Successful imports are appended in walk order, the first error is
        kept, and every sub-directory is walked whatever happened above. */
    method ImportDir(ctx: Option<Context>, dir: string, listing: Listing, acc: seq<Package>, first: Option<Error>)
      returns (acc': seq<Package>, first': Option<Error>, ghost log: seq<Result<Package>>)
      requires Valid()
      modifies this
      ensures Valid() && Extends(old(cache), cache)
      ensures AllAccounted(host, roots, ResolveCtx(ctx), Plan(host, dir, listing), log, cache)
      ensures acc' == acc + Successes(log)
      ensures first' == Keep(first, log)
      decreases listing, 1
    {
      if listing.Unreadable? {
        log := [Failure(listing.error)];
        assert Successes(log) == [] && Keep(first, log) == if first.None? then Some(listing.error) else first;
        acc' := acc + [];
        first' := if first.None? then Some(listing.error) else first;
        return;
      }
      var es := listing.entries;
      var hasGoFiles, subdirs := ScanEntries(es);
      ghost var own: seq<Visit> := [];
      ghost var ownLog: seq<Result<Package>> := [];
      acc', first' := acc, first;
      if hasGoFiles {
        var r := Import(ctx, dir);
        RecordMeaning(acc, first, r);
        acc', first' := Record(acc', first', r).0, Record(acc', first', r).1;
        own, ownLog := [Attempt(dir)], [r];
      } else {
        assert acc' == acc + Successes(ownLog) && first' == Keep(first, ownLog);
      }
      ghost var before := cache;
      var a, f, l := ImportSubdirs(ctx, dir, listing, subdirs, acc', first');
      PlanEntriesDirs(host, dir, es);
      WalkStep(ResolveCtx(ctx), own, ownLog, PlanEntries(host, dir, subdirs), l, before, cache, acc, first);
      acc', first', log := a, f, ownLog + l;
    }

    /** importdir's loop over the sub-directories, walking each in turn. */
    method ImportSubdirs(ctx: Option<Context>, dir: string, ghost parent: Listing, subdirs: seq<Entry>,
                         acc: seq<Package>, first: Option<Error>)
      returns (acc': seq<Package>, first': Option<Error>, ghost log: seq<Result<Package>>)
      requires Valid()
      requires parent.Entries? && forall d | d in subdirs :: d in parent.entries && d.Dir?
      modifies this
      ensures Valid() && Extends(old(cache), cache)
      ensures AllAccounted(host, roots, ResolveCtx(ctx), PlanEntries(host, dir, subdirs), log, cache)
      ensures acc' == acc + Successes(log)
      ensures first' == Keep(first, log)
      decreases parent, 0
    {
      var c := ResolveCtx(ctx);
      acc', first', log := acc, first, [];
      for j := 0 to |subdirs|
        invariant Valid() && Extends(old(cache), cache)
        invariant AllAccounted(host, roots, c, PlanEntries(host, dir, subdirs[..j]), log, cache)
        invariant acc' == acc + Successes(log)
        invariant first' == Keep(first, log)
      {
        var sub := subdirs[j];
        assert sub in parent.entries;
        ghost var before := cache;
        ghost var done := PlanEntries(host, dir, subdirs[..j]);
        var a, f, l := ImportDir(ctx, JoinPath(host, dir, sub.name), sub.listing, acc', first');
        ghost var below := Plan(host, JoinPath(host, dir, sub.name), sub.listing);
        PlanEntriesStep(host, dir, subdirs, j, below);
        WalkStep(c, done, log, below, l, before, cache, acc, first);
        acc', first', log := a, f, log + l;
      }
      assert subdirs[..|subdirs|] == subdirs;
    }

    /** One sub-directory's walk appended to the walk so far. */
    lemma WalkStep(c: Context, p1: seq<Visit>, l1: seq<Result<Package>>, p2: seq<Visit>, l2: seq<Result<Package>>,
                   cache1: map<Ident, Package>, cache2: map<Ident, Package>, acc: seq<Package>, first: Option<Error>)
      requires AllAccounted(host, roots, c, p1, l1, cache1) && Extends(cache1, cache2)
      requires AllAccounted(host, roots, c, p2, l2, cache2)
      ensures AllAccounted(host, roots, c, p1 + p2, l1 + l2, cache2)
      ensures acc + Successes(l1) + Successes(l2) == acc + Successes(l1 + l2)
      ensures Keep(Keep(first, l1), l2) == Keep(first, l1 + l2)
    {
      AccountedStable(host, roots, c, p1, l1, cache1, cache2);
      AccountedAppend(host, roots, c, p1, l1, p2, l2, cache2);
      SuccessesAppend(l1, l2);
      KeepAppend(first, l1, l2);
    }

    /** ImportTree: the walk of the tree at the absolute form of `root`, or
        the error of making it absolute. */
    method ImportTree(ctx: Option<Context>, root: string)
      returns (pkgs: seq<Package>, first: Option<Error>, ghost log: seq<Result<Package>>)
      requires Valid()
      modifies this
      ensures Valid() && Extends(old(cache), cache)
      ensures TreeResult(host, roots, ResolveCtx(ctx), root, pkgs, first, log, cache)
      ensures host.abs(root).Failure? ==> cache == old(cache)
    {
      var r := host.abs(root);
      if r.Failure? {
        return [], Some(r.error), [];
      }
      pkgs, first, log := ImportDir(ctx, r.value, host.tree(r.value), [], None);
    }

    /** ImportAll: ImportTree over every root in order, concatenating the
        packages and keeping the first error; `trees`, `errs` and `logs`
        are what each ImportTree gave. */
    method ImportAll(ctx: Option<Context>)
      returns (pkgs: seq<Package>, first: Option<Error>,
               ghost trees: seq<seq<Package>>, ghost errs: seq<Option<Error>>, ghost logs: seq<seq<Result<Package>>>)
      requires Valid()
      modifies this
      ensures Valid() && Extends(old(cache), cache)
      ensures |trees| == |errs| == |logs| == |roots|
      ensures forall i | 0 <= i < |roots| :: TreeResult(host, roots, ResolveCtx(ctx), roots[i], trees[i], errs[i], logs[i], cache)
      ensures pkgs == Concat(trees) && first == FirstSome(errs)
    {
      pkgs, first, trees, errs, logs := [], None, [], [], [];
      for i := 0 to |roots|
        invariant Valid() && Extends(old(cache), cache)
        invariant |trees| == |errs| == |logs| == i
        invariant forall k | 0 <= k < i :: TreeResult(host, roots, ResolveCtx(ctx), roots[k], trees[k], errs[k], logs[k], cache)
        invariant pkgs == Concat(trees) && first == FirstSome(errs)
      {
        var p, err, log := ImportRoot(ctx, i, trees, errs, logs);
        CombineFirst(errs + [err], |errs|);
        assert (errs + [err])[..|errs|] == errs && (errs + [err])[|errs|..] == [err];
        first := Combine(first, err);
        pkgs := pkgs + p;
        assert (trees + [p])[..|trees|] == trees;
        trees, errs, logs := trees + [p], errs + [err], logs + [log];
      }
    }

    /** One turn of ImportAll's loop: ImportTree on the next root, keeping
        what the earlier roots gave. */
    method ImportRoot(ctx: Option<Context>, i: nat, ghost trees: seq<seq<Package>>, ghost errs: seq<Option<Error>>,
                      ghost logs: seq<seq<Result<Package>>>)
      returns (p: seq<Package>, err: Option<Error>, ghost log: seq<Result<Package>>)
      requires Valid() && |trees| == |errs| == |logs| == i < |roots|
      requires forall k | 0 <= k < |trees| :: TreeResult(host, roots, ResolveCtx(ctx), roots[k], trees[k], errs[k], logs[k], cache)
      modifies this
      ensures Valid() && Extends(old(cache), cache)
      ensures forall k | 0 <= k < |trees| + 1 ::
        TreeResult(host, roots, ResolveCtx(ctx), roots[k], (trees + [p])[k], (errs + [err])[k], (logs + [log])[k], cache)
    {
      ghost var before := cache;
      p, err, log := ImportTree(ctx, roots[i]);
      TreesStable(ResolveCtx(ctx), trees, errs, logs, before, cache);
      forall k | 0 <= k < |trees| + 1
        ensures TreeResult(host, roots, ResolveCtx(ctx), roots[k], (trees + [p])[k], (errs + [err])[k], (logs + [log])[k], cache)
      {
        if k < |trees| {
          assert (trees + [p])[k] == trees[k] && (errs + [err])[k] == errs[k] && (logs + [log])[k] == logs[k];
        }
      }
    }

    /** The earlier trees' results survive a later tree's walk. */
    lemma TreesStable(c: Context, trees: seq<seq<Package>>, errs: seq<Option<Error>>, logs: seq<seq<Result<Package>>>,
                      cache: map<Ident, Package>, bigger: map<Ident, Package>)
      requires |trees| == |errs| == |logs| <= |roots| && Extends(cache, bigger)
      requires forall k | 0 <= k < |trees| :: TreeResult(host, roots, c, roots[k], trees[k], errs[k], logs[k], cache)
      ensures forall k | 0 <= k < |trees| :: TreeResult(host, roots, c, roots[k], trees[k], errs[k], logs[k], bigger)
    {
      forall k | 0 <= k < |trees|
        ensures TreeResult(host, roots, c, roots[k], trees[k], errs[k], logs[k], bigger)
      {
        TreeResultStable(host, roots, c, roots[k], trees[k], errs[k], logs[k], cache, bigger);
      }
    }

    /** recimp: for each import of `root` not yet seen, visit it; the first
        failure aborts the whole walk. */
    method RecImp(c: Context, ghost base: set<string>, root: Package, acc: seq<Package>, seen: set<string>, ghost visited: seq<string>)
      returns (acc': seq<Package>, seen': set<string>, ghost visited': seq<string>, err: Option<Error>)
      requires Valid() && Walk(host, roots, c, base, acc, seen, visited, cache)
      requires root == acc[|acc| - 1]
      requires forall i | i in root.build.imports :: i in universe
      modifies this
      ensures Valid() && Extends(old(cache), cache)
      ensures seen <= seen'
      ensures err.None? ==>
        Walk(host, roots, c, base, acc', seen', visited', cache)
        && Grown(acc, visited, acc', visited')
        && (forall i | i in root.build.imports :: i in seen')
        && Closed(acc', |acc|, seen')
      ensures err.Some? ==> Failed(host, roots, c, base, visited', err.value, cache)
      ensures WalkedAs(host, roots, universe, c, cache, root.build.imports, seen, visited, seen', visited', err.Some?)
      decreases universe - seen, 2
    {
      acc', seen', visited', err := acc, seen, visited, None;
      var imports := root.build.imports;
      assert imports[..0] == [];
      WalkedNone(host, roots, universe, c, cache, seen, visited);
      for i := 0 to |imports|
        invariant Valid() && Extends(old(cache), cache)
        invariant Walk(host, roots, c, base, acc', seen', visited', cache)
        invariant seen <= seen' && universe - seen' <= universe - seen
        invariant Grown(acc, visited, acc', visited') && acc'[|acc| - 1] == root
        invariant Closed(acc', |acc|, seen')
        invariant WalkedAs(host, roots, universe, c, cache, imports[..i], seen, visited, seen', visited', false)
      {
        var a, s, v, e := VisitNew(c, base, root, acc, visited, seen, i, acc', seen', visited');
        if e.Some? {
          return a, s, v, e;
        }
        acc', seen', visited' := a, s, v;
      }
      assert imports[..|imports|] == imports;
      CacheGraphFacts(host, roots, universe, c, cache, cache);
      DepthFirstClosed(universe, CacheGraph(host, roots, c, cache), imports, seen, visited);
    }

    /** One turn of recimp's loop over the imports of `root`, which sits at
        index |acc0| - 1 of the walk begun as `acc0`: visit `ch` unless it
        was seen already. */
    method VisitNew(c: Context, ghost base: set<string>, root: Package, ghost acc0: seq<Package>, ghost visited0: seq<string>,
                    ghost seen0: set<string>, i: nat, acc: seq<Package>, seen: set<string>, ghost visited: seq<string>)
      returns (acc': seq<Package>, seen': set<string>, ghost visited': seq<string>, err: Option<Error>)
      requires Valid() && Walk(host, roots, c, base, acc, seen, visited, cache)
      requires Grown(acc0, visited0, acc, visited) && Closed(acc, |acc0|, seen)
      requires 0 < |acc0| && acc[|acc0| - 1] == root && i < |root.build.imports|
      requires forall x | x in root.build.imports :: x in universe
      requires WalkedAs(host, roots, universe, c, cache, root.build.imports[..i], seen0, visited0, seen, visited, false)
      modifies this
      ensures Valid() && Extends(old(cache), cache)
      ensures seen <= seen' && root.build.imports[i] in seen' && universe - seen' <= universe - seen
      ensures err.None? ==>
        Walk(host, roots, c, base, acc', seen', visited', cache)
        && Grown(acc0, visited0, acc', visited') && acc'[|acc0| - 1] == root
        && Closed(acc', |acc0|, seen')
      ensures err.Some? ==> Failed(host, roots, c, base, visited', err.value, cache)
      ensures WalkedAs(host, roots, universe, c, cache, root.build.imports[..i + 1], seen0, visited0, seen', visited', err.Some?)
      ensures err.Some? ==> WalkedAs(host, roots, universe, c, cache, root.build.imports, seen0, visited0, seen', visited', true)
      decreases universe - seen, 1
    {
      var ch := root.build.imports[i];
      if ch in seen {
        WalkedSeen(host, roots, universe, c, cache, ch, seen, visited);
        WalkedNext(host, roots, universe, c, cache, cache, root.build.imports, i, seen0, visited0, seen, visited, seen, visited, false);
        return acc, seen, visited, None;
      }
      ghost var before := cache;
      var a, s, v, e := Visit(c, base, ch, |acc0| - 1, acc, seen, visited);
      WalkedNext(host, roots, universe, c, before, cache, root.build.imports, i, seen0, visited0, seen, visited, s, v, e.Some?);
      if e.Some? {
        return a, s, v, e;
      }
      GrownTrans(acc0, visited0, acc, visited, a, v, seen, s);
      assert a[|acc0| - 1] == root by { assert a[..|acc|][|acc0| - 1] == acc[|acc0| - 1]; }
      return a, s, v, None;
    }

    /** The body of recimp's loop for an import `ch` not yet seen: mark it,
        import it, append it and recurse into it. */
    method Visit(c: Context, ghost base: set<string>, ch: string, ghost j: nat,
                 acc: seq<Package>, seen: set<string>, ghost visited: seq<string>)
      returns (acc': seq<Package>, seen': set<string>, ghost visited': seq<string>, err: Option<Error>)
      requires Valid() && Walk(host, roots, c, base, acc, seen, visited, cache)
      requires ch !in seen && ch in universe
      requires j < |acc| && ch in acc[j].build.imports
      modifies this
      ensures Valid() && Extends(old(cache), cache)
      ensures seen + {ch} <= seen'
      ensures err.None? ==>
        Walk(host, roots, c, base, acc', seen', visited', cache)
        && Grown(acc, visited, acc', visited')
        && Closed(acc', |acc|, seen')
      ensures err.Some? ==> Failed(host, roots, c, base, visited', err.value, cache)
      ensures WalkedAs(host, roots, universe, c, cache, [ch], seen, visited, seen', visited', err.Some?)
      decreases universe - seen, 0
    {
      ghost var before := cache;
      var r := Import(Some(c), ch);
      if r.Failure? {
        FailedAt(host, roots, c, base, acc, seen, visited, ch, r.error, before, cache);
        KidsOfFailure(host, roots, c, before, ch);
        WalkedFail(host, roots, universe, c, cache, ch, seen, visited);
        return acc, seen + {ch}, visited + [ch], Some(r.error);
      }
      var q := r.value;
      ghost var mid := cache;
      WalkGrows(host, roots, c, base, acc, seen, visited, ch, q, j, before, cache);
      assert ch in universe - seen && ch !in universe - (seen + {ch});
      var a, s, v, e := RecImp(c, base, q, acc + [q], seen + {ch}, visited + [ch]);
      ExplainsStable(host, roots, c, ch, r, mid, cache);
      KidsOfSuccess(host, roots, c, cache, ch, q);
      WalkedOne(host, roots, universe, c, cache, ch, q.build.imports, seen, visited, s, v, e.Some?);
      if e.Some? {
        return a, s, v, e;
      }
      ChildDone(acc, visited, q, ch, a, v, s);
      return a, s, v, None;
    }

    /** ImportDeps: `p` followed by one package per import path reachable
        from it, each path other than p's own and "C" visited once, in
        discovery order; the first failed import makes the whole call fail
        with its error. */
    method ImportDeps(p: Package) returns (res: Result<seq<Package>>, ghost visited: seq<string>)
      requires Valid()
      requires forall i | i in p.build.imports :: i in universe
      modifies this
      ensures Valid() && Extends(old(cache), cache)
      ensures NoDup(visited) && p.build.importPath !in visited && "C" !in visited
      ensures res.Success? ==>
        |res.value| == |visited| + 1 && res.value[0] == p
        && (forall i | 0 <= i < |visited| :: Explains(host, roots, p.context, visited[i], Success(res.value[i + 1]), cache))
        && (forall i | 0 <= i < |visited| :: exists j | 0 <= j <= i :: visited[i] in res.value[j].build.imports)
        && (forall q | q in res.value :: forall x | x in q.build.imports ::
              x in visited || x == p.build.importPath || x == "C")
      ensures res.Failure? ==>
        |visited| > 0
        && Explains(host, roots, p.context, visited[|visited| - 1], Failure(res.error), cache)
      ensures
        var d := Walked(host, roots, universe, p.context, cache, p.build.imports, {p.build.importPath, "C"}, []);
        visited == d.order && (res.Failure? <==> d.failed)
    {
      var base := {p.build.importPath, "C"};
      assert Walk(host, roots, p.context, base, [p], base, [], cache);
      var acc, seen, v, err := RecImp(p.context, base, p, [p], base, []);
      visited := v;
      if err.Some? {
        return Failure(err.value), visited;
      }
      assert acc[0] == acc[..1][0] == p;
      forall i | 0 <= i < |visited|
        ensures exists j | 0 <= j <= i :: visited[i] in acc[j].build.imports
      {
        assert FoundBy(acc, visited, i);
      }
      forall q | q in acc
        ensures forall x | x in q.build.imports :: x in visited || x == p.build.importPath || x == "C"
      {
        var k :| 0 <= k < |acc| && acc[k] == q;
      }
      res := Success(acc);
    }

    /** ImportRec: Import then ImportDeps, with the imported package first
        and then one package per path ImportDeps visited; an error is
        Import's or that of the path the walk stopped at. */
    method ImportRec(ctx: Option<Context>, path: string)
      returns (res: Result<seq<Package>>, ghost visited: seq<string>, ghost root: Option<Package>)
      requires Valid()
      modifies this
      ensures Valid() && Extends(old(cache), cache)
      ensures NoDup(visited)
      ensures res.Success? ==>
        |res.value| == |visited| + 1
        && Explains(host, roots, ResolveCtx(ctx), path, Success(res.value[0]), cache)
        && res.value[0].build.importPath !in visited && "C" !in visited
        && forall i | 0 <= i < |visited| :: Explains(host, roots, ResolveCtx(ctx), visited[i], Success(res.value[i + 1]), cache)
      ensures res.Success? ==>
        (forall i | 0 <= i < |visited| :: exists j | 0 <= j <= i :: visited[i] in res.value[j].build.imports)
        && (forall q | q in res.value :: forall x | x in q.build.imports ::
              x in visited || x == res.value[0].build.importPath || x == "C")
      ensures res.Success? ==> DepsWalk(host, roots, universe, ResolveCtx(ctx), cache, res.value[0], visited, false)
      ensures res.Failure? ==>
        Explains(host, roots, ResolveCtx(ctx), path, Failure(res.error), cache)
        || (|visited| > 0 && Explains(host, roots, ResolveCtx(ctx), visited[|visited| - 1], Failure(res.error), cache))
      ensures PlanImport(host, roots, old(cache), ResolveCtx(ctx), path).StepFail? ==>
        res == Failure(PlanImport(host, roots, old(cache), ResolveCtx(ctx), path).err) && cache == old(cache)
      ensures root.Some? <==> !PlanImport(host, roots, old(cache), ResolveCtx(ctx), path).StepFail?
      ensures res.Success? ==> root == Some(res.value[0])
      ensures root.Some? ==>
        Explains(host, roots, ResolveCtx(ctx), path, Success(root.value), cache)
        && DepsWalk(host, roots, universe, ResolveCtx(ctx), cache, root.value, visited, res.Failure?)
      ensures root.Some? && res.Failure? ==>
        |visited| > 0 && Explains(host, roots, ResolveCtx(ctx), visited[|visited| - 1], Failure(res.error), cache)
    {
      visited := [];
      var r := Import(ctx, path);
      if r.Failure? {
        return Failure(r.error), [], None;
      }
      root := Some(r.value);
      res, visited := ImportRecFrom(ctx, path, r.value);
    }

    /** The rest of ImportRec once `path` has imported as `pkg`: ImportDeps,
        then the package followed by its dependencies, or the walk's error. */
    method ImportRecFrom(ctx: Option<Context>, path: string, pkg: Package)
      returns (res: Result<seq<Package>>, ghost visited: seq<string>)
      requires Valid() && Explains(host, roots, ResolveCtx(ctx), path, Success(pkg), cache)
      requires pkg.context == ResolveCtx(ctx) && forall i | i in pkg.build.imports :: i in universe
      modifies this
      ensures Valid() && Extends(old(cache), cache)
      ensures NoDup(visited) && Explains(host, roots, ResolveCtx(ctx), path, Success(pkg), cache)
      ensures res.Success? ==>
        |res.value| == |visited| + 1 && res.value[0] == pkg
        && Explains(host, roots, ResolveCtx(ctx), path, Success(res.value[0]), cache)
        && res.value[0].build.importPath !in visited && "C" !in visited
        && forall i | 0 <= i < |visited| :: Explains(host, roots, ResolveCtx(ctx), visited[i], Success(res.value[i + 1]), cache)
      ensures res.Success? ==>
        (forall i | 0 <= i < |visited| :: exists j | 0 <= j <= i :: visited[i] in res.value[j].build.imports)
        && (forall q | q in res.value :: forall x | x in q.build.imports ::
              x in visited || x == res.value[0].build.importPath || x == "C")
      ensures res.Success? ==> DepsWalk(host, roots, universe, ResolveCtx(ctx), cache, res.value[0], visited, false)
      ensures res.Failure? ==>
        |visited| > 0 && Explains(host, roots, ResolveCtx(ctx), visited[|visited| - 1], Failure(res.error), cache)
      ensures DepsWalk(host, roots, universe, ResolveCtx(ctx), cache, pkg, visited, res.Failure?)
    {
      ghost var mid := cache;
      var deps, v := ImportDeps(pkg);
      visited := v;
      ExplainsStable(host, roots, ResolveCtx(ctx), path, Success(pkg), mid, cache);
      if deps.Failure? {
        return Failure(deps.error), visited;
      }
      RecResultFirst(pkg, deps.value);
      res := Success(RecResult(pkg, deps.value));
    }
  }

  /** The facts ImportDeps's walk keeps about the packages found so far:
      `acc` is the root followed by one package per visited path, each
      visited path is new, was marked seen, and is an import of a package
      found before it. */
  ghost predicate Walk(host: Host, roots: seq<string>, c: Context, base: set<string>, acc: seq<Package>,
                       seen: set<string>, visited: seq<string>, cache: map<Ident, Package>)
  {
    |acc| == |visited| + 1
    && NoDup(visited)
    && (forall x :: x in seen <==> x in base || x in visited)
    && (forall x | x in visited :: x !in base)
    && (forall i | 0 <= i < |visited| :: Explains(host, roots, c, visited[i], Success(acc[i + 1]), cache))
    && Discovered(acc, visited)
  }

  /** Each visited path is an import of a package found before it. */
  ghost predicate Discovered(acc: seq<Package>, visited: seq<string>)
    requires |acc| == |visited| + 1
  {
    forall i | 0 <= i < |visited| :: FoundBy(acc, visited, i)
  }

  /** The `i`-th visited path is imported by one of the first `i + 1`
      packages of the walk. */
  ghost predicate FoundBy(acc: seq<Package>, visited: seq<string>, i: nat)
    requires i < |visited| && |acc| == |visited| + 1
  {
    exists j | 0 <= j <= i :: visited[i] in acc[j].build.imports
  }

  /** The walk ended on a path whose import failed. */
  ghost predicate Failed(host: Host, roots: seq<string>, c: Context, base: set<string>, visited: seq<string>,
                         e: Error, cache: map<Ident, Package>)
  {
    |visited| > 0
    && Explains(host, roots, c, visited[|visited| - 1], Failure(e), cache)
    && (forall x | x in visited :: x !in base)
    && NoDup(visited)
  }

  // ---------------------------------------------------------------------
  // The order of recimp's walk

  /** An import graph: the import list of each path, or None for a path
      whose import fails. */
  type Graph = string -> Option<seq<string>>

  /** Every import list of the graph names paths of the universe. */
  ghost predicate GraphIn(g: Graph, universe: set<string>)
  {
    forall p, x | g(p).Some? && x in g(p).value :: x in universe
  }

  /** `big` gives every import list `g` gives. */
  ghost predicate Agrees(g: Graph, big: Graph)
  {
    forall p | g(p).Some? :: big(p) == g(p)
  }

  /** The outcome of a depth-first walk: the list of visited paths it
      ends with, the seen set it ends with, and whether it stopped at a
      failed path. */
  datatype Dfs = Dfs(order: seq<string>, seen: set<string>, failed: bool)

  /** recimp's walk over the import list `imps` of the graph `g`, from the
      seen set `seen` and the visited paths `order`: each path not yet seen
      is appended to the visited paths and its own imports are walked,
      before the next path of `imps`; a path without an import list is the
      failed import that ends the whole walk. */
  ghost function DepthFirst(universe: set<string>, g: Graph, imps: seq<string>, seen: set<string>, order: seq<string>): (r: Dfs)
    requires GraphIn(g, universe) && forall x | x in imps :: x in universe
    ensures seen <= r.seen
    decreases universe - seen, |imps|
  {
    if imps == [] then Dfs(order, seen, false)
    else
      var ch := imps[0];
      if ch in seen then DepthFirst(universe, g, imps[1..], seen, order)
      else
        match g(ch)
        case None => Dfs(order + [ch], seen + {ch}, true)
        case Some(kids) =>
          var sub := DepthFirst(universe, g, kids, seen + {ch}, order + [ch]);
          if sub.failed then sub
          else DepthFirst(universe, g, imps[1..], sub.seen, sub.order)
  }

  /** Walking two lists one after the other is walking their concatenation,
      the second not at all once the first has failed. */
  lemma {:induction false} DepthFirstAppend(universe: set<string>, g: Graph, a: seq<string>, b: seq<string>,
                                            seen: set<string>, order: seq<string>)
    requires GraphIn(g, universe) && (forall x | x in a :: x in universe) && (forall x | x in b :: x in universe)
    ensures
      var da := DepthFirst(universe, g, a, seen, order);
      DepthFirst(universe, g, a + b, seen, order) ==
        if da.failed then da else DepthFirst(universe, g, b, da.seen, da.order)
    decreases universe - seen, |a|
  {
    var ab := a + b;
    if a == [] {
      assert ab == b;
    } else {
      var ch := a[0];
      assert ab[0] == ch && ab[1..] == a[1..] + b;
      if ch in seen {
        DepthFirstAppend(universe, g, a[1..], b, seen, order);
      } else if g(ch).Some? {
        var sub := DepthFirst(universe, g, g(ch).value, seen + {ch}, order + [ch]);
        if !sub.failed {
          DepthFirstAppend(universe, g, a[1..], b, sub.seen, sub.order);
        }
      }
    }
  }

  /** A walk that did not fail only read import lists `g` gives, so a graph
      that agrees with `g` gives the same walk. */
  lemma {:induction false} DepthFirstStable(universe: set<string>, g: Graph, big: Graph,
                                            imps: seq<string>, seen: set<string>, order: seq<string>)
    requires GraphIn(g, universe) && GraphIn(big, universe) && Agrees(g, big)
    requires forall x | x in imps :: x in universe
    requires !DepthFirst(universe, g, imps, seen, order).failed
    ensures DepthFirst(universe, big, imps, seen, order) == DepthFirst(universe, g, imps, seen, order)
    decreases universe - seen, |imps|
  {
    if imps != [] {
      var ch := imps[0];
      if ch in seen {
        DepthFirstStable(universe, g, big, imps[1..], seen, order);
      } else {
        var kids := g(ch).value;
        DepthFirstStable(universe, g, big, kids, seen + {ch}, order + [ch]);
        var sub := DepthFirst(universe, g, kids, seen + {ch}, order + [ch]);
        DepthFirstStable(universe, g, big, imps[1..], sub.seen, sub.order);
      }
    }
  }

  /** A walk only appends to the visited paths it starts with, and a new
      first path of `imps` is the first path it appends. */
  lemma {:induction false} DepthFirstPrefix(universe: set<string>, g: Graph, imps: seq<string>, seen: set<string>, order: seq<string>)
    requires GraphIn(g, universe) && forall x | x in imps :: x in universe
    ensures
      var d := DepthFirst(universe, g, imps, seen, order);
      |order| <= |d.order| && d.order[..|order|] == order
      && (imps != [] && imps[0] !in seen ==> |order| < |d.order| && d.order[|order|] == imps[0])
    decreases universe - seen, |imps|
  {
    if imps != [] {
      var ch := imps[0];
      if ch in seen {
        DepthFirstPrefix(universe, g, imps[1..], seen, order);
      } else if g(ch).Some? {
        var o1 := order + [ch];
        var sub := DepthFirst(universe, g, g(ch).value, seen + {ch}, o1);
        DepthFirstPrefix(universe, g, g(ch).value, seen + {ch}, o1);
        assert sub.order[..|order|] == order && sub.order[|order|] == ch by {
          assert sub.order[..|o1|][..|order|] == order && sub.order[..|o1|][|order|] == ch;
        }
        if !sub.failed {
          var d := DepthFirst(universe, g, imps[1..], sub.seen, sub.order);
          DepthFirstPrefix(universe, g, imps[1..], sub.seen, sub.order);
          assert d.order[..|order|] == order && d.order[|order|] == ch by {
            assert d.order[..|sub.order|][..|order|] == sub.order[..|order|];
            assert d.order[..|sub.order|][|order|] == sub.order[|order|];
          }
        }
      }
    }
  }

  /** The paths a walk appends are new and distinct, and they are exactly
      what it adds to the seen set. */
  lemma {:induction false} DepthFirstNew(universe: set<string>, g: Graph, imps: seq<string>, seen: set<string>, order: seq<string>)
    requires GraphIn(g, universe) && forall x | x in imps :: x in universe
    requires NoDup(order) && forall x | x in order :: x in seen
    ensures
      var d := DepthFirst(universe, g, imps, seen, order);
      NoDup(d.order)
      && (forall k | |order| <= k < |d.order| :: d.order[k] !in seen)
      && (forall x :: x in d.seen <==> x in seen || x in d.order)
    decreases universe - seen, |imps|
  {
    var d := DepthFirst(universe, g, imps, seen, order);
    if imps != [] {
      var ch := imps[0];
      if ch in seen {
        DepthFirstNew(universe, g, imps[1..], seen, order);
      } else {
        NoDupAppend(order, ch);
        if g(ch).Some? {
          var o1 := order + [ch];
          var sub := DepthFirst(universe, g, g(ch).value, seen + {ch}, o1);
          DepthFirstNew(universe, g, g(ch).value, seen + {ch}, o1);
          DepthFirstPrefix(universe, g, g(ch).value, seen + {ch}, o1);
          assert sub.order[|order|] == ch by { assert sub.order[..|o1|][|order|] == ch; }
          if !sub.failed {
            DepthFirstNew(universe, g, imps[1..], sub.seen, sub.order);
            DepthFirstPrefix(universe, g, imps[1..], sub.seen, sub.order);
            forall k | |order| <= k < |sub.order| ensures d.order[k] == sub.order[k]
            {
              assert d.order[..|sub.order|][k] == sub.order[k];
            }
          }
        }
      }
    }
  }

  /** Every path a walk appends has an import list, except the last path
      of a failed walk, which has none. */
  lemma {:induction false} DepthFirstLast(universe: set<string>, g: Graph, imps: seq<string>, seen: set<string>, order: seq<string>)
    requires GraphIn(g, universe) && forall x | x in imps :: x in universe
    ensures
      var d := DepthFirst(universe, g, imps, seen, order);
      (d.failed ==> |d.order| > |order|)
      && forall k | |order| <= k < |d.order| :: g(d.order[k]).None? <==> d.failed && k == |d.order| - 1
    decreases universe - seen, |imps|
  {
    var d := DepthFirst(universe, g, imps, seen, order);
    if imps != [] {
      var ch := imps[0];
      if ch in seen {
        DepthFirstLast(universe, g, imps[1..], seen, order);
      } else if g(ch).None? {
        assert d.order == order + [ch];
      } else {
        var o1 := order + [ch];
        var sub := DepthFirst(universe, g, g(ch).value, seen + {ch}, o1);
        DepthFirstLast(universe, g, g(ch).value, seen + {ch}, o1);
        DepthFirstPrefix(universe, g, imps, seen, order);
        if !sub.failed {
          DepthFirstLast(universe, g, imps[1..], sub.seen, sub.order);
          DepthFirstPrefix(universe, g, imps[1..], sub.seen, sub.order);
          forall k | |o1| <= k < |sub.order| ensures g(d.order[k]).Some?
          {
            assert d.order[..|sub.order|][k] == sub.order[k];
          }
        }
      }
    }
  }

  /** A walk that did not fail saw every path of `imps` and every import
      of every path it appended: it is closed under the import relation. */
  lemma {:induction false} DepthFirstClosed(universe: set<string>, g: Graph, imps: seq<string>, seen: set<string>, order: seq<string>)
    requires GraphIn(g, universe) && forall x | x in imps :: x in universe
    requires !DepthFirst(universe, g, imps, seen, order).failed
    ensures
      var d := DepthFirst(universe, g, imps, seen, order);
      (forall x | x in imps :: x in d.seen)
      && forall k | |order| <= k < |d.order| ::
           g(d.order[k]).Some? && forall x | x in g(d.order[k]).value :: x in d.seen
    decreases universe - seen, |imps|
  {
    var d := DepthFirst(universe, g, imps, seen, order);
    if imps != [] {
      var ch := imps[0];
      if ch in seen {
        DepthFirstClosed(universe, g, imps[1..], seen, order);
      } else {
        var o1 := order + [ch];
        var sub := DepthFirst(universe, g, g(ch).value, seen + {ch}, o1);
        DepthFirstClosed(universe, g, g(ch).value, seen + {ch}, o1);
        DepthFirstClosed(universe, g, imps[1..], sub.seen, sub.order);
        DepthFirstPrefix(universe, g, imps, seen, order);
        DepthFirstPrefix(universe, g, imps[1..], sub.seen, sub.order);
        forall k | |o1| <= k < |sub.order| ensures d.order[k] == sub.order[k]
        {
          assert d.order[..|sub.order|][k] == sub.order[k];
        }
      }
    }
  }

  // The walk over the cache's import graph

  /** Every cached package's imports lie in the universe. */
  ghost predicate Bounded(cache: map<Ident, Package>, universe: set<string>)
  {
    forall k | k in cache :: forall i | i in cache[k].build.imports :: i in universe
  }

  /** The import list the cache holds for `path` under `c`, or None when
      `path` does not resolve or nothing is cached for it. */
  function Kids(host: Host, roots: seq<string>, c: Context, cache: map<Ident, Package>, path: string): Option<seq<string>>
  {
    match ToImport(host, roots, path)
    case Failure(_) => None
    case Success(loc) =>
      if Ident(c, loc.imp) in cache then Some(cache[Ident(c, loc.imp)].build.imports) else None
  }

  /** The cache's import graph under `c`. */
  ghost function CacheGraph(host: Host, roots: seq<string>, c: Context, cache: map<Ident, Package>): Graph
  {
    (p: string) => Kids(host, roots, c, cache, p)
  }

  /** The cache's import graph stays in the universe, and a larger cache's
      graph agrees with it. */
  lemma CacheGraphFacts(host: Host, roots: seq<string>, universe: set<string>, c: Context,
                        cache: map<Ident, Package>, bigger: map<Ident, Package>)
    ensures Bounded(cache, universe) ==> GraphIn(CacheGraph(host, roots, c, cache), universe)
    ensures Extends(cache, bigger) ==> Agrees(CacheGraph(host, roots, c, cache), CacheGraph(host, roots, c, bigger))
  {
    var g := CacheGraph(host, roots, c, cache);
    if Bounded(cache, universe) {
      forall p, x | g(p).Some? && x in g(p).value ensures x in universe
      {
        var loc := ToImport(host, roots, p).value;
        assert Ident(c, loc.imp) in cache;
      }
    }
  }

  /** recimp's walk over the cache's import graph. */
  ghost function Walked(host: Host, roots: seq<string>, universe: set<string>, c: Context, cache: map<Ident, Package>,
                        imps: seq<string>, seen: set<string>, order: seq<string>): Dfs
    requires Bounded(cache, universe) && forall x | x in imps :: x in universe
  {
    CacheGraphFacts(host, roots, universe, c, cache, cache);
    DepthFirst(universe, CacheGraph(host, roots, c, cache), imps, seen, order)
  }

  /** ImportDeps's walk from `p`: the paths visited from p's imports, with
      p's own path and "C" counted as seen, and whether the walk failed. */
  ghost predicate DepsWalk(host: Host, roots: seq<string>, universe: set<string>, c: Context,
                           cache: map<Ident, Package>, p: Package, visited: seq<string>, failed: bool)
  {
    Bounded(cache, universe) && (forall i | i in p.build.imports :: i in universe)
    && var d := Walked(host, roots, universe, c, cache, p.build.imports, {p.build.importPath, "C"}, []);
       visited == d.order && failed == d.failed
  }

  /** A walk over `imps` from (`seen`, `visited`) ended in (`seen'`,
      `visited'`) exactly as Walked says, failing exactly when it does. */
  ghost predicate WalkedAs(host: Host, roots: seq<string>, universe: set<string>, c: Context, cache: map<Ident, Package>,
                           imps: seq<string>, seen: set<string>, visited: seq<string>,
                           seen': set<string>, visited': seq<string>, failed: bool)
    requires Bounded(cache, universe) && forall x | x in imps :: x in universe
  {
    Walked(host, roots, universe, c, cache, imps, seen, visited) == Dfs(visited', seen', failed)
  }

  /** The cache's import list for a path it explains as a success is that
      package's. */
  lemma KidsOfSuccess(host: Host, roots: seq<string>, c: Context, cache: map<Ident, Package>, path: string, q: Package)
    requires Explains(host, roots, c, path, Success(q), cache)
    ensures Kids(host, roots, c, cache, path) == Some(q.build.imports)
  {
  }

  /** When Import fails nothing is cached for the path. */
  lemma KidsOfFailure(host: Host, roots: seq<string>, c: Context, cache: map<Ident, Package>, path: string)
    requires PlanImport(host, roots, cache, c, path).StepFail?
    ensures Kids(host, roots, c, cache, path) == None
  {
  }

  /** A new path whose cached imports were walked as Walked says, the path
      itself appended first, was itself walked as Walked says. */
  lemma WalkedOne(host: Host, roots: seq<string>, universe: set<string>, c: Context, cache: map<Ident, Package>,
                  ch: string, kids: seq<string>, seen: set<string>, visited: seq<string>,
                  seen': set<string>, visited': seq<string>, failed: bool)
    requires Bounded(cache, universe) && ch in universe && ch !in seen
    requires Kids(host, roots, c, cache, ch) == Some(kids)
    requires WalkedAs(host, roots, universe, c, cache, kids, seen + {ch}, visited + [ch], seen', visited', failed)
    ensures WalkedAs(host, roots, universe, c, cache, [ch], seen, visited, seen', visited', failed)
  {
    CacheGraphFacts(host, roots, universe, c, cache, cache);
    var g := CacheGraph(host, roots, c, cache);
    assert g(ch) == Some(kids);
    assert [ch][1..] == [];
    var sub := DepthFirst(universe, g, kids, seen + {ch}, visited + [ch]);
    if !sub.failed {
      assert DepthFirst(universe, g, [], sub.seen, sub.order) == sub;
    }
    assert DepthFirst(universe, g, [ch], seen, visited) == sub;
  }

  /** The walk of a path that is new and fails to import. */
  lemma WalkedFail(host: Host, roots: seq<string>, universe: set<string>, c: Context, cache: map<Ident, Package>,
                   ch: string, seen: set<string>, visited: seq<string>)
    requires Bounded(cache, universe) && ch in universe && ch !in seen
    requires Kids(host, roots, c, cache, ch) == None
    ensures WalkedAs(host, roots, universe, c, cache, [ch], seen, visited, seen + {ch}, visited + [ch], true)
  {
    CacheGraphFacts(host, roots, universe, c, cache, cache);
    assert CacheGraph(host, roots, c, cache)(ch) == None;
  }

  /** The walk of a path already seen adds nothing. */
  lemma WalkedSeen(host: Host, roots: seq<string>, universe: set<string>, c: Context, cache: map<Ident, Package>,
                   ch: string, seen: set<string>, visited: seq<string>)
    requires Bounded(cache, universe) && ch in universe && ch in seen
    ensures WalkedAs(host, roots, universe, c, cache, [ch], seen, visited, seen, visited, false)
  {
    CacheGraphFacts(host, roots, universe, c, cache, cache);
    var g := CacheGraph(host, roots, c, cache);
    assert [ch][1..] == [];
    assert DepthFirst(universe, g, [], seen, visited) == Dfs(visited, seen, false);
    assert DepthFirst(universe, g, [ch], seen, visited) == Dfs(visited, seen, false);
  }

  /** The walk of an empty list adds nothing. */
  lemma WalkedNone(host: Host, roots: seq<string>, universe: set<string>, c: Context, cache: map<Ident, Package>,
                   seen: set<string>, visited: seq<string>)
    requires Bounded(cache, universe)
    ensures WalkedAs(host, roots, universe, c, cache, [], seen, visited, seen, visited, false)
  {
  }

  /** One more import of recimp's list handled: the prefix walked so far,
      followed by the walk of the next import, is the walk of the longer
      prefix, and of the whole list once it has failed. */
  lemma WalkedNext(host: Host, roots: seq<string>, universe: set<string>, c: Context,
                   before: map<Ident, Package>, after: map<Ident, Package>,
                   imps: seq<string>, i: nat, seen: set<string>, visited: seq<string>,
                   sMid: set<string>, vMid: seq<string>, s: set<string>, v: seq<string>, failed: bool)
    requires Bounded(before, universe) && Bounded(after, universe) && Extends(before, after)
    requires i < |imps| && forall x | x in imps :: x in universe
    requires WalkedAs(host, roots, universe, c, before, imps[..i], seen, visited, sMid, vMid, false)
    requires WalkedAs(host, roots, universe, c, after, [imps[i]], sMid, vMid, s, v, failed)
    ensures WalkedAs(host, roots, universe, c, after, imps[..i + 1], seen, visited, s, v, failed)
    ensures failed ==> WalkedAs(host, roots, universe, c, after, imps, seen, visited, s, v, true)
  {
    CacheGraphFacts(host, roots, universe, c, before, after);
    CacheGraphFacts(host, roots, universe, c, after, after);
    var g1, g2 := CacheGraph(host, roots, c, before), CacheGraph(host, roots, c, after);
    DepthFirstStable(universe, g1, g2, imps[..i], seen, visited);
    assert imps[..i + 1] == imps[..i] + [imps[i]];
    DepthFirstAppend(universe, g2, imps[..i], [imps[i]], seen, visited);
    if failed {
      assert imps == imps[..i + 1] + imps[i + 1..];
      DepthFirstAppend(universe, g2, imps[..i + 1], imps[i + 1..], seen, visited);
    }
  }

  /** The lists only grew at their ends. */
  predicate Grown(acc: seq<Package>, visited: seq<string>, acc': seq<Package>, visited': seq<string>)
  {
    |acc| <= |acc'| && acc'[..|acc|] == acc && |visited| <= |visited'| && visited'[..|visited|] == visited
  }

  /** Every import of the packages from index `from` on has been seen. */
  predicate Closed(acc: seq<Package>, from: nat, seen: set<string>)
  {
    forall k | from <= k < |acc| :: forall x | x in acc[k].build.imports :: x in seen
  }

  lemma WalkStable(host: Host, roots: seq<string>, c: Context, base: set<string>, acc: seq<Package>,
                   seen: set<string>, visited: seq<string>, cache: map<Ident, Package>, bigger: map<Ident, Package>)
    requires Walk(host, roots, c, base, acc, seen, visited, cache) && Extends(cache, bigger)
    ensures Walk(host, roots, c, base, acc, seen, visited, bigger)
  {
    forall i | 0 <= i < |visited|
      ensures Explains(host, roots, c, visited[i], Success(acc[i + 1]), bigger)
    {
      ExplainsStable(host, roots, c, visited[i], Success(acc[i + 1]), cache, bigger);
    }
  }

  lemma NoDupAppend(visited: seq<string>, ch: string)
    requires NoDup(visited) && ch !in visited
    ensures NoDup(visited + [ch])
  {
    assert forall k | 0 <= k < |visited| :: (visited + [ch])[k] == visited[k];
  }

  /** A failed import of a new path ends the walk in a failed state. */
  lemma FailedAt(host: Host, roots: seq<string>, c: Context, base: set<string>, acc: seq<Package>,
                 seen: set<string>, visited: seq<string>, ch: string, e: Error,
                 before: map<Ident, Package>, after: map<Ident, Package>)
    requires Walk(host, roots, c, base, acc, seen, visited, before)
    requires ch !in seen
    requires Explains(host, roots, c, ch, Failure(e), after)
    ensures Failed(host, roots, c, base, visited + [ch], e, after)
  {
    NoDupAppend(visited, ch);
  }

  /** Appending a newly imported path keeps the walk's facts. */
  lemma WalkGrows(host: Host, roots: seq<string>, c: Context, base: set<string>, acc: seq<Package>,
                  seen: set<string>, visited: seq<string>, ch: string, q: Package, j: nat,
                  before: map<Ident, Package>, after: map<Ident, Package>)
    requires Walk(host, roots, c, base, acc, seen, visited, before) && Extends(before, after)
    requires ch !in seen
    requires j < |acc| && ch in acc[j].build.imports
    requires Explains(host, roots, c, ch, Success(q), after)
    ensures Walk(host, roots, c, base, acc + [q], seen + {ch}, visited + [ch], after)
  {
    WalkStable(host, roots, c, base, acc, seen, visited, before, after);
    NoDupAppend(visited, ch);
    var acc2, vis2 := acc + [q], visited + [ch];
    forall i | 0 <= i < |vis2|
      ensures Explains(host, roots, c, vis2[i], Success(acc2[i + 1]), after)
    {
      if i < |visited| {
        assert vis2[i] == visited[i] && acc2[i + 1] == acc[i + 1];
      } else {
        assert vis2[i] == ch && acc2[i + 1] == q;
      }
    }
    DiscoveredGrows(acc, visited, q, ch, j);
  }

  /** A path discovered by one of the packages found so far stays
      discovered once appended. */
  lemma DiscoveredGrows(acc: seq<Package>, visited: seq<string>, q: Package, ch: string, j: nat)
    requires |acc| == |visited| + 1 && Discovered(acc, visited)
    requires j < |acc| && ch in acc[j].build.imports
    ensures Discovered(acc + [q], visited + [ch])
  {
    var acc2, vis2 := acc + [q], visited + [ch];
    forall i | 0 <= i < |vis2|
      ensures FoundBy(acc2, vis2, i)
    {
      if i < |visited| {
        assert FoundBy(acc, visited, i);
        var k :| 0 <= k <= i && visited[i] in acc[k].build.imports;
        assert vis2[i] == visited[i] && acc2[k] == acc[k];
        assert vis2[i] in acc2[k].build.imports;
      } else {
        assert vis2[i] == ch && acc2[j] == acc[j];
        assert vis2[i] in acc2[j].build.imports;
      }
    }
    assert Discovered(acc2, vis2);
  }

  /** After a child's own walk, the walk facts hold from the parent's
      list on. */
  lemma ChildDone(acc: seq<Package>, visited: seq<string>, q: Package, ch: string,
                  a: seq<Package>, v: seq<string>, s: set<string>)
    requires Grown(acc + [q], visited + [ch], a, v)
    requires forall x | x in q.build.imports :: x in s
    requires Closed(a, |acc| + 1, s)
    ensures Grown(acc, visited, a, v) && Closed(a, |acc|, s)
  {
    assert a[..|acc|] == acc by { assert a[..|acc| + 1][..|acc|] == (acc + [q])[..|acc|]; }
    assert v[..|visited|] == visited by { assert v[..|visited| + 1][..|visited|] == (visited + [ch])[..|visited|]; }
    assert a[|acc|] == q by { assert a[..|acc| + 1][|acc|] == (acc + [q])[|acc|]; }
  }

  /** Growing twice is growing once. */
  lemma GrownTrans(acc: seq<Package>, visited: seq<string>, acc0: seq<Package>, vis0: seq<string>,
                   a: seq<Package>, v: seq<string>, seen0: set<string>, s: set<string>)
    requires Grown(acc, visited, acc0, vis0) && Closed(acc0, |acc|, seen0)
    requires Grown(acc0, vis0, a, v) && seen0 <= s && Closed(a, |acc0|, s)
    ensures Grown(acc, visited, a, v) && Closed(a, |acc|, s)
  {
    assert a[..|acc|] == acc by { assert a[..|acc0|][..|acc|] == acc0[..|acc|]; }
    assert v[..|visited|] == visited by { assert v[..|vis0|][..|visited|] == vis0[..|visited|]; }
    forall k | |acc| <= k < |acc0|
      ensures a[k] == acc0[k]
    {
      assert a[..|acc0|][k] == acc0[k];
    }
  }

  /** importdir's scan of a listing: the sub-directories in order, and
      whether a regular file ends in ".go". */
  method ScanEntries(es: seq<Entry>) returns (hasGoFiles: bool, subdirs: seq<Entry>)
    ensures hasGoFiles == HasGoFiles(es)
    ensures subdirs == DirsOf(es)
  {
    hasGoFiles, subdirs := false, [];
    for i := 0 to |es|
      invariant subdirs == DirsOf(es[..i])
      invariant hasGoFiles <==> HasGoFiles(es[..i])
    {
      assert es[..i + 1] == es[..i] + [es[i]];
      DirsOfAppend(es[..i], es[i]);
      if es[i].Dir? {
        subdirs := subdirs + [es[i]];
      } else if HasSuffix(es[i].name, ".go") {
        hasGoFiles := true;
      }
      assert HasGoFiles(es[..i + 1]) <==> HasGoFiles(es[..i]) || (es[i].File? && HasSuffix(es[i].name, ".go"));
    }
    assert es[..|es|] == es;
  }

  lemma {:induction false} DirsOfAppend(es: seq<Entry>, e: Entry)
    ensures DirsOf(es + [e]) == DirsOf(es) + (if e.Dir? then [e] else [])
  {
    if es == [] {
      assert [e][1..] == [];
      assert DirsOf([e]) == (if e.Dir? then [e] else []) + DirsOf([]);
    } else {
      var head := if es[0].Dir? then [es[0]] else [];
      var tail := if e.Dir? then [e] else [];
      assert (es + [e])[0] == es[0] && (es + [e])[1..] == es[1..] + [e];
      DirsOfAppend(es[1..], e);
      assert DirsOf(es + [e]) == head + (DirsOf(es[1..]) + tail);
      assert DirsOf(es) == head + DirsOf(es[1..]);
    }
  }

  lemma PlanEntriesStep(host: Host, dir: string, ds: seq<Entry>, j: nat, below: seq<Visit>)
    requires j < |ds| && ds[j].Dir?
    requires below == Plan(host, JoinPath(host, dir, ds[j].name), ds[j].listing)
    ensures PlanEntries(host, dir, ds[..j + 1]) == PlanEntries(host, dir, ds[..j]) + below
  {
    PlanEntriesAppend(host, dir, ds[..j], ds[j]);
    assert ds[..j + 1] == ds[..j] + [ds[j]];
  }

  lemma {:induction false} PlanEntriesAppend(host: Host, dir: string, es: seq<Entry>, e: Entry)
    ensures PlanEntries(host, dir, es + [e]) ==
      PlanEntries(host, dir, es) + (if e.Dir? then Plan(host, JoinPath(host, dir, e.name), e.listing) else [])
  {
    if es == [] {
      assert PlanEntries(host, dir, [e]) == (if e.Dir? then Plan(host, JoinPath(host, dir, e.name), e.listing) else []) + PlanEntries(host, dir, []);
    } else {
      assert (es + [e])[1..] == es[1..] + [e];
      PlanEntriesAppend(host, dir, es[1..], e);
    }
  }
}
