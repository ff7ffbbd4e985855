# goutil: the package-import engine and the build-tag machinery

This project models the core of `goutil`, a Go library that turns directories and
import paths into `*Package` values and caches them. It models:

- **Resolving and caching imports.** `ToImport` resolves a path against the
  normalised source roots. `Import` keeps a process-wide cache keyed by the
  context *pointer* and the import path; on a miss it asks `go/build`'s loader
  and stores a new package.
- **Walking trees and dependencies.** `importdir`/`ImportTree`/`ImportAll` walk
  directory trees in pre-order. They keep going past errors and keep the first
  one. `ImportDeps`/`recimp`/`ImportRec` compute the transitive dependency
  closure with a shared seen-set, and abort on the first failed import.
- **Build tags.** The `// +build` scanner and parser build a constraint tree
  (`atag`, `negtag`, `andtag`, `ortag`) with its `match`. The test file's printer
  `tagfmt`, its comparison `tagcmp` and its `te`/`ebt` tables are modelled too.
- **The `Package` object.** Its lazily filled syntax tree, documentation and
  per-file constraints, and the choice of files by tag.
- **List utilities.** Filters over package lists (`packages.go`) and over
  declarations (`ast.go`), `TagsOf`, and the command-line dispatcher of
  `gocli/import.go`.

Modules:

- One module per source file: `Importing`, `GoPath`, `TagParse`, `TagFormat`
  (the test helpers), `Pkg`, `PackageList`, `Ast`, `Tags` and `GoCli`.
- Shared support modules:
  - `Wrappers`: `Option`, `Result` and the library's errors.
  - `Strs`: the pieces of `strings`/`bytes` used.
  - `Seqs`: filters, first-match search and concatenation.
  - `GoBuild`: build contexts and package metadata.
  - `Oracles`: the operating system and the standard packages as functions.

Stateful code is written as it is in Go:

- The cache is a `map` field of an `Importer` object, which `Import` updates.
- A package is a `Package` object whose `Parse`, `ParseDocs` and `ParseTags`
  fill its fields.
- The root list is normalised in place in an array by `Init`.
- The walks are methods with loops and recursion. They are proved against
  specification functions:
  - `Plan`, the pre-order list of visits of a directory tree.
  - `PlanImport`, the step `Import` takes for a given cache.
  - `Explains`, what an import result means for a later cache.
  - `Walk`, the facts `recimp` keeps.
  - `DepthFirst`, the pre-order depth-first walk `recimp` makes over an import graph, here the graph the cache gives.
- `recimp` terminates because the loader's import lists lie in a finite
  universe of paths (`LoaderBounded`). The set of unseen paths shrinks with
  each new visit.

`ImportAll`'s documentation says it returns the first error. The code as written
never returns one. The model records the code as written and then uses the
evident intent; see Findings. The same holds for two other places.

## Model

| member | source | states |
|---|---|---|
| `GoPath.Init` | gopath.go:13-19 | every root becomes its cleaned form followed by the separator, in place, so every root ends with the separator |
| `GoPath.ToImport` | gopath.go:41-69 | a successful resolution returns one of the roots, and the path to resolve (the working directory for "" and ".") was obtained |
| `GoPath.ToImportWorkingDir` | gopath.go:42-49 | "" and "." resolve the cleaned working directory, and a failure of `Getwd` is the result |
| `GoPath.ToImportFirstRoot` | gopath.go:53-59 | the first root in list order that is a prefix of the cleaned path and a directory wins, and root followed by import path gives back the path |
| `GoPath.ToImportFirstHolder` | gopath.go:61-66 | when no root contains the path, the first root under which the path names a directory wins, with the path itself as import path |
| `GoPath.ToImportNotFound` | gopath.go:42-68 | when neither pass matches, the error names the argument, with "." for "" |
| `GoPath.ToImportSound` | gopath.go:52-66 | every answer comes from one of the two passes: a containing root with root + import path == path, or a holding root with the path unchanged |
| `Tags.TagsOf` | tag.go:9-11 | the result has length len(BuildTags) + 2, starts with the build tags in order, then GOOS, then GOARCH |
| `Tags.TagsOfMatch` | tag.go:9-11 | under TagsOf(c) a tag holds exactly when it is a build tag, GOOS or GOARCH, and its negation exactly when it is none of them |
| `TagParse.HeaderMeaning` | tagparse.go:12-18 | the header is the trimmed lines up to the first line that, trimmed, starts with "package ", which is excluded |
| `TagParse.HeaderDone` | tagparse.go:12-18 | lines collected up to a package clause or the end of input are the header |
| `TagParse.ReadUntilPackage` | tagparse.go:9-23 | the loop returns the header lines, or the reader's error when the scan fails before a package clause |
| `TagParse.BuildRunEnd` | tagparse.go:30-41 | a run of build lines stops at the first line without "+build " |
| `TagParse.BuildRunAt` | tagparse.go:31-40 | each collected element is the trimmed text after the first "+build " of the line at the same index |
| `TagParse.BuildLinesFirstRun` | tagparse.go:26-43 | what is collected is the run that starts at the first build line, and nothing when there is none |
| `TagParse.ExtractBuildTags` | tagparse.go:26-43 | the loop returns the tails of the first contiguous run of build lines, joined by single spaces |
| `TagParse.Parse1AllFails` | tagparse.go:120-126 | parsing tokens fails exactly when one of them is empty (the index-out-of-range case) |
| `TagParse.ParseAndFails` | tagparse.go:107-118 | parseAnd fails exactly when a comma-separated part is empty, as with ",," |
| `TagParse.ParseOrFails` | tagparse.go:92-105 | parseOr of "" is nil; otherwise it fails exactly when some space- or comma-separated token is empty |
| `TagParse.MatchMeaning` | tagparse.go:51-86 | atag holds iff its name is set; negtag is its negation; andtag holds iff every term holds (the empty one does); ortag holds iff some term holds (the empty one does not) |
| `TagParse.MatchAllMeaning` | tagparse.go:68-75 | andtag's loop returns true exactly when every term matches |
| `TagParse.MatchAnyMeaning` | tagparse.go:79-86 | ortag's loop returns true exactly when some term matches |
| `TagParse.ParseTags` | tagparse.go:128-137 | parseTags is parseOr of the joined build lines of the header; it fails with the reader's error when reading fails, or with `EmptyTagToken` where parse1 would panic on an empty token |
| `TagFormat.Parse1Format` | tagparse.go:120-126 | a token without separators that parse1 accepts prints back as itself, as a plain or negated tag |
| `TagFormat.ParseAndFormat` | tagparse.go:107-118 | a parseAnd result prints back as its input and is a token or a conjunction of two or more tokens |
| `TagFormat.FormatAndParse` | tagparse.go:107-118 | parseAnd reads back any token or conjunction of two or more tokens from its printed form |
| `TagFormat.ParseOrFormat` | tagparse_test.go:126-152 | tagfmt(parseOr(s)) == s whenever parseOr accepts s, and parseOr builds only canonical trees |
| `TagFormat.FormatParse` | tagparse_test.go:126-152 | parseOr(tagfmt(t)) == t for every canonical tree; with ParseOrFormat, printing is a bijection between accepted inputs and canonical trees |
| `TagFormat.CmpIsEquality` | tagparse_test.go:82-124 | tagcmp on non-nil tags holds exactly when the trees are equal, term by term and in order |
| `TagFormat.CmpAllIsEquality` | tagparse_test.go:93-119 | the length check and term loop of tagcmp hold exactly when the term lists are equal |
| `TagFormat.TagCmpIsEquality` | tagparse_test.go:77-124 | tagcmp holds exactly on equal tags, nil equal only to nil |
| `TagFormat.TeTag` | tagparse_test.go:159 | parseOr("tag") is atag("tag") |
| `TagFormat.TeNegTag` | tagparse_test.go:160 | parseOr("!tag") is negtag("tag") |
| `TagFormat.TeOr` | tagparse_test.go:161 | parseOr("a b") is ortag{a, b} |
| `TagFormat.TeOr3` | tagparse_test.go:162 | parseOr("a b c") is ortag{a, b, c} |
| `TagFormat.TeAnd` | tagparse_test.go:163 | parseOr("a,b") is andtag{a, b} |
| `TagFormat.TeAnd3` | tagparse_test.go:164 | parseOr("a,b,c") is andtag{a, b, c} |
| `TagFormat.TeOrOfAnd` | tagparse_test.go:165 | parseOr("a b,c") is ortag{a, andtag{b, c}} |
| `TagFormat.TeAndInOr` | tagparse_test.go:166 | parseOr("a,b c") is ortag{andtag{a, b}, c} |
| `TagFormat.TeNegated` | tagparse_test.go:167-173 | parseOr("a,!b !c,d") is ortag{andtag{a, !b}, andtag{!c, d}} |
| `TagFormat.TeRow` | tagparse_test.go:176-185 | parseOr reads back any canonical tree from its printed form, for each non-empty row of the table |
| `TagFormat.NotBuildLine` | tagparse.go:31-36 | a line without '+' is not a build line |
| `TagFormat.BuildComment` | tagparse.go:31-40 | "// +build " followed by a word is a build line whose tail is the word |
| `TagFormat.EbtOnly` | tagparse_test.go:39-42 | a lone "// +build w" line yields w |
| `TagFormat.EbtBlankAfter` | tagparse_test.go:43-49 | a text line, a build line and two blank lines yield the build line's word |
| `TagFormat.EbtTextAfter` | tagparse_test.go:50-54 | a build line followed by a text line yields its word |
| `TagFormat.EbtTextAround` | tagparse_test.go:55-60 | a build line between two text lines yields its word |
| `TagFormat.EbtTwoLines` | tagparse_test.go:61-64 | two consecutive build lines yield "a b", their words joined by a space |
| `Strs.IndexOfFirst` | tagparse.go:31 | bytes.Index gives the first occurrence, and -1 exactly when there is none |
| `Strs.JoinSplit` | tagparse.go:88-90 | joining the pieces of a split with the separator gives back the input |
| `Strs.SplitJoin` | tagparse.go:88-90 | splitting a join of pieces without the separator gives back the pieces |
| `Strs.TrimSpaceWindow` | tagparse.go:13 | the trimmed line is a window of the line with only white space on either side |
| `Seqs.Filter` | packages.go:51-58 | the result is an order-preserving sub-sequence that keeps every element satisfying f as often as it occurs, and no other element |
| `PackageList.NoStdlib` | packages.go:64-68 | keeps exactly the packages not from GOROOT, in order and with their multiplicity |
| `PackageList.HasFilesMatching` | packages.go:74-78 | keeps exactly the packages with a file whose constraint holds under the tags, in order |
| `PackageList.Parse` | packages.go:14-21 | with no error every package is parsed; on an error, the packages before the first failing one are parsed, that one's parser error is returned, and it and later packages are unchanged |
| `PackageList.ParseDocs` | packages.go:26-33 | the same first-error loop over the documentation, leaving syntax trees and tags unchanged |
| `PackageList.ParseTags` | packages.go:38-45 | the same first-error loop over the tag maps: earlier packages get their maps, the failing one and later ones keep theirs |
| `Pkg.ReadFileTag` | package.go:36-43 | opening a file and running parseTags on it gives the file's constraint or the open or read error |
| `Pkg.TagIndexMeaning` | package.go:33-51 | on success the map holds exactly the files that have a constraint, each with its own; failure happens exactly when a file fails, with the first failing file's error |
| `Pkg.Package.constructor` | import.go:78-81 | a new package has the context and the loaded metadata, and nothing parsed |
| `Pkg.Package.ParseTags` | package.go:33-51 | on success the tag map is replaced by the one built from the Go files; on an error it is unchanged; the tree and the documentation are untouched |
| `Pkg.Package.FilesMatching` | package.go:58-68 | nothing for no tags; otherwise exactly the files in the tag map whose constraint holds, each once, in map-iteration order |
| `Pkg.Package.FilesMatchingNonEmpty` | package.go:58-68 | whether any file matches does not depend on the map's iteration order |
| `Pkg.Package.ASTFilesMatching` | package.go:75-80 | one entry per matching file, in the same order, each that file's syntax tree (missing when the tree lacks the file) |
| `Pkg.Package.Parse` | package.go:119-131 | a no-op once the tree is set; otherwise the tree is the parser's package of the expected name, or the error is returned and the tree stays unset; so it parses at most once |
| `Pkg.Package.ParseDocs` | package.go:146-156 | a no-op once the documentation is set; otherwise it is doc.New of a fresh parse with comments, or the parse error is returned and it stays unset |
| `Ast.Decls` | ast.go:15-29 | keeps every function declaration and every non-import general declaration of every file, and nothing else; the result is each file's kept declarations in turn, files in range order and each file's in its own order |
| `Ast.DeclsOfConcat` | ast.go:16-27 | the outer loop over the files appends, file after file, the inner loop's kept declarations of that file |
| `Ast.DeclsOfSound` | ast.go:16-26 | every kept declaration is a top-level declaration of one of the files |
| `Ast.DeclsOfComplete` | ast.go:16-26 | every top-level declaration of every file is kept |
| `Ast.Funcs` | ast.go:32-39 | the order-preserving sub-sequence of exactly the function declarations |
| `Ast.GenDecls` | ast.go:41-50 | the order-preserving sub-sequence of exactly the general declarations with the given token |
| `Ast.TokenFiltersDisjoint` | ast.go:52-65 | Types, Consts and Vars share no declaration |
| `Ast.DupDecl` | ast.go:67-76 | the copy holds exactly the one spec and keeps the doc, token and positions |
| `Ast.SplitSpec` | ast.go:90-108 | every declaration made from one spec has exactly one spec and the outer header |
| `Ast.SplitSpecPieces` | ast.go:91-107 | a value spec with several names and as many values gives one declaration per name, the i-th holding exactly the i-th name and the i-th value with the spec's doc, type and comment; any other value spec, and a type spec, is one declaration holding the spec unchanged under the header; an import spec gives nothing |
| `Ast.SplitGenPieces` | ast.go:90-109 | the loop over a declaration's specs emits each spec's pieces in turn, in spec order |
| `Ast.SplitSpecsPieces` | ast.go:87-115 | the result is each input declaration's pieces in turn, in order: the split of its specs for a general declaration, the declaration itself otherwise |
| `Ast.SplitSpecs` | ast.go:87-115 | every emitted general declaration holds one spec and copies the header of an input declaration; other declarations pass through, and none is lost |
| `Ast.SplitSpecsKeepsNames` | ast.go:87-115 | the names declared after splitting are those declared before, in the same order |
| `Ast.PrefixMatch` | ast.go:128-130 | MatchString holds iff the prefix is a prefix of the string, character by character |
| `Ast.Named` | ast.go:136-165 | the order-preserving sub-sequence of exactly the declarations one of whose names matches |
| `Ast.NamedCases` | ast.go:138-161 | a function declaration is kept iff its name matches; a bad declaration or an import list never is |
| `Importing.PlanImportToImportFails` | import.go:63-66 | a ToImport failure is Import's result, whatever the cache holds |
| `Importing.PlanImportRepeat` | import.go:68-84 | after a load is stored, importing the same path again returns the stored package, and a hit stays the same hit as the cache grows |
| `Importing.PlanImportIsolation` | import.go:11-14 | an entry stored under one context pointer never affects another, even one with the same contents |
| `Importing.PlanImportHitSkipsLoader` | import.go:68-71 | on a hit the loader is not consulted: any loader gives the same step |
| `Importing.Importer.constructor` | import.go:16-20 | the cache starts empty |
| `Importing.Importer.MakeContext` | import.go:27-35 | no tags returns the default context itself; otherwise a fresh context with the default's build tags followed by the given ones, and the same GOOS and GOARCH |
| `Importing.Importer.Import` | import.go:59-85 | a nil context is the default one; a ToImport or loader failure is returned and the cache is unchanged; a hit returns the cached package; a load adds exactly one entry, a new package with that context and metadata, recorded as loaded for `path` so the importer's invariant (every entry is the loader's package for a path resolving to its key) is kept |
| `Importing.CacheLoadedAdd` | import.go:73-82 | storing the package built from the loader's answer for `path` under its new key keeps every cache entry a loaded one |
| `Importing.CacheLoadedHit` | import.go:68-71 | a cache hit returns the package Import built from the loader's answer for a path resolving to the same key, under the same context |
| `Importing.PlanSelfFirst` | import.go:128-144 | a listed directory is tried exactly when it has a regular ".go" file, and before anything below it |
| `Importing.PlanEntriesCoversSubdirs` | import.go:146-148 | every sub-directory's whole walk is part of its parent's, whatever happened to the parent |
| `Importing.ScanEntries` | import.go:120-135 | the loop collects the sub-directories in listing order and finds whether a regular file ends in ".go" |
| `Importing.Importer.ImportDir` | import.go:119-149 | there is one outcome per visit of the pre-order walk; the accumulator gains the successful packages in walk order; the first error is kept once set |
| `Importing.Importer.ImportSubdirs` | import.go:146-148 | the loop walks each sub-directory in turn, and the outcomes are those of the sub-directories' walks concatenated |
| `Importing.Importer.ImportTree` | import.go:92-101 | the error of making the root absolute, or the successes and the first error of the walk of the absolute root |
| `Importing.Importer.ImportAll` | import.go:108-117 | each root's ImportTree result in order, the packages concatenated and the first error of the roots kept |
| `Importing.CombineFirst` | import.go:108-117 | folding the trees' errors with Combine gives the first of them |
| `Importing.Importer.RecImp` | import.go:170-182 | every import of the package ends up seen; paths new to the walk are visited once each and each explains its package; the visited list and seen set are exactly those of the pre-order depth-first walk `DepthFirst` of the package's imports over the cache's import graph, and the first failed import ends the walk with its error |
| `Importing.Importer.VisitNew` | import.go:171-181 | one turn of the loop: the i-th import ends up seen, and the walk so far is DepthFirst of the first i + 1 imports, or of all of them once it has failed |
| `Importing.Importer.Visit` | import.go:172-180 | an unseen import is marked, imported, appended and recursed into, or its failure ends the walk; either way the outcome is DepthFirst of the one-element list holding it |
| `Importing.Importer.ImportDeps` | import.go:154-168 | the result starts with p, and each path other than p's own and "C" is visited at most once, by an import of a package found before it; every import of every package is covered; any failed import fails the call with the last visited path's error; the visited paths are exactly DepthFirst's order from p's imports with p's path and "C" seen, and the call fails exactly when that walk does |
| `Importing.Importer.ImportRec` | import.go:186-198 | the imported package comes first, then one package per visited path, each found by an import of a package before it, with every import of every package covered; whenever the path itself imports (the ghost `root`), the visited paths are exactly DepthFirst's order from its imports and the call fails exactly when that walk fails, with the last visited path's error; otherwise the error is Import's and the cache is unchanged |
| `Importing.Importer.ImportRecFrom` | import.go:192-197 | after the package is imported: ImportDeps's walk from it, then the package followed by its dependencies, or the error of the path where the walk failed |
| `Importing.DepthFirstAppend` | import.go:171-181 | walking two import lists in turn is walking their concatenation, and the second is not walked once the first has failed |
| `Importing.DepthFirstStable` | import.go:172-179 | a walk that did not fail reads only import lists already present, so a larger cache gives the same walk |
| `Importing.DepthFirstPrefix` | import.go:172-178 | a walk only appends to the visited list, and an unseen first import is the first path appended, before anything it imports (pre-order) |
| `Importing.DepthFirstNew` | import.go:172-173 | the appended paths were unseen and are distinct, and the seen set grows by exactly them |
| `Importing.DepthFirstLast` | import.go:174-177 | every appended path imported successfully, except the last one of a failed walk, which is the one that failed |
| `Importing.DepthFirstClosed` | import.go:171-181 | after a walk that did not fail every listed import is seen, and every appended path's imports are seen too |
| `Importing.CacheGraphFacts` | import.go:63-71 | the import graph read through ToImport and the cache stays within the universe, and a larger cache agrees with it on every path it has |
| `Importing.KidsOfSuccess` | import.go:63-84 | a path Import explains as a success has that package's imports as its import list in the graph |
| `Importing.KidsOfFailure` | import.go:63-76 | a path whose Import fails has no import list in the graph |
| `Importing.WalkedOne` | import.go:172-179 | marking and appending a new path and then walking its imports is the walk of that path |
| `Importing.WalkedFail` | import.go:172-177 | a new path whose import fails is appended and ends the walk as failed |
| `Importing.WalkedSeen` | import.go:172 | a path already seen is skipped: the walk adds nothing |
| `Importing.WalkedNext` | import.go:171-181 | the walk of the first i imports followed by that of the next is the walk of the first i + 1, and of the whole list once it has failed |
| `Importing.DiscoveredGrows` | import.go:171-178 | a path appended because a package already found imports it keeps every visited path discovered by an earlier package |
| `Importing.RecordAsWrittenAppendsNil` | import.go:139-143 | as written, a second failing directory appends a nil package |
| `Importing.RecordMeaning` | import.go:137-144 | the intended handling appends exactly the success and keeps the first error |
| `Importing.ImportAllAsWrittenNeverFails` | import.go:109-116 | as written, ImportAll reports no error whatever its trees report |
| `Importing.RecResultAsWrittenDuplicates` | import.go:197 | as written, the root package is listed first and second |
| `Importing.RecResultFirst` | import.go:184-197 | the intended result starts with the package and lists every package as often as ImportDeps does |
| `GoCli.Imports` | gocli/import.go:12-18 | a one-element list on success, or no list and the error on failure |
| `GoCli.CliImport` | gocli/import.go:30-55 | with no arguments, one list from importing ""; otherwise one list per argument in order; the errors are exactly the failed arguments' errors, in order |
| `GoCli.ImportArg` | gocli/import.go:43-53 | a "..." argument is refused when trees are not allowed and is otherwise ImportTree of its directory; any other argument is one import |
| `GoCli.ErrorsOfFirst` | gocli/import.go:31-36 | the collected errors are empty exactly when no argument failed, and their first is the first failing argument's error |
| `GoCli.FirstError` | gocli/import.go:59-64 | the lists are returned unchanged; the error is nil iff there are no errors, else the first |
| `GoCli.FirstErrorOfImport` | gocli/import.go:57-64 | applied to Import's results, FirstError reports the error of the first argument that failed |
| `GoCli.ImportOne` | gocli/import.go:76-85 | more than one argument is refused before anything is imported; otherwise the one list Import produced, or its error |
| `GoCli.Flatten` | gocli/import.go:68-73 | the lists concatenated in order, then passed to Uniq |

## Left out

- The mutex around the cache (import.go:18, 37-47) and any concurrency. `pkgget` and `pkgset` are plain reads and updates of the `cache` field.
- The operating system and the standard packages are modelled as fixed functions of their arguments, fields of `Host`. This covers `os.Getwd`, `os.Stat`, `os.Open`, `ioutil.ReadDir`, `filepath.Clean/Abs/Base/Dir`, `ctx.Import`, `parser.ParseDir` and `doc.New`. The file system does not change while the library runs.
- `filepath.Join` is written out for two elements on the Unix separator "/".
- `build.Default.SrcDirs()` is not modelled; `Init` takes the root list as an array.
- The loader reads a context's build tags, GOOS and GOARCH (`BuildSettings`); no other field of a context is modelled.
- `recimp`'s termination rests on a finite universe of import paths that bounds every import list the loader can produce (`LoaderBounded`). This is a ghost assumption about the loader.
- Go's map iteration order (over `p.tags` and `p.AST.Files`) is a parameter `order` that lists every key once.
- The panic of `parse1` on an empty token is the error `EmptyTagToken`. The panic/recover inside `ImportDeps` is an error result.
- `bufio.Scanner` is modelled as the lines it yields and the error that ends the scan. How buffering splits long lines, and when exactly a read error surfaces, are not modelled.
- File `Close` is not modelled.
- `TagsOf` (tag.go:10) and Importing.Importer.MakeContext (import.go:33) return fresh lists. The aliasing of `append` with the context's own `BuildTags` backing array, which the two results may share, is not modelled.
- Strings are sequences of characters, while the tag scanner and parser work on byte slices (tagparse.go:13, 31, 122). Every separator they look for ("+build ", "package ", space, comma, "!") is ASCII, so the split points are the same.
- Importing.Importer.RecImp, Importing.Importer.VisitNew, Importing.Importer.ImportDeps and Importing.Importer.ImportRec: the depth-first order is stated over the import graph of the cache as it is when the walk ends. A walk that did not fail only reads entries already present earlier (`DepthFirstStable`), so this is the graph the loop saw.
- Pkg.Package.ParseDocs: the replacement of the documentation string by an ignored file of package `documentation` (package.go:157-193), and its error, are not modelled. That code depends on real parsing and does not use its loop variable.
- `Packages.Uniq` is not part of this model. `GoCli.Flatten` takes it as a parameter.
- Importing.Importer.ImportDeps, Importing.Importer.ImportRec, Importing.Importer.ImportDir, Importing.Importer.ImportTree, Importing.Importer.ImportAll and GoCli.CliImport: the list of visited paths, ImportRec's imported package `root` and the log of outcomes that their contracts speak about are ghost outputs. Which path each cache entry was loaded for (`loadedFrom`) is ghost state of the importer.
- TagFormat.EbtOnly, TagFormat.EbtBlankAfter, TagFormat.EbtTextAfter, TagFormat.EbtTextAround and TagFormat.EbtTwoLines: each states its `ebt` row for any word in place of `test`, `a` and `b`, and any line without `+` in place of the text lines.
- The `tm` table of tagparse_test.go is empty, so it has no row.
- TagParse.ReadUntilPackage returns the lines themselves rather than byte slices of the scanner's buffer.

## Findings

| source | as written | input that shows it | evidently intended | confidence | as-written member | corrected member |
|---|---|---|---|---|---|---|
| import.go:139-143 | when Import fails after the first error has been recorded, the `else` branch appends the nil package to the result | a tree with two directories holding Go files whose imports both fail: the second appends nil | append a package only when its import succeeded | not executed; high | `Importing.RecordAsWrittenAppendsNil` (on `RecordAsWritten`) | `Importing.RecordMeaning` (on `Record`, used by `Importing.Importer.ImportDir`) |
| import.go:111 | `if first != nil { first = err }` copies the error only when one is already set, and none ever is | any root whose ImportTree fails: ImportAll still returns a nil error | keep the first error of the roots, as the comment at import.go:106-107 says | not executed; high | `Importing.ImportAllAsWrittenNeverFails` (on `FoldAsWritten`) | `Importing.CombineFirst` (on `Combine`, used by `Importing.Importer.ImportAll`) |
| import.go:197 | the package is prepended to ImportDeps's list, which already starts with it | any path that imports without error: the result is [pkg, pkg, deps...] | the package first, once, as the comment at import.go:184-185 says | not executed; medium | `Importing.RecResultAsWrittenDuplicates` (on `RecResultAsWritten`) | `Importing.RecResultFirst` (on `RecResult`, used by `Importing.Importer.ImportRec`) |
