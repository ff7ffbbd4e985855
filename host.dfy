/** The operating system, path/filepath, go/build's loader, go/parser and
    go/doc, as oracles.  Every oracle is a fixed function of its arguments:
    the file system does not change while the library runs. */
module Oracles {
  import opened Wrappers
  import opened GoBuild
  import opened Ast
  import opened TagParse

  /** What os.Stat reports: failure, or whether the entry is a directory. */
  datatype FileInfo = FileInfo(isDir: bool)

  /** A directory as ioutil.ReadDir lists it, with every sub-directory's own
      listing: an error (and no entries), or the entries in name order. */
  datatype Listing = Unreadable(error: Error) | Entries(entries: seq<Entry>)
  datatype Entry = File(name: string) | Dir(name: string, listing: Listing)

  /** A *doc.Package, opaque apart from its import path. */
  datatype DocPackage = DocPackage(importPath: string, text: string)

  datatype Host = Host(
    getwd: Result<string>,                                       // os.Getwd
    stat: string -> Result<FileInfo>,                            // os.Stat
    clean: string -> string,                                     // filepath.Clean
    abs: string -> Result<string>,                               // filepath.Abs
    base: string -> string,                                      // filepath.Base
    dir: string -> string,                                       // filepath.Dir
    tree: string -> Listing,                                     // ioutil.ReadDir, recursively
    load: (BuildSettings, string, string) -> Result<PkgMeta>,    // ctx.Import(path, srcDir, 0)
    open: string -> Result<Reader>,                              // os.Open
    parseDir: (string, set<string>, bool) -> Result<map<string, AstPackage>>,  // parser.ParseDir
    docNew: (AstPackage, string, int) -> DocPackage)             // doc.New

  /** filepath.Separator on the platforms modelled. */
  const Separator := "/"

  /** isdir: false whenever stat fails, else whether the entry is a
      directory. */
  predicate IsDir(host: Host, path: string)
  {
    match host.stat(path)
    case Failure(_) => false
    case Success(fi) => fi.isDir
  }

  /** filepath.Join of two elements: the non-empty ones joined with the
      separator, then cleaned; empty when both are. */
  function JoinPath(host: Host, a: string, b: string): string
  {
    if a == "" && b == "" then ""
    else if a == "" then host.clean(b)
    else if b == "" then host.clean(a)
    else host.clean(a + Separator + b)
  }
}
