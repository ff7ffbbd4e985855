/** The parts of go/build the library relies on: a build context, which is
    compared by pointer, and the metadata of a loaded package. */
module GoBuild {

  /** A *build.Context.  Its fields are constant: a context must not be
      changed once it has been used with the library, because packages are
      cached under the context pointer. */
  class Context {
    const buildTags: seq<string>
    const goos: string
    const goarch: string

    constructor (buildTags: seq<string>, goos: string, goarch: string)
      ensures this.buildTags == buildTags && this.goos == goos && this.goarch == goarch
    {
      this.buildTags := buildTags;
      this.goos := goos;
      this.goarch := goarch;
    }

    /** The settings the loader reads from the context. */
    function Settings(): BuildSettings
    {
      BuildSettings(buildTags, goos, goarch)
    }
  }

  /** The contents of a context, as a value. */
  datatype BuildSettings = BuildSettings(buildTags: seq<string>, goos: string, goarch: string)

  /** The fields of a *build.Package the library reads. */
  datatype PkgMeta = PkgMeta(
    importPath: string,
    name: string,
    dir: string,
    goFiles: seq<string>,
    imports: seq<string>,
    goroot: bool)
}
