/** tag.go: the full list of tags a build context satisfies. */
module Tags {
  import opened GoBuild
  import opened TagParse

  /** TagsOf: the context's extra build tags, then GOOS, then GOARCH. */
  function TagsOf(c: Context): (r: seq<string>)
    ensures |r| == |c.buildTags| + 2
    ensures r[..|c.buildTags|] == c.buildTags
    ensures r[|r| - 2] == c.goos && r[|r| - 1] == c.goarch
  {
    c.buildTags + [c.goos, c.goarch]
  }

  /** Under TagsOf(c) a tag holds exactly when it is one of the context's
      build tags, its GOOS or its GOARCH; so GOOS and GOARCH always hold. */
  lemma TagsOfMatch(c: Context, name: string)
    ensures Match(ATag(name), TagsOf(c)) <==> name in c.buildTags || name == c.goos || name == c.goarch
    ensures Match(NegTag(name), TagsOf(c)) <==> !(name in c.buildTags || name == c.goos || name == c.goarch)
  {
    var r := TagsOf(c);
    assert forall i | 0 <= i < |c.buildTags| :: r[i] == c.buildTags[i];
    if name in r {
      var i :| 0 <= i < |r| && r[i] == name;
      if i < |c.buildTags| { assert c.buildTags[i] == name; }
    }
  }
}
