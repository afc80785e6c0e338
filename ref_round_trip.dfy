/**
 * The ref format connects the two services: the configuration service
 * stores `https://github.com/<path>.git` and the file service takes it apart
 * by splitting on '/'.
 */
module RefRoundTrip {
  import opened Strings
  import GithubApi
  import InitApi

  /**
   * The ref that `CheckOutRef` stores for `path`: the GitHub prefix, then the
   * path itself, then the ".git" suffix.
   */
  function StoredRef(path: string): (r: string)
    ensures |r| == |InitApi.GithubPrefix| + |path| + 4
    ensures r[..|InitApi.GithubPrefix|] == InitApi.GithubPrefix
    ensures r[|InitApi.GithubPrefix|..|r| - 4] == path
    ensures r[|r| - 4..] == ".git"
  {
    InitApi.GithubPrefix + path + ".git"
  }

  /** A join of four pieces, written out. */
  lemma JoinFour(a: string, b: string, c: string, d: string, sep: char)
    ensures Join([a, b, c, d], sep) == a + [sep] + b + [sep] + c + [sep] + d
  {
    assert [a, b, c, d][1..] == [b, c, d];
    assert [b, c, d][1..] == [c, d];
    assert [c, d][1..] == [d];
    var cd := c + [sep] + d;
    assert Join([c, d], sep) == cd;
    var bcd := b + [sep] + cd;
    assert Join([b, c, d], sep) == bcd;
    assert Join([a, b, c, d], sep) == a + [sep] + bcd;
    assert b + [sep] + cd == b + [sep] + c + [sep] + d;
    assert a + [sep] + (b + [sep] + c + [sep] + d) == a + [sep] + b + [sep] + c + [sep] + d;
  }

  /** The fixed start of every stored ref, as the pieces it splits into. */
  lemma PrefixPieces(rest: string)
    ensures InitApi.GithubPrefix + rest == Join(["https:", "", "github.com", rest], '/')
  {
    JoinFour("https:", "", "github.com", rest, '/');
    var pre := "https:" + "/" + "" + "/" + "github.com" + "/";
    assert pre == InitApi.GithubPrefix;
  }

  /** The GitHub prefix followed by `owner/seg` splits into five pieces. */
  lemma PrefixedSplit(owner: string, seg: string)
    requires '/' !in owner && '/' !in seg
    ensures Split(InitApi.GithubPrefix + (owner + "/" + seg), '/') == ["https:", "", "github.com", owner, seg]
  {
    var tail := owner + "/" + seg;
    PrefixPieces(tail);
    var four := ["https:", "", "github.com", tail];
    assert Split(tail, '/') == [owner, seg] by {
      SplitAtSeparator(owner, seg, '/');
      SplitWithoutSeparator(seg, '/');
    }
    assert Join(four, '/') == "https:" + "/" + Join(four[1..], '/');
    assert Join(four[1..], '/') == "" + "/" + Join(four[2..], '/');
    SplitAtSeparator("https:", Join(four[1..], '/'), '/');
    SplitAtSeparator("", Join(four[2..], '/'), '/');
    assert Join(four[2..], '/') == "github.com" + "/" + tail;
    SplitAtSeparator("github.com", tail, '/');
  }

  /** The ref stored for `owner/name` splits into five pieces: the owner is piece 3, `name.git` piece 4. */
  lemma StoredRefSegments(owner: string, name: string)
    requires '/' !in owner && '/' !in name
    ensures Split(StoredRef(owner + "/" + name), '/') == ["https:", "", "github.com", owner, name + ".git"]
  {
    assert '/' !in name + ".git";
    assert StoredRef(owner + "/" + name) == InitApi.GithubPrefix + (owner + "/" + (name + ".git"));
    PrefixedSplit(owner, name + ".git");
  }

  /**
   * Round trip: a ref stored for `owner/name` with a branch resolves, for
   * every file, to the raw URL of that owner, name, stored branch and file.
   */
  lemma StoredRefResolves(owner: string, name: string, branch: string, fileName: string)
    requires '/' !in owner && '/' !in name
    ensures GithubApi.SliceInBounds(StoredRef(owner + "/" + name), InitApi.DefaultBranch(branch))
    ensures GithubApi.ParseUrl(StoredRef(owner + "/" + name), InitApi.DefaultBranch(branch), fileName)
         == GithubApi.ReturnObject(
              GithubApi.RawPrefix + owner + "/" + name + "/" + InitApi.DefaultBranch(branch) + "/" + fileName, "")
  {
    StoredRefSegments(owner, name);
    var seg := name + ".git";
    assert seg[..|seg| - 4] == name;
  }

  /** A path without an owner gives a ref of only four pieces, which the file service rejects. */
  lemma OwnerlessRefRejected(name: string, branch: string, fileName: string)
    requires '/' !in name
    ensures GithubApi.SliceInBounds(StoredRef(name), InitApi.DefaultBranch(branch))
    ensures GithubApi.ParseUrl(StoredRef(name), InitApi.DefaultBranch(branch), fileName)
         == GithubApi.HandleError(GithubApi.InvalidRef)
  {
    var parts := ["https:", "", "github.com", name + ".git"];
    assert StoredRef(name) == InitApi.GithubPrefix + (name + ".git");
    PrefixPieces(name + ".git");
    assert '/' !in name + ".git";
    SplitJoin(parts, '/');
  }

  /**
   * The hand-over between the services: after `CheckOutRef` of `owner/name`,
   * the ref and branch that `getApiData` reports resolve every file name.
   */
  method ResolveAfterCheckOut(owner: string, name: string, branch: string, fileName: string)
    returns (url: GithubApi.ReturnObject)
    requires '/' !in owner && '/' !in name
    ensures url == GithubApi.ReturnObject(
      GithubApi.RawPrefix + owner + "/" + name + "/" + InitApi.DefaultBranch(branch) + "/" + fileName, "")
  {
    var store := new InitApi.Service();
    store.CheckOutRef(owner + "/" + name, branch);
    var gitRef, storedBranch := store.GetApiData();
    StoredRefResolves(owner, name, branch, fileName);
    url := GithubApi.ParseUrl(gitRef, storedBranch, fileName);
  }

  /** Before any configuration, the file service answers every file with the not-initialized error. */
  method ResolveUnconfigured(fileName: string) returns (url: GithubApi.ReturnObject)
    ensures url == GithubApi.HandleError(GithubApi.NotInitialized)
  {
    var store := new InitApi.Service();
    var gitRef, storedBranch := store.GetApiData();
    url := GithubApi.ParseUrl(gitRef, storedBranch, fileName);
  }
}
