/**
 * The configuration service: it stores the git ref and branch that the file
 * service resolves files against, after checking that the repository exists.
 *
 * The existence check's HTTP GET is the parameter `probe`, true when the GET
 * of the URL succeeds with status 200; binding the JSON request body is the
 * parameter `body`, `None` when the body does not bind.
 */
module InitApi {
  import opened Wrappers

  const GithubPrefix := "https://github.com/"
  const DefaultBranchName := "master"

  /** An empty branch means the default branch. */
  function DefaultBranch(branch: string): (b: string)
    ensures b != ""
    ensures branch != "" ==> b == branch
    ensures branch == "" ==> b == DefaultBranchName
  {
    if branch == "" then DefaultBranchName else branch
  }

  /**
   * `checkIfRepoExists`: whether `probe` accepts the tree page of the branch,
   * with the same default as `CheckOutRef` for an empty branch.
   */
  function CheckIfRepoExists(repo: string, branch: string, probe: string -> bool): (ok: bool)
    ensures ok == probe(GithubPrefix + repo + "/tree/" + DefaultBranch(branch))
  {
    var b := if branch == "" then DefaultBranchName else branch;
    probe(GithubPrefix + repo + "/tree/" + b)
  }

  /** The request body of `initApi`. */
  datatype StartPoint = StartPoint(ref: string, branch: string)

  /** The reply of `initApi`: a message on success, an error otherwise. */
  datatype Reply = Message(message: string) | Error(error: string)

  const InvalidJson := "Invalid json"
  const RepoMissing := "Repo or branch does not exist"

  /** The package variables `GitRef` and `Branch`. */
  class Service {
    var gitRef: string
    var branch: string

    /** Go's zero values: nothing configured yet. */
    constructor ()
      ensures gitRef == "" && branch == ""
    {
      gitRef := "";
      branch := "";
    }

    /** `CheckOutRef`: store the clone URL of `path` and the branch, defaulting to "master". */
    method CheckOutRef(path: string, branch: string)
      modifies this
      ensures gitRef == GithubPrefix + path + ".git"
      ensures this.branch == DefaultBranch(branch)
      ensures this.branch != "" && gitRef != ""
    {
      gitRef := GithubPrefix + path + ".git";
      var b := branch;
      if b == "" {
        b := DefaultBranchName;
      }
      this.branch := b;
    }

    /**
     * `initApi`: the state changes only when the body binds and the
     * repository exists, and then the stored branch is the one probed.
     */
    method InitApi(body: Option<StartPoint>, probe: string -> bool) returns (reply: Reply)
      modifies this
      ensures body.None? ==> reply == Error(InvalidJson) && unchanged(this)
      ensures body.Some? && !CheckIfRepoExists(body.value.ref, body.value.branch, probe) ==>
        reply == Error(RepoMissing) && unchanged(this)
      ensures body.Some? && CheckIfRepoExists(body.value.ref, body.value.branch, probe) ==>
        && reply == Message("success")
        && gitRef == GithubPrefix + body.value.ref + ".git"
        && branch == DefaultBranch(body.value.branch)
        && probe(GithubPrefix + body.value.ref + "/tree/" + branch)
    {
      if body.Some? {
        var details := body.value;
        if CheckIfRepoExists(details.ref, details.branch, probe) {
          CheckOutRef(details.ref, details.branch);
          reply := Message("success");
        } else {
          reply := Error(RepoMissing);
        }
      } else {
        reply := Error(InvalidJson);
      }
    }

    /** `getApiData`: the stored ref and branch, read without change. */
    method GetApiData() returns (gitRef: string, branch: string)
      ensures gitRef == this.gitRef && branch == this.branch
    {
      gitRef, branch := this.gitRef, this.branch;
    }
  }
}
