/**
 * The file service: resolving a file name against the configured ref and
 * branch, classifying the outcome of fetching it, and hashing an ordered
 * list of files.
 *
 * The network is the parameter `net`, which gives the outcome of one GET of
 * a URL; SHA-256 with hexadecimal formatting is the parameter `hash`. The
 * per-file goroutines of `hashFiles` are whole-task steps run in the order
 * given by `order`, a permutation of the file indices.
 */
module GithubApi {
  import opened Wrappers
  import opened Strings

  /** Go's `returnObject`: an empty `error` means success. */
  datatype ReturnObject = ReturnObject(value: string, error: string) {
    predicate Failed() { error != "" }
  }

  /** `handleError`: a failure carries no value, and it counts as one exactly when its message is non-empty. */
  function HandleError(error: string): (r: ReturnObject)
    ensures r.value == "" && r.error == error
    ensures r.Failed() <==> error != ""
  {
    ReturnObject("", error)
  }

  const NotInitialized := "the gitRef or branch is not initialized"
  const InvalidRef := "The github ref is invalid"
  const RawPrefix := "https://raw.githubusercontent.com/"
  const RequestFailed := "The request failed"
  const NotFoundBody := "404: Not Found"
  const FileNotFound := "file not found"

  /** The package variables `GitRef` and `Branch` as one snapshot. */
  datatype Config = Config(gitRef: string, branch: string)

  /**
   * The slice `details[4][:len(details[4])-4]` is in bounds whenever the code
   * reaches it; otherwise the Go code panics.
   */
  predicate SliceInBounds(gitRef: string, branch: string) {
    gitRef != "" && branch != "" && |Split(gitRef, '/')| >= 5 ==> |Split(gitRef, '/')[4]| >= 4
  }

  /** `parseUrl`: the raw-content URL of `fileName` under `gitRef` and `branch`. */
  function ParseUrl(gitRef: string, branch: string, fileName: string): (r: ReturnObject)
    requires SliceInBounds(gitRef, branch)
    ensures r.Failed() <==> gitRef == "" || branch == "" || |Split(gitRef, '/')| < 5
    ensures gitRef == "" || branch == "" ==> r == HandleError(NotInitialized)
    ensures gitRef != "" && branch != "" && |Split(gitRef, '/')| < 5 ==> r == HandleError(InvalidRef)
    ensures !r.Failed() ==>
      var details := Split(gitRef, '/');
      r.value == RawPrefix + details[3] + "/" + details[4][..|details[4]| - 4] + "/" + branch + "/" + fileName
  {
    if gitRef == "" || branch == "" then HandleError(NotInitialized)
    else
      var details := Split(gitRef, '/');
      if |details| < 5 then HandleError(InvalidRef)
      else
        var repoName := details[3];
        var branchName := details[4][..|details[4]| - 4];
        ReturnObject(RawPrefix + repoName + "/" + branchName + "/" + branch + "/" + fileName, "")
  }

  /**
   * What one GET of a URL produced: a transport error, or a body together
   * with the error (if any) that reading it ended with.
   */
  datatype Response = TransportError | Body(body: string, readError: Option<string>)

  /** The classification in `request` of one fetch outcome. */
  function Request(resp: Response): (r: ReturnObject)
    ensures resp.TransportError? ==> r == HandleError(RequestFailed)
    ensures resp.Body? && resp.body == NotFoundBody ==> r == HandleError(FileNotFound)
    ensures resp.Body? && resp.body != NotFoundBody && resp.readError.Some? ==>
      r == HandleError(resp.readError.value)
    ensures resp.Body? && resp.body != NotFoundBody && resp.readError.None? ==>
      r == ReturnObject(resp.body, "")
  {
    match resp
    case TransportError => HandleError(RequestFailed)
    case Body(body, readError) =>
      if body == NotFoundBody then HandleError(FileNotFound)
      else if readError.Some? then HandleError(readError.value)
      else ReturnObject(body, "")
  }

  /** A successful classification hands back exactly the body that was read. */
  lemma RequestSucceeds(resp: Response)
    ensures !Request(resp).Failed() <==>
      resp.Body? && resp.body != NotFoundBody && (resp.readError.None? || resp.readError == Some(""))
    ensures !Request(resp).Failed() && resp.readError.None? ==> Request(resp).value == resp.body
    ensures Request(resp).Failed() ==> Request(resp).value == ""
  {
  }

  /** `getFileContent`: resolve the file, then fetch and classify it. */
  function GetFileContent(cfg: Config, net: string -> Response, fileName: string): (r: ReturnObject)
    requires SliceInBounds(cfg.gitRef, cfg.branch)
    ensures ParseUrl(cfg.gitRef, cfg.branch, fileName).Failed() ==>
      r == HandleError(ParseUrl(cfg.gitRef, cfg.branch, fileName).error)
    ensures !ParseUrl(cfg.gitRef, cfg.branch, fileName).Failed() ==>
      r == Request(net(ParseUrl(cfg.gitRef, cfg.branch, fileName).value))
  {
    var url := ParseUrl(cfg.gitRef, cfg.branch, fileName);
    if url.error != "" then HandleError(url.error)
    else Request(net(url.value))
  }

  /**
   * A resolution error reaches the caller unchanged and no fetch takes place:
   * the result is the same whatever the network would have answered.
   */
  lemma ResolutionErrorSkipsFetch(cfg: Config, net1: string -> Response, net2: string -> Response, fileName: string)
    requires SliceInBounds(cfg.gitRef, cfg.branch)
    requires ParseUrl(cfg.gitRef, cfg.branch, fileName).Failed()
    ensures GetFileContent(cfg, net1, fileName) == GetFileContent(cfg, net2, fileName)
    ensures GetFileContent(cfg, net1, fileName).error in {NotInitialized, InvalidRef}
  {
  }

  /** `getFileContent` under a fixed configuration, as one function of the file name. */
  function FileContents(cfg: Config, net: string -> Response): (fetch: string -> ReturnObject)
    requires SliceInBounds(cfg.gitRef, cfg.branch)
    ensures forall file :: fetch(file) == GetFileContent(cfg, net, file)
  {
    file => GetFileContent(cfg, net, file)
  }

  // ---------------------------------------------------------------------
  // The aggregate hash
  // ---------------------------------------------------------------------

  /** The shared state of one `hashFiles` call: the recorded error and the slots. */
  datatype Tasks = Tasks(recorded: string, slots: seq<string>)

  /** Whether fetching `file` succeeds. */
  predicate Fetches(fetch: string -> ReturnObject, file: string)
  {
    !fetch(file).Failed()
  }

  /** One whole run of `hashFile(file, index, …)`. */
  function HashFileStep(fetch: string -> ReturnObject, hash: string -> string,
                        file: string, index: nat, st: Tasks): (t: Tasks)
    requires index < |st.slots|
    ensures |t.slots| == |st.slots|
    ensures st.recorded != "" ==> t.recorded == st.recorded
    ensures forall j :: 0 <= j < |st.slots| && j != index ==> t.slots[j] == st.slots[j]
  {
    if st.recorded != "" then st
    else
      var content := fetch(file);
      if content.error != "" then Tasks(content.error, st.slots)
      else Tasks(st.recorded, st.slots[index := hash(content.value)])
  }

  /**
   * What one task does: with an error already recorded it does nothing; a
   * failed fetch records that message and leaves every slot alone; a
   * successful one clears nothing and writes only the task's own slot.
   */
  lemma HashFileStepEffect(fetch: string -> ReturnObject, hash: string -> string,
                           file: string, index: nat, st: Tasks)
    requires index < |st.slots|
    ensures var t := HashFileStep(fetch, hash, file, index, st);
      && (st.recorded != "" ==> t == st)
      && (st.recorded == "" && !Fetches(fetch, file) ==> t.recorded == fetch(file).error && t.slots == st.slots)
      && (st.recorded == "" && Fetches(fetch, file) ==>
            t.recorded == "" && t.slots[index] == hash(fetch(file).value)
            && forall j :: 0 <= j < |st.slots| && j != index ==> t.slots[j] == st.slots[j])
  {
  }

  /**
   * The state after the tasks for the indices in `order` have run one after
   * the other, starting from a cleared error and `len(files)` empty slots.
   */
  function Execute(fetch: string -> ReturnObject, hash: string -> string,
                   files: seq<string>, order: seq<nat>): (st: Tasks)
    requires forall k :: 0 <= k < |order| ==> order[k] < |files|
    ensures |st.slots| == |files|
    decreases |order|
  {
    if |order| == 0 then Tasks("", seq(|files|, _ => ""))
    else
      var last := order[|order| - 1];
      HashFileStep(fetch, hash, files[last], last, Execute(fetch, hash, files, order[..|order| - 1]))
  }

  /** The slots joined in index order, as the loop over `arrayOfHashes` builds `sumHush`. */
  function Concat(parts: seq<string>): (r: string)
    ensures |r| == SumLengths(parts)
    ensures |parts| > 0 ==> r[|r| - |parts[|parts| - 1]|..] == parts[|parts| - 1]
    decreases |parts|
  {
    if |parts| == 0 then "" else Concat(parts[..|parts| - 1]) + parts[|parts| - 1]
  }

  /** The end of `hashFiles`: a recorded error wins over the slots. */
  function Finish(hash: string -> string, st: Tasks): (r: ReturnObject)
    ensures r.error == st.recorded
    ensures r.Failed() ==> r.value == ""
    ensures !r.Failed() ==> r.value == hash(Concat(st.slots))
  {
    if st.recorded != "" then HandleError(st.recorded)
    else ReturnObject(hash(Concat(st.slots)), "")
  }

  /** `order` runs every index of a list of `n` files exactly once. */
  predicate IsSchedule(order: seq<nat>, n: nat) {
    && |order| == n
    && (forall k :: 0 <= k < n ==> order[k] < n)
    && (forall j :: 0 <= j < n ==> j in order)
    && (forall k, l :: 0 <= k < l < n ==> order[k] != order[l])
  }

  /** The result of `hashFiles(files)` when its tasks run in the order `order`. */
  function ScheduledHash(fetch: string -> ReturnObject, hash: string -> string,
                         files: seq<string>, order: seq<nat>): (r: ReturnObject)
    requires IsSchedule(order, |files|)
    ensures r.error == Execute(fetch, hash, files, order).recorded
    ensures r.Failed() ==> r.value == ""
    ensures |files| == 0 ==> r == ReturnObject(hash(""), "")
  {
    Finish(hash, Execute(fetch, hash, files, order))
  }

  /** The per-file digests, in index order. */
  function FileDigests(fetch: string -> ReturnObject, hash: string -> string,
                       files: seq<string>): (ds: seq<string>)
    ensures |ds| == |files|
  {
    seq(|files|, i requires 0 <= i < |files| => hash(fetch(files[i]).value))
  }

  /** The messages of the files whose fetch fails. */
  function FailureMessages(fetch: string -> ReturnObject, files: seq<string>): set<string>
  {
    set i | 0 <= i < |files| && !Fetches(fetch, files[i]) :: fetch(files[i]).error
  }

  /**
   * The error the tasks of `order` leave behind: none exactly when all of
   * them fetched, and otherwise the error of the first failing task in
   * execution order.
   */
  lemma {:induction false} ExecuteError(fetch: string -> ReturnObject, hash: string -> string,
                                         files: seq<string>, order: seq<nat>)
    requires forall k :: 0 <= k < |order| ==> order[k] < |files|
    ensures var st := Execute(fetch, hash, files, order);
      (st.recorded == "" <==> forall k :: 0 <= k < |order| ==> Fetches(fetch, files[order[k]]))
    ensures var st := Execute(fetch, hash, files, order);
      st.recorded != "" ==>
        exists k :: 0 <= k < |order| && !Fetches(fetch, files[order[k]])
          && (forall m :: 0 <= m < k ==> Fetches(fetch, files[order[m]]))
          && st.recorded == fetch(files[order[k]]).error
    decreases |order|
  {
    if |order| > 0 {
      var n := |order| - 1;
      var prefix := order[..n];
      ExecuteError(fetch, hash, files, prefix);
      var before := Execute(fetch, hash, files, prefix);
      assert forall k :: 0 <= k < n ==> prefix[k] == order[k];
      if before.recorded != "" {
        var k :| 0 <= k < n && !Fetches(fetch, files[prefix[k]])
          && (forall m :: 0 <= m < k ==> Fetches(fetch, files[prefix[m]]))
          && before.recorded == fetch(files[prefix[k]]).error;
        assert !Fetches(fetch, files[order[k]]);
      }
    }
  }

  /**
   * The slots the tasks of `order` leave behind while no error is recorded:
   * every slot that ran holds its file's digest and every other slot is
   * still empty.
   */
  lemma {:induction false} ExecuteSlots(fetch: string -> ReturnObject, hash: string -> string,
                                         files: seq<string>, order: seq<nat>)
    requires forall k :: 0 <= k < |order| ==> order[k] < |files|
    ensures var st := Execute(fetch, hash, files, order);
      st.recorded == "" ==>
        forall j :: 0 <= j < |files| ==>
          st.slots[j] == if j in order then FileDigests(fetch, hash, files)[j] else ""
    decreases |order|
  {
    if |order| > 0 {
      var n := |order| - 1;
      var prefix := order[..n];
      ExecuteSlots(fetch, hash, files, prefix);
      assert forall j :: j in order <==> j in prefix || j == order[n];
    }
  }

  /** Once an error is recorded, the remaining tasks change nothing and fetch nothing. */
  lemma {:induction false} RecordedErrorFreezesState(fetch: string -> ReturnObject, hash: string -> string,
                                                      files: seq<string>, order: seq<nat>, k: nat)
    requires forall i :: 0 <= i < |order| ==> order[i] < |files|
    requires k <= |order|
    requires Execute(fetch, hash, files, order[..k]).recorded != ""
    ensures Execute(fetch, hash, files, order) == Execute(fetch, hash, files, order[..k])
    decreases |order|
  {
    if k < |order| {
      var n := |order| - 1;
      assert order[..n][..k] == order[..k];
      RecordedErrorFreezesState(fetch, hash, files, order[..n], k);
    } else {
      assert order[..k] == order;
    }
  }

  /**
   * When every fetch succeeds, `hashFiles` hashes the per-file digests joined
   * in index order, whatever the execution order.
   */
  lemma HashFilesInIndexOrder(fetch: string -> ReturnObject, hash: string -> string,
                              files: seq<string>, order: seq<nat>)
    requires IsSchedule(order, |files|)
    requires forall i :: 0 <= i < |files| ==> Fetches(fetch, files[i])
    ensures ScheduledHash(fetch, hash, files, order)
         == ReturnObject(hash(Concat(FileDigests(fetch, hash, files))), "")
  {
    ExecuteError(fetch, hash, files, order);
    ExecuteSlots(fetch, hash, files, order);
    var st := Execute(fetch, hash, files, order);
    assert st.slots == FileDigests(fetch, hash, files);
  }

  /**
   * `hashFiles` fails exactly when some file fails, and then it reports one
   * of the real failure messages and no digest.
   */
  lemma HashFilesFailure(fetch: string -> ReturnObject, hash: string -> string,
                         files: seq<string>, order: seq<nat>)
    requires IsSchedule(order, |files|)
    ensures var r := ScheduledHash(fetch, hash, files, order);
      r.Failed() <==> exists i :: 0 <= i < |files| && !Fetches(fetch, files[i])
    ensures var r := ScheduledHash(fetch, hash, files, order);
      r.Failed() ==> r.value == "" && r.error in FailureMessages(fetch, files)
  {
    ExecuteError(fetch, hash, files, order);
    var st := Execute(fetch, hash, files, order);
    if st.recorded != "" {
      var k :| 0 <= k < |order| && !Fetches(fetch, files[order[k]])
        && st.recorded == fetch(files[order[k]]).error;
      assert st.recorded in FailureMessages(fetch, files);
    } else {
      forall i | 0 <= i < |files|
        ensures Fetches(fetch, files[i])
      {
        assert i in order;
        var k :| 0 <= k < |order| && order[k] == i;
      }
    }
  }

  /** Whether `hashFiles` fails, and on success its digest, do not depend on the execution order. */
  lemma HashFilesOrderIndependent(fetch: string -> ReturnObject, hash: string -> string,
                                  files: seq<string>, order1: seq<nat>, order2: seq<nat>)
    requires IsSchedule(order1, |files|) && IsSchedule(order2, |files|)
    ensures ScheduledHash(fetch, hash, files, order1).Failed()
        == ScheduledHash(fetch, hash, files, order2).Failed()
    ensures !ScheduledHash(fetch, hash, files, order1).Failed() ==>
      ScheduledHash(fetch, hash, files, order1) == ScheduledHash(fetch, hash, files, order2)
  {
    HashFilesFailure(fetch, hash, files, order1);
    HashFilesFailure(fetch, hash, files, order2);
    if !ScheduledHash(fetch, hash, files, order1).Failed() {
      HashFilesInIndexOrder(fetch, hash, files, order1);
      HashFilesInIndexOrder(fetch, hash, files, order2);
    }
  }

  /**
   * The joined digests determine the digests in their order: two lists of
   * digests with the same lengths position by position join to the same
   * string only when they are equal.
   */
  lemma {:induction false} ConcatInjective(a: seq<string>, b: seq<string>)
    requires |a| == |b|
    requires forall i :: 0 <= i < |a| ==> |a[i]| == |b[i]|
    requires Concat(a) == Concat(b)
    ensures a == b
    decreases |a|
  {
    if |a| > 0 {
      var n := |a| - 1;
      SumPrefixLengths(a[..n], b[..n]);
      var x, y := Concat(a[..n]), Concat(b[..n]);
      assert x + a[n] == y + b[n];
      assert |x| == |y|;
      assert x == (x + a[n])[..|x|] && y == (y + b[n])[..|y|];
      assert a[n] == (x + a[n])[|x|..] && b[n] == (y + b[n])[|y|..];
      ConcatInjective(a[..n], b[..n]);
      assert a == a[..n] + [a[n]] && b == b[..n] + [b[n]];
    }
  }

  /** The total length of `parts`. */
  function SumLengths(parts: seq<string>): nat
    decreases |parts|
  {
    if |parts| == 0 then 0 else SumLengths(parts[..|parts| - 1]) + |parts[|parts| - 1]|
  }

  lemma {:induction false} SumPrefixLengths(a: seq<string>, b: seq<string>)
    requires |a| == |b|
    requires forall i :: 0 <= i < |a| ==> |a[i]| == |b[i]|
    ensures SumLengths(a) == SumLengths(b)
    decreases |a|
  {
    if |a| > 0 {
      SumPrefixLengths(a[..|a| - 1], b[..|b| - 1]);
    }
  }

  /**
   * The string hashed at the end respects input order: when every digest has
   * the same length (64 hexadecimal digits for SHA-256), two file lists whose
   * digests differ at some position hash different strings.
   */
  lemma AggregateInputOrderSensitive(fetch: string -> ReturnObject, hash: string -> string,
                                     files1: seq<string>, files2: seq<string>, width: nat)
    requires forall s :: |hash(s)| == width
    requires |files1| == |files2|
    requires FileDigests(fetch, hash, files1) != FileDigests(fetch, hash, files2)
    ensures Concat(FileDigests(fetch, hash, files1)) != Concat(FileDigests(fetch, hash, files2))
  {
    var a, b := FileDigests(fetch, hash, files1), FileDigests(fetch, hash, files2);
    if Concat(a) == Concat(b) {
      forall i | 0 <= i < |a|
        ensures |a[i]| == |b[i]|
      {
        assert a[i] == hash(fetch(files1[i]).value);
        assert b[i] == hash(fetch(files2[i]).value);
      }
      ConcatInjective(a, b);
    }
  }

  /**
   * The two-file example: contents "1" and "2" give the hash of the digest
   * of "1" followed by the digest of "2", in either execution order.
   */
  lemma TwoFileExample(fetch: string -> ReturnObject, hash: string -> string, order: seq<nat>)
    requires fetch("a.txt") == ReturnObject("1", "")
    requires fetch("b.txt") == ReturnObject("2", "")
    requires order == [0, 1] || order == [1, 0]
    ensures ScheduledHash(fetch, hash, ["a.txt", "b.txt"], order)
         == ReturnObject(hash(hash("1") + hash("2")), "")
  {
    var files := ["a.txt", "b.txt"];
    assert order[0] in order && order[1] in order;
    assert IsSchedule(order, |files|);
    assert Fetches(fetch, files[0]) && Fetches(fetch, files[1]);
    HashFilesInIndexOrder(fetch, hash, files, order);
    var ds := FileDigests(fetch, hash, files);
    assert ds[0] == hash("1") && ds[1] == hash("2");
    assert ds[..1] == [hash("1")];
    assert Concat(ds) == Concat(ds[..1]) + hash("2");
    assert Concat(ds[..1]) == Concat([]) + hash("1");
    assert Concat(ds) == hash("1") + hash("2");
  }

  // ---------------------------------------------------------------------
  // The package state and the imperative operations on it
  // ---------------------------------------------------------------------

  /** The loop of `hashFiles` that joins the slots, in index order, into `sumHush`. */
  method SumHashes(slots: array<string>) returns (sumHush: string)
    ensures sumHush == Concat(slots[..])
  {
    sumHush := "";
    for i := 0 to slots.Length
      invariant sumHush == Concat(slots[..i])
    {
      assert slots[..i + 1][..i] == slots[..i];
      sumHush := sumHush + slots[i];
    }
    assert slots[..slots.Length] == slots[..];
  }

  /** The package variables `GitRef`, `Branch` and `getFileContentError`. */
  class Service {
    var gitRef: string
    var branch: string
    var fileContentError: string

    /** The configuration as `initialize` leaves it. */
    constructor (gitRef: string, branch: string)
      ensures this.gitRef == gitRef && this.branch == branch && fileContentError == ""
    {
      this.gitRef := gitRef;
      this.branch := branch;
      fileContentError := "";
    }

    /** `hashFile`: one task, writing at most the error and its own slot. */
    method HashFile(net: string -> Response, hash: string -> string,
                    file: string, index: nat, slots: array<string>)
      requires SliceInBounds(gitRef, branch)
      requires index < slots.Length
      modifies this`fileContentError, slots
      ensures Tasks(fileContentError, slots[..])
           == HashFileStep(FileContents(Config(gitRef, branch), net), hash, file, index, Tasks(old(fileContentError), old(slots[..])))
      ensures old(fileContentError) != "" ==> fileContentError == old(fileContentError) && slots[..] == old(slots[..])
      ensures forall j :: 0 <= j < slots.Length && j != index ==> slots[j] == old(slots[j])
    {
      if fileContentError != "" {
        return;
      }
      var content := GetFileContent(Config(gitRef, branch), net, file);
      if content.error != "" {
        fileContentError := content.error;
        return;
      }
      slots[index] := hash(content.value);
    }

    /** `hashFiles`: clear the error, run every task in the order `order`, then combine. */
    method HashFiles(net: string -> Response, hash: string -> string,
                     files: seq<string>, order: seq<nat>) returns (r: ReturnObject)
      requires SliceInBounds(gitRef, branch)
      requires IsSchedule(order, |files|)
      modifies this`fileContentError
      ensures r == ScheduledHash(FileContents(Config(gitRef, branch), net), hash, files, order)
      ensures fileContentError == Execute(FileContents(Config(gitRef, branch), net), hash, files, order).recorded
    {
      var fetch := FileContents(Config(gitRef, branch), net);
      fileContentError := "";
      var slots := new string[|files|](_ => "");
      var k := 0;
      while k < |order|
        invariant 0 <= k <= |order|
        invariant Tasks(fileContentError, slots[..]) == Execute(fetch, hash, files, order[..k])
      {
        var i := order[k];
        ghost var before := Execute(fetch, hash, files, order[..k]);
        HashFile(net, hash, files[i], i, slots);
        assert order[..k + 1][..k] == order[..k];
        assert Execute(fetch, hash, files, order[..k + 1]) == HashFileStep(fetch, hash, files[i], i, before);
        k := k + 1;
      }
      assert order[..k] == order;
      if fileContentError != "" {
        return HandleError(fileContentError);
      }
      var sumHush := SumHashes(slots);
      r := ReturnObject(hash(sumHush), "");
    }
  }
}
