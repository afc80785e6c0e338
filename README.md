# hash-github-dirs, modelled in Dafny

The system is two small HTTP services. The configuration service (`init_api`)
stores a git ref and a branch. The file service (`github_api`) uses them in three steps:

- it turns a file name into a `raw.githubusercontent.com` URL;
- it fetches that URL and classifies the outcome;
- for a list of files, it hashes every file concurrently and hashes the
  per-file digests once more, joined in list order.

This project models those steps and proves properties of them:

- `strings.dfy` (module `Strings`): Go's `strings.Split` on a one-character
  separator, the matching `Join`, and both round trips.
- `github_api.dfy` (module `GithubApi`):
  - `parseUrl` and the outcome classification of `request`;
  - `getFileContent`;
  - a functional model of the hashing tasks, with its lemmas;
  - the class `Service`, which holds the package variables.
  `Service.HashFile` and `Service.HashFiles` are imperative: they fill an
  array of slots and update the shared error. They are proved equal to the
  functional model.
- `init_api.dfy` (module `InitApi`): the class `Service` holding `GitRef` and
  `Branch`, with `CheckOutRef`, `initApi` and `getApiData`, and the URL that
  `checkIfRepoExists` probes.
- `ref_round_trip.dfy` (module `RefRoundTrip`): the ref format the
  configuration service produces, checked against how the file service
  parses it.
- `wrappers.dfy` (module `Wrappers`): `Option`.

The outside world is given as parameters:

- `net: string -> Response`: the outcome of one GET, either a transport error
  or a body plus an optional read error;
- `hash: string -> string`: SHA-256 followed by `%x`;
- `probe: string -> bool`: the existence check, true when the GET answers 200;
- `body: Option<StartPoint>`: the bound JSON body of `initApi`, `None` when it
  does not bind.

The functional model of the hashing tasks takes the per-file fetch as one
more uninterpreted function, `fetch: string -> ReturnObject`. The class
methods instantiate it with `getFileContent` under the ref and branch held
when the call starts (`FileContents`). The model assumes these values do not
change while the call runs. In Go, each task reads them again, and another
request may change them meanwhile (see "Left out").

The goroutines of `hashFiles` are modelled as whole tasks. They run one after
another in an order `order`, which is a permutation of the file indices
(`IsSchedule`).

## Notes on the code

- The URL takes the ref's fourth `/`-piece (index 3). For a ref stored by
  `CheckOutRef` for `owner/name`, that piece is the owner. The fifth piece
  is `name.git` with its last four characters dropped. So the URL is
  `https://raw.githubusercontent.com/<owner>/<name>/<branch>/<file>`
  (`RefRoundTrip.StoredRefResolves`).
- `hashFiles` itself accepts an empty list and returns the hash of the empty
  string. Only the handler `hashFilesApi` rejects an empty list.
- Whole tasks run in sequence. The error reported is therefore that of the
  first failing task in execution order, and every later task skips its fetch.
- Success means an empty `error` string, as in Go. So a read error whose
  message is empty is treated as success with an empty value. The model does
  the same (`GithubApi.RequestSucceeds`).

## Model

| member | source | states |
|---|---|---|
| `Strings.Split` | github_api/src/main.go:91 | `strings.Split` always gives at least one piece, and no piece contains the separator |
| `Strings.SplitJoin` | github_api/src/main.go:91 | splitting a join of separator-free pieces gives back exactly those pieces |
| `Strings.JoinSplit` | github_api/src/main.go:91 | joining the pieces of a split with the separator restores the original string |
| `GithubApi.ParseUrl` | github_api/src/main.go:86-101 | fails exactly when the ref or branch is empty or the ref has fewer than 5 pieces; an empty ref or branch gives the not-initialized error before any splitting; too few pieces gives the invalid-ref error; on success the URL is the raw prefix, piece 3, piece 4 without its last 4 characters, the branch and the file name, joined by '/' |
| `GithubApi.Request` | github_api/src/main.go:104-130 | a transport error gives "The request failed"; a body equal to "404: Not Found" gives "file not found", even when a read error also occurred; otherwise a read error gives its message; otherwise the result is the body |
| `GithubApi.RequestSucceeds` | github_api/src/main.go:119-129 | the classification succeeds exactly for a body other than the sentinel with no read error (or one whose message is empty); the value is then the body; a failure carries no value |
| `GithubApi.GetFileContent` | github_api/src/main.go:46-53 | a resolution error is returned unchanged; otherwise the result is the classification of fetching the resolved URL |
| `GithubApi.FileContents` | github_api/src/main.go:175 | the per-file fetch that the tasks use is `getFileContent` under one fixed ref and branch, which the model assumes hold for the whole call |
| `GithubApi.HandleError` | github_api/src/main.go:35-40 | an error object carries no value and reports the given message; it counts as a failure exactly when that message is non-empty |
| `GithubApi.ResolutionErrorSkipsFetch` | github_api/src/main.go:46-52 | when resolution fails, the result is the same for every network, so nothing is fetched, and it is one of the two resolution errors |
| `GithubApi.HashFileStep` | github_api/src/main.go:166-182 | one task keeps the number of slots, never clears or replaces an error that is already recorded, and writes no slot other than its own |
| `GithubApi.Execute` | github_api/src/main.go:143-151 | starting from a cleared error and `len(listOfFiles)` empty slots, every run of tasks keeps exactly one slot per file |
| `GithubApi.HashFileStepEffect` | github_api/src/main.go:166-182 | with an error already recorded, a task does nothing; a failed fetch records that file's message and leaves every slot alone; a successful one writes its file's digest into its own slot and no other |
| `GithubApi.ExecuteError` | github_api/src/main.go:171-178 | after any run of tasks, no error is recorded exactly when every task that ran fetched its file; otherwise the recorded error is the message of the first failing task in execution order |
| `GithubApi.ExecuteSlots` | github_api/src/main.go:175-181 | after any run of tasks with no error recorded, each slot that ran holds its own file's digest and every other slot is still empty |
| `GithubApi.RecordedErrorFreezesState` | github_api/src/main.go:171-173 | once an error is recorded, the remaining tasks change neither the error nor any slot |
| `GithubApi.HashFilesInIndexOrder` | github_api/src/main.go:144-162 | when every fetch succeeds, the result is the hash of the per-file digests joined in index order, for every execution order |
| `GithubApi.HashFilesFailure` | github_api/src/main.go:153-155 | the result is an error exactly when some file's fetch fails; the error is then one of the real failure messages and no digest is returned |
| `GithubApi.HashFilesOrderIndependent` | github_api/src/main.go:142-163 | for any two execution orders, the call fails under both or under neither, and a successful digest is the same under both |
| `GithubApi.Concat` | github_api/src/main.go:158-161 | the joined string is as long as all the slots together and ends with the last slot |
| `GithubApi.Finish` | github_api/src/main.go:153-162 | the reported error is the recorded one; a failure carries no value; a success carries the hash of the slots joined in index order |
| `GithubApi.ScheduledHash` | github_api/src/main.go:142-163 | `hashFiles` under one execution order reports the error its tasks recorded and, on failure, no value; an empty file list gives the hash of the empty string |
| `GithubApi.ConcatInjective` | github_api/src/main.go:158-161 | digest lists with the same length at every position join to the same string only when they are equal |
| `GithubApi.AggregateInputOrderSensitive` | github_api/src/main.go:157-162 | when all digests have one fixed width, two file lists whose digests differ at some position hand different strings to the final hash |
| `GithubApi.TwoFileExample` | github_api/src/main.go:142-163 | files with contents "1" and "2" give hash(hash("1") + hash("2")) in either execution order |
| `GithubApi.Service.constructor` | github_api/src/main.go:67-68 | the package holds the ref and branch that `initialize` assigned, and no recorded error |
| `GithubApi.SumHashes` | github_api/src/main.go:158-161 | the loop builds the slots joined in index order |
| `GithubApi.Service.HashFile` | github_api/src/main.go:166-182 | the new error and slots are one `HashFileStep` of the old ones under the current configuration; with an error already recorded nothing changes; no slot other than the task's own is written |
| `GithubApi.Service.HashFiles` | github_api/src/main.go:142-163 | clears the error, runs every task into a fresh slot array in the given order, then returns the recorded error or the hash of the slots joined in index order |
| `InitApi.DefaultBranch` | init_api/src/main.go:25-28 | the branch stays as given unless it is empty, in which case it becomes "master"; never empty |
| `InitApi.CheckIfRepoExists` | init_api/src/main.go:37-41 | probes `https://github.com/<repo>/tree/<branch>`, with the same "master" default that `CheckOutRef` applies |
| `InitApi.Service.constructor` | init_api/src/main.go:9-10 | before any configuration the ref and branch are empty |
| `InitApi.Service.CheckOutRef` | init_api/src/main.go:22-29 | the ref becomes exactly `https://github.com/<path>.git`, and the branch becomes the given branch or "master"; both are non-empty afterwards |
| `InitApi.Service.InitApi` | init_api/src/main.go:57-70 | an unbound body gives "Invalid json" and a failed check gives "Repo or branch does not exist", and in both cases the state is unchanged; otherwise it replies "success" and stores what `CheckOutRef` stores, and the stored branch is the one that was probed |
| `InitApi.Service.GetApiData` | init_api/src/main.go:73-75 | reports the stored ref and branch and changes nothing |
| `RefRoundTrip.StoredRef` | init_api/src/main.go:23 | the stored ref is `https://github.com/`, then exactly the path, then `.git` |
| `RefRoundTrip.StoredRefSegments` | init_api/src/main.go:23 | the ref stored for `owner/name` splits into exactly five pieces, with the owner at index 3 and `name.git` at index 4 |
| `RefRoundTrip.StoredRefResolves` | github_api/src/main.go:91-98 | a ref stored for `owner/name` never triggers the slice panic, and with any branch it resolves to `https://raw.githubusercontent.com/<owner>/<name>/<branch>/<file>` |
| `RefRoundTrip.OwnerlessRefRejected` | github_api/src/main.go:91-94 | a ref stored for a path with no '/' has only four pieces and is rejected as invalid |
| `RefRoundTrip.ResolveAfterCheckOut` | github_api/src/main.go:55-70 | the ref and branch that `getApiData` reports after `CheckOutRef` of `owner/name` resolve every file to that owner's raw URL |
| `RefRoundTrip.ResolveUnconfigured` | github_api/src/main.go:86-89 | with the configuration service never set, every file gives the not-initialized error |

## Left out

- Network I/O is left out: `http.Get`, reading and closing bodies (including
  the `panic` when a close fails), and the status-code test in
  `checkIfRepoExists`. Each is an outcome supplied as a parameter.
- Concurrency is left out: goroutines, `sync.WaitGroup`, and the
  unsynchronized writes to `getFileContentError`, which are a data race in
  Go. Tasks run whole and one at a time, in an arbitrary permutation. With
  real interleaving, several tasks may read the error before any of them
  records one. All of them then fetch, and the last writer wins. The model
  does not capture this, so "first failing task in execution order" is true
  of the model only. The model shows that the reported message comes from a
  real failure only for one request running alone. It assumes no other
  request runs meanwhile and no string is read while half written.
- The package variables are shared between concurrent requests, and the
  model does not capture this. `getFileContentError` on the file service
  (github_api/src/main.go:139) is one such variable. A second `hashFilesApi`
  call clears it at github_api/src/main.go:143, so the first call can then
  return a digest over a slot that was never filled. `GitRef` and `Branch` are
  read again by every task (github_api/src/main.go:47). A concurrent
  `initialize` can rewrite them (github_api/src/main.go:67-68). The model
  takes one error variable per call and one ref and branch for the whole call
  (`GithubApi.FileContents`, `GithubApi.Service.HashFiles`).
- SHA-256 (FIPS 180-4) and `%x` formatting are left out. `hash` is an
  uninterpreted function. Order sensitivity is therefore stated about the
  string handed to the final hash, not about the digest itself.
- JSON is left out: `stringToJson` (encoding/json) and gin's `BindJSON`.
- `initialize` is left out, because it calls the configuration service over
  HTTP. The `GithubApi.Service` constructor takes the values it would assign.
- The handlers `getFileApi`, `hashFilesApi` and `sendError` and their JSON
  replies are left out, including the handler's empty-list guard. So is
  `main` with its route setup.
- `GithubApi.ParseUrl`: the Go slice `details[4][:len(details[4])-4]`
  panics when that piece is shorter than four characters. The model does not
  represent the panic. Instead it requires `SliceInBounds`, and every core
  operation that reaches `parseUrl` inherits that requirement.
  `RefRoundTrip.StoredRefResolves` shows that refs stored for `owner/name`
  always meet it.
- Strings are sequences of characters, while Go's `len` counts UTF-8 bytes.
  So removing four characters from piece 4 matches the Go code only when the
  last four characters are ASCII, as in `.git`.
