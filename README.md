# soci-wrapper: a Dafny model of the SOCI index pipeline

soci-wrapper is a small Go program, typically run as an AWS Lambda. Given an ECR repository, an
image digest, an AWS region and an account, it:

- derives the ECR registry URL;
- validates the image manifest;
- pulls the image into a temporary directory;
- builds a SOCI (seekable OCI) index for the image;
- pushes the latest index back to the same repository;
- removes the temporary directory.

This project models that pipeline in Dafny and proves properties of the model. The model covers
`buildEcrRegistryUrl`, the step chain of `buildIndex` and its choice of the newest index,
`lambdaError`, `cleanUp` (deferred by `process`), `process` itself, and the argument guard of
`main`.

Modules:

- `Results`: `Option`, `Result` and `Error`. These stand in for Go's nil-or-error values and its
  `(value, error)` pairs.
- `RegistryUrl`: the registry URL. It is `account` + `.dkr.ecr.` + `region` + the partition
  domain. The domain is `.amazonaws.com.cn` for regions starting with `cn` and `.amazonaws.com`
  otherwise.
- `IndexSelection`: picking the newest index.
  - `sort.Slice` by `CreatedAt` is modelled by an in-place insertion sort on an array.
  - The last element after sorting is the result.
  - An empty collection is the error "No SOCI indices found in OCI store".
- `Pipeline`: the external calls.
  - Every call `process` and `buildIndex` make (registry init, manifest validation, temp
    directory, SOCI store, pull, artifacts DB, containerd store, index builder, build, index
    collection, push, cleanup) is a `Step`. Each `Step` records the arguments of that call that
    matter: directories, repository, digest, image, minimum layer size and pushed descriptor. The
    store handles passed between calls are not recorded.
  - A `World` value supplies each collaborator's answer.
  - `BuildIndex`, `InWorkspace` and `Process` are methods that build the trace of calls step by
    step and return the `(message, error)` report.
  - The state of the temp directory (absent, live, removed) is a function of the trace
    (`WorkspaceAfter`).
  - `defer cleanUp(ctx, dataDir)` is a final `CleanUp` step. It is appended on every return after
    the directory was created. It does not change the report.
- `Cli`: `main`.
  - `MainAsWritten` keeps the guard `len(os.Args) < 4`.
  - `Run` uses the corrected guard `len(os.Args) < 5`. See "## Findings".

`lambdaError` is `Pipeline.LambdaError`. It returns the message and the error unchanged. That
property is visible in the `Pipeline.Classified` clause of the `Process` contract: a failed run
reports the failing call's message together with that call's own error.

## Model

| member | source | states |
|---|---|---|
| RegistryUrl.DomainSuffix | main.go:33-36 | the domain is one of the two AWS domains, and it is the China one exactly when the region starts with "cn" |
| RegistryUrl.BuildEcrRegistryUrl | main.go:32-38 | the URL starts with account, ".dkr.ecr." and the region in that order, ends with the partition's domain, and is exactly as long as those parts together |
| RegistryUrl.ChinaDomainIffChinaRegion | main.go:34-37 | the URL ends in ".amazonaws.com.cn" if and only if the region starts with "cn" |
| RegistryUrl.SplitAtFirstDot | main.go:37 | an account without dots is recovered from the URL as the text before its first dot |
| RegistryUrl.RegionRecoverable | main.go:33-37 | the region is recovered from region+domain: distinct regions never give the same tail |
| RegistryUrl.UrlSplits | main.go:37 | the URL is account, then ".dkr.ecr.", then region and domain |
| RegistryUrl.DistinctInputsDistinctRegistries | main.go:32-38 | for accounts without dots, equal URLs come only from equal regions and equal accounts, so distinct inputs name distinct registries |
| RegistryUrl.UsWest2Example | main.go:32-38 | "us-west-2" with account "123456789012" gives "123456789012.dkr.ecr.us-west-2.amazonaws.com" |
| RegistryUrl.CnNorth1Example | main.go:32-38 | "cn-north-1" with account "123456789012" gives "123456789012.dkr.ecr.cn-north-1.amazonaws.com.cn" |
| IndexSelection.MaxCreatedAt | main.go:122-126 | for a non-empty collection: no index is newer than this time, and some index has it |
| IndexSelection.InsertLast | main.go:122-124 | one insertion step: a sorted prefix becomes a sorted prefix one longer, the array's elements stay the same multiset, and the entries after the new prefix are untouched |
| IndexSelection.SortByCreatedAt | main.go:122-124 | the array ends sorted by creation time and is a permutation of the original |
| IndexSelection.SortedLastIsLatest | main.go:122-126 | the last element of any sorted permutation of a non-empty collection is a latest index of it |
| IndexSelection.SelectLatest | main.go:119-126 | error "No SOCI indices found in OCI store" exactly when the collection is empty; otherwise the result is the descriptor of a member with the newest creation time; a single index is returned as is |
| IndexSelection.LatestIsMemberNotBeforeAny | main.go:122-126 | a latest descriptor belongs to a collected index that is not before any other index |
| IndexSelection.LatestUniqueWhenTimesDistinct | main.go:122-126 | when creation times are distinct, the latest descriptor is unique |
| Pipeline.ImageOf | main.go:169-172 | the image targets the pulled descriptor and its name is exactly repo, then "@", then digest (prefix, suffix and length) |
| Pipeline.WorkspaceUnaffected | main.go:157-186 | calls that neither create nor remove a directory leave the temp directory's state as it was |
| Pipeline.BuildStagesShareMessage | main.go:174-177 | every failing call of buildIndex is reported as "SOCI index build error" |
| Pipeline.BuildIndex | main.go:94-126 | calls artifacts DB, containerd store, builder (minimum layer size 0), build and collection, in this order; the first failure ends the chain with that call's error, and an empty collection counts as a failure; on success the descriptor is a latest collected one; each call gets dataDir or the given image |
| Pipeline.InWorkspace | main.go:159-186 | SOCI store, pull, buildIndex and push, in order, stopping at the first failure; the report carries that call's message and error; success only when push succeeded, with "Successfully built and pushed SOCI index"; every call that opens or uses a store (SOCI store, pull, artifacts DB, containerd store, push) is given dataDir; the calls get repo, digest, minimum layer size 0, the pulled image and a latest index |
| Pipeline.Process | main.go:130-187 | the calls follow the fixed order and stop at the first failure; the first call initialises the client for the derived URL; a failed validation stops after two calls without error; no error exactly when skipped or completed; success message exactly on completion; otherwise the failing call's message and that call's own error, which lambdaError (main.go:130-133) hands back unchanged (the Classified clause); once created, the temp directory is live for every call that uses it and removed by a final cleanup, and never removed otherwise; pull and push get repo (and pull the digest), the builder minimum layer size 0, build and collection the image repo "@" digest on the pulled descriptor, and push a latest collected index |
| Pipeline.RegistryInitFails | main.go:139-142 | a registry init failure ends the run after one call, reported as "Remote registry initialization error", with nothing to clean up |
| Pipeline.ValidationSkips | main.go:144-149 | a validation failure ends the run after two calls, reported without error, with nothing to clean up |
| Pipeline.TempDirFails | main.go:152-156 | a failed directory creation ends the run after three calls, reported as "Directory create error", with no cleanup |
| Pipeline.RunInWorkspace | main.go:157-186 | registry init, validation and directory creation, followed by the workspace calls, form a run in the fixed order whose report is that of its last call |
| Pipeline.CleanUpAfterWorkspace | main.go:52-57 | the deferred cleanup is the last call, removes the live directory, and every earlier call that uses the directory finds it live |
| Pipeline.PrefixThenWorkspaceCalls | main.go:135-186 | three successful calls followed by the workspace calls run in order, stop at the first failure, and report as their last call |
| Pipeline.WorkspaceFacts | main.go:157-186 | after the directory becomes live, every workspace call finds it live and the final cleanup removes it |
| Pipeline.RunsInOrderConcat | main.go:135-187 | two runs of consecutive stages join into one |
| Pipeline.StopsAtFirstFailureConcat | main.go:135-187 | successful calls followed by a run that stops at its first failure still stop at the first failure |
| Pipeline.BuilderAdvance | main.go:94-118 | making the next buildIndex call keeps the order, the first-failure rule and the arguments |
| Pipeline.WorkspaceAdvance | main.go:159-183 | making the next calls in the directory keeps the order, the first-failure rule and the arguments |
| Pipeline.BuilderCallsInWorkspace | main.go:174 | buildIndex's calls are made in dataDir on the pulled image under repo "@" digest |
| Cli.GuardAsWrittenOneShort | main.go:190-197 | the guard as written lets through an argument list without all four arguments if and only if the list has exactly four entries |
| Cli.GuardAsWrittenCounterexample | main.go:190-197 | an argument list that passes the guard as written although the account is missing |
| Cli.MainAsWritten | main.go:189-198 | fewer than four entries: usage line and status 1; exactly four: out-of-range panic, status 2; five or more: process runs on the four arguments |
| Cli.Run | main.go:189-198 | the usage line and status 1 exactly when an argument is missing, never a panic; otherwise process runs on the four arguments with all of its guarantees, and status 0 whatever process reports |

## Left out

- The registry client, the SOCI, OCI and containerd stores, the artifacts DB and the index builder are modelled only by what they answer. These are the `World` fields: an error or nothing, the pulled descriptor, the directory name, the collected indices. What they do inside is not part of this model.
- `createTempDir` (main.go:42-49) is reduced to its result. Its free-space query and its log lines are I/O.
- The directory name returned on a failed `MkdirTemp` is not modelled. `process` only logs it.
- Logging (`log.Info`, `log.Warn`, `log.Error`) is left out, including in `lambdaError` and `cleanUp`. So are the context values "RegistryURL" and "SOCIIndexDigest".
- `cleanUp` cannot fail in the model. `os.RemoveAll` errors are only logged (main.go:54-56), so they change neither the report nor the control flow.
- `IndexSelection.SortByCreatedAt`: `sort.Slice` is unstable and its algorithm is not specified. The model sorts by insertion. Both contracts say only "sorted by creation time and a permutation". So among indices that share the newest time, the model does not say which one `sort.Slice` would put last. `SelectLatest` promises only a latest one.
- Go strings are byte sequences; the model's strings are sequences of characters. The only string test, the prefix "cn", is ASCII, so nothing here depends on the difference.
- Creation times are integers. `time.Time.Before` is the integer `<`.
- The index builder's platform (`platforms.DefaultSpec()`) is not recorded in the `NewIndexBuilder` step. Neither is the platform list handed to the index collection.
- The `ctx` parameters and the Lambda runtime are not modelled. The model covers the command-line entry point only.

## Findings

| source | as written | input that shows it | evidently intended | confidence | as-written member | corrected member |
|---|---|---|---|---|---|---|
| main.go:190 | `len(os.Args) < 4` lets an argument list with the program name and only three arguments through, and then `os.Args[4]` is read at main.go:197 | `soci-wrapper my-repo sha256:0123 us-west-2` (no account): four entries, so the guard passes and the read of `os.Args[4]` panics with index out of range instead of printing the usage line | `len(os.Args) < 5`: four arguments after the program name are required | not executed | Cli.MainAsWritten, Cli.GuardAsWrittenCounterexample | Cli.Run |
