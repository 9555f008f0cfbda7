/** The `process` pipeline and the step chain of `buildIndex`. Every external call is a `Step`
    recorded, with its arguments, in the order it is made; its outcome comes from a `World`,
    which stands for the registry, the filesystem and the index builder. */
module Pipeline {
  import opened Results
  import opened RegistryUrl
  import opened IndexSelection

  const RegistryInitFailed := "Remote registry initialization error"
  const SkippedEarly := "Exited early due to manifest validation error"
  const DirectoryCreateFailed := "Directory create error"
  const StorageInitFailed := "OCI storage initialization error"
  const PullFailed := "Image pull error"
  const BuildFailed := "SOCI index build error"
  const PushFailed := "SOCI index push error"
  const Succeeded := "Successfully built and pushed SOCI index"

  /** The builder option `soci.WithMinLayerSize(0)`. */
  const MinLayerSize := 0

  /** A containerd image: its name and the descriptor `Pull` resolved. */
  datatype Image = Image(name: string, target: Descriptor)

  /** The image `process` builds for: named "repo@digest". */
  function ImageOf(repo: string, digest: string, target: Descriptor): (image: Image)
    ensures image.target == target
    ensures HasPrefix(image.name, repo + "@") && HasSuffix(image.name, digest)
    ensures |image.name| == |repo| + 1 + |digest|
  {
    Image(repo + "@" + digest, target)
  }

  /** An external call, with the arguments that matter. The stores live in directory `dir`. */
  datatype Step =
    | RegistryInit(url: string)
    | ValidateManifest(repo: string, digest: string)
    | CreateTempDir
    | InitSociStore(dir: string)
    | Pull(repo: string, digest: string, dir: string)
    | OpenArtifactsDb(dir: string)
    | InitContainerdStore(dir: string)
    | NewIndexBuilder(minLayerSize: int)
    | Build(image: Image)
    | GetIndexDescriptorCollection(image: Image)
    | Push(descriptor: Descriptor, repo: string, dir: string)
    | CleanUp(dir: string)

  /** What each collaborator answers when called: `None` is a nil error. */
  datatype World = World(
    registryInit: Option<Error>,
    validation: Option<Error>,
    tempDir: Result<string>,
    sociStore: Option<Error>,
    pull: Result<Descriptor>,
    artifactsDb: Option<Error>,
    containerdStore: Option<Error>,
    indexBuilder: Option<Error>,
    build: Option<Error>,
    collection: Result<seq<IndexDescriptorInfo>>,
    push: Option<Error>)

  /** The `(string, error)` pair `process` returns. */
  datatype Report = Report(msg: string, err: Option<Error>)

  /** Position of a call in the fixed pipeline order; the deferred cleanup has none. */
  function Stage(s: Step): (stage: int) {
    match s
    case RegistryInit(_) => 0
    case ValidateManifest(_, _) => 1
    case CreateTempDir => 2
    case InitSociStore(_) => 3
    case Pull(_, _, _) => 4
    case OpenArtifactsDb(_) => 5
    case InitContainerdStore(_) => 6
    case NewIndexBuilder(_) => 7
    case Build(_) => 8
    case GetIndexDescriptorCollection(_) => 9
    case Push(_, _, _) => 10
    case CleanUp(_) => -1
  }

  /** The error the pipeline sees after call `s`. A collection that is returned without error
      but is empty counts as a failure of that call, with `NoIndicesFound`. */
  function StepError(w: World, s: Step): (err: Option<Error>) {
    match s
    case RegistryInit(_) => w.registryInit
    case ValidateManifest(_, _) => w.validation
    case CreateTempDir => if w.tempDir.Err? then Some(w.tempDir.error) else None
    case InitSociStore(_) => w.sociStore
    case Pull(_, _, _) => if w.pull.Err? then Some(w.pull.error) else None
    case OpenArtifactsDb(_) => w.artifactsDb
    case InitContainerdStore(_) => w.containerdStore
    case NewIndexBuilder(_) => w.indexBuilder
    case Build(_) => w.build
    case GetIndexDescriptorCollection(_) =>
      if w.collection.Err? then Some(w.collection.error)
      else if |w.collection.value| == 0 then Some(NoIndicesFound)
      else None
    case Push(_, _, _) => w.push
    case CleanUp(_) => None
  }

  /** The message `process` reports when call `s` fails. */
  function FailureMessage(s: Step): (msg: string) {
    match s
    case RegistryInit(_) => RegistryInitFailed
    case ValidateManifest(_, _) => SkippedEarly
    case CreateTempDir => DirectoryCreateFailed
    case InitSociStore(_) => StorageInitFailed
    case Pull(_, _, _) => PullFailed
    case Push(_, _, _) => PushFailed
    case CleanUp(_) => ""
    case _ => BuildFailed
  }

  function Last(s: seq<Step>): (last: Step)
    requires |s| > 0
  {
    s[|s| - 1]
  }

  /** The calls are the stages `first`, `first + 1`, ... in this order, with no cleanup among them. */
  predicate RunsInOrder(calls: seq<Step>, first: int) {
    forall i :: 0 <= i < |calls| ==> Stage(calls[i]) == first + i
  }

  /** Every call but the last succeeded: nothing runs after the first failure. */
  predicate StopsAtFirstFailure(w: World, calls: seq<Step>) {
    forall i :: 0 <= i < |calls| - 1 ==> StepError(w, calls[i]).None?
  }

  /** The run ended because its last call failed or because stage `final` was reached. */
  predicate Halts(w: World, calls: seq<Step>, final: int) {
    |calls| > 0 && (StepError(w, Last(calls)).Some? || Stage(Last(calls)) == final)
  }

  lemma {:induction false} RunsInOrderConcat(a: seq<Step>, b: seq<Step>, first: int)
    requires RunsInOrder(a, first) && RunsInOrder(b, first + |a|)
    ensures RunsInOrder(a + b, first)
  {
    forall i | 0 <= i < |a + b| ensures Stage((a + b)[i]) == first + i {
      if i >= |a| { assert (a + b)[i] == b[i - |a|]; }
    }
  }

  lemma {:induction false} StopsAtFirstFailureConcat(w: World, a: seq<Step>, b: seq<Step>)
    requires forall i :: 0 <= i < |a| ==> StepError(w, a[i]).None?
    requires StopsAtFirstFailure(w, b) && |b| > 0
    ensures StopsAtFirstFailure(w, a + b) && Last(a + b) == Last(b)
  {
    forall i | 0 <= i < |a + b| - 1 ensures StepError(w, (a + b)[i]).None? {
      if i >= |a| { assert (a + b)[i] == b[i - |a|]; }
    }
  }

  /** A call that touches the temp directory (its stores live there). */
  predicate UsesWorkspace(s: Step) {
    s.InitSociStore? || s.Pull? || s.OpenArtifactsDb? || s.InitContainerdStore? || s.Push? || s.CleanUp?
  }

  /** The arguments `process` hands on to call `s`: the repository and digest it was given, the
      minimum layer size 0 for the builder, the image it pulled, and for `Push` a latest collected
      index under the original repository. */
  predicate ArgumentsHandedOn(w: World, repo: string, digest: string, s: Step) {
    match s
    case Pull(r, d, _) => r == repo && d == digest
    case NewIndexBuilder(m) => m == MinLayerSize
    case Build(image) => w.pull.Ok? && image == ImageOf(repo, digest, w.pull.value)
    case GetIndexDescriptorCollection(image) => w.pull.Ok? && image == ImageOf(repo, digest, w.pull.value)
    case Push(descriptor, r, _) => r == repo && w.collection.Ok? && IsLatest(w.collection.value, descriptor)
    case _ => true
  }

  /** The scratch directory's lifecycle. */
  datatype Workspace = Absent | Live(dir: string) | Removed(dir: string)

  /** The state of the scratch directory after the calls of `trace`. Removing a directory
      that is not live changes nothing (`os.RemoveAll` is idempotent). */
  function WorkspaceAfter(w: World, trace: seq<Step>): (state: Workspace)
    decreases |trace|
  {
    if trace == [] then Absent
    else
      var before := WorkspaceAfter(w, trace[..|trace| - 1]);
      match Last(trace)
      case CreateTempDir => if w.tempDir.Ok? then Live(w.tempDir.value) else before
      case CleanUp(d) => if before == Live(d) then Removed(d) else before
      case _ => before
  }

  /** The calls of a trace: all of it but a final cleanup. */
  function Calls(trace: seq<Step>): (calls: seq<Step>)
    ensures calls <= trace && |trace| - 1 <= |calls|
  {
    if |trace| > 0 && Last(trace).CleanUp? then trace[..|trace| - 1] else trace
  }

  /** The temp directory was created by this trace. */
  predicate Created(w: World, trace: seq<Step>) {
    CreateTempDir in trace && w.tempDir.Ok?
  }

  /** Calls that neither create nor remove the temp directory leave it as it was. */
  lemma {:induction false} WorkspaceUnaffected(w: World, prefix: seq<Step>, more: seq<Step>)
    requires forall i :: 0 <= i < |more| ==> !more[i].CreateTempDir? && !more[i].CleanUp?
    ensures WorkspaceAfter(w, prefix + more) == WorkspaceAfter(w, prefix)
    decreases |more|
  {
    if more == [] {
      assert prefix + more == prefix;
    } else {
      var shorter := more[..|more| - 1];
      assert (prefix + more)[..|prefix + more| - 1] == prefix + shorter;
      assert Last(prefix + more) == Last(more);
      assert WorkspaceAfter(w, prefix + more) == WorkspaceAfter(w, prefix + shorter);
      WorkspaceUnaffected(w, prefix, shorter);
    }
  }

  /** All calls made by `buildIndex` fail under the one message "SOCI index build error". */
  lemma BuildStagesShareMessage(s: Step)
    requires 5 <= Stage(s) <= 9
    ensures FailureMessage(s) == BuildFailed
  {
  }

  /** `lambdaError`: logs (not modelled) and returns the message with the error unchanged. */
  function LambdaError(msg: string, err: Error): (report: Report) {
    Report(msg, Some(err))
  }

  /** The arguments `buildIndex` hands on to call `s`: its directory, the fixed minimum layer
      size and the image it was given. */
  predicate BuilderArguments(dataDir: string, image: Image, s: Step) {
    match s
    case OpenArtifactsDb(d) => d == dataDir
    case InitContainerdStore(d) => d == dataDir
    case NewIndexBuilder(m) => m == MinLayerSize
    case Build(im) => im == image
    case GetIndexDescriptorCollection(im) => im == image
    case _ => true
  }

  /** The step chain of `buildIndex`: open the artifacts DB, the containerd store, create the
      builder, build, collect the indices, then select the latest. The first failing call ends
      the chain with its error; on success the descriptor is a latest collected one. */
  method BuildIndex(w: World, dataDir: string, image: Image) returns (r: Result<Descriptor>, calls: seq<Step>)
    ensures RunsInOrder(calls, 5) && StopsAtFirstFailure(w, calls) && Halts(w, calls, 9) && |calls| <= 5
    ensures r.Err? <==> StepError(w, Last(calls)).Some?
    ensures r.Err? ==> StepError(w, Last(calls)) == Some(r.error)
    ensures r.Ok? ==> w.collection.Ok? && IsLatest(w.collection.value, r.value)
    ensures forall i :: 0 <= i < |calls| ==> BuilderArguments(dataDir, image, calls[i])
  {
    calls := [];
    BuilderAdvance(w, dataDir, image, calls, OpenArtifactsDb(dataDir));
    calls := calls + [OpenArtifactsDb(dataDir)];
    if w.artifactsDb.Some? {
      return Err(w.artifactsDb.value), calls;
    }
    BuilderAdvance(w, dataDir, image, calls, InitContainerdStore(dataDir));
    calls := calls + [InitContainerdStore(dataDir)];
    if w.containerdStore.Some? {
      return Err(w.containerdStore.value), calls;
    }
    BuilderAdvance(w, dataDir, image, calls, NewIndexBuilder(MinLayerSize));
    calls := calls + [NewIndexBuilder(MinLayerSize)];
    if w.indexBuilder.Some? {
      return Err(w.indexBuilder.value), calls;
    }
    BuilderAdvance(w, dataDir, image, calls, Build(image));
    calls := calls + [Build(image)];
    if w.build.Some? {
      return Err(w.build.value), calls;
    }
    BuilderAdvance(w, dataDir, image, calls, GetIndexDescriptorCollection(image));
    calls := calls + [GetIndexDescriptorCollection(image)];
    if w.collection.Err? {
      return Err(w.collection.error), calls;
    }
    r := SelectLatest(w.collection.value);
  }

  /** The chain of `buildIndex` so far: stages from 5 on, all succeeded, with its arguments. */
  predicate BuilderSoFar(w: World, dataDir: string, image: Image, calls: seq<Step>) {
    && RunsInOrder(calls, 5)
    && (forall i :: 0 <= i < |calls| ==> StepError(w, calls[i]).None?)
    && (forall i :: 0 <= i < |calls| ==> BuilderArguments(dataDir, image, calls[i]))
  }

  /** Making the next call of `buildIndex` after calls that all succeeded. */
  lemma {:induction false} BuilderAdvance(w: World, dataDir: string, image: Image, calls: seq<Step>, s: Step)
    requires BuilderSoFar(w, dataDir, image, calls)
    requires Stage(s) == 5 + |calls| && BuilderArguments(dataDir, image, s)
    ensures RunsInOrder(calls + [s], 5) && StopsAtFirstFailure(w, calls + [s]) && Last(calls + [s]) == s
    ensures forall i :: 0 <= i < |calls + [s]| ==> BuilderArguments(dataDir, image, (calls + [s])[i])
    ensures StepError(w, s).None? ==> BuilderSoFar(w, dataDir, image, calls + [s])
  {
    RunsInOrderConcat(calls, [s], 5);
    forall i | 0 <= i < |calls + [s]| ensures BuilderArguments(dataDir, image, (calls + [s])[i]) {
      if i < |calls| { assert (calls + [s])[i] == calls[i]; }
    }
    forall i | 0 <= i < |calls + [s]| - 1 ensures StepError(w, (calls + [s])[i]).None? {
      assert (calls + [s])[i] == calls[i];
    }
  }

  /** A call made inside the temp directory `dataDir`: it neither creates nor removes a directory,
      works in `dataDir` if it touches the stores, and gets the arguments `process` hands on. */
  predicate InWorkspaceCall(w: World, repo: string, digest: string, dataDir: string, s: Step) {
    && (UsesWorkspace(s) ==> s.dir == dataDir)
    && !s.CreateTempDir? && !s.CleanUp?
    && ArgumentsHandedOn(w, repo, digest, s)
  }

  /** What `process` does once the temp directory exists, up to its return (main.go:159-186). */
  method InWorkspace(w: World, repo: string, digest: string, dataDir: string) returns (report: Report, calls: seq<Step>)
    ensures RunsInOrder(calls, 3) && StopsAtFirstFailure(w, calls) && Halts(w, calls, 10)
    ensures report.err.None? <==> StepError(w, Last(calls)).None?
    ensures report.err.None? ==> report.msg == Succeeded
    ensures report.err.Some? ==> report == Report(FailureMessage(Last(calls)), StepError(w, Last(calls)))
    ensures forall i :: 0 <= i < |calls| ==> InWorkspaceCall(w, repo, digest, dataDir, calls[i])
  {
    calls := [];
    WorkspaceAdvance(w, repo, digest, dataDir, calls, [InitSociStore(dataDir)]);
    calls := calls + [InitSociStore(dataDir)];
    if w.sociStore.Some? {
      return LambdaError(StorageInitFailed, w.sociStore.value), calls;
    }
    WorkspaceAdvance(w, repo, digest, dataDir, calls, [Pull(repo, digest, dataDir)]);
    calls := calls + [Pull(repo, digest, dataDir)];
    if w.pull.Err? {
      return LambdaError(PullFailed, w.pull.error), calls;
    }
    var image := ImageOf(repo, digest, w.pull.value);
    var indexDescriptor, buildCalls := BuildIndex(w, dataDir, image);
    BuilderCallsInWorkspace(w, repo, digest, dataDir, image, buildCalls);
    WorkspaceAdvance(w, repo, digest, dataDir, calls, buildCalls);
    calls := calls + buildCalls;
    if indexDescriptor.Err? {
      BuildStagesShareMessage(Last(buildCalls));
      return LambdaError(BuildFailed, indexDescriptor.error), calls;
    }
    var push := Push(indexDescriptor.value, repo, dataDir);
    WorkspaceAdvance(w, repo, digest, dataDir, calls, [push]);
    calls := calls + [push];
    if w.push.Some? {
      return LambdaError(PushFailed, w.push.value), calls;
    }
    report := Report(Succeeded, None);
  }

  /** The calls of `InWorkspace` so far: stages from 3 on, all succeeded, all inside `dataDir`. */
  predicate WorkspaceSoFar(w: World, repo: string, digest: string, dataDir: string, calls: seq<Step>) {
    && RunsInOrder(calls, 3)
    && (forall i :: 0 <= i < |calls| ==> StepError(w, calls[i]).None?)
    && (forall i :: 0 <= i < |calls| ==> InWorkspaceCall(w, repo, digest, dataDir, calls[i]))
  }

  /** Making the next calls of `InWorkspace` after calls that all succeeded. */
  lemma {:induction false} WorkspaceAdvance(w: World, repo: string, digest: string, dataDir: string,
                                            calls: seq<Step>, more: seq<Step>)
    requires WorkspaceSoFar(w, repo, digest, dataDir, calls)
    requires RunsInOrder(more, 3 + |calls|) && StopsAtFirstFailure(w, more) && |more| > 0
    requires forall i :: 0 <= i < |more| ==> InWorkspaceCall(w, repo, digest, dataDir, more[i])
    ensures RunsInOrder(calls + more, 3) && StopsAtFirstFailure(w, calls + more) && Last(calls + more) == Last(more)
    ensures forall i :: 0 <= i < |calls + more| ==> InWorkspaceCall(w, repo, digest, dataDir, (calls + more)[i])
    ensures StepError(w, Last(more)).None? ==> WorkspaceSoFar(w, repo, digest, dataDir, calls + more)
  {
    RunsInOrderConcat(calls, more, 3);
    StopsAtFirstFailureConcat(w, calls, more);
    forall i | 0 <= i < |calls + more| ensures InWorkspaceCall(w, repo, digest, dataDir, (calls + more)[i]) {
      if i < |calls| { assert (calls + more)[i] == calls[i]; } else { assert (calls + more)[i] == more[i - |calls|]; }
    }
    if StepError(w, Last(more)).None? {
      forall i | 0 <= i < |calls + more| ensures StepError(w, (calls + more)[i]).None? {
        if i < |calls| { assert (calls + more)[i] == calls[i]; } else { assert (calls + more)[i] == more[i - |calls|]; }
      }
    }
  }

  /** The calls of `buildIndex`, run on the pulled image in `dataDir`, are calls inside the workspace. */
  lemma {:induction false} BuilderCallsInWorkspace(w: World, repo: string, digest: string, dataDir: string,
                                                   image: Image, calls: seq<Step>)
    requires w.pull.Ok? && image == ImageOf(repo, digest, w.pull.value)
    requires RunsInOrder(calls, 5) && |calls| <= 5
    requires forall i :: 0 <= i < |calls| ==> BuilderArguments(dataDir, image, calls[i])
    ensures forall i :: 0 <= i < |calls| ==> InWorkspaceCall(w, repo, digest, dataDir, calls[i])
  {
    forall i | 0 <= i < |calls| ensures InWorkspaceCall(w, repo, digest, dataDir, calls[i]) {
      assert Stage(calls[i]) == 5 + i && BuilderArguments(dataDir, image, calls[i]);
    }
  }

  /** Validation failed: the run stops after validating, without an error. */
  predicate Skipped(w: World, trace: seq<Step>) {
    |Calls(trace)| == 2 && StepError(w, Calls(trace)[1]).Some?
  }

  /** Every call up to and including `Push` succeeded. */
  predicate Completed(w: World, trace: seq<Step>) {
    |Calls(trace)| == 11 && StepError(w, Calls(trace)[10]).None?
  }

  /** The shape of a run of `process`: the calls are made in the fixed order and the first failure
      stops them; the first call initialises the client for the derived registry, the second
      validates the given manifest. */
  predicate RunShape(w: World, repo: string, digest: string, url: string, trace: seq<Step>) {
    && RunsInOrder(Calls(trace), 0) && StopsAtFirstFailure(w, Calls(trace)) && Halts(w, Calls(trace), 10)
    && Calls(trace)[0] == RegistryInit(url)
    && (|Calls(trace)| > 1 ==> Calls(trace)[1] == ValidateManifest(repo, digest))
  }

  /** The report of `process`: no error exactly when validation skipped the run or every call
      succeeded, the success message exactly in the latter case, and otherwise the message and
      the error of the call that failed. */
  predicate Classified(w: World, report: Report, trace: seq<Step>) {
    && (report.err.None? <==> Skipped(w, trace) || Completed(w, trace))
    && (Skipped(w, trace) ==> report.msg == SkippedEarly)
    && (report.msg == Succeeded <==> Completed(w, trace))
    && (report.err.Some? ==>
          |Calls(trace)| > 0 && report == Report(FailureMessage(Last(Calls(trace))), StepError(w, Last(Calls(trace)))))
  }

  /** The temp directory: once created it is removed by the final call of the trace, otherwise
      it never existed and nothing is removed; every call that uses it finds it live. */
  predicate CleansUp(w: World, trace: seq<Step>) {
    && (Created(w, trace) ==>
          |trace| > 0 && Last(trace) == CleanUp(w.tempDir.value) && WorkspaceAfter(w, trace) == Removed(w.tempDir.value))
    && (!Created(w, trace) ==> WorkspaceAfter(w, trace) == Absent && forall i :: 0 <= i < |trace| ==> !trace[i].CleanUp?)
    && (forall i :: 0 <= i < |trace| && UsesWorkspace(trace[i]) ==> WorkspaceAfter(w, trace[..i]) == Live(trace[i].dir))
  }

  /** Every call of the trace gets the arguments `process` hands on. */
  predicate HandsOn(w: World, repo: string, digest: string, trace: seq<Step>) {
    forall i :: 0 <= i < |trace| ==> ArgumentsHandedOn(w, repo, digest, trace[i])
  }

  /** `process`: derive the registry URL, initialise the registry client, validate the manifest,
      create the temp directory, and in it pull, build and push; `defer cleanUp` removes the directory
      on every return once it exists, leaving the result untouched. */
  method Process(w: World, repo: string, digest: string, region: string, account: string)
    returns (report: Report, trace: seq<Step>)
    ensures RunShape(w, repo, digest, BuildEcrRegistryUrl(region, account), trace)
    ensures w.registryInit.None? && w.validation.Some? ==>
              report == Report(SkippedEarly, None) &&
              trace == [RegistryInit(BuildEcrRegistryUrl(region, account)), ValidateManifest(repo, digest)]
    ensures Classified(w, report, trace)
    ensures CleansUp(w, trace)
    ensures HandsOn(w, repo, digest, trace)
  {
    var registryUrl := BuildEcrRegistryUrl(region, account);
    trace := [RegistryInit(registryUrl)];
    if w.registryInit.Some? {
      report := LambdaError(RegistryInitFailed, w.registryInit.value);
      RegistryInitFails(w, repo, digest, registryUrl, report, trace);
      return;
    }
    trace := trace + [ValidateManifest(repo, digest)];
    if w.validation.Some? {
      // not an error, so that the invoker does not retry
      report := Report(SkippedEarly, None);
      ValidationSkips(w, repo, digest, registryUrl, report, trace);
      return;
    }
    trace := trace + [CreateTempDir];
    if w.tempDir.Err? {
      report := LambdaError(DirectoryCreateFailed, w.tempDir.error);
      TempDirFails(w, repo, digest, registryUrl, report, trace);
      return;
    }
    var dataDir := w.tempDir.value;
    var prefix := trace;
    var calls;
    report, calls := InWorkspace(w, repo, digest, dataDir);
    // deferred cleanUp: runs after the result is fixed and cannot change it
    trace := prefix + calls + [CleanUp(dataDir)];
    RunInWorkspace(w, repo, digest, registryUrl, dataDir, calls, report, trace);
    CleanUpAfterWorkspace(w, repo, digest, registryUrl, dataDir, calls, trace);
  }

  /** `process` when the registry client cannot be initialised: one call, reported as an error. */
  lemma {:induction false} RegistryInitFails(w: World, repo: string, digest: string, url: string,
                                             report: Report, trace: seq<Step>)
    requires w.registryInit.Some? && report == LambdaError(RegistryInitFailed, w.registryInit.value)
    requires trace == [RegistryInit(url)]
    ensures RunShape(w, repo, digest, url, trace) && Classified(w, report, trace)
    ensures CleansUp(w, trace) && HandsOn(w, repo, digest, trace)
  {
    assert Calls(trace) == trace && trace[..0] == [];
  }

  /** `process` when the manifest does not validate: two calls and a report without error. */
  lemma {:induction false} ValidationSkips(w: World, repo: string, digest: string, url: string,
                                           report: Report, trace: seq<Step>)
    requires w.registryInit.None? && w.validation.Some? && report == Report(SkippedEarly, None)
    requires trace == [RegistryInit(url), ValidateManifest(repo, digest)]
    ensures RunShape(w, repo, digest, url, trace) && Classified(w, report, trace)
    ensures CleansUp(w, trace) && HandsOn(w, repo, digest, trace)
  {
    assert Calls(trace) == trace && !Created(w, trace);
    assert trace[..1][..0] == [] && trace[..1] == [trace[0]];
    assert WorkspaceAfter(w, trace[..1]) == Absent;
  }

  /** `process` when the temp directory cannot be created: three calls, reported as an error,
      and nothing to clean up. */
  lemma {:induction false} TempDirFails(w: World, repo: string, digest: string, url: string,
                                        report: Report, trace: seq<Step>)
    requires w.registryInit.None? && w.validation.None? && w.tempDir.Err?
    requires report == LambdaError(DirectoryCreateFailed, w.tempDir.error)
    requires trace == [RegistryInit(url), ValidateManifest(repo, digest), CreateTempDir]
    ensures RunShape(w, repo, digest, url, trace) && Classified(w, report, trace)
    ensures CleansUp(w, trace) && HandsOn(w, repo, digest, trace)
  {
    assert Calls(trace) == trace && !Created(w, trace);
    assert trace[..2][..1][..0] == [] && trace[..2][..1] == [trace[0]];
    assert WorkspaceAfter(w, trace[..2][..1]) == Absent;
    assert WorkspaceAfter(w, trace[..2]) == Absent;
  }

  /** The order and the report of `Process` on the path where the temp directory was created: the
      calls of `InWorkspace` follow registry init, validation and directory creation. */
  lemma {:induction false} RunInWorkspace(w: World, repo: string, digest: string, url: string,
                                          dataDir: string, calls: seq<Step>, report: Report, trace: seq<Step>)
    requires w.registryInit.None? && w.validation.None? && w.tempDir == Ok(dataDir)
    requires RunsInOrder(calls, 3) && StopsAtFirstFailure(w, calls) && Halts(w, calls, 10)
    requires report.err.None? <==> StepError(w, Last(calls)).None?
    requires report.err.None? ==> report.msg == Succeeded
    requires report.err.Some? ==> report == Report(FailureMessage(Last(calls)), StepError(w, Last(calls)))
    requires trace == [RegistryInit(url), ValidateManifest(repo, digest), CreateTempDir]
                      + calls + [CleanUp(dataDir)]
    ensures RunShape(w, repo, digest, url, trace) && Classified(w, report, trace)
  {
    var prefix := [RegistryInit(url), ValidateManifest(repo, digest), CreateTempDir];
    assert Calls(trace) == prefix + calls;
    PrefixThenWorkspaceCalls(w, prefix, calls, report);
  }

  /** The temp directory on the path where it was created: every later call finds it live, the
      deferred cleanup comes last and removes it; and every call gets the arguments handed on. */
  lemma {:induction false} CleanUpAfterWorkspace(w: World, repo: string, digest: string, url: string,
                                                 dataDir: string, calls: seq<Step>, trace: seq<Step>)
    requires w.registryInit.None? && w.validation.None? && w.tempDir == Ok(dataDir)
    requires forall i :: 0 <= i < |calls| ==> InWorkspaceCall(w, repo, digest, dataDir, calls[i])
    requires trace == [RegistryInit(url), ValidateManifest(repo, digest), CreateTempDir]
                      + calls + [CleanUp(dataDir)]
    ensures CleansUp(w, trace) && HandsOn(w, repo, digest, trace)
  {
    var prefix := [RegistryInit(url), ValidateManifest(repo, digest), CreateTempDir];
    assert prefix[..2][..1][..0] == [] && prefix[..2][..1] == prefix[..1];
    assert prefix[..2] == prefix[..2][..1] + [prefix[1]];
    assert WorkspaceAfter(w, prefix) == Live(dataDir);
    WorkspaceFacts(w, repo, digest, prefix, calls, dataDir);
    assert CreateTempDir == trace[2];
  }

  /** The calls before the temp directory's use, followed by those made in it, form a run of the
      whole pipeline whose report is that of its last call. */
  lemma {:induction false} PrefixThenWorkspaceCalls(w: World, prefix: seq<Step>, calls: seq<Step>, report: Report)
    requires RunsInOrder(prefix, 0) && |prefix| == 3 && forall i :: 0 <= i < 3 ==> StepError(w, prefix[i]).None?
    requires RunsInOrder(calls, 3) && StopsAtFirstFailure(w, calls) && Halts(w, calls, 10)
    requires report.err.None? <==> StepError(w, Last(calls)).None?
    requires report.err.None? ==> report.msg == Succeeded
    requires report.err.Some? ==> report == Report(FailureMessage(Last(calls)), StepError(w, Last(calls)))
    ensures RunsInOrder(prefix + calls, 0) && StopsAtFirstFailure(w, prefix + calls) && Halts(w, prefix + calls, 10)
    ensures report.err.None? <==> |prefix + calls| == 11 && StepError(w, (prefix + calls)[10]).None?
    ensures report.msg == Succeeded <==> |prefix + calls| == 11 && StepError(w, (prefix + calls)[10]).None?
    ensures report.err.Some? ==> report == Report(FailureMessage(Last(prefix + calls)), StepError(w, Last(prefix + calls)))
  {
    RunsInOrderConcat(prefix, calls, 0);
    StopsAtFirstFailureConcat(w, prefix, calls);
    assert Stage(Last(calls)) == 2 + |calls|;
    if report.err.Some? {
      assert report.msg != Succeeded by {
        assert Stage(Last(calls)) >= 3;
      }
    }
  }

  /** The workspace facts `Process` needs about `prefix + calls + [CleanUp(dataDir)]`: every call
      of `calls` and the cleanup find the directory live, the cleanup removes it, and every call
      gets the arguments handed on. */
  lemma {:induction false} WorkspaceFacts(w: World, repo: string, digest: string,
                                          prefix: seq<Step>, calls: seq<Step>, dataDir: string)
    requires WorkspaceAfter(w, prefix) == Live(dataDir)
    requires forall i :: 0 <= i < |prefix| ==> !UsesWorkspace(prefix[i]) && ArgumentsHandedOn(w, repo, digest, prefix[i])
    requires forall i :: 0 <= i < |calls| ==> InWorkspaceCall(w, repo, digest, dataDir, calls[i])
    ensures var t := prefix + calls + [CleanUp(dataDir)];
      forall i :: 0 <= i < |t| && UsesWorkspace(t[i]) ==> WorkspaceAfter(w, t[..i]) == Live(t[i].dir)
    ensures var t := prefix + calls + [CleanUp(dataDir)];
      forall i :: 0 <= i < |t| ==> ArgumentsHandedOn(w, repo, digest, t[i])
    ensures WorkspaceAfter(w, prefix + calls + [CleanUp(dataDir)]) == Removed(dataDir)
  {
    var t := prefix + calls + [CleanUp(dataDir)];
    forall i | 0 <= i < |t| && UsesWorkspace(t[i]) ensures WorkspaceAfter(w, t[..i]) == Live(t[i].dir) {
      var k := i - |prefix|;
      assert 0 <= k <= |calls|;
      assert t[..i] == prefix + calls[..k];
      WorkspaceUnaffected(w, prefix, calls[..k]);
      if k < |calls| { assert t[i] == calls[k]; }
    }
    forall i | 0 <= i < |t| ensures ArgumentsHandedOn(w, repo, digest, t[i]) {
      if |prefix| <= i < |prefix| + |calls| { assert t[i] == calls[i - |prefix|]; }
    }
    assert t[..|t| - 1] == prefix + calls[..|calls|];
    WorkspaceUnaffected(w, prefix, calls[..|calls|]);
  }
}
