/** The batch generation run: for each task of a stored project, in order,
    build the prompts, resolve the task's references to public URLs, ask the
    image generator (or use a placeholder in a dry run), turn every returned
    URL into a result record, and put the task back into review. A task whose
    generation fails is skipped without touching it. Also the approval gate
    that decides whether a project may proceed. */
module RunNanoBananaGeneration {
  import opened Wrappers
  import opened Text
  import opened NanoBananaModels
  import opened AssetsRepository
  import opened NanoBananaRepository
  import opened NanoBananaPromptService

  /** A reference that resolved, with the URL sent to the generator. */
  datatype ResolvedRef = ResolvedRef(refId: string, resolvedUrl: string)

  /** The arguments of one generator call. */
  datatype GenerationCall = GenerationCall(
    prompt: string,
    negativePrompt: string,
    referenceImages: seq<string>,
    resolution: seq<int>,
    numOutputs: int,
    outputFormat: string)

  /** The generator returns the URLs of the generated images, or raises. */
  datatype GenerationOutcome = Generated(urls: seq<string>) | GenerationFailed

  /** Fetching one generated image: an HTTP status (200 means it was saved
      locally), or an exception while fetching or writing it. */
  datatype DownloadOutcome = Response(statusCode: int) | DownloadFailed

  /** What the orchestrator depends on but does not compute: the public base
      URL, the assets directory, `os.path.relpath` (None when it raises), the
      generator's answer for the task at each position, and the download of
      each URL of each task. */
  datatype Environment = Environment(
    publicBaseUrl: string,
    assetsDir: string,
    relPath: (string, string) -> Option<string>,
    generate: (nat, GenerationCall) -> GenerationOutcome,
    download: (nat, nat) -> DownloadOutcome)

  /** One entry of the list `execute` returns. */
  datatype ResultRecord = ResultRecord(
    taskId: string,
    variant: nat,
    imageUrl: string,
    finalPrompt: string,
    finalNegativePrompt: string,
    assetsSent: seq<ResolvedRef>)

  /** The placeholder a dry run uses instead of calling the generator. */
  const DryRunUrl := "http://mock.url/img1.png"

  /** The public URL of a file, from its path relative to the assets directory. */
  function PublicUrl(env: Environment, rel: string): string
  {
    env.publicBaseUrl + "/assets/" + Slashes(rel)
  }

  // ---------------------------------------------------------------------
  // Reference resolution

  /** One reference: its catalog asset, that asset's file, and the file's
      path relative to the assets directory; a failure at any step drops it. */
  function ResolveRef(ref: string, view: CatalogView, env: Environment): (r: Option<ResolvedRef>)
    ensures r.Some? ==> r.value.refId == ref
  {
    match LookupAsset(view, ref)
    case None => None
    case Some(asset) =>
      match ResolveFile(view, asset.fileName)
      case None => None
      case Some(path) =>
        match env.relPath(path, env.assetsDir)
        case None => None
        case Some(rel) => Some(ResolvedRef(ref, PublicUrl(env, rel)))
  }

  /** The references that resolve, in their original order. */
  function ResolvedRefs(refs: seq<string>, view: CatalogView, env: Environment): (r: seq<ResolvedRef>)
    ensures |r| <= |refs|
  {
    if |refs| == 0 then []
    else
      var last := ResolveRef(refs[|refs| - 1], view, env);
      ResolvedRefs(refs[..|refs| - 1], view, env) + (if last.Some? then [last.value] else [])
  }

  /** Exactly the references that resolve appear, each as its resolution gives it. */
  lemma {:induction false} ResolvedRefsMembers(refs: seq<string>, view: CatalogView, env: Environment)
    ensures forall x :: x in ResolvedRefs(refs, view, env) <==>
      exists i :: 0 <= i < |refs| && ResolveRef(refs[i], view, env) == Some(x)
  {
    if |refs| > 0 {
      var init := refs[..|refs| - 1];
      ResolvedRefsMembers(init, view, env);
      assert forall i :: 0 <= i < |init| ==> init[i] == refs[i];
    }
  }

  /** When every reference resolves, nothing is dropped and the order is kept. */
  lemma {:induction false} ResolvedRefsKeepOrder(refs: seq<string>, view: CatalogView, env: Environment)
    requires forall i :: 0 <= i < |refs| ==> ResolveRef(refs[i], view, env).Some?
    ensures |ResolvedRefs(refs, view, env)| == |refs|
    ensures forall i :: 0 <= i < |refs| ==> ResolvedRefs(refs, view, env)[i].refId == refs[i]
  {
    if |refs| > 0 {
      var init := refs[..|refs| - 1];
      assert forall i :: 0 <= i < |init| ==> init[i] == refs[i];
      ResolvedRefsKeepOrder(init, view, env);
      var last := ResolveRef(refs[|refs| - 1], view, env);
      assert ResolvedRefs(refs, view, env) == ResolvedRefs(init, view, env) + [last.value];
      assert last.value.refId == refs[|refs| - 1];
    }
  }

  /** The URLs sent to the generator. */
  function RefUrls(sent: seq<ResolvedRef>): seq<string>
  {
    seq(|sent|, k requires 0 <= k < |sent| => sent[k].resolvedUrl)
  }

  /** `_resolve_refs_detailed`: the catalog lookups may trigger its lazy load. */
  method ResolveRefsDetailed(refs: seq<string>, assets: AssetsRepository, env: Environment)
    returns (detailed: seq<ResolvedRef>)
    requires assets.Valid()
    modifies assets
    ensures assets.Valid()
    ensures detailed == ResolvedRefs(refs, assets.View(), env)
  {
    detailed := [];
    for i := 0 to |refs|
      invariant assets.Valid()
      invariant detailed == ResolvedRefs(refs[..i], assets.View(), env)
    {
      assert refs[..i + 1][..i] == refs[..i];
      var asset := assets.GetAsset(refs[i]);
      if asset.Some? {
        var path := assets.ResolveFilePath(asset.value.fileName);
        if path.Some? {
          var rel := env.relPath(path.value, env.assetsDir);
          if rel.Some? {
            detailed := detailed + [ResolvedRef(refs[i], PublicUrl(env, rel.value))];
          }
        }
      }
    }
    assert refs[..|refs|] == refs;
  }

  /** `_resolve_refs_to_urls`. */
  method ResolveRefsToUrls(refs: seq<string>, assets: AssetsRepository, env: Environment)
    returns (urls: seq<string>)
    requires assets.Valid()
    modifies assets
    ensures assets.Valid()
    ensures urls == RefUrls(ResolvedRefs(refs, assets.View(), env))
  {
    var detailed := ResolveRefsDetailed(refs, assets, env);
    urls := RefUrls(detailed);
  }

  // ---------------------------------------------------------------------
  // One task

  /** `img_{role}.png` for a single image, `img_{role}_v{n}.png` for variant n of several. */
  function VariantFileName(role: string, variant: nat, count: nat): string
  {
    "img_" + role + (if count > 1 then "_v" + NatToDecimal(variant) else "") + ".png"
  }

  lemma VariantFileNames(role: string, variant: nat, count: nat)
    ensures count <= 1 ==> VariantFileName(role, variant, count) == "img_" + role + ".png"
    ensures count > 1 ==> VariantFileName(role, variant, count) == "img_" + role + "_v" + NatToDecimal(variant) + ".png"
  {
    if count <= 1 {
      assert "img_" + role + "" == "img_" + role;
    }
  }

  /** `{assets}/videos/{project}/{task}/{block}/{shot}/{file}`. */
  function OutputPath(env: Environment, projectId: string, task: ImageTask, fileName: string): string
  {
    env.assetsDir + "/videos/" + projectId + "/" + task.taskId + "/" + task.blockId + "/" + task.shotId + "/" + fileName
  }

  /** Everything fixed for one task once its prompts are built, its references
      resolved and its URLs obtained. */
  datatype TaskContext = TaskContext(
    projectId: string,
    index: nat,
    task: ImageTask,
    prompt: string,
    negativePrompt: string,
    assetsSent: seq<ResolvedRef>,
    urls: seq<string>)

  /** The record for the URL at position j, or None when its download raised. */
  function VariantRecord(ctx: TaskContext, env: Environment, dryRun: bool, j: nat): Option<ResultRecord>
    requires j < |ctx.urls|
  {
    var url := ctx.urls[j];
    var path := OutputPath(env, ctx.projectId, ctx.task, VariantFileName(ctx.task.role, j + 1, |ctx.urls|));
    var record := (u: string) => ResultRecord(ctx.task.taskId, j + 1, u, ctx.prompt, ctx.negativePrompt, ctx.assetsSent);
    if dryRun then Some(record(url))
    else match env.download(ctx.index, j)
      case DownloadFailed => None
      case Response(code) =>
        if code != 200 then Some(record(url))
        else match env.relPath(path, env.assetsDir)
          case None => None
          case Some(rel) => Some(record(PublicUrl(env, rel)))
  }

  /** A record belongs to the task: its ID, its prompts, its resolved
      references, and a variant number within 1..count. */
  ghost predicate RecordOfTask(r: ResultRecord, ctx: TaskContext)
  {
    && r.taskId == ctx.task.taskId
    && r.finalPrompt == ctx.prompt
    && r.finalNegativePrompt == ctx.negativePrompt
    && r.assetsSent == ctx.assetsSent
    && 1 <= r.variant <= |ctx.urls|
  }

  /** A URL gives no record exactly when, outside a dry run, its download
      raised, or the image was saved but its path could not be made relative
      to the assets directory. A record it gives is variant j + 1 of the task
      and keeps the generator's URL unless the image was saved locally, in
      which case it carries the public URL of the saved file. */
  lemma VariantRecordSkips(ctx: TaskContext, env: Environment, dryRun: bool, j: nat)
    requires j < |ctx.urls|
    ensures var r := VariantRecord(ctx, env, dryRun, j);
      var d := env.download(ctx.index, j);
      var path := OutputPath(env, ctx.projectId, ctx.task, VariantFileName(ctx.task.role, j + 1, |ctx.urls|));
      var savedLocally := !dryRun && d == Response(200);
      && (r.None? <==> !dryRun && (d.DownloadFailed? || (savedLocally && env.relPath(path, env.assetsDir).None?)))
      && (r.Some? ==> RecordOfTask(r.value, ctx) && r.value.variant == j + 1)
      && (r.Some? && !savedLocally ==> r.value.imageUrl == ctx.urls[j])
      && (r.Some? && savedLocally ==> r.value.imageUrl == PublicUrl(env, env.relPath(path, env.assetsDir).value))
  {
  }

  /** The records of the first n URLs: at most one per URL, in URL order
      (strictly increasing 1-based variants), all carrying the task's data. */
  function VariantRecords(ctx: TaskContext, env: Environment, dryRun: bool, n: nat): (r: seq<ResultRecord>)
    requires n <= |ctx.urls|
    ensures |r| <= n
    ensures forall k :: 0 <= k < |r| ==> RecordOfTask(r[k], ctx) && r[k].variant <= n
    ensures forall k, m :: 0 <= k < m < |r| ==> r[k].variant < r[m].variant
  {
    if n == 0 then []
    else
      var last := VariantRecord(ctx, env, dryRun, n - 1);
      VariantRecords(ctx, env, dryRun, n - 1) + (if last.Some? then [last.value] else [])
  }

  /** The download loop of one task. */
  method DownloadVariants(ctx: TaskContext, env: Environment, dryRun: bool) returns (records: seq<ResultRecord>)
    ensures records == VariantRecords(ctx, env, dryRun, |ctx.urls|)
  {
    records := [];
    for j := 0 to |ctx.urls|
      invariant records == VariantRecords(ctx, env, dryRun, j)
    {
      var url := ctx.urls[j];
      var variant := j + 1;
      var fileName := VariantFileName(ctx.task.role, variant, |ctx.urls|);
      var path := OutputPath(env, ctx.projectId, ctx.task, fileName);
      var publicUrl := url;
      var saved := true;
      if !dryRun {
        match env.download(ctx.index, j) {
          case DownloadFailed =>
            saved := false;
          case Response(code) =>
            if code == 200 {
              var rel := env.relPath(path, env.assetsDir);
              if rel.Some? {
                publicUrl := PublicUrl(env, rel.value);
              } else {
                saved := false;
              }
            }
        }
      }
      if saved {
        records := records + [ResultRecord(ctx.task.taskId, variant, publicUrl, ctx.prompt, ctx.negativePrompt, ctx.assetsSent)];
      }
    }
  }

  // ---------------------------------------------------------------------
  // The whole run

  /** The inputs of one `execute` call. */
  datatype Run = Run(projectId: string, request: Request, view: CatalogView, env: Environment, dryRun: bool)

  function CallFor(request: Request, prompt: string, negativePrompt: string, sent: seq<ResolvedRef>): GenerationCall
  {
    GenerationCall(prompt, negativePrompt, RefUrls(sent), request.project.output.resolutionPx,
      request.project.productionRules.variantsPerImageTask, request.project.output.imageFormat)
  }

  /** What the task at position i gets up to its download loop: its context,
      or None when the generator raised. */
  function TaskContextAt(run: Run, i: nat): Option<TaskContext>
    requires i < |run.request.imageTasks|
  {
    var task := run.request.imageTasks[i];
    var prompt := ConstructPrompt(run.request.stylePresets, task);
    var negative := ConstructNegativePrompt(run.request.stylePresets, task);
    var sent := ResolvedRefs(task.refs, run.view, run.env);
    var urls :=
      if run.dryRun then Some([DryRunUrl])
      else match run.env.generate(i, CallFor(run.request, prompt, negative, sent))
        case GenerationFailed => None
        case Generated(urls) => Some(urls);
    if urls.None? then None
    else Some(TaskContext(run.projectId, i, task, prompt, negative, sent, urls.value))
  }

  /** The records of the task at position i, or None when it failed. */
  function TaskRecords(run: Run, i: nat): Option<seq<ResultRecord>>
    requires i < |run.request.imageTasks|
  {
    var ctx := TaskContextAt(run, i);
    if ctx.None? then None else Some(VariantRecords(ctx.value, run.env, run.dryRun, |ctx.value.urls|))
  }

  /** The records a task outcome contributes: none when the task failed. */
  function Produced(t: Option<seq<ResultRecord>>): seq<ResultRecord>
  {
    if t.Some? then t.value else []
  }

  /** The records of a sequence of task outcomes, in task order. */
  function Flatten(outs: seq<Option<seq<ResultRecord>>>): seq<ResultRecord>
  {
    if |outs| == 0 then [] else Flatten(outs[..|outs| - 1]) + Produced(outs[|outs| - 1])
  }

  /** The outcome of every task of a run, in task order. */
  function TaskOutcomes(run: Run): seq<Option<seq<ResultRecord>>>
  {
    seq(|run.request.imageTasks|, k requires 0 <= k < |run.request.imageTasks| => TaskRecords(run, k))
  }

  function AllRecords(run: Run): seq<ResultRecord>
  {
    Flatten(TaskOutcomes(run))
  }

  function ResetForReview(task: ImageTask): ImageTask
  {
    task.(approval := Approval(PendingReview))
  }

  /** The tasks once the first n outcomes are known: those that got through
      their download loop are back in review; the others, and every task not
      yet reached, are untouched. */
  function TasksAfter(tasks: seq<ImageTask>, outs: seq<Option<seq<ResultRecord>>>, n: nat): (r: seq<ImageTask>)
    requires n <= |outs| == |tasks|
    ensures |r| == |tasks|
  {
    seq(|tasks|, k requires 0 <= k < |tasks| => if k < n && outs[k].Some? then ResetForReview(tasks[k]) else tasks[k])
  }

  /** The project as the run leaves it. */
  function FinalRequest(run: Run): Request
  {
    var tasks := run.request.imageTasks;
    run.request.(imageTasks := TasksAfter(tasks, TaskOutcomes(run), |tasks|))
  }

  /** Whether one of the first n tasks got through its download loop. */
  predicate AnyRan(outs: seq<Option<seq<ResultRecord>>>, n: nat)
    requires n <= |outs|
  {
    exists k :: 0 <= k < n && outs[k].Some?
  }

  predicate AnyTaskRan(run: Run)
  {
    AnyRan(TaskOutcomes(run), |run.request.imageTasks|)
  }

  /** Appending one outcome appends its records. */
  lemma FlattenAppend(outs: seq<Option<seq<ResultRecord>>>, t: Option<seq<ResultRecord>>)
    ensures Flatten(outs + [t]) == Flatten(outs) + Produced(t)
  {
    assert (outs + [t])[..|outs|] == outs;
  }

  /** A record is in the flattened list exactly when some outcome produced it. */
  lemma {:induction false} FlattenMembers(outs: seq<Option<seq<ResultRecord>>>, x: ResultRecord)
    ensures x in Flatten(outs) <==> exists k :: 0 <= k < |outs| && x in Produced(outs[k])
  {
    if |outs| > 0 {
      var init := outs[..|outs| - 1];
      FlattenMembers(init, x);
      assert forall k :: 0 <= k < |init| ==> init[k] == outs[k];
    }
  }

  /** Outcomes of one record each flatten to those records. */
  lemma {:induction false} FlattenSingletons(outs: seq<Option<seq<ResultRecord>>>, records: seq<ResultRecord>)
    requires |outs| == |records|
    requires forall k :: 0 <= k < |outs| ==> outs[k] == Some([records[k]])
    ensures Flatten(outs) == records
  {
    if |outs| > 0 {
      var n := |outs| - 1;
      FlattenSingletons(outs[..n], records[..n]);
      assert records == records[..n] + [records[n]];
    }
  }

  /** One step of the task loop: the task at position i adds its records,
      goes back to review if it ran, and counts as run if it ran. */
  lemma RunStep(tasks: seq<ImageTask>, outs: seq<Option<seq<ResultRecord>>>, i: nat)
    requires i < |outs| == |tasks|
    ensures Flatten(outs[..i + 1]) == Flatten(outs[..i]) + Produced(outs[i])
    ensures TasksAfter(tasks, outs, i + 1) ==
      if outs[i].Some? then TasksAfter(tasks, outs, i)[i := ResetForReview(tasks[i])] else TasksAfter(tasks, outs, i)
    ensures AnyRan(outs, i + 1) <==> AnyRan(outs, i) || outs[i].Some?
  {
    assert outs[..i + 1] == outs[..i] + [outs[i]];
    FlattenAppend(outs[..i], outs[i]);
    if AnyRan(outs, i + 1) && !outs[i].Some? {
      var k :| 0 <= k < i + 1 && outs[k].Some?;
      assert k < i;
    }
  }

  /** One pass of the task loop up to the download loop's end: prompts,
      reference resolution, the generator call (or the placeholder) and the
      downloads. None when the generator raised. */
  method RunTask(projectId: string, request: Request, i: nat, dryRun: bool, assets: AssetsRepository, env: Environment)
    returns (records: Option<seq<ResultRecord>>)
    requires i < |request.imageTasks| && assets.Valid()
    modifies assets
    ensures assets.Valid()
    ensures records == TaskRecords(Run(projectId, request, assets.View(), env, dryRun), i)
  {
    ghost var run := Run(projectId, request, assets.View(), env, dryRun);
    var task := request.imageTasks[i];
    var prompt := ConstructPrompt(request.stylePresets, task);
    var negative := ConstructNegativePrompt(request.stylePresets, task);
    var sent := ResolveRefsDetailed(task.refs, assets, env);
    var urls: seq<string>;
    if dryRun {
      urls := [DryRunUrl];
    } else {
      var call := GenerationCall(prompt, negative, RefUrls(sent), request.project.output.resolutionPx,
        request.project.productionRules.variantsPerImageTask, request.project.output.imageFormat);
      assert call == CallFor(request, prompt, negative, sent);
      match env.generate(i, call) {
        case GenerationFailed =>
          return None;
        case Generated(us) =>
          urls := us;
      }
    }
    var ctx := TaskContext(projectId, i, task, prompt, negative, sent, urls);
    assert TaskContextAt(run, i) == Some(ctx);
    var taskResults := DownloadVariants(ctx, env, dryRun);
    return Some(taskResults);
  }

  /** A task's records depend on its own entry, not on the other tasks' statuses. */
  lemma TaskRecordsOfOwnEntry(run: Run, tasks: seq<ImageTask>, i: nat)
    requires i < |run.request.imageTasks| == |tasks| && tasks[i] == run.request.imageTasks[i]
    ensures TaskRecords(run.(request := run.request.(imageTasks := tasks)), i) == TaskRecords(run, i)
  {
    var other := run.(request := run.request.(imageTasks := tasks));
    assert TaskContextAt(other, i) == TaskContextAt(run, i);
  }

  /** `execute`: an unknown project fails before any task runs. Otherwise the
      result is the records of every task in order; the stored project ends
      with every task that ran put back into review; and the project becomes
      the current one as soon as one task has run. */
  method Execute(projectId: string, dryRun: bool, repository: ProjectRepository, assets: AssetsRepository, env: Environment)
    returns (r: Result<seq<ResultRecord>, string>)
    requires repository.Valid() && assets.Valid()
    modifies repository, assets
    ensures repository.Valid() && assets.Valid()
    ensures projectId !in old(repository.store) ==>
      && r == Failure("Project " + projectId + " not found in repository.")
      && repository.store == old(repository.store)
      && repository.currentProjectId == old(repository.currentProjectId)
    ensures projectId in old(repository.store) ==>
      var run := Run(projectId, old(repository.store[projectId]), assets.View(), env, dryRun);
      && r == Success(AllRecords(run))
      && repository.store == old(repository.store)[projectId := FinalRequest(run)]
      && repository.currentProjectId ==
           if AnyTaskRan(run) then Some(projectId) else old(repository.currentProjectId)
  {
    var found := repository.Get(projectId);
    if found.None? {
      return Failure("Project " + projectId + " not found in repository.");
    }
    var request := found.value;
    ghost var run := Run(projectId, request, assets.View(), env, dryRun);
    ghost var tasks := request.imageTasks;
    ghost var outs := TaskOutcomes(run);
    var results := [];
    assert TasksAfter(tasks, outs, 0) == tasks;
    assert request.project.projectId == projectId;
    for i := 0 to |request.imageTasks|
      invariant repository.Valid() && assets.Valid() && assets.View() == run.view
      invariant request.project.projectId == projectId
      invariant results == Flatten(outs[..i])
      invariant request == run.request.(imageTasks := TasksAfter(tasks, outs, i))
      invariant repository.store == old(repository.store)[projectId := request]
      invariant repository.currentProjectId == if AnyRan(outs, i) then Some(projectId) else old(repository.currentProjectId)
    {
      TaskRecordsOfOwnEntry(run, request.imageTasks, i);
      RunStep(tasks, outs, i);
      ghost var before := request;
      var taskResults := RunTask(projectId, request, i, dryRun, assets, env);
      assert taskResults == outs[i];
      results := results + Produced(taskResults);
      if taskResults.Some? {
        var task := request.imageTasks[i];
        request := request.(imageTasks := request.imageTasks[i := ResetForReview(task)]);
        var id := repository.Save(request);
        assert id == projectId;
        StoreUpdatedTwice(old(repository.store), projectId, before, request);
      }
    }
    assert outs[..|outs|] == outs;
    return Success(results);
  }

  /** Saving the project again under its ID replaces the entry saved before:
      the store keeps one entry per project, the last one. */
  lemma StoreUpdatedTwice(m: map<string, Request>, k: string, a: Request, b: Request)
    ensures m[k := a][k := b] == m[k := b]
  {
  }

  // ---------------------------------------------------------------------
  // Properties of a run

  /** A failed task keeps its status; a task that ran is back in review,
      overwriting APPROVED or REJECTED. */
  lemma TaskStatusAfterRun(run: Run, k: nat)
    requires k < |run.request.imageTasks|
    ensures TaskRecords(run, k).None? ==> FinalRequest(run).imageTasks[k] == run.request.imageTasks[k]
    ensures TaskRecords(run, k).Some? ==>
      FinalRequest(run).imageTasks[k] == run.request.imageTasks[k].(approval := Approval(PendingReview))
  {
  }

  /** Every record of a run comes from one of its tasks and carries that
      task's prompts and resolved references. */
  lemma RecordsComeFromTasks(run: Run, r: ResultRecord)
    requires r in AllRecords(run)
    ensures exists k :: (0 <= k < |run.request.imageTasks| && TaskContextAt(run, k).Some?
      && RecordOfTask(r, TaskContextAt(run, k).value))
  {
    var outs := TaskOutcomes(run);
    FlattenMembers(outs, r);
    var k :| 0 <= k < |outs| && r in Produced(outs[k]);
    TaskRecordOfTask(run, k, r);
  }

  /** A record in the outcome of task k belongs to that task. */
  lemma TaskRecordOfTask(run: Run, k: nat, r: ResultRecord)
    requires k < |run.request.imageTasks| && r in Produced(TaskRecords(run, k))
    ensures TaskContextAt(run, k).Some? && RecordOfTask(r, TaskContextAt(run, k).value)
  {
    var ctx := TaskContextAt(run, k);
    var records := VariantRecords(ctx.value, run.env, run.dryRun, |ctx.value.urls|);
    assert r in records;
    var j :| 0 <= j < |records| && records[j] == r;
  }

  /** The record a dry run produces for the task at position k. */
  function DryRunRecord(run: Run, k: nat): ResultRecord
    requires k < |run.request.imageTasks|
  {
    var task := run.request.imageTasks[k];
    ResultRecord(task.taskId, 1, DryRunUrl, ConstructPrompt(run.request.stylePresets, task),
      ConstructNegativePrompt(run.request.stylePresets, task), ResolvedRefs(task.refs, run.view, run.env))
  }

  /** In a dry run, every task yields exactly one record, for the placeholder. */
  lemma DryRunTask(run: Run, i: nat)
    requires run.dryRun && i < |run.request.imageTasks|
    ensures TaskRecords(run, i) == Some([DryRunRecord(run, i)])
  {
    var ctx := TaskContextAt(run, i).value;
    assert VariantRecords(ctx, run.env, true, 1) == [VariantRecord(ctx, run.env, true, 0).value];
  }

  /** A dry run yields exactly one record per task, in task order, for the
      placeholder URL, as variant 1, with the task's own prompts. */
  lemma DryRunRecords(run: Run)
    requires run.dryRun
    ensures AllRecords(run) == seq(|run.request.imageTasks|, k requires 0 <= k < |run.request.imageTasks| => DryRunRecord(run, k))
  {
    var outs := TaskOutcomes(run);
    var records := seq(|run.request.imageTasks|, k requires 0 <= k < |run.request.imageTasks| => DryRunRecord(run, k));
    forall k | 0 <= k < |outs|
      ensures outs[k] == Some([records[k]])
    {
      DryRunTask(run, k);
    }
    FlattenSingletons(outs, records);
  }

  /** A dry run never consults the generator or the downloads: any other
      generator and downloader give the same results and the same final project. */
  lemma DryRunIgnoresGenerator(run: Run,
      generate: (nat, GenerationCall) -> GenerationOutcome, download: (nat, nat) -> DownloadOutcome)
    requires run.dryRun
    ensures var other := run.(env := run.env.(generate := generate, download := download));
      AllRecords(other) == AllRecords(run) && FinalRequest(other) == FinalRequest(run)
  {
    var other := run.(env := run.env.(generate := generate, download := download));
    forall k | 0 <= k < |run.request.imageTasks|
      ensures TaskRecords(other, k) == TaskRecords(run, k)
    {
      DryRunTask(run, k);
      DryRunTask(other, k);
      ResolvedRefsIgnoresGenerator(run.request.imageTasks[k].refs, run.view, run.env, other.env);
    }
    assert TaskOutcomes(other) == TaskOutcomes(run);
  }

  lemma {:induction false} ResolvedRefsIgnoresGenerator(refs: seq<string>, view: CatalogView, env: Environment, other: Environment)
    requires other.publicBaseUrl == env.publicBaseUrl && other.assetsDir == env.assetsDir && other.relPath == env.relPath
    ensures ResolvedRefs(refs, view, other) == ResolvedRefs(refs, view, env)
  {
    if |refs| > 0 {
      ResolvedRefsIgnoresGenerator(refs[..|refs| - 1], view, env, other);
    }
  }

  // ---------------------------------------------------------------------
  // The approval gate

  /** The IDs of the tasks that are not approved, in task order. */
  function PendingTaskIds(tasks: seq<ImageTask>): (r: seq<string>)
    ensures |r| <= |tasks|
    ensures |r| == 0 <==> forall k :: 0 <= k < |tasks| ==> tasks[k].approval.status == Approved
  {
    if |tasks| == 0 then []
    else
      var rest := PendingTaskIds(tasks[1..]);
      assert forall k :: 1 <= k < |tasks| ==> tasks[k] == tasks[1..][k - 1];
      (if tasks[0].approval.status != Approved then [tasks[0].taskId] else []) + rest
  }

  /** The gate is off only for the literal rule "none"; any other rule,
      including "false" and "", keeps it on. */
  predicate GateActive(rules: ProductionRules)
  {
    rules.approvalGate != "none"
  }

  /** `check_project_approval`: False for an unknown project; True when the
      gate is off; otherwise True exactly when every task is APPROVED (so one
      REJECTED or PENDING_REVIEW task blocks, and no tasks at all passes). */
  function CheckProjectApproval(repository: ProjectRepository, projectId: string): (allowed: bool)
    reads repository
    ensures projectId !in repository.store ==> !allowed
    ensures projectId in repository.store ==>
      var request := repository.store[projectId];
      allowed <==> (!GateActive(request.project.productionRules)
        || forall k :: 0 <= k < |request.imageTasks| ==> request.imageTasks[k].approval.status == Approved)
  {
    match repository.Get(projectId)
    case None => false
    case Some(request) =>
      if !GateActive(request.project.productionRules) then true
      else |PendingTaskIds(request.imageTasks)| == 0
  }

  /** After a run in which some task ran, an active gate blocks the project. */
  lemma GateBlocksAfterRun(run: Run, k: nat)
    requires k < |run.request.imageTasks| && TaskRecords(run, k).Some?
    requires GateActive(run.request.project.productionRules)
    ensures FinalRequest(run).imageTasks[k].approval.status == PendingReview
    ensures |PendingTaskIds(FinalRequest(run).imageTasks)| > 0
  {
    TaskStatusAfterRun(run, k);
  }
}
