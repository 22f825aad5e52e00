/** Batch ingestion: every task's reference list is checked against the
    ref limit, the IDs the project's own asset library declares, the asset
    catalog and the files on disk; the first violation rejects the project,
    and only a project that passes is stored. */
module IngestNanoBanana {
  import opened Wrappers
  import opened NanoBananaModels
  import opened AssetsRepository
  import opened NanoBananaRepository

  /** The four rejections, carrying what the source's error message names. */
  datatype IngestError =
    | RefLimitExceeded(taskId: string, count: nat, limit: int)
    | UnknownJsonAsset(taskId: string, ref: string)
    | NotInCatalog(taskId: string, ref: string)
    | FileNotFound(ref: string, fileName: string)

  /** The asset IDs the project declares: the values of every alias-mapping
      category. Alias keys and item-list categories contribute nothing. */
  function JsonAssetIds(library: map<string, LibraryCategory>): set<string>
  {
    set c, id | c in library && library[c].Aliases? && id in library[c].ids.Values :: id
  }

  /** A reference that passes all three checks. */
  predicate RefAccepted(ref: string, ids: set<string>, view: CatalogView)
  {
    && ref in ids
    && LookupAsset(view, ref).Some?
    && ResolveFile(view, LookupAsset(view, ref).value.fileName).Some?
  }

  /** The checks on one reference, in the source's order: declared in the
      project, found in the catalog, found on disk. */
  function RefError(taskId: string, ref: string, ids: set<string>, view: CatalogView): (r: Option<IngestError>)
    ensures r.None? <==> RefAccepted(ref, ids, view)
  {
    if ref !in ids then Some(UnknownJsonAsset(taskId, ref))
    else match LookupAsset(view, ref)
      case None => Some(NotInCatalog(taskId, ref))
      case Some(asset) =>
        if ResolveFile(view, asset.fileName).None? then Some(FileNotFound(ref, asset.fileName)) else None
  }

  /** The error of the first rejected reference, if any. */
  function RefsError(taskId: string, refs: seq<string>, ids: set<string>, view: CatalogView): (r: Option<IngestError>)
    ensures r.None? <==> forall k :: 0 <= k < |refs| ==> RefAccepted(refs[k], ids, view)
    ensures r.Some? ==> exists k :: (0 <= k < |refs| && r == RefError(taskId, refs[k], ids, view)
      && forall j :: 0 <= j < k ==> RefAccepted(refs[j], ids, view))
  {
    if |refs| == 0 then None
    else if RefError(taskId, refs[0], ids, view).Some? then RefError(taskId, refs[0], ids, view)
    else
      var r := RefsError(taskId, refs[1..], ids, view);
      assert forall k :: 1 <= k < |refs| ==> refs[k] == refs[1..][k - 1];
      r
  }

  /** A task passes when it has at most `maxRefs` references and each is accepted. */
  predicate TaskAccepted(task: ImageTask, maxRefs: int, ids: set<string>, view: CatalogView)
  {
    |task.refs| <= maxRefs && forall k :: 0 <= k < |task.refs| ==> RefAccepted(task.refs[k], ids, view)
  }

  /** The limit check (strictly more than `maxRefs` fails) comes before any reference check. */
  function TaskError(task: ImageTask, maxRefs: int, ids: set<string>, view: CatalogView): (r: Option<IngestError>)
    ensures r.None? <==> TaskAccepted(task, maxRefs, ids, view)
  {
    if |task.refs| > maxRefs then Some(RefLimitExceeded(task.taskId, |task.refs|, maxRefs))
    else RefsError(task.taskId, task.refs, ids, view)
  }

  /** The error of the first rejected task, if any. */
  function TasksError(tasks: seq<ImageTask>, maxRefs: int, ids: set<string>, view: CatalogView): (r: Option<IngestError>)
    ensures r.None? <==> forall i :: 0 <= i < |tasks| ==> TaskAccepted(tasks[i], maxRefs, ids, view)
    ensures r.Some? ==> exists i :: (0 <= i < |tasks| && r == TaskError(tasks[i], maxRefs, ids, view)
      && forall j :: 0 <= j < i ==> TaskAccepted(tasks[j], maxRefs, ids, view))
  {
    if |tasks| == 0 then None
    else if TaskError(tasks[0], maxRefs, ids, view).Some? then TaskError(tasks[0], maxRefs, ids, view)
    else
      var r := TasksError(tasks[1..], maxRefs, ids, view);
      assert forall i :: 1 <= i < |tasks| ==> tasks[i] == tasks[1..][i - 1];
      r
  }

  /** What `_validate_refs` decides for a request against a catalog snapshot. */
  function ValidationError(data: Request, view: CatalogView): Option<IngestError>
  {
    TasksError(data.imageTasks, data.project.productionRules.maxReferenceImages, JsonAssetIds(data.assetLibrary), view)
  }

  /** Validation passes iff every task is within the limit and each of its
      references is declared, catalogued and present on disk. */
  lemma ValidIff(data: Request, view: CatalogView)
    ensures ValidationError(data, view).None? <==>
      forall i :: 0 <= i < |data.imageTasks| ==>
        && |data.imageTasks[i].refs| <= data.project.productionRules.maxReferenceImages
        && forall k :: 0 <= k < |data.imageTasks[i].refs| ==>
          && data.imageTasks[i].refs[k] in JsonAssetIds(data.assetLibrary)
          && LookupAsset(view, data.imageTasks[i].refs[k]).Some?
          && ResolveFile(view, LookupAsset(view, data.imageTasks[i].refs[k]).value.fileName).Some?
  {
  }

  /** The limit is strict: exactly `maxRefs` references never trip it, and a
      limit error names the offending task and its count. */
  lemma LimitIsStrict(task: ImageTask, maxRefs: int, ids: set<string>, view: CatalogView)
    ensures (TaskError(task, maxRefs, ids, view).Some? && TaskError(task, maxRefs, ids, view).value.RefLimitExceeded?)
      <==> |task.refs| > maxRefs
    ensures |task.refs| > maxRefs ==>
      TaskError(task, maxRefs, ids, view) == Some(RefLimitExceeded(task.taskId, |task.refs|, maxRefs))
  {
    if |task.refs| <= maxRefs {
      RefsErrorIsNotLimit(task.taskId, task.refs, ids, view);
    }
  }

  lemma {:induction false} RefsErrorIsNotLimit(taskId: string, refs: seq<string>, ids: set<string>, view: CatalogView)
    ensures var r := RefsError(taskId, refs, ids, view); r.Some? ==> !r.value.RefLimitExceeded?
  {
    if |refs| > 0 && RefError(taskId, refs[0], ids, view).None? {
      RefsErrorIsNotLimit(taskId, refs[1..], ids, view);
    }
  }

  /** An undeclared reference is rejected as unknown in the project whatever
      the catalog or the disk hold: that check comes before any lookup. */
  lemma UnknownBeforeCatalog(taskId: string, ref: string, ids: set<string>, view1: CatalogView, view2: CatalogView)
    requires ref !in ids
    ensures RefError(taskId, ref, ids, view1) == RefError(taskId, ref, ids, view2) == Some(UnknownJsonAsset(taskId, ref))
  {
  }

  /** A task without references passes whenever the limit is not negative. */
  lemma EmptyRefsPass(task: ImageTask, maxRefs: int, ids: set<string>, view: CatalogView)
    requires task.refs == [] && maxRefs >= 0
    ensures TaskError(task, maxRefs, ids, view).None?
  {
  }

  /** Declared IDs of one category. */
  function CategoryIds(category: LibraryCategory): set<string>
  {
    if category.Aliases? then category.ids.Values else {}
  }

  /** Adding one category to a library adds exactly that category's declared
      IDs; so an item-list category adds none, and alias keys never count. */
  lemma AddCategory(library: map<string, LibraryCategory>, c: string)
    requires c in library
    ensures JsonAssetIds(library) == JsonAssetIds(library - {c}) + CategoryIds(library[c])
  {
    var rest := library - {c};
    forall id | id in JsonAssetIds(library)
      ensures id in JsonAssetIds(rest) + CategoryIds(library[c])
    {
      var c' :| c' in library && library[c'].Aliases? && id in library[c'].ids.Values;
      if c' != c {
        assert c' in rest && rest[c'] == library[c'];
        assert id in JsonAssetIds(rest);
      } else {
        assert id in CategoryIds(library[c]);
      }
    }
    forall id | id in JsonAssetIds(rest) + CategoryIds(library[c])
      ensures id in JsonAssetIds(library)
    {
      if id in JsonAssetIds(rest) {
        var c' :| c' in rest && rest[c'].Aliases? && id in rest[c'].ids.Values;
        assert c' in library;
      }
    }
  }

  /** `valid_json_ids`, built category by category. */
  method FlattenLibrary(library: map<string, LibraryCategory>) returns (ids: set<string>)
    ensures ids == JsonAssetIds(library)
  {
    ids := {};
    var pending := library.Keys;
    while pending != {}
      invariant pending <= library.Keys
      invariant ids == JsonAssetIds(library - pending)
      decreases pending
    {
      var c :| c in pending;
      match library[c] {
        case Aliases(m) => ids := ids + m.Values;
        case Items(_) =>
      }
      assert (library - (pending - {c}))[c] == library[c];
      AddCategory(library - (pending - {c}), c);
      assert (library - (pending - {c})) - {c} == library - pending;
      pending := pending - {c};
    }
    assert library - {} == library;
  }

  /** `_validate_refs`: fails fast on the first violation, task by task and
      reference by reference. */
  method ValidateRefs(data: Request, assets: AssetsRepository) returns (err: Option<IngestError>)
    requires assets.Valid()
    modifies assets
    ensures assets.Valid()
    ensures err == ValidationError(data, assets.View())
  {
    var maxRefs := data.project.productionRules.maxReferenceImages;
    var ids := FlattenLibrary(data.assetLibrary);
    var tasks := data.imageTasks;
    for i := 0 to |tasks|
      invariant assets.Valid()
      invariant TasksError(tasks, maxRefs, ids, assets.View()) == TasksError(tasks[i..], maxRefs, ids, assets.View())
    {
      var task := tasks[i];
      assert tasks[i..][1..] == tasks[i + 1..];
      if |task.refs| > maxRefs {
        return Some(RefLimitExceeded(task.taskId, |task.refs|, maxRefs));
      }
      for k := 0 to |task.refs|
        invariant assets.Valid()
        invariant RefsError(task.taskId, task.refs, ids, assets.View()) == RefsError(task.taskId, task.refs[k..], ids, assets.View())
      {
        var ref := task.refs[k];
        assert task.refs[k..][1..] == task.refs[k + 1..];
        if ref !in ids {
          return Some(UnknownJsonAsset(task.taskId, ref));
        }
        var asset := assets.GetAsset(ref);
        if asset.None? {
          return Some(NotInCatalog(task.taskId, ref));
        }
        var path := assets.ResolveFilePath(asset.value.fileName);
        if path.None? {
          return Some(FileNotFound(ref, asset.value.fileName));
        }
      }
    }
    return None;
  }

  /** Validates, then stores the project and returns its ID; a rejected
      project leaves the repository untouched. */
  method Execute(data: Request, repository: ProjectRepository, assets: AssetsRepository)
    returns (r: Result<string, IngestError>)
    requires repository.Valid() && assets.Valid()
    modifies repository, assets
    ensures repository.Valid() && assets.Valid()
    ensures ValidationError(data, assets.View()).Some? ==>
      && r == Failure(ValidationError(data, assets.View()).value)
      && repository.store == old(repository.store)
      && repository.currentProjectId == old(repository.currentProjectId)
    ensures ValidationError(data, assets.View()).None? ==>
      && r == Success(data.project.projectId)
      && repository.store == old(repository.store)[data.project.projectId := data]
      && repository.currentProjectId == Some(data.project.projectId)
  {
    var err := ValidateRefs(data, assets);
    if err.Some? {
      return Failure(err.value);
    }
    var savedId := repository.Save(data);
    return Success(savedId);
  }
}
