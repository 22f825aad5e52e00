# hintsly-video-factory engine — a Dafny model of its business layer

This project models the business layer of the hintsly video factory engine and
proves properties of that model. It has two pipelines.

- The **NanoBanana batch pipeline**:
  - a project (a request with tasks, an asset library and style presets) is
    ingested after its reference IDs are validated;
  - it is kept in an in-memory project store;
  - it is run task by task: prompts are built, references are resolved to
    public URLs through the asset catalog, an image generator is called, and
    each returned URL becomes a result record unless its download raises or
    the saved file's path cannot be made relative to the assets directory;
  - finally an approval gate decides whether the project may proceed.
- The **single-shot pipeline**:
  - prompt strings are built from a shot's description;
  - a shot is processed by filling its prompts, generating and saving an image,
    then a video;
  - a shot is regenerated by clearing its fields and processing it again;
  - the file layout of a shot's directory is fixed.
- The `retry` decorator.

Modules follow the source files. There is one module per core file. There are
also three shared modules:

- `Wrappers`: `Option` and `Result`.
- `Text`: the Python string operations the engine uses.
- `NanoBananaModels`: the batch data model, from `engine/domain/nanobanana_models.py`.

Objects the source updates in place are classes:

- `ProjectRepository`
- `AssetsRepository`
- `FsAdapter`, whose file system is a path→content map
- `Shot`

Algorithms with loops are methods proved against specification functions:

- `ValidateRefs`, `FlattenLibrary`, `ResolveRefsDetailed`, `DownloadVariants`,
  `RunNanoBananaGeneration.Execute`, `LoadCatalog`, `ResolveFilePath`, `Retry`.

The other state-changing operations have no loop. They are methods whose new
state is tied to a specification function: `IngestNanoBanana.Execute`,
`ProcessShot.Execute` and `RegenerateShot.Execute`, and the store's `Save`.

Pure code is functions and lemmas:

- the prompt services;
- the approval gate;
- the shot-directory layout.

Collaborators that the engine calls but does not compute are parameters:

- the image generator, one answer per task position;
- the downloads, one outcome per task and URL;
- `os.path.relpath`, where `None` stands for its `ValueError`;
- the shot pipeline's image and video clients;
- the catalog document;
- the set of files that exist;
- `ASSETS_DIR` and `PUBLIC_BASE_URL`.

Where the engine's own tests or comments expect something the code does not
do, the model follows the code:

- Shot processing has no asset lookup, no asset-mode branching and no ERROR
  state, although `engine/test_assets_flow.py:108-141` expects an ERROR status
  for an unknown asset.
- A batch run returns a flat list of per-variant records, although
  `engine/test_nanobanana_execution.py:65` reads the result as a dictionary
  keyed by task.
- Duplicate task IDs are not rejected at ingestion, although
  `engine/test_nanobanana_validation.py:25-33` expects a validation error.
- The approval gate is switched off only by the literal rule `"none"`. The
  comment at `engine/usecases/run_nanobanana_generation.py:130-140` speaks of
  empty strings, but the code compares with `"none"`.

## Model

| member | source | states |
|---|---|---|
| NanoBananaPromptService.JoinPartsCases | engine/usecases/nanobanana_prompt_service.py:10-23 | `Join` of the filtered parts: joining the two optional parts gives first+separator+second when both are non-empty, only the other part when one is empty, and "" when both are |
| NanoBananaPromptService.PromptBothPresent | engine/usecases/nanobanana_prompt_service.py:13-23 | with a non-empty global style and a non-empty task prompt the prompt is exactly style + " " + prompt |
| NanoBananaPromptService.PromptWithoutStyle | engine/usecases/nanobanana_prompt_service.py:13-23 | with no presets or an empty global style the prompt is the task prompt exactly |
| NanoBananaPromptService.PromptWithoutTaskText | engine/usecases/nanobanana_prompt_service.py:10-23 | an empty task prompt yields just the style with no trailing separator, and "" when the style is empty too |
| NanoBananaPromptService.NegativeBothPresent | engine/usecases/nanobanana_prompt_service.py:30-41 | with both parts non-empty the negative prompt is global append + ", " + task negative |
| NanoBananaPromptService.NegativeWithoutTaskNegative | engine/usecases/nanobanana_prompt_service.py:37-41 | a missing or empty task negative gives only the global append ("" when that is empty too) |
| NanoBananaPromptService.NegativeWithoutGlobalAppend | engine/usecases/nanobanana_prompt_service.py:33-41 | no presets or an empty global append gives only the task negative |
| NanoBananaPromptService.NoInjection | engine/usecases/nanobanana_prompt_service.py:10-41 | `ConstructPrompt`, `ConstructNegativePrompt`: each output is the style part and the task part in that order, with the separator only when both are non-empty; no other text appears |
| NanoBananaPromptService.ConcreteExamples | engine/usecases/nanobanana_prompt_service.py:5-41 | the exact outputs the engine's tests pin down ("GlobalStyle TaskPrompt", "GlobalNeg, TaskNeg", "StyleA. PromptB.", "NegA", "JustPrompt", "") |
| IngestNanoBanana.RefError | engine/usecases/ingest_nanobanana.py:49-65 | a reference is rejected iff it is undeclared, uncatalogued or has no file, and the checks run in that order |
| IngestNanoBanana.RefsError | engine/usecases/ingest_nanobanana.py:49-65 | no error iff every reference is accepted; otherwise the error is that of the first rejected reference |
| IngestNanoBanana.TaskError | engine/usecases/ingest_nanobanana.py:44-65 | a task is rejected iff it exceeds the limit or one of its references is rejected |
| IngestNanoBanana.TasksError | engine/usecases/ingest_nanobanana.py:44-65 | fail-fast: no error iff every task passes; otherwise the error of the first failing task, all earlier tasks having passed |
| IngestNanoBanana.ValidIff | engine/usecases/ingest_nanobanana.py:44-65 | `ValidationError`: validation passes iff every task has at most max refs and each ref is declared in the library, found in the catalog and resolves to a file |
| IngestNanoBanana.LimitIsStrict | engine/usecases/ingest_nanobanana.py:46-47 | a limit error occurs iff the count is strictly above the limit, and it names the task, its count and the limit |
| IngestNanoBanana.RefsErrorIsNotLimit | engine/usecases/ingest_nanobanana.py:49-65 | reference checks never report a limit error |
| IngestNanoBanana.UnknownBeforeCatalog | engine/usecases/ingest_nanobanana.py:50-52 | an undeclared reference is rejected as unknown in the project whatever the catalog and disk hold |
| IngestNanoBanana.EmptyRefsPass | engine/usecases/ingest_nanobanana.py:44-49 | a task without references passes (for a non-negative limit) |
| IngestNanoBanana.AddCategory | engine/usecases/ingest_nanobanana.py:34-42 | `JsonAssetIds`: the declared IDs are the union over categories of the values of mapping categories; list categories and alias keys add nothing |
| IngestNanoBanana.FlattenLibrary | engine/usecases/ingest_nanobanana.py:34-42 | the loop collects exactly the declared IDs of the library |
| IngestNanoBanana.ValidateRefs | engine/usecases/ingest_nanobanana.py:23-65 | the nested fail-fast loops return exactly the validation verdict against the catalog |
| IngestNanoBanana.Execute | engine/usecases/ingest_nanobanana.py:12-21 | a rejected project leaves the store and current pointer untouched and returns the error; an accepted one is stored under its ID, becomes current, and its ID is returned |
| NanoBananaRepository.ProjectRepository.constructor | engine/adapters/nanobanana_repository.py:5-21 | a new store is empty: every get and get_current return None |
| NanoBananaRepository.ProjectRepository.Get | engine/adapters/nanobanana_repository.py:15-16 | returns a project iff one is stored under the ID, and that project carries the ID |
| NanoBananaRepository.ProjectRepository.GetCurrent | engine/adapters/nanobanana_repository.py:18-21 | returns a project iff the current ID is set, non-empty (the source's truthiness test) and stored; the project carries that ID |
| NanoBananaRepository.ProjectRepository.Save | engine/adapters/nanobanana_repository.py:9-21 | returns the project's ID, overwrites that entry only, get of the ID gives the project back, other IDs are unchanged, and get_current gives it (unless its ID is the falsy "") |
| AssetsRepository.AbortIndex | engine/adapters/assets_repository.py:33-46 | a load gets through exactly the entries before the first non-object entry |
| AssetsRepository.FillOverrides | engine/adapters/assets_repository.py:33-40 | `Fill`: loading into a filled cache overrides it with what the entries define |
| AssetsRepository.FillIdempotent | engine/adapters/assets_repository.py:19-46 | reloading the same entries over the cache they produced changes nothing |
| AssetsRepository.LastRecordWins | engine/adapters/assets_repository.py:36-38 | a record with no later record of the same ID is the one the cache keeps |
| AssetsRepository.FillKeepsOthers | engine/adapters/assets_repository.py:36-40 | an ID no record carries keeps its earlier cache entry or stays absent |
| AssetsRepository.UnparseableSkipped | engine/adapters/assets_repository.py:36-40 | an unparseable entry is skipped: the rest loads as if it were absent |
| AssetsRepository.Candidates | engine/adapters/assets_repository.py:62-65 | one candidate path per extension, all three different, so the extension order is a real preference |
| AssetsRepository.FirstExisting | engine/adapters/assets_repository.py:64-69 | None iff no candidate exists; otherwise the first existing candidate |
| AssetsRepository.ResolvePreference | engine/adapters/assets_repository.py:62-69 | .jpeg wins over .jpg, which wins over .png; None when none exists |
| AssetsRepository.AssetsRepository.constructor | engine/adapters/assets_repository.py:12-17 | a new repository has an empty cache and is not loaded |
| AssetsRepository.AssetsRepository.LoadCatalog | engine/adapters/assets_repository.py:19-46 | after a successful load it never reloads; otherwise it loads, sets the flag only when the whole document went through, and a missing or malformed catalog leaves the cache empty and the flag unset; the new cache and flag are `LoadStep` of the old ones |
| AssetsRepository.RetryAfterFix | engine/adapters/assets_repository.py:19-46 | `LoadStep`: a load that did not succeed, retried after the file is fixed, succeeds, and the first attempt's entries stay in the cache unless the fixed file redefines them |
| AssetsRepository.AssetsRepository.GetAsset | engine/adapters/assets_repository.py:48-53 | `LookupAsset` on `Loaded`: returns the loaded catalog's entry for the ID or None, loading first when not loaded |
| AssetsRepository.AssetsRepository.ResolveFilePath | engine/adapters/assets_repository.py:55-69 | returns the first existing candidate by extension order, and None iff none of the three exists |
| RunNanoBananaGeneration.ResolveRef | engine/usecases/run_nanobanana_generation.py:157-168 | a reference that resolves keeps its own ID in the entry |
| RunNanoBananaGeneration.ResolvedRefs | engine/usecases/run_nanobanana_generation.py:154-172 | at most one resolved entry per reference |
| RunNanoBananaGeneration.ResolvedRefsMembers | engine/usecases/run_nanobanana_generation.py:156-169 | an entry is present iff some reference resolves to it (asset found, file found, relative path computed) |
| RunNanoBananaGeneration.ResolvedRefsKeepOrder | engine/usecases/run_nanobanana_generation.py:156-169 | when every reference resolves, nothing is dropped and the order is kept |
| RunNanoBananaGeneration.ResolveRefsDetailed | engine/usecases/run_nanobanana_generation.py:154-172 | the loop returns exactly the order-preserving filter of resolvable references with their public URLs |
| RunNanoBananaGeneration.ResolveRefsToUrls | engine/usecases/run_nanobanana_generation.py:174-175 | returns the URLs of the detailed resolution |
| RunNanoBananaGeneration.VariantFileNames | engine/usecases/run_nanobanana_generation.py:75-78 | `VariantFileName`: the file name is img_{role}.png for a single URL and img_{role}_v{n}.png for variant n of several |
| RunNanoBananaGeneration.VariantRecordSkips | engine/usecases/run_nanobanana_generation.py:73-107 | `VariantRecord`: a URL gives no record iff, outside a dry run, its download raised or the saved file's relative path could not be computed; a record is variant j+1 of its task and keeps the generator's URL unless the image was saved locally, when it carries the public URL |
| RunNanoBananaGeneration.VariantRecords | engine/usecases/run_nanobanana_generation.py:73-107 | at most one record per URL, in URL order with strictly increasing 1-based variants, each carrying the task's ID, prompts and sent assets |
| RunNanoBananaGeneration.DownloadVariants | engine/usecases/run_nanobanana_generation.py:73-107 | the download loop yields exactly those records: a failed download or path computation skips the URL, a non-200 response keeps the API URL |
| RunNanoBananaGeneration.FlattenAppend | engine/usecases/run_nanobanana_generation.py:98-105 | appending a task's outcome appends its records to the result list |
| RunNanoBananaGeneration.FlattenMembers | engine/usecases/run_nanobanana_generation.py:98-105 | a record is in the result list iff some task produced it |
| RunNanoBananaGeneration.FlattenSingletons | engine/usecases/run_nanobanana_generation.py:98-105 | tasks producing one record each give exactly those records in task order |
| RunNanoBananaGeneration.RunStep | engine/usecases/run_nanobanana_generation.py:36-117 | one pass of the task loop adds that task's records, puts it back into review iff it ran, and counts it as run iff it ran |
| RunNanoBananaGeneration.RunTask | engine/usecases/run_nanobanana_generation.py:37-107 | one task's prompts, resolution, generator call (or placeholder) and downloads give exactly its specified records, or None when the generator raised |
| RunNanoBananaGeneration.TaskRecordsOfOwnEntry | engine/usecases/run_nanobanana_generation.py:36-60 | a task's records depend only on its own entry, not on other tasks' statuses |
| RunNanoBananaGeneration.Execute | engine/usecases/run_nanobanana_generation.py:25-119 | an unknown project fails with the not-found message and changes nothing; otherwise it returns every task's records in order, stores the project with each task that ran back in review, and makes it current once a task ran |
| RunNanoBananaGeneration.TaskStatusAfterRun | engine/usecases/run_nanobanana_generation.py:109-117 | `FinalRequest`: a failed task keeps its entry; a task that ran ends as PENDING_REVIEW, overwriting APPROVED or REJECTED |
| RunNanoBananaGeneration.RecordsComeFromTasks | engine/usecases/run_nanobanana_generation.py:98-105 | every result record comes from some task that ran and carries that task's ID, prompts, sent assets and a variant within its URL count |
| RunNanoBananaGeneration.DryRunTask | engine/usecases/run_nanobanana_generation.py:49-51 | in a dry run each task yields exactly one record, for the placeholder URL |
| RunNanoBananaGeneration.DryRunRecords | engine/usecases/run_nanobanana_generation.py:49-105 | a dry run yields one record per task in task order: variant 1, the placeholder URL, the task's prompts and resolved references |
| RunNanoBananaGeneration.DryRunIgnoresGenerator | engine/usecases/run_nanobanana_generation.py:49-60 | a dry run never consults the generator or the downloads: any others give the same records and final project |
| RunNanoBananaGeneration.ResolvedRefsIgnoresGenerator | engine/usecases/run_nanobanana_generation.py:154-172 | reference resolution depends only on the catalog, the base URL, the assets directory and the path function |
| RunNanoBananaGeneration.PendingTaskIds | engine/usecases/run_nanobanana_generation.py:145 | the pending list is empty iff every task is APPROVED |
| RunNanoBananaGeneration.CheckProjectApproval | engine/usecases/run_nanobanana_generation.py:121-152 | `GateActive` and the pending list: False for an unknown project; otherwise True iff the rule is "none" or every task is APPROVED (so an empty task list passes) |
| RunNanoBananaGeneration.GateBlocksAfterRun | engine/usecases/run_nanobanana_generation.py:109-152 | after a run in which a task ran, that task is PENDING_REVIEW and an active gate has a pending task |
| UtilsPrompt.CleanDescriptionShape | engine/usecases/utils_prompt.py:13 | `CleanDescription`: the cleaned description is the stripped description less a final run of dots, and never ends with "." |
| UtilsPrompt.ImagePromptShape | engine/usecases/utils_prompt.py:13-17 | `ImagePrompt`: the image prompt is the cleaned description, ". ", then IMAGE_STYLE, which always ends it |
| UtilsPrompt.VideoPromptShape | engine/usecases/utils_prompt.py:23-28 | `VideoPrompt`: the video prompt is the stripped movement, " of ", the cleaned description, ". ", then VIDEO_STYLE |
| UtilsPrompt.PromptsShareDescription | engine/usecases/utils_prompt.py:8-29 | the description inside the image prompt is the same text as the one inside the video prompt |
| UtilsPrompt.ImagePromptDeterminesDescription | engine/usecases/utils_prompt.py:13-16 | equal image prompts mean equal cleaned descriptions |
| UtilsPrompt.CleanExample1 | engine/usecases/utils_prompt.py:13 | surrounding blanks and a run of three dots are removed from a description |
| UtilsPrompt.CleanExample2 | engine/usecases/utils_prompt.py:13 | a single final dot is removed from a description |
| UtilsPrompt.ImageExample | engine/usecases/utils_prompt.py:8-17 | surrounding blanks and trailing dots do not reach the image prompt |
| UtilsPrompt.VideoExample | engine/usecases/utils_prompt.py:19-29 | the camera movement is stripped and leads the video prompt |
| Text.StripShape | engine/usecases/utils_prompt.py:13 | `Strip`: the result is the slice between the leading and trailing whitespace runs and has no whitespace at either end |
| Text.StripSurrounded | engine/usecases/utils_prompt.py:13 | stripping whitespace around a core with non-space ends gives the core |
| Text.StripTrailingShape | engine/usecases/utils_prompt.py:13 | `StripTrailing`: rstrip removes exactly the final run of the character: the result is a prefix, the rest is that character, and it does not end with it |
| Text.StripTrailingRun | engine/usecases/utils_prompt.py:13 | rstrip of a core followed by a run of the character gives the core back |
| Text.NatToDecimal | engine/adapters/fs_adapter.py:9 | the shot number renders as decimal digits without leading zeros |
| Text.DecimalRoundTrip | engine/adapters/fs_adapter.py:9 | reading the rendered digits back gives the number |
| Text.DecimalSign | engine/adapters/fs_adapter.py:9 | `IntToDecimal`: a rendering starts with "-" iff the number is negative |
| Text.IntToDecimalInjective | engine/adapters/fs_adapter.py:9 | different shot numbers render differently |
| Text.Slashes | engine/usecases/run_nanobanana_generation.py:164 | every backslash becomes a slash and every other character is kept |
| Entities.Shot.constructor | engine/domain/entities.py:4-15 | a new shot holds its five required fields and every optional field unset |
| FsAdapter.ShotDirsDistinct | engine/adapters/fs_adapter.py:8-9 | `ShotDirOf`: two shots of one block with different numbers get different directories |
| FsAdapter.ImageAndVideoApart | engine/adapters/fs_adapter.py:11-31 | a shot's image and video are two different files inside its directory |
| FsAdapter.FsAdapter.SaveImage | engine/adapters/fs_adapter.py:11-21 | returns shot_dir/image.png and (over)writes it with "Image data from " + data, nothing else |
| FsAdapter.FsAdapter.SaveVideo | engine/adapters/fs_adapter.py:23-31 | returns shot_dir/video.mp4 and (over)writes it with "Video data from " + data, nothing else |
| ProcessShot.PromptsFilled | engine/usecases/process_shot.py:12-16 | `Process`: a supplied prompt is kept verbatim; a None or empty one is generated from the description |
| ProcessShot.CompletedIff | engine/usecases/process_shot.py:18-27 | the shot completes iff both generators answer; then status is COMPLETADO and both paths are in its directory; otherwise the status and video path are unchanged |
| ProcessShot.VideoFollowsImage | engine/usecases/process_shot.py:19-24 | the image file holds what the image generator returned, and nothing is saved when it raises |
| ProcessShot.WritesOnlyShotDir | engine/usecases/process_shot.py:19-24 | processing writes nothing outside the shot's directory |
| ProcessShot.FillPrompts | engine/usecases/process_shot.py:11-16 | each prompt that is None or empty is set to the one generated from the description; a supplied one is kept |
| ProcessShot.GenerateFacts | engine/usecases/process_shot.py:18-27 | `Generate`: the generation steps complete iff both generators answer, keep the prompts, write only the image and video files of the shot's directory, and leave status and video path alone on failure |
| ProcessShot.GenerateAndSave | engine/usecases/process_shot.py:18-27 | with both prompts set, the shot's paths and status, the files and the return value are exactly what the generation steps give |
| ProcessShot.Execute | engine/usecases/process_shot.py:10-27 | updates the shot and file system as specified, never touches identity, description or error message, and returns the same shot on normal return |
| RegenerateShot.Execute | engine/usecases/regenerate_shot.py:7-12 | the result is processing the shot with both prompts and both paths cleared; status and error message reach it unchanged |
| RegenerateShot.RegenerationRebuildsPrompts | engine/usecases/regenerate_shot.py:8-12 | regeneration always rebuilds both prompts from the description, discarding earlier ones |
| Retry.RetryFrom | engine/infra/retry.py:11-19 | once an attempt is allowed, the wrapper makes between one and attempts calls and never returns None |
| Retry.Retry | engine/infra/retry.py:7-21 | the loop's outcome and call count are the specified ones; it sleeps the delay between failed attempts, never after the last call |
| Retry.RetryCallsBounded | engine/infra/retry.py:11-19 | `Retried`: at most attempts calls; with attempts <= 0 no call at all and the wrapper returns None |
| Retry.RetryStopsAtFirstSuccess | engine/infra/retry.py:12-13 | a returned value is the last call's result and every earlier call raised |
| Retry.RetryReRaisesLastError | engine/infra/retry.py:14-17 | it re-raises iff every allowed call raised; then it made all attempts and re-raises the last error |
| Retry.RetryNeverNoneWhenAllowed | engine/infra/retry.py:11-19 | with at least one attempt the wrapper returns a result or re-raises, never None |

## Left out

- The HTTP image and video clients, the `httpx` downloads, `os.makedirs`, the file writes of a batch run, the `datetime` timestamp and logging. These are I/O. Generators and downloads are parameters returning abstract outcomes.
- The JSON reading of the catalog. The catalog document is an input: missing, malformed, or a list of entries. Pydantic parsing and coercion are also left out; the models are datatypes.
- Path joining with `os.path.join` and `pathlib` is written as "/" concatenation. Path normalisation is not modelled.
- `infra/paths.py` (`ASSETS_DIR`) and `infra/config.py` (`PUBLIC_BASE_URL`) are not part of this model. Both values are parameters.
- The `Asset` record is not part of this model's source. It keeps the two fields the engine reads: `asset_id` and `file_name`.
- `asset_library` is typed as a mapping of mappings in the data model. The ingest code also accepts list-valued categories. The model admits both, and list categories contribute no IDs.
- AssetsRepository.AssetsRepository.LoadCatalog: the catalog file and the set of existing files are fixed for the repository's lifetime (`source` and `existing` are constants). So the class cannot show a load retried after the file changed on disk; `LoadStep` and `RetryAfterFix` state that case on values, including the merge onto what an aborted load left in the cache.
- RunNanoBananaGeneration.Execute: tasks are updated by value. The updated task is written back into the request, which is re-saved under the same ID. The source mutates the task object shared with the store instead. The store ends in the same state, but aliasing itself is not modelled.
- RunNanoBananaGeneration.Execute: only the generator can make a task fail. Prompt building and reference resolution cannot raise on the modelled data, and `os.makedirs` errors are not modelled.
- IngestNanoBanana.Execute: rejections are datatype values carrying the task, reference, count and limit, not the source's `ValueError` message text.
- IngestNanoBanana.EmptyRefsPass: stated for a non-negative limit. With a negative limit the source rejects even an empty reference list, and the model agrees.
- ProcessShot.Execute: a client that raises is a `None` answer. File-system errors while saving are not modelled.
- Retry.Retry: the wrapped function is a per-call outcome function, i.e. the same arguments on every call. Sleeping is recorded as the list of delays slept, and logging is left out.
- The UI, `main.py`, the drafts and the test drivers are not modelled.
- Behaviour that appears only in tests is not modelled: asset lookup in shot processing, duplicate task ID rejection, dictionary-shaped results.
