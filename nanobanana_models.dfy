/** The batch ("NanoBanana") project definition, as plain values: a project
    header with its output configuration and production rules, a library of
    asset IDs declared by the project, optional global style presets and the
    ordered list of image tasks. */
module NanoBananaModels {
  import opened Wrappers

  datatype OutputConfig = OutputConfig(aspectRatio: string, resolutionPx: seq<int>, imageFormat: string)

  datatype ProductionRules = ProductionRules(
    maxReferenceImages: int,
    variantsPerImageTask: int,
    approvalGate: string)

  datatype Project = Project(
    projectId: string,
    title: string,
    scopeBlocksIncluded: seq<string>,
    output: OutputConfig,
    productionRules: ProductionRules)

  datatype StylePresets = StylePresets(globalImageStyle: string, globalNegativeAppend: string)

  /** Review status of a task; the engine writes "PENDING_REVIEW" and the
      approval gate looks for "APPROVED". */
  datatype Approval = Approval(status: string)

  datatype ImageTask = ImageTask(
    taskId: string,
    blockId: string,
    shotId: string,
    role: string,
    refs: seq<string>,
    prompt: string,
    negativePrompt: Option<string>,
    approval: Approval)

  /** One category of the project's asset library: either a mapping from
      alias to asset ID, or a list of free-text items such as notes. */
  datatype LibraryCategory = Aliases(ids: map<string, string>) | Items(items: seq<string>)

  datatype Request = Request(
    project: Project,
    assetLibrary: map<string, LibraryCategory>,
    stylePresets: Option<StylePresets>,
    imageTasks: seq<ImageTask>)

  /** A catalog entry; only the ID and the extension-less file name take part
      in the engine's logic. */
  datatype Asset = Asset(assetId: string, fileName: string)

  const PendingReview := "PENDING_REVIEW"
  const Approved := "APPROVED"
}
