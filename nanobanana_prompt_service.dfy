/** Deterministic prompt assembly for batch image tasks: the global preset
    first, then the task's own text, joined with a fixed separator; a missing
    or empty part contributes nothing, not even its separator. */
module NanoBananaPromptService {
  import opened Wrappers
  import opened Text
  import opened NanoBananaModels

  /** The part list the source builds: `first` if non-empty, then `second` if non-empty. */
  function Parts(first: string, second: string): seq<string>
  {
    (if first != "" then [first] else []) + (if second != "" then [second] else [])
  }

  function GlobalImageStyle(presets: Option<StylePresets>): string
  {
    if presets.Some? then presets.value.globalImageStyle else ""
  }

  function GlobalNegativeAppend(presets: Option<StylePresets>): string
  {
    if presets.Some? then presets.value.globalNegativeAppend else ""
  }

  function TaskNegative(task: ImageTask): string
  {
    if task.negativePrompt.Some? then task.negativePrompt.value else ""
  }

  /** The positive prompt: global image style, then the task prompt, space-separated. */
  function ConstructPrompt(presets: Option<StylePresets>, task: ImageTask): string
  {
    Join(Parts(GlobalImageStyle(presets), task.prompt), " ")
  }

  /** The negative prompt: global negative append, then the task's negative prompt, comma-separated. */
  function ConstructNegativePrompt(presets: Option<StylePresets>, task: ImageTask): string
  {
    Join(Parts(GlobalNegativeAppend(presets), TaskNegative(task)), ", ")
  }

  /** Joining the two optional parts yields exactly one of four strings, so
      nothing but the inputs and one separator can ever appear. */
  lemma JoinPartsCases(first: string, second: string, sep: string)
    ensures first != "" && second != "" ==> Join(Parts(first, second), sep) == first + sep + second
    ensures first == "" ==> Join(Parts(first, second), sep) == second
    ensures second == "" ==> Join(Parts(first, second), sep) == first
  {
  }

  /** Both style and prompt present: exactly `style + " " + prompt`. */
  lemma PromptBothPresent(presets: Option<StylePresets>, task: ImageTask)
    requires presets.Some? && presets.value.globalImageStyle != "" && task.prompt != ""
    ensures ConstructPrompt(presets, task) == presets.value.globalImageStyle + " " + task.prompt
  {
    JoinPartsCases(presets.value.globalImageStyle, task.prompt, " ");
  }

  /** No presets, or an empty global style: exactly the task prompt. */
  lemma PromptWithoutStyle(presets: Option<StylePresets>, task: ImageTask)
    requires presets.None? || presets.value.globalImageStyle == ""
    ensures ConstructPrompt(presets, task) == task.prompt
  {
    JoinPartsCases(GlobalImageStyle(presets), task.prompt, " ");
  }

  /** An empty task prompt yields the style alone, with no trailing separator. */
  lemma PromptWithoutTaskText(presets: Option<StylePresets>, task: ImageTask)
    requires task.prompt == ""
    ensures ConstructPrompt(presets, task) == GlobalImageStyle(presets)
  {
    JoinPartsCases(GlobalImageStyle(presets), task.prompt, " ");
  }

  /** Both negatives present: exactly `append + ", " + negative`. */
  lemma NegativeBothPresent(presets: Option<StylePresets>, task: ImageTask)
    requires presets.Some? && presets.value.globalNegativeAppend != ""
    requires task.negativePrompt.Some? && task.negativePrompt.value != ""
    ensures ConstructNegativePrompt(presets, task)
      == presets.value.globalNegativeAppend + ", " + task.negativePrompt.value
  {
    JoinPartsCases(presets.value.globalNegativeAppend, task.negativePrompt.value, ", ");
  }

  /** A missing or empty task negative yields the global append alone (and
      "" when that is empty too). */
  lemma NegativeWithoutTaskNegative(presets: Option<StylePresets>, task: ImageTask)
    requires task.negativePrompt.None? || task.negativePrompt.value == ""
    ensures ConstructNegativePrompt(presets, task) == GlobalNegativeAppend(presets)
  {
    JoinPartsCases(GlobalNegativeAppend(presets), TaskNegative(task), ", ");
  }

  /** No presets, or an empty append: exactly the task negative (or ""). */
  lemma NegativeWithoutGlobalAppend(presets: Option<StylePresets>, task: ImageTask)
    requires presets.None? || presets.value.globalNegativeAppend == ""
    ensures ConstructNegativePrompt(presets, task) == TaskNegative(task)
  {
    JoinPartsCases(GlobalNegativeAppend(presets), TaskNegative(task), ", ");
  }

  /** Non-injection: each result is one of "", the style part, the task part
      or the two joined by the separator, and the separator appears only
      between two non-empty parts. */
  lemma NoInjection(presets: Option<StylePresets>, task: ImageTask)
    ensures var s, p, r := GlobalImageStyle(presets), task.prompt, ConstructPrompt(presets, task);
      r == (if s != "" && p != "" then s + " " + p else s + p)
    ensures var s, n, r := GlobalNegativeAppend(presets), TaskNegative(task), ConstructNegativePrompt(presets, task);
      r == (if s != "" && n != "" then s + ", " + n else s + n)
  {
    JoinPartsCases(GlobalImageStyle(presets), task.prompt, " ");
    JoinPartsCases(GlobalNegativeAppend(presets), TaskNegative(task), ", ");
    assert "" + task.prompt == task.prompt;
    assert GlobalImageStyle(presets) + "" == GlobalImageStyle(presets);
    assert "" + TaskNegative(task) == TaskNegative(task);
    assert GlobalNegativeAppend(presets) + "" == GlobalNegativeAppend(presets);
  }

  /** The exact-output examples the engine's tests pin down. */
  lemma ConcreteExamples()
    ensures var t := ImageTask("t1", "b1", "s1", "start", [], "TaskPrompt", Some("TaskNeg"), Approval("OK"));
      var st := Some(StylePresets("GlobalStyle", "GlobalNeg"));
      ConstructPrompt(st, t) == "GlobalStyle TaskPrompt" && ConstructNegativePrompt(st, t) == "GlobalNeg, TaskNeg"
    ensures var t := ImageTask("t1", "b", "s", "r", [], "PromptB.", None, Approval("PENDING"));
      var st := Some(StylePresets("StyleA.", "NegA"));
      ConstructPrompt(st, t) == "StyleA. PromptB." && ConstructNegativePrompt(st, t) == "NegA"
    ensures var t := ImageTask("t1", "b1", "s1", "start", [], "JustPrompt", Some(""), Approval("OK"));
      var st := Some(StylePresets("", ""));
      ConstructPrompt(st, t) == "JustPrompt" && ConstructNegativePrompt(st, t) == ""
  {
    var t1 := ImageTask("t1", "b1", "s1", "start", [], "TaskPrompt", Some("TaskNeg"), Approval("OK"));
    NegativeBothPresent(Some(StylePresets("GlobalStyle", "GlobalNeg")), t1);
    PromptBothPresent(Some(StylePresets("GlobalStyle", "GlobalNeg")), t1);
    var t2 := ImageTask("t1", "b", "s", "r", [], "PromptB.", None, Approval("PENDING"));
    PromptBothPresent(Some(StylePresets("StyleA.", "NegA")), t2);
    NegativeWithoutTaskNegative(Some(StylePresets("StyleA.", "NegA")), t2);
  }
}
