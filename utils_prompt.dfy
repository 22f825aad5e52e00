/** The shot pipeline's prompt strings: an image prompt and a video prompt,
    both built from a shot's visual description with a fixed style suffix. */
module UtilsPrompt {
  import opened Text

  const ImageStyle := "cinematic, photorealistic, 8k, highly detailed, dramatic lighting, movie still"
  const VideoStyle := "high quality, stable, 4k, cinematic motion, smooth transition"

  /** The description as both prompts use it: surrounding whitespace removed,
      then every trailing full stop. */
  function CleanDescription(descripcionVisual: string): string
  {
    StripTrailing(Strip(descripcionVisual), '.')
  }

  /** `generate_image_prompt`. */
  function ImagePrompt(descripcionVisual: string): string
  {
    CleanDescription(descripcionVisual) + ". " + ImageStyle
  }

  /** `generate_video_prompt`. */
  function VideoPrompt(descripcionVisual: string, movimientoCamara: string): string
  {
    Strip(movimientoCamara) + " of " + CleanDescription(descripcionVisual) + ". " + VideoStyle
  }

  /** The cleaned description is the stripped description less a run of full
      stops at its end, and never itself ends in a full stop. */
  lemma CleanDescriptionShape(descripcionVisual: string)
    ensures var stripped := Strip(descripcionVisual);
      var clean := CleanDescription(descripcionVisual);
      && StartsWith(stripped, clean)
      && (forall k :: |clean| <= k < |stripped| ==> stripped[k] == '.')
      && !EndsWith(clean, ".")
  {
    var clean := CleanDescription(descripcionVisual);
    StripTrailingShape(Strip(descripcionVisual), '.');
    if |clean| > 0 {
      assert clean[|clean| - 1..] == [clean[|clean| - 1]];
    }
  }

  /** The image prompt is the cleaned description, a full stop and a space,
      then the image style, which always ends it. */
  lemma ImagePromptShape(descripcionVisual: string)
    ensures var p := ImagePrompt(descripcionVisual);
      var clean := CleanDescription(descripcionVisual);
      && EndsWith(p, ImageStyle)
      && StartsWith(p, clean + ". ")
      && |p| == |clean| + 2 + |ImageStyle|
  {
    var p := ImagePrompt(descripcionVisual);
    var clean := CleanDescription(descripcionVisual);
    assert p[|p| - |ImageStyle|..] == ImageStyle;
    assert p[..|clean| + 2] == clean + ". ";
  }

  /** The video prompt is the stripped camera movement, " of ", the cleaned
      description, a full stop and a space, then the video style. */
  lemma VideoPromptShape(descripcionVisual: string, movimientoCamara: string)
    ensures var p := VideoPrompt(descripcionVisual, movimientoCamara);
      var clean := CleanDescription(descripcionVisual);
      var lead := |Strip(movimientoCamara)| + 4;
      && StartsWith(p, Strip(movimientoCamara) + " of ")
      && EndsWith(p, VideoStyle)
      && |p| == lead + |clean| + 2 + |VideoStyle|
      && p[lead..lead + |clean|] == clean
  {
    var p := VideoPrompt(descripcionVisual, movimientoCamara);
    var clean := CleanDescription(descripcionVisual);
    var head := Strip(movimientoCamara) + " of ";
    assert p == head + clean + ". " + VideoStyle;
    assert p[..|head|] == head;
    assert p[|p| - |VideoStyle|..] == VideoStyle;
    assert p[|head|..|head| + |clean|] == clean;
  }

  /** Both prompts carry the same cleaned description: the one inside the
      image prompt is exactly the one inside the video prompt. */
  lemma {:induction false} PromptsShareDescription(descripcionVisual: string, movimientoCamara: string)
    ensures var image := ImagePrompt(descripcionVisual);
      var video := VideoPrompt(descripcionVisual, movimientoCamara);
      var lead := |Strip(movimientoCamara)| + 4;
      var n := |image| - 2 - |ImageStyle|;
      && 0 <= n && lead + n <= |video|
      && image[..n] == video[lead..lead + n]
  {
    ImagePromptShape(descripcionVisual);
    VideoPromptShape(descripcionVisual, movimientoCamara);
    var clean := CleanDescription(descripcionVisual);
    var image := ImagePrompt(descripcionVisual);
    assert image[..|clean|] == (clean + ". ")[..|clean|] == clean;
  }

  /** The image prompt determines the cleaned description: two shots get
      the same image prompt only when their cleaned descriptions agree. */
  lemma {:induction false} ImagePromptDeterminesDescription(d1: string, d2: string)
    requires ImagePrompt(d1) == ImagePrompt(d2)
    ensures CleanDescription(d1) == CleanDescription(d2)
  {
    ImagePromptShape(d1);
    ImagePromptShape(d2);
    var p := ImagePrompt(d1);
    var c1 := CleanDescription(d1);
    var c2 := CleanDescription(d2);
    assert p[..|c1|] == (c1 + ". ")[..|c1|] == c1;
    assert p[..|c2|] == (c2 + ". ")[..|c2|] == c2;
  }

  lemma StripExample1()
    ensures Strip("  A red car...  ") == "A red car..."
  {
    assert "  A red car...  " == "  " + "A red car..." + "  ";
    StripSurrounded("  ", "A red car...", "  ");
  }

  lemma StripExample2()
    ensures Strip("A red car.") == "A red car."
  {
    assert "A red car." == "" + "A red car." + "";
    StripSurrounded("", "A red car.", "");
  }

  lemma StripExample3()
    ensures Strip(" Slow pan ") == "Slow pan"
  {
    assert " Slow pan " == " " + "Slow pan" + " ";
    StripSurrounded(" ", "Slow pan", " ");
  }

  lemma TrailingExample(dots: string)
    requires dots == "." || dots == "..."
    ensures StripTrailing("A red car" + dots, '.') == "A red car"
  {
    StripTrailingRun("A red car", dots, '.');
  }

  lemma CleanExample1()
    ensures CleanDescription("  A red car...  ") == "A red car"
  {
    StripExample1();
    assert "A red car..." == "A red car" + "...";
    TrailingExample("...");
  }

  lemma CleanExample2()
    ensures CleanDescription("A red car.") == "A red car"
  {
    StripExample2();
    assert "A red car." == "A red car" + ".";
    TrailingExample(".");
  }

  /** Surrounding blanks and trailing full stops do not reach the image prompt. */
  lemma ImageExample()
    ensures ImagePrompt("  A red car...  ") == "A red car. " + ImageStyle
  {
    CleanExample1();
    assert "A red car" + ". " == "A red car. ";
  }

  /** The camera movement is stripped and leads the video prompt. */
  lemma VideoExample()
    ensures VideoPrompt("A red car.", " Slow pan ") == "Slow pan of A red car. " + VideoStyle
  {
    CleanExample2();
    StripExample3();
    assert "Slow pan" + " of " + "A red car" + ". " == "Slow pan of A red car. ";
  }
}
