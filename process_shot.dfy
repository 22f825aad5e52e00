/** Processing one shot: fill in whichever prompts are missing, generate and
    save the image, then generate and save the video from it, and mark the
    shot completed. A generator that raises stops the processing where it is. */
module ProcessShot {
  import opened Wrappers
  import opened Text
  import opened Entities
  import opened FsAdapter
  import opened UtilsPrompt

  const Completado := "COMPLETADO"

  /** A prompt counts as supplied when it is set and not empty: the source
      tests it for truthiness, so None and "" are both missing. */
  predicate Supplied(prompt: Option<string>)
  {
    prompt.Some? && prompt.value != ""
  }

  /** The prompt the shot goes on with: the supplied one, or else the generated one. */
  function PromptToUse(current: Option<string>, generated: string): string
  {
    if Supplied(current) then current.value else generated
  }

  /** What processing leaves behind: the shot's five output fields, the
      file system, and whether it ran to the end. */
  datatype Outputs = Outputs(
    promptImagen: Option<string>,
    promptVideo: Option<string>,
    imagePath: Option<string>,
    videoPath: Option<string>,
    estado: Option<string>,
    files: map<string, string>,
    completed: bool)

  /** Steps 2 and 3 once both prompts are known: the image generator takes
      the image prompt and returns a URL or raises (None); the image is saved
      in `dir`; the video generator takes the saved image path and the video
      prompt; the video is saved and the shot completed. */
  function Generate(image: string, video: string,
      imagePath: Option<string>, videoPath: Option<string>, estado: Option<string>,
      dir: string, files: map<string, string>,
      imageClient: string -> Option<string>, videoClient: (string, string) -> Option<string>): Outputs
  {
    match imageClient(image)
    case None => Outputs(Some(image), Some(video), imagePath, videoPath, estado, files, false)
    case Some(imgUrl) =>
      var imgPath := ImagePathIn(dir);
      var filesWithImage := files[imgPath := "Image data from " + imgUrl];
      match videoClient(imgPath, video)
      case None => Outputs(Some(image), Some(video), Some(imgPath), videoPath, estado, filesWithImage, false)
      case Some(vidUrl) =>
        var vidPath := VideoPathIn(dir);
        Outputs(Some(image), Some(video), Some(imgPath), Some(vidPath), Some(Completado),
          filesWithImage[vidPath := "Video data from " + vidUrl], true)
  }

  /** `ProcessShot.execute` on the shot's values, `dir` being the shot's directory. */
  function Process(
      promptImagen: Option<string>, promptVideo: Option<string>,
      imagePath: Option<string>, videoPath: Option<string>, estado: Option<string>,
      descripcionVisual: string, movimientoCamara: string, dir: string, files: map<string, string>,
      imageClient: string -> Option<string>, videoClient: (string, string) -> Option<string>): Outputs
  {
    Generate(PromptToUse(promptImagen, ImagePrompt(descripcionVisual)),
      PromptToUse(promptVideo, VideoPrompt(descripcionVisual, movimientoCamara)),
      imagePath, videoPath, estado, dir, files, imageClient, videoClient)
  }

  /** What the generation steps guarantee, whatever the prompts are. */
  lemma GenerateFacts(image: string, video: string,
      imagePath: Option<string>, videoPath: Option<string>, estado: Option<string>,
      dir: string, files: map<string, string>,
      imageClient: string -> Option<string>, videoClient: (string, string) -> Option<string>)
    ensures var out := Generate(image, video, imagePath, videoPath, estado, dir, files, imageClient, videoClient);
      && out.promptImagen == Some(image) && out.promptVideo == Some(video)
      && (out.completed <==> imageClient(image).Some? && videoClient(ImagePathIn(dir), video).Some?)
      && (out.completed ==>
            (out.estado == Some(Completado) && out.imagePath == Some(ImagePathIn(dir)) && out.videoPath == Some(VideoPathIn(dir))))
      && (!out.completed ==> out.estado == estado && out.videoPath == videoPath)
      && (imageClient(image).None? ==> out.imagePath == imagePath && out.files == files)
      && (imageClient(image).Some? ==>
            (out.imagePath == Some(ImagePathIn(dir)) && ImagePathIn(dir) in out.files
             && out.files[ImagePathIn(dir)] == "Image data from " + imageClient(image).value))
      && (forall p :: p in out.files && (p !in files || out.files[p] != files[p]) ==> StartsWith(p, dir + "/"))
  {
    ImageAndVideoApart(dir);
  }

  /** Both prompts are always set before either generator runs; a supplied
      prompt is kept verbatim and a missing one is built from the description. */
  lemma PromptsFilled(
      promptImagen: Option<string>, promptVideo: Option<string>,
      imagePath: Option<string>, videoPath: Option<string>, estado: Option<string>,
      descripcionVisual: string, movimientoCamara: string, dir: string, files: map<string, string>,
      imageClient: string -> Option<string>, videoClient: (string, string) -> Option<string>)
    ensures var out := Process(promptImagen, promptVideo, imagePath, videoPath, estado,
        descripcionVisual, movimientoCamara, dir, files, imageClient, videoClient);
      && (Supplied(promptImagen) ==> out.promptImagen == promptImagen)
      && (!Supplied(promptImagen) ==> out.promptImagen == Some(ImagePrompt(descripcionVisual)))
      && (Supplied(promptVideo) ==> out.promptVideo == promptVideo)
      && (!Supplied(promptVideo) ==> out.promptVideo == Some(VideoPrompt(descripcionVisual, movimientoCamara)))
  {
    GenerateFacts(PromptToUse(promptImagen, ImagePrompt(descripcionVisual)),
      PromptToUse(promptVideo, VideoPrompt(descripcionVisual, movimientoCamara)),
      imagePath, videoPath, estado, dir, files, imageClient, videoClient);
  }

  /** The shot is completed exactly when both generators answered; then both
      paths point into the shot's directory and its status is COMPLETADO.
      Otherwise the status is what it was. */
  lemma CompletedIff(
      promptImagen: Option<string>, promptVideo: Option<string>,
      imagePath: Option<string>, videoPath: Option<string>, estado: Option<string>,
      descripcionVisual: string, movimientoCamara: string, dir: string, files: map<string, string>,
      imageClient: string -> Option<string>, videoClient: (string, string) -> Option<string>)
    ensures var out := Process(promptImagen, promptVideo, imagePath, videoPath, estado,
        descripcionVisual, movimientoCamara, dir, files, imageClient, videoClient);
      && (out.completed <==>
           imageClient(out.promptImagen.value).Some? && videoClient(ImagePathIn(dir), out.promptVideo.value).Some?)
      && (out.completed ==>
            (out.estado == Some(Completado) && out.imagePath == Some(ImagePathIn(dir)) && out.videoPath == Some(VideoPathIn(dir))))
      && (!out.completed ==> out.estado == estado && out.videoPath == videoPath)
  {
    GenerateFacts(PromptToUse(promptImagen, ImagePrompt(descripcionVisual)),
      PromptToUse(promptVideo, VideoPrompt(descripcionVisual, movimientoCamara)),
      imagePath, videoPath, estado, dir, files, imageClient, videoClient);
  }

  /** When the image generator raises, neither the image path nor any file
      changes; when it answers, the shot's image path is `image.png` of its
      directory and that file holds what the generator returned. */
  lemma VideoFollowsImage(
      promptImagen: Option<string>, promptVideo: Option<string>,
      imagePath: Option<string>, videoPath: Option<string>, estado: Option<string>,
      descripcionVisual: string, movimientoCamara: string, dir: string, files: map<string, string>,
      imageClient: string -> Option<string>, videoClient: (string, string) -> Option<string>)
    ensures var out := Process(promptImagen, promptVideo, imagePath, videoPath, estado,
        descripcionVisual, movimientoCamara, dir, files, imageClient, videoClient);
      var url := imageClient(out.promptImagen.value);
      && (url.None? ==> out.imagePath == imagePath && out.files == files)
      && (url.Some? ==>
            (out.imagePath == Some(ImagePathIn(dir)) && ImagePathIn(dir) in out.files
             && out.files[ImagePathIn(dir)] == "Image data from " + url.value))
  {
    GenerateFacts(PromptToUse(promptImagen, ImagePrompt(descripcionVisual)),
      PromptToUse(promptVideo, VideoPrompt(descripcionVisual, movimientoCamara)),
      imagePath, videoPath, estado, dir, files, imageClient, videoClient);
  }

  /** Processing writes nothing outside the shot's directory. */
  lemma WritesOnlyShotDir(
      promptImagen: Option<string>, promptVideo: Option<string>,
      imagePath: Option<string>, videoPath: Option<string>, estado: Option<string>,
      descripcionVisual: string, movimientoCamara: string, dir: string, files: map<string, string>,
      imageClient: string -> Option<string>, videoClient: (string, string) -> Option<string>)
    ensures var out := Process(promptImagen, promptVideo, imagePath, videoPath, estado,
        descripcionVisual, movimientoCamara, dir, files, imageClient, videoClient);
      forall p :: p in out.files && (p !in files || out.files[p] != files[p]) ==> StartsWith(p, dir + "/")
  {
    GenerateFacts(PromptToUse(promptImagen, ImagePrompt(descripcionVisual)),
      PromptToUse(promptVideo, VideoPrompt(descripcionVisual, movimientoCamara)),
      imagePath, videoPath, estado, dir, files, imageClient, videoClient);
  }

  /** Step 1: each prompt that is not supplied is generated from the description. */
  method FillPrompts(shot: Shot)
    modifies shot`promptImagen, shot`promptVideo
    ensures shot.promptImagen == Some(PromptToUse(old(shot.promptImagen), ImagePrompt(shot.descripcionVisual)))
    ensures shot.promptVideo ==
      Some(PromptToUse(old(shot.promptVideo), VideoPrompt(shot.descripcionVisual, shot.movimientoCamara)))
  {
    if !Supplied(shot.promptImagen) {
      shot.promptImagen := Some(ImagePrompt(shot.descripcionVisual));
    }
    if !Supplied(shot.promptVideo) {
      shot.promptVideo := Some(VideoPrompt(shot.descripcionVisual, shot.movimientoCamara));
    }
  }

  /** Steps 2 and 3 on a shot whose prompts are set. */
  method GenerateAndSave(shot: Shot, fs: FsAdapter,
      imageClient: string -> Option<string>, videoClient: (string, string) -> Option<string>)
    returns (r: Option<Shot>)
    requires shot.promptImagen.Some? && shot.promptVideo.Some?
    modifies shot`imagePath, shot`videoPath, shot`estado, fs`files
    ensures var out := Generate(shot.promptImagen.value, shot.promptVideo.value,
        old(shot.imagePath), old(shot.videoPath), old(shot.estado), fs.ShotDir(shot), old(fs.files),
        imageClient, videoClient);
      && shot.imagePath == out.imagePath && shot.videoPath == out.videoPath
      && shot.estado == out.estado && fs.files == out.files
      && r == (if out.completed then Some(shot) else None)
  {
    var imgUrl := imageClient(shot.promptImagen.value);
    if imgUrl.None? {
      return None;
    }
    var imgPath := fs.SaveImage(shot, imgUrl.value);
    shot.imagePath := Some(imgPath);
    var vidUrl := videoClient(imgPath, shot.promptVideo.value);
    if vidUrl.None? {
      return None;
    }
    var vidPath := fs.SaveVideo(shot, vidUrl.value);
    shot.videoPath := Some(vidPath);
    shot.estado := Some(Completado);
    return Some(shot);
  }

  /** `ProcessShot.execute`: updates the shot and the file system in place as
      `Process` says, and returns the same shot when it ran to the end (None
      when a generator raised). The shot's identity and description, and its
      error message, are never touched. */
  method Execute(shot: Shot, fs: FsAdapter,
      imageClient: string -> Option<string>, videoClient: (string, string) -> Option<string>)
    returns (r: Option<Shot>)
    modifies shot`promptImagen, shot`promptVideo, shot`imagePath, shot`videoPath, shot`estado, fs`files
    ensures shot.videoId == old(shot.videoId) && shot.bloque == old(shot.bloque) && shot.plano == old(shot.plano)
    ensures shot.descripcionVisual == old(shot.descripcionVisual) && shot.movimientoCamara == old(shot.movimientoCamara)
    ensures shot.errorMessage == old(shot.errorMessage)
    ensures var out := Process(old(shot.promptImagen), old(shot.promptVideo), old(shot.imagePath),
        old(shot.videoPath), old(shot.estado), old(shot.descripcionVisual), old(shot.movimientoCamara),
        ShotDirOf(fs.assetsDir, old(shot.videoId), old(shot.bloque), old(shot.plano)), old(fs.files),
        imageClient, videoClient);
      && shot.promptImagen == out.promptImagen && shot.promptVideo == out.promptVideo
      && shot.imagePath == out.imagePath && shot.videoPath == out.videoPath
      && shot.estado == out.estado && fs.files == out.files
      && r == (if out.completed then Some(shot) else None)
  {
    ghost var dir := ShotDirOf(fs.assetsDir, shot.videoId, shot.bloque, shot.plano);
    ghost var out := Process(shot.promptImagen, shot.promptVideo, shot.imagePath, shot.videoPath, shot.estado,
      shot.descripcionVisual, shot.movimientoCamara, dir, fs.files, imageClient, videoClient);
    FillPrompts(shot);
    assert out == Generate(shot.promptImagen.value, shot.promptVideo.value,
      shot.imagePath, shot.videoPath, shot.estado, fs.ShotDir(shot), fs.files, imageClient, videoClient);
    r := GenerateAndSave(shot, fs, imageClient, videoClient);
  }
}
