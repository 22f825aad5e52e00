/** Regenerating a shot: forget its prompts and outputs, then process it again. */
module RegenerateShot {
  import opened Wrappers
  import opened Entities
  import opened FsAdapter
  import opened UtilsPrompt
  import ProcessShot

  /** `RegenerateShot.execute`: clears both prompts and both paths, then
      processes the shot; so it is `Process` of the cleared shot, and the
      status and error message reach it unchanged. */
  method Execute(shot: Shot, fs: FsAdapter,
      imageClient: string -> Option<string>, videoClient: (string, string) -> Option<string>)
    returns (r: Option<Shot>)
    modifies shot`promptImagen, shot`promptVideo, shot`imagePath, shot`videoPath, shot`estado, fs`files
    ensures shot.videoId == old(shot.videoId) && shot.bloque == old(shot.bloque) && shot.plano == old(shot.plano)
    ensures shot.descripcionVisual == old(shot.descripcionVisual) && shot.movimientoCamara == old(shot.movimientoCamara)
    ensures shot.errorMessage == old(shot.errorMessage)
    ensures var out := ProcessShot.Process(None, None, None, None, old(shot.estado),
        old(shot.descripcionVisual), old(shot.movimientoCamara),
        ShotDirOf(fs.assetsDir, old(shot.videoId), old(shot.bloque), old(shot.plano)), old(fs.files), imageClient, videoClient);
      && shot.promptImagen == out.promptImagen && shot.promptVideo == out.promptVideo
      && shot.imagePath == out.imagePath && shot.videoPath == out.videoPath
      && shot.estado == out.estado && fs.files == out.files
      && r == (if out.completed then Some(shot) else None)
  {
    shot.promptImagen := None;
    shot.promptVideo := None;
    shot.imagePath := None;
    shot.videoPath := None;
    ghost var out := ProcessShot.Process(None, None, None, None, shot.estado,
      shot.descripcionVisual, shot.movimientoCamara, fs.ShotDir(shot), fs.files, imageClient, videoClient);
    r := ProcessShot.Execute(shot, fs, imageClient, videoClient);
    assert shot.estado == out.estado && fs.files == out.files;
  }

  /** Regeneration always rebuilds both prompts from the description,
      whatever prompts the shot carried before. */
  lemma RegenerationRebuildsPrompts(estado: Option<string>, descripcionVisual: string, movimientoCamara: string,
      dir: string, files: map<string, string>,
      imageClient: string -> Option<string>, videoClient: (string, string) -> Option<string>)
    ensures var out := ProcessShot.Process(None, None, None, None, estado,
        descripcionVisual, movimientoCamara, dir, files, imageClient, videoClient);
      && out.promptImagen == Some(ImagePrompt(descripcionVisual))
      && out.promptVideo == Some(VideoPrompt(descripcionVisual, movimientoCamara))
      && (!out.completed ==> out.videoPath == None)
  {
  }
}
