/** Where the single-shot pipeline keeps its files: one directory per shot,
    holding `image.png` and `video.mp4`. The file system is a map from path
    to file contents. */
module FsAdapter {
  import opened Text
  import opened Entities

  /** `{assets}/videos/{video}/block_{bloque}/shot_{plano}`. */
  function ShotDirOf(assetsDir: string, videoId: string, bloque: string, plano: int): string
  {
    assetsDir + "/videos/" + videoId + "/block_" + bloque + "/shot_" + IntToDecimal(plano)
  }

  function ImagePathIn(dir: string): string
  {
    dir + "/image.png"
  }

  function VideoPathIn(dir: string): string
  {
    dir + "/video.mp4"
  }

  /** Two shots of the same block with different numbers get different
      directories, so their files never overwrite each other. */
  lemma {:induction false} ShotDirsDistinct(assetsDir: string, videoId: string, bloque: string, plano1: int, plano2: int)
    requires plano1 != plano2
    ensures ShotDirOf(assetsDir, videoId, bloque, plano1) != ShotDirOf(assetsDir, videoId, bloque, plano2)
  {
    var prefix := assetsDir + "/videos/" + videoId + "/block_" + bloque + "/shot_";
    var d1 := ShotDirOf(assetsDir, videoId, bloque, plano1);
    var d2 := ShotDirOf(assetsDir, videoId, bloque, plano2);
    if d1 == d2 {
      assert d1[|prefix|..] == IntToDecimal(plano1);
      assert d2[|prefix|..] == IntToDecimal(plano2);
      IntToDecimalInjective(plano1, plano2);
    }
  }

  /** A shot's image and its video are two different files of one directory. */
  lemma ImageAndVideoApart(dir: string)
    ensures ImagePathIn(dir) != VideoPathIn(dir)
    ensures StartsWith(ImagePathIn(dir), dir + "/") && StartsWith(VideoPathIn(dir), dir + "/")
  {
    assert ImagePathIn(dir)[|dir| + 1] == 'i';
    assert VideoPathIn(dir)[|dir| + 1] == 'v';
  }

  class FsAdapter {
    /** The assets directory every shot directory sits under. */
    const assetsDir: string
    /** The files written so far, by path. */
    var files: map<string, string>

    constructor (assetsDir: string, files: map<string, string>)
      ensures this.assetsDir == assetsDir && this.files == files
    {
      this.assetsDir := assetsDir;
      this.files := files;
    }

    /** `_get_shot_dir`: depends only on the shot's video, block and number. */
    function ShotDir(shot: Shot): string
      reads shot
    {
      ShotDirOf(assetsDir, shot.videoId, shot.bloque, shot.plano)
    }

    /** `save_image`: (over)writes `image.png` in the shot's directory with
        a line naming the image data, and returns its path. */
    method SaveImage(shot: Shot, imgData: string) returns (path: string)
      modifies this`files
      ensures path == ImagePathIn(ShotDir(shot))
      ensures files == old(files)[path := "Image data from " + imgData]
    {
      path := ImagePathIn(ShotDir(shot));
      files := files[path := "Image data from " + imgData];
    }

    /** `save_video`: the same for `video.mp4`. */
    method SaveVideo(shot: Shot, vidData: string) returns (path: string)
      modifies this`files
      ensures path == VideoPathIn(ShotDir(shot))
      ensures files == old(files)[path := "Video data from " + vidData]
    {
      path := VideoPathIn(ShotDir(shot));
      files := files[path := "Video data from " + vidData];
    }
  }
}
