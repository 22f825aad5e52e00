/** The shot record the single-shot pipeline works on. */
module Entities {
  import opened Wrappers

  /** One shot of a video: where it sits (video, block, shot number), what it
      shows, and what the pipeline has produced for it so far. Every field
      can be reassigned in place. */
  class Shot {
    var videoId: string
    var bloque: string
    var plano: int
    var descripcionVisual: string
    var movimientoCamara: string
    var promptImagen: Option<string>
    var promptVideo: Option<string>
    var imagePath: Option<string>
    var videoPath: Option<string>
    var estado: Option<string>
    var errorMessage: Option<string>

    /** A fresh shot: the five required fields given, every optional one unset. */
    constructor (videoId: string, bloque: string, plano: int, descripcionVisual: string, movimientoCamara: string)
      ensures this.videoId == videoId && this.bloque == bloque && this.plano == plano
      ensures this.descripcionVisual == descripcionVisual && this.movimientoCamara == movimientoCamara
      ensures promptImagen == None && promptVideo == None && imagePath == None && videoPath == None
      ensures estado == None && errorMessage == None
    {
      this.videoId := videoId;
      this.bloque := bloque;
      this.plano := plano;
      this.descripcionVisual := descripcionVisual;
      this.movimientoCamara := movimientoCamara;
      promptImagen := None;
      promptVideo := None;
      imagePath := None;
      videoPath := None;
      estado := None;
      errorMessage := None;
    }
  }
}
