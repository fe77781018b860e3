/**
 * The photo capture crop: the largest square centred in the video frame,
 * taken from the video and scaled onto the preview canvas.
 */
module Capture {
  import opened Wrappers

  /** The frame size a video element reports; 0 while no frame is known. */
  datatype Video = Video(videoWidth: nat, videoHeight: nat)

  /** The source square handed to drawImage: its top-left corner and its side. */
  datatype Crop = Crop(sx: real, sy: real, side: real)

  /** The frame size to crop from: a reported 0 falls back to 640 × 480. */
  function Frame(v: Video): (f: (nat, nat))
    ensures f.0 > 0 && f.1 > 0
    ensures v.videoWidth > 0 ==> f.0 == v.videoWidth
    ensures v.videoHeight > 0 ==> f.1 == v.videoHeight
    ensures v.videoWidth == 0 ==> f.0 == 640
    ensures v.videoHeight == 0 ==> f.1 == 480
  {
    (if v.videoWidth == 0 then 640 else v.videoWidth,
     if v.videoHeight == 0 then 480 else v.videoHeight)
  }

  /**
   * `capturePhoto`'s crop, or None when there is no video element (the
   * function then returns before drawing). The crop is a square with the
   * frame's shorter side, lies inside the frame, leaves equal margins on
   * opposite sides, and touches both edges along the shorter dimension.
   */
  function CaptureCrop(video: Option<Video>): (c: Option<Crop>)
    ensures c.None? <==> video.None?
    ensures c.Some? ==>
      var (w, h) := Frame(video.value);
      var k := c.value;
      k.side > 0.0 && k.side <= w as real && k.side <= h as real &&
      (k.side == w as real || k.side == h as real) &&
      0.0 <= k.sx && k.sx + k.side + k.sx == w as real &&
      0.0 <= k.sy && k.sy + k.side + k.sy == h as real &&
      (k.sx == 0.0 || k.sy == 0.0)
  {
    if video.None? then None
    else
      var (vw, vh) := Frame(video.value);
      var side := if vw <= vh then vw else vh;
      Some(Crop((vw - side) as real / 2.0, (vh - side) as real / 2.0, side as real))
  }

  /** Before the camera reports a size, the crop is the centred 480 × 480 square of a 640 × 480 frame. */
  lemma UnknownSizeCropsDefaultFrame()
    ensures CaptureCrop(Some(Video(0, 0))) == Some(Crop(80.0, 0.0, 480.0))
  {
  }

  /** A square frame is taken whole. */
  lemma SquareFrameIsTakenWhole(n: nat)
    requires n > 0
    ensures CaptureCrop(Some(Video(n, n))) == Some(Crop(0.0, 0.0, n as real))
  {
  }
}
