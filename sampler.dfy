/**
  The pieces of the camera decode loop both reader components share: the
  remote decoder's reply, the video frame, the centred square crop and the
  rule that a canvas without pixels yields no image blob.
*/
module Sampler {
  import opened Wrappers

  /**
    What a POST to the decode endpoint came back with: the value found at
    `res.data[0].symbol[0].data` (None where that path is missing or not a
    string), or a transport failure (network error, non-2xx status).
  */
  datatype DecodeReply = Answered(symbolData: Option<string>) | TransportError

  /** The decoded text a reply carries: present and non-empty (JavaScript truthiness). */
  function DecodedText(r: DecodeReply): (t: Option<string>)
    ensures t.Some? ==> t.value != "" && r == Answered(Some(t.value))
    ensures t.None? ==> r.TransportError? || r.symbolData.None? || r.symbolData.value == ""
  {
    if r.Answered? && r.symbolData.Some? && r.symbolData.value != "" then Some(r.symbolData.value) else None
  }

  /** The intrinsic size of the current video frame (`videoWidth`, `videoHeight`; 0 before a frame is ready). */
  datatype Frame = Frame(width: nat, height: nat)

  /** A square region of the frame: side length and top-left corner, in video pixels. */
  datatype Crop = Crop(side: real, sx: real, sy: real)

  /** Minimum of two naturals, as a real (`Math.min`). */
  function MinSide(w: nat, h: nat): (m: real)
    ensures m == w as real || m == h as real
    ensures m <= w as real && m <= h as real
  {
    if w <= h then w as real else h as real
  }

  /**
    The capture square: `fraction` of the smaller frame side, centred.
    It always lies inside the frame, with equal margins left and right and
    equal margins above and below.
  */
  function CenterCrop(f: Frame, fraction: real): (c: Crop)
    requires 0.0 < fraction <= 1.0
    ensures c.side == fraction * MinSide(f.width, f.height)
    ensures 0.0 <= c.side <= MinSide(f.width, f.height)
    ensures 0.0 <= c.sx && c.sx + c.side <= f.width as real
    ensures 0.0 <= c.sy && c.sy + c.side <= f.height as real
    ensures c.sx == f.width as real - (c.sx + c.side)
    ensures c.sy == f.height as real - (c.sy + c.side)
  {
    var side := MinSide(f.width, f.height) * fraction;
    Crop(side, (f.width as real - side) / 2.0, (f.height as real - side) / 2.0)
  }

  /**
    Whether `canvas.toBlob` produces an image for a capture canvas of this side:
    assigning `side` to `canvas.width`/`height` keeps its integer part, and a
    canvas with no pixels hands `null` to the callback, which then returns.
  */
  predicate BlobProduced(c: Crop)
    requires c.side >= 0.0
  {
    c.side.Floor >= 1
  }

  /** The newer reader's crop fraction: 0.45 from the 768px breakpoint up, 0.65 below it. */
  function CropFraction(viewportWidth: int): (fraction: real)
    ensures 0.0 < fraction <= 1.0
    ensures viewportWidth >= 768 ==> fraction == 0.45
    ensures viewportWidth < 768 ==> fraction == 0.65
  {
    if viewportWidth >= 768 then 0.45 else 0.65
  }
}
