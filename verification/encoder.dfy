/**
 * Encoder set-up in `start_recording`: the size and frame-rate fallback and
 * the codec fallback chain avc1 -> mp4v -> MJPG.
 */
module Encoder {
  import opened FileNames

  datatype Codec = Avc1 | Mp4v | Mjpg

  /** The container whose extension the output path carries. */
  datatype Container = Mp4 | Avi

  /** One entry of the fallback chain: a codec and the container it writes. */
  datatype Descriptor = Descriptor(codec: Codec, container: Container)

  /** The order in which `start_recording` tries the codecs; only MJPG writes AVI. */
  const FallbackChain: seq<Descriptor> :=
    [Descriptor(Avc1, Mp4), Descriptor(Mp4v, Mp4), Descriptor(Mjpg, Avi)]

  /** The size and frame rate handed to every `VideoWriter`. */
  datatype EncoderParams = EncoderParams(width: int, height: int, fps: int)

  const FallbackWidth: int := 1280
  const FallbackHeight: int := 720
  const FallbackFps: int := 30

  /**
   * The device-reported size and the configured frame rate, with a
   * non-positive size replaced by 1280x720 and a non-positive rate by 30.
   */
  function Sanitize(reportedWidth: int, reportedHeight: int, fps: int): (e: EncoderParams)
    ensures e.width > 0 && e.height > 0 && e.fps > 0
    ensures reportedWidth > 0 && reportedHeight > 0 ==> e.width == reportedWidth && e.height == reportedHeight
    ensures reportedWidth <= 0 || reportedHeight <= 0 ==> e.width == FallbackWidth && e.height == FallbackHeight
    ensures fps > 0 ==> e.fps == fps
    ensures fps <= 0 ==> e.fps == FallbackFps
  {
    var (w, h) := if reportedWidth <= 0 || reportedHeight <= 0 then (FallbackWidth, FallbackHeight)
                  else (reportedWidth, reportedHeight);
    EncoderParams(w, h, if fps <= 0 then FallbackFps else fps)
  }

  /** Everything a `cv2.VideoWriter(path, fourcc, fps, size)` call is given. */
  datatype Request = Request(codec: Codec, path: string, params: EncoderParams)

  /** A video writer: what it was created with, whether it opened, and how many frames it has taken. */
  datatype Writer = Writer(request: Request, isOpen: bool, frames: nat)

  /** The path an entry writes to, given the ".mp4" path resolved before negotiation. */
  function ContainerPath(c: Container, base: string): string
    requires EndsWith(base, ".mp4")
  {
    match c
    case Mp4 => base
    case Avi => AviPath(base)
  }

  function Attempt(d: Descriptor, base: string, e: EncoderParams): Request
    requires EndsWith(base, ".mp4")
  {
    Request(d.codec, ContainerPath(d.container, base), e)
  }

  /** The writer that was opened, and its place in the chain; or the last, unopened, writer. */
  datatype Negotiation = Selected(index: nat, writer: Writer) | Exhausted(last: Writer)

  /**
   * Tries the entries of `chain` from position `from` on and stops at the
   * first whose writer opens. `opens` answers whether a `VideoWriter` created
   * from a request is open.
   */
  function Negotiate(chain: seq<Descriptor>, base: string, e: EncoderParams,
                     opens: Request -> bool, from: nat): (r: Negotiation)
    requires from < |chain| && EndsWith(base, ".mp4")
    ensures r.Selected? ==>
      && from <= r.index < |chain|
      && r.writer == Writer(Attempt(chain[r.index], base, e), true, 0)
      && opens(r.writer.request)
      && forall j :: from <= j < r.index ==> !opens(Attempt(chain[j], base, e))
    ensures r.Exhausted? ==>
      && r.last == Writer(Attempt(chain[|chain| - 1], base, e), false, 0)
      && forall j :: from <= j < |chain| ==> !opens(Attempt(chain[j], base, e))
    decreases |chain| - from
  {
    var request := Attempt(chain[from], base, e);
    if opens(request) then Selected(from, Writer(request, true, 0))
    else if from == |chain| - 1 then Exhausted(Writer(request, false, 0))
    else Negotiate(chain, base, e, opens, from + 1)
  }

  /**
   * The fallback chain in full: avc1 if it opens, else mp4v, else MJPG on
   * the ".avi" path, else nothing; avc1 and mp4v write to the ".mp4" path.
   */
  lemma {:induction false} FallbackOrder(base: string, e: EncoderParams, opens: Request -> bool)
    requires EndsWith(base, ".mp4")
    ensures var avc1 := Request(Avc1, base, e);
      var mp4v := Request(Mp4v, base, e);
      var mjpg := Request(Mjpg, AviPath(base), e);
      Negotiate(FallbackChain, base, e, opens, 0) ==
        if opens(avc1) then Selected(0, Writer(avc1, true, 0))
        else if opens(mp4v) then Selected(1, Writer(mp4v, true, 0))
        else if opens(mjpg) then Selected(2, Writer(mjpg, true, 0))
        else Exhausted(Writer(mjpg, false, 0))
  {
    var r := Negotiate(FallbackChain, base, e, opens, 0);
    assert Attempt(FallbackChain[0], base, e) == Request(Avc1, base, e);
    assert Attempt(FallbackChain[1], base, e) == Request(Mp4v, base, e);
    assert Attempt(FallbackChain[2], base, e) == Request(Mjpg, AviPath(base), e);
    if r.Selected? {
      assert r.index == 0 || r.index == 1 || r.index == 2;
    }
  }

  /** The selected writer's path ends in ".avi" exactly when MJPG was reached. */
  lemma AviOnlyForMjpg(base: string, e: EncoderParams, opens: Request -> bool)
    requires EndsWith(base, ".mp4")
    ensures var r := Negotiate(FallbackChain, base, e, opens, 0);
      r.Selected? ==>
        (EndsWith(r.writer.request.path, ".avi") <==> r.writer.request.codec == Mjpg)
        && (r.writer.request.codec != Mjpg ==> r.writer.request.path == base)
  {
    FallbackOrder(base, e, opens);
    AviPathSuffix(base);
    assert !EndsWith(base, ".avi");
  }
}
