/**
 * The older scanner (src/Scanner.tsx): the same scan phases without
 * mirroring, the shadow and outline drawn for every result, and the state
 * steps of `handleImage`, `handleResult` and `handleStartScan`.
 */
module LegacyScanner {
  import opened Wrappers
  import opened ObjectUrl
  import Scanner

  /** The `type` of a `ScanState`; a result carries no mirroring flag. */
  datatype Phase = AwaitingImage | Scanning | NoResult | Found(result: Scanner.ScanResult)

  datatype ScanState = ScanState(phase: Phase, width: nat, height: nat)

  const INITIAL: ScanState := ScanState(AwaitingImage, 0, 0)

  /** What the `image` state holds: nothing, a chosen image, or the camera. */
  datatype Selection = NoSelection | Picked(blob: Blob) | CameraVideo

  /** The outline path: present exactly for a result, through the raw corners. */
  function OutlinePath(state: ScanState): (path: Option<seq<Scanner.PathCommand>>)
    ensures path.Some? <==> state.phase.Found?
    ensures state.phase.Found? ==> path == Some(Scanner.Outline(state.phase.result.cornerPoints, state.width, false))
  {
    match state.phase
    case Found(result) => Some(Scanner.Outline(result.cornerPoints, state.width, false))
    case _ => None
  }

  /** The shadow path: the whole frame followed by the outline, for every result. */
  function ShadowPath(state: ScanState): (path: Option<seq<Scanner.PathCommand>>)
    ensures path.Some? <==> state.phase.Found?
    ensures path.Some? ==> path.value == Scanner.Frame(state.width, state.height) + OutlinePath(state).value
  {
    match OutlinePath(state)
    case Some(outline) => Some(Scanner.Frame(state.width, state.height) + outline)
    case None => None
  }

  /** The outline goes through the corners exactly as reported: each x unchanged. */
  lemma OutlineUnmirrored(corners: seq<Scanner.Point>, width: nat)
    ensures var path := Scanner.Outline(corners, width, false);
      forall i :: 0 <= i < |corners| ==> path[i].x == corners[i].x && path[i].y == corners[i].y
  {
    var path := Scanner.Outline(corners, width, false);
    forall i | 0 <= i < |corners|
      ensures path[i].x == corners[i].x && path[i].y == corners[i].y
    {
      if i > 0 {
        assert path[i] == Scanner.LineTo(corners[i].x, corners[i].y);
      }
    }
  }

  /** The newer view draws the same outline for a result that was not mirrored. */
  lemma SameAsUnmirroredView(result: Scanner.ScanResult, mirrored: Option<bool>, width: nat, height: nat)
    requires mirrored != Some(true)
    ensures Scanner.OutlinePath(Scanner.ScanState(Scanner.Found(result, mirrored), width, height))
      == OutlinePath(ScanState(Found(result), width, height))
  {
  }

  /** The text under the frame: `None` before the first image. */
  function StatusText(state: ScanState): (text: Option<string>)
    ensures text.None? <==> state.phase.AwaitingImage?
    ensures state.phase.Scanning? ==> text == Some("Loading...")
    ensures state.phase.NoResult? ==> text == Some("No QR code found.")
    ensures state.phase.Found? ==> text == Some(state.phase.result.data)
  {
    match state.phase
    case AwaitingImage => None
    case Scanning => Some("Loading...")
    case NoResult => Some("No QR code found.")
    case Found(result) => Some(result.data)
  }

  class LegacyScannerView {
    var image: Selection
    var scanState: ScanState

    constructor ()
      ensures image == NoSelection && scanState == INITIAL
    {
      image, scanState := NoSelection, INITIAL;
    }

    /** `handleImage`, once the bitmap is decoded: the image is selected and scanning starts at its size. */
    method ImageLoaded(blob: Blob, width: nat, height: nat)
      modifies this
      ensures image == Picked(blob) && scanState == ScanState(Scanning, width, height)
    {
      image := Picked(blob);
      scanState := ScanState(Scanning, width, height);
    }

    /** `handleImage`, once `scanImage` settles: a result or a miss, at the bitmap's size. */
    method ImageScanned(outcome: Option<Scanner.ScanResult>, width: nat, height: nat)
      modifies this`scanState
      ensures outcome.Some? ==> scanState == ScanState(Found(outcome.value), width, height)
      ensures outcome.None? ==> scanState == ScanState(NoResult, width, height)
    {
      match outcome
      case Some(result) => scanState := ScanState(Found(result), width, height);
      case None => scanState := ScanState(NoResult, width, height);
    }

    /** `handleResult`: a detection from the camera; the frame size is kept. */
    method HandleResult(result: Scanner.ScanResult)
      modifies this`scanState
      ensures scanState == ScanState(Found(result), old(scanState).width, old(scanState).height)
    {
      scanState := ScanState(Found(result), scanState.width, scanState.height);
    }

    /** `handleStartScan`, once the camera has started; without a video element nothing happens. */
    method StartScan(video: Option<Scanner.VideoSize>)
      modifies this
      ensures video.None? ==> image == old(image) && scanState == old(scanState)
      ensures video.Some? ==>
        image == CameraVideo && scanState == ScanState(Scanning, video.value.width, video.value.height)
    {
      if video.Some? {
        scanState := ScanState(Scanning, video.value.width, video.value.height);
        image := CameraVideo;
      }
    }

    /** The object URL's input: the chosen image, nothing for the camera or no choice. */
    function ImageBlob(): (blob: Option<Blob>)
      reads this
      ensures blob.Some? <==> image.Picked?
      ensures blob.Some? ==> image == Picked(blob.value)
    {
      if image.Picked? then Some(image.blob) else None
    }
  }

  /**
   * An image run to completion: after both steps of `handleImage` the state
   * is a result or a miss at the bitmap's size, whatever it was before.
   */
  method HandleImage(view: LegacyScannerView, blob: Blob, width: nat, height: nat, outcome: Option<Scanner.ScanResult>)
    modifies view
    ensures view.image == Picked(blob)
    ensures view.scanState.width == width && view.scanState.height == height
    ensures view.scanState.phase == if outcome.Some? then Found(outcome.value) else NoResult
  {
    view.ImageLoaded(blob, width, height);
    view.ImageScanned(outcome, width, height);
  }
}
