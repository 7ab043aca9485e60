/**
 * The scanner view (src/scanner/index.tsx): the state of a scan, the SVG
 * overlay drawn over the scanned image or video, and the handlers that move
 * the state along. Decoding, the camera and bitmap decoding happen in
 * libraries; their results arrive here as parameters.
 */
module Scanner {
  import opened Wrappers
  import opened Text
  import opened ObjectUrl

  /** A corner reported by the detector, in image pixels. */
  datatype Point = Point(x: real, y: real)

  /** What the detector reports for a code: its text and its corners in order. */
  datatype ScanResult = ScanResult(data: string, cornerPoints: seq<Point>)

  /** The `type` of a `ScanState`; a result also carries whether the video was mirrored (`undefined` is `None`). */
  datatype Phase = AwaitingImage | Scanning | NoResult | Found(result: ScanResult, mirrored: Option<bool>)

  /** `ScanState`: the phase and the size of the scanned frame. */
  datatype ScanState = ScanState(phase: Phase, width: nat, height: nat)

  /** A rectangle of the video that the detector scans. */
  datatype Region = Region(x: real, y: real, width: real, height: real)

  /** `SelectedMedia`. */
  datatype Media = Image(image: Blob) | Video(region: Region)

  /** The first render's state. */
  const INITIAL: ScanState := ScanState(AwaitingImage, 0, 0)

  // ---------------------------------------------------------------------------
  // Overlay paths

  /** SVG path commands, with coordinates as numbers rather than their text. */
  datatype PathCommand = MoveTo(x: real, y: real) | LineTo(x: real, y: real)
                       | HorizontalTo(x: real) | VerticalTo(y: real) | Close

  /** The x a corner is drawn at: reflected in the frame's vertical axis when mirrored. */
  function DrawnX(x: real, width: nat, mirrored: bool): real {
    if mirrored then width as real - x else x
  }

  /** Corners from index `i` on: `L` to each. */
  function Lines(corners: seq<Point>, width: nat, mirrored: bool): (path: seq<PathCommand>)
    ensures |path| == |corners|
    ensures forall i :: 0 <= i < |corners| ==>
      path[i] == LineTo(DrawnX(corners[i].x, width, mirrored), corners[i].y)
  {
    if corners == [] then []
    else [LineTo(DrawnX(corners[0].x, width, mirrored), corners[0].y)] + Lines(corners[1..], width, mirrored)
  }

  /** The closed outline through `corners`: `M` to the first, `L` to the others, then `z`. */
  function Outline(corners: seq<Point>, width: nat, mirrored: bool): (path: seq<PathCommand>)
    ensures |path| == |corners| + 1 && path[|corners|] == Close
    ensures corners != [] ==> path[0] == MoveTo(DrawnX(corners[0].x, width, mirrored), corners[0].y)
    ensures forall i :: 1 <= i < |corners| ==>
      path[i] == LineTo(DrawnX(corners[i].x, width, mirrored), corners[i].y)
  {
    if corners == [] then [Close]
    else
      [MoveTo(DrawnX(corners[0].x, width, mirrored), corners[0].y)]
      + Lines(corners[1..], width, mirrored) + [Close]
  }

  /** The corner a drawn command goes to, read back in image coordinates. */
  function CornerOf(command: PathCommand, width: nat, mirrored: bool): Point
    requires command.MoveTo? || command.LineTo?
  {
    Point(DrawnX(command.x, width, mirrored), command.y)
  }

  /** Reading the outline back, undoing the mirroring, gives the detector's corners in order. */
  lemma OutlineRoundTrip(corners: seq<Point>, width: nat, mirrored: bool)
    ensures var path := Outline(corners, width, mirrored);
      forall i :: 0 <= i < |corners| ==>
        (path[i].MoveTo? || path[i].LineTo?) && CornerOf(path[i], width, mirrored) == corners[i]
  {
    var path := Outline(corners, width, mirrored);
    forall i | 0 <= i < |corners|
      ensures (path[i].MoveTo? || path[i].LineTo?) && CornerOf(path[i], width, mirrored) == corners[i]
    {
      if mirrored {
        assert width as real - (width as real - corners[i].x) == corners[i].x;
      }
    }
  }

  /** `outlinePath`: an outline exactly in the result phase, mirrored when the scanner said so. */
  function OutlinePath(state: ScanState): (path: Option<seq<PathCommand>>)
    ensures path.Some? <==> state.phase.Found?
    ensures state.phase.Found? ==>
      path == Some(Outline(state.phase.result.cornerPoints, state.width, state.phase.mirrored == Some(true)))
  {
    match state.phase
    case Found(result, mirrored) => Some(Outline(result.cornerPoints, state.width, mirrored == Some(true)))
    case _ => None
  }

  /** The rectangle over the whole frame. */
  function Frame(width: nat, height: nat): seq<PathCommand> {
    [MoveTo(0.0, 0.0), HorizontalTo(width as real), VerticalTo(height as real), HorizontalTo(0.0), Close]
  }

  /**
   * The shadow path: the frame followed by the outline, so that under the
   * even-odd rule everything but the code is dimmed. It is drawn only over a
   * still image that has an outline.
   */
  function DimmingPath(state: ScanState, media: Option<Media>): (path: Option<seq<PathCommand>>)
    ensures path.Some? <==> state.phase.Found? && media.Some? && media.value.Image?
    ensures path.Some? ==> path.value == Frame(state.width, state.height) + OutlinePath(state).value
  {
    match OutlinePath(state)
    case Some(outline) =>
      if media.Some? && media.value.Image? then Some(Frame(state.width, state.height) + outline) else None
    case None => None
  }

  /** The example frame of a 100-pixel-wide mirrored video with corners at (10, 20), (30, 20) and (30, 40). */
  lemma MirroredOutlineExample()
    ensures OutlinePath(ScanState(Found(ScanResult("x", [Point(10.0, 20.0), Point(30.0, 20.0), Point(30.0, 40.0)]), Some(true)), 100, 80))
      == Some([MoveTo(90.0, 20.0), LineTo(70.0, 20.0), LineTo(70.0, 40.0), Close])
  {
    var corners := [Point(10.0, 20.0), Point(30.0, 20.0), Point(30.0, 40.0)];
    assert Lines(corners[1..][1..], 100, true) == [LineTo(70.0, 40.0)];
    assert Lines(corners[1..], 100, true) == [LineTo(70.0, 20.0), LineTo(70.0, 40.0)];
    assert Outline(corners, 100, true) == [MoveTo(90.0, 20.0)] + [LineTo(70.0, 20.0), LineTo(70.0, 40.0)] + [Close];
    assert [MoveTo(90.0, 20.0)] + [LineTo(70.0, 20.0), LineTo(70.0, 40.0)] + [Close]
      == [MoveTo(90.0, 20.0), LineTo(70.0, 20.0), LineTo(70.0, 40.0), Close];
  }

  // ---------------------------------------------------------------------------
  // Filters

  /** A `MediaDeviceInfo`; `name` is its `label`. */
  datatype Device = Device(deviceId: string, kind: string, name: string)

  /** A device the camera menu offers: a video input with a non-empty id. */
  predicate IsCamera(device: Device) {
    device.deviceId != "" && device.kind == "videoinput"
  }

  /** `devices.filter(...)`: the cameras, in their original order. */
  function Cameras(devices: seq<Device>): (cameras: seq<Device>)
    ensures |cameras| <= |devices|
    ensures forall d :: d in cameras <==> d in devices && IsCamera(d)
  {
    if devices == [] then []
    else
      var rest := Cameras(devices[1..]);
      assert forall d :: d in devices <==> d == devices[0] || d in devices[1..];
      if IsCamera(devices[0]) then [devices[0]] + rest else rest
  }

  /** Filtering distributes over concatenation, so the order of the devices is kept. */
  lemma {:induction false} CamerasAppend(a: seq<Device>, b: seq<Device>)
    ensures Cameras(a + b) == Cameras(a) + Cameras(b)
  {
    if a != [] {
      assert (a + b)[1..] == a[1..] + b;
      CamerasAppend(a[1..], b);
    } else {
      assert a + b == b;
    }
  }

  /** A list of cameras is kept whole. */
  lemma {:induction false} CamerasOfCameras(devices: seq<Device>)
    requires forall i :: 0 <= i < |devices| ==> IsCamera(devices[i])
    ensures Cameras(devices) == devices
  {
    if devices != [] {
      CamerasOfCameras(devices[1..]);
    }
  }

  /** A `DataTransferItem`: its MIME type and what `getAsFile` returns. */
  datatype Item = Item(mimeType: string, file: Option<Blob>)

  predicate IsImageType(mimeType: string) {
    StartsWith(mimeType, "image/")
  }

  /** `items.find(item => item.type.startsWith('image/'))`: the index of the first image item. */
  function FirstImageItem(items: seq<Item>): (index: Option<nat>)
    ensures index.Some? ==> index.value < |items| && IsImageType(items[index.value].mimeType)
    ensures index.Some? ==> forall j :: 0 <= j < index.value ==> !IsImageType(items[j].mimeType)
    ensures index.None? ==> forall j :: 0 <= j < |items| ==> !IsImageType(items[j].mimeType)
  {
    if items == [] then None
    else if IsImageType(items[0].mimeType) then Some(0)
    else match FirstImageItem(items[1..])
      case Some(i) => Some(i + 1)
      case None => None
  }

  /**
   * The image a paste or drop hands to `handleImage`: the file of the first
   * image item, if that item gives one. Missing clipboard data counts as no
   * items.
   */
  function PickedImage(items: Option<seq<Item>>): (image: Option<Blob>)
    ensures image.Some? ==> items.Some? && exists i :: 0 <= i < |items.value| && items.value[i].file == image && IsImageType(items.value[i].mimeType)
    ensures items.None? ==> image.None?
    ensures items.Some? ==> forall i ::
      (0 <= i < |items.value| && IsImageType(items.value[i].mimeType) &&
       forall j :: 0 <= j < i ==> !IsImageType(items.value[j].mimeType)) ==> image == items.value[i].file
    ensures items.Some? && (forall i :: 0 <= i < |items.value| ==> !IsImageType(items.value[i].mimeType)) ==> image.None?
  {
    if items.None? then None
    else match FirstImageItem(items.value)
      case Some(i) => items.value[i].file
      case None => None
  }

  /** `types.some(type => type.startsWith('image/'))`. */
  function AnyImageType(types: seq<string>): (found: bool)
    ensures found <==> exists i :: 0 <= i < |types| && IsImageType(types[i])
  {
    if types == [] then false
    else if IsImageType(types[0]) then true
    else
      var rest := AnyImageType(types[1..]);
      assert forall i :: 1 <= i < |types| ==> types[i] == types[1..][i - 1];
      rest
  }

  /** `types.includes(t)`. */
  function Includes(types: seq<string>, t: string): (found: bool)
    ensures found <==> t in types
  {
    if types == [] then false
    else if types[0] == t then true
    else
      var rest := Includes(types[1..], t);
      assert types == [types[0]] + types[1..];
      rest
  }

  /** Whether a dragover is accepted: some type is an image type, or the types include "Files". */
  function AcceptsDrag(types: Option<seq<string>>): (accepted: bool)
    ensures accepted <==> (types.Some? &&
      ((exists i :: 0 <= i < |types.value| && IsImageType(types.value[i])) || "Files" in types.value))
  {
    types.Some? && (AnyImageType(types.value) || Includes(types.value, "Files"))
  }

  // ---------------------------------------------------------------------------
  // Status

  /** What the status area shows. */
  datatype Status = NoStatus | Message(text: string) | Decoded(text: string)

  /** The status area: nothing before the first image, a message while scanning or after a miss, the decoded text after a hit. */
  function StatusOf(state: ScanState): (status: Status)
    ensures status.NoStatus? <==> state.phase.AwaitingImage?
    ensures status == Message("Loading...") <==> state.phase.Scanning?
    ensures status == Message("No QR code found.") <==> state.phase.NoResult?
    ensures state.phase.Found? ==> status == Decoded(state.phase.result.data)
  {
    match state.phase
    case AwaitingImage => NoStatus
    case Scanning => Message("Loading...")
    case NoResult => Message("No QR code found.")
    case Found(result, _) => Decoded(result.data)
  }

  // ---------------------------------------------------------------------------
  // The component's state

  /** The size of the video element's stream. */
  datatype VideoSize = VideoSize(width: nat, height: nat)

  class ScannerView {
    var media: Option<Media>
    var scanState: ScanState
    var devices: seq<Device>
    var preferredCamera: string
    var dragOver: bool

    /** The device list only ever holds cameras. */
    ghost predicate Valid()
      reads this
    {
      forall i :: 0 <= i < |devices| ==> IsCamera(devices[i])
    }

    constructor ()
      ensures Valid()
      ensures media == None && scanState == INITIAL && devices == []
      ensures preferredCamera == "environment" && !dragOver
    {
      media, scanState, devices := None, INITIAL, [];
      preferredCamera, dragOver := "environment", false;
    }

    /** The mount effect, once `enumerateDevices` has answered. */
    method DevicesEnumerated(all: seq<Device>)
      requires Valid()
      modifies this`devices
      ensures Valid() && devices == Cameras(all)
    {
      devices := Cameras(all);
    }

    /** `handleImage`, once the bitmap is decoded: the image is selected and scanning starts at its size. */
    method ImageLoaded(blob: Blob, width: nat, height: nat)
      requires Valid()
      modifies this`media, this`scanState
      ensures Valid() && media == Some(Image(blob)) && scanState == ScanState(Scanning, width, height)
    {
      media := Some(Image(blob));
      scanState := ScanState(Scanning, width, height);
    }

    /** `handleImage`, once `scanImage` settles: a result or a miss, at the bitmap's size. */
    method ImageScanned(outcome: Option<ScanResult>, width: nat, height: nat)
      requires Valid()
      modifies this`scanState
      ensures Valid()
      ensures outcome.Some? ==> scanState == ScanState(Found(outcome.value, None), width, height)
      ensures outcome.None? ==> scanState == ScanState(NoResult, width, height)
    {
      match outcome
      case Some(result) => scanState := ScanState(Found(result, None), width, height);
      case None => scanState := ScanState(NoResult, width, height);
    }

    /** `handleResult`: a detection from the camera; the frame size is kept. */
    method HandleResult(result: ScanResult, mirrored: Option<bool>)
      requires Valid()
      modifies this`scanState
      ensures Valid()
      ensures scanState == ScanState(Found(result, mirrored), old(scanState).width, old(scanState).height)
    {
      scanState := ScanState(Found(result, mirrored), scanState.width, scanState.height);
    }

    /**
     * `handleStartScan`, once the camera has started: scanning at the video's
     * size, the video selected, the cameras listed again. Without a video
     * element nothing happens.
     */
    method StartScan(video: Option<VideoSize>, region: Region, all: seq<Device>)
      requires Valid()
      modifies this`scanState, this`media, this`devices
      ensures Valid()
      ensures video.None? ==> scanState == old(scanState) && media == old(media) && devices == old(devices)
      ensures video.Some? ==>
        && scanState == ScanState(Scanning, video.value.width, video.value.height)
        && media == Some(Video(region)) && devices == Cameras(all)
    {
      if video.None? {
        return;
      }
      scanState := ScanState(Scanning, video.value.width, video.value.height);
      media := Some(Video(region));
      devices := Cameras(all);
    }

    /** "Stop scanning": the media goes, and a scan still in progress is reset; a result or a miss stays. */
    method StopScan()
      requires Valid()
      modifies this`media, this`scanState
      ensures Valid() && media == None
      ensures old(scanState).phase.Scanning? ==> scanState == INITIAL
      ensures !old(scanState).phase.Scanning? ==> scanState == old(scanState)
    {
      media := None;
      if scanState.phase.Scanning? {
        scanState := INITIAL;
      }
    }

    /**
     * The camera menu: the choice is remembered; with a scanner and a video
     * element, scanning restarts at the new stream's size once the camera is
     * switched.
     */
    method SelectCamera(value: string, scannerReady: bool, video: Option<VideoSize>, region: Region)
      requires Valid()
      modifies this`preferredCamera, this`scanState, this`media
      ensures Valid() && preferredCamera == value
      ensures scannerReady && video.Some? ==>
        scanState == ScanState(Scanning, video.value.width, video.value.height) && media == Some(Video(region))
      ensures !(scannerReady && video.Some?) ==> scanState == old(scanState) && media == old(media)
    {
      preferredCamera := value;
      if scannerReady && video.Some? {
        scanState := ScanState(Scanning, video.value.width, video.value.height);
        media := Some(Video(region));
      }
    }

    /** `handleDragOver`: the drop indicator turns on for an acceptable drag and is left alone otherwise. */
    method DragOver(types: Option<seq<string>>)
      modifies this`dragOver
      ensures dragOver == (AcceptsDrag(types) || old(dragOver))
    {
      if AcceptsDrag(types) {
        dragOver := true;
      }
    }

    /** `handleDragLeave`. */
    method DragLeave()
      modifies this`dragOver
      ensures !dragOver
    {
      dragOver := false;
    }

    /** `handleDrop`: the indicator turns off; the returned image, if any, goes to `handleImage`. */
    method Drop(items: Option<seq<Item>>) returns (image: Option<Blob>)
      modifies this`dragOver
      ensures !dragOver && image == PickedImage(items)
    {
      image := PickedImage(items);
      dragOver := false;
    }

    /** The object URL's input: the blob of a selected image, and nothing for a video or no media. */
    function ImageBlob(): (blob: Option<Blob>)
      reads this
      ensures blob.Some? <==> media.Some? && media.value.Image?
      ensures blob.Some? ==> media == Some(Image(blob.value))
    {
      match media
      case Some(Image(b)) => Some(b)
      case _ => None
    }
  }
}
