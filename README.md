# QR generator and scanner: a Dafny model of the pixel, geometry and state layer

This project models the logic in SheepTester's QR web app that lies between
two libraries: the `qrcode` encoder and the `qr-scanner` detector. The
libraries are inputs here. What the encoder's `create` returns, or throws,
is a `UseQr.Creation`. What the detector reports is a `Scanner.ScanResult`.

Modules, one per source file:

- `Mask` (src/generator/mask.ts) builds the 6×6 preview glyph of a mask pattern.
  - The `Mask` method keeps the source's nested loops and its `penDown` flag.
  - It is proved equal to a run-based specification, `GlyphPath(Grid(expression))`.
  - Lemmas then show what that path paints:
    - exactly the cells where the expression is 0;
    - one `M`/`H` pair per maximal run, in row and column order;
    - the blank and full glyphs.
- `Canvas` is the part of the browser canvas that the compositors use: bitmap size, RGBA bytes, CSS `max-height` and `putImageData`.
  - It is a class over an `array<byte>`.
  - Setting `width` or `height` reallocates and clears the bitmap, as the browser does.
- `UseQr` (src/lib/useQr.tsx) covers three parts:
  - failure classification;
  - the module-to-RGBA mapping;
  - the effect that sizes the canvas to `size + 2·QUIET_ZONE` and draws the modules inside a transparent quiet zone. On failure the canvas collapses to 0×0.
- `LegacyGenerator` (src/Generator.tsx) and `PeerApp` (src/PeerApp.tsx) are the older compositors.
  - `PeerApp` also covers the drag positioner: `Clamp`, the inset formulas, and a one-drag-at-a-time pointer state machine over real numbers.
- `Scanner` (src/scanner/index.tsx) and `LegacyScanner` (src/Scanner.tsx) cover:
  - the outline path, with horizontal mirroring, and the even-odd dimming path;
  - the camera and clipboard filters;
  - the scan-state transitions, as methods of a view class.
- `ResultView` (src/scanner/Result.tsx) is `getUrl`.
  - The two regular-expression tests are witness predicates.
  - Recursive scanners are proved equivalent to them.
- `Text` holds the ASCII trim and the character classes these modules share.
- `GeneratorOptions` (src/generator/index.tsx) covers:
  - the export and preview options;
  - `+pixelSize`;
  - `actualMask`;
  - the message and button selection.
- `ObjectUrl` (src/lib/useObjectUrl.ts) is the one-entry object-URL memo.
  - URLs come from a fresh-id allocator.
  - Each create and revoke call is logged.
  - At most one URL is live at a time, and it is the one returned.
- `Wrappers` holds `Option`, standing for `null` and `undefined`.

Two facts about the code that the model follows:

- `actualMask` (src/generator/index.tsx:125) is the encoder's mask for every successful code, including an explicitly chosen one.
- src/PeerApp.tsx:5 imports `QUIET_ZONE` from a file that is not part of this model. The value 4 defined at src/lib/useQr.tsx:6 is used.

## Model

| member | source | states |
|---|---|---|
| Mask.Mask | src/generator/mask.ts:9-35 | returns `value` unchanged, and the path the nested loops build equals the run-based glyph of the 6×6 grid |
| Mask.Grid | src/generator/mask.ts:15-19 | the grid is 6×6 and cell (i, j) is filled iff `expression(i, j) == 0` |
| Mask.RunEnd | src/generator/mask.ts:18-28 | the run from column j ends at the first unfilled column, or at the row's end; every cell in between is filled |
| Mask.Commands | src/generator/mask.ts:22-31 | each run contributes exactly two commands |
| Mask.PendingStep | src/generator/mask.ts:19-28 | one inner-loop step: `M j i` when a run starts, `H j` when one ends, nothing otherwise |
| Mask.PendingEnd | src/generator/mask.ts:30-32 | at the row's end a run still open is closed with `H 6`, and nothing else is emitted |
| Mask.ScanStep | src/generator/mask.ts:19-28 | each column keeps the loop's promise: the commands emitted so far, followed by what the pen state still owes the row, are the row's run-based path |
| Mask.RowRunsShape | src/generator/mask.ts:18-32 | the runs of a row are maximal runs of that row, in increasing column order, each starting where the pen goes down |
| Mask.GridRunsShape | src/generator/mask.ts:15-33 | the runs of the first n rows stay within those rows, are maximal, and are sorted by row and then column |
| Mask.CommandsAppend | src/generator/mask.ts:14-33 | the path of two run lists one after the other is the two paths one after the other |
| Mask.PaintsCommands | src/generator/mask.ts:22-31 | rasterising the `M`/`H` path of a run list paints a cell iff some run covers it |
| Mask.RowRunsCover | src/generator/mask.ts:18-32 | a column of the row is covered by a run from j on iff it is at or after j and filled |
| Mask.RowRunsInRow | src/generator/mask.ts:16-32 | every run built for row i lies in row i, because `penDown` is reset for each row |
| Mask.GridRunsCover | src/generator/mask.ts:15-33 | a cell is covered by the runs of the first n rows iff it is a filled cell of one of them |
| Mask.GlyphPaintsFilledCells | src/generator/mask.ts:15-33 | the glyph path paints exactly the filled cells of the grid |
| Mask.MaskPaintsFilledCells | src/generator/mask.ts:19 | cell (i, j) is painted iff 0 ≤ i, j < 6 and `expression(i, j) == 0` |
| Mask.CommandsAt | src/generator/mask.ts:22-31 | commands alternate: an even position holds the `M` of a run's start, and the odd one after it holds that run's closing `H` |
| Mask.GlyphShape | src/generator/mask.ts:15-33 | `M` and `H` strictly alternate; each `M j i` is followed by an `H j'` that closes a maximal run of row i; the `M`s go in increasing row, then column, order |
| Mask.MaximalRunsMeet | src/generator/mask.ts:18-28 | two maximal runs of a row that share a cell are the same run |
| Mask.MaximalRunDrawnOnce | src/generator/mask.ts:19-32 | every maximal run of every row appears in the path as `M start i` followed by `H stop`, at exactly one position |
| Mask.GlyphMovesDistinct | src/generator/mask.ts:20-24 | no two `M` commands of a glyph are the same |
| Mask.BlankGlyph | src/generator/mask.ts:14-33 | a grid with no filled cell yields the empty path |
| Mask.BlankGridRuns | src/generator/mask.ts:15-33 | rows without filled cells produce no runs |
| Mask.BlankRowRuns | src/generator/mask.ts:18-29 | a row part without filled cells produces no runs |
| Mask.FullGlyph | src/generator/mask.ts:14-33 | a fully filled grid yields `M 0 i H 6` for i = 0 to 5 |
| Mask.FullGridRuns | src/generator/mask.ts:15-33 | full rows each produce the single run from column 0 to the row's end |
| Mask.FullRowEnd | src/generator/mask.ts:30-32 | in a full row every run reaches the row's end |
| Mask.GlyphDependsOnGridOnly | src/generator/mask.ts:19 | two expressions that agree on the 36 grid cells give the same path |
| Canvas.Zeros | src/lib/useQr.tsx:59-60 | a resized bitmap has the requested length and every byte 0 (transparent black) |
| Canvas.BlitAt | src/lib/useQr.tsx:61 | after `putImageData`, a pixel covered by the image has the image's pixel, and every other pixel keeps its old value |
| Canvas.BlitCoversAll | src/Generator.tsx:30 | an image the size of the canvas drawn at the origin replaces every byte |
| Canvas.Canvas.constructor | src/lib/useQr.tsx:67-70 | a fresh canvas element is 300×150, transparent, with no `max-height` |
| Canvas.Canvas.SetWidth | src/lib/useQr.tsx:59 | assigning the width sets it and reallocates a cleared bitmap; the height and `max-height` are unchanged |
| Canvas.Canvas.SetHeight | src/lib/useQr.tsx:60 | assigning the height sets it and reallocates a cleared bitmap; the width and `max-height` are unchanged |
| Canvas.Canvas.SetMaxHeight | src/Generator.tsx:29 | sets the CSS `max-height` in pixels and nothing else |
| Canvas.Canvas.PutImageData | src/lib/useQr.tsx:61 | the bitmap becomes the blit of the image at (dx, dy) onto its previous contents |
| UseQr.Classify | src/lib/useQr.tsx:22-39 | a code passes through; an `Error` with exactly "No input text" maps to `empty`; exactly the too-big message maps to `too-big`; any other message or non-`Error` throw maps to `unknown` (both directions) |
| UseQr.ModulePixels | src/lib/useQr.tsx:53-55 | four bytes per module |
| UseQr.ModulePixelsByte | src/lib/useQr.tsx:53-55 | byte p is byte p mod 4 of module p div 4's colour: dark (0,0,0,255), light (255,255,255,0) |
| UseQr.ModuleImage | src/lib/useQr.tsx:51-58 | the ImageData is a valid size×size image |
| UseQr.Composite | src/lib/useQr.tsx:59-61 | the composite bitmap holds 4·side² bytes, with side = size + 2·quiet |
| UseQr.ModuleImageAt | src/lib/useQr.tsx:51-58 | pixel (col, row) of the ImageData has the colour of module (col, row) |
| UseQr.CompositeBlit | src/lib/useQr.tsx:59-61 | a composite pixel is the image pixel under it inside the interior square, and 0 in the quiet zone |
| UseQr.CompositePixel | src/lib/useQr.tsx:51-61 | a composite pixel has the colour of the module (x − quiet, y − quiet) inside the interior, and is transparent black in the quiet zone |
| UseQr.ModuleAtIndex | src/lib/useQr.tsx:53-57 | module data is row-major: index k is column k mod size of row k div size |
| UseQr.ModuleLandsAt | src/lib/useQr.tsx:56-61 | module k lands on canvas pixel (quiet + k mod size, quiet + k div size), which lies within the canvas |
| UseQr.CellLandsAt | src/lib/useQr.tsx:59-61 | module (col, row) lands on canvas pixel (quiet + col, quiet + row) |
| UseQr.QuietZoneTransparent | src/lib/useQr.tsx:59-61 | every canvas pixel outside the interior square is never written and stays transparent black |
| UseQr.Render | src/lib/useQr.tsx:42-62 | with no context nothing is touched; on an error the canvas is 0×0 with no pixels; on success it is (size + 8) square and holds exactly the composite; `max-height` is unchanged |
| LegacyGenerator.NoQuietZoneIsModulePixels | src/Generator.tsx:27-30 | with the image at the origin the whole bitmap is exactly the modules' RGBA bytes |
| LegacyGenerator.Render | src/Generator.tsx:13-35 | on success the canvas is size×size, `max-height` is size·20 and the bitmap is the module pixels; any throw gives 0×0 and leaves `max-height` |
| PeerApp.Clamp | src/PeerApp.tsx:15-17 | the result lies in [0.05, 0.95], equals the input on that interval, and is the nearer bound outside it |
| PeerApp.ClampIdempotent | src/PeerApp.tsx:16-17 | clamping twice is clamping once |
| PeerApp.ClampMonotonic | src/PeerApp.tsx:16-17 | clamping preserves order |
| PeerApp.InsetsOf | src/PeerApp.tsx:62-66 | `left`/`right` follow the leading and trailing formulas in x, and `top`/`bottom` the same formulas in y |
| PeerApp.InsetsExclusive | src/PeerApp.tsx:63-64 | at most one inset per axis is non-zero, both are zero at 0.5, and neither is negative |
| PeerApp.InsetsCentred | src/PeerApp.tsx:63-64 | the box between the two insets is centred at 100·v percent |
| PeerApp.InsetsBounded | src/PeerApp.tsx:62-66 | for a clamped position both insets lie between 0 and 90 percent |
| PeerApp.Positioner.constructor | src/PeerApp.tsx:20-22 | the position starts at (0.5, 0.5) with no drag |
| PeerApp.Positioner.PointerDown | src/PeerApp.tsx:68-79 | a drag is recorded from the current position and pointer only when none is active; an active drag is never replaced; the position never changes |
| PeerApp.Positioner.PointerMove | src/PeerApp.tsx:80-89 | a move of the dragging pointer sets x = clamp(initX + Δx / innerWidth) and likewise y, from the drag's origin; any other move leaves the position |
| PeerApp.Positioner.PointerEnd | src/PeerApp.tsx:25-29 | the drag ends only when the pointer ids match; the position is unchanged |
| PeerApp.CodeOf | src/PeerApp.tsx:33-40 | the code on success, `None` when `create` throws |
| PeerApp.Render | src/PeerApp.tsx:42-57 | with no context or no code the canvas is untouched; otherwise it is (size + 8) square and holds the composite |
| Scanner.Lines | src/scanner/index.tsx:163-170 | one `L` per corner, in order, at the drawn coordinates |
| Scanner.Outline | src/scanner/index.tsx:161-171 | one command per corner in reported order, `M` for the first and `L` for the rest; x is `width − x` when mirrored; y is unchanged; closed by `z` |
| Scanner.OutlineRoundTrip | src/scanner/index.tsx:166-168 | reading the outline back and undoing the mirroring gives the reported corners |
| Scanner.OutlinePath | src/scanner/index.tsx:161-171 | an outline exists iff the state is a result, and it is mirrored iff `mirrored` is true |
| Scanner.DimmingPath | src/scanner/index.tsx:300-307 | the frame `M 0 0 H w V h H 0 z` followed by the outline, present iff there is a result and the media is an image |
| Scanner.MirroredOutlineExample | src/scanner/index.tsx:161-171 | a mirrored 100-pixel-wide frame draws the corners (10,20), (30,20), (30,40) at x = 90, 70, 70 |
| Scanner.Cameras | src/scanner/index.tsx:44-48 | a device is kept iff it has a non-empty id and kind `videoinput` |
| Scanner.CamerasAppend | src/scanner/index.tsx:45-47 | the filter distributes over concatenation, so the original order is kept |
| Scanner.CamerasOfCameras | src/scanner/index.tsx:45-47 | a list of cameras passes the filter unchanged |
| Scanner.FirstImageItem | src/scanner/index.tsx:118-119 | the index of the first item whose type starts with `image/`, or `None` when there is none |
| Scanner.PickedImage | src/scanner/index.tsx:117-124 | a paste or drop picks the first image item's file: nothing when no item is an image or that item gives no file, and nothing without clipboard data |
| Scanner.AnyImageType | src/scanner/index.tsx:127 | the scan succeeds iff some type starts with `image/` |
| Scanner.Includes | src/scanner/index.tsx:128 | the scan succeeds iff the list contains the string |
| Scanner.AcceptsDrag | src/scanner/index.tsx:125-134 | built from the two scans: a dragover is accepted iff some type starts with `image/` or the types include `Files` |
| Scanner.StatusOf | src/scanner/index.tsx:314-324 | nothing while awaiting an image, "Loading..." while scanning, "No QR code found." after a miss, and the decoded text after a result |
| Scanner.ScannerView.constructor | src/scanner/index.tsx:27-38 | no media, `awaiting-image` at 0×0, no devices, the environment camera, no drag |
| Scanner.ScannerView.DevicesEnumerated | src/scanner/index.tsx:40-50 | the device list becomes the cameras among the enumerated devices |
| Scanner.ScannerView.ImageLoaded | src/scanner/index.tsx:52-60 | the image becomes the media and the state `scanning` at the bitmap's size |
| Scanner.ScannerView.ImageScanned | src/scanner/index.tsx:62-80 | a result, not mirrored, or `no-result`, at the bitmap's size |
| Scanner.ScannerView.HandleResult | src/scanner/index.tsx:83-90 | the state becomes a result with the scanner's mirroring flag and the previous width and height |
| Scanner.ScannerView.StartScan | src/scanner/index.tsx:92-114 | without a video nothing changes; otherwise `scanning` at the video's size, video media, and the camera list refreshed |
| Scanner.ScannerView.StopScan | src/scanner/index.tsx:208-214 | the media is cleared; `scanning` resets to `awaiting-image` 0×0; a result or miss is kept |
| Scanner.ScannerView.SelectCamera | src/scanner/index.tsx:231-247 | the choice is stored; with a scanner and a video, `scanning` at the new size with video media; otherwise the state is kept |
| Scanner.ScannerView.DragOver | src/scanner/index.tsx:125-134 | the drop indicator turns on iff the drag is accepted, and otherwise keeps its value |
| Scanner.ScannerView.DragLeave | src/scanner/index.tsx:135-137 | the drop indicator turns off |
| Scanner.ScannerView.Drop | src/scanner/index.tsx:138-147 | the indicator turns off and the picked image, if any, is handed on |
| Scanner.ScannerView.ImageBlob | src/scanner/index.tsx:28 | the object URL's input is the selected image's blob, and nothing for a video or no media |
| LegacyScanner.OutlinePath | src/Scanner.tsx:168-171 | an outline exists iff the state is a result, and it goes through the raw corners |
| LegacyScanner.ShadowPath | src/Scanner.tsx:158-167 | the full-frame rectangle followed by the outline, present iff the state is a result |
| LegacyScanner.OutlineUnmirrored | src/Scanner.tsx:164 | every outline command has the corner's own x and y |
| LegacyScanner.SameAsUnmirroredView | src/Scanner.tsx:168-171 | the newer view draws the same outline when the result was not mirrored |
| LegacyScanner.StatusText | src/Scanner.tsx:180-186 | "Loading..." for scanning, "No QR code found." for no-result, the data for a result, and nothing while awaiting an image |
| LegacyScanner.LegacyScannerView.constructor | src/Scanner.tsx:24-30 | no selection, and `awaiting-image` at 0×0 |
| LegacyScanner.LegacyScannerView.ImageLoaded | src/Scanner.tsx:34-42 | the image is selected and the state is `scanning` at the bitmap's size |
| LegacyScanner.LegacyScannerView.ImageScanned | src/Scanner.tsx:44-62 | a result or `no-result` at the bitmap's size |
| LegacyScanner.LegacyScannerView.HandleResult | src/Scanner.tsx:65-71 | the state becomes a result with the previous width and height |
| LegacyScanner.LegacyScannerView.StartScan | src/Scanner.tsx:73-89 | without a video nothing changes; otherwise `scanning` at the video's size with the camera selected |
| LegacyScanner.LegacyScannerView.ImageBlob | src/Scanner.tsx:25 | the object URL's input is the chosen image, and nothing for the camera |
| LegacyScanner.HandleImage | src/Scanner.tsx:34-63 | after both steps the image is selected and the state is a result or miss at the bitmap's size, whatever it was before |
| Text.TrimStart | src/scanner/Result.tsx:38 | removes exactly the leading whitespace |
| Text.TrimEnd | src/scanner/Result.tsx:38 | removes exactly the trailing whitespace |
| Text.Trim | src/scanner/Result.tsx:38 | the result is a slice with only whitespace around it, and it neither starts nor ends with whitespace |
| Text.TrimBlank | src/scanner/Result.tsx:38 | whitespace-only text trims to the empty string |
| Text.TrimUnpadded | src/scanner/Result.tsx:38 | text that neither starts nor ends with whitespace is left unchanged by the trim |
| Text.TrimIdempotent | src/scanner/Result.tsx:38 | trimming twice is trimming once |
| ResultView.FindScheme | src/scanner/Result.tsx:39 | the scan succeeds iff a letter immediately followed by `:` occurs at or after i |
| ResultView.LettersToBoundary | src/scanner/Result.tsx:42 | the scan succeeds iff a run of letters from j reaches `/` or the end of the text |
| ResultView.FindDomain | src/scanner/Result.tsx:42 | the scan succeeds iff the pattern letter, `.`, letters⁺, then `/` or end occurs at or after i |
| ResultView.GetUrl | src/scanner/Result.tsx:37-46 | on the trimmed text: returned unchanged when it has a scheme (this test wins); prefixed with `http://` when it only has a domain; `None` otherwise |
| ResultView.BlankHasNoUrl | src/scanner/Result.tsx:38-45 | empty or whitespace-only text gives `None` |
| ResultView.NoPunctuationNoUrl | src/scanner/Result.tsx:39-45 | text with no `:` and no `.` gives `None` |
| ResultView.BareDomain | src/scanner/Result.tsx:42-44 | two runs of letters joined by a dot, such as `example.com`, come back with `http://` in front |
| ResultView.Render | src/scanner/Result.tsx:8-16 | the text renders as a link to `getUrl`'s result iff that result exists |
| GeneratorOptions.ToNumber | src/generator/index.tsx:49 | ignoring surrounding whitespace, a string of decimal digits (or nothing) is the integer it spells |
| GeneratorOptions.ToNumberDecimal | src/generator/index.tsx:49 | a pixel size written in decimal reads back as that number |
| GeneratorOptions.QrOptions | src/generator/index.tsx:45-57 | passes the level and mask through; scale is `+pixelSize`; dark is `#000`; light is `#fff` when the background is solid and `#0000` otherwise; margin is the default iff margins are on, and 0 otherwise |
| GeneratorOptions.InitialOptions | src/generator/index.tsx:28-33 | on the first render export asks for level M, an automatic mask, scale 10, `#000` on `#fff` and the default margin |
| GeneratorOptions.PreviewOptionsOf | src/generator/index.tsx:35-42 | the preview carries only the level and the mask |
| GeneratorOptions.PreviewMatchesExport | src/generator/index.tsx:35-57 | the preview uses the export's level and mask and ignores scale, colour and margin |
| GeneratorOptions.ActualMask | src/generator/index.tsx:125 | the code's mask pattern iff the encoder produced a code |
| GeneratorOptions.BodyOf | src/generator/index.tsx:103-113 | too-big and unknown failures select their messages; a code or an empty text shows the canvas; the welcome screen shows neither |
| GeneratorOptions.ButtonsHidden | src/generator/index.tsx:114-122 | there are no buttons on the welcome screen; otherwise they are hidden iff the text is empty |
| ObjectUrl.Live | src/lib/useObjectUrl.ts:8-11 | every live URL was created by some logged call |
| ObjectUrl.LiveAfterTransition | src/lib/useObjectUrl.ts:7-11 | revoking the only live URL and creating one leaves exactly the new one live, and only revoking leaves none |
| ObjectUrl.UrlCache.constructor | src/lib/useObjectUrl.ts:4-5 | both refs start null and nothing has been created |
| ObjectUrl.UrlCache.Use | src/lib/useObjectUrl.ts:3-14 | the same blob returns the same URL and logs nothing; a new blob revokes the previous URL, if any, once, then creates a URL for a non-null blob, one never live before, advancing the allocator only then; the single live URL is the one returned |
| ObjectUrl.FreshNotLive | src/lib/useObjectUrl.ts:11 | a freshly allocated URL was never live before |

## Left out

- The `qrcode` encoder's internals (matrix construction, error correction, mask selection, PNG and SVG output) are not modelled. `create` is an input `UseQr.Creation`, and the `options` argument is not passed on.
- The compositors assume the encoder's matrix is well formed: square, at least one module, `size²` entries. This is why the `Render` methods require `WellFormed`; it is also what keeps the ImageData constructor from throwing.
- The `qr-scanner` detector is not modelled: detection, camera start, stop and switching, `isVideoMirrored` and scan regions. `createImageBitmap`, `enumerateDevices` and bitmap dimensions are not modelled either. Their results arrive as method parameters.
- The eight mask formulas live in a file that is not part of this model; `Mask.Mask` takes the formula as a parameter.
- Path strings and CSS percentages are sequences of path-command values and reals, not formatted text. Number formatting is not modelled.
- Positions, insets and corner coordinates are reals. IEEE rounding, NaN and infinities are not modelled. The drag methods require a positive window size.
- PeerApp.Positioner: React state updates take effect at once. Events handled against a stale render (`x` captured by the closure) are not modelled.
- Scanner.ScannerView.StopScan reads the current state, where the source reads the state captured by the render. Both agree unless a result arrives between the render and the click.
- Scanner.ScannerView.ImageLoaded and ImageScanned split the asynchronous `handleImage` into its two state updates. Interleavings with other events are not modelled. The same holds for `LegacyScanner`.
- GeneratorOptions.ToNumber: the model computes `+s` only for decimal digit strings with surrounding whitespace. Signs, fractions, exponents, hexadecimal, and the NaN of other strings are all `Uncomputed`.
- Text.Trim removes ASCII whitespace only, not the full JavaScript whitespace set. The regular expressions are witness predicates, not a regex engine.
- Other I/O is not modelled: `setPointerCapture`, `console` logging, the `onUse` and `onKeyboard` callbacks, the virtual keyboard, clipboard reads and writes, PNG and SVG export (`toCanvas`, `toString`, `toBlob`), and `download`.
- The file `<input>` handler only forwards its first file to `handleImage`, and UI markup (viewBox, aspect ratio, scan-region rectangle, display toggles) carries no logic. Neither is modelled.
- Object URLs are numbers from an allocator, not strings. `createObjectURL` and `revokeObjectURL` are log entries.
- ObjectUrl.UrlCache.Use takes `None` for both `null` and `undefined`. The source treats `undefined` after `null` as a change, but that change resets nothing observable.
