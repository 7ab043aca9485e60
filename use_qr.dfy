/**
 * The live preview of a QR code (src/lib/useQr.tsx): encoder failures are
 * classified, and the module matrix is drawn one pixel per module, dark
 * modules solid black and light ones transparent, inside a quiet zone of
 * QUIET_ZONE transparent pixels.
 */
module UseQr {
  import opened Canvas
  import Mask

  /** Modules of quiet zone around the code. */
  const QUIET_ZONE: nat := 4

  /** The encoder's module matrix: `size` x `size` booleans, row by row, true for dark. */
  datatype BitMatrix = BitMatrix(size: nat, data: seq<bool>)

  /** What the encoder's `create` returns. */
  datatype QrCode = QrCode(modules: BitMatrix, maskPattern: Mask.MaskPattern)

  /** The encoder's promise about its matrices: square, with at least one module. */
  predicate WellFormed(modules: BitMatrix) {
    modules.size > 0 && |modules.data| == modules.size * modules.size
  }

  /** A value thrown by `create`: an `Error` with its message, or anything else. */
  datatype Thrown = ErrorThrown(message: string) | OtherThrown

  /** The outcome of calling `create`. */
  datatype Creation = Created(code: QrCode) | Threw(thrown: Thrown)

  datatype CodeError = Empty | TooBig | Unknown

  /** `QrCodeOrError`: the code, or the category of the failure. */
  datatype CodeOrError = Code(code: QrCode) | Failed(error: CodeError)

  const NO_INPUT_TEXT: string := "No input text"
  const TOO_MUCH_DATA: string := "The amount of data is too big to be stored in a QR Code"

  /** The `useMemo` that calls `create` and classifies what it throws. */
  function Classify(creation: Creation): (result: CodeOrError)
    ensures result.Code? <==> creation.Created?
    ensures creation.Created? ==> result == Code(creation.code)
    ensures result == Failed(Empty) <==> creation == Threw(ErrorThrown(NO_INPUT_TEXT))
    ensures result == Failed(TooBig) <==> creation == Threw(ErrorThrown(TOO_MUCH_DATA))
    ensures result == Failed(Unknown) <==>
      creation.Threw? && creation.thrown !in {ErrorThrown(NO_INPUT_TEXT), ErrorThrown(TOO_MUCH_DATA)}
  {
    match creation
    case Created(code) => Code(code)
    case Threw(ErrorThrown(message)) =>
      if message == NO_INPUT_TEXT then Failed(Empty)
      else if message == TOO_MUCH_DATA then Failed(TooBig)
      else Failed(Unknown)
    case Threw(OtherThrown) => Failed(Unknown)
  }

  // ---------------------------------------------------------------------------
  // Pixels

  /** The RGBA bytes of one module. */
  function ModuleRgba(dark: bool): seq<byte> {
    if dark then [0, 0, 0, 255] else [255, 255, 255, 0]
  }

  /** `Array.from(data, bit => ...).flat()`: the modules' RGBA bytes, one module after the other. */
  function ModulePixels(data: seq<bool>): (buf: seq<byte>)
    ensures |buf| == 4 * |data|
  {
    if data == [] then [] else ModuleRgba(data[0]) + ModulePixels(data[1..])
  }

  /** Byte p of the flattened pixels is byte p mod 4 of module p div 4. */
  lemma {:induction false} ModulePixelsByte(data: seq<bool>, p: nat)
    requires p < 4 * |data|
    ensures ModulePixels(data)[p] == ModuleRgba(data[p / 4])[p % 4]
  {
    if p >= 4 {
      ModulePixelsByte(data[1..], p - 4);
      assert ModulePixels(data)[p] == ModulePixels(data[1..])[p - 4];
      assert p / 4 == (p - 4) / 4 + 1 && p % 4 == (p - 4) % 4;
      assert data[p / 4] == data[1..][(p - 4) / 4];
    } else {
      assert p / 4 == 0 && p % 4 == p;
      assert ModulePixels(data)[p] == ModuleRgba(data[0])[p];
    }
  }

  /** The ImageData built from a matrix: `size` pixels wide, one pixel per module. */
  function ModuleImage(modules: BitMatrix): (image: ImageData)
    requires WellFormed(modules)
    ensures ValidImage(image) && image.width == image.height == modules.size
  {
    ImageData(modules.size, modules.size, ModulePixels(modules.data))
  }

  /** The side of the canvas for a matrix with a quiet zone of `quiet` pixels. */
  function Side(modules: BitMatrix, quiet: nat): nat {
    modules.size + 2 * quiet
  }

  /** The bitmap after resizing the canvas (which clears it) and drawing the matrix at (quiet, quiet). */
  function Composite(modules: BitMatrix, quiet: nat): (buf: seq<byte>)
    requires WellFormed(modules)
    ensures |buf| == 4 * Side(modules, quiet) * Side(modules, quiet)
  {
    var side := Side(modules, quiet);
    Blit(Zeros(4 * side * side), side, side, ModuleImage(modules), quiet, quiet)
  }

  /** The module in column `col` of row `row`. */
  function Module(modules: BitMatrix, col: nat, row: nat): bool
    requires WellFormed(modules) && col < modules.size && row < modules.size
  {
    ByteInBitmap(modules.size, modules.size, col, row, 0);
    modules.data[row * modules.size + col]
  }

  /** Pixel (col, row) of the module image is the colour of module (col, row). */
  lemma ModuleImageAt(modules: BitMatrix, col: nat, row: nat, c: nat)
    requires WellFormed(modules) && col < modules.size && row < modules.size && c < 4
    ensures var image := ModuleImage(modules);
      ByteAt(image.data, image.width, image.height, col, row, c) == ModuleRgba(Module(modules, col, row))[c]
  {
    var s, k := modules.size, row * modules.size + col;
    var pixels := ModulePixels(modules.data);
    assert |pixels| == 4 * s * s;
    ByteInBitmap(s, s, col, row, c);
    DivMod(4 * k + c, 4, k, c);
    ModulePixelsByte(modules.data, 4 * k + c);
  }

  /** The composite is the module image blitted at (quiet, quiet) onto a cleared bitmap. */
  lemma CompositeBlit(modules: BitMatrix, quiet: nat, x: nat, y: nat, c: nat)
    requires WellFormed(modules)
    requires x < Side(modules, quiet) && y < Side(modules, quiet) && c < 4
    ensures var side := Side(modules, quiet);
      ByteAt(Composite(modules, quiet), side, side, x, y, c) ==
        if quiet <= x < quiet + modules.size && quiet <= y < quiet + modules.size
        then var image := ModuleImage(modules);
          ByteAt(image.data, image.width, image.height, x - quiet, y - quiet, c)
        else 0
  {
    var side := Side(modules, quiet);
    var zeros, image := Zeros(4 * side * side), ModuleImage(modules);
    assert Composite(modules, quiet) == Blit(zeros, side, side, image, quiet, quiet);
    BlitAt(zeros, side, side, image, quiet, quiet, x, y, c);
    if quiet <= x < quiet + modules.size && quiet <= y < quiet + modules.size {
      assert 0 <= x - quiet < image.width && 0 <= y - quiet < image.height;
      assert ByteAt(Composite(modules, quiet), side, side, x, y, c) ==
        ByteAt(image.data, image.width, image.height, x - quiet, y - quiet, c);
    } else {
      ByteInBitmap(side, side, x, y, c);
      assert ByteAt(zeros, side, side, x, y, c) == 0;
    }
  }

  /**
   * Pixel (x, y) of the composite: inside the interior square it has the
   * colour of the module under it, in the quiet zone it is transparent black.
   */
  lemma CompositePixel(modules: BitMatrix, quiet: nat, x: nat, y: nat, c: nat)
    requires WellFormed(modules)
    requires x < Side(modules, quiet) && y < Side(modules, quiet) && c < 4
    ensures var side, s := Side(modules, quiet), modules.size;
      ByteAt(Composite(modules, quiet), side, side, x, y, c) ==
        if quiet <= x < quiet + s && quiet <= y < quiet + s
        then ModuleRgba(Module(modules, x - quiet, y - quiet))[c]
        else 0
  {
    CompositeBlit(modules, quiet, x, y, c);
    if quiet <= x < quiet + modules.size && quiet <= y < quiet + modules.size {
      ModuleImageAt(modules, x - quiet, y - quiet, c);
    }
  }

  /** Module k, counted row by row, lands on canvas pixel (quiet + k mod size, quiet + k div size). */
  lemma ModuleLandsAt(modules: BitMatrix, quiet: nat, k: nat, c: nat)
    requires WellFormed(modules) && k < |modules.data| && c < 4
    ensures var side, s := Side(modules, quiet), modules.size;
      && quiet + k % s < side && quiet + k / s < side
      && ByteAt(Composite(modules, quiet), side, side, quiet + k % s, quiet + k / s, c) ==
           ModuleRgba(modules.data[k])[c]
  {
    ModuleAtIndex(modules, k);
    CellLandsAt(modules, quiet, k % modules.size, k / modules.size, c);
  }

  /** Module (col, row) lands on canvas pixel (quiet + col, quiet + row). */
  lemma CellLandsAt(modules: BitMatrix, quiet: nat, col: nat, row: nat, c: nat)
    requires WellFormed(modules) && col < modules.size && row < modules.size && c < 4
    ensures var side := Side(modules, quiet);
      ByteAt(Composite(modules, quiet), side, side, quiet + col, quiet + row, c) ==
        ModuleRgba(Module(modules, col, row))[c]
  {
    CompositePixel(modules, quiet, quiet + col, quiet + row, c);
  }

  /** Index k of the row-major data is column k mod size of row k div size. */
  lemma ModuleAtIndex(modules: BitMatrix, k: nat)
    requires WellFormed(modules) && k < |modules.data|
    ensures k % modules.size < modules.size && k / modules.size < modules.size
    ensures Module(modules, k % modules.size, k / modules.size) == modules.data[k]
  {
    RowMajor(k, modules.size);
  }

  /** Row and column of index k in a square of side s. */
  lemma RowMajor(k: nat, s: nat)
    requires k < s * s
    ensures s > 0 && k % s < s && k / s < s && (k / s) * s + k % s == k
  {
    if k / s >= s {
      MulMonotonic(k / s, s, s);
    }
  }

  /** a * c >= b * c when a >= b and c >= 0. */
  lemma MulMonotonic(a: int, b: int, c: int)
    requires a >= b && c >= 0
    ensures a * c >= b * c
  {
    assert a * c - b * c == (a - b) * c;
  }

  /** Every pixel of the quiet zone is transparent black. */
  lemma QuietZoneTransparent(modules: BitMatrix, quiet: nat, x: nat, y: nat, c: nat)
    requires WellFormed(modules)
    requires x < Side(modules, quiet) && y < Side(modules, quiet) && c < 4
    requires x < quiet || y < quiet || x >= quiet + modules.size || y >= quiet + modules.size
    ensures ByteAt(Composite(modules, quiet), Side(modules, quiet), Side(modules, quiet), x, y, c) == 0
  {
    CompositePixel(modules, quiet, x, y, c);
  }

  // ---------------------------------------------------------------------------
  // The effect

  /**
   * The `useEffect` that draws `code` on the canvas behind `context`
   * (`None` when there is no rendering context).
   */
  method Render(context: Canvas?, code: CodeOrError)
    requires context != null ==> context.Valid()
    requires code.Code? ==> WellFormed(code.code.modules)
    modifies context
    ensures context != null ==> context.Valid() && context.maxHeight == old(context.maxHeight)
    ensures context != null && code.Failed? ==>
      context.width == 0 && context.height == 0 && context.data[..] == []
    ensures context != null && code.Code? ==>
      var modules := code.code.modules;
      && context.width == Side(modules, QUIET_ZONE)
      && context.height == Side(modules, QUIET_ZONE)
      && context.data[..] == Composite(modules, QUIET_ZONE)
  {
    if context == null {
      return;
    }
    if code.Failed? {
      context.SetWidth(0);
      context.SetHeight(0);
      return;
    }
    var modules := code.code.modules;
    var image := ModuleImage(modules);
    context.SetWidth(modules.size + QUIET_ZONE * 2);
    context.SetHeight(modules.size + QUIET_ZONE * 2);
    context.PutImageData(image, QUIET_ZONE, QUIET_ZONE);
  }
}
