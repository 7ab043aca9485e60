/**
 * The parts of the browser's 2D canvas that the compositors use: the bitmap
 * size, the bitmap itself as RGBA bytes, the CSS `max-height`, and
 * `putImageData`.
 */
module Canvas {
  import opened Wrappers

  /** An element of a Uint8ClampedArray. */
  type byte = b: int | 0 <= b < 256

  /** An ImageData: `width` x `height` pixels, four bytes (R, G, B, A) each, row by row. */
  datatype ImageData = ImageData(width: nat, height: nat, data: seq<byte>)

  predicate ValidImage(image: ImageData) {
    |image.data| == 4 * image.width * image.height
  }

  /** `n` zero bytes: a transparent black bitmap. */
  function Zeros(n: nat): (buf: seq<byte>)
    ensures |buf| == n && forall p :: 0 <= p < n ==> buf[p] == 0
  {
    seq(n, _ => 0)
  }

  /** 4 * (y * w + x) + c is a byte of a w x h bitmap when x < w, y < h and c < 4. */
  lemma ByteInBitmap(w: nat, h: nat, x: nat, y: nat, c: nat)
    requires x < w && y < h && c < 4
    ensures 4 * (y * w + x) + c < 4 * w * h
  {
    assert y * w + x < (y + 1) * w;
    assert (y + 1) * w <= h * w;
  }

  /** k * d >= d for k >= 1 and a positive d. */
  lemma MulAtLeast(k: int, d: int)
    requires k >= 1 && d > 0
    ensures k * d >= d
  {
    assert k * d == (k - 1) * d + d;
  }

  /** Division by a positive `d` of q * d + r with 0 <= r < d. */
  lemma DivMod(a: int, d: int, q: int, r: int)
    requires d > 0 && 0 <= r < d && a == q * d + r
    ensures a / d == q && a % d == r
  {
    var q', r' := a / d, a % d;
    assert a == q' * d + r';
    assert (q - q') * d == r' - r by {
      assert (q - q') * d == q * d - q' * d;
    }
    if q > q' {
      MulAtLeast(q - q', d);
    } else if q < q' {
      MulAtLeast(q' - q, d);
    }
  }

  /** Byte 4 * (y * w + x) + c of a w-wide bitmap is byte c of pixel (x, y). */
  lemma PixelOfByte(w: nat, x: nat, y: nat, c: nat)
    requires x < w && c < 4
    ensures var p := 4 * (y * w + x) + c;
      p / 4 == y * w + x && p % 4 == c && (p / 4) % w == x && (p / 4) / w == y
  {
    DivMod(4 * (y * w + x) + c, 4, y * w + x, c);
    DivMod(y * w + x, w, y, x);
  }

  /**
   * Byte `p` of a `width`-wide bitmap `buf` after `image` is drawn with its
   * top left corner at (dx, dy): the image's byte where the image covers the
   * pixel, the old byte elsewhere.
   */
  function BlitByte(buf: seq<byte>, width: nat, height: nat, image: ImageData, dx: int, dy: int, p: nat): byte
    requires |buf| == 4 * width * height && ValidImage(image) && p < |buf|
  {
    var pixel := p / 4;
    var x, y := pixel % width - dx, pixel / width - dy;
    if 0 <= x < image.width && 0 <= y < image.height then
      ByteInBitmap(image.width, image.height, x, y, p % 4);
      image.data[4 * (y * image.width + x) + p % 4]
    else buf[p]
  }

  /** An image of the bitmap's own size drawn at the origin replaces every byte. */
  lemma BlitCoversAll(buf: seq<byte>, width: nat, height: nat, image: ImageData, p: nat)
    requires |buf| == 4 * width * height && ValidImage(image) && p < |buf|
    requires image.width == width && image.height == height
    ensures BlitByte(buf, width, height, image, 0, 0, p) == image.data[p]
  {
    var pixel := p / 4;
    assert p == 4 * pixel + p % 4;
    assert width > 0;
    var x, y := pixel % width, pixel / width;
    assert pixel == y * width + x;
  }

  /** The whole bitmap after drawing `image` at (dx, dy); parts of the image outside the bitmap are dropped. */
  function Blit(buf: seq<byte>, width: nat, height: nat, image: ImageData, dx: int, dy: int): (result: seq<byte>)
    requires |buf| == 4 * width * height && ValidImage(image)
    ensures |result| == |buf|
  {
    seq(|buf|, p requires 0 <= p < |buf| => BlitByte(buf, width, height, image, dx, dy, p))
  }

  /** Byte c (0 red, 1 green, 2 blue, 3 alpha) of pixel (x, y) of a w x h bitmap. */
  function ByteAt(buf: seq<byte>, w: nat, h: nat, x: nat, y: nat, c: nat): byte
    requires |buf| == 4 * w * h && x < w && y < h && c < 4
  {
    ByteInBitmap(w, h, x, y, c);
    buf[4 * (y * w + x) + c]
  }

  /**
   * Pixel (x, y) after the blit: the image pixel over it when the image
   * covers (x, y), the old pixel otherwise.
   */
  lemma BlitAt(buf: seq<byte>, width: nat, height: nat, image: ImageData, dx: int, dy: int, x: nat, y: nat, c: nat)
    requires |buf| == 4 * width * height && ValidImage(image)
    requires x < width && y < height && c < 4
    ensures ByteAt(Blit(buf, width, height, image, dx, dy), width, height, x, y, c) ==
      if 0 <= x - dx < image.width && 0 <= y - dy < image.height
      then ByteAt(image.data, image.width, image.height, x - dx, y - dy, c)
      else ByteAt(buf, width, height, x, y, c)
  {
    var p := 4 * (y * width + x) + c;
    ByteInBitmap(width, height, x, y, c);
    PixelOfByte(width, x, y, c);
    assert Blit(buf, width, height, image, dx, dy)[p] == BlitByte(buf, width, height, image, dx, dy, p);
  }

  class Canvas {
    /** Bitmap size in pixels. */
    var width: nat
    var height: nat
    /** The bitmap, four bytes per pixel, row by row. */
    var data: array<byte>
    /** The element's CSS `max-height` in pixels; `None` when unset. */
    var maxHeight: Option<nat>

    ghost predicate Valid()
      reads this
    {
      data.Length == 4 * width * height
    }

    /** A fresh canvas element: 300 x 150, transparent black, no `max-height`. */
    constructor ()
      ensures Valid() && fresh(data)
      ensures width == 300 && height == 150 && maxHeight == None
      ensures data[..] == Zeros(4 * 300 * 150)
    {
      width, height := 300, 150;
      data := new byte[4 * 300 * 150](_ => 0);
      maxHeight := None;
    }

    /** Assigning `canvas.width`: the bitmap is reallocated and cleared to transparent black, even for the same width. */
    method SetWidth(w: nat)
      modifies this
      ensures Valid() && fresh(data)
      ensures width == w && height == old(height) && maxHeight == old(maxHeight)
      ensures data[..] == Zeros(4 * w * height)
    {
      width := w;
      data := new byte[4 * w * height](_ => 0);
    }

    /** Assigning `canvas.height`, which clears the bitmap the same way. */
    method SetHeight(h: nat)
      modifies this
      ensures Valid() && fresh(data)
      ensures width == old(width) && height == h && maxHeight == old(maxHeight)
      ensures data[..] == Zeros(4 * width * h)
    {
      height := h;
      data := new byte[4 * width * h](_ => 0);
    }

    /** Assigning `canvas.style.maxHeight`. */
    method SetMaxHeight(px: nat)
      modifies this`maxHeight
      ensures maxHeight == Some(px)
    {
      maxHeight := Some(px);
    }

    /** `putImageData(image, dx, dy)`: copies the image's pixels into the bitmap at (dx, dy), clipped to the bitmap. */
    method PutImageData(image: ImageData, dx: int, dy: int)
      requires Valid() && ValidImage(image)
      modifies data
      ensures data[..] == Blit(old(data[..]), width, height, image, dx, dy)
    {
      var before := data[..];
      forall p | 0 <= p < data.Length {
        data[p] := BlitByte(before, width, height, image, dx, dy, p);
      }
    }
  }
}
