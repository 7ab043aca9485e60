/**
 * The generator view (src/generator/index.tsx): the options handed to the
 * encoder for export and for the preview, the mask reported back to the
 * buttons, and what the view shows for each outcome of the encoder.
 */
module GeneratorOptions {
  import opened Wrappers
  import opened Text
  import opened Mask
  import UseQr

  /** `QRCodeErrorCorrectionLevel`. */
  datatype Ecl = L | M | Q | H

  /** The component's state. `mask` is `None` for automatic; `solidBackground` is the opacity toggle. */
  datatype Settings = Settings(text: string, ecl: Ecl, mask: Option<MaskPattern>, pixelSize: string, solidBackground: bool, margin: bool)

  /** The first render's state. */
  const INITIAL: Settings := Settings("", M, None, "10", true, true)

  // ---------------------------------------------------------------------------
  // `+pixelSize`

  /** A number as far as this model computes one: a non-negative integer, or a value left uncomputed. */
  datatype Number = Integer(value: nat) | Uncomputed

  predicate AllDigits(s: string) {
    forall i :: 0 <= i < |s| ==> IsDigit(s[i])
  }

  /** The value of a string of decimal digits; the empty string is 0. */
  function DigitsValue(s: string): nat
    requires AllDigits(s)
  {
    if s == [] then 0 else DigitsValue(s[..|s| - 1]) * 10 + (s[|s| - 1] as int - '0' as int)
  }

  /**
   * The unary `+` on a string: surrounding whitespace is ignored and a
   * string of decimal digits, or nothing, is an integer. Signs, fractions,
   * exponents and hexadecimal are not computed.
   */
  function ToNumber(s: string): (n: Number)
    ensures n.Integer? <==> AllDigits(Trim(s))
    ensures n.Integer? ==> n.value == DigitsValue(Trim(s))
  {
    var t := Trim(s);
    if AllDigits(t) then Integer(DigitsValue(t)) else Uncomputed
  }

  function Digit(d: nat): char
    requires d < 10
  {
    ('0' as int + d) as char
  }

  /** The decimal form of `n`, with no leading zeros. */
  function Decimal(n: nat): (s: string)
    ensures |s| > 0 && AllDigits(s)
    ensures |s| > 1 ==> s[0] != '0'
  {
    if n < 10 then [Digit(n)] else Decimal(n / 10) + [Digit(n % 10)]
  }

  /** Reading back a decimal form gives the number. */
  lemma {:induction false} DecimalValue(n: nat)
    ensures DigitsValue(Decimal(n)) == n
  {
    if n >= 10 {
      DecimalValue(n / 10);
      var s := Decimal(n);
      assert s[..|s| - 1] == Decimal(n / 10);
    }
  }

  /** A pixel size typed as a decimal number is read as that number. */
  lemma ToNumberDecimal(n: nat)
    ensures ToNumber(Decimal(n)) == Integer(n)
  {
    var s := Decimal(n);
    assert IsDigit(s[0]) && IsDigit(s[|s| - 1]);
    TrimUnpadded(s);
    DecimalValue(n);
  }

  // ---------------------------------------------------------------------------
  // Options

  /** `QRCodeRenderersOptions`; a `None` margin leaves the encoder's default. */
  datatype RendererOptions = RendererOptions(
    ecl: Ecl, maskPattern: Option<MaskPattern>, scale: Number,
    dark: string, light: string, margin: Option<nat>)

  const DARK: string := "#000"
  const SOLID_LIGHT: string := "#fff"
  /** Four-digit hex colour with zero alpha: transparent. */
  const TRANSPARENT_LIGHT: string := "#0000"

  /** `getQrOptions`: what PNG and SVG export pass to the encoder. */
  function QrOptions(settings: Settings): (options: RendererOptions)
    ensures options.ecl == settings.ecl && options.maskPattern == settings.mask
    ensures options.scale == ToNumber(settings.pixelSize)
    ensures options.dark == DARK
    ensures options.light == if settings.solidBackground then SOLID_LIGHT else TRANSPARENT_LIGHT
    ensures options.margin.None? <==> settings.margin
    ensures options.margin.Some? ==> options.margin.value == 0
  {
    RendererOptions(
      settings.ecl, settings.mask, ToNumber(settings.pixelSize), DARK,
      if settings.solidBackground then SOLID_LIGHT else TRANSPARENT_LIGHT,
      if settings.margin then None else Some(0))
  }

  /** On the first render export asks for level M, an automatic mask, scale 10, black on white and the default margin. */
  lemma InitialOptions()
    ensures QrOptions(INITIAL) == RendererOptions(M, None, Integer(10), DARK, SOLID_LIGHT, None)
  {
    assert Decimal(10) == "10";
    ToNumberDecimal(10);
  }

  /** `qrOptions`: what the preview passes; only the level and the mask. */
  datatype PreviewOptions = PreviewOptions(ecl: Ecl, maskPattern: Option<MaskPattern>)

  function PreviewOptionsOf(settings: Settings): (options: PreviewOptions)
    ensures options.ecl == settings.ecl && options.maskPattern == settings.mask
  {
    PreviewOptions(settings.ecl, settings.mask)
  }

  /**
   * The preview encodes with the level and mask the export uses, and does
   * not depend on the size, colour or margin settings.
   */
  lemma PreviewMatchesExport(a: Settings, b: Settings)
    requires a.ecl == b.ecl && a.mask == b.mask
    ensures PreviewOptionsOf(a) == PreviewOptionsOf(b)
    ensures PreviewOptionsOf(a).ecl == QrOptions(b).ecl
    ensures PreviewOptionsOf(a).maskPattern == QrOptions(b).maskPattern
  {
  }

  /** `actualMask`: the mask the encoder used, whenever it produced a code. */
  function ActualMask(code: UseQr.CodeOrError): (mask: Option<MaskPattern>)
    ensures mask.Some? <==> code.Code?
    ensures code.Code? ==> mask.value == code.code.maskPattern
  {
    match code
    case Code(c) => Some(c.maskPattern)
    case Failed(_) => None
  }

  // ---------------------------------------------------------------------------
  // The view

  /** What the view shows above the buttons. */
  datatype Body = Welcome | Message(text: string) | Preview

  const TOO_BIG_TEXT: string := "QR codes can't hold that much data!"
  const UNKNOWN_TEXT: string := "An error occurred."

  /**
   * The message selection: the welcome heading instead of everything on the
   * welcome screen; otherwise a message for data that is too big or for an
   * unknown failure, and the canvas for a code and for empty text.
   */
  function BodyOf(welcome: bool, code: UseQr.CodeOrError): (body: Body)
    ensures welcome <==> body.Welcome?
    ensures !welcome && code == UseQr.Failed(UseQr.TooBig) ==> body == Message(TOO_BIG_TEXT)
    ensures !welcome && code == UseQr.Failed(UseQr.Unknown) ==> body == Message(UNKNOWN_TEXT)
    ensures body.Preview? <==> !welcome && (code.Code? || code == UseQr.Failed(UseQr.Empty))
  {
    if welcome then Welcome
    else match code
      case Failed(TooBig) => Message(TOO_BIG_TEXT)
      case Failed(Unknown) => Message(UNKNOWN_TEXT)
      case _ => Preview
  }

  /** The buttons: not rendered on the welcome screen (`None`), and otherwise hidden exactly when there is no text. */
  function ButtonsHidden(welcome: bool, text: string): (hidden: Option<bool>)
    ensures hidden.None? <==> welcome
    ensures hidden.Some? ==> (hidden.value <==> text == "")
  {
    if welcome then None else Some(text == "")
  }
}
