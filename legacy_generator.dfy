/**
 * The older generator (src/Generator.tsx): the encoder's matrix is drawn at
 * the origin with no quiet zone, the element is capped at 20 CSS pixels per
 * module, and any failure of the encoder collapses the canvas.
 */
module LegacyGenerator {
  import opened Wrappers
  import opened Canvas
  import opened UseQr

  /** CSS pixels of `max-height` per module. */
  const PIXELS_PER_MODULE: nat := 20

  /**
   * With no quiet zone the image covers the whole canvas, so the bitmap is
   * exactly the modules' RGBA bytes.
   */
  lemma NoQuietZoneIsModulePixels(modules: BitMatrix)
    requires WellFormed(modules)
    ensures Composite(modules, 0) == ModulePixels(modules.data)
  {
    var s := modules.size;
    var image := ModuleImage(modules);
    var zeros := Zeros(4 * s * s);
    var buf := Composite(modules, 0);
    assert buf == Blit(zeros, s, s, image, 0, 0);
    forall p | 0 <= p < |buf|
      ensures buf[p] == image.data[p]
    {
      BlitCoversAll(zeros, s, s, image, p);
    }
  }

  /**
   * The `useEffect`: draws the result of `create(text)` on the canvas behind
   * `context` (`null` when there is no rendering context).
   */
  method Render(context: Canvas?, creation: Creation)
    requires context != null ==> context.Valid()
    requires creation.Created? ==> WellFormed(creation.code.modules)
    modifies context
    ensures context != null ==> context.Valid()
    ensures context != null && creation.Threw? ==>
      && context.width == 0 && context.height == 0 && context.data[..] == []
      && context.maxHeight == old(context.maxHeight)
    ensures context != null && creation.Created? ==>
      var modules := creation.code.modules;
      && context.width == modules.size && context.height == modules.size
      && context.maxHeight == Some(modules.size * PIXELS_PER_MODULE)
      && context.data[..] == ModulePixels(modules.data)
  {
    if context == null {
      return;
    }
    match creation
    case Threw(_) =>
      context.SetWidth(0);
      context.SetHeight(0);
    case Created(code) =>
      var modules := code.modules;
      var image := ModuleImage(modules);
      context.SetWidth(modules.size);
      context.SetHeight(modules.size);
      context.SetMaxHeight(modules.size * PIXELS_PER_MODULE);
      context.PutImageData(image, 0, 0);
      assert context.data[..] == Composite(modules, 0);
      NoQuietZoneIsModulePixels(modules);
  }
}
