/**
 * The draggable code of src/PeerApp.tsx: a position normalised to [0, 1] in
 * both axes, moved by one pointer at a time and kept away from the edges by
 * `Clamp`, and turned into CSS insets for the wrapper.
 */
module PeerApp {
  import opened Wrappers
  import opened Canvas
  import opened UseQr

  /** The smallest distance, as a fraction of the window, between the code's centre and an edge. */
  const MIN_MARGIN: real := 0.05

  function Max(a: real, b: real): real { if a >= b then a else b }
  function Min(a: real, b: real): real { if a <= b then a else b }

  /** `Math.max(Math.min(value, 1 - MIN_MARGIN), MIN_MARGIN)`. */
  function Clamp(value: real): (r: real)
    ensures MIN_MARGIN <= r <= 1.0 - MIN_MARGIN
    ensures MIN_MARGIN <= value <= 1.0 - MIN_MARGIN ==> r == value
    ensures value < MIN_MARGIN ==> r == MIN_MARGIN
    ensures value > 1.0 - MIN_MARGIN ==> r == 1.0 - MIN_MARGIN
  {
    Max(Min(value, 1.0 - MIN_MARGIN), MIN_MARGIN)
  }

  /** Clamping twice is clamping once. */
  lemma ClampIdempotent(value: real)
    ensures Clamp(Clamp(value)) == Clamp(value)
  {
  }

  /** Clamping preserves order. */
  lemma ClampMonotonic(a: real, b: real)
    requires a <= b
    ensures Clamp(a) <= Clamp(b)
  {
  }

  predicate InRange(v: real) { MIN_MARGIN <= v <= 1.0 - MIN_MARGIN }

  // ---------------------------------------------------------------------------
  // Insets

  /** The wrapper's `left`, `right`, `top` and `bottom`, in percent of the window. */
  datatype Insets = Insets(left: real, right: real, top: real, bottom: real)

  /** Inset before the position (left or top) for a normalised coordinate. */
  function Leading(v: real): real { Max(0.0, 1.0 - (1.0 - v) * 2.0) * 100.0 }

  /** Inset after the position (right or bottom) for a normalised coordinate. */
  function Trailing(v: real): real { Max(0.0, 1.0 - v * 2.0) * 100.0 }

  /** The style of the wrapper for position (x, y). */
  function InsetsOf(x: real, y: real): (insets: Insets)
    ensures insets.left == Leading(x) && insets.right == Trailing(x)
    ensures insets.top == Leading(y) && insets.bottom == Trailing(y)
  {
    Insets(Leading(x), Trailing(x), Leading(y), Trailing(y))
  }

  /** At most one of the two insets on an axis is non-zero, and both are zero at the centre. */
  lemma InsetsExclusive(v: real)
    ensures Leading(v) == 0.0 || Trailing(v) == 0.0
    ensures v == 0.5 ==> Leading(v) == 0.0 && Trailing(v) == 0.0
    ensures Leading(v) >= 0.0 && Trailing(v) >= 0.0
  {
    if v >= 0.5 {
      assert 1.0 - v * 2.0 <= 0.0;
    } else {
      assert 1.0 - (1.0 - v) * 2.0 < 0.0;
    }
  }

  /**
   * The box between the two insets is centred on the position: its middle
   * lies at 100 * v percent.
   */
  lemma InsetsCentred(v: real)
    ensures (Leading(v) + (100.0 - Trailing(v))) / 2.0 == 100.0 * v
  {
    if v >= 0.5 {
      assert Trailing(v) == 0.0;
    } else {
      assert Leading(v) == 0.0;
    }
  }

  /** For a clamped position the insets stay within the window: each is between 0 and 90 percent. */
  lemma InsetsBounded(v: real)
    requires InRange(v)
    ensures 0.0 <= Leading(v) <= 90.0 && 0.0 <= Trailing(v) <= 90.0
  {
    InsetsExclusive(v);
  }

  // ---------------------------------------------------------------------------
  // Dragging

  /** What a drag remembers from its pointer-down: the position and the pointer's client coordinates. */
  datatype DragState = DragState(initX: real, initY: real, initClientX: real, initClientY: real, pointerId: int)

  /** The component's position state and its drag ref. */
  class Positioner {
    var x: real
    var y: real
    var drag: Option<DragState>

    /** The position, and the position a drag started from, stay within the margins. */
    ghost predicate Valid()
      reads this
    {
      InRange(x) && InRange(y) && (drag.Some? ==> InRange(drag.value.initX) && InRange(drag.value.initY))
    }

    /** The first render: centred, no drag. */
    constructor ()
      ensures Valid()
      ensures x == 0.5 && y == 0.5 && drag == None
    {
      x, y, drag := 0.5, 0.5, None;
    }

    /** `onPointerDown`: starts a drag only when none is in progress. */
    method PointerDown(pointerId: int, clientX: real, clientY: real)
      requires Valid()
      modifies this
      ensures Valid()
      ensures x == old(x) && y == old(y)
      ensures old(drag).Some? ==> drag == old(drag)
      ensures old(drag).None? ==> drag == Some(DragState(x, y, clientX, clientY, pointerId))
    {
      if drag.None? {
        drag := Some(DragState(x, y, clientX, clientY, pointerId));
      }
    }

    /**
     * `onPointerMove`: a move of the dragging pointer puts the position at
     * the drag's start plus the pointer's displacement as a fraction of the
     * window, clamped; any other move changes nothing.
     */
    method PointerMove(pointerId: int, clientX: real, clientY: real, innerWidth: real, innerHeight: real)
      requires Valid() && innerWidth > 0.0 && innerHeight > 0.0
      modifies this
      ensures Valid() && drag == old(drag)
      ensures !(drag.Some? && drag.value.pointerId == pointerId) ==> x == old(x) && y == old(y)
      ensures drag.Some? && drag.value.pointerId == pointerId ==>
        && x == Clamp((clientX - drag.value.initClientX) / innerWidth + drag.value.initX)
        && y == Clamp((clientY - drag.value.initClientY) / innerHeight + drag.value.initY)
    {
      if drag.Some? && drag.value.pointerId == pointerId {
        var state := drag.value;
        x := Clamp((clientX - state.initClientX) / innerWidth + state.initX);
        y := Clamp((clientY - state.initClientY) / innerHeight + state.initY);
      }
    }

    /** `handlePointerEnd` (pointer up and cancel): ends the drag of that pointer only. */
    method PointerEnd(pointerId: int)
      requires Valid()
      modifies this
      ensures Valid() && x == old(x) && y == old(y)
      ensures old(drag).Some? && old(drag).value.pointerId == pointerId ==> drag == None
      ensures !(old(drag).Some? && old(drag).value.pointerId == pointerId) ==> drag == old(drag)
    {
      if drag.Some? && drag.value.pointerId == pointerId {
        drag := None;
      }
    }
  }

  // ---------------------------------------------------------------------------
  // The code

  /** The `useMemo`: the encoder's code, or `None` when `create` throws. */
  function CodeOf(creation: Creation): (code: Option<QrCode>)
    ensures code.Some? <==> creation.Created?
    ensures creation.Created? ==> code == Some(creation.code)
  {
    match creation
    case Created(c) => Some(c)
    case Threw(_) => None
  }

  /**
   * The `useEffect`: without a rendering context or a code nothing changes;
   * otherwise the code is drawn inside a quiet zone as in `UseQr.Render`.
   */
  method Render(context: Canvas?, code: Option<QrCode>)
    requires context != null ==> context.Valid()
    requires code.Some? ==> WellFormed(code.value.modules)
    modifies context
    ensures context != null ==> context.Valid() && context.maxHeight == old(context.maxHeight)
    ensures context != null && code.None? ==>
      && context.width == old(context.width) && context.height == old(context.height)
      && context.data == old(context.data) && context.data[..] == old(context.data[..])
    ensures context != null && code.Some? ==>
      var modules := code.value.modules;
      && context.width == Side(modules, QUIET_ZONE)
      && context.height == Side(modules, QUIET_ZONE)
      && context.data[..] == Composite(modules, QUIET_ZONE)
  {
    if context == null || code.None? {
      return;
    }
    var modules := code.value.modules;
    var image := ModuleImage(modules);
    context.SetWidth(modules.size + QUIET_ZONE * 2);
    context.SetHeight(modules.size + QUIET_ZONE * 2);
    context.PutImageData(image, QUIET_ZONE, QUIET_ZONE);
  }
}
