/**
 * The render scheduler: the `needsDisplay` dirty flag, delegate-capability resolution and
 * the bitmap-context handling of `-displayIfNeeded`.
 *
 * The runtime's class introspection becomes a `Capability` record per delegate, and the
 * guest's delegate methods become opaque world-to-world functions. Each message sent to the
 * delegate is logged in `World.sent` just before the guest code runs.
 */
module LayerDisplay {
  import opened Outcomes
  import opened ObjcRuntime
  import opened CoreGraphics
  import opened CALayer

  /** What the runtime can tell about a delegate's class. */
  datatype Capability = Capability(
    hasDisplayLayer: bool,                // the class has a `displayLayer:` method
    isUIViewSubclass: bool,               // the class is `UIView` or inherits from it
    overridesDrawRect: bool,              // it overrides `UIView`'s `drawRect:`
    overridesDrawLayerInContext: bool)    // it overrides `UIView`'s `drawLayer:inContext:`

  /** The guest's delegate methods: delegate, layer (and context) in, new world out. */
  datatype Guest = Guest(
    displayLayer: (World, Id, Id) -> World,
    drawLayerInContext: (World, Id, Id, Id) -> World)

  /** Which way a dirty layer is rendered. */
  datatype Route = NoDelegate | SendDisplayLayer | SkipRender | DrawIntoContext

  /**
   * Delegate resolution: no delegate means nothing to do; `displayLayer:` wins over drawing;
   * a `UIView` that overrides neither drawing hook is skipped; everything else is drawn.
   */
  function RouteFor(delegate: Id, cap: Capability): (r: Route)
    ensures r == NoDelegate <==> delegate == Nil
    ensures r == SendDisplayLayer <==> delegate != Nil && cap.hasDisplayLayer
    ensures r == SkipRender <==> (&& delegate != Nil && !cap.hasDisplayLayer && cap.isUIViewSubclass
                                  && !cap.overridesDrawRect && !cap.overridesDrawLayerInContext)
    ensures r == DrawIntoContext <==> (&& delegate != Nil && !cap.hasDisplayLayer
                                       && (!cap.isUIViewSubclass || cap.overridesDrawRect
                                           || cap.overridesDrawLayerInContext))
  {
    if delegate == Nil then NoDelegate
    else if cap.hasDisplayLayer then SendDisplayLayer
    else if cap.isUIViewSubclass && !cap.overridesDrawRect && !cap.overridesDrawLayerInContext
    then SkipRender
    else DrawIntoContext
  }

  /** `f32::round`: to the nearest integer, halves away from zero. */
  function Round(x: real): (n: int)
    ensures x >= 0.0 ==> n as real - 0.5 <= x < n as real + 0.5
    ensures x < 0.0 ==> n as real - 0.5 < x <= n as real + 0.5
  {
    if x >= 0.0 then (x + 0.5).Floor else -((-x + 0.5).Floor)
  }

  /** `as u32` on a rounded value: negative values become 0, large ones `U32_MAX`. */
  function SaturateU32(n: int): (r: nat)
    ensures r <= U32_MAX
    ensures 0 <= n <= U32_MAX ==> r == n
    ensures n < 0 ==> r == 0
    ensures n > U32_MAX ==> r == U32_MAX
  {
    if n < 0 then 0 else if n > U32_MAX then U32_MAX else n
  }

  /**
   * The integer pixel size a layer dimension is rendered at: the nearest whole number of
   * pixels when that fits in 32 bits, 0 for a dimension that rounds below zero, and `U32_MAX`
   * for one too large.
   */
  function PixelSize(x: real): (n: nat)
    ensures n <= U32_MAX
    ensures -0.5 < x < U32_MAX as real + 0.5 ==> n as real - 0.5 <= x < n as real + 0.5
    ensures x <= -0.5 ==> n == 0
    ensures x >= U32_MAX as real + 0.5 ==> n == U32_MAX
  {
    SaturateU32(Round(x))
  }

  /** `-displayIfNeeded` starts by taking the dirty flag: only that flag changes. */
  function ClearDirty(w: World, self: Id): (r: World)
    requires self in w.layers
    ensures r.layers.Keys == w.layers.Keys
    ensures r.layers[self] == w.layers[self].(needsDisplay := false)
    ensures forall x :: x in w.layers && x != self ==> r.layers[x] == w.layers[x]
    ensures r.contexts == w.contexts && r.rc == w.rc && r.sent == w.sent
  {
    Put(w, self, w.layers[self].(needsDisplay := false))
  }

  /**
   * `CGContextTranslateCTM` on a context handle; a handle that names no context is fatal
   * (the emulator panics looking the object up).
   */
  function Translate(w: World, c: Id, dx: real, dy: real): (r: Result<World>)
    ensures r.Ok? <==> c in w.contexts
    ensures r.Ok? ==> r.value.contexts.Keys == w.contexts.Keys
    ensures r.Ok? ==> r.value.contexts[c].tx == w.contexts[c].tx + dx
    ensures r.Ok? ==> r.value.contexts[c].ty == w.contexts[c].ty + dy
    ensures r.Ok? ==> r.value == w.(contexts := r.value.contexts)
    ensures r.Ok? ==> r.value.contexts[c] == w.contexts[c].(tx := r.value.contexts[c].tx, ty := r.value.contexts[c].ty)
    ensures r.Ok? ==> forall x :: x in w.contexts && x != c ==> r.value.contexts[x] == w.contexts[x]
  {
    if c !in w.contexts then Fatal
    else
      var k := w.contexts[c];
      Ok(w.(contexts := w.contexts[c := k.(tx := k.tx + dx, ty := k.ty + dy)]))
  }

  /**
   * What `CGBitmapContextCreate` demands of a new handle: it names no layer, no context and
   * no other live object.
   */
  predicate FreshContext(w: World, newHandle: Id) {
    newHandle != Nil && newHandle !in w.contexts && newHandle !in w.layers && Count(w.rc, newHandle) == 0
  }

  /**
   * A new `width` x `height` context with 8 bits per channel and 4 bytes per pixel, cached
   * in the layer and owned by it. The row stride `4 * width` must fit in 32 bits.
   */
  function NewContext(w: World, self: Id, width: nat, height: nat, newHandle: Id): (r: Result<(World, Id)>)
    requires self in w.layers && FreshContext(w, newHandle)
    ensures r.Ok? <==> 4 * width <= U32_MAX
    ensures r.Ok? ==> var (v, c) := r.value;
      && c == newHandle
      && v.contexts == w.contexts[newHandle := CGContext(width, height, 4 * width, 0.0, 0.0)]
      && Count(v.rc, newHandle) == 1
      && (forall x :: x != newHandle ==> Count(v.rc, x) == Count(w.rc, x))
      && v.layers == w.layers[self := w.layers[self].(cgContext := Some(newHandle))]
      && v.sent == w.sent
  {
    if 4 * width > U32_MAX then Fatal
    else
      Ok((w.(contexts := w.contexts[newHandle := CGContext(width, height, 4 * width, 0.0, 0.0)],
             rc := w.rc[newHandle := 1],
             layers := w.layers[self := w.layers[self].(cgContext := Some(newHandle))]), newHandle))
  }

  /**
   * Whether the context step creates a new context, given the layer's cached context: always
   * when none is cached; as written, when the cached one already has the wanted size;
   * intended, when it does not. A cached handle that names no context never gets that far.
   */
  predicate NeedsNewContext(cached: Option<Id>, contexts: map<Id, CGContext>, width: nat, height: nat,
                            variant: Variant) {
    match cached
    case None => true
    case Some(c) =>
      && c in contexts
      && var fits := contexts[c].width == width && contexts[c].height == height;
         if variant == AsWritten then fits else !fits
  }

  /**
   * The context step of drawing, after the texture flag is cleared. As written, the size
   * test is inverted: a cached context whose size matches is abandoned (never released) for
   * a new one, and a cached context whose size differs is released and then drawn into
   * anyway. With no cached context a correctly sized one is created. `Intended` reuses a
   * matching context and replaces (releasing) one that does not match.
   */
  function PrepareContext(w: World, self: Id, width: nat, height: nat, newHandle: Id, variant: Variant)
    : (r: Result<(World, Id)>)
    requires self in w.layers && FreshContext(w, newHandle)
    ensures r.Ok? ==> var (v, c) := r.value;
      && c in v.contexts
      && v.layers == w.layers[self := w.layers[self].(cgContext := Some(c))]
      && v.sent == w.sent
      && (c == newHandle ==>
            && v.contexts == w.contexts[newHandle := CGContext(width, height, 4 * width, 0.0, 0.0)]
            && Count(v.rc, newHandle) == 1)
      && (c != newHandle ==> w.layers[self].cgContext == Some(c) && v.contexts == w.contexts)
      && (c != newHandle ==> Count(v.rc, newHandle) == Count(w.rc, newHandle))
      && (forall x :: x != newHandle && Some(x) != w.layers[self].cgContext ==> Count(v.rc, x) == Count(w.rc, x))
    ensures var cached := w.layers[self].cgContext;
      r.Ok? <==> (&& (cached.Some? ==> cached.value in w.contexts)
                  && (NeedsNewContext(cached, w.contexts, width, height, variant) ==> 4 * width <= U32_MAX))
    ensures r.Ok? ==>
      (r.value.1 == newHandle <==> NeedsNewContext(w.layers[self].cgContext, w.contexts, width, height, variant))
    // The previously cached context is released exactly when its size differs (both
    // variants); a matching one keeps its count, whether reused or abandoned.
    ensures r.Ok? && w.layers[self].cgContext.Some? ==>
      var prev := w.layers[self].cgContext.value;
      var fits := w.contexts[prev].width == width && w.contexts[prev].height == height;
      Count(r.value.0.rc, prev) == Count(w.rc, prev) - (if fits || prev == Nil then 0 else 1)
  {
    match w.layers[self].cgContext
    case None => NewContext(w, self, width, height, newHandle)
    case Some(c) =>
      if c !in w.contexts then Fatal
      else
        var fits := w.contexts[c].width == width && w.contexts[c].height == height;
        match variant
        case AsWritten =>
          if fits then NewContext(w, self, width, height, newHandle)
          else Ok((w.(rc := Release(w.rc, c)), c))
        case Intended =>
          if fits then Ok((w, c))
          else NewContext(w.(rc := Release(w.rc, c)), self, width, height, newHandle)
  }

  /**
   * Everything between the capability check and the `drawLayer:inContext:` call: the
   * texture is marked stale, the context is prepared at the rounded bounds size, its origin
   * is moved by minus the bounds origin, and the message is logged. Yields the world the
   * guest's drawing code runs in and the context it is handed.
   */
  function DrawSetup(w: World, self: Id, newHandle: Id, variant: Variant): (r: Result<(World, Id)>)
    requires self in w.layers && FreshContext(w, newHandle)
    ensures r.Ok? ==> var (v, c) := r.value; var l := w.layers[self];
      && v.layers.Keys == w.layers.Keys
      && v.layers[self] == l.(textureUpToDate := false, cgContext := Some(c))
      && (forall x :: x in w.layers && x != self ==> v.layers[x] == w.layers[x])
      && v.sent == w.sent + [DrawLayerInContext(l.delegate, self, c)]
      && c in v.contexts
      && (c == newHandle ==>
            && v.contexts[c] == CGContext(PixelSize(l.bounds.size.width), PixelSize(l.bounds.size.height),
                                          4 * PixelSize(l.bounds.size.width),
                                          -l.bounds.origin.x, -l.bounds.origin.y)
            && Count(v.rc, c) == 1)
      && (c != newHandle ==>
            && l.cgContext == Some(c) && c in w.contexts
            && v.contexts[c] == w.contexts[c].(tx := w.contexts[c].tx - l.bounds.origin.x,
                                               ty := w.contexts[c].ty - l.bounds.origin.y)
            && Count(v.rc, newHandle) == Count(w.rc, newHandle))
      && v.contexts.Keys == w.contexts.Keys + {c}
      && (forall x :: x in w.contexts && x != c ==> v.contexts[x] == w.contexts[x])
      && (forall x :: x != newHandle && Some(x) != l.cgContext ==> Count(v.rc, x) == Count(w.rc, x))
    ensures var l := w.layers[self]; var width := PixelSize(l.bounds.size.width);
      r.Ok? <==> (&& (l.cgContext.Some? ==> l.cgContext.value in w.contexts)
                  && (var height := PixelSize(l.bounds.size.height);
                      NeedsNewContext(l.cgContext, w.contexts, width, height, variant) ==> 4 * width <= U32_MAX))
    ensures r.Ok? && w.layers[self].cgContext.Some? ==>
      var l := w.layers[self]; var prev := l.cgContext.value;
      var fits := (&& w.contexts[prev].width == PixelSize(l.bounds.size.width)
                   && w.contexts[prev].height == PixelSize(l.bounds.size.height));
      Count(r.value.0.rc, prev) == Count(w.rc, prev) - (if fits || prev == Nil then 0 else 1)
  {
    var l := w.layers[self];
    var w1 := Put(w, self, l.(textureUpToDate := false));
    assert w1.rc == w.rc && w1.contexts == w.contexts && w1.layers[self].cgContext == l.cgContext;
    match PrepareContext(w1, self, PixelSize(l.bounds.size.width), PixelSize(l.bounds.size.height), newHandle, variant)
    case Fatal => Fatal
    case Ok((w2, c)) =>
      match Translate(w2, c, -l.bounds.origin.x, -l.bounds.origin.y)
      case Fatal => Fatal
      case Ok(w3) =>
        assert w3.rc == w2.rc && w3.layers == w2.layers && w3.contexts.Keys == w2.contexts.Keys;
        Ok((Send(w3, DrawLayerInContext(l.delegate, self, c)), c))
  }

  /**
   * `-displayIfNeeded`. A clean layer is left alone. A dirty one is marked clean before any
   * guest code runs, then rendered along `RouteFor`: a `displayLayer:` delegate gets that
   * message, a drawing delegate gets `drawLayer:inContext:` between a translation by minus
   * the bounds origin and the translation back. `newHandle` is the handle a new context would get.
   */
  function DisplayIfNeeded(w: World, self: Id, caps: Id -> Capability, guest: Guest, newHandle: Id,
                           variant: Variant): (r: Result<World>)
    requires self in w.layers && FreshContext(w, newHandle)
    ensures !w.layers[self].needsDisplay ==> r == Ok(w)
    ensures var d := w.layers[self].delegate;
      w.layers[self].needsDisplay && RouteFor(d, caps(d)) in {NoDelegate, SkipRender} ==>
        r == Ok(ClearDirty(w, self))
    ensures var d := w.layers[self].delegate;
      (&& w.layers[self].needsDisplay && RouteFor(d, caps(d)) == DrawIntoContext
       && DrawSetup(ClearDirty(w, self), self, newHandle, variant) == Fatal) ==> r == Fatal
  {
    var l := w.layers[self];
    if !l.needsDisplay then Ok(w)
    else
      var w1 := ClearDirty(w, self);
      var d := l.delegate;
      match RouteFor(d, caps(d))
      case NoDelegate => Ok(w1)
      case SkipRender => Ok(w1)
      case SendDisplayLayer => Ok(guest.displayLayer(Send(w1, DisplayLayer(d, self)), d, self))
      case DrawIntoContext =>
        match DrawSetup(w1, self, newHandle, variant)
        case Fatal => Fatal
        case Ok((w2, c)) =>
          Translate(guest.drawLayerInContext(w2, d, self, c), c, l.bounds.origin.x, l.bounds.origin.y)
  }

  // ---------------------------------------------------------------------------------------
  // Properties

  /**
   * Without a delegate, or with a `UIView` delegate that draws nothing of its own, a dirty
   * layer only becomes clean: no message is sent, no context is touched, no texture flag
   * changes.
   */
  lemma NonDrawingDelegateOnlyClears(w: World, self: Id, caps: Id -> Capability, guest: Guest,
                                     newHandle: Id, variant: Variant)
    requires self in w.layers && FreshContext(w, newHandle) && w.layers[self].needsDisplay
    requires var d := w.layers[self].delegate; RouteFor(d, caps(d)) in {NoDelegate, SkipRender}
    ensures var r := DisplayIfNeeded(w, self, caps, guest, newHandle, variant);
      && r.Ok?
      && r.value.layers.Keys == w.layers.Keys
      && r.value.layers[self] == w.layers[self].(needsDisplay := false)
      && (forall x :: x in w.layers && x != self ==> r.value.layers[x] == w.layers[x])
      && r.value.contexts == w.contexts && r.value.rc == w.rc && r.value.sent == w.sent
  {
  }

  /**
   * A `displayLayer:` delegate takes precedence: it is sent that message, in a world that
   * differs from the original only by the cleared flag and the logged message, and its
   * result is the outcome. No context or texture flag is touched by the core.
   */
  lemma DisplayLayerTakesPrecedence(w: World, self: Id, caps: Id -> Capability, guest: Guest,
                                    newHandle: Id, variant: Variant)
    requires self in w.layers && FreshContext(w, newHandle) && w.layers[self].needsDisplay
    requires var d := w.layers[self].delegate; d != Nil && caps(d).hasDisplayLayer
    ensures var d := w.layers[self].delegate;
      var handed := Send(ClearDirty(w, self), DisplayLayer(d, self));
      && DisplayIfNeeded(w, self, caps, guest, newHandle, variant) == Ok(guest.displayLayer(handed, d, self))
      && handed.layers[self] == w.layers[self].(needsDisplay := false)
      && handed.contexts == w.contexts && handed.rc == w.rc
      && handed.sent == w.sent + [DisplayLayer(d, self)]
  {
  }

  /**
   * After the guest has drawn, only the context translation is restored: every layer is as
   * the guest left it, so a `setNeedsDisplay` or a new `contents` from inside the callback
   * survives, and the context ends up where the guest left it plus the bounds origin, which
   * is where it started when the guest left the translation alone.
   */
  lemma DrawingRestoresOnlyTranslation(w: World, self: Id, caps: Id -> Capability, guest: Guest,
                                       newHandle: Id, variant: Variant)
    requires self in w.layers && FreshContext(w, newHandle) && w.layers[self].needsDisplay
    requires var d := w.layers[self].delegate; RouteFor(d, caps(d)) == DrawIntoContext
    requires DrawSetup(ClearDirty(w, self), self, newHandle, variant).Ok?
    ensures var l := w.layers[self];
      var (v, c) := DrawSetup(ClearDirty(w, self), self, newHandle, variant).value;
      var after := guest.drawLayerInContext(v, l.delegate, self, c);
      var r := DisplayIfNeeded(w, self, caps, guest, newHandle, variant);
      && (r.Ok? <==> c in after.contexts)
      && (r.Ok? ==>
            && r.value.layers == after.layers
            && r.value.rc == after.rc
            && r.value.sent == after.sent
            && r.value.contexts[c].tx == after.contexts[c].tx + l.bounds.origin.x
            && r.value.contexts[c].ty == after.contexts[c].ty + l.bounds.origin.y
            && r.value == after.(contexts := after.contexts[c := after.contexts[c].(
                                   tx := after.contexts[c].tx + l.bounds.origin.x,
                                   ty := after.contexts[c].ty + l.bounds.origin.y)]))
      && (c in after.contexts && after.contexts[c] == v.contexts[c] ==>
            && r.value.contexts[c] == v.contexts[c].(tx := v.contexts[c].tx + l.bounds.origin.x,
                                                     ty := v.contexts[c].ty + l.bounds.origin.y)
            && (c == newHandle ==> r.value.contexts[c].tx == 0.0 && r.value.contexts[c].ty == 0.0)
            && (c != newHandle ==> r.value.contexts[c] == w.contexts[c]))
  {
  }

  /**
   * The dirty flag after a display is the one the guest's code left behind; when no guest
   * code ran it is false, so a second call with nothing in between does nothing at all.
   */
  lemma SecondDisplayIsNoop(w: World, self: Id, caps: Id -> Capability, guest: Guest,
                            newHandle: Id, newHandle2: Id, variant: Variant)
    requires self in w.layers && FreshContext(w, newHandle) && w.layers[self].needsDisplay
    requires var d := w.layers[self].delegate; RouteFor(d, caps(d)) in {NoDelegate, SkipRender}
    ensures var r := DisplayIfNeeded(w, self, caps, guest, newHandle, variant);
      && r.Ok? && !r.value.layers[self].needsDisplay
      && (FreshContext(r.value, newHandle2) ==>
            DisplayIfNeeded(r.value, self, caps, guest, newHandle2, variant) == r)
  {
  }

  /**
   * When the guest's drawing code leaves the layer clean, a second display sends nothing:
   * the delegate is called at most once across both calls.
   */
  lemma DelegateCalledAtMostOnce(w: World, self: Id, caps: Id -> Capability, guest: Guest,
                                 newHandle: Id, newHandle2: Id, variant: Variant)
    requires self in w.layers && FreshContext(w, newHandle)
    requires DisplayIfNeeded(w, self, caps, guest, newHandle, variant).Ok?
    requires var v := DisplayIfNeeded(w, self, caps, guest, newHandle, variant).value;
      self in v.layers && !v.layers[self].needsDisplay && FreshContext(v, newHandle2)
    ensures var v := DisplayIfNeeded(w, self, caps, guest, newHandle, variant).value;
      DisplayIfNeeded(v, self, caps, guest, newHandle2, variant) == Ok(v)
  {
  }

  /**
   * Whenever drawing needs a new context (none cached; as written, a cached one of the right
   * size; intended, one of the wrong size), a row stride `4 * width` that overflows 32 bits
   * makes the display fatal. When a context is reused, the stride is never computed.
   */
  lemma StrideOverflowIsFatal(w: World, self: Id, caps: Id -> Capability, guest: Guest,
                              newHandle: Id, variant: Variant)
    requires self in w.layers && FreshContext(w, newHandle) && w.layers[self].needsDisplay
    requires var d := w.layers[self].delegate; RouteFor(d, caps(d)) == DrawIntoContext
    ensures var l := w.layers[self]; var width := PixelSize(l.bounds.size.width);
      (&& NeedsNewContext(l.cgContext, w.contexts, width, PixelSize(l.bounds.size.height), variant)
       && 4 * width > U32_MAX) ==> DisplayIfNeeded(w, self, caps, guest, newHandle, variant) == Fatal
    ensures var l := w.layers[self];
      (&& l.cgContext.Some? && l.cgContext.value in w.contexts
       && !NeedsNewContext(l.cgContext, w.contexts, PixelSize(l.bounds.size.width),
                           PixelSize(l.bounds.size.height), variant))
        ==> DrawSetup(ClearDirty(w, self), self, newHandle, variant).Ok?
  {
    var w1 := ClearDirty(w, self);
    assert w1.layers[self].cgContext == w.layers[self].cgContext && w1.contexts == w.contexts;
    assert w1.layers[self].bounds == w.layers[self].bounds;
  }

  /**
   * The context-reuse test as written. A cached context of exactly the wanted size is
   * abandoned for a new one while keeping its strong reference (a leak); a cached context of
   * another size is released and then handed out for drawing, at the wrong size. When the
   * layer held the only reference, the context handed out has count 0: a use after release.
   */
  lemma ContextReuseInverted(w: World, self: Id, width: nat, height: nat, newHandle: Id, c: Id)
    requires self in w.layers && FreshContext(w, newHandle) && 4 * width <= U32_MAX
    requires w.layers[self].cgContext == Some(c) && c != Nil && c in w.contexts
    ensures var r := PrepareContext(w, self, width, height, newHandle, AsWritten);
      && r.Ok?
      && (w.contexts[c].width == width && w.contexts[c].height == height ==>
            && r.value.1 == newHandle != c
            && Count(r.value.0.rc, c) == Count(w.rc, c)
            && r.value.0.layers[self].cgContext == Some(newHandle))
      && (w.contexts[c].width != width || w.contexts[c].height != height ==>
            && r.value.1 == c
            && Count(r.value.0.rc, c) == Count(w.rc, c) - 1
            && (Count(w.rc, c) == 1 ==> Count(r.value.0.rc, c) == 0)
            && (r.value.0.contexts[c].width != width || r.value.0.contexts[c].height != height))
  {
  }

  /**
   * The intended context step: drawing always gets a context of exactly the wanted size,
   * cached in the layer; a matching cached context is reused with its count untouched, and a
   * cached context that is dropped loses the layer's strong reference.
   */
  lemma ContextReuseIntended(w: World, self: Id, width: nat, height: nat, newHandle: Id)
    requires self in w.layers && FreshContext(w, newHandle) && 4 * width <= U32_MAX
    requires w.layers[self].cgContext.Some? ==>
      w.layers[self].cgContext.value != Nil && w.layers[self].cgContext.value in w.contexts
    ensures var r := PrepareContext(w, self, width, height, newHandle, Intended);
      var cached := w.layers[self].cgContext;
      && r.Ok?
      && r.value.0.contexts[r.value.1].width == width
      && r.value.0.contexts[r.value.1].height == height
      && r.value.0.layers[self].cgContext == Some(r.value.1)
      && (cached.Some? && r.value.1 == cached.value ==> Count(r.value.0.rc, cached.value) == Count(w.rc, cached.value))
      && (cached.Some? && r.value.1 != cached.value ==> Count(r.value.0.rc, cached.value) == Count(w.rc, cached.value) - 1)
  {
  }
}
