/**
 * The state of `CALayer` objects (`CALayerHostObject`) and the field-level operations on a
 * single layer: allocation defaults, geometry, the dirty flag, and the ownership-transferring
 * setters for `contents` and `backgroundColor`.
 *
 * Every object the layer code touches lives in one `World`: an arena of layer records keyed
 * by handle, the bitmap contexts the layers draw into, one strong-reference count per handle,
 * and the log of messages the core has sent to guest objects.
 */
module CALayer {
  import opened Outcomes
  import opened ObjcRuntime
  import opened CoreGraphics

  /**
   * One layer. `sublayers` are strong references in back-to-front order; `superlayer` and
   * `delegate` are weak. `cgContext` is the cached bitmap context, owned by the layer.
   */
  datatype Layer = Layer(
    delegate: Id,
    sublayers: seq<Id>,
    superlayer: Id,
    bounds: CGRect,
    position: CGPoint,
    anchorPoint: CGPoint,
    hidden: bool,
    isOpaque: bool,
    opacity: real,
    backgroundColor: Id,
    needsDisplay: bool,
    contents: Id,
    drawableProperties: Id,
    cgContext: Option<Id>,
    textureUpToDate: bool)

  /**
   * A bitmap drawing context as far as the core sees it: its integer size, its row stride,
   * and the translation accumulated on its transformation matrix.
   */
  datatype CGContext = CGContext(width: nat, height: nat, bytesPerRow: nat, tx: real, ty: real)

  /** A message the core sends to a guest object. */
  datatype Message =
    | DisplayLayer(delegate: Id, layer: Id)
    | DrawLayerInContext(delegate: Id, layer: Id, context: Id)
    | BringSublayerToFront(receiver: Id, layer: Id)

  /** Every object the layer code can observe. */
  datatype World = World(
    layers: map<Id, Layer>,
    contexts: map<Id, CGContext>,
    rc: RefCounts,
    sent: seq<Message>)

  /** The record `+[CALayer alloc]` creates. */
  const NewLayer: Layer := Layer(
    delegate := Nil,
    sublayers := [],
    superlayer := Nil,
    bounds := ZeroRect,
    position := ZeroPoint,
    anchorPoint := CGPoint(0.5, 0.5),
    hidden := false,
    isOpaque := false,
    opacity := 1.0,
    backgroundColor := Nil,
    needsDisplay := true,
    contents := Nil,
    drawableProperties := Nil,
    cgContext := None,
    textureUpToDate := false)

  /** The world with `m` appended to the log of messages sent. */
  function Send(w: World, m: Message): World {
    w.(sent := w.sent + [m])
  }

  /** The world with the record of `self` replaced by `l`. */
  function Put(w: World, self: Id, l: Layer): (r: World)
    ensures r.layers.Keys == w.layers.Keys + {self}
    ensures r.layers[self] == l
    ensures forall x :: x in w.layers && x != self ==> r.layers[x] == w.layers[x]
    ensures r.contexts == w.contexts && r.rc == w.rc && r.sent == w.sent
  {
    w.(layers := w.layers[self := l])
  }

  /**
   * `+alloc`: a fresh handle `id` (chosen by the runtime's allocator, and owned by no one) gets a detached, dirty
   * layer with zero geometry, a centred anchor point, full opacity and no references, and the
   * caller owns the one strong reference to it.
   */
  function Alloc(w: World, id: Id): (r: World)
    requires id != Nil && id !in w.layers && id !in w.contexts && Count(w.rc, id) == 0
    ensures r.layers.Keys == w.layers.Keys + {id}
    ensures forall x :: x in w.layers ==> r.layers[x] == w.layers[x]
    ensures var l := r.layers[id];
      && l.superlayer == Nil && l.sublayers == [] && l.delegate == Nil
      && l.needsDisplay && !l.textureUpToDate && l.cgContext == None
      && l.contents == Nil && l.backgroundColor == Nil && l.drawableProperties == Nil
      && l.bounds == ZeroRect && l.position == ZeroPoint
      && l.anchorPoint == CGPoint(0.5, 0.5)
      && !l.hidden && !l.isOpaque && l.opacity == 1.0
    ensures Count(r.rc, id) == 1
    ensures forall x :: x != id ==> Count(r.rc, x) == Count(w.rc, x)
    ensures r.contexts == w.contexts && r.sent == w.sent
  {
    w.(layers := w.layers[id := NewLayer], rc := w.rc[id := 1])
  }

  // ---------------------------------------------------------------------------------------
  // Geometry

  /** `-frame`: the rectangle the layer covers in its superlayer's coordinate space. */
  function Frame(l: Layer): (f: CGRect)
    ensures f.size == l.bounds.size
    ensures f.origin.x + l.bounds.size.width * l.anchorPoint.x == l.position.x
    ensures f.origin.y + l.bounds.size.height * l.anchorPoint.y == l.position.y
  {
    CGRect(
      CGPoint(l.position.x - l.bounds.size.width * l.anchorPoint.x,
              l.position.y - l.bounds.size.height * l.anchorPoint.y),
      l.bounds.size)
  }

  /**
   * `-setFrame:`: moves `position` so the anchor point sits at the same fraction of the new
   * frame, resets the bounds origin and takes the frame's size. Reading the frame back
   * returns exactly the frame that was set.
   */
  function SetFrame(l: Layer, f: CGRect): (r: Layer)
    ensures Frame(r) == f
    ensures r.anchorPoint == l.anchorPoint
    ensures r.bounds == CGRect(ZeroPoint, f.size)
    ensures r == l.(position := r.position, bounds := r.bounds)
  {
    l.(position := CGPoint(f.origin.x + f.size.width * l.anchorPoint.x,
                           f.origin.y + f.size.height * l.anchorPoint.y),
       bounds := CGRect(ZeroPoint, f.size))
  }

  /** `-containsPoint:`: `p` lies in the half-open box spanned by the bounds. */
  function ContainsPoint(l: Layer, p: CGPoint): (r: bool)
    ensures r <==> (&& l.bounds.origin.x <= p.x < l.bounds.origin.x + l.bounds.size.width
                    && l.bounds.origin.y <= p.y < l.bounds.origin.y + l.bounds.size.height)
  {
    var b := l.bounds;
    InRange(b.origin.x, b.origin.x + b.size.width, p.x)
      && InRange(b.origin.y, b.origin.y + b.size.height, p.y)
  }

  /** A layer whose bounds have no area contains no point at all. */
  lemma EmptyBoundsContainNothing(l: Layer, p: CGPoint)
    requires l.bounds.size.width <= 0.0 || l.bounds.size.height <= 0.0
    ensures !ContainsPoint(l, p)
  {
  }

  /**
   * The bounds origin is contained exactly when the bounds have positive area, and the far
   * corner `origin + size` never is.
   */
  lemma ContainsCorners(l: Layer)
    ensures ContainsPoint(l, l.bounds.origin)
        <==> l.bounds.size.width > 0.0 && l.bounds.size.height > 0.0
    ensures !ContainsPoint(l, CGPoint(l.bounds.origin.x + l.bounds.size.width,
                                      l.bounds.origin.y + l.bounds.size.height))
  {
  }

  /** Containment after `setFrame:` depends only on the frame's size, not on where it sits. */
  lemma ContainsAfterSetFrame(l: Layer, f: CGRect, p: CGPoint)
    ensures ContainsPoint(SetFrame(l, f), p)
        <==> 0.0 <= p.x < f.size.width && 0.0 <= p.y < f.size.height
  {
  }

  /**
   * The 100x50 layer centred on (60, 60) has frame origin (10, 35); a 10x10 layer at the
   * origin contains (0, 0) and (9.999, 9.999) but not (10, 10).
   */
  lemma GeometryExamples(l: Layer)
    ensures var a := l.(bounds := CGRect(ZeroPoint, CGSize(100.0, 50.0)),
                        anchorPoint := CGPoint(0.5, 0.5), position := CGPoint(60.0, 60.0));
      Frame(a) == CGRect(CGPoint(10.0, 35.0), CGSize(100.0, 50.0))
    ensures var b := l.(bounds := CGRect(ZeroPoint, CGSize(10.0, 10.0)));
      && ContainsPoint(b, CGPoint(0.0, 0.0))
      && ContainsPoint(b, CGPoint(9.999, 9.999))
      && !ContainsPoint(b, CGPoint(10.0, 10.0))
  {
  }

  // ---------------------------------------------------------------------------------------
  // Dirty flag and ownership-transferring setters

  /** `-setNeedsDisplay`: marks the layer dirty and changes nothing else. */
  function SetNeedsDisplay(w: World, self: Id): (r: World)
    requires self in w.layers
    ensures r.layers.Keys == w.layers.Keys
    ensures r.layers[self] == w.layers[self].(needsDisplay := true)
    ensures forall x :: x in w.layers && x != self ==> r.layers[x] == w.layers[x]
    ensures r.contexts == w.contexts && r.rc == w.rc && r.sent == w.sent
  {
    Put(w, self, w.layers[self].(needsDisplay := true))
  }

  /** Marking a layer dirty twice is the same as marking it once. */
  lemma SetNeedsDisplayIdempotent(w: World, self: Id)
    requires self in w.layers
    ensures SetNeedsDisplay(SetNeedsDisplay(w, self), self) == SetNeedsDisplay(w, self)
  {
  }

  /**
   * `-setContents:`: invalidates the texture, stores the new image and transfers ownership:
   * the new value gains a strong reference and the previous one loses one (nil on either side
   * contributing nothing), so assigning the current contents leaves its count unchanged.
   */
  function SetContents(w: World, self: Id, newValue: Id): (r: World)
    requires self in w.layers
    ensures var prev := w.layers[self].contents;
      forall x :: Count(r.rc, x) == Count(w.rc, x)
        + (if x == newValue && newValue != Nil then 1 else 0) - (if x == prev && prev != Nil then 1 else 0)
    ensures newValue == w.layers[self].contents ==> forall x :: Count(r.rc, x) == Count(w.rc, x)
    ensures r.layers.Keys == w.layers.Keys
    ensures r.layers[self] == w.layers[self].(contents := newValue, textureUpToDate := false)
    ensures forall x :: x in w.layers && x != self ==> r.layers[x] == w.layers[x]
    ensures r.contexts == w.contexts && r.sent == w.sent
  {
    var l := w.layers[self];
    var prev := l.contents;
    var w1 := Put(w, self, l.(textureUpToDate := false, contents := newValue));
    w1.(rc := Release(Retain(w1.rc, newValue), prev))
  }

  /**
   * `-setBackgroundColor:`. Colours use `CFRetain`/`CFRelease`, so both are guarded against
   * nil. As written, the new colour is stored before the old one is read back, so the colour
   * retained and the colour released are the same object: no count changes at all and the
   * layer never owns its colour. `Intended` reads the previous colour first.
   */
  function SetBackgroundColor(w: World, self: Id, newValue: Id, variant: Variant): (r: World)
    requires self in w.layers
    ensures variant == AsWritten ==> forall x :: Count(r.rc, x) == Count(w.rc, x)
    ensures variant == Intended ==> var prev := w.layers[self].backgroundColor;
      forall x :: Count(r.rc, x) == Count(w.rc, x)
        + (if x == newValue && newValue != Nil then 1 else 0) - (if x == prev && prev != Nil then 1 else 0)
    ensures r.layers.Keys == w.layers.Keys
    ensures r.layers[self] == w.layers[self].(backgroundColor := newValue)
    ensures forall x :: x in w.layers && x != self ==> r.layers[x] == w.layers[x]
    ensures r.contexts == w.contexts && r.sent == w.sent
  {
    var w1 := if variant == AsWritten then Put(w, self, w.layers[self].(backgroundColor := newValue))
              else w;
    var prev := w1.layers[self].backgroundColor;
    var w2 := Put(w1, self, w1.layers[self].(backgroundColor := newValue));
    var rc1 := if newValue != Nil then CFRetain(w2.rc, newValue) else w2.rc;
    var rc2 := if prev != Nil then CFRelease(rc1, prev) else rc1;
    w2.(rc := rc2)
  }

  /**
   * As written, assigning colour X and then colour Y leaves Y's count where it was: the
   * layer holds Y without owning a reference to it, and X was never retained either.
   */
  lemma BackgroundColorNeverOwned(w: World, self: Id, x: Id, y: Id)
    requires self in w.layers && x != Nil && y != Nil && x != y
    ensures var w2 := SetBackgroundColor(SetBackgroundColor(w, self, x, AsWritten), self, y, AsWritten);
      && w2.layers[self].backgroundColor == y
      && Count(w2.rc, y) == Count(w.rc, y)
      && Count(w2.rc, x) == Count(w.rc, x)
  {
    var w1 := SetBackgroundColor(w, self, x, AsWritten);
    assert Count(w1.rc, x) == Count(w.rc, x) && Count(w1.rc, y) == Count(w.rc, y);
  }

  /**
   * With the previous colour read first, assigning X and then Y to a colourless layer
   * returns X's count to its value before the first assignment and gives Y exactly one
   * new owner.
   */
  lemma BackgroundColorBalanced(w: World, self: Id, x: Id, y: Id)
    requires self in w.layers && w.layers[self].backgroundColor == Nil
    requires x != Nil && y != Nil && x != y
    ensures var w1 := SetBackgroundColor(w, self, x, Intended);
      var w2 := SetBackgroundColor(w1, self, y, Intended);
      && Count(w1.rc, x) == Count(w.rc, x) + 1
      && Count(w2.rc, x) == Count(w.rc, x)
      && Count(w2.rc, y) == Count(w.rc, y) + 1
      && w2.layers[self].backgroundColor == y
  {
    var w1 := SetBackgroundColor(w, self, x, Intended);
    assert w1.layers[self].backgroundColor == x;
  }
}
