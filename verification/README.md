# CALayer tree, render scheduler and POSIX descriptors: a Dafny model

This project models two pieces of bookkeeping from touchHLE's host-side emulation of the
iPhone OS frameworks, and proves properties about them:

* **`CALayer`** (`src/frameworks/core_animation/ca_layer.rs`). This covers the layer record and
  its allocation defaults, the tree operations (`addSublayer:`, `removeFromSuperlayer`,
  `dealloc`) and the link invariant they maintain. It also covers frame geometry, the
  `setNeedsDisplay`/`displayIfNeeded` dirty-flag state machine with its delegate-capability
  branches and bitmap-context handling, and the ownership rules of `setContents:` and
  `setBackgroundColor:`.
* **POSIX file descriptors** (`src/libc/posix_io.rs`). This covers the descriptor table of
  optional slots, the descriptor/slot mapping (offset 3), `open` flag validation and
  translation, lowest-free-slot allocation, `close`, and the table lookup of `read`.

Everything is a pure state transition. All objects live in one `World` value:

* an arena `layers: map<Id, Layer>`;
* the bitmap contexts `contexts: map<Id, CGContext>`;
* one strong-reference count per handle, `rc`;
* the log `sent` of messages the core sends to guest objects.

A panic in the source (`assert!`, `unwrap()`, a failed object borrow) becomes the `Fatal` result.

Modules:

| file | module | contents |
|---|---|---|
| outcomes.dfy | `Outcomes` | `Option`, `Result` (`Ok`/`Fatal`), `Variant` |
| sequences.dfy | `Sequences` | first-occurrence search, removal at an index, duplicate-freedom |
| objc_runtime.dfy | `ObjcRuntime` | handles, `Nil`, reference counts, `retain`/`release`, `CFRetain`/`CFRelease` |
| core_graphics.dfy | `CoreGraphics` | `CGPoint`, `CGSize`, `CGRect` over reals |
| ca_layer.dfy | `CALayer` | layer record, world, allocation, geometry, dirty flag, `contents`/`backgroundColor` setters |
| layer_tree.dfy | `LayerTree` | link invariant, `removeFromSuperlayer`, `addSublayer:`, `dealloc` |
| layer_display.dfy | `LayerDisplay` | delegate capabilities, `displayIfNeeded`, context preparation |
| posix_io.dfy | `PosixIo` | descriptor table, `open`, `close`, `read` |

Modelling choices:

* **Guest code.** A delegate's class is described by a `Capability` record with four flags: has
  `displayLayer:`, is a `UIView` subclass, overrides `drawRect:`, overrides
  `drawLayer:inContext:`. The guest's `displayLayer:` and `drawLayer:inContext:` are opaque
  world-to-world functions in a `Guest` record, so a callback may change anything, including
  re-dirtying the layer it draws.
* **`bringSublayerToFront:`** is an opaque function parameter of `AddSublayer`.
* **Allocation.** Handles for a new layer or a new context come from the allocator as
  parameters, with a freshness precondition: the handle names no layer and no context, and
  no one holds a reference to it.
* **Reals.** `f32` values are reals. `round() as u32` is round-half-away-from-zero followed by
  saturation to `[0, 2^32-1]`.
* **Descriptor flags** are the `bv32` bit pattern of the `i32` argument.
* **Host filesystem.** Its outcome is an input: a function from open options to an optional
  file, a `synced` flag for `close`, and an optional byte count for `read`.

Three source lines do something other than what their surroundings evidently intend (see
"## Findings"). `SetBackgroundColor`, `PrepareContext`/`DrawSetup`/`DisplayIfNeeded` and
`OptionsFor`/`Open` take a `Variant`:

* `AsWritten` is the code exactly as it stands, and the model's reading of the program.
* `Intended` is the corrected behaviour.

Each contract and lemma says which variant it covers.

Points where the code does something a CALayer user may not expect:

* When the child is already a sublayer, `addSublayer:` does not itself move the child to the
  front. It sends `bringSublayerToFront:`.
* The context reuse test is inverted.
* `dealloc` checks only that the layer itself has no superlayer. Having sublayers is fine.
* The tree is not kept acyclic: `LayerTree.SelfSublayerAllowed` shows a detached layer can
  become its own sublayer.

## Model

| member | source | states |
|---|---|---|
| ObjcRuntime.Retain | src/frameworks/core_animation/ca_layer.rs:371 | retain adds exactly one strong reference to its object, nil excepted; every other count is unchanged |
| ObjcRuntime.Release | src/frameworks/core_animation/ca_layer.rs:372 | release removes exactly one strong reference from its object, nil excepted; every other count is unchanged |
| ObjcRuntime.CFRetain | src/frameworks/core_animation/ca_layer.rs:245 | CFRetain must not be given nil; it adds one reference to that object only |
| ObjcRuntime.CFRelease | src/frameworks/core_animation/ca_layer.rs:248 | CFRelease must not be given nil; it removes one reference from that object only |
| ObjcRuntime.RetainBeforeRelease | src/frameworks/core_animation/ca_layer.rs:367-373 | retain-then-release of the same live object keeps it above zero throughout and restores its count; release alone would drop a count of 1 to 0 |
| Sequences.IndexOf | src/frameworks/core_animation/ca_layer.rs:158 | the position search finds the first occurrence, and finds nothing exactly when the element is absent |
| Sequences.RemoveAt | src/frameworks/core_animation/ca_layer.rs:159 | Vec::remove keeps the other entries in order and takes exactly one copy of the removed element out of the multiset |
| Sequences.RemoveAtNoDup | src/frameworks/core_animation/ca_layer.rs:157-160 | removing from a duplicate-free list leaves no trace of the element and keeps every other element |
| CALayer.Alloc | src/frameworks/core_animation/ca_layer.rs:59-82 | a handle owned by no one becomes a detached, dirty layer with zero bounds and position, centred anchor, opacity 1 and no references, owned once; every other layer and count is unchanged |
| CALayer.Frame | src/frameworks/core_animation/ca_layer.rs:183-197 | the frame has the bounds size, and adding size times anchor point to the frame origin gives back the position |
| CALayer.SetFrame | src/frameworks/core_animation/ca_layer.rs:198-213 | reading the frame back returns exactly the frame set; the anchor point is kept, the bounds origin becomes (0,0) and the bounds size becomes the frame size; nothing else changes |
| CALayer.ContainsPoint | src/frameworks/core_animation/ca_layer.rs:375-381 | a point is contained iff each coordinate lies in the half-open interval from the bounds origin to origin plus size |
| CALayer.EmptyBoundsContainNothing | src/frameworks/core_animation/ca_layer.rs:377-380 | bounds with zero or negative width or height contain no point |
| CALayer.ContainsCorners | src/frameworks/core_animation/ca_layer.rs:377-380 | the bounds origin is contained iff both sides are positive; the far corner is never contained |
| CALayer.ContainsAfterSetFrame | src/frameworks/core_animation/ca_layer.rs:198-213 | after setFrame, containment depends only on the frame size: [0,w) x [0,h) |
| CALayer.GeometryExamples | src/frameworks/core_animation/ca_layer.rs:183-197 | a 100x50 layer centred on (60,60) has frame origin (10,35); a 10x10 layer contains (0,0) and (9.999,9.999) but not (10,10) |
| CALayer.SetNeedsDisplay | src/frameworks/core_animation/ca_layer.rs:255-257 | setNeedsDisplay sets the dirty flag and changes nothing else |
| CALayer.SetNeedsDisplayIdempotent | src/frameworks/core_animation/ca_layer.rs:255-257 | setting the dirty flag twice equals setting it once |
| CALayer.SetContents | src/frameworks/core_animation/ca_layer.rs:367-373 | setContents stores the value and marks the texture stale; the new value gains one reference and the old loses one; reassigning the current contents leaves every count unchanged |
| CALayer.SetBackgroundColor | src/frameworks/core_animation/ca_layer.rs:240-250 | stores the colour and changes nothing else in the layer; as written no count changes at all; the intended variant gives the new colour one reference and takes one from the previous colour |
| CALayer.BackgroundColorNeverOwned | src/frameworks/core_animation/ca_layer.rs:241-249 | as written, after assigning X then Y the layer holds Y, yet neither X's nor Y's count has moved |
| CALayer.BackgroundColorBalanced | src/frameworks/core_animation/ca_layer.rs:243-249 | intended: assigning X then Y returns X's count to its starting value and gives Y exactly one new owner |
| LayerTree.DetachedIsNoChild | src/frameworks/core_animation/ca_layer.rs:24-29 | under the link invariant, a layer with nil superlayer appears in no layer's sublayers |
| LayerTree.AllocKeepsLinks | src/frameworks/core_animation/ca_layer.rs:59-82 | allocating a layer preserves the link invariant |
| LayerTree.Unlink | src/frameworks/core_animation/ca_layer.rs:151-159 | unlinking clears the child's superlayer, removes the entry at the index from the parent's list, and leaves every other layer unchanged |
| LayerTree.UnlinkKeepsLinks | src/frameworks/core_animation/ca_layer.rs:150-162 | unlinking a child from its parent preserves the link invariant and leaves the child in no list |
| LayerTree.RemoveFromSuperlayer | src/frameworks/core_animation/ca_layer.rs:150-162 | no-op without a superlayer; otherwise fatal iff the parent is not a layer listing this one; on success this layer's record differs only by a nil superlayer and the parent's only by losing the first occurrence (rest in order), exactly one release hits this layer, and nothing else changes |
| LayerTree.RemoveFromSuperlayerKeepsLinks | src/frameworks/core_animation/ca_layer.rs:150-162 | under the link invariant, removeFromSuperlayer never fails, keeps the invariant, and leaves the layer in no list |
| LayerTree.Link | src/frameworks/core_animation/ca_layer.rs:145-146 | the child's record differs only by its superlayer, the parent's only by the child appended to its list (both at once when they are the same layer); every other record is unchanged |
| LayerTree.LinkKeepsLinks | src/frameworks/core_animation/ca_layer.rs:145-146 | linking a detached layer under a layer preserves the link invariant |
| LayerTree.AddSublayer | src/frameworks/core_animation/ca_layer.rs:139-148 | a nil or non-layer argument is fatal; an existing child gets bringSublayerToFront: and nothing else; any other child takes the move branch, MoveUnder |
| LayerTree.MoveUnder | src/frameworks/core_animation/ca_layer.rs:143-146 | fatal iff a former parent is not a layer listing the child; otherwise the child points at this layer and is appended last, the former parent loses the child's first occurrence and nothing else, no other field of any layer changes, and the child's count rises by 1 if it was detached and is unchanged if it moved |
| LayerTree.LinkRecords | src/frameworks/core_animation/ca_layer.rs:145-146 | linking a detached child changes exactly its superlayer and the parent's list |
| LayerTree.RelinkRecords | src/frameworks/core_animation/ca_layer.rs:144-146 | detaching from the old parent then linking changes exactly the child's superlayer, the old parent's list (one entry removed) and the new parent's list (child appended) |
| LayerTree.AddSublayerKeepsLinks | src/frameworks/core_animation/ca_layer.rs:139-148 | under the link invariant, adding a non-child never fails, keeps the invariant, and leaves the child exactly once, frontmost |
| LayerTree.SelfSublayerAllowed | src/frameworks/core_animation/ca_layer.rs:139-148 | nothing stops a detached layer becoming its own sublayer; the result still satisfies the link invariant |
| LayerTree.ReleaseFields | src/frameworks/core_animation/ca_layer.rs:102-116 | dealloc releases each non-nil field reference (drawable properties, contents, colour, context) exactly once |
| LayerTree.DetachAll | src/frameworks/core_animation/ca_layer.rs:119-122 | each listed sublayer gets nil superlayer and loses one reference per listing; fatal iff some entry is nil or not a layer |
| LayerTree.Dealloc | src/frameworks/core_animation/ca_layer.rs:90-125 | succeeds iff the layer has no superlayer and every listed sublayer is a non-nil layer (else fatal); then every owned reference is released exactly once, sublayers become detached, the record leaves the arena, and every other layer is unchanged |
| LayerTree.DeallocKeepsLinks | src/frameworks/core_animation/ca_layer.rs:90-125 | under the link invariant, deallocating a detached layer never fails, keeps the invariant, and detaches its former sublayers |
| LayerTree.DeallocReleasesSublayersOnce | src/frameworks/core_animation/ca_layer.rs:118-122 | under the link invariant, each sublayer of a deallocated layer loses exactly one reference for being a sublayer |
| LayerDisplay.RouteFor | src/frameworks/core_animation/ca_layer.rs:269-310 | branch order, one iff per outcome: nil delegate does nothing; displayLayer: wins; a UIView overriding neither drawing hook is skipped; everything else is drawn |
| LayerDisplay.Round | src/frameworks/core_animation/ca_layer.rs:322-323 | rounding gives the nearest integer, halves away from zero |
| LayerDisplay.SaturateU32 | src/frameworks/core_animation/ca_layer.rs:322-323 | the cast to u32 keeps in-range values and clamps the rest to 0 or 2^32-1 |
| LayerDisplay.PixelSize | src/frameworks/core_animation/ca_layer.rs:321-323 | a dimension that rounds into 0..2^32-1 is rendered at its nearest integer size; one rounding below zero gives 0, one too large gives 2^32-1, never more |
| LayerDisplay.ClearDirty | src/frameworks/core_animation/ca_layer.rs:260-267 | taking the dirty flag clears it and changes nothing else |
| LayerDisplay.Translate | src/frameworks/core_animation/ca_layer.rs:358 | translating a context adds to its recorded translation and touches nothing else; an unknown context is fatal |
| LayerDisplay.NewContext | src/frameworks/core_animation/ca_layer.rs:337-353 | a new width x height context (DrawSetup passes the rounded bounds size) with 4*width bytes per row and no translation; it is cached in the layer and owned once; fatal iff 4*width overflows 32 bits |
| LayerDisplay.PrepareContext | src/frameworks/core_animation/ca_layer.rs:325-356 | succeeds iff any cached handle names a context and, when a new context is needed (none cached; as written a matching one; intended a mismatched one), 4*width fits in 32 bits; the new handle is used exactly when a new context is needed; the context used is cached in the layer, either new and correctly sized and owned once, or the previous one with the table unchanged; the previous context loses one count exactly when its size differs, and no other count changes |
| LayerDisplay.DisplayIfNeeded | src/frameworks/core_animation/ca_layer.rs:259-361 | a clean layer is left exactly as it was; a dirty layer with no delegate, or a skipped delegate, only has its flag cleared; a failing context step is fatal |
| LayerDisplay.NonDrawingDelegateOnlyClears | src/frameworks/core_animation/ca_layer.rs:269-310 | with no delegate, or a UIView drawing nothing of its own: no message is sent and only the dirty flag changes |
| LayerDisplay.DisplayLayerTakesPrecedence | src/frameworks/core_animation/ca_layer.rs:279-282 | displayLayer: is sent in a world that differs only by the cleared flag and the logged message; the core touches no context and no texture flag |
| LayerDisplay.DrawSetup | src/frameworks/core_animation/ca_layer.rs:312-358 | succeeds iff any cached handle names a context and a needed new context's stride 4*round(width) fits in 32 bits; the drawing callback then sees: layer clean, texture flag false, message logged, and a cached context translated by minus the bounds origin; a new context has the rounded size and 4*width bytes per row; a reused one is the layer's previous context with only its translation changed; the context table gains at most that context; the previous context loses one count exactly when its size differs from the rounded bounds, and no other count changes |
| LayerDisplay.DrawingRestoresOnlyTranslation | src/frameworks/core_animation/ca_layer.rs:358-360 | after drawing, the result is exactly the world the callback left, except that the drawn context's translation is moved back by the bounds origin; so re-dirtying survives, and the translation returns to its pre-call value when the callback left it alone |
| LayerDisplay.SecondDisplayIsNoop | src/frameworks/core_animation/ca_layer.rs:259-271 | when no guest code runs, the layer ends clean, and a second displayIfNeeded changes nothing |
| LayerDisplay.DelegateCalledAtMostOnce | src/frameworks/core_animation/ca_layer.rs:259-267 | if the callback leaves the layer clean, a second call sends nothing and changes nothing |
| LayerDisplay.StrideOverflowIsFatal | src/frameworks/core_animation/ca_layer.rs:325-348 | whenever a new context is needed (none cached; as written a matching cached one; intended a mismatched one) and 4*width overflows u32, displayIfNeeded is fatal; reusing an existing context never fails |
| LayerDisplay.ContextReuseInverted | src/frameworks/core_animation/ca_layer.rs:325-356 | as written: a matching cached context is abandoned for a new one and keeps its reference (leak); a non-matching one is released and still handed out at the wrong size, with count 0 when the layer held the only reference (use after release) |
| LayerDisplay.ContextReuseIntended | src/frameworks/core_animation/ca_layer.rs:325-356 | intended: drawing always gets a context of the requested size, cached in the layer; a reused context keeps its count; a dropped one loses the layer's reference |
| PosixIo.FileIdxToFd | src/libc/posix_io.rs:33-38 | slot i maps to descriptor i+3, always at least 3; fatal iff that overflows i32 |
| PosixIo.FdToFileIdx | src/libc/posix_io.rs:39-41 | descriptor fd maps to slot fd-3 when fd >= 3; below 3 the usize cast wraps to an index near 2^64; fatal iff fd-3 underflows i32 |
| PosixIo.FdMappingRoundTrip | src/libc/posix_io.rs:33-50 | the two mappings are mutual inverses on slot indices and on descriptors >= 3 |
| PosixIo.FileForFd | src/libc/posix_io.rs:20-26 | a descriptor >= 3 finds its slot's content, or None past the table's end |
| PosixIo.StandardStreamsHaveNoSlot | src/libc/posix_io.rs:39-50 | descriptors below 3 find no file in any realistically sized table |
| PosixIo.FlagsSupported | src/libc/posix_io.rs:67-77 | the four assertions of open accept flags iff the access mode is not 3 and no bit outside RDWR/WRONLY/NONBLOCK/APPEND/CREAT/TRUNC is set |
| PosixIo.OptionsFor | src/libc/posix_io.rs:81-96 | write iff bit 0x1 or 0x2; as written read iff bit 0x2; append, create, truncate follow their bits one-to-one |
| PosixIo.NonblockIgnored | src/libc/posix_io.rs:80 | adding O_NONBLOCK never changes the open options |
| PosixIo.ReadOnlyOpenCannotRead | src/libc/posix_io.rs:82-87 | as written, an O_RDONLY open asks for neither read nor write |
| PosixIo.IntendedAccessModes | src/libc/posix_io.rs:55-58 | intended: read iff the mode is RDONLY or RDWR; write iff WRONLY or RDWR |
| PosixIo.FirstFree | src/libc/posix_io.rs:105-111 | finds the lowest empty slot, all earlier slots being occupied; None iff every slot is occupied |
| PosixIo.SlotFor | src/libc/posix_io.rs:105-118 | the chosen slot is the lowest empty one, or one past the end when the table is full |
| PosixIo.Open | src/libc/posix_io.rs:67-133 | fatal on access mode 3, an unsupported bit, NOFOLLOW or EXCL; a filesystem failure returns -1 with the table unchanged; success stores the file in the chosen slot, changes no other slot, and returns slot+3 |
| PosixIo.OpenThenFind | src/libc/posix_io.rs:102-121 | after a successful open the returned descriptor is >= 3 and finds the new file; every other open descriptor still finds its file |
| PosixIo.Close | src/libc/posix_io.rs:181-199 | fatal iff the slot is past the end or empty; otherwise exactly that slot becomes empty, the table keeps its length, and the result is 0 or -1 by the flush outcome |
| PosixIo.CloseThenFind | src/libc/posix_io.rs:181-198 | after close the descriptor finds nothing and every other descriptor finds what it found before |
| PosixIo.Read | src/libc/posix_io.rs:135-179 | fatal iff no file is found, or the count exceeds i32; otherwise the table is unchanged and the result is the host's count or -1 |

## Left out

- Objective-C runtime: message dispatch, `read_isa`, `class_has_method_named`, `class_is_subclass_of` and `class_overrides_method_of_superclass`. They are replaced by the `Capability` record per delegate.
- Teardown when `release` drops a count to zero. The runtime does this, not the core. `Release` only decrements, and `Dealloc` is a separate operation the runtime would invoke.
- `bringSublayerToFront:`. Its body is not in the modelled code, so `AddSublayer` receives it as an opaque function.
- Core Graphics internals: `CGBitmapContextCreate` pixel buffers, `CGColorSpaceCreateDeviceRGB`, the byte-order and alpha constants, and the pixel effect of translation. A context is just its size, stride and accumulated translation. The colour space created for each new context is not tracked.
- The GL texture handle, `presented_pixels` and the compositor. Only the `textureUpToDate` flag is kept.
- IEEE `f32` arithmetic and NaN. Geometry uses reals, so the frame round trip is exact.
- Plain accessors with no logic: `delegate`/`setDelegate:`, `superlayer`, `bounds`/`position`/`anchorPoint` and their setters, `hidden`, `opaque`, `opacity`, `needsDisplay`, `contents` and `backgroundColor` getters, and `+layer` (alloc followed by `init`).
- ContainsPoint: reads the `bounds` field directly. The source sends the `bounds` message, which a subclass could override.
- Host filesystem behaviour: the path, `open_with_options`, `GuestFile::read`, `sync_all`, and the file position. Their outcomes are inputs.
- Guest memory (`cstr_at_utf8`, `bytes_at_mut`), the variadic mode argument of `open`, errno and all logging.
- Close: the conclusion `fd >= 3` is stated only for tables shorter than 2^64 - 2^31 slots, because a descriptor below 3 wraps to such an index.
- Host `usize` is taken to be 64 bits wide.
- SetContents: the order of its retain and release (retain first) cannot be observed, because `Release` never tears an object down; `ObjcRuntime.RetainBeforeRelease` states only the count arithmetic that makes the order matter at runtime.

## Findings

| source | as written | input that shows it | evidently intended | confidence | as-written member | corrected member |
|---|---|---|---|---|---|---|
| src/frameworks/core_animation/ca_layer.rs:240-250 | the new colour is stored (line 241) before the old one is read back (line 243), so the colour retained and the colour released are the same object | a colourless layer given colour X then colour Y: Y's count is unchanged though the layer holds it, and a later `dealloc` releases a reference the layer never took | read the previous colour first, retain the new one, release the previous one | high; not executed | CALayer.BackgroundColorNeverOwned | CALayer.BackgroundColorBalanced |
| src/frameworks/core_animation/ca_layer.rs:325-335 | `need_new_context` is true when the cached context's size matches and false when it differs | a cached 10x10 context and 10x10 bounds: a new context is created and the old one leaks. With 20x20 bounds instead, the 10x10 context is released (to count 0 when the layer held the only reference) and then translated and drawn into: a use after release | reuse a matching context; release and replace one that does not match | high; not executed | LayerDisplay.ContextReuseInverted | LayerDisplay.ContextReuseIntended |
| src/libc/posix_io.rs:82-84 | the read test masks the flags with the bitwise OR of `O_RDONLY` and `O_RDWR`, which is only bit 0x2 because `O_RDONLY` is 0 | flags = 0 (`O_RDONLY`): options have neither read nor write | request reading for `O_RDONLY` and `O_RDWR` | medium (the open-options semantics are outside this model); not executed | PosixIo.ReadOnlyOpenCannotRead | PosixIo.IntendedAccessModes |
