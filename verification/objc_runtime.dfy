/**
 * The reference-counting substrate the layer code calls into: object handles and
 * strong-reference counts.
 *
 * An object handle is a natural number and `Nil` (0) is the null object. Counts live in a
 * map; a handle without an entry has count 0. `release` only decrements: tearing an object
 * down when its count reaches zero is the runtime's business and happens outside the core.
 */
module ObjcRuntime {

  /** An Objective-C object handle (`id`). */
  type Id = nat

  /** The null object. */
  const Nil: Id := 0

  /** Strong-reference counts per handle. */
  type RefCounts = map<Id, int>

  /** The strong-reference count of `x`. */
  function Count(rc: RefCounts, x: Id): int {
    if x in rc then rc[x] else 0
  }

  /** `retain`: one more strong reference to `x`; sending it to nil does nothing. */
  function Retain(rc: RefCounts, x: Id): (r: RefCounts)
    ensures forall y :: Count(r, y) == Count(rc, y) + (if y == x && x != Nil then 1 else 0)
  {
    if x == Nil then rc else rc[x := Count(rc, x) + 1]
  }

  /** `release`: one strong reference to `x` fewer; sending it to nil does nothing. */
  function Release(rc: RefCounts, x: Id): (r: RefCounts)
    ensures forall y :: Count(r, y) == Count(rc, y) - (if y == x && x != Nil then 1 else 0)
  {
    if x == Nil then rc else rc[x := Count(rc, x) - 1]
  }

  /** `CFRetain`: unlike `retain` it must not be given nil, so callers guard it. */
  function CFRetain(rc: RefCounts, x: Id): (r: RefCounts)
    requires x != Nil
    ensures Count(r, x) == Count(rc, x) + 1
    ensures forall y :: y != x ==> Count(r, y) == Count(rc, y)
  {
    Retain(rc, x)
  }

  /** `CFRelease`: unlike `release` it must not be given nil, so callers guard it. */
  function CFRelease(rc: RefCounts, x: Id): (r: RefCounts)
    requires x != Nil
    ensures Count(r, x) == Count(rc, x) - 1
    ensures forall y :: y != x ==> Count(r, y) == Count(rc, y)
  {
    Release(rc, x)
  }

  /**
   * Retaining the new value before releasing the old one keeps an object that is both
   * alive throughout an assignment of itself to itself, and leaves its count where it was.
   */
  lemma RetainBeforeRelease(rc: RefCounts, x: Id)
    requires x != Nil && Count(rc, x) >= 1
    ensures Count(Retain(rc, x), x) >= 2
    ensures Count(Release(Retain(rc, x), x), x) == Count(rc, x)
    ensures Count(rc, x) == 1 ==> Count(Release(rc, x), x) == 0
  {
  }
}
