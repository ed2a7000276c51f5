/**
 * The layer tree: `addSublayer:`, `removeFromSuperlayer` and `dealloc`, and the link
 * invariant between a layer's strong `sublayers` and its children's weak `superlayer`.
 */
module LayerTree {
  import opened Outcomes
  import opened ObjcRuntime
  import opened Sequences
  import opened CALayer

  /** Every entry of a layer's `sublayers` is a layer whose `superlayer` is that layer. */
  ghost predicate ChildrenPointBack(ls: map<Id, Layer>) {
    forall p, i :: p in ls && 0 <= i < |ls[p].sublayers| ==>
      ls[p].sublayers[i] in ls && ls[ls[p].sublayers[i]].superlayer == p
  }

  /** Every layer with a superlayer is listed among that superlayer's `sublayers`. */
  ghost predicate ParentsListChildren(ls: map<Id, Layer>) {
    forall c :: c in ls && ls[c].superlayer != Nil ==>
      ls[c].superlayer in ls && c in ls[ls[c].superlayer].sublayers
  }

  /** No layer lists the same sublayer twice. */
  ghost predicate NoRepeatedChildren(ls: map<Id, Layer>) {
    forall p :: p in ls ==> NoDup(ls[p].sublayers)
  }

  /**
   * The parent/child link invariant: links agree in both directions, no layer is listed
   * twice by its parent, and nil is never a layer.
   */
  ghost predicate Linked(ls: map<Id, Layer>) {
    && Nil !in ls
    && ChildrenPointBack(ls)
    && ParentsListChildren(ls)
    && NoRepeatedChildren(ls)
  }

  /** A layer with no superlayer is nobody's sublayer. */
  lemma DetachedIsNoChild(ls: map<Id, Layer>, c: Id)
    requires Linked(ls) && c in ls && ls[c].superlayer == Nil
    ensures forall p :: p in ls ==> c !in ls[p].sublayers
  {
    forall p, i | p in ls && 0 <= i < |ls[p].sublayers|
      ensures ls[p].sublayers[i] != c
    {
    }
  }

  /** Allocating a layer keeps the link invariant. */
  lemma AllocKeepsLinks(w: World, id: Id)
    requires Linked(w.layers) && id != Nil && id !in w.layers && id !in w.contexts && Count(w.rc, id) == 0
    ensures Linked(Alloc(w, id).layers)
  {
    var r := Alloc(w, id).layers;
    forall p, i | p in r && 0 <= i < |r[p].sublayers|
      ensures r[p].sublayers[i] in r && r[r[p].sublayers[i]].superlayer == p
    {
      assert p != id;
    }
  }

  // ---------------------------------------------------------------------------------------
  // removeFromSuperlayer

  /** The arena after `self` is unlinked from its parent `p`, where it sits at index `i`. */
  function Unlink(ls: map<Id, Layer>, self: Id, p: Id, i: nat): (r: map<Id, Layer>)
    requires self in ls && p in ls && i < |ls[p].sublayers|
    ensures r.Keys == ls.Keys
    ensures r[self].superlayer == Nil
    ensures r[p].sublayers == RemoveAt(ls[p].sublayers, i)
    ensures p != self ==> r[self] == ls[self].(superlayer := Nil)
    ensures p != self ==> r[p] == ls[p].(sublayers := RemoveAt(ls[p].sublayers, i))
    ensures p == self ==> r[p] == ls[p].(superlayer := Nil, sublayers := RemoveAt(ls[p].sublayers, i))
    ensures forall x :: x in ls && x != self && x != p ==> r[x] == ls[x]
  {
    var ls1 := ls[self := ls[self].(superlayer := Nil)];
    ls1[p := ls1[p].(sublayers := RemoveAt(ls1[p].sublayers, i))]
  }

  /** Unlinking a linked layer from its parent keeps the link invariant. */
  lemma UnlinkKeepsLinks(ls: map<Id, Layer>, self: Id, p: Id, i: nat)
    requires Linked(ls) && self in ls && ls[self].superlayer == p && p in ls
    requires i < |ls[p].sublayers| && ls[p].sublayers[i] == self
    ensures Linked(Unlink(ls, self, p, i))
    ensures forall q :: q in ls ==> self !in Unlink(ls, self, p, i)[q].sublayers
  {
    var r := Unlink(ls, self, p, i);
    RemoveAtNoDup(ls[p].sublayers, i);
    assert forall q :: q in ls && q != p ==> r[q].sublayers == ls[q].sublayers;
    assert forall c :: c in ls && c != self ==> r[c].superlayer == ls[c].superlayer;
    forall q, j | q in r && 0 <= j < |r[q].sublayers|
      ensures r[q].sublayers[j] in r && r[r[q].sublayers[j]].superlayer == q
    {
      var c := r[q].sublayers[j];
      assert c in ls[q].sublayers && c != self;
      var k :| 0 <= k < |ls[q].sublayers| && ls[q].sublayers[k] == c;
    }
    forall q | q in ls
      ensures self !in r[q].sublayers
    {
      if q != p {
        forall k | 0 <= k < |ls[q].sublayers|
          ensures ls[q].sublayers[k] != self
        {
        }
      }
    }
  }

  /**
   * `-removeFromSuperlayer`. With no superlayer nothing happens. Otherwise the superlayer
   * link is cleared, the first occurrence of the layer is removed from the former parent's
   * `sublayers` (every other entry keeping its order), and the parent's strong reference is
   * released; a parent that is not a layer, or does not list the layer, is fatal.
   */
  function RemoveFromSuperlayer(w: World, self: Id): (r: Result<World>)
    requires self != Nil && self in w.layers
    ensures w.layers[self].superlayer == Nil ==> r == Ok(w)
    ensures var p := w.layers[self].superlayer;
      p != Nil ==> (r.Ok? <==> p in w.layers && self in w.layers[p].sublayers)
    ensures r.Ok? ==> r.value.layers.Keys == w.layers.Keys
    ensures r.Ok? ==> r.value.layers[self].superlayer == Nil
    ensures r.Ok? && w.layers[self].superlayer != Nil ==>
      var p := w.layers[self].superlayer; var before := w.layers[p].sublayers;
      exists i :: (&& 0 <= i < |before| && before[i] == self && self !in before[..i]
                   && (p != self ==>
                         && r.value.layers[self] == w.layers[self].(superlayer := Nil)
                         && r.value.layers[p] == w.layers[p].(sublayers := before[..i] + before[i + 1..]))
                   && (p == self ==>
                         r.value.layers[p] == w.layers[p].(superlayer := Nil, sublayers := before[..i] + before[i + 1..])))
    ensures r.Ok? ==> var p := w.layers[self].superlayer;
      forall x :: x in w.layers && x != self && x != p ==> r.value.layers[x] == w.layers[x]
    ensures r.Ok? && w.layers[self].superlayer != Nil ==>
      && Count(r.value.rc, self) == Count(w.rc, self) - 1
      && forall x :: x != self ==> Count(r.value.rc, x) == Count(w.rc, x)
    ensures r.Ok? ==> r.value.contexts == w.contexts && r.value.sent == w.sent
  {
    var p := w.layers[self].superlayer;
    if p == Nil then Ok(w)
    else if p !in w.layers then Fatal
    else
      match IndexOf(w.layers[p].sublayers, self)
      case None => Fatal
      case Some(i) =>
        Ok(w.(layers := Unlink(w.layers, self, p, i), rc := Release(w.rc, self)))
  }

  /** Under the link invariant, `removeFromSuperlayer` never fails and keeps the invariant. */
  lemma RemoveFromSuperlayerKeepsLinks(w: World, self: Id)
    requires Linked(w.layers) && self in w.layers
    ensures RemoveFromSuperlayer(w, self).Ok?
    ensures Linked(RemoveFromSuperlayer(w, self).value.layers)
    ensures forall q :: q in w.layers ==> self !in RemoveFromSuperlayer(w, self).value.layers[q].sublayers
  {
    var p := w.layers[self].superlayer;
    if p == Nil {
      DetachedIsNoChild(w.layers, self);
    } else {
      var i := IndexOf(w.layers[p].sublayers, self).value;
      UnlinkKeepsLinks(w.layers, self, p, i);
    }
  }

  // ---------------------------------------------------------------------------------------
  // addSublayer:

  /** The arena after detached `child` is linked under `self` as its frontmost sublayer. */
  function Link(ls: map<Id, Layer>, self: Id, child: Id): (r: map<Id, Layer>)
    requires self in ls && child in ls
    ensures r.Keys == ls.Keys
    ensures r[child].superlayer == self
    ensures r[self].sublayers == ls[self].sublayers + [child]
    ensures child != self ==> r[child] == ls[child].(superlayer := self)
    ensures child != self ==> r[self] == ls[self].(sublayers := ls[self].sublayers + [child])
    ensures child == self ==> r[self] == ls[self].(superlayer := self, sublayers := ls[self].sublayers + [child])
    ensures forall x :: x in ls && x != self && x != child ==> r[x] == ls[x]
  {
    var ls1 := ls[child := ls[child].(superlayer := self)];
    ls1[self := ls1[self].(sublayers := ls1[self].sublayers + [child])]
  }

  /** Linking a detached layer under a layer keeps the link invariant. */
  lemma LinkKeepsLinks(ls: map<Id, Layer>, self: Id, child: Id)
    requires Linked(ls) && self in ls && child in ls && ls[child].superlayer == Nil
    ensures Linked(Link(ls, self, child))
  {
    var r := Link(ls, self, child);
    DetachedIsNoChild(ls, child);
    AppendNoDup(ls[self].sublayers, child);
    forall q, j | q in r && 0 <= j < |r[q].sublayers|
      ensures r[q].sublayers[j] in r && r[r[q].sublayers[j]].superlayer == q
    {
      if q != self || j < |ls[self].sublayers| {
        assert r[q].sublayers[j] == ls[q].sublayers[j];
      }
    }
    forall c | c in r && r[c].superlayer != Nil
      ensures r[c].superlayer in r && c in r[r[c].superlayer].sublayers
    {
      if c != child {
        assert c in ls[ls[c].superlayer].sublayers;
      }
    }
  }

  /**
   * `-addSublayer:`. Sending it a nil or non-layer argument is fatal. When `child` is
   * already a sublayer of `self` the core sends `bringSublayerToFront:`, which this model
   * receives as the opaque `bringToFront`, and retains nothing itself. Otherwise the child
   * moves under `self` as `MoveUnder` describes.
   */
  function AddSublayer(w: World, self: Id, child: Id, bringToFront: (World, Id, Id) -> World)
    : (r: Result<World>)
    requires self != Nil && self in w.layers
    ensures child == Nil || child !in w.layers ==> r == Fatal
    ensures child != Nil && child in w.layers && w.layers[child].superlayer == self ==>
      r == Ok(bringToFront(Send(w, BringSublayerToFront(self, child)), self, child))
    ensures child != Nil && child in w.layers && w.layers[child].superlayer != self ==>
      r == MoveUnder(w, self, child)
  {
    if child == Nil || child !in w.layers then Fatal
    else if w.layers[child].superlayer == self then
      Ok(bringToFront(Send(w, BringSublayerToFront(self, child)), self, child))
    else MoveUnder(w, self, child)
  }

  /**
   * The branch of `-addSublayer:` for a child that is not yet a sublayer of `self`: the
   * child is retained, detached from any previous parent `q` (whose list loses the child's
   * first occurrence, and whose reference is released), linked to `self` and appended as the
   * frontmost sublayer. Its count rises by one when it was detached and stays put when it
   * moved; no other field, count, context or message changes. A parent that is not a layer
   * or does not list the child is fatal.
   */
  function MoveUnder(w: World, self: Id, child: Id): (r: Result<World>)
    requires self != Nil && self in w.layers && child != Nil && child in w.layers
    requires w.layers[child].superlayer != self
    ensures var q := w.layers[child].superlayer;
      r.Ok? <==> q == Nil || (q in w.layers && child in w.layers[q].sublayers)
    ensures r.Ok? ==>
      && Count(r.value.rc, child) == Count(w.rc, child) + (if w.layers[child].superlayer == Nil then 1 else 0)
      && (forall x :: x != child ==> Count(r.value.rc, x) == Count(w.rc, x))
      && r.value.contexts == w.contexts && r.value.sent == w.sent
    ensures w.layers[child].superlayer == Nil ==> r.Ok? && Moved(w.layers, r.value.layers, self, child, Nil, [])
    ensures w.layers[child].superlayer != Nil && r.Ok? ==>
      var q := w.layers[child].superlayer; var before := w.layers[q].sublayers;
      exists i :: (&& 0 <= i < |before| && before[i] == child && child !in before[..i]
                   && Moved(w.layers, r.value.layers, self, child, q, before[..i] + before[i + 1..]))
  {
    var w1 := w.(rc := Retain(w.rc, child));
    match RemoveFromSuperlayer(w1, child)
    case Fatal => Fatal
    case Ok(w2) =>
      var q := w.layers[child].superlayer;
      if q == Nil then
        LinkRecords(w.layers, self, child);
        Ok(w2.(layers := Link(w2.layers, self, child)))
      else
        RelinkRecords(w.layers, self, child, q, IndexOf(w.layers[q].sublayers, child).value);
        Ok(w2.(layers := Link(w2.layers, self, child)))
  }

  /**
   * `r` is `ls` after `child` moved under `self`: the child's superlayer is `self`, `self`'s
   * list gains the child at the end, the former parent `q` (when not nil) has list `qList`,
   * and no other field of any layer differs.
   */
  ghost predicate Moved(ls: map<Id, Layer>, r: map<Id, Layer>, self: Id, child: Id, q: Id, qList: seq<Id>) {
    && r.Keys == ls.Keys
    && forall x :: x in ls ==>
         r[x] == ls[x].(
           superlayer := if x == child then self else ls[x].superlayer,
           sublayers := (if x == q && q != Nil then qList else ls[x].sublayers)
                        + (if x == self then [child] else []))
  }

  /** Linking a layer with no former parent changes only the two links. */
  lemma LinkRecords(ls: map<Id, Layer>, self: Id, child: Id)
    requires self in ls && child in ls
    ensures Moved(ls, Link(ls, self, child), self, child, Nil, [])
  {
    forall x | x in ls && x != self
      ensures ls[x].sublayers + [] == ls[x].sublayers
    {
    }
  }

  /**
   * Every record after `child` is taken out of position `i` of `q`'s list and linked under
   * `self`: only the child's superlayer and the two lists differ.
   */
  lemma RelinkRecords(ls: map<Id, Layer>, self: Id, child: Id, q: Id, i: nat)
    requires self in ls && child in ls && q in ls && q != self && i < |ls[q].sublayers|
    requires q != Nil
    ensures var before := ls[q].sublayers;
      Moved(ls, Link(Unlink(ls, child, q, i), self, child), self, child, q, before[..i] + before[i + 1..])
  {
    var before := ls[q].sublayers;
    assert RemoveAt(before, i) == before[..i] + before[i + 1..];
    forall x | x in ls && x != self
      ensures ls[x].sublayers + [] == ls[x].sublayers
      ensures before[..i] + before[i + 1..] + [] == before[..i] + before[i + 1..]
    {
    }
  }

  /**
   * Under the link invariant, adding a layer that is not yet a sublayer of `self` never
   * fails, keeps the invariant, and leaves the child listed exactly once, at the front.
   */
  lemma AddSublayerKeepsLinks(w: World, self: Id, child: Id, bringToFront: (World, Id, Id) -> World)
    requires Linked(w.layers) && self in w.layers && child in w.layers
    requires w.layers[child].superlayer != self
    ensures AddSublayer(w, self, child, bringToFront).Ok?
    ensures var v := AddSublayer(w, self, child, bringToFront).value.layers;
      && Linked(v)
      && v[self].sublayers[|v[self].sublayers| - 1] == child
      && multiset(v[self].sublayers)[child] == 1
  {
    var w1 := w.(rc := Retain(w.rc, child));
    RemoveFromSuperlayerKeepsLinks(w1, child);
    var w2 := RemoveFromSuperlayer(w1, child).value;
    LinkKeepsLinks(w2.layers, self, child);
    assert child !in w2.layers[self].sublayers;
    assert multiset(w2.layers[self].sublayers)[child] == 0;
  }

  /** A self-cycle is not excluded: a detached layer can be made its own sublayer. */
  lemma SelfSublayerAllowed(w: World, self: Id, bringToFront: (World, Id, Id) -> World)
    requires Linked(w.layers) && self in w.layers && w.layers[self].superlayer == Nil
    ensures var r := AddSublayer(w, self, self, bringToFront);
      && r.Ok? && Linked(r.value.layers)
      && r.value.layers[self].superlayer == self && self in r.value.layers[self].sublayers
  {
    AddSublayerKeepsLinks(w, self, self, bringToFront);
  }

  // ---------------------------------------------------------------------------------------
  // dealloc

  /**
   * How many of a layer's own reference fields (drawable properties, contents, background
   * colour, cached context) hold `x`, nil never counting.
   */
  function FieldRefs(l: Layer, x: Id): nat {
    (if x != Nil && x == l.drawableProperties then 1 else 0)
    + (if x != Nil && x == l.contents then 1 else 0)
    + (if x != Nil && x == l.backgroundColor then 1 else 0)
    + (if x != Nil && l.cgContext == Some(x) then 1 else 0)
  }

  /** The first half of `dealloc`: each owned field reference is released once. */
  function ReleaseFields(rc: RefCounts, l: Layer): (r: RefCounts)
    ensures forall x :: Count(r, x) == Count(rc, x) - FieldRefs(l, x)
  {
    var rc1 := if l.drawableProperties != Nil then Release(rc, l.drawableProperties) else rc;
    var rc2 := if l.contents != Nil then Release(rc1, l.contents) else rc1;
    var rc3 := if l.backgroundColor != Nil then CFRelease(rc2, l.backgroundColor) else rc2;
    if l.cgContext.Some? && l.cgContext.value != Nil then Release(rc3, l.cgContext.value) else rc3
  }

  /**
   * The loop at the end of `dealloc`: each listed sublayer loses its superlayer link and one
   * strong reference; a listed handle that is nil or not a layer is fatal.
   */
  function DetachAll(ls: map<Id, Layer>, rc: RefCounts, subs: seq<Id>)
    : (r: Result<(map<Id, Layer>, RefCounts)>)
    ensures r.Ok? <==> forall i :: 0 <= i < |subs| ==> subs[i] != Nil && subs[i] in ls
    ensures r.Ok? ==> r.value.0.Keys == ls.Keys
    ensures r.Ok? ==> forall x :: x in ls ==>
      r.value.0[x] == (if x in subs then ls[x].(superlayer := Nil) else ls[x])
    ensures r.Ok? ==> forall x :: Count(r.value.1, x) == Count(rc, x) - multiset(subs)[x]
    decreases |subs|
  {
    if |subs| == 0 then Ok((ls, rc))
    else if subs[0] == Nil || subs[0] !in ls then Fatal
    else
      assert subs == [subs[0]] + subs[1..];
      DetachAll(ls[subs[0] := ls[subs[0]].(superlayer := Nil)], Release(rc, subs[0]), subs[1..])
  }

  /**
   * `-dealloc`. Fatal while the layer still has a superlayer. Otherwise each owned reference
   * (drawable properties, contents, background colour, context, every sublayer) is released
   * exactly once, every sublayer's superlayer link is cleared, and the record leaves the arena.
   */
  function Dealloc(w: World, self: Id): (r: Result<World>)
    requires self != Nil && self in w.layers
    ensures var subs := w.layers[self].sublayers;
      r.Ok? <==> w.layers[self].superlayer == Nil && forall i :: 0 <= i < |subs| ==> subs[i] != Nil && subs[i] in w.layers
    ensures r.Ok? ==> r.value.layers.Keys == w.layers.Keys - {self}
    ensures r.Ok? ==> var subs := w.layers[self].sublayers;
      forall x :: x in r.value.layers ==>
        r.value.layers[x] == (if x in subs then w.layers[x].(superlayer := Nil) else w.layers[x])
    ensures r.Ok? ==> var l := w.layers[self];
      forall x :: Count(r.value.rc, x) == Count(w.rc, x) - FieldRefs(l, x) - multiset(l.sublayers)[x]
    ensures r.Ok? ==> r.value.contexts == w.contexts && r.value.sent == w.sent
  {
    var l := w.layers[self];
    var rc1 := ReleaseFields(w.rc, l);
    if l.superlayer != Nil then Fatal
    else
      match DetachAll(w.layers[self := l.(sublayers := [])], rc1, l.sublayers)
      case Fatal => Fatal
      case Ok((ls, rc)) => Ok(w.(layers := ls - {self}, rc := rc))
  }

  /**
   * Under the link invariant, deallocating a detached layer never fails, keeps the
   * invariant, and leaves every former sublayer detached.
   */
  lemma DeallocKeepsLinks(w: World, self: Id)
    requires Linked(w.layers) && self in w.layers && w.layers[self].superlayer == Nil
    ensures Dealloc(w, self).Ok?
    ensures Linked(Dealloc(w, self).value.layers)
    ensures forall c :: c in w.layers[self].sublayers ==> Dealloc(w, self).value.layers[c].superlayer == Nil
  {
    var l := w.layers[self];
    DetachedIsNoChild(w.layers, self);
    assert forall i :: 0 <= i < |l.sublayers| ==> l.sublayers[i] != Nil && l.sublayers[i] in w.layers;
    var v := Dealloc(w, self).value.layers;
    forall c | c in l.sublayers
      ensures c in v
    {
      var i :| 0 <= i < |l.sublayers| && l.sublayers[i] == c;
      assert w.layers[c].superlayer == self;
    }
    forall q, j | q in v && 0 <= j < |v[q].sublayers|
      ensures v[q].sublayers[j] in v && v[v[q].sublayers[j]].superlayer == q
    {
      var c := w.layers[q].sublayers[j];
      assert w.layers[c].superlayer == q && q != self;
      assert c != self;
      forall k | 0 <= k < |l.sublayers|
        ensures l.sublayers[k] != c
      {
      }
    }
    forall c | c in v && v[c].superlayer != Nil
      ensures v[c].superlayer in v && c in v[v[c].superlayer].sublayers
    {
      assert c !in l.sublayers;
    }
  }

  /**
   * Under the link invariant every sublayer of a deallocated layer loses exactly one strong
   * reference for being a sublayer (and one more per field of the layer that also holds it).
   */
  lemma DeallocReleasesSublayersOnce(w: World, self: Id)
    requires Linked(w.layers) && self in w.layers && w.layers[self].superlayer == Nil
    ensures var l := w.layers[self];
      forall c :: c in l.sublayers ==>
        Count(Dealloc(w, self).value.rc, c) == Count(w.rc, c) - FieldRefs(l, c) - 1
  {
    DeallocKeepsLinks(w, self);
    var l := w.layers[self];
    forall c | c in l.sublayers
      ensures multiset(l.sublayers)[c] == 1
    {
      NoDupOccursOnce(l.sublayers, c);
    }
  }
}
