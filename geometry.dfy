/**
 * The collision volume index: exact real vectors, axis-aligned boxes with the
 * semantics of three.js `Box3`, and the existence test behind `checkCollision`.
 */
module Geometry {

  datatype Vec3 = Vec3(x: real, y: real, z: real)

  const Origin := Vec3(0.0, 0.0, 0.0)

  function Add(u: Vec3, v: Vec3): Vec3 { Vec3(u.x + v.x, u.y + v.y, u.z + v.z) }

  function Sub(u: Vec3, v: Vec3): Vec3 { Vec3(u.x - v.x, u.y - v.y, u.z - v.z) }

  function Scale(v: Vec3, k: real): Vec3 { Vec3(k * v.x, k * v.y, k * v.z) }

  /** An axis-aligned box given by its two extreme corners (`Box3`). Nothing forces min <= max. */
  datatype Box = Box(min: Vec3, max: Vec3)

  predicate WellFormed(b: Box) {
    b.min.x <= b.max.x && b.min.y <= b.max.y && b.min.z <= b.max.z
  }

  predicate InBox(p: Vec3, b: Box) {
    b.min.x <= p.x <= b.max.x && b.min.y <= p.y <= b.max.y && b.min.z <= p.z <= b.max.z
  }

  function Translate(b: Box, v: Vec3): (r: Box)
    ensures forall p :: InBox(p, b) <==> InBox(Add(p, v), r)
  {
    Box(Add(b.min, v), Add(b.max, v))
  }

  /**
   * `Box3.expandByScalar(s)`: every face moves outwards by `s`, inwards for a
   * negative `s`. A box narrower than `-2 s` comes out inverted; three.js does not check.
   */
  function ExpandByScalar(b: Box, s: real): (r: Box)
    ensures r.max.x - r.min.x == b.max.x - b.min.x + 2.0 * s
    ensures r.max.y - r.min.y == b.max.y - b.min.y + 2.0 * s
    ensures r.max.z - r.min.z == b.max.z - b.min.z + 2.0 * s
    ensures s <= 0.0 ==> forall p :: InBox(p, r) ==> InBox(p, b)
    ensures s >= 0.0 ==> forall p :: InBox(p, b) ==> InBox(p, r)
  {
    Box(Sub(b.min, Vec3(s, s, s)), Add(b.max, Vec3(s, s, s)))
  }

  /**
   * `Box3.intersectsBox`: the two boxes are disjoint only if one lies strictly
   * beyond the other on some axis; touching faces intersect.
   */
  predicate IntersectsBox(a: Box, b: Box) {
    !(b.max.x < a.min.x || b.min.x > a.max.x ||
      b.max.y < a.min.y || b.min.y > a.max.y ||
      b.max.z < a.min.z || b.min.z > a.max.z)
  }

  /**
   * The collision query: the character box, shrunk by `margin`, intersects at
   * least one of the environment boxes.
   */
  predicate Collides(character: Box, boxes: seq<Box>, margin: real) {
    exists i :: 0 <= i < |boxes| && IntersectsBox(ExpandByScalar(character, -margin), boxes[i])
  }

  /** For boxes that are not inverted, the interval test means "share a point". */
  lemma IntersectsBoxSharesPoint(a: Box, b: Box)
    requires WellFormed(a) && WellFormed(b)
    ensures IntersectsBox(a, b) <==> exists p :: InBox(p, a) && InBox(p, b)
  {
    if IntersectsBox(a, b) {
      var p := Vec3(Max(a.min.x, b.min.x), Max(a.min.y, b.min.y), Max(a.min.z, b.min.z));
      assert InBox(p, a) && InBox(p, b);
    }
  }

  function Max(u: real, v: real): real { if u < v then v else u }

  /**
   * Shrinking by a margin `m` more than half of some width turns a box inside
   * out: the result holds no point at all, yet, since neither expandByScalar
   * nor intersectsBox tests for emptiness, it is still reported as
   * intersecting the original box whenever every width is at least `m`.
   */
  lemma OverShrunkBoxStillIntersects(b: Box, m: real)
    requires b.max.x - b.min.x >= m && b.max.y - b.min.y >= m && b.max.z - b.min.z >= m
    requires b.max.x - b.min.x < 2.0 * m || b.max.y - b.min.y < 2.0 * m || b.max.z - b.min.z < 2.0 * m
    ensures var a := ExpandByScalar(b, -m);
            !WellFormed(a) && (forall p :: !InBox(p, a)) && IntersectsBox(a, b)
  {
  }

  /** Only existence matters: the order (and multiplicity) of the stored boxes does not. */
  lemma CollidesOrderFree(character: Box, xs: seq<Box>, ys: seq<Box>, margin: real)
    requires multiset(xs) == multiset(ys)
    ensures Collides(character, xs, margin) == Collides(character, ys, margin)
  {
    CollidesSubset(character, xs, ys, margin);
    CollidesSubset(character, ys, xs, margin);
  }

  lemma CollidesSubset(character: Box, xs: seq<Box>, ys: seq<Box>, margin: real)
    requires multiset(xs) <= multiset(ys)
    ensures Collides(character, xs, margin) ==> Collides(character, ys, margin)
  {
    if Collides(character, xs, margin) {
      var i :| 0 <= i < |xs| && IntersectsBox(ExpandByScalar(character, -margin), xs[i]);
      assert xs[i] in multiset(xs);
      assert xs[i] in multiset(ys);
      assert xs[i] in ys;
      var j :| 0 <= j < |ys| && ys[j] == xs[i];
    }
  }

  /** Adding an environment box can only add collisions. */
  lemma CollidesAppend(character: Box, boxes: seq<Box>, b: Box, margin: real)
    ensures Collides(character, boxes + [b], margin) <==>
            Collides(character, boxes, margin) || IntersectsBox(ExpandByScalar(character, -margin), b)
  {
    var shrunk := ExpandByScalar(character, -margin);
    if Collides(character, boxes, margin) {
      var i :| 0 <= i < |boxes| && IntersectsBox(shrunk, boxes[i]);
      assert (boxes + [b])[i] == boxes[i];
    }
    if IntersectsBox(shrunk, b) {
      assert (boxes + [b])[|boxes|] == b;
    }
    if Collides(character, boxes + [b], margin) {
      var i :| 0 <= i < |boxes + [b]| && IntersectsBox(shrunk, (boxes + [b])[i]);
      if i < |boxes| { assert (boxes + [b])[i] == boxes[i]; }
    }
  }
}
