/** Integer axis-aligned rectangles with the overlap tests of pygame.Rect,
    which every game uses for its collisions. */
module Geometry {

  datatype Rect = Rect(x: int, y: int, w: int, h: int)

  /** pygame.Rect.colliderect: an empty rectangle touches nothing, and
      rectangles that only share an edge do not collide. */
  predicate Collide(a: Rect, b: Rect) {
    && a.w > 0 && a.h > 0 && b.w > 0 && b.h > 0
    && a.x < b.x + b.w && b.x < a.x + a.w
    && a.y < b.y + b.h && b.y < a.y + a.h
  }

  /** pygame.Rect.collidepoint: the right and bottom edges are outside. */
  predicate ContainsPoint(r: Rect, px: int, py: int) {
    r.x <= px < r.x + r.w && r.y <= py < r.y + r.h
  }

  /** pygame.Rect.move */
  function Move(r: Rect, dx: int, dy: int): (m: Rect)
    ensures m.w == r.w && m.h == r.h
    ensures m.x - r.x == dx && m.y - r.y == dy
  {
    Rect(r.x + dx, r.y + dy, r.w, r.h)
  }

  /** Halving as C does it (towards zero), used by inflate. */
  function HalfTowardZero(n: int): (r: int)
    ensures 2 * r == n || 2 * r == n - 1 || 2 * r == n + 1
    ensures n >= 0 ==> 0 <= r <= n
  {
    if n >= 0 then n / 2 else -((-n) / 2)
  }

  /** pygame.Rect.inflate: grows by dw and dh around the same centre. */
  function Inflate(r: Rect, dw: int, dh: int): (g: Rect)
    ensures g.w == r.w + dw && g.h == r.h + dh
    ensures dw >= 0 && dh >= 0 ==>
      forall px, py :: ContainsPoint(r, px, py) ==> ContainsPoint(g, px, py)
  {
    Rect(r.x - HalfTowardZero(dw), r.y - HalfTowardZero(dh), r.w + dw, r.h + dh)
  }

  /** r overlaps one of rs. */
  predicate HitsAny(r: Rect, rs: seq<Rect>) {
    exists i :: 0 <= i < |rs| && Collide(r, rs[i])
  }

  /** Looking at one more rectangle of rs. */
  lemma HitsAnyPrefix(r: Rect, rs: seq<Rect>, i: nat)
    requires i < |rs|
    ensures HitsAny(r, rs[..i + 1]) <==> HitsAny(r, rs[..i]) || Collide(r, rs[i])
  {
    assert rs[..i + 1][i] == rs[i];
    if HitsAny(r, rs[..i + 1]) && !Collide(r, rs[i]) {
      var j :| 0 <= j < i + 1 && Collide(r, rs[..i + 1][j]);
      assert rs[..i][j] == rs[j];
    }
    if HitsAny(r, rs[..i]) {
      var j :| 0 <= j < i && Collide(r, rs[..i][j]);
      assert rs[..i + 1][j] == rs[j];
    }
  }

  lemma CollideSymmetric(a: Rect, b: Rect)
    ensures Collide(a, b) == Collide(b, a)
  {
  }
}
