/** Overlap of two page boxes, over the reals. */
module Iou {
  /** [x, y, w, h]; shorter lists occur and are invalid. */
  type Box = seq<real>

  function Min(a: real, b: real): real { if b < a then b else a }
  function Max(a: real, b: real): real { if b > a then b else a }

  function OverUnion(inter: real, area1: real, area2: real): real {
    var union := area1 + area2 - inter;
    if union > 0.0 then inter / union else 0.0
  }

  function Size(w: real, h: real): real { w * h }

  function Span(from: real, to: real): real { to - from }

  function BboxIou(labelBox: Box, predBox: Box): real {
    if labelBox == [] || predBox == [] then 0.0
    else if |labelBox| < 4 || |predBox| < 4 then 0.0
    else
      var (lx, ly, lw, lh) := (labelBox[0], labelBox[1], labelBox[2], labelBox[3]);
      var (px, py, pw, ph) := (predBox[0], predBox[1], predBox[2], predBox[3]);
      if lw <= 0.0 || lh <= 0.0 || pw <= 0.0 || ph <= 0.0 then 0.0
      else
        var ix0, iy0 := Max(lx, px), Max(ly, py);
        var ix1, iy1 := Min(lx + lw, px + pw), Min(ly + lh, py + ph);
        if ix1 <= ix0 || iy1 <= iy0 then 0.0
        else
          OverUnion(Size(Span(ix0, ix1), Span(iy0, iy1)), Size(lw, lh), Size(pw, ph))
  }

  // ---------- what it should mean: areas of sets of points ----------

  predicate Valid(b: Box) { |b| >= 4 && b[2] > 0.0 && b[3] > 0.0 }

  function Area(b: Box): real
    requires Valid(b)
  { Size(b[2], b[3]) }

  /** The point lies strictly inside the box. */
  predicate Inside(x: real, y: real, b: Box)
    requires |b| >= 4
  {
    b[0] < x < b[0] + b[2] && b[1] < y < b[1] + b[3]
  }

  ghost predicate Disjoint(a: Box, b: Box)
    requires |a| >= 4 && |b| >= 4
  {
    forall x: real, y: real :: Inside(x, y, a) ==> !Inside(x, y, b)
  }

  /** `m` is the box whose interior is the common interior of `a` and `b`. */
  ghost predicate IsMeet(m: Box, a: Box, b: Box)
    requires |a| >= 4 && |b| >= 4
  {
    Valid(m) && forall x: real, y: real :: Inside(x, y, m) <==> Inside(x, y, a) && Inside(x, y, b)
  }

  // ---------- one axis ----------

  /** How much the intervals from `a` of length `w` and from `b` of length `v` share, if positive. */
  function Shared(a: real, w: real, b: real, v: real): real { Span(Max(a, b), Min(a + w, b + v)) }

  function Meet(a: Box, b: Box): Box
    requires |a| >= 4 && |b| >= 4
  {
    [Max(a[0], b[0]), Max(a[1], b[1]), Shared(a[0], a[2], b[0], b[2]), Shared(a[1], a[3], b[1], b[3])]
  }

  predicate Meets(a: Box, b: Box) { Valid(a) && Valid(b) && Valid(Meet(a, b)) }

  lemma SidesShrink(a: Box, b: Box)
    requires Meets(a, b)
    ensures Meet(a, b)[2] <= a[2] && Meet(a, b)[2] <= b[2] && Meet(a, b)[3] <= a[3] && Meet(a, b)[3] <= b[3]
  {}

  lemma ProductGrows(x: real, y: real, u: real, v: real)
    requires 0.0 < x <= u && 0.0 < y <= v
    ensures 0.0 < x * y <= u * v
    ensures x * y == u * v ==> x == u && y == v
  {
    assert x * y <= u * y;
    assert u * y <= u * v;
    if x < u { assert (u - x) * y > 0.0; }
    if y < v { assert u * (v - y) > 0.0; }
  }

  /** The common part is no larger than either box, and as large as one only if it is that box. */
  lemma MeetIsSmaller(a: Box, b: Box)
    requires Meets(a, b)
    ensures 0.0 < Area(Meet(a, b)) <= Area(a) && Area(Meet(a, b)) <= Area(b)
    ensures Area(Meet(a, b)) == Area(a) ==> Meet(a, b)[2] == a[2] && Meet(a, b)[3] == a[3]
    ensures Area(Meet(a, b)) == Area(b) ==> Meet(a, b)[2] == b[2] && Meet(a, b)[3] == b[3]
  {
    SidesShrink(a, b);
    SmallerArea(Meet(a, b), a);
    SmallerArea(Meet(a, b), b);
  }

  lemma SmallerArea(m: Box, a: Box)
    requires Valid(m) && Valid(a) && m[2] <= a[2] && m[3] <= a[3]
    ensures 0.0 < Area(m) <= Area(a) && (Area(m) == Area(a) ==> m[2] == a[2] && m[3] == a[3])
  {
    ProductGrows(m[2], m[3], a[2], a[3]);
  }

  lemma IouOfMeeting(a: Box, b: Box)
    requires Meets(a, b)
    ensures BboxIou(a, b) == OverUnion(Area(Meet(a, b)), Area(a), Area(b))
  {}

  lemma IouOfOthers(a: Box, b: Box)
    requires !Meets(a, b)
    ensures BboxIou(a, b) == 0.0
  {}

  lemma IouIsRatio(a: Box, b: Box)
    ensures Meets(a, b) ==> Area(a) + Area(b) - Area(Meet(a, b)) > 0.0
    ensures Meets(a, b) ==> BboxIou(a, b) == OverUnion(Area(Meet(a, b)), Area(a), Area(b))
    ensures !Meets(a, b) ==> BboxIou(a, b) == 0.0
  {
    if Meets(a, b) {
      MeetIsSmaller(a, b);
      IouOfMeeting(a, b);
    } else {
      IouOfOthers(a, b);
    }
  }

  // ---------- the theorems ----------

  /** The common interior of two boxes is empty, or the interior of their meet. */
  lemma MeetIsCommonInterior(a: Box, b: Box)
    requires Valid(a) && Valid(b)
    ensures Meets(a, b) ==> IsMeet(Meet(a, b), a, b)
    ensures !Meets(a, b) <==> Disjoint(a, b)
  {
    var m := Meet(a, b);
    forall x: real, y: real ensures Inside(x, y, m) <==> Inside(x, y, a) && Inside(x, y, b) {}
    if Meets(a, b) {
      assert Inside(m[0] + m[2] / 2.0, m[1] + m[3] / 2.0, m);
    }
  }

  /** Intersection over union: the area of the box of common points, over what the two boxes cover. */
  lemma IouMeaning(a: Box, b: Box, m: Box)
    requires Valid(a) && Valid(b) && IsMeet(m, a, b)
    ensures Area(a) + Area(b) - Area(m) > 0.0
    ensures BboxIou(a, b) == Area(m) / (Area(a) + Area(b) - Area(m))
  {
    var (cx, cy) := (m[0] + m[2] / 2.0, m[1] + m[3] / 2.0);
    assert Inside(cx, cy, m);
    MeetIsCommonInterior(a, b);
    SameInterior(m, Meet(a, b));
    IouIsRatio(a, b);
  }

  /** A box is determined by its interior. */
  lemma SameInterior(m: Box, n: Box)
    requires Valid(m) && Valid(n) && forall x: real, y: real :: Inside(x, y, m) <==> Inside(x, y, n)
    ensures m[..4] == n[..4] && Area(m) == Area(n)
  {
    EdgesCovered(m, n);
    EdgesCovered(n, m);
    assert m[0] == n[0] && m[1] == n[1] && m[2] == n[2] && m[3] == n[3];
  }

  lemma EdgesCovered(m: Box, n: Box)
    requires Valid(m) && Valid(n) && forall x: real, y: real :: Inside(x, y, m) ==> Inside(x, y, n)
    ensures n[0] <= m[0] && m[0] + m[2] <= n[0] + n[2] && n[1] <= m[1] && m[1] + m[3] <= n[1] + n[3]
  {
    var (cx, cy) := (m[0] + m[2] / 2.0, m[1] + m[3] / 2.0);
    assert Inside(cx, cy, m);
    if m[0] < n[0] { assert Inside(Between(m[0], Min(n[0], cx)), cy, m); }
    if n[0] + n[2] < m[0] + m[2] { assert Inside(Between(Max(n[0] + n[2], cx), m[0] + m[2]), cy, m); }
    if m[1] < n[1] { assert Inside(cx, Between(m[1], Min(n[1], cy)), m); }
    if n[1] + n[3] < m[1] + m[3] { assert Inside(cx, Between(Max(n[1] + n[3], cy), m[1] + m[3]), m); }
  }

  function Between(a: real, b: real): (c: real)
    requires a < b
    ensures a < c < b
  { (a + b) / 2.0 }

  lemma ProductSign(x: real, y: real)
    requires y > 0.0
    ensures (x > 0.0 <==> x * y > 0.0) && (x == 0.0 <==> x * y == 0.0)
  {}

  /** Comparing a fraction is comparing its numerator. */
  lemma FractionCompares(i: real, u: real, c: real)
    requires u > 0.0
    ensures (i / u > c <==> i > c * u) && (i / u == c <==> i == c * u)
  {
    var q := i / u;
    assert q * u == i;
    ProductSign(q - c, u);
    assert (q - c) * u == q * u - c * u;
  }

  lemma Fraction(i: real, u: real)
    requires 0.0 < i <= u
    ensures 0.0 < i / u <= 1.0 && (i / u == 1.0 <==> i == u)
    ensures i / u >= 0.5 <==> 2.0 * i >= u
  {
    FractionCompares(i, u, 0.0);
    FractionCompares(i, u, 1.0);
    FractionCompares(i, u, 0.5);
  }

  lemma RangeAndSymmetry(a: Box, b: Box)
    ensures 0.0 <= BboxIou(a, b) <= 1.0 && BboxIou(a, b) == BboxIou(b, a)
  {
    IouIsRatio(a, b);
    IouIsRatio(b, a);
    if Meets(a, b) {
      MeetIsSmaller(a, b);
      Fraction(Area(Meet(a, b)), Area(a) + Area(b) - Area(Meet(a, b)));
      assert Meet(a, b) == Meet(b, a);
    }
  }

  lemma OneIffIdentical(a: Box, b: Box)
    ensures BboxIou(a, b) == 1.0 <==> Valid(a) && Valid(b) && a[..4] == b[..4]
  {
    IouIsRatio(a, b);
    if Meets(a, b) {
      MeetIsSmaller(a, b);
      Fraction(Area(Meet(a, b)), Area(a) + Area(b) - Area(Meet(a, b)));
      if BboxIou(a, b) == 1.0 {
        assert a[0] == b[0] && a[1] == b[1] && a[2] == b[2] && a[3] == b[3];
      }
    }
    if Valid(a) && Valid(b) && a[..4] == b[..4] {
      assert a[0] == a[..4][0] && a[1] == a[..4][1] && a[2] == a[..4][2] && a[3] == a[..4][3];
      assert b[0] == b[..4][0] && b[1] == b[..4][1] && b[2] == b[..4][2] && b[3] == b[..4][3];
      assert Meets(a, b) && Area(Meet(a, b)) == Area(a) == Area(b);
    }
  }

  lemma ZeroIffApart(a: Box, b: Box)
    ensures BboxIou(a, b) == 0.0 <==> !Valid(a) || !Valid(b) || Disjoint(a, b)
  {
    IouIsRatio(a, b);
    if Valid(a) && Valid(b) { MeetIsCommonInterior(a, b); }
    if Meets(a, b) {
      MeetIsSmaller(a, b);
      Fraction(Area(Meet(a, b)), Area(a) + Area(b) - Area(Meet(a, b)));
    }
  }

  /** Boxes that agree by half have areas within a factor of two of one another, and share at least half
      of each side of each. */
  lemma HalfMeansClose(a: Box, b: Box)
    requires BboxIou(a, b) >= 0.5
    ensures Meets(a, b) && Area(a) <= 2.0 * Area(b) && Area(b) <= 2.0 * Area(a)
    ensures var m := Meet(a, b);
            2.0 * m[2] >= a[2] && 2.0 * m[2] >= b[2] && 2.0 * m[3] >= a[3] && 2.0 * m[3] >= b[3]
  {
    IouIsRatio(a, b);
    MeetIsSmaller(a, b);
    SidesShrink(a, b);
    var m := Meet(a, b);
    HalfOfAreas(Area(m), Area(a), Area(b));
    HalfOfSides(m, a);
    HalfOfSides(m, b);
  }

  lemma HalfOfAreas(i: real, p: real, q: real)
    requires 0.0 < i <= p && i <= q && OverUnion(i, p, q) >= 0.5
    ensures p <= 2.0 * q && q <= 2.0 * p && 2.0 * i >= p && 2.0 * i >= q
  {
    Fraction(i, p + q - i);
  }

  lemma HalfOfSides(m: Box, a: Box)
    requires Valid(m) && Valid(a) && m[2] <= a[2] && m[3] <= a[3] && 2.0 * Area(m) >= Area(a)
    ensures 2.0 * m[2] >= a[2] && 2.0 * m[3] >= a[3]
  {
    ProductAtMost(2.0 * m[2], m[3], a[2], a[3]);
    ProductAtMost(2.0 * m[3], m[2], a[3], a[2]);
  }

  lemma ProductAtMost(x: real, y: real, u: real, v: real)
    requires 0.0 < x && 0.0 < y <= v && x * y >= u * v
    ensures x >= u
  {
    ProductSign(u - x, v);
    assert (u - x) * v == u * v - x * v;
    assert x * (v - y) == x * v - x * y;
    if y < v { ProductSign(x, v - y); }
  }

  // ---------- change of page coordinates ----------

  /** Another origin and another scale on each axis. */
  function Mapped(b: Box, dx: real, dy: real, kx: real, ky: real): Box
    requires |b| >= 4
  {
    [kx * b[0] + dx, ky * b[1] + dy, kx * b[2], ky * b[3]]
  }

  lemma ScaleKeepsOrder(k: real, a: real, b: real)
    requires k > 0.0
    ensures a < b <==> k * a < k * b
  {
    if a < b { assert k * (b - a) > 0.0; }
    if a > b { assert k * (a - b) > 0.0; }
  }

  lemma MinMaxScale(k: real, a: real, b: real)
    requires k > 0.0
    ensures Min(k * a, k * b) == k * Min(a, b) && Max(k * a, k * b) == k * Max(a, b)
  {
    ScaleKeepsOrder(k, a, b);
    ScaleKeepsOrder(k, b, a);
  }

  lemma SharedScales(k: real, d: real, a: real, w: real, b: real, v: real)
    requires k > 0.0
    ensures Shared(k * a + d, k * w, k * b + d, k * v) == k * Shared(a, w, b, v)
  {
    var lo, hi := Max(a, b), Min(a + w, b + v);
    MinMaxScale(k, a, b);
    MinMaxScale(k, a + w, b + v);
    assert k * (a + w) == k * a + k * w && k * (b + v) == k * b + k * v;
    assert Max(k * a + d, k * b + d) == k * lo + d;
    assert Min(k * a + d + k * w, k * b + d + k * v) == k * hi + d;
    assert k * (hi - lo) == k * hi - k * lo;
  }

  lemma AreaScales(kx: real, ky: real, w: real, h: real)
    ensures (kx * w) * (ky * h) == (kx * ky) * (w * h)
  {
    assert (kx * w) * (ky * h) == kx * (w * (ky * h)) == kx * (ky * (w * h));
  }

  lemma CommonFactor(k: real, i: real, u: real)
    requires k > 0.0 && u > 0.0
    ensures k * u > 0.0 && (k * i) / (k * u) == i / u
  {
    var q := i / u;
    assert q * u == i;
    assert q * (k * u) == k * i;
  }

  lemma PositiveScale(k: real, a: real)
    requires k > 0.0
    ensures k * a > 0.0 <==> a > 0.0
  {
    ScaleKeepsOrder(k, 0.0, a);
  }

  /** `c` is `a` and `d` is `b` in other coordinates. */
  predicate AreMapped(a: Box, b: Box, c: Box, d: Box, dx: real, dy: real, kx: real, ky: real) {
    && kx > 0.0 && ky > 0.0 && |a| >= 4 && |b| >= 4
    && c == Mapped(a, dx, dy, kx, ky) && d == Mapped(b, dx, dy, kx, ky)
  }

  lemma AxisScales(k: real, d: real, a: real, w: real, b: real, v: real, a': real, w': real, b': real, v': real)
    requires k > 0.0 && a' == k * a + d && w' == k * w && b' == k * b + d && v' == k * v
    ensures Shared(a', w', b', v') == k * Shared(a, w, b, v)
  {
    SharedScales(k, d, a, w, b, v);
  }

  lemma MappedShares(a: Box, b: Box, c: Box, d: Box, dx: real, dy: real, kx: real, ky: real)
    requires AreMapped(a, b, c, d, dx, dy, kx, ky)
    ensures Scaled(a, c, kx, ky) && Scaled(b, d, kx, ky) && Scaled(Meet(a, b), Meet(c, d), kx, ky)
  {
    AxisScales(kx, dx, a[0], a[2], b[0], b[2], c[0], c[2], d[0], d[2]);
    AxisScales(ky, dy, a[1], a[3], b[1], b[3], c[1], c[3], d[1], d[3]);
  }

  lemma SidesScale(kx: real, ky: real, a: Box, c: Box)
    requires kx > 0.0 && ky > 0.0 && Scaled(a, c, kx, ky)
    ensures Valid(c) <==> Valid(a)
    ensures Valid(a) ==> Area(c) == Size(kx, ky) * Area(a)
  {
    PositiveScale(kx, a[2]);
    PositiveScale(ky, a[3]);
    AreaScales(kx, ky, a[2], a[3]);
  }

  /** The overlap does not depend on the page's origin or on its resolution in either direction. */
  lemma CoordinatesDoNotMatter(a: Box, b: Box, dx: real, dy: real, kx: real, ky: real)
    requires |a| >= 4 && |b| >= 4 && kx > 0.0 && ky > 0.0
    ensures BboxIou(Mapped(a, dx, dy, kx, ky), Mapped(b, dx, dy, kx, ky)) == BboxIou(a, b)
  {
    var c, d := Mapped(a, dx, dy, kx, ky), Mapped(b, dx, dy, kx, ky);
    MappedShares(a, b, c, d, dx, dy, kx, ky);
    ScaledMeets(a, b, c, d, kx, ky);
    if Meets(a, b) { SameOverUnion(a, b, c, d, kx, ky); }
    SameIou(a, b, c, d);
  }

  predicate Scaled(a: Box, c: Box, kx: real, ky: real) {
    |a| >= 4 && |c| >= 4 && c[2] == kx * a[2] && c[3] == ky * a[3]
  }

  lemma ScaledMeets(a: Box, b: Box, c: Box, d: Box, kx: real, ky: real)
    requires kx > 0.0 && ky > 0.0 && Scaled(a, c, kx, ky) && Scaled(b, d, kx, ky) && Scaled(Meet(a, b), Meet(c, d), kx, ky)
    ensures Meets(a, b) <==> Meets(c, d)
  {
    SidesScale(kx, ky, a, c);
    SidesScale(kx, ky, b, d);
    SidesScale(kx, ky, Meet(a, b), Meet(c, d));
  }

  lemma ScaledArea(a: Box, c: Box, kx: real, ky: real, k: real)
    requires kx > 0.0 && ky > 0.0 && k == Size(kx, ky) && Scaled(a, c, kx, ky) && Valid(a) && Valid(c)
    ensures k > 0.0 && Area(c) == k * Area(a)
  {
    SidesScale(kx, ky, a, c);
    PositiveScale(kx, ky);
  }

  lemma ScaledAlike(a: Box, b: Box, c: Box, d: Box, m: Box, n: Box, k: real)
    requires Valid(a) && Valid(b) && Valid(c) && Valid(d) && Valid(m) && Valid(n)
    requires k > 0.0 && Area(c) == k * Area(a) && Area(d) == k * Area(b) && Area(n) == k * Area(m)
    ensures OverUnion(Area(m), Area(a), Area(b)) == OverUnion(Area(n), Area(c), Area(d))
  {
    SameRatio(k, Area(m), Area(a), Area(b), Area(n), Area(c), Area(d));
  }

  lemma SameOverUnion(a: Box, b: Box, c: Box, d: Box, kx: real, ky: real)
    requires kx > 0.0 && ky > 0.0 && Scaled(a, c, kx, ky) && Scaled(b, d, kx, ky) && Scaled(Meet(a, b), Meet(c, d), kx, ky)
    requires Meets(a, b) && Meets(c, d)
    ensures OverUnion(Area(Meet(a, b)), Area(a), Area(b)) == OverUnion(Area(Meet(c, d)), Area(c), Area(d))
  {
    var k := Size(kx, ky);
    ScaledArea(a, c, kx, ky, k);
    ScaledArea(b, d, kx, ky, k);
    ScaledArea(Meet(a, b), Meet(c, d), kx, ky, k);
    ScaledAlike(a, b, c, d, Meet(a, b), Meet(c, d), k);
  }

  lemma SameIou(a: Box, b: Box, c: Box, d: Box)
    requires Meets(a, b) <==> Meets(c, d)
    requires Meets(a, b) ==>
               OverUnion(Area(Meet(a, b)), Area(a), Area(b)) == OverUnion(Area(Meet(c, d)), Area(c), Area(d))
    ensures BboxIou(c, d) == BboxIou(a, b)
  {
    IouIsRatio(a, b);
    IouIsRatio(c, d);
  }

  lemma SameRatio(k: real, i: real, p: real, q: real, i': real, p': real, q': real)
    requires k > 0.0 && i' == k * i && p' == k * p && q' == k * q
    ensures OverUnion(i', p', q') == OverUnion(i, p, q)
  {
    assert k * (p + q - i) == p' + q' - i';
    PositiveScale(k, p + q - i);
    if p + q - i > 0.0 { CommonFactor(k, i, p + q - i); }
  }
}
