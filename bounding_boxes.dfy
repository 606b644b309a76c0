/**
 * `compute_bounding_boxes`: one row-major scan of the decoded pick image that
 * keeps, per object identifier, the inclusive box spanned by the opaque
 * pixels of that identifier's colour.  The image is the decoded RGBA grid
 * (`img[x, y]`, width `img.Length0`, height `img.Length1`); decoding itself
 * is not part of this model.
 */
module BoundingBoxes {
  import opened ColourId

  /** `[min_x, min_y, max_x, max_y]`, all bounds inclusive. */
  datatype BBox = BBox(minX: nat, minY: nat, maxX: nat, maxY: nat)

  /** The dictionary the source returns. */
  datatype Analysis = Analysis(imageWidth: nat, imageHeight: nat, bboxes: map<string, BBox>)

  /** Any alpha other than 0 counts as opaque. */
  predicate Opaque(p: Pixel)
  {
    p.a != 0
  }

  predicate InBox(b: BBox, x: int, y: int)
  {
    b.minX <= x <= b.maxX && b.minY <= y <= b.maxY
  }

  /** `outer` contains every point `inner` contains. */
  predicate Encloses(outer: BBox, inner: BBox)
  {
    outer.minX <= inner.minX && inner.maxX <= outer.maxX &&
    outer.minY <= inner.minY && inner.maxY <= outer.maxY
  }

  /** A non-empty box lying inside a `width` by `height` image. */
  predicate WithinImage(b: BBox, width: nat, height: nat)
  {
    b.minX <= b.maxX < width && b.minY <= b.maxY < height
  }

  /** The box that a further pixel at (x, y) turns `b` into. */
  function Widen(b: BBox, x: nat, y: nat): BBox
  {
    BBox(if x < b.minX then x else b.minX, if y < b.minY then y else b.minY,
         if x > b.maxX then x else b.maxX, if y > b.maxY then y else b.maxY)
  }

  /**
   * Widening is the least enlargement: the result contains `b` and (x, y),
   * and so does any box `c` only if it contains the result.
   */
  lemma WidenIsSmallest(b: BBox, x: nat, y: nat, c: BBox)
    ensures InBox(Widen(b, x, y), x, y) && Encloses(Widen(b, x, y), b)
    ensures Encloses(c, b) && InBox(c, x, y) <==> Encloses(c, Widen(b, x, y))
  {
  }

  /** The boxes after one more pixel `p` at (x, y) has been looked at. */
  function Step(m: map<string, BBox>, p: Pixel, x: nat, y: nat): map<string, BBox>
  {
    if !Opaque(p) then m
    else
      var id := PixelId(p);
      if id in m then m[id := Widen(m[id], x, y)] else m[id := BBox(x, y, x, y)]
  }

  /** Pixel (px, py) comes before position (x, y) in row-major order. */
  ghost predicate Scanned(img: array2<Pixel>, y: int, x: int, px: int, py: int)
  {
    0 <= px < img.Length0 && 0 <= py < img.Length1 && (py < y || (py == y && px < x))
  }

  /** Pixel (px, py) has been scanned, is opaque and carries identifier `id`. */
  ghost predicate Marks(img: array2<Pixel>, y: int, x: int, id: string, px: int, py: int)
    reads img
  {
    Scanned(img, y, x, px, py) && Opaque(img[px, py]) && PixelId(img[px, py]) == id
  }

  /** Each bound of `b` is reached by some scanned pixel of `id`. */
  ghost predicate Attained(img: array2<Pixel>, y: int, x: int, id: string, b: BBox)
    reads img
  {
    (exists py :: Marks(img, y, x, id, b.minX, py)) &&
    (exists px :: Marks(img, y, x, id, px, b.minY)) &&
    (exists py :: Marks(img, y, x, id, b.maxX, py)) &&
    (exists px :: Marks(img, y, x, id, px, b.maxY))
  }

  /** Every opaque pixel scanned before (x, y) lies in the box of its identifier. */
  ghost predicate Covers(img: array2<Pixel>, y: int, x: int, m: map<string, BBox>)
    reads img
  {
    forall id, px, py {:trigger Marks(img, y, x, id, px, py)} ::
      Marks(img, y, x, id, px, py) ==> id in m && InBox(m[id], px, py)
  }

  /** Every bound of every box is reached by a pixel scanned before (x, y). */
  ghost predicate AllAttained(img: array2<Pixel>, y: int, x: int, m: map<string, BBox>)
    reads img
  {
    forall id :: id in m ==> Attained(img, y, x, id, m[id])
  }

  /**
   * `m` holds exactly the identifiers of the opaque pixels scanned before
   * (x, y), and each box is the min/max of those pixels' coordinates: every
   * such pixel lies in the box and every bound is reached by one of them.
   */
  ghost predicate BoxesOf(img: array2<Pixel>, y: int, x: int, m: map<string, BBox>)
    reads img
  {
    Covers(img, y, x, m) && AllAttained(img, y, x, m)
  }

  /** `m` is the box map of the whole image. */
  ghost predicate IsBoxMap(img: array2<Pixel>, m: map<string, BBox>)
    reads img
  {
    BoxesOf(img, img.Length1, 0, m)
  }

  lemma MarksStep(img: array2<Pixel>, y: int, x: int, id: string, px: int, py: int)
    requires 0 <= x < img.Length0 && 0 <= y < img.Length1
    ensures Marks(img, y, x + 1, id, px, py) <==>
      Marks(img, y, x, id, px, py) ||
      (px == x && py == y && Opaque(img[x, y]) && PixelId(img[x, y]) == id)
  {
  }

  /** Position (y, x) of the scan comes no later than (y2, x2). */
  predicate NotAfter(y: int, x: int, y2: int, x2: int)
  {
    y < y2 || (y == y2 && x <= x2)
  }

  /** Bounds reached by the pixels scanned so far stay reached as the scan goes on. */
  lemma AttainedLater(img: array2<Pixel>, y: int, x: int, y2: int, x2: int, id: string, b: BBox)
    requires NotAfter(y, x, y2, x2)
    requires Attained(img, y, x, id, b)
    ensures Attained(img, y2, x2, id, b)
  {
    var p1 :| Marks(img, y, x, id, b.minX, p1);
    var p2 :| Marks(img, y, x, id, p2, b.minY);
    var p3 :| Marks(img, y, x, id, b.maxX, p3);
    var p4 :| Marks(img, y, x, id, p4, b.maxY);
    assert Marks(img, y2, x2, id, b.minX, p1);
    assert Marks(img, y2, x2, id, p2, b.minY);
    assert Marks(img, y2, x2, id, b.maxX, p3);
    assert Marks(img, y2, x2, id, p4, b.maxY);
  }

  /** Widening by a pixel of `id` at (x, y) keeps every bound reached. */
  lemma AttainedWiden(img: array2<Pixel>, y: int, x: int, id: string, b: BBox)
    requires 0 <= x < img.Length0 && 0 <= y < img.Length1
    requires Opaque(img[x, y]) && PixelId(img[x, y]) == id
    requires Attained(img, y, x, id, b)
    ensures Attained(img, y, x + 1, id, Widen(b, x, y))
  {
    var next := x + 1;
    assert Marks(img, y, next, id, x, y);
    AttainedLater(img, y, x, y, next, id, b);
  }

  /** A first pixel of `id` at (x, y) reaches every bound of [x, y, x, y]. */
  lemma AttainedFirst(img: array2<Pixel>, y: int, x: int, id: string)
    requires 0 <= x < img.Length0 && 0 <= y < img.Length1
    requires Opaque(img[x, y]) && PixelId(img[x, y]) == id
    ensures Attained(img, y, x + 1, id, BBox(x, y, x, y))
  {
    var next := x + 1;
    assert Marks(img, y, next, id, x, y);
  }

  /** A pixel scanned up to and including (x, y) lies in its box after the step. */
  lemma CoveredStep(img: array2<Pixel>, y: int, x: int, m: map<string, BBox>,
                    id: string, px: int, py: int)
    requires 0 <= x < img.Length0 && 0 <= y < img.Length1
    requires Covers(img, y, x, m)
    requires Marks(img, y, x + 1, id, px, py)
    ensures var m' := Step(m, img[x, y], x, y); id in m' && InBox(m'[id], px, py)
  {
    MarksStep(img, y, x, id, px, py);
    if Marks(img, y, x, id, px, py) {
      assert id in m && InBox(m[id], px, py);
    }
  }

  /** Every box after the step still has all its bounds reached. */
  lemma AttainedStep(img: array2<Pixel>, y: int, x: int, m: map<string, BBox>, id: string)
    requires 0 <= x < img.Length0 && 0 <= y < img.Length1
    requires AllAttained(img, y, x, m)
    requires id in Step(m, img[x, y], x, y)
    ensures Attained(img, y, x + 1, id, Step(m, img[x, y], x, y)[id])
  {
    var p := img[x, y];
    if Opaque(p) && id == PixelId(p) {
      if id in m {
        AttainedWiden(img, y, x, id, m[id]);
      } else {
        AttainedFirst(img, y, x, id);
      }
    } else {
      var next := x + 1;
      AttainedLater(img, y, x, y, next, id, m[id]);
    }
  }

  /** Looking at the pixel at (x, y) extends the invariant by that pixel. */
  lemma ScanStep(img: array2<Pixel>, y: int, x: int, m: map<string, BBox>)
    requires 0 <= x < img.Length0 && 0 <= y < img.Length1
    requires BoxesOf(img, y, x, m)
    ensures BoxesOf(img, y, x + 1, Step(m, img[x, y], x, y))
  {
    var m' := Step(m, img[x, y], x, y);
    var next := x + 1;
    forall id, px, py | Marks(img, y, next, id, px, py)
      ensures id in m' && InBox(m'[id], px, py)
    {
      CoveredStep(img, y, x, m, id, px, py);
    }
    forall id | id in m'
      ensures Attained(img, y, next, id, m'[id])
    {
      AttainedStep(img, y, x, m, id);
    }
  }

  /** Finishing row y is the same as standing at the start of row y + 1. */
  lemma RowDone(img: array2<Pixel>, y: int, m: map<string, BBox>)
    requires 0 <= y < img.Length1
    requires BoxesOf(img, y, img.Length0, m)
    ensures BoxesOf(img, y + 1, 0, m)
  {
    var w := img.Length0;
    var next := y + 1;
    forall id, px, py | Marks(img, next, 0, id, px, py)
      ensures id in m && InBox(m[id], px, py)
    {
      assert Marks(img, y, w, id, px, py);
    }
    forall id | id in m
      ensures Attained(img, next, 0, id, m[id])
    {
      AttainedLater(img, y, w, next, 0, id, m[id]);
    }
  }

  /** (x, y) is a position of the row-major scan, from (0, 0) to (0, height). */
  predicate Position(img: array2<Pixel>, y: nat, x: nat)
  {
    (y < img.Length1 && x <= img.Length0) || (y == img.Length1 && x == 0)
  }

  /** The boxes after the row-major scan has looked at every pixel before (x, y). */
  ghost function ScanTo(img: array2<Pixel>, y: nat, x: nat): map<string, BBox>
    requires Position(img, y, x)
    reads img
    decreases y, x
  {
    if x > 0 then Step(ScanTo(img, y, x - 1), img[x - 1, y], x - 1, y)
    else if y > 0 then ScanTo(img, y - 1, img.Length0)
    else map[]
  }

  /** The scan of the whole image. */
  ghost function Scan(img: array2<Pixel>): map<string, BBox>
    reads img
  {
    ScanTo(img, img.Length1, 0)
  }

  /** The scan reaches the min/max characterisation at every position. */
  lemma {:induction false} ScanToBoxes(img: array2<Pixel>, y: nat, x: nat)
    requires Position(img, y, x)
    ensures BoxesOf(img, y, x, ScanTo(img, y, x))
    decreases y, x
  {
    if x > 0 {
      var x0 := x - 1;
      ScanToBoxes(img, y, x0);
      ScanStepTo(img, y, x0);
    } else if y > 0 {
      var y0 := y - 1;
      ScanToBoxes(img, y0, img.Length0);
      RowDoneTo(img, y0);
    }
  }

  lemma ScanStepTo(img: array2<Pixel>, y: nat, x: nat)
    requires y < img.Length1 && x < img.Length0
    requires BoxesOf(img, y, x, ScanTo(img, y, x))
    ensures BoxesOf(img, y, x + 1, ScanTo(img, y, x + 1))
  {
    ScanStep(img, y, x, ScanTo(img, y, x));
  }

  lemma RowDoneTo(img: array2<Pixel>, y: nat)
    requires y < img.Length1
    requires BoxesOf(img, y, img.Length0, ScanTo(img, y, img.Length0))
    ensures BoxesOf(img, y + 1, 0, ScanTo(img, y + 1, 0))
  {
    RowDone(img, y, ScanTo(img, y, img.Length0));
  }

  /**
   * Each box of a box map lies inside the image and is non-empty:
   * min_x <= max_x < width and min_y <= max_y < height.
   */
  lemma BoxWithinImage(img: array2<Pixel>, m: map<string, BBox>, id: string)
    requires IsBoxMap(img, m) && id in m
    ensures WithinImage(m[id], img.Length0, img.Length1)
  {
    var h := img.Length1;
    var b := m[id];
    assert Attained(img, h, 0, id, b);
    var p1 :| Marks(img, h, 0, id, b.minX, p1);
    var p2 :| Marks(img, h, 0, id, p2, b.minY);
    var p3 :| Marks(img, h, 0, id, b.maxX, p3);
    var p4 :| Marks(img, h, 0, id, p4, b.maxY);
    assert InBox(b, b.minX, p1) && InBox(b, p2, b.minY);
  }

  /** An identifier has a box exactly when some opaque pixel of the image carries it. */
  lemma BoxMapKeys(img: array2<Pixel>, m: map<string, BBox>, id: string)
    requires IsBoxMap(img, m)
    ensures id in m <==> exists px, py :: Marks(img, img.Length1, 0, id, px, py)
  {
    if id in m {
      var h := img.Length1;
      assert Attained(img, h, 0, id, m[id]);
      var p1 :| Marks(img, h, 0, id, m[id].minX, p1);
    }
  }

  /** A fully transparent image has no boxes at all. */
  lemma TransparentImageHasNoBoxes(img: array2<Pixel>, m: map<string, BBox>)
    requires forall x, y :: 0 <= x < img.Length0 && 0 <= y < img.Length1 ==> !Opaque(img[x, y])
    requires IsBoxMap(img, m)
    ensures m == map[]
  {
    forall id ensures id !in m {
      BoxMapKeys(img, m, id);
    }
  }

  /** One box determines the other when both are the box of `id` in a box map. */
  lemma SameBox(img: array2<Pixel>, m1: map<string, BBox>, m2: map<string, BBox>, id: string)
    requires IsBoxMap(img, m1) && IsBoxMap(img, m2) && id in m1
    ensures id in m2 && Encloses(m2[id], m1[id])
  {
    var h := img.Length1;
    var b := m1[id];
    assert Attained(img, h, 0, id, b);
    var p1 :| Marks(img, h, 0, id, b.minX, p1);
    var p2 :| Marks(img, h, 0, id, p2, b.minY);
    var p3 :| Marks(img, h, 0, id, b.maxX, p3);
    var p4 :| Marks(img, h, 0, id, p4, b.maxY);
    assert id in m2 && InBox(m2[id], b.minX, p1);
    assert InBox(m2[id], p2, b.minY) && InBox(m2[id], b.maxX, p3) && InBox(m2[id], p4, b.maxY);
  }

  /** The box map of an image is unique, so the analysis is deterministic. */
  lemma BoxMapUnique(img: array2<Pixel>, m1: map<string, BBox>, m2: map<string, BBox>)
    requires IsBoxMap(img, m1) && IsBoxMap(img, m2)
    ensures m1 == m2
  {
    forall id | id in m1 ensures id in m2 && m2[id] == m1[id] {
      SameBox(img, m1, m2, id);
      SameBox(img, m2, m1, id);
    }
    forall id | id in m2 ensures id in m1 {
      SameBox(img, m2, m1, id);
    }
  }

  /** The scan computes the box map: each box is the min/max of its identifier's opaque pixels. */
  lemma ScanIsBoxMap(img: array2<Pixel>)
    ensures IsBoxMap(img, Scan(img))
  {
    ScanToBoxes(img, img.Length1, 0);
  }

  /** Every cached identifier is the one computed afresh from the colour. */
  ghost predicate CacheAgrees(seenColors: map<Pixel, string>)
  {
    forall c {:trigger seenColors[c]} :: c in seenColors ==> seenColors[c] == PixelId(c)
  }

  /** The fold's step at an opaque pixel of identifier `id`: widen its box, or start one. */
  lemma ScanToOpaque(img: array2<Pixel>, y: nat, x: nat, id: string)
    requires y < img.Length1 && x < img.Length0
    requires Opaque(img[x, y]) && id == PixelId(img[x, y])
    ensures var m := ScanTo(img, y, x);
      ScanTo(img, y, x + 1) == if id in m then m[id := Widen(m[id], x, y)] else m[id := BBox(x, y, x, y)]
  {
  }

  /** The fold's step at a transparent pixel changes nothing. */
  lemma ScanToTransparent(img: array2<Pixel>, y: nat, x: nat)
    requires y < img.Length1 && x < img.Length0
    requires !Opaque(img[x, y])
    ensures ScanTo(img, y, x + 1) == ScanTo(img, y, x)
  {
  }

  /** The colour cache after one more pixel: opaque colours not yet cached are added. */
  function CacheStep(seenColors: map<Pixel, string>, p: Pixel): map<Pixel, string>
  {
    if !Opaque(p) || p in seenColors then seenColors else seenColors[p := PixelId(p)]
  }

  /** The colour cache after the row-major scan has looked at every pixel before (x, y). */
  ghost function CacheTo(img: array2<Pixel>, y: nat, x: nat): map<Pixel, string>
    requires Position(img, y, x)
    reads img
    decreases y, x
  {
    if x > 0 then CacheStep(CacheTo(img, y, x - 1), img[x - 1, y])
    else if y > 0 then CacheTo(img, y - 1, img.Length0)
    else map[]
  }

  /** A cache hit yields the identifier of the colour looked up. */
  lemma CacheToHit(img: array2<Pixel>, y: nat, x: nat, c: Pixel)
    requires Position(img, y, x)
    requires c in CacheTo(img, y, x)
    ensures CacheTo(img, y, x)[c] == PixelId(c)
  {
    CacheToAgrees(img, y, x);
  }

  /** The cache only ever holds the identifier computed afresh from the colour. */
  lemma {:induction false} CacheToAgrees(img: array2<Pixel>, y: nat, x: nat)
    requires Position(img, y, x)
    ensures CacheAgrees(CacheTo(img, y, x))
    decreases y, x
  {
    if x > 0 {
      var x0 := x - 1;
      CacheToAgrees(img, y, x0);
    } else if y > 0 {
      var y0 := y - 1;
      CacheToAgrees(img, y0, img.Length0);
    }
  }

  /**
   * The scan.  Transparent pixels are skipped; the colour cache `seenColors`
   * is keyed by the full RGBA pixel and, at every position, is the fold
   * `CacheTo`, which only holds identifiers computed afresh from the colour,
   * so it cannot change the result; each box is created at its identifier's
   * first opaque pixel and widened bound by bound.
   */
  method ComputeBoundingBoxes(img: array2<Pixel>) returns (result: Analysis)
    ensures result.imageWidth == img.Length0 && result.imageHeight == img.Length1
    ensures result.bboxes == Scan(img)
  {
    var imageWidth, imageHeight := img.Length0, img.Length1;
    var bboxes: map<string, BBox> := map[];
    var seenColors: map<Pixel, string> := map[];
    var y := 0;
    while y < imageHeight
      invariant 0 <= y <= imageHeight
      invariant bboxes == ScanTo(img, y, 0)
      invariant seenColors == CacheTo(img, y, 0)
    {
      var x := 0;
      while x < imageWidth
        invariant 0 <= x <= imageWidth
        invariant bboxes == ScanTo(img, y, x)
        invariant seenColors == CacheTo(img, y, x)
      {
        var currentColor := img[x, y];
        var r, g, b, a := currentColor.r, currentColor.g, currentColor.b, currentColor.a;
        if a != 0 {
          var identifyId;
          if currentColor in seenColors {
            CacheToHit(img, y, x, currentColor);
            identifyId := seenColors[currentColor];
          } else {
            identifyId := IdentifyId(r, g, b);
            seenColors := seenColors[currentColor := identifyId];
          }
          ScanToOpaque(img, y, x, identifyId);
          if identifyId in bboxes {
            var bbox := bboxes[identifyId];
            if x < bbox.minX { bbox := bbox.(minX := x); }
            if y < bbox.minY { bbox := bbox.(minY := y); }
            if x > bbox.maxX { bbox := bbox.(maxX := x); }
            if y > bbox.maxY { bbox := bbox.(maxY := y); }
            bboxes := bboxes[identifyId := bbox];
          } else {
            bboxes := bboxes[identifyId := BBox(x, y, x, y)];
          }
        } else {
          ScanToTransparent(img, y, x);
        }
        x := x + 1;
      }
      y := y + 1;
    }
    result := Analysis(imageWidth, imageHeight, bboxes);
  }
}
