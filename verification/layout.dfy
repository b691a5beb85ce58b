/**
 * Layout rules of the editor: the 20-unit grid snap applied while dragging,
 * the bounding box of the diagram (`computeDiagramBounds`) and the
 * translation that centres the diagram on the stage (`centerDiagramOnStage`).
 */
module Layout {
  import opened Graph

  const GridSize: real := 20.0
  const DefaultPadding: real := 24.0

  /** `Math.round(v / GRID_SIZE) * GRID_SIZE`; `Math.round` rounds halves up. */
  function Snap(v: real): (r: real)
    ensures (r / GridSize).Floor as real * GridSize == r
    ensures v - GridSize / 2.0 < r <= v + GridSize / 2.0
  {
    (v / GridSize + 0.5).Floor as real * GridSize
  }

  /** A snapped coordinate is already on the grid. */
  lemma SnapIdempotent(v: real)
    ensures Snap(Snap(v)) == Snap(v)
  {
    var k := (v / GridSize + 0.5).Floor;
    var r := k as real * 20.0;
    assert Snap(v) == r;
    assert r / 20.0 == k as real;
    assert (k as real + 0.5).Floor == k;
  }

  function Min(a: real, b: real): real { if a <= b then a else b }
  function Max(a: real, b: real): real { if a >= b then a else b }

  /** The running `Math.min` of a non-empty list, left to right. */
  function SeqMin(s: seq<real>): real
    requires |s| > 0
  {
    if |s| == 1 then s[0] else Min(SeqMin(s[..|s| - 1]), s[|s| - 1])
  }

  function SeqMax(s: seq<real>): real
    requires |s| > 0
  {
    if |s| == 1 then s[0] else Max(SeqMax(s[..|s| - 1]), s[|s| - 1])
  }

  /** The minimum is below every element and is one of them. */
  lemma {:induction false} SeqMinIsLeast(s: seq<real>)
    requires |s| > 0
    ensures forall i :: 0 <= i < |s| ==> SeqMin(s) <= s[i]
    ensures exists i :: 0 <= i < |s| && SeqMin(s) == s[i]
  {
    if |s| > 1 {
      var t := s[..|s| - 1];
      SeqMinIsLeast(t);
      var j :| 0 <= j < |t| && SeqMin(t) == t[j];
      assert t[j] == s[j];
      assert forall i :: 0 <= i < |t| ==> t[i] == s[i];
      var w := if SeqMin(t) <= s[|s| - 1] then j else |s| - 1;
      assert SeqMin(s) == Min(SeqMin(t), s[|s| - 1]) == s[w];
    } else {
      assert SeqMin(s) == s[0];
    }
  }

  lemma {:induction false} SeqMaxIsGreatest(s: seq<real>)
    requires |s| > 0
    ensures forall i :: 0 <= i < |s| ==> s[i] <= SeqMax(s)
    ensures exists i :: 0 <= i < |s| && SeqMax(s) == s[i]
  {
    if |s| > 1 {
      var t := s[..|s| - 1];
      SeqMaxIsGreatest(t);
      var j :| 0 <= j < |t| && SeqMax(t) == t[j];
      assert t[j] == s[j];
      assert forall i :: 0 <= i < |t| ==> t[i] == s[i];
      var w := if SeqMax(t) >= s[|s| - 1] then j else |s| - 1;
      assert SeqMax(s) == Max(SeqMax(t), s[|s| - 1]) == s[w];
    } else {
      assert SeqMax(s) == s[0];
    }
  }

  function Shift(s: seq<real>, c: real): (r: seq<real>)
    ensures |r| == |s|
  {
    seq(|s|, i requires 0 <= i < |s| => s[i] + c)
  }

  lemma {:induction false} SeqMinShift(s: seq<real>, c: real)
    requires |s| > 0
    ensures SeqMin(Shift(s, c)) == SeqMin(s) + c
  {
    if |s| > 1 {
      assert Shift(s, c)[..|s| - 1] == Shift(s[..|s| - 1], c);
      SeqMinShift(s[..|s| - 1], c);
    }
  }

  lemma {:induction false} SeqMaxShift(s: seq<real>, c: real)
    requires |s| > 0
    ensures SeqMax(Shift(s, c)) == SeqMax(s) + c
  {
    if |s| > 1 {
      assert Shift(s, c)[..|s| - 1] == Shift(s[..|s| - 1], c);
      SeqMaxShift(s[..|s| - 1], c);
    }
  }

  function Lefts(gs: seq<Group>): (r: seq<real>)
    ensures |r| == |gs|
  {
    seq(|gs|, i requires 0 <= i < |gs| => gs[i].x)
  }

  function Rights(gs: seq<Group>): (r: seq<real>)
    ensures |r| == |gs|
  {
    seq(|gs|, i requires 0 <= i < |gs| => gs[i].x + NodeDims(gs[i].kind).w)
  }

  function Tops(gs: seq<Group>): (r: seq<real>)
    ensures |r| == |gs|
  {
    seq(|gs|, i requires 0 <= i < |gs| => gs[i].y)
  }

  function Bottoms(gs: seq<Group>): (r: seq<real>)
    ensures |r| == |gs|
  {
    seq(|gs|, i requires 0 <= i < |gs| => gs[i].y + NodeDims(gs[i].kind).h)
  }

  datatype Bounds = Bounds(minX: real, minY: real, width: real, height: real)

  /**
   * The box `computeDiagramBounds` reports: the zero box for an empty
   * diagram, and at least one node wide and one step high otherwise, so
   * centering goes ahead exactly when there is a node.
   */
  function DiagramBounds(gs: seq<Group>): (b: Bounds)
    ensures gs == [] ==> b == Bounds(0.0, 0.0, 0.0, 0.0)
    ensures gs != [] ==> b.width >= 140.0 && b.height >= 70.0
  {
    if gs == [] then Bounds(0.0, 0.0, 0.0, 0.0)
    else
      var minX := SeqMin(Lefts(gs));
      var minY := SeqMin(Tops(gs));
      SeqMinIsLeast(Lefts(gs));
      SeqMinIsLeast(Tops(gs));
      SeqMaxIsGreatest(Rights(gs));
      SeqMaxIsGreatest(Bottoms(gs));
      assert Lefts(gs)[0] == gs[0].x && Rights(gs)[0] == gs[0].x + NodeDims(gs[0].kind).w;
      assert Tops(gs)[0] == gs[0].y && Bottoms(gs)[0] == gs[0].y + NodeDims(gs[0].kind).h;
      Bounds(minX, minY, SeqMax(Rights(gs)) - minX, SeqMax(Bottoms(gs)) - minY)
  }

  /** One more node taken into the running extremes of `computeDiagramBounds`. */
  lemma BoundsPrefixStep(gs: seq<Group>, i: nat)
    requires 1 <= i < |gs|
    ensures SeqMin(Lefts(gs)[..i + 1]) == Min(SeqMin(Lefts(gs)[..i]), gs[i].x)
    ensures SeqMin(Tops(gs)[..i + 1]) == Min(SeqMin(Tops(gs)[..i]), gs[i].y)
    ensures SeqMax(Rights(gs)[..i + 1]) == Max(SeqMax(Rights(gs)[..i]), gs[i].x + NodeDims(gs[i].kind).w)
    ensures SeqMax(Bottoms(gs)[..i + 1]) == Max(SeqMax(Bottoms(gs)[..i]), gs[i].y + NodeDims(gs[i].kind).h)
  {
    assert Lefts(gs)[..i + 1][..i] == Lefts(gs)[..i];
    assert Tops(gs)[..i + 1][..i] == Tops(gs)[..i];
    assert Rights(gs)[..i + 1][..i] == Rights(gs)[..i];
    assert Bottoms(gs)[..i + 1][..i] == Bottoms(gs)[..i];
  }

  /**
   * The box of a non-empty diagram is the smallest one holding every node's
   * rectangle: each rectangle lies inside it and each of its four sides
   * touches some rectangle.
   */
  lemma DiagramBoundsTight(gs: seq<Group>)
    requires gs != []
    ensures var b := DiagramBounds(gs);
      && (forall i :: 0 <= i < |gs| ==>
            b.minX <= gs[i].x && gs[i].x + NodeDims(gs[i].kind).w <= b.minX + b.width
            && b.minY <= gs[i].y && gs[i].y + NodeDims(gs[i].kind).h <= b.minY + b.height)
      && (exists i :: 0 <= i < |gs| && gs[i].x == b.minX)
      && (exists i :: 0 <= i < |gs| && gs[i].y == b.minY)
      && (exists i :: 0 <= i < |gs| && gs[i].x + NodeDims(gs[i].kind).w == b.minX + b.width)
      && (exists i :: 0 <= i < |gs| && gs[i].y + NodeDims(gs[i].kind).h == b.minY + b.height)
  {
    SeqMinIsLeast(Lefts(gs));
    SeqMinIsLeast(Tops(gs));
    SeqMaxIsGreatest(Rights(gs));
    SeqMaxIsGreatest(Bottoms(gs));
    var b := DiagramBounds(gs);
    forall i | 0 <= i < |gs|
      ensures b.minX <= gs[i].x && gs[i].x + NodeDims(gs[i].kind).w <= b.minX + b.width
      ensures b.minY <= gs[i].y && gs[i].y + NodeDims(gs[i].kind).h <= b.minY + b.height
    {
      assert Lefts(gs)[i] == gs[i].x && Tops(gs)[i] == gs[i].y;
      assert Rights(gs)[i] == gs[i].x + NodeDims(gs[i].kind).w;
      assert Bottoms(gs)[i] == gs[i].y + NodeDims(gs[i].kind).h;
    }
    var i :| 0 <= i < |gs| && SeqMin(Lefts(gs)) == Lefts(gs)[i];
    assert gs[i].x == b.minX;
    var j :| 0 <= j < |gs| && SeqMin(Tops(gs)) == Tops(gs)[j];
    assert gs[j].y == b.minY;
    var k :| 0 <= k < |gs| && SeqMax(Rights(gs)) == Rights(gs)[k];
    assert gs[k].x + NodeDims(gs[k].kind).w == b.minX + b.width;
    var l :| 0 <= l < |gs| && SeqMax(Bottoms(gs)) == Bottoms(gs)[l];
    assert gs[l].y + NodeDims(gs[l].kind).h == b.minY + b.height;
  }

  /** Every node moved by the same offset. */
  function Translated(gs: seq<Group>, dx: real, dy: real): (r: seq<Group>)
    ensures |r| == |gs|
  {
    seq(|gs|, i requires 0 <= i < |gs| => gs[i].(x := gs[i].x + dx, y := gs[i].y + dy))
  }

  /** Translating the diagram translates its box and keeps its size. */
  lemma DiagramBoundsTranslate(gs: seq<Group>, dx: real, dy: real)
    requires gs != []
    ensures var b := DiagramBounds(gs);
      DiagramBounds(Translated(gs, dx, dy)) == Bounds(b.minX + dx, b.minY + dy, b.width, b.height)
  {
    var t := Translated(gs, dx, dy);
    assert Lefts(t) == Shift(Lefts(gs), dx);
    assert Rights(t) == Shift(Rights(gs), dx);
    assert Tops(t) == Shift(Tops(gs), dy);
    assert Bottoms(t) == Shift(Bottoms(gs), dy);
    SeqMinShift(Lefts(gs), dx);
    SeqMaxShift(Rights(gs), dx);
    SeqMinShift(Tops(gs), dy);
    SeqMaxShift(Bottoms(gs), dy);
  }

  /** Where the box's corner goes along one axis: centred in the stage, but never closer than `padding` to its edge. */
  function CenterTarget(extent: real, stageExtent: real, padding: real): (t: real)
    ensures t >= padding && t + t + extent >= stageExtent
    ensures t == padding || t + t + extent == stageExtent
  {
    Max(padding, (stageExtent - extent) / 2.0)
  }

  /** The positions `centerDiagramOnStage` leaves behind. */
  function Centered(gs: seq<Group>, stageW: real, stageH: real, padding: real): (r: seq<Group>)
    ensures SameKeys(gs, r)
    ensures forall i :: 0 <= i < |gs| ==> r[i] == gs[i].(x := r[i].x, y := r[i].y)
  {
    var b := DiagramBounds(gs);
    if b.width == 0.0 && b.height == 0.0 then gs
    else Translated(gs, CenterTarget(b.width, stageW, padding) - b.minX,
                        CenterTarget(b.height, stageH, padding) - b.minY)
  }

  /**
   * Centering moves every node by one common offset, so relative positions
   * are kept, and afterwards the diagram's top-left corner is at the centred
   * target, never closer than `padding` to the stage's top or left edge.
   */
  lemma CenteredPlacement(gs: seq<Group>, stageW: real, stageH: real, padding: real)
    requires gs != []
    ensures var b := DiagramBounds(gs);
      var c := Centered(gs, stageW, stageH, padding);
      && c == Translated(gs, CenterTarget(b.width, stageW, padding) - b.minX,
                             CenterTarget(b.height, stageH, padding) - b.minY)
      && DiagramBounds(c) == Bounds(CenterTarget(b.width, stageW, padding),
                                    CenterTarget(b.height, stageH, padding), b.width, b.height)
      && DiagramBounds(c).minX >= padding && DiagramBounds(c).minY >= padding
  {
    var b := DiagramBounds(gs);
    var dx, dy := CenterTarget(b.width, stageW, padding) - b.minX, CenterTarget(b.height, stageH, padding) - b.minY;
    assert Centered(gs, stageW, stageH, padding) == Translated(gs, dx, dy);
    DiagramBoundsTranslate(gs, dx, dy);
  }

  /** Centering twice with nothing in between moves nothing the second time. */
  lemma CenteredIdempotent(gs: seq<Group>, stageW: real, stageH: real, padding: real)
    ensures Centered(Centered(gs, stageW, stageH, padding), stageW, stageH, padding)
         == Centered(gs, stageW, stageH, padding)
  {
    if gs != [] {
      var c := Centered(gs, stageW, stageH, padding);
      CenteredPlacement(gs, stageW, stageH, padding);
      assert Translated(c, 0.0, 0.0) == c;
    }
  }
}
