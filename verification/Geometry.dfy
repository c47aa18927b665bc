/**
 Closed rings in the plane and the even-odd rule, and the one topological fact
 the cutline code leans on: inside a box no edge reaches, every point has the
 same answer.
 */
module Geometry {

  datatype Point = Point(x: real, y: real)

  datatype Segment = Segment(a: Point, b: Point) {
    function Left(): real { Least(a.x, b.x) }
    function Right(): real { Most(a.x, b.x) }
    function Top(): real { Least(a.y, b.y) }
    function Bottom(): real { Most(a.y, b.y) }
  }

  datatype Box = Box(left: real, top: real, right: real, bottom: real) {
    /** Strictly within the box, off its edges. */
    predicate Within(x: real, y: real) {
      left < x < right && top < y < bottom
    }
  }

  function Least(a: real, b: real): real {
    if a <= b then a else b
  }

  function Most(a: real, b: real): real {
    if a <= b then b else a
  }

  /** The segment passes from one side of the row to the other. */
  predicate Straddles(s: Segment, y: real) {
    (s.a.y > y) != (s.b.y > y)
  }

  /** Where a segment meets the row it straddles. */
  function CrossingAt(s: Segment, y: real): real
    requires Straddles(s, y)
  {
    s.a.x + (y - s.a.y) / (s.b.y - s.a.y) * (s.b.x - s.a.x)
  }

  /** The eastward ray from a point meets the segment. */
  predicate Crosses(s: Segment, x: real, y: real) {
    Straddles(s, y) && x < CrossingAt(s, y)
  }

  /** How many segments the eastward ray from a point meets. */
  function Crossings(segments: seq<Segment>, x: real, y: real): nat {
    if segments == [] then 0
    else Crossings(segments[..|segments| - 1], x, y) + if Crosses(segments[|segments| - 1], x, y) then 1 else 0
  }

  /** The even-odd rule. */
  predicate Inside(segments: seq<Segment>, x: real, y: real) {
    Crossings(segments, x, y) % 2 == 1
  }

  /** Over two lists of edges the even-odd rule is an exclusive or. */
  lemma {:induction false} InsideOfJoined(one: seq<Segment>, two: seq<Segment>, x: real, y: real)
    ensures Inside(one + two, x, y) == (Inside(one, x, y) != Inside(two, x, y))
  {
    if two == [] {
      assert one + two == one;
    } else {
      var n := |two| - 1;
      assert (one + two)[..|one| + n] == one + two[..n];
      InsideOfJoined(one, two[..n], x, y);
      InsideOfLast(one + two, x, y);
      InsideOfLast(two, x, y);
    }
  }

  lemma InsideOfLast(segments: seq<Segment>, x: real, y: real)
    requires segments != []
    ensures Inside(segments, x, y) ==
            (Inside(segments[..|segments| - 1], x, y) != Crosses(segments[|segments| - 1], x, y))
  {
  }

  /** Consecutive edges, each starting where the one before ends. */
  ghost predicate Chain(edges: seq<Segment>) {
    forall i :: 0 < i < |edges| ==> edges[i].a == edges[i - 1].b
  }

  /** A chain that comes back to where it started. */
  ghost predicate Loop(edges: seq<Segment>) {
    && Chain(edges)
    && (edges != [] ==> edges[0].a == edges[|edges| - 1].b)
  }

  ghost function Joined(loops: seq<seq<Segment>>): seq<Segment> {
    if loops == [] then [] else Joined(loops[..|loops| - 1]) + loops[|loops| - 1]
  }

  /** The edges are those of closed rings, one ring after another. */
  ghost predicate MadeOfLoops(segments: seq<Segment>) {
    exists loops :: segments == Joined(loops) && forall i :: 0 <= i < |loops| ==> Loop(loops[i])
  }

  /** The segment's bounding box reaches into the open box. */
  predicate Reaches(s: Segment, box: Box) {
    s.Right() > box.left && s.Left() < box.right && s.Bottom() > box.top && s.Top() < box.bottom
  }

  lemma TimesKeepsOrder(a: real, b: real, m: real)
    requires m != 0.0
    ensures a * m < b * m <==> if m > 0.0 then a < b else b < a
  {
    if a < b {
      assert m > 0.0 ==> (b - a) * m > 0.0;
      assert m < 0.0 ==> (b - a) * m < 0.0;
    } else if b < a {
      assert m > 0.0 ==> (a - b) * m > 0.0;
      assert m < 0.0 ==> (a - b) * m < 0.0;
    }
  }

  /**
   The ray meets the edge exactly where the edge passes its height with the point on its western side: to its
   left where it runs south, to its right where it runs north.
   */
  lemma CrossesWhereWestOf(s: Segment, x: real, y: real)
    ensures Crosses(s, x, y) <==>
              if s.a.y <= y < s.b.y then (x - s.a.x) * (s.b.y - s.a.y) < (y - s.a.y) * (s.b.x - s.a.x)
              else s.b.y <= y < s.a.y && (y - s.a.y) * (s.b.x - s.a.x) < (x - s.a.x) * (s.b.y - s.a.y)
  {
    if Straddles(s, y) {
      var h, w := s.b.y - s.a.y, s.b.x - s.a.x;
      var t := (y - s.a.y) / h;
      assert t * h == y - s.a.y;
      assert t * w * h == t * h * w;
      TimesKeepsOrder(x - s.a.x, t * w, h);
    }
  }

  /** A crossing lies between the two ends of its segment. */
  lemma CrossingIsBetween(s: Segment, y: real)
    requires Straddles(s, y)
    ensures s.Left() <= CrossingAt(s, y) <= s.Right()
    ensures s.Top() <= y <= s.Bottom() && s.Top() < s.Bottom()
  {
    var t := (y - s.a.y) / (s.b.y - s.a.y);
    assert t * (s.b.y - s.a.y) == y - s.a.y;
    assert 0.0 <= t <= 1.0 by {
      FractionIsProper(y - s.a.y, s.b.y - s.a.y, t);
    }
    var w := s.b.x - s.a.x;
    assert CrossingAt(s, y) == s.a.x + t * w;
    if w >= 0.0 {
      assert 0.0 <= t * w <= w;
    } else {
      assert w <= t * w <= 0.0;
    }
  }

  lemma FractionIsProper(a: real, b: real, t: real)
    requires b != 0.0 && t * b == a
    requires 0.0 <= a <= b || b <= a <= 0.0
    ensures 0.0 <= t <= 1.0
  {
  }

  /** Along a row of a box a segment does not reach, the ray meets it from every point or from none. */
  lemma SameAlongRow(s: Segment, box: Box, x: real, x': real, y: real)
    requires !Reaches(s, box) && box.Within(x, y) && box.Within(x', y)
    ensures Crosses(s, x, y) == Crosses(s, x', y)
  {
    if Straddles(s, y) {
      CrossingIsBetween(s, y);
    }
  }

  /** A corner that a sweep between two rows passes, east of x. */
  ghost predicate Passed(p: Point, x: real, y: real, y': real) {
    y < p.y <= y' && x < p.x
  }

  /** An edge that does not reach the box changes its answer between two rows exactly when one of its ends is passed. */
  lemma EdgeChanges(s: Segment, box: Box, x: real, y: real, y': real)
    requires !Reaches(s, box) && box.Within(x, y) && box.Within(x, y') && y <= y'
    ensures (Crosses(s, x, y) != Crosses(s, x, y')) == (Passed(s.a, x, y, y') != Passed(s.b, x, y, y'))
  {
    if Straddles(s, y) {
      CrossingIsBetween(s, y);
    }
    if Straddles(s, y') {
      CrossingIsBetween(s, y');
    }
  }

  /** Along a chain the changes telescope: only its two ends matter. */
  lemma {:induction false} ChainChanges(edges: seq<Segment>, box: Box, x: real, y: real, y': real)
    requires Chain(edges) && edges != []
    requires forall s :: s in edges ==> !Reaches(s, box)
    requires box.Within(x, y) && box.Within(x, y') && y <= y'
    ensures (Inside(edges, x, y) != Inside(edges, x, y')) ==
              (Passed(edges[0].a, x, y, y') != Passed(edges[|edges| - 1].b, x, y, y'))
  {
    var n := |edges| - 1;
    EdgeChanges(edges[n], box, x, y, y');
    InsideOfLast(edges, x, y);
    InsideOfLast(edges, x, y');
    if n > 0 {
      ChainChanges(edges[..n], box, x, y, y');
      assert edges[n].a == edges[n - 1].b;
    }
  }

  lemma {:induction false} LoopsDoNotChange(loops: seq<seq<Segment>>, box: Box, x: real, y: real, y': real)
    requires forall i :: 0 <= i < |loops| ==> Loop(loops[i])
    requires forall s :: s in Joined(loops) ==> !Reaches(s, box)
    requires box.Within(x, y) && box.Within(x, y') && y <= y'
    ensures Inside(Joined(loops), x, y) == Inside(Joined(loops), x, y')
  {
    if loops != [] {
      var n := |loops| - 1;
      var rest, last := Joined(loops[..n]), loops[n];
      assert forall s :: s in rest || s in last ==> s in rest + last;
      LoopsDoNotChange(loops[..n], box, x, y, y');
      InsideOfJoined(rest, last, x, y);
      InsideOfJoined(rest, last, x, y');
      if last != [] {
        ChainChanges(last, box, x, y, y');
      }
    }
  }

  lemma {:induction false} SameCountAlongRow(segments: seq<Segment>, box: Box, x: real, x': real, y: real)
    requires forall s :: s in segments ==> !Reaches(s, box)
    requires box.Within(x, y) && box.Within(x', y)
    ensures Crossings(segments, x, y) == Crossings(segments, x', y)
  {
    if segments != [] {
      var n := |segments| - 1;
      SameAlongRow(segments[n], box, x, x', y);
      SameCountAlongRow(segments[..n], box, x, x', y);
    }
  }

  /** Inside a box no edge of a closed shape reaches, the even-odd rule gives every point one answer. */
  lemma EmptyBoxHasOneAnswer(segments: seq<Segment>, box: Box, x: real, y: real, x': real, y': real)
    requires MadeOfLoops(segments)
    requires forall s :: s in segments ==> !Reaches(s, box)
    requires box.Within(x, y) && box.Within(x', y')
    ensures Inside(segments, x, y) == Inside(segments, x', y')
  {
    SameCountAlongRow(segments, box, x, x', y);
    var loops :| segments == Joined(loops) && forall i :: 0 <= i < |loops| ==> Loop(loops[i]);
    if y <= y' {
      LoopsDoNotChange(loops, box, x', y, y');
    } else {
      LoopsDoNotChange(loops, box, x', y', y);
    }
  }

  /** A row no segment straddles has nothing inside. */
  lemma {:induction false} NothingOnEmptyRow(segments: seq<Segment>, x: real, y: real)
    requires forall s :: s in segments ==> !Crosses(s, x, y)
    ensures Crossings(segments, x, y) == 0
  {
    if segments != [] {
      NothingOnEmptyRow(segments[..|segments| - 1], x, y);
    }
  }

  /** Every segment lies in the box. */
  ghost predicate Bounds(box: Box, segments: seq<Segment>) {
    forall s :: s in segments ==>
      box.left <= s.Left() && s.Right() <= box.right && box.top <= s.Top() && s.Bottom() <= box.bottom
  }

  /** A point off the bounding box of a closed shape is outside it. */
  lemma OutsideOfBounds(segments: seq<Segment>, bounds: Box, box: Box, x: real, y: real)
    requires MadeOfLoops(segments) && Bounds(bounds, segments) && box.Within(x, y)
    requires box.right <= bounds.left || box.left >= bounds.right || box.bottom <= bounds.top ||
             box.top >= bounds.bottom
    ensures !Inside(segments, x, y)
  {
    if box.right <= bounds.left {
      // Carried up past the shape without leaving the strip beside it, where the ray meets nothing.
      var above := Least(box.top, bounds.top) - 2.0;
      var strip := Box(box.left, above, box.right, box.bottom);
      EmptyBoxHasOneAnswer(segments, strip, x, y, x, above + 1.0);
      NothingOnEmptyRow(segments, x, above + 1.0);
    } else {
      forall s | s in segments
        ensures !Crosses(s, x, y)
      {
        if Straddles(s, y) {
          CrossingIsBetween(s, y);
        }
      }
      NothingOnEmptyRow(segments, x, y);
    }
  }
}
