/**
 A contour's geometry as it is written, and as it reads back under section 4.3 of the Mapbox Vector
 Tile Specification 2.1.
 */
module Contour {
  import opened Archive

  /** How numbers behave under the language's 32-bit operators. */
  function Int32(n: int): (r: int)
    ensures -0x8000_0000 <= r < 0x8000_0000
    ensures -0x8000_0000 <= n < 0x8000_0000 ==> r == n
  {
    var low := n % 0x1_0000_0000;
    if low < 0x8000_0000 then low else low - 0x1_0000_0000
  }

  /** Exclusive or with a number whose bits are all its sign: nothing, or every bit turned over. */
  function XorSign(n: int, sign: int): int {
    if sign < 0 then -n - 1 else n
  }

  const MOVE_TO: nat := 1
  const LINE_TO: nat := 2

  /** Three bits of id, and the rest a repeat count. */
  function Command(id: nat, count: nat): int {
    Int32(count * 8) + id % 8
  }

  function Zigzag(value: int): int {
    XorSign(Int32(Int32(value) * 2), Int32(value))
  }

  function Unzigzag(n: nat): int {
    if n % 2 == 0 then n / 2 else -(n / 2) - 1
  }

  /**
   How wide a reader's integers are. What is written as a negative number
   travels as 64 bits. The format's fields are 32 bits wide, and a reader of
   those keeps the low ones; one that keeps all 64 sees something else.
   */
  datatype Width = Narrow | Wide {
    function Modulus(): (m: int)
      ensures m > 0
    {
      if Narrow? then 0x1_0000_0000 else 0x1_0000_0000_0000_0000
    }

    function Received(n: int): nat {
      n % Modulus()
    }

    /** The steps that such a reader gets back: 32 bits of sign and size, or 31. */
    predicate Fits(delta: int) {
      if Narrow? then -0x8000_0000 <= delta < 0x8000_0000 else -0x4000_0000 <= delta < 0x4000_0000
    }

    /** And the repeat counts. */
    predicate Counts(count: nat) {
      count < if Narrow? then 0x2000_0000 else 0x1000_0000
    }
  }

  /** A reader of 32-bit fields gets every number back modulo their width. */
  lemma NarrowReads(value: int)
    ensures Unzigzag(Narrow.Received(Zigzag(value))) == Int32(value)
  {
    var v := Int32(value);
    if v < 0 {
      assert Narrow.Received(Zigzag(value)) == -2 * v - 1;
    } else {
      assert Narrow.Received(Zigzag(value)) == 2 * v;
    }
  }

  lemma SameLow(n: int, high: int)
    ensures Int32(n + high * 0x1_0000_0000) == Int32(n)
  {
    assert (n + high * 0x1_0000_0000) % 0x1_0000_0000 == n % 0x1_0000_0000;
  }

  /** One that keeps 64 bits is far off where anything went negative. */
  lemma FarOff(v: int)
    requires -0x8000_0000 <= v < 0x8000_0000 && !Wide.Fits(v)
    ensures Unzigzag(Wide.Received(Zigzag(v))) ==
            if v >= 0 then v - 0x8000_0000 + 0x8000_0000 * 0x1_0000_0000
              else v + 0x8000_0000 - 0x8000_0000 * 0x1_0000_0000
  {
    if v >= 0 {
      assert Zigzag(v) == 2 * v - 0x1_0000_0000;
      assert Wide.Received(Zigzag(v)) == 2 * v - 0x1_0000_0000 + 0x1_0000_0000_0000_0000;
    } else {
      assert Zigzag(v) == -2 * v - 0x1_0000_0000 - 1;
      assert Wide.Received(Zigzag(v)) == -2 * v - 0x1_0000_0000 - 1 + 0x1_0000_0000_0000_0000;
    }
  }

  lemma NearBy(v: int)
    requires Wide.Fits(v)
    ensures Unzigzag(Wide.Received(Zigzag(v))) == v
  {
    assert Wide.Received(Zigzag(v)) == if v >= 0 then 2 * v else -2 * v - 1;
  }

  /** So it gets the number that was meant exactly where nothing did. */
  lemma WideReads(value: int)
    ensures Unzigzag(Wide.Received(Zigzag(value))) == value <==> Wide.Fits(value)
  {
    var v := Int32(value);
    assert Zigzag(v) == Zigzag(value);
    if Wide.Fits(v) {
      NearBy(v);
    } else {
      FarOff(v);
      SameLow(v - 0x8000_0000, 0x8000_0000);
      SameLow(v + 0x8000_0000, -0x8000_0000);
    }
  }

  /** A step reads back as it was exactly when it fits. */
  lemma ZigzagReadsBack(value: int, width: Width)
    ensures Unzigzag(width.Received(Zigzag(value))) == value <==> width.Fits(value)
  {
    hide Unzigzag, Zigzag, Width.Received;
    if width.Narrow? {
      NarrowReads(value);
    } else {
      WideReads(value);
    }
  }

  /** What is kept of a count: its low bits, as a signed number. */
  function KeptCount(count: nat): int {
    var r := count % 0x2000_0000;
    if r < 0x1000_0000 then r else r - 0x2000_0000
  }

  lemma CommandIs(id: nat, count: nat)
    requires 0 < id < 8
    ensures Command(id, count) == 8 * KeptCount(count) + id
  {
    var r := count % 0x2000_0000;
    assert count * 8 == (count / 0x2000_0000) * 0x1_0000_0000 + r * 8;
    SameLow(r * 8, count / 0x2000_0000);
  }

  lemma ReceivedCommand(id: nat, kept: int, width: Width)
    requires 0 < id < 8 && -0x1000_0000 <= kept < 0x1000_0000
    ensures width.Received(8 * kept + id) % 8 == id
    ensures width.Received(8 * kept + id) / 8 == if kept >= 0 then kept else kept + width.Modulus() / 8
  {
    var all := if kept >= 0 then 8 * kept + id else 8 * (kept + width.Modulus() / 8) + id;
    assert width.Received(8 * kept + id) == all;
  }

  /**
   A command keeps its id, and reads back as it was exactly when its count fits. No list is longer than
   the language's arrays can be.
   */
  lemma CommandReadsBack(id: nat, count: nat, width: Width)
    requires 0 < id < 8 && count < 0x8000_0000
    ensures width.Received(Command(id, count)) % 8 == id
    ensures width.Received(Command(id, count)) / 8 == count <==> width.Counts(count)
  {
    hide Command, Width.Received;
    CommandIs(id, count);
    ReceivedCommand(id, KeptCount(count), width);
  }

  datatype Point = Point(x: int, y: int)

  const ORIGIN := Point(0, 0)

  /** A flat run of coordinates. */
  type Line = s: seq<real> | |s| % 2 == 0

  /** The nearest whole number, the greater of two. */
  function Round(v: real): (r: int)
    ensures -0.5 < r as real - v <= 0.5
  {
    (v + 0.5).Floor
  }

  function PointAt(line: Line, i: nat): Point
    requires i < |line| / 2
  {
    Point(Round(line[2 * i]), Round(line[2 * i + 1]))
  }

  /** A line in whole tile units. */
  function Rounded(line: Line): (points: seq<Point>)
    ensures |points| == |line| / 2 && forall i :: 0 <= i < |points| ==> points[i] == PointAt(line, i)
  {
    seq(|line| / 2, i requires 0 <= i < |line| / 2 => PointAt(line, i))
  }

  /** Where a walk of points stands. */
  function Last(points: seq<Point>, from: Point): Point {
    if points == [] then from else points[|points| - 1]
  }

  /** Points as a reader makes them of deltas: each moves on from the one before. */
  function Walked(ints: seq<nat>, from: Point): (points: seq<Point>)
    requires |ints| % 2 == 0
    ensures 2 * |points| == |ints|
  {
    if ints == [] then []
    else
      var n := |ints| - 2;
      var before := Walked(ints[..n], from);
      var at := Last(before, from);
      before + [Point(at.x + Unzigzag(ints[n]), at.y + Unzigzag(ints[n + 1]))]
  }

  /** The points a feature's geometry stands for, if it is made of whole commands. */
  function ReadFrom(ints: seq<nat>, from: Point): Option<seq<Point>>
    decreases |ints|
  {
    if ints == [] then Some([])
    else
      var id, count := ints[0] % 8, ints[0] / 8;
      if (id != MOVE_TO && id != LINE_TO) || count == 0 || |ints| < 1 + 2 * count then None
      else
        var points := Walked(ints[1..1 + 2 * count], from);
        var rest := ReadFrom(ints[1 + 2 * count..], Last(points, from));
        if rest.None? then None else Some(points + rest.value)
  }

  function ReceivedAll(ints: seq<int>, width: Width): (received: seq<nat>)
    ensures |received| == |ints| && forall i :: 0 <= i < |ints| ==> received[i] == width.Received(ints[i])
  {
    seq(|ints|, i requires 0 <= i < |ints| => width.Received(ints[i]))
  }

  function ReadGeometry(ints: seq<int>, width: Width): Option<seq<Point>> {
    ReadFrom(ReceivedAll(ints, width), ORIGIN)
  }

  /** Deltas as they are written: each from the point before it. */
  function Deltas(points: seq<Point>, from: Point): (ints: seq<int>)
    ensures |ints| == 2 * |points|
  {
    if points == [] then []
    else
      var n := |points| - 1;
      var at := Last(points[..n], from);
      Deltas(points[..n], from) + [Zigzag(points[n].x - at.x), Zigzag(points[n].y - at.y)]
  }

  predicate StepFits(at: Point, to: Point, width: Width) {
    width.Fits(to.x - at.x) && width.Fits(to.y - at.y)
  }

  /** No step along the points is too long. */
  ghost predicate StepsFit(points: seq<Point>, from: Point, width: Width) {
    forall i :: 0 <= i < |points| ==> StepFits(Last(points[..i], from), points[i], width)
  }

  lemma WalkOneMore(ints: seq<nat>, dx: nat, dy: nat, from: Point)
    requires |ints| % 2 == 0
    ensures var before := Walked(ints, from);
            var at := Last(before, from);
            Walked(ints + [dx, dy], from) == before + [Point(at.x + Unzigzag(dx), at.y + Unzigzag(dy))]
  {
    var all := ints + [dx, dy];
    var n := |all| - 2;
    assert all[..n] == ints && all[n] == dx && all[n + 1] == dy;
    hide Unzigzag, Last;
  }

  lemma LastDelta(points: seq<Point>, from: Point)
    requires points != []
    ensures var n := |points| - 1;
            var at := Last(points[..n], from);
            Deltas(points, from) == Deltas(points[..n], from) + [Zigzag(points[n].x - at.x), Zigzag(points[n].y - at.y)]
  {
    hide Zigzag;
  }

  lemma LastStep(points: seq<Point>, from: Point, width: Width)
    requires points != []
    ensures var n := |points| - 1;
            StepsFit(points, from, width) <==>
              StepsFit(points[..n], from, width) && StepFits(Last(points[..n], from), points[n], width)
  {
    var n := |points| - 1;
    assert forall i :: 0 <= i < n ==> points[..n][..i] == points[..i] && points[..n][i] == points[i];
    hide StepFits, Last;
    if StepsFit(points[..n], from, width) && StepFits(Last(points[..n], from), points[n], width) {
      forall i | 0 <= i < |points|
        ensures StepFits(Last(points[..i], from), points[i], width)
      {
        if i < n {
          assert StepFits(Last(points[..n][..i], from), points[..n][i], width);
        }
      }
    }
    if StepsFit(points, from, width) {
      forall i | 0 <= i < n
        ensures StepFits(Last(points[..n][..i], from), points[..n][i], width)
      {
        assert StepFits(Last(points[..i], from), points[i], width);
      }
    }
  }

  lemma ReceivedTogether(a: seq<int>, b: seq<int>, width: Width)
    ensures ReceivedAll(a + b, width) == ReceivedAll(a, width) + ReceivedAll(b, width)
  {
    hide Width.Received;
  }

  /** One more step reads back as it was exactly when it fits. */
  lemma StepReadsBack(ints: seq<nat>, at: Point, to: Point, from: Point, width: Width)
    requires |ints| % 2 == 0 && at == Last(Walked(ints, from), from)
    ensures var step := ReceivedAll([Zigzag(to.x - at.x), Zigzag(to.y - at.y)], width);
            Walked(ints + step, from) == Walked(ints, from) + [to] <==> StepFits(at, to, width)
  {
    var dx, dy := width.Received(Zigzag(to.x - at.x)), width.Received(Zigzag(to.y - at.y));
    assert ReceivedAll([Zigzag(to.x - at.x), Zigzag(to.y - at.y)], width) == [dx, dy];
    hide Walked, Zigzag, Unzigzag, Width.Received, Width.Fits, Last, ReceivedAll;
    ZigzagReadsBack(to.x - at.x, width);
    ZigzagReadsBack(to.y - at.y, width);
    WalkOneMore(ints, dx, dy, from);
    var walked := Point(at.x + Unzigzag(dx), at.y + Unzigzag(dy));
    assert (Walked(ints, from) + [walked])[|Walked(ints, from)|] == walked;
    assert (Walked(ints, from) + [to])[|Walked(ints, from)|] == to;
  }

  lemma NothingWalked(from: Point, width: Width)
    ensures Walked(ReceivedAll(Deltas([], from), width), from) == [] && StepsFit([], from, width)
  {
  }

  lemma WalkBegins(ints: seq<nat>, dx: nat, dy: nat, from: Point, points: seq<Point>, p: Point)
    requires |ints| == 2 * |points| && Walked(ints + [dx, dy], from) == points + [p]
    ensures Walked(ints, from) == points
  {
    hide Walked, Unzigzag;
    WalkOneMore(ints, dx, dy, from);
    assert (points + [p])[..|points|] == points && Walked(ints + [dx, dy], from)[..|points|] == Walked(ints, from);
  }

  /** Written as deltas and walked again, points come back exactly where every step fits. */
  lemma {:induction false} DeltasReadBack(points: seq<Point>, from: Point, width: Width)
    ensures Walked(ReceivedAll(Deltas(points, from), width), from) == points <==> StepsFit(points, from, width)
  {
    hide *;
    if points == [] {
      NothingWalked(from, width);
    } else {
      var n := |points| - 1;
      assert points == points[..n] + [points[n]];
      LastDelta(points, from);
      LastStep(points, from, width);
      DeltasReadBack(points[..n], from, width);
      var at := Last(points[..n], from);
      var step := [Zigzag(points[n].x - at.x), Zigzag(points[n].y - at.y)];
      ReceivedTogether(Deltas(points[..n], from), step, width);
      var ints, more := ReceivedAll(Deltas(points[..n], from), width), ReceivedAll(step, width);
      if Walked(ints + more, from) == points {
        assert more == [more[0], more[1]];
        WalkBegins(ints, more[0], more[1], from, points[..n], points[n]);
      }
      if Walked(ints, from) == points[..n] {
        StepReadsBack(ints, at, points[n], from, width);
      }
    }
  }

  /** A line's geometry: to its first point, and then along all the others. */
  function Geometry(points: seq<Point>): seq<int>
    requires |points| >= 2
  {
    [Command(MOVE_TO, 1)] + Deltas(points[..1], ORIGIN)
      + ([Command(LINE_TO, |points| - 1)] + Deltas(points[1..], points[0]))
  }

  /** What it takes for a line to read back: no step of it is too long, and there are not too many. */
  ghost predicate Readable(points: seq<Point>, width: Width)
    requires points != []
  {
    width.Counts(|points| - 1) && StepsFit(points[..1], ORIGIN, width) && StepsFit(points[1..], points[0], width)
  }

  lemma OneCommand(command: nat, deltas: seq<nat>, rest: seq<nat>, from: Point)
    requires command % 8 == MOVE_TO || command % 8 == LINE_TO
    requires command / 8 > 0 && |deltas| == 2 * (command / 8)
    ensures var points := Walked(deltas, from);
            var more := ReadFrom(rest, Last(points, from));
            ReadFrom([command] + deltas + rest, from) == if more.None? then None else Some(points + more.value)
  {
    var ints, count := [command] + deltas + rest, command / 8;
    assert ints[1..1 + 2 * count] == deltas && ints[1 + 2 * count..] == rest && ints[0] == command;
    hide Walked, Last;
  }

  /** Whatever is read, each command takes up room of its own. */
  lemma {:induction false} ReadIsShort(ints: seq<nat>, from: Point)
    requires ints != [] && ReadFrom(ints, from).Some?
    ensures 2 * |ReadFrom(ints, from).value| < |ints|
    decreases |ints|
  {
    var count := ints[0] / 8;
    var rest := ints[1 + 2 * count..];
    if rest != [] {
      ReadIsShort(rest, Last(Walked(ints[1..1 + 2 * count], from), from));
    }
    hide Walked, Last;
  }

  /** A command whose count is not what follows it is not read as all that follows it. */
  lemma WrongCountIsShort(command: nat, deltas: seq<nat>, from: Point)
    requires |deltas| % 2 == 0 && 2 * (command / 8) != |deltas|
    ensures var read := ReadFrom([command] + deltas, from); read.Some? ==> 2 * |read.value| < |deltas|
  {
    var ints, count := [command] + deltas, command / 8;
    assert ints[0] == command;
    if ReadFrom(ints, from).Some? {
      var rest := ints[1 + 2 * count..];
      ReadIsShort(rest, Last(Walked(ints[1..1 + 2 * count], from), from));
    }
    hide Walked, Last;
  }

  /** A geometry of two commands, as it is received. */
  function TwoCommands(n: nat, first: seq<nat>, rest: seq<nat>, width: Width): seq<nat> {
    [width.Received(Command(MOVE_TO, 1))] + first + ([width.Received(Command(LINE_TO, n))] + rest)
  }

  lemma LastOfOne(points: seq<Point>)
    requires |points| == 1
    ensures Last(points, ORIGIN) == points[0]
  {
  }

  lemma GeometryIs(points: seq<Point>, width: Width)
    requires |points| >= 2
    ensures ReadGeometry(Geometry(points), width) == ReadFrom(ReceivedAll(Geometry(points), width), ORIGIN)
    ensures ReceivedAll(Geometry(points), width) ==
            TwoCommands(|points| - 1, ReceivedAll(Deltas(points[..1], ORIGIN), width),
                        ReceivedAll(Deltas(points[1..], points[0]), width), width)
  {
    hide Deltas, Command, Width.Received, ReadFrom;
  }

  lemma ReadableIs(points: seq<Point>, width: Width)
    requires points != []
    ensures Readable(points, width) <==>
            width.Counts(|points| - 1) && StepsFit(points[..1], ORIGIN, width) &&
              StepsFit(points[1..], points[0], width)
  {
    hide StepsFit;
  }

  /** A command reads all that follows it where that is its count; otherwise it reads less, or nothing. */
  lemma CommandReads(command: nat, n: nat, deltas: seq<nat>, at: Point)
    requires command % 8 == LINE_TO && n > 0 && |deltas| == 2 * n
    ensures var read := ReadFrom([command] + deltas, at);
            if command / 8 == n then read == Some(Walked(deltas, at)) else read.Some? ==> |read.value| < n
  {
    hide ReadFrom, Walked, Last;
    if command / 8 == n {
      OneCommand(command, deltas, [], at);
      NothingMore(Last(Walked(deltas, at), at));
      assert [command] + deltas + [] == [command] + deltas && Walked(deltas, at) + [] == Walked(deltas, at);
    } else {
      WrongCountIsShort(command, deltas, at);
    }
  }

  lemma NothingMore(at: Point)
    ensures ReadFrom([], at) == Some([])
  {
  }

  lemma OneCounts(width: Width)
    ensures width.Counts(1)
  {
  }

  /**
   Two walks one after the other make the points exactly where the first makes the first of them and
   the second the others.
   */
  lemma JoinedAre(start: seq<Point>, more: Option<seq<Point>>, rest: seq<Point>, points: seq<Point>, whole: bool)
    requires |start| == 1 && 2 <= |points| && |rest| == |points| - 1
    requires if whole then more == Some(rest) else more.Some? ==> |more.value| < |points| - 1
    ensures more.Some? && start + more.value == points <==> whole && start == points[..1] && rest == points[1..]
  {
    if more.Some? {
      assert (start + more.value)[..1] == start && (start + more.value)[1..] == more.value;
      assert points == points[..1] + points[1..];
    }
  }

  /** What a reader makes of a line's two commands. */
  lemma CommandsAreRead(n: nat, first: seq<nat>, rest: seq<nat>, width: Width) returns (more: Option<seq<Point>>)
    requires 0 < n < 0x8000_0000 && |first| == 2 && |rest| == 2 * n
    ensures var start := Walked(first, ORIGIN);
            && ReadFrom(TwoCommands(n, first, rest, width), ORIGIN) ==
              (if more.None? then None else Some(start + more.value))
            && if width.Counts(n) then more == Some(Walked(rest, Last(start, ORIGIN))) else more.Some? ==>
              |more.value| < n
  {
    assert MOVE_TO == 1 && LINE_TO == 2;
    assert TwoCommands(n, first, rest, width) ==
           [width.Received(Command(MOVE_TO, 1))] + first + ([width.Received(Command(LINE_TO, n))] + rest);
    hide *;
    var at := Last(Walked(first, ORIGIN), ORIGIN);
    var move, line := width.Received(Command(MOVE_TO, 1)), width.Received(Command(LINE_TO, n));
    CommandReadsBack(MOVE_TO, 1, width);
    CommandReadsBack(LINE_TO, n, width);
    OneCounts(width);
    OneCommand(move, first, [line] + rest, ORIGIN);
    CommandReads(line, n, rest, at);
    more := ReadFrom([line] + rest, at);
  }

  lemma GeometryIsRead(points: seq<Point>, width: Width)
    returns (start: seq<Point>, more: Option<seq<Point>>, rest: seq<Point>)
    requires 2 <= |points| <= 0x8000_0000
    ensures start == Walked(ReceivedAll(Deltas(points[..1], ORIGIN), width), ORIGIN) && |start| == 1
    ensures rest == Walked(ReceivedAll(Deltas(points[1..], points[0]), width), start[0]) && |rest| == |points| - 1
    ensures ReadGeometry(Geometry(points), width) == if more.None? then None else Some(start + more.value)
    ensures if width.Counts(|points| - 1) then more == Some(rest) else more.Some? ==> |more.value| < |points| - 1
  {
    hide *;
    var first, others := ReceivedAll(Deltas(points[..1], ORIGIN), width),
      ReceivedAll(Deltas(points[1..], points[0]), width);
    start := Walked(first, ORIGIN);
    rest := Walked(others, start[0]);
    LastOfOne(start);
    GeometryIs(points, width);
    more := CommandsAreRead(|points| - 1, first, others, width);
  }

  /**
   Reading a line's geometry returns its points exactly where no step of it is too long, and there are
   not too many.
   */
  lemma GeometryReadsBack(points: seq<Point>, width: Width)
    requires 2 <= |points| <= 0x8000_0000
    ensures ReadGeometry(Geometry(points), width) == Some(points) <==> Readable(points, width)
  {
    hide *;
    var start, more, rest := GeometryIsRead(points, width);
    ReadableIs(points, width);
    JoinedAre(start, more, rest, points, width.Counts(|points| - 1));
    DeltasReadBack(points[..1], ORIGIN, width);
    DeltasReadBack(points[1..], points[0], width);
  }

  /** Writes a line's geometry: nothing where there are fewer than two points. */
  method WriteGeometry(line: Line) returns (out: Option<seq<int>>)
    ensures out == if |Rounded(line)| < 2 then None else Some(Geometry(Rounded(line)))
  {
    hide *;
    var count := |line| / 2;
    if count < 2 {
      return None;
    }
    StartsWriting(Rounded(line));
    var atX, atY := 0, 0;
    var ints: seq<int> := [];
    for i := 0 to count
      invariant Point(atX, atY) == Last(Rounded(line)[..i], ORIGIN) && ints == WrittenUpTo(Rounded(line), i)
    {
      var x, y := Round(line[2 * i]), Round(line[2 * i + 1]);
      WrittenNext(line, i, atX, atY);
      if i == 0 {
        ints := ints + [Command(MOVE_TO, 1), Zigzag(x - atX), Zigzag(y - atY)];
        ints := ints + [Command(LINE_TO, count - 1)];
      } else {
        ints := ints + [Zigzag(x - atX), Zigzag(y - atY)];
      }
      atX, atY := x, y;
    }
    out := Some(ints);
  }

  /** What has been written with only some of the points seen. */
  ghost function WrittenUpTo(points: seq<Point>, n: nat): seq<int>
    requires 2 <= |points| && n <= |points|
  {
    if n == 0 then []
    else
      [Command(MOVE_TO, 1)] + Deltas(points[..1], ORIGIN)
        + ([Command(LINE_TO, |points| - 1)] + Deltas(points[1..n], points[0]))
  }

  lemma StartsWriting(points: seq<Point>)
    requires 2 <= |points|
    ensures WrittenUpTo(points, 0) == [] && WrittenUpTo(points, |points|) == Geometry(points) &&
            Last(points[..0], ORIGIN) == Point(0, 0)
  {
    assert points[1..|points|] == points[1..];
    hide Deltas, Command;
  }

  lemma WrittenOneMore(points: seq<Point>, n: nat)
    requires 2 <= |points| && n < |points|
    ensures var at := Last(points[..n], ORIGIN);
            var dx, dy, before := Zigzag(points[n].x - at.x), Zigzag(points[n].y - at.y), WrittenUpTo(points, n);
            WrittenUpTo(points, n + 1) ==
            if n == 0 then before + [Command(MOVE_TO, 1), dx, dy] + [Command(LINE_TO, |points| - 1)]
              else before + [dx, dy]
    ensures Last(points[..n + 1], ORIGIN) == points[n]
  {
    if n == 0 {
      assert points[..1][..0] == [] && points[1..1] == [];
    } else {
      assert points[1..n + 1][..n - 1] == points[1..n] && points[1..n + 1][n - 1] == points[n];
      assert Last(points[1..n], points[0]) == Last(points[..n], ORIGIN);
    }
    hide Zigzag, Command;
  }

  lemma WrittenNext(line: Line, n: nat, atX: int, atY: int)
    requires 2 <= |line| / 2 && n < |line| / 2 && Point(atX, atY) == Last(Rounded(line)[..n], ORIGIN)
    ensures var dx, dy, before := Zigzag(Round(line[2 * n]) - atX), Zigzag(Round(line[2 * n + 1]) - atY),
            WrittenUpTo(Rounded(line), n);
            WrittenUpTo(Rounded(line), n + 1) ==
            if n == 0 then before + [Command(MOVE_TO, 1), dx, dy] + [Command(LINE_TO, |line| / 2 - 1)]
              else before + [dx, dy]
    ensures Last(Rounded(line)[..n + 1], ORIGIN) == Point(Round(line[2 * n]), Round(line[2 * n + 1]))
  {
    assert Rounded(line)[n] == Point(Round(line[2 * n]), Round(line[2 * n + 1]));
    hide *;
    WrittenOneMore(Rounded(line), n);
  }
}
