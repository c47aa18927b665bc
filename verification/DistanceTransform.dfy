/**
 The exact Euclidean distance transform behind a feathered edge: the lower
 envelope of Felzenszwalb and Huttenlocher along one line, run over the rows and
 then over the columns of a coverage mask.
 */
module DistanceTransform {

  /** Stands in for infinity in the envelope's input. */
  const FAR := 1000000000000.0

  /** A break point of the envelope: a number, or one of the two infinities. */
  datatype Bound = NegInf | Fin(at: real) | PosInf {
    predicate AtMost(x: real) {
      NegInf? || (Fin? && at <= x)
    }

    predicate AtLeast(x: real) {
      PosInf? || (Fin? && x <= at)
    }
  }

  function Square(x: real): (r: real)
    ensures 0.0 <= r
  {
    x * x
  }

  /** The parabola rooted at position p, at x. */
  function Parabola(f: seq<real>, p: nat, x: real): real
    requires p < |f|
  {
    Square(x - p as real) + f[p]
  }

  /** Where the parabolas rooted at p and q meet. */
  function Meet(f: seq<real>, p: nat, q: nat): real
    requires p < q < |f|
  {
    (f[q] + (q * q) as real - (f[p] + (p * p) as real)) / (2 * q - 2 * p) as real
  }

  /** Before the meeting point the earlier parabola is the lower one, after it the later. */
  lemma MeetOrders(f: seq<real>, p: nat, q: nat, x: real)
    requires p < q < |f|
    ensures Parabola(f, q, x) <= Parabola(f, p, x) <==> Meet(f, p, q) <= x
    ensures Parabola(f, p, x) <= Parabola(f, q, x) <==> x <= Meet(f, p, q)
  {
    var s, w := Meet(f, p, q), (2 * q - 2 * p) as real;
    var a, b := p as real, q as real;
    assert w == 2.0 * (b - a);
    assert s * w == f[q] + b * b - (f[p] + a * a);
    assert Parabola(f, p, x) - Parabola(f, q, x) == w * (x - s) by {
      assert Square(x - a) == x * x - 2.0 * a * x + a * a;
      assert Square(x - b) == x * x - 2.0 * b * x + b * b;
    }
    SignOfProduct(w, x - s);
  }

  lemma SignOfProduct(w: real, d: real)
    requires 0.0 < w
    ensures 0.0 <= w * d <==> 0.0 <= d
    ensures w * d <= 0.0 <==> d <= 0.0
  {
  }

  /** `least` is the minimum over every position p of the squared distance from x plus the cost at p. */
  ghost predicate IsLowest(f: seq<real>, x: real, least: real) {
    && (forall p: nat :: p < |f| ==> least <= Parabola(f, p, x))
    && (exists p: nat :: p < |f| && least == Parabola(f, p, x))
  }

  /** Position p is the lowest of the first q parabolas at x. */
  ghost predicate Wins(f: seq<real>, q: nat, p: nat, x: real)
    requires p < q <= |f|
  {
    forall o: nat :: o < q ==> Parabola(f, p, x) <= Parabola(f, o, x)
  }

  /**
   The shape of the envelope of the first q parabolas: roots `v` from left to
   right, `z` the break points between them, and each root the lowest between
   its own two break points.
   */
  ghost predicate Envelope(f: seq<real>, q: nat, v: seq<nat>, z: seq<Bound>)
    requires q <= |f|
  {
    && 0 < |v| && |z| == |v| + 1
    && z[0] == NegInf && z[|v|] == PosInf
    && (forall i :: 0 < i < |v| ==> z[i].Fin?)
    && (forall i, j :: 0 < i < j < |v| ==> z[i].at < z[j].at)
    && (forall i :: 0 <= i < |v| ==> v[i] < q)
    && (forall i, j :: 0 <= i < j < |v| ==> v[i] < v[j])
    && (forall i, x: real :: 0 <= i < |v| && z[i].AtMost(x) && z[i + 1].AtLeast(x) ==> Wins(f, q, v[i], x))
  }

  /** What popping keeps: from the last popped break point on, q is below everything before it. */
  ghost predicate BeatsFrom(f: seq<real>, q: nat, b: Bound)
    requires q < |f|
  {
    forall x: real, o: nat :: b.AtMost(x) && o < q ==> Parabola(f, q, x) <= Parabola(f, o, x)
  }

  lemma PopKeeps(f: seq<real>, q: nat, v: seq<nat>, z: seq<Bound>, k: nat)
    requires q < |f| && Envelope(f, q, v, z) && k < |v|
    requires BeatsFrom(f, q, z[k + 1]) || k + 1 == |v|
    requires z[k].Fin? && Meet(f, v[k], q) <= z[k].at
    ensures BeatsFrom(f, q, z[k])
  {
    forall x: real, o: nat | z[k].AtMost(x) && o < q
      ensures Parabola(f, q, x) <= Parabola(f, o, x)
    {
      if z[k + 1].AtLeast(x) {
        MeetOrders(f, v[k], q, x);
        assert Wins(f, q, v[k], x);
      }
    }
  }

  /** Pushing q over the roots that are left gives the envelope of one more parabola. */
  lemma PushKeeps(f: seq<real>, q: nat, v: seq<nat>, z: seq<Bound>, k: nat)
    requires q < |f| && Envelope(f, q, v, z) && k < |v|
    requires BeatsFrom(f, q, z[k + 1]) || k + 1 == |v|
    requires !z[k].Fin? || z[k].at < Meet(f, v[k], q)
    ensures Envelope(f, q + 1, v[..k + 1] + [q], z[..k + 1] + [Fin(Meet(f, v[k], q)), PosInf])
  {
    var s := Meet(f, v[k], q);
    var v', z' := v[..k + 1] + [q], z[..k + 1] + [Fin(s), PosInf];
    if k + 1 < |v| {
      MeetOrders(f, v[k], q, z[k + 1].at);
      assert s <= z[k + 1].at;
    }
    forall i, x: real | 0 <= i < |v'| && z'[i].AtMost(x) && z'[i + 1].AtLeast(x)
      ensures Wins(f, q + 1, v'[i], x)
    {
      MeetOrders(f, v[k], q, x);
      if i == k + 1 {
        if z[k + 1].AtLeast(x) {
          assert Wins(f, q, v[k], x);
        }
      } else {
        if i < k && z[k].Fin? {
          assert z[i + 1].at <= z[k].at;
        }
        assert Wins(f, q, v[i], x);
      }
    }
  }

  /** The array begins with these values. */
  ghost predicate Holds<T>(a: array<T>, values: seq<T>)
    reads a
  {
    |values| <= a.Length && forall i :: 0 <= i < |values| ==> a[i] == values[i]
  }

  lemma EnvelopeOfOne(f: seq<real>)
    requires 0 < |f|
    ensures Envelope(f, 1, [0], [NegInf, PosInf])
  {
    assert forall x: real :: Wins(f, 1, 0, x);
  }

  /** The inner loop: drops the roots that q makes useless, and says where q meets the one left. */
  method Pop(f: array<real>, q: nat, v: array<nat>, z: array<Bound>, from: nat,
             ghost line: seq<real>, ghost roots: seq<nat>, ghost breaks: seq<Bound>)
    returns (k: nat, s: real)
    requires q < |line| && Holds(f, line)
    requires |roots| == from + 1 && Holds(v, roots)
    requires |breaks| == from + 2 && Holds(z, breaks)
    requires Envelope(line, q, roots, breaks)
    ensures k <= from && s == Meet(line, roots[k], q)
    ensures !breaks[k].Fin? || breaks[k].at < s
    ensures BeatsFrom(line, q, breaks[k + 1]) || k == from
  {
    k := from;
    s := (f[q] + (q * q) as real - (f[v[k]] + (v[k] * v[k]) as real)) / (2 * q - 2 * v[k]) as real;
    while !z[k].NegInf? && (z[k].PosInf? || s <= z[k].at)
      invariant k <= from
      invariant s == Meet(line, roots[k], q)
      invariant BeatsFrom(line, q, breaks[k + 1]) || k == from
      decreases k
    {
      PopKeeps(line, q, roots, breaks, k);
      k := k - 1;
      s := (f[q] + (q * q) as real - (f[v[k]] + (v[k] * v[k]) as real)) / (2 * q - 2 * v[k]) as real;
    }
  }

  /** The end of the outer loop's body: q becomes the last root, and wins from s on. */
  method Push(v: array<nat>, z: array<Bound>, from: nat, q: nat, s: real, ghost roots: seq<nat>,
              ghost breaks: seq<Bound>)
    returns (k: nat)
    requires Holds(v, roots) && Holds(z, breaks) && from < |roots| && |breaks| == |roots| + 1
    requires from + 1 < v.Length && from + 2 < z.Length
    modifies v, z
    ensures k == from + 1
    ensures Holds(v, roots[..from + 1] + [q]) && Holds(z, breaks[..from + 1] + [Fin(s), PosInf])
  {
    k := from + 1;
    v[k] := q;
    z[k] := Fin(s);
    z[k + 1] := PosInf;
  }

  /** The first loop: the roots and break points of the envelope of the first n positions. */
  method BuildEnvelope(f: array<real>, n: nat)
    returns (v: array<nat>, z: array<Bound>, ghost roots: seq<nat>, ghost breaks: seq<Bound>)
    requires 0 < n <= f.Length
    ensures fresh(v) && fresh(z) && Holds(v, roots) && Holds(z, breaks)
    ensures Envelope(f[..n], n, roots, breaks)
  {
    v := new nat[n];
    z := new Bound[n + 1];
    ghost var line := f[..n];
    var k := 0;
    v[0] := 0;
    z[0] := NegInf;
    z[1] := PosInf;
    roots, breaks := [0], [NegInf, PosInf];
    EnvelopeOfOne(line);

    for q := 1 to n
      invariant 0 <= k < q && |roots| == k + 1 && |breaks| == k + 2
      invariant Holds(v, roots) && Holds(z, breaks)
      invariant Holds(f, line)
      invariant Envelope(line, q, roots, breaks)
    {
      var s;
      k, s := Pop(f, q, v, z, k, line, roots, breaks);
      PushKeeps(line, q, roots, breaks, k);
      ghost var left, right := roots[..k + 1] + [q], breaks[..k + 1] + [Fin(s), PosInf];
      k := Push(v, z, k, q, s, roots, breaks);
      roots, breaks := left, right;
    }
  }

  /** Squared distance to the nearest seed along one line, in time linear in its length. */
  method LowerEnvelope(f: array<real>, n: nat) returns (d: array<real>)
    requires n <= f.Length
    ensures fresh(d) && d.Length == n
    ensures forall q :: 0 <= q < n ==> IsLowest(f[..n], q as real, d[q])
  {
    d := new real[n];
    if n == 0 {
      return;
    }
    ghost var line := f[..n];
    var v, z;
    ghost var roots, breaks;
    v, z, roots, breaks := BuildEnvelope(f, n);
    ghost var top := |roots| - 1;
    var k := 0;
    for q := 0 to n
      invariant 0 <= k <= top
      invariant f[..n] == line && Holds(v, roots) && Holds(z, breaks)
      invariant breaks[k].AtMost(q as real)
      invariant forall i :: 0 <= i < q ==> IsLowest(line, i as real, d[i])
    {
      assert z[k + 1] == breaks[k + 1];
      while z[k + 1].NegInf? || (z[k + 1].Fin? && z[k + 1].at < q as real)
        invariant 0 <= k <= top
        invariant breaks[k].AtMost(q as real) && z[k + 1] == breaks[k + 1]
        decreases top - k
      {
        k := k + 1;
      }
      assert v[k] == roots[k];
      assert Wins(line, n, roots[k], q as real);
      d[q] := (q - v[k]) as real * (q - v[k]) as real + f[v[k]];
      assert d[q] == Parabola(line, roots[k], q as real);
    }
  }
}
