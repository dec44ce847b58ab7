/** The per-field statistical model of src/cast.js: a histogram from observed
    values to occurrence counts, running bounds over the numeric values, and
    the scores derived from them (exact lookup, spread-weighted
    interpolation, merged group weights, regression by direction).

    Values are classified once, as numbers or categories, instead of being
    re-tested with `isNaN` at every use. JavaScript numbers become reals. The
    regression line is a parameter: `predict(points, x)` is the linear fit
    over `points` evaluated at `x`. */
module Casts {
  import opened Sums
  import opened Wrappers
  import opened OrderedMaps

  /** An observed field value: a number, or anything that does not parse as
      one, kept verbatim as a category. */
  datatype Value = Num(r: real) | Cat(s: string)

  /** The direction in which a numeric field may be scored by the
      regression line instead of by interpolation. */
  datatype Propagation = NoPropagation | Up | Down | Between

  /** The linear fit over (key, count) points, evaluated at a query. */
  type Predictor = (seq<(real, real)>, real) -> real

  /** Observed value to occurrence count, in first-observation order. */
  type Histogram = OMap<Value, nat>

  /** `lowX` and `highX` are the `_minX` and `_maxX` fields, `lowY` the
      `_minY` field; `None` stands for `undefined`. */
  datatype Cast = Cast(spread: real, propagation: Propagation, xy: Histogram,
                       lowX: Option<real>, highX: Option<real>, lowY: Option<nat>)
  {
    /** `this.xy[v] || 0`. */
    function Count(v: Value): nat {
      xy.Get(v, 0)
    }

    predicate Empty() {
      |xy.keys| == 0
    }

    /** No numeric value has been observed. */
    ghost predicate NoNumbers() {
      forall k :: k in xy.m ==> k.Cat?
    }

    /** What every Cast reachable from `New` by `Shape` satisfies: counts
        are positive, the bounds are the least and greatest numeric keys
        (absent exactly while there are none), and the count bound is 1
        once anything has been observed. */
    ghost predicate Valid() {
      && xy.Valid()
      && (forall k :: k in xy.m ==> xy.m[k] >= 1)
      && (lowX.None? <==> NoNumbers())
      && (highX.None? <==> NoNumbers())
      && (lowX.Some? ==>
            && Num(lowX.value) in xy.m
            && forall k :: k in xy.m && k.Num? ==> lowX.value <= k.r)
      && (highX.Some? ==>
            && Num(highX.value) in xy.m
            && forall k :: k in xy.m && k.Num? ==> k.r <= highX.value)
      && lowY == (if Empty() then None else Some(1))
    }
  }

  function Abs(x: real): real {
    if x < 0.0 then -x else x
  }

  function Min(a: real, b: real): real {
    if a <= b then a else b
  }

  function MinNat(a: nat, b: nat): nat {
    if a <= b then a else b
  }

  /** `new Cast(spread, propagation)`: nothing observed, every getter 0. */
  function New(spread: real, propagation: Propagation): (c: Cast)
    ensures c.Valid() && c.Empty()
    ensures c.spread == spread && c.propagation == propagation
    ensures forall v :: c.Count(v) == 0
    ensures MinX(c) == 0.0 && MaxX(c) == 0.0 && MinY(c) == 0
    ensures SpreadDistance(c) == 0.0
  {
    Cast(spread, propagation, Empty(), None, None, None)
  }

  /** The `minX` getter. */
  function MinX(c: Cast): (r: real)
    ensures c.lowX.None? ==> r == 0.0
    ensures c.Valid() ==> forall k :: k in c.xy.m && k.Num? ==> r <= k.r
  {
    c.lowX.GetOr(0.0)
  }

  /** The `maxX` getter. */
  function MaxX(c: Cast): (r: real)
    ensures c.highX.None? ==> r == 0.0
    ensures c.Valid() ==> forall k :: k in c.xy.m && k.Num? ==> k.r <= r
  {
    c.highX.GetOr(0.0)
  }

  /** The `minY` getter. */
  function MinY(c: Cast): (r: nat)
    ensures c.Valid() ==> r == (if c.Empty() then 0 else 1)
  {
    c.lowY.GetOr(0)
  }

  /** The `spreadDistance` getter: the merge radius `|maxX * spread|`. */
  function SpreadDistance(c: Cast): (r: real)
    ensures r >= 0.0
    ensures c.spread == 0.0 ==> r == 0.0
    ensures c.highX.None? ==> r == 0.0
  {
    Abs(MaxX(c) * c.spread)
  }

  /** `updateBounds(key)`, run after the count of `key` was raised. */
  function UpdateBounds(c: Cast, key: Value): (r: Cast)
    ensures r.xy == c.xy && r.spread == c.spread && r.propagation == c.propagation
    ensures key.Num? ==> MinX(r) <= key.r <= MaxX(r)
    ensures key.Num? ==> r.lowX.Some? && r.highX.Some?
    ensures key.Num? ==> r.lowX.value == key.r || r.lowX == c.lowX
    ensures key.Num? ==> r.highX.value == key.r || r.highX == c.highX
    ensures c.lowX.Some? ==> r.lowX.Some? && r.lowX.value <= c.lowX.value
    ensures c.highX.Some? ==> r.highX.Some? && r.highX.value >= c.highX.value
    ensures key.Cat? ==> r.lowX == c.lowX && r.highX == c.highX
    ensures (c.lowY.None? || c.lowY == Some(1)) && c.Count(key) >= 1 ==> MinY(r) == 1
  {
    var lowX :=
      if key.Cat? then c.lowX
      else if c.lowX.None? then Some(key.r)
      else Some(Min(c.lowX.value, key.r));
    var highX :=
      if key.Cat? then c.highX
      else if c.highX.None? then Some(key.r)
      else Some(Max(c.highX.value, key.r));
    var lowY := if c.lowY.None? then 1 else MinNat(c.lowY.value, c.Count(key));
    c.(lowX := lowX, highX := highX, lowY := Some(lowY))
  }

  /** `shape(v)`: one more observation of v. A new value is appended to the
      insertion order (see OrderedMaps for integer-like keys). */
  function Shape(c: Cast, v: Value): (r: Cast)
    ensures r.Count(v) == c.Count(v) + 1
    ensures forall k :: k != v ==> r.Count(k) == c.Count(k)
    ensures v in c.xy.m ==> r.xy.keys == c.xy.keys
    ensures v !in c.xy.m ==> r.xy.keys == c.xy.keys + [v]
    ensures r.spread == c.spread && r.propagation == c.propagation
    ensures v.Num? ==> MinX(r) <= v.r <= MaxX(r)
    ensures v.Cat? ==> r.lowX == c.lowX && r.highX == c.highX
    ensures c.Valid() ==> r.Valid() && MinY(r) == 1
  {
    var counted := c.(xy := Put(c.xy, v, c.Count(v) + 1));
    assert counted.Count(v) >= 1;
    var r := UpdateBounds(counted, v);
    assert c.Valid() ==> r.Valid() by {
      if c.Valid() {
        ShapeKeepsValid(c, v, counted, r);
      }
    }
    r
  }

  lemma ShapeKeepsValid(c: Cast, v: Value, counted: Cast, r: Cast)
    requires c.Valid()
    requires counted == c.(xy := Put(c.xy, v, c.Count(v) + 1))
    requires r == UpdateBounds(counted, v)
    ensures r.Valid()
  {
    assert r.xy.m == c.xy.m[v := c.Count(v) + 1];
    assert v.Cat? ==> (r.NoNumbers() <==> c.NoNumbers());
    if v.Num? {
      assert !r.NoNumbers();
    }
  }

  /** Whether a numeric query falls back to interpolation rather than to
      the regression line: always without propagation, at or below the
      lower bound for UP, at or above the upper bound for DOWN, and outside
      the open interval between the bounds for BETWEEN. */
  predicate FallsBack(c: Cast, x: real) {
    match c.propagation
    case NoPropagation => true
    case Up => x <= MinX(c)
    case Down => x >= MaxX(c)
    case Between => x <= MinX(c) || x >= MaxX(c)
  }

  /** Key k lies strictly within the spread distance of x. */
  predicate Near(c: Cast, x: real, k: Value) {
    k.Num? && Abs(k.r - x) < SpreadDistance(c)
  }

  /** The count of k when k is near x, else 0. */
  function NearCount(c: Cast, x: real, k: Value): real {
    if Near(c, x, k) then c.Count(k) as real else 0.0
  }

  /** The contribution of key k to `approx(x)`: its count scaled by the
      linear falloff `1 - |x - k| / spreadDistance`. */
  function Falloff(c: Cast, x: real, k: Value): (r: real)
    ensures 0.0 <= r <= NearCount(c, x, k)
    ensures k == Num(x) && SpreadDistance(c) > 0.0 ==> r == c.Count(k) as real
  {
    var sd := SpreadDistance(c);
    if k.Num? && Abs(k.r - x) < sd then
      var w := 1.0 - Abs(x - k.r) / sd;
      assert 0.0 < w <= 1.0 by {
        assert Abs(x - k.r) == Abs(k.r - x);
        DivBelowOne(Abs(x - k.r), sd);
      }
      ScaleAtMost(c.Count(k) as real, w);
      c.Count(k) as real * w
    else 0.0
  }

  lemma DivBelowOne(d: real, sd: real)
    requires 0.0 <= d < sd
    ensures 0.0 <= d / sd < 1.0
  {
  }

  lemma ScaleAtMost(n: real, w: real)
    requires n >= 0.0 && 0.0 < w <= 1.0
    ensures 0.0 <= n * w <= n
    ensures n > 0.0 ==> n * w > 0.0
  {
  }

  /** `approx(x)`: with no spread distance the exact count of x, otherwise
      the falloff-weighted sum over every numeric key near x. */
  function Approx(c: Cast, x: real): (r: real)
    ensures r >= 0.0
    ensures SpreadDistance(c) == 0.0 ==> r == c.Count(Num(x)) as real
    ensures Num(x) in c.xy.keys ==> r >= c.Count(Num(x)) as real
    ensures SpreadDistance(c) > 0.0 ==> r <= Sum(c.xy.keys, k => NearCount(c, x, k))
  {
    if SpreadDistance(c) == 0.0 then c.Count(Num(x)) as real
    else
      FalloffSumBounds(c, x);
      Sum(c.xy.keys, k => Falloff(c, x, k))
  }

  lemma FalloffSumBounds(c: Cast, x: real)
    requires SpreadDistance(c) > 0.0
    ensures Sum(c.xy.keys, k => Falloff(c, x, k)) >= 0.0
    ensures Num(x) in c.xy.keys ==> Sum(c.xy.keys, k => Falloff(c, x, k)) >= c.Count(Num(x)) as real
    ensures Sum(c.xy.keys, k => Falloff(c, x, k)) <= Sum(c.xy.keys, k => NearCount(c, x, k))
  {
    var f := k => Falloff(c, x, k);
    SumNonNegative(c.xy.keys, f);
    SumMonotone(c.xy.keys, f, k => NearCount(c, x, k));
    if Num(x) in c.xy.keys {
      var i :| 0 <= i < |c.xy.keys| && c.xy.keys[i] == Num(x);
      SumAtLeastTerm(c.xy.keys, f, i);
    }
  }

  /** The contribution of key k to the group anchored at the number a: the
      keys other than a within the spread distance, with linear falloff. */
  function Neighbour(c: Cast, a: real, k: Value): real {
    var sd := SpreadDistance(c);
    if k.Num? && k.r != a && Abs(a - k.r) < sd then
      c.Count(k) as real * (1.0 - Abs(a - k.r) / sd)
    else 0.0
  }

  /** A neighbour adds a positive share of its count when it is another
      number within the spread distance, and nothing otherwise. */
  lemma NeighbourBounds(c: Cast, a: real, k: Value)
    ensures 0.0 <= Neighbour(c, a, k) <= c.Count(k) as real
    ensures k == Num(a) || k.Cat? || SpreadDistance(c) == 0.0 ==> Neighbour(c, a, k) == 0.0
    ensures k.Num? && k.r != a && Abs(a - k.r) < SpreadDistance(c) && c.Count(k) > 0 ==> Neighbour(c, a, k) > 0.0
  {
    var sd := SpreadDistance(c);
    if k.Num? && k.r != a && Abs(a - k.r) < sd {
      var w := 1.0 - Abs(a - k.r) / sd;
      DivBelowOne(Abs(a - k.r), sd);
      ScaleAtMost(c.Count(k) as real, w);
    }
  }

  /** The weight of the group anchored at the number a: its own count plus
      every neighbour's falloff-weighted count. */
  function GroupWeight(c: Cast, a: real): (r: real)
    ensures r >= c.Count(Num(a)) as real
    ensures SpreadDistance(c) == 0.0 ==> r == c.Count(Num(a)) as real
  {
    NeighbourSumBounds(c, a);
    c.Count(Num(a)) as real + Sum(c.xy.keys, k => Neighbour(c, a, k))
  }

  lemma NeighbourSumBounds(c: Cast, a: real)
    ensures Sum(c.xy.keys, k => Neighbour(c, a, k)) >= 0.0
    ensures SpreadDistance(c) == 0.0 ==> Sum(c.xy.keys, k => Neighbour(c, a, k)) == 0.0
  {
    var g := k => Neighbour(c, a, k);
    NeighbourIsFalloff(c, a);
    SumNonNegative(c.xy.keys, g);
    if SpreadDistance(c) == 0.0 {
      SumZero(c.xy.keys, g);
    }
  }

  /** A neighbour's term is the falloff term with the anchor itself left
      out; with no spread distance there are no neighbours. */
  lemma NeighbourIsFalloff(c: Cast, a: real)
    ensures forall k :: Neighbour(c, a, k) == Without(k => Falloff(c, a, k), Num(a))(k)
    ensures SpreadDistance(c) == 0.0 ==> forall k :: Neighbour(c, a, k) == 0.0
  {
  }

  /** The group weight of a numeric key; categories form no merged group. */
  function KeyGroupWeight(c: Cast, k: Value): real {
    if k.Num? then GroupWeight(c, k.r) else 0.0
  }

  /** The `maxY` getter: the largest group weight over the numeric keys and
      the largest raw count over all keys. */
  function MaxY(c: Cast): (r: real)
    ensures r >= 0.0
    ensures forall i :: 0 <= i < |c.xy.keys| ==> c.Count(c.xy.keys[i]) as real <= r
    ensures forall i :: 0 <= i < |c.xy.keys| && c.xy.keys[i].Num? ==> GroupWeight(c, c.xy.keys[i].r) <= r
    ensures c.Empty() ==> r == 0.0
    ensures r == 0.0 || exists i :: 0 <= i < |c.xy.keys| && (r == c.Count(c.xy.keys[i]) as real || r == KeyGroupWeight(c, c.xy.keys[i]))
  {
    var groups := Max0(c.xy.keys, k => KeyGroupWeight(c, k));
    var counts := Max0(c.xy.keys, k => c.Count(k) as real);
    Max(groups, counts)
  }

  /** The interpolated score at an observed numeric key is the weight of the
      group anchored there, whether or not there is a spread distance. */
  lemma {:induction false} ApproxAtKey(c: Cast, a: real)
    requires c.xy.Valid()
    requires Num(a) in c.xy.m
    ensures Approx(c, a) == GroupWeight(c, a)
  {
    NeighbourIsFalloff(c, a);
    var f := k => Falloff(c, a, k);
    if SpreadDistance(c) == 0.0 {
    } else {
      SumSplit(c.xy.keys, Num(a), f);
      SumCongruent(c.xy.keys, k => Neighbour(c, a, k), Without(f, Num(a)));
    }
  }

  /** `maxY` bounds the interpolated score at every observed numeric key. */
  lemma {:induction false} MaxYAtLeastApprox(c: Cast, a: real)
    requires c.Valid()
    requires Num(a) in c.xy.m
    ensures Approx(c, a) <= MaxY(c)
  {
    ApproxAtKey(c, a);
    var i :| 0 <= i < |c.xy.keys| && c.xy.keys[i] == Num(a);
  }

  /** With no spread distance, `maxY` is the largest raw count. */
  lemma {:induction false} MaxYWithoutSpread(c: Cast)
    requires SpreadDistance(c) == 0.0
    ensures MaxY(c) == Max0(c.xy.keys, k => c.Count(k) as real)
  {
  }

  /** The numeric (key, count) pairs of ks that the regression is fitted to. */
  function PointsOf(c: Cast, ks: seq<Value>): (ps: seq<(real, real)>)
    ensures forall p :: p in ps ==> Num(p.0) in ks && p.1 == c.Count(Num(p.0)) as real
    ensures forall k :: k in ks && k.Num? ==> (k.r, c.Count(k) as real) in ps
    ensures Distinct(ks) ==> Distinct(ps)
    decreases |ks|
  {
    if |ks| == 0 then []
    else
      var rest := PointsOf(c, ks[1..]);
      DistinctTail(ks);
      if ks[0].Num? then [(ks[0].r, c.Count(ks[0]) as real)] + rest else rest
  }

  /** The points handed to the regression: one (key, count) pair per numeric
      key, each exactly once; README's "Left out" covers the categorical keys
      the source also passes. */
  function Points(c: Cast): (ps: seq<(real, real)>)
    ensures forall p :: p in ps ==> Num(p.0) in c.xy.keys && p.1 == c.Count(Num(p.0)) as real
    ensures forall k :: k in c.xy.keys && k.Num? ==> (k.r, c.Count(k) as real) in ps
    ensures c.Valid() ==> Distinct(ps)
  {
    PointsOf(c, c.xy.keys)
  }

  /** `compare(v)`: a category scores its raw count; a number scores the
      regression line in the declared direction and the interpolation
      everywhere else. */
  function Compare(c: Cast, v: Value, predict: Predictor): (r: real)
    ensures v.Cat? ==> r == c.Count(v) as real
    ensures v.Num? && c.propagation == NoPropagation ==> r == Approx(c, v.r)
    ensures v.Num? && c.propagation == Up && v.r <= MinX(c) ==> r == Approx(c, v.r)
    ensures v.Num? && c.propagation == Down && v.r >= MaxX(c) ==> r == Approx(c, v.r)
    ensures v.Num? && c.propagation == Between && (v.r <= MinX(c) || v.r >= MaxX(c)) ==> r == Approx(c, v.r)
    ensures v.Num? && !FallsBack(c, v.r) ==> r == predict(Points(c), v.r)
  {
    match v
    case Cat(_) => c.Count(v) as real
    case Num(x) =>
      var prediction := predict(Points(c), x);
      match c.propagation
      case Down => if x < MaxX(c) then prediction else Approx(c, x)
      case Up => if x > MinX(c) then prediction else Approx(c, x)
      case Between => if x > MinX(c) && x < MaxX(c) then prediction else Approx(c, x)
      case NoPropagation => Approx(c, x)
  }

  /** A value observed once and nothing else scores exactly 1, whatever the
      spread and the propagation. */
  lemma {:induction false} SingleObservation(spread: real, p: Propagation, v: Value, predict: Predictor)
    ensures Compare(Shape(New(spread, p), v), v, predict) == 1.0
  {
    var c := Shape(New(spread, p), v);
    assert c.xy.keys == [v];
    if v.Num? {
      assert MinX(c) == v.r && MaxX(c) == v.r;
      assert FallsBack(c, v.r);
      if SpreadDistance(c) > 0.0 {
        assert Sum(c.xy.keys, k => Falloff(c, v.r, k)) == Falloff(c, v.r, v) + Sum([], k => Falloff(c, v.r, k));
      }
    }
  }
}
