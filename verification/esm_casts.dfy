/** The Cast of the dist/comparator.esm.js build. Observation, bounds and
    interpolation are those of Casts; this build changes the scoring: an
    empty Cast scores 0, the regression can only raise the interpolated
    score, `maxY` is read off explicit merged groups, and a numeric query can
    be scored against its best-matching group through the `intersect`
    ratio. */
module EsmCasts {
  import opened Sums
  import opened Casts

  /** A merged group: its anchor value and its weight. */
  datatype Group = Group(x: Value, y: real)

  /** The group returned when there are no groups, `{ x: 0, y: 0 }`. */
  const NoGroup := Group(Num(0.0), 0.0)

  /** The weight of the group of key k: a number merges its neighbours, a
      category weighs its raw count. */
  function Weight(c: Cast, k: Value): (r: real)
    ensures r >= c.Count(k) as real
    ensures k.Cat? ==> r == c.Count(k) as real
    ensures k.Num? && SpreadDistance(c) == 0.0 ==> r == c.Count(k) as real
  {
    if k.Num? then GroupWeight(c, k.r) else c.Count(k) as real
  }

  /** The groups of the numeric keys of ks, in key order. */
  function NumericGroups(c: Cast, ks: seq<Value>): (gs: seq<Group>)
    ensures forall i :: 0 <= i < |gs| ==> gs[i].x.Num? && gs[i].x in ks && gs[i].y == Weight(c, gs[i].x)
    ensures forall k :: k in ks && k.Num? ==> Group(k, Weight(c, k)) in gs
    decreases |ks|
  {
    if |ks| == 0 then []
    else
      var rest := NumericGroups(c, ks[1..]);
      if ks[0].Num? then [Group(ks[0], Weight(c, ks[0]))] + rest else rest
  }

  /** The groups of the categorical keys of ks, in key order. */
  function CategoricalGroups(c: Cast, ks: seq<Value>): (gs: seq<Group>)
    ensures forall i :: 0 <= i < |gs| ==> gs[i].x.Cat? && gs[i].x in ks && gs[i].y == Weight(c, gs[i].x)
    ensures forall k :: k in ks && k.Cat? ==> Group(k, Weight(c, k)) in gs
    decreases |ks|
  {
    if |ks| == 0 then []
    else
      var rest := CategoricalGroups(c, ks[1..]);
      if ks[0].Cat? then [Group(ks[0], Weight(c, ks[0]))] + rest else rest
  }

  /** Every key lands in exactly one of the two partitions. */
  lemma {:induction false} PartitionSize(c: Cast, ks: seq<Value>)
    ensures |NumericGroups(c, ks)| + |CategoricalGroups(c, ks)| == |ks|
    decreases |ks|
  {
    if |ks| > 0 {
      PartitionSize(c, ks[1..]);
    }
  }

  /** The `groups` getter: one group per key, the numeric ones first. */
  function Groups(c: Cast): (gs: seq<Group>)
    ensures c.Empty() ==> gs == []
    ensures |gs| == |c.xy.keys|
    ensures forall g :: g in gs ==> g.x in c.xy.keys && g.y == Weight(c, g.x)
    ensures forall k :: k in c.xy.keys ==> Group(k, Weight(c, k)) in gs
    ensures forall i, j :: 0 <= i < j < |gs| && gs[j].x.Num? ==> gs[i].x.Num?
  {
    PartitionSize(c, c.xy.keys);
    if c.Empty() then []
    else NumericGroups(c, c.xy.keys) + CategoricalGroups(c, c.xy.keys)
  }

  /** The `xByMaxY` getter: a heaviest group, or `{ x: 0, y: 0 }` when there
      is none. Which of several equally heavy groups is returned is left
      open. */
  function XByMaxY(c: Cast): (g: Group)
    ensures c.Empty() ==> g == NoGroup
    ensures !c.Empty() ==> g in Groups(c)
    ensures forall h :: h in Groups(c) ==> h.y <= g.y
  {
    var gs := Groups(c);
    if |gs| == 0 then NoGroup else ArgMax(gs, (h: Group) => h.y)
  }

  /** The `maxY` getter: the heaviest group weight, 0 when there are no
      groups. */
  function MaxY(c: Cast): (r: real)
    ensures r >= 0.0
    ensures forall k :: k in c.xy.keys ==> Weight(c, k) <= r
    ensures c.Empty() ==> r == 0.0
    ensures c.Empty() || exists k :: k in c.xy.keys && r == Weight(c, k)
  {
    XByMaxY(c).y
  }

  /** The heaviest group of this build is no heavier than the `maxY` of
      src/cast.js. */
  lemma MaxYAtMostSource(c: Cast)
    ensures MaxY(c) <= Casts.MaxY(c)
  {
    var esm := MaxY(c);
    if !c.Empty() {
      var k :| k in c.xy.keys && esm == Weight(c, k);
      var i :| 0 <= i < |c.xy.keys| && c.xy.keys[i] == k;
    }
  }

  /** The `maxY` of src/cast.js is attained by some key, whose group this
      build weighs at least as much. */
  lemma SourceAtMostMaxY(c: Cast)
    ensures Casts.MaxY(c) <= MaxY(c)
  {
    var src := Casts.MaxY(c);
    if src != 0.0 {
      var i :| 0 <= i < |c.xy.keys| &&
        (src == c.Count(c.xy.keys[i]) as real || src == KeyGroupWeight(c, c.xy.keys[i]));
      assert Weight(c, c.xy.keys[i]) <= MaxY(c);
    }
  }

  /** Both builds compute the same `maxY` on every histogram: the raw counts
      that src/cast.js also maximises over never exceed their own group
      weights. */
  lemma MaxYAgrees(c: Cast)
    ensures MaxY(c) == Casts.MaxY(c)
  {
    MaxYAtMostSource(c);
    SourceAtMostMaxY(c);
  }

  /** `compare(v)` of this build. */
  function Compare(c: Cast, v: Value, predict: Predictor): (r: real)
    ensures r >= 0.0
    ensures c.Empty() ==> r == 0.0
    ensures !c.Empty() && v.Cat? ==> r == c.Count(v) as real
    ensures !c.Empty() && v.Num? ==> r >= Approx(c, v.r)
    ensures !c.Empty() && v.Num? && FallsBack(c, v.r) ==> r == Approx(c, v.r)
    ensures !c.Empty() && v.Num? && !FallsBack(c, v.r) ==> r == Max(predict(Points(c), v.r), Approx(c, v.r))
  {
    if c.Empty() then 0.0
    else
      match v
      case Cat(_) => c.Count(v) as real
      case Num(x) =>
        var prediction := predict(Points(c), x);
        match c.propagation
        case Down => if x < MaxX(c) then Max(prediction, Approx(c, x)) else Approx(c, x)
        case Up => if x > MinX(c) then Max(prediction, Approx(c, x)) else Approx(c, x)
        case Between =>
          if x > MinX(c) && x < MaxX(c) then Max(prediction, Approx(c, x)) else Approx(c, x)
        case NoPropagation => Approx(c, x)
  }

  /** On a trained Cast the two builds agree on categories, and on numbers
      this build is the other's score raised to at least the interpolation. */
  lemma CompareVersions(c: Cast, v: Value, predict: Predictor)
    requires !c.Empty()
    ensures v.Cat? ==> Compare(c, v, predict) == Casts.Compare(c, v, predict)
    ensures v.Num? ==> Compare(c, v, predict) == Max(Casts.Compare(c, v, predict), Approx(c, v.r))
  {
  }

  /** `intersect(v1, v2)`: the ratio of the smaller to the larger value. */
  function Intersect(a: real, b: real): (r: real)
    requires Max(a, b) != 0.0
    ensures a > 0.0 && b > 0.0 ==> 0.0 < r <= 1.0
    ensures a > 0.0 && b > 0.0 ==> (r == 1.0 <==> a == b)
  {
    Min(a, b) / Max(a, b)
  }

  lemma IntersectSymmetric(a: real, b: real)
    requires Max(a, b) != 0.0
    ensures Max(b, a) != 0.0
    ensures Intersect(a, b) == Intersect(b, a)
  {
  }

  /** Every key is a positive number, which is what ranking groups by the
      `intersect` ratio needs. */
  predicate PositiveNumbers(c: Cast) {
    forall k :: k in c.xy.keys ==> k.Num? && k.r > 0.0
  }

  /** A numeric query against a trained Cast is ranked by `intersect`, so
      the query and every key must be positive numbers. */
  predicate IntersectReady(c: Cast, v: Value) {
    v.Num? && !c.Empty() ==> v.r > 0.0 && PositiveNumbers(c)
  }

  /** How well group g matches the number x: the `intersect` ratio of its
      anchor and x, times its weight. */
  function Affinity(g: Group, x: real): real {
    if g.x.Num? && Max(g.x.r, x) != 0.0 then Intersect(g.x.r, x) * g.y else 0.0
  }

  /** `findMaxGroup(v)`: for a category the heaviest group, for a number the
      group of highest affinity with it. */
  function FindMaxGroup(c: Cast, v: Value): (g: Group)
    requires IntersectReady(c, v)
    ensures v.Cat? ==> g == XByMaxY(c)
    ensures v.Num? && c.Empty() ==> g == NoGroup
    ensures v.Num? && !c.Empty() ==> g in Groups(c) && g.x.Num? && g.x.r > 0.0
    ensures v.Num? ==> forall h :: h in Groups(c) ==> Affinity(h, v.r) <= Affinity(g, v.r)
    ensures 0.0 <= g.y <= MaxY(c)
  {
    if v.Cat? then XByMaxY(c)
    else
      var gs := Groups(c);
      if |gs| == 0 then NoGroup else ArgMax(gs, (h: Group) => Affinity(h, v.r))
  }

  /** `intersection(v)` of a Cast. A number scores the weight of its best
      group scaled by the `intersect` ratio of the query and the group's
      anchor, which no key's own group outscores. */
  function Intersection(c: Cast, v: Value): (r: real)
    requires IntersectReady(c, v)
    ensures c.Empty() ==> r == 0.0
    ensures !c.Empty() && v.Cat? ==> r == c.Count(v) as real
    ensures v.Num? ==> 0.0 <= r <= FindMaxGroup(c, v).y
    ensures v.Num? && !c.Empty() ==>
      forall k :: k in c.xy.keys ==> Intersect(v.r, k.r) * Weight(c, k) <= r
    ensures v.Num? && !c.Empty() ==>
      && FindMaxGroup(c, v) in Groups(c)
      && r == Intersect(v.r, FindMaxGroup(c, v).x.r) * FindMaxGroup(c, v).y
  {
    if c.Empty() then 0.0
    else if v.Cat? then c.Count(v) as real
    else BestMatch(c, v.r, FindMaxGroup(c, v))
  }

  /** The numeric branch of `intersection`: the `intersect` ratio of the
      query and the anchor of its best group, times that group's weight. */
  function BestMatch(c: Cast, x: real, g: Group): (r: real)
    requires x > 0.0 && PositiveNumbers(c)
    requires g.x.Num? && g.x.r > 0.0 && g.y >= 0.0
    requires forall h :: h in Groups(c) ==> Affinity(h, x) <= Affinity(g, x)
    ensures 0.0 <= r <= g.y
    ensures forall k :: k in c.xy.keys ==> Intersect(x, k.r) * Weight(c, k) <= r
  {
    ScaledRatioBounds(x, g);
    BestAffinityBound(c, x, g);
    Intersect(x, g.x.r) * g.y
  }

  /** Scaling a weight by the `intersect` ratio of positive numbers keeps it
      between 0 and the weight. */
  lemma ScaledRatioBounds(x: real, g: Group)
    requires x > 0.0 && g.x.Num? && g.x.r > 0.0 && g.y >= 0.0
    ensures 0.0 <= Intersect(x, g.x.r) * g.y <= g.y
  {
    ScaleAtMost(g.y, Intersect(x, g.x.r));
  }

  /** A categorical group has no affinity with a number; a group anchored
      at the query itself has its full weight; and for positive numbers
      the affinity lies between 0 and the weight. */
  lemma AffinityCases(g: Group, x: real)
    ensures g.x.Cat? ==> Affinity(g, x) == 0.0
    ensures g.x == Num(x) && x > 0.0 ==> Affinity(g, x) == g.y
    ensures g.x.Num? && g.x.r > 0.0 && x > 0.0 && g.y >= 0.0 ==> 0.0 <= Affinity(g, x) <= g.y
  {
    if g.x.Num? && g.x.r > 0.0 && x > 0.0 && g.y >= 0.0 {
      AffinityOfPositive(g, x);
      ScaledRatioBounds(x, g);
    }
  }

  /** Affinity with a positive anchor is the `intersect` ratio, taken in
      either order, times the group weight. */
  lemma AffinityOfPositive(g: Group, x: real)
    requires g.x.Num? && g.x.r > 0.0 && x > 0.0
    ensures Max(x, g.x.r) != 0.0
    ensures Affinity(g, x) == Intersect(x, g.x.r) * g.y
  {
    IntersectSymmetric(g.x.r, x);
  }

  /** A group of higher affinity outscores the group of a positive key. */
  lemma KeyAffinityBound(c: Cast, x: real, g: Group, k: Value)
    requires x > 0.0 && k.Num? && k.r > 0.0
    requires g.x.Num? && g.x.r > 0.0
    requires Affinity(Group(k, Weight(c, k)), x) <= Affinity(g, x)
    ensures Intersect(x, k.r) * Weight(c, k) <= Intersect(x, g.x.r) * g.y
  {
    AffinityOfPositive(g, x);
    AffinityOfPositive(Group(k, Weight(c, k)), x);
  }

  /** The group of highest affinity outscores every key's own group. */
  lemma BestAffinityBound(c: Cast, x: real, g: Group)
    requires x > 0.0 && PositiveNumbers(c)
    requires g.x.Num? && g.x.r > 0.0
    requires forall h :: h in Groups(c) ==> Affinity(h, x) <= Affinity(g, x)
    ensures forall k :: k in c.xy.keys ==> Intersect(x, k.r) * Weight(c, k) <= Intersect(x, g.x.r) * g.y
  {
    forall k | k in c.xy.keys
      ensures Intersect(x, k.r) * Weight(c, k) <= Intersect(x, g.x.r) * g.y
    {
      assert Group(k, Weight(c, k)) in Groups(c);
      KeyAffinityBound(c, x, g, k);
    }
  }
}
