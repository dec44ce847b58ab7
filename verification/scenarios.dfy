/** Worked examples of the model on concrete inputs. */
module Scenarios {
  import opened Sums
  import opened OrderedMaps
  import opened Casts
  import opened Comparators

  /** Every value of c was observed exactly once. */
  ghost predicate OnceEach(c: Cast) {
    forall k :: k in c.xy.keys ==> c.Count(k) == 1
  }

  /** One more, previously unseen, value observed by a valid Cast: it is
      appended to the insertion order with count 1, and a number exceeding
      every number seen so far becomes the new maximum. */
  lemma ShapeUnseen(c: Cast, v: Value)
    requires c.Valid() && v !in c.xy.keys
    ensures Shape(c, v).Valid() && Shape(c, v).spread == c.spread
    ensures Shape(c, v).propagation == c.propagation
    ensures Shape(c, v).xy.keys == c.xy.keys + [v]
    ensures Shape(c, v).Count(v) == 1
    ensures OnceEach(c) ==> OnceEach(Shape(c, v))
    ensures v.Num? && (forall k :: k in c.xy.keys && k.Num? ==> k.r < v.r) ==> MaxX(Shape(c, v)) == v.r
  {
    var r := Shape(c, v);
    if v.Num? {
      assert Num(r.highX.value) in r.xy.keys;
    }
  }

  /** The ages 20, 21, 22 observed once each, with spread 0.1. */
  function YoungAges(): Cast {
    var c0 := Casts.New(0.1, NoPropagation);
    Shape(Shape(Shape(c0, Num(20.0)), Num(21.0)), Num(22.0))
  }

  /** The ages 20, 21, 22 and 40. */
  function Ages(): Cast {
    Shape(YoungAges(), Num(40.0))
  }

  lemma YoungAgesHistogram()
    ensures YoungAges().Valid() && YoungAges().spread == 0.1
    ensures YoungAges().xy.keys == [Num(20.0), Num(21.0), Num(22.0)]
    ensures OnceEach(YoungAges())
  {
    var c0 := Casts.New(0.1, NoPropagation);
    ShapeUnseen(c0, Num(20.0));
    var c1 := Shape(c0, Num(20.0));
    ShapeUnseen(c1, Num(21.0));
    var c2 := Shape(c1, Num(21.0));
    ShapeUnseen(c2, Num(22.0));
  }

  /** Four ages, each observed once, the largest 40, with spread 0.1. */
  ghost predicate AgesShaped(c: Cast) {
    && c.xy.keys == [Num(20.0), Num(21.0), Num(22.0), Num(40.0)]
    && OnceEach(c) && MaxX(c) == 40.0 && c.spread == 0.1
  }

  /** Observing 40 after 20, 21 and 22. */
  lemma ShapeForty(c: Cast)
    requires c.Valid() && c.spread == 0.1 && OnceEach(c)
    requires c.xy.keys == [Num(20.0), Num(21.0), Num(22.0)]
    ensures AgesShaped(Shape(c, Num(40.0)))
  {
    ShapeUnseen(c, Num(40.0));
  }

  lemma AgesHistogram()
    ensures AgesShaped(Ages())
  {
    YoungAgesHistogram();
    ShapeForty(YoungAges());
  }

  /** The spread distance is 4, so around 21 the neighbours 20 and 22 weigh
      0.75 each and 40 weighs nothing. */
  lemma AgesFalloff(c: Cast)
    requires AgesShaped(c)
    ensures SpreadDistance(c) == 4.0
    ensures Falloff(c, 21.0, Num(20.0)) == 0.75
    ensures Falloff(c, 21.0, Num(21.0)) == 1.0
    ensures Falloff(c, 21.0, Num(22.0)) == 0.75
    ensures Falloff(c, 21.0, Num(40.0)) == 0.0
  {
    assert c.Count(Num(20.0)) == 1 && c.Count(Num(21.0)) == 1 && c.Count(Num(22.0)) == 1;
  }

  /** A sum over four elements, written out. */
  lemma SumOfFour<T>(a: T, b: T, c: T, d: T, f: T -> real)
    ensures Sum([a, b, c, d], f) == f(a) + f(b) + f(c) + f(d)
  {
    assert [a, b, c, d][1..] == [b, c, d];
    assert [b, c, d][1..] == [c, d];
    assert [c, d][1..] == [d];
    assert [d][1..] == [];
    assert Sum([d], f) == f(d);
    assert Sum([c, d], f) == f(c) + f(d);
    assert Sum([b, c, d], f) == f(b) + f(c) + f(d);
  }

  lemma AgesApprox(c: Cast)
    requires AgesShaped(c)
    ensures Approx(c, 21.0) == 2.5
  {
    AgesFalloff(c);
    var f := k => Falloff(c, 21.0, k);
    assert Approx(c, 21.0) == Sum(c.xy.keys, f);
    SumOfFour(Num(20.0), Num(21.0), Num(22.0), Num(40.0), f);
  }

  /** `approx(21)` is 0.75 + 1 + 0.75 = 2.5: the neighbours 20 and 22 count
      three quarters each and 40 lies beyond the spread distance. */
  lemma AgeInterpolation()
    ensures Approx(Ages(), 21.0) == 2.5
  {
    AgesHistogram();
    AgesApprox(Ages());
  }

  /** With BETWEEN propagation, a query strictly between two observed
      numbers is scored by the regression line, not by interpolation. */
  lemma BetweenObserved(c: Cast, lo: real, hi: real, x: real, predict: Predictor)
    requires c.Valid() && c.propagation == Between
    requires Num(lo) in c.xy.m && Num(hi) in c.xy.m && lo < x < hi
    ensures Compare(c, Num(x), predict) == predict(Points(c), x)
  {
  }

  /** The numbers 10, 20, 30 observed with BETWEEN propagation. */
  function Decades(): Cast {
    Shape(Shape(Shape(Casts.New(0.0, Between), Num(10.0)), Num(20.0)), Num(30.0))
  }

  lemma DecadesObserved()
    ensures Decades().Valid() && Decades().propagation == Between
    ensures Num(10.0) in Decades().xy.m && Num(30.0) in Decades().xy.m
  {
    var c0 := Casts.New(0.0, Between);
    ShapeUnseen(c0, Num(10.0));
    var c1 := Shape(c0, Num(10.0));
    ShapeUnseen(c1, Num(20.0));
    var c2 := Shape(c1, Num(20.0));
    ShapeUnseen(c2, Num(30.0));
    assert Decades().xy.keys == [Num(10.0), Num(20.0), Num(30.0)];
  }

  /** Trained on 10, 20, 30, the query 15 goes to the regression line. */
  lemma BetweenUsesRegression(predict: Predictor)
    ensures Compare(Decades(), Num(15.0), predict) == predict(Points(Decades()), 15.0)
  {
    DecadesObserved();
    BetweenObserved(Decades(), 10.0, 30.0, 15.0, predict);
  }

  /** A one-field record `{ status: s }`. */
  function Status(s: string): (r: Record)
    ensures r.Valid()
  {
    Put(Empty(), "status", Val(Cat(s)))
  }

  /** A comparator without configuration trained on the statuses `ok`,
      `ok`, `fail`. */
  function StatusTrained(): Comparator {
    var cmp := Comparators.New(map[]);
    TrainSingle(TrainSingle(TrainSingle(cmp, Status("ok")), Status("ok")), Status("fail"))
  }

  /** Training `{ status: s }` shapes the `status` Cast with `s` and
      registers the field on first sight. */
  lemma TrainStatus(cmp: Comparator, s: string)
    ensures TrainSingle(cmp, Status(s)).properties.keys ==
      if "status" in cmp.properties.m then cmp.properties.keys else cmp.properties.keys + ["status"]
    ensures TrainSingle(cmp, Status(s)).properties.m ==
      cmp.properties.m["status" := Shape(CastFor(cmp, "status"), Cat(s))]
  {
    assert Status(s).keys == ["status"];
    assert ["status"][1..] == [];
  }

  /** A comparator whose only field is `status`, holding the Cast c. */
  ghost predicate OnlyStatus(cmp: Comparator, c: Cast) {
    cmp.properties.keys == ["status"] && cmp.properties.m == map["status" := c]
  }

  lemma TrainStatusAgain(cmp: Comparator, c: Cast, s: string)
    requires OnlyStatus(cmp, c)
    ensures OnlyStatus(TrainSingle(cmp, Status(s)), Shape(c, Cat(s)))
  {
    TrainStatus(cmp, s);
  }

  /** The Cast of the statuses `ok`, `ok`. */
  function OkOk(): Cast {
    Shape(Shape(Casts.New(0.0, NoPropagation), Cat("ok")), Cat("ok"))
  }

  /** The Cast of the statuses `ok`, `ok`, `fail`. */
  function OkOkFail(): Cast {
    Shape(OkOk(), Cat("fail"))
  }

  lemma OkOkHistogram()
    ensures OkOk().Valid() && OkOk().spread == 0.0
    ensures OkOk().xy.keys == [Cat("ok")] && OkOk().Count(Cat("ok")) == 2
  {
    var c0 := Casts.New(0.0, NoPropagation);
    ShapeUnseen(c0, Cat("ok"));
    var c1 := Shape(c0, Cat("ok"));
    assert Cat("ok") in c1.xy.m;
  }

  /** Observing `fail` after `ok` twice. */
  lemma ShapeFail(c: Cast)
    requires c.Valid() && c.spread == 0.0
    requires c.xy.keys == [Cat("ok")] && c.Count(Cat("ok")) == 2
    ensures Shape(c, Cat("fail")).xy.keys == [Cat("ok"), Cat("fail")]
    ensures Shape(c, Cat("fail")).Count(Cat("ok")) == 2 && Shape(c, Cat("fail")).Count(Cat("fail")) == 1
    ensures Shape(c, Cat("fail")).spread == 0.0
  {
    assert Cat("fail") !in c.xy.m;
  }

  lemma OkOkFailHistogram()
    ensures OkOkFail().xy.keys == [Cat("ok"), Cat("fail")]
    ensures OkOkFail().Count(Cat("ok")) == 2 && OkOkFail().Count(Cat("fail")) == 1
    ensures OkOkFail().spread == 0.0
  {
    OkOkHistogram();
    ShapeFail(OkOk());
  }

  lemma StatusHistogram()
    ensures StatusShaped(StatusTrained())
  {
    var cmp0 := Comparators.New(map[]);
    var cmp1 := TrainSingle(cmp0, Status("ok"));
    TrainStatus(cmp0, "ok");
    var c1 := Shape(Casts.New(0.0, NoPropagation), Cat("ok"));
    assert OnlyStatus(cmp1, c1);
    var cmp2 := TrainSingle(cmp1, Status("ok"));
    TrainStatusAgain(cmp1, c1, "ok");
    TrainStatusAgain(cmp2, Shape(c1, Cat("ok")), "fail");
    OkOkFailHistogram();
  }

  /** The facts StatusHistogram establishes, about any comparator. */
  ghost predicate StatusShaped(cmp: Comparator) {
    && cmp.properties.keys == ["status"]
    && "status" in cmp.properties.m
    && var c := cmp.properties.m["status"];
      c.xy.keys == [Cat("ok"), Cat("fail")] &&
      c.Count(Cat("ok")) == 2 && c.Count(Cat("fail")) == 1 && c.spread == 0.0
  }

  /** Without spread, the heavier of `ok` (2) and `fail` (1) sets `maxY`. */
  lemma OkFailMaxY(c: Cast)
    requires c.xy.keys == [Cat("ok"), Cat("fail")]
    requires c.Count(Cat("ok")) == 2 && c.Count(Cat("fail")) == 1 && c.spread == 0.0
    ensures Casts.MaxY(c) == 2.0
  {
    MaxYWithoutSpread(c);
    assert [Cat("ok"), Cat("fail")][1..] == [Cat("fail")];
  }

  /** The only field weighs 2, its most frequent status. */
  lemma StatusTotal(cmp: Comparator)
    requires StatusShaped(cmp)
    ensures TotalMaxY(cmp) == 2.0
  {
    OkFailMaxY(cmp.properties.m["status"]);
    assert ["status"][1..] == [];
    assert FieldMaxY(cmp, "status") == 2.0;
  }

  /** The candidate `{ status: "ok" }` scores its full weight. */
  lemma StatusOkScore(cmp: Comparator, predict: Predictor)
    requires StatusShaped(cmp)
    ensures TotalMaxY(cmp) == 2.0
    ensures Test(cmp, Put(Empty(), "status", Single(Val(Cat("ok")))), predict) == 1.0
  {
    StatusTotal(cmp);
    var cand := Put(Empty(), "status", Single(Val(Cat("ok"))));
    assert FieldScore(cmp, cand, "status", predict) == 2.0;
    assert Sum(cand.keys, k => FieldScore(cmp, cand, k, predict)) == 2.0;
  }

  /** Trained on `ok`, `ok`, `fail`, the candidate `{ status: "ok" }` scores
      2 out of a possible 2. */
  lemma StatusScoresOne(predict: Predictor)
    ensures TotalMaxY(StatusTrained()) == 2.0
    ensures Test(StatusTrained(), Put(Empty(), "status", Single(Val(Cat("ok")))), predict) == 1.0
  {
    StatusHistogram();
    StatusOkScore(StatusTrained(), predict);
  }
}
