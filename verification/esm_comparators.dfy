/** The comparator of the dist/comparator.esm.js build. Training creates a
    field's Cast even for an empty or missing value but only shapes real
    values; `test` returns 0 instead of dividing by a zero total; and
    `intersection` scores a candidate against each field's best-matching
    group. Records, configuration and the Comparator record itself are
    those of Comparators. */
module EsmComparators {
  import opened Sums
  import opened OrderedMaps
  import opened Casts
  import opened Comparators
  import EsmCasts

  /** A candidate record of this build: no array unwrapping. */
  type EsmCandidate = OMap<string, Field>

  /** Every Cast is valid; unlike Comparators.Comparator.Valid, a Cast may
      be empty. */
  ghost predicate Valid(cmp: Comparator) {
    && cmp.properties.Valid()
    && forall k :: k in cmp.properties.m ==> cmp.properties.m[k].Valid()
  }

  /** `value !== '' && value !== undefined` fails: the field is not shaped. */
  function Skipped(f: Field): (b: bool)
    ensures f == Undefined ==> b
    ensures f.Val? && f.v.Num? ==> !b
    ensures f.Val? && f.v.Cat? ==> (b <==> f.v.s == "")
  {
    f == Undefined || f == Val(Cat(""))
  }

  /** How much training with f raises the count of its key: nothing for a
      skipped field. */
  function Increment(f: Field): nat {
    if Skipped(f) then 0 else 1
  }

  /** One iteration of the `trainSingle` loop of this build. */
  function TrainField(cmp: Comparator, k: string, f: Field): (r: Comparator)
    ensures r.config == cmp.config
    ensures Trained(cmp, r, k, Key(f), Increment(f))
    ensures forall j :: j != k ==> Untouched(cmp, r, j)
    ensures Valid(cmp) ==> Valid(r)
  {
    var c := CastFor(cmp, k);
    cmp.(properties := Put(cmp.properties, k, if Skipped(f) then c else Shape(c, Key(f))))
  }

  /** The `for (let key in obj)` loop of `trainSingle`, over the keys ks
      still to visit. */
  function TrainFields(cmp: Comparator, rec: Record, ks: seq<string>): (r: Comparator)
    requires Distinct(ks)
    ensures r.config == cmp.config
    ensures forall k :: k in ks ==>
      Trained(cmp, r, k, Key(rec.Get(k, Undefined)), Increment(rec.Get(k, Undefined)))
    ensures forall j :: j !in ks ==> Untouched(cmp, r, j)
    ensures Valid(cmp) ==> Valid(r)
    decreases |ks|
  {
    if |ks| == 0 then cmp
    else
      var mid := TrainField(cmp, ks[0], rec.Get(ks[0], Undefined));
      var r := TrainFields(mid, rec, ks[1..]);
      TrainFieldsStep(cmp, mid, r, rec, ks);
      r
  }

  /** The recursive step of TrainFields, as for Comparators.TrainFields. */
  lemma TrainFieldsStep(cmp: Comparator, mid: Comparator, r: Comparator, rec: Record, ks: seq<string>)
    requires Distinct(ks) && |ks| > 0
    requires mid.config == cmp.config
    requires Trained(cmp, mid, ks[0], Key(rec.Get(ks[0], Undefined)), Increment(rec.Get(ks[0], Undefined)))
    requires forall j :: j != ks[0] ==> Untouched(cmp, mid, j)
    requires forall k :: k in ks[1..] ==>
      Trained(mid, r, k, Key(rec.Get(k, Undefined)), Increment(rec.Get(k, Undefined)))
    requires forall j :: j !in ks[1..] ==> Untouched(mid, r, j)
    ensures forall k :: k in ks ==>
      Trained(cmp, r, k, Key(rec.Get(k, Undefined)), Increment(rec.Get(k, Undefined)))
    ensures forall j :: j !in ks ==> Untouched(cmp, r, j)
  {
    assert ks[0] !in ks[1..];
    forall k | k in ks
      ensures Trained(cmp, r, k, Key(rec.Get(k, Undefined)), Increment(rec.Get(k, Undefined)))
    {
      var f := rec.Get(k, Undefined);
      if k == ks[0] {
        TrainedThenUntouched(cmp, mid, r, k, Key(f), Increment(f));
      } else {
        assert k in ks[1..];
        UntouchedThenTrained(cmp, mid, r, k, Key(f), Increment(f));
      }
    }
    forall j | j !in ks
      ensures Untouched(cmp, r, j)
    {
      assert j != ks[0] && j !in ks[1..];
      assert Untouched(cmp, mid, j) && Untouched(mid, r, j);
    }
  }

  /** `trainSingle(obj)` of this build: every field of the record gets a
      Cast, and every field with a real value is shaped once. */
  function TrainSingle(cmp: Comparator, rec: Record): (r: Comparator)
    requires rec.Valid()
    ensures r.config == cmp.config
    ensures forall k :: k in rec.m ==> Trained(cmp, r, k, Key(rec.m[k]), Increment(rec.m[k]))
    ensures forall j :: j !in rec.m ==> Untouched(cmp, r, j)
    ensures Valid(cmp) ==> Valid(r)
  {
    TrainFields(cmp, rec, rec.keys)
  }

  /** `value.forEach(v => this.trainSingle(v))`. */
  function TrainEach(cmp: Comparator, rs: seq<Record>): (r: Comparator)
    requires forall i :: 0 <= i < |rs| ==> rs[i].Valid()
    ensures r.config == cmp.config
    ensures Valid(cmp) ==> Valid(r)
    decreases |rs|
  {
    if |rs| == 0 then cmp else TrainEach(TrainSingle(cmp, rs[0]), rs[1..])
  }

  /** `train(value)`: an array trains each record in turn, anything else is
      a single record. */
  function Train(cmp: Comparator, input: TrainInput): (r: Comparator)
    requires input.One? ==> input.record.Valid()
    requires input.Batch? ==> forall i :: 0 <= i < |input.records| ==> input.records[i].Valid()
    ensures r.config == cmp.config
    ensures Valid(cmp) ==> Valid(r)
  {
    match input
    case One(rec) => TrainSingle(cmp, rec)
    case Batch(rs) => TrainEach(cmp, rs)
  }

  /** Training an array is training its records one after another: `train`
      of an array ending in rec is `train` of the rest, then `train(rec)`. */
  lemma {:induction false} TrainEachSnoc(cmp: Comparator, rs: seq<Record>, rec: Record)
    requires forall i :: 0 <= i < |rs| ==> rs[i].Valid()
    requires rec.Valid()
    ensures TrainEach(cmp, rs + [rec]) == TrainSingle(TrainEach(cmp, rs), rec)
    ensures Train(cmp, Batch(rs + [rec])) == Train(Train(cmp, Batch(rs)), One(rec))
    decreases |rs|
  {
    if |rs| == 0 {
      assert rs + [rec] == [rec];
    } else {
      assert (rs + [rec])[1..] == rs[1..] + [rec];
      TrainEachSnoc(TrainSingle(cmp, rs[0]), rs[1..], rec);
    }
  }

  /** The `maxY` of field k, 0 for an untrained field. */
  function FieldMaxY(cmp: Comparator, k: string): (r: real)
    ensures r >= 0.0
    ensures k !in cmp.properties.m ==> r == 0.0
  {
    if k in cmp.properties.m then EsmCasts.MaxY(cmp.properties.m[k]) else 0.0
  }

  /** The `totalOutput` getter: `maxY` summed over every trained field. */
  function TotalOutput(cmp: Comparator): (r: real)
    ensures r >= 0.0
  {
    SumNonNegative(cmp.properties.keys, k => FieldMaxY(cmp, k));
    Sum(cmp.properties.keys, k => FieldMaxY(cmp, k))
  }

  /** `totalOutput` is 0, the case `test` guards against, exactly when no
      trained field has a positive `maxY`, as when every field so far was
      skipped. */
  lemma TotalOutputZero(cmp: Comparator)
    ensures TotalOutput(cmp) == 0.0 <==>
      forall k :: k in cmp.properties.keys ==> FieldMaxY(cmp, k) == 0.0
  {
    SumZeroExactly(cmp.properties.keys, k => FieldMaxY(cmp, k));
  }

  /** The `maxOutput` getter: the largest `maxY` of any trained field. */
  function MaxOutput(cmp: Comparator): (r: real)
    ensures r >= 0.0
    ensures forall k :: k in cmp.properties.keys ==> FieldMaxY(cmp, k) <= r
    ensures r == 0.0 || exists k :: k in cmp.properties.keys && r == FieldMaxY(cmp, k)
  {
    Max0(cmp.properties.keys, k => FieldMaxY(cmp, k))
  }

  /** The total never falls below the largest single field. */
  lemma TotalAtLeastMax(cmp: Comparator)
    ensures TotalOutput(cmp) >= MaxOutput(cmp)
  {
    SumAtLeastMax(cmp.properties.keys, k => FieldMaxY(cmp, k));
  }

  /** The score of candidate field k under this build's `compare`. */
  function FieldScore(cmp: Comparator, cand: EsmCandidate, k: string, predict: Predictor): (r: real)
    ensures r >= 0.0
    ensures k !in cmp.properties.m || k !in cand.m ==> r == 0.0
    ensures k in cmp.properties.m && k in cand.m ==>
      r == EsmCasts.Compare(cmp.properties.m[k], Key(cand.m[k]), predict)
  {
    if k in cmp.properties.m && k in cand.m then
      EsmCasts.Compare(cmp.properties.m[k], Key(cand.m[k]), predict)
    else 0.0
  }

  /** `test(obj)` of this build: 0 when the total is 0, otherwise the summed
      field scores over the total. */
  function Test(cmp: Comparator, cand: EsmCandidate, predict: Predictor): (r: real)
    ensures r >= 0.0
    ensures TotalOutput(cmp) == 0.0 || |cand.keys| == 0 ==> r == 0.0
    ensures TotalOutput(cmp) != 0.0 ==>
      r * TotalOutput(cmp) == Sum(cand.keys, k => FieldScore(cmp, cand, k, predict))
  {
    SumNonNegative(cand.keys, k => FieldScore(cmp, cand, k, predict));
    Quotient(Sum(cand.keys, k => FieldScore(cmp, cand, k, predict)), TotalOutput(cmp))
  }

  /** `total ? num / total : 0`, the guarded division of `test` and
      `intersection`: 0 for a zero total, otherwise the ratio, which lies in
      [0, 1] when the numerator is between 0 and the total. */
  function Quotient(num: real, total: real): (r: real)
    ensures total == 0.0 ==> r == 0.0
    ensures total != 0.0 ==> r * total == num
    ensures num >= 0.0 && total >= 0.0 ==> r >= 0.0
    ensures 0.0 <= num <= total ==> r <= 1.0
  {
    if total == 0.0 then 0.0
    else
      QuotientScales(num, total);
      assert 0.0 <= num <= total ==> num / total <= 1.0 by {
        if 0.0 <= num <= total {
          QuotientInUnit(num, total);
        }
      }
      num / total
  }

  /** The `intersection` inputs this model covers: a numeric candidate value
      is positive and is scored against a Cast of positive numbers. */
  predicate IntersectReady(cmp: Comparator, cand: EsmCandidate) {
    forall k :: k in cand.m && k in cmp.properties.m ==>
      EsmCasts.IntersectReady(cmp.properties.m[k], Key(cand.m[k]))
  }

  /** Field k's share of the `intersection` numerator. */
  function FieldIntersection(cmp: Comparator, cand: EsmCandidate, k: string): (r: real)
    ensures r >= 0.0
    ensures k !in cand.m || k !in cmp.properties.m ==> r == 0.0
  {
    if k in cand.m && k in cmp.properties.m && EsmCasts.IntersectReady(cmp.properties.m[k], Key(cand.m[k]))
    then EsmCasts.Intersection(cmp.properties.m[k], Key(cand.m[k]))
    else 0.0
  }

  /** Field k's share of the `intersection` denominator: the weight of its
      best-matching group. */
  function FieldBestWeight(cmp: Comparator, cand: EsmCandidate, k: string): (r: real)
    ensures r >= 0.0
    ensures k !in cand.m || k !in cmp.properties.m ==> r == 0.0
    ensures k in cmp.properties.m ==> r <= EsmCasts.MaxY(cmp.properties.m[k])
  {
    if k in cand.m && k in cmp.properties.m && EsmCasts.IntersectReady(cmp.properties.m[k], Key(cand.m[k]))
    then EsmCasts.FindMaxGroup(cmp.properties.m[k], Key(cand.m[k])).y
    else 0.0
  }

  /** Each field's share of the numerator lies between 0 and its share of
      the denominator. */
  lemma FieldIntersectionBounded(cmp: Comparator, cand: EsmCandidate, k: string)
    requires Valid(cmp)
    ensures 0.0 <= FieldIntersection(cmp, cand, k) <= FieldBestWeight(cmp, cand, k)
  {
    if k in cand.m && k in cmp.properties.m && EsmCasts.IntersectReady(cmp.properties.m[k], Key(cand.m[k])) {
      var c := cmp.properties.m[k];
      var v := Key(cand.m[k]);
      if !c.Empty() && v.Cat? && c.Count(v) > 0 {
        assert v in c.xy.keys;
        assert EsmCasts.Weight(c, v) <= EsmCasts.MaxY(c);
      }
    }
  }

  /** The numerator of `intersection(obj)`: every field's best-group score. */
  function ScoreSum(cmp: Comparator, cand: EsmCandidate): real {
    Sum(cand.keys, k => FieldIntersection(cmp, cand, k))
  }

  /** The denominator of `intersection(obj)`: every field's best-group
      weight. */
  function WeightSum(cmp: Comparator, cand: EsmCandidate): real {
    Sum(cand.keys, k => FieldBestWeight(cmp, cand, k))
  }

  /** `intersection(obj)`: the summed best-group scores over the summed
      best-group weights, 0 when those weights sum to 0. */
  function Intersection(cmp: Comparator, cand: EsmCandidate): (r: real)
    requires IntersectReady(cmp, cand)
    ensures WeightSum(cmp, cand) == 0.0 ==> r == 0.0
    ensures WeightSum(cmp, cand) != 0.0 ==> r * WeightSum(cmp, cand) == ScoreSum(cmp, cand)
    ensures Valid(cmp) ==> 0.0 <= r <= 1.0
  {
    IntersectionRatio(cmp, cand);
    Quotient(ScoreSum(cmp, cand), WeightSum(cmp, cand))
  }

  /** On a valid comparator the numerator lies between 0 and the
      denominator, so the ratio lies in [0, 1]. */
  lemma {:induction false} IntersectionRatio(cmp: Comparator, cand: EsmCandidate)
    ensures Valid(cmp) ==> 0.0 <= ScoreSum(cmp, cand) <= WeightSum(cmp, cand)
  {
    if Valid(cmp) {
      var f := k => FieldIntersection(cmp, cand, k);
      var g := k => FieldBestWeight(cmp, cand, k);
      forall i | 0 <= i < |cand.keys|
        ensures 0.0 <= f(cand.keys[i]) <= g(cand.keys[i])
      {
        FieldIntersectionBounded(cmp, cand, cand.keys[i]);
      }
      SumNonNegative(cand.keys, f);
      SumMonotone(cand.keys, f, g);
    }
  }
}
