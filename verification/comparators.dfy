/** The record-level comparator of src/comparator.js: one Cast per field,
    created the first time the field is trained, and a score for a candidate
    record that divides the summed per-field comparisons by the summed
    `maxY` of every trained field. */
module Comparators {
  import opened Sums
  import opened OrderedMaps
  import opened Casts

  /** A field's configured `[spread, propagation]`. */
  datatype FieldConfig = FieldConfig(spread: real, propagation: Propagation)

  type Config = map<string, FieldConfig>

  /** A field of a record: a value, or JavaScript `undefined`. */
  datatype Field = Val(v: Value) | Undefined

  /** A flat record, field name to field, in property order. */
  type Record = OMap<string, Field>

  /** A candidate field: a scalar, or an array of which only the first
      element is scored. */
  datatype Probe = Single(f: Field) | Many(items: seq<Field>)

  type Candidate = OMap<string, Probe>

  /** The argument of `train`: one record or an array of them. */
  datatype TrainInput = One(record: Record) | Batch(records: seq<Record>)

  datatype Comparator = Comparator(config: Config, properties: OMap<string, Cast>)
  {
    /** Every trained field has a valid, non-empty Cast. */
    ghost predicate Valid() {
      && properties.Valid()
      && forall k :: k in properties.m ==> properties.m[k].Valid() && !properties.m[k].Empty()
    }

    /** How often field k has been observed with value v (0 if untrained). */
    function CountIn(k: string, v: Value): nat {
      if k in properties.m then properties.m[k].Count(v) else 0
    }
  }

  /** The histogram key a field is stored under: an object property key is
      a string, so `undefined` lands on the key "undefined". */
  function Key(f: Field): (v: Value)
    ensures f.Val? ==> v == f.v
    ensures v == Cat("undefined") <==> f == Undefined || f == Val(Cat("undefined"))
  {
    match f
    case Val(v) => v
    case Undefined => Cat("undefined")
  }

  /** The configured spread of a field, 0 when unconfigured. */
  function SpreadOf(config: Config, k: string): real {
    if k in config then config[k].spread else 0.0
  }

  /** The configured propagation of a field, none when unconfigured. */
  function PropagationOf(config: Config, k: string): Propagation {
    if k in config then config[k].propagation else NoPropagation
  }

  /** `new Comparator(config)`. */
  function New(config: Config): (c: Comparator)
    ensures c.Valid() && c.config == config && |c.properties.keys| == 0
  {
    Comparator(config, Empty())
  }

  /** The Cast a field is trained into: the existing one, or a fresh one
      seeded from the configuration. */
  function CastFor(cmp: Comparator, k: string): (c: Cast)
    ensures k in cmp.properties.m ==> c == cmp.properties.m[k]
    ensures k !in cmp.properties.m ==>
      c.Valid() && c.Empty() && c.spread == SpreadOf(cmp.config, k) && c.propagation == PropagationOf(cmp.config, k)
  {
    if k in cmp.properties.m then cmp.properties.m[k]
    else Casts.New(SpreadOf(cmp.config, k), PropagationOf(cmp.config, k))
  }

  /** Field k of `after` is field k of `before` with the count of v raised
      by n and every other count kept; an existing Cast keeps its spread and
      propagation, a new one takes the configured ones. */
  ghost predicate Trained(before: Comparator, after: Comparator, k: string, v: Value, n: nat) {
    && k in after.properties.m
    && after.CountIn(k, v) == before.CountIn(k, v) + n
    && (forall u :: u != v ==> after.CountIn(k, u) == before.CountIn(k, u))
    && (k in before.properties.m ==>
          after.properties.m[k].spread == before.properties.m[k].spread &&
          after.properties.m[k].propagation == before.properties.m[k].propagation)
    && (k !in before.properties.m ==>
          after.properties.m[k].spread == SpreadOf(before.config, k) &&
          after.properties.m[k].propagation == PropagationOf(before.config, k))
  }

  /** Field j is the same, or equally absent, in `before` and `after`. */
  ghost predicate Untouched(before: Comparator, after: Comparator, j: string) {
    && (j in after.properties.m <==> j in before.properties.m)
    && (j in before.properties.m ==> after.properties.m[j] == before.properties.m[j])
  }

  /** Training a field and then leaving it alone trains it. */
  lemma TrainedThenUntouched(a: Comparator, b: Comparator, c: Comparator, k: string, v: Value, n: nat)
    requires Trained(a, b, k, v, n) && Untouched(b, c, k)
    ensures Trained(a, c, k, v, n)
  {
  }

  /** Leaving a field alone and then training it trains it, as long as the
      configuration is the same. */
  lemma UntouchedThenTrained(a: Comparator, b: Comparator, c: Comparator, k: string, v: Value, n: nat)
    requires a.config == b.config
    requires Untouched(a, b, k) && Trained(b, c, k, v, n)
    ensures Trained(a, c, k, v, n)
  {
  }

  /** One iteration of the `trainSingle` loop: shape field k with f. */
  function TrainField(cmp: Comparator, k: string, f: Field): (r: Comparator)
    ensures r.config == cmp.config
    ensures Trained(cmp, r, k, Key(f), 1)
    ensures forall j :: j != k ==> Untouched(cmp, r, j)
    ensures cmp.Valid() ==> r.Valid()
  {
    var c := Shape(CastFor(cmp, k), Key(f));
    cmp.(properties := Put(cmp.properties, k, c))
  }

  /** The `for (let key in obj)` loop of `trainSingle`, over the keys ks
      still to visit. */
  function TrainFields(cmp: Comparator, rec: Record, ks: seq<string>): (r: Comparator)
    requires Distinct(ks)
    ensures r.config == cmp.config
    ensures forall k :: k in ks ==> Trained(cmp, r, k, Key(rec.Get(k, Undefined)), 1)
    ensures forall j :: j !in ks ==> Untouched(cmp, r, j)
    ensures cmp.Valid() ==> r.Valid()
    decreases |ks|
  {
    if |ks| == 0 then cmp
    else
      var mid := TrainField(cmp, ks[0], rec.Get(ks[0], Undefined));
      var r := TrainFields(mid, rec, ks[1..]);
      TrainFieldsStep(cmp, mid, r, rec, ks);
      r
  }

  /** The recursive step of TrainFields: the first key is trained by the
      first iteration and left alone by the rest, every later key the other
      way round. */
  lemma TrainFieldsStep(cmp: Comparator, mid: Comparator, r: Comparator, rec: Record, ks: seq<string>)
    requires Distinct(ks) && |ks| > 0
    requires mid.config == cmp.config
    requires Trained(cmp, mid, ks[0], Key(rec.Get(ks[0], Undefined)), 1)
    requires forall j :: j != ks[0] ==> Untouched(cmp, mid, j)
    requires forall k :: k in ks[1..] ==> Trained(mid, r, k, Key(rec.Get(k, Undefined)), 1)
    requires forall j :: j !in ks[1..] ==> Untouched(mid, r, j)
    ensures forall k :: k in ks ==> Trained(cmp, r, k, Key(rec.Get(k, Undefined)), 1)
    ensures forall j :: j !in ks ==> Untouched(cmp, r, j)
  {
    assert ks[0] !in ks[1..];
    forall k | k in ks
      ensures Trained(cmp, r, k, Key(rec.Get(k, Undefined)), 1)
    {
      if k == ks[0] {
        TrainedThenUntouched(cmp, mid, r, k, Key(rec.Get(k, Undefined)), 1);
      } else {
        assert k in ks[1..];
        UntouchedThenTrained(cmp, mid, r, k, Key(rec.Get(k, Undefined)), 1);
      }
    }
    forall j | j !in ks
      ensures Untouched(cmp, r, j)
    {
      assert j != ks[0] && j !in ks[1..];
      assert Untouched(cmp, mid, j) && Untouched(mid, r, j);
    }
  }

  /** `trainSingle(obj)`: every field of the record is shaped once, a Cast
      being created for a field seen for the first time. */
  function TrainSingle(cmp: Comparator, rec: Record): (r: Comparator)
    requires rec.Valid()
    ensures r.config == cmp.config
    ensures forall k :: k in rec.m ==> Trained(cmp, r, k, Key(rec.m[k]), 1)
    ensures forall j :: j !in rec.m ==> Untouched(cmp, r, j)
    ensures cmp.Valid() ==> r.Valid()
  {
    TrainFields(cmp, rec, rec.keys)
  }

  /** `value.forEach(v => this.trainSingle(v))`. */
  function TrainEach(cmp: Comparator, rs: seq<Record>): (r: Comparator)
    requires forall i :: 0 <= i < |rs| ==> rs[i].Valid()
    ensures r.config == cmp.config
    ensures cmp.Valid() ==> r.Valid()
    decreases |rs|
  {
    if |rs| == 0 then cmp else TrainEach(TrainSingle(cmp, rs[0]), rs[1..])
  }

  /** `train(value)`: an array trains each record in turn, anything else is
      a single record. */
  function Train(cmp: Comparator, input: TrainInput): (r: Comparator)
    requires input.One? ==> input.record.Valid()
    requires input.Batch? ==> forall i :: 0 <= i < |input.records| ==> input.records[i].Valid()
    ensures r.config == cmp.config
    ensures cmp.Valid() ==> r.Valid()
  {
    match input
    case One(rec) => TrainSingle(cmp, rec)
    case Batch(rs) => TrainEach(cmp, rs)
  }

  /** Training an array is training its records one after another: the
      last record is trained on top of all the ones before it. */
  lemma {:induction false} TrainEachSnoc(cmp: Comparator, rs: seq<Record>, rec: Record)
    requires forall i :: 0 <= i < |rs| ==> rs[i].Valid()
    requires rec.Valid()
    ensures TrainEach(cmp, rs + [rec]) == TrainSingle(TrainEach(cmp, rs), rec)
    decreases |rs|
  {
    if |rs| == 0 {
      assert rs + [rec] == [rec];
    } else {
      assert (rs + [rec])[1..] == rs[1..] + [rec];
      TrainEachSnoc(TrainSingle(cmp, rs[0]), rs[1..], rec);
    }
  }

  /** A lone record and the one-element array holding it train alike. */
  lemma TrainOneIsBatchOfOne(cmp: Comparator, rec: Record)
    requires rec.Valid()
    ensures Train(cmp, One(rec)) == Train(cmp, Batch([rec]))
  {
    assert [rec][1..] == [];
    assert TrainEach(cmp, [rec]) == TrainEach(TrainSingle(cmp, rec), []);
  }

  /** The `maxY` of field k, 0 for an untrained field. */
  function FieldMaxY(cmp: Comparator, k: string): (r: real)
    ensures r >= 0.0
    ensures k !in cmp.properties.m ==> r == 0.0
  {
    if k in cmp.properties.m then MaxY(cmp.properties.m[k]) else 0.0
  }

  /** The denominator of `test`: `maxY` summed over every trained field. */
  function TotalMaxY(cmp: Comparator): (r: real)
    ensures r >= 0.0
  {
    SumNonNegative(cmp.properties.keys, k => FieldMaxY(cmp, k));
    Sum(cmp.properties.keys, k => FieldMaxY(cmp, k))
  }

  /** Once any field is trained the denominator of `test` is at least 1, so
      the score is defined. */
  lemma TotalMaxYPositive(cmp: Comparator)
    requires cmp.Valid() && |cmp.properties.keys| > 0
    ensures TotalMaxY(cmp) >= 1.0
  {
    var f := k => FieldMaxY(cmp, k);
    SumNonNegative(cmp.properties.keys, f);
    TrainedFieldWeighs(cmp, cmp.properties.keys[0]);
    SumAtLeastTerm(cmp.properties.keys, f, 0);
  }

  /** A trained field's `maxY` is at least 1. */
  lemma TrainedFieldWeighs(cmp: Comparator, k: string)
    requires cmp.Valid() && k in cmp.properties.m
    ensures FieldMaxY(cmp, k) >= 1.0
  {
    var c := cmp.properties.m[k];
    assert c.xy.keys[0] in c.xy.m;
  }

  /** The scalar a candidate field is scored by: an array's first element
      (`undefined` for an empty array). */
  function Scalar(p: Probe): (f: Field)
    ensures p.Single? ==> f == p.f
    ensures p.Many? ==> (f == Undefined && |p.items| == 0) || (|p.items| > 0 && f == p.items[0])
  {
    match p
    case Single(f) => f
    case Many(items) => if |items| > 0 then items[0] else Undefined
  }

  /** The score of candidate field k: its Cast's comparison, 0 when the
      field was never trained or is not in the candidate. */
  function FieldScore(cmp: Comparator, cand: Candidate, k: string, predict: Predictor): (r: real)
    ensures k !in cmp.properties.m || k !in cand.m ==> r == 0.0
  {
    if k in cmp.properties.m && k in cand.m then
      Compare(cmp.properties.m[k], Key(Scalar(cand.m[k])), predict)
    else 0.0
  }

  /** `test(obj)`. The division is unguarded in the source, so it is only
      defined once some trained field has a positive `maxY`. */
  function Test(cmp: Comparator, cand: Candidate, predict: Predictor): (r: real)
    requires TotalMaxY(cmp) > 0.0
    ensures |cand.keys| == 0 ==> r == 0.0
    ensures r * TotalMaxY(cmp) == Sum(cand.keys, k => FieldScore(cmp, cand, k, predict))
  {
    var total := TotalMaxY(cmp);
    var sum := Sum(cand.keys, k => FieldScore(cmp, cand, k, predict));
    assert |cand.keys| == 0 ==> sum == 0.0;
    QuotientScales(sum, total);
    sum / total
  }

  /** A field that was never trained adds nothing to a candidate's score. */
  lemma UntrainedFieldIgnored(cmp: Comparator, cand: Candidate, k: string, p: Probe, predict: Predictor)
    requires TotalMaxY(cmp) > 0.0
    requires cand.Valid()
    requires k !in cmp.properties.m && k !in cand.m
    ensures Test(cmp, Put(cand, k, p), predict) == Test(cmp, cand, predict)
  {
    var cand' := Put(cand, k, p);
    SumAppend(cand.keys, k, j => FieldScore(cmp, cand', j, predict));
    SumCongruent(cand.keys, j => FieldScore(cmp, cand', j, predict), j => FieldScore(cmp, cand, j, predict));
  }

  /** An array is scored by its first element. */
  lemma ArrayScoredByHead(cmp: Comparator, cand: Candidate, k: string, items: seq<Field>, predict: Predictor)
    requires TotalMaxY(cmp) > 0.0
    requires cand.Valid() && |items| > 0
    ensures Test(cmp, Put(cand, k, Many(items)), predict) == Test(cmp, Put(cand, k, Single(items[0])), predict)
  {
    var c1 := Put(cand, k, Many(items));
    var c2 := Put(cand, k, Single(items[0]));
    SumCongruent(c1.keys, j => FieldScore(cmp, c1, j, predict), j => FieldScore(cmp, c2, j, predict));
  }

  /** Every trained field has no spread and no propagation: each field is
      then scored by an exact count. */
  ghost predicate ExactFields(cmp: Comparator) {
    forall k :: k in cmp.properties.m ==>
      cmp.properties.m[k].spread == 0.0 && cmp.properties.m[k].propagation == NoPropagation
  }

  /** Under exact scoring a field scores the raw count of its value, which
      its `maxY` bounds. */
  lemma ExactFieldScore(cmp: Comparator, cand: Candidate, k: string, predict: Predictor)
    requires cmp.Valid() && ExactFields(cmp)
    ensures FieldScore(cmp, cand, k, predict) == (if k in cand.m then cmp.CountIn(k, Key(Scalar(cand.m[k]))) as real else 0.0)
    ensures 0.0 <= FieldScore(cmp, cand, k, predict) <= FieldMaxY(cmp, k)
  {
    if k in cmp.properties.m && k in cand.m {
      var c := cmp.properties.m[k];
      var v := Key(Scalar(cand.m[k]));
      if c.Count(v) > 0 {
        var i :| 0 <= i < |c.xy.keys| && c.xy.keys[i] == v;
      }
    }
  }

  /** Under exact scoring the summed field scores of a candidate are at
      most the summed `maxY` of its own fields. */
  lemma {:induction false} ExactScoresBelowWeights(cmp: Comparator, cand: Candidate, predict: Predictor)
    requires cmp.Valid() && ExactFields(cmp)
    ensures 0.0 <= Sum(cand.keys, k => FieldScore(cmp, cand, k, predict))
    ensures Sum(cand.keys, k => FieldScore(cmp, cand, k, predict)) <= Sum(cand.keys, k => FieldMaxY(cmp, k))
  {
    forall i | 0 <= i < |cand.keys|
      ensures 0.0 <= FieldScore(cmp, cand, cand.keys[i], predict) <= FieldMaxY(cmp, cand.keys[i])
    {
      ExactFieldScore(cmp, cand, cand.keys[i], predict);
    }
    SumNonNegative(cand.keys, k => FieldScore(cmp, cand, k, predict));
    SumMonotone(cand.keys, k => FieldScore(cmp, cand, k, predict), k => FieldMaxY(cmp, k));
  }

  /** The summed `maxY` of a candidate's fields is at most that of all
      trained fields. */
  lemma CandidateWeightsBelowTotal(cmp: Comparator, cand: Candidate)
    requires cmp.properties.Valid() && cand.Valid()
    ensures Sum(cand.keys, k => FieldMaxY(cmp, k)) <= TotalMaxY(cmp)
  {
    var w := k => FieldMaxY(cmp, k);
    forall i | 0 <= i < |cand.keys|
      ensures cand.keys[i] in cmp.properties.keys || w(cand.keys[i]) == 0.0
    {
    }
    SumSubset(cand.keys, cmp.properties.keys, w);
  }

  /** With exact scoring everywhere, a score lies between 0 and 1. */
  lemma {:induction false} ExactScoreBounded(cmp: Comparator, cand: Candidate, predict: Predictor)
    requires cmp.Valid() && ExactFields(cmp) && cand.Valid()
    requires |cmp.properties.keys| > 0
    ensures TotalMaxY(cmp) > 0.0
    ensures 0.0 <= Test(cmp, cand, predict) <= 1.0
  {
    TotalMaxYPositive(cmp);
    ExactScoresBelowWeights(cmp, cand, predict);
    CandidateWeightsBelowTotal(cmp, cand);
    QuotientInUnit(Sum(cand.keys, k => FieldScore(cmp, cand, k, predict)), TotalMaxY(cmp));
  }

  /** Dividing by a non-zero total and multiplying back is the identity,
      and a non-negative ratio of non-negative parts stays non-negative. */
  lemma QuotientScales(num: real, total: real)
    requires total != 0.0
    ensures (num / total) * total == num
    ensures num == 0.0 ==> num / total == 0.0
    ensures num >= 0.0 && total > 0.0 ==> num / total >= 0.0
  {
  }

  lemma QuotientInUnit(num: real, total: real)
    requires 0.0 <= num <= total && total > 0.0
    ensures 0.0 <= num / total <= 1.0
  {
  }
}
