/** The condition classifier and its reference tables
    (app/module_analysis/analysis_processor.py).

    `determine_condition` scores one subject's rows for each of the three
    conditions: a categorical score that adds, for every recognised label, a
    weight drawn uniformly from that condition's range for the label, and a
    dimensional score that counts arousal/valence/dominance values inside the
    label's typical ranges. Both scores are normalised by their total (when it
    is positive), added, and the condition with the highest final score wins,
    the first in the order no_disorder, depression, anxiety on a tie.

    The draws of `np.random.uniform` are an input: `draws(r, c, k)` is the
    weight drawn for row `r`, condition `c` and emotion slot `k`. The
    algorithm is written once, over a `Tables` value, so that the twin copy in
    app/persistance/analysis.py runs the same code on its own tables. */
module AnalysisProcessor {
  import opened Common
  import opened Strings
  import Sorting

  datatype Condition = NoDisorder | Depression | Anxiety

  /** The keys of `emotion_counts` in dict order: the order `max` scans them in. */
  const Conditions: seq<Condition> := [NoDisorder, Depression, Anxiety]

  /** Position of a condition in `Conditions`. */
  function Index(c: Condition): (i: nat)
    ensures i < |Conditions| && Conditions[i] == c
  {
    match c
    case NoDisorder => 0
    case Depression => 1
    case Anxiety => 2
  }

  /** The label written to the `Predicted_Condition` column. */
  function ConditionName(c: Condition): string {
    match c
    case NoDisorder => "no_disorder"
    case Depression => "depression"
    case Anxiety => "anxiety"
  }

  datatype Dimension = Arousal | Valence | Dominance

  /** The order of `dimensions = ["arousal", "valence", "dominance"]`. */
  const Dimensions: seq<Dimension> := [Arousal, Valence, Dominance]

  /** A closed interval `(low, high)`. */
  datatype Range = Range(low: real, high: real)

  /** `low <= x <= high`: both bounds belong to the range. */
  predicate InRange(x: real, r: Range) {
    r.low <= x <= r.high
  }

  /** `emotion_weights` (per condition, emotion -> weight range) and
      `emotion_dimension_map` (per emotion, dimension -> typical range). */
  datatype Tables = Tables(
    weights: map<Condition, map<string, Range>>,
    dimensions: map<string, map<Dimension, Range>>)

  /** Every condition has a weight table and every dimension table has all three dimensions. */
  ghost predicate WellFormed(t: Tables) {
    && (forall c: Condition :: c in t.weights)
    && (forall e | e in t.dimensions :: forall d: Dimension :: d in t.dimensions[e])
  }

  const EmotionWeights: map<Condition, map<string, Range>> := map[
    NoDisorder := map["neutral" := Range(30.0, 50.0), "happiness" := Range(20.0, 40.0),
                      "sadness" := Range(10.0, 20.0), "fear" := Range(5.0, 15.0),
                      "anger" := Range(5.0, 10.0), "disgust" := Range(5.0, 10.0)],
    Depression := map["sadness" := Range(40.0, 50.0), "disgust" := Range(10.0, 20.0),
                      "anger" := Range(10.0, 15.0), "fear" := Range(5.0, 15.0),
                      "neutral" := Range(10.0, 15.0), "happiness" := Range(0.0, 5.0)],
    Anxiety := map["fear" := Range(40.0, 60.0), "sadness" := Range(10.0, 20.0),
                   "anger" := Range(5.0, 15.0), "disgust" := Range(5.0, 10.0),
                   "neutral" := Range(5.0, 15.0), "happiness" := Range(5.0, 10.0)]]

  const EmotionDimensionMap: map<string, map<Dimension, Range>> := map[
    "happiness" := map[Arousal := Range(0.3, 0.7), Valence := Range(0.5, 1.0), Dominance := Range(0.5, 1.0)],
    "sadness" := map[Arousal := Range(0.0, 0.3), Valence := Range(-1.0, -0.5), Dominance := Range(-0.7, -0.3)],
    "fear" := map[Arousal := Range(0.6, 1.0), Valence := Range(-1.0, -0.5), Dominance := Range(-1.0, -0.6)],
    "disgust" := map[Arousal := Range(0.4, 0.8), Valence := Range(-1.0, -0.5), Dominance := Range(-0.7, -0.4)],
    "anger" := map[Arousal := Range(0.7, 1.0), Valence := Range(-0.7, -0.3), Dominance := Range(-0.5, -0.2)],
    "neutral" := map[Arousal := Range(0.2, 0.5), Valence := Range(-0.1, 0.1), Dominance := Range(0.0, 0.3)]]

  const ProcessorTables: Tables := Tables(EmotionWeights, EmotionDimensionMap)

  /** The six labels the tables know. */
  const KnownEmotions: set<string> := {"neutral", "happiness", "sadness", "fear", "anger", "disgust"}

  /** The shipped tables are well formed, and every condition's weight table and the
      dimension table list exactly the six known emotions. */
  lemma ProcessorTablesShape()
    ensures WellFormed(ProcessorTables)
    ensures forall c: Condition :: c in EmotionWeights && EmotionWeights[c].Keys == KnownEmotions
    ensures EmotionDimensionMap.Keys == KnownEmotions
  {
    forall c: Condition
      ensures c in EmotionWeights && EmotionWeights[c].Keys == KnownEmotions
    {
      match c
      case NoDisorder =>
      case Depression =>
      case Anxiety =>
    }
    forall e, d: Dimension | e in EmotionDimensionMap
      ensures d in EmotionDimensionMap[e]
    {
      match d
      case Arousal =>
      case Valence =>
      case Dominance =>
    }
  }

  /** One row of a subject: the three `Emotion_N_label` values and the dimensional scores. */
  datatype Row = Row(labels: seq<string>, arousal: real, valence: real, dominance: real)

  function Value(row: Row, d: Dimension): real {
    match d
    case Arousal => row.arousal
    case Valence => row.valence
    case Dominance => row.dominance
  }

  /** `draws(r, c, k)`: the weight `np.random.uniform` returns for row `r`, condition `c`, slot `k`. */
  type Draws = (nat, Condition, nat) -> real

  /** Every draw that the classifier uses lies in its label's range for that condition. */
  ghost predicate Admissible(t: Tables, rows: seq<Row>, draws: Draws) {
    forall r: nat, c: Condition, k: nat
      | r < |rows| && k < |rows[r].labels| && c in t.weights && rows[r].labels[k] in t.weights[c]
      :: InRange(draws(r, c, k), t.weights[c][rows[r].labels[k]])
  }

  /** A score per condition: the `emotion_counts`, `dimension_scores` and `final_scores` dicts. */
  datatype Scores = Scores(noDisorder: real, depression: real, anxiety: real) {

    function Get(c: Condition): real {
      match c
      case NoDisorder => noDisorder
      case Depression => depression
      case Anxiety => anxiety
    }

    /** `scores[c] = v` */
    function Set(c: Condition, v: real): (s: Scores)
      ensures s.Get(c) == v && forall d: Condition | d != c :: s.Get(d) == Get(d)
    {
      match c
      case NoDisorder => this.(noDisorder := v)
      case Depression => this.(depression := v)
      case Anxiety => this.(anxiety := v)
    }
  }

  const Zero: Scores := Scores(0.0, 0.0, 0.0)

  /** The weight added for condition `c` by the first `k` slots of row `r`. */
  function SlotWeights(t: Tables, labels: seq<string>, r: nat, c: Condition, draws: Draws, k: nat): real
    requires WellFormed(t) && k <= |labels|
  {
    if k == 0 then 0.0
    else SlotWeights(t, labels, r, c, draws, k - 1)
         + (if labels[k - 1] in t.weights[c] then draws(r, c, k - 1) else 0.0)
  }

  /** The raw categorical score `emotion_counts[c]` after all of `rows`. */
  function EmotionScore(t: Tables, rows: seq<Row>, draws: Draws, c: Condition): real
    requires WellFormed(t)
  {
    if rows == [] then 0.0
    else
      var r := |rows| - 1;
      EmotionScore(t, rows[..r], draws, c) + SlotWeights(t, rows[r].labels, r, c, draws, |rows[r].labels|)
  }

  /** How many of the first `n` dimensions of `row` fall in `emotion`'s ranges. */
  function DimensionHits(t: Tables, row: Row, emotion: string, n: nat): real
    requires WellFormed(t) && emotion in t.dimensions && n <= |Dimensions|
  {
    if n == 0 then 0.0
    else
      var d := Dimensions[n - 1];
      DimensionHits(t, row, emotion, n - 1)
      + (if InRange(Value(row, d), t.dimensions[emotion][d]) then 1.0 else 0.0)
  }

  /** The dimension points condition `c` gets from the first `k` slots of `row`. */
  function SlotHits(t: Tables, row: Row, c: Condition, k: nat): real
    requires WellFormed(t) && k <= |row.labels|
  {
    if k == 0 then 0.0
    else
      var e := row.labels[k - 1];
      SlotHits(t, row, c, k - 1)
      + (if e in t.dimensions && e in t.weights[c] then DimensionHits(t, row, e, |Dimensions|) else 0.0)
  }

  /** The raw dimensional score `dimension_scores[c]` after all of `rows`. */
  function DimensionScore(t: Tables, rows: seq<Row>, c: Condition): real
    requires WellFormed(t)
  {
    if rows == [] then 0.0
    else
      var r := |rows| - 1;
      DimensionScore(t, rows[..r], c) + SlotHits(t, rows[r], c, |rows[r].labels|)
  }

  function RawEmotionScores(t: Tables, rows: seq<Row>, draws: Draws): (m: Scores)
    requires WellFormed(t)
    ensures forall c: Condition :: m.Get(c) == EmotionScore(t, rows, draws, c)
  {
    Scores(EmotionScore(t, rows, draws, NoDisorder), EmotionScore(t, rows, draws, Depression),
           EmotionScore(t, rows, draws, Anxiety))
  }

  function RawDimensionScores(t: Tables, rows: seq<Row>): (m: Scores)
    requires WellFormed(t)
    ensures forall c: Condition :: m.Get(c) == DimensionScore(t, rows, c)
  {
    Scores(DimensionScore(t, rows, NoDisorder), DimensionScore(t, rows, Depression),
           DimensionScore(t, rows, Anxiety))
  }

  /** `sum(scores.values())` */
  function Total(m: Scores): real {
    m.noDisorder + m.depression + m.anxiety
  }

  /** Division by the total when the total is positive; otherwise the scores are kept. */
  function Normalize(m: Scores): Scores {
    var total := Total(m);
    if total > 0.0 then Scores(m.noDisorder / total, m.depression / total, m.anxiety / total) else m
  }

  /** Element-wise sum. */
  function Plus(a: Scores, b: Scores): Scores {
    Scores(a.noDisorder + b.noDisorder, a.depression + b.depression, a.anxiety + b.anxiety)
  }

  /** `final_scores`: normalised categorical plus normalised dimensional score. */
  function FinalScores(t: Tables, rows: seq<Row>, draws: Draws): Scores
    requires WellFormed(t)
  {
    Plus(Normalize(RawEmotionScores(t, rows, draws)), Normalize(RawDimensionScores(t, rows)))
  }

  /** `max(scores, key=scores.get)`: a condition with the highest score, the first one in
      `Conditions` order among equals. */
  function ArgMax(m: Scores): (best: Condition)
    ensures forall c: Condition :: m.Get(c) <= m.Get(best)
    ensures forall c: Condition :: Index(c) < Index(best) ==> m.Get(c) < m.Get(best)
  {
    var first := if m.depression > m.noDisorder then Depression else NoDisorder;
    if m.anxiety > m.Get(first) then Anxiety else first
  }

  /** The condition `determine_condition` returns for `rows` and `draws`. */
  function Classification(t: Tables, rows: seq<Row>, draws: Draws): Condition
    requires WellFormed(t)
  {
    ArgMax(FinalScores(t, rows, draws))
  }

  /** The categorical loop for one row: for every condition, for every slot whose label
      the condition's table lists, add that slot's draw. */
  method AddEmotionWeights(t: Tables, row: Row, r: nat, draws: Draws, counts: Scores) returns (updated: Scores)
    requires WellFormed(t)
    ensures forall c: Condition ::
      updated.Get(c) == counts.Get(c) + SlotWeights(t, row.labels, r, c, draws, |row.labels|)
  {
    updated := counts;
    var ci := 0;
    while ci < |Conditions|
      invariant 0 <= ci <= |Conditions|
      invariant forall c: Condition :: (updated.Get(c) ==
        if Index(c) < ci then counts.Get(c) + SlotWeights(t, row.labels, r, c, draws, |row.labels|)
        else counts.Get(c))
    {
      var condition := Conditions[ci];
      var emotions := t.weights[condition];
      var k := 0;
      while k < |row.labels|
        invariant 0 <= k <= |row.labels|
        invariant updated.Get(condition) == counts.Get(condition) + SlotWeights(t, row.labels, r, condition, draws, k)
        invariant forall c: Condition | c != condition :: (updated.Get(c) ==
          if Index(c) < ci then counts.Get(c) + SlotWeights(t, row.labels, r, c, draws, |row.labels|)
          else counts.Get(c))
      {
        var emotion := row.labels[k];
        if emotion in emotions {
          var weight := draws(r, condition, k);
          updated := updated.Set(condition, updated.Get(condition) + weight);
        }
        k := k + 1;
      }
      ci := ci + 1;
    }
  }

  /** The innermost dimensional loop: one point to every condition whose table lists `emotion`. */
  method CreditConditions(t: Tables, emotion: string, scores: Scores) returns (updated: Scores)
    requires WellFormed(t)
    ensures forall c: Condition ::
      updated.Get(c) == scores.Get(c) + (if emotion in t.weights[c] then 1.0 else 0.0)
  {
    updated := scores;
    var cj := 0;
    while cj < |Conditions|
      invariant 0 <= cj <= |Conditions|
      invariant forall c: Condition :: (updated.Get(c) ==
        scores.Get(c) + (if emotion in t.weights[c] && Index(c) < cj then 1.0 else 0.0))
    {
      var condition := Conditions[cj];
      if emotion in t.weights[condition] {
        updated := updated.Set(condition, updated.Get(condition) + 1.0);
      }
      cj := cj + 1;
    }
  }

  /** The dimensional loop for one row: for every slot whose label has dimension ranges,
      for every dimension inside its range, add one to every condition that lists the label. */
  method AddDimensionHits(t: Tables, row: Row, scores: Scores) returns (updated: Scores)
    requires WellFormed(t)
    ensures forall c: Condition :: updated.Get(c) == scores.Get(c) + SlotHits(t, row, c, |row.labels|)
  {
    updated := scores;
    var k := 0;
    while k < |row.labels|
      invariant 0 <= k <= |row.labels|
      invariant forall c: Condition :: updated.Get(c) == scores.Get(c) + SlotHits(t, row, c, k)
    {
      var emotion := row.labels[k];
      if emotion in t.dimensions {
        var di := 0;
        while di < |Dimensions|
          invariant 0 <= di <= |Dimensions|
          invariant forall c: Condition :: (updated.Get(c) ==
            scores.Get(c) + SlotHits(t, row, c, k)
            + (if emotion in t.weights[c] then DimensionHits(t, row, emotion, di) else 0.0))
        {
          var dimension := Dimensions[di];
          var dimValue := Value(row, dimension);
          var dimRange := t.dimensions[emotion][dimension];
          if dimRange.low <= dimValue <= dimRange.high {
            updated := CreditConditions(t, emotion, updated);
          }
          di := di + 1;
        }
      }
      k := k + 1;
    }
  }

  /** `determine_condition(rows)` with the tables `t` and the random draws `draws`. */
  method DetermineCondition(t: Tables, rows: seq<Row>, draws: Draws) returns (condition: Condition)
    requires WellFormed(t)
    ensures condition == Classification(t, rows, draws)
  {
    var emotionCounts := Zero;
    var dimensionScores := Zero;
    var r := 0;
    while r < |rows|
      invariant 0 <= r <= |rows|
      invariant forall c: Condition :: emotionCounts.Get(c) == EmotionScore(t, rows[..r], draws, c)
      invariant forall c: Condition :: dimensionScores.Get(c) == DimensionScore(t, rows[..r], c)
    {
      assert rows[..r + 1][..r] == rows[..r];
      emotionCounts := AddEmotionWeights(t, rows[r], r, draws, emotionCounts);
      dimensionScores := AddDimensionHits(t, rows[r], dimensionScores);
      r := r + 1;
    }
    assert rows[..r] == rows;
    assert emotionCounts == RawEmotionScores(t, rows, draws) by {
      assert forall c: Condition :: emotionCounts.Get(c) == RawEmotionScores(t, rows, draws).Get(c);
    }
    assert dimensionScores == RawDimensionScores(t, rows) by {
      assert forall c: Condition :: dimensionScores.Get(c) == RawDimensionScores(t, rows).Get(c);
    }
    var totalEmotionCounts := Total(emotionCounts);
    var totalDimensionScores := Total(dimensionScores);
    if totalEmotionCounts > 0.0 {
      emotionCounts := Scores(emotionCounts.noDisorder / totalEmotionCounts,
                              emotionCounts.depression / totalEmotionCounts,
                              emotionCounts.anxiety / totalEmotionCounts);
    }
    if totalDimensionScores > 0.0 {
      dimensionScores := Scores(dimensionScores.noDisorder / totalDimensionScores,
                                dimensionScores.depression / totalDimensionScores,
                                dimensionScores.anxiety / totalDimensionScores);
    }
    var finalScores := Plus(emotionCounts, dimensionScores);
    condition := ArgMax(finalScores);
  }

  // ---------------------------------------------------------------------------
  // Properties of the classification

  /** The sum of the lower (or upper) weight bounds of the first `k` recognised slots. */
  function SlotBound(t: Tables, labels: seq<string>, c: Condition, k: nat, high: bool): real
    requires WellFormed(t) && k <= |labels|
  {
    if k == 0 then 0.0
    else
      SlotBound(t, labels, c, k - 1, high)
      + (if labels[k - 1] in t.weights[c]
         then (var range := t.weights[c][labels[k - 1]]; if high then range.high else range.low)
         else 0.0)
  }

  /** The sum of the lower (or upper) weight bounds over every recognised label of `rows`. */
  function EmotionBound(t: Tables, rows: seq<Row>, c: Condition, high: bool): real
    requires WellFormed(t)
  {
    if rows == [] then 0.0
    else
      var r := |rows| - 1;
      EmotionBound(t, rows[..r], c, high) + SlotBound(t, rows[r].labels, c, |rows[r].labels|, high)
  }

  lemma {:induction false} SlotWeightsWithin(t: Tables, rows: seq<Row>, draws: Draws, r: nat, c: Condition, k: nat)
    requires WellFormed(t) && Admissible(t, rows, draws)
    requires r < |rows| && k <= |rows[r].labels|
    ensures SlotBound(t, rows[r].labels, c, k, false) <= SlotWeights(t, rows[r].labels, r, c, draws, k)
    ensures SlotWeights(t, rows[r].labels, r, c, draws, k) <= SlotBound(t, rows[r].labels, c, k, true)
  {
    if k > 0 {
      SlotWeightsWithin(t, rows, draws, r, c, k - 1);
      if rows[r].labels[k - 1] in t.weights[c] {
        assert InRange(draws(r, c, k - 1), t.weights[c][rows[r].labels[k - 1]]);
      }
    }
  }

  /** Each categorical score lies between the sums of its labels' lower and upper weights. */
  lemma {:induction false} EmotionScoreWithin(t: Tables, rows: seq<Row>, draws: Draws, c: Condition)
    requires WellFormed(t) && Admissible(t, rows, draws)
    ensures EmotionBound(t, rows, c, false) <= EmotionScore(t, rows, draws, c) <= EmotionBound(t, rows, c, true)
  {
    if rows != [] {
      var r := |rows| - 1;
      assert Admissible(t, rows[..r], draws) by {
        assert forall i | 0 <= i < r :: rows[..r][i] == rows[i];
      }
      EmotionScoreWithin(t, rows[..r], draws, c);
      SlotWeightsWithin(t, rows, draws, r, c, |rows[r].labels|);
    }
  }

  lemma {:induction false} SlotHitsAgree(t: Tables, row: Row, c1: Condition, c2: Condition, k: nat)
    requires WellFormed(t) && t.weights[c1].Keys == t.weights[c2].Keys && k <= |row.labels|
    ensures SlotHits(t, row, c1, k) == SlotHits(t, row, c2, k)
  {
    if k > 0 {
      SlotHitsAgree(t, row, c1, c2, k - 1);
    }
  }

  /** Two conditions whose weight tables list the same emotions get the same dimensional score. */
  lemma {:induction false} DimensionScoresAgree(t: Tables, rows: seq<Row>, c1: Condition, c2: Condition)
    requires WellFormed(t) && t.weights[c1].Keys == t.weights[c2].Keys
    ensures DimensionScore(t, rows, c1) == DimensionScore(t, rows, c2)
  {
    if rows != [] {
      var r := |rows| - 1;
      DimensionScoresAgree(t, rows[..r], c1, c2);
      SlotHitsAgree(t, rows[r], c1, c2, |rows[r].labels|);
    }
  }

  /** With the shipped tables every condition lists all six emotions, so the dimensional
      scores of the three conditions are always equal and only the categorical scores decide. */
  lemma ProcessorDimensionScoresEqual(rows: seq<Row>, c1: Condition, c2: Condition)
    ensures WellFormed(ProcessorTables)
    ensures DimensionScore(ProcessorTables, rows, c1) == DimensionScore(ProcessorTables, rows, c2)
  {
    ProcessorTablesShape();
    DimensionScoresAgree(ProcessorTables, rows, c1, c2);
  }

  /** A dimension counts exactly when its value lies in the closed range: a value equal to
      either bound counts. */
  lemma DimensionHitsCount(t: Tables, row: Row, emotion: string)
    requires WellFormed(t) && emotion in t.dimensions
    ensures var ranges := t.dimensions[emotion];
      DimensionHits(t, row, emotion, |Dimensions|)
      == (if InRange(row.arousal, ranges[Arousal]) then 1.0 else 0.0)
       + (if InRange(row.valence, ranges[Valence]) then 1.0 else 0.0)
       + (if InRange(row.dominance, ranges[Dominance]) then 1.0 else 0.0)
  {
    assert DimensionHits(t, row, emotion, 1) == if InRange(row.arousal, t.dimensions[emotion][Arousal]) then 1.0 else 0.0;
    assert DimensionHits(t, row, emotion, 2) == DimensionHits(t, row, emotion, 1)
      + (if InRange(row.valence, t.dimensions[emotion][Valence]) then 1.0 else 0.0);
  }

  /** Normalisation: with a positive total the scores become shares in [0, 1] that add up
      to 1; a zero total keeps them as they were. */
  lemma NormalizeShares(m: Scores)
    requires m.noDisorder >= 0.0 && m.depression >= 0.0 && m.anxiety >= 0.0
    ensures var n := Normalize(m);
      && (Total(m) > 0.0 ==> Total(n) == 1.0 && forall c: Condition :: 0.0 <= n.Get(c) <= 1.0)
      && (Total(m) == 0.0 ==> n == m == Zero)
  {
    var total := Total(m);
    if total > 0.0 {
      var n := Normalize(m);
      SharesAddUp(m.noDisorder, m.depression, m.anxiety, total);
      forall c: Condition
        ensures 0.0 <= n.Get(c) <= 1.0
      {
        assert n.Get(c) == m.Get(c) / total;
        Share(m.Get(c), total);
      }
    }
  }

  lemma SharesAddUp(a: real, b: real, c: real, total: real)
    requires total > 0.0 && a + b + c == total
    ensures a / total + b / total + c / total == 1.0
  {
    assert a / total + b / total + c / total == (a + b + c) / total;
  }

  lemma Share(a: real, total: real)
    requires 0.0 <= a <= total && total > 0.0
    ensures 0.0 <= a / total <= 1.0
  {
    assert (a / total) * total == a;
  }

  /** Normalisation keeps the order between any two conditions. */
  lemma NormalizeKeepsOrder(m: Scores, a: Condition, b: Condition)
    ensures m.Get(a) < m.Get(b) <==> Normalize(m).Get(a) < Normalize(m).Get(b)
    ensures m.Get(a) == m.Get(b) <==> Normalize(m).Get(a) == Normalize(m).Get(b)
  {
    var total := Total(m);
    if total > 0.0 {
      assert Normalize(m).Get(a) == m.Get(a) / total && Normalize(m).Get(b) == m.Get(b) / total;
      assert Normalize(m).Get(a) * total == m.Get(a) && Normalize(m).Get(b) * total == m.Get(b);
    }
  }

  /** When every condition gets the same dimensional score, the condition with the strictly
      highest categorical score is the one returned. */
  lemma HighestEmotionScoreWins(t: Tables, rows: seq<Row>, draws: Draws, best: Condition)
    requires WellFormed(t)
    requires forall c: Condition :: DimensionScore(t, rows, c) == DimensionScore(t, rows, best)
    requires forall c: Condition | c != best :: EmotionScore(t, rows, draws, c) < EmotionScore(t, rows, draws, best)
    ensures Classification(t, rows, draws) == best
  {
    var e := RawEmotionScores(t, rows, draws);
    var d := RawDimensionScores(t, rows);
    var f := FinalScores(t, rows, draws);
    forall c: Condition | c != best
      ensures f.Get(c) < f.Get(best)
    {
      NormalizeKeepsOrder(e, c, best);
      NormalizeKeepsOrder(d, c, best);
      assert f.Get(c) == Normalize(e).Get(c) + Normalize(d).Get(c);
      assert f.Get(best) == Normalize(e).Get(best) + Normalize(d).Get(best);
    }
    var winner := ArgMax(f);
    if winner != best {
      assert false;
    }
  }

  lemma {:induction false} UnrecognisedSlots(t: Tables, row: Row, r: nat, draws: Draws, c: Condition, k: nat)
    requires WellFormed(t) && k <= |row.labels|
    requires forall j | 0 <= j < |row.labels| :: row.labels[j] !in t.weights[c]
    ensures SlotWeights(t, row.labels, r, c, draws, k) == 0.0 && SlotHits(t, row, c, k) == 0.0
  {
    if k > 0 {
      UnrecognisedSlots(t, row, r, draws, c, k - 1);
    }
  }

  /** Labels that no weight table lists (`"surprise"`, a missing value) add nothing to any score. */
  lemma {:induction false} UnrecognisedRowsScoreZero(t: Tables, rows: seq<Row>, draws: Draws, c: Condition)
    requires WellFormed(t)
    requires forall i, j | 0 <= i < |rows| && 0 <= j < |rows[i].labels| :: rows[i].labels[j] !in t.weights[c]
    ensures EmotionScore(t, rows, draws, c) == 0.0 && DimensionScore(t, rows, c) == 0.0
  {
    if rows != [] {
      var r := |rows| - 1;
      assert forall i | 0 <= i < r :: rows[..r][i] == rows[i];
      UnrecognisedRowsScoreZero(t, rows[..r], draws, c);
      UnrecognisedSlots(t, rows[r], r, draws, c, |rows[r].labels|);
    }
  }

  /** Rows without any recognised label (in particular no rows at all) leave every score at
      zero, and the tie goes to `no_disorder`, the first key of the dict. */
  lemma NothingRecognisedIsNoDisorder(t: Tables, rows: seq<Row>, draws: Draws)
    requires WellFormed(t)
    requires forall i, j, c: Condition | 0 <= i < |rows| && 0 <= j < |rows[i].labels| ::
      rows[i].labels[j] !in t.weights[c]
    ensures Classification(t, rows, draws) == NoDisorder
  {
    forall c: Condition
      ensures EmotionScore(t, rows, draws, c) == 0.0 && DimensionScore(t, rows, c) == 0.0
    {
      UnrecognisedRowsScoreZero(t, rows, draws, c);
    }
    var f := FinalScores(t, rows, draws);
    assert RawEmotionScores(t, rows, draws) == Zero && RawDimensionScores(t, rows) == Zero;
    assert f == Zero;
    var winner := ArgMax(f);
    if winner != NoDisorder {
      assert false;
    }
  }

  /** No rows at all: `no_disorder`. */
  lemma EmptyIsNoDisorder(t: Tables, draws: Draws)
    requires WellFormed(t)
    ensures Classification(t, [], draws) == NoDisorder
  {
    NothingRecognisedIsNoDisorder(t, [], draws);
  }

  // The three subjects of the module's unit tests, one row each.

  const HappySubject: seq<Row> := [Row(["happiness", "neutral", "happiness"], 0.6, 0.8, 0.7)]
  const SadSubject: seq<Row> := [Row(["sadness", "disgust", "sadness"], 0.2, -0.8, -0.5)]
  const FearfulSubject: seq<Row> := [Row(["fear", "sadness", "fear"], 0.9, -0.9, -0.8)]

  /** The categorical bounds of a one-row subject, slot by slot. */
  lemma OneRowBounds(rows: seq<Row>, c: Condition, high: bool)
    requires |rows| == 1 && |rows[0].labels| == 3
    ensures WellFormed(ProcessorTables)
    ensures EmotionBound(ProcessorTables, rows, c, high)
      == SlotBound(ProcessorTables, rows[0].labels, c, 3, high)
  {
    ProcessorTablesShape();
    assert rows[..0] == [];
  }

  /** Whatever the random draws, happiness, neutral, happiness is classified `no_disorder`:
      its categorical score is at least 70 against at most 35 for the others. */
  lemma HappySubjectHasNoDisorder(draws: Draws)
    requires WellFormed(ProcessorTables) && Admissible(ProcessorTables, HappySubject, draws)
    ensures Classification(ProcessorTables, HappySubject, draws) == NoDisorder
  {
    Wins(HappySubject, draws, NoDisorder);
  }

  /** Whatever the random draws, sadness, disgust, sadness is classified `depression` (at
      least 90 against at most 50). */
  lemma SadSubjectHasDepression(draws: Draws)
    requires WellFormed(ProcessorTables) && Admissible(ProcessorTables, SadSubject, draws)
    ensures Classification(ProcessorTables, SadSubject, draws) == Depression
  {
    Wins(SadSubject, draws, Depression);
  }

  /** Whatever the random draws, fear, sadness, fear is classified `anxiety` (at least 90
      against at most 80). */
  lemma FearfulSubjectHasAnxiety(draws: Draws)
    requires WellFormed(ProcessorTables) && Admissible(ProcessorTables, FearfulSubject, draws)
    ensures Classification(ProcessorTables, FearfulSubject, draws) == Anxiety
  {
    Wins(FearfulSubject, draws, Anxiety);
  }

  /** A one-row subject whose lowest possible score for `best` beats every other
      condition's highest possible score is classified `best`. */
  lemma Wins(rows: seq<Row>, draws: Draws, best: Condition)
    requires WellFormed(ProcessorTables) && Admissible(ProcessorTables, rows, draws)
    requires |rows| == 1 && |rows[0].labels| == 3
    requires forall c: Condition | c != best ::
      SlotBound(ProcessorTables, rows[0].labels, c, 3, true)
      < SlotBound(ProcessorTables, rows[0].labels, best, 3, false)
    ensures Classification(ProcessorTables, rows, draws) == best
  {
    forall c: Condition
      ensures DimensionScore(ProcessorTables, rows, c) == DimensionScore(ProcessorTables, rows, best)
    {
      ProcessorDimensionScoresEqual(rows, c, best);
    }
    forall c: Condition | c != best
      ensures EmotionScore(ProcessorTables, rows, draws, c) < EmotionScore(ProcessorTables, rows, draws, best)
    {
      EmotionScoreWithin(ProcessorTables, rows, draws, c);
      EmotionScoreWithin(ProcessorTables, rows, draws, best);
      OneRowBounds(rows, c, true);
      OneRowBounds(rows, best, false);
    }
    HighestEmotionScoreWins(ProcessorTables, rows, draws, best);
  }

  // ---------------------------------------------------------------------------
  // Classifying a whole file, one subject per `user_id`

  /** One line of the input file: `user_id` and the columns the classifier reads. */
  datatype UserRow = UserRow(userId: int, row: Row)

  /** One line of the output file: `user_id;Predicted_Condition`. */
  datatype Classified = Classified(userId: int, predictedCondition: string)

  /** The written output: where it goes and its lines. */
  datatype OutputFile = OutputFile(path: string, lines: seq<Classified>)

  function UserIds(rows: seq<UserRow>): (ids: seq<int>)
    ensures |ids| == |rows| && forall i | 0 <= i < |rows| :: ids[i] == rows[i].userId
  {
    seq(|rows|, i requires 0 <= i < |rows| => rows[i].userId)
  }

  /** The rows that fall in the group of user `u`. */
  function InGroup(u: int): UserRow -> bool {
    (r: UserRow) => r.userId == u
  }

  /** The rows of user `u`, in file order: one group of `groupby("user_id")`. */
  function GroupOf(rows: seq<UserRow>, u: int): (g: seq<Row>)
    ensures |g| <= |rows|
  {
    if rows == [] then []
    else
      var n := |rows| - 1;
      GroupOf(rows[..n], u) + (if rows[n].userId == u then [rows[n].row] else [])
  }

  /** A group holds the rows with its user id, one entry per row, in file order. */
  lemma {:induction false} GroupOfInFileOrder(rows: seq<UserRow>, u: int)
    ensures var p := Positions(rows, InGroup(u));
      var g := GroupOf(rows, u);
      |g| == |p| && forall k | 0 <= k < |p| :: g[k] == rows[p[k]].row
  {
    if rows != [] {
      GroupOfInFileOrder(rows[..|rows| - 1], u);
      InOrderStep(rows, InGroup(u), (r: UserRow) => r.row, GroupOf(rows[..|rows| - 1], u));
    }
  }

  /** A group holds exactly the rows with its user id. */
  lemma {:induction false} GroupOfMembers(rows: seq<UserRow>, u: int, x: Row)
    ensures x in GroupOf(rows, u) <==> exists i | 0 <= i < |rows| :: rows[i].userId == u && rows[i].row == x
  {
    if rows != [] {
      var n := |rows| - 1;
      var front, last := rows[..n], rows[n];
      GroupOfMembers(front, u, x);
      assert GroupOf(rows, u) == if last.userId == u then GroupOf(front, u) + [last.row] else GroupOf(front, u);
      if x in GroupOf(rows, u) {
        if x in GroupOf(front, u) {
          var i :| 0 <= i < n && front[i].userId == u && front[i].row == x;
          assert rows[i] == front[i];
        } else {
          assert last.userId == u && last.row == x;
        }
      }
      if exists i | 0 <= i < |rows| :: rows[i].userId == u && rows[i].row == x {
        var i :| 0 <= i < |rows| && rows[i].userId == u && rows[i].row == x;
        if i < n {
          assert front[i] == rows[i];
        }
      }
    }
  }

  /** The group keys: the distinct user ids, ascending, as `groupby` sorts them. */
  function GroupKeys(rows: seq<UserRow>): (keys: seq<int>)
    ensures forall i, j | 0 <= i < j < |keys| :: keys[i] < keys[j]
    ensures forall u :: u in keys <==> exists i | 0 <= i < |rows| :: rows[i].userId == u
  {
    Sorting.IntLessIsStrictTotal();
    var keys := Sorting.SortedDistinct(Sorting.IntLess, UserIds(rows));
    assert forall u :: u in UserIds(rows) <==> exists i | 0 <= i < |rows| :: rows[i].userId == u;
    keys
  }

  /** The condition of each user in `keys`, from that user's group and draws. */
  function ClassifyKeys(t: Tables, rows: seq<UserRow>, keys: seq<int>, draws: int -> Draws): (lines: seq<Classified>)
    requires WellFormed(t)
    ensures |lines| == |keys|
    ensures forall i | 0 <= i < |keys| :: lines[i] == Classified(keys[i], UserCondition(t, rows, keys[i], draws))
  {
    if keys == [] then []
    else [Classified(keys[0], UserCondition(t, rows, keys[0], draws))] + ClassifyKeys(t, rows, keys[1..], draws)
  }

  /** The `Predicted_Condition` of user `u`: the classification of that user's rows. */
  function UserCondition(t: Tables, rows: seq<UserRow>, u: int, draws: int -> Draws): string
    requires WellFormed(t)
  {
    ConditionName(Classification(t, GroupOf(rows, u), draws(u)))
  }

  /** `df.groupby("user_id").apply(determine_condition)`: one line per user, ascending by id,
      with the condition of that user's rows under that user's draws. */
  function ClassifyGroups(t: Tables, rows: seq<UserRow>, draws: int -> Draws): (lines: seq<Classified>)
    requires WellFormed(t)
    ensures forall i, j | 0 <= i < j < |lines| :: lines[i].userId < lines[j].userId
    ensures (set l | l in lines :: l.userId) == (set r | r in rows :: r.userId)
    ensures forall i | 0 <= i < |lines| :: lines[i].predictedCondition == UserCondition(t, rows, lines[i].userId, draws)
  {
    var keys := GroupKeys(rows);
    var lines := ClassifyKeys(t, rows, keys, draws);
    LineIdsAreKeys(lines, keys);
    KeysAreRowIds(rows, keys);
    lines
  }

  /** Lines that carry the keys in order carry exactly the set of keys. */
  lemma LineIdsAreKeys(lines: seq<Classified>, keys: seq<int>)
    requires |lines| == |keys| && forall i | 0 <= i < |keys| :: lines[i].userId == keys[i]
    ensures (set l | l in lines :: l.userId) == set u | u in keys
  {
    forall u | u in keys
      ensures u in set l | l in lines :: l.userId
    {
      var i :| 0 <= i < |keys| && keys[i] == u;
      assert lines[i] in lines;
    }
  }

  /** Keys that are exactly the user ids of the rows form the set of those ids. */
  lemma KeysAreRowIds(rows: seq<UserRow>, keys: seq<int>)
    requires forall u :: u in keys <==> exists i | 0 <= i < |rows| :: rows[i].userId == u
    ensures (set r | r in rows :: r.userId) == set u | u in keys
  {
    forall u | u in keys
      ensures u in set r | r in rows :: r.userId
    {
      var j :| 0 <= j < |rows| && rows[j].userId == u;
      assert rows[j] in rows;
    }
  }

  /** Every user with a row in the file, hence every user of the output, has a non-empty group. */
  lemma UsersHaveGroups(rows: seq<UserRow>, u: int)
    requires u in set r | r in rows :: r.userId
    ensures GroupOf(rows, u) != []
  {
    var r :| r in rows && r.userId == u;
    var j :| 0 <= j < |rows| && rows[j] == r;
    GroupOfMembers(rows, u, r.row);
  }

  /** `classify_users_by_condition(csv_path)`: `file` is the parsed file, `None` when it does
      not exist or cannot be read, in which case nothing is written. Otherwise the
      classification goes to the path with every `.csv` replaced by `_classified.csv`. */
  function ClassifyUsersByCondition(csvPath: string, file: Option<seq<UserRow>>, draws: int -> Draws): (out: Option<OutputFile>)
    ensures file.None? <==> out.None?
    ensures out.Some? ==> out.value.path == ReplaceAll(csvPath, ".csv", "_classified.csv")
    ensures out.Some? ==> ProcessorTablesWellFormed() && out.value.lines == ClassifyGroups(ProcessorTables, file.value, draws)
  {
    match file
    case None => None
    case Some(rows) =>
      ProcessorTablesShape();
      Some(OutputFile(ReplaceAll(csvPath, ".csv", "_classified.csv"), ClassifyGroups(ProcessorTables, rows, draws)))
  }

  ghost predicate ProcessorTablesWellFormed() {
    WellFormed(ProcessorTables)
  }

  /** For `name.csv` with no other `.csv` in it, the output is `name_classified.csv`. */
  lemma OutputBesideInput(stem: string, file: seq<UserRow>, draws: int -> Draws)
    requires !Occurs(".csv", stem)
    ensures ClassifyUsersByCondition(stem + ".csv", Some(file), draws).value.path == stem + "_classified.csv"
  {
    ReplaceAllAppended(stem, ".csv", "_classified.csv");
  }
}
