/** Inference bookkeeping of app/module_inference/infere_emotion/predict_emotions_folderwavs.py:
    the ensemble vote and the probability vectors a model's predictions give (`get_emotions`),
    the three most probable classes, the result file's header and rows (`interfere_emotion`),
    and the fields read from file and model names (`process_audio_files`, `test_folder`).

    A model's outputs are inputs here: the labels each member of an ensemble predicts, the
    averaged probabilities and their spread, or a single model's prediction and probability
    rows. The result CSV is the field `file` of `ResultsCsv`: `None` while it does not
    exist, otherwise its rows. */
module FolderInference {
  import opened Common
  import opened Strings
  import Sorting
  import LabelUtils

  // ---------------------------------------------------------------- hard vote

  /** `np.array(predictions)` read element by element: every member's labels, member after
      member. */
  function Flatten(rows: seq<seq<int>>): (flat: seq<int>)
    ensures forall x :: x in flat <==> exists k | 0 <= k < |rows| :: x in rows[k]
  {
    if rows == [] then []
    else
      var init := rows[..|rows| - 1];
      var flat := Flatten(init) + rows[|rows| - 1];
      assert forall k | 0 <= k < |init| :: init[k] == rows[k];
      flat
  }

  /** `unique_elements[np.argmax(counts)]`: a most frequent label, and the smallest of the
      most frequent ones, since `np.unique` sorts and `argmax` takes the first maximum. */
  ghost predicate IsMajority(flat: seq<int>, v: int) {
    && v in flat
    && forall x | x in flat ::
         multiset(flat)[x] < multiset(flat)[v] || (multiset(flat)[x] == multiset(flat)[v] && v <= x)
  }

  /** The label the vote picks among `xs`, counting occurrences in `m`: the running best,
      replaced by a label that occurs more often, or as often and is smaller. */
  function BestOf(m: multiset<int>, xs: seq<int>): int
    requires xs != []
  {
    if |xs| == 1 then xs[0]
    else
      var b := BestOf(m, xs[..|xs| - 1]);
      var x := xs[|xs| - 1];
      if m[x] > m[b] || (m[x] == m[b] && x < b) then x else b
  }

  /** The running best beats or ties every label it has seen. */
  lemma {:induction false} BestOfBeatsAll(m: multiset<int>, xs: seq<int>)
    requires xs != []
    ensures BestOf(m, xs) in xs
    ensures forall x | x in xs :: m[x] < m[BestOf(m, xs)] || (m[x] == m[BestOf(m, xs)] && BestOf(m, xs) <= x)
  {
    if |xs| > 1 {
      var init := xs[..|xs| - 1];
      BestOfBeatsAll(m, init);
      assert xs == init + [xs[|xs| - 1]];
    }
  }

  /** The vote picks the majority label. */
  lemma VoteIsMajority(flat: seq<int>)
    requires flat != []
    ensures IsMajority(flat, BestOf(multiset(flat), flat))
  {
    BestOfBeatsAll(multiset(flat), flat);
  }

  /** The majority label is unique, so the vote is determined by the predictions alone. */
  lemma MajorityIsUnique(flat: seq<int>, v: int, w: int)
    requires IsMajority(flat, v) && IsMajority(flat, w)
    ensures v == w
  {
    assert multiset(flat)[v] == multiset(flat)[w] by {
      assert v in flat && w in flat;
    }
  }

  /** `int(model.predict(features))`: the label of a one-element prediction; a longer or empty
      one cannot be converted. */
  function IntOfPrediction(prediction: seq<int>): (r: Result<int>)
    ensures r.Ok? <==> |prediction| == 1
    ensures r.Ok? ==> r.value == prediction[0]
    ensures r.Err? ==> r.error == TypeError
  {
    if |prediction| == 1 then Ok(prediction[0]) else Err(TypeError)
  }

  /** What `get_emotions` is handed: an ensemble (a dictionary of models and a scaler), with the
      labels each member predicts and the mean and spread of their probabilities; or a single
      model, with its prediction and its rows of probabilities. */
  datatype Predictor =
    | Ensemble(votes: seq<seq<int>>, mean: seq<seq<real>>, spread: seq<seq<real>>)
    | Single(prediction: seq<int>, proba: seq<seq<real>>)

  /** `get_emotions(model, features, "hard")`: the ensemble's vote (`argmax` of no counts
      raises `ValueError`), or the single model's label. */
  function HardLabel(p: Predictor): (r: Result<int>)
    ensures p.Ensemble? ==> (r.Ok? <==> Flatten(p.votes) != [])
    ensures p.Ensemble? && r.Ok? ==> IsMajority(Flatten(p.votes), r.value)
    ensures p.Ensemble? && r.Err? ==> r.error.ValueError?
    ensures p.Single? ==> r == IntOfPrediction(p.prediction)
  {
    match p
    case Ensemble(votes, _, _) =>
      var flat := Flatten(votes);
      if flat == [] then Err(ValueError("attempt to get argmax of an empty sequence"))
      else
        VoteIsMajority(flat);
        Ok(BestOf(multiset(flat), flat))
    case Single(prediction, _) => IntOfPrediction(prediction)
  }

  /** The hard vote as `get_emotions` computes it: the members' predictions gathered in a
      loop, then the best label found by a pass over them. */
  method HardVote(votes: seq<seq<int>>) returns (r: Result<int>)
    ensures r == HardLabel(Ensemble(votes, [], []))
  {
    var predictions := GatherVotes(votes);
    if predictions == [] {
      return Err(ValueError("attempt to get argmax of an empty sequence"));
    }
    var best := BestVote(predictions);
    return Ok(best);
  }

  /** The predictions of every member of the ensemble, one member after another. */
  method GatherVotes(votes: seq<seq<int>>) returns (predictions: seq<int>)
    ensures predictions == Flatten(votes)
  {
    predictions := [];
    for k := 0 to |votes|
      invariant predictions == Flatten(votes[..k])
    {
      assert votes[..k + 1][..k] == votes[..k];
      predictions := predictions + votes[k];
    }
    assert votes[..|votes|] == votes;
  }

  /** The pass over the predictions that keeps the label seen most often, the smaller one
      among labels seen as often. */
  method BestVote(predictions: seq<int>) returns (best: int)
    requires predictions != []
    ensures IsMajority(predictions, best)
    ensures best == BestOf(multiset(predictions), predictions)
  {
    var m := multiset(predictions);
    best := predictions[0];
    for i := 1 to |predictions|
      invariant best == BestOf(m, predictions[..i])
    {
      assert predictions[..i + 1][..i] == predictions[..i];
      var x := predictions[i];
      if m[x] > m[best] || (m[x] == m[best] && x < best) {
        best := x;
      }
    }
    assert predictions[..|predictions|] == predictions;
    VoteIsMajority(predictions);
  }

  /** `get_emotions(model, features, "hard")` */
  method GetEmotionsHard(p: Predictor) returns (r: Result<int>)
    ensures r == HardLabel(p)
  {
    match p
    case Ensemble(votes, _, _) =>
      r := HardVote(votes);
    case Single(prediction, _) =>
      r := IntOfPrediction(prediction);
  }

  /** `get_emotions(model, features, "soft")`: the first row of the mean and of the spread of
      the ensemble's probabilities, or the single model's first row of probabilities with a
      spread of `[0]`; `IndexError` when there is no row. */
  function GetEmotionsSoft(p: Predictor): (r: Result<(seq<real>, seq<real>)>)
    ensures p.Ensemble? ==> (r.Ok? <==> p.mean != [] && p.spread != [])
    ensures p.Ensemble? && r.Ok? ==> r.value == (p.mean[0], p.spread[0])
    ensures p.Single? ==> (r.Ok? <==> p.proba != [])
    ensures p.Single? && r.Ok? ==> r.value == (p.proba[0], [0.0])
    ensures r.Err? ==> r.error == IndexError
  {
    match p
    case Ensemble(_, mean, spread) =>
      if mean == [] || spread == [] then Err(IndexError) else Ok((mean[0], spread[0]))
    case Single(_, proba) =>
      if proba == [] then Err(IndexError) else Ok((proba[0], [0.0]))
  }

  // ---------------------------------------------------------------- the three most probable

  /** The probability of class `i`, and 0 for a position outside the vector. */
  function Key(p: seq<real>, i: int): real {
    if 0 <= i < |p| then p[i] else 0.0
  }

  /** The order `np.argsort` puts positions in: by probability, and by position among equal
      probabilities. */
  predicate Below(p: seq<real>, i: int, j: int) {
    Key(p, i) < Key(p, j) || (Key(p, i) == Key(p, j) && i < j)
  }

  lemma BelowIsStrictTotal(p: seq<real>)
    ensures Sorting.StrictTotalOrder((i: int, j: int) => Below(p, i, j))
  {
  }

  function Range(n: nat): (r: seq<int>)
    ensures |r| == n && forall i | 0 <= i < n :: r[i] == i
  {
    seq(n, i requires 0 <= i < n => i)
  }

  /** `np.argsort(p)`: every position once, in ascending order of probability. */
  function ArgSort(p: seq<real>): (r: seq<int>)
    ensures |r| == |p|
    ensures forall i :: i in r <==> 0 <= i < |p|
    ensures forall a, b | 0 <= a < b < |r| :: Below(p, r[a], r[b])
  {
    BelowIsStrictTotal(p);
    var lt := (i: int, j: int) => Below(p, i, j);
    var r := Sorting.SortedDistinct(lt, Range(|p|));
    Sorting.SortedDistinctLength(lt, Range(|p|));
    assert forall i :: i in Range(|p|) <==> 0 <= i < |p| by {
      forall i | 0 <= i < |p|
        ensures i in Range(|p|)
      {
        assert Range(|p|)[i] == i;
      }
    }
    r
  }

  function Reverse(s: seq<int>): (r: seq<int>)
    ensures |r| == |s| && forall k | 0 <= k < |s| :: r[k] == s[|s| - 1 - k]
  {
    seq(|s|, k requires 0 <= k < |s| => s[|s| - 1 - k])
  }

  /** `np.argsort(p)[-3:][::-1]`: the positions of the three largest probabilities, largest
      first (all of them when there are fewer than three). */
  function TopThree(p: seq<real>): (r: seq<int>)
    ensures |r| == if |p| < 3 then |p| else 3
    ensures forall k | 0 <= k < |r| :: 0 <= r[k] < |p|
    ensures forall a, b | 0 <= a < b < |r| :: Below(p, r[b], r[a])
    ensures forall i, k | 0 <= i < |p| && i !in r && 0 <= k < |r| :: Below(p, i, r[k])
  {
    var s := ArgSort(p);
    var m := if |p| < 3 then |p| else 3;
    ReversedTop(p, s, m);
    Reverse(s[|s| - m..])
  }

  /** The last `m` of the positions in `np.argsort` order, reversed: in descending order, and
      above every position left out. */
  lemma ReversedTop(p: seq<real>, s: seq<int>, m: nat)
    requires m <= |s| == |p|
    requires forall i :: i in s <==> 0 <= i < |p|
    requires forall a, b | 0 <= a < b < |s| :: Below(p, s[a], s[b])
    ensures var r := Reverse(s[|s| - m..]);
      && |r| == m
      && (forall k | 0 <= k < |r| :: 0 <= r[k] < |p|)
      && (forall a, b | 0 <= a < b < |r| :: Below(p, r[b], r[a]))
      && (forall i, k | 0 <= i < |p| && i !in r && 0 <= k < |r| :: Below(p, i, r[k]))
  {
    var r := Reverse(s[|s| - m..]);
    forall k | 0 <= k < |r|
      ensures r[k] == s[|s| - 1 - k] && 0 <= r[k] < |p|
    {
      assert s[|s| - 1 - k] in s;
    }
    assert forall q | |s| - m <= q < |s| :: s[q] == r[|s| - 1 - q];
    forall i, k | 0 <= i < |p| && i !in r && 0 <= k < |r|
      ensures Below(p, i, r[k])
    {
      assert i in s;
      var q :| 0 <= q < |s| && s[q] == i;
      assert q < |s| - m;
      assert r[k] == s[|s| - 1 - k];
    }
  }

  /** Between two classes, `Below` is a lower or equal probability at a different position. */
  lemma BelowInProbability(p: seq<real>, i: int, j: int)
    requires 0 <= i < |p| && 0 <= j < |p| && Below(p, i, j)
    ensures p[i] <= p[j] && i != j
  {
  }

  /** In probability terms: the three come in non-increasing order, and no other class is
      more probable than any of them. */
  lemma TopThreeAreMostProbable(p: seq<real>)
    ensures var r := TopThree(p);
      && (forall a, b | 0 <= a < b < |r| :: p[r[a]] >= p[r[b]])
      && (forall i, k | 0 <= i < |p| && i !in r && 0 <= k < |r| :: p[i] <= p[r[k]])
      && (forall a, b | 0 <= a < b < |r| :: r[a] != r[b])
  {
    var r := TopThree(p);
    forall a, b | 0 <= a < b < |r|
      ensures p[r[a]] >= p[r[b]] && r[a] != r[b]
    {
      BelowInProbability(p, r[b], r[a]);
    }
    forall i, k | 0 <= i < |p| && i !in r && 0 <= k < |r|
      ensures p[i] <= p[r[k]]
    {
      BelowInProbability(p, i, r[k]);
    }
  }

  // ---------------------------------------------------------------- the result file

  /** A cell `csv.writer` writes: text, a real number, an integer, or `None` (an empty cell). */
  datatype Cell = Text(text: string) | Real(number: real) | Int(integer: int) | Empty

  /** The thirteen columns every result file starts with. */
  const BaseColumns: seq<string> := [
    "file_name",
    "Emotion_1_label", "Emotion_1_mean", "Emotion_1_std",
    "Emotion_2_label", "Emotion_2_mean", "Emotion_2_std",
    "Emotion_3_label", "Emotion_3_mean", "Emotion_3_std",
    "valence", "arousal", "dominance"
  ]

  /** `cabeceraCsv`: the base columns, then the target column when an original emotion is
      given, or the worker and the time stamp otherwise. */
  function Header(originalEmotion: Option<string>): (h: seq<string>)
    ensures |h| == if Truthy(originalEmotion) then 14 else 15
    ensures h[..13] == BaseColumns
    ensures Truthy(originalEmotion) ==> h[13] == "original_emotion"
    ensures !Truthy(originalEmotion) ==> h[13..] == ["user_id", "timestamp"]
  {
    BaseColumns + if Truthy(originalEmotion) then ["original_emotion"] else ["user_id", "timestamp"]
  }

  function TextCells(names: seq<string>): (cells: seq<Cell>)
    ensures |cells| == |names| && forall i | 0 <= i < |names| :: cells[i] == Text(names[i])
  {
    seq(|names|, i requires 0 <= i < |names| => Text(names[i]))
  }

  /** `os.path.basename(path)`: the text after the last '/'. */
  function BaseName(path: string): (name: string)
    ensures '/' !in name
  {
    var parts := Split(path, '/');
    parts[|parts| - 1]
  }

  /** `audio_file.split('/')[-1].split('_')[0]`: the base name up to its first '_'. */
  function TimestampOf(audioFile: string): (ts: string)
    ensures '_' !in ts
  {
    Split(BaseName(audioFile), '_')[0]
  }

  /** One of the three most probable classes as a row and the JSON answer show it: its name,
      its probability, and the spread cell. */
  datatype Category = Category(emo: string, prob: real, spread: Cell)

  /** The class at `index`: decoded by the encoder's order with a spread of 0 for a pretrained
      model, and otherwise by declaration order with the spread at `index`. */
  function CategoryOf(datasetName: string, pretrained: bool, por: seq<real>, std: seq<real>, index: int): (r: Result<Category>)
    requires 0 <= index < |por|
    ensures r.Ok? ==> r.value.prob == por[index]
  {
    if pretrained then
      var emo :- LabelUtils.DecodeLabel(index, datasetName);
      Ok(Category(emo, por[index], Int(0)))
    else
      var emo :- LabelUtils.ReformatLabel(index, datasetName);
      if index < |std| then Ok(Category(emo, por[index], Real(std[index]))) else Err(IndexError)
  }

  /** How the class at `index` is decoded: by `decode_label` with a spread of 0 for a
      pretrained model; otherwise by `reformat_label`, and only when the spread has a value at
      that position. */
  lemma CategoryOfDecodes(datasetName: string, pretrained: bool, por: seq<real>, std: seq<real>, index: int)
    requires 0 <= index < |por|
    ensures var r := CategoryOf(datasetName, pretrained, por, std, index);
      && (pretrained ==> (r.Ok? <==> LabelUtils.DecodeLabel(index, datasetName).Ok?))
      && (pretrained && r.Ok? ==> r.value.emo == LabelUtils.DecodeLabel(index, datasetName).value && r.value.spread == Int(0))
      && (!pretrained ==> (r.Ok? <==> LabelUtils.ReformatLabel(index, datasetName).Ok? && index < |std|))
      && (!pretrained && r.Ok? ==> r.value.emo == LabelUtils.ReformatLabel(index, datasetName).value && r.value.spread == Real(std[index]))
  {
  }

  predicate InRange(top: seq<int>, n: nat) {
    forall k | 0 <= k < |top| :: 0 <= top[k] < n
  }

  /** The classes at the positions `top`, in order; the first that fails ends the loop. */
  function Categories(datasetName: string, pretrained: bool, por: seq<real>, std: seq<real>, top: seq<int>): (r: Result<seq<Category>>)
    requires InRange(top, |por|)
    ensures r.Ok? ==> |r.value| == |top|
    ensures r.Ok? ==> forall k | 0 <= k < |top| :: CategoryOf(datasetName, pretrained, por, std, top[k]) == Ok(r.value[k])
  {
    if top == [] then Ok([])
    else
      var n := |top| - 1;
      var init := top[..n];
      assert forall k | 0 <= k < n :: init[k] == top[k];
      var rest := Categories(datasetName, pretrained, por, std, init);
      if rest.Err? then rest
      else
        var last := CategoryOf(datasetName, pretrained, por, std, top[n]);
        if last.Err? then Err(last.error)
        else
          var cs := rest.value + [last.value];
          assert forall k | 0 <= k < n :: cs[k] == rest.value[k];
          Ok(cs)
  }

  /** The loop succeeds exactly when every one of its classes can be decoded. */
  lemma {:induction false} CategoriesOk(datasetName: string, pretrained: bool, por: seq<real>, std: seq<real>, top: seq<int>)
    requires InRange(top, |por|)
    ensures Categories(datasetName, pretrained, por, std, top).Ok?
      <==> forall k | 0 <= k < |top| :: CategoryOf(datasetName, pretrained, por, std, top[k]).Ok?
  {
    if top != [] {
      var n := |top| - 1;
      var init := top[..n];
      assert forall k | 0 <= k < n :: init[k] == top[k];
      CategoriesOk(datasetName, pretrained, por, std, init);
    }
  }

  /** For a pretrained model the loop succeeds exactly when `decode_label` accepts every one
      of its positions. */
  lemma PretrainedCategoriesOk(datasetName: string, por: seq<real>, std: seq<real>, top: seq<int>)
    requires InRange(top, |por|)
    ensures Categories(datasetName, true, por, std, top).Ok?
      <==> forall k | 0 <= k < |top| :: LabelUtils.DecodeLabel(top[k], datasetName).Ok?
  {
    CategoriesOk(datasetName, true, por, std, top);
    forall k | 0 <= k < |top|
      ensures CategoryOf(datasetName, true, por, std, top[k]).Ok? <==> LabelUtils.DecodeLabel(top[k], datasetName).Ok?
    {
      CategoryOfDecodes(datasetName, true, por, std, top[k]);
    }
  }

  /** A failure at a prefix is also the outcome of the prefix one longer. */
  lemma FailStep(datasetName: string, pretrained: bool, por: seq<real>, std: seq<real>, top: seq<int>, j: nat)
    requires InRange(top, |por|) && j < |top|
    requires Categories(datasetName, pretrained, por, std, top[..j]).Err?
    ensures Categories(datasetName, pretrained, por, std, top[..j + 1]) == Categories(datasetName, pretrained, por, std, top[..j])
  {
    var next := top[..j + 1];
    assert next[..|next| - 1] == top[..j];
  }

  /** Once the loop has failed at a prefix, its outcome is that failure. */
  lemma {:induction false} CategoriesFailFirst(datasetName: string, pretrained: bool, por: seq<real>, std: seq<real>, top: seq<int>, j: nat)
    requires InRange(top, |por|) && j <= |top|
    requires Categories(datasetName, pretrained, por, std, top[..j]).Err?
    ensures Categories(datasetName, pretrained, por, std, top) == Categories(datasetName, pretrained, por, std, top[..j])
    decreases |top| - j
  {
    if j < |top| {
      FailStep(datasetName, pretrained, por, std, top, j);
      CategoriesFailFirst(datasetName, pretrained, por, std, top, j + 1);
    } else {
      assert top[..j] == top;
    }
  }

  /** Three cells per class: name, probability, spread. */
  function CategoryCells(cs: seq<Category>): (cells: seq<Cell>)
    ensures |cells| == 3 * |cs|
    ensures forall k | 0 <= k < |cs| ::
      cells[3 * k] == Text(cs[k].emo) && cells[3 * k + 1] == Real(cs[k].prob) && cells[3 * k + 2] == cs[k].spread
  {
    if cs == [] then []
    else
      var init := CategoryCells(cs[..|cs| - 1]);
      var c := cs[|cs| - 1];
      var cells := init + [Text(c.emo), Real(c.prob), c.spread];
      assert forall k | 0 <= k < |cs| - 1 :: cs[..|cs| - 1][k] == cs[k];
      cells
  }

  /** The `emocategoric` entries: name and probability of each class. */
  function Pairs(cs: seq<Category>): (ps: seq<(string, real)>)
    ensures |ps| == |cs| && forall k | 0 <= k < |cs| :: ps[k] == (cs[k].emo, cs[k].prob)
  {
    seq(|cs|, k requires 0 <= k < |cs| => (cs[k].emo, cs[k].prob))
  }

  /** `None` is written as an empty cell. */
  function CellOf(v: Option<string>): Cell {
    if v.Some? then Text(v.value) else Empty
  }

  /** The columns after the dimensions: the original emotion, or the worker id and the time
      stamp taken from the file name. */
  function Tail(audioFile: string, originalEmotion: Option<string>, workerId: Option<string>): (t: seq<Cell>)
    ensures Truthy(originalEmotion) ==> t == [Text(originalEmotion.value)]
    ensures !Truthy(originalEmotion) ==> t == [CellOf(workerId), Text(TimestampOf(audioFile))]
  {
    if Truthy(originalEmotion) then [Text(originalEmotion.value)]
    else [CellOf(workerId), Text(TimestampOf(audioFile))]
  }

  /** The answer `interfere_emotion` returns. */
  datatype Json = Json(emocategoric: seq<(string, real)>, valence: real, arousal: real, dominance: real)

  /** What one `interfere_emotion` call yields: the answer, and the row it appends. */
  datatype Outcome = Outcome(json: Json, row: seq<Cell>)

  /** The row and the answer for the classes `cs`. */
  function Assemble(audioFile: string, cs: seq<Category>, dims: (real, real, real),
                    originalEmotion: Option<string>, workerId: Option<string>): Outcome
  {
    Outcome(Json(Pairs(cs), dims.0, dims.1, dims.2),
            [Text(BaseName(audioFile))] + CategoryCells(cs) + [Real(dims.0), Real(dims.1), Real(dims.2)]
            + Tail(audioFile, originalEmotion, workerId))
  }

  /** The part of `interfere_emotion` that reads the probabilities `por` and spreads `std`:
      the three most probable classes, decoded, then the row. */
  function Describe(datasetName: string, pretrained: bool, por: seq<real>, std: seq<real>, audioFile: string,
                    dims: (real, real, real), originalEmotion: Option<string>, workerId: Option<string>): Result<Outcome>
  {
    var cs :- Categories(datasetName, pretrained, por, std, TopThree(por));
    Ok(Assemble(audioFile, cs, dims, originalEmotion, workerId))
  }

  /** `interfere_emotion` after the header: the soft and hard results, the hard label decoded
      (and then unused), and the row for the soft result. */
  function Interfere(datasetName: string, audioFile: string, predictor: Predictor, modelType: string,
                     dims: (real, real, real), originalEmotion: Option<string>, workerId: Option<string>): Result<Outcome>
  {
    var soft :- GetEmotionsSoft(predictor);
    var hard :- HardLabel(predictor);
    var pretrained := modelType == "pretrained";
    var decoded :- if pretrained then LabelUtils.DecodeLabel(hard, datasetName) else LabelUtils.ReformatLabel(hard, datasetName);
    Describe(datasetName, pretrained, soft.0, soft.1, audioFile, dims, originalEmotion, workerId)
  }

  /** The answer a call returns, or the exception it raises. */
  function Answer(o: Result<Outcome>): Result<Json> {
    if o.Ok? then Ok(o.value.json) else Err(o.error)
  }

  /** One more class of the loop: its success extends the list, its failure is the outcome. */
  lemma CategoriesStep(datasetName: string, pretrained: bool, por: seq<real>, std: seq<real>, top: seq<int>, k: nat, cs: seq<Category>)
    requires InRange(top, |por|) && k < |top|
    requires Categories(datasetName, pretrained, por, std, top[..k]) == Ok(cs)
    ensures var c := CategoryOf(datasetName, pretrained, por, std, top[k]);
      Categories(datasetName, pretrained, por, std, top[..k + 1]) == if c.Ok? then Ok(cs + [c.value]) else Err(c.error)
  {
    var next := top[..k + 1];
    assert next[..|next| - 1] == top[..k];
  }

  lemma CellsStep(cs: seq<Category>, c: Category)
    ensures CategoryCells(cs + [c]) == CategoryCells(cs) + [Text(c.emo), Real(c.prob), c.spread]
    ensures Pairs(cs + [c]) == Pairs(cs) + [(c.emo, c.prob)]
  {
    assert (cs + [c])[..|cs|] == cs;
  }

  /** The loop over the three most probable classes: the cells it appends and the entries
      it collects, or the first failure. */
  method DescribeTop(datasetName: string, pretrained: bool, por: seq<real>, std: seq<real>, top: seq<int>)
    returns (r: Result<(seq<Cell>, seq<(string, real)>)>)
    requires InRange(top, |por|)
    ensures var cs := Categories(datasetName, pretrained, por, std, top);
      r == if cs.Ok? then Ok((CategoryCells(cs.value), Pairs(cs.value))) else Err(cs.error)
  {
    var data: seq<Cell> := [];
    var emocategoric: seq<(string, real)> := [];
    ghost var cs: seq<Category> := [];
    for k := 0 to |top|
      invariant Categories(datasetName, pretrained, por, std, top[..k]) == Ok(cs)
      invariant data == CategoryCells(cs)
      invariant emocategoric == Pairs(cs)
    {
      CategoriesStep(datasetName, pretrained, por, std, top, k, cs);
      var c := DescribeClass(datasetName, pretrained, por, std, top[k]);
      if c.Err? {
        CategoriesFailFirst(datasetName, pretrained, por, std, top, k + 1);
        return Err(c.error);
      }
      CellsStep(cs, c.value);
      data := data + [Text(c.value.emo), Real(c.value.prob), c.value.spread];
      emocategoric := emocategoric + [(c.value.emo, c.value.prob)];
      cs := cs + [c.value];
    }
    assert top[..|top|] == top;
    return Ok((data, emocategoric));
  }

  /** One pass of that loop: the class name, its probability and its spread, or the error
      decoding raises. */
  method DescribeClass(datasetName: string, pretrained: bool, por: seq<real>, std: seq<real>, index: int)
    returns (c: Result<Category>)
    requires 0 <= index < |por|
    ensures c == CategoryOf(datasetName, pretrained, por, std, index)
  {
    var emo := if pretrained then LabelUtils.DecodeLabel(index, datasetName)
               else LabelUtils.ReformatLabel(index, datasetName);
    if emo.Err? {
      return Err(emo.error);
    }
    if !pretrained && index >= |std| {
      return Err(IndexError);
    }
    var prob := por[index];
    var spread := if pretrained then Int(0) else Real(std[index]);
    return Ok(Category(emo.value, prob, spread));
  }

  /** What `interfere_emotion` computes once the header is in place: the answer and the row. */
  method Classify(datasetName: string, audioFile: string, predictor: Predictor, modelType: string,
                  dims: (real, real, real), originalEmotion: Option<string>, workerId: Option<string>)
    returns (r: Result<Outcome>)
    ensures r == Interfere(datasetName, audioFile, predictor, modelType, dims, originalEmotion, workerId)
  {
    var soft := GetEmotionsSoft(predictor);
    if soft.Err? {
      return Err(soft.error);
    }
    var porAccuracy := soft.value.0;
    var std := soft.value.1;
    var hard := GetEmotionsHard(predictor);
    if hard.Err? {
      return Err(hard.error);
    }
    var pretrained := modelType == "pretrained";
    var decoded := if pretrained then LabelUtils.DecodeLabel(hard.value, datasetName)
                   else LabelUtils.ReformatLabel(hard.value, datasetName);
    if decoded.Err? {
      return Err(decoded.error);
    }
    r := DescribeRow(datasetName, pretrained, porAccuracy, std, audioFile, dims, originalEmotion, workerId);
  }

  /** The rest of `interfere_emotion` once the hard label is decoded: the loop over the three
      most probable classes, then the row of the file name, the classes, the dimensions and
      the tail columns. */
  method DescribeRow(datasetName: string, pretrained: bool, porAccuracy: seq<real>, std: seq<real>, audioFile: string,
                     dims: (real, real, real), originalEmotion: Option<string>, workerId: Option<string>)
    returns (r: Result<Outcome>)
    ensures r == Describe(datasetName, pretrained, porAccuracy, std, audioFile, dims, originalEmotion, workerId)
  {
    var top := TopThree(porAccuracy);
    var described := DescribeTop(datasetName, pretrained, porAccuracy, std, top);
    ghost var cs := Categories(datasetName, pretrained, porAccuracy, std, top);
    if described.Err? {
      return Err(described.error);
    }
    var data := [Text(BaseName(audioFile))] + described.value.0;
    data := data + [Real(dims.0), Real(dims.1), Real(dims.2)];
    if Truthy(originalEmotion) {
      data := data + [Text(originalEmotion.value)];
    } else {
      var timestamp := TimestampOf(audioFile);
      data := data + [CellOf(workerId), Text(timestamp)];
    }
    assert data == Assemble(audioFile, cs.value, dims, originalEmotion, workerId).row;
    return Ok(Outcome(Json(described.value.1, dims.0, dims.1, dims.2), data));
  }

  /** The result file of one model. */
  class ResultsCsv {
    /** `None` while the file does not exist, otherwise its rows. */
    var file: Option<seq<seq<Cell>>>

    constructor (file: Option<seq<seq<Cell>>>)
      ensures this.file == file
    {
      this.file := file;
    }

    /** `interfere_emotion(...)`: writes the header when the file does not exist yet, then
        computes the row and appends it; a failure after the header leaves the header. */
    method InterfereEmotion(datasetName: string, audioFile: string, predictor: Predictor, modelType: string,
                            dims: (real, real, real), originalEmotion: Option<string>, workerId: Option<string>)
      returns (r: Result<Json>)
      modifies this
      ensures var outcome := Interfere(datasetName, audioFile, predictor, modelType, dims, originalEmotion, workerId);
        && r == Answer(outcome)
        && file == Some(old(file).GetOr([TextCells(Header(originalEmotion))]) + if outcome.Ok? then [outcome.value.row] else [])
    {
      if file.None? {
        file := Some([TextCells(Header(originalEmotion))]);
      }
      var outcome := Classify(datasetName, audioFile, predictor, modelType, dims, originalEmotion, workerId);
      if outcome.Err? {
        assert file.value + [] == file.value;
        return Err(outcome.error);
      }
      file := Some(file.value + [outcome.value.row]);
      return Ok(outcome.value.json);
    }
  }

  // ---------------------------------------------------------------- properties of a row

  /** The layout of a row: the base file name, one (label, probability, spread) triple per
      class of the answer, valence, arousal and dominance, then the tail columns. */
  lemma RowLayout(audioFile: string, cs: seq<Category>, dims: (real, real, real),
                  originalEmotion: Option<string>, workerId: Option<string>)
    ensures var o := Assemble(audioFile, cs, dims, originalEmotion, workerId);
      var n := |o.json.emocategoric|;
      && n == |cs|
      && |o.row| == 4 + 3 * n + |Tail(audioFile, originalEmotion, workerId)|
      && o.row[0] == Text(BaseName(audioFile))
      && (forall k | 0 <= k < n ::
            o.row[1 + 3 * k] == Text(o.json.emocategoric[k].0) && o.row[2 + 3 * k] == Real(o.json.emocategoric[k].1)
            && o.row[3 + 3 * k] == cs[k].spread)
      && o.row[1 + 3 * n..4 + 3 * n] == [Real(dims.0), Real(dims.1), Real(dims.2)]
      && o.row[4 + 3 * n..] == Tail(audioFile, originalEmotion, workerId)
      && (o.json.valence, o.json.arousal, o.json.dominance) == dims
  {
    var o := Assemble(audioFile, cs, dims, originalEmotion, workerId);
    var cells := CategoryCells(cs);
    var n := |cs|;
    assert o.row[1..1 + 3 * n] == cells;
    forall k | 0 <= k < n
      ensures o.row[1 + 3 * k] == cells[3 * k] && o.row[2 + 3 * k] == cells[3 * k + 1] && o.row[3 + 3 * k] == cells[3 * k + 2]
    {
    }
  }

  /** A successful row has one cell per header column exactly when the model scores at least
      three classes, and lays its cells out as `RowLayout` says. */
  lemma RowMatchesHeader(datasetName: string, pretrained: bool, por: seq<real>, std: seq<real>, audioFile: string,
                         dims: (real, real, real), originalEmotion: Option<string>, workerId: Option<string>)
    requires Describe(datasetName, pretrained, por, std, audioFile, dims, originalEmotion, workerId).Ok?
    ensures var o := Describe(datasetName, pretrained, por, std, audioFile, dims, originalEmotion, workerId).value;
      && |o.json.emocategoric| == (if |por| < 3 then |por| else 3)
      && (|o.row| == |Header(originalEmotion)| <==> |por| >= 3)
      && exists cs :: o == Assemble(audioFile, cs, dims, originalEmotion, workerId)
  {
    var cs := Categories(datasetName, pretrained, por, std, TopThree(por)).value;
    RowLayout(audioFile, cs, dims, originalEmotion, workerId);
  }

  /** The classes the loop produces are the three most probable, most probable first, each
      under the name the model type's decoder gives its position, with a spread of 0 for a
      pretrained model and the spread at that position otherwise. */
  lemma ClassesAreTopThree(datasetName: string, pretrained: bool, por: seq<real>, std: seq<real>)
    requires Categories(datasetName, pretrained, por, std, TopThree(por)).Ok?
    ensures var top := TopThree(por);
      var cs := Categories(datasetName, pretrained, por, std, top).value;
      && |cs| == |top|
      && forall k | 0 <= k < |top| ::
        && cs[k].prob == por[top[k]]
        && (pretrained ==> LabelUtils.DecodeLabel(top[k], datasetName) == Ok(cs[k].emo) && cs[k].spread == Int(0))
        && (!pretrained ==> LabelUtils.ReformatLabel(top[k], datasetName) == Ok(cs[k].emo) && cs[k].spread == Real(std[top[k]]))
  {
    var top := TopThree(por);
    var cs := Categories(datasetName, pretrained, por, std, top).value;
    forall k | 0 <= k < |top|
      ensures cs[k].prob == por[top[k]]
      ensures pretrained ==> LabelUtils.DecodeLabel(top[k], datasetName) == Ok(cs[k].emo) && cs[k].spread == Int(0)
      ensures !pretrained ==> LabelUtils.ReformatLabel(top[k], datasetName) == Ok(cs[k].emo) && cs[k].spread == Real(std[top[k]])
    {
      assert CategoryOf(datasetName, pretrained, por, std, top[k]) == Ok(cs[k]);
    }
  }

  /** A successful call describes the soft result of its predictor. */
  lemma InterfereDescribesSoft(datasetName: string, audioFile: string, predictor: Predictor, modelType: string,
                               dims: (real, real, real), originalEmotion: Option<string>, workerId: Option<string>)
    requires Interfere(datasetName, audioFile, predictor, modelType, dims, originalEmotion, workerId).Ok?
    ensures GetEmotionsSoft(predictor).Ok? && HardLabel(predictor).Ok?
    ensures var soft := GetEmotionsSoft(predictor).value;
      Interfere(datasetName, audioFile, predictor, modelType, dims, originalEmotion, workerId)
        == Describe(datasetName, modelType == "pretrained", soft.0, soft.1, audioFile, dims, originalEmotion, workerId)
  {
    var soft := GetEmotionsSoft(predictor);
    assert soft.Ok?;
    var hard := HardLabel(predictor);
    assert hard.Ok?;
    var pretrained := modelType == "pretrained";
    var decoded := if pretrained then LabelUtils.DecodeLabel(hard.value, datasetName)
                   else LabelUtils.ReformatLabel(hard.value, datasetName);
    assert decoded.Ok?;
  }

  /** A single model that is not pretrained has the spread `[0]` (`GetEmotionsSoft`), so its
      row can be described only when the model scores at most one class: any second class
      indexes past the spread. */
  lemma SingleModelHasOneSpread(datasetName: string, por: seq<real>, audioFile: string,
                                dims: (real, real, real), originalEmotion: Option<string>, workerId: Option<string>)
    requires |por| >= 2
    ensures Describe(datasetName, false, por, [0.0], audioFile, dims, originalEmotion, workerId).Err?
  {
    var top := TopThree(por);
    TopThreeAreMostProbable(por);
    var k := if top[0] != 0 then 0 else 1;
    assert CategoryOf(datasetName, false, por, [0.0], top[k]).Err?;
  }

  // ---------------------------------------------------------------- names and paths

  /** `os.path.join(folder, name)` for one component. */
  function PathJoin(folder: string, name: string): (path: string)
    ensures name != [] && name[0] == '/' ==> path == name
  {
    if name != [] && name[0] == '/' then name
    else if folder == [] || folder[|folder| - 1] == '/' then folder + name
    else folder + "/" + name
  }

  /** The base name of a file joined to a folder is the file's name. */
  lemma BaseNameOfJoin(folder: string, name: string)
    requires '/' !in name
    ensures BaseName(PathJoin(folder, name)) == name
  {
    assert name == [] || name[0] != '/' by {
      if name != [] {
        assert name[0] in name;
      }
    }
    var path := PathJoin(folder, name);
    if folder == [] {
      assert path == name;
      SplitNoSeparator(name, '/');
    } else if folder[|folder| - 1] == '/' {
      var f := folder[..|folder| - 1];
      assert folder == f + ['/'];
      assert path == f + ['/'] + name;
      SplitLast(f, '/', name);
    } else {
      assert path == folder + ['/'] + name;
      SplitLast(folder, '/', name);
    }
  }

  /** Test mode: `audio_file.split('_')[0]`, the first '_'-field of the file name. */
  function OriginalEmotionOf(fileName: string): (emo: string)
    ensures '_' !in emo
  {
    Split(fileName, '_')[0]
  }

  /** Live mode: `audio_file.split('_')[1].removesuffix('.wav')`; `IndexError` for a name
      without '_'. */
  function WorkerIdOf(fileName: string): (r: Result<string>)
    ensures r.Err? <==> '_' !in fileName
    ensures r.Err? ==> r.error == IndexError
  {
    var parts := Split(fileName, '_');
    if |parts| < 2 then Err(IndexError)
    else
      Ok(RemoveSuffix(parts[1], ".wav"))
  }

  /** The arguments `process_audio_files` passes to `interfere_emotion` for one file of the
      folder: its path, and the original emotion (test mode) or the worker id (live mode). */
  function CallFor(test: bool, audioFolder: string, fileName: string): (r: Result<(string, Option<string>, Option<string>)>)
    ensures test ==> r == Ok((PathJoin(audioFolder, fileName), Some(OriginalEmotionOf(fileName)), None))
    ensures !test ==> (r.Ok? <==> WorkerIdOf(fileName).Ok?)
    ensures !test && r.Ok? ==> r.value == (PathJoin(audioFolder, fileName), None, Some(WorkerIdOf(fileName).value))
  {
    var audio := PathJoin(audioFolder, fileName);
    if test then Ok((audio, Some(OriginalEmotionOf(fileName)), None))
    else
      var workerId :- WorkerIdOf(fileName);
      Ok((audio, None, Some(workerId)))
  }

  /** A live file named `<timestamp>_<worker>.wav` yields the worker and the time stamp; a
      test file named `<emotion>_<rest>` yields the emotion; the tail columns of its row hold
      them. */
  lemma FileNameFields(audioFolder: string, first: string, second: string)
    requires '_' !in first && '/' !in first && '_' !in second && '/' !in second
    ensures var name := first + "_" + second + ".wav";
      && WorkerIdOf(name) == Ok(second)
      && OriginalEmotionOf(name) == first
      && TimestampOf(PathJoin(audioFolder, name)) == first
      && CallFor(false, audioFolder, name) == Ok((PathJoin(audioFolder, name), None, Some(second)))
      && Tail(PathJoin(audioFolder, name), None, Some(second)) == [Text(second), Text(first)]
      && (first != [] ==> Tail(PathJoin(audioFolder, name), Some(OriginalEmotionOf(name)), None) == [Text(first)])
  {
    var name := first + "_" + second + ".wav";
    assert name == first + ['_'] + (second + ".wav");
    assert '_' !in second + ".wav";
    SplitAt(first, '_', second + ".wav");
    SplitNoSeparator(second + ".wav", '_');
    assert RemoveSuffix(second + ".wav", ".wav") == second;
    assert '/' !in name;
    BaseNameOfJoin(audioFolder, name);
  }

  /** `model_name.split("_")[-1].split('.')[0]`: the text after the model name's last '_', up
      to its first '.'. */
  function DatasetName(modelName: string): (d: string)
    ensures '_' !in d && '.' !in d
  {
    var parts := Split(modelName, '_');
    Split(parts[|parts| - 1], '.')[0]
  }

  /** The dataset of `<prefix>_<dataset>.<extension>` is `<dataset>`. */
  lemma DatasetNameOf(prefix: string, dataset: string, extension: string)
    requires '_' !in dataset && '.' !in dataset && '_' !in extension
    ensures DatasetName(prefix + "_" + dataset + "." + extension) == dataset
  {
    var tail := dataset + "." + extension;
    assert '_' !in tail;
    assert prefix + "_" + dataset + "." + extension == prefix + ['_'] + tail;
    SplitLast(prefix, '_', tail);
    assert tail == dataset + ['.'] + extension;
    SplitAt(dataset, '.', extension);
  }

  /** The model file the tests use belongs to the MIXED dataset. */
  lemma MixedModelDataset()
    ensures DatasetName("model_ours_MIXED.pkl") == "MIXED"
  {
    DatasetNameOf("model_ours", "MIXED", "pkl");
    assert "model_ours" + "_" + "MIXED" + "." + "pkl" == "model_ours_MIXED.pkl";
  }

  /** `test_folder`'s result file; the test and live branches write the same path. */
  function CsvFile(csvFolder: string, modelName: string, test: bool): (path: string)
    ensures EndsWith(modelName, ".pkl") ==> path == csvFolder + "/" + modelName[..|modelName| - 4] + "-output.csv"
    ensures !EndsWith(modelName, ".pkl") ==> path == csvFolder + "/" + modelName + "-output.csv"
  {
    if test then csvFolder + "/" + RemoveSuffix(modelName, ".pkl") + "-output.csv"
    else csvFolder + "/" + RemoveSuffix(modelName, ".pkl") + "-output.csv"
  }

  lemma CsvFileIgnoresMode(csvFolder: string, modelName: string)
    ensures CsvFile(csvFolder, modelName, true) == CsvFile(csvFolder, modelName, false)
  {
  }

  /** The feature extractor built for a model type. */
  datatype Loader = PretrainedFeatures | W2v2Features | OursFeatures(nMfcc: int, second: int)

  /** The loader choice of `process_audio_files` and `get_emotions_audio`: by the model type,
      and for any other type one built from the two first entries of the model's `mfcc`
      entry; `TypeError` when the model is not a dictionary, `KeyError` without `mfcc`, and
      `IndexError` when it is shorter than two. */
  function LoaderFor(modelType: string, model: Predictor, mfcc: Option<seq<int>>): (r: Result<Loader>)
    ensures modelType == "pretrained" ==> r == Ok(PretrainedFeatures)
    ensures modelType == "w2v2" ==> r == Ok(W2v2Features)
    ensures modelType != "pretrained" && modelType != "w2v2" ==>
      (r.Ok? <==> model.Ensemble? && mfcc.Some? && |mfcc.value| >= 2)
      && (r.Ok? ==> r == Ok(OursFeatures(mfcc.value[0], mfcc.value[1])))
  {
    if modelType == "pretrained" then Ok(PretrainedFeatures)
    else if modelType == "w2v2" then Ok(W2v2Features)
    else if model.Single? then Err(TypeError)
    else if mfcc.None? then Err(KeyError("mfcc"))
    else if |mfcc.value| < 2 then Err(IndexError)
    else Ok(OursFeatures(mfcc.value[0], mfcc.value[1]))
  }
}
