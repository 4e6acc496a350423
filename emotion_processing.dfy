/** `EmotionProcessor` (app/module_inference/emotion_processer.py): the hard vote, which
    raises for an ensemble, the soft result as whole probability tables, and `process_audio`'s
    answer, both as written and as evidently intended: the three most probable classes
    decoded by the encoder's order, and the three dimensions. */
module EmotionProcessing {
  import opened Common
  import opened FolderInference
  import LabelUtils
  import LabelTables

  /** `EmotionProcessor(model, feature_loader, dataset_name)`; the fields are set once and
      the feature loader's output is already folded into the model's predictions. */
  datatype EmotionProcessor = EmotionProcessor(model: Predictor, datasetName: string)

  /** What `get_emotions` returns: a hard label, the soft tables, or `None` for any other
      mode. */
  datatype Emotions = Label(hard: int) | Tables(probabilities: seq<seq<real>>, spreads: seq<seq<real>>) | NoMode

  /** `get_emotions(features, "soft")`: an ensemble's mean and spread tables, or a single
      model's probability table with the spread `[[0]]`. */
  function SoftTables(model: Predictor): (r: Emotions)
    ensures r.Tables?
    ensures model.Ensemble? ==> r == Tables(model.mean, model.spread)
    ensures model.Single? ==> r == Tables(model.proba, [[0.0]])
  {
    match model
    case Ensemble(_, mean, spread) => Tables(mean, spread)
    case Single(_, proba) => Tables(proba, [[0.0]])
  }

  /** `get_emotions(features, "hard")` as written. A single model's label is read as the
      folder predictor reads it. An ensemble's predictions are appended as arrays, so the
      object array `np.unique` counts holds plain Python integers, and `.item()` on the most
      frequent one raises `AttributeError`; with no prediction at all, `argmax` raises
      `ValueError` before that. `HardLabel`, which appends `list(prediction)`, is the vote
      evidently intended. */
  function HardLabelAsWritten(model: Predictor): (r: Result<int>)
    ensures model.Single? ==> r == HardLabel(model)
    ensures model.Ensemble? ==> r.Err?
    ensures model.Ensemble? && HardLabel(model).Ok? ==> r.error == AttributeError
    ensures model.Ensemble? && HardLabel(model).Err? ==> r == HardLabel(model)
  {
    match model
    case Ensemble(votes, _, _) => if Flatten(votes) == [] then HardLabel(model) else Err(AttributeError)
    case Single(_, _) => HardLabel(model)
  }

  /** Wherever the members of an ensemble predict something, the vote as written raises
      `AttributeError`, while the vote evidently intended answers with the majority label. */
  lemma EnsembleVoteRaises(votes: seq<seq<int>>, mean: seq<seq<real>>, spread: seq<seq<real>>)
    requires Flatten(votes) != []
    ensures HardLabelAsWritten(Ensemble(votes, mean, spread)) == Err(AttributeError)
    ensures HardLabel(Ensemble(votes, mean, spread)).Ok?
    ensures IsMajority(Flatten(votes), HardLabel(Ensemble(votes, mean, spread)).value)
  {
  }

  /** `get_emotions(features, mode)`: the hard label as written in hard mode, the soft tables
      in soft mode, and `None` otherwise. */
  method GetEmotions(processor: EmotionProcessor, mode: string) returns (r: Result<Emotions>)
    ensures mode == "hard" ==> (r.Ok? <==> HardLabelAsWritten(processor.model).Ok?)
    ensures mode == "hard" && r.Ok? ==>
      && processor.model.Single?
      && r.value == Label(HardLabel(processor.model).value)
      && processor.model.prediction == [r.value.hard]
    ensures mode == "hard" && r.Err? ==> r.error == HardLabelAsWritten(processor.model).error
    ensures mode == "soft" ==> r == Ok(SoftTables(processor.model))
    ensures mode != "hard" && mode != "soft" ==> r == Ok(NoMode)
  {
    if mode == "hard" {
      match processor.model
      case Ensemble(votes, _, _) =>
        var predictions := GatherVotes(votes);
        if predictions == [] {
          return Err(ValueError("attempt to get argmax of an empty sequence"));
        }
        return Err(AttributeError);
      case Single(prediction, _) =>
        var vote := IntOfPrediction(prediction);
        if vote.Err? {
          return Err(vote.error);
        }
        return Ok(Label(vote.value));
    } else if mode == "soft" {
      return Ok(SoftTables(processor.model));
    }
    return Ok(NoMode);
  }

  /** The index rows `np.argsort(por_accuracy)[-3:][::-1]` walks, by their width: the
      soft result is the whole table, `argsort` sorts within each row, and the two slices
      take the last three rows, last first. */
  function WalkedWidths(table: seq<seq<real>>): (widths: seq<nat>)
    ensures |widths| == if |table| < 3 then |table| else 3
    ensures forall k | 0 <= k < |widths| :: widths[k] == |table[|table| - 1 - k]|
  {
    var m := if |table| < 3 then |table| else 3;
    seq(m, k requires 0 <= k < m => |table[|table| - 1 - k]|)
  }

  /** `decode_label(i, dataset_name)` for `i` a row of `width` indices: `labels_json` is
      looked up first (`KeyError`); `inverse_transform([i])` then accepts only a row with a
      single index, which is 0, and raises `ValueError` for any other width. */
  function DecodeIndexRow(width: nat, datasetName: string): (r: Result<string>)
    ensures LabelTables.Lookup(datasetName).None? ==> r == Err(KeyError(datasetName))
    ensures LabelTables.Lookup(datasetName).Some? && width != 1 ==> r.Err? && r.error.ValueError?
    ensures width == 1 ==> r == LabelUtils.DecodeLabel(0, datasetName)
  {
    if LabelTables.Lookup(datasetName).None? then Err(KeyError(datasetName))
    else if width != 1 then Err(ValueError("y should be a 1d array"))
    else LabelUtils.DecodeLabel(0, datasetName)
  }

  /** The `emocategoric` comprehension over the walked rows: each decoded, paired with
      `prob`; the first row that fails to decode ends it with its error. */
  function WalkedEntries(widths: seq<nat>, datasetName: string, prob: real): (r: Result<seq<(string, real)>>)
    ensures r.Ok? <==> forall k | 0 <= k < |widths| :: DecodeIndexRow(widths[k], datasetName).Ok?
    ensures r.Ok? ==> (|r.value| == |widths| &&
      forall k | 0 <= k < |widths| :: r.value[k] == (DecodeIndexRow(widths[k], datasetName).value, prob))
    ensures r.Err? ==> exists k | 0 <= k < |widths| ::
      && DecodeIndexRow(widths[k], datasetName).Err?
      && r.error == DecodeIndexRow(widths[k], datasetName).error
      && forall j | 0 <= j < k :: DecodeIndexRow(widths[j], datasetName).Ok?
  {
    if widths == [] then Ok([])
    else
      var head :- DecodeIndexRow(widths[0], datasetName);
      assert forall k | 1 <= k < |widths| :: widths[1..][k - 1] == widths[k];
      var tail :- WalkedEntries(widths[1..], datasetName, prob);
      Ok([(head, prob)] + tail)
  }

  /** `process_audio(audio_file)` as written, with the dimensional model's output `dims`:
      the soft result is the whole probability table, the hard label is computed as written
      (unused, but raising for every ensemble), and the comprehension decodes rows of indices
      rather than indices. It answers only for a single model and an empty table or rows of
      a single column; for a one-column table the probability `por_accuracy[i]` is the first
      row's value. */
  function ProcessAudio(processor: EmotionProcessor, dims: (real, real, real)): (r: Result<Json>)
    ensures processor.model.Ensemble? ==> r.Err?
    ensures HardLabelAsWritten(processor.model).Err? ==> r == Err(HardLabelAsWritten(processor.model).error)
    ensures HardLabelAsWritten(processor.model).Ok? ==>
      var widths := WalkedWidths(SoftTables(processor.model).probabilities);
      r.Ok? <==> forall k | 0 <= k < |widths| :: DecodeIndexRow(widths[k], processor.datasetName).Ok?
    ensures r.Ok? ==>
      && |r.value.emocategoric| == |WalkedWidths(SoftTables(processor.model).probabilities)|
      && (r.value.valence, r.value.arousal, r.value.dominance) == dims
  {
    var table := SoftTables(processor.model).probabilities;
    var hard :- HardLabelAsWritten(processor.model);
    var prob := if table == [] then 0.0 else Key(table[0], 0);
    var entries :- WalkedEntries(WalkedWidths(table), processor.datasetName, prob);
    Ok(Json(entries, dims.0, dims.1, dims.2))
  }

  /** For a known dataset and a hard label the intended vote finds, a table whose last row
      has more than one class (what `predict_proba` returns for one feature row) makes
      `process_audio` raise: `AttributeError` from an ensemble's vote, and `ValueError` from
      a single model's decoding. */
  lemma ProcessAudioRaisesOnClassRows(processor: EmotionProcessor, dims: (real, real, real))
    requires HardLabel(processor.model).Ok?
    requires LabelTables.Lookup(processor.datasetName).Some?
    requires var table := SoftTables(processor.model).probabilities;
      table != [] && |table[|table| - 1]| >= 2
    ensures ProcessAudio(processor, dims).Err?
    ensures processor.model.Ensemble? ==> ProcessAudio(processor, dims).error == AttributeError
    ensures processor.model.Single? ==> ProcessAudio(processor, dims).error.ValueError?
  {
    if processor.model.Ensemble? {
      return;
    }
    var table := SoftTables(processor.model).probabilities;
    var widths := WalkedWidths(table);
    assert widths[0] == |table[|table| - 1]|;
    assert DecodeIndexRow(widths[0], processor.datasetName).Err?;
    var r := WalkedEntries(widths, processor.datasetName, if table == [] then 0.0 else Key(table[0], 0));
    assert r.Err?;
    var k :| 0 <= k < |widths| && DecodeIndexRow(widths[k], processor.datasetName).Err?
      && r.error == DecodeIndexRow(widths[k], processor.datasetName).error
      && forall j | 0 <= j < k :: DecodeIndexRow(widths[j], processor.datasetName).Ok?;
    assert k == 0;
  }

  /** `process_audio` as evidently intended: the hard label voted over `list(prediction)` and
      the soft result read as its first row, both as `interfere_emotion` computes them, then
      the three most probable classes decoded by the encoder's order with their
      probabilities, and the three dimensions. */
  function ProcessAudioFirstRow(processor: EmotionProcessor, dims: (real, real, real)): (r: Result<Json>)
    ensures r.Ok? ==> GetEmotionsSoft(processor.model).Ok? && HardLabel(processor.model).Ok?
    ensures GetEmotionsSoft(processor.model).Ok? && HardLabel(processor.model).Ok? ==>
      var por := GetEmotionsSoft(processor.model).value.0;
      var top := TopThree(por);
      && (r.Ok? <==> forall k | 0 <= k < |top| :: LabelUtils.DecodeLabel(top[k], processor.datasetName).Ok?)
      && (r.Ok? ==>
            && |r.value.emocategoric| == |top|
            && (forall k | 0 <= k < |top| ::
                  r.value.emocategoric[k] == (LabelUtils.DecodeLabel(top[k], processor.datasetName).value, por[top[k]]))
            && (r.value.valence, r.value.arousal, r.value.dominance) == dims)
  {
    var soft :- GetEmotionsSoft(processor.model);
    var hard :- HardLabel(processor.model);
    var top := TopThree(soft.0);
    PretrainedCategoriesOk(processor.datasetName, soft.0, soft.1, top);
    var cs :- Categories(processor.datasetName, true, soft.0, soft.1, top);
    ClassesAreTopThree(processor.datasetName, true, soft.0, soft.1);
    Ok(Json(Pairs(cs), dims.0, dims.1, dims.2))
  }

  /** For a pretrained model, the first-row reading answers what `interfere_emotion` answers
      whenever the latter succeeds (the latter can also fail on the hard label's decoding). */
  lemma ProcessAudioAgreesWithInterfere(processor: EmotionProcessor, audioFile: string, dims: (real, real, real),
                                        originalEmotion: Option<string>, workerId: Option<string>)
    requires Interfere(processor.datasetName, audioFile, processor.model, "pretrained", dims, originalEmotion, workerId).Ok?
    ensures ProcessAudioFirstRow(processor, dims)
      == Ok(Interfere(processor.datasetName, audioFile, processor.model, "pretrained", dims, originalEmotion, workerId).value.json)
  {
    InterfereDescribesSoft(processor.datasetName, audioFile, processor.model, "pretrained", dims, originalEmotion, workerId);
  }

  /** A pretrained call that answers has a hard label, decoded against a known dataset. */
  lemma InterfereKnowsDataset(processor: EmotionProcessor, audioFile: string, dims: (real, real, real),
                              originalEmotion: Option<string>, workerId: Option<string>)
    requires Interfere(processor.datasetName, audioFile, processor.model, "pretrained", dims, originalEmotion, workerId).Ok?
    ensures HardLabel(processor.model).Ok? && LabelTables.Lookup(processor.datasetName).Some?
  {
    var hard := HardLabel(processor.model);
    if hard.Ok? {
      assert LabelUtils.DecodeLabel(hard.value, processor.datasetName).Ok?;
    }
  }

  /** With a hard label and a known dataset, a one-row table of two or more classes (what
      `predict_proba` returns for one feature row) makes `process_audio` raise:
      `AttributeError` for an ensemble, `ValueError` for a single model. */
  lemma ProcessAudioRaisesOnOneRow(processor: EmotionProcessor, dims: (real, real, real))
    requires HardLabel(processor.model).Ok? && LabelTables.Lookup(processor.datasetName).Some?
    requires var table := SoftTables(processor.model).probabilities;
      |table| == 1 && |table[0]| >= 2
    ensures ProcessAudio(processor, dims).Err?
    ensures processor.model.Ensemble? ==> ProcessAudio(processor, dims).error == AttributeError
    ensures processor.model.Single? ==> ProcessAudio(processor, dims).error.ValueError?
  {
    var table := SoftTables(processor.model).probabilities;
    assert table[|table| - 1] == table[0];
    ProcessAudioRaisesOnClassRows(processor, dims);
  }

  /** Where `interfere_emotion` answers for a one-row table of two or more classes,
      `process_audio` as written raises (`AttributeError` for an ensemble, `ValueError` for a
      single model), and the intended reading answers. */
  lemma ProcessAudioFailsWhereInterfereAnswers(processor: EmotionProcessor, audioFile: string, dims: (real, real, real),
                                               originalEmotion: Option<string>, workerId: Option<string>)
    requires Interfere(processor.datasetName, audioFile, processor.model, "pretrained", dims, originalEmotion, workerId).Ok?
    requires var table := SoftTables(processor.model).probabilities;
      |table| == 1 && |table[0]| >= 2
    ensures ProcessAudio(processor, dims).Err?
    ensures processor.model.Ensemble? ==> ProcessAudio(processor, dims).error == AttributeError
    ensures processor.model.Single? ==> ProcessAudio(processor, dims).error.ValueError?
    ensures ProcessAudioFirstRow(processor, dims).Ok?
  {
    InterfereKnowsDataset(processor, audioFile, dims, originalEmotion, workerId);
    ProcessAudioRaisesOnOneRow(processor, dims);
    ProcessAudioAgreesWithInterfere(processor, audioFile, dims, originalEmotion, workerId);
  }
}
