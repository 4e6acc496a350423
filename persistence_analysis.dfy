/** The batch copy of the classifier (app/persistance/analysis.py): the same
    `determine_condition` over its own copy of the two tables, and
    `classify_conditions_by_user`, which, unlike the processor's bulk mode,
    lets a missing input file raise and writes `_classified_by_user.csv`. */
module PersistenceAnalysis {
  import opened Common
  import opened Strings
  import AP = AnalysisProcessor

  const EmotionWeights: map<AP.Condition, map<string, AP.Range>> := map[
    AP.NoDisorder := map["neutral" := AP.Range(30.0, 50.0), "happiness" := AP.Range(20.0, 40.0),
                         "sadness" := AP.Range(10.0, 20.0), "fear" := AP.Range(5.0, 15.0),
                         "anger" := AP.Range(5.0, 10.0), "disgust" := AP.Range(5.0, 10.0)],
    AP.Depression := map["sadness" := AP.Range(40.0, 50.0), "disgust" := AP.Range(10.0, 20.0),
                         "anger" := AP.Range(10.0, 15.0), "fear" := AP.Range(5.0, 15.0),
                         "neutral" := AP.Range(10.0, 15.0), "happiness" := AP.Range(0.0, 5.0)],
    AP.Anxiety := map["fear" := AP.Range(40.0, 60.0), "sadness" := AP.Range(10.0, 20.0),
                      "anger" := AP.Range(5.0, 15.0), "disgust" := AP.Range(5.0, 10.0),
                      "neutral" := AP.Range(5.0, 15.0), "happiness" := AP.Range(5.0, 10.0)]]

  const EmotionDimensionMap: map<string, map<AP.Dimension, AP.Range>> := map[
    "happiness" := map[AP.Arousal := AP.Range(0.3, 0.7), AP.Valence := AP.Range(0.5, 1.0), AP.Dominance := AP.Range(0.5, 1.0)],
    "sadness" := map[AP.Arousal := AP.Range(0.0, 0.3), AP.Valence := AP.Range(-1.0, -0.5), AP.Dominance := AP.Range(-0.7, -0.3)],
    "fear" := map[AP.Arousal := AP.Range(0.6, 1.0), AP.Valence := AP.Range(-1.0, -0.5), AP.Dominance := AP.Range(-1.0, -0.6)],
    "disgust" := map[AP.Arousal := AP.Range(0.4, 0.8), AP.Valence := AP.Range(-1.0, -0.5), AP.Dominance := AP.Range(-0.7, -0.4)],
    "anger" := map[AP.Arousal := AP.Range(0.7, 1.0), AP.Valence := AP.Range(-0.7, -0.3), AP.Dominance := AP.Range(-0.5, -0.2)],
    "neutral" := map[AP.Arousal := AP.Range(0.2, 0.5), AP.Valence := AP.Range(-0.1, 0.1), AP.Dominance := AP.Range(0.0, 0.3)]]

  const ScriptTables: AP.Tables := AP.Tables(EmotionWeights, EmotionDimensionMap)

  /** The script's tables are the processor's tables, entry for entry. */
  lemma SameTablesAsProcessor()
    ensures ScriptTables == AP.ProcessorTables
    ensures AP.WellFormed(ScriptTables)
  {
    AP.ProcessorTablesShape();
  }

  /** `determine_condition(rows)`: the processor's algorithm on the script's tables, so it
      returns what the processor returns for the same rows and draws. */
  method DetermineCondition(rows: seq<AP.Row>, draws: AP.Draws) returns (condition: AP.Condition)
    ensures AP.WellFormed(ScriptTables)
    ensures condition == AP.Classification(ScriptTables, rows, draws)
    ensures condition == AP.Classification(AP.ProcessorTables, rows, draws)
  {
    SameTablesAsProcessor();
    condition := AP.DetermineCondition(ScriptTables, rows, draws);
  }

  /** `classify_conditions_by_user(csv_path)`: `file` is `None` when the file does not exist,
      and `pd.read_csv` raises `FileNotFoundError`; otherwise the per-user classification
      goes to the path with every `.csv` replaced by `_classified_by_user.csv`. */
  function ClassifyConditionsByUser(csvPath: string, file: Option<seq<AP.UserRow>>, draws: int -> AP.Draws)
    : (out: Result<AP.OutputFile>)
    ensures file.None? <==> out == Err(FileNotFoundError)
    ensures out.Ok? ==> out.value.path == ReplaceAll(csvPath, ".csv", "_classified_by_user.csv")
    ensures out.Ok? ==> AP.WellFormed(ScriptTables) && out.value.lines == AP.ClassifyGroups(ScriptTables, file.value, draws)
  {
    match file
    case None => Err(FileNotFoundError)
    case Some(rows) =>
      SameTablesAsProcessor();
      Ok(AP.OutputFile(ReplaceAll(csvPath, ".csv", "_classified_by_user.csv"), AP.ClassifyGroups(ScriptTables, rows, draws)))
  }

  /** On the same file the script and the processor's bulk mode write the same lines; only
      the output name and the missing-file behaviour differ. */
  lemma SameLinesAsProcessor(scriptPath: string, processorPath: string, rows: seq<AP.UserRow>, draws: int -> AP.Draws)
    ensures ClassifyConditionsByUser(scriptPath, Some(rows), draws).Ok?
    ensures AP.ClassifyUsersByCondition(processorPath, Some(rows), draws).Some?
    ensures ClassifyConditionsByUser(scriptPath, Some(rows), draws).value.lines
         == AP.ClassifyUsersByCondition(processorPath, Some(rows), draws).value.lines
  {
    SameTablesAsProcessor();
  }

  /** For `name.csv` with no other `.csv` in it, the output is `name_classified_by_user.csv`. */
  lemma OutputBesideInput(stem: string, file: seq<AP.UserRow>, draws: int -> AP.Draws)
    requires !Occurs(".csv", stem)
    ensures ClassifyConditionsByUser(stem + ".csv", Some(file), draws).Ok?
    ensures ClassifyConditionsByUser(stem + ".csv", Some(file), draws).value.path == stem + "_classified_by_user.csv"
  {
    ReplaceAllAppended(stem, ".csv", "_classified_by_user.csv");
  }

  /** The input the module classifies when it is imported, without its extension. */
  const DefaultStem: string := "resources/emotion_data_with_dimensions_full"

  /** The import-time call reads `DefaultStem + ".csv"` and writes beside it. */
  lemma DefaultOutput(file: seq<AP.UserRow>, draws: int -> AP.Draws)
    ensures ClassifyConditionsByUser(DefaultStem + ".csv", Some(file), draws).Ok?
    ensures ClassifyConditionsByUser(DefaultStem + ".csv", Some(file), draws).value.path
         == DefaultStem + "_classified_by_user.csv"
  {
    assert '.' !in DefaultStem;
    NoFirstCharNoOccurrence(".csv", DefaultStem);
    OutputBesideInput(DefaultStem, file, draws);
  }
}
