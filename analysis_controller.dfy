/** The `/analysis/classify` endpoint (app/module_analysis/analysis_controller.py):
    it reads the classified file and lists, for each of the three conditions,
    the user ids whose `Predicted_Condition` is that condition, in file order. */
module AnalysisController {
  import opened Common
  import AP = AnalysisProcessor

  /** The file the endpoint reads. */
  const CsvPath: string := "resources/estocastic_data_classified.csv"

  /** The positions of the lines predicted to have `condition`: ascending, and each such
      position exactly once. */
  function Matching(lines: seq<AP.Classified>, condition: string): (f: seq<nat>)
    ensures forall k | 0 <= k < |f| :: f[k] < |lines| && lines[f[k]].predictedCondition == condition
    ensures forall j, k | 0 <= j < k < |f| :: f[j] < f[k]
    ensures forall i | 0 <= i < |lines| && lines[i].predictedCondition == condition :: i in f
  {
    Positions(lines, (line: AP.Classified) => line.predictedCondition == condition)
  }

  /** `df[df["Predicted_Condition"] == condition]["user_id"].tolist()`: the user id of each
      line predicted to have `condition`, one per line, in file order. */
  function IdsWith(lines: seq<AP.Classified>, condition: string): (ids: seq<int>)
    ensures |ids| == |Matching(lines, condition)|
    ensures forall k | 0 <= k < |ids| :: ids[k] == lines[Matching(lines, condition)[k]].userId
    ensures forall u :: u in ids <==>
      exists i | 0 <= i < |lines| :: lines[i].predictedCondition == condition && lines[i].userId == u
  {
    if lines == [] then []
    else
      var n := |lines| - 1;
      var rest := IdsWith(lines[..n], condition);
      assert forall i | 0 <= i < n :: lines[..n][i] == lines[i];
      if lines[n].predictedCondition == condition then rest + [lines[n].userId] else rest
  }

  /** The JSON object the endpoint returns: exactly the three condition names as keys, each
      with the ids of the lines predicted to have it. */
  function GroupedConditions(lines: seq<AP.Classified>): (grouped: map<string, seq<int>>)
    ensures grouped.Keys == {"no_disorder", "depression", "anxiety"}
    ensures forall c: AP.Condition :: AP.ConditionName(c) in grouped
    ensures forall c: AP.Condition :: grouped[AP.ConditionName(c)] == IdsWith(lines, AP.ConditionName(c))
    ensures forall c: AP.Condition, u ::
      u in grouped[AP.ConditionName(c)] <==>
      exists i | 0 <= i < |lines| :: lines[i].predictedCondition == AP.ConditionName(c) && lines[i].userId == u
  {
    var grouped := map[
      "no_disorder" := IdsWith(lines, "no_disorder"),
      "depression" := IdsWith(lines, "depression"),
      "anxiety" := IdsWith(lines, "anxiety")];
    assert forall c: AP.Condition :: grouped[AP.ConditionName(c)] == IdsWith(lines, AP.ConditionName(c)) by {
      forall c: AP.Condition
        ensures grouped[AP.ConditionName(c)] == IdsWith(lines, AP.ConditionName(c))
      {
        if c == AP.NoDisorder {
        } else if c == AP.Depression {
        } else {
        }
      }
    }
    grouped
  }

  /** Whether a line carries one of the three condition names. */
  predicate Recognised(line: AP.Classified) {
    line.predictedCondition in {"no_disorder", "depression", "anxiety"}
  }

  /** The number of recognised lines. */
  function RecognisedCount(lines: seq<AP.Classified>): nat {
    if lines == [] then 0
    else RecognisedCount(lines[..|lines| - 1]) + (if Recognised(lines[|lines| - 1]) then 1 else 0)
  }

  /** The three lists together hold one id per recognised line: each such line is listed under
      its own condition only, and a line with any other value is in no list. */
  lemma {:induction false} ListsPartitionRecognisedLines(lines: seq<AP.Classified>)
    ensures |IdsWith(lines, "no_disorder")| + |IdsWith(lines, "depression")| + |IdsWith(lines, "anxiety")|
         == RecognisedCount(lines)
  {
    if lines != [] {
      ListsPartitionRecognisedLines(lines[..|lines| - 1]);
    }
  }

  /** When every line carries one of the three names, every line is listed. */
  lemma {:induction false} RecognisedLinesAreAllListed(lines: seq<AP.Classified>)
    requires forall i | 0 <= i < |lines| :: Recognised(lines[i])
    ensures |IdsWith(lines, "no_disorder")| + |IdsWith(lines, "depression")| + |IdsWith(lines, "anxiety")| == |lines|
  {
    AllRecognisedCount(lines);
    ListsPartitionRecognisedLines(lines);
  }

  lemma {:induction false} AllRecognisedCount(lines: seq<AP.Classified>)
    requires forall i | 0 <= i < |lines| :: Recognised(lines[i])
    ensures RecognisedCount(lines) == |lines|
  {
    if lines != [] {
      var n := |lines| - 1;
      assert forall i | 0 <= i < n :: lines[..n][i] == lines[i];
      AllRecognisedCount(lines[..n]);
    }
  }
}
