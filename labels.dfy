/** The label tables of the emotion models (app/module_inference/models/labels_functions.py):
    for each training dataset, its labels with their numeric codes in declaration
    order, and the dictionary that unifies every dataset's label into one common
    emotion name. */
module LabelTables {
  import opened Common

  /** A dataset's labels and codes, in the order the dictionary literal lists them. */
  type LabelTable = seq<(string, int)>

  const Mixed: LabelTable := [("neu", 0), ("gio", 2), ("tri", 3), ("rab", 4), ("ans", 5), ("dis", 6)]

  const EmoDBSpain: LabelTable :=
    [("Neutro", 0), ("Alegria", 2), ("Tristeza", 3), ("Ira", 4), ("Miedo", 5), ("Asco", 6), ("Sorpresa", 7)]

  const MEACorpus: LabelTable :=
    [("neutral", 0), ("joy", 2), ("sadness", 3), ("anger", 4), ("fear", 5), ("disgust", 6)]

  /** `labels_json`: the datasets by name, in declaration order. */
  const LabelsJson: seq<(string, LabelTable)> := [("MIXED", Mixed), ("EmoDBSpain", EmoDBSpain), ("MEACorpus", MEACorpus)]

  /** `unified_labels` */
  const UnifiedLabels: map<string, string> := map[
    "neu" := "neutral", "Neutro" := "neutral",
    "gio" := "happiness", "Alegria" := "happiness", "joy" := "happiness",
    "tri" := "sadness", "Tristeza" := "sadness",
    "rab" := "anger", "Ira" := "anger",
    "ans" := "fear", "Miedo" := "fear",
    "dis" := "disgust", "Asco" := "disgust",
    "Sorpresa" := "surprise"
  ]

  /** The common emotion names. */
  const UnifiedEmotions: set<string> := {"neutral", "happiness", "sadness", "anger", "fear", "disgust", "surprise"}

  /** `labels_json[dataname]`, or `None` where it raises `KeyError`. */
  function Lookup(dataname: string): (r: Option<LabelTable>)
    ensures r.Some? <==> dataname in {"MIXED", "EmoDBSpain", "MEACorpus"}
    ensures r.Some? ==> (dataname, r.value) in LabelsJson
  {
    if dataname == "MIXED" then Some(Mixed)
    else if dataname == "EmoDBSpain" then Some(EmoDBSpain)
    else if dataname == "MEACorpus" then Some(MEACorpus)
    else None
  }

  /** `list(table.keys())` */
  function Keys(table: LabelTable): (keys: seq<string>)
    ensures |keys| == |table| && forall i | 0 <= i < |table| :: keys[i] == table[i].0
  {
    seq(|table|, i requires 0 <= i < |table| => table[i].0)
  }

  /** A dictionary literal's keys: distinct. */
  predicate DistinctKeys(table: LabelTable) {
    forall i, j | 0 <= i < j < |table| :: table[i].0 != table[j].0
  }

  /** No two labels of the table share a code. */
  predicate DistinctCodes(table: LabelTable) {
    forall i, j | 0 <= i < j < |table| :: table[i].1 != table[j].1
  }

  /** Within every dataset the labels are distinct and so are their codes. */
  lemma TablesHaveDistinctCodes()
    ensures forall d | 0 <= d < |LabelsJson| :: DistinctKeys(LabelsJson[d].1) && DistinctCodes(LabelsJson[d].1)
  {
  }

  /** No unified name is itself a key of the unification dictionary. */
  lemma UnifiedValuesAreNotKeys()
    ensures forall k | k in UnifiedLabels :: UnifiedLabels[k] !in UnifiedLabels
  {
  }
}

/** The label helpers of app/module_inference/utils/utils.py: `unify_label`, and the two
    ways a model's integer output is turned back into a label: `reformat_label`, by
    position in the dataset's declaration order, and `decode_label`, by position in
    scikit-learn `LabelEncoder`'s sorted class order. */
module LabelUtils {
  import opened Common
  import opened LabelTables
  import Strings
  import Sorting
  import AP = AnalysisProcessor

  /** `unify_label(label)`: the common name of a known label, any other label unchanged. */
  function UnifyLabel(name: string): (r: string)
    ensures name in UnifiedLabels ==> r == UnifiedLabels[name]
    ensures name !in UnifiedLabels ==> r == name
  {
    if name in UnifiedLabels then UnifiedLabels[name] else name
  }

  /** Unifying twice is unifying once, because no unified name is a key. */
  lemma UnifyIdempotent(name: string)
    ensures UnifyLabel(UnifyLabel(name)) == UnifyLabel(name)
  {
    UnifiedValuesAreNotKeys();
  }

  /** Python's `seq[i]` for an integer `i`: a negative index counts from the end. */
  function PyIndex(i: int, n: nat): (r: Option<nat>)
    ensures r.Some? <==> -(n as int) <= i < n
    ensures r.Some? ==> r.value < n && (i >= 0 ==> r.value == i) && (i < 0 ==> r.value == n + i)
  {
    if 0 <= i < n then Some(i)
    else if -(n as int) <= i < 0 then Some(n + i)
    else None
  }

  /** `reformat_label(label, dataname)`: the unified name of the dataset's label at that
      position of its declaration order; `KeyError` for an unknown dataset, `IndexError`
      for a position outside the table. */
  function ReformatLabel(name: int, dataname: string): (r: Result<string>)
    ensures Lookup(dataname).None? ==> r.Err? && r.error.KeyError?
    ensures Lookup(dataname).Some? ==>
      var table := Lookup(dataname).value;
      && (r.Ok? <==> -|table| <= name < |table|)
      && (r.Err? ==> r.error == IndexError)
      && (r.Ok? ==> r.value == UnifyLabel(table[if name < 0 then |table| + name else name].0))
  {
    match Lookup(dataname)
    case None => Err(KeyError(dataname))
    case Some(table) =>
      var keys := Keys(table);
      match PyIndex(name, |keys|)
      case None => Err(IndexError)
      case Some(i) => Ok(UnifyLabel(keys[i]))
  }

  /** `LabelEncoder().fit(keys).classes_`: the distinct keys in ascending order. */
  function Classes(keys: seq<string>): (classes: seq<string>)
    ensures Sorting.StrictlySorted(Strings.Less, classes)
    ensures forall k :: k in classes <==> k in keys
  {
    Sorting.StringLessIsStrictTotal();
    Sorting.SortedDistinct(Strings.Less, keys)
  }

  /** `decode_label(label, dataname)`: the unified name of the class at that position of the
      encoder's sorted order; `KeyError` for an unknown dataset, and `ValueError` ("previously
      unseen labels") for a position that is not a class number, negative ones included. */
  function DecodeLabel(name: int, dataname: string): (r: Result<string>)
    ensures Lookup(dataname).None? ==> r.Err? && r.error.KeyError?
    ensures Lookup(dataname).Some? ==>
      var classes := Classes(Keys(Lookup(dataname).value));
      && (r.Ok? <==> 0 <= name < |classes|)
      && (r.Err? ==> r.error.ValueError?)
      && (r.Ok? ==> r.value == UnifyLabel(classes[name]))
  {
    match Lookup(dataname)
    case None => Err(KeyError(dataname))
    case Some(table) =>
      var classes := Classes(Keys(table));
      if 0 <= name < |classes| then Ok(UnifyLabel(classes[name]))
      else Err(ValueError("y contains previously unseen labels"))
  }

  /** The encoder's class order of each dataset, written out. */
  const MixedClasses: seq<string> := ["ans", "dis", "gio", "neu", "rab", "tri"]
  const EmoDBSpainClasses: seq<string> := ["Alegria", "Asco", "Ira", "Miedo", "Neutro", "Sorpresa", "Tristeza"]
  const MEACorpusClasses: seq<string> := ["anger", "disgust", "fear", "joy", "neutral", "sadness"]

  /** The encoder orders MIXED's labels as written out above. */
  lemma MixedClassOrder()
    ensures Classes(Keys(Mixed)) == MixedClasses
  {
    Sorting.StringLessIsStrictTotal();
    assert Keys(Mixed) == ["neu", "gio", "tri", "rab", "ans", "dis"];
    MixedClassesSorted();
    Sorting.StrictlySortedUnique(Strings.Less, Classes(Keys(Mixed)), MixedClasses);
  }

  lemma MixedClassesSorted()
    ensures Sorting.StrictlySorted(Strings.Less, MixedClasses)
  {
    Sorting.StringLessIsStrictTotal();
    var s := MixedClasses;
    assert Strings.Less(s[0], s[1]) && Strings.Less(s[1], s[2]) && Strings.Less(s[2], s[3])
      && Strings.Less(s[3], s[4]) && Strings.Less(s[4], s[5]);
    forall i | 0 <= i < |s| - 1
      ensures Strings.Less(s[i], s[i + 1])
    {
    }
    Sorting.AdjacentSorted(Strings.Less, s);
  }

  /** The encoder orders EmoDBSpain's labels as written out above. */
  lemma EmoDBSpainClassOrder()
    ensures Classes(Keys(EmoDBSpain)) == EmoDBSpainClasses
  {
    Sorting.StringLessIsStrictTotal();
    assert Keys(EmoDBSpain) == ["Neutro", "Alegria", "Tristeza", "Ira", "Miedo", "Asco", "Sorpresa"];
    EmoDBSpainClassesSorted();
    Sorting.StrictlySortedUnique(Strings.Less, Classes(Keys(EmoDBSpain)), EmoDBSpainClasses);
  }

  lemma EmoDBSpainClassesSorted()
    ensures Sorting.StrictlySorted(Strings.Less, EmoDBSpainClasses)
  {
    Sorting.StringLessIsStrictTotal();
    var s := EmoDBSpainClasses;
    assert Strings.Less(s[0], s[1]) && Strings.Less(s[1], s[2]) && Strings.Less(s[2], s[3])
      && Strings.Less(s[3], s[4]) && Strings.Less(s[4], s[5]) && Strings.Less(s[5], s[6]);
    forall i | 0 <= i < |s| - 1
      ensures Strings.Less(s[i], s[i + 1])
    {
    }
    Sorting.AdjacentSorted(Strings.Less, s);
  }

  /** The encoder orders MEACorpus's labels as written out above. */
  lemma MEACorpusClassOrder()
    ensures Classes(Keys(MEACorpus)) == MEACorpusClasses
  {
    Sorting.StringLessIsStrictTotal();
    assert Keys(MEACorpus) == ["neutral", "joy", "sadness", "anger", "fear", "disgust"];
    MEACorpusClassesSorted();
    Sorting.StrictlySortedUnique(Strings.Less, Classes(Keys(MEACorpus)), MEACorpusClasses);
  }

  lemma MEACorpusClassesSorted()
    ensures Sorting.StrictlySorted(Strings.Less, MEACorpusClasses)
  {
    Sorting.StringLessIsStrictTotal();
    var s := MEACorpusClasses;
    assert Strings.Less(s[0], s[1]) && Strings.Less(s[1], s[2]) && Strings.Less(s[2], s[3])
      && Strings.Less(s[3], s[4]) && Strings.Less(s[4], s[5]);
    forall i | 0 <= i < |s| - 1
      ensures Strings.Less(s[i], s[i + 1])
    {
    }
    Sorting.AdjacentSorted(Strings.Less, s);
  }

  /** The two decoders disagree: output 0 of a MIXED model is "neutral" by declaration order
      and "fear" by the encoder's order. */
  lemma ReformatAndDecodeDisagree()
    ensures ReformatLabel(0, "MIXED") == Ok("neutral")
    ensures DecodeLabel(0, "MIXED") == Ok("fear")
  {
    MixedClassOrder();
  }

  /** Every label of every dataset unifies into one of the seven common emotion names. */
  lemma LabelsUnifyToCommonNames()
    ensures forall d, i | 0 <= d < |LabelsJson| && 0 <= i < |LabelsJson[d].1| ::
      UnifyLabel(LabelsJson[d].1[i].0) in UnifiedEmotions
  {
  }

  /** Within a dataset, distinct labels unify to distinct names: each dataset has at most
      one label per common emotion. */
  lemma UnificationIsInjective()
    ensures forall d, i, j | 0 <= d < |LabelsJson| && 0 <= i < j < |LabelsJson[d].1| ::
      UnifyLabel(LabelsJson[d].1[i].0) != UnifyLabel(LabelsJson[d].1[j].0)
  {
  }

  /** Only EmoDBSpain has a label that unifies to "surprise". */
  lemma OnlyEmoDBSpainHasSurprise()
    ensures forall d, i | 0 <= d < |LabelsJson| && 0 <= i < |LabelsJson[d].1| ::
      UnifyLabel(LabelsJson[d].1[i].0) == "surprise" ==> LabelsJson[d].0 == "EmoDBSpain"
    ensures UnifyLabel("Sorpresa") == "surprise"
  {
  }

  /** The classifier has no weight for "surprise": the label adds nothing to any condition's
      score. */
  lemma SurpriseIsNotWeighted()
    ensures "surprise" !in AP.KnownEmotions
    ensures forall c: AP.Condition :: c in AP.ProcessorTables.weights && "surprise" !in AP.ProcessorTables.weights[c]
  {
    AP.ProcessorTablesShape();
  }
}
