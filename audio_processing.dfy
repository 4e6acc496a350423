/** The request-side helpers of app/module_inference/audio_processer.py: the `.wav` check and
    the saved path of an upload, the listing of the model files, and `get_emotions_audio`,
    which runs one audio file through the folder predictor's `interfere_emotion`. */
module AudioProcessing {
  import opened Common
  import opened Strings
  import opened FolderInference

  /** `convert_audio_to_wav(audio)` for an upload named `fileName`, where `saved` is what
      saving it returns: `ValueError` unless the name ends in ".wav" in any case, then
      `RuntimeError` when saving gives no path, and otherwise the saved path. */
  function ConvertAudioToWav(fileName: string, saved: Option<string>): (r: Result<string>)
    ensures r.Ok? <==> EndsWith(LowerString(fileName), ".wav") && Truthy(saved)
    ensures r.Ok? ==> r.value == saved.value
    ensures !EndsWith(LowerString(fileName), ".wav") ==> r.Err? && r.error.ValueError?
    ensures EndsWith(LowerString(fileName), ".wav") && !Truthy(saved) ==> r.Err? && r.error.RuntimeError?
  {
    if !EndsWith(LowerString(fileName), ".wav") then Err(ValueError("Debe ser tipo .wav"))
    else if !Truthy(saved) then Err(RuntimeError("Error converting the audio " + fileName))
    else Ok(saved.value)
  }

  /** The upload of the tests is accepted and answered with the path saving gave. */
  lemma UploadAccepted()
    ensures ConvertAudioToWav("audio.wav", Some("resources/audios/audio.wav")) == Ok("resources/audios/audio.wav")
  {
    assert LowerString("audio.wav") == "audio.wav";
  }

  /** Upper-case extensions are accepted too. */
  lemma UpperCaseExtensionAccepted(stem: string, saved: string)
    requires saved != ""
    ensures ConvertAudioToWav(stem + ".WAV", Some(saved)) == Ok(saved)
  {
    var l := LowerString(stem + ".WAV");
    assert l[|l| - 4..] == ".wav";
  }

  /** Index of the last `c` in `s`, if any. */
  function LastIndexOf(s: string, c: char): (r: Option<nat>)
    ensures r.None? <==> c !in s
    ensures r.Some? ==> r.value < |s| && s[r.value] == c && c !in s[r.value + 1..]
  {
    if s == [] then None
    else if s[|s| - 1] == c then Some(|s| - 1)
    else
      var r := LastIndexOf(s[..|s| - 1], c);
      assert s == s[..|s| - 1] + [s[|s| - 1]];
      r
  }

  /** `os.path.splitext(path)[0]`: the path without the text from its last '.', unless that
      '.' lies in the directory part or only dots precede it in the file's name. */
  function Stem(path: string): (stem: string)
    ensures stem == path || (|stem| < |path| && stem == path[..|stem|] && path[|stem|] == '.')
  {
    match LastIndexOf(path, '.')
    case None => path
    case Some(dot) =>
      var start := match LastIndexOf(path, '/') case None => 0 case Some(slash) => slash + 1;
      if exists j | start <= j < dot :: path[j] != '.' then path[..dot] else path
  }

  /** A name `<stem>.pkl` whose stem holds no '/' and is not all dots loses exactly ".pkl". */
  lemma StemOfModelFile(stem: string)
    requires '/' !in stem && exists j | 0 <= j < |stem| :: stem[j] != '.'
    ensures Stem(stem + ".pkl") == stem
  {
    var path := stem + ".pkl";
    assert path[|stem|] == '.' && path[|stem| + 1..] == "pkl";
    var dot := LastIndexOf(path, '.').value;
    assert dot == |stem|;
    assert path[..|stem|] == stem;
    assert '/' !in path;
    var j :| 0 <= j < |stem| && stem[j] != '.';
    assert path[j] != '.';
  }

  /** `s.replace(a, b)` for single characters. */
  function ReplaceChar(s: string, a: char, b: char): (r: string)
    ensures |r| == |s| && forall i | 0 <= i < |s| :: r[i] == if s[i] == a then b else s[i]
  {
    seq(|s|, i requires 0 <= i < |s| => if s[i] == a then b else s[i])
  }

  /** The label shown for a model file: its stem with '_' read as ' ', title-cased. */
  function ModelLabel(fileName: string): (shown: string)
    ensures var stem := Stem(fileName);
      && |shown| == |stem|
      && forall i | 0 <= i < |stem| ::
        && (stem[i] == '_' ==> shown[i] == ' ')
        && (stem[i] != '_' && (i == 0 || stem[i - 1] == '_' || !IsCased(stem[i - 1])) ==> shown[i] == Upper(stem[i]))
        && (stem[i] != '_' && i > 0 && stem[i - 1] != '_' && IsCased(stem[i - 1]) ==> shown[i] == Lower(stem[i]))
  {
    var stem := Stem(fileName);
    var spaced := ReplaceChar(stem, '_', ' ');
    var shown := Title(spaced);
    assert !IsCased(' ') && Upper(' ') == ' ';
    forall i | 0 <= i < |stem|
      ensures stem[i] == '_' ==> shown[i] == ' '
      ensures stem[i] != '_' && (i == 0 || stem[i - 1] == '_' || !IsCased(stem[i - 1])) ==> shown[i] == Upper(stem[i])
      ensures stem[i] != '_' && i > 0 && stem[i - 1] != '_' && IsCased(stem[i - 1]) ==> shown[i] == Lower(stem[i])
    {
      assert shown[i] == if i > 0 && IsCased(spaced[i - 1]) then Lower(spaced[i]) else Upper(spaced[i]);
      if i > 0 {
        assert spaced[i - 1] == if stem[i - 1] == '_' then ' ' else stem[i - 1];
      }
    }
    shown
  }

  /** One entry of the model list. */
  datatype ModelEntry = ModelEntry(caption: string, value: string)

  /** `get_all_model_files()` over the listing of the models directory (`None` when it does
      not exist): one entry per name ending in ".pkl", exactly, in listing order. */
  function ModelEntries(listing: Option<seq<string>>): (entries: seq<ModelEntry>)
    ensures listing.None? ==> entries == []
    ensures listing.Some? ==> forall e :: e in entries <==> e.value in listing.value && EndsWith(e.value, ".pkl") && e.caption == ModelLabel(e.value)
    ensures listing.Some? ==>
      var f := PklPositions(listing.value);
      |entries| == |f| && forall k | 0 <= k < |f| :: entries[k] == ModelEntry(ModelLabel(listing.value[f[k]]), listing.value[f[k]])
  {
    if listing.None? then [] else PklEntries(listing.value)
  }

  /** The positions of the names ending in ".pkl": ascending, and each such position exactly
      once. */
  function PklPositions(names: seq<string>): (f: seq<nat>)
    ensures forall k | 0 <= k < |f| :: f[k] < |names| && EndsWith(names[f[k]], ".pkl")
    ensures forall j, k | 0 <= j < k < |f| :: f[j] < f[k]
    ensures forall i | 0 <= i < |names| && EndsWith(names[i], ".pkl") :: i in f
  {
    Positions(names, IsPkl)
  }

  /** A name the listing keeps: one ending in ".pkl". */
  predicate IsPkl(name: string) {
    EndsWith(name, ".pkl")
  }

  /** The list comprehension: one entry for each ".pkl" name, in listing order, whose value is
      the name and whose caption is its label. */
  function PklEntries(names: seq<string>): (entries: seq<ModelEntry>)
    ensures forall e :: e in entries <==> e.value in names && EndsWith(e.value, ".pkl") && e.caption == ModelLabel(e.value)
    ensures var f := PklPositions(names);
      |entries| == |f| && forall k | 0 <= k < |f| :: entries[k] == ModelEntry(ModelLabel(names[f[k]]), names[f[k]])
  {
    if names == [] then []
    else
      var n := |names| - 1;
      var init := PklEntries(names[..n]);
      var name := names[n];
      assert forall x :: x in names <==> x in names[..n] || x == name by {
        assert names == names[..n] + [name];
      }
      InOrderStep(names, IsPkl, (name: string) => ModelEntry(ModelLabel(name), name), init);
      if EndsWith(name, ".pkl") then init + [ModelEntry(ModelLabel(name), name)] else init
  }

  /** The folder of the result file of `get_emotions_audio`. */
  const CsvFolder: string := "./data/output-predict-emotions/"

  /** `os.path.join(csv_folder, 'volcado-output.csv')`: the folder already ends in '/'. */
  lemma DumpFilePath()
    ensures PathJoin(CsvFolder, "volcado-output.csv") == "./data/output-predict-emotions/volcado-output.csv"
  {
  }

  /** `get_emotions_audio(model_folder, model_name, wav_path)` with the loaded model and its
      type as inputs and `dump` the shared result file: the dataset from the model name, the
      loader by the model type (a failure there leaves the file alone), and then
      `interfere_emotion` with no original emotion and no worker id. */
  method GetEmotionsAudio(modelName: string, model: Predictor, modelType: string, mfcc: Option<seq<int>>,
                          wavPath: string, dims: (real, real, real), dump: ResultsCsv)
    returns (r: Result<Json>)
    modifies dump
    ensures LoaderFor(modelType, model, mfcc).Err? ==>
      r == Err(LoaderFor(modelType, model, mfcc).error) && dump.file == old(dump.file)
    ensures LoaderFor(modelType, model, mfcc).Ok? ==>
      var outcome := Interfere(DatasetName(modelName), wavPath, model, modelType, dims, None, None);
      && r == Answer(outcome)
      && dump.file == Some(old(dump.file).GetOr([TextCells(Header(None))]) + if outcome.Ok? then [outcome.value.row] else [])
  {
    var datasetName := DatasetName(modelName);
    var loader := LoaderFor(modelType, model, mfcc);
    if loader.Err? {
      return Err(loader.error);
    }
    r := dump.InterfereEmotion(datasetName, wavPath, model, modelType, dims, None, None);
  }
}
