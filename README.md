# Emotion-analysis backend: a verified model of its deterministic core

The backend turns workers' voice recordings into emotion measurements and then analyses them.
This project models the plain-logic half of it in Dafny and proves what that logic promises:

- **Condition classifier** (`AnalysisProcessor`, `PersistenceAnalysis`). `determine_condition` scores one
  subject's rows against a weight table and a dimension table, normalises both scores and picks the best
  condition, ties going to the first of `no_disorder`, `depression`, `anxiety`. Bulk mode groups a file's rows
  by `user_id`. The batch script's copy of the classifier is the same algorithm on tables proved equal to the
  processor's. The random weights `np.random.uniform` draws are an input: a function from (row, condition,
  slot) to a real that must lie in the label's range.
- **Analysis endpoint** (`AnalysisController`): user ids grouped by `Predicted_Condition`.
- **Record store** (`RecordStore`): the class `RecordDataCSV` with its three fields — the records, the
  user index and the timestamp index — built by a loading loop, and its queries: user ids; the user and date
  filter; the date-and-shift filter with the "noche" rule; "HH:MM" parsing; the emotion vocabulary.
- **Chart queries** (`GraphicProcessing`): the `GraphicProcessor` delegation, the time options and their
  ranges, the shift options, and `date_range` with `YYYY-MM-DD` parsing on the proleptic Gregorian calendar.
- **Worker register** (`WorkerPersistence`): the class `WorkersDataCSV` over the file as a sequence of
  `;`-separated lines read the way `csv.DictReader` reads them. It covers reading, the workers without a
  role, lookup, append, and the update-then-rewrite loop, with read-back lemmas for the rewrite.
- **Label tables and decoders** (`LabelTables`, `LabelUtils`): `labels_json`, `unified_labels`,
  `unify_label`, `reformat_label` (position in declaration order) and `decode_label` (position in
  `LabelEncoder`'s sorted order).
- **Transcript normalisation** (`ForceAlignment`): numbers spelt out through an uninterpreted `words`
  function standing for `num2words(·, lang='es')`, accents removed through an uninterpreted `ascii`
  function standing for `unidecode`, then lower-casing, character filtering and space collapsing.
- **Inference bookkeeping** (`FolderInference`, `EmotionProcessing`, `AudioProcessing`):
  - the ensemble hard vote;
  - the top-three ranking;
  - the result file's header and row layout, with `ResultsCsv` as the file that `interfere_emotion` appends to;
  - the fields read from file names and model names;
  - the loader choice;
  - the `.wav` check;
  - the model list.

Shared pieces: `Common` holds `Option`, `Result` and the Python exceptions the core raises, plus Python
truthiness of an optional string. `Strings` models the Python string methods the core calls (split, join,
strip, replace, lower, title, int parsing, string order). `Sorting` models `sorted(set(...))` by insertion
into a strictly sorted sequence.

Time is integer seconds. A naive local `datetime` is the UTC timestamp plus a fixed offset (`utcOffset`), and
the time of day is that local value modulo 86400. `datetime.now()` is the parameter `now`. The shift
configuration (`SHIFTS`) is a parameter. Model predictions, probabilities and the dimensional model's output
are inputs.

Behaviour of the code that the model keeps, where a reader might expect otherwise:

- The "noche" shift is recognised by its name, not by its start being later than its end. Its window runs
  from the start up to, but not including, 23:59:59, and from midnight up to the end; a record at exactly
  23:59:59 local time is never returned.
- Every other shift is the half-open window `start <= t < end`, so a configured shift that wraps midnight
  under another name matches nothing.
- A store whose file cannot be read is not created empty: `load_records` returns `[]`, which cannot be
  unpacked into three fields, so construction raises `ValueError`.
- `get_emotions` raises `AttributeError` when a record has an empty emotion cell (pandas reads it as NaN,
  which has no `strip`). A missing emotion column contributes `""`.
- `insert_worker` writes the columns `id`, `workstation`, `date_contratation`, `rol` and `register_date`,
  while the rows it reads back name the hiring date `hiring_date`. `csv.DictWriter` refuses a dictionary
  with a `hiring_date` key with `ValueError` (`HiringDateIsRefused`). The `Worker` of
  app/module_graphic/worker.py produces the writer's own keys through `to_dict`. The `Worker` of
  app/module_workers/worker.py has no `to_dict`, so handing it to `insert_worker` raises `AttributeError`
  before anything is written.

## Model

| member | source | states |
|---|---|---|
| AnalysisProcessor.Index | app/module_analysis/analysis_processor.py:49-50 | each condition has a position in the key order no_disorder, depression, anxiety |
| AnalysisProcessor.ProcessorTablesShape | app/module_analysis/analysis_processor.py:15-29 | the shipped tables are well formed: all three conditions weight exactly the six known emotions, and every emotion has all three dimension ranges |
| AnalysisProcessor.Scores.Set | app/module_analysis/analysis_processor.py:60 | assigning one condition's score changes that score and no other |
| AnalysisProcessor.RawEmotionScores | app/module_analysis/analysis_processor.py:54-60 | the categorical score of each condition is the sum of the draws over every recognised label of every row |
| AnalysisProcessor.RawDimensionScores | app/module_analysis/analysis_processor.py:66-74 | the dimensional score of each condition counts the in-range dimensions of the labels that condition weights |
| AnalysisProcessor.ArgMax | app/module_analysis/analysis_processor.py:92 | the chosen condition has a maximal score and every earlier key scores strictly less (ties go to the first key) |
| AnalysisProcessor.AddEmotionWeights | app/module_analysis/analysis_processor.py:55-60 | the categorical loop for one row adds each recognised slot's draw to each condition and changes nothing else |
| AnalysisProcessor.CreditConditions | app/module_analysis/analysis_processor.py:72-74 | one dimension hit adds 1 to exactly the conditions whose table lists the emotion |
| AnalysisProcessor.AddDimensionHits | app/module_analysis/analysis_processor.py:66-74 | the dimensional loop for one row adds that row's hits to every condition |
| AnalysisProcessor.DetermineCondition | app/module_analysis/analysis_processor.py:36-92 | the nested accumulator loops, normalisation and max return the classification of the rows under the given draws |
| AnalysisProcessor.SlotWeightsWithin | app/module_analysis/analysis_processor.py:56-60 | a row's added weight lies between the sums of the low and the high bounds of its recognised slots |
| AnalysisProcessor.EmotionScoreWithin | app/module_analysis/analysis_processor.py:15-19 | each raw categorical score lies between the sums of lows and highs over the recognised labels seen |
| AnalysisProcessor.SlotHitsAgree | app/module_analysis/analysis_processor.py:72-74 | two conditions listing the same emotions get the same hits from a row |
| AnalysisProcessor.DimensionScoresAgree | app/module_analysis/analysis_processor.py:72-74 | two conditions listing the same emotions get the same dimensional score from any rows |
| AnalysisProcessor.ProcessorDimensionScoresEqual | app/module_analysis/analysis_processor.py:15-19 | with the shipped tables, every condition's dimensional score is equal |
| AnalysisProcessor.DimensionHitsCount | app/module_analysis/analysis_processor.py:71 | a dimension counts exactly when low <= value <= high, bounds included |
| AnalysisProcessor.NormalizeShares | app/module_analysis/analysis_processor.py:77-84 | with a positive total the normalised scores lie in [0, 1] and sum to 1; with a zero total they stay 0 |
| AnalysisProcessor.Share | app/module_analysis/analysis_processor.py:82 | one share of a positive total lies in [0, 1] |
| AnalysisProcessor.NormalizeKeepsOrder | app/module_analysis/analysis_processor.py:81-84 | normalisation keeps the strict order and the equality of any two conditions' scores |
| AnalysisProcessor.HighestEmotionScoreWins | app/module_analysis/analysis_processor.py:87-92 | when the dimensional scores are equal, the strictly highest categorical score is the result |
| AnalysisProcessor.UnrecognisedSlots | app/module_analysis/analysis_processor.py:57 | slots whose labels a condition does not list add no weight and no hits to it |
| AnalysisProcessor.UnrecognisedRowsScoreZero | app/module_analysis/analysis_processor.py:57-74 | labels absent from a condition's table leave both its scores at 0 |
| AnalysisProcessor.NothingRecognisedIsNoDisorder | app/module_analysis/analysis_processor.py:81-92 | rows without any recognised label are classified no_disorder |
| AnalysisProcessor.EmptyIsNoDisorder | app/module_analysis/test_analysis.py:34-37 | no rows at all are classified no_disorder (the test only asks for one of the three) |
| AnalysisProcessor.OneRowBounds | app/module_analysis/analysis_processor.py:15-19 | the categorical bounds of a one-row subject are the sums of its three slots' bounds |
| AnalysisProcessor.HappySubjectHasNoDisorder | app/module_analysis/test_analysis.py:9-19 | happiness, neutral, happiness is no_disorder for every admissible draw |
| AnalysisProcessor.SadSubjectHasDepression | app/module_analysis/test_analysis.py:10-25 | sadness, disgust, sadness is depression for every admissible draw |
| AnalysisProcessor.FearfulSubjectHasAnxiety | app/module_analysis/test_analysis.py:11-31 | fear, sadness, fear is anxiety for every admissible draw |
| AnalysisProcessor.Wins | app/module_analysis/analysis_processor.py:87-92 | a one-row subject whose lowest bound for one condition beats every other's highest bound is classified as that condition |
| AnalysisProcessor.Classification | app/module_analysis/analysis_processor.py:36-92 | the condition `determine_condition` returns for the rows under the draws: ArgMax of the final scores (no contract of its own; DetermineCondition, HighestEmotionScoreWins and the subject lemmas state it) |
| AnalysisProcessor.UserIds | app/module_analysis/analysis_processor.py:112 | the user id column, row by row |
| AnalysisProcessor.GroupOf | app/module_analysis/analysis_processor.py:112 | a user's group is no longer than the file |
| AnalysisProcessor.GroupOfInFileOrder | app/module_analysis/analysis_processor.py:112 | the k-th row of a user's group is the k-th row of the file with that user id: one per such row, in file order |
| AnalysisProcessor.GroupOfMembers | app/module_analysis/analysis_processor.py:112 | a group holds exactly the rows with its user id |
| AnalysisProcessor.GroupKeys | app/module_analysis/analysis_processor.py:112-113 | the group keys are the distinct user ids, strictly ascending |
| AnalysisProcessor.ClassifyKeys | app/module_analysis/analysis_processor.py:113-114 | one output line per key, holding that user's classification |
| AnalysisProcessor.ClassifyGroups | app/module_analysis/analysis_processor.py:112-114 | one line per distinct user id, ascending, each with the condition of that user's rows |
| AnalysisProcessor.UsersHaveGroups | app/module_analysis/analysis_processor.py:112 | every user of the file has a non-empty group |
| AnalysisProcessor.UserCondition | app/module_analysis/analysis_processor.py:113 | the condition name of one user's group (no contract of its own; ClassifyKeys and ClassifyGroups state it) |
| AnalysisProcessor.ClassifyUsersByCondition | app/module_analysis/analysis_processor.py:95-119 | a missing file gives no output; otherwise the lines of ClassifyGroups go to the path with ".csv" replaced by "_classified.csv" |
| AnalysisProcessor.OutputBesideInput | app/module_analysis/analysis_processor.py:118 | name.csv is written to name_classified.csv |
| PersistenceAnalysis.SameTablesAsProcessor | app/persistance/analysis.py:19-32 | the script's tables equal the processor's, entry for entry |
| PersistenceAnalysis.DetermineCondition | app/persistance/analysis.py:35-87 | the script's loops return the processor's classification for the same rows and draws |
| PersistenceAnalysis.ClassifyConditionsByUser | app/persistance/analysis.py:90-103 | a missing file raises FileNotFoundError; otherwise one line per user goes to the path with ".csv" replaced by "_classified_by_user.csv" |
| PersistenceAnalysis.SameLinesAsProcessor | app/persistance/analysis.py:97-99 | on the same file, the script and the processor write the same lines |
| PersistenceAnalysis.OutputBesideInput | app/persistance/analysis.py:102 | name.csv is written to name_classified_by_user.csv |
| PersistenceAnalysis.DefaultOutput | app/persistance/analysis.py:106 | the import-time call writes beside its fixed input file |
| AnalysisController.Matching | app/module_analysis/analysis_controller.py:35-37 | the positions of the lines with the condition: ascending, each such line exactly once |
| AnalysisController.IdsWith | app/module_analysis/analysis_controller.py:35-37 | the k-th id is the user id of the k-th line with the condition: one per such line, duplicates kept, in file order |
| AnalysisController.GroupedConditions | app/module_analysis/analysis_controller.py:34-38 | exactly the keys no_disorder, depression and anxiety, each holding the IdsWith list of its condition |
| AnalysisController.ListsPartitionRecognisedLines | app/module_analysis/analysis_controller.py:34-38 | the three lists together hold one id per line with a known condition; other lines appear in none |
| AnalysisController.RecognisedLinesAreAllListed | app/module_analysis/analysis_controller.py:34-38 | when every line has a known condition, the lists hold every line |
| AnalysisController.AllRecognisedCount | app/module_analysis/analysis_controller.py:34-38 | when every line has a known condition, all lines are counted |
| RecordStore.ToRecord | app/persistance/persistance.py:29-30 | a row whose user id and timestamp convert, as the record the queries use (no contract of its own; LoadRecords states it) |
| RecordStore.RecordsOf | app/persistance/persistance.py:33-35 | an absent user has no records |
| RecordStore.TimedRecordsOf | app/persistance/persistance.py:37-40 | an absent user has no timed entries |
| RecordStore.RecordsOfInFileOrder | app/persistance/persistance.py:29-35 | the k-th entry of index[u] is the k-th record of the file with user id u: one per such record, in file order |
| RecordStore.TimedRecordsOfInFileOrder | app/persistance/persistance.py:29-40 | the k-th entry of index_timestmap[u] pairs the k-th record of user u with a non-zero timestamp with that timestamp, in file order |
| RecordStore.RecordsOfMembers | app/persistance/persistance.py:29-35 | index[u] holds exactly the records with user id u |
| RecordStore.TimedRecordsOfMembers | app/persistance/persistance.py:31-40 | index_timestmap[u] pairs exactly the records of u with a non-zero timestamp with that timestamp |
| RecordStore.IndexesGrow | app/persistance/persistance.py:33-40 | one more record extends its own user's entries and no other user's |
| RecordStore.IndexRecord | app/persistance/persistance.py:30-40 | one pass of the loading loop keeps the indexes describing the records read so far |
| RecordStore.LoadRecords | app/persistance/persistance.py:19-49 | loads every record in file order with consistent indexes; a failed read or an unconvertible row gives the failure value |
| RecordStore.ParseTime | app/persistance/persistance.py:107-110 | a successful parse is a whole minute of the day; anything else raises ValueError |
| RecordStore.ParseTimeReadsHoursAndMinutes | app/persistance/persistance.py:109-110 | "HH:MM" is read as its hours and minutes |
| RecordStore.ParseTimeOfParts | app/persistance/persistance.py:109-110 | a string splitting at ':' into two integers in range gives that time |
| RecordStore.InDateAndShift | app/persistance/persistance.py:90-105 | the k-th record selected is the k-th record of the file located by the range and the shift window: one per such record, in file order |
| RecordStore.InDateRange | app/persistance/persistance.py:63-69 | the k-th record kept is that of the k-th entry whose local time lies in [start, end]: one per such entry, in index order |
| RecordStore.InDateAndShiftMembers | app/persistance/persistance.py:90-103 | a record is selected exactly when it is in the file, its local time lies in [start, end] and its time of day is in the shift window |
| RecordStore.InDateRangeMembers | app/persistance/persistance.py:63-69 | an entry's record is kept exactly when its local time lies in [start, end] |
| RecordStore.UserDateMembers | app/persistance/persistance.py:60-72 | over consistent indexes, the user filter returns exactly that user's timed records in the range; an unknown user gives [] |
| RecordStore.RecordDataCSV.FromLoaded | app/persistance/persistance.py:15-17 | the store holds the loaded records and both indexes |
| RecordStore.RecordDataCSV.Open | app/persistance/persistance.py:15-49 | construction succeeds exactly when the file is read, holding every record in file order; otherwise ValueError |
| RecordStore.RecordDataCSV.GetUserIds | app/persistance/persistance.py:51-52 | the user ids present, strictly ascending |
| RecordStore.RecordDataCSV.FilterRecordsByUserDate | app/persistance/persistance.py:56-72 | the loop keeps the user's timed entries in the range, in index order; an unknown user gives [] |
| RecordStore.RecordDataCSV.FilterByDateAndShift | app/persistance/persistance.py:75-105 | the swap, the shift check and the loop give the store's date-and-shift answer |
| RecordStore.RecordDataCSV.FilterShiftWindow | app/persistance/persistance.py:88-103 | the loop over the records equals InDateAndShift of the file |
| RecordStore.RecordDataCSV.ShiftQuery | app/persistance/persistance.py:75-105 | the date-and-shift answer: ValueError for an unknown shift, the time error, or InDateAndShift over the swapped range (no contract of its own; ShiftQueryMembers and FilterByDateAndShift state it) |
| RecordStore.RecordDataCSV.ShiftQueryMembers | app/persistance/persistance.py:77-103 | the query raises exactly for an unknown shift or an unreadable time; otherwise it returns exactly the file's records in the swapped range and the shift window |
| RecordStore.RecordDataCSV.NightShiftSkipsLastSecond | app/persistance/persistance.py:98-100 | a record at 23:59:59 local time is never returned for "noche" |
| RecordStore.RecordDataCSV.GetEmotions | app/persistance/persistance.py:112-120 | the distinct stripped labels, sorted; AttributeError exactly when some emotion cell is empty |
| RecordStore.AddLabels | app/persistance/persistance.py:116-118 | one record's three stripped labels join the sorted vocabulary; an empty cell raises |
| RecordStore.VocabularyStep | app/persistance/persistance.py:115-118 | one more record adds its labels to the vocabulary and its empty cells to the failures |
| GraphicProcessing.GraphicProcessor.constructor | app/module_graphic/graphic_processor.py:14-18 | the processor holds the store's records and index |
| GraphicProcessing.GraphicProcessor.GetAllRecords | app/module_graphic/graphic_processor.py:20-25 | every record of the store, in file order |
| GraphicProcessing.GraphicProcessor.GetIds | app/module_graphic/graphic_processor.py:27-32 | the store's user ids, strictly ascending |
| GraphicProcessing.GraphicProcessor.FindRecordsById | app/module_graphic/graphic_processor.py:34-38 | the user's records from the index, or [] for an unknown user |
| GraphicProcessing.GraphicProcessor.FilteredByIdTime | app/module_graphic/graphic_processor.py:41-45 | the store's user and date filter, forwarded unchanged |
| GraphicProcessing.GraphicProcessor.FilteredByShiftTime | app/module_graphic/graphic_processor.py:47-51 | the store's date-and-shift query with the arguments reordered to (start, finish, shift) |
| GraphicProcessing.GraphicProcessor.GetAllEmotions | app/module_graphic/graphic_processor.py:53-57 | the store's emotion vocabulary, strictly sorted, or its AttributeError |
| GraphicProcessing.GetTimeRange | app/module_graphic/graphic_processor.py:79-98 | five options resolve to a whole number of days before now, ending at now; any other raises ValueError |
| GraphicProcessing.TimeRangeDays | app/module_graphic/graphic_processor.py:85-94 | 15d, 1m, 3m, 6m and 1y go back 15, 30, 90, 180 and 365 days |
| GraphicProcessing.OfferedOptionsResolve | app/module_graphic/graphic_processor.py:65-71 | every offered option resolves; "6m" resolves but is not offered |
| GraphicProcessing.ShiftTable | app/module_graphic/graphic_processor.py:107 | the configured shift names are the keys the store looks up |
| GraphicProcessing.GetShifts | app/module_graphic/graphic_processor.py:105-119 | one option per configured shift, in order, with the shift name as value and "Name (start - end)" as caption |
| GraphicProcessing.ShiftTableLookup | app/module_graphic/graphic_processor.py:107-112 | a configured shift's entry is its own pair of times |
| GraphicProcessing.OfferedShiftsAreKnown | app/module_graphic/graphic_processor.py:110-113 | every offered shift is a known key, so a query with it fails only on an unreadable time |
| GraphicProcessing.OrdinalCountsDays | app/module_graphic/graphic_processor.py:134-135 | consecutive calendar days have consecutive ordinals |
| GraphicProcessing.EpochOrdinalIsNewYear1970 | app/module_graphic/graphic_processor.py:134-135 | the day count starts at 1970-01-01 |
| GraphicProcessing.ParseDate | app/module_graphic/graphic_processor.py:134-135 | a parsed date is midnight of a valid calendar date; anything else raises ValueError |
| GraphicProcessing.DayValue | app/module_graphic/graphic_processor.py:134-135 | a `%d` field is two digits, one digit, or a space and a digit from 1 to 9, naming that day |
| GraphicProcessing.ParseDateReadsDate | app/module_graphic/graphic_processor.py:134-135 | YYYY-MM-DD of a valid date is read as midnight of that date |
| GraphicProcessing.ParseDateOfParts | app/module_graphic/graphic_processor.py:134-135 | a text splitting at '-' into valid year, month and day fields parses to that date |
| GraphicProcessing.ParseDateSpacePaddedDay | app/module_graphic/graphic_processor.py:134-135 | a day written as a space and one digit ("2024-12- 5") is read as that day |
| GraphicProcessing.DateRange | app/module_graphic/graphic_processor.py:121-137 | with a time option, the range is get_time_range's start and now, or its ValueError; without it and without both dates, (None, None) |
| GraphicProcessing.MonthOptionReachesThirtyDaysBack | app/module_graphic/test_graphic.py:77-80 | "1m" gives the range from 30 days before now up to now |
| GraphicProcessing.TimeOptionWins | app/module_graphic/graphic_processor.py:128-132 | a given time option decides the result whatever the explicit dates are |
| GraphicProcessing.ExplicitDatesAreMidnights | app/module_graphic/graphic_processor.py:133-135 | two explicit dates with no option give midnight of each |
| WorkerPersistence.CellsOf | app/persistance/worker_persistance.py:14 | the named keys of a dictionary are exactly the header's columns |
| WorkerPersistence.RowOf | app/persistance/worker_persistance.py:14 | the header's columns as keys, and under None the cells past the last column, present exactly when the line is longer than the header |
| WorkerPersistence.DictRows | app/persistance/worker_persistance.py:14-16 | at most one dictionary per line, each the dictionary of some non-blank line |
| WorkerPersistence.DictRowsInFileOrder | app/persistance/worker_persistance.py:14-16 | the k-th dictionary is that of the k-th non-blank line: every non-blank line yields one, in file order |
| WorkerPersistence.RowsHaveHeaderColumns | app/persistance/worker_persistance.py:14-16 | every row read has the header's columns as named keys, and cells under None only from a line longer than the header |
| WorkerPersistence.LongLineIsRefused | app/persistance/worker_persistance.py:80-82 | a row read from a line longer than the header is refused by the writer |
| WorkerPersistence.LineOf | app/persistance/worker_persistance.py:57-58 | one cell per column, the row's value or empty |
| WorkerPersistence.WorkerOf | app/persistance/worker_persistance.py:18-24 | a worker needs all five columns (KeyError otherwise); an empty role or register date becomes None |
| WorkerPersistence.NoRoleIds | app/persistance/worker_persistance.py:38-40 | at most one id per row; a listed row without an id raises KeyError |
| WorkerPersistence.NoRoleIdsInFileOrder | app/persistance/worker_persistance.py:38-42 | answers exactly when every row without a role has an id column; the k-th id is that of the k-th row without a role, in file order |
| WorkerPersistence.NoRoleIdsStops | app/persistance/worker_persistance.py:38-40 | the loop stops at the first error |
| WorkerPersistence.NoRoleIdsMembers | app/persistance/worker_persistance.py:38-42 | the ids listed are exactly those of rows whose role is missing or blank after stripping |
| WorkerPersistence.Updated | app/persistance/worker_persistance.py:71-73 | a row with the id gets the new role and register date and keeps everything else; other rows are unchanged |
| WorkerPersistence.UpdatedRows | app/persistance/worker_persistance.py:70-75 | every row updated in place, order and count kept |
| WorkerPersistence.LinesOf | app/persistance/worker_persistance.py:82 | one written line per row, in order |
| WorkerPersistence.WorkersDataCSV.constructor | app/persistance/worker_persistance.py:7-8 | the register holds its path and file |
| WorkerPersistence.WorkersDataCSV.ReadWorkers | app/persistance/worker_persistance.py:11-29 | one worker per row in file order, the first KeyError otherwise, and [] for a missing file |
| WorkerPersistence.WorkersDataCSV.GetWorkersNoRole | app/persistance/worker_persistance.py:32-42 | the ids of the rows with no role; FileNotFoundError for a missing file |
| WorkerPersistence.WorkersDataCSV.FindWorkerById | app/persistance/worker_persistance.py:45-52 | the first row whose id equals the worker id, else None |
| WorkerPersistence.WorkersDataCSV.InsertWorker | app/persistance/worker_persistance.py:55-58 | a writable row is appended as one line at the end; ValueError for a key outside the columns |
| WorkerPersistence.WorkersDataCSV.UpdateWorker | app/persistance/worker_persistance.py:61-84 | false and no rewrite when no row matched; otherwise the file is truncated and rewritten up to the first row the writer refuses, true exactly when none is refused, else ValueError |
| WorkerPersistence.WorkersDataCSV.UpdateRows | app/persistance/worker_persistance.py:70-75 | the loop yields the updated rows and sets the flag exactly when some row has the id |
| WorkerPersistence.WorkersDataCSV.Rewrite | app/persistance/worker_persistance.py:79-82 | the file becomes the header and the rows' lines up to the first row the writer refuses |
| WorkerPersistence.FirstWithId | app/persistance/worker_persistance.py:48-52 | None exactly when no row has the id; otherwise a row with the id that no earlier row precedes |
| WorkerPersistence.FirstIndexWithId | app/persistance/worker_persistance.py:48-51 | the position of the first row with the id |
| WorkerPersistence.FirstUnwritable | app/persistance/worker_persistance.py:82 | the position of the first row the writer refuses |
| WorkerPersistence.FirstUnwritableIs | app/persistance/worker_persistance.py:82 | that position is unique |
| WorkerPersistence.UpdatedRowsWritable | app/persistance/worker_persistance.py:78-82 | an updated row is written exactly when it has no cells under None and, if it matched, the file has rol and register_date columns |
| WorkerPersistence.RowOfWrittenLine | app/persistance/worker_persistance.py:79-82 | a row written in the file's columns reads back with each value, a missing one as empty text |
| WorkerPersistence.AsWritten | app/persistance/worker_persistance.py:82 | a row as it reads back: same named keys, missing cells empty, nothing under None |
| WorkerPersistence.AsWrittenRows | app/persistance/worker_persistance.py:82 | the rows as they read back, one for one |
| WorkerPersistence.WrittenRowsReadBack | app/persistance/worker_persistance.py:79-82 | reading the rewritten lines gives back the updated rows |
| WorkerPersistence.WrittenRowReadsBack | app/persistance/worker_persistance.py:82 | one written row reads back as itself |
| WorkerPersistence.DictRowsLast | app/persistance/worker_persistance.py:14-16 | a last non-blank line adds one row at the end |
| WorkerPersistence.RewriteReadsBack | app/persistance/worker_persistance.py:79-82 | the whole rewritten file reads back as the updated rows |
| WorkerPersistence.FindAfterUpdate | app/persistance/worker_persistance.py:61-84 | after a successful update, a lookup of the same id finds a row with the new role and register date |
| WorkerPersistence.ReadBackMatches | app/persistance/worker_persistance.py:70-82 | among the rows read back, the first with the id carries the new values |
| WorkerPersistence.UpdatedReadsBack | app/persistance/worker_persistance.py:71-73 | a row has the id after update and rewrite exactly when it had it before |
| WorkerPersistence.InsertAppendsOneRow | app/persistance/worker_persistance.py:55-58 | inserting into an existing file adds exactly one row at the end and leaves earlier rows as they were |
| WorkerPersistence.HiringDateIsRefused | app/persistance/worker_persistance.py:57 | a dictionary with a hiring_date key is refused by the writer |
| LabelTables.Lookup | app/module_inference/models/labels_functions.py:5-31 | exactly the three dataset names have a table |
| LabelTables.Keys | app/module_inference/utils/utils.py:49-51 | a table's keys in declaration order |
| LabelTables.TablesHaveDistinctCodes | app/module_inference/models/labels_functions.py:6-30 | within each dataset the labels and their codes are distinct |
| LabelTables.UnifiedValuesAreNotKeys | app/module_inference/models/labels_functions.py:33-48 | no unified name is itself a key |
| LabelUtils.UnifyLabel | app/module_inference/utils/utils.py:63-67 | a known label's unified name, any other label unchanged |
| LabelUtils.UnifyIdempotent | app/module_inference/utils/utils.py:63-67 | unifying twice is unifying once |
| LabelUtils.PyIndex | app/module_inference/utils/utils.py:53 | Python indexing: negative indices count from the end, anything else out of range fails |
| LabelUtils.ReformatLabel | app/module_inference/utils/utils.py:48-54 | the unified declaration-order key at the position; KeyError for an unknown dataset, IndexError out of range |
| LabelUtils.Classes | app/module_inference/utils/utils.py:57-58 | the encoder's classes: the keys, distinct and sorted |
| LabelUtils.DecodeLabel | app/module_inference/utils/utils.py:56-60 | the unified sorted-order class at the position; KeyError for an unknown dataset, ValueError for an unseen position |
| LabelUtils.MixedClassOrder | app/module_inference/models/labels_functions.py:6-13 | MIXED's class order, written out |
| LabelUtils.EmoDBSpainClassOrder | app/module_inference/models/labels_functions.py:14-22 | EmoDBSpain's class order, written out |
| LabelUtils.MEACorpusClassOrder | app/module_inference/models/labels_functions.py:23-30 | MEACorpus's class order, written out |
| LabelUtils.ReformatAndDecodeDisagree | app/module_inference/utils/utils.py:48-60 | output 0 of MIXED is "neutral" by declaration order and "fear" by the encoder |
| LabelUtils.LabelsUnifyToCommonNames | app/module_inference/models/labels_functions.py:5-48 | every dataset label unifies into the seven common names |
| LabelUtils.UnificationIsInjective | app/module_inference/models/labels_functions.py:5-48 | within a dataset, distinct labels unify to distinct names |
| LabelUtils.OnlyEmoDBSpainHasSurprise | app/module_inference/models/labels_functions.py:21-47 | only EmoDBSpain has a label that unifies to "surprise" |
| LabelUtils.SurpriseIsNotWeighted | app/module_analysis/analysis_processor.py:15-19 | the classifier's tables do not weight "surprise" |
| ForceAlignment.TransformNumbers | app/module_inference/force_alignment_processor.py:72-92 | when the words of numbers hold no digit, the result holds none: every number is spelt out |
| ForceAlignment.DigitRun | app/module_inference/force_alignment_processor.py:74 | the length of the leading run of digits |
| ForceAlignment.PlainPrefix | app/module_inference/force_alignment_processor.py:92 | text before the first digit is copied through |
| ForceAlignment.NoDigitUnchanged | app/module_inference/force_alignment_processor.py:74-92 | text without a digit is unchanged |
| ForceAlignment.DigitRunOf | app/module_inference/force_alignment_processor.py:74 | the regex takes the whole run of digits |
| ForceAlignment.FractionWordsValue | app/module_inference/force_alignment_processor.py:80-86 | the fraction's words are those of the number its digits form, one digit or more |
| ForceAlignment.IntegerReads | app/module_inference/force_alignment_processor.py:89-90 | a run of digits with no fraction after it becomes the words of its value |
| ForceAlignment.DecimalReads | app/module_inference/force_alignment_processor.py:78-88 | a.b becomes words(a) + " coma " + words(b) |
| ForceAlignment.LeadingZerosDropped | app/module_inference/force_alignment_processor.py:80-83 | a zero right after the point is not spoken |
| ForceAlignment.KeepAllowed | app/module_inference/force_alignment_processor.py:65 | only characters of the class are kept, and text made of them is unchanged |
| ForceAlignment.ConsSingleSpaced | app/module_inference/force_alignment_processor.py:67 | prefixing a non-space, or a space before a non-space, keeps single spacing |
| ForceAlignment.CollapseSpaces | app/module_inference/force_alignment_processor.py:67 | runs of white space become one plain space |
| ForceAlignment.KeptCons | app/module_inference/force_alignment_processor.py:65 | prefixing a kept character keeps the text in the class |
| ForceAlignment.StripIsSlice | app/module_inference/force_alignment_processor.py:67 | strip keeps one slice of its argument |
| ForceAlignment.StripKept | app/module_inference/force_alignment_processor.py:67 | stripping keeps the characters in the class |
| ForceAlignment.StripSingleSpaced | app/module_inference/force_alignment_processor.py:67 | stripping leaves no two spaces side by side |
| ForceAlignment.Normalize | app/module_inference/force_alignment_processor.py:54-69 | the result has only lower-case letters of the class, digits and single spaces, none at either end |
| ForceAlignment.Process | app/module_inference/force_alignment_processor.py:97-100 | `process` returns `normalize`'s result: letters of the class, digits and single spaces only |
| ForceAlignment.IntegerInText | app/module_inference/force_alignment_processor.py:72-92 | a lone number in running text is replaced by its words and nothing else changes |
| ForceAlignment.TransformsSentence | app/module_inference/test_audio.py:49 | "Tengo 3 manzanas" becomes "Tengo tres manzanas" |
| ForceAlignment.TransformsDecimal | app/module_inference/test_audio.py:50 | "5.99" becomes "cinco coma noventa y nueve" |
| ForceAlignment.NormalTextIsFixed | app/module_inference/force_alignment_processor.py:54-69 | normalisation leaves already-normal text without digits unchanged |
| ForceAlignment.LowerNormal | app/module_inference/force_alignment_processor.py:63 | lower-casing leaves normal text unchanged |
| ForceAlignment.LowerKept | app/module_inference/force_alignment_processor.py:63 | lower-casing leaves each letter of the class unchanged |
| ForceAlignment.JoinWordsNormal | app/module_inference/force_alignment_processor.py:63 | splitting normal text into words and joining with spaces gives it back |
| ForceAlignment.NormalSuffix | app/module_inference/force_alignment_processor.py:63 | a suffix of normal text after a space is normal |
| ForceAlignment.CollapseSingleSpaced | app/module_inference/force_alignment_processor.py:67 | collapsing changes nothing in single-spaced text |
| ForceAlignment.SingleSpacedTail | app/module_inference/force_alignment_processor.py:67 | the tail of single-spaced text is single-spaced |
| ForceAlignment.StripNormal | app/module_inference/force_alignment_processor.py:67 | strip leaves normal text unchanged |
| FolderInference.Flatten | app/module_inference/infere_emotion/predict_emotions_folderwavs.py:28-30 | a label is in the flattened array exactly when some member predicted it |
| FolderInference.BestOfBeatsAll | app/module_inference/infere_emotion/predict_emotions_folderwavs.py:30-31 | the running best is seen and beats every seen label, the smaller winning ties |
| FolderInference.VoteIsMajority | app/module_inference/infere_emotion/predict_emotions_folderwavs.py:30-31 | the vote picks the most frequent label, the smallest among equals |
| FolderInference.MajorityIsUnique | app/module_inference/infere_emotion/predict_emotions_folderwavs.py:30-31 | that label is unique |
| FolderInference.IntOfPrediction | app/module_inference/infere_emotion/predict_emotions_folderwavs.py:33 | int() of a one-element prediction is its label; any other size raises TypeError |
| FolderInference.HardLabel | app/module_inference/infere_emotion/predict_emotions_folderwavs.py:18-35 | an ensemble gives its majority label (ValueError with no predictions); a single model gives int() of its prediction |
| FolderInference.GatherVotes | app/module_inference/infere_emotion/predict_emotions_folderwavs.py:24-28 | the predictions gathered member after member are the flattened votes |
| FolderInference.BestVote | app/module_inference/infere_emotion/predict_emotions_folderwavs.py:30-31 | the pass over the predictions finds the majority label, the smallest among equally frequent ones |
| FolderInference.HardVote | app/module_inference/infere_emotion/predict_emotions_folderwavs.py:21-31 | the loop gathering predictions and the vote give HardLabel of the ensemble |
| FolderInference.GetEmotionsHard | app/module_inference/infere_emotion/predict_emotions_folderwavs.py:18-35 | the hard-mode result is HardLabel of the model |
| FolderInference.GetEmotionsSoft | app/module_inference/infere_emotion/predict_emotions_folderwavs.py:37-53 | the first row of the mean and spread, or of a single model's probabilities with spread [0]; IndexError for an empty table |
| FolderInference.BelowIsStrictTotal | app/module_inference/infere_emotion/predict_emotions_folderwavs.py:92 | the argsort order is a strict total order |
| FolderInference.Range | app/module_inference/infere_emotion/predict_emotions_folderwavs.py:92 | the positions 0..n-1 |
| FolderInference.ArgSort | app/module_inference/infere_emotion/predict_emotions_folderwavs.py:92 | every position once, in ascending order of probability |
| FolderInference.Reverse | app/module_inference/infere_emotion/predict_emotions_folderwavs.py:92 | [::-1] |
| FolderInference.TopThree | app/module_inference/infere_emotion/predict_emotions_folderwavs.py:92 | min(3, n) positions, largest first, and every other position ranks below each of them |
| FolderInference.TopThreeAreMostProbable | app/module_inference/infere_emotion/predict_emotions_folderwavs.py:92 | the three have non-increasing probabilities and no other class is more probable than any of them |
| FolderInference.Header | app/module_inference/infere_emotion/predict_emotions_folderwavs.py:70-78 | the 13 base columns, then original_emotion when one is given, else user_id and timestamp |
| FolderInference.TextCells | app/module_inference/infere_emotion/predict_emotions_folderwavs.py:80 | the header as text cells |
| FolderInference.BaseName | app/module_inference/infere_emotion/predict_emotions_folderwavs.py:96 | the base name holds no '/' |
| FolderInference.TimestampOf | app/module_inference/infere_emotion/predict_emotions_folderwavs.py:144 | the time stamp holds no '_' |
| FolderInference.CategoryOf | app/module_inference/infere_emotion/predict_emotions_folderwavs.py:108-135 | pretrained: the decoded label with spread 0; otherwise the reformatted label with spread std[index], IndexError when std is shorter |
| FolderInference.Categories | app/module_inference/infere_emotion/predict_emotions_folderwavs.py:110-135 | succeeds exactly when every class does, holding each class in order |
| FolderInference.FailStep | app/module_inference/infere_emotion/predict_emotions_folderwavs.py:110-135 | a failure is kept by one more class |
| FolderInference.CategoriesFailFirst | app/module_inference/infere_emotion/predict_emotions_folderwavs.py:110-135 | the first failure is the outcome |
| FolderInference.CategoryCells | app/module_inference/infere_emotion/predict_emotions_folderwavs.py:113-130 | three cells per class: name, probability, spread |
| FolderInference.Pairs | app/module_inference/infere_emotion/predict_emotions_folderwavs.py:117-135 | one (emo, prob) entry per class |
| FolderInference.Tail | app/module_inference/infere_emotion/predict_emotions_folderwavs.py:141-146 | the original emotion, or the worker id and the time stamp |
| FolderInference.CategoriesStep | app/module_inference/infere_emotion/predict_emotions_folderwavs.py:110-135 | one more class extends the list or ends it with its error |
| FolderInference.CellsStep | app/module_inference/infere_emotion/predict_emotions_folderwavs.py:113-135 | one more class appends its three cells and its entry |
| FolderInference.DescribeTop | app/module_inference/infere_emotion/predict_emotions_folderwavs.py:108-135 | the loops append the cells and entries of the classes, or raise the first error |
| FolderInference.Classify | app/module_inference/infere_emotion/predict_emotions_folderwavs.py:83-151 | the soft and hard results, the decoded label and the loops give the outcome of the call |
| FolderInference.Assemble | app/module_inference/infere_emotion/predict_emotions_folderwavs.py:98-145 | the answer and the row for the decoded classes (no contract of its own; RowLayout states it) |
| FolderInference.Describe | app/module_inference/infere_emotion/predict_emotions_folderwavs.py:91-145 | the top three classes decoded, then Assemble, or the first decoding error (no contract of its own; DescribeTop, ClassesAreTopThree and SingleModelHasOneSpread state it) |
| FolderInference.Interfere | app/module_inference/infere_emotion/predict_emotions_folderwavs.py:68-151 | soft result, hard label and its decoding, then Describe (no contract of its own; InterfereDescribesSoft and Classify state it) |
| FolderInference.Answer | app/module_inference/infere_emotion/predict_emotions_folderwavs.py:151 | the answer of a successful call, or its error (no contract of its own) |
| FolderInference.ResultsCsv.constructor | app/module_inference/infere_emotion/predict_emotions_folderwavs.py:70 | the result file, absent or with its rows |
| FolderInference.ResultsCsv.InterfereEmotion | app/module_inference/infere_emotion/predict_emotions_folderwavs.py:68-151 | the header is written only when the file is absent; a successful call appends its row and returns its answer |
| FolderInference.RowLayout | app/module_inference/infere_emotion/predict_emotions_folderwavs.py:96-146 | the base name, a (label, prob, spread) triple per class, valence, arousal, dominance, then the tail |
| FolderInference.RowMatchesHeader | app/module_inference/infere_emotion/predict_emotions_folderwavs.py:70-146 | a successful row has one cell per header column exactly when there are at least three classes |
| FolderInference.ClassesAreTopThree | app/module_inference/infere_emotion/predict_emotions_folderwavs.py:92-135 | the classes are the top three, each with its probability, label and spread |
| FolderInference.InterfereDescribesSoft | app/module_inference/infere_emotion/predict_emotions_folderwavs.py:86-87 | a successful call describes its model's soft result |
| FolderInference.SingleModelHasOneSpread | app/module_inference/infere_emotion/predict_emotions_folderwavs.py:122-135 | a single non-pretrained model with at least two classes raises, because its spread has one entry |
| FolderInference.PathJoin | app/module_inference/infere_emotion/predict_emotions_folderwavs.py:168 | joining an absolute name gives the name |
| FolderInference.BaseNameOfJoin | app/module_inference/infere_emotion/predict_emotions_folderwavs.py:96-168 | the base name of a joined file is the file's name |
| FolderInference.OriginalEmotionOf | app/module_inference/infere_emotion/predict_emotions_folderwavs.py:171 | the first '_'-field holds no '_' |
| FolderInference.WorkerIdOf | app/module_inference/infere_emotion/predict_emotions_folderwavs.py:189 | IndexError exactly when the name has no '_' |
| FolderInference.CallFor | app/module_inference/infere_emotion/predict_emotions_folderwavs.py:164-191 | test mode passes the original emotion; live mode passes the worker id or raises |
| FolderInference.FileNameFields | app/module_inference/infere_emotion/predict_emotions_folderwavs.py:144-189 | `<ts>_<worker>.wav` yields the worker and the time stamp, and in test mode `<ts>` as the original emotion |
| FolderInference.DatasetName | app/module_inference/infere_emotion/predict_emotions_folderwavs.py:206 | the dataset name holds no '_' and no '.' |
| FolderInference.DatasetNameOf | app/module_inference/infere_emotion/predict_emotions_folderwavs.py:206 | `<prefix>_<dataset>.<ext>` yields the dataset |
| FolderInference.MixedModelDataset | app/module_inference/test_audio.py:26 | "model_ours_MIXED.pkl" belongs to MIXED |
| FolderInference.CsvFile | app/module_inference/infere_emotion/predict_emotions_folderwavs.py:213-216 | the folder, then the model name without ".pkl", then "-output.csv" |
| FolderInference.CsvFileIgnoresMode | app/module_inference/infere_emotion/predict_emotions_folderwavs.py:213-216 | test and live mode write the same file |
| FolderInference.LoaderFor | app/module_inference/infere_emotion/predict_emotions_folderwavs.py:156-161 | the loader depends only on the model type; "ours" reads mfcc[0] and mfcc[1], raising for a missing or short entry |
| EmotionProcessing.SoftTables | app/module_inference/emotion_processer.py:35-42 | an ensemble's mean and spread tables, or a single model's probabilities with [[0]] |
| EmotionProcessing.HardLabelAsWritten | app/module_inference/emotion_processer.py:25-34 | a single model's label as HardLabel reads it; an ensemble always raises: ValueError with no prediction, else AttributeError |
| EmotionProcessing.EnsembleVoteRaises | app/module_inference/emotion_processer.py:28-32 | wherever an ensemble predicts something, the vote as written raises AttributeError while the intended vote answers with the majority label |
| EmotionProcessing.GetEmotions | app/module_inference/emotion_processer.py:20-42 | hard mode: answers only for a single model, with its only prediction, and raises as HardLabelAsWritten otherwise; soft mode: the tables; any other mode: None |
| EmotionProcessing.WalkedWidths | app/module_inference/emotion_processer.py:53 | argsort of the table then [-3:][::-1] walks the last three rows, last first |
| EmotionProcessing.DecodeIndexRow | app/module_inference/emotion_processer.py:53 | decode_label of a row of indices: KeyError for an unknown dataset, ValueError unless the row has one index |
| EmotionProcessing.WalkedEntries | app/module_inference/emotion_processer.py:53 | the comprehension answers exactly when every walked row decodes, else the first row's error |
| EmotionProcessing.ProcessAudio | app/module_inference/emotion_processer.py:44-59 | as written: every ensemble raises; otherwise the hard label's error, or an answer exactly when every walked row of the whole table decodes, with the three dimensions |
| EmotionProcessing.ProcessAudioRaisesOnClassRows | app/module_inference/emotion_processer.py:50-53 | with a known dataset, a last row of two or more classes makes process_audio raise: AttributeError for an ensemble, ValueError for a single model |
| EmotionProcessing.ProcessAudioRaisesOnOneRow | app/module_inference/emotion_processer.py:50-53 | a one-row table of two or more classes makes process_audio raise: AttributeError for an ensemble, ValueError for a single model |
| EmotionProcessing.ProcessAudioFirstRow | app/module_inference/emotion_processer.py:44-59 | the corrected reading: the intended hard vote, then the top three classes of the first row decoded, with their probabilities, and the three dimensions |
| EmotionProcessing.InterfereKnowsDataset | app/module_inference/infere_emotion/predict_emotions_folderwavs.py:87-111 | a pretrained call that answers has a hard label and a known dataset |
| EmotionProcessing.ProcessAudioAgreesWithInterfere | app/module_inference/emotion_processer.py:53-58 | for a pretrained model, the corrected reading gives interfere_emotion's answer |
| EmotionProcessing.ProcessAudioFailsWhereInterfereAnswers | app/module_inference/emotion_processer.py:50-53 | where interfere_emotion answers on one feature row, process_audio as written raises (AttributeError for an ensemble, ValueError for a single model) and the corrected reading answers |
| AudioProcessing.ConvertAudioToWav | app/module_inference/audio_processer.py:46-65 | ValueError unless the name ends in ".wav" ignoring case; RuntimeError when saving gives no path; otherwise the saved path |
| AudioProcessing.UploadAccepted | app/module_inference/test_audio.py:16-20 | the tests' upload is answered with the saved path |
| AudioProcessing.UpperCaseExtensionAccepted | app/module_inference/audio_processer.py:50 | ".WAV" is accepted too |
| AudioProcessing.LastIndexOf | app/module_inference/audio_processer.py:78 | the last position of a character, if any |
| AudioProcessing.Stem | app/module_inference/audio_processer.py:78 | the path, or a prefix ending before a '.' |
| AudioProcessing.StemOfModelFile | app/module_inference/audio_processer.py:78 | `<stem>.pkl` loses exactly ".pkl" |
| AudioProcessing.ReplaceChar | app/module_inference/audio_processer.py:78 | each occurrence of one character replaced |
| AudioProcessing.ModelLabel | app/module_inference/audio_processer.py:78 | the stem with '_' as ' ', upper case at the start of each word and lower case elsewhere |
| AudioProcessing.ModelEntries | app/module_inference/audio_processer.py:68-85 | one entry per ".pkl" name, in listing order, with its caption; [] for a missing directory |
| AudioProcessing.PklPositions | app/module_inference/audio_processer.py:82 | the positions of the ".pkl" names: ascending, each exactly once |
| AudioProcessing.PklEntries | app/module_inference/audio_processer.py:76-83 | the k-th entry is the k-th ".pkl" name with its caption: one per name, in listing order |
| AudioProcessing.DumpFilePath | app/module_inference/audio_processer.py:27-28 | the result file is ./data/output-predict-emotions/volcado-output.csv |
| AudioProcessing.GetEmotionsAudio | app/module_inference/audio_processer.py:19-43 | a loader error is raised and nothing is written; otherwise interfere_emotion runs with the dataset of the model name |

## Left out

- Model loading and inference, feature extraction, and the dimensional model are foreign ML code. Predictions, probability tables and `get_dimensional`'s output are inputs (`dims`).
- Soft-mode averaging (`np.mean`/`np.std` over the members) is floating-point array numerics. An ensemble carries its mean and spread tables as inputs.
- Transcription and alignment (Whisper, wav2vec) are foreign calls.
- `num2words` and `unidecode` are foreign libraries. They are the uninterpreted parameters `words` and `ascii`.
- ForceAlignment.Process carries no contract of its own: it is `Normalize` by definition. The test example "¡Hola, ¿cómo estás?" depends on what `unidecode` does and is not proved.
- ForceAlignment.TransformsSentence: the test's lower-cased expectation comes from `normalize`'s `lower()`. The lemma states the number step only.
- File, CSV and JSON I/O, encodings, byte-order marks and CSV quoting are left out. Files are sequences of parsed rows or of `;`-separated lines. `pandas.read_csv` type inference is modelled only as far as the queries depend on it (an empty cell is NaN, a timestamp must convert to `int`).
- The live polling loop (`sleep`, `os.listdir`, `os.rename`, `os.makedirs`), `write_json`, the MQTT alert, `check_installation` and `load_csv` are I/O and network.
- The extra `data['worker_id']` entry of the live JSON is left out; the live mode's answer is the `interfere_emotion` answer.
- Local-time conversion of `datetime.fromtimestamp` is a fixed offset `utcOffset`; daylight-saving changes are not modelled.
- pandas reads an empty `user_id` cell as NaN, which the source stores without failing; the model gives every record read an integer user id, and a missing `user_id` column is its `KeyError`.
- EmotionProcessing.ProcessAudio: when the table has one column, `por_accuracy[[0]]` in the source is a one-element array; the model records the number it holds.
- `np.argsort`'s order among equal probabilities is implementation-defined. The model uses the stable order, so among ties the right-most position comes first after reversal.
- The hard label `interfere_emotion` and `process_audio` compute is never used in the output. The model keeps its failures (a raising vote or decoder still raises) but not its value.
- `Worker.to_dict` (app/module_graphic/worker.py), the date parsing of both `Worker` classes, and the role lists are not part of this model. `insert_worker` takes the dictionary as its input, so the `AttributeError` of a worker without `to_dict` is not modelled.
- Case mapping in `lower`, `upper` and `title` covers ASCII letters and the Latin-1 letters that map one-to-one. Python also upper-cases ß to "SS", ÿ to U+0178 and µ to U+039C, and counts them (and ª, º) as cased in `title`; the model leaves these letters unchanged and uncased, and letters beyond Latin-1 likewise.
- `int()` is modelled on ASCII digits with an optional sign and surrounding white space. Underscore separators and non-ASCII digits are not accepted.
- `strptime`'s `%d`, `%m` and `%Y` fields accept ASCII digits only; non-ASCII decimal digits are not modelled.
- Console output is left out: the `print` calls in `get_all_model_files` and `interfere_emotion`, in `load_records` and `filter_records_by_user_date` (app/persistance/persistance.py:45, 48, 68), in `classify_users_by_condition` (app/module_analysis/analysis_processor.py:101, 108, 120), in the analysis script's `determine_condition` and `classify_conditions_by_user` (app/persistance/analysis.py:82-84, 104), and in `read_workers` (app/persistance/worker_persistance.py:28).
- ForceAlignment.IsDigit: the `\d` of `transform_number_to_text`'s pattern also matches non-ASCII decimal digits, which `int` and `float` accept; the model treats only ASCII digits as digits, so `TransformNumbers` and `NoDigitUnchanged` leave other decimal digits as plain text.
- Flask configuration (`SHIFTS`, `current_app`) is the parameter `shifts`. The web routes, authentication, the synthetic data generator and the configuration endpoints are not part of this model.
- Floating-point formatting of the written numbers and the float conversion of the dimensions are left out; reals are exact.

## Findings

| source | as written | input that shows it | evidently intended | confidence | as-written member | corrected member |
|---|---|---|---|---|---|---|
| app/module_inference/emotion_processer.py:29-32 | each member's prediction is appended as an array, so the object array holds plain Python integers and `.item()` on the majority raises `AttributeError` | any ensemble whose members predict, e.g. two members both predicting `[3]` | append `list(prediction)`, as app/module_inference/infere_emotion/predict_emotions_folderwavs.py:26 does, and return the majority label | not executed | EmotionProcessing.EnsembleVoteRaises | FolderInference.HardLabel |
| app/module_inference/emotion_processer.py:53 | `np.argsort` of the whole `(1, n)` `predict_proba` table gives rows of class indices, and `decode_label` on such a row makes `inverse_transform` raise `ValueError` | a single model on one feature row whose table has two or more classes, e.g. `[[0.1, 0.7, 0.2]]` with dataset MEACorpus | rank the classes of the first row, as `interfere_emotion` does (app/module_inference/infere_emotion/predict_emotions_folderwavs.py:86-111) | not executed | EmotionProcessing.ProcessAudioFailsWhereInterfereAnswers | EmotionProcessing.ProcessAudioAgreesWithInterfere |
