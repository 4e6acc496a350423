/** The measurement store (app/persistance/persistance.py): the class
    `RecordDataCSV` holds the records of the semicolon-separated file, an index
    from `user_id` to that user's records, and an index from `user_id` to the
    `(timestamp, record)` pairs with a non-zero timestamp. Its queries list the
    users, filter by user and date, filter by date and shift, parse "HH:MM"
    and collect the emotion vocabulary.

    The file arrives already parsed, as a sequence of rows. Dates are seconds
    on the local clock: `datetime.fromtimestamp` is modelled as adding a fixed
    offset `utcOffset` to the Unix timestamp. */
module RecordStore {
  import opened Common
  import opened Strings
  import Sorting

  /** One `Emotion_N_label` cell: the column is missing from the file, the cell is empty
      (pandas reads a float NaN), or the cell holds text. */
  datatype Cell = Absent | Blank | Text(text: string)

  /** One record of `data` as the queries use it. */
  datatype Record = Record(userId: int, timestamp: int, emotion1: Cell, emotion2: Cell, emotion3: Cell)

  /** One parsed row of the file. `userId` is `None` when the file has no `user_id`
      column, so `record['user_id']` raises `KeyError`. `timestamp` is `None` when
      `int(record['timestamp'])` fails: a missing column, an empty cell (NaN) or text
      that is not an integer. */
  datatype RawRecord = RawRecord(userId: Option<int>, timestamp: Option<int>, emotion1: Cell, emotion2: Cell, emotion3: Cell)

  predicate Convertible(raw: RawRecord) {
    raw.userId.Some? && raw.timestamp.Some?
  }

  function ToRecord(raw: RawRecord): Record
    requires Convertible(raw)
  {
    Record(raw.userId.value, raw.timestamp.value, raw.emotion1, raw.emotion2, raw.emotion3)
  }

  /** What `load_records` returns on success: `data`, `index` and `index_timestmap`. */
  datatype Loaded = Loaded(data: seq<Record>, index: map<int, seq<Record>>, indexTimestamp: map<int, seq<(int, Record)>>)

  /** The user ids present in `data`. */
  function UserIdSet(data: seq<Record>): set<int> {
    set r | r in data :: r.userId
  }

  /** The records of user `u`, in file order. */
  function RecordsOf(data: seq<Record>, u: int): (rs: seq<Record>)
    ensures u !in UserIdSet(data) ==> rs == []
  {
    if data == [] then []
    else
      var n := |data| - 1;
      RecordsOf(data[..n], u) + (if data[n].userId == u then [data[n]] else [])
  }

  /** The `(timestamp, record)` pairs of user `u` with a non-zero timestamp, in file order. */
  function TimedRecordsOf(data: seq<Record>, u: int): (ps: seq<(int, Record)>)
    ensures u !in UserIdSet(data) ==> ps == []
  {
    if data == [] then []
    else
      var n := |data| - 1;
      var r := data[n];
      TimedRecordsOf(data[..n], u) + (if r.userId == u && r.timestamp != 0 then [(r.timestamp, r)] else [])
  }

  /** The records that `index[u]` collects: those with user id `u`. */
  function OfUser(u: int): Record -> bool {
    (x: Record) => x.userId == u
  }

  /** The records that `index_timestmap[u]` collects: those of user `u` with a non-zero
      timestamp. */
  function TimedOfUser(u: int): Record -> bool {
    (x: Record) => x.userId == u && x.timestamp != 0
  }

  /** A user's records are the records of `data` with that user id, one entry per record,
      in file order. */
  lemma {:induction false} RecordsOfInFileOrder(data: seq<Record>, u: int)
    ensures var p := Positions(data, OfUser(u));
      |RecordsOf(data, u)| == |p| && forall k | 0 <= k < |p| :: RecordsOf(data, u)[k] == data[p[k]]
  {
    if data != [] {
      RecordsOfInFileOrder(data[..|data| - 1], u);
      InOrderStep(data, OfUser(u), (x: Record) => x, RecordsOf(data[..|data| - 1], u));
    }
  }

  /** A user's timed entries are those of the records with that user id and a non-zero
      timestamp, one entry per record, in file order. */
  lemma {:induction false} TimedRecordsOfInFileOrder(data: seq<Record>, u: int)
    ensures var p := Positions(data, TimedOfUser(u));
      var ps := TimedRecordsOf(data, u);
      |ps| == |p| && forall k | 0 <= k < |p| :: ps[k] == (data[p[k]].timestamp, data[p[k]])
  {
    if data != [] {
      TimedRecordsOfInFileOrder(data[..|data| - 1], u);
      InOrderStep(data, TimedOfUser(u), (x: Record) => (x.timestamp, x), TimedRecordsOf(data[..|data| - 1], u));
    }
  }

  /** A user's records are exactly the records of `data` with that user id. */
  lemma {:induction false} RecordsOfMembers(data: seq<Record>, u: int, x: Record)
    ensures x in RecordsOf(data, u) <==> x in data && x.userId == u
  {
    if data != [] {
      var n := |data| - 1;
      RecordsOfMembers(data[..n], u, x);
      assert data == data[..n] + [data[n]];
    }
  }

  /** A user's timed entries pair each of that user's records with a non-zero timestamp with
      that timestamp. */
  lemma {:induction false} TimedRecordsOfMembers(data: seq<Record>, u: int, t: int, x: Record)
    ensures (t, x) in TimedRecordsOf(data, u) <==> x in data && x.userId == u && x.timestamp != 0 && t == x.timestamp
  {
    if data != [] {
      var n := |data| - 1;
      TimedRecordsOfMembers(data[..n], u, t, x);
      assert data == data[..n] + [data[n]];
    }
  }

  /** The indexes describe `data`: one key per user present, holding that user's records
      (all of them, or those with a non-zero timestamp) in file order. */
  ghost predicate Indexes(data: seq<Record>, index: map<int, seq<Record>>, indexTimestamp: map<int, seq<(int, Record)>>) {
    && index.Keys == UserIdSet(data)
    && indexTimestamp.Keys == UserIdSet(data)
    && (forall u | u in index :: index[u] == RecordsOf(data, u))
    && (forall u | u in indexTimestamp :: indexTimestamp[u] == TimedRecordsOf(data, u))
  }

  /** Appending one record adds its user id. */
  lemma UserIdSetSnoc(data: seq<Record>, record: Record)
    ensures UserIdSet(data + [record]) == UserIdSet(data) + {record.userId}
  {
    var d := data + [record];
    assert forall r | r in d :: r in data || r == record;
    assert record in d;
    assert forall r | r in data :: r in d;
  }

  /** Appending one record extends its user's entries by it and leaves the others. */
  lemma RecordsOfSnoc(data: seq<Record>, record: Record, u: int)
    ensures RecordsOf(data + [record], u) == RecordsOf(data, u) + (if record.userId == u then [record] else [])
  {
    assert (data + [record])[..|data|] == data;
  }

  /** Appending one record extends its user's timed entries when its timestamp is not zero. */
  lemma TimedRecordsOfSnoc(data: seq<Record>, record: Record, u: int)
    ensures TimedRecordsOf(data + [record], u) == TimedRecordsOf(data, u)
      + (if record.userId == u && record.timestamp != 0 then [(record.timestamp, record)] else [])
  {
    assert (data + [record])[..|data|] == data;
  }

  /** Appending one record to `data` files it under its user in the record index. */
  lemma RecordIndexGrows(data: seq<Record>, record: Record, index: map<int, seq<Record>>)
    requires index.Keys == UserIdSet(data)
    requires forall u | u in index :: index[u] == RecordsOf(data, u)
    ensures var v := record.userId;
      var newIndex := index[v := (if v in index then index[v] else []) + [record]];
      && newIndex.Keys == UserIdSet(data + [record])
      && forall u | u in newIndex :: newIndex[u] == RecordsOf(data + [record], u)
  {
    var v := record.userId;
    var newIndex := index[v := (if v in index then index[v] else []) + [record]];
    UserIdSetSnoc(data, record);
    forall u | u in newIndex
      ensures newIndex[u] == RecordsOf(data + [record], u)
    {
      RecordsOfSnoc(data, record, u);
      if u != v {
        assert newIndex[u] == index[u];
      } else if v !in index {
        assert v !in UserIdSet(data);
        RecordsOfEmpty(data, v);
      }
    }
  }

  /** Appending one record to `data` files it under its user in the timestamp index when its
      timestamp is not zero. */
  lemma TimedIndexGrows(data: seq<Record>, record: Record, indexTimestamp: map<int, seq<(int, Record)>>)
    requires indexTimestamp.Keys == UserIdSet(data)
    requires forall u | u in indexTimestamp :: indexTimestamp[u] == TimedRecordsOf(data, u)
    ensures var v := record.userId;
      var timed := if v in indexTimestamp then indexTimestamp[v] else [];
      var newTimed := indexTimestamp[v := if record.timestamp != 0 then timed + [(record.timestamp, record)] else timed];
      && newTimed.Keys == UserIdSet(data + [record])
      && forall u | u in newTimed :: newTimed[u] == TimedRecordsOf(data + [record], u)
  {
    var v := record.userId;
    var timed := if v in indexTimestamp then indexTimestamp[v] else [];
    var newTimed := indexTimestamp[v := if record.timestamp != 0 then timed + [(record.timestamp, record)] else timed];
    UserIdSetSnoc(data, record);
    forall u | u in newTimed
      ensures newTimed[u] == TimedRecordsOf(data + [record], u)
    {
      TimedRecordsOfSnoc(data, record, u);
      if u != v {
        assert newTimed[u] == indexTimestamp[u];
      } else if v !in indexTimestamp {
        assert v !in UserIdSet(data);
        RecordsOfEmpty(data, v);
      }
    }
  }

  /** A user with no record has no entries. */
  lemma {:induction false} RecordsOfEmpty(data: seq<Record>, u: int)
    requires u !in UserIdSet(data)
    ensures RecordsOf(data, u) == [] && TimedRecordsOf(data, u) == []
  {
    if data != [] {
      var n := |data| - 1;
      assert data[n] in data;
      assert UserIdSet(data[..n]) <= UserIdSet(data) by {
        forall w | w in UserIdSet(data[..n])
          ensures w in UserIdSet(data)
        {
          var r :| r in data[..n] && r.userId == w;
          assert r in data;
        }
      }
      RecordsOfEmpty(data[..n], u);
    }
  }

  /** Appending one record to `data` appends it to its user's entries and to no other. */
  lemma IndexesGrow(data: seq<Record>, record: Record, index: map<int, seq<Record>>, indexTimestamp: map<int, seq<(int, Record)>>)
    requires Indexes(data, index, indexTimestamp)
    ensures var u := record.userId;
      var entries := if u in index then index[u] else [];
      var timed := if u in indexTimestamp then indexTimestamp[u] else [];
      Indexes(data + [record], index[u := entries + [record]],
              indexTimestamp[u := if record.timestamp != 0 then timed + [(record.timestamp, record)] else timed])
  {
    RecordIndexGrows(data, record, index);
    TimedIndexGrows(data, record, indexTimestamp);
  }

  /** The body of the loading loop: file `record` under its user in both indexes, in the
      timestamp index only when its timestamp is not zero. */
  method IndexRecord(ghost data: seq<Record>, record: Record, index: map<int, seq<Record>>,
                     indexTimestamp: map<int, seq<(int, Record)>>)
    returns (newIndex: map<int, seq<Record>>, newIndexTimestamp: map<int, seq<(int, Record)>>)
    requires Indexes(data, index, indexTimestamp)
    ensures Indexes(data + [record], newIndex, newIndexTimestamp)
  {
    var userId := record.userId;
    var timestamp := record.timestamp;
    ghost var entries := if userId in index then index[userId] else [];
    ghost var timed := if userId in indexTimestamp then indexTimestamp[userId] else [];
    newIndex, newIndexTimestamp := index, indexTimestamp;
    if userId !in newIndex {
      newIndex := newIndex[userId := []];
    }
    newIndex := newIndex[userId := newIndex[userId] + [record]];
    assert newIndex == index[userId := entries + [record]];
    if userId !in newIndexTimestamp {
      newIndexTimestamp := newIndexTimestamp[userId := []];
    }
    if timestamp != 0 {
      newIndexTimestamp := newIndexTimestamp[userId := newIndexTimestamp[userId] + [(timestamp, record)]];
    }
    assert newIndexTimestamp == indexTimestamp[userId := if timestamp != 0 then timed + [(timestamp, record)] else timed];
    IndexesGrow(data, record, index, indexTimestamp);
  }

  /** `load_records()`: `None` stands for the `[]` it returns when reading fails, which
      happens when the file is missing or some row has no usable `user_id` or `timestamp`. */
  method LoadRecords(file: Option<seq<RawRecord>>) returns (loaded: Option<Loaded>)
    ensures loaded.Some? <==> file.Some? && forall i | 0 <= i < |file.value| :: Convertible(file.value[i])
    ensures loaded.Some? ==>
      && |loaded.value.data| == |file.value|
      && (forall i | 0 <= i < |file.value| :: loaded.value.data[i] == ToRecord(file.value[i]))
      && Indexes(loaded.value.data, loaded.value.index, loaded.value.indexTimestamp)
  {
    if file.None? {
      return None;
    }
    var rows := file.value;
    var records: seq<Record> := [];
    var index: map<int, seq<Record>> := map[];
    var indexTimestamp: map<int, seq<(int, Record)>> := map[];
    for i := 0 to |rows|
      invariant |records| == i && forall j | 0 <= j < i :: Convertible(rows[j]) && records[j] == ToRecord(rows[j])
      invariant Indexes(records, index, indexTimestamp)
    {
      if !Convertible(rows[i]) {
        return None;
      }
      var record := ToRecord(rows[i]);
      index, indexTimestamp := IndexRecord(records, record, index, indexTimestamp);
      records := records + [record];
    }
    return Some(Loaded(records, index, indexTimestamp));
  }

  /** `time_str.split(":")` into hours and minutes, `int` on each, then `time(hours, minutes)`:
      seconds since midnight, or `ValueError` for anything else. */
  function ParseTime(s: string): (r: Result<int>)
    ensures r.Ok? ==> 0 <= r.value <= 23 * 3600 + 59 * 60 && r.value % 60 == 0
    ensures r.Err? ==> r.error.ValueError?
  {
    var parts := Split(s, ':');
    if |parts| != 2 then Err(ValueError("expected HH:MM"))
    else
      match (ParseInt(parts[0]), ParseInt(parts[1]))
      case (Some(hours), Some(minutes)) =>
        if 0 <= hours <= 23 && 0 <= minutes <= 59 then Ok(hours * 3600 + minutes * 60)
        else Err(ValueError("hour must be in 0..23 and minute in 0..59"))
      case _ => Err(ValueError("invalid literal for int()"))
  }

  /** Every well-formed "HH:MM" is read as its hours and minutes. */
  lemma ParseTimeReadsHoursAndMinutes(hours: nat, minutes: nat)
    requires hours <= 23 && minutes <= 59
    ensures ParseTime(PadDigits(hours, 2) + ":" + PadDigits(minutes, 2)) == Ok(hours * 3600 + minutes * 60)
  {
    var h := PadDigits(hours, 2);
    var m := PadDigits(minutes, 2);
    var s := h + ":" + m;
    assert ':' !in h && ':' !in m;
    assert Split(s, ':') == [h, m] by {
      assert s == h + [':'] + m;
      SplitAt(h, ':', m);
      SplitNoSeparator(m, ':');
    }
    ParsePadded(hours, 2);
    ParsePadded(minutes, 2);
    ParseTimeOfParts(s, h, m, hours, minutes);
  }

  lemma ParseTimeOfParts(s: string, h: string, m: string, hours: int, minutes: int)
    requires Split(s, ':') == [h, m] && ParseInt(h) == Some(hours) && ParseInt(m) == Some(minutes)
    requires 0 <= hours <= 23 && 0 <= minutes <= 59
    ensures ParseTime(s) == Ok(hours * 3600 + minutes * 60)
  {
  }

  /** The "noche" shift is picked by its name; its window wraps past midnight. */
  const NightShift: string := "noche"

  /** `time(23, 59, 59)`, in seconds since midnight. */
  const LastSecond: int := 23 * 3600 + 59 * 60 + 59

  /** Whether a time of day falls in a shift: for "noche", from `start` up to (not
      including) 23:59:59, or from midnight up to `end`; for any other shift, the half-open
      interval from `start` to `end`. */
  predicate InShift(timeOfDay: int, start: int, end: int, night: bool) {
    if night then (timeOfDay >= start && timeOfDay < LastSecond) || (timeOfDay >= 0 && timeOfDay < end)
    else start <= timeOfDay < end
  }

  /** Whether a record lies in the date range `[start, end]` and in the shift window. */
  predicate Located(x: Record, utcOffset: int, start: int, end: int, shiftStart: int, shiftEnd: int, night: bool) {
    var local := x.timestamp + utcOffset;
    start <= local <= end && InShift(local % 86400, shiftStart, shiftEnd, night)
  }

  /** The records a date range and a shift window locate. */
  function LocatedBy(utcOffset: int, start: int, end: int, shiftStart: int, shiftEnd: int, night: bool): Record -> bool {
    (x: Record) => Located(x, utcOffset, start, end, shiftStart, shiftEnd, night)
  }

  /** The records located by a date range and a shift window, in file order. */
  function InDateAndShift(data: seq<Record>, utcOffset: int, start: int, end: int,
                          shiftStart: int, shiftEnd: int, night: bool): (rs: seq<Record>)
    ensures var p := Positions(data, LocatedBy(utcOffset, start, end, shiftStart, shiftEnd, night));
      |rs| == |p| && forall k | 0 <= k < |p| :: rs[k] == data[p[k]]
  {
    if data == [] then []
    else
      var n := |data| - 1;
      var front := InDateAndShift(data[..n], utcOffset, start, end, shiftStart, shiftEnd, night);
      InOrderStep(data, LocatedBy(utcOffset, start, end, shiftStart, shiftEnd, night), (x: Record) => x, front);
      front
      + (if Located(data[n], utcOffset, start, end, shiftStart, shiftEnd, night) then [data[n]] else [])
  }

  /** Filtering one more record of a file extends the filtered prefix by that record exactly
      when it is located. */
  lemma InDateAndShiftStep(data: seq<Record>, i: nat, utcOffset: int, start: int, end: int,
                           shiftStart: int, shiftEnd: int, night: bool)
    requires i < |data|
    ensures InDateAndShift(data[..i + 1], utcOffset, start, end, shiftStart, shiftEnd, night)
      == InDateAndShift(data[..i], utcOffset, start, end, shiftStart, shiftEnd, night)
      + (if Located(data[i], utcOffset, start, end, shiftStart, shiftEnd, night) then [data[i]] else [])
  {
    assert data[..i + 1][..i] == data[..i];
  }

  /** The `(timestamp, record)` pairs whose local time lies in `[start, end]`. */
  function InLocalRange(utcOffset: int, start: int, end: int): ((int, Record)) -> bool {
    (e: (int, Record)) => start <= e.0 + utcOffset <= end
  }

  /** `(timestamp, record)` pairs whose local time lies in `[start, end]`, keeping their records. */
  function InDateRange(entries: seq<(int, Record)>, utcOffset: int, start: int, end: int): (rs: seq<Record>)
    ensures var p := Positions(entries, InLocalRange(utcOffset, start, end));
      |rs| == |p| && forall k | 0 <= k < |p| :: rs[k] == entries[p[k]].1
  {
    if entries == [] then []
    else
      var n := |entries| - 1;
      var front := InDateRange(entries[..n], utcOffset, start, end);
      InOrderStep(entries, InLocalRange(utcOffset, start, end), (e: (int, Record)) => e.1, front);
      front
      + (if start <= entries[n].0 + utcOffset <= end then [entries[n].1] else [])
  }

  /** A textual cell as `record.get(column, '').strip()` sees it: `None` where `.strip()` is
      called on a float NaN and raises `AttributeError`. */
  function Stripped(c: Cell): Option<string> {
    match c
    case Absent => Some("")
    case Blank => None
    case Text(s) => Some(Strip(s))
  }

  /** One of the record's three emotion cells is empty. */
  predicate HasBlankCell(r: Record) {
    r.emotion1 == Blank || r.emotion2 == Blank || r.emotion3 == Blank
  }

  /** `w` is the stripped text of one of the record's three emotion cells. */
  predicate Labelled(r: Record, w: string) {
    Stripped(r.emotion1) == Some(w) || Stripped(r.emotion2) == Some(w) || Stripped(r.emotion3) == Some(w)
  }

  /** Some record of `data` has an empty emotion cell. */
  predicate HasBlankLabel(data: seq<Record>) {
    exists i | 0 <= i < |data| :: HasBlankCell(data[i])
  }

  /** A label `get_emotions` collects: the stripped text of some emotion cell. */
  predicate IsVocabularyWord(data: seq<Record>, w: string) {
    exists i | 0 <= i < |data| :: Labelled(data[i], w)
  }

  /** The night window, which ends at a whole minute of the early morning, never holds the
      last second of a day. */
  lemma LastSecondNotLocated(x: Record, utcOffset: int, start: int, end: int, shiftStart: int, shiftEnd: int)
    requires (x.timestamp + utcOffset) % 86400 == LastSecond
    requires shiftEnd <= 23 * 3600 + 59 * 60
    ensures !Located(x, utcOffset, start, end, shiftStart, shiftEnd, true)
  {
  }

  /** A record is selected by a date-and-shift query exactly when it is in the file and
      located by the range and the window. */
  lemma {:induction false} InDateAndShiftMembers(data: seq<Record>, utcOffset: int, start: int, end: int,
                                                 shiftStart: int, shiftEnd: int, night: bool, x: Record)
    ensures x in InDateAndShift(data, utcOffset, start, end, shiftStart, shiftEnd, night) <==>
      x in data && Located(x, utcOffset, start, end, shiftStart, shiftEnd, night)
  {
    if data != [] {
      var n := |data| - 1;
      InDateAndShiftMembers(data[..n], utcOffset, start, end, shiftStart, shiftEnd, night, x);
      assert data == data[..n] + [data[n]];
    }
  }

  /** Over entries that pair each record with its own timestamp, a record is kept by the
      date filter exactly when it has an entry and its local time lies in `[start, end]`. */
  lemma {:induction false} InDateRangeMembers(entries: seq<(int, Record)>, utcOffset: int, start: int, end: int, x: Record)
    requires forall i | 0 <= i < |entries| :: entries[i].0 == entries[i].1.timestamp
    ensures x in InDateRange(entries, utcOffset, start, end) <==>
      (x.timestamp, x) in entries && start <= x.timestamp + utcOffset <= end
  {
    if entries != [] {
      var n := |entries| - 1;
      InDateRangeMembers(entries[..n], utcOffset, start, end, x);
      assert entries == entries[..n] + [entries[n]];
    }
  }

  /** What `filter_records_by_user_date` returns, over a consistent index: the user's records
      with a non-zero timestamp whose local time lies in `[start, end]`; nothing for a user
      that is not in the file. */
  lemma UserDateMembers(data: seq<Record>, index: map<int, seq<Record>>, indexTimestamp: map<int, seq<(int, Record)>>,
                        utcOffset: int, u: int, start: int, end: int, x: Record)
    requires Indexes(data, index, indexTimestamp)
    ensures u !in indexTimestamp <==> u !in UserIdSet(data)
    ensures u in indexTimestamp ==>
      (x in InDateRange(indexTimestamp[u], utcOffset, start, end) <==>
        x in data && x.userId == u && x.timestamp != 0 && start <= x.timestamp + utcOffset <= end)
  {
    if u in indexTimestamp {
      var entries := TimedRecordsOf(data, u);
      forall i | 0 <= i < |entries|
        ensures entries[i].0 == entries[i].1.timestamp
      {
        TimedRecordsOfMembers(data, u, entries[i].0, entries[i].1);
      }
      InDateRangeMembers(entries, utcOffset, start, end, x);
      TimedRecordsOfMembers(data, u, x.timestamp, x);
    }
  }

  class RecordDataCSV {
    const filePath: string
    /** The fixed local-time offset `datetime.fromtimestamp` applies, in seconds. */
    const utcOffset: int
    const data: seq<Record>
    const index: map<int, seq<Record>>
    const indexTimestamp: map<int, seq<(int, Record)>>

    ghost predicate Valid() {
      Indexes(data, index, indexTimestamp)
    }

    constructor FromLoaded(filePath: string, utcOffset: int, loaded: Loaded)
      requires Indexes(loaded.data, loaded.index, loaded.indexTimestamp)
      ensures Valid()
      ensures this.filePath == filePath && this.utcOffset == utcOffset
      ensures data == loaded.data && index == loaded.index && indexTimestamp == loaded.indexTimestamp
    {
      this.filePath := filePath;
      this.utcOffset := utcOffset;
      data := loaded.data;
      index := loaded.index;
      indexTimestamp := loaded.indexTimestamp;
    }

    /** `RecordDataCSV(file_path)`: the store of the parsed file, or the `ValueError` raised
        when the `[]` of a failed read is unpacked into the three fields, so that no partial
        store is ever built. */
    static method Open(filePath: string, utcOffset: int, file: Option<seq<RawRecord>>) returns (r: Result<RecordDataCSV>)
      ensures r.Ok? <==> file.Some? && forall i | 0 <= i < |file.value| :: Convertible(file.value[i])
      ensures r.Err? ==> r.error.ValueError?
      ensures r.Ok? ==> fresh(r.value) && r.value.Valid()
      ensures r.Ok? ==> r.value.filePath == filePath && r.value.utcOffset == utcOffset
      ensures r.Ok? ==> |r.value.data| == |file.value|
      ensures r.Ok? ==> forall i | 0 <= i < |file.value| :: r.value.data[i] == ToRecord(file.value[i])
    {
      var loaded := LoadRecords(file);
      if loaded.None? {
        return Err(ValueError("not enough values to unpack"));
      }
      var store := new RecordDataCSV.FromLoaded(filePath, utcOffset, loaded.value);
      return Ok(store);
    }

    /** `get_user_ids()`: the distinct user ids, ascending. */
    function GetUserIds(): (ids: seq<int>)
      ensures forall i, j | 0 <= i < j < |ids| :: ids[i] < ids[j]
      ensures forall u :: u in ids <==> u in UserIdSet(data)
    {
      Sorting.IntLessIsStrictTotal();
      var all := seq(|data|, i requires 0 <= i < |data| => data[i].userId);
      assert forall u :: u in all <==> u in UserIdSet(data) by {
        forall u | u in UserIdSet(data)
          ensures u in all
        {
          var r :| r in data && r.userId == u;
          var i :| 0 <= i < |data| && data[i] == r;
          assert all[i] == u;
        }
      }
      Sorting.SortedDistinct(Sorting.IntLess, all)
    }

    /** `filter_records_by_user_date(user_id, start_date, end_date)`: the user's indexed
        records whose local time lies in `[start, end]`, in index order. */
    method FilterRecordsByUserDate(userId: int, start: int, end: int) returns (filtered: seq<Record>)
      ensures userId in indexTimestamp ==> filtered == InDateRange(indexTimestamp[userId], utcOffset, start, end)
      ensures userId !in indexTimestamp ==> filtered == []
    {
      filtered := [];
      if userId in indexTimestamp {
        var userRecords := indexTimestamp[userId];
        for i := 0 to |userRecords|
          invariant filtered == InDateRange(userRecords[..i], utcOffset, start, end)
        {
          assert userRecords[..i + 1][..i] == userRecords[..i];
          var (timestamp, record) := userRecords[i];
          var recordDate := timestamp + utcOffset;
          if start <= recordDate <= end {
            filtered := filtered + [record];
          }
        }
        assert userRecords[..|userRecords|] == userRecords;
      }
    }

    /** `filter_by_date_and_shift(start_date, end_date, shift)` with the configured shifts
        `shifts` (name to start and end "HH:MM"): the bounds are put in order, an unknown
        shift or an unreadable time raises `ValueError`, and otherwise the records in the
        date range and the shift window are returned in file order. */
    method FilterByDateAndShift(start: int, end: int, shift: string, shifts: map<string, (string, string)>)
      returns (r: Result<seq<Record>>)
      ensures r == ShiftQuery(start, end, shift, shifts)
    {
      var startDate, endDate := start, end;
      if startDate > endDate {
        startDate, endDate := endDate, startDate;
      }
      if shift !in shifts {
        return Err(ValueError("No existe ese turno"));
      }
      var shiftStart :- ParseTime(shifts[shift].0);
      var shiftEnd :- ParseTime(shifts[shift].1);
      var filtered := FilterShiftWindow(startDate, endDate, shiftStart, shiftEnd, shift == NightShift);
      return Ok(filtered);
    }

    /** The loop of `filter_by_date_and_shift` once the shift window is read: every record in
        the date range `[start, end]` and the window, in file order; `night` selects the
        window that wraps past midnight. */
    method FilterShiftWindow(start: int, end: int, shiftStart: int, shiftEnd: int, night: bool)
      returns (filtered: seq<Record>)
      ensures filtered == InDateAndShift(data, utcOffset, start, end, shiftStart, shiftEnd, night)
    {
      filtered := [];
      for i := 0 to |data|
        invariant filtered == InDateAndShift(data[..i], utcOffset, start, end, shiftStart, shiftEnd, night)
      {
        InDateAndShiftStep(data, i, utcOffset, start, end, shiftStart, shiftEnd, night);
        var record := data[i];
        var recordDatetime := record.timestamp + utcOffset;
        if start <= recordDatetime <= end {
          var recordTime := recordDatetime % 86400;
          if night {
            if (recordTime >= shiftStart && recordTime < LastSecond) || (recordTime >= 0 && recordTime < shiftEnd) {
              filtered := filtered + [record];
            }
          } else {
            if shiftStart <= recordTime < shiftEnd {
              filtered := filtered + [record];
            }
          }
        }
      }
      assert data[..|data|] == data;
    }

    /** What `filter_by_date_and_shift` returns or raises. */
    function ShiftQuery(start: int, end: int, shift: string, shifts: map<string, (string, string)>): Result<seq<Record>> {
      var lo := if start > end then end else start;
      var hi := if start > end then start else end;
      if shift !in shifts then Err(ValueError("No existe ese turno"))
      else
        match (ParseTime(shifts[shift].0), ParseTime(shifts[shift].1))
        case (Ok(s), Ok(e)) => Ok(InDateAndShift(data, utcOffset, lo, hi, s, e, shift == NightShift))
        case (Err(error), _) => Err(error)
        case (_, Err(error)) => Err(error)
    }

    /** A successful date-and-shift query returns exactly the records of the file that lie
        in the ordered date range and in the window of the configured shift. */
    lemma ShiftQueryMembers(start: int, end: int, shift: string, shifts: map<string, (string, string)>, x: Record)
      ensures ShiftQuery(start, end, shift, shifts).Err? <==>
        shift !in shifts || ParseTime(shifts[shift].0).Err? || ParseTime(shifts[shift].1).Err?
      ensures ShiftQuery(start, end, shift, shifts).Ok? ==>
        var lo := if start > end then end else start;
        var hi := if start > end then start else end;
        (x in ShiftQuery(start, end, shift, shifts).value <==>
          x in data && Located(x, utcOffset, lo, hi, ParseTime(shifts[shift].0).value, ParseTime(shifts[shift].1).value,
                               shift == NightShift))
    {
      var lo := if start > end then end else start;
      var hi := if start > end then start else end;
      if shift in shifts && ParseTime(shifts[shift].0).Ok? && ParseTime(shifts[shift].1).Ok? {
        InDateAndShiftMembers(data, utcOffset, lo, hi, ParseTime(shifts[shift].0).value, ParseTime(shifts[shift].1).value,
                              shift == NightShift, x);
      }
    }

    /** A record whose local time of day is 23:59:59 is never returned for the "noche" shift,
        whatever its configured times, because the late half of the window stops one second
        short of midnight and the early half ends at a whole minute. */
    lemma NightShiftSkipsLastSecond(start: int, end: int, shifts: map<string, (string, string)>, x: Record)
      requires (x.timestamp + utcOffset) % 86400 == LastSecond
      ensures ShiftQuery(start, end, NightShift, shifts).Ok? ==> x !in ShiftQuery(start, end, NightShift, shifts).value
    {
      var q := ShiftQuery(start, end, NightShift, shifts);
      if q.Ok? {
        var lo := if start > end then end else start;
        var hi := if start > end then start else end;
        ShiftQueryOk(start, end, NightShift, shifts);
        var first, last := ParseTime(shifts[NightShift].0).value, ParseTime(shifts[NightShift].1).value;
        InDateAndShiftMembers(data, utcOffset, lo, hi, first, last, true, x);
        LastSecondNotLocated(x, utcOffset, lo, hi, first, last);
      }
    }

    /** A query that succeeds found the shift and read both of its times. */
    lemma ShiftQueryOk(start: int, end: int, shift: string, shifts: map<string, (string, string)>)
      requires ShiftQuery(start, end, shift, shifts).Ok?
      ensures shift in shifts && ParseTime(shifts[shift].0).Ok? && ParseTime(shifts[shift].1).Ok?
      ensures ShiftQuery(start, end, shift, shifts).value
        == InDateAndShift(data, utcOffset, if start > end then end else start, if start > end then start else end,
                          ParseTime(shifts[shift].0).value, ParseTime(shifts[shift].1).value, shift == NightShift)
    {
    }

    /** `get_emotions()`: the distinct stripped emotion labels, sorted, with "" for a
        missing column; an empty cell raises `AttributeError`. */
    method GetEmotions() returns (r: Result<seq<string>>)
      ensures r.Err? <==> HasBlankLabel(data)
      ensures r.Err? ==> r.error == AttributeError
      ensures r.Ok? ==> Sorting.StrictlySorted(Strings.Less, r.value)
      ensures r.Ok? ==> forall w :: w in r.value <==> IsVocabularyWord(data, w)
    {
      var emotions: seq<string> := [];
      for i := 0 to |data|
        invariant Sorting.StrictlySorted(Strings.Less, emotions)
        invariant !HasBlankLabel(data[..i])
        invariant forall w :: w in emotions <==> IsVocabularyWord(data[..i], w)
      {
        VocabularyStep(data, i);
        var added := AddLabels(emotions, data[i]);
        if added.None? {
          return Err(AttributeError);
        }
        emotions := added.value;
      }
      assert data[..|data|] == data;
      return Ok(emotions);
    }
  }

  /** The three `emotions.add(record.get(column, '').strip())` of one record: `None` when a
      `.strip()` raises. */
  method AddLabels(emotions: seq<string>, record: Record) returns (r: Option<seq<string>>)
    requires Sorting.StrictlySorted(Strings.Less, emotions)
    ensures r.None? <==> HasBlankCell(record)
    ensures r.Some? ==> Sorting.StrictlySorted(Strings.Less, r.value)
    ensures r.Some? ==> forall w :: w in r.value <==> w in emotions || Labelled(record, w)
  {
    Sorting.StringLessIsStrictTotal();
    var first := Stripped(record.emotion1);
    if first.None? {
      return None;
    }
    var added := Sorting.Insert(Strings.Less, first.value, emotions);
    var second := Stripped(record.emotion2);
    if second.None? {
      return None;
    }
    added := Sorting.Insert(Strings.Less, second.value, added);
    var third := Stripped(record.emotion3);
    if third.None? {
      return None;
    }
    added := Sorting.Insert(Strings.Less, third.value, added);
    return Some(added);
  }

  /** Growing the prefix by one record adds that record's three labels to the vocabulary,
      and an empty cell anywhere in the file is a blank label of the whole file. */
  lemma VocabularyStep(data: seq<Record>, i: nat)
    requires i < |data|
    ensures forall w :: IsVocabularyWord(data[..i + 1], w) <==> IsVocabularyWord(data[..i], w) || Labelled(data[i], w)
    ensures !HasBlankLabel(data[..i + 1]) <==> !HasBlankLabel(data[..i]) && !HasBlankCell(data[i])
    ensures HasBlankCell(data[i]) ==> HasBlankLabel(data)
  {
    var p, q := data[..i + 1], data[..i];
    assert p == q + [data[i]];
    forall w ensures IsVocabularyWord(p, w) <==> IsVocabularyWord(q, w) || Labelled(data[i], w) {
      VocabularySnoc(q, data[i], w);
    }
    BlankSnoc(q, data[i]);
  }

  /** A label of a file with one more record is a label of the shorter file or of that record. */
  lemma VocabularySnoc(q: seq<Record>, r: Record, w: string)
    ensures IsVocabularyWord(q + [r], w) <==> IsVocabularyWord(q, w) || Labelled(r, w)
  {
    var p := q + [r];
    if IsVocabularyWord(p, w) {
      var n :| 0 <= n < |p| && Labelled(p[n], w);
      if n < |q| {
        assert p[n] == q[n];
      }
    }
    if IsVocabularyWord(q, w) {
      var n :| 0 <= n < |q| && Labelled(q[n], w);
      assert p[n] == q[n];
    }
    if Labelled(r, w) {
      assert p[|q|] == r;
    }
  }

  /** A file with one more record has a blank label when the shorter file or that record has one. */
  lemma BlankSnoc(q: seq<Record>, r: Record)
    ensures HasBlankLabel(q + [r]) <==> HasBlankLabel(q) || HasBlankCell(r)
  {
    var p := q + [r];
    if HasBlankLabel(p) {
      var n :| 0 <= n < |p| && HasBlankCell(p[n]);
      if n < |q| {
        assert p[n] == q[n];
      }
    }
    if HasBlankLabel(q) {
      var n :| 0 <= n < |q| && HasBlankCell(q[n]);
      assert p[n] == q[n];
    }
    if HasBlankCell(r) {
      assert p[|q|] == r;
    }
  }
}
