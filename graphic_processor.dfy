/** The chart-side queries (app/module_graphic/graphic_processor.py): the class
    `GraphicProcessor`, which looks records up in a `RecordDataCSV` and forwards the
    filters to it; the fixed time-range options and their resolution against the
    current time; the shift options built from the configured shifts; and
    `date_range`, which turns a time option or two explicit dates into a range.

    Datetimes are naive local datetimes, written as seconds since 1970-01-01 00:00
    on the same local clock `RecordStore` uses; `datetime.now()` is the parameter
    `now`. */
module GraphicProcessing {
  import opened Common
  import opened Strings
  import RS = RecordStore
  import Sorting

  /** The processor over one store: `records` and `index` are read from the store once,
      when the processor is built. */
  class GraphicProcessor {
    const dataSource: RS.RecordDataCSV
    const records: seq<RS.Record>
    const index: map<int, seq<RS.Record>>

    ghost predicate Valid() {
      dataSource.Valid() && records == dataSource.data && index == dataSource.index
    }

    constructor (dataSource: RS.RecordDataCSV)
      requires dataSource.Valid()
      ensures Valid() && this.dataSource == dataSource
    {
      this.dataSource := dataSource;
      records := dataSource.data;
      index := dataSource.index;
    }

    /** `get_all_records()`: every record of the store, in file order. */
    function GetAllRecords(): (rs: seq<RS.Record>)
      requires Valid()
      ensures rs == dataSource.data
    {
      records
    }

    /** `get_ids()`: the store's user ids, ascending and without repeats. */
    function GetIds(): (ids: seq<int>)
      ensures forall i, j | 0 <= i < j < |ids| :: ids[i] < ids[j]
      ensures forall u :: u in ids <==> u in RS.UserIdSet(dataSource.data)
    {
      dataSource.GetUserIds()
    }

    /** `find_records_by_id(user_id)`: `index.get(user_id, [])`, which is the user's records
        in file order, and nothing for a user that is not in the file. */
    function FindRecordsById(userId: int): (rs: seq<RS.Record>)
      requires Valid()
      ensures rs == RS.RecordsOf(records, userId)
      ensures userId !in RS.UserIdSet(records) ==> rs == []
    {
      if userId in index then index[userId] else []
    }

    /** `filtered_by_id_time(user_id, start_date, finish_date)`, forwarded unchanged. */
    method FilteredByIdTime(userId: int, startDate: int, finishDate: int) returns (rs: seq<RS.Record>)
      ensures userId in dataSource.indexTimestamp ==>
        rs == RS.InDateRange(dataSource.indexTimestamp[userId], dataSource.utcOffset, startDate, finishDate)
      ensures userId !in dataSource.indexTimestamp ==> rs == []
    {
      rs := dataSource.FilterRecordsByUserDate(userId, startDate, finishDate);
    }

    /** `filtered_by_shift_time(shift, start_date, finish_date)`: the store's
        `filter_by_date_and_shift(start_date, finish_date, shift)`, with the arguments
        reordered and otherwise unchanged. */
    method FilteredByShiftTime(shift: string, startDate: int, finishDate: int, shifts: map<string, (string, string)>)
      returns (r: Result<seq<RS.Record>>)
      ensures r == dataSource.ShiftQuery(startDate, finishDate, shift, shifts)
    {
      r := dataSource.FilterByDateAndShift(startDate, finishDate, shift, shifts);
    }

    /** `get_all_emotions()`: the store's emotion vocabulary. */
    method GetAllEmotions() returns (r: Result<seq<string>>)
      ensures r.Err? <==> RS.HasBlankLabel(dataSource.data)
      ensures r.Err? ==> r.error == AttributeError
      ensures r.Ok? ==> Sorting.StrictlySorted(Strings.Less, r.value)
      ensures r.Ok? ==> forall w :: w in r.value <==> RS.IsVocabularyWord(dataSource.data, w)
    {
      r := dataSource.GetEmotions();
    }
  }

  /** One entry of an options list: what the front end shows and what it sends back. */
  datatype Choice = Choice(caption: string, value: string)

  /** `TimeModel().get_time_options()`. */
  const TimeOptions: seq<Choice> := [
    Choice("15 días", "15d"),
    Choice("1 mes", "1m"),
    Choice("3 meses", "3m"),
    Choice("1 año", "1y")
  ]

  const SecondsPerDay: int := 86400

  /** `TimeModel().get_time_range(option)`: from `now` minus the option's number of days up
      to `now`; an option that is not one of the five raises `ValueError`. */
  function GetTimeRange(option: string, now: int): (r: Result<(int, int)>)
    ensures r.Ok? <==> option in {"15d", "1m", "3m", "6m", "1y"}
    ensures r.Ok? ==> r.value.1 == now && r.value.0 < now && (now - r.value.0) % SecondsPerDay == 0
    ensures r.Err? ==> r.error.ValueError?
  {
    var days :=
      if option == "15d" then 15
      else if option == "1m" then 30
      else if option == "3m" then 90
      else if option == "6m" then 180
      else if option == "1y" then 365
      else 0;
    if days == 0 then Err(ValueError("Opción no válida"))
    else Ok((now - days * SecondsPerDay, now))
  }

  /** The length in days of each option's range. */
  lemma TimeRangeDays(now: int)
    ensures GetTimeRange("15d", now) == Ok((now - 15 * SecondsPerDay, now))
    ensures GetTimeRange("1m", now) == Ok((now - 30 * SecondsPerDay, now))
    ensures GetTimeRange("3m", now) == Ok((now - 90 * SecondsPerDay, now))
    ensures GetTimeRange("6m", now) == Ok((now - 180 * SecondsPerDay, now))
    ensures GetTimeRange("1y", now) == Ok((now - 365 * SecondsPerDay, now))
  {
  }

  /** Every option offered by `get_time_options` is resolved by `get_time_range`; "6m" is
      resolved too although it is not offered. */
  lemma OfferedOptionsResolve(now: int)
    ensures forall i | 0 <= i < |TimeOptions| :: GetTimeRange(TimeOptions[i].value, now).Ok?
    ensures GetTimeRange("6m", now).Ok? && forall i | 0 <= i < |TimeOptions| :: TimeOptions[i].value != "6m"
  {
  }

  /** The configured shifts in configuration order: each name with its "HH:MM" start and end. */
  type ShiftConfig = seq<(string, (string, string))>

  /** The configuration as the dictionary the store looks shifts up in. */
  function ShiftTable(config: ShiftConfig): (table: map<string, (string, string)>)
    ensures table.Keys == set i | 0 <= i < |config| :: config[i].0
  {
    if config == [] then map[]
    else
      var n := |config| - 1;
      ShiftTable(config[..n])[config[n].0 := config[n].1]
  }

  /** A JSON object has each key once. */
  predicate DistinctNames(config: ShiftConfig) {
    forall i, j | 0 <= i < j < |config| :: config[i].0 != config[j].0
  }

  /** `ShiftModel().get_shifts()`: one option per configured shift, in order, whose value is
      the shift's name and whose label is the capitalised name followed by its times. */
  function GetShifts(config: ShiftConfig): (options: seq<Choice>)
    ensures |options| == |config|
    ensures forall i | 0 <= i < |config| ::
      && options[i].value == config[i].0
      && options[i].caption == Capitalize(config[i].0) + " (" + config[i].1.0 + " - " + config[i].1.1 + ")"
  {
    seq(|config|, i requires 0 <= i < |config| =>
      Choice(Capitalize(config[i].0) + " (" + config[i].1.0 + " - " + config[i].1.1 + ")", config[i].0))
  }

  /** With distinct names, a shift's entry in the table is its configured pair of times. */
  lemma {:induction false} ShiftTableLookup(config: ShiftConfig, i: int)
    requires DistinctNames(config) && 0 <= i < |config|
    ensures config[i].0 in ShiftTable(config) && ShiftTable(config)[config[i].0] == config[i].1
  {
    var n := |config| - 1;
    if i < n {
      ShiftTableLookup(config[..n], i);
    }
  }

  /** Every offered shift is known to the store: a date-and-shift query on an offered value
      can fail only on an unreadable time, never with "No existe ese turno". */
  lemma OfferedShiftsAreKnown(config: ShiftConfig, i: int, store: RS.RecordDataCSV, start: int, end: int)
    requires DistinctNames(config) && 0 <= i < |config|
    ensures GetShifts(config)[i].value in ShiftTable(config)
    ensures store.ShiftQuery(start, end, GetShifts(config)[i].value, ShiftTable(config)).Err? ==>
      RS.ParseTime(config[i].1.0).Err? || RS.ParseTime(config[i].1.1).Err?
  {
    ShiftTableLookup(config, i);
    store.ShiftQueryMembers(start, end, config[i].0, ShiftTable(config), RS.Record(0, 0, RS.Absent, RS.Absent, RS.Absent));
  }

  function IsLeap(year: int): bool {
    year % 4 == 0 && (year % 100 != 0 || year % 400 == 0)
  }

  function DaysInMonth(year: int, month: int): int
    requires 1 <= month <= 12
  {
    if month == 2 then (if IsLeap(year) then 29 else 28)
    else if month in {4, 6, 9, 11} then 30
    else 31
  }

  /** Days of the year before the first of `month`. */
  function DaysBeforeMonth(year: int, month: int): int
    requires 1 <= month <= 12
  {
    [0, 31, 59, 90, 120, 151, 181, 212, 243, 273, 304, 334][month - 1] + (if month > 2 && IsLeap(year) then 1 else 0)
  }

  /** `date(year, month, day).toordinal()`: day 1 is 0001-01-01 of the proleptic Gregorian
      calendar. */
  function Ordinal(year: int, month: int, day: int): int
    requires 1 <= month <= 12
  {
    var y := year - 1;
    y * 365 + y / 4 - y / 100 + y / 400 + DaysBeforeMonth(year, month) + day
  }

  /** A date `datetime` accepts. */
  predicate ValidDate(year: int, month: int, day: int) {
    1 <= year <= 9999 && 1 <= month <= 12 && 1 <= day <= DaysInMonth(year, month)
  }

  /** The calendar day after a valid date. */
  function NextDay(year: int, month: int, day: int): (int, int, int)
    requires ValidDate(year, month, day)
  {
    if day < DaysInMonth(year, month) then (year, month, day + 1)
    else if month < 12 then (year, month + 1, 1)
    else (year + 1, 1, 1)
  }

  /** Calendar days are numbered without gaps: the next day has the next ordinal. */
  lemma OrdinalCountsDays(year: int, month: int, day: int)
    requires ValidDate(year, month, day)
    ensures var (y, m, d) := NextDay(year, month, day);
      1 <= m <= 12 && Ordinal(y, m, d) == Ordinal(year, month, day) + 1
  {
    if day < DaysInMonth(year, month) {
    } else if month < 12 {
      MonthStep(year, month);
    } else {
      YearStep(year);
    }
  }

  /** The first of the next month follows the last day of a month other than December. */
  lemma MonthStep(year: int, month: int)
    requires 1 <= month < 12
    ensures DaysBeforeMonth(year, month + 1) == DaysBeforeMonth(year, month) + DaysInMonth(year, month)
  {
  }

  /** New Year's Day follows December 31st. */
  lemma YearStep(year: int)
    ensures Ordinal(year + 1, 1, 1) == Ordinal(year, 12, 31) + 1
  {
    LeapDayCounts(year - 1);
  }

  /** Passing from `y` to `y + 1` years adds one to each leap-day count whose divisor
      divides `y + 1`. */
  lemma LeapDayCounts(y: int)
    ensures (y + 1) / 4 - y / 4 == (if (y + 1) % 4 == 0 then 1 else 0)
    ensures (y + 1) / 100 - y / 100 == (if (y + 1) % 100 == 0 then 1 else 0)
    ensures (y + 1) / 400 - y / 400 == (if (y + 1) % 400 == 0 then 1 else 0)
  {
  }

  /** The ordinal of 1970-01-01, the day naive datetimes count from here. */
  const EpochOrdinal: int := 719163

  lemma EpochOrdinalIsNewYear1970()
    ensures Ordinal(1970, 1, 1) == EpochOrdinal
  {
  }

  /** Midnight at the start of a date, in seconds since 1970-01-01 00:00. */
  function Midnight(year: int, month: int, day: int): int
    requires 1 <= month <= 12
  {
    (Ordinal(year, month, day) - EpochOrdinal) * SecondsPerDay
  }

  /** The text `%d` matches: one or two digits, or a space and a digit from 1 to 9. */
  predicate DayField(ds: string) {
    (1 <= |ds| <= 2 && AllDigits(ds)) || (|ds| == 2 && ds[0] == ' ' && '1' <= ds[1] <= '9')
  }

  /** The day a `%d` field names. */
  function DayValue(ds: string): (day: nat)
    requires DayField(ds)
    ensures ds[0] == ' ' ==> 1 <= day <= 9 && day == ds[1] as int - '0' as int
    ensures ds[0] != ' ' ==> AllDigits(ds) && day == DigitsValue(ds)
  {
    if ds[0] == ' ' then ds[1] as int - '0' as int else DigitsValue(ds)
  }

  /** `datetime.strptime(s, "%Y-%m-%d")`: four digits of year, one or two of month, one or
      two of day or a space and one digit, separated by '-', naming a real date; anything
      else raises `ValueError`. */
  function ParseDate(s: string): (r: Result<int>)
    ensures r.Ok? ==> exists year, month, day | ValidDate(year, month, day) :: r.value == Midnight(year, month, day)
    ensures r.Err? ==> r.error.ValueError?
  {
    var parts := Split(s, '-');
    if |parts| != 3 then Err(ValueError("does not match format '%Y-%m-%d'"))
    else
      var (ys, ms, ds) := (parts[0], parts[1], parts[2]);
      if !(|ys| == 4 && 1 <= |ms| <= 2 && AllDigits(ys) && AllDigits(ms) && DayField(ds)) then
        Err(ValueError("does not match format '%Y-%m-%d'"))
      else
        var (year, month, day) := (DigitsValue(ys), DigitsValue(ms), DayValue(ds));
        if !(1 <= month <= 12 && 1 <= day <= 31) then Err(ValueError("does not match format '%Y-%m-%d'"))
        else if !ValidDate(year, month, day) then Err(ValueError("day is out of range for month"))
        else Ok(Midnight(year, month, day))
  }

  /** A date written as YYYY-MM-DD is read back as midnight of that date. */
  lemma ParseDateReadsDate(year: nat, month: nat, day: nat)
    requires ValidDate(year, month, day)
    ensures ParseDate(PadDigits(year, 4) + "-" + PadDigits(month, 2) + "-" + PadDigits(day, 2)) == Ok(Midnight(year, month, day))
  {
    var ys, ms, ds := PadDigits(year, 4), PadDigits(month, 2), PadDigits(day, 2);
    var s := ys + "-" + ms + "-" + ds;
    assert '-' !in ys && '-' !in ms && '-' !in ds;
    assert Split(s, '-') == [ys, ms, ds] by {
      assert s == ys + ['-'] + (ms + ['-'] + ds);
      SplitAt(ys, '-', ms + ['-'] + ds);
      SplitAt(ms, '-', ds);
      SplitNoSeparator(ds, '-');
    }
    PadDigitsValue(year, 4);
    PadDigitsValue(month, 2);
    PadDigitsValue(day, 2);
    ParseDateOfParts(s, ys, ms, ds, year, month, day);
  }

  /** Parts that match the three fields and name a real date parse to its midnight. */
  lemma ParseDateOfParts(s: string, ys: string, ms: string, ds: string, year: int, month: int, day: int)
    requires Split(s, '-') == [ys, ms, ds] && |ys| == 4 && |ms| == 2 && |ds| == 2
    requires AllDigits(ys) && AllDigits(ms) && DayField(ds)
    requires DigitsValue(ys) == year && DigitsValue(ms) == month && DayValue(ds) == day
    requires ValidDate(year, month, day)
    ensures ParseDate(s) == Ok(Midnight(year, month, day))
  {
  }

  /** A day written as a space and one digit, which `%d` accepts, is read as that day. */
  lemma ParseDateSpacePaddedDay(year: nat, month: nat, day: nat)
    requires ValidDate(year, month, day) && day <= 9
    ensures ParseDate(PadDigits(year, 4) + "-" + PadDigits(month, 2) + "-" + [' ', ('0' as int + day) as char])
      == Ok(Midnight(year, month, day))
  {
    var ys, ms, ds := PadDigits(year, 4), PadDigits(month, 2), [' ', ('0' as int + day) as char];
    var s := ys + "-" + ms + "-" + ds;
    assert '-' !in ys && '-' !in ms && '-' !in ds;
    assert Split(s, '-') == [ys, ms, ds] by {
      assert s == ys + ['-'] + (ms + ['-'] + ds);
      SplitAt(ys, '-', ms + ['-'] + ds);
      SplitAt(ms, '-', ds);
      SplitNoSeparator(ds, '-');
    }
    PadDigitsValue(year, 4);
    PadDigitsValue(month, 2);
    ParseDateOfParts(s, ys, ms, ds, year, month, day);
  }

  /** `date_range(time_option, start_date, end_date)`: a given time option decides the range;
      otherwise two given dates are parsed; otherwise there is no range. */
  function DateRange(timeOption: Option<string>, startDate: Option<string>, endDate: Option<string>, now: int)
    : (r: Result<(Option<int>, Option<int>)>)
    ensures r.Err? ==> r.error.ValueError?
    ensures Truthy(timeOption) ==> (r.Ok? <==> GetTimeRange(timeOption.value, now).Ok?)
    ensures Truthy(timeOption) && r.Ok? ==>
      r.value == (Some(GetTimeRange(timeOption.value, now).value.0), Some(now))
    ensures !Truthy(timeOption) && !(Truthy(startDate) && Truthy(endDate)) ==> r == Ok((None, None))
  {
    if Truthy(timeOption) then
      var range :- GetTimeRange(timeOption.value, now);
      Ok((Some(range.0), Some(range.1)))
    else if Truthy(startDate) && Truthy(endDate) then
      var start :- ParseDate(startDate.value);
      var end :- ParseDate(endDate.value);
      Ok((Some(start), Some(end)))
    else Ok((None, None))
  }

  /** The test's "1m" option reaches 30 days back, whatever dates are given beside it. */
  lemma MonthOptionReachesThirtyDaysBack(startDate: Option<string>, endDate: Option<string>, now: int)
    ensures DateRange(Some("1m"), startDate, endDate, now) == Ok((Some(now - 30 * SecondsPerDay), Some(now)))
  {
    TimeRangeDays(now);
  }

  /** A given time option takes precedence: the explicit dates are then not looked at. */
  lemma TimeOptionWins(timeOption: Option<string>, startDate: Option<string>, endDate: Option<string>,
                       otherStart: Option<string>, otherEnd: Option<string>, now: int)
    requires Truthy(timeOption)
    ensures DateRange(timeOption, startDate, endDate, now) == DateRange(timeOption, otherStart, otherEnd, now)
    ensures DateRange(timeOption, startDate, endDate, now).Ok? <==> GetTimeRange(timeOption.value, now).Ok?
  {
  }

  /** Without a time option, two explicit dates give midnight of each. */
  lemma ExplicitDatesAreMidnights(y1: nat, m1: nat, d1: nat, y2: nat, m2: nat, d2: nat, now: int)
    requires ValidDate(y1, m1, d1) && ValidDate(y2, m2, d2)
    ensures DateRange(None, Some(PadDigits(y1, 4) + "-" + PadDigits(m1, 2) + "-" + PadDigits(d1, 2)),
                      Some(PadDigits(y2, 4) + "-" + PadDigits(m2, 2) + "-" + PadDigits(d2, 2)), now)
      == Ok((Some(Midnight(y1, m1, d1)), Some(Midnight(y2, m2, d2))))
  {
    ParseDateReadsDate(y1, m1, d1);
    ParseDateReadsDate(y2, m2, d2);
  }
}
