/** The worker register (app/persistance/worker_persistance.py): the class
    `WorkersDataCSV` reads, searches, appends to and rewrites a semicolon-separated
    file whose first line names the columns.

    The file is the field `file`: `None` when it does not exist, otherwise its lines,
    each already split into cells. `csv.DictReader` turns every non-blank line after
    the first into a dictionary from column name to cell, with `None` for the columns
    a short line lacks and the cells a long line has past the last column under the
    key `None`; `csv.DictWriter` writes a dictionary back as the cells of the named
    columns, `None` and absent keys as empty text, and refuses a dictionary with a key
    it was not told about, the key `None` included. */
module WorkerPersistence {
  import opened Common
  import opened Strings

  /** One line of the file, split on ';'. */
  type Line = seq<string>

  /** One dictionary of `csv.DictReader`: `cells` maps each column name to its cell, `None`
      for a cell the line lacks; `rest` is the entry under the key `None`, the cells past the
      last column, present only for a line with more cells than columns. */
  datatype Row = Row(cells: map<string, Option<string>>, rest: Option<seq<string>>)

  /** `dict(zip(fieldnames, line))`, then `None` for the columns past the end of the line;
      a column named twice keeps its last cell. */
  function CellsOf(header: Line, line: Line): (cells: map<string, Option<string>>)
    ensures cells.Keys == set h | h in header
  {
    if header == [] then map[]
    else
      var n := |header| - 1;
      var front := CellsOf(header[..n], line);
      assert forall h :: h in header <==> h in header[..n] || h == header[n];
      front[header[n] := if n < |line| then Some(line[n]) else None]
  }

  /** The dictionary of one line: its cells by column, and the cells past the last column
      under `None` when there are any. */
  function RowOf(header: Line, line: Line): (row: Row)
    ensures row.cells.Keys == set h | h in header
    ensures row.rest.Some? <==> |header| < |line|
    ensures row.rest.Some? ==> row.rest.value == line[|header|..] && row.rest.value != []
  {
    Row(CellsOf(header, line), if |header| < |line| then Some(line[|header|..]) else None)
  }

  /** A line that `DictReader` turns into a dictionary: any but a blank one. */
  predicate NonBlank(line: Line) {
    line != []
  }

  /** The dictionaries of the lines after the header, skipping blank lines. */
  function DictRows(header: Line, lines: seq<Line>): (rows: seq<Row>)
    ensures |rows| <= |lines|
    ensures forall i | 0 <= i < |rows| :: exists j | 0 <= j < |lines| :: lines[j] != [] && rows[i] == RowOf(header, lines[j])
  {
    if lines == [] then []
    else
      var n := |lines| - 1;
      var front := DictRows(header, lines[..n]);
      assert forall j | 0 <= j < n :: lines[..n][j] == lines[j];
      front + (if lines[n] == [] then [] else [RowOf(header, lines[n])])
  }

  /** Every non-blank line yields one dictionary, and the dictionaries keep the order of
      their lines. */
  lemma {:induction false} DictRowsInFileOrder(header: Line, lines: seq<Line>)
    ensures var p := Positions(lines, NonBlank);
      var rows := DictRows(header, lines);
      |rows| == |p| && forall k | 0 <= k < |p| :: rows[k] == RowOf(header, lines[p[k]])
  {
    if lines != [] {
      DictRowsInFileOrder(header, lines[..|lines| - 1]);
      InOrderStep(lines, NonBlank, (line: Line) => RowOf(header, line), DictRows(header, lines[..|lines| - 1]));
    }
  }

  /** `reader.fieldnames`: the first line (an empty file has no columns). */
  function Header(lines: seq<Line>): Line {
    if lines == [] then [] else lines[0]
  }

  /** Everything `csv.DictReader` yields for the file. */
  function Rows(lines: seq<Line>): seq<Row> {
    if lines == [] then [] else DictRows(lines[0], lines[1..])
  }

  /** Every row read has exactly the header's columns as its named keys, and carries cells
      under `None` exactly when its line is longer than the header. */
  lemma RowsHaveHeaderColumns(lines: seq<Line>)
    ensures forall i | 0 <= i < |Rows(lines)| :: Rows(lines)[i].cells.Keys == set h | h in Header(lines)
    ensures forall i | 0 <= i < |Rows(lines)| :: Rows(lines)[i].rest.Some? ==>
      exists j | 1 <= j < |lines| :: |Header(lines)| < |lines[j]| && Rows(lines)[i].rest.value == lines[j][|Header(lines)|..]
  {
    if lines != [] {
      var rows := Rows(lines);
      forall i | 0 <= i < |rows|
        ensures rows[i].cells.Keys == set h | h in Header(lines)
        ensures rows[i].rest.Some? ==>
          exists j | 1 <= j < |lines| :: |Header(lines)| < |lines[j]| && rows[i].rest.value == lines[j][|Header(lines)|..]
      {
        var j :| 0 <= j < |lines[1..]| && lines[1..][j] != [] && rows[i] == RowOf(lines[0], lines[1..][j]);
        assert lines[1..][j] == lines[j + 1];
      }
    }
  }

  /** `DictWriter.writerow` accepts a dictionary only when every key is a column: it has no
      cells under `None` and no name outside `fieldnames`. */
  predicate Writable(fieldnames: Line, row: Row) {
    row.rest.None? && forall k | k in row.cells :: k in fieldnames
  }

  /** A line with more cells than the header reads as a row the writer refuses. */
  lemma LongLineIsRefused(header: Line, line: Line)
    requires |header| < |line|
    ensures !Writable(header, RowOf(header, line))
  {
  }

  /** The cells `DictWriter.writerow` writes: each column's value, empty for `None` or a
      missing key. */
  function LineOf(fieldnames: Line, row: Row): (line: Line)
    ensures |line| == |fieldnames|
    ensures forall i | 0 <= i < |fieldnames| ::
      line[i] == if fieldnames[i] in row.cells then row.cells[fieldnames[i]].GetOr("") else ""
  {
    seq(|fieldnames|, i requires 0 <= i < |fieldnames| =>
      if fieldnames[i] in row.cells then row.cells[fieldnames[i]].GetOr("") else "")
  }

  /** A row of the register, with the dates still as text. */
  datatype Worker = Worker(id: Option<string>, workstation: Option<string>, hiringDate: Option<string>,
                           rol: Option<string>, registerDate: Option<string>)

  /** The `Worker(...)` built from one row: `KeyError` for the first of the five columns the
      row lacks; an empty `rol` or `register_date` becomes `None`. */
  function WorkerOf(row: Row): (r: Result<Worker>)
    ensures var c := row.cells;
      r.Ok? <==> "id" in c && "workstation" in c && "hiring_date" in c && "rol" in c && "register_date" in c
    ensures r.Err? ==> r.error.KeyError?
    ensures r.Ok? ==> (r.value.id == row.cells["id"] && r.value.workstation == row.cells["workstation"]
      && r.value.hiringDate == row.cells["hiring_date"])
    ensures r.Ok? ==> (r.value.rol.None? <==> !Truthy(row.cells["rol"])) && (r.value.rol.Some? ==> r.value.rol == row.cells["rol"])
    ensures r.Ok? ==> ((r.value.registerDate.None? <==> !Truthy(row.cells["register_date"]))
      && (r.value.registerDate.Some? ==> r.value.registerDate == row.cells["register_date"]))
  {
    var c := row.cells;
    if "id" !in c then Err(KeyError("id"))
    else if "workstation" !in c then Err(KeyError("workstation"))
    else if "hiring_date" !in c then Err(KeyError("hiring_date"))
    else if "rol" !in c then Err(KeyError("rol"))
    else if "register_date" !in c then Err(KeyError("register_date"))
    else
      Ok(Worker(c["id"], c["workstation"], c["hiring_date"],
                if Truthy(c["rol"]) then c["rol"] else None,
                if Truthy(c["register_date"]) then c["register_date"] else None))
  }

  /** A row `get_workers_no_role` lists: it has a `rol` column whose cell is missing or
      blank. */
  predicate HasNoRole(row: Row) {
    "rol" in row.cells && (row.cells["rol"].None? || Strip(row.cells["rol"].value) == "")
  }

  /** The ids `get_workers_no_role` collects, in file order; `KeyError` when a listed row has
      no `id` column. */
  function NoRoleIds(rows: seq<Row>): (r: Result<seq<Option<string>>>)
    ensures r.Ok? ==> |r.value| <= |rows|
    ensures r.Err? ==> r.error == KeyError("id")
  {
    if rows == [] then Ok([])
    else
      var n := |rows| - 1;
      var front :- NoRoleIds(rows[..n]);
      if !HasNoRole(rows[n]) then Ok(front)
      else if "id" !in rows[n].cells then Err(KeyError("id"))
      else Ok(front + [rows[n].cells["id"]])
  }

  /** `get_workers_no_role` answers exactly when every row without a role has an `id`
      column; it then lists their ids, one per such row, in file order. */
  lemma {:induction false} NoRoleIdsInFileOrder(rows: seq<Row>)
    ensures NoRoleIds(rows).Ok? <==> forall i | 0 <= i < |rows| && HasNoRole(rows[i]) :: "id" in rows[i].cells
    ensures NoRoleIds(rows).Ok? ==>
      var p := Positions(rows, HasNoRole);
      var ids := NoRoleIds(rows).value;
      |ids| == |p| && forall k | 0 <= k < |p| :: ids[k] == rows[p[k]].cells["id"]
  {
    if rows != [] {
      var n := |rows| - 1;
      NoRoleIdsInFileOrder(rows[..n]);
      assert forall i | 0 <= i < n :: rows[..n][i] == rows[i];
    }
  }

  /** Once a prefix of the rows raises, so does the whole: the loop stops at the first error. */
  lemma {:induction false} NoRoleIdsStops(rows: seq<Row>, i: nat)
    requires i <= |rows| && NoRoleIds(rows[..i]).Err?
    ensures NoRoleIds(rows) == NoRoleIds(rows[..i])
    decreases |rows| - i
  {
    if i < |rows| {
      assert rows[..i + 1][..i] == rows[..i];
      NoRoleIdsStops(rows, i + 1);
    } else {
      assert rows[..i] == rows;
    }
  }

  /** When every row has an `id` column, the ids listed are exactly those of the rows with
      no role. */
  lemma {:induction false} NoRoleIdsMembers(rows: seq<Row>, x: Option<string>)
    requires forall i | 0 <= i < |rows| :: "id" in rows[i].cells
    ensures NoRoleIds(rows).Ok?
    ensures x in NoRoleIds(rows).value <==> exists i | 0 <= i < |rows| :: HasNoRole(rows[i]) && rows[i].cells["id"] == x
  {
    if rows != [] {
      var n := |rows| - 1;
      NoRoleIdsMembers(rows[..n], x);
      assert forall i | 0 <= i < n :: rows[..n][i] == rows[i];
      if exists i | 0 <= i < |rows| :: HasNoRole(rows[i]) && rows[i].cells["id"] == x {
        var i :| 0 <= i < |rows| && HasNoRole(rows[i]) && rows[i].cells["id"] == x;
        if i < n {
          assert rows[..n][i] == rows[i];
        }
      }
    }
  }

  /** The row `update_worker` and `find_worker_by_id` look for. */
  predicate HasId(row: Row, workerId: string) {
    "id" in row.cells && row.cells["id"] == Some(workerId)
  }

  /** The row `update_worker` leaves in memory: a matching row gets the new role and register
      date, its other cells and its cells under `None` kept; any other row is kept as read. */
  function Updated(row: Row, workerId: string, rol: string, registerDate: string): (u: Row)
    ensures !HasId(row, workerId) ==> u == row
    ensures HasId(row, workerId) ==> (u.cells.Keys == row.cells.Keys + {"rol", "register_date"}
      && u.cells["rol"] == Some(rol) && u.cells["register_date"] == Some(registerDate)
      && u.rest == row.rest
      && forall k | k in row.cells && k != "rol" && k != "register_date" :: u.cells[k] == row.cells[k])
  {
    if HasId(row, workerId) then row.(cells := row.cells["rol" := Some(rol)]["register_date" := Some(registerDate)]) else row
  }

  /** The rows `update_worker` holds after its loop, in file order. */
  function UpdatedRows(rows: seq<Row>, workerId: string, rol: string, registerDate: string): (updated: seq<Row>)
    ensures |updated| == |rows|
    ensures forall i | 0 <= i < |rows| :: updated[i] == Updated(rows[i], workerId, rol, registerDate)
  {
    seq(|rows|, i requires 0 <= i < |rows| => Updated(rows[i], workerId, rol, registerDate))
  }

  /** Rows the rewrite puts back, one line each, in order. */
  function LinesOf(fieldnames: Line, rows: seq<Row>): (lines: seq<Line>)
    ensures |lines| == |rows|
    ensures forall i | 0 <= i < |rows| :: lines[i] == LineOf(fieldnames, rows[i])
  {
    seq(|rows|, i requires 0 <= i < |rows| => LineOf(fieldnames, rows[i]))
  }

  /** The columns the register is written with by `insert_worker`. */
  const InsertFields: Line := ["id", "workstation", "date_contratation", "rol", "register_date"]

  class WorkersDataCSV {
    const filePath: string
    var file: Option<seq<Line>>

    constructor (filePath: string, file: Option<seq<Line>>)
      ensures this.filePath == filePath && this.file == file
    {
      this.filePath := filePath;
      this.file := file;
    }

    /** `read_workers()`: one worker per row in file order, `[]` when the file does not
        exist, and the `KeyError` of the first row that lacks a column. */
    method ReadWorkers() returns (r: Result<seq<Worker>>)
      ensures file.None? ==> r == Ok([])
      ensures file.Some? ==>
        var rows := Rows(file.value);
        && (r.Ok? <==> forall i | 0 <= i < |rows| :: WorkerOf(rows[i]).Ok?)
        && (r.Ok? ==> |r.value| == |rows| && forall i | 0 <= i < |rows| :: r.value[i] == WorkerOf(rows[i]).value)
        && (r.Err? ==> exists i | 0 <= i < |rows| :: WorkerOf(rows[i]).Err? && r.error == WorkerOf(rows[i]).error)
    {
      if file.None? {
        return Ok([]);
      }
      var rows := Rows(file.value);
      var workers: seq<Worker> := [];
      for i := 0 to |rows|
        invariant |workers| == i && forall j | 0 <= j < i :: WorkerOf(rows[j]).Ok? && workers[j] == WorkerOf(rows[j]).value
      {
        var worker := WorkerOf(rows[i]);
        if worker.Err? {
          return Err(worker.error);
        }
        workers := workers + [worker.value];
      }
      return Ok(workers);
    }

    /** `get_workers_no_role()`: the ids of the rows with no role, in file order;
        `FileNotFoundError` when there is no file. */
    method GetWorkersNoRole() returns (r: Result<seq<Option<string>>>)
      ensures file.None? ==> r == Err(FileNotFoundError)
      ensures file.Some? ==> r == NoRoleIds(Rows(file.value))
    {
      if file.None? {
        return Err(FileNotFoundError);
      }
      var rows := Rows(file.value);
      var ids: seq<Option<string>> := [];
      for i := 0 to |rows|
        invariant NoRoleIds(rows[..i]) == Ok(ids)
      {
        assert rows[..i + 1][..i] == rows[..i];
        var row := rows[i];
        if "rol" in row.cells && (row.cells["rol"].None? || Strip(row.cells["rol"].value) == "") {
          if "id" !in row.cells {
            NoRoleIdsStops(rows, i + 1);
            return Err(KeyError("id"));
          }
          ids := ids + [row.cells["id"]];
        }
      }
      assert rows[..|rows|] == rows;
      return Ok(ids);
    }

    /** `find_worker_by_id(worker_id)`: the first row whose `id` is `worker_id`, or `None`;
        `FileNotFoundError` when there is no file. */
    method FindWorkerById(workerId: string) returns (r: Result<Option<Row>>)
      ensures file.None? <==> r == Err(FileNotFoundError)
      ensures r.Ok? ==> r.value == FirstWithId(Rows(file.value), workerId)
    {
      if file.None? {
        return Err(FileNotFoundError);
      }
      var rows := Rows(file.value);
      for i := 0 to |rows|
        invariant FirstWithId(rows, workerId) == FirstWithId(rows[i..], workerId)
      {
        assert rows[i..][1..] == rows[i + 1..];
        var row := rows[i];
        if "id" in row.cells {
          if row.cells["id"] == Some(workerId) {
            return Ok(Some(row));
          }
        }
      }
      return Ok(None);
    }

    /** `insert_worker(worker)` with `worker.to_dict()` given as `row`: the row is appended
        as one line in the columns of `InsertFields`; a key outside those columns raises
        `ValueError` and writes nothing. Opening for append creates a missing file, so a
        first insert makes its line the file's first line. */
    method InsertWorker(row: Row) returns (r: Result<()>)
      modifies this
      ensures r.Err? <==> !Writable(InsertFields, row)
      ensures r.Err? ==> r.error.ValueError?
      ensures var before := old(file).GetOr([]);
        file == Some(if r.Ok? then before + [LineOf(InsertFields, row)] else before)
    {
      var lines := if file.None? then [] else file.value;
      if row.rest.Some? || exists k | k in row.cells :: k !in InsertFields {
        file := Some(lines);
        return Err(ValueError("dict contains fields not in fieldnames"));
      }
      file := Some(lines + [LineOf(InsertFields, row)]);
      return Ok(());
    }

    /** `update_worker(worker_id, rol, register_date)`: sets the role and the register date
        on every row whose `id` is `worker_id` and answers whether any did; only then is the
        file truncated and rewritten, as its header and one line per row, until the writer
        refuses a row with `ValueError`. It refuses a row read from a line longer than the
        header, and an updated row when the header has no `rol` or no `register_date`
        column. */
    method UpdateWorker(workerId: string, rol: string, registerDate: string) returns (r: Result<bool>)
      modifies this
      ensures old(file).None? ==> r == Err(FileNotFoundError) && file == old(file)
      ensures old(file).Some? ==>
        var lines := old(file).value;
        var header := Header(lines);
        var rows := Rows(lines);
        var updated := UpdatedRows(rows, workerId, rol, registerDate);
        var matched := exists i | 0 <= i < |rows| :: HasId(rows[i], workerId);
        var columns := "rol" in header && "register_date" in header;
        && (!matched ==> r == Ok(false) && file == old(file))
        && (matched ==>
              && (r == Ok(true) <==> columns && forall i | 0 <= i < |rows| :: rows[i].rest.None?)
              && (r != Ok(true) ==> r.Err? && r.error.ValueError?)
              && file == Some([header] + LinesOf(header, updated[..FirstUnwritable(header, updated)])))
        && (matched && columns && (forall i | 0 <= i < |rows| :: rows[i].rest.None?) ==>
              file == Some([header] + LinesOf(header, updated)))
        && (matched && !columns && (forall i | 0 <= i < FirstIndexWithId(rows, workerId) :: rows[i].rest.None?) ==>
              file == Some([header] + LinesOf(header, rows[..FirstIndexWithId(rows, workerId)])))
    {
      if file.None? {
        return Err(FileNotFoundError);
      }
      var header := Header(file.value);
      var rows := Rows(file.value);
      var updated, modified := UpdateRows(rows, workerId, rol, registerDate);
      RowsHaveHeaderColumns(file.value);
      if modified {
        UpdatedRowsWritable(header, rows, updated, workerId, rol, registerDate);
        r := Rewrite(header, updated);
      } else {
        r := Ok(false);
      }
    }

    /** The loop of `update_worker`: each row is updated if its id matches and kept in order,
        and `modified` records whether any matched. */
    static method UpdateRows(rows: seq<Row>, workerId: string, rol: string, registerDate: string)
      returns (updated: seq<Row>, modified: bool)
      ensures updated == UpdatedRows(rows, workerId, rol, registerDate)
      ensures modified <==> exists i | 0 <= i < |rows| :: HasId(rows[i], workerId)
    {
      updated := [];
      modified := false;
      for i := 0 to |rows|
        invariant |updated| == i && forall j | 0 <= j < i :: updated[j] == Updated(rows[j], workerId, rol, registerDate)
        invariant modified <==> exists j | 0 <= j < i :: HasId(rows[j], workerId)
      {
        var row := rows[i];
        if "id" in row.cells && row.cells["id"] == Some(workerId) {
          row := row.(cells := row.cells["rol" := Some(rol)]);
          row := row.(cells := row.cells["register_date" := Some(registerDate)]);
          modified := true;
        }
        updated := updated + [row];
      }
    }

    /** Truncate the file and write the header, then each row until one has a key that is
        not a column. */
    method Rewrite(header: Line, rows: seq<Row>) returns (r: Result<bool>)
      modifies this
      ensures r == (if forall i | 0 <= i < |rows| :: Writable(header, rows[i]) then Ok(true)
                    else Err(ValueError("dict contains fields not in fieldnames")))
      ensures file == Some([header] + LinesOf(header, rows[..FirstUnwritable(header, rows)]))
    {
      var lines := [header];
      for i := 0 to |rows|
        invariant lines == [header] + LinesOf(header, rows[..i])
        invariant forall j | 0 <= j < i :: Writable(header, rows[j])
      {
        if rows[i].rest.Some? || exists k | k in rows[i].cells :: k !in header {
          file := Some(lines);
          FirstUnwritableIs(header, rows, i);
          return Err(ValueError("dict contains fields not in fieldnames"));
        }
        assert rows[..i + 1] == rows[..i] + [rows[i]];
        lines := lines + [LineOf(header, rows[i])];
      }
      file := Some(lines);
      FirstUnwritableIs(header, rows, |rows|);
      assert rows[..|rows|] == rows;
      return Ok(true);
    }
  }

  /** The first row with the id, as `find_worker_by_id` scans for it. */
  function FirstWithId(rows: seq<Row>, workerId: string): (r: Option<Row>)
    ensures r.None? <==> forall i | 0 <= i < |rows| :: !HasId(rows[i], workerId)
    ensures r.Some? ==> exists i | 0 <= i < |rows| ::
      && rows[i] == r.value && HasId(rows[i], workerId)
      && forall j | 0 <= j < i :: !HasId(rows[j], workerId)
  {
    if rows == [] then None
    else if HasId(rows[0], workerId) then Some(rows[0])
    else
      var rest := FirstWithId(rows[1..], workerId);
      assert forall i | 1 <= i < |rows| :: rows[i] == rows[1..][i - 1];
      rest
  }

  /** The position of the first row with the id, or the number of rows. */
  function FirstIndexWithId(rows: seq<Row>, workerId: string): (n: nat)
    ensures n <= |rows|
    ensures forall j | 0 <= j < n :: !HasId(rows[j], workerId)
    ensures n < |rows| ==> HasId(rows[n], workerId)
  {
    if rows == [] then 0
    else if HasId(rows[0], workerId) then 0
    else 1 + FirstIndexWithId(rows[1..], workerId)
  }

  /** The position of the first row the writer refuses, or the number of rows. */
  function FirstUnwritable(header: Line, rows: seq<Row>): (n: nat)
    ensures n <= |rows|
    ensures forall j | 0 <= j < n :: Writable(header, rows[j])
    ensures n < |rows| ==> !Writable(header, rows[n])
  {
    if rows == [] then 0
    else if !Writable(header, rows[0]) then 0
    else 1 + FirstUnwritable(header, rows[1..])
  }

  lemma FirstUnwritableIs(header: Line, rows: seq<Row>, n: nat)
    requires n <= |rows| && forall j | 0 <= j < n :: Writable(header, rows[j])
    requires n < |rows| ==> !Writable(header, rows[n])
    ensures FirstUnwritable(header, rows) == n
  {
  }

  /** Rows read from the file name exactly the header's columns, so an updated row can be
      written back exactly when it has no cells under `None` and, if its id matched, the
      header has `rol` and `register_date`. Hence all of them can be written exactly when
      the header has both columns and no line was longer than the header; without the
      columns, and with no long line before it, the first one refused is the first updated
      row. */
  lemma UpdatedRowsWritable(header: Line, rows: seq<Row>, updated: seq<Row>, workerId: string, rol: string, registerDate: string)
    requires forall i | 0 <= i < |rows| :: rows[i].cells.Keys == set h | h in header
    requires |updated| == |rows| && forall i | 0 <= i < |rows| :: updated[i] == Updated(rows[i], workerId, rol, registerDate)
    requires exists i | 0 <= i < |rows| :: HasId(rows[i], workerId)
    ensures forall i | 0 <= i < |rows| :: Writable(header, updated[i]) <==>
      rows[i].rest.None? && (HasId(rows[i], workerId) ==> "rol" in header && "register_date" in header)
    ensures ("rol" in header && "register_date" in header && forall i | 0 <= i < |rows| :: rows[i].rest.None?)
      <==> forall i | 0 <= i < |updated| :: Writable(header, updated[i])
    ensures "rol" in header && "register_date" in header && (forall i | 0 <= i < |rows| :: rows[i].rest.None?) ==>
      updated[..FirstUnwritable(header, updated)] == updated
    ensures (!("rol" in header && "register_date" in header)
             && forall i | 0 <= i < FirstIndexWithId(rows, workerId) :: rows[i].rest.None?) ==>
      updated[..FirstUnwritable(header, updated)] == rows[..FirstIndexWithId(rows, workerId)]
  {
    forall i | 0 <= i < |rows|
      ensures Writable(header, updated[i]) <==>
        rows[i].rest.None? && (HasId(rows[i], workerId) ==> "rol" in header && "register_date" in header)
    {
      UpdatedRowWritable(header, rows[i], workerId, rol, registerDate);
    }
    var first := FirstIndexWithId(rows, workerId);
    assert forall j | 0 <= j < first :: updated[j] == rows[j];
    WritableUpTo(header, rows, updated, workerId, first);
  }

  /** The cases of `UpdatedRowsWritable` once each row's writability is known, `first` is
      the first row with the id and the rows before it are unchanged. */
  lemma WritableUpTo(header: Line, rows: seq<Row>, updated: seq<Row>, workerId: string, first: nat)
    requires |updated| == |rows| && first < |rows| && HasId(rows[first], workerId)
    requires forall j | 0 <= j < first :: updated[j] == rows[j] && !HasId(rows[j], workerId)
    requires forall i | 0 <= i < |rows| :: Writable(header, updated[i]) <==>
      rows[i].rest.None? && (HasId(rows[i], workerId) ==> "rol" in header && "register_date" in header)
    ensures ("rol" in header && "register_date" in header && forall i | 0 <= i < |rows| :: rows[i].rest.None?)
      <==> forall i | 0 <= i < |updated| :: Writable(header, updated[i])
    ensures "rol" in header && "register_date" in header && (forall i | 0 <= i < |rows| :: rows[i].rest.None?) ==>
      updated[..FirstUnwritable(header, updated)] == updated
    ensures (!("rol" in header && "register_date" in header) && forall i | 0 <= i < first :: rows[i].rest.None?) ==>
      updated[..FirstUnwritable(header, updated)] == rows[..first]
  {
    var columns := "rol" in header && "register_date" in header;
    if !columns {
      assert !Writable(header, updated[first]);
    }
    if !columns && forall i | 0 <= i < first :: rows[i].rest.None? {
      FirstUnwritableIs(header, updated, first);
      assert updated[..first] == rows[..first];
    }
    if columns && forall i | 0 <= i < |rows| :: rows[i].rest.None? {
      FirstUnwritableIs(header, updated, |updated|);
      assert updated[..|updated|] == updated;
    }
  }

  /** One row read in the header's columns: updated, it can be written back exactly when it
      has no cells under `None` and, if its id matched, the header has `rol` and
      `register_date`. */
  lemma UpdatedRowWritable(header: Line, row: Row, workerId: string, rol: string, registerDate: string)
    requires row.cells.Keys == set h | h in header
    ensures Writable(header, Updated(row, workerId, rol, registerDate)) <==>
      row.rest.None? && (HasId(row, workerId) ==> "rol" in header && "register_date" in header)
  {
    if HasId(row, workerId) && !("rol" in header && "register_date" in header) {
      var u := Updated(row, workerId, rol, registerDate);
      assert "rol" in u.cells && "register_date" in u.cells;
    }
  }

  /** A dictionary written in the file's columns reads back as itself, each missing cell now
      empty text. */
  lemma {:induction false} RowOfWrittenLine(header: Line, line: Line, u: Row)
    requires forall h | h in header :: h in u.cells
    requires |header| <= |line| && forall i | 0 <= i < |header| :: line[i] == u.cells[header[i]].GetOr("")
    ensures forall k | k in header :: CellsOf(header, line)[k] == Some(u.cells[k].GetOr(""))
  {
    if header != [] {
      var n := |header| - 1;
      RowOfWrittenLine(header[..n], line, u);
      assert forall k | k in header :: k in header[..n] || k == header[n];
    }
  }

  /** A row as it reads back once written: every named key kept, a missing cell now empty
      text, and nothing under `None`. */
  function AsWritten(u: Row): (w: Row)
    ensures w.cells.Keys == u.cells.Keys && forall k | k in u.cells :: w.cells[k] == Some(u.cells[k].GetOr(""))
    ensures w.rest.None?
  {
    Row(map k | k in u.cells :: Some(u.cells[k].GetOr("")), None)
  }

  function AsWrittenRows(rows: seq<Row>): (ws: seq<Row>)
    ensures |ws| == |rows| && forall i | 0 <= i < |rows| :: ws[i] == AsWritten(rows[i])
  {
    if rows == [] then [] else
      var n := |rows| - 1;
      AsWrittenRows(rows[..n]) + [AsWritten(rows[n])]
  }

  /** Reading back the lines of the rewrite gives the rows `update_worker` held, in order, as
      written. */
  lemma {:induction false} WrittenRowsReadBack(header: Line, rows: seq<Row>)
    requires header != [] && forall i | 0 <= i < |rows| :: rows[i].cells.Keys == set h | h in header
    ensures DictRows(header, LinesOf(header, rows)) == AsWrittenRows(rows)
  {
    if rows != [] {
      var n := |rows| - 1;
      var lines := LinesOf(header, rows);
      WrittenRowsReadBack(header, rows[..n]);
      assert lines[..n] == LinesOf(header, rows[..n]);
      WrittenRowReadsBack(header, rows[n]);
      DictRowsLast(header, lines);
    }
  }

  lemma WrittenRowReadsBack(header: Line, row: Row)
    requires header != [] && row.cells.Keys == set h | h in header
    ensures LineOf(header, row) != [] && RowOf(header, LineOf(header, row)) == AsWritten(row)
  {
    var line := LineOf(header, row);
    assert |line| == |header|;
    RowOfWrittenLine(header, line, row);
  }

  lemma DictRowsLast(header: Line, lines: seq<Line>)
    requires lines != [] && lines[|lines| - 1] != []
    ensures DictRows(header, lines) == DictRows(header, lines[..|lines| - 1]) + [RowOf(header, lines[|lines| - 1])]
  {
  }

  /** The same, for the file as `update_worker` rewrites it: the header, then those lines. */
  lemma RewriteReadsBack(header: Line, rows: seq<Row>)
    requires header != [] && forall i | 0 <= i < |rows| :: rows[i].cells.Keys == set h | h in header
    ensures Rows([header] + LinesOf(header, rows)) == AsWrittenRows(rows)
  {
    assert ([header] + LinesOf(header, rows))[1..] == LinesOf(header, rows);
    WrittenRowsReadBack(header, rows);
  }

  /** Once the whole file is rewritten (an update that succeeds), a new lookup of the same
      non-empty id finds a row with the new role and register date. */
  lemma FindAfterUpdate(lines: seq<Line>, workerId: string, rol: string, registerDate: string)
    requires workerId != ""
    requires "rol" in Header(lines) && "register_date" in Header(lines)
    requires exists i | 0 <= i < |Rows(lines)| :: HasId(Rows(lines)[i], workerId)
    ensures var header := Header(lines);
      var found := FirstWithId(Rows([header] + LinesOf(header, UpdatedRows(Rows(lines), workerId, rol, registerDate))), workerId);
      && found.Some? && "rol" in found.value.cells && "register_date" in found.value.cells
      && found.value.cells["rol"] == Some(rol) && found.value.cells["register_date"] == Some(registerDate)
  {
    var header := Header(lines);
    var rows := Rows(lines);
    var updated := UpdatedRows(rows, workerId, rol, registerDate);
    RowsHaveHeaderColumns(lines);
    RewriteReadsBack(header, updated);
    var reread := Rows([header] + LinesOf(header, updated));
    ReadBackMatches(rows, updated, reread, workerId, rol, registerDate);
  }

  lemma ReadBackMatches(rows: seq<Row>, updated: seq<Row>, reread: seq<Row>, workerId: string, rol: string, registerDate: string)
    requires workerId != ""
    requires updated == UpdatedRows(rows, workerId, rol, registerDate)
    requires reread == AsWrittenRows(updated)
    requires exists i | 0 <= i < |rows| :: HasId(rows[i], workerId)
    ensures var found := FirstWithId(reread, workerId);
      && found.Some? && "rol" in found.value.cells && "register_date" in found.value.cells
      && found.value.cells["rol"] == Some(rol) && found.value.cells["register_date"] == Some(registerDate)
  {
    var i :| 0 <= i < |rows| && HasId(rows[i], workerId);
    ReadBackRow(rows, updated, reread, i, workerId, rol, registerDate);
    var found := FirstWithId(reread, workerId);
    assert found.Some?;
    var j :| 0 <= j < |reread| && reread[j] == found.value && HasId(reread[j], workerId);
    ReadBackRow(rows, updated, reread, j, workerId, rol, registerDate);
  }

  /** Row `i` of the rewritten file has the id exactly when row `i` of the file had it, and
      then it carries the new role and register date. */
  lemma ReadBackRow(rows: seq<Row>, updated: seq<Row>, reread: seq<Row>, i: nat, workerId: string, rol: string, registerDate: string)
    requires workerId != ""
    requires updated == UpdatedRows(rows, workerId, rol, registerDate)
    requires reread == AsWrittenRows(updated)
    requires i < |rows|
    ensures i < |reread| && (HasId(reread[i], workerId) <==> HasId(rows[i], workerId))
    ensures HasId(rows[i], workerId) ==>
      && "rol" in reread[i].cells && "register_date" in reread[i].cells
      && reread[i].cells["rol"] == Some(rol) && reread[i].cells["register_date"] == Some(registerDate)
  {
    assert reread[i] == AsWritten(Updated(rows[i], workerId, rol, registerDate));
    UpdatedReadsBack(rows[i], workerId, rol, registerDate);
  }

  /** One row through update and rewrite: it has the id afterwards exactly when it had it
      before, and then it carries the new role and register date. */
  lemma UpdatedReadsBack(row: Row, workerId: string, rol: string, registerDate: string)
    requires workerId != ""
    ensures var w := AsWritten(Updated(row, workerId, rol, registerDate));
      (HasId(w, workerId) <==> HasId(row, workerId))
      && (HasId(row, workerId) ==>
            "rol" in w.cells && "register_date" in w.cells && w.cells["rol"] == Some(rol) && w.cells["register_date"] == Some(registerDate))
  {
  }

  /** An insert into an existing file adds exactly one row, at the end, read in the file's own
      columns; the rows before it are unchanged. */
  lemma InsertAppendsOneRow(lines: seq<Line>, row: Row)
    requires lines != []
    ensures Rows(lines + [LineOf(InsertFields, row)]) == Rows(lines) + [RowOf(Header(lines), LineOf(InsertFields, row))]
  {
    var line := LineOf(InsertFields, row);
    assert (lines + [line])[1..] == lines[1..] + [line];
    assert (lines[1..] + [line])[..|lines[1..]|] == lines[1..];
    assert line != [] by {
      assert |line| == 5;
    }
  }

  /** A dictionary with a `hiring_date` key is refused: the writer's columns call that field
      `date_contratation`. */
  lemma HiringDateIsRefused(row: Row)
    requires "hiring_date" in row.cells
    ensures !Writable(InsertFields, row)
  {
  }
}
