/**
 * The row logic of `TaskService.js`: the sheet is the value
 * `getDataRange().getValues()` returns, a header row followed by one row
 * per task, and the service allocates IDs and display numbers over it,
 * finds the row of a task by its ID, and chooses what `saveTask` writes.
 * Column positions come from `CONFIG.COLUMNS`, which is not part of this
 * model: they are the parameter `cols`.
 */
module TaskService {
  import opened Wrappers
  import opened JsText

  /** A cell value as `getValues()` returns it: a number, a string, a boolean or a date (its time in ms). */
  datatype Cell = Num(n: int) | Str(s: string) | Flag(b: bool) | Date(ms: int)

  /** A sheet row, and the whole sheet: row 0 is the header. */
  type Row = seq<Cell>
  type Sheet = seq<Row>

  /** The zero-based positions of the columns the service reads. */
  datatype Columns = Columns(idCol: nat, noCol: nat, statusCol: nat, labelCol: nat)

  /** `row[col]`: `undefined` (None) past the end of the row. */
  function CellAt(row: Row, col: nat): (c: Option<Cell>)
    ensures c.Some? <==> col < |row|
  {
    if col < |row| then Some(row[col]) else None
  }

  /* ---------- JavaScript conversions and comparisons ---------- */

  /**
   * `Number(s)` for a string: surrounding whitespace is ignored, an empty
   * string is 0, an optionally signed run of decimal digits is its value,
   * anything else is NaN (None).
   */
  function StringToNumber(s: string): (r: Option<int>)
    ensures Trim(s) == "" ==> r == Some(0)
    ensures Trim(s) != "" && (forall k | 0 <= k < |Trim(s)| :: !IsDigit(Trim(s)[k])) ==> r.None?
    ensures r.Some? && r.value < 0 ==> Trim(s)[0] == '-'
  {
    var t := Trim(s);
    if t == "" then Some(0)
    else
      var signed := t[0] == '-' || t[0] == '+';
      var digits := if signed then t[1..] else t;
      if digits != [] && forall k | 0 <= k < |digits| :: IsDigit(digits[k]) then
        var v: int := DecimalValue(digits);
        Some(if t[0] == '-' then -v else v)
      else None
  }

  /** `Number(v)`; None stands for NaN. */
  function ToNumber(v: Option<Cell>): Option<int> {
    match v
    case None => None
    case Some(Num(n)) => Some(n)
    case Some(Str(s)) => StringToNumber(s)
    case Some(Flag(b)) => Some(if b then 1 else 0)
    case Some(Date(ms)) => Some(ms)
  }

  /** `Number(v) || 0`: NaN counts as 0. */
  function NumberOr0(v: Option<Cell>): int {
    ToNumber(v).GetOr(0)
  }

  /** JavaScript truthiness; `undefined` is falsy. */
  predicate Truthy(v: Option<Cell>) {
    match v
    case None => false
    case Some(Num(n)) => n != 0
    case Some(Str(s)) => s != ""
    case Some(Flag(b)) => b
    case Some(Date(_)) => true
  }

  /** `a === b`: same type and value; two date objects are never the same object. */
  predicate StrictEquals(a: Cell, b: Cell)
    ensures StrictEquals(a, b) <==> a == b && !a.Date?
  {
    match (a, b)
    case (Num(x), Num(y)) => x == y
    case (Str(x), Str(y)) => x == y
    case (Flag(x), Flag(y)) => x == y
    case _ => false
  }

  /** `a == n` for a number `n`. */
  predicate LooseEqualsNumber(a: Cell, n: int) {
    match a
    case Num(x) => x == n
    case Str(s) => StringToNumber(s) == Some(n)
    case Flag(b) => (if b then 1 else 0) == n
    case Date(_) => false
  }

  /**
   * `a == b`: a string meets a number or a boolean as a number, a boolean
   * meets anything as 0 or 1. A date is compared by identity with another
   * date and through its string form with anything else.
   */
  predicate LooseEquals(a: Cell, b: Cell)
    ensures StrictEquals(a, b) ==> LooseEquals(a, b)
    ensures a.Date? || b.Date? ==> !LooseEquals(a, b)
  {
    match (a, b)
    case (Num(x), Num(y)) => x == y
    case (Str(x), Str(y)) => x == y
    case (Flag(x), Flag(y)) => x == y
    case (Num(x), Str(_)) => LooseEqualsNumber(b, x)
    case (Str(_), Num(y)) => LooseEqualsNumber(a, y)
    case (Flag(x), _) => LooseEqualsNumber(b, if x then 1 else 0)
    case (_, Flag(y)) => LooseEqualsNumber(a, if y then 1 else 0)
    case _ => false
  }

  /* ---------- allocators ---------- */

  /** `Math.max(...xs)` of a non-empty list. */
  function Max(xs: seq<int>): (m: int)
    requires xs != []
    ensures m in xs
    ensures forall x | x in xs :: x <= m
  {
    if |xs| == 1 then xs[0]
    else
      var rest := Max(xs[1..]);
      assert forall x | x in xs :: x == xs[0] || x in xs[1..];
      if xs[0] >= rest then xs[0] else rest
  }

  /** The ID column of the data rows, read with `Number(…) || 0`. */
  function Ids(data: Sheet, cols: Columns): (ids: seq<int>)
    ensures |ids| == if |data| == 0 then 0 else |data| - 1
  {
    if |data| == 0 then []
    else seq(|data| - 1, i requires 0 <= i < |data| - 1 => NumberOr0(CellAt(data[i + 1], cols.idCol)))
  }

  /**
   * `getNextId`: 1 for a sheet with no data rows, otherwise one more than
   * the largest ID of a data row, so it exceeds every data row's ID.
   */
  function GetNextId(data: Sheet, cols: Columns): (r: int)
    ensures |data| <= 1 ==> r == 1
    ensures forall i | 1 <= i < |data| :: NumberOr0(CellAt(data[i], cols.idCol)) < r
    ensures |data| > 1 ==> exists i | 1 <= i < |data| :: r == NumberOr0(CellAt(data[i], cols.idCol)) + 1
  {
    if |data| <= 1 then 1
    else
      var ids := Ids(data, cols);
      var m := Max(ids);
      assert forall i | 1 <= i < |data| :: ids[i - 1] == NumberOr0(CellAt(data[i], cols.idCol)) && ids[i - 1] in ids;
      var k :| 0 <= k < |ids| && ids[k] == m;
      assert m + 1 == NumberOr0(CellAt(data[k + 1], cols.idCol)) + 1;
      m + 1
  }

  /** Row `r` has the status `status`: `r[STATUS] === status`. */
  predicate HasStatus(r: Row, cols: Columns, status: Cell) {
    cols.statusCol < |r| && StrictEquals(r[cols.statusCol], status)
  }

  /** The display numbers, `Number(…) || 0`, of the rows of `rows` with the status, in order. */
  function NosWithStatus(rows: seq<Row>, cols: Columns, status: Cell): (nos: seq<int>)
    ensures |nos| <= |rows|
  {
    if rows == [] then []
    else
      var rest := NosWithStatus(rows[..|rows| - 1], cols, status);
      var last := rows[|rows| - 1];
      if HasStatus(last, cols, status) then rest + [NumberOr0(CellAt(last, cols.noCol))] else rest
  }

  /** The data rows: `data.slice(1)`. */
  function DataRows(data: Sheet): seq<Row> {
    if |data| == 0 then [] else data[1..]
  }

  /**
   * `getNextNo`: 1 when no data row has the status, otherwise one more than
   * the largest display number among the rows that have it.
   */
  function GetNextNo(data: Sheet, cols: Columns, status: Cell): (r: int)
    ensures NosWithStatus(DataRows(data), cols, status) == [] ==> r == 1
    ensures forall n | n in NosWithStatus(DataRows(data), cols, status) :: n < r
    ensures NosWithStatus(DataRows(data), cols, status) != [] ==> r - 1 in NosWithStatus(DataRows(data), cols, status)
  {
    var nos := NosWithStatus(DataRows(data), cols, status);
    if |nos| == 0 then 1 else Max(nos) + 1
  }

  /* ---------- finding a task's row ---------- */

  /** Row `r`'s ID `==` the key; a row too short to have the column holds `undefined`, equal to no key. */
  predicate IdMatches(r: Row, cols: Columns, key: Cell) {
    cols.idCol < |r| && LooseEquals(r[cols.idCol], key)
  }

  /** The index of the first data row at or after `i` whose ID matches the key. */
  function FirstMatchFrom(data: Sheet, cols: Columns, key: Cell, i: nat): (r: Option<nat>)
    requires 1 <= i
    ensures r.Some? ==> i <= r.value < |data| && IdMatches(data[r.value], cols, key)
    decreases |data| - i
  {
    if i >= |data| then None
    else if IdMatches(data[i], cols, key) then Some(i)
    else FirstMatchFrom(data, cols, key, i + 1)
  }

  /** The index of the first data row whose ID matches the key. */
  function FirstMatch(data: Sheet, cols: Columns, key: Cell): Option<nat> {
    FirstMatchFrom(data, cols, key, 1)
  }

  /**
   * The search loop of `saveTask` and `deleteTask`: it skips the header and
   * returns the sheet row (`i + 1`, one-based) of the first data row whose
   * ID matches, with that row, or -1 when none does.
   */
  method FindTaskRow(data: Sheet, cols: Columns, key: Cell) returns (rowIndex: int, existing: Option<Row>)
    ensures rowIndex == -1 <==> forall i | 1 <= i < |data| :: !IdMatches(data[i], cols, key)
    ensures rowIndex != -1 ==>
      && 2 <= rowIndex <= |data|
      && IdMatches(data[rowIndex - 1], cols, key)
      && (forall i | 1 <= i < rowIndex - 1 :: !IdMatches(data[i], cols, key))
    ensures existing == if rowIndex == -1 then None else Some(data[rowIndex - 1])
    ensures rowIndex == match FirstMatch(data, cols, key) case Some(i) => i + 1 case None => -1
  {
    rowIndex, existing := -1, None;
    var i := 1;
    while i < |data|
      invariant 1 <= i && (i <= |data| || i == 1)
      invariant forall k | 1 <= k < i :: !IdMatches(data[k], cols, key)
      invariant FirstMatchFrom(data, cols, key, i) == FirstMatch(data, cols, key)
      decreases |data| - i
    {
      if IdMatches(data[i], cols, key) {
        rowIndex, existing := i + 1, Some(data[i]);
        return;
      }
      i := i + 1;
    }
  }

  /* ---------- deleteTask ---------- */

  /**
   * `deleteTask`: the first data row whose ID matches is deleted and the
   * call succeeds; with no such row nothing changes and it fails. The
   * sheet is returned as the rows that remain.
   */
  method DeleteTask(data: Sheet, cols: Columns, id: Cell) returns (success: bool, remaining: Sheet)
    ensures success <==> exists i | 1 <= i < |data| :: IdMatches(data[i], cols, id)
    ensures !success ==> remaining == data
    ensures success ==> exists i | 1 <= i < |data| ::
      && IdMatches(data[i], cols, id)
      && (forall k | 1 <= k < i :: !IdMatches(data[k], cols, id))
      && remaining == data[..i] + data[i + 1..]
  {
    var rowIndex, _ := FindTaskRow(data, cols, id);
    if rowIndex != -1 {
      success, remaining := true, data[..rowIndex - 1] + data[rowIndex..];
    } else {
      success, remaining := false, data;
    }
  }

  /* ---------- saveTask ---------- */

  /**
   * What the client sends to `saveTask`; None is a property left
   * `undefined`. The due date and the rich-text content are not part of
   * this datatype.
   */
  datatype Task = Task(
    id: Option<Cell>, no: Option<Cell>, group: Option<Cell>, title: Option<Cell>,
    contentRaw: Option<Cell>, priority: Option<Cell>, status: Cell, labelValue: Option<Cell>)

  /** The values `saveTask` writes, column by column. */
  datatype RowValues = RowValues(
    id: Cell, displayNo: Option<Cell>, group: Option<Cell>, title: Option<Cell>,
    content: Cell, priority: Option<Cell>, status: Cell, labelValue: Option<Cell>)

  /** The row `saveTask` writes to, what it writes, and the ID it reports. */
  datatype SaveOutcome = SaveOutcome(rowIndex: int, values: RowValues, id: Cell)

  /**
   * The display number of an existing task that keeps its `no` undefined:
   * its own number while the status is unchanged, a fresh one for the new
   * status otherwise.
   */
  function UpdatedDisplayNo(data: Sheet, cols: Columns, existing: Row, status: Cell): Option<Cell> {
    if HasStatus(existing, cols, status) then CellAt(existing, cols.noCol)
    else Some(Num(GetNextNo(data, cols, status)))
  }

  /** The label written: the task's own, else the existing row's, else `''`. */
  function LabelToWrite(task: Task, existing: Option<Row>, cols: Columns): Option<Cell> {
    if task.labelValue.Some? then task.labelValue
    else match existing
      case Some(r) => CellAt(r, cols.labelCol)
      case None => Some(Str(""))
  }

  /**
   * `saveTask` over the sheet's values: a task with a truthy ID that
   * matches a row updates the first such row; any other task is appended
   * at `lastRow + 1` (`sheet.getLastRow()`). The ID written is `task.id`
   * when truthy, else `getNextId`. The display number is `task.no` when
   * given, else `UpdatedDisplayNo` for an update and `getNextNo` for a new task.
   * The reported ID is the ID written; see `ReturnedIdAsWritten` for the
   * one `saveTask` reports.
   */
  method SaveTask(data: Sheet, cols: Columns, task: Task, lastRow: nat) returns (out: SaveOutcome)
    ensures var found := if Truthy(task.id) then FirstMatch(data, cols, task.id.value) else None;
      && out.rowIndex == (match found case Some(i) => i + 1 case None => lastRow + 1)
      && out.values.id == (if Truthy(task.id) then task.id.value else Num(GetNextId(data, cols)))
      && out.values.displayNo == (
        if task.no.Some? then task.no
        else match found
          case Some(i) => UpdatedDisplayNo(data, cols, data[i], task.status)
          case None => Some(Num(GetNextNo(data, cols, task.status))))
      && out.values.labelValue == LabelToWrite(task, match found case Some(i) => Some(data[i]) case None => None, cols)
    ensures out.values.group == task.group && out.values.title == task.title && out.values.priority == task.priority
    ensures out.values.status == task.status
    ensures out.values.content == if Truthy(task.contentRaw) then task.contentRaw.value else Str("")
    ensures out.id == out.values.id
  {
    var rowIndex: int := -1;
    var existing: Option<Row> := None;
    var nextId: Option<int> := None;
    var nextNo: Option<int> := None;
    if Truthy(task.id) {
      rowIndex, existing := FindTaskRow(data, cols, task.id.value);
    }
    if rowIndex == -1 {
      nextId := Some(GetNextId(data, cols));
      nextNo := Some(GetNextNo(data, cols, task.status));
      rowIndex := lastRow + 1;
    }

    var id := if Truthy(task.id) then task.id.value else Num(nextId.value);
    var displayNo := task.no;
    if displayNo.None? {
      if existing.Some? {
        displayNo := UpdatedDisplayNo(data, cols, existing.value, task.status);
      } else {
        displayNo := Some(Num(nextNo.value));
      }
    }
    var content := if Truthy(task.contentRaw) then task.contentRaw.value else Str("");
    var labelValue := LabelToWrite(task, existing, cols);
    var values := RowValues(id, displayNo, task.group, task.title, content, task.priority, task.status, labelValue);
    out := SaveOutcome(rowIndex, values, id);
  }

  /** The ID `saveTask` reports as written: `task.id || data.length`. */
  function ReturnedIdAsWritten(data: Sheet, task: Task): Cell {
    if Truthy(task.id) then task.id.value else Num(|data|)
  }
}
