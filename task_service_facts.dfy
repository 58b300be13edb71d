/**
 * What the allocators and the save path of `TaskService.js` promise: the
 * display number `getNextNo` hands out follows the largest one of its
 * status and ignores the other statuses, a new task's ID matches no
 * existing row, and an update that changes nothing keeps the row's
 * display number and label.
 */
module TaskServiceFacts {
  import opened Wrappers
  import opened TaskService

  /* ---------- getNextNo ---------- */

  /** Filtering the rows by status distributes over concatenation. */
  lemma {:induction false} NosWithStatusAppend(a: seq<Row>, b: seq<Row>, cols: Columns, status: Cell)
    ensures NosWithStatus(a + b, cols, status) == NosWithStatus(a, cols, status) + NosWithStatus(b, cols, status)
    decreases |b|
  {
    if b == [] {
      assert a + b == a;
    } else {
      var b' := b[..|b| - 1];
      assert (a + b)[..|a + b| - 1] == a + b';
      assert (a + b)[|a + b| - 1] == b[|b| - 1];
      NosWithStatusAppend(a, b', cols, status);
    }
  }

  /** The filtered numbers are exactly the display numbers of the rows with the status. */
  lemma {:induction false} NosWithStatusMembers(rows: seq<Row>, cols: Columns, status: Cell, x: int)
    ensures x in NosWithStatus(rows, cols, status)
      <==> exists i | 0 <= i < |rows| :: HasStatus(rows[i], cols, status) && x == NumberOr0(CellAt(rows[i], cols.noCol))
  {
    if rows != [] {
      var init := rows[..|rows| - 1];
      NosWithStatusMembers(init, cols, status, x);
      assert forall i | 0 <= i < |init| :: init[i] == rows[i];
    }
  }

  /**
   * `getNextNo` is 1 when no data row has the status; otherwise it exceeds
   * the display number of every row with the status and is one more than
   * one of them.
   */
  lemma {:induction false} GetNextNoIsNextAfterMax(data: Sheet, cols: Columns, status: Cell)
    ensures (forall i | 1 <= i < |data| :: !HasStatus(data[i], cols, status)) ==> GetNextNo(data, cols, status) == 1
    ensures forall i | 1 <= i < |data| && HasStatus(data[i], cols, status) ::
      NumberOr0(CellAt(data[i], cols.noCol)) < GetNextNo(data, cols, status)
    ensures (exists i | 1 <= i < |data| :: HasStatus(data[i], cols, status)) ==>
      exists i | 1 <= i < |data| && HasStatus(data[i], cols, status) ::
        GetNextNo(data, cols, status) == NumberOr0(CellAt(data[i], cols.noCol)) + 1
  {
    var rows := DataRows(data);
    var nos := NosWithStatus(rows, cols, status);
    assert forall i | 1 <= i < |data| :: data[i] == rows[i - 1];
    forall i | 1 <= i < |data| && HasStatus(data[i], cols, status)
      ensures NumberOr0(CellAt(data[i], cols.noCol)) < GetNextNo(data, cols, status)
    {
      NosWithStatusMembers(rows, cols, status, NumberOr0(CellAt(data[i], cols.noCol)));
    }
    if nos != [] {
      var m := Max(nos);
      NosWithStatusMembers(rows, cols, status, m);
      var j :| 0 <= j < |rows| && HasStatus(rows[j], cols, status) && m == NumberOr0(CellAt(rows[j], cols.noCol));
      assert data[j + 1] == rows[j];
    } else if exists i | 1 <= i < |data| :: HasStatus(data[i], cols, status) {
      var i :| 1 <= i < |data| && HasStatus(data[i], cols, status);
      NosWithStatusMembers(rows, cols, status, NumberOr0(CellAt(data[i], cols.noCol)));
    }
  }

  /** Adding a row of another status anywhere among the data rows leaves `getNextNo` as it was. */
  lemma {:induction false} GetNextNoIgnoresOtherStatuses(data: Sheet, cols: Columns, status: Cell, i: nat, row: Row)
    requires 1 <= i <= |data|
    requires !HasStatus(row, cols, status)
    ensures GetNextNo(data[..i] + [row] + data[i..], cols, status) == GetNextNo(data, cols, status)
  {
    var grown := data[..i] + [row] + data[i..];
    assert DataRows(grown) == data[1..i] + [row] + data[i..];
    assert DataRows(data) == data[1..i] + data[i..];
    NosWithStatusAppend(data[1..i] + [row], data[i..], cols, status);
    NosWithStatusAppend(data[1..i], [row], cols, status);
    NosWithStatusAppend(data[1..i], data[i..], cols, status);
    assert [row][..0] == [];
  }

  /* ---------- IDs ---------- */

  /** A cell `==` the number `n` reads as `n` under `Number`. */
  lemma {:induction false} LooseEqualsNumberReads(c: Cell, n: int)
    requires LooseEquals(c, Num(n))
    ensures ToNumber(Some(c)) == Some(n)
  {
  }

  /**
   * The ID a new task gets matches no existing row under `==`, so the
   * row search finds the new row and no other by it.
   */
  lemma {:induction false} NewIdIsFresh(data: Sheet, cols: Columns)
    ensures forall i | 1 <= i < |data| :: !IdMatches(data[i], cols, Num(GetNextId(data, cols)))
  {
    var n := GetNextId(data, cols);
    forall i | 1 <= i < |data| ensures !IdMatches(data[i], cols, Num(n)) {
      if IdMatches(data[i], cols, Num(n)) {
        LooseEqualsNumberReads(data[i][cols.idCol], n);
      }
    }
  }

  /**
   * As written, `saveTask` reports `data.length` as a new task's ID while
   * it writes `getNextId`: with one data row whose ID is 2, the new task is
   * written with ID 3 and reported as 2, the ID of the other task.
   */
  lemma {:induction false} ReturnedIdAsWrittenNamesAnotherTask()
    ensures var cols := Columns(0, 1, 2, 3);
      var data := [[Str("ID"), Str("No"), Str("Status"), Str("Label")], [Num(2), Num(1), Str("todo"), Str("")]];
      var task := Task(None, None, None, None, None, None, Str("todo"), None);
      && GetNextId(data, cols) == 3
      && ReturnedIdAsWritten(data, task) == Num(2)
      && IdMatches(data[1], cols, ReturnedIdAsWritten(data, task))
  {
    var cols := Columns(0, 1, 2, 3);
    var data := [[Str("ID"), Str("No"), Str("Status"), Str("Label")], [Num(2), Num(1), Str("todo"), Str("")]];
    assert NumberOr0(CellAt(data[1], cols.idCol)) == 2;
  }

  /* ---------- saveTask's choices ---------- */

  /**
   * An existing task moved to another status gets a display number after
   * every task already in that status.
   */
  lemma {:induction false} StatusChangeTakesNextNo(data: Sheet, cols: Columns, i: nat, status: Cell)
    requires 1 <= i < |data| && !HasStatus(data[i], cols, status)
    ensures UpdatedDisplayNo(data, cols, data[i], status).Some?
    ensures var n := UpdatedDisplayNo(data, cols, data[i], status).value;
      n.Num? && forall j | 1 <= j < |data| && HasStatus(data[j], cols, status) :: NumberOr0(CellAt(data[j], cols.noCol)) < n.n
  {
    GetNextNoIsNextAfterMax(data, cols, status);
  }

  /**
   * An update that sends no display number and no label and keeps the
   * status writes back the row's own display number and label.
   */
  lemma {:induction false} UnchangedUpdateKeepsRow(data: Sheet, cols: Columns, task: Task, i: nat)
    requires 1 <= i < |data| && HasStatus(data[i], cols, task.status)
    requires task.no.None? && task.labelValue.None?
    ensures UpdatedDisplayNo(data, cols, data[i], task.status) == CellAt(data[i], cols.noCol)
    ensures LabelToWrite(task, Some(data[i]), cols) == CellAt(data[i], cols.labelCol)
  {
  }
}
