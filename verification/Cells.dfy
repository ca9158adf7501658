/** What a log of inserts, partial updates, deletes and truncates leaves in each column of
    each row: the value written last since the row was last replaced or removed. */
module Cells {
  import opened Json
  import opened Keys
  import opened Config
  import opened JoinModel
  import opened Incremental
  import opened Replays

  /** The operation writes the row in this place. */
  ghost predicate Puts(op: RowOp, x: Slot) {
    match x
    case Prim(k) => op.PUpsert? && k == (op.d.table, op.pk)
    case Forn(k) => op.FUpsert? && k == (op.r.table, op.pk)
  }

  /** The operation removes whatever row is in this place. */
  ghost predicate Clears(op: RowOp, x: Slot) {
    match x
    case Prim(k) => (op.PDelete? && k == (op.d.table, op.pk)) || (op.PTruncate? && k.0 == op.table)
    case Forn(k) => (op.FDelete? && k == (op.r.table, op.pk)) || (op.FTruncate? && k.0 == op.r.table)
  }

  /** One operation on plain tables, place by place: the row it writes is laid over the
      one before, what it removes is gone, and every other row stays. */
  lemma {:induction false} ReplayOverlays(t: Tables, op: RowOp, x: Slot)
    ensures Puts(op, x) ==>
      At(Replay(t, op), x).Some? && Overlays(At(t, x), op.row, op.merge, At(Replay(t, op), x).value)
    ensures Clears(op, x) ==> At(Replay(t, op), x).None?
    ensures !Puts(op, x) && !Clears(op, x) ==> At(Replay(t, op), x) == At(t, x)
  {
    hide Overlays, Written;
    if Puts(op, x) { WrittenOverlays(At(t, x), op.row, op.merge, Written(At(t, x), op.row, op.merge)); }
  }

  /** The last operation on this place wrote a row. */
  ghost predicate Present(log: seq<RowOp>, x: Slot) {
    log != [] &&
    var n := |log| - 1;
    Puts(log[n], x) || (!Clears(log[n], x) && Present(log[..n], x))
  }

  /** The value the log leaves in a column: the one written last, unless the row has been
      replaced without it or removed since. */
  ghost function Cell(log: seq<RowOp>, x: Slot, column: string): Option<Json> {
    if log == [] then None
    else
      var n := |log| - 1;
      var op := log[n];
      if Puts(op, x) then
        if Get(op.row, column).Some? then Get(op.row, column)
        else if op.merge then Cell(log[..n], x, column) else None
      else if Clears(op, x) then None
      else Cell(log[..n], x, column)
  }

  lemma {:induction false} AbsentIsEmpty(log: seq<RowOp>, x: Slot, column: string)
    requires !Present(log, x)
    ensures Cell(log, x, column).None?
  {
    if log != [] && !Clears(log[|log| - 1], x) { AbsentIsEmpty(log[..|log| - 1], x, column); }
  }

  /** After every log of object rows a place holds a row exactly when the last operation
      on it wrote one, and the row holds in each column exactly what was written there
      last. */
  lemma {:induction false} TablesHoldLastWritten(log: seq<RowOp>, x: Slot, column: string)
    requires ObjectLog(log)
    ensures At(ReplayAll(log), x).Some? <==> Present(log, x)
    ensures At(ReplayAll(log), x).Some? ==>
      At(ReplayAll(log), x).value.Obj? && Get(At(ReplayAll(log), x).value, column) == Cell(log, x, column)
  {
    hide Replay, Puts, Clears;
    if log != [] {
      var n := |log| - 1;
      var before := ReplayAll(log[..n]);
      assert log[n] in log;
      TablesHoldLastWritten(log[..n], x, column);
      ReplayOverlays(before, log[n], x);
      if Puts(log[n], x) {
        PutsRow(log[n], x);
        if At(before, x).None? { AbsentIsEmpty(log[..n], x, column); }
      }
    }
  }

  lemma {:induction false} PutsRow(op: RowOp, x: Slot)
    requires Puts(op, x)
    ensures op.PUpsert? || op.FUpsert?
  {
  }
}
