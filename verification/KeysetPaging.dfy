/**
 Walking the result listing by its own cursor while rows keep arriving.

 A page holds the rows strictly after the cursor in (time, id) order; the next
 cursor is the last row of the page; an empty page ends the walk. Any rows may
 be inserted between two pages.
 */
module KeysetPaging {
  import opened Options

  /** `id` stands for the place of the stored id in the collation's order. */
  datatype Row = Row(at: int, id: int, payload: string)

  datatype Cursor = Cursor(at: int, id: int)

  /** The period is half-open; `other` is every further filter of the query. */
  datatype Query = Query(start: int, end: int, other: Row -> bool)

  datatype State = State(table: seq<Row>, cursor: Option<Cursor>, seen: seq<Row>, done: bool, refused: bool)

  datatype Step = Insert(row: Row) | Fetch(limit: nat)

  const MAX_PAGE: nat := 500

  predicate InScope(q: Query, r: Row) { q.start <= r.at < q.end && q.other(r) }

  predicate Before(x: Row, y: Row) { x.at < y.at || (x.at == y.at && x.id < y.id) }

  predicate After(cursor: Option<Cursor>, r: Row) {
    cursor.None? || r.at > cursor.value.at || (r.at == cursor.value.at && r.id > cursor.value.id)
  }

  function Selected(table: seq<Row>, q: Query, cursor: Option<Cursor>): seq<Row>
    decreases |table|
  {
    if table == [] then []
    else
      var last := table[|table| - 1];
      Selected(table[..|table| - 1], q, cursor) + if InScope(q, last) && After(cursor, last) then [last] else []
  }

  function Placed(r: Row, rows: seq<Row>): seq<Row>
    decreases |rows|
  {
    if rows == [] || Before(r, rows[0]) then [r] + rows else [rows[0]] + Placed(r, rows[1..])
  }

  function Ordered(rows: seq<Row>): seq<Row>
    decreases |rows|
  {
    if rows == [] then [] else Placed(rows[0], Ordered(rows[1..]))
  }

  function Page(table: seq<Row>, q: Query, cursor: Option<Cursor>, limit: nat): seq<Row> {
    var rows := Ordered(Selected(table, q, cursor));
    if |rows| > limit then rows[..limit] else rows
  }

  function NextCursor(rows: seq<Row>): Option<Cursor> {
    if rows == [] then None else Some(Cursor(rows[|rows| - 1].at, rows[|rows| - 1].id))
  }

  predicate CursorValid(q: Query, c: Option<Cursor>) { c.None? || q.start <= c.value.at < q.end }

  function Apply(q: Query, s: State, step: Step): State {
    match step
    case Insert(row) => if exists i :: 0 <= i < |s.table| && s.table[i].id == row.id then s else s.(table := s.table + [row])
    case Fetch(limit) =>
      if s.done || s.refused || limit == 0 || limit > MAX_PAGE then s
      else if !CursorValid(q, s.cursor) then s.(refused := true)
      else
        var page := Page(s.table, q, s.cursor, limit);
        if page == [] then s.(done := true)
        else s.(cursor := NextCursor(page), seen := s.seen + page)
  }

  function Run(q: Query, s: State, steps: seq<Step>): State
    decreases |steps|
  {
    if steps == [] then s else Apply(q, Run(q, s, steps[..|steps| - 1]), steps[|steps| - 1])
  }

  function Initial(table: seq<Row>): State { State(table, None, [], false, false) }

  ghost predicate UniqueIds(table: seq<Row>) {
    forall i, j :: 0 <= i < j < |table| ==> table[i].id != table[j].id
  }

  ghost predicate Increasing(rows: seq<Row>) {
    forall i, j :: 0 <= i < j < |rows| ==> Before(rows[i], rows[j])
  }

  // ---- Pages ------------------------------------------------------------------------------

  lemma {:induction false} SelectedRows(table: seq<Row>, q: Query, cursor: Option<Cursor>)
    requires UniqueIds(table)
    ensures UniqueIds(Selected(table, q, cursor))
    ensures forall r :: r in Selected(table, q, cursor) <==> r in table && InScope(q, r) && After(cursor, r)
    decreases |table|
  {
    if table != [] {
      var n := |table| - 1;
      SelectedRows(table[..n], q, cursor);
      assert table == table[..n] + [table[n]];
      forall i | 0 <= i < |Selected(table[..n], q, cursor)| ensures Selected(table[..n], q, cursor)[i].id != table[n].id {
        assert Selected(table[..n], q, cursor)[i] in table[..n];
      }
    }
  }

  lemma {:induction false} PlacedRows(r: Row, rows: seq<Row>)
    requires Increasing(rows) && forall x :: x in rows ==> x.id != r.id
    ensures Increasing(Placed(r, rows)) && |Placed(r, rows)| == |rows| + 1
    ensures forall x :: x in Placed(r, rows) <==> x in rows || x == r
    decreases |rows|
  {
    if rows != [] && !Before(r, rows[0]) {
      var rest := Placed(r, rows[1..]);
      PlacedRows(r, rows[1..]);
      assert rows == [rows[0]] + rows[1..];
      assert rows[0] in rows;
      forall j | 0 <= j < |rest| ensures Before(rows[0], rest[j]) {
        assert rest[j] in rest;
      }
    } else if rows != [] {
      forall j | 0 <= j < |rows| ensures Before(r, rows[j]) {
        assert j > 0 ==> Before(rows[0], rows[j]);
      }
    }
  }

  lemma {:induction false} OrderedRows(rows: seq<Row>)
    requires UniqueIds(rows)
    ensures Increasing(Ordered(rows)) && |Ordered(rows)| == |rows|
    ensures forall x :: x in Ordered(rows) <==> x in rows
    decreases |rows|
  {
    if rows != [] {
      OrderedRows(rows[1..]);
      assert rows == [rows[0]] + rows[1..];
      PlacedRows(rows[0], Ordered(rows[1..]));
    }
  }

  /**
   A page is in order, lies after the cursor, and skips nothing: whatever is in scope
   after the cursor is on the page or after the page's own cursor.
   */
  lemma PageIsNext(table: seq<Row>, q: Query, cursor: Option<Cursor>, limit: nat)
    requires UniqueIds(table) && limit > 0
    ensures var page := Page(table, q, cursor, limit);
      && Increasing(page)
      && (forall r :: r in page ==> r in table && InScope(q, r) && After(cursor, r))
      && (page == [] ==> forall r :: r in table && InScope(q, r) ==> !After(cursor, r))
      && (page != [] ==> forall r :: r in table && InScope(q, r) && After(cursor, r) ==> r in page || After(NextCursor(page), r))
  {
    SelectedRows(table, q, cursor);
    OrderedRows(Selected(table, q, cursor));
    var rows, page := Ordered(Selected(table, q, cursor)), Page(table, q, cursor, limit);
    assert page == [] ==> rows == [];
    forall r | r in table && InScope(q, r) && After(cursor, r) && page != []
      ensures r in page || After(NextCursor(page), r)
    {
      assert r in rows;
      var k :| 0 <= k < |rows| && rows[k] == r;
      if k < |page| {
        assert page[k] == r;
      } else {
        assert Before(rows[|page| - 1], rows[k]);
      }
    }
  }

  // ---- The walk ------------------------------------------------------------------------------

  ghost predicate Inv(q: Query, s: State) {
    && UniqueIds(s.table)
    && Increasing(s.seen)
    && (forall r :: r in s.seen ==> r in s.table && InScope(q, r))
    && s.cursor == NextCursor(s.seen)
    && !s.refused
  }

  lemma SeenThenPage(seen: seq<Row>, page: seq<Row>)
    requires Increasing(seen) && Increasing(page) && page != []
    requires forall r :: r in page ==> After(NextCursor(seen), r)
    ensures Increasing(seen + page) && NextCursor(seen + page) == NextCursor(page)
  {
    var all := seen + page;
    forall i, j | 0 <= i < j < |all| ensures Before(all[i], all[j]) {
      if i < |seen| <= j {
        assert all[j] in page;
        assert i < |seen| - 1 ==> Before(seen[i], seen[|seen| - 1]);
      }
    }
  }

  lemma NotAfterOwnCursor(seen: seq<Row>)
    requires Increasing(seen)
    ensures forall r :: r in seen ==> !After(NextCursor(seen), r)
  {
    forall r | r in seen ensures !After(NextCursor(seen), r) {
      var i :| 0 <= i < |seen| && seen[i] == r;
      assert i < |seen| - 1 ==> Before(seen[i], seen[|seen| - 1]);
    }
  }

  lemma StepKeepsInv(q: Query, s: State, step: Step)
    requires Inv(q, s)
    ensures Inv(q, Apply(q, s, step))
  {
    if step.Fetch? && !s.done && 0 < step.limit <= MAX_PAGE {
      assert CursorValid(q, s.cursor) by {
        if s.seen != [] {
          assert s.seen[|s.seen| - 1] in s.seen;
        }
      }
      NotAfterOwnCursor(s.seen);
      PageIsNext(s.table, q, s.cursor, step.limit);
      var page := Page(s.table, q, s.cursor, step.limit);
      if page != [] {
        SeenThenPage(s.seen, page);
      }
    }
  }

  lemma {:induction false} RunsKeepInv(q: Query, s: State, steps: seq<Step>)
    requires Inv(q, s)
    ensures Inv(q, Run(q, s, steps))
    decreases |steps|
  {
    if steps != [] {
      RunsKeepInv(q, s, steps[..|steps| - 1]);
      StepKeepsInv(q, Run(q, s, steps[..|steps| - 1]), steps[|steps| - 1]);
    }
  }

  /** A row that is still ahead of the cursor is on a later page or stays ahead; a finished walk leaves nothing ahead. */
  lemma {:induction false} AheadIsServed(q: Query, s: State, steps: seq<Step>, r: Row)
    requires Inv(q, s) && r in s.table && InScope(q, r) && (r in s.seen || (After(s.cursor, r) && !s.done))
    ensures var t := Run(q, s, steps);
      r in t.table && (r in t.seen || (After(t.cursor, r) && !t.done))
    decreases |steps|
  {
    if steps != [] {
      AheadIsServed(q, s, steps[..|steps| - 1], r);
      RunsKeepInv(q, s, steps[..|steps| - 1]);
      var t, step := Run(q, s, steps[..|steps| - 1]), steps[|steps| - 1];
      if step.Fetch? && step.limit > 0 {
        PageIsNext(t.table, q, t.cursor, step.limit);
      }
    }
  }

  /**
   The walk, with any rows inserted between its pages: it never meets a cursor the
   listing refuses, what it has returned is strictly increasing, so no row comes
   twice, and once it is done it has returned every row present from the start.
   */
  lemma WalkIsComplete(q: Query, table: seq<Row>, steps: seq<Step>)
    requires UniqueIds(table)
    ensures var t := Run(q, Initial(table), steps);
      && !t.refused
      && (forall i, j :: 0 <= i < j < |t.seen| ==>
            t.seen[i].at < t.seen[j].at || (t.seen[i].at == t.seen[j].at && t.seen[i].id < t.seen[j].id))
      && (forall r :: r in t.seen ==> r in t.table && q.start <= r.at < q.end && q.other(r))
      && (t.done ==> forall r :: r in table && q.start <= r.at < q.end && q.other(r) ==> r in t.seen)
  {
    RunsKeepInv(q, Initial(table), steps);
    forall r | r in table && InScope(q, r) && Run(q, Initial(table), steps).done ensures r in Run(q, Initial(table), steps).seen {
      AheadIsServed(q, Initial(table), steps, r);
    }
  }

  /** A row inserted ahead of the cursor during the walk is returned too, once the walk is done. */
  lemma InsertedAheadIsServed(q: Query, table: seq<Row>, before: seq<Step>, r: Row, after: seq<Step>)
    requires UniqueIds(table) && InScope(q, r)
    requires var s := Run(q, Initial(table), before);
      r in s.table && After(s.cursor, r) && !s.done
    ensures Run(q, Run(q, Initial(table), before), after).done ==> r in Run(q, Run(q, Initial(table), before), after).seen
  {
    RunsKeepInv(q, Initial(table), before);
    AheadIsServed(q, Run(q, Initial(table), before), after, r);
  }

  // ---- Termination --------------------------------------------------------------------------------

  /** How many rows are still ahead. */
  function Ahead(table: seq<Row>, q: Query, cursor: Option<Cursor>): nat { |Selected(table, q, cursor)| }

  lemma {:induction false} FewerAhead(table: seq<Row>, q: Query, before: Option<Cursor>, after: Option<Cursor>)
    requires forall r :: After(after, r) ==> After(before, r)
    ensures Ahead(table, q, after) <= Ahead(table, q, before)
    ensures (exists i :: 0 <= i < |table| && InScope(q, table[i]) && After(before, table[i]) && !After(after, table[i]))
      ==> Ahead(table, q, after) < Ahead(table, q, before)
    decreases |table|
  {
    if table != [] {
      var n := |table| - 1;
      FewerAhead(table[..n], q, before, after);
      if exists i :: 0 <= i < |table| && InScope(q, table[i]) && After(before, table[i]) && !After(after, table[i]) {
        var i :| 0 <= i < |table| && InScope(q, table[i]) && After(before, table[i]) && !After(after, table[i]);
        if i < n {
          assert table[..n][i] == table[i];
        }
      }
    }
  }

  lemma FetchAdvances(q: Query, s: State, limit: nat)
    requires Inv(q, s) && !s.done && 0 < limit <= MAX_PAGE
    ensures var t := Apply(q, s, Fetch(limit));
      t.table == s.table && (t.done || Ahead(t.table, q, t.cursor) < Ahead(s.table, q, s.cursor))
  {
    StepKeepsInv(q, s, Fetch(limit));
    PageIsNext(s.table, q, s.cursor, limit);
    var page, t := Page(s.table, q, s.cursor, limit), Apply(q, s, Fetch(limit));
    assert CursorValid(q, s.cursor);
    if page != [] {
      var last := page[|page| - 1];
      assert last in page;
      var i :| 0 <= i < |s.table| && s.table[i] == last;
      assert !After(t.cursor, s.table[i]);
      FewerAhead(s.table, q, s.cursor, t.cursor);
    }
  }

  /** Once inserts stop the walk ends: one fetch more than there are rows ahead is enough, whatever the page sizes. */
  lemma {:induction false} WalkEnds(q: Query, s: State, steps: seq<Step>)
    requires Inv(q, s)
    requires forall k :: 0 <= k < |steps| ==> steps[k].Fetch? && 0 < steps[k].limit <= MAX_PAGE
    ensures var t := Run(q, s, steps);
      t.table == s.table && (t.done || s.done || Ahead(t.table, q, t.cursor) + |steps| <= Ahead(s.table, q, s.cursor))
    ensures |steps| > Ahead(s.table, q, s.cursor) && !s.done ==> Run(q, s, steps).done
    decreases |steps|
  {
    if steps != [] {
      WalkEnds(q, s, steps[..|steps| - 1]);
      RunsKeepInv(q, s, steps[..|steps| - 1]);
      var t := Run(q, s, steps[..|steps| - 1]);
      if !t.done {
        FetchAdvances(q, t, steps[|steps| - 1].limit);
      }
    }
  }
}
