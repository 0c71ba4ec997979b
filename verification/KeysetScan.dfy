/**
  The scan of the register's versions: pages of rows after a cursor, the version kept for every
  key, and the cursor proposed for the next scan.
 */
module KeysetScan {
  import opened Common
  import opened TextOrder

  const PAGE_SIZE := 100
  const MAX_VERSION_PAGES := 16384

  // Times are counted in the register's own unit of 100 nanoseconds.
  const TICKS_PER_DAY := 24 * 60 * 60 * 10000000
  const OVERLAP := 7 * TICKS_PER_DAY

  datatype Key = Key(title: string, start: int, retrospectiveStart: int)

  datatype Cursor = Cursor(registered: int, title: string, start: int, retrospectiveStart: int)

  /** A row of the register; `details` stands for all other columns. */
  datatype Row = Row(registered: Option<int>, key: Key, details: int)

  function CursorOf(row: Row): Cursor
    requires row.registered.Some?
  {
    Cursor(row.registered.value, row.key.title, row.key.start, row.key.retrospectiveStart)
  }

  // ----- the order of cursors -----

  datatype Ordering = Lower | Same | Higher

  function CompareInts(a: int, b: int): Ordering {
    if a < b then Lower else if a == b then Same else Higher
  }

  function CompareTexts(a: string, b: string): Ordering {
    if Before(a, b) then Lower else if a == b then Same else Higher
  }

  function Then(first: Ordering, second: Ordering): Ordering {
    if first == Same then second else first
  }

  /** Columns are compared in turn, as tuples are. */
  function CompareCursors(a: Cursor, b: Cursor): Ordering {
    Then(CompareInts(a.registered, b.registered),
         Then(CompareTexts(a.title, b.title),
              Then(CompareInts(a.start, b.start), CompareInts(a.retrospectiveStart, b.retrospectiveStart))))
  }

  predicate Less(a: Cursor, b: Cursor) {
    CompareCursors(a, b) == Lower
  }

  lemma CursorsAreTotallyOrdered(a: Cursor, b: Cursor)
    ensures CompareCursors(a, b) == Same <==> a == b
    ensures CompareCursors(a, b) == Higher <==> Less(b, a)
    ensures CompareCursors(a, b) == Lower <==> Less(a, b)
    ensures !(Less(a, b) && Less(b, a)) && (a == b <==> !Less(a, b) && !Less(b, a))
  {
    hide Before;
    BeforeIsTotal(a.title, b.title);
    BeforeIsTotal(a.title, a.title);
  }

  lemma LessIsTransitive(a: Cursor, b: Cursor, c: Cursor)
    requires !Less(b, a) && !Less(c, b)
    ensures !Less(c, a)
    ensures Less(a, b) || Less(b, c) ==> Less(a, c)
  {
    hide Before;
    BeforeIsTotal(a.title, b.title);
    BeforeIsTotal(b.title, c.title);
    BeforeIsTotal(a.title, c.title);
    BeforeIsTotal(a.title, a.title);
    if Before(a.title, b.title) && Before(b.title, c.title) {
      BeforeIsTransitive(a.title, b.title, c.title);
    }
  }

  // ----- the query -----

  datatype Column = RegisteredAt | TitleId | StartColumn | RetrospectiveStart

  datatype Value = Null | Time(ticks: int) | Text(text: string)

  datatype Filter =
    | NotNull(column: Column)
    | Gt(column: Column, value: Value)
    | Ge(column: Column, value: Value)
    | Le(column: Column, value: Value)
    | Eq(column: Column, value: Value)
    | And(left: Filter, right: Filter)
    | Or(left: Filter, right: Filter)

  function ColumnOf(row: Row, column: Column): Value {
    match column
    case RegisteredAt => if row.registered.Some? then Time(row.registered.value) else Null
    case TitleId => Text(row.key.title)
    case StartColumn => Time(row.key.start)
    case RetrospectiveStart => Time(row.key.retrospectiveStart)
  }

  /** Only values of one kind compare; nothing is above or below null. */
  predicate Above(a: Value, b: Value) {
    || (a.Time? && b.Time? && a.ticks > b.ticks)
    || (a.Text? && b.Text? && Before(b.text, a.text))
  }

  predicate Holds(filter: Filter, row: Row) {
    match filter
    case NotNull(column) => ColumnOf(row, column) != Null
    case Gt(column, value) => Above(ColumnOf(row, column), value)
    case Ge(column, value) => Above(ColumnOf(row, column), value) || (value != Null && ColumnOf(row, column) == value)
    case Le(column, value) => Above(value, ColumnOf(row, column)) || (value != Null && ColumnOf(row, column) == value)
    case Eq(column, value) => ColumnOf(row, column) == value
    case And(left, right) => Holds(left, row) && Holds(right, row)
    case Or(left, right) => Holds(left, row) || Holds(right, row)
  }

  /** The text `version_after_filter` writes, as an expression. */
  function VersionAfterFilter(c: Cursor): Filter {
    var sameTime := Eq(RegisteredAt, Time(c.registered));
    var sameTitle := And(sameTime, Eq(TitleId, Text(c.title)));
    var sameStart := And(sameTitle, Eq(StartColumn, Time(c.start)));
    Or(Gt(RegisteredAt, Time(c.registered)),
       Or(And(sameTime, Gt(TitleId, Text(c.title))),
          Or(And(sameTitle, Gt(StartColumn, Time(c.start))),
             And(sameStart, Gt(RetrospectiveStart, Time(c.retrospectiveStart))))))
  }

  /** The filter admits exactly the rows strictly after the cursor. */
  lemma AfterFilterIsStrictOrder(c: Cursor, row: Row)
    ensures Holds(VersionAfterFilter(c), row) <==> row.registered.Some? && Less(c, CursorOf(row))
    ensures Holds(VersionAfterFilter(c), row) <==>
            && row.registered.Some?
            && (|| row.registered.value > c.registered
                || (row.registered.value == c.registered
                    && (|| Before(c.title, row.key.title)
                        || (row.key.title == c.title
                            && (|| row.key.start > c.start
                                || (row.key.start == c.start && row.key.retrospectiveStart > c.retrospectiveStart))))))
  {
    hide Before;
    BeforeIsTotal(c.title, row.key.title);
    BeforeIsTotal(c.title, c.title);
    var sameTime := Eq(RegisteredAt, Time(c.registered));
    var sameTitle := And(sameTime, Eq(TitleId, Text(c.title)));
    var sameStart := And(sameTitle, Eq(StartColumn, Time(c.start)));
    assert Holds(sameTitle, row) <==> Holds(sameTime, row) && row.key.title == c.title;
    assert Holds(sameStart, row) <==> Holds(sameTitle, row) && row.key.start == c.start;
    var last := And(sameStart, Gt(RetrospectiveStart, Time(c.retrospectiveStart)));
    var third := And(sameTitle, Gt(StartColumn, Time(c.start)));
    var second := And(sameTime, Gt(TitleId, Text(c.title)));
    assert Holds(last, row) <==> Holds(sameStart, row) && row.key.retrospectiveStart > c.retrospectiveStart;
    assert Holds(Or(third, last), row) <==> Holds(third, row) || Holds(last, row);
    assert Holds(Or(second, Or(third, last)), row) <==> Holds(second, row) || Holds(Or(third, last), row);
    var first := Gt(RegisteredAt, Time(c.registered));
    assert VersionAfterFilter(c) == Or(first, Or(second, Or(third, last)));
    assert Holds(VersionAfterFilter(c), row) <==> Holds(first, row) || Holds(Or(second, Or(third, last)), row);
    assert Holds(sameTime, row) <==> row.registered == Some(c.registered);
    assert Holds(third, row) <==> Holds(sameTitle, row) && row.key.start > c.start;
    assert Holds(second, row) <==> Holds(sameTime, row) && Before(c.title, row.key.title);
  }

  datatype Query = Query(lower: Option<int>, upper: int, after: Option<Cursor>, top: nat)

  function QueryFilter(q: Query): Filter {
    var bounded := And(NotNull(RegisteredAt), Le(RegisteredAt, Time(q.upper)));
    var above := if q.lower.Some? then And(bounded, Ge(RegisteredAt, Time(q.lower.value))) else bounded;
    if q.after.Some? then And(above, VersionAfterFilter(q.after.value)) else above
  }

  predicate InRange(row: Row, lower: Option<int>, upper: int) {
    && row.registered.Some?
    && row.registered.value <= upper
    && (lower.Some? ==> lower.value <= row.registered.value)
  }

  lemma QueryFilterIsRange(q: Query, row: Row)
    ensures Holds(QueryFilter(q), row) <==>
            InRange(row, q.lower, q.upper) && (q.after.Some? ==> Less(q.after.value, CursorOf(row)))
  {
    hide Less, VersionAfterFilter;
    var bounded := And(NotNull(RegisteredAt), Le(RegisteredAt, Time(q.upper)));
    assert Holds(bounded, row) <==> row.registered.Some? && row.registered.value <= q.upper;
    var above := if q.lower.Some? then And(bounded, Ge(RegisteredAt, Time(q.lower.value))) else bounded;
    assert Holds(above, row) <==> InRange(row, q.lower, q.upper);
    if q.after.Some? {
      AfterFilterIsStrictOrder(q.after.value, row);
      assert Holds(And(above, VersionAfterFilter(q.after.value)), row) <==> Holds(above, row) && Holds(VersionAfterFilter(q.after.value), row);
    }
  }

  // ----- the server -----

  datatype Server = Server(page: Query -> seq<Row>)

  function Select(table: seq<Row>, filter: Filter): seq<Row> {
    if table == [] then []
    else (if Holds(filter, table[0]) then [table[0]] else []) + Select(table[1..], filter)
  }

  ghost predicate Sorted(table: seq<Row>) {
    forall i, j :: 0 <= i < j < |table| && table[i].registered.Some? && table[j].registered.Some? ==>
      !Less(CursorOf(table[j]), CursorOf(table[i]))
  }

  /** Pages are the first rows, in order, of those the filter admits; the table stays as it is. */
  ghost predicate Serves(server: Server, table: seq<Row>) {
    && Sorted(table)
    && forall q :: server.page(q) == Take(Select(table, QueryFilter(q)), q.top)
  }

  function Take(rows: seq<Row>, n: nat): seq<Row> {
    if |rows| <= n then rows else rows[..n]
  }

  /** All rows to be seen, in order. */
  function InRangeRows(table: seq<Row>, lower: Option<int>, upper: int): seq<Row> {
    Select(table, QueryFilter(Query(lower, upper, None, 0)))
  }

  ghost predicate AllInRange(rows: seq<Row>, lower: Option<int>, upper: int) {
    forall i :: 0 <= i < |rows| ==> InRange(rows[i], lower, upper)
  }

  lemma {:induction false} SelectedIsSorted(table: seq<Row>, lower: Option<int>, upper: int)
    requires Sorted(table)
    ensures var rows := InRangeRows(table, lower, upper);
            && AllInRange(rows, lower, upper) && Sorted(rows)
            && forall row :: row in rows <==> row in table && InRange(row, lower, upper)
  {
    hide Less, QueryFilter, InRange;
    if table != [] {
      var rest := table[1..];
      assert Sorted(rest);
      SelectedIsSorted(rest, lower, upper);
      var rows, tail := InRangeRows(table, lower, upper), InRangeRows(rest, lower, upper);
      QueryFilterIsRange(Query(lower, upper, None, 0), table[0]);
      assert table == [table[0]] + rest;
      if InRange(table[0], lower, upper) {
        assert rows == [table[0]] + tail;
        SortedCons(table[0], tail, table);
      } else {
        assert rows == tail;
      }
    }
  }

  lemma SortedCons(head: Row, tail: seq<Row>, table: seq<Row>)
    requires Sorted(table) && table != [] && table[0] == head && Sorted(tail)
    requires forall row :: row in tail ==> row in table[1..]
    ensures Sorted([head] + tail)
  {
    hide Less;
    var all := [head] + tail;
    forall i, j | 0 <= i < j < |all| && all[i].registered.Some? && all[j].registered.Some?
      ensures !Less(CursorOf(all[j]), CursorOf(all[i]))
    {
      if i == 0 {
        assert all[j] in tail;
        var k :| 0 <= k < |table[1..]| && table[1..][k] == all[j];
        assert table[k + 1] == all[j];
      }
    }
  }

  /** The rows after a cursor are what is left of all rows once those up to the cursor are gone. */
  lemma {:induction false} AfterIsSuffix(table: seq<Row>, q: Query) returns (i: nat)
    requires Sorted(table) && q.after.Some?
    ensures var rows := InRangeRows(table, q.lower, q.upper);
            && i <= |rows| && AllInRange(rows, q.lower, q.upper)
            && Select(table, QueryFilter(q)) == rows[i..]
            && (forall k :: 0 <= k < i ==> !Less(q.after.value, CursorOf(rows[k])))
            && (forall k :: i <= k < |rows| ==> Less(q.after.value, CursorOf(rows[k])))
  {
    hide Less, QueryFilter;
    if table == [] {
      i := 0;
    } else {
      var rest := table[1..];
      assert Sorted(rest);
      i := AfterIsSuffix(rest, q);
      var rows, tail := InRangeRows(table, q.lower, q.upper), InRangeRows(rest, q.lower, q.upper);
      QueryFilterIsRange(q.(after := None, top := 0), table[0]);
      QueryFilterIsRange(q, table[0]);
      SelectedIsSorted(table, q.lower, q.upper);
      if InRange(table[0], q.lower, q.upper) {
        assert rows == [table[0]] + tail;
        if Less(q.after.value, CursorOf(table[0])) {
          if i > 0 {
            assert rows[1] == tail[0];
            CursorsAreTotallyOrdered(q.after.value, CursorOf(table[0]));
            LessIsTransitive(q.after.value, CursorOf(table[0]), CursorOf(tail[0]));
            assert false;
          }
          assert rows[0..] == rows;
        } else {
          i := i + 1;
          assert rows[i..] == tail[i - 1..];
        }
      }
    }
  }

  // ----- what a scan keeps -----

  datatype VersionScan = VersionScan(versions: map<Key, Row>, proposed: Option<Cursor>, upper: int)

  datatype ScanError = InvalidPageSize | TooManyRows | OutOfOrder | NoProgress | PageLimit

  /** The row kept for every key is one with the greatest cursor. */
  ghost predicate KeepsLatest(seen: seq<Row>, versions: map<Key, Row>) {
    && (forall i :: 0 <= i < |seen| ==> seen[i].registered.Some? && seen[i].key in versions)
    && (forall key :: key in versions ==> versions[key] in seen && versions[key].key == key)
    && forall i :: 0 <= i < |seen| ==> !Less(CursorOf(versions[seen[i].key]), CursorOf(seen[i]))
  }

  /** The greatest of the old cursor and those of the rows seen. */
  ghost predicate IsMaximum(seen: seq<Row>, previous: Option<Cursor>, maximum: Option<Cursor>) {
    && (forall i :: 0 <= i < |seen| ==> seen[i].registered.Some?)
    && (maximum.None? <==> previous.None? && seen == [])
    && (maximum.Some? ==>
          && (previous.Some? ==> !Less(maximum.value, previous.value))
          && (forall i :: 0 <= i < |seen| ==> !Less(maximum.value, CursorOf(seen[i])))
          && (previous == maximum || exists i :: 0 <= i < |seen| && CursorOf(seen[i]) == maximum.value))
  }

  lemma KeepStep(seen: seq<Row>, versions: map<Key, Row>, row: Row)
    requires KeepsLatest(seen, versions) && row.registered.Some?
    ensures KeepsLatest(seen + [row],
                        if row.key in versions && CompareCursors(CursorOf(versions[row.key]), CursorOf(row)) == Higher then versions
                        else versions[row.key := row])
  {
    hide Less, CompareCursors;
    var more := seen + [row];
    var kept := if row.key in versions && CompareCursors(CursorOf(versions[row.key]), CursorOf(row)) == Higher then versions
                else versions[row.key := row];
    CursorsAreTotallyOrdered(CursorOf(row), CursorOf(row));
    forall i | 0 <= i < |more| ensures more[i].registered.Some? && more[i].key in kept && !Less(CursorOf(kept[more[i].key]), CursorOf(more[i])) {
      if i < |seen| {
        assert more[i] == seen[i];
        var old_ := CursorOf(versions[seen[i].key]);
        if seen[i].key == row.key && kept[row.key] == row {
          CursorsAreTotallyOrdered(old_, CursorOf(row));
          LessIsTransitive(CursorOf(seen[i]), old_, CursorOf(row));
        }
      } else {
        if row.key in versions {
          CursorsAreTotallyOrdered(CursorOf(versions[row.key]), CursorOf(row));
        }
      }
    }
  }

  lemma KeptIsRegistered(seen: seq<Row>, versions: map<Key, Row>, key: Key)
    requires KeepsLatest(seen, versions) && key in versions
    ensures versions[key].registered.Some?
  {
    hide Less;
  }

  function Larger(maximum: Option<Cursor>, c: Cursor): Option<Cursor> {
    if maximum.None? || CompareCursors(c, maximum.value) == Higher then Some(c) else maximum
  }

  lemma MaximumStep(seen: seq<Row>, previous: Option<Cursor>, maximum: Option<Cursor>, row: Row)
    requires IsMaximum(seen, previous, maximum) && row.registered.Some?
    ensures IsMaximum(seen + [row], previous, Larger(maximum, CursorOf(row)))
  {
    hide Less, CompareCursors;
    var c := CursorOf(row);
    var more := seen + [row];
    assert more[|seen|] == row;
    CursorsAreTotallyOrdered(c, c);
    if maximum.Some? {
      CursorsAreTotallyOrdered(c, maximum.value);
      forall i | 0 <= i < |more| ensures !Less(Larger(maximum, c).value, CursorOf(more[i])) {
        if i < |seen| {
          LessIsTransitive(CursorOf(seen[i]), maximum.value, Larger(maximum, c).value);
        }
      }
      if previous.Some? {
        LessIsTransitive(previous.value, maximum.value, Larger(maximum, c).value);
      }
      if maximum != previous {
        var i :| 0 <= i < |seen| && CursorOf(seen[i]) == maximum.value;
        assert more[i] == seen[i];
      }
    }
  }

  /** Rows come in range, none before the one preceding it. */
  ghost predicate IsOrderly(page: seq<Row>, last: Option<Cursor>, lower: Option<int>, upper: int) {
    && AllInRange(page, lower, upper) && Sorted(page)
    && (last.Some? ==> forall i :: 0 <= i < |page| ==> !Less(CursorOf(page[i]), last.value))
  }

  /** The rows of one page. */
  method ScanPage(page: seq<Row>, last: Option<Cursor>, lower: Option<int>, upper: int,
                  previous: Option<Cursor>, versions: map<Key, Row>, maximum: Option<Cursor>, ghost seen: seq<Row>)
    returns (ok: bool, reachedCeiling: bool, last': Option<Cursor>, versions': map<Key, Row>, maximum': Option<Cursor>, ghost seen': seq<Row>)
    requires KeepsLatest(seen, versions) && IsMaximum(seen, previous, maximum)
    requires AllInRange(seen, lower, upper)
    ensures ok ==> KeepsLatest(seen', versions') && IsMaximum(seen', previous, maximum') && AllInRange(seen', lower, upper)
    ensures ok && last.Some? ==> last'.Some? && !Less(last'.value, last.value)
    ensures page == [] ==> ok && !reachedCeiling && last' == last
    ensures IsOrderly(page, last, lower, upper) ==>
              && ok && !reachedCeiling && seen' == seen + page
              && last' == if page == [] then last else Some(CursorOf(page[|page| - 1]))
  {
    hide KeepsLatest, IsMaximum, Less, CompareCursors;
    reachedCeiling, last', versions', maximum', seen' := false, last, versions, maximum, seen;
    if last.Some? {
      CursorsAreTotallyOrdered(last.value, last.value);
    }
    for i := 0 to |page|
      invariant KeepsLatest(seen', versions') && IsMaximum(seen', previous, maximum') && AllInRange(seen', lower, upper)
      invariant last.Some? ==> last'.Some? && !Less(last'.value, last.value)
      invariant IsOrderly(page, last, lower, upper) ==>
                  && seen' == seen + page[..i]
                  && last' == if i == 0 then last else Some(CursorOf(page[i - 1]))
    {
      var row := page[i];
      assert page[..i + 1] == page[..i] + [row];
      if row.registered.None? {
        continue;
      }
      var cursor := CursorOf(row);
      if last'.Some? {
        CursorsAreTotallyOrdered(cursor, last'.value);
        if CompareCursors(cursor, last'.value) == Lower {
          assert Less(cursor, last'.value) by { LowerIsLess(cursor, last'.value); }
          return false, false, last', versions', maximum', seen';
        }
        AdvanceKeeps(last, last'.value, cursor);
      }
      last' := Some(cursor);
      if row.registered.value > upper {
        return true, true, last', versions', maximum', seen';
      }
      if lower.Some? && row.registered.value < lower.value {
        continue;
      }
      MaximumStep(seen', previous, maximum', row);
      KeepStep(seen', versions', row);
      maximum' := Larger(maximum', cursor);
      if row.key in versions' {
        KeptIsRegistered(seen', versions', row.key);
      }
      if !(row.key in versions' && CompareCursors(CursorOf(versions'[row.key]), cursor) == Higher) {
        versions' := versions'[row.key := row];
      }
      seen' := seen' + [row];
    }
    assert page[..|page|] == page;
    ok := true;
  }

  lemma LowerIsLess(a: Cursor, b: Cursor)
    ensures CompareCursors(a, b) == Lower <==> Less(a, b)
  {
  }

  lemma AdvanceKeeps(last: Option<Cursor>, at: Cursor, cursor: Cursor)
    requires CompareCursors(cursor, at) != Lower && (last.Some? ==> !Less(at, last.value))
    ensures last.Some? ==> !Less(cursor, last.value)
  {
    if last.Some? {
      hide CompareCursors;
      LowerIsLess(cursor, at);
      LessIsTransitive(last.value, at, cursor);
    }
  }

  function Boundary(previous: Option<Cursor>): Option<int> {
    if previous.Some? then Some(previous.value.registered - OVERLAP) else None
  }

  ghost predicate StrictlyRises(trail: seq<Cursor>) {
    forall i, j :: 0 <= i < j < |trail| ==> Less(trail[i], trail[j])
  }

  /** Every row in range has been seen, at least as another row with the same cursor. */
  ghost predicate SeesAll(rows: seq<Row>, n: nat, seen: seq<Row>) {
    forall k :: 0 <= k < n && k < |rows| ==>
      rows[k].registered.Some? && exists i :: 0 <= i < |seen| && seen[i].registered.Some? && CursorOf(seen[i]) == CursorOf(rows[k])
  }

  /** No two rows in range share a cursor. */
  ghost predicate Distinct(rows: seq<Row>) {
    forall i, j :: 0 <= i < j < |rows| && rows[i].registered.Some? && rows[j].registered.Some? ==>
      Less(CursorOf(rows[i]), CursorOf(rows[j]))
  }

  /** The scan has seen the first `at` rows, which are those up to its last cursor. */
  ghost predicate StandsAt(rows: seq<Row>, at: nat, last: Option<Cursor>, seen: seq<Row>) {
    && at <= |rows|
    && (last.None? ==> at == 0)
    && (last.Some? ==> SplitsAt(rows, at, last.value))
    && SeesAll(rows, at, seen)
    && (forall i :: 0 <= i < |seen| ==> seen[i] in rows)
    && (Distinct(rows) ==> seen == rows[..at])
  }

  ghost predicate SplitsAt(rows: seq<Row>, at: nat, last: Cursor) {
    && (forall k :: 0 <= k < |rows| ==> rows[k].registered.Some?)
    && (forall k :: 0 <= k < at && k < |rows| ==> !Less(last, CursorOf(rows[k])))
    && (forall k :: at <= k < |rows| ==> Less(last, CursorOf(rows[k])))
  }

  lemma NothingSeen(previous: Option<Cursor>, lower: Option<int>, upper: int)
    ensures KeepsLatest([], map[]) && IsMaximum([], previous, previous) && AllInRange([], lower, upper) && StrictlyRises([])
  {
    if previous.Some? {
      CursorsAreTotallyOrdered(previous.value, previous.value);
    }
  }

  /** A page of a server that keeps its contract is the next rows. */
  lemma PageIsNext(server: Server, table: seq<Row>, lower: Option<int>, upper: int, last: Option<Cursor>, top: nat,
                   at: nat, seen: seq<Row>)
    requires Serves(server, table) && StandsAt(InRangeRows(table, lower, upper), at, last, seen)
    ensures var rows, page := InRangeRows(table, lower, upper), server.page(Query(lower, upper, last, top));
            && page == Take(rows[at..], top) && |page| <= top
            && IsOrderly(page, last, lower, upper)
            && (last.Some? && page != [] ==> Less(last.value, CursorOf(page[|page| - 1])))
  {
    hide Less, Select, SeesAll, Distinct, InRange, QueryFilter;
    var rows, q := InRangeRows(table, lower, upper), Query(lower, upper, last, top);
    SelectedIsSorted(table, lower, upper);
    assert Select(table, QueryFilter(q)) == rows[at..] by {
      if last.Some? {
        var i := AfterIsSuffix(table, q);
        assert i == at by {
          SplitIsUnique(rows, i, at, last.value);
        }
      } else {
        SameFilter(q);
        assert rows[0..] == rows;
      }
    }
    var page := Take(rows[at..], top);
    assert forall k :: 0 <= k < |page| ==> page[k] == rows[at + k];
    if last.Some? {
      forall k | 0 <= k < |page| ensures Less(last.value, CursorOf(page[k])) && !Less(CursorOf(page[k]), last.value) {
        CursorsAreTotallyOrdered(last.value, CursorOf(page[k]));
        CursorsAreTotallyOrdered(CursorOf(page[k]), last.value);
        SplitAt(rows, at, last.value, at + k);
      }
    }
  }

  lemma SameFilter(q: Query)
    requires q.after.None?
    ensures QueryFilter(q) == QueryFilter(Query(q.lower, q.upper, None, 0))
  {
  }

  lemma SplitAt(rows: seq<Row>, at: nat, last: Cursor, k: nat)
    requires SplitsAt(rows, at, last) && k < |rows|
    ensures rows[k].registered.Some? && (k < at <==> !Less(last, CursorOf(rows[k])))
  {
  }

  lemma SplitIsUnique(rows: seq<Row>, i: nat, j: nat, last: Cursor)
    requires i <= |rows| && j <= |rows| && SplitsAt(rows, i, last) && SplitsAt(rows, j, last)
    ensures i == j
  {
    hide SplitsAt;
    if i < j {
      SplitAt(rows, i, last, i);
      SplitAt(rows, j, last, i);
    } else if j < i {
      SplitAt(rows, i, last, j);
      SplitAt(rows, j, last, j);
    }
  }

  /** After a page, the rows seen are those up to the page's last cursor. */
  lemma PageSeen(table: seq<Row>, lower: Option<int>, upper: int, before: Option<Cursor>, top: nat,
                 at: nat, seenBefore: seq<Row>, page: seq<Row>, last: Option<Cursor>, seen: seq<Row>)
    returns (at': nat)
    requires Sorted(table) && top > 0
    requires StandsAt(InRangeRows(table, lower, upper), at, before, seenBefore)
    requires page == Take(InRangeRows(table, lower, upper)[at..], top) && seen == seenBefore + page
    requires AllInRange(page, lower, upper)
    requires last == if page == [] then before else Some(CursorOf(page[|page| - 1]))
    ensures StandsAt(InRangeRows(table, lower, upper), at', last, seen)
    ensures |page| < top ==> at' == |InRangeRows(table, lower, upper)|
    ensures Distinct(InRangeRows(table, lower, upper)) ==> at' == at + |page|
  {
    hide Less, Select, QueryFilter, Distinct, SeesAll, SplitsAt, StandsAt, InRange, Sorted;
    var rows := InRangeRows(table, lower, upper);
    SelectedIsSorted(table, lower, upper);
    if page == [] {
      at' := at;
      assert seen == seenBefore;
      StandsWithin(rows, at, before, seenBefore);
    } else {
      at' := AfterIsSuffix(table, Query(lower, upper, last, top));
      SplitFrom(rows, at', last.value, lower, upper);
      LastIsRegistered(page, lower, upper);
      PageStands(rows, at, at', before, top, seenBefore, page, last.value, seen);
    }
  }

  lemma StandsWithin(rows: seq<Row>, at: nat, last: Option<Cursor>, seen: seq<Row>)
    requires StandsAt(rows, at, last, seen)
    ensures at <= |rows|
  {
  }

  lemma LastIsRegistered(page: seq<Row>, lower: Option<int>, upper: int)
    requires AllInRange(page, lower, upper) && page != []
    ensures page[|page| - 1].registered.Some?
  {
  }

  lemma PageStands(rows: seq<Row>, at: nat, at': nat, before: Option<Cursor>, top: nat, seenBefore: seq<Row>,
                   page: seq<Row>, last: Cursor, seen: seq<Row>)
    requires Sorted(rows) && StandsAt(rows, at, before, seenBefore) && top > 0
    requires page == Take(rows[at..], top) && page != [] && seen == seenBefore + page
    requires page[|page| - 1].registered.Some? && last == CursorOf(page[|page| - 1])
    requires at' <= |rows| && SplitsAt(rows, at', last)
    ensures StandsAt(rows, at', Some(last), seen)
    ensures |page| < top ==> at' == |rows|
    ensures Distinct(rows) ==> at' == at + |page|
  {
    hide Less, Distinct, SeesAll, SplitsAt, Sorted;
    var end := at + |page|;
    assert end <= |rows| && rows[end - 1] == page[|page| - 1];
    assert forall k :: at <= k < end ==> rows[k] == page[k - at];
    PageEnds(rows, at', last, end, |page| < top);
    CoversPage(rows, at, at', page, seenBefore, last);
    forall i | 0 <= i < |seen| ensures seen[i] in rows {
      if i >= |seenBefore| {
        assert seen[i] == rows[at + i - |seenBefore|];
      }
    }
    if Distinct(rows) {
      assert rows[..end] == rows[..at] + page;
    }
  }

  lemma SplitFrom(rows: seq<Row>, at: nat, last: Cursor, lower: Option<int>, upper: int)
    requires AllInRange(rows, lower, upper)
    requires forall k :: 0 <= k < at && k < |rows| ==> !Less(last, CursorOf(rows[k]))
    requires forall k :: at <= k < |rows| ==> Less(last, CursorOf(rows[k]))
    ensures SplitsAt(rows, at, last)
  {
    hide Less;
  }

  /** A cut at the cursor of row `end - 1` is not before `end`; it is `end` when cursors are distinct or rows run out. */
  lemma PageEnds(rows: seq<Row>, at': nat, last: Cursor, end: nat, isShort: bool)
    requires at' <= |rows| && SplitsAt(rows, at', last) && 0 < end <= |rows|
    requires rows[end - 1].registered.Some? && CursorOf(rows[end - 1]) == last
    requires isShort ==> end == |rows|
    ensures end <= at'
    ensures isShort || Distinct(rows) ==> at' == end
  {
    hide Less;
    CursorsAreTotallyOrdered(last, last);
    SplitAt(rows, at', last, end - 1);
    if end < |rows| {
      SplitAt(rows, at', last, end);
    }
  }

  lemma SeenAt(rows: seq<Row>, n: nat, seen: seq<Row>, k: nat) returns (i: nat)
    requires SeesAll(rows, n, seen) && k < n && k < |rows|
    ensures rows[k].registered.Some? && i < |seen| && seen[i].registered.Some? && CursorOf(seen[i]) == CursorOf(rows[k])
  {
    assert rows[k].registered.Some?;
    var j :| 0 <= j < |seen| && seen[j].registered.Some? && CursorOf(seen[j]) == CursorOf(rows[k]);
    i := j;
  }

  /** Rows past the page but not after its last cursor share that cursor. */
  lemma CoversPage(rows: seq<Row>, at: nat, at': nat, page: seq<Row>, seen: seq<Row>, last: Cursor)
    requires Sorted(rows) && at + |page| <= at' <= |rows| && page != [] && SeesAll(rows, at, seen)
    requires forall k :: at <= k < at + |page| ==> rows[k] == page[k - at]
    requires SplitsAt(rows, at', last) && CursorOf(rows[at + |page| - 1]) == last
    ensures SeesAll(rows, at', seen + page)
  {
    hide Less;
    var more := seen + page;
    forall k | 0 <= k < at'
      ensures rows[k].registered.Some?
      ensures exists i :: 0 <= i < |more| && more[i].registered.Some? && CursorOf(more[i]) == CursorOf(rows[k])
    {
      if k < at {
        var i := SeenAt(rows, at, seen, k);
        assert more[i] == seen[i];
      } else if k < at + |page| {
        assert more[|seen| + k - at] == rows[k];
      } else {
        var end := at + |page| - 1;
        CursorsAreTotallyOrdered(CursorOf(rows[k]), last);
        assert !Less(CursorOf(rows[k]), CursorOf(rows[end]));
        assert more[|seen| + |page| - 1] == rows[end];
      }
    }
  }

  /** Where a scan of a server that keeps its contract stands after `n` full pages. */
  ghost predicate Follows(server: Server, table: seq<Row>, rows: seq<Row>, at: nat, last: Option<Cursor>, seen: seq<Row>, n: nat) {
    Serves(server, table) ==> StandsAt(rows, at, last, seen) && (Distinct(rows) ==> at == n)
  }

  lemma FollowsStart(server: Server, table: seq<Row>, rows: seq<Row>)
    ensures Follows(server, table, rows, 0, None, [], 0)
  {
    hide Serves, Distinct;
  }

  lemma FollowsPage(server: Server, table: seq<Row>, lower: Option<int>, upper: int, last: Option<Cursor>, top: nat,
                    at: nat, seen: seq<Row>, n: nat)
    requires Serves(server, table) && Follows(server, table, InRangeRows(table, lower, upper), at, last, seen, n)
    ensures var page := server.page(Query(lower, upper, last, top));
            && |page| <= top && IsOrderly(page, last, lower, upper)
            && (last.Some? && page != [] ==> page[|page| - 1].registered.Some?
                                             && Less(last.value, CursorOf(page[|page| - 1])))
  {
    hide Serves, Distinct, StandsAt, Sorted, Less;
    PageIsNext(server, table, lower, upper, last, top, at, seen);
  }

  lemma FollowsNext(server: Server, table: seq<Row>, lower: Option<int>, upper: int, before: Option<Cursor>, top: nat,
                    at: nat, seenBefore: seq<Row>, n: nat, last: Option<Cursor>, seen: seq<Row>)
    returns (at': nat)
    requires top > 0 && Follows(server, table, InRangeRows(table, lower, upper), at, before, seenBefore, n)
    requires Serves(server, table) ==>
               var page := server.page(Query(lower, upper, before, top));
               && AllInRange(page, lower, upper) && seen == seenBefore + page
               && last == if page == [] then before else Some(CursorOf(page[|page| - 1]))
    ensures var rows, page := InRangeRows(table, lower, upper), server.page(Query(lower, upper, before, top));
            && (|page| == top ==> Follows(server, table, rows, at', last, seen, n + top))
            && (|page| < top && Serves(server, table) ==>
                  && SeesAll(rows, |rows|, seen) && (forall i :: 0 <= i < |seen| ==> seen[i] in rows)
                  && (Distinct(rows) ==> seen == rows && |rows| < n + top))
  {
    hide Distinct, Less, Select, SeesAll, SplitsAt, InRangeRows;
    at' := at;
    if Serves(server, table) {
      var rows, page := InRangeRows(table, lower, upper), server.page(Query(lower, upper, before, top));
      PageIsNext(server, table, lower, upper, before, top, at, seenBefore);
      at' := PageSeen(table, lower, upper, before, top, at, seenBefore, page, last, seen);
      assert rows[..|rows|] == rows;
    }
  }

  lemma FollowsToLimit(server: Server, table: seq<Row>, rows: seq<Row>, at: nat, last: Option<Cursor>, seen: seq<Row>, n: nat)
    requires Follows(server, table, rows, at, last, seen, n)
    ensures Serves(server, table) && Distinct(rows) ==> n <= |rows|
  {
    hide Distinct, Serves;
  }

  lemma TrailStep(trail: seq<Cursor>, next: Cursor)
    requires StrictlyRises(trail) && (trail != [] ==> Less(trail[|trail| - 1], next))
    ensures StrictlyRises(trail + [next])
  {
    hide CompareCursors, Less;
    var more := trail + [next];
    forall i, j | 0 <= i < j < |more| ensures Less(more[i], more[j]) {
      if j == |trail| && i < |trail| - 1 {
        var top := trail[|trail| - 1];
        CursorsAreTotallyOrdered(trail[i], top);
        CursorsAreTotallyOrdered(top, trail[i]);
        CursorsAreTotallyOrdered(top, next);
        CursorsAreTotallyOrdered(next, top);
        LessIsTransitive(trail[i], top, next);
      }
    }
  }

  /** Every key registered in range once, with its latest row; nothing else; a cursor past all of them. */
  ghost predicate IsComplete(table: seq<Row>, previous: Option<Cursor>, scan: VersionScan) {
    && (forall row :: row in table && InRange(row, Boundary(previous), scan.upper) ==>
          && row.key in scan.versions && scan.versions[row.key].registered.Some?
          && !Less(CursorOf(scan.versions[row.key]), CursorOf(row))
          && scan.proposed.Some? && !Less(scan.proposed.value, CursorOf(row)))
    && (forall key :: key in scan.versions ==>
          scan.versions[key] in table && scan.versions[key].key == key && InRange(scan.versions[key], Boundary(previous), scan.upper))
    && (scan.proposed == previous
        || exists row :: row in table && InRange(row, Boundary(previous), scan.upper) && scan.proposed == Some(CursorOf(row)))
  }

  lemma SeesAllIsComplete(table: seq<Row>, previous: Option<Cursor>, scan: VersionScan, seen: seq<Row>)
    requires Sorted(table) && KeepsLatest(seen, scan.versions) && IsMaximum(seen, previous, scan.proposed)
    requires var rows := InRangeRows(table, Boundary(previous), scan.upper);
             SeesAll(rows, |rows|, seen) && forall i :: 0 <= i < |seen| ==> seen[i] in rows
    ensures IsComplete(table, previous, scan)
  {
    hide InRangeRows, Less, InRange, SeesAll;
    var rows := InRangeRows(table, Boundary(previous), scan.upper);
    SelectedIsSorted(table, Boundary(previous), scan.upper);
    forall row | row in table && InRange(row, Boundary(previous), scan.upper)
      ensures row.registered.Some? && row.key in scan.versions && scan.versions[row.key].registered.Some?
      ensures !Less(CursorOf(scan.versions[row.key]), CursorOf(row))
      ensures scan.proposed.Some? && !Less(scan.proposed.value, CursorOf(row))
    {
      var k :| 0 <= k < |rows| && rows[k] == row;
      var i := SeenAt(rows, |rows|, seen, k);
      assert seen[i].key == row.key;
      KeptIsRegistered(seen, scan.versions, row.key);
    }
  }

  /** Some row of the key is registered from `from` to `to`, both included. */
  ghost predicate IsRegistered(table: seq<Row>, key: Key, from: int, to: int) {
    exists row :: row in table && row.key == key && row.registered.Some? && from <= row.registered.value <= to
  }

  ghost predicate IsRegisteredBy(table: seq<Row>, key: Key, to: int) {
    exists row :: row in table && row.key == key && row.registered.Some? && row.registered.value <= to
  }

  /** No row of the key up to `to` is registered after the one kept. */
  ghost predicate IsNewest(table: seq<Row>, kept: Row, to: int) {
    && kept.registered.Some? && kept.registered.value <= to
    && forall row :: row in table && row.key == kept.key && row.registered.Some? && row.registered.value <= to ==>
         row.registered.value <= kept.registered.value
  }

  /**
    In plain terms: the keys found are those registered in the window, which begins seven days before
    the old cursor and ends when the scan starts; each with its newest row.
   */
  lemma CompleteIsWindow(table: seq<Row>, previous: Option<Cursor>, scan: VersionScan)
    requires IsComplete(table, previous, scan)
    ensures previous.Some? ==> forall key ::
              key in scan.versions <==> IsRegistered(table, key, previous.value.registered - 7 * 24 * 60 * 60 * 10000000, scan.upper)
    ensures previous.None? ==> forall key :: key in scan.versions <==> IsRegisteredBy(table, key, scan.upper)
    ensures forall key :: key in scan.versions ==>
              scan.versions[key] in table && scan.versions[key].key == key && IsNewest(table, scan.versions[key], scan.upper)
  {
    hide Less;
    forall key | key in scan.versions ensures IsNewest(table, scan.versions[key], scan.upper) {
      var kept := scan.versions[key];
      forall row | row in table && row.key == key && row.registered.Some? && row.registered.value <= scan.upper
        ensures row.registered.value <= kept.registered.value
      {
        if InRange(row, Boundary(previous), scan.upper) {
          NotLessNotEarlier(CursorOf(kept), CursorOf(row));
        }
      }
    }
    forall key | key !in scan.versions
      ensures previous.Some? ==> !IsRegistered(table, key, previous.value.registered - 7 * 24 * 60 * 60 * 10000000, scan.upper)
      ensures previous.None? ==> !IsRegisteredBy(table, key, scan.upper)
    {
      assert forall row :: row in table && row.key == key ==> !InRange(row, Boundary(previous), scan.upper);
    }
  }

  lemma NotLessNotEarlier(a: Cursor, b: Cursor)
    requires !Less(a, b)
    ensures a.registered >= b.registered
  {
  }

  /**
    The scan. `seen` are the rows in range that the pages held and `trail` the cursors the pages
    ended at. The first clauses hold for any answers; the last for a server that keeps its contract.
   */
  method ScanVersions(server: Server, previous: Option<Cursor>, startedAt: int, pageSize: nat, ghost table: seq<Row>)
    returns (r: Result<VersionScan, ScanError>, ghost seen: seq<Row>, ghost trail: seq<Cursor>)
    ensures r == Err(InvalidPageSize) <==> pageSize == 0 || pageSize > 100
    ensures r.Ok? ==>
              && r.value.upper == startedAt && AllInRange(seen, Boundary(previous), startedAt)
              && KeepsLatest(seen, r.value.versions) && IsMaximum(seen, previous, r.value.proposed)
    ensures StrictlyRises(trail)
    ensures Serves(server, table) && 0 < pageSize <= 100 ==>
              var rows := InRangeRows(table, Boundary(previous), startedAt);
              && (r.Ok? || r == Err(PageLimit))
              && (r.Ok? ==> IsComplete(table, previous, r.value))
              && (Distinct(rows) ==> (r.Ok? <==> |rows| < 16384 * pageSize))
              && (Distinct(rows) && r.Ok? ==> seen == rows)
    ensures Serves(server, table) && r.Ok? && previous.Some? ==> forall key ::
              key in r.value.versions <==>
              IsRegistered(table, key, previous.value.registered - 7 * 24 * 60 * 60 * 10000000, startedAt)
    ensures Serves(server, table) && r.Ok? && previous.None? ==> forall key ::
              key in r.value.versions <==> IsRegisteredBy(table, key, startedAt)
    ensures Serves(server, table) && r.Ok? ==> forall key :: key in r.value.versions ==>
              && r.value.versions[key] in table && r.value.versions[key].key == key
              && IsNewest(table, r.value.versions[key], startedAt)
  {
    hide IsRegistered, IsRegisteredBy, IsNewest;
    hide KeepsLatest, IsMaximum, Less, CompareCursors, StrictlyRises, AllInRange, SeesAll, Serves, Distinct;
    hide InRangeRows, Follows, IsOrderly, IsComplete, Sorted;
    seen, trail := [], [];
    NothingSeen(previous, Boundary(previous), startedAt);
    if pageSize == 0 || pageSize > PAGE_SIZE {
      return Err(InvalidPageSize), seen, trail;
    }
    var lower := Boundary(previous);
    var versions: map<Key, Row> := map[];
    var maximum := previous;
    var last: Option<Cursor> := None;
    ghost var at := 0;
    FollowsStart(server, table, InRangeRows(table, lower, startedAt));
    for pages := 0 to MAX_VERSION_PAGES
      invariant KeepsLatest(seen, versions) && IsMaximum(seen, previous, maximum) && AllInRange(seen, lower, startedAt)
      invariant StrictlyRises(trail) && (trail != [] ==> last == Some(trail[|trail| - 1]))
      invariant Follows(server, table, InRangeRows(table, lower, startedAt), at, last, seen, pages * pageSize)
    {
      var before := last;
      var page := server.page(Query(lower, startedAt, before, pageSize));
      ghost var seenBefore := seen;
      if Serves(server, table) {
        FollowsPage(server, table, lower, startedAt, before, pageSize, at, seen, pages * pageSize);
        OrderlyInRange(page, before, lower, startedAt);
      }
      if |page| > pageSize {
        return Err(TooManyRows), seen, trail;
      }
      var ok, reachedCeiling;
      ok, reachedCeiling, last, versions, maximum, seen := ScanPage(page, last, lower, startedAt, previous, versions, maximum, seen);
      if !ok {
        return Err(OutOfOrder), seen, trail;
      }
      if before.Some? && last.Some? {
        CursorsAreTotallyOrdered(last.value, before.value);
        if page != [] && CompareCursors(last.value, before.value) != Higher {
          return Err(NoProgress), seen, trail;
        }
      }
      if page != [] && last.Some? {
        TrailStep(trail, last.value);
        trail := trail + [last.value];
      }
      at := FollowsNext(server, table, lower, startedAt, before, pageSize, at, seenBefore, pages * pageSize, last, seen);
      BoundedPages(pages, pageSize);
      if reachedCeiling || |page| < pageSize {
        if Serves(server, table) {
          TableIsSorted(server, table);
          SeesAllIsComplete(table, previous, VersionScan(versions, maximum, startedAt), seen);
          CompleteIsWindow(table, previous, VersionScan(versions, maximum, startedAt));
        }
        return Ok(VersionScan(versions, maximum, startedAt)), seen, trail;
      }
    }
    FollowsToLimit(server, table, InRangeRows(table, lower, startedAt), at, last, seen, MAX_VERSION_PAGES * pageSize);
    return Err(PageLimit), seen, trail;
  }

  lemma TableIsSorted(server: Server, table: seq<Row>)
    requires Serves(server, table)
    ensures Sorted(table)
  {
  }

  lemma BoundedPages(pages: nat, pageSize: nat)
    requires pages < MAX_VERSION_PAGES
    ensures pages * pageSize + pageSize == (pages + 1) * pageSize <= MAX_VERSION_PAGES * pageSize
  {
    Monotone(pages + 1, MAX_VERSION_PAGES, pageSize);
  }

  lemma Monotone(a: nat, b: nat, n: nat)
    requires a <= b
    ensures a * n <= b * n
  {
    assert b * n == a * n + (b - a) * n;
  }

  lemma OrderlyInRange(page: seq<Row>, last: Option<Cursor>, lower: Option<int>, upper: int)
    requires IsOrderly(page, last, lower, upper)
    ensures AllInRange(page, lower, upper) && forall i :: 0 <= i < |page| ==> page[i].registered.Some?
  {
  }
}
