/**
 * What the handler reads off the dashboard's tables (src/website_handler.py),
 * with each table row given as the texts of its cells.
 *
 * `get_reserved_lesson_date_time` and `get_booked_lesson_date_time` file
 * each row of the reserved or booked table under the category its lesson
 * name names: the lesson name is stored, and the slot "start - end" (each
 * time without its last three characters) is appended to the day's list.
 * The reserved table leaves practical lessons alone.
 *
 * `get_all_session_date_times` collects, from the available-sessions
 * table, the time labels of the header cells and the day label of each row,
 * each label once, in first-seen order.
 */
module LessonRows {
  import opened Wrappers
  import opened Text
  import opened SessionMaps
  import opened CdcAbstract

  // ------------------------------------------------------ lesson classification

  /** The category a lesson name belongs to: the first marker it contains wins. */
  function Classify(name: string): Option<Category>
  {
    if Contains(name, "SIMULATOR") then Some(Simulator)
    else if Contains(name, "Lesson") then Some(Practical)
    else if Contains(name, "2BL") then Some(Practical)
    else if Contains(name, "ONETEAM") then Some(Practical)
    else if Contains(name, "BTT") then Some(Btt)
    else if Contains(name, "RTT") then Some(Rtt)
    else if Contains(name, "FTT") then Some(Ftt)
    else if Contains(name, "PT") then Some(Pt)
    else None
  }

  /** The markers, in the order they are tested. */
  const Markers: seq<string> := ["SIMULATOR", "Lesson", "2BL", "ONETEAM", "BTT", "RTT", "FTT", "PT"]

  /**
   * A name is classified iff it contains some marker; "SIMULATOR" wins over
   * every other marker, and a practical marker wins over the theory and test
   * markers.
   */
  lemma ClassifyFacts(name: string)
    ensures Classify(name).Some? <==> exists i :: 0 <= i < |Markers| && Contains(name, Markers[i])
    ensures Contains(name, "SIMULATOR") ==> Classify(name) == Some(Simulator)
    ensures Classify(name) == Some(Practical) <==>
              !Contains(name, "SIMULATOR") &&
              (Contains(name, "Lesson") || Contains(name, "2BL") || Contains(name, "ONETEAM"))
    ensures Classify(name) == Some(Pt) ==> Contains(name, "PT")
  {
    if Classify(name).None? {
      forall i | 0 <= i < |Markers| ensures !Contains(name, Markers[i]) {
      }
    } else {
      assert Contains(name, Markers[0]) || Contains(name, Markers[1]) || Contains(name, Markers[2]) ||
             Contains(name, Markers[3]) || Contains(name, Markers[4]) || Contains(name, Markers[5]) ||
             Contains(name, Markers[6]) || Contains(name, Markers[7]);
    }
  }

  /** A row's `td` texts: day, (unused), start, end, lesson name, ... */
  type Row = seq<string>

  /** A row without cells is skipped; one with cells must reach the lesson name. */
  predicate WellFormed(r: Row) { r == [] || |r| >= 5 }

  predicate AllWellFormed(rows: seq<Row>) { forall i :: 0 <= i < |rows| ==> WellFormed(rows[i]) }

  /** Python's `s[:-3]`: the text without its last three characters, empty when shorter. */
  function DropLast3(s: string): (r: string)
    ensures |r| == if |s| >= 3 then |s| - 3 else 0
    ensures r <= s
  {
    if |s| >= 3 then s[..|s| - 3] else ""
  }

  /** The slot label of a row: start and end time, each cut by `[:-3]`. */
  function SlotLabel(r: Row): string
    requires |r| >= 4
  {
    DropLast3(r[2]) + " - " + DropLast3(r[3])
  }

  /** The category a row is filed under; the reserved table skips practical lessons. */
  function RowCategory(r: Row, reservedTable: bool): Option<Category>
    requires WellFormed(r)
  {
    if r == [] then None
    else
      match Classify(r[4])
      case None => None
      case Some(c) => if reservedTable && c == Practical then None else Some(c)
  }

  /** The session map a table fills: reserved or booked. */
  function Table(st: CategoryState, reservedTable: bool): Sessions
  {
    if reservedTable then st.reserved else st.booked
  }

  /** The category's state after filing row `r`: its lesson name, and the slot appended to its day. */
  function FileRow(st: CategoryState, r: Row, reservedTable: bool): CategoryState
    requires |r| >= 5
  {
    var table := AppendSlot(Table(st, reservedTable), r[0], SlotLabel(r));
    if reservedTable then st.(lessonName := r[4], reserved := table)
    else st.(lessonName := r[4], booked := table)
  }

  predicate AllCategories(cats: map<Category, CategoryState>) { forall c: Category :: c in cats }

  /** The categories after one row. */
  function AddRow(cats: map<Category, CategoryState>, r: Row, reservedTable: bool): map<Category, CategoryState>
    requires AllCategories(cats) && WellFormed(r)
  {
    match RowCategory(r, reservedTable)
    case None => cats
    case Some(c) => cats[c := FileRow(cats[c], r, reservedTable)]
  }

  /** The categories after the rows, in table order. */
  function AddRows(cats: map<Category, CategoryState>, rows: seq<Row>, reservedTable: bool): (r: map<Category, CategoryState>)
    requires AllCategories(cats) && AllWellFormed(rows)
    ensures AllCategories(r)
  {
    if rows == [] then cats
    else AddRow(AddRows(cats, rows[..|rows| - 1], reservedTable), rows[|rows| - 1], reservedTable)
  }

  /** The slot labels the rows file under category `c` and day `d`, in order. */
  function LabelsFiled(rows: seq<Row>, c: Category, d: Day, reservedTable: bool): seq<Slot>
    requires AllWellFormed(rows)
  {
    if rows == [] then []
    else
      var last := rows[|rows| - 1];
      LabelsFiled(rows[..|rows| - 1], c, d, reservedTable) +
      (if RowCategory(last, reservedTable) == Some(c) && last[0] == d then [SlotLabel(last)] else [])
  }

  /** The number of rows filed under category `c`. */
  function RowsFiled(rows: seq<Row>, c: Category, reservedTable: bool): nat
    requires AllWellFormed(rows)
  {
    if rows == [] then 0
    else RowsFiled(rows[..|rows| - 1], c, reservedTable) + (if RowCategory(rows[|rows| - 1], reservedTable) == Some(c) then 1 else 0)
  }

  /** The lesson name of the last row filed under `c`, or `name` when there is none. */
  function LastName(rows: seq<Row>, c: Category, reservedTable: bool, name: string): string
    requires AllWellFormed(rows)
  {
    if rows == [] then name
    else if RowCategory(rows[|rows| - 1], reservedTable) == Some(c) then rows[|rows| - 1][4]
    else LastName(rows[..|rows| - 1], c, reservedTable, name)
  }

  /** Only the lesson name and the table's map of a category may differ. */
  predicate OnlyNameAndTable(before: CategoryState, after: CategoryState, reservedTable: bool)
  {
    if reservedTable then after == before.(lessonName := after.lessonName, reserved := after.reserved)
    else after == before.(lessonName := after.lessonName, booked := after.booked)
  }

  // ------------------------------------------------------------------ lemmas

  /** Appending slot `t` to day `d0` adds it to the end of that day's list only. */
  lemma SlotsOfAppend(s: Sessions, d0: Day, t: Slot, d: Day)
    ensures SlotsOf(AppendSlot(s, d0, t), d) == SlotsOf(s, d) + (if d == d0 then [t] else [])
  {
  }

  /** One row changes only the category it is filed under. */
  lemma AddRowAt(cats: map<Category, CategoryState>, r: Row, reservedTable: bool, c: Category)
    requires AllCategories(cats) && WellFormed(r)
    ensures AddRow(cats, r, reservedTable)[c] ==
            if RowCategory(r, reservedTable) == Some(c) then FileRow(cats[c], r, reservedTable) else cats[c]
  {
  }

  /** Filing a row sets the lesson name, appends the slot, and changes nothing else. */
  lemma FileRowFacts(st: CategoryState, r: Row, reservedTable: bool)
    requires |r| >= 5
    ensures var after := FileRow(st, r, reservedTable);
            Table(after, reservedTable) == AppendSlot(Table(st, reservedTable), r[0], SlotLabel(r)) &&
            after.lessonName == r[4] && OnlyNameAndTable(st, after, reservedTable)
  {
  }

  /** One row adds its label to its own category and day only. */
  lemma AddRowSlots(cats: map<Category, CategoryState>, r: Row, reservedTable: bool, c: Category, d: Day)
    requires AllCategories(cats) && WellFormed(r)
    ensures SlotsOf(Table(AddRow(cats, r, reservedTable)[c], reservedTable), d) ==
            SlotsOf(Table(cats[c], reservedTable), d) +
            (if RowCategory(r, reservedTable) == Some(c) && r[0] == d then [SlotLabel(r)] else [])
  {
    AddRowAt(cats, r, reservedTable, c);
    if RowCategory(r, reservedTable) == Some(c) {
      FileRowFacts(cats[c], r, reservedTable);
      SlotsOfAppend(Table(cats[c], reservedTable), r[0], SlotLabel(r), d);
    }
  }

  lemma AppendAssoc<T>(a: seq<T>, b: seq<T>, c: seq<T>)
    ensures (a + b) + c == a + (b + c)
  {
  }

  lemma PrefixWellFormed(rows: seq<Row>)
    requires AllWellFormed(rows) && rows != []
    ensures AllWellFormed(rows[..|rows| - 1]) && WellFormed(rows[|rows| - 1])
  {
  }

  /**
   * Filing the rows appends, to each day's list of each category, the
   * labels of the rows for that category and day, in table order.
   */
  lemma {:induction false} AddRowsSlots(cats: map<Category, CategoryState>, rows: seq<Row>, reservedTable: bool,
                                        c: Category, d: Day)
    requires AllCategories(cats) && AllWellFormed(rows)
    ensures SlotsOf(Table(AddRows(cats, rows, reservedTable)[c], reservedTable), d) ==
            SlotsOf(Table(cats[c], reservedTable), d) + LabelsFiled(rows, c, d, reservedTable)
  {
    if rows != [] {
      var init, last := rows[..|rows| - 1], rows[|rows| - 1];
      PrefixWellFormed(rows);
      AddRowsSlots(cats, init, reservedTable, c, d);
      var before := AddRows(cats, init, reservedTable);
      var extra := if RowCategory(last, reservedTable) == Some(c) && last[0] == d then [SlotLabel(last)] else [];
      AddRowSlots(before, last, reservedTable, c, d);
      AppendAssoc(SlotsOf(Table(cats[c], reservedTable), d), LabelsFiled(init, c, d, reservedTable), extra);
    }
  }

  /** Each row filed under a category adds exactly one slot to its table. */
  lemma {:induction false} AddRowsCount(cats: map<Category, CategoryState>, rows: seq<Row>, reservedTable: bool, c: Category)
    requires AllCategories(cats) && AllWellFormed(rows)
    ensures SlotCount(Table(AddRows(cats, rows, reservedTable)[c], reservedTable)) ==
            SlotCount(Table(cats[c], reservedTable)) + RowsFiled(rows, c, reservedTable)
  {
    if rows != [] {
      var init, last := rows[..|rows| - 1], rows[|rows| - 1];
      PrefixWellFormed(rows);
      AddRowsCount(cats, init, reservedTable, c);
      var before := AddRows(cats, init, reservedTable);
      AddRowAt(before, last, reservedTable, c);
      if RowCategory(last, reservedTable) == Some(c) {
        FileRowFacts(before[c], last, reservedTable);
        var s := Table(before[c], reservedTable);
        CountPut(s, last[0], SlotsOf(s, last[0]) + [SlotLabel(last)]);
      }
    }
  }

  /**
   * Filing changes only the lesson name and the table's map of a category;
   * the name is that of the last row filed under it. The reserved table
   * never touches practical lessons.
   */
  lemma {:induction false} AddRowsFrame(cats: map<Category, CategoryState>, rows: seq<Row>, reservedTable: bool, c: Category)
    requires AllCategories(cats) && AllWellFormed(rows)
    ensures var after := AddRows(cats, rows, reservedTable)[c];
            OnlyNameAndTable(cats[c], after, reservedTable) &&
            after.lessonName == LastName(rows, c, reservedTable, cats[c].lessonName)
    ensures reservedTable ==> AddRows(cats, rows, reservedTable)[Practical] == cats[Practical]
  {
    if rows != [] {
      var init, last := rows[..|rows| - 1], rows[|rows| - 1];
      PrefixWellFormed(rows);
      AddRowsFrame(cats, init, reservedTable, c);
      AddRowsFrame(cats, init, reservedTable, Practical);
      var before := AddRows(cats, init, reservedTable);
      AddRowAt(before, last, reservedTable, c);
      AddRowAt(before, last, reservedTable, Practical);
      if RowCategory(last, reservedTable) == Some(c) {
        FileRowFacts(before[c], last, reservedTable);
      }
    }
  }

  // ---------------------------------------------------- days and times in view

  /** A row of the available-sessions table: its `th` texts and its `td` texts. */
  datatype TableRow = TableRow(headers: seq<string>, cells: seq<string>)

  /** Python's `s.split("\n")[1]`: the text between the first and the second line break. */
  function SecondLine(s: string): string
    requires '\n' in s
  {
    if s[0] == '\n' then FirstLine(s[1..]) else SecondLine(s[1..])
  }

  /** The text up to the first line break, or all of it. */
  function FirstLine(s: string): (r: string)
    ensures r <= s && '\n' !in r
  {
    if s == [] || s[0] == '\n' then "" else [s[0]] + FirstLine(s[1..])
  }

  /** Every header cell from the third on holds a time on its second line. */
  predicate HeadersSplit(rows: seq<TableRow>)
  {
    forall k, i :: 0 <= k < |rows| && 2 <= i < |rows[k].headers| ==> '\n' in rows[k].headers[i]
  }

  /** The times of header cells `2..n`, in order. */
  function HeaderTimes(headers: seq<string>, n: nat): seq<string>
    requires n <= |headers| && forall i :: 2 <= i < |headers| ==> '\n' in headers[i]
  {
    if n <= 2 then [] else HeaderTimes(headers, n - 1) + [SecondLine(headers[n - 1])]
  }

  /** `if x not in xs: xs.append(x)`. */
  function AddNew(xs: seq<string>, x: string): seq<string>
  {
    if x in xs then xs else xs + [x]
  }

  /** `AddNew` of each of `ys` in turn. */
  function AddAll(xs: seq<string>, ys: seq<string>): seq<string>
  {
    if ys == [] then xs else AddNew(AddAll(xs, ys[..|ys| - 1]), ys[|ys| - 1])
  }

  /** The times list after the rows. */
  function CollectTimes(times: seq<string>, rows: seq<TableRow>): seq<string>
    requires HeadersSplit(rows)
  {
    if rows == [] then times
    else
      var last := rows[|rows| - 1];
      assert HeadersSplit(rows[..|rows| - 1]) && forall i :: 2 <= i < |last.headers| ==> '\n' in last.headers[i] by {
        assert forall k :: 0 <= k < |rows| - 1 ==> rows[..|rows| - 1][k] == rows[k];
      }
      AddAll(CollectTimes(times, rows[..|rows| - 1]), HeaderTimes(last.headers, |last.headers|))
  }

  /** The days list after the rows: each row with cells adds its first cell's day. */
  function CollectDays(days: seq<string>, rows: seq<TableRow>): seq<string>
  {
    if rows == [] then days
    else
      var last := rows[|rows| - 1];
      var before := CollectDays(days, rows[..|rows| - 1]);
      if last.cells == [] then before else AddNew(before, last.cells[0])
  }

  /**
   * Adding labels keeps the list, appends only new labels, and holds exactly
   * the old and the added ones; a list without repeats stays so.
   */
  lemma {:induction false} AddAllFacts(xs: seq<string>, ys: seq<string>)
    ensures xs <= AddAll(xs, ys)
    ensures forall x :: x in AddAll(xs, ys) <==> x in xs || x in ys
    ensures NoDup(xs) ==> NoDup(AddAll(xs, ys))
  {
    if ys != [] {
      var init := ys[..|ys| - 1];
      AddAllFacts(xs, init);
      assert ys == init + [ys[|ys| - 1]];
    }
  }

  /** Row `r` shows day `x` in its first cell. */
  predicate RowDay(r: TableRow, x: string) { r.cells != [] && r.cells[0] == x }

  /** The days: the old list is kept, each new day is added once, and nothing else. */
  lemma {:induction false} CollectDaysFacts(days: seq<string>, rows: seq<TableRow>, x: string)
    ensures days <= CollectDays(days, rows)
    ensures x in CollectDays(days, rows) <==> x in days || exists k :: 0 <= k < |rows| && RowDay(rows[k], x)
    ensures NoDup(days) ==> NoDup(CollectDays(days, rows))
  {
    if rows != [] {
      var init := rows[..|rows| - 1];
      CollectDaysFacts(days, init, x);
      if exists k :: 0 <= k < |init| && RowDay(init[k], x) {
        var k :| 0 <= k < |init| && RowDay(init[k], x);
        assert rows[k] == init[k];
      }
      if exists k :: 0 <= k < |rows| && RowDay(rows[k], x) {
        var k :| 0 <= k < |rows| && RowDay(rows[k], x);
        if k < |init| {
          assert init[k] == rows[k];
        }
      }
    }
  }

  /** The times: the old list is kept, only new times are appended, and a list without repeats stays so. */
  lemma {:induction false} CollectTimesFacts(times: seq<string>, rows: seq<TableRow>)
    requires HeadersSplit(rows)
    ensures times <= CollectTimes(times, rows)
    ensures NoDup(times) ==> NoDup(CollectTimes(times, rows))
  {
    if rows != [] {
      var init, last := rows[..|rows| - 1], rows[|rows| - 1];
      assert forall k :: 0 <= k < |init| ==> init[k] == rows[k];
      CollectTimesFacts(times, init);
      AddAllFacts(CollectTimes(times, init), HeaderTimes(last.headers, |last.headers|));
    }
  }

  /** Each header's time, from the third header cell on, ends up in the times list. */
  lemma {:induction false} CollectTimesHas(times: seq<string>, rows: seq<TableRow>, k: nat, i: nat)
    requires HeadersSplit(rows) && k < |rows| && 2 <= i < |rows[k].headers|
    ensures SecondLine(rows[k].headers[i]) in CollectTimes(times, rows)
  {
    var init, last := rows[..|rows| - 1], rows[|rows| - 1];
    assert forall j :: 0 <= j < |init| ==> init[j] == rows[j];
    AddAllFacts(CollectTimes(times, init), HeaderTimes(last.headers, |last.headers|));
    if k < |init| {
      CollectTimesHas(times, init, k, i);
    } else {
      HeaderTimesHas(last.headers, |last.headers|, i);
    }
  }

  lemma {:induction false} HeaderTimesHas(headers: seq<string>, n: nat, i: nat)
    requires n <= |headers| && forall j :: 2 <= j < |headers| ==> '\n' in headers[j]
    requires 2 <= i < n
    ensures SecondLine(headers[i]) in HeaderTimes(headers, n)
  {
    if i < n - 1 {
      HeaderTimesHas(headers, n - 1, i);
    }
  }

  // ---------------------------------------------------------------- methods

  /** `AddAll` with one more label is `AddNew` of it. */
  lemma AddAllSnoc(xs: seq<string>, ys: seq<string>, y: string)
    ensures AddAll(xs, ys + [y]) == AddNew(AddAll(xs, ys), y)
  {
    assert (ys + [y])[..|ys|] == ys;
  }

  /** The inner loop of `get_all_session_date_times`: the header cells' times, from the third cell on. */
  method AddHeaderTimes(times: seq<string>, headers: seq<string>) returns (r: seq<string>)
    requires forall i :: 2 <= i < |headers| ==> '\n' in headers[i]
    ensures r == AddAll(times, HeaderTimes(headers, |headers|))
  {
    r := times;
    if |headers| <= 2 {
      return;
    }
    var i := 2;
    while i < |headers|
      invariant 2 <= i <= |headers|
      invariant r == AddAll(times, HeaderTimes(headers, i))
    {
      var t := SecondLine(headers[i]);
      AddAllSnoc(times, HeaderTimes(headers, i), t);
      if t !in r {
        r := r + [t];
      }
      i := i + 1;
    }
  }

  /** The outer loop of `get_all_session_date_times` on the two lists. */
  method CollectInView(times: seq<string>, days: seq<string>, rows: seq<TableRow>) returns (times': seq<string>, days': seq<string>)
    requires HeadersSplit(rows)
    ensures times' == CollectTimes(times, rows) && days' == CollectDays(days, rows)
  {
    times', days' := times, days;
    var k := 0;
    while k < |rows|
      invariant 0 <= k <= |rows|
      invariant HeadersSplit(rows[..k])
      invariant times' == CollectTimes(times, rows[..k]) && days' == CollectDays(days, rows[..k])
    {
      var row := rows[k];
      assert rows[..k + 1][..k] == rows[..k] && rows[..k + 1][k] == row;
      times' := AddHeaderTimes(times', row.headers);
      if row.cells != [] {
        var day := row.cells[0];
        if day !in days' {
          days' := days' + [day];
        }
      }
      k := k + 1;
    }
    assert rows[..k] == rows;
  }
}
