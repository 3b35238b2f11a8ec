/**
 * The `handler` class of src/website_handler.py, reduced to what it does
 * with session data: it owns the per-category store, the configuration it
 * reads (`auto_reserve`, `reserve_for_same_day`, `slots_per_type`), the
 * pending notification text and the reserved-slots flag. Sending a
 * notification appends a (title, message) pair to `outbox`.
 */
module WebsiteHandler {
  import opened SessionMaps
  import opened Dates
  import opened CdcAbstract
  import opened EarlierSessions
  import opened ChangeDetector
  import opened Selector
  import opened Reconciler
  import opened Reconciliation
  import opened ReconciliationFacts
  import opened Notification
  import opened LessonRows

  /** The title of the reminder sent when reserved slots await confirmation. */
  const ReservedTitle: string := "RESERVED SLOTS DETECTED"

  const ReservedWarning: string :=
    "You have outstanding slots reserved! Please log in to the website and confirm these reservations else they will be forfeited."

  /** The reminder as a (title, message) pair. */
  const Reminder: (string, string) := (ReservedTitle, ReservedWarning)

  /** What `flush_notification_update` sends for a pending text and flag. */
  function Flushed(now: string, msg: string, reservedFlag: bool): seq<(string, string)>
  {
    if msg == "" then []
    else [(now, msg)] + (if reservedFlag then [Reminder] else [])
  }

  /** The category's text, the pending text with it appended, and the flag raised when a slot is reserved. */
  method AppendNotification(c: Category, st: CategoryState, msg: string, flag: bool)
    returns (text: string, msg': string, flag': bool)
    ensures text == NotificationText(c, st.booked, st.reserved, st.earlier)
    ensures msg' == msg + text
    ensures flag' <==> flag || SlotCount(st.reserved) > 0
  {
    var anyReserved;
    text, anyReserved := ComposeNotification(c, st.booked, st.reserved, st.earlier);
    msg' := msg + text;
    flag' := flag || anyReserved;
  }

  class Handler {
    const store: CdcState
    const autoReserve: bool
    const reserveForSameDay: bool
    const slotsPerType: map<Category, int>
    var notificationUpdateMsg: string
    var hasSlotsReserved: bool
    var outbox: seq<(string, string)>

    ghost predicate Valid()
      reads store
    {
      store.Valid()
    }

    /** The state-keeping part of `handler.__init__`; the browser set-up is not modelled. */
    constructor (autoReserve: bool, reserveForSameDay: bool, slotsPerType: map<Category, int>)
      ensures Valid() && fresh(store)
      ensures forall c :: store.categories[c] == EmptyCategoryState
      ensures store.CurrentFlags() == InitialFlags
      ensures this.autoReserve == autoReserve && this.reserveForSameDay == reserveForSameDay
      ensures this.slotsPerType == slotsPerType
      ensures notificationUpdateMsg == "" && !hasSlotsReserved && outbox == []
    {
      store := new CdcState();
      this.autoReserve := autoReserve;
      this.reserveForSameDay := reserveForSameDay;
      this.slotsPerType := slotsPerType;
      notificationUpdateMsg := "";
      hasSlotsReserved := false;
      outbox := [];
    }

    /** `reset_state`: every category reset, no pending text, no flag. */
    method ResetState()
      requires Valid()
      modifies this`notificationUpdateMsg, this`hasSlotsReserved, store
      ensures Valid()
      ensures store.Snap() == ResetAll(old(store.Snap()))
      ensures notificationUpdateMsg == "" && !hasSlotsReserved
    {
      notificationUpdateMsg := "";
      hasSlotsReserved := false;
      store.ResetAttributesForAllFieldTypes();
    }

    /** `update_earlier_sessions(c)`: only the category's earlier sessions change. */
    method UpdateEarlierSessions(c: Category)
      requires Valid()
      requires EarlierParses(store.categories[c].available, store.categories[c].booked)
      modifies store
      ensures Valid() && store.CurrentFlags() == old(store.CurrentFlags())
      ensures var st := old(store.categories[c]);
              store.categories == old(store.categories)[c := st.(earlier := Earlier(st.available, st.booked, reserveForSameDay))]
    {
      var st := store.categories[c];
      var earlier := ComputeEarlier(st.available, st.booked, reserveForSameDay);
      store.SetAttributeWithFieldType(EarlierSessions, c, SessionsValue(earlier));
    }

    /**
     * `create_notification_update(c)`: composes the category's text, appends
     * it to the pending text and raises the flag when a slot is reserved.
     */
    method CreateNotificationUpdate(c: Category) returns (text: string)
      requires Valid()
      modifies this
      ensures var st := store.categories[c];
              text == NotificationText(c, st.booked, st.reserved, st.earlier) &&
              (hasSlotsReserved <==> old(hasSlotsReserved) || SlotCount(st.reserved) > 0)
      ensures notificationUpdateMsg == old(notificationUpdateMsg) + text && outbox == old(outbox)
    {
      var st := store.categories[c];
      var msg, flag;
      text, msg, flag := AppendNotification(c, st, notificationUpdateMsg, hasSlotsReserved);
      notificationUpdateMsg, hasSlotsReserved := msg, flag;
    }

    /**
     * `flush_notification_update(now)`: a pending text is sent under the
     * current time, followed by the reminder when the flag is up; the state is
     * then reset either way.
     */
    method FlushNotificationUpdate(now: string)
      requires Valid()
      modifies this, store
      ensures Valid()
      ensures outbox == old(outbox) + Flushed(now, old(notificationUpdateMsg), old(hasSlotsReserved))
      ensures store.Snap() == ResetAll(old(store.Snap()))
      ensures notificationUpdateMsg == "" && !hasSlotsReserved
    {
      ghost var sent := Flushed(now, notificationUpdateMsg, hasSlotsReserved);
      ghost var snap := store.Snap();
      if notificationUpdateMsg != "" {
        outbox := outbox + [(now, notificationUpdateMsg)];
        if hasSlotsReserved {
          outbox := outbox + [Reminder];
        }
      }
      assert outbox == old(outbox) + sent;
      assert store.Snap() == snap;
      ResetState();
    }

    /**
     * The tail of `check_if_earlier_available_sessions(c)` once the outcome is
     * known: the earlier sessions are written back; after a change the
     * reserved, available and cached earlier sessions too, and the
     * notification is composed.
     */
    method StoreOutcome(c: Category, o: Outcome)
      requires Valid()
      requires var st := store.categories[c];
               if o.changed then
                 o.state == st.(reserved := o.state.reserved, available := o.state.available,
                                earlier := o.state.earlier, cachedEarlier := o.state.cachedEarlier)
               else o.state == st.(earlier := o.state.earlier)
      modifies this, store
      ensures Valid() && store.CurrentFlags() == old(store.CurrentFlags()) && outbox == old(outbox)
      ensures store.categories == old(store.categories)[c := o.state]
      ensures if o.changed then
                notificationUpdateMsg == old(notificationUpdateMsg) + NotificationText(c, o.state.booked, o.state.reserved, o.state.earlier) &&
                (hasSlotsReserved <==> old(hasSlotsReserved) || SlotCount(o.state.reserved) > 0)
              else notificationUpdateMsg == old(notificationUpdateMsg) && hasSlotsReserved == old(hasSlotsReserved)
    {
      WriteBack(c, o);
      if o.changed {
        var _ := CreateNotificationUpdate(c);
      }
    }

    /** The attribute writes of the tail, in the source's order. */
    method WriteBack(c: Category, o: Outcome)
      requires Valid()
      requires var st := store.categories[c];
               if o.changed then
                 o.state == st.(reserved := o.state.reserved, available := o.state.available,
                                earlier := o.state.earlier, cachedEarlier := o.state.cachedEarlier)
               else o.state == st.(earlier := o.state.earlier)
      modifies store
      ensures Valid() && store.CurrentFlags() == old(store.CurrentFlags())
      ensures store.categories == old(store.categories)[c := o.state]
    {
      if o.changed {
        WriteSessionPair(c, ReservedSessions, o.state.reserved, AvailableSessions, o.state.available);
        WriteSessionPair(c, EarlierSessions, o.state.earlier, CachedEarlierSessions, o.state.cachedEarlier);
      } else {
        store.SetAttributeWithFieldType(EarlierSessions, c, SessionsValue(o.state.earlier));
      }
    }

    /** Two session-list attribute writes of one category, in order. */
    method WriteSessionPair(c: Category, a: Attr, x: Sessions, b: Attr, y: Sessions)
      requires Valid() && Fits(a, SessionsValue(x)) && Fits(b, SessionsValue(y))
      modifies store
      ensures Valid() && store.CurrentFlags() == old(store.CurrentFlags())
      ensures store.categories == old(store.categories)[c := Set(Set(old(store.categories)[c], a, SessionsValue(x)), b, SessionsValue(y))]
    {
      store.SetAttributeWithFieldType(a, c, SessionsValue(x));
      store.SetAttributeWithFieldType(b, c, SessionsValue(y));
    }

    /**
     * `check_if_earlier_available_sessions(c)` with the browser as the list
     * of alert texts: it behaves as `Reconcile`, stores the new state of the
     * category and, when something changed, composes one notification.
     */
    method CheckIfEarlierAvailableSessions(c: Category, alerts: Alerts) returns (changed: bool, clicks: seq<(Day, Slot)>)
      requires Valid() && c in slotsPerType
      requires var st := store.categories[c];
               AllParse(st.available) && AllParseInView(st.reserved, st.daysInView) && AllDaysParse(st.booked.days) &&
               ElementsCover(st.webElementsInView, st.available) &&
               ElementsCoverInView(st.webElementsInView, st.reserved, st.daysInView)
      modifies this, store
      ensures Valid() && store.CurrentFlags() == old(store.CurrentFlags()) && outbox == old(outbox)
      ensures var o := Reconcile(old(store.categories[c]), c, autoReserve, reserveForSameDay, slotsPerType[c], alerts);
              changed == o.changed && clicks == o.clicks && store.categories == old(store.categories)[c := o.state] &&
              if o.changed then
                notificationUpdateMsg == old(notificationUpdateMsg) + NotificationText(c, o.state.booked, o.state.reserved, o.state.earlier) &&
                (hasSlotsReserved <==> old(hasSlotsReserved) || SlotCount(o.state.reserved) > 0)
              else notificationUpdateMsg == old(notificationUpdateMsg) && hasSlotsReserved == old(hasSlotsReserved)
    {
      var st := store.categories[c];
      var o := ReconcileCategory(st, c, autoReserve, reserveForSameDay, slotsPerType[c], alerts);
      ReconcileWrites(st, c, autoReserve, reserveForSameDay, slotsPerType[c], alerts);
      StoreOutcome(c, o);
      changed, clicks := o.changed, o.clicks;
    }
  
    /** `get_reserved_lesson_date_time`: the reserved table's rows filed, practical lessons skipped. */
    method GetReservedLessonDateTime(rows: seq<Row>)
      requires Valid() && AllWellFormed(rows)
      modifies store
      ensures Valid() && store.CurrentFlags() == old(store.CurrentFlags())
      ensures store.categories == AddRows(old(store.categories), rows, true)
    {
      FileRows(rows, true);
    }

    /** `get_booked_lesson_date_time`: the booked table's rows filed. */
    method GetBookedLessonDateTime(rows: seq<Row>)
      requires Valid() && AllWellFormed(rows)
      modifies store
      ensures Valid() && store.CurrentFlags() == old(store.CurrentFlags())
      ensures store.categories == AddRows(old(store.categories), rows, false)
    {
      FileRows(rows, false);
    }

    /** The row loop the two table readers share. */
    method FileRows(rows: seq<Row>, reservedTable: bool)
      requires Valid() && AllWellFormed(rows)
      modifies store
      ensures Valid() && store.CurrentFlags() == old(store.CurrentFlags())
      ensures store.categories == AddRows(old(store.categories), rows, reservedTable)
    {
      var i := 0;
      while i < |rows|
        invariant 0 <= i <= |rows|
        invariant Valid() && store.CurrentFlags() == old(store.CurrentFlags())
        invariant store.categories == AddRows(old(store.categories), rows[..i], reservedTable)
      {
        assert rows[..i + 1][..i] == rows[..i] && rows[..i + 1][i] == rows[i];
        FileRowInStore(rows[i], reservedTable);
        i := i + 1;
      }
      assert rows[..i] == rows;
    }

    /** The body of the row loop: classify, store the lesson name, append the slot. */
    method FileRowInStore(r: Row, reservedTable: bool)
      requires Valid() && WellFormed(r)
      modifies store
      ensures Valid() && store.CurrentFlags() == old(store.CurrentFlags())
      ensures store.categories == AddRow(old(store.categories), r, reservedTable)
    {
      if r == [] {
        return;
      }
      var name := r[4];
      var fieldType := Classify(name);
      if fieldType.None? || (reservedTable && fieldType.value == Practical) {
        return;
      }
      var c := fieldType.value;
      ghost var st := store.categories[c];
      store.SetAttributeWithFieldType(LessonName, c, TextValue(name));
      var attr := if reservedTable then ReservedSessions else BookedSessions;
      var table := store.GetAttributeWithFieldType(attr, c).sessions;
      assert table == Table(st, reservedTable);
      store.SetAttributeWithFieldType(attr, c, SessionsValue(AppendSlot(table, r[0], SlotLabel(r))));
      assert store.categories[c] == FileRow(st, r, reservedTable);
      UpdateTwice(old(store.categories), c, st.(lessonName := name), FileRow(st, r, reservedTable));
    }

    /**
     * `get_all_session_date_times(c)`: the category's times and days in view
     * gain the labels of the available-sessions table, each once.
     */
    method GetAllSessionDateTimes(c: Category, rows: seq<TableRow>)
      requires Valid() && HeadersSplit(rows)
      modifies store
      ensures Valid() && store.CurrentFlags() == old(store.CurrentFlags())
      ensures var st := old(store.categories[c]);
              store.categories == old(store.categories)[c := st.(timesInView := CollectTimes(st.timesInView, rows),
                                                                 daysInView := CollectDays(st.daysInView, rows))]
    {
      ghost var st := store.categories[c];
      var times := store.GetAttributeWithFieldType(TimesInView, c).items;
      var days := store.GetAttributeWithFieldType(DaysInView, c).items;
      times, days := CollectInView(times, days, rows);
      store.SetAttributeWithFieldType(TimesInView, c, ListValue(times));
      store.SetAttributeWithFieldType(DaysInView, c, ListValue(days));
      UpdateTwice(old(store.categories), c, st.(timesInView := times), st.(timesInView := times, daysInView := days));
    }
  }
}
