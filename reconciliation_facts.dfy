/**
 * What one call of `check_if_earlier_available_sessions` does to the slot
 * count: the release pass never lets the counter exceed the quota, the
 * write-back takes exactly the given-back slots off the reserved map, the
 * claim pass adds at most what the counter still asks for, and the available
 * map only ever holds slots that were available or reserved before.
 */
module ReconciliationFacts {
  import opened SessionMaps
  import opened CdcAbstract
  import opened EarlierSessions
  import opened ChangeDetector
  import opened Selector
  import opened Reconciler
  import opened ReconcilerFacts
  import opened Reconciliation

  /** Every day the release pass gave back was given back with all of its reserved slots. */
  ghost predicate ReleasedWhole(reserved: Sessions, toRemove: Sessions)
  {
    forall d :: d in toRemove.slots ==> |toRemove.slots[d]| == |SlotsOf(reserved, d)|
  }

  function Max(a: int, b: int): int { if a <= b then b else a }

  /**
   * After the release pass and the write-back: the counter is at most the
   * quota, the reserved map lost exactly the given-back slots, and when every
   * release went through whole the counter is the quota less what is still
   * held.
   */
  lemma ReleaseAccounting(st: CategoryState, c: Category, sameDay: bool, quota: int, alerts: Alerts)
    ensures var rel := ReleaseOf(st, c, sameDay, quota, alerts);
            var b := WrittenBack(st, rel);
            rel.need <= quota &&
            SlotCount(b.reserved) + SlotCount(rel.toRemove) == SlotCount(st.reserved) &&
            (ReleasedWhole(st.reserved, rel.toRemove) ==> rel.need == quota - SlotCount(b.reserved))
  {
    var rel := ReleaseOf(st, c, sameDay, quota, alerts);
    var tr := rel.toRemove;
    var res := st.reserved;
    ReleasePassNeed(Release(quota, Empty, [], 0), res, res.days, st.daysInView, FirstTarget(st, c, sameDay, quota), alerts);
    ReleasedPrefixes(st, c, sameDay, quota, alerts);
    ReturnAllCount(Books(res, st.available), tr, tr.days);
    SumOverCovering(tr.days, tr);
    ChargeBound(res.days, res, tr);
    if ReleasedWhole(res, tr) {
      SumOverCovering(res.days, res);
      SumOverCovering(res.days, tr);
    }
  }

  /**
   * The claim pass on the earliest `length` slots adds at most `length`
   * reservations and clicks at most `length` slots, whatever the alerts say.
   */
  lemma ClaimBound(c0: Claim, sessions: Sessions, length: int, k: Category, alerts: Alerts)
    requires length >= 0
    ensures var target := EarliestTimeSlots(sessions, length, k);
            var out := ClaimDays(c0, target, target.days, alerts);
            SlotCount(out.books.reserved) <= SlotCount(c0.books.reserved) + length &&
            |out.clicks| <= |c0.clicks| + length
  {
    var target := EarliestTimeSlots(sessions, length, k);
    EarliestCount(sessions, length, k);
    forall d | d in target.days ensures d in target.slots && target.slots[d] != [] {
      EarliestNonEmpty(sessions, length, k, d);
    }
    DaysAtMostCount(target.days, target.slots);
    ClaimDaysCount(c0, target, target.days, alerts);
    ClaimDaysClicks(c0, target, target.days, alerts);
    FlattenLength(target);
  }

  /** Both passes add at most the quota, and no more than it takes to reach it when releases go through whole. */
  lemma PassesQuota(st: CategoryState, c: Category, sameDay: bool, quota: int, alerts: Alerts)
    requires quota > 0
    ensures var run := Passes(st, c, sameDay, quota, alerts);
            SlotCount(run.books.reserved) <= SlotCount(st.reserved) + quota &&
            (ReleasedWhole(st.reserved, ReleaseOf(st, c, sameDay, quota, alerts).toRemove) ==>
               SlotCount(run.books.reserved) <= Max(SlotCount(st.reserved), quota))
  {
    var rel := ReleaseOf(st, c, sameDay, quota, alerts);
    var b := WrittenBack(st, rel);
    var run := Passes(st, c, sameDay, quota, alerts);
    ReleaseAccounting(st, c, sameDay, quota, alerts);
    if rel.need > 0 {
      ClaimBound(Claim(b, rel.clicks, rel.pos, false), SecondEarlier(st, sameDay, b), rel.need, c, alerts);
      assert SlotCount(run.books.reserved) <= SlotCount(b.reserved) + rel.need;
    } else {
      assert run.books == b;
    }
  }

  /**
   * The quota: one call adds at most `slots_per_type[c]` reservations to the
   * category (none at all without auto-reserve), and when every release went
   * through whole it ends with no more than the quota or what it already held.
   */
  lemma ReconcileQuota(st: CategoryState, c: Category, autoReserve: bool, sameDay: bool, quota: int, alerts: Alerts)
    ensures var o := Reconcile(st, c, autoReserve, sameDay, quota, alerts);
            SlotCount(o.state.reserved) <= SlotCount(st.reserved) + (if autoReserve && quota > 0 then quota else 0)
    ensures var o := Reconcile(st, c, autoReserve, sameDay, quota, alerts);
            ReleasedWhole(st.reserved, ReleaseOf(st, c, sameDay, quota, alerts).toRemove) ==>
            SlotCount(o.state.reserved) <= Max(SlotCount(st.reserved), quota)
  {
    var o := Reconcile(st, c, autoReserve, sameDay, quota, alerts);
    if o.changed && autoReserve && quota > 0 {
      assert o.state.reserved == Passes(st, c, sameDay, quota, alerts).books.reserved;
      PassesQuota(st, c, sameDay, quota, alerts);
    } else {
      assert o.state.reserved == st.reserved;
    }
  }

  /** The claim pass clicks at most `slots_per_type[c]` slots, after the release pass's clicks. */
  lemma ReconcileClaimClicks(st: CategoryState, c: Category, sameDay: bool, quota: int, alerts: Alerts)
    requires quota > 0
    ensures var rel := ReleaseOf(st, c, sameDay, quota, alerts);
            var run := Passes(st, c, sameDay, quota, alerts);
            rel.clicks <= run.clicks && |run.clicks| <= |rel.clicks| + quota
  {
    var rel := ReleaseOf(st, c, sameDay, quota, alerts);
    var b := WrittenBack(st, rel);
    ReleaseAccounting(st, c, sameDay, quota, alerts);
    if rel.need > 0 {
      var c0 := Claim(b, rel.clicks, rel.pos, false);
      var target := SecondTarget(st, c, sameDay, rel.need, b);
      ClaimBound(c0, SecondEarlier(st, sameDay, b), rel.need, c, alerts);
      forall d | d in target.days ensures d in target.slots {
      }
      ClaimDaysClicks(c0, target, target.days, alerts);
    }
  }

  /**
   * With nothing booked the earlier sessions share the available lists: a
   * released day that was available shows its given-back slots to the second
   * choice of targets, while a released day that was not available stays out
   * of it, even though the available map now lists its slots twice.
   */
  lemma SharedEarlierSeesReleases(st: CategoryState, c: Category, sameDay: bool, quota: int, alerts: Alerts, d: Day)
    requires st.booked.days == []
    requires d in ReleaseOf(st, c, sameDay, quota, alerts).toRemove.slots
    ensures var rel := ReleaseOf(st, c, sameDay, quota, alerts);
            var b := WrittenBack(st, rel);
            var given := rel.toRemove.slots[d];
            var second := SecondEarlier(st, sameDay, b);
            (d in st.available.slots ==> d in second.slots && second.slots[d] == st.available.slots[d] + given) &&
            (d !in st.available.slots ==> d !in second.slots && SlotsOf(b.available, d) == given + given)
  {
    var rel := ReleaseOf(st, c, sameDay, quota, alerts);
    ReleasedPrefixes(st, c, sameDay, quota, alerts);
    forall x | x in rel.toRemove.days
      ensures x in st.reserved.slots && SlotsOf(rel.toRemove, x) <= st.reserved.slots[x]
    {
    }
    ReturnAllAt(Books(st.reserved, st.available), rel.toRemove, rel.toRemove.days, d);
    EarlierMembership(st.available, st.booked, sameDay, d);
  }

  /**
   * What a call leaves in the available map was available or reserved when
   * it started, so the labels it holds still parse.
   */
  lemma ReconcileAvailableWithin(st: CategoryState, c: Category, autoReserve: bool, sameDay: bool, quota: int,
                                 alerts: Alerts)
    ensures var o := Reconcile(st, c, autoReserve, sameDay, quota, alerts);
            Within(o.state.available, st.available, st.reserved)
  {
    var o := Reconcile(st, c, autoReserve, sameDay, quota, alerts);
    if o.changed && autoReserve && quota > 0 {
      var rel := ReleaseOf(st, c, sameDay, quota, alerts);
      var b := WrittenBack(st, rel);
      ReleasedPrefixes(st, c, sameDay, quota, alerts);
      ReturnAllWithin(Books(st.reserved, st.available), rel.toRemove);
      if rel.need > 0 {
        var target := SecondTarget(st, c, sameDay, rel.need, b);
        ClaimDaysAvailable(Claim(b, rel.clicks, rel.pos, false), target, target.days, alerts);
        SubWithin(o.state.available, b.available, st.available, st.reserved);
      }
    }
  }

  /**
   * What a call leaves: it reports a change exactly when the refreshed
   * earlier sessions differ from the cached ones; the stored earlier sessions
   * are always those of what is left available; a call that reports no change
   * clicks nothing and touches only the earlier sessions; a call that reports
   * one caches what it stores; and no call touches the booked sessions, the
   * days, times and elements in view or the lesson name.
   */
  lemma ReconcileFrame(st: CategoryState, c: Category, autoReserve: bool, sameDay: bool, quota: int, alerts: Alerts)
    ensures var o := Reconcile(st, c, autoReserve, sameDay, quota, alerts);
            (o.changed <==> !SameSessions(st.cachedEarlier, Earlier(st.available, st.booked, sameDay))) &&
            o.state.earlier == Earlier(o.state.available, st.booked, sameDay) &&
            (!o.changed ==> o.state == st.(earlier := o.state.earlier) && o.clicks == []) &&
            (o.changed ==> o.state.cachedEarlier == o.state.earlier) &&
            o.state == st.(reserved := o.state.reserved, available := o.state.available, earlier := o.state.earlier,
                           cachedEarlier := o.state.cachedEarlier)
  {
  }

  /** The attributes a call writes: the earlier sessions alone, or with the reserved, available and cached ones after a change. */
  lemma ReconcileWrites(st: CategoryState, c: Category, autoReserve: bool, sameDay: bool, quota: int, alerts: Alerts)
    ensures var o := Reconcile(st, c, autoReserve, sameDay, quota, alerts);
            if o.changed then
              o.state == st.(reserved := o.state.reserved, available := o.state.available,
                             earlier := o.state.earlier, cachedEarlier := o.state.cachedEarlier)
            else o.state == st.(earlier := o.state.earlier)
  {
  }

  /**
   * The cache settles: called again on the state it left, with the page
   * unchanged, a call reports no change and clicks nothing, whatever the
   * alerts.
   */
  lemma ReconcileSettles(st: CategoryState, c: Category, autoReserve: bool, sameDay: bool, quota: int, alerts: Alerts,
                         alerts': Alerts)
    ensures var o := Reconcile(st, c, autoReserve, sameDay, quota, alerts);
            var o' := Reconcile(o.state, c, autoReserve, sameDay, quota, alerts');
            !o'.changed && o'.clicks == [] && o'.state == o.state
  {
    var o := Reconcile(st, c, autoReserve, sameDay, quota, alerts);
    ReconcileFrame(st, c, autoReserve, sameDay, quota, alerts);
    if o.changed {
      SameSessionsSymmetricReflexive(o.state.cachedEarlier, o.state.cachedEarlier);
    }
  }
}
