/**
 * `check_if_earlier_available_sessions` (src/website_handler.py) on one
 * category's state: the change test against the cached earlier sessions,
 * the release pass, the write-back, the second choice of targets and the
 * claim pass, and the state the method leaves behind.
 */
module Reconciliation {
  import opened Wrappers
  import opened SessionMaps
  import opened Dates
  import opened CdcAbstract
  import opened EarlierSessions
  import opened ChangeDetector
  import opened Selector
  import opened Reconciler
  import opened ReconcilerFacts

  /**
   * The earlier sessions as the second choice of targets sees them. With
   * nothing booked, `earlier` is `dict(available)`: a new dict holding the
   * available lists themselves, so the slots the write-back appends to an
   * available day show through, while a day the write-back adds does not.
   */
  function Shared(available: Sessions, earlier: Sessions): (r: Sessions)
    ensures r.days == earlier.days
  {
    SessionMap(earlier.days, map d | d in earlier.slots :: SlotsOf(available, d))
  }

  /**
   * Both labels of every slot on a day in `view` are ones strptime accepts:
   * the release pass parses only the reserved days in view, and only their
   * slots can be given back and sorted.
   */
  predicate AllParseInView(s: Sessions, view: seq<Day>)
  {
    forall d :: d in s.slots && d in view ==> DayParses(d) && forall t :: t in s.slots[d] ==> SlotParses(t)
  }

  /** The first targets: the earliest `quota` slots among the earlier sessions. */
  function FirstTarget(st: CategoryState, c: Category, sameDay: bool, quota: int): Sessions
  {
    EarliestTimeSlots(Earlier(st.available, st.booked, sameDay), quota, c)
  }

  /** The release pass over the reserved days, starting from the quota. */
  function ReleaseOf(st: CategoryState, c: Category, sameDay: bool, quota: int, alerts: Alerts): Release
  {
    ReleasePass(Release(quota, Empty, [], 0), st.reserved, st.reserved.days, st.daysInView,
                FirstTarget(st, c, sameDay, quota), alerts)
  }

  /** The maps after the write-back of what the release pass gave back. */
  function WrittenBack(st: CategoryState, rel: Release): Books
  {
    ReturnAll(Books(st.reserved, st.available), rel.toRemove, rel.toRemove.days)
  }

  /** The `earlier_sessions` object at the second selector call. */
  function SecondEarlier(st: CategoryState, sameDay: bool, b: Books): Sessions
  {
    var earlier := Earlier(st.available, st.booked, sameDay);
    if st.booked.days == [] then Shared(b.available, earlier) else earlier
  }

  /** The second targets: the earliest slots for what the counter still asks for. */
  function SecondTarget(st: CategoryState, c: Category, sameDay: bool, need: int, b: Books): Sessions
  {
    EarliestTimeSlots(SecondEarlier(st, sameDay, b), need, c)
  }

  /** Both passes: the release, the write-back and, while slots are still needed, the claims. */
  function Passes(st: CategoryState, c: Category, sameDay: bool, quota: int, alerts: Alerts): Claim
  {
    var rel := ReleaseOf(st, c, sameDay, quota, alerts);
    var b := WrittenBack(st, rel);
    var start := Claim(b, rel.clicks, rel.pos, false);
    if rel.need > 0 then
      var target := SecondTarget(st, c, sameDay, rel.need, b);
      ClaimDays(start, target, target.days, alerts)
    else start
  }

  /** What a call returns, the category's state it leaves, and the slots it clicked. */
  datatype Outcome = Outcome(changed: bool, state: CategoryState, clicks: seq<(Day, Slot)>)

  /**
   * `check_if_earlier_available_sessions(c)`: after refreshing the earlier
   * sessions, nothing more happens when they match the cached ones; otherwise
   * the passes run (with auto-reserve on and a positive quota), the maps are
   * stored, the earlier sessions are refreshed again and cached.
   */
  ghost function Reconcile(st: CategoryState, c: Category, autoReserve: bool, sameDay: bool, quota: int,
                           alerts: Alerts): Outcome
  {
    var earlier := Earlier(st.available, st.booked, sameDay);
    if SameSessions(st.cachedEarlier, earlier) then Outcome(false, st.(earlier := earlier), [])
    else
      var run := if autoReserve && quota > 0 then Passes(st, c, sameDay, quota, alerts)
                 else Claim(Books(st.reserved, st.available), [], 0, false);
      var earlier' := Earlier(run.books.available, st.booked, sameDay);
      Outcome(true, st.(reserved := run.books.reserved, available := run.books.available,
                        earlier := earlier', cachedEarlier := earlier'),
              run.clicks)
  }

  // ------------------------------------------------------------------ methods

  /**
   * Both passes on the browser: the first selector call, the release loop,
   * the write-back and, while slots are still needed, the second selector
   * call and the claim loop.
   */
  method RunPasses(st: CategoryState, c: Category, sameDay: bool, quota: int, alerts: Alerts) returns (run: Claim)
    requires st.earlier == Earlier(st.available, st.booked, sameDay)
    requires AllParse(st.available) && AllParseInView(st.reserved, st.daysInView)
    requires ElementsCover(st.webElementsInView, st.available) && ElementsCoverInView(st.webElementsInView, st.reserved, st.daysInView)
    ensures run == Passes(st, c, sameDay, quota, alerts)
  {
    EarlierSub(st.available, st.booked, sameDay);
    SubKeeps(st.earlier, st.available);
    var target := GetEarliestTimeSlots(st.earlier, quota, c);
    var rel := ReleaseReservations(Release(quota, Empty, [], 0), st.reserved, st.daysInView, target, alerts,
                                   st.webElementsInView);
    ReleasedPrefixes(st, c, sameDay, quota, alerts);
    var b := ReturnReleased(Books(st.reserved, st.available), rel.toRemove);
    run := ClaimRemaining(st, c, sameDay, rel, b, alerts);
  }

  /** The claim part of the passes: a second choice of targets and the claim loop, while slots are needed. */
  method ClaimRemaining(st: CategoryState, c: Category, sameDay: bool, rel: Release, b: Books, alerts: Alerts)
    returns (run: Claim)
    requires st.earlier == Earlier(st.available, st.booked, sameDay)
    requires b == WrittenBack(st, rel)
    requires forall d :: d in rel.toRemove.slots ==>
               d in st.reserved.slots && rel.toRemove.slots[d] <= st.reserved.slots[d] && d in st.daysInView
    requires AllParse(st.available) && AllParseInView(st.reserved, st.daysInView)
    requires ElementsCover(st.webElementsInView, st.available) && ElementsCoverInView(st.webElementsInView, st.reserved, st.daysInView)
    ensures run == if rel.need > 0 then ClaimDays(Claim(b, rel.clicks, rel.pos, false), SecondTarget(st, c, sameDay, rel.need, b),
                                                  SecondTarget(st, c, sameDay, rel.need, b).days, alerts)
                   else Claim(b, rel.clicks, rel.pos, false)
  {
    run := Claim(b, rel.clicks, rel.pos, false);
    if rel.need > 0 {
      var earlier := if st.booked.days == [] then Shared(b.available, st.earlier) else st.earlier;
      TargetClaimable(st, c, sameDay, rel.need, b, rel);
      var target := GetEarliestTimeSlots(earlier, rel.need, c);
      run := ClaimTargets(run, target, alerts, st.webElementsInView);
    }
  }

  /**
   * The body of `check_if_earlier_available_sessions(c)` on the category's
   * state as a value: refresh the earlier sessions, stop when they match the
   * cached ones, otherwise run the passes and refresh and cache the earlier
   * sessions of what is left available.
   */
  method ReconcileCategory(st: CategoryState, c: Category, autoReserve: bool, sameDay: bool, quota: int, alerts: Alerts)
    returns (o: Outcome)
    requires AllParse(st.available) && AllParseInView(st.reserved, st.daysInView)
    requires ElementsCover(st.webElementsInView, st.available) && ElementsCoverInView(st.webElementsInView, st.reserved, st.daysInView)
    ensures o == Reconcile(st, c, autoReserve, sameDay, quota, alerts)
  {
    var earlier := ComputeEarlier(st.available, st.booked, sameDay);
    var refreshed := st.(earlier := earlier);
    var differs := CheckIfSameSessions(st.cachedEarlier, earlier);
    if !differs {
      return Outcome(false, refreshed, []);
    }
    var run := Claim(Books(st.reserved, st.available), [], 0, false);
    if autoReserve && quota > 0 {
      run := RunPasses(refreshed, c, sameDay, quota, alerts);
      PassesIgnoreEarlier(st, earlier, c, sameDay, quota, alerts);
    }
    var earlier' := ComputeEarlier(run.books.available, st.booked, sameDay);
    o := Outcome(true, refreshed.(reserved := run.books.reserved, available := run.books.available,
                                  earlier := earlier', cachedEarlier := earlier'),
                 run.clicks);
  }

  // ------------------------------------------------------------------- lemmas

  /** The passes read the available, reserved and booked sessions, never the stored earlier ones. */
  lemma PassesIgnoreEarlier(st: CategoryState, e: Sessions, c: Category, sameDay: bool, quota: int, alerts: Alerts)
    ensures Passes(st.(earlier := e), c, sameDay, quota, alerts) == Passes(st, c, sameDay, quota, alerts)
  {
    var st' := st.(earlier := e);
    assert ReleaseOf(st', c, sameDay, quota, alerts) == ReleaseOf(st, c, sameDay, quota, alerts);
  }

  /** The earlier sessions are drawn from the available ones. */
  lemma EarlierSub(available: Sessions, booked: Sessions, sameDay: bool)
    ensures Sub(Earlier(available, booked, sameDay), available)
  {
    forall d | d in Earlier(available, booked, sameDay).slots {
      EarlierMembership(available, booked, sameDay, d);
    }
  }

  /** Whatever is drawn from parseable, clickable sessions is parseable and clickable. */
  lemma SubKeeps(s: Sessions, a: Sessions)
    requires Sub(s, a)
    ensures AllParse(a) ==> AllParse(s)
    ensures forall web :: ElementsCover(web, a) ==> ElementsCover(web, s)
  {
  }

  lemma WithinKeeps(s: Sessions, a: Sessions, b: Sessions)
    requires Within(s, a, b)
    ensures AllParse(a) && AllParse(b) ==> AllParse(s)
    ensures forall web :: ElementsCover(web, a) && ElementsCover(web, b) ==> ElementsCover(web, s)
  {
    if AllParse(a) && AllParse(b) {
      forall d | d in s.slots ensures DayParses(d) && forall t :: t in s.slots[d] ==> SlotParses(t) {
      }
    }
  }

  /** The choice of targets is drawn from its input, and none of its days is empty. */
  lemma EarliestSub(sessions: Sessions, length: int, c: Category)
    ensures var target := EarliestTimeSlots(sessions, length, c);
            Sub(target, sessions) && forall d :: d in target.slots ==> target.slots[d] != []
  {
    var target := EarliestTimeSlots(sessions, length, c);
    forall d | d in target.slots
      ensures target.slots[d] != [] && d in sessions.slots && forall t :: t in target.slots[d] ==> t in sessions.slots[d]
    {
      EarliestNonEmpty(sessions, length, c, d);
      FlattenMembership(target, d, target.slots[d][0]);
      EarliestFromSessions(sessions, length, c, d, target.slots[d][0]);
      forall t | t in target.slots[d] ensures d in sessions.slots && t in sessions.slots[d] {
        FlattenMembership(target, d, t);
        EarliestFromSessions(sessions, length, c, d, t);
      }
    }
  }

  /** Every day the release pass gives back is a reserved day, and it gets a prefix of its list. */
  lemma ReleasedPrefixes(st: CategoryState, c: Category, sameDay: bool, quota: int, alerts: Alerts)
    ensures var tr := ReleaseOf(st, c, sameDay, quota, alerts).toRemove;
            forall d :: d in tr.slots ==> d in st.reserved.slots && tr.slots[d] <= st.reserved.slots[d] && d in st.daysInView
  {
    var target := FirstTarget(st, c, sameDay, quota);
    forall d | d in ReleaseOf(st, c, sameDay, quota, alerts).toRemove.slots
      ensures d in st.reserved.slots && ReleaseOf(st, c, sameDay, quota, alerts).toRemove.slots[d] <= st.reserved.slots[d] &&
              d in st.daysInView
    {
      ReleasePassAt(Release(quota, Empty, [], 0), st.reserved, st.reserved.days, st.daysInView, target, alerts, d);
    }
  }

  /** The second earlier sessions are drawn from the written-back available map. */
  lemma SecondEarlierWithin(st: CategoryState, sameDay: bool, b: Books, rel: Release)
    requires b == WrittenBack(st, rel)
    requires forall d :: d in rel.toRemove.slots ==> d in st.reserved.slots && rel.toRemove.slots[d] <= st.reserved.slots[d]
    ensures Sub(SecondEarlier(st, sameDay, b), b.available)
    ensures Within(b.available, st.available, st.reserved) && Within(b.available, st.available, rel.toRemove)
  {
    var earlier := Earlier(st.available, st.booked, sameDay);
    EarlierSub(st.available, st.booked, sameDay);
    ReturnAllWithin(Books(st.reserved, st.available), rel.toRemove);
    if st.booked.days == [] {
      var e := Shared(b.available, earlier);
      forall d | d in e.slots ensures d in b.available.slots && forall t :: t in e.slots[d] ==> t in b.available.slots[d] {
        assert d in st.available.slots;
      }
    } else {
      forall d | d in earlier.slots
        ensures d in b.available.slots && forall t :: t in earlier.slots[d] ==> t in b.available.slots[d]
      {
        assert st.available.slots[d] <= b.available.slots[d];
      }
    }
  }

  /** The second targets can all be clicked, and each day's last slot is on offer that day. */
  lemma TargetClaimable(st: CategoryState, c: Category, sameDay: bool, need: int, b: Books, rel: Release)
    requires b == WrittenBack(st, rel)
    requires forall d :: d in rel.toRemove.slots ==>
               d in st.reserved.slots && rel.toRemove.slots[d] <= st.reserved.slots[d] && d in st.daysInView
    requires AllParse(st.available) && AllParseInView(st.reserved, st.daysInView)
    requires ElementsCover(st.webElementsInView, st.available) && ElementsCoverInView(st.webElementsInView, st.reserved, st.daysInView)
    ensures AllParse(SecondEarlier(st, sameDay, b))
    ensures var target := SecondTarget(st, c, sameDay, need, b);
            ElementsCover(st.webElementsInView, target) &&
            forall d :: d in target.slots ==> target.slots[d] != [] && d in b.available.slots &&
                                              target.slots[d][|target.slots[d]| - 1] in b.available.slots[d]
  {
    var earlier := SecondEarlier(st, sameDay, b);
    var target := SecondTarget(st, c, sameDay, need, b);
    SecondEarlierWithin(st, sameDay, b, rel);
    EarliestSub(earlier, need, c);
    SubTrans(target, earlier, b.available);
    GivenBackKeeps(st.reserved, rel.toRemove, st.daysInView);
    SubWithin(earlier, b.available, st.available, rel.toRemove);
    WithinKeeps(earlier, st.available, rel.toRemove);
    SubWithin(target, b.available, st.available, rel.toRemove);
    WithinKeeps(target, st.available, rel.toRemove);
  }

  /** Slots given back from reserved days in view parse and have elements when those days' slots do. */
  lemma GivenBackKeeps(reserved: Sessions, toRemove: Sessions, view: seq<Day>)
    requires forall d :: d in toRemove.slots ==> d in reserved.slots && toRemove.slots[d] <= reserved.slots[d] && d in view
    ensures AllParseInView(reserved, view) ==> AllParse(toRemove)
    ensures forall web :: ElementsCoverInView(web, reserved, view) ==> ElementsCover(web, toRemove)
  {
    forall d, t | d in toRemove.slots && t in toRemove.slots[d] ensures t in reserved.slots[d] {
    }
  }
}
