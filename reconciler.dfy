/**
 * The two passes of `check_if_earlier_available_sessions`
 * (src/website_handler.py). The release pass gives back reservations on
 * days later than every target day, the write-back moves the given-back
 * slots from the reserved map to the available one, and the claim pass
 * clicks the earliest slots until an alert stops it.
 *
 * The browser is an oracle: every click is recorded as the (day, slot) its
 * element stands for, and every `dismiss_alert` call reads the next entry
 * of a fixed list of alert texts.
 */
module Reconciler {
  import opened Wrappers
  import opened Text
  import opened SessionMaps
  import opened Dates
  import opened EarlierSessions

  /** What the successive `dismiss_alert` calls find; past the end of the list no alert appears. */
  type Alerts = seq<Option<string>>

  function AlertAt(alerts: Alerts, pos: nat): Option<string>
  {
    if pos < |alerts| then alerts[pos] else None
  }

  /** The key of `web_elements_in_view` for a slot. */
  function ElementKey(d: Day, t: Slot): string { d + " : " + t }

  /** Every slot of `s` has an element on the page (the lookups cannot raise `KeyError`). */
  predicate ElementsCover(web: map<string, string>, s: Sessions)
  {
    forall d, t :: d in s.slots && t in s.slots[d] ==> ElementKey(d, t) in web
  }

  /**
   * Every slot of `s` on a day in `view` has an element on the page. The page
   * registers elements only for the days it shows, and the release pass looks
   * up only the slots of days in view.
   */
  predicate ElementsCoverInView(web: map<string, string>, s: Sessions, view: seq<Day>)
  {
    forall d, t :: d in s.slots && d in view && t in s.slots[d] ==> ElementKey(d, t) in web
  }

  // ------------------------------------------------------------ release pass

  /** How many of the next `n` dismissals find no alert before the first one that does. */
  function QuietRun(alerts: Alerts, pos: nat, n: nat): (k: nat)
    ensures k <= n
    decreases n
  {
    if n == 0 || AlertAt(alerts, pos).Some? then 0 else 1 + QuietRun(alerts, pos + 1, n - 1)
  }

  /**
   * The release pass's running state: the slot counter, the slots given back
   * per day (`to_be_removed_reservations`), the clicks so far and the next
   * alert to read.
   */
  datatype Release = Release(need: int, toRemove: Sessions, clicks: seq<(Day, Slot)>, pos: nat)

  /**
   * Giving back the slots `ts` of day `d` one by one, `removed` holding the
   * ones given back so far: a refused release costs one slot of the counter
   * and abandons the rest of the day.
   */
  function ReleaseFrom(r: Release, d: Day, ts: seq<Slot>, removed: seq<Slot>, alerts: Alerts): Release
    decreases |ts|
  {
    if ts == [] then r.(toRemove := Put(r.toRemove, d, removed))
    else
      var clicked := r.(clicks := r.clicks + [(d, ts[0])], pos := r.pos + 1);
      if AlertAt(alerts, r.pos).Some? then clicked.(need := r.need - 1, toRemove := Put(r.toRemove, d, removed))
      else ReleaseFrom(clicked, d, ts[1..], removed + [ts[0]], alerts)
  }

  /** The `else` branch of the release pass for day `d`. */
  function Released(r: Release, d: Day, ts: seq<Slot>, alerts: Alerts): Release
  {
    ReleaseFrom(r, d, ts, [], alerts)
  }

  /**
   * One reserved day: kept when it is not in view or not later than some
   * target day (its slots then count towards the quota), released otherwise.
   */
  function ReleaseDay(r: Release, d: Day, ts: seq<Slot>, view: seq<Day>, target: Sessions, alerts: Alerts): Release
  {
    if Releases(d, view, target) then Released(r, d, ts, alerts) else r.(need := r.need - |ts|)
  }

  /** The reserved days the release pass gives back: in view, and later than every target day. */
  predicate Releases(d: Day, view: seq<Day>, target: Sessions)
  {
    d in view && !BeforeSomeDay(d, target, true)
  }

  /** The release pass over the reserved days `days`, in order. */
  function ReleasePass(r: Release, reserved: Sessions, days: seq<Day>, view: seq<Day>, target: Sessions,
                       alerts: Alerts): Release
    decreases |days|
  {
    if days == [] then r
    else ReleasePass(ReleaseDay(r, days[0], SlotsOf(reserved, days[0]), view, target, alerts),
                     reserved, days[1..], view, target, alerts)
  }

  /** `reserved_date <= earliest_date` for some target day: the inner `for` ends in its `break`. */
  method KeepsReservation(d: Day, target: Sessions) returns (keep: bool)
    ensures keep == BeforeSomeDay(d, target, true)
  {
    keep := false;
    var j := 0;
    while j < |target.days| && !keep
      invariant 0 <= j <= |target.days|
      invariant keep == AnyCounts(d, target.days[..j], true)
    {
      PrefixStep(target.days, j);
      keep := DayKey(d) <= DayKey(target.days[j]);
      j := j + 1;
    }
    AnyCountsMember(d, target.days[..j], true);
    AnyCountsMember(d, target.days, true);
    AnyCountsSome(d, target, true);
  }

  /** The `else` branch of the release pass for day `d`: click each slot until one is refused. */
  method ReleaseSlots(r: Release, d: Day, ts: seq<Slot>, alerts: Alerts, web: map<string, string>)
    returns (r': Release)
    requires forall t :: t in ts ==> ElementKey(d, t) in web
    ensures r' == Released(r, d, ts, alerts)
  {
    var removed: seq<Slot> := [];
    var clicks := r.clicks;
    var need := r.need;
    var pos := r.pos;
    var k := 0;
    var alerted := false;
    while k < |ts| && !alerted
      invariant 0 <= k <= |ts|
      invariant !alerted ==> ReleaseFrom(Release(need, r.toRemove, clicks, pos), d, ts[k..], removed, alerts)
                             == Released(r, d, ts, alerts)
      invariant alerted ==> Release(need, Put(r.toRemove, d, removed), clicks, pos) == Released(r, d, ts, alerts)
      decreases |ts| - k, !alerted
    {
      var element := web[ElementKey(d, ts[k])];
      assert ts[k..][1..] == ts[k + 1..];
      clicks := clicks + [(d, ts[k])];
      var alert := AlertAt(alerts, pos);
      pos := pos + 1;
      if alert.Some? {
        need := need - 1;
        alerted := true;
      } else {
        removed := removed + [ts[k]];
        k := k + 1;
      }
    }
    r' := Release(need, Put(r.toRemove, d, removed), clicks, pos);
  }

  /** The release pass: every reserved day, in the reserved map's order. */
  method ReleaseReservations(r0: Release, reserved: Sessions, view: seq<Day>, target: Sessions, alerts: Alerts,
                             web: map<string, string>)
    returns (r: Release)
    requires ElementsCoverInView(web, reserved, view)
    ensures r == ReleasePass(r0, reserved, reserved.days, view, target, alerts)
  {
    r := r0;
    var i := 0;
    while i < |reserved.days|
      invariant 0 <= i <= |reserved.days|
      invariant ReleasePass(r, reserved, reserved.days[i..], view, target, alerts)
                == ReleasePass(r0, reserved, reserved.days, view, target, alerts)
    {
      ReleasePassStep(r, reserved, reserved.days, i, view, target, alerts);
      r := ReleaseReservedDay(r, reserved.days[i], reserved.slots[reserved.days[i]], view, target, alerts, web);
      i := i + 1;
    }
  }

  /** The body of the release pass for reserved day `d` with slots `ts`. */
  method ReleaseReservedDay(r: Release, d: Day, ts: seq<Slot>, view: seq<Day>, target: Sessions, alerts: Alerts,
                            web: map<string, string>)
    returns (r': Release)
    requires d in view ==> forall t :: t in ts ==> ElementKey(d, t) in web
    ensures r' == ReleaseDay(r, d, ts, view, target, alerts)
  {
    if d !in view {
      return r.(need := r.need - |ts|);
    }
    var keep := KeepsReservation(d, target);
    if keep {
      r' := r.(need := r.need - |ts|);
    } else {
      r' := ReleaseSlots(r, d, ts, alerts, web);
    }
  }

  // --------------------------------------------------------------- write-back

  /** `list.remove(t)`: the first occurrence of `t` goes (a list without `t` stays as it is). */
  function RemoveFirst(s: seq<Slot>, t: Slot): seq<Slot>
  {
    if s == [] then [] else if s[0] == t then s[1..] else [s[0]] + RemoveFirst(s[1..], t)
  }

  /** Removing the slots of `ts` one after the other. */
  function RemoveEach(s: seq<Slot>, ts: seq<Slot>): seq<Slot>
    decreases |ts|
  {
    if ts == [] then s else RemoveEach(RemoveFirst(s, ts[0]), ts[1..])
  }

  /** The reserved and the available session maps. */
  datatype Books = Books(reserved: Sessions, available: Sessions)

  /**
   * The write-back of released day `d`: a day missing from the available map
   * first gets a copy of `ts`, then each slot of `ts` leaves the reserved list
   * and joins the available one; a reserved day left empty is deleted.
   */
  function ReturnDay(b: Books, d: Day, ts: seq<Slot>): Books
  {
    var base := if d in b.available.slots then b.available else Put(b.available, d, ts);
    var left := RemoveEach(SlotsOf(b.reserved, d), ts);
    Books(if left == [] then Delete(b.reserved, d) else Put(b.reserved, d, left),
          Put(base, d, SlotsOf(base, d) + ts))
  }

  /** The write-back over the released days `days`, in order. */
  function ReturnAll(b: Books, toRemove: Sessions, days: seq<Day>): Books
    decreases |days|
  {
    if days == [] then b
    else ReturnAll(ReturnDay(b, days[0], SlotsOf(toRemove, days[0])), toRemove, days[1..])
  }

  /** The inner loop of the write-back for day `d`, on the two lists of that day. */
  method ReturnSlots(b: Books, d: Day, ts: seq<Slot>) returns (b': Books)
    requires d in b.reserved.slots && ts <= b.reserved.slots[d]
    ensures b' == ReturnDay(b, d, ts)
  {
    var available := b.available;
    if d !in available.slots {
      available := Put(available, d, ts);
    }
    var pool := available.slots[d];
    var held := b.reserved.slots[d];
    var i := 0;
    while i < |ts|
      invariant 0 <= i <= |ts|
      invariant held == b.reserved.slots[d][i..]
      invariant pool == available.slots[d] + ts[..i]
    {
      assert held[0] == ts[i];
      held := RemoveFirst(held, ts[i]);
      assert b.reserved.slots[d][i..][1..] == b.reserved.slots[d][i + 1..];
      PrefixStep(ts, i);
      pool := pool + [ts[i]];
      i := i + 1;
    }
    RemoveEachPrefix(b.reserved.slots[d], ts);
    assert ts[..i] == ts;
    b' := Books(if held == [] then Delete(b.reserved, d) else Put(b.reserved, d, held), Put(available, d, pool));
  }

  /** The write-back loop over `to_be_removed_reservations`. */
  method ReturnReleased(b: Books, toRemove: Sessions) returns (b': Books)
    requires forall d :: d in toRemove.slots ==> d in b.reserved.slots && toRemove.slots[d] <= b.reserved.slots[d]
    ensures b' == ReturnAll(b, toRemove, toRemove.days)
  {
    b' := b;
    var rest := toRemove.days;
    while rest != []
      invariant NoDup(rest) && Returnable(b', toRemove, rest)
      invariant ReturnAll(b', toRemove, rest) == ReturnAll(b, toRemove, toRemove.days)
      decreases |rest|
    {
      var d := rest[0];
      ReturnableStep(b', toRemove, rest);
      b' := ReturnSlots(b', d, SlotsOf(toRemove, d));
      rest := rest[1..];
    }
  }

  /** Every day of `days` is still reserved, and its released slots lead its reserved list. */
  predicate Returnable(b: Books, toRemove: Sessions, days: seq<Day>)
  {
    forall e :: e in days ==> e in b.reserved.slots && SlotsOf(toRemove, e) <= b.reserved.slots[e]
  }

  /** Writing back the first of `days` keeps the rest of them returnable. */
  lemma ReturnableStep(b: Books, toRemove: Sessions, days: seq<Day>)
    requires days != [] && NoDup(days) && Returnable(b, toRemove, days)
    ensures days[0] in b.reserved.slots && SlotsOf(toRemove, days[0]) <= b.reserved.slots[days[0]]
    ensures NoDup(days[1..]) && Returnable(ReturnDay(b, days[0], SlotsOf(toRemove, days[0])), toRemove, days[1..])
  {
    var d := days[0];
    assert d in days;
    forall e | e in days[1..]
      ensures e in ReturnDay(b, d, SlotsOf(toRemove, d)).reserved.slots &&
              SlotsOf(toRemove, e) <= ReturnDay(b, d, SlotsOf(toRemove, d)).reserved.slots[e]
    {
      var j :| 1 <= j < |days| && days[j] == e;
      assert e in days && e != d;
      ReturnDayFrame(b, d, SlotsOf(toRemove, d), e);
    }
    assert forall i, j :: 0 <= i < j < |days[1..]| ==> days[1..][i] == days[i + 1] && days[1..][j] == days[j + 1];
  }

  // --------------------------------------------------------------- claim pass

  /** The texts that end the claim pass: a shortage of stored value, a booking-window rule, the quota. */
  const StopTexts: seq<string> := ["Store Value:", "before", "exceeded the maximum number"]

  /** `any(e in alert_text for e in [...])` on a found alert. */
  predicate StopsClaims(alert: Option<string>)
  {
    alert.Some? && (Contains(alert.value, StopTexts[0]) || Contains(alert.value, StopTexts[1]) ||
                    Contains(alert.value, StopTexts[2]))
  }

  /**
   * The alert a claim click leaves and where the script goes on: a
   * "non-computerised" notice is dismissed and the alert behind it read.
   */
  function ClaimAlert(alerts: Alerts, pos: nat): (Option<string>, nat)
  {
    var first := AlertAt(alerts, pos);
    if first.Some? && Contains(first.value, "non-computerised") then (AlertAt(alerts, pos + 1), pos + 2)
    else (first, pos + 1)
  }

  /** The claim pass's running state; `stopped` once a stopping alert ends the pass. */
  datatype Claim = Claim(books: Books, clicks: seq<(Day, Slot)>, pos: nat, stopped: bool)

  /** The inner loop of the claim pass on the slots `ts` of day `d`, from the current state on. */
  function ClaimFrom(c: Claim, d: Day, ts: seq<Slot>, alerts: Alerts): Claim
    decreases |ts|
  {
    if ts == [] then c
    else
      var seen := ClaimAlert(alerts, c.pos);
      var clicked := c.(clicks := c.clicks + [(d, ts[0])], pos := seen.1);
      if StopsClaims(seen.0) then clicked.(stopped := true)
      else ClaimFrom(clicked, d, ts[1..], alerts)
  }

  /** The `for`'s `else`: the slot last visited joins the reserved map and leaves the available one. */
  function Record(b: Books, d: Day, t: Slot): Books
  {
    var left := RemoveFirst(SlotsOf(b.available, d), t);
    Books(AppendSlot(b.reserved, d, t), if left == [] then Delete(b.available, d) else Put(b.available, d, left))
  }

  /**
   * One target day: its slots are clicked in order; unless a stopping alert
   * ends the pass, only the last slot of the day is then recorded.
   */
  function ClaimDay(c: Claim, d: Day, ts: seq<Slot>, alerts: Alerts): Claim
  {
    var run := ClaimFrom(c, d, ts, alerts);
    if run.stopped || ts == [] then run else run.(books := Record(run.books, d, ts[|ts| - 1]))
  }

  /** The claim pass over the target days `days`, in order, until it is stopped. */
  function ClaimDays(c: Claim, target: Sessions, days: seq<Day>, alerts: Alerts): Claim
    decreases |days|
  {
    if days == [] || c.stopped then c
    else ClaimDays(ClaimDay(c, days[0], SlotsOf(target, days[0]), alerts), target, days[1..], alerts)
  }

  /** The claim pass's body for target day `d`: the inner `for` and its `else`. */
  method ClaimSlots(c: Claim, d: Day, ts: seq<Slot>, alerts: Alerts, web: map<string, string>) returns (c': Claim)
    requires !c.stopped && ts != []
    requires forall t :: t in ts ==> ElementKey(d, t) in web
    requires d in c.books.available.slots && ts[|ts| - 1] in c.books.available.slots[d]
    ensures c' == ClaimDay(c, d, ts, alerts)
  {
    var clicks := c.clicks;
    var pos := c.pos;
    var stopped := false;
    var k := 0;
    while k < |ts| && !stopped
      invariant 0 <= k <= |ts|
      invariant !stopped ==> ClaimFrom(Claim(c.books, clicks, pos, false), d, ts[k..], alerts) == ClaimFrom(c, d, ts, alerts)
      invariant stopped ==> Claim(c.books, clicks, pos, true) == ClaimFrom(c, d, ts, alerts)
      decreases |ts| - k, !stopped
    {
      var element := web[ElementKey(d, ts[k])];
      assert ts[k..][1..] == ts[k + 1..];
      clicks := clicks + [(d, ts[k])];
      var alert := AlertAt(alerts, pos);
      pos := pos + 1;
      if alert.Some? && Contains(alert.value, "non-computerised") {
        alert := AlertAt(alerts, pos);
        pos := pos + 1;
      }
      if StopsClaims(alert) {
        stopped := true;
      } else {
        // a Back to Back alert `continue`s; any other alert falls through to the next slot too
        k := k + 1;
      }
    }
    c' := Claim(c.books, clicks, pos, stopped);
    if !stopped {
      var t := ts[|ts| - 1];
      var left := RemoveFirst(c.books.available.slots[d], t);
      c' := c'.(books := Books(AppendSlot(c.books.reserved, d, t),
                                if left == [] then Delete(c.books.available, d) else Put(c.books.available, d, left)));
    }
  }

  /** The claim pass: the target days in order, until a stopping alert. */
  method ClaimTargets(c: Claim, target: Sessions, alerts: Alerts, web: map<string, string>) returns (c': Claim)
    requires !c.stopped
    requires ElementsCover(web, target)
    requires forall d :: d in target.slots ==> target.slots[d] != [] && d in c.books.available.slots &&
                                               Last(target.slots[d]) in c.books.available.slots[d]
    ensures c' == ClaimDays(c, target, target.days, alerts)
  {
    c' := c;
    var i := 0;
    while i < |target.days| && !c'.stopped
      invariant 0 <= i <= |target.days|
      invariant ClaimDays(c', target, target.days[i..], alerts) == ClaimDays(c, target, target.days, alerts)
      invariant forall e :: e in target.days[i..] ==>
                  e in c'.books.available.slots && c'.books.available.slots[e] == c.books.available.slots[e]
    {
      var d := target.days[i];
      assert target.days[i..][1..] == target.days[i + 1..];
      ghost var before := c';
      c' := ClaimSlots(c', d, target.slots[d], alerts, web);
      forall e | e in target.days[i + 1..]
        ensures e in c'.books.available.slots && c'.books.available.slots[e] == c.books.available.slots[e]
      {
        assert e in target.days[i..];
        var j :| i + 1 <= j < |target.days| && target.days[j] == e;
        ClaimDayFrame(before, d, target.slots[d], alerts, e);
      }
      i := i + 1;
    }
  }

  function Last(s: seq<Slot>): Slot
    requires s != []
  {
    s[|s| - 1]
  }

  // ---------------------------------------------------------------- lemmas

  lemma ReleasePassStep(r: Release, reserved: Sessions, days: seq<Day>, i: nat, view: seq<Day>, target: Sessions,
                        alerts: Alerts)
    requires i < |days|
    ensures ReleasePass(r, reserved, days[i..], view, target, alerts)
            == ReleasePass(ReleaseDay(r, days[i], SlotsOf(reserved, days[i]), view, target, alerts),
                           reserved, days[i + 1..], view, target, alerts)
  {
    assert days[i..][1..] == days[i + 1..];
  }

  lemma QuietRunStep(alerts: Alerts, pos: nat, n: nat)
    requires 0 < n
    ensures QuietRun(alerts, pos, n) == if AlertAt(alerts, pos).Some? then 0 else 1 + QuietRun(alerts, pos + 1, n - 1)
  {
  }

  /** Removing a prefix of a list one slot at a time leaves the rest of the list. */
  lemma {:induction false} RemoveEachPrefix(s: seq<Slot>, ts: seq<Slot>)
    requires ts <= s
    ensures RemoveEach(s, ts) == s[|ts|..]
    decreases |ts|
  {
    if ts != [] {
      assert RemoveFirst(s, ts[0]) == s[1..];
      RemoveEachPrefix(s[1..], ts[1..]);
      assert s[1..][|ts| - 1..] == s[|ts|..];
    }
  }

  /** The write-back of day `d` touches no other reserved day. */
  lemma ReturnDayFrame(b: Books, d: Day, ts: seq<Slot>, e: Day)
    requires e != d
    ensures var r := ReturnDay(b, d, ts).reserved;
            (e in r.slots <==> e in b.reserved.slots) && (e in r.slots ==> r.slots[e] == b.reserved.slots[e])
  {
  }

  lemma {:induction false} ClaimFromBooks(c: Claim, d: Day, ts: seq<Slot>, alerts: Alerts)
    ensures ClaimFrom(c, d, ts, alerts).books == c.books
    decreases |ts|
  {
    if ts != [] {
      var seen := ClaimAlert(alerts, c.pos);
      ClaimFromBooks(c.(clicks := c.clicks + [(d, ts[0])], pos := seen.1), d, ts[1..], alerts);
    }
  }

  /** Claiming day `d` leaves every other day of the available map as it was. */
  lemma ClaimDayFrame(c: Claim, d: Day, ts: seq<Slot>, alerts: Alerts, e: Day)
    requires e != d
    ensures var a := ClaimDay(c, d, ts, alerts).books.available;
            (e in a.slots <==> e in c.books.available.slots) && (e in a.slots ==> a.slots[e] == c.books.available.slots[e])
  {
    ClaimFromBooks(c, d, ts, alerts);
  }
}
