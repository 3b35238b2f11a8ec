/**
 * What the passes of `check_if_earlier_available_sessions` amount to: the
 * closed form of one day's release, the accounting of the slot counter,
 * the effect of the write-back, and what the claim pass can add.
 */
module ReconcilerFacts {
  import opened Wrappers
  import opened Text
  import opened SessionMaps
  import opened Reconciler

  // ------------------------------------------------------------ release pass

  /** The quiet run is the stretch of dismissals without an alert; within `n`, an alert ends it. */
  lemma {:induction false} QuietRunMeaning(alerts: Alerts, pos: nat, n: nat)
    ensures var k := QuietRun(alerts, pos, n);
            (forall i :: pos <= i < pos + k ==> AlertAt(alerts, i).None?) &&
            (k < n ==> AlertAt(alerts, pos + k).Some?)
    decreases n
  {
    if n > 0 && AlertAt(alerts, pos).None? {
      QuietRunMeaning(alerts, pos + 1, n - 1);
    }
  }

  /**
   * The closed form of giving back day `d`: with `k` quiet dismissals the
   * first `k` slots are given back; a refusal on the next click costs the
   * counter one slot and ends the day.
   */
  lemma {:induction false} ReleaseFromGiven(r: Release, d: Day, ts: seq<Slot>, removed: seq<Slot>, alerts: Alerts)
    ensures var k := QuietRun(alerts, r.pos, |ts|);
            var out := ReleaseFrom(r, d, ts, removed, alerts);
            out.need == (if k < |ts| then r.need - 1 else r.need) &&
            out.toRemove == Put(r.toRemove, d, removed + ts[..k])
    decreases |ts|
  {
    if ts == [] || AlertAt(alerts, r.pos).Some? {
      assert removed + ts[..0] == removed;
    } else {
      var clicked := r.(clicks := r.clicks + [(d, ts[0])], pos := r.pos + 1);
      assert ReleaseFrom(r, d, ts, removed, alerts) == ReleaseFrom(clicked, d, ts[1..], removed + [ts[0]], alerts);
      ReleaseFromGiven(clicked, d, ts[1..], removed + [ts[0]], alerts);
      var k' := QuietRun(alerts, r.pos + 1, |ts| - 1);
      assert QuietRun(alerts, r.pos, |ts|) == k' + 1;
      assert removed + ts[..k' + 1] == removed + [ts[0]] + ts[1..][..k'];
    }
  }

  /** Releasing day `d` clicks its slots in order, up to and including the first refused one. */
  lemma {:induction false} ReleaseFromClicks(r: Release, d: Day, ts: seq<Slot>, removed: seq<Slot>, alerts: Alerts)
    ensures var k := QuietRun(alerts, r.pos, |ts|);
            var m := if k < |ts| then k + 1 else k;
            var out := ReleaseFrom(r, d, ts, removed, alerts);
            out.clicks == r.clicks + Pairs(d, ts[..m]) && out.pos == r.pos + m
    decreases |ts|
  {
    if ts == [] {
    } else if AlertAt(alerts, r.pos).Some? {
      assert Pairs(d, ts[..1]) == [(d, ts[0])] + Pairs(d, []);
    } else {
      var clicked := r.(clicks := r.clicks + [(d, ts[0])], pos := r.pos + 1);
      assert ReleaseFrom(r, d, ts, removed, alerts) == ReleaseFrom(clicked, d, ts[1..], removed + [ts[0]], alerts);
      ReleaseFromClicks(clicked, d, ts[1..], removed + [ts[0]], alerts);
      var k' := QuietRun(alerts, r.pos + 1, |ts| - 1);
      var m' := if k' < |ts| - 1 then k' + 1 else k';
      assert QuietRun(alerts, r.pos, |ts|) == k' + 1;
      var w := ts[..m' + 1];
      assert w[0] == ts[0] && w[1..] == ts[1..][..m'];
      assert Pairs(d, w) == [(d, ts[0])] + Pairs(d, ts[1..][..m']);
    }
  }

  /**
   * What day `d` took off the slot counter, given what the pass gave back: a
   * kept day its whole list, a day whose release was refused one slot, a day
   * given back whole nothing.
   */
  function Charge(d: Day, reserved: Sessions, toRemove: Sessions): nat
  {
    if d !in toRemove.slots then |SlotsOf(reserved, d)|
    else if |toRemove.slots[d]| < |SlotsOf(reserved, d)| then 1
    else 0
  }

  function ChargeSum(days: seq<Day>, reserved: Sessions, toRemove: Sessions): nat
  {
    if days == [] then 0 else Charge(days[0], reserved, toRemove) + ChargeSum(days[1..], reserved, toRemove)
  }

  /**
   * The release pass over `days`, seen from day `e`: it is given back iff it
   * is one of `days`, in view and later than every target day; what it gets
   * is a prefix of its reserved list; an entry made before is left alone.
   */
  lemma {:induction false} ReleasePassAt(r: Release, reserved: Sessions, days: seq<Day>, view: seq<Day>,
                                        target: Sessions, alerts: Alerts, e: Day)
    requires NoDup(days) && forall d :: d in days ==> d !in r.toRemove.slots
    ensures var out := ReleasePass(r, reserved, days, view, target, alerts).toRemove;
            (e in out.slots <==> e in r.toRemove.slots || (e in days && Releases(e, view, target))) &&
            (e in r.toRemove.slots ==> out.slots[e] == r.toRemove.slots[e]) &&
            (e in days && e in out.slots ==> out.slots[e] <= SlotsOf(reserved, e))
    decreases |days|
  {
    if days != [] {
      var d := days[0];
      var ts := SlotsOf(reserved, d);
      var r1 := ReleaseDay(r, d, ts, view, target, alerts);
      if Releases(d, view, target) {
        ReleaseFromGiven(r, d, ts, [], alerts);
        assert [] + ts[..QuietRun(alerts, r.pos, |ts|)] <= ts;
      }
      assert d !in days[1..] && NoDup(days[1..]);
      ReleasePassAt(r1, reserved, days[1..], view, target, alerts, e);
    }
  }

  /** The release pass takes the charge of every day of `days` off the slot counter. */
  lemma {:induction false} ReleasePassNeed(r: Release, reserved: Sessions, days: seq<Day>, view: seq<Day>,
                                          target: Sessions, alerts: Alerts)
    requires NoDup(days) && forall d :: d in days ==> d !in r.toRemove.slots
    ensures var out := ReleasePass(r, reserved, days, view, target, alerts);
            out.need == r.need - ChargeSum(days, reserved, out.toRemove)
    decreases |days|
  {
    if days != [] {
      var d := days[0];
      var ts := SlotsOf(reserved, d);
      var r1 := ReleaseDay(r, d, ts, view, target, alerts);
      if Releases(d, view, target) {
        ReleaseFromGiven(r, d, ts, [], alerts);
      }
      assert d !in days[1..] && NoDup(days[1..]);
      ReleasePassNeed(r1, reserved, days[1..], view, target, alerts);
      ReleasePassAt(r1, reserved, days[1..], view, target, alerts, d);
    }
  }

  /**
   * The counter's charge plus what was given back never exceeds what was
   * held, and matches it when every release went through whole.
   */
  lemma {:induction false} ChargeBound(days: seq<Day>, reserved: Sessions, toRemove: Sessions)
    requires forall d :: d in days && d in toRemove.slots ==> |toRemove.slots[d]| <= |SlotsOf(reserved, d)|
    ensures ChargeSum(days, reserved, toRemove) + SumOver(days, toRemove) <= SumOver(days, reserved)
    ensures (forall d :: d in days && d in toRemove.slots ==> |toRemove.slots[d]| == |SlotsOf(reserved, d)|)
            ==> ChargeSum(days, reserved, toRemove) + SumOver(days, toRemove) == SumOver(days, reserved)
  {
    if days != [] {
      ChargeBound(days[1..], reserved, toRemove);
    }
  }

  // --------------------------------------------------------------- write-back

  /** Giving back a prefix of day `d`'s reserved list leaves the rest of it, and the count drops by the prefix. */
  lemma ReturnDayPrefix(b: Books, d: Day, ts: seq<Slot>)
    requires d in b.reserved.slots && ts <= b.reserved.slots[d]
    ensures var out := ReturnDay(b, d, ts).reserved;
            SlotsOf(out, d) == b.reserved.slots[d][|ts|..] &&
            (d in out.slots <==> |ts| < |b.reserved.slots[d]|) &&
            SlotCount(out) == SlotCount(b.reserved) - |ts|
  {
    var held := b.reserved.slots[d];
    RemoveEachPrefix(held, ts);
    var left := held[|ts|..];
    if left == [] {
      CountDelete(b.reserved, d);
    } else {
      CountPut(b.reserved, d, left);
    }
  }

  /**
   * The effect of the write-back on one day `e`: a day given back keeps the
   * rest of its reserved list (and is deleted when nothing is left) and has
   * the slots appended to its available list, which for a day not yet
   * available starts as a copy of them, so the slots appear twice; every
   * other day is untouched.
   */
  lemma {:induction false} ReturnAllAt(b: Books, toRemove: Sessions, days: seq<Day>, e: Day)
    requires NoDup(days)
    requires forall d :: d in days ==> d in b.reserved.slots && SlotsOf(toRemove, d) <= b.reserved.slots[d]
    ensures var out := ReturnAll(b, toRemove, days);
            var given := SlotsOf(toRemove, e);
            if e in days then
              SlotsOf(out.reserved, e) == b.reserved.slots[e][|given|..] &&
              (e in out.reserved.slots <==> |given| < |b.reserved.slots[e]|) &&
              e in out.available.slots &&
              out.available.slots[e] == (if e in b.available.slots then b.available.slots[e] else given) + given
            else
              (e in out.reserved.slots <==> e in b.reserved.slots) && SlotsOf(out.reserved, e) == SlotsOf(b.reserved, e) &&
              (e in out.available.slots <==> e in b.available.slots) && SlotsOf(out.available, e) == SlotsOf(b.available, e)
    decreases |days|
  {
    if days != [] {
      var d := days[0];
      var b1 := ReturnDay(b, d, SlotsOf(toRemove, d));
      assert d !in days[1..] && NoDup(days[1..]);
      forall x | x in days[1..] ensures x in b1.reserved.slots && SlotsOf(toRemove, x) <= b1.reserved.slots[x] {
        ReturnDayFrame(b, d, SlotsOf(toRemove, d), x);
      }
      ReturnAllAt(b1, toRemove, days[1..], e);
      if e == d {
        ReturnDayPrefix(b, d, SlotsOf(toRemove, d));
      } else {
        ReturnDayFrame(b, d, SlotsOf(toRemove, d), e);
      }
    }
  }

  /** The write-back takes from the reserved count exactly the slots given back. */
  lemma {:induction false} ReturnAllCount(b: Books, toRemove: Sessions, days: seq<Day>)
    requires NoDup(days)
    requires forall d :: d in days ==> d in b.reserved.slots && SlotsOf(toRemove, d) <= b.reserved.slots[d]
    ensures SlotCount(ReturnAll(b, toRemove, days).reserved) == SlotCount(b.reserved) - SumOver(days, toRemove)
    decreases |days|
  {
    if days != [] {
      var d := days[0];
      var b1 := ReturnDay(b, d, SlotsOf(toRemove, d));
      assert d !in days[1..] && NoDup(days[1..]);
      forall x | x in days[1..] ensures x in b1.reserved.slots && SlotsOf(toRemove, x) <= b1.reserved.slots[x] {
        ReturnDayFrame(b, d, SlotsOf(toRemove, d), x);
      }
      ReturnAllCount(b1, toRemove, days[1..]);
      ReturnDayPrefix(b, d, SlotsOf(toRemove, d));
    }
  }

  // --------------------------------------------------------------- claim pass

  /**
   * One day's clicks are its slots in order, up to the one whose alert
   * stopped the pass, or all of them; the books are untouched.
   */
  lemma {:induction false} ClaimFromFacts(c: Claim, d: Day, ts: seq<Slot>, alerts: Alerts)
    requires !c.stopped
    ensures var out := ClaimFrom(c, d, ts, alerts);
            var m := |out.clicks| - |c.clicks|;
            out.books == c.books && 0 <= m <= |ts| && out.clicks == c.clicks + Pairs(d, ts[..m]) &&
            (!out.stopped ==> m == |ts|)
    decreases |ts|
  {
    if ts != [] {
      var seen := ClaimAlert(alerts, c.pos);
      var clicked := c.(clicks := c.clicks + [(d, ts[0])], pos := seen.1);
      if StopsClaims(seen.0) {
        assert Pairs(d, ts[..1]) == [(d, ts[0])] + Pairs(d, []);
      } else {
        ClaimFromFacts(clicked, d, ts[1..], alerts);
        var out := ClaimFrom(clicked, d, ts[1..], alerts);
        var m' := |out.clicks| - |clicked.clicks|;
        var w := ts[..m' + 1];
        assert w[0] == ts[0] && w[1..] == ts[1..][..m'];
        assert Pairs(d, w) == [(d, ts[0])] + Pairs(d, ts[1..][..m']);
      }
    }
  }

  /** `ClaimFromFacts` for the whole day's step: the `else` only touches the books. */
  lemma ClaimDayFacts(c: Claim, d: Day, ts: seq<Slot>, alerts: Alerts)
    requires !c.stopped
    ensures var c1 := ClaimDay(c, d, ts, alerts);
            var m := |c1.clicks| - |c.clicks|;
            0 <= m <= |ts| && c1.clicks == c.clicks + Pairs(d, ts[..m]) && (!c1.stopped ==> m == |ts|)
  {
    ClaimFromFacts(c, d, ts, alerts);
  }

  /**
   * The claim pass's clicks run through the target's slots in dict order, up
   * to the one that stopped the pass, or to the end.
   */
  lemma {:induction false} ClaimDaysClicks(c: Claim, target: Sessions, days: seq<Day>, alerts: Alerts)
    requires forall d :: d in days ==> d in target.slots
    ensures var out := ClaimDays(c, target, days, alerts);
            var flat := FlattenDays(days, target.slots);
            var m := |out.clicks| - |c.clicks|;
            0 <= m <= |flat| && out.clicks == c.clicks + flat[..m]
    decreases |days|, 1
  {
    if days != [] && !c.stopped {
      var d := days[0];
      var c1 := ClaimDay(c, d, SlotsOf(target, d), alerts);
      if c1.stopped {
        ClaimStoppedFirstDay(c, target, days, alerts);
      } else {
        ClaimPastFirstDay(c, target, days, alerts);
      }
    }
  }

  /** The pass stopped on its first day: its clicks are a prefix of that day's pairs. */
  lemma ClaimStoppedFirstDay(c: Claim, target: Sessions, days: seq<Day>, alerts: Alerts)
    requires forall d :: d in days ==> d in target.slots
    requires days != [] && !c.stopped && ClaimDay(c, days[0], target.slots[days[0]], alerts).stopped
    ensures var out := ClaimDays(c, target, days, alerts);
            var flat := FlattenDays(days, target.slots);
            var m := |out.clicks| - |c.clicks|;
            0 <= m <= |flat| && out.clicks == c.clicks + flat[..m]
  {
    var d := days[0];
    var ts := target.slots[d];
    var rest := FlattenDays(days[1..], target.slots);
    assert FlattenDays(days, target.slots) == Pairs(d, ts) + rest;
    ClaimDayFacts(c, d, ts, alerts);
    var c1 := ClaimDay(c, d, ts, alerts);
    assert ClaimDays(c, target, days, alerts) == c1;
    var m1 := |c1.clicks| - |c.clicks|;
    PairsPrefix(d, ts, m1);
    JoinStopped(c.clicks, Pairs(d, ts), rest, m1);
  }

  /** The pass went past its first day: all of that day's pairs, then the rest's clicks. */
  lemma ClaimPastFirstDay(c: Claim, target: Sessions, days: seq<Day>, alerts: Alerts)
    requires forall d :: d in days ==> d in target.slots
    requires days != [] && !c.stopped && !ClaimDay(c, days[0], SlotsOf(target, days[0]), alerts).stopped
    ensures var out := ClaimDays(c, target, days, alerts);
            var flat := FlattenDays(days, target.slots);
            var m := |out.clicks| - |c.clicks|;
            0 <= m <= |flat| && out.clicks == c.clicks + flat[..m]
    decreases |days|, 0
  {
    var d := days[0];
    var ts := SlotsOf(target, d);
    ClaimDayFacts(c, d, ts, alerts);
    var c1 := ClaimDay(c, d, ts, alerts);
    ClaimDaysClicks(c1, target, days[1..], alerts);
    assert ts[..|ts|] == ts;
    JoinContinued(c.clicks, c1.clicks, ClaimDays(c1, target, days[1..], alerts).clicks, Pairs(d, ts),
                  FlattenDays(days[1..], target.slots), FlattenDays(days, target.slots));
  }

  /** A pass stopped within the first day's clicks took a prefix of that day's pairs. */
  lemma JoinStopped<T>(base: seq<T>, a: seq<T>, rest: seq<T>, m: nat)
    requires m <= |a|
    ensures m <= |a + rest| && base + a[..m] == base + (a + rest)[..m]
  {
    assert a[..m] == (a + rest)[..m];
  }

  /** A pass past the first day took all its pairs and a prefix of the rest. */
  lemma JoinContinued<T>(base: seq<T>, mid: seq<T>, out: seq<T>, a: seq<T>, rest: seq<T>, flat: seq<T>)
    requires mid == base + a && flat == a + rest
    requires 0 <= |out| - |mid| <= |rest| && out == mid + rest[..|out| - |mid|]
    ensures 0 <= |out| - |base| <= |flat| && out == base + flat[..|out| - |base|]
  {
    assert flat[..|out| - |base|] == a + rest[..|out| - |mid|];
  }

  /** A claim pass that no alert stopped has clicked every slot of the target. */
  lemma {:induction false} ClaimDaysComplete(c: Claim, target: Sessions, days: seq<Day>, alerts: Alerts)
    requires forall d :: d in days ==> d in target.slots
    ensures var out := ClaimDays(c, target, days, alerts);
            !out.stopped ==> |out.clicks| == |c.clicks| + CountDays(days, target.slots)
    decreases |days|
  {
    if days != [] && !c.stopped {
      var d := days[0];
      var ts := target.slots[d];
      ClaimFromFacts(c, d, ts, alerts);
      var c1 := ClaimDay(c, d, ts, alerts);
      assert c1.clicks == ClaimFrom(c, d, ts, alerts).clicks;
      ClaimDaysComplete(c1, target, days[1..], alerts);
    }
  }

  /** Each day of the claim pass adds at most one reserved slot. */
  lemma {:induction false} ClaimDaysCount(c: Claim, target: Sessions, days: seq<Day>, alerts: Alerts)
    ensures SlotCount(ClaimDays(c, target, days, alerts).books.reserved) <= SlotCount(c.books.reserved) + |days|
    decreases |days|
  {
    if days != [] && !c.stopped {
      var d := days[0];
      var ts := SlotsOf(target, d);
      var run := ClaimFrom(c, d, ts, alerts);
      ClaimFromBooks(c, d, ts, alerts);
      if !run.stopped && ts != [] {
        CountPut(run.books.reserved, d, SlotsOf(run.books.reserved, d) + [ts[|ts| - 1]]);
      }
      ClaimDaysCount(ClaimDay(c, d, ts, alerts), target, days[1..], alerts);
    }
  }

  lemma {:induction false} PairsPrefix(d: Day, ts: seq<Slot>, m: nat)
    requires m <= |ts|
    ensures Pairs(d, ts[..m]) == Pairs(d, ts)[..m]
  {
    if m > 0 {
      PairsPrefix(d, ts[1..], m - 1);
      PairsFacts(d, ts[1..]);
      var w := ts[..m];
      assert w[0] == ts[0] && w[1..] == ts[1..][..m - 1];
    }
  }

  /**
   * Only the last slot of a day is recorded, whatever became of the clicks
   * before it: a slot accepted without an alert is not recorded, and the
   * last one is recorded although the site answered it with an alert that
   * does not stop the pass (a back-to-back refusal, say).
   */
  lemma ClaimRecordsRefusedSlot(c: Claim, d: Day, accepted: Slot, refused: Slot, alerts: Alerts)
    requires !c.stopped
    requires AlertAt(alerts, c.pos).None?
    requires AlertAt(alerts, c.pos + 1).Some? && !StopsClaims(ClaimAlert(alerts, c.pos + 1).0)
    ensures var out := ClaimDay(c, d, [accepted, refused], alerts);
            !out.stopped && out.books == Record(c.books, d, refused)
  {
    var ts := [accepted, refused];
    var c1 := c.(clicks := c.clicks + [(d, accepted)], pos := c.pos + 1);
    assert ts[1..] == [refused];
    assert ClaimFrom(c, d, ts, alerts) == ClaimFrom(c1, d, [refused], alerts);
    var seen := ClaimAlert(alerts, c1.pos);
    var c2 := c1.(clicks := c1.clicks + [(d, refused)], pos := seen.1);
    assert [refused][1..] == [];
    assert ClaimFrom(c1, d, [refused], alerts) == ClaimFrom(c2, d, [], alerts) == c2;
  }

  /** With no target day, every reserved day in view is given back. */
  lemma ReleasesWithoutTarget(d: Day, view: seq<Day>, target: Sessions)
    requires target.slots == map[]
    ensures Releases(d, view, target) <==> d in view
  {
  }

  /** `list.remove(t)` leaves only slots of the list. */
  lemma {:induction false} RemoveFirstMember(s: seq<Slot>, t: Slot, x: Slot)
    requires x in RemoveFirst(s, t)
    ensures x in s
  {
    if s != [] && s[0] != t && x != s[0] {
      RemoveFirstMember(s[1..], t, x);
    }
  }

  /** `list.remove(t)` of a slot on the list shortens it by one. */
  lemma {:induction false} RemoveFirstLength(s: seq<Slot>, t: Slot)
    ensures |RemoveFirst(s, t)| == if t in s then |s| - 1 else |s|
  {
    if s != [] && s[0] != t {
      RemoveFirstLength(s[1..], t);
      assert t in s <==> t in s[1..];
    }
  }

  /** The write-back seen from the available list of day `e`. */
  lemma ReturnAllAvailableAt(b: Books, toRemove: Sessions, e: Day)
    requires forall d :: d in toRemove.slots ==> d in b.reserved.slots && toRemove.slots[d] <= b.reserved.slots[d]
    ensures var out := ReturnAll(b, toRemove, toRemove.days).available;
            (e in out.slots ==>
               (e in b.available.slots || e in b.reserved.slots) &&
               forall t :: t in out.slots[e] ==> t in SlotsOf(b.available, e) || t in SlotsOf(b.reserved, e)) &&
            (e in out.slots ==>
               (e in b.available.slots || e in toRemove.slots) &&
               forall t :: t in out.slots[e] ==> t in SlotsOf(b.available, e) || t in SlotsOf(toRemove, e)) &&
            (e in b.available.slots ==> e in out.slots && b.available.slots[e] <= out.slots[e])
  {
    ReturnAllAt(b, toRemove, toRemove.days, e);
    if e in toRemove.slots {
      var given := toRemove.slots[e];
      assert forall t :: t in given ==> t in b.reserved.slots[e];
    }
  }

  /**
   * The write-back moves slots only from the reserved map into the available
   * one: an available list only grows at its end, and every available day
   * and slot afterwards was available before or was given back.
   */
  lemma ReturnAllWithin(b: Books, toRemove: Sessions)
    requires forall d :: d in toRemove.slots ==> d in b.reserved.slots && toRemove.slots[d] <= b.reserved.slots[d]
    ensures var out := ReturnAll(b, toRemove, toRemove.days).available;
            Within(out, b.available, b.reserved) && Within(out, b.available, toRemove) &&
            forall d :: d in b.available.slots ==> d in out.slots && b.available.slots[d] <= out.slots[d]
  {
    forall e {
      ReturnAllAvailableAt(b, toRemove, e);
    }
  }

  /** Recording a claim only shrinks the available map. */
  lemma RecordSub(b: Books, d: Day, t: Slot)
    ensures Sub(Record(b, d, t).available, b.available)
  {
    forall x | x in RemoveFirst(SlotsOf(b.available, d), t) {
      RemoveFirstMember(SlotsOf(b.available, d), t, x);
    }
  }

  /** The claim pass only takes from the available map. */
  lemma {:induction false} ClaimDaysAvailable(c: Claim, target: Sessions, days: seq<Day>, alerts: Alerts)
    ensures Sub(ClaimDays(c, target, days, alerts).books.available, c.books.available)
    decreases |days|
  {
    if days != [] && !c.stopped {
      var d := days[0];
      var c1 := ClaimDay(c, d, SlotsOf(target, d), alerts);
      ClaimDaySub(c, d, SlotsOf(target, d), alerts);
      ClaimDaysAvailable(c1, target, days[1..], alerts);
      SubTrans(ClaimDays(c1, target, days[1..], alerts).books.available, c1.books.available, c.books.available);
    }
  }

  /** One day of the claim pass only takes from the available map. */
  lemma ClaimDaySub(c: Claim, d: Day, ts: seq<Slot>, alerts: Alerts)
    ensures Sub(ClaimDay(c, d, ts, alerts).books.available, c.books.available)
  {
    var run := ClaimFrom(c, d, ts, alerts);
    ClaimFromBooks(c, d, ts, alerts);
    if !run.stopped && ts != [] {
      RecordSub(run.books, d, ts[|ts| - 1]);
    }
  }
}
