/**
 * `update_earlier_sessions` (src/website_handler.py): the available days
 * worth moving a booking to. With nothing booked every available day counts;
 * otherwise a day counts when it comes before some booked day, or falls on
 * the same day as one when same-day reservations are allowed. A day that
 * counts keeps its whole slot list.
 */
module EarlierSessions {
  import opened SessionMaps
  import opened Dates

  /** `update_earlier_sessions`' test of an available day against one booked day. */
  predicate CountsAgainst(d: Day, b: Day, sameDay: bool)
  {
    DayKey(d) < DayKey(b) || (sameDay && DayKey(d) == DayKey(b))
  }

  /**
   * Some day of `s` comes after `d` (or on it, with `sameDay`): for booked
   * days this makes `d` worth moving to; the reconciler uses it with
   * `sameDay` set to keep a reservation no later than a target day.
   */
  predicate BeforeSomeDay(d: Day, s: Sessions, sameDay: bool)
  {
    exists b :: b in s.slots && CountsAgainst(d, b, sameDay)
  }

  /** The days of `days` worth moving to, in their order. */
  function EarlierDays(days: seq<Day>, booked: Sessions, sameDay: bool): seq<Day>
  {
    if days == [] then []
    else
      var last := days[|days| - 1];
      EarlierDays(days[..|days| - 1], booked, sameDay) + (if BeforeSomeDay(last, booked, sameDay) then [last] else [])
  }

  /** The filter keeps exactly the days worth moving to, and lists each once. */
  lemma {:induction false} EarlierDaysFacts(days: seq<Day>, booked: Sessions, sameDay: bool)
    ensures forall d :: d in EarlierDays(days, booked, sameDay) <==> d in days && BeforeSomeDay(d, booked, sameDay)
    ensures NoDup(days) ==> NoDup(EarlierDays(days, booked, sameDay))
  {
    if days != [] {
      var last := days[|days| - 1];
      var init := days[..|days| - 1];
      EarlierDaysFacts(init, booked, sameDay);
      assert days == init + [last];
      assert NoDup(days) ==> NoDup(init) && last !in init;
    }
  }

  /** The value `update_earlier_sessions` stores as the earlier sessions. */
  function Earlier(available: Sessions, booked: Sessions, sameDay: bool): Sessions
  {
    if booked.days == [] then available
    else
      EarlierDaysFacts(available.days, booked, sameDay);
      Restrict(available, EarlierDays(available.days, booked, sameDay))
  }

  /** The labels strptime must accept: available days are parsed only when something is booked. */
  predicate EarlierParses(available: Sessions, booked: Sessions)
  {
    booked.days != [] && available.days != [] ==> AllDaysParse(available.days) && AllDaysParse(booked.days)
  }

  /** The loops of `update_earlier_sessions`, building the new dict day by day. */
  method ComputeEarlier(available: Sessions, booked: Sessions, sameDay: bool) returns (r: Sessions)
    ensures r == Earlier(available, booked, sameDay)
  {
    if |booked.days| == 0 {
      return available;
    }
    r := Empty;
    var i := 0;
    while i < |available.days|
      invariant 0 <= i <= |available.days|
      invariant r.days == EarlierDays(available.days[..i], booked, sameDay)
      invariant forall x :: x in r.slots ==> x in available.slots && r.slots[x] == available.slots[x]
    {
      var d := available.days[i];
      EarlierStep(available, booked, sameDay, i, r);
      r := AddIfEarlier(r, d, available, booked, sameDay);
      i := i + 1;
    }
    assert available.days[..i] == available.days;
    Extensionality(r, Earlier(available, booked, sameDay));
  }

  /** One day of the outer loop keeps the loop's invariant. */
  lemma EarlierStep(available: Sessions, booked: Sessions, sameDay: bool, i: nat, r: Sessions)
    requires i < |available.days|
    requires r.days == EarlierDays(available.days[..i], booked, sameDay)
    requires forall x :: x in r.slots ==> x in available.slots && r.slots[x] == available.slots[x]
    ensures available.days[i] in available.slots && available.days[i] !in r.slots
    ensures var d := available.days[i];
            var r' := if BeforeSomeDay(d, booked, sameDay) then Put(r, d, available.slots[d]) else r;
            r'.days == EarlierDays(available.days[..i + 1], booked, sameDay) &&
            forall x :: x in r'.slots ==> x in available.slots && r'.slots[x] == available.slots[x]
  {
    var d := available.days[i];
    EarlierDaysFacts(available.days[..i], booked, sameDay);
    assert d !in available.days[..i];
    assert available.days[..i + 1][..i] == available.days[..i];
    if BeforeSomeDay(d, booked, sameDay) {
      var r' := Put(r, d, available.slots[d]);
      forall x | x in r'.slots ensures x in available.slots && r'.slots[x] == available.slots[x] {
        if x != d {
          assert x in r.slots;
        }
      }
    }
  }

  /** The inner loop of `update_earlier_sessions`: day `d` is added once some booked day makes it count. */
  method AddIfEarlier(r: Sessions, d: Day, available: Sessions, booked: Sessions, sameDay: bool) returns (r': Sessions)
    requires d in available.slots && d !in r.slots
    ensures r' == if BeforeSomeDay(d, booked, sameDay) then Put(r, d, available.slots[d]) else r
  {
    r' := r;
    var j := 0;
    ghost var found := false;
    while j < |booked.days|
      invariant 0 <= j <= |booked.days|
      invariant found == AnyCounts(d, booked.days[..j], sameDay)
      invariant r' == if found then Put(r, d, available.slots[d]) else r
    {
      var b := booked.days[j];
      PrefixStep(booked.days, j);
      var valid := DayKey(d) < DayKey(b) || (sameDay && DayKey(d) == DayKey(b));
      if valid && d !in r'.slots {
        r' := Put(r', d, available.slots[d]);
      }
      found := found || valid;
      j := j + 1;
    }
    assert booked.days[..j] == booked.days;
    AnyCountsSome(d, booked, sameDay);
  }

  // ---------------------------------------------------------------- lemmas

  /** Some day of `bs` makes `d` count. */
  predicate AnyCounts(d: Day, bs: seq<Day>, sameDay: bool)
  {
    bs != [] && (AnyCounts(d, bs[..|bs| - 1], sameDay) || CountsAgainst(d, bs[|bs| - 1], sameDay))
  }

  lemma {:induction false} AnyCountsMember(d: Day, bs: seq<Day>, sameDay: bool)
    ensures AnyCounts(d, bs, sameDay) <==> exists b :: b in bs && CountsAgainst(d, b, sameDay)
  {
    if bs != [] {
      var init := bs[..|bs| - 1];
      AnyCountsMember(d, init, sameDay);
      assert bs == init + [bs[|bs| - 1]];
    }
  }

  lemma AnyCountsSome(d: Day, booked: Sessions, sameDay: bool)
    ensures AnyCounts(d, booked.days, sameDay) <==> BeforeSomeDay(d, booked, sameDay)
  {
    AnyCountsMember(d, booked.days, sameDay);
  }

  /**
   * A day is earlier iff it is available and, when something is booked, it
   * comes before (or, with same-day reservations, on) some booked day; its
   * slot list is the available one, whole.
   */
  lemma EarlierMembership(available: Sessions, booked: Sessions, sameDay: bool, d: Day)
    ensures var r := Earlier(available, booked, sameDay);
            (d in r.slots <==> d in available.slots && (booked.days == [] || BeforeSomeDay(d, booked, sameDay))) &&
            (d in r.slots ==> r.slots[d] == available.slots[d])
  {
    EarlierDaysFacts(available.days, booked, sameDay);
  }

  /** The earlier days keep the order they have among the available days. */
  lemma {:induction false} EarlierDaysInOrder(days: seq<Day>, booked: Sessions, sameDay: bool)
    ensures IsSubsequence(EarlierDays(days, booked, sameDay), days)
  {
    if days != [] {
      var init := days[..|days| - 1];
      EarlierDaysInOrder(init, booked, sameDay);
      SubsequenceAppend(EarlierDays(init, booked, sameDay), init, days[|days| - 1]);
      assert days == init + [days[|days| - 1]];
    }
  }

  /** `a` is `b` with some elements left out. */
  ghost predicate IsSubsequence(a: seq<Day>, b: seq<Day>)
  {
    exists f: seq<nat> :: |f| == |a| && (forall i :: 0 <= i < |f| ==> f[i] < |b| && a[i] == b[f[i]])
                          && (forall i, j :: 0 <= i < j < |f| ==> f[i] < f[j])
  }

  lemma SubsequenceAppend(a: seq<Day>, b: seq<Day>, x: Day)
    requires IsSubsequence(a, b)
    ensures IsSubsequence(a, b + [x]) && IsSubsequence(a + [x], b + [x])
  {
    var f: seq<nat> :| |f| == |a| && (forall i :: 0 <= i < |f| ==> f[i] < |b| && a[i] == b[f[i]])
                       && (forall i, j :: 0 <= i < j < |f| ==> f[i] < f[j]);
    var g := f + [|b|];
    assert forall i :: 0 <= i < |g| ==> g[i] < |b + [x]| && (a + [x])[i] == (b + [x])[g[i]];
    assert forall i :: 0 <= i < |f| ==> f[i] < |b + [x]| && a[i] == (b + [x])[f[i]];
  }

  /** Allowing same-day reservations can only add days. */
  lemma SameDayWidens(available: Sessions, booked: Sessions, d: Day)
    requires d in Earlier(available, booked, false).slots
    ensures d in Earlier(available, booked, true).slots
  {
    EarlierMembership(available, booked, false, d);
    EarlierMembership(available, booked, true, d);
  }
}
