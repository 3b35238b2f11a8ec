/**
 * `get_earliest_time_slots` (src/website_handler.py): the slots the bot aims
 * for. Every (day, slot) pair of a session map is listed in dict order,
 * stably sorted by its instant, thinned to every other pair for simulator
 * lessons (no back-to-back simulator sessions), cut to the requested number
 * and regrouped by day.
 */
module Selector {
  import opened SessionMaps
  import opened Dates
  import opened CdcAbstract
  import opened KeySort

  type Entry = (Day, Slot)

  /** The sort key: `convert_to_datetime(day, slot)`. */
  function Key(e: Entry): int { SlotKey(e.0, e.1) }

  /** Both labels of every entry are ones strptime accepts. */
  predicate AllParse(s: Sessions)
  {
    forall d :: d in s.slots ==> DayParses(d) && forall t :: t in s.slots[d] ==> SlotParses(t)
  }

  /** Simulator picks skip every other slot. */
  function Step(c: Category): (step: int)
    ensures step == 1 || step == 2
    ensures step == 2 <==> c == Simulator
  {
    if c == Simulator then 2 else 1
  }

  /** Each entry paired with its key, as the sort computes them. */
  function Decorate(flat: seq<Entry>): (r: seq<Keyed<Entry>>)
    ensures |r| == |flat|
    ensures forall i :: 0 <= i < |r| ==> r[i] == (Key(flat[i]), flat[i])
  {
    seq(|flat|, i requires 0 <= i < |flat| => (Key(flat[i]), flat[i]))
  }

  /** Every (day, slot) pair of the sessions, in time order. */
  function Ranked(sessions: Sessions): seq<Keyed<Entry>>
  {
    SortByKey(Decorate(Flatten(sessions)))
  }

  /** The ranking lists every pair once per occurrence, in key order, each with its own key. */
  lemma RankedFacts(sessions: Sessions)
    ensures var r := Ranked(sessions);
            Sorted(r) && multiset(r) == multiset(Decorate(Flatten(sessions))) &&
            |r| == SlotCount(sessions) &&
            forall i :: 0 <= i < |r| ==> r[i].0 == Key(r[i].1) && r[i].1 in Flatten(sessions)
  {
    var flat := Flatten(sessions);
    var r := Ranked(sessions);
    SortByKeySorted(Decorate(flat));
    FlattenLength(sessions);
    assert |r| == |Decorate(flat)| by {
      assert |multiset(r)| == |multiset(Decorate(flat))|;
    }
    forall i | 0 <= i < |r| ensures r[i].0 == Key(r[i].1) && r[i].1 in flat {
      assert r[i] in multiset(Decorate(flat));
      var k :| 0 <= k < |flat| && Decorate(flat)[k] == r[i];
    }
  }

  // ---------------------------------------------------------------- selection

  function Min(a: int, b: int): int { if a <= b then a else b }

  /** `min(length * step, n)`: where the scan over the ranking stops. */
  function ScanBound(n: nat, length: int, c: Category): (b: int)
    ensures b <= n
  {
    if c == Simulator then Min(2 * length, n) else Min(length, n)
  }

  /** How many indices `range(0, bound, step)` yields. */
  function RangeCount(bound: int, step: int): (n: nat)
    requires step == 1 || step == 2
  {
    if bound <= 0 then 0 else if step == 1 then bound else (bound + 1) / 2
  }

  /** `sorted[i] for i in range(0, bound, step)`. */
  function Strided<T>(sorted: seq<T>, bound: int, step: int): (r: seq<T>)
    requires step == 1 || step == 2
    requires bound <= |sorted|
    ensures |r| == RangeCount(bound, step)
    ensures forall j :: 0 <= j < |r| ==> j * step < bound && r[j] == sorted[j * step]
  {
    seq(RangeCount(bound, step), j requires 0 <= j < RangeCount(bound, step) => sorted[j * step])
  }

  /** The ranked pairs the loop visits, before regrouping. */
  function Picks(sessions: Sessions, length: int, c: Category): seq<Keyed<Entry>>
  {
    var ranked := Ranked(sessions);
    Strided(ranked, ScanBound(|ranked|, length, c), Step(c))
  }

  /** Builds the result dict pair by pair: a new day is added last, a known day grows. */
  function Group(ps: seq<Keyed<Entry>>): (r: Sessions)
  {
    if ps == [] then Empty
    else
      var last := ps[|ps| - 1].1;
      AppendSlot(Group(ps[..|ps| - 1]), last.0, last.1)
  }

  /** The value `get_earliest_time_slots(sessions, length, c)` returns. */
  function EarliestTimeSlots(sessions: Sessions, length: int, c: Category): Sessions
  {
    Group(Picks(sessions, length, c))
  }

  method GetEarliestTimeSlots(sessions: Sessions, length: int, c: Category) returns (r: Sessions)
    requires AllParse(sessions)
    ensures r == EarliestTimeSlots(sessions, length, c)
  {
    var ranked := Ranked(sessions);
    var step := if c == Simulator then 2 else 1;
    var bound := if length * step <= |ranked| then length * step else |ranked|;
    assert bound == ScanBound(|ranked|, length, c);
    r := GroupStrided(ranked, bound, step);
  }

  /** The loop of `get_earliest_time_slots`: every `step`-th ranked pair below `bound`, grouped by day. */
  method GroupStrided(ranked: seq<Keyed<Entry>>, bound: int, step: int) returns (r: Sessions)
    requires step == 1 || step == 2
    requires bound <= |ranked|
    ensures r == Group(Strided(ranked, bound, step))
  {
    ghost var picks := Strided(ranked, bound, step);
    r := Empty;
    var i := 0;
    ghost var j := 0;
    while i < bound
      invariant 0 <= j <= |picks| && i == j * step
      invariant j < |picks| <==> i < bound
      invariant r == Group(picks[..j])
    {
      var e := ranked[i].1;
      PrefixStep(picks, j);
      r := AppendSlot(r, e.0, e.1);
      i, j := i + step, j + 1;
    }
    assert picks[..j] == picks;
  }

  // ------------------------------------------------------------------ grouping

  /** The slots of the pairs on day `d`, in order. */
  function SlotsOn(ps: seq<Keyed<Entry>>, d: Day): seq<Slot>
  {
    if ps == [] then []
    else
      var last := ps[|ps| - 1].1;
      SlotsOn(ps[..|ps| - 1], d) + (if last.0 == d then [last.1] else [])
  }

  /** A day is a key of the grouping iff some pair falls on it, and its list is that day's slots. */
  lemma GroupSlots(ps: seq<Keyed<Entry>>, d: Day)
    ensures d in Group(ps).slots <==> exists i :: 0 <= i < |ps| && ps[i].1.0 == d
    ensures SlotsOf(Group(ps), d) == SlotsOn(ps, d)
  {
    GroupKeys(ps, d);
    GroupLists(ps, d);
    if d in Group(ps).slots {
      SlotsOnMembership(ps, d, SlotsOn(ps, d)[0]);
    }
    if exists i :: 0 <= i < |ps| && ps[i].1.0 == d {
      var i :| 0 <= i < |ps| && ps[i].1.0 == d;
      SlotsOnMembership(ps, d, ps[i].1.1);
    }
  }

  lemma {:induction false} GroupKeys(ps: seq<Keyed<Entry>>, d: Day)
    ensures d in Group(ps).slots <==> SlotsOn(ps, d) != []
  {
    if ps != [] {
      var init := ps[..|ps| - 1];
      var last := ps[|ps| - 1].1;
      GroupKeys(init, d);
      assert Group(ps).slots == Group(init).slots[last.0 := SlotsOf(Group(init), last.0) + [last.1]];
    }
  }

  lemma {:induction false} GroupLists(ps: seq<Keyed<Entry>>, d: Day)
    ensures SlotsOf(Group(ps), d) == SlotsOn(ps, d)
  {
    if ps != [] {
      var init := ps[..|ps| - 1];
      var last := ps[|ps| - 1].1;
      GroupLists(init, d);
      assert Group(ps).slots == Group(init).slots[last.0 := SlotsOf(Group(init), last.0) + [last.1]];
    }
  }

  /** Regrouping keeps the number of pairs. */
  lemma {:induction false} GroupCount(ps: seq<Keyed<Entry>>)
    ensures SlotCount(Group(ps)) == |ps|
  {
    if ps != [] {
      var last := ps[|ps| - 1].1;
      GroupCount(ps[..|ps| - 1]);
      CountPut(Group(ps[..|ps| - 1]), last.0, SlotsOf(Group(ps[..|ps| - 1]), last.0) + [last.1]);
    }
  }

  lemma {:induction false} SlotsOnMembership(ps: seq<Keyed<Entry>>, d: Day, t: Slot)
    ensures t in SlotsOn(ps, d) <==> exists i :: 0 <= i < |ps| && ps[i].1 == (d, t)
  {
    if ps != [] {
      var init := ps[..|ps| - 1];
      SlotsOnMembership(init, d, t);
      if t in SlotsOn(init, d) {
        var i :| 0 <= i < |init| && init[i].1 == (d, t);
        assert ps[i] == init[i];
      }
      if exists i :: 0 <= i < |ps| && ps[i].1 == (d, t) {
        var i :| 0 <= i < |ps| && ps[i].1 == (d, t);
        if i < |init| {
          assert init[i] == ps[i];
        }
      }
    }
  }

  /** The grouped map lists exactly the pairs of `ps`. */
  lemma GroupMembership(ps: seq<Keyed<Entry>>, d: Day, t: Slot)
    ensures (d, t) in Flatten(Group(ps)) <==> exists i :: 0 <= i < |ps| && ps[i].1 == (d, t)
  {
    FlattenMembership(Group(ps), d, t);
    GroupSlots(ps, d);
    SlotsOnMembership(ps, d, t);
  }

  /** Pairs of one day taken from a key-sorted ranking come out in start-time order. */
  lemma {:induction false} SlotsOnAscending(ps: seq<Keyed<Entry>>, d: Day)
    requires Sorted(ps)
    requires forall i :: 0 <= i < |ps| ==> ps[i].0 == Key(ps[i].1)
    ensures forall i, j :: 0 <= i < j < |SlotsOn(ps, d)| ==>
              StartTime(SlotsOn(ps, d)[i]) <= StartTime(SlotsOn(ps, d)[j])
  {
    if ps != [] {
      var init, last := ps[..|ps| - 1], ps[|ps| - 1];
      assert Sorted(init);
      SlotsOnAscending(init, d);
      var before := SlotsOn(init, d);
      if last.1.0 == d {
        forall i | 0 <= i < |before| ensures StartTime(before[i]) <= StartTime(last.1.1) {
          SlotsOnMembership(init, d, before[i]);
          var k :| 0 <= k < |init| && init[k].1 == (d, before[i]);
          assert init[k].0 <= last.0;
          SlotKeyOrder(d, before[i], d, last.1.1);
        }
      }
    }
  }

  // -------------------------------------------------------------- properties

  /**
   * The number of slots chosen: nothing for a non-positive request, otherwise
   * the request capped by what is on offer (every other slot for simulator
   * lessons).
   */
  lemma EarliestCount(sessions: Sessions, length: int, c: Category)
    ensures var n := SlotCount(sessions);
            SlotCount(EarliestTimeSlots(sessions, length, c)) ==
            if length <= 0 then 0
            else if c == Simulator then Min(length, (n + 1) / 2)
            else Min(length, n)
  {
    GroupCount(Picks(sessions, length, c));
    RankedFacts(sessions);
  }

  /** Every day of the choice has at least one slot. */
  lemma EarliestNonEmpty(sessions: Sessions, length: int, c: Category, d: Day)
    requires d in EarliestTimeSlots(sessions, length, c).slots
    ensures SlotsOf(EarliestTimeSlots(sessions, length, c), d) != []
  {
    var ps := Picks(sessions, length, c);
    GroupSlots(ps, d);
    var i :| 0 <= i < |ps| && ps[i].1.0 == d;
    SlotsOnMembership(ps, d, ps[i].1.1);
  }

  /** Every chosen slot is on offer on that day. */
  lemma EarliestFromSessions(sessions: Sessions, length: int, c: Category, d: Day, t: Slot)
    requires (d, t) in Flatten(EarliestTimeSlots(sessions, length, c))
    ensures d in sessions.slots && t in sessions.slots[d]
  {
    var ps := Picks(sessions, length, c);
    GroupMembership(ps, d, t);
    var j :| 0 <= j < |ps| && ps[j].1 == (d, t);
    RankedFacts(sessions);
    assert ps[j] == Ranked(sessions)[j * Step(c)];
    FlattenMembership(sessions, d, t);
  }

  /**
   * The choice is the earliest: the `j`-th chosen pair is the `j * step`-th in
   * time order, and no pair beyond the scanned part of the ranking is earlier
   * than a chosen one. For categories other than simulator nothing inside the
   * scanned part is skipped, so the choice is exactly the first pairs in time.
   */
  lemma EarliestAreFirst(sessions: Sessions, length: int, c: Category)
    ensures var ranked := Ranked(sessions);
            var ps := Picks(sessions, length, c);
            var bound := Max0(ScanBound(|ranked|, length, c));
            (forall j :: 0 <= j < |ps| ==> ps[j] == ranked[j * Step(c)] && ps[j].0 == Key(ps[j].1)) &&
            (forall j, q :: 0 <= j < |ps| && q in multiset(Decorate(Flatten(sessions))) - multiset(ranked[..bound])
               ==> ps[j].0 <= q.0) &&
            (c != Simulator ==> ps == ranked[..bound])
  {
    var ranked := Ranked(sessions);
    var ps := Picks(sessions, length, c);
    var bound := Max0(ScanBound(|ranked|, length, c));
    RankedFacts(sessions);
    forall j, q | 0 <= j < |ps| && q in multiset(Decorate(Flatten(sessions))) - multiset(ranked[..bound])
      ensures ps[j].0 <= q.0
    {
      SortedBeforeRest(ranked, bound, j * Step(c), q);
    }
    if c != Simulator {
      StridedByOne(ranked, ScanBound(|ranked|, length, c));
    }
  }

  lemma StridedByOne<T>(s: seq<T>, bound: int)
    requires bound <= |s|
    ensures Strided(s, bound, 1) == s[..Max0(bound)]
  {
  }

  function Max0(n: int): nat { if n < 0 then 0 else n }

  /** Within each chosen day the slots run in start-time order. */
  lemma EarliestDaysAscending(sessions: Sessions, length: int, c: Category, d: Day)
    ensures var v := SlotsOf(EarliestTimeSlots(sessions, length, c), d);
            forall i, j :: 0 <= i < j < |v| ==> StartTime(v[i]) <= StartTime(v[j])
  {
    var ranked := Ranked(sessions);
    var ps := Picks(sessions, length, c);
    RankedFacts(sessions);
    StridedSorted(ranked, ScanBound(|ranked|, length, c), Step(c));
    assert forall i :: 0 <= i < |ps| ==> ps[i] == ranked[i * Step(c)];
    GroupSlots(ps, d);
    SlotsOnAscending(ps, d);
  }

  /** Every `step`-th item of a sorted list is again sorted. */
  lemma StridedSorted<T>(s: seq<Keyed<T>>, bound: int, step: int)
    requires step == 1 || step == 2
    requires bound <= |s| && Sorted(s)
    ensures Sorted(Strided(s, bound, step))
  {
    var r := Strided(s, bound, step);
    forall i, j | 0 <= i < j < |r| ensures r[i].0 <= r[j].0 {
      if step == 2 {
        assert i * 2 < j * 2;
      }
      assert r[i] == s[i * step] && r[j] == s[j * step];
    }
  }
}
