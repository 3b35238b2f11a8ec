/**
 * A session map: the source's `dict` from a day label to the list of slot
 * labels on that day. Python dicts remember insertion order and that order
 * drives both the claim order and the notification text, so a session map is
 * the order of its days plus the map itself.
 */
module SessionMaps {

  type Day = string
  type Slot = string

  predicate NoDup<T(==)>(s: seq<T>) { forall i, j :: 0 <= i < j < |s| ==> s[i] != s[j] }

  datatype SessionMap = SessionMap(days: seq<Day>, slots: map<Day, seq<Slot>>) {
    /** The days are listed once each, and they are exactly the keys of the map. */
    predicate Valid() {
      NoDup(days) && (forall d :: d in slots ==> d in days) && (forall d :: d in days ==> d in slots)
    }
  }

  type Sessions = s: SessionMap | s.Valid() witness SessionMap([], map[])

  const Empty: Sessions := SessionMap([], map[])

  /** `s[d]` when `d` is a key, else the empty list. */
  function SlotsOf(s: Sessions, d: Day): seq<Slot>
  {
    if d in s.slots then s.slots[d] else []
  }

  /** `s[d] = v`: an existing day keeps its place, a new day goes last. */
  function Put(s: Sessions, d: Day, v: seq<Slot>): (r: Sessions)
    ensures r.slots == s.slots[d := v]
    ensures r.days == if d in s.slots then s.days else s.days + [d]
  {
    if d in s.slots then SessionMap(s.days, s.slots[d := v])
    else SessionMap(s.days + [d], s.slots[d := v])
  }

  /** `s[d].append(t)`, or `s[d] = [t]` when `d` is not yet a key. */
  function AppendSlot(s: Sessions, d: Day, t: Slot): (r: Sessions)
    ensures r == Put(s, d, SlotsOf(s, d) + [t])
  {
    Put(s, d, SlotsOf(s, d) + [t])
  }

  function RemoveDay(days: seq<Day>, d: Day): (r: seq<Day>)
    ensures forall x :: x in r <==> x in days && x != d
    ensures NoDup(days) ==> NoDup(r)
    ensures d !in days ==> r == days
  {
    if days == [] then []
    else if days[0] == d then RemoveDay(days[1..], d)
    else
      var rest := RemoveDay(days[1..], d);
      assert NoDup(days) ==> days[0] !in days[1..] && NoDup(days[1..]);
      [days[0]] + rest
  }

  /** `del s[d]`: the other days keep their order. */
  function Delete(s: Sessions, d: Day): (r: Sessions)
    ensures r.slots == s.slots - {d}
    ensures r.days == RemoveDay(s.days, d)
  {
    SessionMap(RemoveDay(s.days, d), s.slots - {d})
  }

  /** The number of slots listed over `days`. */
  function CountDays(days: seq<Day>, m: map<Day, seq<Slot>>): nat
    requires forall d :: d in days ==> d in m
  {
    if days == [] then 0 else |m[days[0]]| + CountDays(days[1..], m)
  }

  /** The number of (day, slot) entries of a session map, duplicates included. */
  function SlotCount(s: Sessions): nat
  {
    CountDays(s.days, s.slots)
  }

  /** The slots `ts` of day `d`, each paired with the day. */
  function Pairs(d: Day, ts: seq<Slot>): (r: seq<(Day, Slot)>)
    ensures |r| == |ts|
  {
    if ts == [] then [] else [(d, ts[0])] + Pairs(d, ts[1..])
  }

  /** The (day, slot) pairs in dict order, each day's slots in list order. */
  function FlattenDays(days: seq<Day>, m: map<Day, seq<Slot>>): seq<(Day, Slot)>
    requires forall d :: d in days ==> d in m
  {
    if days == [] then []
    else Pairs(days[0], m[days[0]]) + FlattenDays(days[1..], m)
  }

  function Flatten(s: Sessions): seq<(Day, Slot)>
  {
    FlattenDays(s.days, s.slots)
  }

  /** The number of slots `s` lists on the days of `days`. */
  function SumOver(days: seq<Day>, s: Sessions): nat
  {
    if days == [] then 0 else |SlotsOf(s, days[0])| + SumOver(days[1..], s)
  }

  /** The session map limited to `days`, listed in the order given. */
  function Restrict(s: Sessions, days: seq<Day>): (r: Sessions)
    requires NoDup(days) && forall d :: d in days ==> d in s.slots
    ensures r.days == days
    ensures forall d :: d in r.slots ==> r.slots[d] == s.slots[d]
  {
    SessionMap(days, map d | d in days :: s.slots[d])
  }

  // ---------------------------------------------------------------- lemmas

  /** One more element of a prefix. */
  lemma PrefixStep<T>(s: seq<T>, i: nat)
    requires i < |s|
    ensures s[..i + 1] == s[..i] + [s[i]]
  {
  }

  /** Writing back a day's own list changes nothing. */
  lemma PutSame(s: Sessions, d: Day)
    requires d in s.slots
    ensures Put(s, d, s.slots[d]) == s
  {
    Extensionality(Put(s, d, s.slots[d]), s);
  }

  /** A second write to the same day overrides the first. */
  lemma PutTwice(s: Sessions, d: Day, v: seq<Slot>, w: seq<Slot>)
    ensures Put(Put(s, d, v), d, w) == Put(s, d, w)
  {
    Extensionality(Put(Put(s, d, v), d, w), Put(s, d, w));
  }

  lemma {:induction false} PairsFacts(d: Day, ts: seq<Slot>)
    ensures forall x, t :: (x, t) in Pairs(d, ts) <==> x == d && t in ts
  {
    if ts != [] {
      PairsFacts(d, ts[1..]);
      assert ts == [ts[0]] + ts[1..];
    }
  }

  lemma {:induction false} FlattenDaysLength(days: seq<Day>, m: map<Day, seq<Slot>>)
    requires forall d :: d in days ==> d in m
    ensures |FlattenDays(days, m)| == CountDays(days, m)
  {
    if days != [] {
      PairsFacts(days[0], m[days[0]]);
      FlattenDaysLength(days[1..], m);
    }
  }

  /** Flattening lists every slot of every day and nothing else. */
  lemma {:induction false} FlattenDaysMembership(days: seq<Day>, m: map<Day, seq<Slot>>, d: Day, t: Slot)
    requires forall x :: x in days ==> x in m
    ensures (d, t) in FlattenDays(days, m) <==> d in days && t in m[d]
  {
    if days != [] {
      FlattenDaysMembership(days[1..], m, d, t);
      PairsFacts(days[0], m[days[0]]);
    }
  }

  lemma FlattenMembership(s: Sessions, d: Day, t: Slot)
    ensures (d, t) in Flatten(s) <==> d in s.slots && t in s.slots[d]
  {
    FlattenDaysMembership(s.days, s.slots, d, t);
  }

  lemma FlattenLength(s: Sessions)
    ensures |Flatten(s)| == SlotCount(s)
  {
    FlattenDaysLength(s.days, s.slots);
  }

  lemma {:induction false} CountDaysUpdate(days: seq<Day>, m: map<Day, seq<Slot>>, d: Day, v: seq<Slot>)
    requires NoDup(days) && forall x :: x in days ==> x in m
    ensures CountDays(days, m[d := v]) == CountDays(days, m) + (if d in days then |v| - |m[d]| else 0)
  {
    if days != [] {
      CountDaysUpdate(days[1..], m, d, v);
    }
  }

  lemma {:induction false} CountDaysAppend(days: seq<Day>, m: map<Day, seq<Slot>>, d: Day)
    requires forall x :: x in days ==> x in m
    requires d in m
    ensures CountDays(days + [d], m) == CountDays(days, m) + |m[d]|
  {
    if days != [] {
      assert (days + [d])[1..] == days[1..] + [d];
      CountDaysAppend(days[1..], m, d);
    } else {
      assert [d][1..] == [];
    }
  }

  lemma {:induction false} CountDaysFrame(days: seq<Day>, m: map<Day, seq<Slot>>, m': map<Day, seq<Slot>>)
    requires forall x :: x in days ==> x in m && x in m' && m[x] == m'[x]
    ensures CountDays(days, m) == CountDays(days, m')
  {
    if days != [] {
      CountDaysFrame(days[1..], m, m');
    }
  }

  lemma {:induction false} CountDaysRemove(days: seq<Day>, m: map<Day, seq<Slot>>, d: Day)
    requires NoDup(days) && forall x :: x in days ==> x in m
    requires d in days
    ensures CountDays(RemoveDay(days, d), m - {d}) + |m[d]| == CountDays(days, m)
  {
    if days[0] == d {
      assert d !in days[1..];
      assert RemoveDay(days[1..], d) == days[1..];
      CountDaysFrame(days[1..], m, m - {d});
    } else {
      CountDaysRemove(days[1..], m, d);
    }
  }

  /** Setting one day's list changes the slot count by the difference in length. */
  lemma CountPut(s: Sessions, d: Day, v: seq<Slot>)
    ensures SlotCount(Put(s, d, v)) == SlotCount(s) - |SlotsOf(s, d)| + |v|
  {
    if d in s.slots {
      CountDaysUpdate(s.days, s.slots, d, v);
    } else {
      CountDaysFrame(s.days, s.slots, s.slots[d := v]);
      CountDaysAppend(s.days, s.slots[d := v], d);
    }
  }

  /** Deleting a day removes exactly its slots from the count. */
  lemma CountDelete(s: Sessions, d: Day)
    ensures SlotCount(Delete(s, d)) == SlotCount(s) - |SlotsOf(s, d)|
  {
    if d in s.slots {
      CountDaysRemove(s.days, s.slots, d);
    } else {
      assert s.slots - {d} == s.slots;
    }
  }

  /** A session map is determined by its day order and its map. */
  lemma Extensionality(a: Sessions, b: Sessions)
    requires a.days == b.days
    requires forall d :: d in a.slots ==> a.slots[d] == b.slots[d]
    ensures a == b
  {
    assert a.slots.Keys == b.slots.Keys;
  }

  lemma {:induction false} SumOverFrame(days: seq<Day>, s: Sessions, s': Sessions)
    requires forall d :: d in days ==> SlotsOf(s, d) == SlotsOf(s', d)
    ensures SumOver(days, s) == SumOver(days, s')
  {
    if days != [] {
      SumOverFrame(days[1..], s, s');
    }
  }

  /** Summing over any duplicate-free list of days that covers the keys gives the slot count. */
  lemma {:induction false} SumOverCovering(days: seq<Day>, s: Sessions)
    requires NoDup(days) && forall d :: d in s.slots ==> d in days
    ensures SumOver(days, s) == SlotCount(s)
  {
    if days == [] {
      assert s.slots.Keys == {};
    } else {
      var a := days[0];
      var rest := Delete(s, a);
      assert a !in days[1..];
      SumOverFrame(days[1..], s, rest);
      SumOverCovering(days[1..], rest);
      CountDelete(s, a);
    }
  }

  /** Every day of `s` is a day of `a`, and each of its slots is on `a`'s list for that day. */
  ghost predicate Sub(s: Sessions, a: Sessions)
  {
    forall d :: d in s.slots ==> d in a.slots && forall t :: t in s.slots[d] ==> t in a.slots[d]
  }

  /** Every day and every slot of `s` comes from `a` or from `b`. */
  ghost predicate Within(s: Sessions, a: Sessions, b: Sessions)
  {
    forall d :: d in s.slots ==>
      (d in a.slots || d in b.slots) && forall t :: t in s.slots[d] ==> t in SlotsOf(a, d) || t in SlotsOf(b, d)
  }

  lemma SubWithin(s: Sessions, a: Sessions, x: Sessions, y: Sessions)
    requires Sub(s, a) && Within(a, x, y)
    ensures Within(s, x, y)
  {
  }

  lemma SubTrans(s: Sessions, a: Sessions, b: Sessions)
    requires Sub(s, a) && Sub(a, b)
    ensures Sub(s, b)
  {
  }

  /** When no day's list is empty, there are no more days than slots. */
  lemma {:induction false} DaysAtMostCount(days: seq<Day>, m: map<Day, seq<Slot>>)
    requires forall d :: d in days ==> d in m && m[d] != []
    ensures |days| <= CountDays(days, m)
  {
    if days != [] {
      DaysAtMostCount(days[1..], m);
    }
  }
}
