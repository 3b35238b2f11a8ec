/**
 * The text `create_notification_update` (src/website_handler.py) composes
 * for one category: a banner with the category's name, the booked and the
 * reserved sessions between rules, then the available (earlier) sessions,
 * one "  -> slot" line per slot under each "day:" line.
 */
module Notification {
  import opened Text
  import opened SessionMaps
  import opened CdcAbstract

  /** `str.upper()` on ASCII letters; the category names are lower-case ASCII. */
  function Upper(s: string): (r: string)
    ensures |r| == |s|
    ensures forall i :: 0 <= i < |s| ==> r[i] == if 'a' <= s[i] <= 'z' then s[i] - 'a' + 'A' else s[i]
  {
    if s == [] then [] else [if 'a' <= s[0] <= 'z' then s[0] - 'a' + 'A' else s[0]] + Upper(s[1..])
  }

  const Banner: string := "=======================\n"
  const Rule: string := "--------------------------\n"

  /** The banner naming the category. */
  function Header(c: Category): string
  {
    "\n" + Banner + Upper(TypeName(c)) + " UPDATE\n" + Banner + "\n"
  }

  /** One line per slot. */
  function SlotLine(t: Slot): string { "  -> " + t + "\n" }

  /** The slot lines of `ts`, in order. */
  function SlotLines(ts: seq<Slot>): string
  {
    if ts == [] then "" else SlotLines(ts[..|ts| - 1]) + SlotLine(ts[|ts| - 1])
  }

  /** The line that opens a day's block. */
  function DayLine(d: Day): string { d + ":\n" }

  /** A day's block in the booked and reserved sections. */
  function DayBlock(d: Day, ts: seq<Slot>): string { DayLine(d) + SlotLines(ts) }

  /** The empty line after each block of the available section. */
  function Gap(spaced: bool): string { if spaced then "\n" else "" }

  /** The blocks of `days`, in order, with an empty line after each when `spaced` (the available section). */
  function Blocks(days: seq<Day>, s: Sessions, spaced: bool): string
  {
    if days == [] then ""
    else
      var d := days[|days| - 1];
      Blocks(days[..|days| - 1], s, spaced) + DayBlock(d, SlotsOf(s, d)) + Gap(spaced)
  }

  /** The text before the booked blocks. */
  function Opening(c: Category): string { Header(c) + Rule + "Booked sessions:\n" }

  /** The text between the booked and the reserved blocks. */
  const BetweenBookedAndReserved: string := Rule + Rule + "Reserved sessions:\n"

  /** The text between the reserved and the available blocks. */
  const BetweenReservedAndAvailable: string := Rule + "\n" + "Available sessions:\n"

  /** The text for category `c` with the given booked, reserved and earlier sessions. */
  function NotificationText(c: Category, booked: Sessions, reserved: Sessions, earlier: Sessions): string
  {
    Opening(c) + Blocks(booked.days, booked, false) + BetweenBookedAndReserved + Blocks(reserved.days, reserved, false) +
    BetweenReservedAndAvailable + Blocks(earlier.days, earlier, true) + "\n"
  }

  // ----------------------------------------------------------------- lemmas

  /** Each slot of `ts` has its line in `SlotLines(ts)`. */
  lemma {:induction false} SlotLinesMention(ts: seq<Slot>, t: Slot)
    requires t in ts
    ensures Contains(SlotLines(ts), SlotLine(t))
  {
    var init := ts[..|ts| - 1];
    var last := ts[|ts| - 1];
    if t == last {
      ContainsSelf(SlotLine(t));
      ContainsRight(SlotLines(init), SlotLine(t), SlotLine(t));
    } else {
      assert ts == init + [last];
      SlotLinesMention(init, t);
      ContainsLeft(SlotLines(init), SlotLine(last), SlotLine(t));
    }
  }

  /** A day's block holds its day line and the line of each of its slots. */
  lemma DayBlockMention(d: Day, ts: seq<Slot>, t: Slot)
    requires t in ts
    ensures Contains(DayBlock(d, ts), DayLine(d)) && Contains(DayBlock(d, ts), SlotLine(t))
  {
    ContainsSelf(DayLine(d));
    ContainsLeft(DayLine(d), SlotLines(ts), DayLine(d));
    SlotLinesMention(ts, t);
    ContainsRight(DayLine(d), SlotLines(ts), SlotLine(t));
  }

  /** Every day of `days` has its day line and every one of its slots its line in the blocks. */
  lemma {:induction false} BlocksMention(days: seq<Day>, s: Sessions, spaced: bool, d: Day, t: Slot, sub: string)
    requires d in days && t in SlotsOf(s, d)
    requires sub == DayLine(d) || sub == SlotLine(t)
    ensures Contains(Blocks(days, s, spaced), sub)
  {
    var init := days[..|days| - 1];
    var last := days[|days| - 1];
    var block := DayBlock(last, SlotsOf(s, last));
    if d == last {
      DayBlockMention(d, SlotsOf(s, d), t);
      ContainsRight(Blocks(init, s, spaced), block, sub);
    } else {
      assert days == init + [last];
      BlocksMention(init, s, spaced, d, t, sub);
      ContainsLeft(Blocks(init, s, spaced), block, sub);
    }
    ContainsLeft(Blocks(init, s, spaced) + block, Gap(spaced), sub);
  }

  /** The blocks of each section show in the whole text. */
  lemma SectionMention(c: Category, booked: Sessions, reserved: Sessions, earlier: Sessions, sub: string)
    requires Contains(Blocks(booked.days, booked, false), sub) || Contains(Blocks(reserved.days, reserved, false), sub) ||
             Contains(Blocks(earlier.days, earlier, true), sub)
    ensures Contains(NotificationText(c, booked, reserved, earlier), sub)
  {
    var o, bb, m, rb := Opening(c), Blocks(booked.days, booked, false), BetweenBookedAndReserved,
                        Blocks(reserved.days, reserved, false);
    var n, eb := BetweenReservedAndAvailable, Blocks(earlier.days, earlier, true);
    if Contains(bb, sub) {
      ContainsRight(o, bb, sub);
      ContainsLeft(o + bb, m, sub);
      ContainsLeft(o + bb + m, rb, sub);
    } else if Contains(rb, sub) {
      ContainsRight(o + bb + m, rb, sub);
    }
    if Contains(bb, sub) || Contains(rb, sub) {
      ContainsLeft(o + bb + m + rb, n, sub);
      ContainsLeft(o + bb + m + rb + n, eb, sub);
    } else {
      ContainsRight(o + bb + m + rb + n, eb, sub);
    }
    ContainsLeft(o + bb + m + rb + n + eb, "\n", sub);
  }

  /**
   * The notification names every booked, reserved and available day and
   * lists each of its slots.
   */
  lemma NotificationMentions(c: Category, booked: Sessions, reserved: Sessions, earlier: Sessions, d: Day, t: Slot)
    ensures var text := NotificationText(c, booked, reserved, earlier);
            (d in booked.slots && t in booked.slots[d]) || (d in reserved.slots && t in reserved.slots[d]) ||
            (d in earlier.slots && t in earlier.slots[d])
            ==> Contains(text, DayLine(d)) && Contains(text, SlotLine(t))
  {
    if d in booked.slots && t in booked.slots[d] {
      BlocksMention(booked.days, booked, false, d, t, DayLine(d));
      BlocksMention(booked.days, booked, false, d, t, SlotLine(t));
      SectionMention(c, booked, reserved, earlier, DayLine(d));
      SectionMention(c, booked, reserved, earlier, SlotLine(t));
    } else if d in reserved.slots && t in reserved.slots[d] {
      BlocksMention(reserved.days, reserved, false, d, t, DayLine(d));
      BlocksMention(reserved.days, reserved, false, d, t, SlotLine(t));
      SectionMention(c, booked, reserved, earlier, DayLine(d));
      SectionMention(c, booked, reserved, earlier, SlotLine(t));
    } else if d in earlier.slots && t in earlier.slots[d] {
      BlocksMention(earlier.days, earlier, true, d, t, DayLine(d));
      BlocksMention(earlier.days, earlier, true, d, t, SlotLine(t));
      SectionMention(c, booked, reserved, earlier, DayLine(d));
      SectionMention(c, booked, reserved, earlier, SlotLine(t));
    }
  }

  /** There is a slot to show exactly when some day lists one. */
  lemma {:induction false} CountDaysPositive(days: seq<Day>, m: map<Day, seq<Slot>>)
    requires forall d :: d in days ==> d in m
    ensures CountDays(days, m) > 0 <==> exists d :: d in days && m[d] != []
  {
    if days != [] {
      CountDaysPositive(days[1..], m);
      if m[days[0]] == [] {
        assert forall d :: d in days ==> d == days[0] || d in days[1..];
      }
    }
  }

  /** `has_slots_reserved` is set exactly when some reserved day has a slot. */
  lemma SlotCountPositive(s: Sessions)
    ensures SlotCount(s) > 0 <==> exists d :: d in s.slots && s.slots[d] != []
  {
    CountDaysPositive(s.days, s.slots);
  }

  // ---------------------------------------------------------------- methods

  /** The inner loop of a section: one line per slot. */
  method ComposeSlotLines(ts: seq<Slot>) returns (text: string)
    ensures text == SlotLines(ts)
  {
    text := "";
    var j := 0;
    while j < |ts|
      invariant 0 <= j <= |ts|
      invariant text == SlotLines(ts[..j])
    {
      assert ts[..j + 1][..j] == ts[..j];
      text := text + SlotLine(ts[j]);
      j := j + 1;
    }
    assert ts[..j] == ts;
  }

  /**
   * The outer loop of a section: a block per day, with an empty line after
   * each when `spaced`; `anySlot` tells whether some slot was listed.
   */
  method ComposeBlocks(s: Sessions, spaced: bool) returns (text: string, anySlot: bool)
    ensures text == Blocks(s.days, s, spaced)
    ensures anySlot <==> exists d :: d in s.slots && s.slots[d] != []
  {
    text := "";
    anySlot := false;
    var i := 0;
    while i < |s.days|
      invariant 0 <= i <= |s.days|
      invariant text == Blocks(s.days[..i], s, spaced)
      invariant anySlot <==> CountDays(s.days[..i], s.slots) > 0
    {
      var d := s.days[i];
      PrefixStep(s.days, i);
      CountDaysAppend(s.days[..i], s.slots, d);
      var lines := ComposeSlotLines(s.slots[d]);
      var block := DayLine(d) + lines;
      text := text + block + Gap(spaced);
      anySlot := anySlot || s.slots[d] != [];
      i := i + 1;
    }
    assert s.days[..i] == s.days;
    SlotCountPositive(s);
  }

  /**
   * The body of `create_notification_update` on the category's three session
   * maps: the text, and whether some reserved day lists a slot.
   */
  method ComposeNotification(c: Category, booked: Sessions, reserved: Sessions, earlier: Sessions)
    returns (text: string, anyReserved: bool)
    ensures text == NotificationText(c, booked, reserved, earlier)
    ensures anyReserved <==> exists d :: d in reserved.slots && reserved.slots[d] != []
    ensures anyReserved <==> SlotCount(reserved) > 0
  {
    SlotCountPositive(reserved);
    var bookedBlocks, _ := ComposeBlocks(booked, false);
    var reservedBlocks, any := ComposeBlocks(reserved, false);
    var earlierBlocks, _ := ComposeBlocks(earlier, true);
    text := Opening(c) + bookedBlocks + BetweenBookedAndReserved + reservedBlocks + BetweenReservedAndAvailable +
            earlierBlocks + "\n";
    anyReserved := any;
  }
}
