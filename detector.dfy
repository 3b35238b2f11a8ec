/**
 * `check_if_same_sessions` (src/website_handler.py). Despite its name it
 * answers True when the two session maps DIFFER: a day present in only one
 * of them, or a slot label of one day missing from the other's list for that
 * day. Slot order and repeated slots are ignored.
 */
module ChangeDetector {
  import opened SessionMaps

  function SlotSet(slots: seq<Slot>): set<Slot> { set t | t in slots }

  /** The two maps have the same days and, day by day, the same set of slot labels. */
  ghost predicate SameSessions(a: Sessions, b: Sessions)
  {
    a.slots.Keys == b.slots.Keys &&
    forall d :: d in a.slots ==> SlotSet(a.slots[d]) == SlotSet(b.slots[d])
  }

  /** Every day of `a` is in `b`, and every slot of such a day is in `b`'s list. */
  ghost predicate Included(a: Sessions, b: Sessions)
  {
    forall d :: d in a.slots ==> d in b.slots && forall t :: t in a.slots[d] ==> t in b.slots[d]
  }

  /** One of the two loops of `check_if_same_sessions`: is something of `a` missing from `b`? */
  method FindMissing(a: Sessions, b: Sessions) returns (missing: bool)
    ensures missing <==> !Included(a, b)
  {
    var i := 0;
    while i < |a.days|
      invariant 0 <= i <= |a.days|
      invariant forall k :: 0 <= k < i ==>
        a.days[k] in b.slots && forall t :: t in a.slots[a.days[k]] ==> t in b.slots[a.days[k]]
    {
      var d := a.days[i];
      if d !in b.slots {
        return true;
      }
      var slots := a.slots[d];
      var j := 0;
      while j < |slots|
        invariant 0 <= j <= |slots|
        invariant forall k :: 0 <= k < j ==> slots[k] in b.slots[d]
      {
        if slots[j] !in b.slots[d] {
          return true;
        }
        j := j + 1;
      }
      i := i + 1;
    }
    forall d | d in a.slots
      ensures d in b.slots && forall t :: t in a.slots[d] ==> t in b.slots[d]
    {
      var k :| 0 <= k < |a.days| && a.days[k] == d;
    }
    return false;
  }

  /** `check_if_same_sessions(session0, session1)`: True iff the maps differ. */
  method CheckIfSameSessions(session0: Sessions, session1: Sessions) returns (differs: bool)
    ensures differs <==> !SameSessions(session0, session1)
  {
    differs := FindMissing(session0, session1);
    if !differs {
      differs := FindMissing(session1, session0);
    }
    MutualInclusion(session0, session1);
  }

  lemma MutualInclusion(a: Sessions, b: Sessions)
    ensures SameSessions(a, b) <==> Included(a, b) && Included(b, a)
  {
    if Included(a, b) && Included(b, a) {
      forall d | d in a.slots ensures SlotSet(a.slots[d]) == SlotSet(b.slots[d]) {
        assert forall t :: t in SlotSet(a.slots[d]) <==> t in SlotSet(b.slots[d]);
      }
    }
    if SameSessions(a, b) {
      forall d | d in a.slots ensures forall t :: t in a.slots[d] ==> t in b.slots[d] {
        forall t | t in a.slots[d] ensures t in b.slots[d] {
          assert t in SlotSet(a.slots[d]);
        }
      }
      forall d | d in b.slots ensures forall t :: t in b.slots[d] ==> t in a.slots[d] {
        forall t | t in b.slots[d] ensures t in a.slots[d] {
          assert t in SlotSet(b.slots[d]);
        }
      }
    }
  }

  /** The detector is symmetric, and a map never differs from itself. */
  lemma SameSessionsSymmetricReflexive(a: Sessions, b: Sessions)
    ensures SameSessions(a, b) <==> SameSessions(b, a)
    ensures SameSessions(a, a)
  {
  }

  /** Reordering or repeating the slots of one day is not a change. */
  lemma SameAfterRewritingDay(a: Sessions, d: Day, v: seq<Slot>)
    requires d in a.slots && SlotSet(v) == SlotSet(a.slots[d])
    ensures SameSessions(a, Put(a, d, v))
  {
  }
}
