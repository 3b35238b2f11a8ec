# cdc-bot: slot bookkeeping and reservation, in Dafny

This project models the part of cdc-bot that keeps track of driving-school
sessions and decides which ones to reserve. The bot watches a booking site
for six lesson categories (simulator, practical, the BTT/RTT/FTT theory tests
and the practical test). For each category it keeps:

- the session maps: day label → list of slot labels, for the available,
  reserved, booked, earlier and cached-earlier sessions;
- the days and times in view;
- the page's web-element index;
- the lesson name.

When the earlier sessions change, the bot releases reservations that are not
among the earliest slots. It then claims the earliest slots up to the
category's quota and composes a notification.

Modules, leaves first:

- `Wrappers`, `Text`: Option; Python's `in` on strings, `split(' ')[0]`,
  `split(sep)`.
- `SessionMaps`: a Python dict of slots as its day order plus a map. Python
  dicts keep insertion order, and that order drives both the claim order and
  the notification text.
- `Dates`: `convert_to_datetime`. A concrete parser for `%d/%b/%Y` and
  `%H:%M` turns day and slot labels into integer keys whose order is
  chronological order.
- `Common`: the dictionary, configuration, `concat_tuple` and date-format
  helpers of `src/utils/common.py`.
- `CdcAbstract`: `CDCAbstract`, the per-category state store with its
  getter, setter, resets and flags. It is a `class CdcState`, and the same
  operations also exist on values (`Snapshot`).
- `ChangeDetector`: `check_if_same_sessions`.
- `KeySort`, `Selector`: `list.sort(key=...)` and `get_earliest_time_slots`.
- `EarlierSessions`: `update_earlier_sessions`.
- `Reconciler`, `ReconcilerFacts`: the release pass, the write-back and the
  claim pass of `check_if_earlier_available_sessions`. Each is a loop
  (method) proved equal to a recursive function, with lemmas about that
  function.
- `Reconciliation`, `ReconciliationFacts`: the whole of
  `check_if_earlier_available_sessions` on one category's state, and its
  quota, frame and settling properties.
- `Notification`: the text of `create_notification_update`.
- `LessonRows`: filing the rows of the booked and reserved tables, and
  collecting the days and times in view.
- `WebsiteHandler`: the `handler` class. It owns the store, the
  configuration, the pending notification text, the reserved-slots flag and
  an outbox of sent (title, message) pairs.

The browser is replaced by values:

- A table row is the list of its cell texts.
- The alerts that successive `dismiss_alert` calls find are a list of
  `Option<string>`, read in order.
- Clicks are recorded as (day, slot) pairs.

Behaviours of the code the model keeps as written:

- The release pass keeps a reservation dated on or before *some* target
  day. With no target day, every reservation in view is released, and a
  reserved day outside the view is kept without being looked at.
- An available day is earlier when it comes before *some* booked day. The
  reserved sessions play no part.
- After a day's claim loop runs through, only the day's *last* slot is
  recorded as reserved.
- A released day that was not available gets its slots twice in the
  available map.
- With nothing booked, the earlier sessions share their lists with the
  available map.
- The "mm/dd/yyyy" date format maps to a two-digit-year pattern. The model
  keeps it and states it (`Common.DateFormatterQuirks`).

## Model

| member | source | states |
|---|---|---|
| Text.BeforeFirstSpace | src/website_handler.py:19 | the result is the longest space-free prefix of the label: a prefix, without a space, followed by a space or the end |
| Dates.MonthNumber | src/website_handler.py:20-22 | `%b` accepts exactly the twelve month abbreviations, numbered 1 to 12; anything else gets 0 |
| Dates.DayFields | src/website_handler.py:22 | a label that has fields has a month from 1 to 12, a day of at most two digits and a non-negative year |
| Dates.ParseDay | src/website_handler.py:22 | a day strptime accepts has a key of at least 00010101 |
| Dates.ParseClock | src/website_handler.py:20 | a time strptime accepts lies between 00:00 and 23:59 |
| Dates.DayKeyParsed | src/website_handler.py:22 | on an accepted day label, the key is what the parse yields |
| Dates.OrdinalOrder | src/website_handler.py:17-22 | keys of calendar dates order by year, then month, then day, and are equal only for equal dates |
| Dates.StartTime | src/website_handler.py:18-20 | a slot's start time lies between 00:00 and 23:59 |
| Dates.SlotKeyOrder | src/website_handler.py:17-22 | slot keys order by day first, then by start time alone |
| Dates.EndTimeIgnored | src/website_handler.py:19-20 | "start - end" sorts and parses as "start": the end time is ignored |
| KeySort.SortByKeySorted | src/website_handler.py:109 | the key sort orders by key and is a permutation of its input |
| KeySort.SortByKeyStable | src/website_handler.py:109 | the key sort is stable: the items of each key keep their order |
| KeySort.SortedStableUnique | src/website_handler.py:109 | any sorted list that keeps each key's items in input order is the sort's result |
| Selector.RankedFacts | src/website_handler.py:107-109 | the ranking is sorted by key, each pair has its own key, and the ranking is a permutation of the flattened sessions |
| Selector.ScanBound | src/website_handler.py:114 | the scan never passes the number of candidates |
| Selector.Strided | src/website_handler.py:114-115 | the j-th visited item is the (j·step)-th of the sorted list, below the bound |
| Selector.GetEarliestTimeSlots | src/website_handler.py:106-122 | the method returns the earliest-slots value (flatten, sort, stride, regroup) |
| Selector.GroupStrided | src/website_handler.py:114-120 | the loop regroups every step-th ranked pair below the bound by day |
| Selector.GroupSlots | src/website_handler.py:116-120 | a day is in the result iff some pick falls on it, and its list is that day's picked slots in order |
| Selector.GroupKeys | src/website_handler.py:116-120 | a day is a key iff some pick falls on it |
| Selector.GroupLists | src/website_handler.py:116-120 | each day's list is its picked slots in pick order |
| Selector.GroupCount | src/website_handler.py:116-120 | regrouping keeps the number of picks |
| Selector.GroupMembership | src/website_handler.py:116-120 | the result lists exactly the picked (day, slot) pairs |
| Selector.SlotsOnAscending | src/website_handler.py:109-120 | picks of one day taken from a sorted ranking come in start-time order |
| Selector.EarliestCount | src/website_handler.py:114 | the result holds 0 pairs for length ≤ 0, else min(length, n), or min(length, ⌈n/2⌉) for simulator |
| Selector.EarliestNonEmpty | src/website_handler.py:117-120 | no day of the result has an empty list |
| Selector.EarliestFromSessions | src/website_handler.py:107-115 | every chosen pair is on offer in the input |
| Selector.EarliestAreFirst | src/website_handler.py:109-115 | the j-th pick is the (j·step)-th in time order, and nothing left unscanned is earlier; for step 1 the picks are the chronological prefix |
| Selector.EarliestDaysAscending | src/website_handler.py:109-120 | within each chosen day the slots run in start-time order |
| Selector.StridedSorted | src/website_handler.py:109-115 | every step-th item of a sorted list is again sorted |
| ChangeDetector.FindMissing | src/website_handler.py:125-131 | one loop of the detector answers True iff some day or slot of the first map is missing from the second |
| ChangeDetector.CheckIfSameSessions | src/website_handler.py:124-141 | the result is True iff the maps differ in their days or in some day's set of slots |
| ChangeDetector.MutualInclusion | src/website_handler.py:124-141 | "same sessions" is inclusion both ways, as the two loops test |
| ChangeDetector.SameSessionsSymmetricReflexive | src/website_handler.py:124-141 | the detector is symmetric, and a map never differs from itself |
| ChangeDetector.SameAfterRewritingDay | src/website_handler.py:129-139 | reordering or repeating a day's slots is not a change |
| EarlierSessions.EarlierDaysFacts | src/website_handler.py:626-635 | the filter keeps exactly the available days before some booked day (or on one, with same-day booking), each once |
| EarlierSessions.ComputeEarlier | src/website_handler.py:619-639 | the loops build the earlier-sessions value |
| EarlierSessions.EarlierStep | src/website_handler.py:626-635 | one day of the outer loop keeps the loop invariant, and the day is not yet a key |
| EarlierSessions.AddIfEarlier | src/website_handler.py:629-635 | the inner loop adds the day, with its whole list, iff some booked day makes it count |
| EarlierSessions.AnyCountsSome | src/website_handler.py:629-633 | the loop's test over booked days is "some booked day makes it count" |
| EarlierSessions.EarlierMembership | src/website_handler.py:619-639 | a day is earlier iff it is available and nothing is booked or it is before some booked day; its list is the available one |
| EarlierSessions.EarlierDaysInOrder | src/website_handler.py:626-635 | the earlier days keep their order among the available days |
| EarlierSessions.SameDayWidens | src/website_handler.py:632-633 | allowing same-day reservations only adds days |
| Reconciler.QuietRun | src/website_handler.py:694-705 | a run of quiet dismissals never exceeds the slots clicked |
| Reconciler.KeepsReservation | src/website_handler.py:682-686 | the `for ... break` keeps a reservation iff it is on or before some target day |
| Reconciler.ReleaseSlots | src/website_handler.py:687-705 | the release loop of one day gives slots back until the first refused one |
| Reconciler.ReleaseReservedDay | src/website_handler.py:676-705 | one reserved day is kept (not in view, or not later than some target) or released; a day out of view needs no page elements |
| Reconciler.ReleaseReservations | src/website_handler.py:675-705 | the release loop is the release pass over the reserved days in dict order, needing elements only for the reserved days in view |
| Reconciler.ReturnSlots | src/website_handler.py:711-715 | the inner write-back loop moves a day's released slots from reserved to available |
| Reconciler.ReturnReleased | src/website_handler.py:707-715 | the write-back loop handles each released day in order, each still reserved with its released slots leading its list |
| Reconciler.RemoveEachPrefix | src/website_handler.py:711-712 | removing a prefix of a list slot by slot leaves the rest |
| Reconciler.ReturnDayFrame | src/website_handler.py:707-715 | writing back day d leaves every other reserved day alone |
| Reconciler.ClaimSlots | src/website_handler.py:723-751 | the claim loop of one target day is the claim-day step |
| Reconciler.ClaimTargets | src/website_handler.py:722-752 | the claim loop is the claim pass over the target days, until stopped |
| Reconciler.ClaimFromBooks | src/website_handler.py:723-741 | clicking a day's slots does not change the maps |
| Reconciler.ClaimDayFrame | src/website_handler.py:742-750 | claiming day d leaves every other available day alone |
| ReconcilerFacts.QuietRunMeaning | src/website_handler.py:694-705 | the quiet run is the stretch without an alert, ended within n by an alert |
| ReconcilerFacts.ReleaseFromGiven | src/website_handler.py:689-705 | with k quiet dismissals the first k slots are given back; a refusal on the next click costs one slot of the counter and ends the day |
| ReconcilerFacts.ReleaseFromClicks | src/website_handler.py:689-705 | releasing a day clicks its slots in order, up to and including the first refused one |
| ReconcilerFacts.ReleasePassAt | src/website_handler.py:675-705 | a day is given back iff it is reserved, in view and later than every target day, and it gets a prefix of its list |
| ReconcilerFacts.ReleasePassNeed | src/website_handler.py:675-700 | the counter loses each day's charge: a kept day its whole list, a refused release one slot |
| ReconcilerFacts.ChargeBound | src/website_handler.py:675-700 | charge plus given-back never exceeds what was held, and matches it when releases go through whole |
| ReconcilerFacts.ReturnDayPrefix | src/website_handler.py:711-715 | giving back a prefix leaves the rest of the reserved list, and the count drops by the prefix |
| ReconcilerFacts.ReturnAllAt | src/website_handler.py:707-715 | per day: the rest of the reserved list stays (deleted when empty); the slots join the available list, twice for a day not yet available |
| ReconcilerFacts.ReturnAllCount | src/website_handler.py:707-715 | the write-back takes exactly the given-back slots from the reserved count |
| ReconcilerFacts.ReturnAllAvailableAt | src/website_handler.py:707-713 | the write-back seen from one available list |
| ReconcilerFacts.ReturnAllWithin | src/website_handler.py:707-715 | available lists only grow at their end, and every available slot was available before or was given back |
| ReconcilerFacts.RemoveFirstLength | src/website_handler.py:712 | `list.remove` of a listed slot shortens the list by one |
| ReconcilerFacts.RemoveFirstMember | src/website_handler.py:748 | `list.remove` leaves only slots of the list |
| ReconcilerFacts.ClaimFromFacts | src/website_handler.py:723-741 | a day's clicks are its slots in order, up to the one whose alert stopped the pass, or all of them |
| ReconcilerFacts.ClaimDayFacts | src/website_handler.py:723-751 | one claim day clicks a prefix of its pairs, and all of them unless stopped |
| ReconcilerFacts.ClaimDaysClicks | src/website_handler.py:722-752 | the claim pass clicks the target's pairs in dict order, up to the stopping one or to the end |
| ReconcilerFacts.ClaimDaysComplete | src/website_handler.py:722-752 | a pass no alert stopped clicked every target slot |
| ReconcilerFacts.ClaimDaysCount | src/website_handler.py:742-751 | each day adds at most one reserved slot |
| ReconcilerFacts.ClaimRecordsRefusedSlot | src/website_handler.py:742-751 | only a day's last slot is recorded: an accepted slot before it is not, and a last slot refused by a non-stopping alert is |
| ReconcilerFacts.ReleasesWithoutTarget | src/website_handler.py:682-688 | with no target day, every reserved day in view is released |
| ReconcilerFacts.RecordSub | src/website_handler.py:743-750 | recording a claim only shrinks the available map |
| ReconcilerFacts.ClaimDaysAvailable | src/website_handler.py:722-752 | the claim pass only takes from the available map |
| Reconciliation.RunPasses | src/website_handler.py:669-752 | the methods compute both passes: first targets, release, write-back, claims; reserved days out of view need neither parsing nor elements |
| Reconciliation.ClaimRemaining | src/website_handler.py:717-752 | the claim part runs only while slots are still needed, on the second targets |
| Reconciliation.ReconcileCategory | src/website_handler.py:656-758 | the method computes the whole call on one category's state |
| Reconciliation.PassesIgnoreEarlier | src/website_handler.py:656-752 | the passes read available, reserved and booked, never the stored earlier sessions |
| Reconciliation.EarlierSub | src/website_handler.py:619-639 | the earlier sessions are drawn from the available ones |
| Reconciliation.EarliestSub | src/website_handler.py:106-122 | the targets are drawn from their input, and no target day is empty |
| Reconciliation.ReleasedPrefixes | src/website_handler.py:675-705 | every given-back day is reserved, in view, and gets a prefix of its list |
| Reconciliation.SecondEarlierWithin | src/website_handler.py:707-720 | the second earlier sessions are drawn from the written-back available map, itself drawn from what was available or given back |
| Reconciliation.GivenBackKeeps | src/website_handler.py:676-705 | slots given back from reserved days in view parse and have elements when those days' slots do |
| Reconciliation.TargetClaimable | src/website_handler.py:719-726 | every second target parses and has a web element (given-back slots come from days in view), and each day's last slot is on offer |
| ReconciliationFacts.ReleaseAccounting | src/website_handler.py:675-715 | after release and write-back: counter ≤ quota, reserved lost exactly the given-back slots, counter = quota − still held when releases go through whole |
| ReconciliationFacts.ClaimBound | src/website_handler.py:717-752 | claiming the earliest `length` slots adds at most `length` reservations and clicks |
| ReconciliationFacts.PassesQuota | src/website_handler.py:669-752 | both passes add at most the quota, and end at ≤ max(held, quota) when releases go through whole |
| ReconciliationFacts.ReconcileQuota | src/website_handler.py:656-763 | one call adds at most `slots_per_type[c]` reservations, none without auto-reserve |
| ReconciliationFacts.ReconcileClaimClicks | src/website_handler.py:717-752 | the claim pass adds at most the quota's clicks after the release clicks |
| ReconciliationFacts.SharedEarlierSeesReleases | src/website_handler.py:637-720 | with nothing booked, a released available day shows its given-back slots to the second targets; a released day not available stays out, though listed twice |
| ReconciliationFacts.ReconcileAvailableWithin | src/website_handler.py:656-756 | what a call leaves available was available or reserved before |
| ReconciliationFacts.ReconcileFrame | src/website_handler.py:656-763 | changed iff refreshed earlier ≠ cache; stored earlier matches what is left available; no change ⇒ no clicks and only earlier written; change ⇒ cache = earlier; nothing else is touched |
| ReconciliationFacts.ReconcileWrites | src/website_handler.py:754-758 | the attributes a call writes: earlier alone, or with reserved, available and cache after a change |
| ReconciliationFacts.ReconcileSettles | src/website_handler.py:656-667 | a second call on the state left, with the same page, reports no change, clicks nothing and changes nothing |
| Notification.Upper | src/website_handler.py:587 | `upper()` keeps the length and maps a–z to A–Z |
| Notification.SlotLinesMention | src/website_handler.py:594-595 | each slot has its "  -> slot" line |
| Notification.DayBlockMention | src/website_handler.py:592-595 | a day's block holds its day line and each slot line |
| Notification.BlocksMention | src/website_handler.py:592-612 | every day of a section has its line, and every slot its line |
| Notification.SectionMention | src/website_handler.py:579-617 | the blocks of each section show in the whole text |
| Notification.NotificationMentions | src/website_handler.py:579-617 | the text names every booked, reserved and earlier day and lists each of its slots |
| Notification.CountDaysPositive | src/website_handler.py:600-604 | there is a slot to count iff some day lists one |
| Notification.SlotCountPositive | src/website_handler.py:600-604 | the slot count is positive iff some reserved day has a slot |
| Notification.ComposeSlotLines | src/website_handler.py:594-595 | the inner loop builds a day's slot lines |
| Notification.ComposeBlocks | src/website_handler.py:592-612 | the outer loop builds a section's blocks and reports whether any slot was listed |
| Notification.ComposeNotification | src/website_handler.py:579-617 | the text is the category's notification, and the flag is "some reserved day has a slot" |
| WebsiteHandler.AppendNotification | src/website_handler.py:579-617 | the pending text gains the category's text, and the flag is raised iff a slot is reserved |
| WebsiteHandler.Handler.constructor | src/website_handler.py:45-52 | every category empty, flags initial, configuration stored, no pending text, flag down, nothing sent |
| WebsiteHandler.Handler.ResetState | src/website_handler.py:98-101 | every category reset, no pending text, flag down |
| WebsiteHandler.Handler.UpdateEarlierSessions | src/website_handler.py:619-639 | only the category's earlier sessions change, to the earlier-sessions value |
| WebsiteHandler.Handler.CreateNotificationUpdate | src/website_handler.py:579-617 | returns the category's text and appends it; the flag is raised iff a reserved day has a slot, never lowered |
| WebsiteHandler.Handler.FlushNotificationUpdate | src/website_handler.py:641-654 | a non-empty text is sent under the time, then the reminder if the flag is up; everything is reset either way |
| WebsiteHandler.Handler.StoreOutcome | src/website_handler.py:754-763 | the outcome is stored, and the notification is composed only after a change |
| WebsiteHandler.Handler.WriteBack | src/website_handler.py:754-758 | the attribute writes store the outcome's state and touch no other category |
| WebsiteHandler.Handler.WriteSessionPair | src/website_handler.py:754-758 | two attribute writes of one category: both values stored, everything else unchanged |
| WebsiteHandler.Handler.CheckIfEarlierAvailableSessions | src/website_handler.py:656-763 | the call behaves as the reconciliation function, stores its state and, after a change, appends its notification |
| WebsiteHandler.Handler.GetReservedLessonDateTime | src/website_handler.py:284-313 | the reserved table's rows are filed, practical lessons skipped |
| WebsiteHandler.Handler.GetBookedLessonDateTime | src/website_handler.py:314-342 | the booked table's rows are filed |
| WebsiteHandler.Handler.FileRows | src/website_handler.py:287-312 | the row loop files the rows in order |
| WebsiteHandler.Handler.FileRowInStore | src/website_handler.py:288-312 | one row is classified, its lesson name stored and its slot appended |
| WebsiteHandler.Handler.GetAllSessionDateTimes | src/website_handler.py:486-502 | the category's times and days in view gain the table's labels, each once; nothing else changes |
| LessonRows.ClassifyFacts | src/website_handler.py:292-302 | a name is classified iff it contains a marker; "SIMULATOR" wins; practical iff a practical marker and not "SIMULATOR" |
| LessonRows.DropLast3 | src/website_handler.py:310 | `[:-3]` is a prefix three characters shorter, or empty |
| LessonRows.AddRowsSlots | src/website_handler.py:284-342 | each day's list of each category gains that category's and day's labels, in table order |
| LessonRows.AddRowsCount | src/website_handler.py:284-342 | each filed row adds exactly one slot to its category's table |
| LessonRows.AddRowsFrame | src/website_handler.py:284-342 | only the lesson name (that of the last filed row) and the table change; the reserved table leaves practical alone |
| LessonRows.AddRowAt | src/website_handler.py:304-312 | one row changes only the category it is filed under |
| LessonRows.FileRowFacts | src/website_handler.py:304-312 | filing sets the lesson name, appends the slot, and changes nothing else |
| LessonRows.AddRowSlots | src/website_handler.py:304-312 | one row adds its label to its own category and day only |
| LessonRows.SlotsOfAppend | src/website_handler.py:308-312 | appending a slot to a day adds it to the end of that day's list only |
| LessonRows.AddAllFacts | src/website_handler.py:493-496 | adding labels keeps the list, appends only new ones, holds exactly old and added, stays duplicate-free |
| LessonRows.CollectDaysFacts | src/website_handler.py:498-502 | the days list keeps its old entries and gains exactly the rows' first-cell days, each once |
| LessonRows.CollectTimesFacts | src/website_handler.py:493-496 | the times list keeps its old entries and stays duplicate-free |
| LessonRows.CollectTimesHas | src/website_handler.py:493-496 | each header's time from the third cell on ends up in the list |
| LessonRows.HeaderTimesHas | src/website_handler.py:493-494 | the header times hold each cell's second line from the third cell on |
| LessonRows.AddHeaderTimes | src/website_handler.py:493-496 | the inner loop adds the header times |
| LessonRows.CollectInView | src/website_handler.py:487-502 | the outer loop collects the times and the days |
| CdcAbstract.EmptyValue | abstracts/cdc_abstract.py:3-16 | a template's empty value has the template's type |
| CdcAbstract.Get | abstracts/cdc_abstract.py:105-106 | the getter yields a value of the attribute's type |
| CdcAbstract.Set | abstracts/cdc_abstract.py:108-109 | after a set, get returns the value and every other attribute is unchanged |
| CdcAbstract.FieldTypesComplete | abstracts/cdc_abstract.py:28 | `field_types` lists every category |
| CdcAbstract.TemplatesCoverAttrs | abstracts/cdc_abstract.py:3-16 | every attribute is a template |
| CdcAbstract.EmptyStateHoldsTemplates | abstracts/cdc_abstract.py:37-40 | after construction each attribute holds its template's empty value |
| CdcAbstract.ResetTemplatesEffect | abstracts/cdc_abstract.py:83-86 | the reset loop after n templates has emptied exactly the first n non-whitelisted attributes |
| CdcAbstract.ResetTemplatesComplete | abstracts/cdc_abstract.py:83-86 | the reset loop over all templates is the category reset |
| CdcAbstract.ResetCategoryState | abstracts/cdc_abstract.py:81-86 | every attribute is emptied except the cached earlier sessions, which keep their value |
| CdcAbstract.ResetFieldTypeEffect | abstracts/cdc_abstract.py:81-97 | resetting c empties c's attributes except the cache, restores c's flags, and changes nothing of other categories |
| CdcAbstract.TheoryResetKeepsFlags | abstracts/cdc_abstract.py:88-97 | BTT, RTT and FTT resets leave every flag unchanged |
| CdcAbstract.ResetEachEffect | abstracts/cdc_abstract.py:77-79 | resetting a list of categories resets exactly those listed |
| CdcAbstract.ResetEachFlagsMonotone | abstracts/cdc_abstract.py:77-97 | each listed category's flags are restored, the others kept |
| CdcAbstract.ResetAllEffect | abstracts/cdc_abstract.py:77-97 | all six categories reset, flags initial, every cache kept |
| CdcAbstract.ResetAllIdempotent | abstracts/cdc_abstract.py:77-79 | resetting everything twice equals resetting once |
| CdcAbstract.ResetCategoryStateIdempotent | abstracts/cdc_abstract.py:81-86 | resetting a category twice equals resetting once |
| CdcAbstract.CdcState.constructor | abstracts/cdc_abstract.py:37-51 | every attribute of every category empty, flags at their initial values |
| CdcAbstract.CdcState.GetAttributeWithFieldType | abstracts/cdc_abstract.py:105-106 | the getter yields a value of the attribute's type |
| CdcAbstract.CdcState.SetAttributeWithFieldType | abstracts/cdc_abstract.py:108-109 | only the pair (attribute, category) changes |
| CdcAbstract.CdcState.ResetTemplatesOf | abstracts/cdc_abstract.py:83-86 | the template loop resets the category's attributes, flags untouched |
| CdcAbstract.CdcState.ResetAttributesWithFieldType | abstracts/cdc_abstract.py:81-97 | the store becomes the category reset of its old state |
| CdcAbstract.CdcState.ResetAttributesForAllFieldTypes | abstracts/cdc_abstract.py:77-79 | the store becomes the full reset of its old state |
| Common.KeyChecks | src/utils/common.py:66-77 | the key check holds iff the key is in the dict; the pair check iff the key is there with that value |
| Common.IndexOf | src/utils/common.py:61 | `enumerate`'s index of a key is its first position |
| Common.IndexOfPrefix | src/utils/common.py:61-63 | a key's first position in a prefix that holds it is its first position overall |
| Common.WithDefaultsFacts | src/utils/common.py:60-64 | existing keys keep their values; each missing default key gets its position index; nothing else is added |
| Common.WithDefaultsIdempotent | src/utils/common.py:60-64 | merging the same defaults twice changes nothing |
| Common.ConfigDict.InitConfigWithDefault | src/utils/common.py:60-64 | the dict itself is returned, holding the merge of its old entries with the defaults |
| Common.MergeStep | src/utils/common.py:61-63 | one loop step adds the key with its index only when it is missing |
| Common.ConcatTuple | src/utils/common.py:79-84 | the loop joins the items, each followed by one space |
| Common.JoinedAppend | src/utils/common.py:79-84 | joining distributes over concatenation of the items |
| Common.JoinedLength | src/utils/common.py:79-84 | the length is every item plus one space each; "" exactly for no items |
| Common.GetDateFormatterFacts | src/utils/common.py:109-129 | the pattern is the option's when it is a name, else the default's, always one of the table's |
| Common.DateFormatterQuirks | src/utils/common.py:109-129 | "mm/dd/yyyy" yields the two-digit-year "%m/%d/%y"; an unknown name falls back to the default |

## Left out

- Browser work is not modelled: page opening, login and logout, captcha
  handling, the page openers and their retries, scraping the
  available-sessions table into maps (`get_all_available_sessions`), and
  `selenium_common`. Table rows arrive as cell texts. A click's outcome is
  the next entry of an alert list, and a missing entry means no alert.
  Element lookups must succeed: every available slot, and every reserved
  slot of a day in view, has an element (`ElementsCover`,
  `ElementsCoverInView`).
- The "other teams" reporting path only scrapes and notifies, so it is not
  modelled.
- `is_date_in_view` is not a separate member. It is the `d in view` test
  inside `Reconciler.Releases`.
- Clocks are not modelled. `datetime.now()` is the `now` parameter of
  `FlushNotificationUpdate`, and `get_date_now` / `get_datetime_now` are
  left out.
- Notification delivery is modelled only as appending (title, message)
  pairs to `outbox`.
- Logging is not modelled.
- `CDCAbstract.__str__` is not modelled: it is reflection used only for
  logging.
- `load_config_from_yaml_file`, `clear_directory` and `remove_files` are
  file I/O and are not modelled.
- The main loop in `src/main.py` is not modelled.
- `convert_to_datetime` accepts only title-case month abbreviations and
  digit fields of the usual widths. strptime's leniencies (case, leading
  spaces) are not modelled.
- Reconciliation.ReconcileCategory: its label-parsing and element-lookup
  preconditions are sufficient for the source not to raise, not exactly
  the inputs on which it raises. They cover the available sessions and
  the reserved days in view; a reserved day out of view is only counted.
  The slots of a reserved day in view must parse even when that day is
  kept.
- WebsiteHandler.Handler.CheckIfEarlierAvailableSessions: has the same
  preconditions.
- Selector.GetEarliestTimeSlots and
  WebsiteHandler.Handler.UpdateEarlierSessions: the `ValueError` that
  strptime raises on a malformed label is a precondition (`AllParse`,
  `EarlierParses`) rather than an error result. The main loop in
  `src/main.py:29-102` catches any exception and starts over with a new
  handler, so no state after such an error is observed.
- LessonRows.AddRows: assumes every row with cells has at least five, and
  a row that would raise `IndexError` is excluded.
- WebsiteHandler.Handler.GetAllSessionDateTimes: assumes every header
  cell from the third on has a line break. It reads the two lists once,
  not once per row, which is the same because they are the same objects.
- WebsiteHandler.Handler.CheckIfEarlierAvailableSessions: computes the
  category's new state as a value and then writes the attributes. The
  source edits the reserved and available dicts in place.
  `Reconciliation.Shared` models the one aliasing that shows: the earlier
  sessions share the available lists.
- Common.ConcatTuple: takes the items as their `str` already, and
  `str()` of arbitrary objects is not modelled.
- Common.WithDefaults: the configuration dict's key order is not modelled.
  The values loaded from YAML are opaque (`Loaded`).
- Selector.EarliestAreFirst: the order of the days in the result
  (first-pick order) is not stated separately. The picks are shown to be
  in time order, and within a day the slots are ascending.
