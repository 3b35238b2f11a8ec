/**
 * `CDCAbstract` (abstracts/cdc_abstract.py): the per-category state store.
 * The source fakes one record per category by building attribute names
 * ("available_sessions_simulator", ...) from `attribute_templates` and the
 * names in `Types`; here each category owns a `CategoryState` record and
 * the name-built getter and setter become `Get` / `Set` keyed by `Attr`.
 */
module CdcAbstract {
  import opened SessionMaps

  /** `Types`: the six lesson categories. */
  datatype Category = Simulator | Practical | Btt | Rtt | Ftt | Pt

  /** `field_types`: the attribute names of `Types` in the order `dir()` lists them (alphabetical). */
  const FieldTypes: seq<Category> := [Btt, Ftt, Practical, Pt, Rtt, Simulator]

  /** The value of `Types.X`, the suffix of every per-category attribute name. */
  function TypeName(c: Category): string
  {
    match c
    case Simulator => "simulator"
    case Practical => "practical"
    case Btt => "btt"
    case Rtt => "rtt"
    case Ftt => "ftt"
    case Pt => "pt"
  }

  /** The per-category attributes named in `attribute_templates`. */
  datatype Attr =
    | DaysInView | WebElementsInView | TimesInView
    | AvailableSessions
    | ReservedSessions | BookedSessions | LessonName
    | EarlierSessions | CachedEarlierSessions

  /** `attribute_templates`, in the source's order. */
  const AttributeTemplates: seq<Attr> :=
    [DaysInView, WebElementsInView, TimesInView, AvailableSessions, ReservedSessions,
     BookedSessions, LessonName, EarlierSessions, CachedEarlierSessions]

  /** The Python type each template names: list, dict or str. */
  datatype Kind = ListKind | DictKind | StrKind

  function TemplateKind(a: Attr): Kind
  {
    match a
    case DaysInView => ListKind
    case TimesInView => ListKind
    case LessonName => StrKind
    case _ => DictKind
  }

  /**
   * A per-category attribute value. Python's `dict` covers two shapes here:
   * the web-element index ("day : time" -> element id) and session maps.
   */
  datatype Value =
    | ListValue(items: seq<string>)
    | ElementsValue(elements: map<string, string>)
    | SessionsValue(sessions: Sessions)
    | TextValue(text: string)

  function KindOf(v: Value): Kind
  {
    match v
    case ListValue(_) => ListKind
    case TextValue(_) => StrKind
    case _ => DictKind
  }

  /** `v` has the shape that attribute `a` holds. */
  predicate Fits(a: Attr, v: Value)
  {
    match a
    case DaysInView => v.ListValue?
    case TimesInView => v.ListValue?
    case WebElementsInView => v.ElementsValue?
    case LessonName => v.TextValue?
    case _ => v.SessionsValue?
  }

  /** `attribute_template[1]()`: the empty list, dict or string. */
  function EmptyValue(a: Attr): (v: Value)
    ensures Fits(a, v) && KindOf(v) == TemplateKind(a)
  {
    match a
    case DaysInView => ListValue([])
    case TimesInView => ListValue([])
    case WebElementsInView => ElementsValue(map[])
    case LessonName => TextValue("")
    case _ => SessionsValue(Empty)
  }

  /** The attributes of one category. */
  datatype CategoryState = CategoryState(
    daysInView: seq<string>,
    webElementsInView: map<string, string>,
    timesInView: seq<string>,
    available: Sessions,
    reserved: Sessions,
    booked: Sessions,
    lessonName: string,
    earlier: Sessions,
    cachedEarlier: Sessions)

  /** The category's state as the constructor leaves it: every attribute empty. */
  const EmptyCategoryState: CategoryState :=
    CategoryState([], map[], [], Empty, Empty, Empty, "", Empty, Empty)

  /** `get_attribute_with_fieldtype(a, c)` once the category is chosen. */
  function Get(s: CategoryState, a: Attr): (v: Value)
    ensures Fits(a, v)
  {
    match a
    case DaysInView => ListValue(s.daysInView)
    case WebElementsInView => ElementsValue(s.webElementsInView)
    case TimesInView => ListValue(s.timesInView)
    case AvailableSessions => SessionsValue(s.available)
    case ReservedSessions => SessionsValue(s.reserved)
    case BookedSessions => SessionsValue(s.booked)
    case LessonName => TextValue(s.lessonName)
    case EarlierSessions => SessionsValue(s.earlier)
    case CachedEarlierSessions => SessionsValue(s.cachedEarlier)
  }

  /** `set_attribute_with_fieldtype(a, c, v)` once the category is chosen. */
  function Set(s: CategoryState, a: Attr, v: Value): (r: CategoryState)
    requires Fits(a, v)
    ensures Get(r, a) == v
    ensures forall b :: b != a ==> Get(r, b) == Get(s, b)
  {
    match a
    case DaysInView => s.(daysInView := v.items)
    case WebElementsInView => s.(webElementsInView := v.elements)
    case TimesInView => s.(timesInView := v.items)
    case AvailableSessions => s.(available := v.sessions)
    case ReservedSessions => s.(reserved := v.sessions)
    case BookedSessions => s.(booked := v.sessions)
    case LessonName => s.(lessonName := v.text)
    case EarlierSessions => s.(earlier := v.sessions)
    case CachedEarlierSessions => s.(cachedEarlier := v.sessions)
  }

  /** Two states that agree on every attribute are the same state. */
  lemma StateExtensionality(s: CategoryState, t: CategoryState)
    requires forall a :: Get(s, a) == Get(t, a)
    ensures s == t
  {
    assert Get(s, DaysInView) == Get(t, DaysInView);
    assert Get(s, WebElementsInView) == Get(t, WebElementsInView);
    assert Get(s, TimesInView) == Get(t, TimesInView);
    assert Get(s, AvailableSessions) == Get(t, AvailableSessions);
    assert Get(s, ReservedSessions) == Get(t, ReservedSessions);
    assert Get(s, BookedSessions) == Get(t, BookedSessions);
    assert Get(s, LessonName) == Get(t, LessonName);
    assert Get(s, EarlierSessions) == Get(t, EarlierSessions);
    assert Get(s, CachedEarlierSessions) == Get(t, CachedEarlierSessions);
  }

  /** Every category is listed in `field_types`. */
  lemma FieldTypesComplete(c: Category)
    ensures c in FieldTypes
  {
    match c
    case Btt => assert FieldTypes[0] == c;
    case Ftt => assert FieldTypes[1] == c;
    case Practical => assert FieldTypes[2] == c;
    case Pt => assert FieldTypes[3] == c;
    case Rtt => assert FieldTypes[4] == c;
    case Simulator => assert FieldTypes[5] == c;
  }

  /** The first `n` steps of the reset loop over `attribute_templates`. */
  function ResetTemplates(s: CategoryState, n: nat): CategoryState
    requires n <= |AttributeTemplates|
  {
    if n == 0 then s
    else
      var a := AttributeTemplates[n - 1];
      var p := ResetTemplates(s, n - 1);
      if Whitelisted(a) then p else Set(p, a, EmptyValue(a))
  }

  lemma {:induction false} ResetTemplatesEffect(s: CategoryState, n: nat, a: Attr)
    requires n <= |AttributeTemplates|
    ensures Get(ResetTemplates(s, n), a) ==
      if a in AttributeTemplates[..n] && !Whitelisted(a) then EmptyValue(a) else Get(s, a)
  {
    if n > 0 {
      var b := AttributeTemplates[n - 1];
      var p := ResetTemplates(s, n - 1);
      ResetTemplatesEffect(s, n - 1, a);
      PrefixStep(AttributeTemplates, n - 1);
      assert a in AttributeTemplates[..n] <==> a in AttributeTemplates[..n - 1] || a == b;
    }
  }

  /** Running the reset loop over all templates is `ResetCategoryState`. */
  lemma ResetTemplatesComplete(s: CategoryState)
    ensures ResetTemplates(s, |AttributeTemplates|) == ResetCategoryState(s)
  {
    forall a ensures Get(ResetTemplates(s, |AttributeTemplates|), a) == Get(ResetCategoryState(s), a) {
      ResetTemplatesEffect(s, |AttributeTemplates|, a);
      TemplatesCoverAttrs(a);
      assert AttributeTemplates[..|AttributeTemplates|] == AttributeTemplates;
    }
    StateExtensionality(ResetTemplates(s, |AttributeTemplates|), ResetCategoryState(s));
  }

  /** A second write to the same key of a map overrides the first. */
  lemma UpdateTwice<K, V>(m: map<K, V>, k: K, v: V, w: V)
    ensures m[k := v][k := w] == m[k := w]
  {
  }

  /** Every attribute is listed in the templates. */
  lemma TemplatesCoverAttrs(a: Attr)
    ensures a in AttributeTemplates
  {
  }

  /** After construction every attribute holds its template's empty value. */
  lemma EmptyStateHoldsTemplates(a: Attr)
    ensures Get(EmptyCategoryState, a) == EmptyValue(a)
  {
  }

  /** The attribute kept across resets (`whitelisted_attributes`). */
  predicate Whitelisted(a: Attr) { a == CachedEarlierSessions }

  /** `reset_attributes_with_fieldtype` on one category's attributes. */
  function ResetCategoryState(s: CategoryState): (r: CategoryState)
    ensures forall a :: Get(r, a) == if Whitelisted(a) then Get(s, a) else EmptyValue(a)
  {
    EmptyCategoryState.(cachedEarlier := s.cachedEarlier)
  }

  /** The boolean flags the source keeps beside the per-category attributes. */
  datatype Flags = Flags(
    canBookNextSimulator: bool, hasAutoReservedSimulator: bool,
    canBookNextPractical: bool, hasAutoReservedPractical: bool,
    canBookNextPt: bool)

  const InitialFlags: Flags := Flags(true, false, true, false, true)

  /** The flag part of `reset_attributes_with_fieldtype(c)`. */
  function ResetFlags(f: Flags, c: Category): (r: Flags)
  {
    match c
    case Simulator => f.(canBookNextSimulator := true, hasAutoReservedSimulator := false)
    case Practical => f.(canBookNextPractical := true, hasAutoReservedPractical := false)
    case Pt => f.(canBookNextPt := true)
    case _ => f
  }

  /** The whole store as a value. */
  datatype Snapshot = Snapshot(categories: map<Category, CategoryState>, flags: Flags)

  predicate Complete(s: Snapshot) { forall c: Category :: c in s.categories }

  /** `reset_attributes_with_fieldtype(c)`. */
  function ResetFieldType(s: Snapshot, c: Category): (r: Snapshot)
    requires Complete(s)
    ensures Complete(r)
  {
    Snapshot(s.categories[c := ResetCategoryState(s.categories[c])], ResetFlags(s.flags, c))
  }

  /** Resetting the categories of `cs` one after the other. */
  function ResetEach(s: Snapshot, cs: seq<Category>): (r: Snapshot)
    requires Complete(s)
    ensures Complete(r)
    decreases |cs|
  {
    if cs == [] then s else ResetEach(ResetFieldType(s, cs[0]), cs[1..])
  }

  /** Resetting the category at `i` leaves the categories from `i + 1` on to reset. */
  lemma ResetEachStep(s: Snapshot, cs: seq<Category>, i: nat)
    requires Complete(s) && i < |cs|
    ensures ResetEach(ResetFieldType(s, cs[i]), cs[i + 1..]) == ResetEach(s, cs[i..])
  {
    assert cs[i..][1..] == cs[i + 1..];
  }

  /** `reset_attributes_for_all_fieldtypes`. */
  function ResetAll(s: Snapshot): (r: Snapshot)
    requires Complete(s)
    ensures Complete(r)
  {
    ResetEach(s, FieldTypes)
  }

  // ---------------------------------------------------------------- lemmas

  /**
   * Resetting category c empties c's attributes except the cached earlier
   * sessions, restores c's flags, and changes nothing that belongs to
   * another category.
   */
  lemma ResetFieldTypeEffect(s: Snapshot, c: Category)
    requires Complete(s)
    ensures forall a :: (Get(ResetFieldType(s, c).categories[c], a) ==
      if a == CachedEarlierSessions then Get(s.categories[c], a) else EmptyValue(a))
    ensures forall o :: o != c ==> ResetFieldType(s, c).categories[o] == s.categories[o]
    ensures var f := ResetFieldType(s, c).flags;
      && (c == Simulator ==> f.canBookNextSimulator && !f.hasAutoReservedSimulator)
      && (c == Practical ==> f.canBookNextPractical && !f.hasAutoReservedPractical)
      && (c == Pt ==> f.canBookNextPt)
      && (c != Simulator ==> f.canBookNextSimulator == s.flags.canBookNextSimulator
                             && f.hasAutoReservedSimulator == s.flags.hasAutoReservedSimulator)
      && (c != Practical ==> f.canBookNextPractical == s.flags.canBookNextPractical
                             && f.hasAutoReservedPractical == s.flags.hasAutoReservedPractical)
      && (c != Pt ==> f.canBookNextPt == s.flags.canBookNextPt)
  {
  }

  /** BTT, RTT and FTT have no flags: resetting them leaves every flag as it was. */
  lemma TheoryResetKeepsFlags(s: Snapshot, c: Category)
    requires Complete(s)
    requires c == Btt || c == Rtt || c == Ftt
    ensures ResetFieldType(s, c).flags == s.flags
  {
  }

  lemma {:induction false} ResetEachEffect(s: Snapshot, cs: seq<Category>, c: Category)
    requires Complete(s)
    ensures ResetEach(s, cs).categories[c] ==
      if c in cs then ResetCategoryState(s.categories[c]) else s.categories[c]
    decreases |cs|
  {
    if cs != [] {
      var s' := ResetFieldType(s, cs[0]);
      ResetEachEffect(s', cs[1..], c);
      if c == cs[0] {
        assert ResetCategoryState(ResetCategoryState(s.categories[c])) == ResetCategoryState(s.categories[c]);
      }
    }
  }

  lemma {:induction false} ResetEachFlagsMonotone(s: Snapshot, cs: seq<Category>)
    requires Complete(s)
    ensures var f := ResetEach(s, cs).flags;
      && (Simulator in cs ==> f.canBookNextSimulator && !f.hasAutoReservedSimulator)
      && (Practical in cs ==> f.canBookNextPractical && !f.hasAutoReservedPractical)
      && (Pt in cs ==> f.canBookNextPt)
      && (Simulator !in cs ==> f.canBookNextSimulator == s.flags.canBookNextSimulator
                               && f.hasAutoReservedSimulator == s.flags.hasAutoReservedSimulator)
      && (Practical !in cs ==> f.canBookNextPractical == s.flags.canBookNextPractical
                               && f.hasAutoReservedPractical == s.flags.hasAutoReservedPractical)
      && (Pt !in cs ==> f.canBookNextPt == s.flags.canBookNextPt)
    decreases |cs|
  {
    if cs != [] {
      ResetFieldTypeEffect(s, cs[0]);
      ResetEachFlagsMonotone(ResetFieldType(s, cs[0]), cs[1..]);
    }
  }

  /**
   * Resetting all categories resets each of the six, leaves every flag at its
   * initial value, and keeps every category's cached earlier sessions.
   */
  lemma ResetAllEffect(s: Snapshot)
    requires Complete(s)
    ensures forall c :: ResetAll(s).categories[c] == ResetCategoryState(s.categories[c])
    ensures ResetAll(s).flags == InitialFlags
    ensures forall c :: ResetAll(s).categories[c].cachedEarlier == s.categories[c].cachedEarlier
  {
    forall c ensures ResetAll(s).categories[c] == ResetCategoryState(s.categories[c]) {
      FieldTypesComplete(c);
      ResetEachEffect(s, FieldTypes, c);
    }
    ResetEachFlagsMonotone(s, FieldTypes);
  }

  /** Resetting everything twice is the same as resetting it once. */
  lemma ResetAllIdempotent(s: Snapshot)
    requires Complete(s)
    ensures ResetAll(ResetAll(s)) == ResetAll(s)
  {
    var once := ResetAll(s);
    var twice := ResetAll(once);
    ResetAllEffect(s);
    ResetAllEffect(once);
    forall c ensures twice.categories[c] == once.categories[c] {
      ResetCategoryStateIdempotent(s.categories[c]);
    }
    SnapshotExtensionality(twice, once);
  }

  lemma ResetCategoryStateIdempotent(st: CategoryState)
    ensures ResetCategoryState(ResetCategoryState(st)) == ResetCategoryState(st)
  {
  }

  lemma SnapshotExtensionality(a: Snapshot, b: Snapshot)
    requires Complete(a) && Complete(b)
    requires forall c :: a.categories[c] == b.categories[c]
    requires a.flags == b.flags
    ensures a == b
  {
    assert a.categories.Keys == b.categories.Keys;
  }

  /**
   * `CDCAbstract`: per category, the nine attributes; beside them the five
   * flags the source declares by name.
   */
  class CdcState {
    var categories: map<Category, CategoryState>
    var canBookNextSimulator: bool
    var hasAutoReservedSimulator: bool
    var canBookNextPractical: bool
    var hasAutoReservedPractical: bool
    var canBookNextPt: bool

    /** Every category has its record. */
    ghost predicate Valid()
      reads this
    {
      forall c: Category :: c in categories
    }

    function CurrentFlags(): Flags
      reads this
    {
      Flags(canBookNextSimulator, hasAutoReservedSimulator,
                        canBookNextPractical, hasAutoReservedPractical, canBookNextPt)
    }

    function Snap(): Snapshot
      reads this
    {
      Snapshot(categories, CurrentFlags())
    }

    /** `CDCAbstract.__init__`: every attribute of every category empty, flags at their initial values. */
    constructor ()
      ensures Valid()
      ensures forall c :: categories[c] == EmptyCategoryState
      ensures CurrentFlags() == InitialFlags
    {
      categories := map[];
      new;
      var i := 0;
      while i < |FieldTypes|
        invariant 0 <= i <= |FieldTypes|
        invariant forall c :: c in categories <==> c in FieldTypes[..i]
        invariant forall c :: c in categories ==> categories[c] == EmptyCategoryState
      {
        categories := categories[FieldTypes[i] := EmptyCategoryState];
        assert FieldTypes[..i + 1] == FieldTypes[..i] + [FieldTypes[i]];
        i := i + 1;
      }
      forall c: Category ensures c in categories {
        FieldTypesComplete(c);
        assert FieldTypes[..i] == FieldTypes;
      }
      canBookNextSimulator, hasAutoReservedSimulator := true, false;
      canBookNextPractical, hasAutoReservedPractical := true, false;
      canBookNextPt := true;
    }

    /** `get_attribute_with_fieldtype(a, c)`. */
    function GetAttributeWithFieldType(a: Attr, c: Category): (v: Value)
      reads this
      requires Valid()
      ensures Fits(a, v)
    {
      Get(categories[c], a)
    }

    /** `set_attribute_with_fieldtype(a, c, v)`: only the pair (a, c) changes. */
    method SetAttributeWithFieldType(a: Attr, c: Category, v: Value)
      requires Valid() && Fits(a, v)
      modifies this
      ensures Valid() && CurrentFlags() == old(CurrentFlags())
      ensures categories == old(categories)[c := Set(old(categories)[c], a, v)]
    {
      categories := categories[c := Set(categories[c], a, v)];
    }

    /** `reset_attributes_with_fieldtype(c)`. */
    method ResetAttributesWithFieldType(c: Category)
      requires Valid()
      modifies this
      ensures Valid()
      ensures Snap() == ResetFieldType(old(Snap()), c)
    {
      ResetTemplatesOf(c);
      if c == Simulator {
        canBookNextSimulator, hasAutoReservedSimulator := true, false;
      }
      if c == Practical {
        canBookNextPractical, hasAutoReservedPractical := true, false;
      }
      if c == Pt {
        canBookNextPt := true;
      }
    }

    /** The loop of `reset_attributes_with_fieldtype(c)` over `attribute_templates`. */
    method ResetTemplatesOf(c: Category)
      requires Valid()
      modifies this
      ensures Valid() && CurrentFlags() == old(CurrentFlags())
      ensures categories == old(categories)[c := ResetCategoryState(old(categories)[c])]
    {
      var i := 0;
      while i < |AttributeTemplates|
        invariant 0 <= i <= |AttributeTemplates|
        invariant Valid() && CurrentFlags() == old(CurrentFlags())
        invariant categories == old(categories)[c := ResetTemplates(old(categories)[c], i)]
      {
        var a := AttributeTemplates[i];
        ghost var done := ResetTemplates(old(categories)[c], i);
        assert ResetTemplates(old(categories)[c], i + 1) == if Whitelisted(a) then done else Set(done, a, EmptyValue(a));
        if !Whitelisted(a) {
          SetAttributeWithFieldType(a, c, EmptyValue(a));
          UpdateTwice(old(categories), c, done, Set(done, a, EmptyValue(a)));
        }
        i := i + 1;
      }
      ResetTemplatesComplete(old(categories)[c]);
    }

    /** `reset_attributes_for_all_fieldtypes`: the per-category reset for each of `field_types`. */
    method ResetAttributesForAllFieldTypes()
      requires Valid()
      modifies this
      ensures Valid()
      ensures Snap() == ResetAll(old(Snap()))
    {
      var i := 0;
      while i < |FieldTypes|
        invariant 0 <= i <= |FieldTypes|
        invariant Valid()
        invariant ResetEach(Snap(), FieldTypes[i..]) == ResetAll(old(Snap()))
      {
        ghost var before := Snap();
        ResetAttributesWithFieldType(FieldTypes[i]);
        ResetEachStep(before, FieldTypes, i);
        i := i + 1;
      }
    }
  }
}
