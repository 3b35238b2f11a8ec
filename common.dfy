/**
 * The dictionary, configuration and string helpers of `utils` in
 * src/utils/common.py that the handler's bookkeeping leans on.
 */
module Common {
  import opened Wrappers

  // ----------------------------------------------------------- dict lookups

  /** `dic[key]`: the value, or None where Python raises `KeyError`. */
  function Lookup<K, V>(dic: map<K, V>, key: K): (r: Option<V>)
    ensures r.Some? ==> key in dic && r.value == dic[key]
  {
    if key in dic then Some(dic[key]) else None
  }

  /** `check_key_existence_in_dict`: the lookup succeeds. */
  function CheckKeyExistenceInDict<K, V>(dic: map<K, V>, key: K): (r: bool)
  {
    Lookup(dic, key).Some?
  }

  /** `check_key_value_pair_exist_in_dict`: the lookup succeeds and finds `value`. */
  function CheckKeyValuePairExistInDict<K, V(==)>(dic: map<K, V>, key: K, value: V): (r: bool)
  {
    match Lookup(dic, key)
    case Some(v) => v == value
    case None => false
  }

  /** A key exists exactly when the dict has it; then the pair check compares its value. */
  lemma KeyChecks<K, V>(dic: map<K, V>, key: K, value: V)
    ensures CheckKeyExistenceInDict(dic, key) <==> key in dic
    ensures CheckKeyValuePairExistInDict(dic, key, value) <==> key in dic && dic[key] == value
    ensures CheckKeyValuePairExistInDict(dic, key, value) ==> CheckKeyExistenceInDict(dic, key)
  {
  }

  // ----------------------------------------------------- configuration merge

  /** A configuration value: what `init_config_with_default` stores is an index. */
  datatype ConfigValue = IntValue(n: int) | Loaded(repr: string)

  /** The position of the first `x` in `s`, as `enumerate` numbers it. */
  function IndexOf<T(==)>(s: seq<T>, x: T): (i: nat)
    requires x in s
    ensures i < |s| && s[i] == x && x !in s[..i]
  {
    if s[0] == x then 0
    else
      var i := 1 + IndexOf(s[1..], x);
      assert s[..i] == [s[0]] + s[1..][..i - 1];
      i
  }

  /**
   * The configuration after `init_config_with_default(config, default)`,
   * where `defaults` are the default dict's keys in order: a key already
   * present keeps its value, a missing default key gets its position in the
   * default dict (not its default value, since `enumerate` yields the index
   * first).
   */
  function WithDefaults(config: map<string, ConfigValue>, defaults: seq<string>): (r: map<string, ConfigValue>)
  {
    map k | k in config.Keys + (set d | d in defaults) :: if k in config then config[k] else IntValue(IndexOf(defaults, k))
  }

  /** Existing entries stay; each missing default key holds its index; nothing else is added. */
  lemma WithDefaultsFacts(config: map<string, ConfigValue>, defaults: seq<string>, k: string)
    ensures k in WithDefaults(config, defaults) <==> k in config || k in defaults
    ensures k in config ==> WithDefaults(config, defaults)[k] == config[k]
    ensures k !in config && k in defaults ==>
              WithDefaults(config, defaults)[k] == IntValue(IndexOf(defaults, k)) &&
              0 <= IndexOf(defaults, k) < |defaults| && defaults[IndexOf(defaults, k)] == k
  {
  }

  /** Merging the same defaults a second time changes nothing. */
  lemma WithDefaultsIdempotent(config: map<string, ConfigValue>, defaults: seq<string>)
    ensures WithDefaults(WithDefaults(config, defaults), defaults) == WithDefaults(config, defaults)
  {
    var once := WithDefaults(config, defaults);
    var twice := WithDefaults(once, defaults);
    assert twice.Keys == once.Keys;
    forall k | k in once ensures twice[k] == once[k] {
    }
  }

  /** The first index of `x` in a prefix that holds it is its first index in the whole. */
  lemma {:induction false} IndexOfPrefix<T>(s: seq<T>, i: nat, x: T)
    requires i <= |s| && x in s[..i]
    ensures IndexOf(s[..i], x) == IndexOf(s, x)
  {
    if s[0] != x {
      assert s[..i][1..] == s[1..][..i - 1];
      IndexOfPrefix(s[1..], i - 1, x);
    }
  }

  /** The `config` dict the function updates in place and returns. */
  class ConfigDict {
    var entries: map<string, ConfigValue>

    constructor (entries: map<string, ConfigValue>)
      ensures this.entries == entries
    {
      this.entries := entries;
    }

    /** `init_config_with_default(config, default)`: the dict itself, with the defaults merged in. */
    method InitConfigWithDefault(defaults: seq<string>) returns (r: ConfigDict)
      modifies this
      ensures r == this
      ensures entries == WithDefaults(old(entries), defaults)
    {
      var i := 0;
      while i < |defaults|
        invariant 0 <= i <= |defaults|
        invariant entries == WithDefaults(old(entries), defaults[..i])
      {
        var key := defaults[i];
        if !CheckKeyExistenceInDict(entries, key) {
          entries := entries[key := IntValue(i)];
        }
        MergeStep(old(entries), defaults, i);
        i := i + 1;
      }
      assert defaults[..i] == defaults;
      r := this;
    }
  }

  /** One step of the merge loop. */
  lemma MergeStep(config: map<string, ConfigValue>, defaults: seq<string>, i: nat)
    requires i < |defaults|
    ensures var m := WithDefaults(config, defaults[..i]);
            var key := defaults[i];
            WithDefaults(config, defaults[..i + 1]) == if key in m then m else m[key := IntValue(i)]
  {
    var m := WithDefaults(config, defaults[..i]);
    var key := defaults[i];
    var next := WithDefaults(config, defaults[..i + 1]);
    var target := if key in m then m else m[key := IntValue(i)];
    forall k ensures (k in next <==> k in target) && (k in next ==> next[k] == target[k]) {
      MergeStepAt(config, defaults, i, k);
    }
    assert next.Keys == target.Keys;
  }

  /** `MergeStep` seen from one key. */
  lemma MergeStepAt(config: map<string, ConfigValue>, defaults: seq<string>, i: nat, k: string)
    requires i < |defaults|
    ensures var m := WithDefaults(config, defaults[..i]);
            var key := defaults[i];
            var next := WithDefaults(config, defaults[..i + 1]);
            var target := if key in m then m else m[key := IntValue(i)];
            (k in next <==> k in target) && (k in next ==> next[k] == target[k])
  {
    var prefix, longer := defaults[..i], defaults[..i + 1];
    assert longer == prefix + [defaults[i]];
    assert longer[..i] == prefix;
    if k !in config && k in prefix {
      IndexOfPrefix(longer, i, k);
    }
  }

  // ------------------------------------------------------------- concat_tuple

  /** `concat_tuple`: each item's text followed by one space; the items arrive as their `str`. */
  function Joined(items: seq<string>): string
  {
    if items == [] then "" else Joined(items[..|items| - 1]) + items[|items| - 1] + " "
  }

  /** The loop of `concat_tuple`. */
  method ConcatTuple(items: seq<string>) returns (result: string)
    ensures result == Joined(items)
  {
    result := "";
    var i := 0;
    while i < |items|
      invariant 0 <= i <= |items|
      invariant result == Joined(items[..i])
    {
      assert items[..i + 1][..i] == items[..i];
      result := result + items[i] + " ";
      i := i + 1;
    }
    assert items[..i] == items;
  }

  /** Joining distributes over concatenation of the items. */
  lemma {:induction false} JoinedAppend(a: seq<string>, b: seq<string>)
    ensures Joined(a + b) == Joined(a) + Joined(b)
  {
    if b == [] {
      assert a + b == a;
    } else {
      var init := b[..|b| - 1];
      JoinedAppend(a, init);
      assert (a + b)[..|a + b| - 1] == a + init;
      assert (a + b)[|a + b| - 1] == b[|b| - 1];
    }
  }

  /** The length: every item plus one space each; the empty tuple gives "". */
  lemma {:induction false} JoinedLength(items: seq<string>)
    ensures |Joined(items)| == TotalLength(items) + |items|
    ensures items == [] <==> Joined(items) == ""
  {
    if items != [] {
      JoinedLength(items[..|items| - 1]);
    }
  }

  function TotalLength(items: seq<string>): nat
  {
    if items == [] then 0 else TotalLength(items[..|items| - 1]) + |items[|items| - 1]|
  }

  // -------------------------------------------------------- date formatters

  /** `date_formatter`: the format names and their strftime patterns. */
  const DateFormatter: map<string, string> := map[
    "dd/mm/yyyy" := "%d/%m/%Y",
    "dd-mm-yyyy" := "%d-%m-%Y",
    "ddmmyyyy" := "%d%m%Y",
    "mm/dd/yyyy" := "%m/%d/%y",
    "mm dd, yyyy" := "%B %d, %Y",
    "mm-dd-yyyy" := "%b-%d-%Y",
    "dd/mm/yyyy hh:mm:ss" := "%d/%m/%Y %H:%M:%S",
    "dd-mm-yyyy hh:mm:ss" := "%d-%m-%Y %H:%M:%S",
    "dd-mm-yyyy hhmmss" := "%d-%m-%Y %H%M%S",
    "dd-mm-yyyy hhmm" := "%d-%m-%Y %H%M",
    "ddmmyyyy hhmmss" := "%d%m%Y %H%M%S",
    "yyyymmdd-hhmmss" := "%Y%m%d-%H%M%S"
  ]

  /**
   * `get_date_formatter(option, default)`: the option's pattern when it is a
   * format name, else the default's (a default that is not a name raises).
   */
  function GetDateFormatter(option: string, defaultOption: string): (r: string)
    requires defaultOption in DateFormatter
  {
    if CheckKeyExistenceInDict(DateFormatter, option) then DateFormatter[option] else DateFormatter[defaultOption]
  }

  /** The pattern is always one of the table's, and it is the option's own exactly when the option is a name. */
  lemma GetDateFormatterFacts(option: string, defaultOption: string)
    requires defaultOption in DateFormatter
    ensures GetDateFormatter(option, defaultOption) in DateFormatter.Values
    ensures option in DateFormatter ==> GetDateFormatter(option, defaultOption) == DateFormatter[option]
    ensures option !in DateFormatter ==> GetDateFormatter(option, defaultOption) == DateFormatter[defaultOption]
  {
    KeyChecks(DateFormatter, option, "");
  }

  /** The "mm/dd/yyyy" name maps to a two-digit-year pattern; an unknown name falls back. */
  lemma DateFormatterQuirks()
    ensures GetDateFormatter("mm/dd/yyyy", "dd-mm-yyyy") == "%m/%d/%y"
    ensures GetDateFormatter("yyyy-mm-dd", "dd-mm-yyyy") == "%d-%m-%Y"
  {
    KeyChecks(DateFormatter, "mm/dd/yyyy", "");
    KeyChecks(DateFormatter, "yyyy-mm-dd", "");
  }
}
