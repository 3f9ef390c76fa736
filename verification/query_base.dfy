/** `WikilogQuery`, the base of both query classes: a table of option
    overrides backed by declared defaults, and the "always empty" flag. */
module QueryBase {
  import opened Wrappers
  import opened Php

  /** A PHP option value. */
  datatype OptValue = Null | Bool(b: bool) | Int(i: int) | Str(s: string)

  /** PHP truthiness, as `if ( $this->getOption( ... ) )` tests it. */
  predicate Truthy(v: OptValue) {
    match v
    case Null => false
    case Bool(b) => b
    case Int(i) => i != 0
    case Str(s) => TruthyString(s)
  }

  /** The `$opts` argument of `setOptions` and `getQueryInfo`: a single
      option name, an array of name => value pairs in order, `null`, or any
      other PHP value. */
  datatype OptionsArg = OptName(name: string) | OptArray(entries: seq<(string, OptValue)>) | OptNull | OptOther

  /** The exceptions (`MWException`) the query classes throw. */
  datatype QueryError = InvalidOptions | InvalidModStatus | NotWikilogObject

  /** `array_merge($options, $entries)` for string keys: entries are stored
      in order, so a later entry for a key replaces an earlier one. */
  function Merge(options: map<string, OptValue>, entries: seq<(string, OptValue)>): map<string, OptValue>
    decreases |entries|
  {
    if entries == [] then options
    else Merge(options[entries[0].0 := entries[0].1], entries[1..])
  }

  /** The last entry for a key wins the merge. */
  lemma {:induction false} MergeLastWins(options: map<string, OptValue>, entries: seq<(string, OptValue)>, i: nat)
    requires i < |entries|
    requires forall j :: i < j < |entries| ==> entries[j].0 != entries[i].0
    ensures entries[i].0 in Merge(options, entries)
    ensures Merge(options, entries)[entries[i].0] == entries[i].1
    decreases |entries|
  {
    var o' := options[entries[0].0 := entries[0].1];
    if i == 0 {
      MergeKeeps(o', entries[1..], entries[0].0);
    } else {
      MergeLastWins(o', entries[1..], i - 1);
    }
  }

  /** A key no entry names keeps its override, or its absence. */
  lemma {:induction false} MergeKeeps(options: map<string, OptValue>, entries: seq<(string, OptValue)>, key: string)
    requires forall j :: 0 <= j < |entries| ==> entries[j].0 != key
    ensures key in Merge(options, entries) <==> key in options
    ensures key in options ==> Merge(options, entries)[key] == options[key]
    decreases |entries|
  {
    if entries != [] {
      MergeKeeps(options[entries[0].0 := entries[0].1], entries[1..], key);
    }
  }

  /** `isset($options[$key]) ? $options[$key] : $defaults[$key]`: an
      override counts only when it is not null; reading a key that has
      neither yields null (PHP's undefined-index notice). */
  function OptionValue(options: map<string, OptValue>, defaults: map<string, OptValue>, key: string): (v: OptValue)
    ensures key in options && options[key] != Null ==> v == options[key]
    ensures (key !in options || options[key] == Null) && key in defaults ==> v == defaults[key]
    ensures v == Null ==> (key !in options || options[key] == Null) && (key !in defaults || defaults[key] == Null)
  {
    if key in options && options[key] != Null then options[key]
    else if key in defaults then defaults[key]
    else Null
  }

  class WikilogQuery {
    /** Option overrides (`mOptions`). */
    var options: map<string, OptValue>
    /** Declared defaults (`mDefaultOptions`), fixed by the derived class. */
    const defaults: map<string, OptValue>
    /** Whether the query must return nothing (`mEmpty`). */
    var empty: bool

    constructor (defaults: map<string, OptValue>)
      ensures this.defaults == defaults && options == map[] && !empty
    {
      this.defaults := defaults;
      options := map[];
      empty := false;
    }

    /** `getOption($key)` */
    function GetOption(key: string): OptValue
      reads this
    {
      OptionValue(options, defaults, key)
    }

    /** `setOption($key, $value = true)` */
    method SetOption(key: string, value: OptValue)
      modifies this
      ensures options == old(options)[key := value] && empty == old(empty)
      ensures value != Null ==> GetOption(key) == value
      ensures value == Null ==> GetOption(key) == OptionValue(map[], defaults, key)
    {
      options := options[key := value];
    }

    /** `setOptions($opts)`: a name is set to true, an array is merged in,
        null changes nothing, anything else throws. */
    method SetOptions(opts: OptionsArg) returns (r: Outcome<QueryError>)
      modifies this
      ensures r == (if opts.OptOther? then Fail(InvalidOptions) else Pass)
      ensures opts.OptName? ==> options == old(options)[opts.name := Bool(true)]
      ensures opts.OptArray? ==> options == Merge(old(options), opts.entries)
      ensures opts.OptNull? || opts.OptOther? ==> options == old(options)
      ensures empty == old(empty)
    {
      match opts {
        case OptName(name) =>
          options := options[name := Bool(true)];
        case OptArray(entries) =>
          options := Merge(options, entries);
        case OptNull =>
        case OptOther =>
          return Fail(InvalidOptions);
      }
      r := Pass;
    }

    /** `setEmpty($empty = true)` */
    method SetEmpty(e: bool)
      modifies this
      ensures empty == e && options == old(options)
    {
      empty := e;
    }
  }
}
