/**
  The plugin's settings: the compiled-in defaults, the `wp_parse_args` merge
  that lays the saved settings over them once at start-up, and the
  case-insensitive lookup of one setting.
 */
module Options {
  import opened Php

  /** The PHP values a setting can hold (`null` included). */
  datatype Value = Null | Bool(b: bool) | Int(i: int) | Str(s: string) | List(items: seq<Value>)

  type Settings = map<string, Value>

  /**
    What the options storage hands back: nothing stored yet (`get_option`
    then yields `false`), or an unserialised array of settings.
   */
  datatype Saved = NotStored | Stored(settings: Settings)

  /** The defaults the plugin ships with. */
  function Defaults(): (d: Settings)
    ensures d.Keys == {"file-types", "max-size", "load-css"}
    ensures d["max-size"] == Int(5) && d["load-css"] == Bool(true)
    ensures d["file-types"] == List([Str("png"), Str("jpg"), Str("jpeg"), Str("pdf"), Str("zip"), Str("rar")])
  {
    map[ "file-types" := List([Str("png"), Str("jpg"), Str("jpeg"), Str("pdf"), Str("zip"), Str("rar")]),
         "max-size" := Int(5),
         "load-css" := Bool(true) ]
  }

  /**
    The arguments `wp_parse_args` sees: a stored array as it is, and for
    `false` the empty array that parsing an empty query string gives.
   */
  function SavedArgs(saved: Saved): (args: Settings)
    ensures saved.NotStored? ==> args == map[]
    ensures saved.Stored? ==> args == saved.settings
  {
    match saved
    case NotStored => map[]
    case Stored(s) => s
  }

  /**
    `wp_parse_args(args, defaults)`: every key of either map, a key of
    `args` with its value from `args`, any other with its default.
   */
  function ParseArgs(args: Settings, defaults: Settings): (r: Settings)
    ensures r.Keys == args.Keys + defaults.Keys
    ensures forall k :: k in args ==> r[k] == args[k]
    ensures forall k :: k in defaults && k !in args ==> r[k] == defaults[k]
  {
    defaults + args
  }

  /** Merging the defaults in a second time changes nothing. */
  lemma ParseArgsIdempotent(args: Settings, defaults: Settings)
    ensures ParseArgs(ParseArgs(args, defaults), defaults) == ParseArgs(args, defaults)
  {
  }

  /** Saved settings that already name every default key come through the merge unchanged. */
  lemma ParseArgsOfCompleteSettings(args: Settings, defaults: Settings)
    requires defaults.Keys <= args.Keys
    ensures ParseArgs(args, defaults) == args
  {
  }

  /** With nothing stored, the settings are the defaults. */
  lemma NothingStoredGivesDefaults()
    ensures ParseArgs(SavedArgs(NotStored), Defaults()) == Defaults()
  {
  }

  /**
    `option(key)`: the setting stored under the lower-cased key, or `null`
    when there is none (`isset` also reports a stored `null` as missing, which
    yields the same `null`).
   */
  function Lookup(settings: Settings, key: string): (v: Value)
    ensures Lower(key) !in settings ==> v == Null
    ensures Lower(key) in settings ==> v == settings[Lower(key)]
  {
    if Lower(key) in settings then settings[Lower(key)] else Null
  }

  /** The lookup ignores the case of the key it is given. */
  lemma LookupIgnoresCase(settings: Settings, key: string)
    ensures Lookup(settings, key) == Lookup(settings, Lower(key))
  {
    LowerIdempotent(key);
  }

  /**
    A setting saved under a key with an upper-case letter can never be read
    back: removing it changes no lookup.
   */
  lemma UpperCaseKeysUnreachable(settings: Settings, stored: string, key: string)
    requires !IsLowered(stored)
    ensures Lookup(settings, key) == Lookup(settings - {stored}, key)
  {
    LowerIsLowered(key);
  }
}
