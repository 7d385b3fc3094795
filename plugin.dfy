/**
  The plugin object: its two pieces of state, the settings merged at start-up
  and the memoised file-type table, and the methods that fill and read them.
  The `bp_msgat_file_types` filter and the label translation are passed to
  each call, since the host may change what the filter contributes.
 */
module Msgat {
  import opened Php
  import opened FileTypes
  import opened Options

  class Plugin {
    /** The saved settings merged over the defaults; empty until set up. */
    var options: Settings
    /** The memoised file-type table; the empty table stands for PHP's `false` and `[]`, both falsy. */
    var allFileTypes: Table

    constructor ()
      ensures options == map[] && allFileTypes == []
    {
      options := map[];
      allFileTypes := [];
    }

    /** Lay the stored settings over the defaults, once at start-up. */
    method SetupGlobals(saved: Saved)
      modifies this`options
      ensures options == ParseArgs(SavedArgs(saved), Defaults())
      ensures saved.Stored? ==> forall k :: k in saved.settings ==> options[k] == saved.settings[k]
      ensures forall k :: k in Defaults() && k !in SavedArgs(saved) ==> options[k] == Defaults()[k]
    {
      options := ParseArgs(SavedArgs(saved), Defaults());
    }

    /** `option(key)`: the setting under the lower-cased key, `null` when there is none. */
    function Option(key: string): (v: Value)
      reads this
      ensures v == Lookup(options, key)
      ensures v == Lookup(options, Lower(key))
    {
      LookupIgnoresCase(options, key);
      Lookup(options, key)
    }

    /**
      The file-type table: the memoised one when it is non-empty, otherwise
      the default table run through the filter, which is then memoised (an
      empty result is recomputed on the next call).
     */
    method AllFileTypes(filter: Table -> Table, translate: string -> string) returns (types: Table)
      modifies this`allFileTypes
      ensures old(allFileTypes) != [] ==> allFileTypes == old(allFileTypes)
      ensures old(allFileTypes) == [] ==> allFileTypes == filter(DefaultTable(translate))
      ensures types == allFileTypes
    {
      if allFileTypes == [] {
        allFileTypes := filter(DefaultTable(translate));
      }
      types := allFileTypes;
    }

    /** The group key of an extension: the first group of the table that lists it, else `general`. */
    method GetFileTypeGroup(ext: string, filter: Table -> Table, translate: string -> string)
      returns (fileGroup: string)
      modifies this`allFileTypes
      ensures old(allFileTypes) != [] ==> allFileTypes == old(allFileTypes)
      ensures old(allFileTypes) == [] ==> allFileTypes == filter(DefaultTable(translate))
      ensures fileGroup == Classify(allFileTypes, ext)
    {
      fileGroup := General;
      var types := AllFileTypes(filter, translate);
      var i := 0;
      while i < |types|
        invariant 0 <= i <= |types|
        invariant fileGroup == General
        invariant forall j :: 0 <= j < i ==> ext !in types[j].extensions
      {
        if ext in types[i].extensions {
          ClassifyFirstMatchWins(types, ext, i);
          fileGroup := types[i].key;
          break;
        }
        i := i + 1;
      }
    }
  }

  /**
    Two calls in a row: once the first has memoised a non-empty table, the
    second returns that very table whatever the filter does by then.
   */
  method TableIsMemoised(p: Plugin, filter1: Table -> Table, filter2: Table -> Table, translate: string -> string)
    returns (first: Table, second: Table)
    modifies p
    ensures first != [] ==> second == first
    ensures old(p.allFileTypes) == [] ==> first == filter1(DefaultTable(translate))
  {
    first := p.AllFileTypes(filter1, translate);
    second := p.AllFileTypes(filter2, translate);
  }

  /** A filter whose result is empty leaves nothing memoised: the next call runs the filter again. */
  method EmptyTableIsRecomputed(p: Plugin, filter1: Table -> Table, filter2: Table -> Table, translate: string -> string)
    returns (first: Table, second: Table)
    requires p.allFileTypes == []
    modifies p
    ensures first == filter1(DefaultTable(translate))
    ensures first == [] ==> second == filter2(DefaultTable(translate))
  {
    first := p.AllFileTypes(filter1, translate);
    second := p.AllFileTypes(filter2, translate);
  }
}
