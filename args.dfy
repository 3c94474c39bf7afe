/** The argument source: how `readArgs` turns the schema and the parsed
    command line into a map keyed by option name. */
module Args {
  import opened Wrappers
  import opened Schema

  /** What the `flag` package holds after `flag.Parse`: the final string of
      every value flag set on the command line, keyed by flag name, and the
      presence flags whose final value is true. */
  datatype ParsedFlags = ParsedFlags(values: map<string, string>, setTrue: set<string>)

  /** A value flag reads as the string it was given, its registered default "" otherwise. */
  function ValueOf(flags: ParsedFlags, arg: string): string {
    Get(flags.values, arg)
  }

  /** A presence flag reads as "yes" when set and "" otherwise. */
  function PresenceOf(flags: ParsedFlags, arg: string): (r: string)
    ensures r == "yes" <==> arg in flags.setTrue
    ensures r == "" <==> arg !in flags.setTrue
  {
    if arg in flags.setTrue then "yes" else ""
  }

  /** The entry one item contributes, read through its own flag. */
  function ItemValue(it: ConfigItem, flags: ParsedFlags): string {
    if it.hasval then ValueOf(flags, it.arg) else PresenceOf(flags, it.arg)
  }

  function KindOf(hasval: bool): Kind {
    if hasval then ValueKind else PresenceKind
  }

  /** The `args` map (hasval) or the `boolargs` map (not hasval) after the
      registration loop: each item name mapped to the flag of the last item of
      that kind registered under it. */
  function Registered(items: seq<ConfigItem>, hasval: bool): map<string, string> {
    if items == [] then map[]
    else
      var it := items[|items| - 1];
      var m := Registered(items[..|items| - 1], hasval);
      if it.hasval == hasval then m[it.name := it.arg] else m
  }

  /** The map `readArgs` returns: presence entries first, then value entries,
      which overwrite a presence entry of the same name. */
  function ArgMap(items: seq<ConfigItem>, flags: ParsedFlags): map<string, string> {
    var boolargs := Registered(items, false);
    var args := Registered(items, true);
    (map k | k in boolargs :: PresenceOf(flags, boolargs[k])) + (map k | k in args :: ValueOf(flags, args[k]))
  }

  /** A name is registered for a kind exactly when an item of that kind carries
      it, and it is bound to the flag of the last such item. */
  lemma {:induction false} RegisteredAt(items: seq<ConfigItem>, hasval: bool, n: string)
    ensures n in Registered(items, hasval) <==> LastIndex(items, n, KindOf(hasval)).Some?
    ensures n in Registered(items, hasval)
        ==> Registered(items, hasval)[n] == items[LastIndex(items, n, KindOf(hasval)).value].arg
  {
    if items != [] {
      var init := items[..|items| - 1];
      RegisteredAt(init, hasval, n);
      var it := items[|items| - 1];
      if !Matches(it, n, KindOf(hasval)) {
        assert LastIndex(items, n, KindOf(hasval)) == LastIndex(init, n, KindOf(hasval));
      }
    }
  }

  /** Every item name has exactly one entry, and nothing else does. */
  lemma ArgMapKeys(items: seq<ConfigItem>, flags: ParsedFlags)
    ensures ArgMap(items, flags).Keys == Names(items)
  {
    var m := ArgMap(items, flags);
    forall n | n in m ensures n in Names(items) {
      RegisteredAt(items, false, n);
      RegisteredAt(items, true, n);
      if n in Registered(items, true) {
        assert items[LastIndex(items, n, ValueKind).value].name == n;
      } else {
        assert items[LastIndex(items, n, PresenceKind).value].name == n;
      }
    }
    forall n | n in Names(items) ensures n in m {
      var i :| 0 <= i < |items| && items[i].name == n;
      RegisteredAt(items, items[i].hasval, n);
      assert Matches(items[i], n, KindOf(items[i].hasval));
    }
  }

  /** The entry for a name is read through the flag of the last value item with
      that name; only when there is no value item is it read through the last
      presence item. */
  lemma ArgMapAt(items: seq<ConfigItem>, flags: ParsedFlags, n: string)
    requires n in Names(items)
    ensures n in ArgMap(items, flags)
    ensures LastIndex(items, n, ValueKind).Some?
        ==> ArgMap(items, flags)[n] == ValueOf(flags, items[LastIndex(items, n, ValueKind).value].arg)
    ensures LastIndex(items, n, ValueKind).None? ==> LastIndex(items, n, PresenceKind).Some?
    ensures LastIndex(items, n, ValueKind).None? && LastIndex(items, n, PresenceKind).Some?
        ==> ArgMap(items, flags)[n] == PresenceOf(flags, items[LastIndex(items, n, PresenceKind).value].arg)
  {
    ArgMapKeys(items, flags);
    RegisteredAt(items, false, n);
    RegisteredAt(items, true, n);
    if LastIndex(items, n, ValueKind).None? {
      var i :| 0 <= i < |items| && items[i].name == n;
      assert !Matches(items[i], n, ValueKind);
      assert Matches(items[i], n, PresenceKind);
    }
  }

  /** For a name carried by one item only, the entry is that item's own flag
      reading: "yes" or "" for a presence flag, the given string or "" for a
      value flag. */
  lemma ArgMapUnique(items: seq<ConfigItem>, flags: ParsedFlags, i: nat)
    requires i < |items|
    requires forall j :: 0 <= j < |items| && j != i ==> items[j].name != items[i].name
    ensures items[i].name in ArgMap(items, flags)
    ensures ArgMap(items, flags)[items[i].name] == ItemValue(items[i], flags)
  {
    var n := items[i].name;
    assert n in Names(items);
    ArgMapAt(items, flags, n);
    if items[i].hasval {
      assert Matches(items[i], n, ValueKind);
    } else {
      assert Matches(items[i], n, PresenceKind);
    }
  }

  /** What the `flag` package can hand back: it never records a flag with an
      empty name, since `-=v` is rejected as bad syntax and a lone `-` ends
      flag parsing. */
  predicate WellFormed(flags: ParsedFlags) {
    "" !in flags.values && "" !in flags.setTrue
  }

  /** An item with an empty flag is not exposed on the command line: it reads
      "" whatever the command line holds. */
  lemma UnflaggedReadsEmpty(it: ConfigItem, flags: ParsedFlags)
    requires WellFormed(flags) && it.arg == ""
    ensures ItemValue(it, flags) == ""
  {
  }
}
