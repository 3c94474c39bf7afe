/** The merge resolver: command line over configuration file over default,
    per option name. */
module Merging {
  import opened Schema

  /** The value a list of sources yields when earlier sources take precedence
      and an empty string means "not supplied". */
  function FirstNonEmpty(sources: seq<string>): (r: string)
    ensures r == "" <==> forall i :: 0 <= i < |sources| ==> sources[i] == ""
    ensures forall i :: 0 <= i < |sources| && sources[i] != "" && (forall j :: 0 <= j < i ==> sources[j] == "")
                        ==> r == sources[i]
  {
    if sources == [] then ""
    else if sources[0] != "" then sources[0]
    else FirstNonEmpty(sources[1..])
  }

  /** `merge`: the command-line value unless it is empty, then the file value
      unless it is empty, then the default. */
  function Merge(arg: string, conf: string, dflt: string): (r: string)
    ensures r == arg || r == conf || r == dflt
    ensures r == "" <==> arg == "" && conf == "" && dflt == ""
  {
    if |arg| == 0 then
      if |conf| != 0 then conf else dflt
    else arg
  }

  /** Merge is precedence resolution over the three sources in the order
      command line, file, default. */
  lemma MergeIsFirstNonEmpty(arg: string, conf: string, dflt: string)
    ensures Merge(arg, conf, dflt) == FirstNonEmpty([arg, conf, dflt])
  {
    var s := [arg, conf, dflt];
    assert s[1..] == [conf, dflt] && s[1..][1..] == [dflt] && s[1..][1..][1..] == [];
    assert FirstNonEmpty([dflt]) == dflt by {
      if dflt == "" { assert FirstNonEmpty([dflt][1..]) == ""; }
    }
    assert FirstNonEmpty([conf, dflt]) == if conf != "" then conf else dflt;
  }

  /** The map `mergeItems` builds: items visited in order, each one setting the
      entry for its name, so a later item with the same name overwrites. */
  function MergeAll(items: seq<ConfigItem>, args: map<string, string>, conf: map<string, string>): map<string, string> {
    if items == [] then map[]
    else
      var ci := items[|items| - 1];
      MergeAll(items[..|items| - 1], args, conf)[ci.name := Merge(Get(args, ci.name), Get(conf, ci.name), ci.dflt)]
  }

  /** Totality: exactly one entry per schema name, never more, never fewer. */
  lemma {:induction false} MergeAllKeys(items: seq<ConfigItem>, args: map<string, string>, conf: map<string, string>)
    ensures MergeAll(items, args, conf).Keys == Names(items)
  {
    if items != [] {
      var init := items[..|items| - 1];
      MergeAllKeys(init, args, conf);
      NamesAppend(init, items[|items| - 1]);
      assert init + [items[|items| - 1]] == items;
    }
  }

  /** The entry for a schema name merges the two sources with the default of
      the last item carrying that name. */
  lemma {:induction false} MergeAllAt(items: seq<ConfigItem>, args: map<string, string>, conf: map<string, string>, n: string)
    requires n in Names(items)
    ensures LastIndex(items, n, AnyKind).Some?
    ensures n in MergeAll(items, args, conf)
    ensures MergeAll(items, args, conf)[n]
         == Merge(Get(args, n), Get(conf, n), items[LastIndex(items, n, AnyKind).value].dflt)
  {
    NamesLastIndex(items, n);
    MergeAllKeys(items, args, conf);
    var init := items[..|items| - 1];
    if items[|items| - 1].name != n {
      NamesAppend(init, items[|items| - 1]);
      assert init + [items[|items| - 1]] == items;
      MergeAllAt(init, args, conf, n);
    }
  }

  /** Precedence law: a non-empty command-line value wins outright. */
  lemma Precedence(items: seq<ConfigItem>, args: map<string, string>, conf: map<string, string>, n: string)
    requires n in Names(items) && Get(args, n) != ""
    ensures n in MergeAll(items, args, conf) && MergeAll(items, args, conf)[n] == args[n]
  {
    MergeAllAt(items, args, conf, n);
  }

  /** Fallback law: with no command-line value, a non-empty file value wins. */
  lemma Fallback(items: seq<ConfigItem>, args: map<string, string>, conf: map<string, string>, n: string)
    requires n in Names(items) && Get(args, n) == "" && Get(conf, n) != ""
    ensures n in MergeAll(items, args, conf) && MergeAll(items, args, conf)[n] == conf[n]
  {
    MergeAllAt(items, args, conf, n);
  }

  /** Default floor: with neither source supplying a value, the default of
      the (last) item with that name is used, even when it is empty. */
  lemma DefaultFloor(items: seq<ConfigItem>, args: map<string, string>, conf: map<string, string>, i: nat)
    requires i < |items|
    requires forall j :: i < j < |items| ==> items[j].name != items[i].name
    requires Get(args, items[i].name) == "" && Get(conf, items[i].name) == ""
    ensures items[i].name in MergeAll(items, args, conf)
    ensures MergeAll(items, args, conf)[items[i].name] == items[i].dflt
  {
    assert items[i].name in Names(items);
    MergeAllAt(items, args, conf, items[i].name);
  }
}
