/** The library's entry points: the option schema object, its registration and
    usage methods, and `Read`, which resolves command line, configuration file
    and defaults into one map. */
module Config {
  import opened Wrappers
  import opened Strings
  import opened Schema
  import opened Merging
  import opened Args
  import opened ConfigFile
  import opened Usage

  /** The option `Read` always registers. */
  const HelpItem: ConfigItem := ConfigItem("help", "h", false, "Output usage information to the console", "no")

  /** The option `Read` registers when it is given a configuration file name. */
  function CfgPathItem(cfgname: string): ConfigItem {
    ConfigItem("cfgpath", "c", true, "Path to configuration file", cfgname)
  }

  /** The schema as `Read` leaves it: the caller's items, then help, then
      cfgpath when a configuration file name was given. */
  function WithBuiltins(items: seq<ConfigItem>, cfgname: string): seq<ConfigItem> {
    items + [HelpItem] + (if cfgname != "" then [CfgPathItem(cfgname)] else [])
  }

  /** The file `Read` opens: the `cfgpath` argument when it is non-empty,
      otherwise the name the caller supplied. */
  function EffectivePath(argmap: map<string, string>, cfgname: string): string {
    if |Get(argmap, "cfgpath")| > 0 then argmap["cfgpath"] else cfgname
  }

  /** The file map `Read` merges: the parsed file when a name was supplied and
      the file opens, the empty map otherwise. */
  function FileMap(argmap: map<string, string>, cfgname: string, files: map<string, seq<string>>): map<string, string> {
    var path := EffectivePath(argmap, cfgname);
    if cfgname != "" && path in files then ParseLines(files[path]) else map[]
  }

  /** What `Read` computes, given the schema before the call, the parsed flags
      and the file system. */
  function Resolve(items: seq<ConfigItem>, cfgname: string, flags: ParsedFlags, files: map<string, seq<string>>)
    : Result<map<string, string>, ConfigError>
  {
    var all := WithBuiltins(items, cfgname);
    var argmap := ArgMap(all, flags);
    if cfgname != "" && EffectivePath(argmap, cfgname) !in files then Failure(OpenFailed)
    else Success(MergeAll(all, argmap, FileMap(argmap, cfgname, files)))
  }

  /** The first translation loop of `readArgs`: every presence flag read as
      "yes" or "". */
  method ReadPresence(boolargs: map<string, string>, flags: ParsedFlags) returns (combo: map<string, string>)
    ensures combo == map k | k in boolargs :: PresenceOf(flags, boolargs[k])
  {
    combo := map[];
    var todo := boolargs.Keys;
    while todo != {}
      invariant todo <= boolargs.Keys
      invariant combo.Keys == boolargs.Keys - todo
      invariant forall k :: k in combo ==> combo[k] == PresenceOf(flags, boolargs[k])
      decreases todo
    {
      var k :| k in todo;
      if boolargs[k] in flags.setTrue {
        combo := combo[k := "yes"];
      } else {
        combo := combo[k := ""];
      }
      todo := todo - {k};
    }
  }

  /** The second translation loop of `readArgs`: every value flag read as its
      string, overwriting an entry already present under the same name. */
  method ReadValues(start: map<string, string>, args: map<string, string>, flags: ParsedFlags)
    returns (combo: map<string, string>)
    ensures combo == start + map k | k in args :: ValueOf(flags, args[k])
  {
    combo := start;
    var rest := args.Keys;
    while rest != {}
      invariant rest <= args.Keys
      invariant combo.Keys == start.Keys + (args.Keys - rest)
      invariant forall k :: k in combo ==> combo[k] == if k in args.Keys - rest then ValueOf(flags, args[k]) else start[k]
      decreases rest
    {
      var k :| k in rest;
      combo := combo[k := ValueOf(flags, args[k])];
      rest := rest - {k};
    }
  }

  /** An ordered, append-only list of option descriptors. */
  class Config {
    var items: seq<ConfigItem>

    constructor ()
      ensures items == []
    {
      items := [];
    }

    /** `AddOption`: append exactly one item; no uniqueness check. */
    method AddOption(name: string, arg: string, hasval: bool, descr: string, dflt: string)
      modifies this
      ensures items == old(items) + [ConfigItem(name, arg, hasval, descr, dflt)]
    {
      items := items + [ConfigItem(name, arg, hasval, descr, dflt)];
    }

    /** `PrintUsage`: the title, then one line per item with a flag. */
    method PrintUsage(title: string) returns (lines: seq<string>)
      ensures lines == [title] + UsageLines(items)
    {
      lines := [title];
      var idx := 0;
      while idx < |items|
        invariant 0 <= idx <= |items|
        invariant lines == [title] + UsageLines(items[..idx])
      {
        var it := items[idx];
        UsageLinesStep(items, idx);
        idx := idx + 1;
        if |it.arg| == 0 {
          continue;
        }
        var option: string;
        if it.hasval {
          option := "  -" + it.arg + " <" + it.name + ">";
        } else {
          option := "  -" + it.arg;
        }
        assert option == OptionToken(it);
        lines := lines + ["   " + PadRight(option, OptionWidth) + " : " + it.descr];
      }
      assert items[..idx] == items;
    }

    /** `readArgs`: register a flag per item keyed by item name, then translate
        the parsed flags into strings, presence flags first. */
    method ReadArgs(flags: ParsedFlags) returns (combo: map<string, string>)
      ensures combo == ArgMap(items, flags)
    {
      var args: map<string, string> := map[];
      var boolargs: map<string, string> := map[];
      for idx := 0 to |items|
        invariant args == Registered(items[..idx], true)
        invariant boolargs == Registered(items[..idx], false)
      {
        assert items[..idx + 1][..idx] == items[..idx];
        if items[idx].hasval {
          args := args[items[idx].name := items[idx].arg];
        } else {
          boolargs := boolargs[items[idx].name := items[idx].arg];
        }
      }
      assert items[..|items|] == items;

      var presence := ReadPresence(boolargs, flags);
      combo := ReadValues(presence, args, flags);
    }

    /** `mergeItems`: one merged entry per item, in item order. */
    method MergeItems(args: map<string, string>, conf: map<string, string>) returns (merged: map<string, string>)
      ensures merged == MergeAll(items, args, conf)
    {
      merged := map[];
      for i := 0 to |items|
        invariant merged == MergeAll(items[..i], args, conf)
      {
        assert items[..i + 1][..i] == items[..i];
        var ci := items[i];
        merged := merged[ci.name := Merge(Get(args, ci.name), Get(conf, ci.name), ci.dflt)];
      }
      assert items[..|items|] == items;
    }

    /** `Read`: register help (and cfgpath), read the arguments, choose the
        file, read it when a name was given, and merge. */
    method Read(cfgname: string, flags: ParsedFlags, files: map<string, seq<string>>)
      returns (r: Result<map<string, string>, ConfigError>)
      modifies this
      ensures items == WithBuiltins(old(items), cfgname)
      ensures r == Resolve(old(items), cfgname, flags, files)
    {
      var cfgpath := "";
      AddOption("help", "h", false, "Output usage information to the console", "no");
      if |cfgname| > 0 {
        AddOption("cfgpath", "c", true, "Path to configuration file", cfgname);
      }
      assert items == WithBuiltins(old(items), cfgname);

      var argmap := ReadArgs(flags);

      if |Get(argmap, "cfgpath")| > 0 {
        cfgpath := argmap["cfgpath"];
      } else {
        cfgpath := cfgname;
      }
      assert cfgpath == EffectivePath(argmap, cfgname);

      var confmap: map<string, string> := map[];
      if |cfgname| > 0 {
        var err;
        confmap, err := ReadConfigFile(cfgpath, files);
        if err.Some? {
          assert err.value == OpenFailed;
          return Failure(err.value);
        }
      }

      var merged := MergeItems(argmap, confmap);
      return Success(merged);
    }
  }

  /** `Read` fails exactly when a file name was supplied and the chosen file,
      the `-c` value when non-empty and the supplied name otherwise, cannot be
      opened; without a file name no file is consulted. */
  lemma ResolveFailure(items: seq<ConfigItem>, cfgname: string, flags: ParsedFlags, files: map<string, seq<string>>)
    ensures Resolve(items, cfgname, flags, files).Failure?
        <==> cfgname != "" && (if ValueOf(flags, "c") != "" then ValueOf(flags, "c") else cfgname) !in files
    ensures cfgname == "" ==> FileMap(ArgMap(WithBuiltins(items, cfgname), flags), cfgname, files) == map[]
  {
    if cfgname != "" {
      CfgPathOverride(items, cfgname, flags);
    }
  }

  /** Without a file name the file system plays no part in what `Read` returns. */
  lemma ResolveIgnoresFiles(items: seq<ConfigItem>, flags: ParsedFlags, files: map<string, seq<string>>, others: map<string, seq<string>>)
    ensures Resolve(items, "", flags, files) == Resolve(items, "", flags, others)
  {
  }

  /** The resolved map has one entry per option, including the built-in ones. */
  lemma ResolveKeys(items: seq<ConfigItem>, cfgname: string, flags: ParsedFlags, files: map<string, seq<string>>)
    requires Resolve(items, cfgname, flags, files).Success?
    ensures Resolve(items, cfgname, flags, files).value.Keys
         == Names(items) + {"help"} + (if cfgname != "" then {"cfgpath"} else {})
  {
    var all := WithBuiltins(items, cfgname);
    var argmap := ArgMap(all, flags);
    MergeAllKeys(all, argmap, FileMap(argmap, cfgname, files));
    NamesAppend(items, HelpItem);
    if cfgname != "" {
      NamesAppend(items + [HelpItem], CfgPathItem(cfgname));
    } else {
      assert all == items + [HelpItem];
    }
  }

  /** Among the caller's items plus help and, when a file name is given,
      cfgpath, an item whose name nobody else carries is the only one with that
      name. */
  lemma UniqueInBuiltins(items: seq<ConfigItem>, cfgname: string, i: nat)
    requires i < |items|
    requires forall j :: 0 <= j < |items| && j != i ==> items[j].name != items[i].name
    requires items[i].name != "help" && (cfgname != "" ==> items[i].name != "cfgpath")
    ensures var all := WithBuiltins(items, cfgname);
            i < |all| && all[i] == items[i]
            && forall j :: 0 <= j < |all| && j != i ==> all[j].name != items[i].name
  {
    var all := WithBuiltins(items, cfgname);
    forall j | 0 <= j < |all| && j != i ensures all[j].name != items[i].name {
      if j < |items| {
        assert all[j] == items[j];
      }
    }
  }

  /** For an option no other item shares, the resolved value is the merge of
      its own flag reading, the file's entry for its name and its default. */
  lemma ResolveUnique(items: seq<ConfigItem>, cfgname: string, flags: ParsedFlags, files: map<string, seq<string>>, i: nat)
    requires i < |items|
    requires forall j :: 0 <= j < |items| && j != i ==> items[j].name != items[i].name
    requires items[i].name != "help" && (cfgname != "" ==> items[i].name != "cfgpath")
    requires Resolve(items, cfgname, flags, files).Success?
    ensures var argmap := ArgMap(WithBuiltins(items, cfgname), flags);
            var n := items[i].name;
            && n in Resolve(items, cfgname, flags, files).value
            && Resolve(items, cfgname, flags, files).value[n]
               == Merge(ItemValue(items[i], flags), Get(FileMap(argmap, cfgname, files), n), items[i].dflt)
  {
    var all := WithBuiltins(items, cfgname);
    var argmap := ArgMap(all, flags);
    var conf := FileMap(argmap, cfgname, files);
    var n := items[i].name;
    UniqueInBuiltins(items, cfgname, i);
    ArgMapUnique(all, flags, i);
    assert all[i].name == n;
    MergeAllAt(all, argmap, conf, n);
    assert LastIndex(all, n, AnyKind).value == i;
  }

  /** An option with an empty flag gets its value from the chosen file, or
      else from its default: the command line cannot set it. */
  lemma UnflaggedResolve(items: seq<ConfigItem>, cfgname: string, flags: ParsedFlags, files: map<string, seq<string>>, i: nat)
    requires i < |items| && items[i].arg == "" && WellFormed(flags)
    requires forall j :: 0 <= j < |items| && j != i ==> items[j].name != items[i].name
    requires items[i].name != "help" && (cfgname != "" ==> items[i].name != "cfgpath")
    requires Resolve(items, cfgname, flags, files).Success?
    ensures var conf := FileMap(ArgMap(WithBuiltins(items, cfgname), flags), cfgname, files);
            var n := items[i].name;
            && n in Resolve(items, cfgname, flags, files).value
            && Resolve(items, cfgname, flags, files).value[n]
               == if Get(conf, n) != "" then conf[n] else items[i].dflt
  {
    ResolveUnique(items, cfgname, flags, files, i);
    UnflaggedReadsEmpty(items[i], flags);
  }

  /** With a configuration file name, `-c` chooses the file: its value when
      non-empty, the supplied name otherwise. The built-in cfgpath is the last
      value item of that name, so it decides even over a caller's own cfgpath. */
  lemma CfgPathOverride(items: seq<ConfigItem>, cfgname: string, flags: ParsedFlags)
    requires cfgname != ""
    ensures EffectivePath(ArgMap(WithBuiltins(items, cfgname), flags), cfgname)
         == if ValueOf(flags, "c") != "" then ValueOf(flags, "c") else cfgname
  {
    var all := WithBuiltins(items, cfgname);
    assert all[|items| + 1] == CfgPathItem(cfgname);
    assert Matches(all[|items| + 1], "cfgpath", ValueKind);
    assert "cfgpath" in Names(all);
    assert LastIndex(all, "cfgpath", ValueKind).value == |items| + 1;
    ArgMapAt(all, flags, "cfgpath");
  }

  /** When the caller defines no value option named help, the resolved help
      value is "yes" with `-h`, otherwise the file's help entry, otherwise "no".
      A caller's presence option named help is overridden by the built-in. */
  lemma HelpValue(items: seq<ConfigItem>, cfgname: string, flags: ParsedFlags, files: map<string, seq<string>>)
    requires LastIndex(items, "help", ValueKind).None?
    requires Resolve(items, cfgname, flags, files).Success?
    ensures var argmap := ArgMap(WithBuiltins(items, cfgname), flags);
            && "help" in Resolve(items, cfgname, flags, files).value
            && Resolve(items, cfgname, flags, files).value["help"]
               == Merge(PresenceOf(flags, "h"), Get(FileMap(argmap, cfgname, files), "help"), "no")
  {
    var all := WithBuiltins(items, cfgname);
    var argmap := ArgMap(all, flags);
    var conf := FileMap(argmap, cfgname, files);
    var i := |items|;
    assert all[i] == HelpItem;
    forall j | i < j < |all| ensures all[j].name != "help" {
      assert all[j] == CfgPathItem(cfgname);
    }
    forall j | 0 <= j < |all| ensures !Matches(all[j], "help", ValueKind) {
      if j < |items| {
        assert all[j] == items[j];
      }
    }
    assert "help" in Names(all);
    assert LastIndex(all, "help", ValueKind).None?;
    assert LastIndex(all, "help", PresenceKind).value == i;
    assert LastIndex(all, "help", AnyKind).value == i;
    ArgMapAt(all, flags, "help");
    MergeAllAt(all, argmap, conf, "help");
  }

  /** The option the scenarios below register: `-p <port>`, default 8080. */
  const PortItem: ConfigItem := ConfigItem("port", "p", true, "Port to listen on", "8080")

  /** The option `-v`, a presence flag with an empty default. */
  const VerboseItem: ConfigItem := ConfigItem("verbose", "v", false, "Verbose output", "")

  lemma NamesOfOne(it: ConfigItem)
    ensures Names([it]) == {it.name}
  {
    NamesAppend([], it);
    assert [] + [it] == [it];
  }

  /** Flags as parsed from an empty command line. */
  const NoFlags: ParsedFlags := ParsedFlags(map[], {})

  /** The file system of the scenarios: `app.conf` sets port 9090. */
  function AppFiles(): map<string, seq<string>> {
    map["app.conf" := ["port = 9090"]]
  }

  /** Resolving the single port option: its value merges `-p`, the parsed
      file, and 8080; the file is the one `-c` (or else the supplied name)
      picks. */
  lemma PortResolve(cfgname: string, flags: ParsedFlags, files: map<string, seq<string>>)
    requires cfgname != ""
    requires Resolve([PortItem], cfgname, flags, files).Success?
    ensures var path := if ValueOf(flags, "c") != "" then ValueOf(flags, "c") else cfgname;
            && path in files
            && "port" in Resolve([PortItem], cfgname, flags, files).value
            && Resolve([PortItem], cfgname, flags, files).value["port"]
               == Merge(ValueOf(flags, "p"), Get(ParseLines(files[path]), "port"), "8080")
  {
    NamesOfOne(PortItem);
    CfgPathOverride([PortItem], cfgname, flags);
    ResolveFailure([PortItem], cfgname, flags, files);
    ResolveUnique([PortItem], cfgname, flags, files, 0);
  }

  /** Without `-p`, the file's port wins over the default. */
  lemma ScenarioFilePort()
    ensures Resolve([PortItem], "app.conf", NoFlags, AppFiles()).Success?
    ensures var r := Resolve([PortItem], "app.conf", NoFlags, AppFiles()); "port" in r.value && r.value["port"] == "9090"
  {
    var files := AppFiles();
    NamesOfOne(PortItem);
    CfgPathOverride([PortItem], "app.conf", NoFlags);
    ResolveFailure([PortItem], "app.conf", NoFlags, files);
    PortFile();
    PortResolve("app.conf", NoFlags, files);
  }

  /** `-p 7000` wins over the file's 9090. */
  lemma ScenarioArgPort()
    ensures Resolve([PortItem], "app.conf", ParsedFlags(map["p" := "7000"], {}), AppFiles()).Success?
    ensures var r := Resolve([PortItem], "app.conf", ParsedFlags(map["p" := "7000"], {}), AppFiles()); "port" in r.value && r.value["port"] == "7000"
  {
    var flags := ParsedFlags(map["p" := "7000"], {});
    NamesOfOne(PortItem);
    CfgPathOverride([PortItem], "app.conf", flags);
    ResolveFailure([PortItem], "app.conf", flags, AppFiles());
    PortResolve("app.conf", flags, AppFiles());
  }

  /** `-c other.conf` makes `Read` open that file instead of the supplied name. */
  lemma ScenarioCfgPathFlag()
    ensures Resolve([PortItem], "app.conf", ParsedFlags(map["c" := "other.conf"], {}), AppFiles()).Failure?
  {
    var flags := ParsedFlags(map["c" := "other.conf"], {});
    NamesOfOne(PortItem);
    CfgPathOverride([PortItem], "app.conf", flags);
    ResolveFailure([PortItem], "app.conf", flags, AppFiles());
  }

  /** A supplied file name that does not open makes `Read` fail. */
  lemma ScenarioMissingFile()
    ensures Resolve([PortItem], "app.conf", NoFlags, map[]).Failure?
  {
    NamesOfOne(PortItem);
    CfgPathOverride([PortItem], "app.conf", NoFlags);
    ResolveFailure([PortItem], "app.conf", NoFlags, map[]);
  }

  /** With no file name, no flag and no file, the default applies and help is "no". */
  lemma ScenarioDefaults()
    ensures Resolve([PortItem], "", NoFlags, map[]).Success?
    ensures var r := Resolve([PortItem], "", NoFlags, map[]); "port" in r.value && r.value["port"] == "8080"
    ensures var r := Resolve([PortItem], "", NoFlags, map[]); "help" in r.value && r.value["help"] == "no"
  {
    NamesOfOne(PortItem);
    ResolveFailure([PortItem], "", NoFlags, map[]);
    ResolveUnique([PortItem], "", NoFlags, map[], 0);
    HelpValue([PortItem], "", NoFlags, map[]);
  }

  /** `-v` and `-h` read as "yes"; without a file name nothing else contributes. */
  lemma ScenarioPresenceFlags()
    ensures Resolve([VerboseItem], "", ParsedFlags(map[], {"v", "h"}), map[]).Success?
    ensures var r := Resolve([VerboseItem], "", ParsedFlags(map[], {"v", "h"}), map[]); "verbose" in r.value && r.value["verbose"] == "yes"
    ensures var r := Resolve([VerboseItem], "", ParsedFlags(map[], {"v", "h"}), map[]); "help" in r.value && r.value["help"] == "yes"
  {
    var flags := ParsedFlags(map[], {"v", "h"});
    NamesOfOne(VerboseItem);
    ResolveFailure([VerboseItem], "", flags, map[]);
    ResolveUnique([VerboseItem], "", flags, map[], 0);
    HelpValue([VerboseItem], "", flags, map[]);
  }

  /** An unset presence flag with an empty default resolves to "". */
  lemma ScenarioPresenceUnset()
    ensures Resolve([VerboseItem], "", NoFlags, map[]).Success?
    ensures var r := Resolve([VerboseItem], "", NoFlags, map[]); "verbose" in r.value && r.value["verbose"] == ""
  {
    NamesOfOne(VerboseItem);
    ResolveFailure([VerboseItem], "", NoFlags, map[]);
    ResolveUnique([VerboseItem], "", NoFlags, map[], 0);
  }
}
