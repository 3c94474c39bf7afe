# go-config in Dafny

A model of `config.go`, a small Go library. It resolves program options from three sources:

- the command line;
- a `key = value` configuration file;
- per-option defaults.

A program builds a `Config` schema with `AddOption`, one `ConfigItem` per option: name, flag, whether the flag takes a value, description and default.

`Read` auto-registers a `help` option (`-h`) and, when it is given a configuration file name, a `cfgpath` option (`-c`). It then turns the parsed command line into a map keyed by option name. It picks the file (the `-c` value when non-empty, otherwise the supplied name) and parses it. Finally it merges the three sources per option: command line over file over default, where an empty string means "not supplied". `PrintUsage` lists one line per option that has a flag.

Modules follow the pieces of the library:

- `Wrappers`: `Option` and `Result`.
- `Strings`: the Go string helpers the library calls (`strings.HasPrefix`, `strings.TrimSpace`, `strings.ToLower`, `strings.SplitN(…, 2)`, `strings.Replace(…, -1)`, `%-20s`).
- `Schema`: `ConfigItem`, the set of names, the last item carrying a name, and `Get`, Go's index expression on a string map, where a missing key reads as "" (config.go:86 and 156).
- `Merging`: `merge` and the map `mergeItems` builds.
- `Args`: the map `readArgs` builds from the parsed flags.
- `ConfigFile`: the line scanner of `readConfigFile`, as a specification function and as the imperative loop.
- `Usage`: the lines `PrintUsage` writes.
- `Config`: the `Config` class and its methods, with `Resolve`. `Resolve` is the function that `Read` is proved against.

Some inputs are parameters rather than I/O:

- The file system is a map from path to the file's lines. A path that is absent is a file that cannot be opened.
- The command line is given as it stands after `flag.Parse` (`ParsedFlags`): the string of every value flag that was set, keyed by flag name, and the set of presence flags whose final value is true.
- Printed output is returned as a sequence of lines.

## Model

| member | source | states |
|---|---|---|
| Merging.Merge | config.go:139-149 | the result is one of the three inputs, and it is empty exactly when all three are empty |
| Merging.MergeIsFirstNonEmpty | config.go:139-149 | merge is precedence resolution: the first non-empty of command line, file, default (the default even when empty) |
| Merging.MergeAll | config.go:152-160 | no contract of its own: the map `mergeItems` builds, item by item; its laws are MergeAllKeys, MergeAllAt, Precedence, Fallback and DefaultFloor |
| Merging.MergeAllKeys | config.go:152-160 | the merged map has exactly one key per schema name, and no other keys |
| Merging.MergeAllAt | config.go:152-160 | for every name, the entry merges the command-line and file entries (missing reads as "") with the default of the last item carrying the name, so a later duplicate overwrites |
| Merging.Precedence | config.go:139-156 | a non-empty command-line value is the result, whatever the file and the default say |
| Merging.Fallback | config.go:139-156 | with no command-line value, a non-empty file value is the result |
| Merging.DefaultFloor | config.go:139-156 | with neither source, the result is the default of the last item with that name |
| Config.Config.MergeItems | config.go:152-160 | the loop over the items builds exactly the map of the merge law above |
| Args.PresenceOf | config.go:123-129 | a presence flag reads "yes" exactly when it is set, and "" exactly when it is not |
| Args.Registered | config.go:112-118 | no contract of its own: the `args`/`boolargs` maps after registration; its law is RegisteredAt |
| Args.ArgMap | config.go:106-136 | no contract of its own: the map `readArgs` returns; its laws are ArgMapKeys, ArgMapAt and ArgMapUnique |
| Args.RegisteredAt | config.go:112-118 | after registration, a name is bound for a flag kind exactly when an item of that kind carries it, and it is bound to the flag of the last such item |
| Args.ArgMapKeys | config.go:106-136 | the argument map has exactly one entry per item name |
| Args.ArgMapAt | config.go:123-133 | an entry is read through the last value flag with that name when one exists (value flags overwrite presence flags), otherwise through the last presence flag |
| Args.ArgMapUnique | config.go:112-133 | for a name carried by one item only, the entry is that item's own flag reading: "yes"/"" for presence, the given string or "" for value |
| Args.UnflaggedReadsEmpty | config.go:112-133 | for flags the parser can produce, an item with an empty flag reads "" from the command line |
| Config.Config.ReadArgs | config.go:106-136 | registration plus the two translation loops produce the argument map described above, whatever order the maps are visited in |
| Config.ReadPresence | config.go:123-129 | the presence loop yields, in any visiting order, exactly one entry per presence name: "yes" when its flag is set, "" otherwise |
| Config.ReadValues | config.go:131-133 | the value loop adds, in any visiting order, each value name with its flag's string, overwriting a presence entry of that name and keeping the others |
| Strings.TrimSpace | config.go:189 | the result is free of leading and trailing white space, no longer than the input, and an already-trimmed string is unchanged |
| Strings.TrimSpacePadding | config.go:189 | trimming removes exactly the white space padding around a trimmed core |
| Strings.ToLower | config.go:189 | same length, no upper-case letters left, every character kept or lowered, identity on strings without upper case, trimmedness kept |
| Strings.Cut | config.go:182 | no split exactly when the separator is absent; otherwise the input is before + separator + after, with no separator in before |
| Strings.CutFirst | config.go:182 | the split is at the first separator, and later separators stay in the second part |
| Strings.RemoveAll | config.go:189 | no quote is left, and a string without quotes is unchanged |
| Strings.RemoveAllCounts | config.go:189 | exactly the removed character disappears: every other character keeps its multiplicity |
| Strings.RemoveAllAppend | config.go:189 | removal distributes over concatenation |
| Strings.PadRight | config.go:67 | the padded string starts with the original, is at least the width long, and is spaces after the original |
| ConfigFile.ParseLine | config.go:176-189 | a line is ignored exactly when it starts with `#` or has no `=`; an accepted line has a trimmed, lower-case key and a value without quotes |
| ConfigFile.ParseLineParts | config.go:182-189 | an accepted line splits at its first `=`: key is the lowered trimmed text before it, value is the trimmed text after it with every quote removed |
| ConfigFile.ParseLineSpaced | config.go:182-189 | a line `<blank><key> = <value>`, for a trimmed lower-case key without `=` that does not start a comment and a trimmed value, defines the key as the value with its quotes removed |
| ConfigFile.Unquote | config.go:189 | a quoted text loses exactly its two quotes; inner spaces stay |
| ConfigFile.ParseLinesSnoc | config.go:176-190 | scanning one more line stores that line's entry over what the earlier lines built |
| ConfigFile.ParseLines | config.go:176-190 | no contract of its own: the map the scan builds; its laws are ParseLinesSnoc, ParseLinesDomain, ParseLinesLastWins, ParseLinesValues and ParseLinesIgnored, and ReadConfigFile is proved against it |
| ConfigFile.ReadConfigFile | config.go:164-197 | fails exactly when the file cannot be opened, with an empty map; otherwise returns the map the line-by-line scan specifies |
| ConfigFile.ParseLinesDomain | config.go:176-190 | a key is in the parsed map exactly when some accepted line defines it |
| ConfigFile.ParseLinesLastWins | config.go:176-190 | for a repeated key, the value from the last accepted line defining it wins |
| ConfigFile.ParseLinesValues | config.go:189 | no stored value contains a quote, and every entry is the parse of one line of the file |
| ConfigFile.ParseLinesIgnored | config.go:176-186 | a file of comments and lines without `=` yields the empty map, with no error |
| ConfigFile.IndentedHashIsNotComment | config.go:178-180 | ` # a = b` is a directive with key `# a`: there is no trimming before the comment test |
| ConfigFile.ScenarioQuotedName | config.go:176-190 | an indented comment without `=` and a line without `=` are skipped, and `name = "Bob"` yields name = Bob |
| ConfigFile.ScenarioQuoteStripping | config.go:189 | `greeting = "hello world"` yields greeting = hello world, with the inner space kept |
| ConfigFile.PortFile | config.go:176-190 | a file holding `port = 9090` maps port to 9090 |
| Usage.OptionToken | config.go:61-65 | the token starts `  -<flag>` and continues ` <<name>>` for a value flag and with nothing for a presence flag |
| Usage.UsageLine | config.go:67 | no contract of its own: one `Printf` line; its law is UsageLineLayout |
| Usage.UsageLines | config.go:56-68 | no contract of its own: the option lines in item order; its laws are UsageLinesFlagged, UsageLinesAppend and UsageLinesStep |
| Usage.UsageLineLayout | config.go:67 | three spaces, the token left-justified in a column of at least 20 characters, ` : `, then the description |
| Usage.FlaggedMembers | config.go:56-59 | an item gets a usage line exactly when it is in the schema and its flag is non-empty |
| Usage.FlaggedAppend | config.go:56-59 | the flagged items keep schema order: selecting them distributes over concatenation |
| Usage.FlaggedAll | config.go:56-59 | when every item has a flag, every item gets a line, in schema order |
| Usage.UsageLinesFlagged | config.go:56-68 | there is one line per flagged item, and the k-th line renders the k-th flagged item |
| Usage.UsageLinesAppend | config.go:56-68 | the lines of a concatenated schema are the lines of the parts, in order |
| Usage.UsageLinesStep | config.go:56-68 | each loop step adds the next item's line at the end when it has a flag, and nothing otherwise |
| Config.Config.PrintUsage | config.go:52-69 | the title, then the usage lines of the schema in item order |
| Config.Config.constructor | config.go:33-36 | a new schema has no items |
| Config.Config.AddOption | config.go:47-49 | exactly one item is appended at the end; earlier items are unchanged |
| Config.Config.Read | config.go:74-103 | the schema gains help and, with a file name, cfgpath; the result is `Resolve` of the schema before the call |
| Config.WithBuiltins | config.go:79-82 | no contract of its own: the schema after the two `AddOption` calls; its law is ResolveKeys |
| Config.EffectivePath | config.go:86-90 | no contract of its own: the file chosen; its law is CfgPathOverride |
| Config.FileMap | config.go:92-100 | no contract of its own: the parsed file when a name was given and the file opens, empty otherwise; its law is ResolveFailure |
| Config.Resolve | config.go:74-103 | no contract of its own: what `Read` returns; its laws are ResolveFailure, ResolveIgnoresFiles, ResolveKeys, ResolveUnique, UnflaggedResolve, CfgPathOverride and HelpValue |
| Config.ResolveFailure | config.go:86-100 | reading fails exactly when a file name was given and the file named by `-c` when non-empty, else by the supplied name, cannot be opened; without a file name the file map is empty |
| Config.ResolveIgnoresFiles | config.go:79-102 | without a file name the result is the same whatever the file system holds |
| Config.ResolveKeys | config.go:79-102 | the result has one entry per option name, plus help, plus cfgpath when a file name was given |
| Config.ResolveUnique | config.go:84-102 | for an option no other item shares (help is always built in, cfgpath only when a file name is given), the value merges its flag reading, the chosen file's entry and its default |
| Config.UnflaggedResolve | config.go:84-102 | for an option with an empty flag that no other item shares, and for flags the parser can produce, the value is the chosen file's, or else the default |
| Config.CfgPathOverride | config.go:86-90 | whenever a configuration file name is given, the file read is the `-c` value when non-empty, otherwise the supplied name, even when the caller registered a cfgpath option of their own |
| Config.HelpValue | config.go:79-102 | unless the caller registered a value option named help, help reads "yes" with `-h`, otherwise the file's help entry, otherwise "no" |
| Config.PortResolve | config.go:74-103 | with one port option, its value merges `-p`, the parsed file chosen by `-c` or the supplied name, and 8080 |
| Config.ScenarioFilePort | config.go:74-103 | with no flags, the file's port 9090 beats the default 8080 |
| Config.ScenarioArgPort | config.go:74-103 | `-p 7000` beats the file's 9090 |
| Config.ScenarioCfgPathFlag | config.go:86-100 | `-c other.conf` makes the read fail when only the supplied file exists |
| Config.ScenarioMissingFile | config.go:94-100 | a supplied file name whose file cannot be opened makes the read fail |
| Config.ScenarioDefaults | config.go:74-103 | without a file name or flags, port is 8080 and help is "no" |
| Config.ScenarioPresenceFlags | config.go:123-129 | `-v` and `-h` read as "yes" |
| Config.ScenarioPresenceUnset | config.go:123-129 | an unset presence flag with an empty default reads as "" |

## Left out

- File I/O (`os.Open`, `defer file.Close()`, `bufio.Scanner`) is not modelled; a file is given as the lines the scanner would yield. So the scanner's own work is not modelled: line splitting, dropping a trailing carriage return, and the token-size limit.
- The error text of a failed open (config.go:169) is not modelled; the failure is the single value `OpenFailed`.
- `log.Fatal` on a scanner error (config.go:192-194) and `log.Printf` of the open error (config.go:97) are process termination and logging, and are not modelled.
- The `flag` package is not modelled; its parse result is an input. The model therefore does not capture that a repeated flag name panics, that an unknown flag exits the process, or that `Read` called twice re-registers `-h` and panics. A parse result may name the empty flag; only under `Args.WellFormed` (no empty flag name, as the parser guarantees) is an item with an empty flag proved to read "" from the command line.
- Printing with `fmt.Println` and `fmt.Printf` (config.go:55, 67) is not modelled as output; `PrintUsage` returns the printed lines, without their newline characters.
- Strings.ToLower: lowers ASCII letters only. Go's `strings.ToLower` applies full Unicode case mapping, and the model does not reproduce Unicode case tables.
- Go map iteration order in `readArgs` (config.go:123-133) is replaced by an arbitrary choice over the key sets. The result does not depend on it.
- Strings are sequences of Unicode code points. A Go string is bytes, so input that is not valid UTF-8 (which `strings.ToLower` rewrites to U+FFFD and `strings.TrimSpace` keeps) cannot be represented. The `%-20s` width counts code points, as Go counts runes.
