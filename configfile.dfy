/** The file source: `readConfigFile`, over a file system given as a map from
    path to the file's lines. */
module ConfigFile {
  import opened Wrappers
  import opened Strings

  /** One accepted `key = value` line after normalisation. */
  datatype Entry = Entry(key: string, value: string)

  /** The only error the reader reports: the file could not be opened. */
  datatype ConfigError = OpenFailed

  /** A line is a comment when its very first character is `#`; there is no
      trimming first, so an indented `#` does not make a comment. */
  predicate IsComment(line: string) {
    HasPrefix(line, "#")
  }

  /** What one line contributes: nothing for a comment or a line without `=`,
      otherwise the lower-cased trimmed text before the first `=` as key and
      the trimmed text after it, with every `"` removed, as value. */
  function ParseLine(line: string): (r: Option<Entry>)
    ensures r.None? <==> IsComment(line) || '=' !in line
    ensures r.Some? ==> '"' !in r.value.value && Trimmed(r.value.key)
    ensures r.Some? ==> forall k :: 0 <= k < |r.value.key| ==> !IsUpper(r.value.key[k])
  {
    if IsComment(line) then None
    else
      match Cut(line, '=')
      case None => None
      case Some((before, after)) => Some(Entry(ToLower(TrimSpace(before)), RemoveAll(TrimSpace(after), '"')))
  }

  /** The split is at the first `=`: any later `=` stays in the value. */
  lemma ParseLineParts(before: string, after: string)
    requires '=' !in before
    requires !IsComment(before + "=" + after)
    ensures ParseLine(before + "=" + after) == Some(Entry(ToLower(TrimSpace(before)), RemoveAll(TrimSpace(after), '"')))
  {
    CutFirst(before, '=', after);
  }

  predicate Defines(line: string, key: string) {
    ParseLine(line).Some? && ParseLine(line).value.key == key
  }

  /** One step of the scan loop: store an accepted line's entry. */
  function Store(m: map<string, string>, r: Option<Entry>): map<string, string> {
    match r
    case None => m
    case Some(e) => m[e.key := e.value]
  }

  /** The map built by storing line results in order, so a later entry for a
      key overwrites an earlier one. */
  function Collect(rs: seq<Option<Entry>>): map<string, string> {
    if rs == [] then map[]
    else Store(Collect(rs[..|rs| - 1]), rs[|rs| - 1])
  }

  function ParseAll(lines: seq<string>): (rs: seq<Option<Entry>>)
    ensures |rs| == |lines|
    ensures forall i :: 0 <= i < |lines| ==> rs[i] == ParseLine(lines[i])
  {
    seq(|lines|, i requires 0 <= i < |lines| => ParseLine(lines[i]))
  }

  /** The map the scan loop of `readConfigFile` builds from a file's lines. */
  function ParseLines(lines: seq<string>): map<string, string> {
    Collect(ParseAll(lines))
  }

  /** Scanning one more line stores that line's entry on top of what came before. */
  lemma ParseLinesSnoc(lines: seq<string>, line: string)
    ensures ParseLines(lines + [line]) == Store(ParseLines(lines), ParseLine(line))
  {
    var rs := ParseAll(lines + [line]);
    assert rs[..|lines|] == ParseAll(lines);
  }

  /** `readConfigFile`: open failure yields an empty map and an error; otherwise
      every line is scanned and the map of accepted lines returned. */
  method ReadConfigFile(filename: string, files: map<string, seq<string>>)
    returns (cfg: map<string, string>, err: Option<ConfigError>)
    ensures err.Some? <==> filename !in files
    ensures err.Some? ==> cfg == map[]
    ensures err.None? ==> cfg == ParseLines(files[filename])
  {
    cfg := map[];
    if filename !in files {
      return cfg, Some(OpenFailed);
    }
    var lines := files[filename];
    var i := 0;
    while i < |lines|
      invariant 0 <= i <= |lines|
      invariant cfg == ParseLines(lines[..i])
    {
      var line := lines[i];
      ParseLinesSnoc(lines[..i], line);
      assert lines[..i] + [line] == lines[..i + 1];
      i := i + 1;
      if HasPrefix(line, "#") {
        continue;
      }
      var s := Cut(line, '=');
      if s.None? {
        continue;
      }
      cfg := cfg[ToLower(TrimSpace(s.value.0)) := RemoveAll(TrimSpace(s.value.1), '"')];
    }
    assert lines[..i] == lines;
    return cfg, None;
  }

  lemma {:induction false} CollectDomain(rs: seq<Option<Entry>>, key: string)
    ensures key in Collect(rs) <==> exists i :: 0 <= i < |rs| && rs[i].Some? && rs[i].value.key == key
  {
    if rs != [] {
      var init := rs[..|rs| - 1];
      CollectDomain(init, key);
      if exists i :: 0 <= i < |init| && init[i].Some? && init[i].value.key == key {
        var i :| 0 <= i < |init| && init[i].Some? && init[i].value.key == key;
        assert rs[i] == init[i];
      }
      if exists i :: 0 <= i < |rs| && rs[i].Some? && rs[i].value.key == key {
        var i :| 0 <= i < |rs| && rs[i].Some? && rs[i].value.key == key;
        if i < |init| {
          assert init[i] == rs[i];
        }
      }
    }
  }

  lemma {:induction false} CollectLastWins(rs: seq<Option<Entry>>, i: nat)
    requires i < |rs| && rs[i].Some?
    requires forall j :: i < j < |rs| ==> rs[j].None? || rs[j].value.key != rs[i].value.key
    ensures rs[i].value.key in Collect(rs) && Collect(rs)[rs[i].value.key] == rs[i].value.value
  {
    if i < |rs| - 1 {
      var init := rs[..|rs| - 1];
      assert init[i] == rs[i];
      CollectLastWins(init, i);
    }
  }

  lemma {:induction false} CollectValues(rs: seq<Option<Entry>>, k: string)
    requires k in Collect(rs)
    ensures exists i :: 0 <= i < |rs| && rs[i] == Some(Entry(k, Collect(rs)[k]))
  {
    var init := rs[..|rs| - 1];
    var last := rs[|rs| - 1];
    if last.Some? && last.value.key == k {
      assert rs[|rs| - 1] == Some(Entry(k, Collect(rs)[k]));
    } else {
      CollectValues(init, k);
      var i :| 0 <= i < |init| && init[i] == Some(Entry(k, Collect(init)[k]));
      assert rs[i] == init[i];
    }
  }

  /** A key is present exactly when some accepted line defines it. */
  lemma ParseLinesDomain(lines: seq<string>, key: string)
    ensures key in ParseLines(lines) <==> exists i :: 0 <= i < |lines| && Defines(lines[i], key)
  {
    CollectDomain(ParseAll(lines), key);
  }

  /** For a repeated key, the last accepted line that defines it wins. */
  lemma ParseLinesLastWins(lines: seq<string>, i: nat)
    requires i < |lines| && ParseLine(lines[i]).Some?
    requires forall j :: i < j < |lines| ==> !Defines(lines[j], ParseLine(lines[i]).value.key)
    ensures ParseLine(lines[i]).value.key in ParseLines(lines)
    ensures ParseLines(lines)[ParseLine(lines[i]).value.key] == ParseLine(lines[i]).value.value
  {
    CollectLastWins(ParseAll(lines), i);
  }

  /** No stored value contains a double quote, and every stored entry comes
      from an accepted line. */
  lemma ParseLinesValues(lines: seq<string>, k: string)
    requires k in ParseLines(lines)
    ensures '"' !in ParseLines(lines)[k]
    ensures exists i :: 0 <= i < |lines| && ParseLine(lines[i]) == Some(Entry(k, ParseLines(lines)[k]))
  {
    CollectValues(ParseAll(lines), k);
    var i :| 0 <= i < |lines| && ParseAll(lines)[i] == Some(Entry(k, ParseLines(lines)[k]));
    assert ParseLine(lines[i]) == Some(Entry(k, ParseLines(lines)[k]));
  }

  /** A file of comments and lines without `=` yields an empty map, and no error. */
  lemma ParseLinesIgnored(lines: seq<string>)
    requires forall i :: 0 <= i < |lines| ==> IsComment(lines[i]) || '=' !in lines[i]
    ensures ParseLines(lines) == map[]
  {
    forall key ensures key !in ParseLines(lines) {
      CollectDomain(ParseAll(lines), key);
    }
  }

  /** The shape of a line `<pre><k> = <v>`: where it splits, and that it is
      not a comment. */
  lemma SpacedShape(pre: string, k: string, v: string)
    requires AllSpace(pre) && '=' !in k && !HasPrefix(pre + k, "#")
    ensures pre + k + " = " + v == (pre + k + " ") + "=" + (" " + v)
    ensures '=' !in pre + k + " "
    ensures !IsComment(pre + k + " = " + v)
  {
    var line := pre + k + " = " + v;
    assert '=' !in pre by {
      assert forall j :: 0 <= j < |pre| ==> IsSpace(pre[j]);
    }
    assert pre + k + " " == (pre + k) + " ";
    if |pre + k| > 0 {
      assert line[0] == (pre + k)[0];
      assert (pre + k)[..1] != "#";
    } else {
      assert line[0] == ' ';
    }
  }

  /** What `ParseLineSpaced` asks of a line `<pre><k> = <v>`: blank `pre`, a
      trimmed key without upper case or `=` that does not start a comment,
      and a trimmed value. */
  predicate SpacedLine(pre: string, k: string, v: string) {
    && AllSpace(pre) && Trimmed(k) && Trimmed(v)
    && '=' !in k && (forall j :: 0 <= j < |k| ==> !IsUpper(k[j]))
    && !HasPrefix(pre + k, "#")
  }

  /** A line `<pre><k> = <v>` of that shape defines `k` as `v` without its
      quotes: the spaces around `=` and before the key are trimmed away. */
  lemma ParseLineSpaced(pre: string, k: string, v: string)
    requires SpacedLine(pre, k, v)
    ensures ParseLine(pre + k + " = " + v) == Some(Entry(k, RemoveAll(v, '"')))
  {
    var before, after := pre + k + " ", " " + v;
    SpacedShape(pre, k, v);
    TrimSpacePadding(pre, k, " ");
    assert after == " " + v + "";
    TrimSpacePadding(" ", v, "");
    ParseLineParts(before, after);
  }

  /** `ParseLineSpaced` for a line and an entry given whole. */
  lemma SpacedAs(pre: string, k: string, v: string, line: string, e: Entry)
    requires SpacedLine(pre, k, v)
    requires line == pre + k + " = " + v && e == Entry(k, RemoveAll(v, '"'))
    ensures ParseLine(line) == Some(e)
  {
    ParseLineSpaced(pre, k, v);
  }

  /** Quotes around a quote-free text are stripped and nothing else is:
      inner spaces stay. */
  lemma Unquote(s: string)
    requires '"' !in s
    ensures Trimmed("\"" + s + "\"")
    ensures RemoveAll("\"" + s + "\"", '"') == s
  {
    RemoveAllAppend("\"", s, '"');
    RemoveAllAppend("\"" + s, "\"", '"');
  }

  /** Every character is a lower-case ASCII letter. */
  predicate Letters(k: string) {
    k == [] || ('a' <= k[0] <= 'z' && Letters(k[1..]))
  }

  lemma {:induction false} LettersAt(k: string, j: nat)
    requires Letters(k) && j < |k|
    ensures 'a' <= k[j] <= 'z'
  {
    if j > 0 {
      LettersAt(k[1..], j - 1);
    }
  }

  /** A non-empty key of lower-case letters meets the key conditions. */
  lemma PlainKey(k: string, v: string)
    requires |k| > 0 && Letters(k)
    requires Trimmed(v)
    ensures SpacedLine("", k, v)
  {
    forall j | 0 <= j < |k| ensures 'a' <= k[j] <= 'z' {
      LettersAt(k, j);
    }
    assert "" + k == k;
    assert k[..1] != "#" by {
      assert k[..1][0] == k[0];
    }
  }

  lemma Ignored(line: string)
    requires '=' !in line
    ensures ParseLine(line).None?
  {
  }

  lemma ParseLinesOfOne(line: string)
    ensures ParseLines([line]) == Store(map[], ParseLine(line))
  {
    ParseLinesSnoc([], line);
    assert [] + [line] == [line];
  }

  /** A file of one accepted line holds exactly that line's entry. */
  lemma DirectiveOnly(line: string, e: Entry)
    requires ParseLine(line) == Some(e)
    ensures ParseLines([line]) == map[e.key := e.value]
  {
    ParseLinesOfOne(line);
  }

  lemma IgnoredThenOne(l0: string, l1: string, l2: string, e: Entry)
    requires ParseLine(l0).None? && ParseLine(l1).None? && ParseLine(l2) == Some(e)
    ensures ParseLines([l0, l1, l2]) == map[e.key := e.value]
  {
    ParseLinesOfOne(l0);
    ParseLinesSnoc([l0], l1);
    assert [l0] + [l1] == [l0, l1];
    ParseLinesSnoc([l0, l1], l2);
    assert [l0, l1] + [l2] == [l0, l1, l2];
  }

  // The scenarios below state facts about literal lines one small lemma at a
  // time, then relay them through `SpacedAs`.

  lemma IndentedHashFacts()
    ensures SpacedLine(" ", "# a", "b") && RemoveAll("b", '"') == "b"
    ensures " # a = b" == " " + "# a" + " = " + "b"
  {
    assert (" " + "# a")[..1] == " ";
  }

  /** An indented `#` line is a directive like any other. */
  lemma IndentedHashIsNotComment()
    ensures ParseLine(" # a = b") == Some(Entry("# a", "b"))
    ensures ParseLines([" # a = b"]) == map["# a" := "b"]
  {
    IndentedHashFacts();
    SpacedAs(" ", "# a", "b", " # a = b", Entry("# a", "b"));
    DirectiveOnly(" # a = b", Entry("# a", "b"));
  }

  lemma BobValue()
    ensures Trimmed("\"Bob\"") && RemoveAll("\"Bob\"", '"') == "Bob"
  {
    assert "\"Bob\"" == "\"" + "Bob" + "\"";
    Unquote("Bob");
  }

  lemma NameJoined()
    ensures "name = \"Bob\"" == "" + "name" + " = " + "\"Bob\""
  {
  }

  lemma NameKey()
    ensures Letters("name")
  {
  }

  lemma NameLine()
    ensures SpacedLine("", "name", "\"Bob\"")
  {
    NameKey();
    BobValue();
    PlainKey("name", "\"Bob\"");
  }

  lemma NoSeparators()
    ensures '=' !in "  # comment" && '=' !in "BAD LINE NO EQUALS"
  {
  }

  /** Three lines: an indented comment that has no `=`, a line without `=`,
      and a quoted value. */
  lemma ScenarioQuotedName()
    ensures ParseLines(["  # comment", "BAD LINE NO EQUALS", "name = \"Bob\""]) == map["name" := "Bob"]
  {
    BobValue();
    NameLine();
    NameJoined();
    NoSeparators();
    var l0, l1, l2 := "  # comment", "BAD LINE NO EQUALS", "name = \"Bob\"";
    SpacedAs("", "name", "\"Bob\"", l2, Entry("name", "Bob"));
    Ignored(l0);
    Ignored(l1);
    IgnoredThenOne(l0, l1, l2, Entry("name", "Bob"));
  }

  lemma HelloWorldValue()
    ensures Trimmed("\"hello world\"") && RemoveAll("\"hello world\"", '"') == "hello world"
  {
    assert "\"hello world\"" == "\"" + "hello world" + "\"";
    Unquote("hello world");
  }

  lemma GreetingJoined()
    ensures "greeting = \"hello world\"" == "" + "greeting" + " = " + "\"hello world\""
  {
  }

  lemma GreetingKey()
    ensures Letters("greeting")
  {
  }

  lemma GreetingLine()
    ensures SpacedLine("", "greeting", "\"hello world\"")
  {
    GreetingKey();
    HelloWorldValue();
    PlainKey("greeting", "\"hello world\"");
  }

  /** Quote stripping keeps the inner space of `"hello world"`. */
  lemma ScenarioQuoteStripping()
    ensures ParseLines(["greeting = \"hello world\""]) == map["greeting" := "hello world"]
  {
    HelloWorldValue();
    GreetingLine();
    GreetingJoined();
    SpacedAs("", "greeting", "\"hello world\"", "greeting = \"hello world\"", Entry("greeting", "hello world"));
    DirectiveOnly("greeting = \"hello world\"", Entry("greeting", "hello world"));
  }

  lemma PortKey()
    ensures Letters("port")
  {
  }

  lemma PortValue()
    ensures Trimmed("9090") && RemoveAll("9090", '"') == "9090"
  {
  }

  lemma PortJoined()
    ensures "port = 9090" == "" + "port" + " = " + "9090"
  {
  }

  lemma PortFacts()
    ensures SpacedLine("", "port", "9090") && RemoveAll("9090", '"') == "9090"
  {
    PortKey();
    PortValue();
    PlainKey("port", "9090");
  }

  /** A file holding only `port = 9090` maps port to 9090. */
  lemma PortFile()
    ensures ParseLines(["port = 9090"]) == map["port" := "9090"]
  {
    PortFacts();
    PortJoined();
    SpacedAs("", "port", "9090", "port = 9090", Entry("port", "9090"));
    DirectiveOnly("port = 9090", Entry("port", "9090"));
  }
}
