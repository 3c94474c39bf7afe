/** The usage printer: the lines `PrintUsage` writes for a schema. */
module Usage {
  import opened Strings
  import opened Schema

  /** Column width of the option token (the `%-20s` verb). */
  const OptionWidth: nat := 20

  /** The option token: `  -<arg> <<name>>` for a value flag, `  -<arg>` for a presence flag. */
  function OptionToken(it: ConfigItem): (tok: string)
    ensures HasPrefix(tok, "  -" + it.arg)
    ensures tok[|it.arg| + 3..] == if it.hasval then " <" + it.name + ">" else ""
  {
    if it.hasval then "  -" + it.arg + " <" + it.name + ">" else "  -" + it.arg
  }

  /** One option line as `fmt.Printf("   %-20s : %s\n", option, descr)` prints it, without the newline. */
  function UsageLine(it: ConfigItem): string {
    "   " + PadRight(OptionToken(it), OptionWidth) + " : " + it.descr
  }

  /** The items that get a usage line: those with a non-empty flag, in order. */
  function Flagged(items: seq<ConfigItem>): seq<ConfigItem> {
    if items == [] then []
    else
      var it := items[|items| - 1];
      Flagged(items[..|items| - 1]) + (if it.arg == "" then [] else [it])
  }

  /** The option lines `PrintUsage` prints after the title, in item order; an
      item with an empty flag prints nothing. */
  function UsageLines(items: seq<ConfigItem>): seq<string> {
    if items == [] then []
    else
      var it := items[|items| - 1];
      UsageLines(items[..|items| - 1]) + (if it.arg == "" then [] else [UsageLine(it)])
  }

  /** Where the pieces of a line sit: three spaces, the token left-justified in a
      column of at least 20 characters, then ` : ` and the description. */
  lemma UsageLineLayout(it: ConfigItem)
    ensures var line, tok := UsageLine(it), OptionToken(it);
            var w := if |tok| < OptionWidth then OptionWidth else |tok|;
            && |line| == 3 + w + 3 + |it.descr|
            && line[..3] == "   "
            && line[3..3 + |tok|] == tok
            && (forall k :: 3 + |tok| <= k < 3 + w ==> line[k] == ' ')
            && line[3 + w..] == " : " + it.descr
  {
    var tok := OptionToken(it);
    var padded := PadRight(tok, OptionWidth);
    var w := |padded|;
    var line := ("   " + padded) + (" : " + it.descr);
    assert UsageLine(it) == line;
    assert line[..3] == "   ";
    assert line[3..3 + |tok|] == padded[..|tok|];
    assert forall k :: 3 + |tok| <= k < 3 + w ==> line[k] == padded[k - 3];
    assert line[3 + w..] == " : " + it.descr;
  }

  /** Flagged keeps order: it distributes over concatenation. */
  lemma {:induction false} FlaggedAppend(a: seq<ConfigItem>, b: seq<ConfigItem>)
    ensures Flagged(a + b) == Flagged(a) + Flagged(b)
    decreases |b|
  {
    if b == [] {
      assert a + b == a;
    } else {
      var b' := b[..|b| - 1];
      var it := b[|b| - 1];
      assert (a + b)[..|a + b| - 1] == a + b';
      assert (a + b)[|a + b| - 1] == it;
      FlaggedAppend(a, b');
      var tail := if it.arg == "" then [] else [it];
      assert Flagged(a + b) == (Flagged(a) + Flagged(b')) + tail;
      assert Flagged(b) == Flagged(b') + tail;
    }
  }

  /** An item gets a line exactly when it is in the schema and has a flag. */
  lemma {:induction false} FlaggedMembers(items: seq<ConfigItem>, it: ConfigItem)
    ensures it in Flagged(items) <==> it in items && it.arg != ""
  {
    if items != [] {
      var init := items[..|items| - 1];
      FlaggedMembers(init, it);
      assert items == init + [items[|items| - 1]];
    }
  }

  /** With every item flagged, every item gets its line, in item order. */
  lemma {:induction false} FlaggedAll(items: seq<ConfigItem>)
    requires forall i :: 0 <= i < |items| ==> items[i].arg != ""
    ensures Flagged(items) == items
  {
    if items != [] {
      var init := items[..|items| - 1];
      assert forall i :: 0 <= i < |init| ==> init[i] == items[i];
      FlaggedAll(init);
      assert items == init + [items[|items| - 1]];
    }
  }

  /** The k-th option line renders the k-th item that has a flag. */
  lemma {:induction false} UsageLinesFlagged(items: seq<ConfigItem>)
    ensures |UsageLines(items)| == |Flagged(items)|
    ensures forall k :: 0 <= k < |Flagged(items)| ==> UsageLines(items)[k] == UsageLine(Flagged(items)[k])
  {
    if items != [] {
      UsageLinesFlagged(items[..|items| - 1]);
    }
  }

  /** The lines of a concatenated schema are the lines of its parts, in order. */
  lemma {:induction false} UsageLinesAppend(a: seq<ConfigItem>, b: seq<ConfigItem>)
    ensures UsageLines(a + b) == UsageLines(a) + UsageLines(b)
    decreases |b|
  {
    if b == [] {
      assert a + b == a;
    } else {
      var b' := b[..|b| - 1];
      var it := b[|b| - 1];
      assert (a + b)[..|a + b| - 1] == a + b';
      assert (a + b)[|a + b| - 1] == it;
      UsageLinesAppend(a, b');
      var tail := if it.arg == "" then [] else [UsageLine(it)];
      assert UsageLines(a + b) == (UsageLines(a) + UsageLines(b')) + tail;
      assert UsageLines(b) == UsageLines(b') + tail;
    }
  }

  /** One loop step of `PrintUsage`: the next item adds its line at the end
      when it has a flag, and nothing otherwise. */
  lemma UsageLinesStep(items: seq<ConfigItem>, i: nat)
    requires i < |items|
    ensures UsageLines(items[..i + 1])
         == UsageLines(items[..i]) + (if items[i].arg == "" then [] else [UsageLine(items[i])])
  {
    assert items[..i + 1][..i] == items[..i];
  }
}
