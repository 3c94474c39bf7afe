/** The option schema: configuration items and the by-name lookups that the
    argument reader and the merge step perform on it. */
module Schema {
  import opened Wrappers

  /** One option descriptor. `arg` is the command-line flag without its dash
      (empty: not on the command line), `hasval` tells a value flag from a
      presence flag, `dflt` is the value used when no source supplies one. */
  datatype ConfigItem = ConfigItem(name: string, arg: string, hasval: bool, descr: string, dflt: string)

  /** Which items a lookup by name considers. */
  datatype Kind = AnyKind | ValueKind | PresenceKind

  predicate Matches(it: ConfigItem, n: string, k: Kind) {
    it.name == n &&
    match k
    case AnyKind => true
    case ValueKind => it.hasval
    case PresenceKind => !it.hasval
  }

  function Names(items: seq<ConfigItem>): set<string> {
    set i | 0 <= i < |items| :: items[i].name
  }

  /** Go's map index expression on a string map: a missing key reads as "". */
  function Get(m: map<string, string>, k: string): string {
    if k in m then m[k] else ""
  }

  /** The last item named `n` of kind `k`: the one whose entry survives when a
      map keyed by name is filled in item order. */
  function LastIndex(items: seq<ConfigItem>, n: string, k: Kind): (r: Option<nat>)
    ensures r.Some? ==> r.value < |items| && Matches(items[r.value], n, k)
    ensures r.Some? ==> forall j :: r.value < j < |items| ==> !Matches(items[j], n, k)
    ensures r.None? ==> forall j :: 0 <= j < |items| ==> !Matches(items[j], n, k)
  {
    if items == [] then None
    else if Matches(items[|items| - 1], n, k) then Some(|items| - 1)
    else LastIndex(items[..|items| - 1], n, k)
  }

  /** A name is in the schema exactly when some item carries it. */
  lemma NamesLastIndex(items: seq<ConfigItem>, n: string)
    ensures n in Names(items) <==> LastIndex(items, n, AnyKind).Some?
  {
    if n in Names(items) {
      var i :| 0 <= i < |items| && items[i].name == n;
      assert Matches(items[i], n, AnyKind);
    }
  }

  lemma NamesAppend(items: seq<ConfigItem>, it: ConfigItem)
    ensures Names(items + [it]) == Names(items) + {it.name}
  {
    var all := items + [it];
    forall n | n in Names(items) ensures n in Names(all) {
      var i :| 0 <= i < |items| && items[i].name == n;
      assert all[i].name == n;
    }
    assert all[|items|].name == it.name;
  }
}
