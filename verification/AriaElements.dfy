/** What becomes an element of a snapshot, and with what (agent-computer/src/aria-snapshot.ts). */
module AriaElements {
  import opened Prelude
  import opened JsText
  import opened AriaSnapshots

  // ---- the role ----

  /** A text is a descriptor unless nothing of it comes before the first space, quote or bracket; its role is what does. */
  lemma RoleIs(text: string)
    ensures var s := Trim(text);
            && (Parsed(text).None? <==> s == "" || s[0] == ' ' || s[0] == '"' || s[0] == '[')
            && (Parsed(text).Some? ==>
                  var role := Parsed(text).value.role;
                  && role != "" && role <= s && (forall i :: 0 <= i < |role| ==> role[i] !in {' ', '"', '['})
                  && (role == s || s[|role|] in {' ', '"', '['}))
  {
    RoleStops(Trim(text), 0);
  }

  lemma {:induction false} RoleStops(s: string, i: nat)
    requires i <= |s|
    ensures var end := RoleEnd(s, i);
            && (forall k :: i <= k < end ==> s[k] != ' ' && s[k] != '"' && s[k] != '[')
            && (end < |s| ==> s[end] == ' ' || s[end] == '"' || s[end] == '[')
    decreases |s| - i
  {
    if i < |s| && s[i] != ' ' && s[i] != '"' && s[i] != '[' {
      RoleStops(s, i + 1);
    }
  }

  // ---- what is not closed ----

  lemma {:induction false} QuotedRuns(before: string, name: string, collected: string)
    ensures var s := before + Escaped(name);
            QuotedFrom(s, |before|, collected) == (collected + name, |s| + 1)
    decreases |name|
  {
    var s := before + Escaped(name);
    if name == "" {
      assert collected + name == collected;
    } else {
      var head := if name[0] == '"' || name[0] == '\\' then ['\\', name[0]] else [name[0]];
      assert s == (before + head) + Escaped(name[1..]);
      assert s[|before|] == head[0] && (|head| == 2 ==> s[|before| + 1] == head[1]);
      QuotedRuns(before + head, name[1..], collected + [name[0]]);
      assert collected + [name[0]] + name[1..] == collected + name;
    }
  }

  lemma {:induction false} BracketRuns(before: string, text: string, collected: string)
    requires ']' !in text
    ensures BracketFrom(before + text, |before|, collected) == (collected + text, |before + text| + 1)
    decreases |text|
  {
    var s := before + text;
    if text == "" {
      assert collected + text == collected;
    } else {
      assert s == (before + [text[0]]) + text[1..];
      assert s[|before|] == text[0];
      BracketRuns(before + [text[0]], text[1..], collected + [text[0]]);
      assert collected + [text[0]] + text[1..] == collected + text;
    }
  }

  /** A text that begins with a role and a space. */
  lemma RoleThen(role: string, rest: string)
    requires PrintableRole(role) && rest != "" && rest[0] == ' ' && Trimmed(role + rest)
    ensures var (name, flags) := PartsFrom(role + rest, |role|, "", map[]);
            Parsed(role + rest) == Some(Descriptor(role, name, flags))
  {
    var s := role + rest;
    TrimOfTrimmed(s);
    RoleInverts(role, rest, 0);
    assert s[..|role|] == role;
  }

  /** A name whose closing quote is missing runs to the end of the text. */
  lemma UnclosedName(role: string, name: string)
    requires PrintableRole(role) && Trimmed(role + (" \"" + Escaped(name)))
    ensures Parsed(role + (" \"" + Escaped(name))) == Some(Descriptor(role, name, map[]))
  {
    var s := role + (" \"" + Escaped(name));
    RoleThen(role, " \"" + Escaped(name));
    assert s == (role + " \"") + Escaped(name);
    QuotedRuns(role + " \"", name, "");
    NothingBefore(name);
    SpaceThenQuote(s, |role|, "", map[]);
  }

  lemma SpaceThenQuote(s: string, i: nat, name: string, flags: map<string, string>)
    requires i + 1 < |s| && s[i] == ' ' && s[i + 1] == '"'
    ensures var (text, next) := QuotedFrom(s, i + 2, "");
            PartsFrom(s, i, name, flags) == PartsFrom(s, next, text, flags)
  {
    assert PartsFrom(s, i, name, flags) == PartsFrom(s, i + 1, name, flags);
  }

  lemma UnclosedBracket(role: string, text: string)
    requires PrintableRole(role) && ']' !in text && Trimmed(role + (" [" + text))
    ensures Parsed(role + (" [" + text)) == Some(Descriptor(role, "", WithFlag(map[], text)))
  {
    var s := role + (" [" + text);
    RoleThen(role, " [" + text);
    assert s == (role + " [") + text;
    BracketRuns(role + " [", text, "");
    NothingBefore(text);
    SpaceThenBracket(s, |role|, "", map[]);
  }

  /** And so does a flag whose closing bracket is missing. */
  lemma UnclosedFlag(role: string, flag: (string, string))
    requires PrintableRole(role) && PrintableFlag(flag) && Trimmed(role + (" [" + FlagText(flag)))
    ensures Parsed(role + (" [" + FlagText(flag))) == Some(Descriptor(role, "", map[flag.0 := flag.1]))
  {
    UnclosedBracket(role, FlagText(flag));
    FlagInverts(map[], flag);
  }

  // ---- one element ----

  predicate HasFlag(flags: seq<(string, string)>, key: string) { exists i :: 0 <= i < |flags| && flags[i].0 == key }

  /** At most 200 characters of a text, from its start. */
  predicate First200Of(part: string, whole: string) {
    part <= whole && |part| == if |whole| < 200 then |whole| else 200
  }

  lemma FlagsAre(flags: seq<(string, string)>, key: string)
    requires DistinctKeys(flags)
    ensures key in Added(map[], flags) <==> HasFlag(flags, key)
    ensures forall i :: 0 <= i < |flags| && flags[i].0 == key ==> key in Added(map[], flags) && Added(map[], flags)[key] == flags[i].1
  {
    AddedExactly(map[], flags);
  }

  /** Of a printed descriptor, an interactive role with a reference gives one element, with these fields. */
  lemma PrintedElement(role: string, name: string, flags: seq<(string, string)>, value: Yaml, r: nat) returns (e: Element)
    requires PrintableRole(role) && role in INTERACTIVE_ROLES && DistinctKeys(flags)
    requires forall i :: 0 <= i < |flags| ==> PrintableFlag(flags[i])
    requires r < |flags| && flags[r].0 == "ref" && flags[r].1 != ""
    ensures ElementOf(Printed(role, name, flags), value) == [e]
    ensures e.ref == flags[r].1 && e.role == role && First200Of(e.name, name)
    ensures e.value.Some? <==> value.Text? && !AllSpace(value.text)
    ensures e.value.Some? ==> First200Of(e.value.value, Trim(value.text))
    ensures e.disabled <==> HasFlag(flags, "disabled")
    ensures forall i :: 0 <= i < |flags| && flags[i].0 == "checked" ==> e.checked == Some(flags[i].1 != "false")
    ensures !HasFlag(flags, "checked") ==> e.checked == if role in CHECKABLE_ROLES then Some(false) else None
  {
    ParseInvertsPrint(role, name, flags);
    FlagsAre(flags, "ref");
    FlagsAre(flags, "disabled");
    FlagsAre(flags, "checked");
    if value.Text? {
      BlankExactlyWhen(value.text);
    }
    e := ElementOf(Printed(role, name, flags), value)[0];
  }

  /** Any other role, or a reference that is missing or empty, gives none. */
  lemma PrintedNothing(role: string, name: string, flags: seq<(string, string)>, value: Yaml)
    requires PrintableRole(role) && DistinctKeys(flags)
    requires forall i :: 0 <= i < |flags| ==> PrintableFlag(flags[i])
    requires role !in INTERACTIVE_ROLES || forall i :: 0 <= i < |flags| && flags[i].0 == "ref" ==> flags[i].1 == ""
    ensures ElementOf(Printed(role, name, flags), value) == []
  {
    ParseInvertsPrint(role, name, flags);
    FlagsAre(flags, "ref");
  }

  // ---- all of them ----

  /**
   The descriptor at the end of a path of positions, with its value: a text by itself, or the key of an
   entry. A path goes through lists, and through the entries whose value is a list or an object.
   */
  function DescriptorAt(node: Yaml, path: seq<nat>): Option<(string, Yaml)>
    decreases |path|
  {
    match node
    case Nothing => None
    case Text(text) => if path == [] then Some((text, Nothing)) else None
    case Items(items) => if path == [] || path[0] >= |items| then None else DescriptorAt(items[path[0]], path[1..])
    case Entries(entries) =>
      if path == [] || path[0] >= |entries| then None
      else if |path| == 1 then Some(entries[path[0]])
      else if entries[path[0]].1.Items? || entries[path[0]].1.Entries? then DescriptorAt(entries[path[0]].1, path[1..])
      else None
  }

  /** An element of the descriptor that stands there. */
  ghost predicate AtPath(node: Yaml, path: seq<nat>, e: Element) {
    DescriptorAt(node, path).Some? && e in ElementOf(DescriptorAt(node, path).value.0, DescriptorAt(node, path).value.1)
  }

  lemma {:induction false} FlatItemsIs(items: seq<Yaml>, e: Element)
    ensures e in FlatItems(items) <==> exists i :: 0 <= i < |items| && e in Flat(items[i])
    decreases |items|
  {
    if items != [] {
      FlatItemsIs(items[1..], e);
      assert forall i | 0 < i < |items| :: items[i] == items[1..][i - 1];
      if i :| 0 <= i < |items[1..]| && e in Flat(items[1..][i]) {
        assert items[i + 1] == items[1..][i];
      }
    }
  }

  lemma {:induction false} FlatEntriesIs(entries: seq<(string, Yaml)>, e: Element)
    ensures e in FlatEntries(entries) <==> exists i :: 0 <= i < |entries| && e in FlatEntry(entries[i])
    decreases |entries|
  {
    if entries != [] {
      FlatEntriesIs(entries[1..], e);
      assert forall i | 0 < i < |entries| :: entries[i] == entries[1..][i - 1];
      if i :| 0 <= i < |entries[1..]| && e in FlatEntry(entries[1..][i]) {
        assert entries[i + 1] == entries[1..][i];
      }
    }
  }

  /** An element of the flat list comes from a descriptor of the tree. */
  lemma {:induction false} FlatHasPath(node: Yaml, e: Element) returns (path: seq<nat>)
    requires e in Flat(node)
    ensures AtPath(node, path, e)
    decreases node
  {
    match node {
      case Text(text) => path := [];
      case Items(items) =>
        FlatItemsIs(items, e);
        var i :| 0 <= i < |items| && e in Flat(items[i]);
        var rest := FlatHasPath(items[i], e);
        path := [i] + rest;
        assert path[1..] == rest;
      case Entries(entries) =>
        FlatEntriesIs(entries, e);
        var i :| 0 <= i < |entries| && e in FlatEntry(entries[i]);
        path := [i];
        if e !in ElementOf(entries[i].0, entries[i].1) {
          var rest := FlatHasPath(entries[i].1, e);
          path := [i] + rest;
          assert path[1..] == rest;
          assert rest != [];
        }
    }
  }

  /** And every descriptor's element is in the flat list, also below one that is no element itself. */
  lemma {:induction false} PathInFlat(node: Yaml, path: seq<nat>, e: Element)
    requires AtPath(node, path, e)
    ensures e in Flat(node)
    decreases |path|
  {
    match node {
      case Text(text) =>
      case Items(items) =>
        PathInFlat(items[path[0]], path[1..], e);
        FlatItemsIs(items, e);
      case Entries(entries) =>
        var entry := entries[path[0]];
        if |path| > 1 {
          PathInFlat(entry.1, path[1..], e);
        }
        assert e in FlatEntry(entry);
        FlatEntriesIs(entries, e);
    }
  }

  /** The snapshot before its limit holds exactly the elements of the descriptors in the tree. */
  lemma FlatIsEverything(node: Yaml, e: Element)
    ensures e in Flat(node) <==> exists path :: AtPath(node, path, e)
  {
    if e in Flat(node) {
      var path := FlatHasPath(node, e);
    }
    if path :| AtPath(node, path, e) {
      PathInFlat(node, path, e);
    }
  }
}
