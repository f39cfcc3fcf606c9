/** agent-computer/src/aria-snapshot.ts: the descriptor scanner and the bounded walk of the tree. */
module AriaSnapshots {
  import opened Prelude
  import opened JsText

  datatype Descriptor = Descriptor(role: string, name: string, flags: map<string, string>)

  // ---- what the scanner reads, stretch by stretch ----

  /** The end of the role: the first space, quote or bracket. */
  function RoleEnd(s: string, i: nat): (end: nat)
    requires i <= |s|
    ensures i <= end <= |s|
    decreases |s| - i
  {
    if i < |s| && s[i] != ' ' && s[i] != '"' && s[i] != '[' then RoleEnd(s, i + 1) else i
  }

  /** A quoted name from just after its opening quote: its text, and where scanning goes on. */
  function QuotedFrom(s: string, i: nat, collected: string): (string, nat)
    requires i <= |s|
    decreases |s| - i
  {
    if i >= |s| || s[i] == '"' then (collected, i + 1)
    else if s[i] == '\\' && i + 1 < |s| then QuotedFrom(s, i + 2, collected + [s[i + 1]])
    else QuotedFrom(s, i + 1, collected + [s[i]])
  }

  /** A flag from just after its opening bracket. */
  function BracketFrom(s: string, i: nat, collected: string): (string, nat)
    requires i <= |s|
    decreases |s| - i
  {
    if i >= |s| || s[i] == ']' then (collected, i + 1)
    else BracketFrom(s, i + 1, collected + [s[i]])
  }

  /** `indexOf("=")`, with the length standing for -1. */
  function EqualsAt(s: string): (n: nat)
    ensures n <= |s|
    ensures n < |s| ==> s[n] == '='
    ensures forall i :: 0 <= i < n ==> s[i] != '='
  {
    if s == "" || s[0] == '=' then 0 else 1 + EqualsAt(s[1..])
  }

  function WithFlag(flags: map<string, string>, text: string): map<string, string> {
    var equals := EqualsAt(text);
    if equals == |text| then flags[Trim(text) := ""]
    else flags[Trim(text[..equals]) := Trim(text[equals + 1..])]
  }

  /** Everything after the role: later names replace earlier ones, flags accumulate, the rest is skipped. */
  function PartsFrom(s: string, i: nat, name: string, flags: map<string, string>): (string, map<string, string>)
    decreases if i < |s| then |s| - i else 0
  {
    if i >= |s| then (name, flags)
    else if s[i] == '"' then
      var (collected, next) := QuotedFrom(s, i + 1, "");
      QuotedAdvances(s, i + 1, "");
      PartsFrom(s, next, collected, flags)
    else if s[i] == '[' then
      var (collected, next) := BracketFrom(s, i + 1, "");
      BracketAdvances(s, i + 1, "");
      PartsFrom(s, next, name, WithFlag(flags, collected))
    else PartsFrom(s, i + 1, name, flags)
  }

  /** The scan never goes back, and leaves the text by at most one past an unterminated quote. */
  lemma QuotedAdvances(s: string, i: nat, collected: string)
    requires i <= |s|
    ensures i < QuotedFrom(s, i, collected).1 <= |s| + 1
    decreases |s| - i
  {
  }

  lemma BracketAdvances(s: string, i: nat, collected: string)
    requires i <= |s|
    ensures i < BracketFrom(s, i, collected).1 <= |s| + 1
    decreases |s| - i
  {
  }

  function Parsed(text: string): Option<Descriptor> {
    var trimmed := Trim(text);
    var end := RoleEnd(trimmed, 0);
    if end == 0 then None
    else
      var (name, flags) := PartsFrom(trimmed, end, "", map[]);
      Some(Descriptor(trimmed[..end], name, flags))
  }

  /** A quoted name, with its escapes undone, from just after the opening quote. */
  method ScanQuoted(s: string, start: nat) returns (collected: string, index: nat)
    requires start <= |s|
    ensures (collected, index) == QuotedFrom(s, start, "")
  {
    index := start;
    collected := "";
    while index < |s| && s[index] != '"'
      invariant start <= index <= |s|
      invariant QuotedFrom(s, index, collected) == QuotedFrom(s, start, "")
    {
      if s[index] == '\\' && index + 1 < |s| {
        collected := collected + [s[index + 1]];
        index := index + 2;
      } else {
        collected := collected + [s[index]];
        index := index + 1;
      }
    }
    index := index + 1;
  }

  /** A bracketed flag, from just after the opening bracket. */
  method ScanBracket(s: string, start: nat) returns (collected: string, index: nat)
    requires start <= |s|
    ensures (collected, index) == BracketFrom(s, start, "")
  {
    index := start;
    collected := "";
    while index < |s| && s[index] != ']'
      invariant start <= index <= |s|
      invariant BracketFrom(s, index, collected) == BracketFrom(s, start, "")
    {
      collected := collected + [s[index]];
      index := index + 1;
    }
    index := index + 1;
  }

  /** A flag's text, split at its first `=` if it has one. */
  method AddFlag(flags: map<string, string>, collected: string) returns (more: map<string, string>)
    ensures more == WithFlag(flags, collected)
  {
    var equals := EqualsAt(collected);
    if equals == |collected| {
      return flags[Trim(collected) := ""];
    }
    return flags[Trim(collected[..equals]) := Trim(collected[equals + 1..])];
  }

  /** The loop over the role. */
  method ScanRole(s: string) returns (index: nat)
    ensures index == RoleEnd(s, 0)
  {
    index := 0;
    while index < |s| && s[index] != ' ' && s[index] != '"' && s[index] != '['
      invariant index <= |s|
      invariant RoleEnd(s, index) == RoleEnd(s, 0)
    {
      index := index + 1;
    }
  }

  /** The loop over everything after the role. */
  method ScanParts(s: string, start: nat) returns (name: string, flags: map<string, string>)
    ensures (name, flags) == PartsFrom(s, start, "", map[])
  {
    var index := start;
    name, flags := "", map[];
    while index < |s|
      invariant PartsFrom(s, index, name, flags) == PartsFrom(s, start, "", map[])
      decreases |s| - index
    {
      if s[index] == '"' {
        QuotedAdvances(s, index + 1, "");
        name, index := ScanQuoted(s, index + 1);
      } else if s[index] == '[' {
        BracketAdvances(s, index + 1, "");
        var collected: string;
        collected, index := ScanBracket(s, index + 1);
        flags := AddFlag(flags, collected);
      } else {
        index := index + 1;
      }
    }
  }

  /** The scanner itself. */
  method ParseDescriptor(text: string) returns (r: Option<Descriptor>)
    ensures r == Parsed(text)
  {
    var trimmed := Trim(text);
    if trimmed == "" {
      return None;
    }
    var index := ScanRole(trimmed);
    var role := trimmed[..index];
    if role == "" {
      return None;
    }
    var name, flags := ScanParts(trimmed, index);
    return Some(Descriptor(role, name, flags));
  }

  // ---- the printer the scanner inverts ----

  /** A name with its quotes and backslashes escaped. */
  function Escaped(name: string): string {
    if name == "" then ""
    else (if name[0] == '"' || name[0] == '\\' then ['\\', name[0]] else [name[0]]) + Escaped(name[1..])
  }

  function FlagText(flag: (string, string)): string {
    if flag.1 == "" then flag.0 else flag.0 + "=" + flag.1
  }

  function PrintedFlag(flag: (string, string)): string { " [" + FlagText(flag) + "]" }

  function PrintedFlags(flags: seq<(string, string)>): string {
    if flags == [] then "" else PrintedFlag(flags[0]) + PrintedFlags(flags[1..])
  }

  function PrintedName(name: string): string { " \"" + Escaped(name) + "\"" }

  /** `textbox "Customer name:" [ref=e5] [checked]` */
  function Printed(role: string, name: string, flags: seq<(string, string)>): string {
    role + (PrintedName(name) + PrintedFlags(flags))
  }

  lemma Assoc(a: string, b: string, c: string)
    ensures a + (b + c) == (a + b) + c
  {
  }

  predicate PrintableRole(role: string) {
    && role != "" && !IsSpace(role[0])
    && forall i :: 0 <= i < |role| ==> role[i] != ' ' && role[i] != '"' && role[i] != '['
  }

  predicate PrintableFlag(flag: (string, string)) {
    && Trimmed(flag.0) && Trimmed(flag.1)
    && ']' !in flag.0 && ']' !in flag.1 && '=' !in flag.0
  }

  predicate DistinctKeys(flags: seq<(string, string)>) {
    forall i, j :: 0 <= i < j < |flags| ==> flags[i].0 != flags[j].0
  }

  function Added(flags: map<string, string>, more: seq<(string, string)>): map<string, string>
    decreases |more|
  {
    if more == [] then flags else Added(flags[more[0].0 := more[0].1], more[1..])
  }

  lemma {:induction false} QuotedInverts(before: string, name: string, after: string, collected: string)
    ensures var s := before + Escaped(name) + "\"" + after;
            QuotedFrom(s, |before|, collected) == (collected + name, |before| + |Escaped(name)| + 1)
    decreases |name|
  {
    var s := before + Escaped(name) + "\"" + after;
    if name == "" {
      assert s[|before|] == '"';
      assert collected + name == collected;
    } else {
      var head := if name[0] == '"' || name[0] == '\\' then ['\\', name[0]] else [name[0]];
      assert Escaped(name) == head + Escaped(name[1..]);
      assert s == (before + head) + Escaped(name[1..]) + "\"" + after;
      assert s[|before|] == head[0] && (|head| == 2 ==> s[|before| + 1] == head[1]);
      QuotedInverts(before + head, name[1..], after, collected + [name[0]]);
      assert collected + [name[0]] + name[1..] == collected + name;
    }
  }

  lemma {:induction false} BracketInverts(before: string, text: string, after: string, collected: string)
    requires ']' !in text
    ensures var s := before + text + "]" + after;
            BracketFrom(s, |before|, collected) == (collected + text, |before| + |text| + 1)
    decreases |text|
  {
    var s := before + text + "]" + after;
    if text == "" {
      assert s[|before|] == ']';
      assert collected + text == collected;
    } else {
      assert s == (before + [text[0]]) + text[1..] + "]" + after;
      assert s[|before|] == text[0];
      BracketInverts(before + [text[0]], text[1..], after, collected + [text[0]]);
      assert collected + [text[0]] + text[1..] == collected + text;
    }
  }

  lemma FlagInverts(flags: map<string, string>, flag: (string, string))
    requires PrintableFlag(flag)
    ensures WithFlag(flags, FlagText(flag)) == flags[flag.0 := flag.1]
  {
    var text := FlagText(flag);
    var equals := EqualsAt(text);
    if flag.1 == "" {
      assert equals == |text|;
      TrimOfTrimmed(flag.0);
    } else {
      assert text[|flag.0|] == '=';
      assert equals == |flag.0|;
      assert text[..equals] == flag.0 && text[equals + 1..] == flag.1;
      TrimOfTrimmed(flag.0);
      TrimOfTrimmed(flag.1);
    }
  }

  lemma SpaceThenBracket(s: string, i: nat, name: string, flags: map<string, string>)
    requires i + 1 < |s| && s[i] == ' ' && s[i + 1] == '['
    ensures var (text, next) := BracketFrom(s, i + 2, "");
            PartsFrom(s, i, name, flags) == PartsFrom(s, next, name, WithFlag(flags, text))
  {
    assert PartsFrom(s, i, name, flags) == PartsFrom(s, i + 1, name, flags);
  }

  /** The scanner at a space and a bracketed flag. */
  lemma OneFlag(before: string, flag: (string, string), after: string, name: string, flags: map<string, string>)
    requires PrintableFlag(flag)
    ensures var s := before + PrintedFlag(flag) + after;
            PartsFrom(s, |before|, name, flags) ==
            PartsFrom(s, |before + PrintedFlag(flag)|, name, flags[flag.0 := flag.1])
  {
    var s, text := before + PrintedFlag(flag) + after, FlagText(flag);
    FlagStands(before, text, after);
    FlagIsRead(before, text, after);
    SpaceThenBracket(s, |before|, name, flags);
    FlagInverts(flags, flag);
  }

  lemma FlagIsRead(before: string, text: string, after: string)
    requires ']' !in text
    ensures BracketFrom(before + (" [" + text + "]") + after, |before| + 2, "")
         == (text, |before + (" [" + text + "]")|)
  {
    FlagStands(before, text, after);
    BracketInverts(before + " [", text, after, "");
    NothingBefore(text);
  }

  /** A printed flag stands in its text as a space, a bracket, the flag and a bracket. */
  lemma FlagStands(before: string, text: string, after: string)
    ensures var s := before + (" [" + text + "]") + after;
            && s == (before + " [") + text + "]" + after
            && |before| + 1 < |s| && s[|before|] == ' ' && s[|before| + 1] == '['
  {
  }

  lemma NothingBefore(s: string)
    ensures "" + s == s
  {
  }

  lemma {:induction false} FlagsInvert(before: string, more: seq<(string, string)>, name: string, flags: map<string, string>)
    requires forall i :: 0 <= i < |more| ==> PrintableFlag(more[i])
    ensures PartsFrom(before + PrintedFlags(more), |before|, name, flags) == (name, Added(flags, more))
    decreases |more|
  {
    if more == [] {
      assert before + PrintedFlags(more) == before;
    } else {
      var after := PrintedFlags(more[1..]);
      var next := before + PrintedFlag(more[0]);
      OneFlag(before, more[0], after, name, flags);
      Assoc(before, PrintedFlag(more[0]), after);
      FlagsInvert(next, more[1..], name, flags[more[0].0 := more[0].1]);
    }
  }

  /** The scanner at a space and a quoted name. */
  lemma OneName(before: string, name: string, after: string)
    ensures var s := before + PrintedName(name) + after;
            PartsFrom(s, |before|, "", map[]) == PartsFrom(s, |before + PrintedName(name)|, name, map[])
  {
    var s := before + PrintedName(name) + after;
    assert s == (before + " \"") + Escaped(name) + "\"" + after;
    assert s[|before|] == ' ' && s[|before| + 1] == '"';
    QuotedInverts(before + " \"", name, after, "");
    assert "" + name == name;
  }

  lemma {:induction false} RoleInverts(role: string, after: string, i: nat)
    requires PrintableRole(role) && i <= |role| && after != "" && after[0] == ' '
    ensures RoleEnd(role + after, i) == |role|
    decreases |role| - i
  {
    var s := role + after;
    if i < |role| {
      assert s[i] == role[i];
      RoleInverts(role, after, i + 1);
    } else {
      assert s[i] == ' ';
    }
  }

  lemma {:induction false} PrintedEnds(flags: seq<(string, string)>)
    ensures flags != [] ==> PrintedFlags(flags) != "" && PrintedFlags(flags)[|PrintedFlags(flags)| - 1] == ']'
    decreases |flags|
  {
    if flags != [] {
      PrintedEnds(flags[1..]);
    }
  }

  /**
   Parsing what the printer prints gives back the role, the name and the flags: quotes, backslashes
   and brackets in a name survive, and so does `=` in a flag's value.
   */
  lemma ParseInvertsPrint(role: string, name: string, flags: seq<(string, string)>)
    requires PrintableRole(role)
    requires forall i :: 0 <= i < |flags| ==> PrintableFlag(flags[i])
    ensures Parsed(Printed(role, name, flags)) == Some(Descriptor(role, name, Added(map[], flags)))
  {
    var s := Printed(role, name, flags);
    PrintedIsTrimmed(role, name, flags);
    TrimOfTrimmed(s);
    RoleInverts(role, PrintedName(name) + PrintedFlags(flags), 0);
    assert s[..|role|] == role;
    Assoc(role, PrintedName(name), PrintedFlags(flags));
    OneName(role, name, PrintedFlags(flags));
    FlagsInvert(role + PrintedName(name), flags, name, map[]);
  }

  lemma PrintedIsTrimmed(role: string, name: string, flags: seq<(string, string)>)
    requires PrintableRole(role)
    ensures Trimmed(Printed(role, name, flags))
  {
    PrintedEnds(flags);
    var s := Printed(role, name, flags);
    assert s[0] == role[0];
    assert s[|s| - 1] == '"' || s[|s| - 1] == ']';
  }

  /** With distinct keys the flags that come back are exactly the ones printed. */
  lemma {:induction false} AddedExactly(flags: map<string, string>, more: seq<(string, string)>)
    requires DistinctKeys(more) && forall i :: 0 <= i < |more| ==> more[i].0 !in flags
    ensures Added(flags, more).Keys == flags.Keys + set i | 0 <= i < |more| :: more[i].0
    ensures forall i :: 0 <= i < |more| ==> more[i].0 in Added(flags, more) && Added(flags, more)[more[i].0] == more[i].1
    ensures forall k :: k in flags ==> k in Added(flags, more) && Added(flags, more)[k] == flags[k]
    decreases |more|
  {
    if more != [] {
      var flags' := flags[more[0].0 := more[0].1];
      AddedExactly(flags', more[1..]);
      assert forall i | 0 < i < |more| :: more[i] == more[1..][i - 1];
    }
  }

  // ---- elements ----

  const SNAPSHOT_ELEMENT_LIMIT: nat := 200

  const INTERACTIVE_ROLES: set<string> := {
    "button", "checkbox", "combobox", "link", "listbox", "menuitem", "menuitemcheckbox", "menuitemradio",
    "option", "radio", "searchbox", "slider", "spinbutton", "switch", "tab", "textbox"
  }

  const CHECKABLE_ROLES: set<string> := {"checkbox", "menuitemcheckbox", "menuitemradio", "radio", "switch"}

  datatype Element = Element(
    ref: string, role: string, name: string,
    value: Option<string>, disabled: bool, checked: Option<bool>)

  function First200(s: string): string { if |s| <= 200 then s else s[..200] }

  /** What YAML gives under the failsafe schema, an object's entries as `Object.entries` orders them. */
  datatype Yaml = Nothing | Text(text: string) | Items(items: seq<Yaml>) | Entries(entries: seq<(string, Yaml)>)

  function ToElement(d: Descriptor, value: Yaml): Option<Element> {
    if d.role !in INTERACTIVE_ROLES || "ref" !in d.flags || d.flags["ref"] == "" then None
    else
      Some(Element(
        d.flags["ref"], d.role, First200(d.name),
        if value.Text? && Trim(value.text) != "" then Some(First200(Trim(value.text))) else None,
        "disabled" in d.flags,
        if "checked" in d.flags then Some(d.flags["checked"] != "false")
        else if d.role in CHECKABLE_ROLES then Some(false)
        else None))
  }

  function ElementOf(key: string, value: Yaml): seq<Element> {
    match Parsed(key)
    case None => []
    case Some(d) => match ToElement(d, value) case None => [] case Some(e) => [e]
  }

  /** Every actionable element of the tree, depth first, without any limit. */
  function Flat(node: Yaml): seq<Element>
    decreases node, 1
  {
    match node
    case Nothing => []
    case Text(text) => ElementOf(text, Nothing)
    case Items(items) => FlatItems(items)
    case Entries(entries) => FlatEntries(entries)
  }

  function FlatItems(items: seq<Yaml>): seq<Element>
    decreases items, 0
  {
    if items == [] then [] else Flat(items[0]) + FlatItems(items[1..])
  }

  /** The entry's own element, and then everything inside it whether or not it was actionable. */
  function FlatEntry(entry: (string, Yaml)): seq<Element>
    decreases entry, 0
  {
    ElementOf(entry.0, entry.1) + if entry.1.Items? || entry.1.Entries? then Flat(entry.1) else []
  }

  function FlatEntries(entries: seq<(string, Yaml)>): seq<Element>
    decreases entries, 0
  {
    if entries == [] then [] else FlatEntry(entries[0]) + FlatEntries(entries[1..])
  }

  lemma {:induction false} FlatItemsSnoc(items: seq<Yaml>, item: Yaml)
    ensures FlatItems(items + [item]) == FlatItems(items) + Flat(item)
    decreases |items|
  {
    if items == [] {
      assert [item][1..] == [];
      assert items + [item] == [item];
    } else {
      assert (items + [item])[1..] == items[1..] + [item];
      FlatItemsSnoc(items[1..], item);
      Joined(Flat(items[0]), FlatItems(items[1..]), Flat(item));
    }
  }

  lemma {:induction false} FlatEntriesSnoc(entries: seq<(string, Yaml)>, entry: (string, Yaml))
    ensures FlatEntries(entries + [entry]) == FlatEntries(entries) + FlatEntry(entry)
    decreases |entries|
  {
    if entries == [] {
      assert [entry][1..] == [];
      assert entries + [entry] == [entry];
    } else {
      assert (entries + [entry])[1..] == entries[1..] + [entry];
      FlatEntriesSnoc(entries[1..], entry);
      Joined(FlatEntry(entries[0]), FlatEntries(entries[1..]), FlatEntry(entry));
    }
  }

  /** The first `SNAPSHOT_ELEMENT_LIMIT` of a list, and whether there were more. */
  predicate Bounded(elements: seq<Element>, truncated: bool, all: seq<Element>) {
    && truncated == (|all| > SNAPSHOT_ELEMENT_LIMIT)
    && elements == if truncated then all[..SNAPSHOT_ELEMENT_LIMIT] else all
  }

  /** Once it has been cut, going further changes nothing. */
  lemma BoundedStays(elements: seq<Element>, all: seq<Element>, more: seq<Element>)
    requires Bounded(elements, true, all)
    ensures Bounded(elements, true, all + more)
  {
    assert (all + more)[..SNAPSHOT_ELEMENT_LIMIT] == all[..SNAPSHOT_ELEMENT_LIMIT];
  }

  /** One more element walked: what has been walked is the list one longer. */
  lemma OneMoreItem(all: seq<Element>, items: seq<Yaml>, i: nat)
    requires i < |items|
    ensures all + FlatItems(items[..i]) + Flat(items[i]) == all + FlatItems(items[..i + 1])
  {
    FlatItemsSnoc(items[..i], items[i]);
    assert items[..i + 1] == items[..i] + [items[i]];
    Joined(all, FlatItems(items[..i]), Flat(items[i]));
  }

  lemma OneMoreEntry(all: seq<Element>, entries: seq<(string, Yaml)>, i: nat)
    requires i < |entries|
    ensures all + FlatEntries(entries[..i]) + FlatEntry(entries[i]) == all + FlatEntries(entries[..i + 1])
  {
    FlatEntriesSnoc(entries[..i], entries[i]);
    assert entries[..i + 1] == entries[..i] + [entries[i]];
    Joined(all, FlatEntries(entries[..i]), FlatEntry(entries[i]));
  }

  lemma Joined(a: seq<Element>, b: seq<Element>, c: seq<Element>)
    ensures a + b + c == a + (b + c)
  {
  }

  lemma NothingAdded(a: seq<Element>)
    ensures a + [] == a
  {
  }

  lemma AllTaken<T>(s: seq<T>)
    ensures s[..0] == [] && s[..|s|] == s
  {
  }

  /** The state of one `parseAriaSnapshot` call, and its two inner functions. */
  class Snapshot {
    var elements: seq<Element>
    var truncated: bool

    constructor ()
      ensures elements == [] && !truncated
    {
      elements, truncated := [], false;
    }

    method Push(element: Element, ghost all: seq<Element>)
      requires Bounded(elements, truncated, all)
      modifies this
      ensures Bounded(elements, truncated, all + [element])
    {
      if |elements| >= SNAPSHOT_ELEMENT_LIMIT {
        truncated := true;
        assert (all + [element])[..SNAPSHOT_ELEMENT_LIMIT] == all[..SNAPSHOT_ELEMENT_LIMIT];
        assert all[..|all|] == all;
        return;
      }
      elements := elements + [element];
    }

    method PushIfActionable(key: string, value: Yaml, ghost all: seq<Element>)
      requires Bounded(elements, truncated, all)
      modifies this
      ensures Bounded(elements, truncated, all + ElementOf(key, value))
    {
      var descriptor := ParseDescriptor(key);
      NothingAdded(all);
      if descriptor.Some? {
        var element := ToElement(descriptor.value, value);
        if element.Some? {
          Push(element.value, all);
        }
      }
    }

    method Walk(node: Yaml, ghost all: seq<Element>)
      requires Bounded(elements, truncated, all)
      modifies this
      ensures Bounded(elements, truncated, all + Flat(node))
      decreases node, 1
    {
      if truncated {
        BoundedStays(elements, all, Flat(node));
        return;
      }
      match node
      case Nothing =>
        NothingAdded(all);
      case Text(text) =>
        PushIfActionable(text, Nothing, all);
      case Items(items) =>
        WalkItems(items, all);
      case Entries(entries) =>
        WalkEntries(entries, all);
    }

    method WalkItems(items: seq<Yaml>, ghost all: seq<Element>)
      requires Bounded(elements, truncated, all)
      modifies this
      ensures Bounded(elements, truncated, all + FlatItems(items))
      decreases items, 0
    {
      AllTaken(items);
      NothingAdded(all);
      for i := 0 to |items|
        invariant Bounded(elements, truncated, all + FlatItems(items[..i]))
      {
        Walk(items[i], all + FlatItems(items[..i]));
        OneMoreItem(all, items, i);
      }
    }

    method WalkEntry(entry: (string, Yaml), ghost all: seq<Element>)
      requires Bounded(elements, truncated, all)
      modifies this
      ensures Bounded(elements, truncated, all + FlatEntry(entry))
      decreases entry, 0
    {
      var (key, value) := entry;
      ghost var own := ElementOf(key, value);
      PushIfActionable(key, value, all);
      if value.Items? || value.Entries? {
        Walk(value, all + own);
        Joined(all, own, Flat(value));
      } else {
        NothingAdded(own);
      }
    }

    method WalkEntries(entries: seq<(string, Yaml)>, ghost all: seq<Element>)
      requires Bounded(elements, truncated, all)
      modifies this
      ensures Bounded(elements, truncated, all + FlatEntries(entries))
      decreases entries, 0
    {
      AllTaken(entries);
      NothingAdded(all);
      for i := 0 to |entries|
        invariant Bounded(elements, truncated, all + FlatEntries(entries[..i]))
      {
        WalkEntry(entries[i], all + FlatEntries(entries[..i]));
        OneMoreEntry(all, entries, i);
      }
    }
  }

  /** Exactly the first 200 of the depth-first list, and `truncated` exactly when there were more. */
  method ParseAriaSnapshot(tree: Option<Yaml>) returns (elements: seq<Element>, truncated: bool)
    ensures tree.None? ==> elements == [] && !truncated
    ensures tree.Some? ==>
              && truncated == (|Flat(tree.value)| > SNAPSHOT_ELEMENT_LIMIT)
              && elements == if truncated then Flat(tree.value)[..SNAPSHOT_ELEMENT_LIMIT] else Flat(tree.value)
  {
    if tree.None? {
      return [], false;
    }
    var snapshot := new Snapshot();
    snapshot.Walk(tree.value, []);
    assert [] + Flat(tree.value) == Flat(tree.value);
    return snapshot.elements, snapshot.truncated;
  }
}
