/** Descriptors with any number of names and flags, in any order and with anything else between them. */
module AriaParts {
  import opened Prelude
  import opened JsText
  import opened AriaSnapshots
  import opened AriaElements

  /** What may follow a role: a quoted name, a bracketed flag, or a character that is neither's beginning. */
  datatype Part = Name(text: string) | Flag(flag: (string, string)) | Between(c: char)

  predicate Printable(p: Part) {
    match p
    case Name(_) => true
    case Flag(flag) => PrintableFlag(flag)
    case Between(c) => c != '"' && c != '['
  }

  function PrintedPart(p: Part): string {
    match p
    case Name(text) => "\"" + (Escaped(text) + "\"")
    case Flag(flag) => "[" + (FlagText(flag) + "]")
    case Between(c) => [c]
  }

  function PrintedParts(parts: seq<Part>): string {
    if parts == [] then "" else PrintedPart(parts[0]) + PrintedParts(parts[1..])
  }

  /** The last name, or this one when there is none. */
  predicate LastName(parts: seq<Part>, otherwise: string, name: string) {
    if forall i :: 0 <= i < |parts| ==> !parts[i].Name? then name == otherwise
    else exists i :: 0 <= i < |parts| && parts[i] == Name(name) && forall j :: i < j < |parts| ==> !parts[j].Name?
  }

  function FlagsOf(parts: seq<Part>): seq<(string, string)> {
    if parts == [] then [] else (if parts[0].Flag? then [parts[0].flag] else []) + FlagsOf(parts[1..])
  }

  /** A quoted name in its text, from just after its opening quote. */
  lemma NameIsRead(before: string, text: string, after: string)
    ensures var s, p := before + PrintedPart(Name(text)) + after, before + PrintedPart(Name(text));
            |before| < |p| <= |s| && s[|before|] == '"' && QuotedFrom(s, |before| + 1, "") == (text, |p|)
  {
    var s := before + PrintedPart(Name(text)) + after;
    assert s == (before + "\"") + Escaped(text) + "\"" + after;
    QuotedInverts(before + "\"", text, after, "");
    NothingBefore(text);
  }

  lemma FlagTextIsRead(before: string, flag: (string, string), after: string)
    requires PrintableFlag(flag)
    ensures var s, p := before + PrintedPart(Flag(flag)) + after, before + PrintedPart(Flag(flag));
            |before| < |p| <= |s| && s[|before|] == '[' && BracketFrom(s, |before| + 1, "") == (FlagText(flag), |p|)
  {
    var s := before + PrintedPart(Flag(flag)) + after;
    assert s == (before + "[") + FlagText(flag) + "]" + after;
    BracketInverts(before + "[", FlagText(flag), after, "");
    NothingBefore(FlagText(flag));
  }

  lemma OtherIsThere(before: string, c: char, after: string)
    ensures var s, p := before + PrintedPart(Between(c)) + after, before + PrintedPart(Between(c));
            |before| + 1 == |p| <= |s| && s[|before|] == c
  {
  }

  /** Where the scanner stands after one part, and what it has read. */
  lemma OnePart(before: string, p: Part, after: string, name: string, flags: map<string, string>)
    requires Printable(p)
    ensures PartsFrom(before + PrintedPart(p) + after, |before|, name, flags) ==
            PartsFrom(before + PrintedPart(p) + after, |before + PrintedPart(p)|,
                      if p.Name? then p.text else name,
                      if p.Flag? then flags[p.flag.0 := p.flag.1] else flags)
  {
    match p
    case Name(text) => NameIsRead(before, text, after);
    case Flag(flag) =>
      FlagTextIsRead(before, flag, after);
      FlagInverts(flags, flag);
    case Between(c) => OtherIsThere(before, c, after);
  }

  lemma LastNameCons(parts: seq<Part>, otherwise: string, name: string)
    requires parts != [] && LastName(parts[1..], if parts[0].Name? then parts[0].text else otherwise, name)
    ensures LastName(parts, otherwise, name)
  {
    var rest := parts[1..];
    assert forall i | 0 <= i < |rest| :: rest[i] == parts[i + 1];
    assert forall i | 0 < i < |parts| :: parts[i] == rest[i - 1];
    if exists i :: 0 <= i < |rest| && rest[i].Name? {
      var i :| 0 <= i < |rest| && rest[i] == Name(name) && forall j :: i < j < |rest| ==> !rest[j].Name?;
      assert parts[i + 1] == Name(name);
    } else if parts[0].Name? {
      assert parts[0] == Name(name);
    }
  }

  lemma {:induction false} PartsInvert(before: string, parts: seq<Part>, name: string, flags: map<string, string>)
    requires forall i :: 0 <= i < |parts| ==> Printable(parts[i])
    ensures var (last, all) := PartsFrom(before + PrintedParts(parts), |before|, name, flags);
            LastName(parts, name, last) && all == Added(flags, FlagsOf(parts))
    decreases |parts|
  {
    if parts == [] {
      assert before + PrintedParts(parts) == before;
    } else {
      var p, after := parts[0], PrintedParts(parts[1..]);
      var name' := if p.Name? then p.text else name;
      var flags' := if p.Flag? then flags[p.flag.0 := p.flag.1] else flags;
      OnePart(before, p, after, name, flags);
      Assoc(before, PrintedPart(p), after);
      PartsInvert(before + PrintedPart(p), parts[1..], name', flags');
      LastNameCons(parts, name, PartsFrom(before + PrintedParts(parts), |before|, name, flags).0);
      FlagsCons(parts, flags);
    }
  }

  lemma FlagsCons(parts: seq<Part>, flags: map<string, string>)
    requires parts != []
    ensures Added(flags, FlagsOf(parts)) ==
            Added(if parts[0].Flag? then flags[parts[0].flag.0 := parts[0].flag.1] else flags, FlagsOf(parts[1..]))
  {
    if parts[0].Flag? {
      assert FlagsOf(parts)[1..] == FlagsOf(parts[1..]);
    } else {
      assert FlagsOf(parts) == FlagsOf(parts[1..]);
    }
  }

  /**
   Whatever follows the role, the last name counts, every flag is kept under its key, the last of a key
   counts, and everything between them is skipped.
   */
  lemma ParseInvertsParts(role: string, parts: seq<Part>)
    requires PrintableRole(role) && forall i :: 0 <= i < |parts| ==> Printable(parts[i])
    requires parts != [] && parts[0].Between? ==> parts[0].c == ' '
    requires Trimmed(role + PrintedParts(parts))
    ensures var d := Parsed(role + PrintedParts(parts));
            && d.Some? && d.value.role == role && LastName(parts, "", d.value.name)
            && d.value.flags == Added(map[], FlagsOf(parts))
  {
    var s := role + PrintedParts(parts);
    TrimOfTrimmed(s);
    RoleStops(s, 0);
    RoleStands(role, PrintedParts(parts));
    PartsInvert(role, parts, "", map[]);
  }

  /** The role is all there is before the first part. */
  lemma RoleStands(role: string, rest: string)
    requires PrintableRole(role) && (rest == "" || rest[0] == ' ' || rest[0] == '"' || rest[0] == '[')
    ensures RoleEnd(role + rest, 0) == |role| && (role + rest)[..|role|] == role
  {
    var s := role + rest;
    RoleStops(s, 0);
    assert forall i | 0 <= i < |role| :: s[i] == role[i];
    assert rest != "" ==> s[|role|] == rest[0];
  }
}
