/** What a read and a write of agent-computer/src/workspace.ts come to: which file, and which bytes. */
module WorkspaceOutcomes {
  import opened Prelude
  import opened JsText
  import opened FileTrees
  import opened Workspaces
  import opened WorkspaceConfinement

  // ---- which strings are accepted, and what they name ----

  /** Refused by its text: blank, absolute, or with a `..` between slashes of either kind. */
  lemma RefusedExactlyWhen(requested: string)
    ensures RefusedText(requested) <==>
              || AllSpace(requested)
              || (Trim(requested) != "" && Trim(requested)[0] == '/')
              || IsPiece(Trim(requested), {'/', '\\'}, "..")
  {
    BlankExactlyWhen(requested);
    SplitIs("", Trim(requested), EITHER_SLASH, "..");
    assert "" + Trim(requested) == Trim(requested);
  }

  /** The pieces that name something: not empty, and not the directory itself. */
  function Naming(pieces: seq<string>): seq<Name> {
    if pieces == [] then []
    else (if pieces[0] == "" || pieces[0] == "." then [] else [pieces[0]]) + Naming(pieces[1..])
  }

  /** What an accepted string names, from the root down. */
  function NamesIn(requested: string): seq<Name> { Naming(SplitFrom("", Trim(requested), {'/'})) }

  lemma {:induction false} NormalNames(at: Path, pieces: seq<string>)
    requires ".." !in pieces
    ensures Normal(at, pieces) == at + Naming(pieces) && AllPlain(Naming(pieces))
    decreases |pieces|
  {
    if pieces == [] {
      assert at + [] == at;
    } else {
      assert ".." !in pieces[1..];
      if pieces[0] == "" || pieces[0] == "." {
        NormalNames(at, pieces[1..]);
        assert [] + Naming(pieces[1..]) == Naming(pieces[1..]);
      } else {
        NormalNames(at + [pieces[0]], pieces[1..]);
        JoinedNames(at, [pieces[0]], Naming(pieces[1..]));
      }
    }
  }

  /** Every string that is not refused names its pieces below the root, `.` and doubled slashes left out. */
  lemma TargetIs(root: Path, requested: string)
    requires AllPlain(root)
    ensures TargetOf(root, requested) == if RefusedText(requested) then Err(PathError) else Ok(root + NamesIn(requested))
    ensures !RefusedText(requested) ==> AllPlain(NamesIn(requested))
  {
    if !RefusedText(requested) {
      var wanted := Trim(requested);
      if ".." in SplitFrom("", wanted, SLASH) {
        FinerSplit(wanted, SLASH, EITHER_SLASH, "..");
      }
      NormalNames(root, SplitFrom("", wanted, SLASH));
      InsideIsBelow(root, root + NamesIn(requested));
    }
  }

  // ---- reading ----

  /** A file that stands where an accepted string says is read, up to the limit. */
  lemma ReadsWhatIsThere(t: Tree, rootPath: Path, readBytes: nat, requested: string)
    requires TreeOk(t) && RealPath(t, rootPath).At? && !RefusedText(requested)
    requires var p := RealPath(t, rootPath).path + NamesIn(requested); p in t && !t[p].Link?
    ensures var p := RealPath(t, rootPath).path + NamesIn(requested);
            && ResolveRead(t, rootPath, requested) == Ok(p)
            && ReadOutcome(t, rootPath, readBytes, requested) ==
               if t[p].Dir? then Err(FileError)
               else if |t[p].bytes| > readBytes then Ok(Reading(t[p].bytes[..readBytes], true, |t[p].bytes|))
               else Ok(Reading(t[p].bytes, false, |t[p].bytes|))
  {
    var root := RealPath(t, rootPath).path;
    var p := root + NamesIn(requested);
    WalkIsReal(t, [], rootPath, KERNEL_LINKS);
    TargetIs(root, requested);
    assert [] + p == p;
    RealIsFixed(t, [], p, KERNEL_LINKS);
    InsideIsBelow(root, p);
  }

  /** Every read, by where the name leads: nowhere, outside, to a directory, or to a file's first bytes. */
  lemma ReadIs(t: Tree, rootPath: Path, readBytes: nat, requested: string)
    requires TreeOk(t)
    ensures var r := ReadOutcome(t, rootPath, readBytes, requested);
            if RefusedText(requested) then r == Err(PathError)
            else if RealPath(t, rootPath).Lost? then r == Err(SystemError)
            else
              var root := RealPath(t, rootPath).path;
              match RealPath(t, root + NamesIn(requested))
              case Lost => r == Err(FileError)
              case At(p, _) =>
                && p in t && !t[p].Link?
                && r == if !(root <= p) then Err(PathError)
                        else if t[p].Dir? then Err(FileError)
                        else if |t[p].bytes| > readBytes then Ok(Reading(t[p].bytes[..readBytes], true, |t[p].bytes|))
                        else Ok(Reading(t[p].bytes, false, |t[p].bytes|))
  {
    WalkIsReal(t, [], rootPath, KERNEL_LINKS);
    if RealPath(t, rootPath).At? && !RefusedText(requested) {
      var root := RealPath(t, rootPath).path;
      TargetIs(root, requested);
      var p := root + NamesIn(requested);
      WalkIsReal(t, [], p, KERNEL_LINKS);
      if RealPath(t, p).At? {
        InsideIsBelow(root, RealPath(t, p).path);
      }
    }
  }

  // ---- writing where nothing stands in the way ----

  /** Whatever there is of this path is directories. */
  predicate Passable(t: Tree, p: Path) {
    forall j :: 0 <= j <= |p| && p[..j] in t ==> t[p[..j]].Dir?
  }

  lemma PassableParent(t: Tree, p: Path)
    requires Passable(t, p)
    ensures Passable(t, Parent(p))
  {
    assert forall j | 0 <= j <= |Parent(p)| :: Parent(p)[..j] == p[..j];
  }

  /** `mkdir -p` of a passable path succeeds, and looking it up fails unless it is all there. */
  lemma {:induction false} PassableOpens(t: Tree, at: Path, rest: seq<Name>, links: nat)
    requires at in t && t[at].Dir? && AllPlain(rest) && Passable(t, at + rest)
    ensures MakeDirs(t, at, rest, links).Some?
    ensures at + rest !in t && (forall q :: q in t && q != [] ==> Parent(q) in t) ==> Walk(t, at, rest, links).Lost?
    decreases |rest|
  {
    if rest == [] {
      assert at + rest == at;
    } else {
      var next := at + [rest[0]];
      assert next + rest[1..] == at + rest;
      assert (at + rest)[..|next|] == next;
      if next in t {
        PassableOpens(t, next, rest[1..], links);
      } else {
        NewIsPassable(t, next, at + rest);
        PassableOpens(t[next := Dir], next, rest[1..], links);
      }
    }
  }

  lemma NewIsPassable(t: Tree, next: Path, p: Path)
    requires Passable(t, p)
    ensures Passable(t[next := Dir], p)
  {
  }

  lemma {:induction false} NearestOpens(t: Tree, root: Path, current: Path)
    requires TreeOk(t) && root in t && t[root].Dir? && AllPlain(current) && root <= current && Passable(t, current)
    ensures NearestAncestor(t, root, current).Ok?
    ensures root <= NearestAncestor(t, root, current).value <= current
    decreases |current|
  {
    assert [] + current == current;
    assert current[..|current|] == current;
    if current in t {
      RealIsFixed(t, [], current, KERNEL_LINKS);
    } else {
      PassableOpens(t, [], current, KERNEL_LINKS);
      PassableParent(t, current);
      BelowParent(root, current);
      InsideIsBelow(root, Parent(current));
      NearestOpens(t, root, Parent(current));
    }
  }

  /** The walk to the directory of an accepted name that can be written: its anchor, and no link at its end. */
  lemma PlainResolves(t: Tree, root: Path, f: Path)
    requires TreeOk(t) && root in t && t[root].Dir? && AllPlain(f) && root < f
    requires Passable(t, Parent(f)) && (f in t ==> t[f].File?)
    ensures AnchorOf(t, root, f).Ok? && Inside(root, AnchorOf(t, root, f).value)
    ensures Follow(t, f).None? && Destination(t, root, f) == Ok(f)
  {
    var dir := Parent(f);
    BelowParent(root, f);
    if dir in t {
      assert dir[..|dir|] == dir;
      AnchorStands(t, root, f);
      StopsAt(t, f);
    } else {
      assert [] + dir == dir;
      PassableOpens(t, [], dir, KERNEL_LINKS);
      NearestOpens(t, root, dir);
      InsideIsBelow(root, NearestAncestor(t, root, dir).value);
    }
  }

  lemma PlainLands(t: Tree, root: Path, f: Path, contents: Bytes, append: bool)
    requires TreeOk(t) && root in t && t[root].Dir? && AllPlain(f) && root < f
    requires Passable(t, Parent(f)) && (f in t ==> t[f].File?)
    ensures WriteAt(t, f, contents, append).landed == Ok(f)
  {
    var dir := Parent(f);
    PlainResolves(t, root, f);
    assert [] + dir == dir;
    if dir in t {
      assert dir[..|dir|] == dir;
      RealIsFixed(t, [], dir, KERNEL_LINKS);
      LandsInDir(t, f, contents, append);
      ParentAndLast(f);
    } else {
      PassableOpens(t, [], dir, KERNEL_LINKS);
      BelowParent(root, f);
      NearestOpens(t, root, dir);
      var k := LandsInNewDirs(t, root, f, contents, append);
      PrefixStands(t, f, k);
      Cut(f, k);
    }
  }

  /** A part of a passable path that resolves is itself where it leads. */
  lemma PrefixStands(t: Tree, f: Path, k: nat)
    requires TreeOk(t) && AllPlain(f) && k < |f| && Passable(t, Parent(f)) && RealPath(t, f[..k]).At?
    ensures RealPath(t, f[..k]).path == f[..k]
  {
    var p := f[..k];
    assert Parent(f)[..k] == p && [] + p == p;
    assert Passable(t, p) by {
      assert forall j | 0 <= j <= k :: p[..j] == Parent(f)[..j];
    }
    if p in t {
      RealIsFixed(t, [], p, KERNEL_LINKS);
    } else {
      PassableOpens(t, [], p, KERNEL_LINKS);
    }
  }

  /**
   A write within the limit to an accepted name whose way is free, and that is new or a file, succeeds
   and lands exactly there, whatever directories were missing.
   */
  lemma PlainWriteLands(t: Tree, rootPath: Path, writeBytes: nat, requested: string, contents: Bytes, append: bool)
    requires TreeOk(t) && RealPath(t, rootPath).At?
    requires RealPath(t, rootPath).path in t && t[RealPath(t, rootPath).path].Dir?
    requires !RefusedText(requested) && NamesIn(requested) != [] && |contents| <= writeBytes
    requires var f := RealPath(t, rootPath).path + NamesIn(requested);
             Passable(t, Parent(f)) && (f in t ==> t[f].File?)
    ensures var f, o := RealPath(t, rootPath).path + NamesIn(requested),
                        WriteOutcome(t, rootPath, writeBytes, requested, contents, append);
            && o.landed == Ok(f) && f in o.tree
            && o.tree[f] == File(if append && f in t then t[f].bytes + contents else contents)
  {
    WriteIsConfined(t, rootPath, writeBytes, requested, contents, append);
    var root := RealPath(t, rootPath).path;
    var f := root + NamesIn(requested);
    WalkIsReal(t, [], rootPath, KERNEL_LINKS);
    TargetIs(root, requested);
    PlainResolves(t, root, f);
    PlainLands(t, root, f, contents, append);
  }

  /** Where a link with a plain target points. */
  function PointsTo(t: Tree, f: Path): Path
    requires f in t && t[f].Link?
  {
    (if t[f].target.absolute then [] else Parent(f)) + t[f].target.comps
  }

  /** A link whose plain target stands inside the root is followed: the write lands in the target. */
  lemma LinkedWriteLands(t: Tree, rootPath: Path, writeBytes: nat, requested: string, contents: Bytes, append: bool, dest: Path)
    requires TreeOk(t) && RealPath(t, rootPath).At?
    requires !RefusedText(requested) && NamesIn(requested) != [] && |contents| <= writeBytes
    requires var f := RealPath(t, rootPath).path + NamesIn(requested);
             f in t && t[f].Link? && AllPlain(t[f].target.comps) && t[f].target.comps != [] && dest == PointsTo(t, f)
    requires RealPath(t, rootPath).path <= Parent(dest) && Parent(dest) in t && t[Parent(dest)].Dir?
    requires dest in t ==> t[dest].File?
    ensures var o := WriteOutcome(t, rootPath, writeBytes, requested, contents, append);
            && o.landed == Ok(dest) && dest in o.tree
            && o.tree[dest] == File(if append && dest in t then t[dest].bytes + contents else contents)
  {
    WriteIsConfined(t, rootPath, writeBytes, requested, contents, append);
    var root := RealPath(t, rootPath).path;
    var f := root + NamesIn(requested);
    WalkIsReal(t, [], rootPath, KERNEL_LINKS);
    TargetIs(root, requested);
    LinkResolves(t, root, f, dest);
    StopsAt(t, dest);
    ParentAndLast(dest);
    LandsInDir(t, dest, contents, append);
  }

  lemma LinkResolves(t: Tree, root: Path, f: Path, dest: Path)
    requires TreeOk(t) && root < f && f in t && t[f].Link? && AllPlain(t[f].target.comps) && t[f].target.comps != []
    requires dest == PointsTo(t, f) && root <= Parent(dest) && Parent(dest) in t && t[Parent(dest)].Dir?
    requires dest in t ==> t[dest].File?
    ensures AnchorOf(t, root, f).Ok? && Inside(root, AnchorOf(t, root, f).value)
    ensures dest != [] && AllPlain(dest) && Destination(t, root, f) == Ok(dest)
  {
    FollowsTo(t, f, dest);
    StopsAt(t, dest);
    BelowParent(root, f);
    AnchorStands(t, root, f);
    TwoHops(t, f, dest);
    InsideParentAndSelf(root, dest);
    DestinationIs(t, root, f, dest);
  }

  lemma DestinationIs(t: Tree, root: Path, f: Path, dest: Path)
    requires WriteDest(t, f, 0) == Ok(dest) && dest != [] && dest != f
    requires RealPath(t, Parent(dest)) == At(Parent(dest), KERNEL_LINKS)
    requires Inside(root, Parent(dest)) && Inside(root, dest)
    ensures Destination(t, root, f) == Ok(dest)
  {
    ParentAndLast(dest);
  }

  lemma InsideParentAndSelf(root: Path, p: Path)
    requires AllPlain(p) && p != [] && root <= Parent(p)
    ensures Inside(root, Parent(p)) && Inside(root, p)
  {
    ParentAndLast(p);
    InsideIsBelow(root, Parent(p));
    InsideIsBelow(root, p);
  }

  /** A directory that is there is its own anchor. */
  lemma AnchorStands(t: Tree, root: Path, f: Path)
    requires TreeOk(t) && f != [] && root <= Parent(f) && Parent(f) in t && t[Parent(f)].Dir?
    ensures AnchorOf(t, root, f) == Ok(Parent(f)) && Inside(root, Parent(f))
  {
    assert [] + Parent(f) == Parent(f);
    RealIsFixed(t, [], Parent(f), KERNEL_LINKS);
    InsideIsBelow(root, Parent(f));
  }

  lemma TwoHops(t: Tree, f: Path, dest: Path)
    requires Follow(t, f) == Some(dest) && Follow(t, dest).None?
    ensures WriteDest(t, f, 0) == Ok(dest)
  {
    assert WriteDest(t, dest, 1) == Ok(dest);
  }

  lemma BelowParent(root: Path, f: Path)
    requires root <= f && f != root
    ensures root <= Parent(f)
  {
    assert f[..|root|] == root && f[..|f|] == f;
  }

  /** One hop over a link with a plain target. */
  lemma FollowsTo(t: Tree, f: Path, dest: Path)
    requires TreeOk(t) && f in t && f != [] && t[f].Link? && AllPlain(t[f].target.comps)
    requires dest == PointsTo(t, f)
    ensures Follow(t, f) == Some(dest) && AllPlain(dest) && Parent(f) in t && t[Parent(f)].Dir? && !t[Parent(f)].Link?
  {
    LinkIsThere(t, f);
    PointsPlainly(t, f);
  }

  /** An entry of the disk is where `lstat` finds it. */
  lemma LinkIsThere(t: Tree, f: Path)
    requires TreeOk(t) && f in t && f != []
    ensures Lstat(t, f) == Some(f)
  {
    var dir := Parent(f);
    assert [] + dir == dir;
    RealIsFixed(t, [], dir, KERNEL_LINKS);
    ParentAndLast(f);
  }

  lemma PointsPlainly(t: Tree, f: Path)
    requires TreeOk(t) && f in t && t[f].Link? && AllPlain(t[f].target.comps)
    ensures Normal(if t[f].target.absolute then [] else Parent(f), t[f].target.comps) == PointsTo(t, f)
    ensures AllPlain(PointsTo(t, f))
  {
    AllNaming(t[f].target.comps);
    NormalNames(if t[f].target.absolute then [] else Parent(f), t[f].target.comps);
  }

  lemma {:induction false} AllNaming(names: seq<Name>)
    requires AllPlain(names)
    ensures Naming(names) == names && ".." !in names
    decreases |names|
  {
    if names != [] {
      AllNaming(names[1..]);
    }
  }

  lemma StopsAt(t: Tree, dest: Path)
    requires TreeOk(t) && dest != [] && Parent(dest) in t && t[Parent(dest)].Dir? && (dest in t ==> t[dest].File?)
    ensures Follow(t, dest).None? && RealPath(t, Parent(dest)) == At(Parent(dest), KERNEL_LINKS)
  {
    var dir := Parent(dest);
    assert [] + dir == dir;
    RealIsFixed(t, [], dir, KERNEL_LINKS);
    ParentAndLast(dest);
  }

  // ---- the bytes ----

  /** Too much, a refused string or a missing workspace: each is refused in its turn, and changes nothing. */
  lemma NothingIsWritten(t: Tree, rootPath: Path, writeBytes: nat, requested: string, contents: Bytes, append: bool)
    requires TreeOk(t)
    ensures var o := WriteOutcome(t, rootPath, writeBytes, requested, contents, append);
            && (|contents| > writeBytes ==> o == Outcome(t, Err(FileError)))
            && (|contents| <= writeBytes && RefusedText(requested) ==> o == Outcome(t, Err(PathError)))
            && (|contents| <= writeBytes && !RefusedText(requested) && RealPath(t, rootPath).Lost? ==>
                  o == Outcome(t, Err(SystemError)))
  {
    if RealPath(t, rootPath).At? {
      WalkIsReal(t, [], rootPath, KERNEL_LINKS);
      TargetIs(RealPath(t, rootPath).path, requested);
    }
  }

  /** Where the name's directory, its chain of links or their end leads out or nowhere, a write is refused and changes nothing. */
  lemma EscapesAreRefused(t: Tree, rootPath: Path, writeBytes: nat, requested: string, contents: Bytes, append: bool, n: nat)
    requires TreeOk(t) && RealPath(t, rootPath).At? && !RefusedText(requested) && |contents| <= writeBytes
    ensures var root := RealPath(t, rootPath).path;
            var f := root + NamesIn(requested);
            (|| (RealPath(t, Parent(f)).At? && !(root <= RealPath(t, Parent(f)).path))
             || (forall m: nat :: m <= MAX_LINK_HOPS ==> !SettlesAfter(t, f, m))
             || (n <= MAX_LINK_HOPS && SettlesAfter(t, f, n) && FollowN(t, f, n).value != f
                 && !HeldBelow(t, root, FollowN(t, f, n).value))) ==>
              WriteOutcome(t, rootPath, writeBytes, requested, contents, append) == Outcome(t, Err(PathError))
  {
    var root := RealPath(t, rootPath).path;
    var f := root + NamesIn(requested);
    WalkIsReal(t, [], rootPath, KERNEL_LINKS);
    TargetIs(root, requested);
    NearestErrs(t, root, Parent(f));
    ChainSettles(t, f, 0);
    ChainErrs(t, f, 0);
    HeldIsInside(t, root, Parent(f));
    if n <= MAX_LINK_HOPS && SettlesAfter(t, f, n) {
      assert n + 0 <= MAX_LINK_HOPS;
      HeldIsInside(t, root, Parent(FollowN(t, f, n).value));
    }
  }

  /** The directory of a path resolves, to a place at or below the root. */
  predicate HeldBelow(t: Tree, root: Path, p: Path) {
    RealPath(t, Parent(p)).At? && root <= RealPath(t, Parent(p)).path
  }

  lemma HeldIsInside(t: Tree, root: Path, dir: Path)
    requires TreeOk(t)
    ensures RealPath(t, dir).At? ==> (Inside(root, RealPath(t, dir).path) <==> root <= RealPath(t, dir).path)
  {
    WalkIsReal(t, [], dir, KERNEL_LINKS);
    if RealPath(t, dir).At? {
      InsideIsBelow(root, RealPath(t, dir).path);
    }
  }

  lemma {:induction false} NearestErrs(t: Tree, root: Path, current: Path)
    ensures NearestAncestor(t, root, current).Err? ==> NearestAncestor(t, root, current) == Err(PathError)
    decreases |current|
  {
    if current != [] {
      NearestErrs(t, root, Parent(current));
    }
  }

  lemma {:induction false} ChainErrs(t: Tree, p: Path, hop: nat)
    requires hop <= MAX_LINK_HOPS + 1
    ensures WriteDest(t, p, hop).Err? ==> WriteDest(t, p, hop) == Err(PathError)
    decreases MAX_LINK_HOPS + 1 - hop
  {
    if hop <= MAX_LINK_HOPS && Follow(t, p).Some? {
      ChainErrs(t, Follow(t, p).value, hop + 1);
    }
  }

  /** After a write to a name that is no link, the file stands in the real directory of the name. */
  lemma TargetStands(t: Tree, root: Path, target: Path, contents: Bytes, append: bool)
    requires TreeOk(t) && AllPlain(target) && target != [] && Follow(t, target).None?
    requires AnchorOf(t, root, target).Ok? && WriteAt(t, target, contents, append).landed.Ok?
    ensures var o := WriteAt(t, target, contents, append);
            && TreeOk(o.tree) && Extends(t, o.tree)
            && RealPath(o.tree, Parent(target)).At?
            && RealPath(o.tree, Parent(target)).path + [Last(target)] == o.landed.value
            && o.landed.value in o.tree && o.tree[o.landed.value].File?
  {
    var o := WriteAt(t, target, contents, append);
    var dir := Parent(target);
    if RealPath(t, dir).At? {
      LandsInDir(t, target, contents, append);
      ShapeConfined(t, [], o, RealPath(t, dir).path, [Last(target)], contents, append);
      WalkExtends(t, o.tree, [], dir, KERNEL_LINKS);
    } else {
      var k := LandsInNewDirs(t, root, target, contents, append);
      var q, left := RealPath(t, target[..k]).path, RealPath(t, target[..k]).links;
      ShapeConfined(t, [], o, q, target[k..], contents, append);
      WalkExtends(t, o.tree, [], target[..k], KERNEL_LINKS);
      ParentStands(t, o, q, left, target, k);
    }
  }

  lemma ParentStands(t: Tree, o: Outcome, q: Path, left: nat, target: Path, k: nat)
    requires TreeOk(o.tree) && AllPlain(target) && k + 1 < |target|
    requires RealPath(o.tree, target[..k]) == At(q, left) && q in o.tree && o.tree[q].Dir?
    requires [] in o.tree && o.tree[[]].Dir? && o.landed == Ok(q + target[k..]) && q + target[k..] in o.tree
    ensures RealPath(o.tree, Parent(target)).At?
    ensures RealPath(o.tree, Parent(target)).path + [Last(target)] == q + target[k..]
  {
    var dir, loc := Parent(target), q + target[k..];
    CutInParent(target, k);
    Cut(dir, k);
    assert Parent(loc) == q + dir[k..];
    RealIsFixed(o.tree, q, dir[k..], left);
    WalkAppend(o.tree, [], dir[..k], dir[k..], KERNEL_LINKS);
    assert q + dir[k..] + [Last(target)] == loc;
  }

  /**
   Writing, then appending, then reading one name that is no link gives back both contents joined, up to
   the limit of a read.
   */
  lemma WriteAppendRead(t: Tree, rootPath: Path, writeBytes: nat, readBytes: nat, requested: string, first: Bytes, second: Bytes)
    requires TreeOk(t) && RealPath(t, rootPath).At? && !RefusedText(requested)
    requires Follow(t, RealPath(t, rootPath).path + NamesIn(requested)).None?
    requires WriteOutcome(t, rootPath, writeBytes, requested, first, false).landed.Ok?
    requires var t' := WriteOutcome(t, rootPath, writeBytes, requested, first, false).tree;
             WriteOutcome(t', rootPath, writeBytes, requested, second, true).landed.Ok?
    ensures var t' := WriteOutcome(t, rootPath, writeBytes, requested, first, false).tree;
            var t'' := WriteOutcome(t', rootPath, writeBytes, requested, second, true).tree;
            var all := first + second;
            && ReadOutcome(t', rootPath, readBytes, requested) ==
               (if |first| > readBytes then Ok(Reading(first[..readBytes], true, |first|))
                else Ok(Reading(first, false, |first|)))
            && ReadOutcome(t'', rootPath, readBytes, requested) ==
               (if |all| > readBytes then Ok(Reading(all[..readBytes], true, |all|))
                else Ok(Reading(all, false, |all|)))
  {
    var root := RealPath(t, rootPath).path;
    var target := root + NamesIn(requested);
    WalkIsReal(t, [], rootPath, KERNEL_LINKS);
    TargetIs(root, requested);
    var o1 := WriteOutcome(t, rootPath, writeBytes, requested, first, false);
    var o2 := WriteOutcome(o1.tree, rootPath, writeBytes, requested, second, true);
    WriteIsConfined(t, rootPath, writeBytes, requested, first, false);
    WalkExtends(t, o1.tree, [], rootPath, KERNEL_LINKS);
    ReadBack(t, rootPath, writeBytes, requested, first, false);
    OnceWritten(t, rootPath, writeBytes, requested, first, false);
    AgainWritten(o1.tree, rootPath, writeBytes, requested, second, o1.landed.value);
    WriteIsConfined(o1.tree, rootPath, writeBytes, requested, second, true);
    ReadBack(o1.tree, rootPath, writeBytes, requested, second, true);
  }

  lemma OnceWritten(t: Tree, rootPath: Path, writeBytes: nat, requested: string, contents: Bytes, append: bool)
    requires TreeOk(t) && RealPath(t, rootPath).At? && !RefusedText(requested)
    requires Follow(t, RealPath(t, rootPath).path + NamesIn(requested)).None?
    requires WriteOutcome(t, rootPath, writeBytes, requested, contents, append).landed.Ok?
    ensures var o := WriteOutcome(t, rootPath, writeBytes, requested, contents, append);
            var target := RealPath(t, rootPath).path + NamesIn(requested);
            && target != [] && RealPath(o.tree, Parent(target)).At?
            && RealPath(o.tree, Parent(target)).path + [Last(target)] == o.landed.value
            && Follow(o.tree, target).None?
  {
    var root := RealPath(t, rootPath).path;
    var target := root + NamesIn(requested);
    WalkIsReal(t, [], rootPath, KERNEL_LINKS);
    TargetIs(root, requested);
    if target == [] {
      RootIsNoFile(t, contents, append);
    } else {
      TargetStands(t, root, target, contents, append);
      FileIsNoLink(WriteOutcome(t, rootPath, writeBytes, requested, contents, append).tree, target);
    }
  }

  lemma FileIsNoLink(t: Tree, target: Path)
    requires target != [] && RealPath(t, Parent(target)).At?
    requires var p := RealPath(t, Parent(target)).path + [Last(target)]; p in t && t[p].File?
    ensures Follow(t, target).None?
  {
  }

  lemma AgainWritten(t: Tree, rootPath: Path, writeBytes: nat, requested: string, contents: Bytes, p: Path)
    requires TreeOk(t) && RealPath(t, rootPath).At? && !RefusedText(requested)
    requires var target := RealPath(t, rootPath).path + NamesIn(requested);
             && target != [] && RealPath(t, Parent(target)).At? && Follow(t, target).None?
             && RealPath(t, Parent(target)).path + [Last(target)] == p
    requires WriteOutcome(t, rootPath, writeBytes, requested, contents, true).landed.Ok?
    ensures WriteOutcome(t, rootPath, writeBytes, requested, contents, true).landed == Ok(p)
  {
    var root := RealPath(t, rootPath).path;
    WalkIsReal(t, [], rootPath, KERNEL_LINKS);
    TargetIs(root, requested);
    LandsInDir(t, root + NamesIn(requested), contents, true);
  }
}
