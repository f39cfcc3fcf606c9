/** Where a write through the workspace lands, for every filesystem and every requested string. */
module WorkspaceConfinement {
  import opened Prelude
  import opened JsText
  import opened FileTrees
  import opened Workspaces

  // ---- the text ----

  lemma {:induction false} NormalIsPlain(at: Path, rest: seq<Name>)
    requires AllPlain(at)
    ensures AllPlain(Normal(at, rest))
    ensures ".." !in rest ==> at <= Normal(at, rest)
    decreases |rest|
  {
    if rest != [] {
      assert ".." !in rest ==> ".." !in rest[1..];
      if rest[0] == "" || rest[0] == "." {
        NormalIsPlain(at, rest[1..]);
      } else if rest[0] == ".." {
        NormalIsPlain(Parent(at), rest[1..]);
      } else {
        NormalIsPlain(at + [rest[0]], rest[1..]);
      }
    }
  }

  lemma {:induction false} CommonPrefix(a: Path, b: Path)
    ensures Common(a, b) == |a| <==> a <= b
    decreases |a|
  {
    if a != [] && b != [] && a[0] == b[0] {
      CommonPrefix(a[1..], b[1..]);
      assert a == [a[0]] + a[1..] && b == [b[0]] + b[1..];
    }
  }

  /** The comparison by `relative` is being below the root, name by name. */
  lemma InsideIsBelow(root: Path, candidate: Path)
    requires AllPlain(candidate)
    ensures Inside(root, candidate) <==> root <= candidate
  {
    CommonPrefix(root, candidate);
    var n := Common(root, candidate);
    var rel := Relative(root, candidate);
    if n < |root| {
      assert rel[0] == "..";
    } else if rel != [] {
      assert rel[0] == candidate[n];
    }
  }

  /** A target that passed the checks on its text is under the root, textually. */
  lemma TargetIsBelow(root: Path, requested: string)
    requires AllPlain(root) && TargetOf(root, requested).Ok?
    ensures AllPlain(TargetOf(root, requested).value) && root <= TargetOf(root, requested).value
  {
    var wanted := Trim(requested);
    if ".." in SplitFrom("", wanted, SLASH) {
      FinerSplit(wanted, SLASH, EITHER_SLASH, "..");
    }
    NormalIsPlain(root, SplitFrom("", wanted, SLASH));
  }

  // ---- the chain of links ----

  /** Following exactly `n` links from a path; None when one of them is not a link. */
  function FollowN(t: Tree, p: Path, n: nat): Option<Path>
    decreases n
  {
    if n == 0 then Some(p)
    else
      match Follow(t, p)
      case None => None
      case Some(q) => FollowN(t, q, n - 1)
  }

  /** After `n` links from `p` there is nothing more to follow. */
  predicate SettlesAfter(t: Tree, p: Path, n: nat) {
    FollowN(t, p, n).Some? && Follow(t, FollowN(t, p, n).value).None?
  }

  /** A chain is accepted exactly when it settles within MAX_LINK_HOPS links, and where it settles. */
  lemma {:induction false} ChainSettles(t: Tree, p: Path, hop: nat)
    requires hop <= MAX_LINK_HOPS + 1
    ensures WriteDest(t, p, hop).Ok? <==> exists n: nat :: n + hop <= MAX_LINK_HOPS && SettlesAfter(t, p, n)
    ensures forall n: nat :: n + hop <= MAX_LINK_HOPS && SettlesAfter(t, p, n) ==>
              WriteDest(t, p, hop) == Ok(FollowN(t, p, n).value)
    decreases MAX_LINK_HOPS + 1 - hop
  {
    if hop <= MAX_LINK_HOPS {
      match Follow(t, p) {
        case None =>
          assert SettlesAfter(t, p, 0);
        case Some(q) =>
          ChainSettles(t, q, hop + 1);
          forall n: nat
            ensures SettlesAfter(t, p, n) <==> n > 0 && SettlesAfter(t, q, n - 1)
          {
          }
          if WriteDest(t, q, hop + 1).Ok? {
            var m: nat :| m + hop + 1 <= MAX_LINK_HOPS && SettlesAfter(t, q, m);
            assert SettlesAfter(t, p, m + 1);
          }
      }
    }
  }

  lemma {:induction false} WriteDestIsPlain(t: Tree, p: Path, hop: nat)
    requires hop <= MAX_LINK_HOPS + 1 && AllPlain(p) && WriteDest(t, p, hop).Ok?
    ensures AllPlain(WriteDest(t, p, hop).value) && Follow(t, WriteDest(t, p, hop).value).None?
    decreases MAX_LINK_HOPS + 1 - hop
  {
    match Follow(t, p) {
      case None =>
      case Some(q) =>
        var link := t[Lstat(t, p).value].target;
        NormalIsPlain(if link.absolute then [] else Parent(p), link.comps);
        WriteDestIsPlain(t, q, hop + 1);
    }
  }

  // ---- one write ----

  function Last(p: Path): Name
    requires p != []
  {
    p[|p| - 1]
  }

  lemma ParentAndLast(p: Path)
    requires p != []
    ensures p == Parent(p) + [Last(p)]
  {
  }

  lemma Cut(p: Path, k: nat)
    requires k <= |p|
    ensures p[..k] + p[k..] == p
  {
  }

  /** Cutting a path inside its directory. */
  lemma CutInParent(p: Path, k: nat)
    requires k < |p|
    ensures p[..k] == Parent(p)[..k] && p[k..] == Parent(p)[k..] + [Last(p)]
  {
  }

  lemma OneName(names: seq<Name>)
    requires |names| == 1
    ensures names == [names[0]]
  {
  }

  /** A write whose directory exists: it goes into the real directory, or nothing happens. */
  lemma LandsInDir(t: Tree, full: Path, contents: Bytes, append: bool)
    requires TreeOk(t) && AllPlain(full) && full != [] && Follow(t, full).None?
    requires RealPath(t, Parent(full)).At?
    ensures var q := RealPath(t, Parent(full)).path;
            var loc := q + [Last(full)];
            && q in t && AllPlain(loc)
            && WriteAt(t, full, contents, append) ==
               if t[q].Dir? && (loc !in t || t[loc].File?)
               then Outcome(t[loc := File(NewBytes(t, loc, contents, append))], Ok(loc))
               else Outcome(t, Err(SystemError))
  {
    var q := RealPath(t, Parent(full)).path;
    var loc := q + [Last(full)];
    WalkIsReal(t, [], Parent(full), KERNEL_LINKS);
    MakeDirsExisting(t, [], Parent(full), KERNEL_LINKS);
    if t[q].Dir? {
      ParentAndLast(full);
      LandingAppend(t, [], Parent(full), Last(full), KERNEL_LINKS);
    }
  }

  /** The nearest ancestor that resolves is the end of the longest prefix that does. */
  lemma {:induction false} NearestIsLongest(t: Tree, root: Path, current: Path, k: nat)
    requires k <= |current| && RealPath(t, current[..k]).At?
    requires forall j :: k < j <= |current| ==> RealPath(t, current[..j]).Lost?
    requires NearestAncestor(t, root, current).Ok?
    ensures NearestAncestor(t, root, current) == Ok(RealPath(t, current[..k]).path)
    decreases |current|
  {
    assert current[..|current|] == current;
    if k < |current| {
      assert forall j | 0 <= j < |current| :: Parent(current)[..j] == current[..j];
      NearestIsLongest(t, root, Parent(current), k);
    }
  }

  /** What a write into directories that were not there does to the disk. */
  ghost predicate MadeUnder(t: Tree, o: Outcome, q: Path, names: seq<Name>, contents: Bytes) {
    && |names| >= 2 && AllPlain(names) && q in t && t[q].Dir? && q + [names[0]] !in t
    && o.landed == Ok(q + names)
    && o.tree == WithDirs(t, q, names[..|names| - 1])[q + names := File(contents)]
  }

  /**
   A write whose directory does not exist: everything is made under its closest existing ancestor,
   which is where the first `k` names of the path lead.
   */
  lemma LandsInNewDirs(t: Tree, root: Path, full: Path, contents: Bytes, append: bool) returns (k: nat)
    requires TreeOk(t) && AllPlain(full) && full != []
    requires RealPath(t, Parent(full)).Lost? && NearestAncestor(t, root, Parent(full)).Ok?
    ensures var o := WriteAt(t, full, contents, append);
            if MakeDirs(t, [], Parent(full), KERNEL_LINKS).None? then o == Outcome(t, Err(SystemError))
            else
              && k < |full| && RealPath(t, full[..k]).At?
              && RealPath(t, full[..k]).path == NearestAncestor(t, root, Parent(full)).value
              && MadeUnder(t, o, RealPath(t, full[..k]).path, full[k..], contents)
  {
    var dir := Parent(full);
    k := 0;
    if MakeDirs(t, [], dir, KERNEL_LINKS).Some? {
      k := MakeDirsSplit(t, [], dir, KERNEL_LINKS);
      SplitIsNearest(t, root, dir, k);
      NewDirsUnder(t, full, k, contents, append);
      CutInParent(full, k);
    }
  }

  lemma SplitIsNearest(t: Tree, root: Path, dir: Path, k: nat)
    requires Splits(t, [], dir, KERNEL_LINKS, k) && NearestAncestor(t, root, dir).Ok?
    ensures RealPath(t, dir[..k]).At? && NearestAncestor(t, root, dir).value == RealPath(t, dir[..k]).path
  {
    NearestIsLongest(t, root, dir, k);
  }

  lemma NewDirsUnder(t: Tree, full: Path, k: nat, contents: Bytes, append: bool)
    requires TreeOk(t) && AllPlain(full) && full != [] && Splits(t, [], Parent(full), KERNEL_LINKS, k)
    ensures k < |Parent(full)| && RealPath(t, Parent(full)[..k]).At?
    ensures MadeUnder(t, WriteAt(t, full, contents, append), RealPath(t, Parent(full)[..k]).path, full[k..], contents)
  {
    ParentAndLast(full);
    CutInParent(full, k);
    NewDirsOutcome(t, Parent(full), k, Last(full), contents, append);
  }

  lemma NewDirsOutcome(t: Tree, dir: Path, k: nat, n: Name, contents: Bytes, append: bool)
    requires TreeOk(t) && AllPlain(dir) && Plain(n) && Splits(t, [], dir, KERNEL_LINKS, k)
    ensures MadeUnder(t, WriteAt(t, dir + [n], contents, append), RealPath(t, dir[..k]).path, dir[k..] + [n], contents)
  {
    var q := RealPath(t, dir[..k]).path;
    var dirs := dir[k..];
    var names := dirs + [n];
    OpensInNewDir(t, dir, k, n);
    FreshFile(t, q, dirs, n);
    assert Parent(dir + [n]) == dir;
    assert names[..|names| - 1] == dirs && names[0] == dirs[0] == dir[k];
    assert q + dirs + [n] == q + names;
  }

  /** Opening a new name in the deepest directory that was just made creates it there. */
  lemma OpensInNewDir(t: Tree, dir: Path, k: nat, n: Name)
    requires TreeOk(t) && AllPlain(dir) && Plain(n) && Splits(t, [], dir, KERNEL_LINKS, k)
    ensures var q := RealPath(t, dir[..k]).path;
            && MakeDirs(t, [], dir, KERNEL_LINKS) == Some(WithDirs(t, q, dir[k..]))
            && Landing(WithDirs(t, q, dir[k..]), [], dir + [n], KERNEL_LINKS) == Some(q + dir[k..] + [n])
  {
    var q, left := RealPath(t, dir[..k]).path, RealPath(t, dir[..k]).links;
    var dirs := dir[k..];
    var made := WithDirs(t, q, dirs);
    WithDirsOk(t, q, dirs);
    WalkExtends(t, made, [], dir[..k], KERNEL_LINKS);
    RealIsFixed(made, q, dirs, left);
    Cut(dir, k);
    WalkAppend(made, [], dir[..k], dirs, KERNEL_LINKS);
    LandingAppend(made, [], dir, n, KERNEL_LINKS);
    FreshFile(t, q, dirs, n);
  }

  /** In the deepest of the new directories there is nothing yet. */
  lemma FreshFile(t: Tree, q: Path, dirs: seq<Name>, n: Name)
    requires TreeOk(t) && dirs != [] && q + [dirs[0]] !in t
    ensures q + dirs + [n] !in WithDirs(t, q, dirs)
  {
    var loc := q + dirs + [n];
    WithDirsAdds(t, q, dirs, loc);
    NothingUnderMissing(t, q + [dirs[0]]);
    assert q + [dirs[0]] <= loc;
  }

  // ---- confinement ----

  /** Entry `p` of the disk is new, or different, after the write. */
  predicate Touched(t: Tree, t': Tree, p: Path) {
    p in t' && (p !in t || t'[p] != t[p])
  }

  /** Every entry the write made or changed is a real one below the root, and nothing is gone. */
  ghost predicate Confined(t: Tree, root: Path, t': Tree) {
    && TreeOk(t') && Extends(t, t')
    && forall p :: Touched(t, t', p) ==> root < p && !t'[p].Link?
  }

  lemma OneFileConfined(t: Tree, root: Path, q: Path, n: Name, contents: Bytes)
    requires TreeOk(t) && q in t && t[q].Dir? && root <= q && Plain(n)
    requires q + [n] !in t || t[q + [n]].File?
    ensures Confined(t, root, t[q + [n] := File(contents)])
  {
    var loc := q + [n];
    assert Parent(loc) == q;
    assert AllPlain(loc);
    forall p | p in t && p != []
      ensures Parent(p) != loc
    {
    }
  }

  lemma NewDirsConfined(t: Tree, root: Path, q: Path, names: seq<Name>, o: Outcome, contents: Bytes)
    requires TreeOk(t) && root <= q && MadeUnder(t, o, q, names, contents)
    ensures Confined(t, root, o.tree)
  {
    var dirs := names[..|names| - 1];
    var made := WithDirs(t, q, dirs);
    assert q + names == q + dirs + [Last(names)];
    assert Confined(made, root, o.tree) by {
      WithDirsOk(t, q, dirs);
      FreshFile(t, q, dirs, Last(names));
      OneFileConfined(made, root, q + dirs, Last(names), contents);
    }
    assert Extends(t, made) by {
      WithDirsOk(t, q, dirs);
    }
    ExtendsTwice(t, made, o.tree);
    forall p | Touched(t, o.tree, p)
      ensures root < p && !o.tree[p].Link?
    {
      NewDirTouched(t, root, q, dirs, q + names, contents, p);
    }
  }

  lemma ExtendsTwice(a: Tree, b: Tree, c: Tree)
    requires Extends(a, b) && Extends(b, c)
    ensures Extends(a, c)
  {
  }

  lemma NewDirTouched(t: Tree, root: Path, q: Path, dirs: seq<Name>, file: Path, contents: Bytes, p: Path)
    requires root <= q && q + dirs < file && Touched(t, WithDirs(t, q, dirs)[file := File(contents)], p)
    ensures root < p && !WithDirs(t, q, dirs)[file := File(contents)][p].Link?
  {
    WithDirsAdds(t, q, dirs, p);
    assert q < file;
  }

  lemma RootIsNoFile(t: Tree, contents: Bytes, append: bool)
    requires TreeOk(t)
    ensures WriteAt(t, [], contents, append) == Outcome(t, Err(SystemError))
  {
  }

  /** What a write into a directory that was there does to the disk. */
  ghost predicate PutInto(t: Tree, o: Outcome, q: Path, n: Name, contents: Bytes, append: bool) {
    && q in t && t[q].Dir? && Plain(n) && (q + [n] !in t || t[q + [n]].File?)
    && o == Outcome(t[q + [n] := File(NewBytes(t, q + [n], contents, append))], Ok(q + [n]))
  }

  /** The three things a write can do, given the real directory `q` it works from. */
  ghost predicate Shape(t: Tree, o: Outcome, q: Path, names: seq<Name>, contents: Bytes, append: bool) {
    || o == Outcome(t, Err(SystemError))
    || (|names| == 1 && PutInto(t, o, q, names[0], contents, append))
    || MadeUnder(t, o, q, names, contents)
  }

  /** A write to an accepted path works from a real directory at or below the root. */
  lemma WriteShape(t: Tree, root: Path, target: Path, contents: Bytes, append: bool) returns (q: Path, names: seq<Name>)
    requires TreeOk(t) && root in t && !t[root].Link? && AllPlain(target) && root <= target
    requires AnchorOf(t, root, target).Ok? && Inside(root, AnchorOf(t, root, target).value)
    requires Destination(t, root, target).Ok?
    ensures root <= q
    ensures Shape(t, WriteAt(t, Destination(t, root, target).value, contents, append), q, names, contents, append)
  {
    var landing := WriteDest(t, target, 0).value;
    WriteDestIsPlain(t, target, 0);
    if landing == target {
      q, names := PlainWriteShape(t, root, target, contents, append);
    } else {
      q, names := LinkedWriteShape(t, root, landing, contents, append);
    }
  }

  /** The target is not a link: the bytes go there. */
  lemma PlainWriteShape(t: Tree, root: Path, target: Path, contents: Bytes, append: bool) returns (q: Path, names: seq<Name>)
    requires TreeOk(t) && AllPlain(target) && Follow(t, target).None?
    requires AnchorOf(t, root, target).Ok? && Inside(root, AnchorOf(t, root, target).value)
    ensures root <= q
    ensures Shape(t, WriteAt(t, target, contents, append), q, names, contents, append)
  {
    q, names := root, [];
    if target == [] {
      RootIsNoFile(t, contents, append);
    } else {
      q := AnchorOf(t, root, target).value;
      AnchorIsReal(t, root, Parent(target));
      InsideIsBelow(root, q);
      if RealPath(t, Parent(target)).At? {
        LandsInDir(t, target, contents, append);
        names := [Last(target)];
      } else {
        var k := LandsInNewDirs(t, root, target, contents, append);
        names := if k <= |target| then target[k..] else [];
      }
    }
  }

  /** A link was followed to `landing`: the bytes go to that name in the real directory holding it. */
  lemma LinkedWriteShape(t: Tree, root: Path, landing: Path, contents: Bytes, append: bool) returns (q: Path, names: seq<Name>)
    requires TreeOk(t) && AllPlain(landing) && Follow(t, landing).None?
    requires RealPath(t, Parent(landing)).At? && Inside(root, RealPath(t, Parent(landing)).path)
    ensures root <= q
    ensures var full := if landing == [] then RealPath(t, Parent(landing)).path
                        else RealPath(t, Parent(landing)).path + [Last(landing)];
            Shape(t, WriteAt(t, full, contents, append), q, names, contents, append)
  {
    q, names := RealPath(t, Parent(landing)).path, [];
    WalkIsReal(t, [], Parent(landing), KERNEL_LINKS);
    InsideIsBelow(root, q);
    if landing == [] {
      RootIsNoFile(t, contents, append);
    } else {
      names := [Last(landing)];
      RealNameWrite(t, q, Last(landing), contents, append);
    }
  }

  /** A write straight to a name in a real place, when that name is not a link. */
  lemma RealNameWrite(t: Tree, q: Path, n: Name, contents: Bytes, append: bool)
    requires TreeOk(t) && q in t && !t[q].Link? && Plain(n)
    requires q + [n] in t ==> !t[q + [n]].Link?
    ensures Shape(t, WriteAt(t, q + [n], contents, append), q, [n], contents, append)
  {
    var full := q + [n];
    assert AllPlain(full) && Parent(full) == q && Last(full) == n;
    assert RealPath(t, q) == At(q, KERNEL_LINKS) by {
      assert [] + q == q;
      RealIsFixed(t, [], q, KERNEL_LINKS);
    }
    assert Follow(t, full).None?;
    LandsInDir(t, full, contents, append);
  }

  lemma ShapeConfined(t: Tree, root: Path, o: Outcome, q: Path, names: seq<Name>, contents: Bytes, append: bool)
    requires TreeOk(t) && root <= q && Shape(t, o, q, names, contents, append)
    ensures Confined(t, root, o.tree)
  {
    if o != Outcome(t, Err(SystemError)) {
      if |names| == 1 {
        OneName(names);
        OneFileConfined(t, root, q, names[0], NewBytes(t, q + [names[0]], contents, append));
      } else {
        NewDirsConfined(t, root, q, names, o, contents);
      }
    }
  }

  /** A successful write changed one file, and otherwise only made the directories on the way to it. */
  ghost predicate LandedOnce(t: Tree, o: Outcome, contents: Bytes, append: bool) {
    && o.landed.Ok?
    && var p := o.landed.value;
       && (p in t ==> t[p].File?)
       && p in o.tree && o.tree[p] == (if append && p in t then File(t[p].bytes + contents) else File(contents))
       && forall x :: Touched(t, o.tree, x) && x != p ==> o.tree[x].Dir? && x < p
  }

  lemma ShapeLandsOnce(t: Tree, o: Outcome, q: Path, names: seq<Name>, contents: Bytes, append: bool)
    requires TreeOk(t) && Shape(t, o, q, names, contents, append) && o.landed.Ok?
    ensures o.landed.value == q + names && LandedOnce(t, o, contents, append)
  {
    if |names| == 1 {
      OneName(names);
    } else {
      var dirs := names[..|names| - 1];
      FreshFile(t, q, dirs, Last(names));
      assert q + names == q + dirs + [Last(names)];
      WithDirsAdds(t, q, dirs, q + names);
      forall x | Touched(t, o.tree, x) && x != q + names
        ensures o.tree[x].Dir? && x < q + names
      {
        WithDirsAdds(t, q, dirs, x);
      }
    }
  }

  lemma {:induction false} AnchorIsReal(t: Tree, root: Path, dir: Path)
    requires TreeOk(t)
    ensures RealPath(t, dir).At? ==> RealPath(t, dir).path in t && !t[RealPath(t, dir).path].Link?
    ensures NearestAncestor(t, root, dir).Ok? ==>
              NearestAncestor(t, root, dir).value in t && !t[NearestAncestor(t, root, dir).value].Link?
    decreases |dir|
  {
    WalkIsReal(t, [], dir, KERNEL_LINKS);
    if RealPath(t, dir).Lost? && dir != [] {
      AnchorIsReal(t, root, Parent(dir));
    }
  }

  /**
   For every disk and every requested string, whatever a write makes or changes lies, fully resolved,
   below the real root, also when the write fails half way; and a write that succeeds changed one
   file, which now holds the new bytes, and otherwise only made the directories leading to it.
   */
  lemma WriteIsConfined(t: Tree, rootPath: Path, writeBytes: nat, requested: string, contents: Bytes, append: bool)
    requires TreeOk(t)
    ensures var o := WriteOutcome(t, rootPath, writeBytes, requested, contents, append);
            && (o.landed.Ok? ==> RealPath(t, rootPath).At? && RealPath(t, rootPath).path <= o.landed.value)
            && (o.landed.Ok? ==> LandedOnce(t, o, contents, append))
            && (if RealPath(t, rootPath).At? then Confined(t, RealPath(t, rootPath).path, o.tree) else o.tree == t)
  {
    WalkIsReal(t, [], rootPath, KERNEL_LINKS);
    if RealPath(t, rootPath).At? && |contents| <= writeBytes && ResolveWrite(t, rootPath, requested).Ok? {
      var root := RealPath(t, rootPath).path;
      TargetIsBelow(root, requested);
      var target := TargetOf(root, requested).value;
      var o := WriteAt(t, Destination(t, root, target).value, contents, append);
      var q, names := WriteShape(t, root, target, contents, append);
      ShapeConfined(t, root, o, q, names, contents, append);
      if o.landed.Ok? {
        ShapeLandsOnce(t, o, q, names, contents, append);
      }
    }
  }

  /** A read is answered only from a real entry at or below the root. */
  lemma ReadIsConfined(t: Tree, rootPath: Path, requested: string)
    requires TreeOk(t) && ResolveRead(t, rootPath, requested).Ok?
    ensures var q := ResolveRead(t, rootPath, requested).value;
            && RealPath(t, rootPath).At? && RealPath(t, rootPath).path <= q
            && q in t && !t[q].Link?
  {
    var root := RealPath(t, rootPath).path;
    var target := TargetOf(root, requested).value;
    WalkIsReal(t, [], rootPath, KERNEL_LINKS);
    WalkIsReal(t, [], target, KERNEL_LINKS);
    InsideIsBelow(root, RealPath(t, target).path);
  }

  // ---- reading back ----

  /** After a write to a name that is not a link, looking the name up finds the file it landed in. */
  lemma TargetResolvesTo(t: Tree, root: Path, target: Path, contents: Bytes, append: bool)
    requires TreeOk(t) && AllPlain(target) && target != [] && Follow(t, target).None?
    requires AnchorOf(t, root, target).Ok?
    requires WriteAt(t, target, contents, append).landed.Ok?
    ensures var o := WriteAt(t, target, contents, append);
            RealPath(o.tree, target).At? && RealPath(o.tree, target).path == o.landed.value
  {
    var o := WriteAt(t, target, contents, append);
    var dir := Parent(target);
    if RealPath(t, dir).At? {
      ParentAndLast(target);
      LandsInDir(t, target, contents, append);
      ShapeConfined(t, [], o, RealPath(t, dir).path, [Last(target)], contents, append);
      WalkExtends(t, o.tree, [], dir, KERNEL_LINKS);
      WalkAppend(o.tree, [], dir, [Last(target)], KERNEL_LINKS);
    } else {
      var k := LandsInNewDirs(t, root, target, contents, append);
      var q, left := RealPath(t, target[..k]).path, RealPath(t, target[..k]).links;
      ShapeConfined(t, [], o, q, target[k..], contents, append);
      WalkExtends(t, o.tree, [], target[..k], KERNEL_LINKS);
      Cut(target, k);
      WalkAppend(o.tree, [], target[..k], target[k..], KERNEL_LINKS);
      RealIsFixed(o.tree, q, target[k..], left);
    }
  }

  /**
   When the requested name is not itself a link, a successful write is followed by a read of the same
   string that finds the file just written.
   */
  lemma ReadBack(t: Tree, rootPath: Path, writeBytes: nat, requested: string, contents: Bytes, append: bool)
    requires TreeOk(t) && RealPath(t, rootPath).At?
    requires TargetOf(RealPath(t, rootPath).path, requested).Ok?
    requires Follow(t, TargetOf(RealPath(t, rootPath).path, requested).value).None?
    requires WriteOutcome(t, rootPath, writeBytes, requested, contents, append).landed.Ok?
    ensures var o := WriteOutcome(t, rootPath, writeBytes, requested, contents, append);
            ResolveRead(o.tree, rootPath, requested) == Ok(o.landed.value)
  {
    var o := WriteOutcome(t, rootPath, writeBytes, requested, contents, append);
    var root := RealPath(t, rootPath).path;
    var target := TargetOf(root, requested).value;
    WalkIsReal(t, [], rootPath, KERNEL_LINKS);
    TargetIsBelow(root, requested);
    WriteIsConfined(t, rootPath, writeBytes, requested, contents, append);
    WalkExtends(t, o.tree, [], rootPath, KERNEL_LINKS);
    if target == [] {
      RootIsNoFile(t, contents, append);
    } else {
      TargetResolvesTo(t, root, target, contents, append);
      InsideIsBelow(root, o.landed.value);
    }
  }
}
