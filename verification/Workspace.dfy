/** agent-computer/src/workspace.ts: a Bot's requested path, and where a write to it lands. */
module Workspaces {
  import opened Prelude
  import opened JsText
  import opened FileTrees

  /** WorkspacePathError, WorkspaceFileError, or an error of the filesystem call itself. */
  datatype Refusal = PathError | FileError | SystemError

  /** MAX_LINK_HOPS */
  const MAX_LINK_HOPS: nat := 32

  // ---- node:path ----

  const SLASH: set<char> := {'/'}
  const EITHER_SLASH: set<char> := {'/', '\\'}

  /** `resolve(at, ...)`: purely textual, so `..` takes off a name whatever that name is on disk. */
  function Normal(at: Path, rest: seq<Name>): Path
    decreases |rest|
  {
    if rest == [] then at
    else if rest[0] == "" || rest[0] == "." then Normal(at, rest[1..])
    else if rest[0] == ".." then Normal(Parent(at), rest[1..])
    else Normal(at + [rest[0]], rest[1..])
  }

  function Common(a: Path, b: Path): nat
    ensures Common(a, b) <= |a| && Common(a, b) <= |b|
  {
    if a != [] && b != [] && a[0] == b[0] then 1 + Common(a[1..], b[1..]) else 0
  }

  /** `relative(root, candidate)`: up from the root to the common part, then down. */
  function Relative(root: Path, candidate: Path): seq<Name> {
    var n := Common(root, candidate);
    seq(|root| - n, _ => "..") + candidate[n..]
  }

  /** `assertInside`: not outside as `relative` shows it. */
  predicate Inside(root: Path, candidate: Path) {
    var rel := Relative(root, candidate);
    rel == [] || rel[0] != ".."
  }

  // ---- the two walks ----

  /** The closest ancestor that exists, and never one textually above the root. */
  function NearestAncestor(t: Tree, root: Path, current: Path): Result<Path, Refusal>
    decreases |current|
  {
    match RealPath(t, current)
    case At(q, _) => Ok(q)
    case Lost =>
      if current == [] || !Inside(root, Parent(current)) then Err(PathError)
      else NearestAncestor(t, root, Parent(current))
  }

  /** The place a link at `current` names, or None when what is there is not a link. */
  function Follow(t: Tree, current: Path): Option<Path> {
    match Lstat(t, current)
    case None => None
    case Some(entry) =>
      if entry in t && t[entry].Link?
      then Some(Normal(if t[entry].target.absolute then [] else Parent(current), t[entry].target.comps))
      else None
  }

  function WriteDest(t: Tree, current: Path, hop: nat): Result<Path, Refusal>
    requires hop <= MAX_LINK_HOPS + 1
    decreases MAX_LINK_HOPS + 1 - hop
  {
    if hop > MAX_LINK_HOPS then Err(PathError)
    else
      match Follow(t, current)
      case None => Ok(current)
      case Some(next) => WriteDest(t, next, hop + 1)
  }

  // ---- resolvePath ----

  /** Refused by its text alone: empty, absolute, or with a `..` between separators of either kind. */
  predicate RefusedText(requested: string) {
    var wanted := Trim(requested);
    wanted == "" || wanted[0] == '/' || ".." in SplitFrom("", wanted, EITHER_SLASH)
  }

  /** The checks on the text, and the target it names under the real root. */
  function TargetOf(root: Path, requested: string): Result<Path, Refusal> {
    if RefusedText(requested) then Err(PathError)
    else
      var target := Normal(root, SplitFrom("", Trim(requested), SLASH));
      if Inside(root, target) then Ok(target) else Err(PathError)
  }

  function ResolveRead(t: Tree, rootPath: Path, requested: string): Result<Path, Refusal> {
    match RealPath(t, rootPath)
    case Lost => if RefusedText(requested) then Err(PathError) else Err(SystemError)
    case At(root, _) =>
      match TargetOf(root, requested)
      case Err(e) => Err(e)
      case Ok(target) =>
        match RealPath(t, target)
        case Lost => Err(FileError)
        case At(q, _) => if Inside(root, q) then Ok(q) else Err(PathError)
  }

  /** The directory a write is anchored in: the real parent, or its closest existing ancestor. */
  function AnchorOf(t: Tree, root: Path, target: Path): Result<Path, Refusal> {
    match RealPath(t, Parent(target))
    case At(q, _) => Ok(q)
    case Lost => NearestAncestor(t, root, Parent(target))
  }

  /** The last step: the target itself, or the contained destination of the link that sits there. */
  function Destination(t: Tree, root: Path, target: Path): Result<Path, Refusal> {
    match WriteDest(t, target, 0)
    case Err(e) => Err(e)
    case Ok(landing) =>
      if landing == target then Ok(target)
      else
        match RealPath(t, Parent(landing))
        case Lost => Err(PathError)
        case At(holder, _) =>
          var resolved := if landing == [] then holder else holder + [landing[|landing| - 1]];
          if Inside(root, holder) && Inside(root, resolved) then Ok(resolved) else Err(PathError)
  }

  function ResolveWrite(t: Tree, rootPath: Path, requested: string): Result<Path, Refusal> {
    match RealPath(t, rootPath)
    case Lost => if RefusedText(requested) then Err(PathError) else Err(SystemError)
    case At(root, _) =>
      match TargetOf(root, requested)
      case Err(e) => Err(e)
      case Ok(target) =>
        match AnchorOf(t, root, target)
        case Err(e) => Err(e)
        case Ok(anchor) =>
          if Inside(root, anchor) then Destination(t, root, target) else Err(PathError)
  }

  // ---- write ----

  /** The disk afterwards, and the file the bytes went to. */
  datatype Outcome = Outcome(tree: Tree, landed: Result<Path, Refusal>)

  /** A file's bytes after opening it with `a` or with `w`. */
  function NewBytes(t: Tree, p: Path, contents: Bytes, append: bool): Bytes {
    if append && p in t && t[p].File? then t[p].bytes + contents else contents
  }

  /** `mkdir(dirname(full), recursive)` and then `writeFile(full)`. */
  function WriteAt(t: Tree, full: Path, contents: Bytes, append: bool): Outcome {
    match MakeDirs(t, [], Parent(full), KERNEL_LINKS)
    case None => Outcome(t, Err(SystemError))
    case Some(made) =>
      match Landing(made, [], full, KERNEL_LINKS)
      case None => Outcome(made, Err(SystemError))
      case Some(p) => Outcome(made[p := File(NewBytes(made, p, contents, append))], Ok(p))
  }

  function WriteOutcome(t: Tree, rootPath: Path, writeBytes: nat, requested: string, contents: Bytes, append: bool): Outcome {
    if |contents| > writeBytes then Outcome(t, Err(FileError))
    else
      match ResolveWrite(t, rootPath, requested)
      case Err(e) => Outcome(t, Err(e))
      case Ok(full) => WriteAt(t, full, contents, append)
  }

  datatype Reading = Reading(text: Bytes, truncated: bool, bytes: nat)

  class Workspace {
    const rootPath: Path
    const readBytes: nat
    const writeBytes: nat
    /** The disk this workspace lives on. */
    var tree: Tree

    constructor (rootPath: Path, readBytes: nat, writeBytes: nat, tree: Tree)
      ensures this.rootPath == rootPath && this.readBytes == readBytes && this.writeBytes == writeBytes
      ensures this.tree == tree
    {
      this.rootPath, this.readBytes, this.writeBytes, this.tree := rootPath, readBytes, writeBytes, tree;
    }

    /** Walks up until something resolves; ends because every turn takes a name off. */
    method NearestExistingAncestor(root: Path, target: Path) returns (r: Result<Path, Refusal>)
      ensures r == NearestAncestor(tree, root, target)
    {
      var current := target;
      while true
        invariant NearestAncestor(tree, root, current) == NearestAncestor(tree, root, target)
        decreases |current|
      {
        match RealPath(tree, current) {
          case At(q, _) => return Ok(q);
          case Lost =>
            var parent := Parent(current);
            if parent == current {
              return Err(PathError);
            }
            if !Inside(root, parent) {
              return Err(PathError);
            }
            current := parent;
        }
      }
    }

    /** Follows at most MAX_LINK_HOPS links from `target`; a longer chain is refused. */
    method WriteDestination(target: Path) returns (r: Result<Path, Refusal>)
      ensures r == WriteDest(tree, target, 0)
    {
      var current := target;
      for hop := 0 to MAX_LINK_HOPS + 1
        invariant WriteDest(tree, target, 0) == WriteDest(tree, current, hop)
      {
        var entry := Lstat(tree, current);
        if entry.None? || entry.value !in tree || !tree[entry.value].Link? {
          return Ok(current);
        }
        var link := tree[entry.value].target;
        current := Normal(if link.absolute then [] else Parent(current), link.comps);
      }
      return Err(PathError);
    }

    method ResolvePath(requested: string, forWrite: bool) returns (r: Result<Path, Refusal>)
      ensures r == if forWrite then ResolveWrite(tree, rootPath, requested) else ResolveRead(tree, rootPath, requested)
    {
      var realRoot := RealPath(tree, rootPath);
      if realRoot.Lost? {
        return if RefusedText(requested) then Err(PathError) else Err(SystemError);
      }
      var root := realRoot.path;
      var target := TargetOf(root, requested);
      if target.Err? {
        return Err(target.error);
      }
      if !forWrite {
        var found := RealPath(tree, target.value);
        if found.Lost? {
          return Err(FileError);
        }
        return if Inside(root, found.path) then Ok(found.path) else Err(PathError);
      }
      var anchored := RealPath(tree, Parent(target.value));
      var anchor: Path;
      if anchored.At? {
        anchor := anchored.path;
      } else {
        var nearest := NearestExistingAncestor(root, Parent(target.value));
        if nearest.Err? {
          return nearest;
        }
        anchor := nearest.value;
      }
      if !Inside(root, anchor) {
        return Err(PathError);
      }
      var landing := WriteDestination(target.value);
      if landing.Err? || landing.value == target.value {
        return landing;
      }
      var holder := RealPath(tree, Parent(landing.value));
      if holder.Lost? || !Inside(root, holder.path) {
        return Err(PathError);
      }
      var resolved := if landing.value == [] then holder.path
                      else holder.path + [landing.value[|landing.value| - 1]];
      return if Inside(root, resolved) then Ok(resolved) else Err(PathError);
    }

    /** Writes the file and reports how many bytes it was given; the disk becomes what `WriteOutcome` says. */
    method Write(requested: string, contents: Bytes, append: bool) returns (r: Result<nat, Refusal>)
      modifies this
      ensures var o := WriteOutcome(old(tree), rootPath, writeBytes, requested, contents, append);
              && tree == o.tree
              && (r.Ok? <==> o.landed.Ok?)
              && (r.Ok? ==> r.value == |contents| <= writeBytes)
              && (r.Err? ==> r.error == o.landed.error)
    {
      if |contents| > writeBytes {
        return Err(FileError);
      }
      var full := ResolvePath(requested, true);
      if full.Err? {
        return Err(full.error);
      }
      var made := MakeDirs(tree, [], Parent(full.value), KERNEL_LINKS);
      if made.None? {
        return Err(SystemError);
      }
      tree := made.value;
      var p := Landing(tree, [], full.value, KERNEL_LINKS);
      if p.None? {
        return Err(SystemError);
      }
      tree := tree[p.value := File(NewBytes(tree, p.value, contents, append))];
      return Ok(|contents|);
    }

    /** The first `readBytes` bytes of a file, whether there were more, and how many there are. */
    method Read(requested: string) returns (r: Result<Reading, Refusal>)
      ensures r == ReadOutcome(tree, rootPath, readBytes, requested)
    {
      var full := ResolvePath(requested, false);
      if full.Err? {
        return Err(full.error);
      }
      if full.value !in tree || !tree[full.value].File? {
        return Err(FileError);
      }
      var buffer := tree[full.value].bytes;
      var slice := if |buffer| <= readBytes then buffer else buffer[..readBytes];
      return Ok(Reading(slice, |buffer| > |slice|, |buffer|));
    }
  }

  function ReadOutcome(t: Tree, rootPath: Path, readBytes: nat, requested: string): Result<Reading, Refusal> {
    match ResolveRead(t, rootPath, requested)
    case Err(e) => Err(e)
    case Ok(p) =>
      if p !in t || !t[p].File? then Err(FileError)
      else if |t[p].bytes| <= readBytes then Ok(Reading(t[p].bytes, false, |t[p].bytes|))
      else Ok(Reading(t[p].bytes[..readBytes], true, |t[p].bytes|))
  }
}
