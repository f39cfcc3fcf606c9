/**
 The parts of a POSIX filesystem that agent-computer/src/workspace.ts relies on: a tree of
 directories, files and links of any kind (dangling, cyclic, absolute, with `..` in them), and the
 calls `realpath`, `lstat`, `mkdir -p` and an opening write over it.
 */
module FileTrees {
  import opened Prelude

  type Name = string
  /** An absolute path, as the names on the way down from `/`. */
  type Path = seq<Name>
  type Bytes = seq<bv8>

  datatype Target = Target(absolute: bool, comps: seq<Name>)
  datatype Node = Dir | File(bytes: Bytes) | Link(target: Target)
  type Tree = map<Path, Node>

  /** How many links the kernel follows in one lookup. */
  const KERNEL_LINKS: nat := 40

  predicate Plain(n: Name) { n != "" && n != "." && n != ".." }

  predicate AllPlain(p: seq<Name>) { forall i :: 0 <= i < |p| ==> Plain(p[i]) }

  /** `dirname`: the parent of `/` is `/`. */
  function Parent(p: Path): Path { if p == [] then [] else p[..|p| - 1] }

  ghost predicate TreeOk(t: Tree) {
    && [] in t && t[[]].Dir?
    && (forall p :: p in t ==> AllPlain(p))
    && (forall p :: p in t && p != [] ==> Parent(p) in t && t[Parent(p)].Dir?)
  }

  datatype Walked = Lost | At(path: Path, links: nat)

  /** Looking a path up from a directory, following every link, with a budget of links left. */
  function Walk(t: Tree, at: Path, rest: seq<Name>, links: nat): Walked
    decreases links, |rest|
  {
    if rest == [] then At(at, links)
    else if rest[0] == "" || rest[0] == "." then Walk(t, at, rest[1..], links)
    else if rest[0] == ".." then Walk(t, Parent(at), rest[1..], links)
    else
      var next := at + [rest[0]];
      if next !in t then Lost
      else
        match t[next]
        case Dir => Walk(t, next, rest[1..], links)
        case File(_) => if |rest| == 1 then At(next, links) else Lost
        case Link(g) =>
          if links == 0 then Lost
          else Walk(t, if g.absolute then [] else at, g.comps + rest[1..], links - 1)
  }

  function RealPath(t: Tree, p: Path): Walked { Walk(t, [], p, KERNEL_LINKS) }

  /** `lstat`: where the entry itself is, its last name not followed. */
  function Lstat(t: Tree, p: Path): Option<Path> {
    if p == [] then (if [] in t then Some([]) else None)
    else
      match RealPath(t, Parent(p))
      case Lost => None
      case At(d, _) => if d + [p[|p| - 1]] in t then Some(d + [p[|p| - 1]]) else None
  }

  /**
   Where opening a path for writing lands: an existing file, or a name that does not exist yet in a
   directory that does. The last name is followed like any other, a dangling link to its target.
   */
  function Landing(t: Tree, at: Path, rest: seq<Name>, links: nat): Option<Path>
    decreases links, |rest|
  {
    if rest == [] then None
    else if rest[0] == "" || rest[0] == "." then Landing(t, at, rest[1..], links)
    else if rest[0] == ".." then Landing(t, Parent(at), rest[1..], links)
    else
      var next := at + [rest[0]];
      if next !in t then (if |rest| == 1 then Some(next) else None)
      else
        match t[next]
        case Dir => Landing(t, next, rest[1..], links)
        case File(_) => if |rest| == 1 then Some(next) else None
        case Link(g) =>
          if links == 0 then None
          else Landing(t, if g.absolute then [] else at, g.comps + rest[1..], links - 1)
  }

  /** `mkdir -p`: an existing link must lead to a directory; a dangling one is an error. */
  function MakeDirs(t: Tree, at: Path, rest: seq<Name>, links: nat): Option<Tree>
    decreases |rest|
  {
    if rest == [] then (if at in t && t[at].Dir? then Some(t) else None)
    else
      var next := at + [rest[0]];
      if next !in t then MakeDirs(t[next := Dir], next, rest[1..], links)
      else
        match t[next]
        case Dir => MakeDirs(t, next, rest[1..], links)
        case File(_) => None
        case Link(g) =>
          if links == 0 then None
          else
            match Walk(t, if g.absolute then [] else at, g.comps, links - 1)
            case Lost => None
            case At(q, left) => if q in t && t[q].Dir? then MakeDirs(t, q, rest[1..], left) else None
  }

  // ---- lookups ----

  lemma {:induction false} PrefixIsDir(t: Tree, p: Path, n: nat)
    requires TreeOk(t) && p in t && n < |p|
    ensures p[..n] in t && t[p[..n]].Dir?
    decreases |p|
  {
    if n < |p| - 1 {
      PrefixIsDir(t, Parent(p), n);
      assert Parent(p)[..n] == p[..n];
    }
  }

  /** A lookup that succeeds ends at something that is not a link, all of whose ancestors are directories. */
  lemma {:induction false} WalkIsReal(t: Tree, at: Path, rest: seq<Name>, links: nat)
    requires TreeOk(t) && at in t && t[at].Dir?
    ensures Walk(t, at, rest, links).At? ==>
              Walk(t, at, rest, links).path in t && !t[Walk(t, at, rest, links).path].Link?
    decreases links, |rest|
  {
    if rest != [] {
      var next := at + [rest[0]];
      if rest[0] == "" || rest[0] == "." {
        WalkIsReal(t, at, rest[1..], links);
      } else if rest[0] == ".." {
        WalkIsReal(t, Parent(at), rest[1..], links);
      } else if next in t && t[next].Dir? {
        WalkIsReal(t, next, rest[1..], links);
      } else if next in t && t[next].Link? && links > 0 {
        var g := t[next].target;
        WalkIsReal(t, if g.absolute then [] else at, g.comps + rest[1..], links - 1);
      }
    }
  }

  /** A real path is its own realpath, at no cost in links. */
  lemma {:induction false} RealIsFixed(t: Tree, at: Path, rest: seq<Name>, links: nat)
    requires TreeOk(t) && at + rest in t && !t[at + rest].Link?
    ensures Walk(t, at, rest, links) == At(at + rest, links)
    decreases |rest|
  {
    if rest == [] {
      assert at + rest == at;
    } else {
      var next := at + [rest[0]];
      assert next + rest[1..] == at + rest;
      assert Plain((at + rest)[|at|]);
      if |rest| > 1 {
        PrefixIsDir(t, at + rest, |at| + 1);
        assert (at + rest)[..|at| + 1] == next;
      } else {
        assert next == at + rest;
      }
      if t[next].Dir? {
        RealIsFixed(t, next, rest[1..], links);
      }
    }
  }

  lemma HeadAndTail(a: seq<Name>, b: seq<Name>)
    requires a != []
    ensures (a + b)[0] == a[0] && (a + b)[1..] == a[1..] + b
  {
  }

  lemma JoinedNames(a: seq<Name>, b: seq<Name>, c: seq<Name>)
    ensures a + (b + c) == (a + b) + c
  {
  }

  /** Looking up two stretches of names is looking up the second from where the first ended. */
  lemma {:induction false} WalkAppend(t: Tree, at: Path, a: seq<Name>, b: seq<Name>, links: nat)
    requires TreeOk(t) && at in t && t[at].Dir? && AllPlain(b)
    ensures Walk(t, at, a + b, links) ==
            match Walk(t, at, a, links) case Lost => Lost case At(q, left) => Walk(t, q, b, left)
    decreases links, |a|
  {
    if a == [] {
      assert a + b == b;
    } else {
      HeadAndTail(a, b);
      var next := at + [a[0]];
      if a[0] == "" || a[0] == "." {
        WalkAppend(t, at, a[1..], b, links);
      } else if a[0] == ".." {
        WalkAppend(t, Parent(at), a[1..], b, links);
      } else if next in t {
        match t[next] {
          case Dir => WalkAppend(t, next, a[1..], b, links);
          case File(_) =>
            if |a| == 1 && b != [] {
              NothingUnderAFile(t, next, b[0]);
            }
          case Link(g) =>
            if links > 0 {
              JoinedNames(g.comps, a[1..], b);
              WalkAppend(t, if g.absolute then [] else at, g.comps + a[1..], b, links - 1);
            }
        }
      }
    }
  }

  lemma NothingUnderAFile(t: Tree, p: Path, n: Name)
    requires TreeOk(t) && p in t && !t[p].Dir?
    ensures p + [n] !in t
  {
    assert Parent(p + [n]) == p;
  }

  /** The same for an opening write of one more name. */
  lemma {:induction false} LandingAppend(t: Tree, at: Path, a: seq<Name>, n: Name, links: nat)
    requires TreeOk(t) && at in t && t[at].Dir? && Plain(n)
    requires Walk(t, at, a, links).At? && t[at].Dir?
    requires Walk(t, at, a, links).path in t && t[Walk(t, at, a, links).path].Dir?
    ensures Landing(t, at, a + [n], links) ==
            Landing(t, Walk(t, at, a, links).path, [n], Walk(t, at, a, links).links)
    decreases links, |a|
  {
    if a == [] {
      assert a + [n] == [n];
    } else {
      HeadAndTail(a, [n]);
      var next := at + [a[0]];
      if a[0] == "" || a[0] == "." {
        LandingAppend(t, at, a[1..], n, links);
      } else if a[0] == ".." {
        LandingAppend(t, Parent(at), a[1..], n, links);
      } else {
        match t[next] {
          case Dir => LandingAppend(t, next, a[1..], n, links);
          case Link(g) =>
            JoinedNames(g.comps, a[1..], [n]);
            LandingAppend(t, if g.absolute then [] else at, g.comps + a[1..], n, links - 1);
        }
      }
    }
  }

  /** A tree that only gained entries, or changed the bytes of files. */
  ghost predicate Extends(t: Tree, t': Tree) {
    forall p :: p in t ==> p in t' && (t'[p] == t[p] || (t[p].File? && t'[p].File?))
  }

  lemma {:induction false} WalkExtends(t: Tree, t': Tree, at: Path, rest: seq<Name>, links: nat)
    requires Extends(t, t') && Walk(t, at, rest, links).At?
    ensures Walk(t', at, rest, links) == Walk(t, at, rest, links)
    decreases links, |rest|
  {
    if rest != [] {
      var next := at + [rest[0]];
      if rest[0] == "" || rest[0] == "." {
        WalkExtends(t, t', at, rest[1..], links);
      } else if rest[0] == ".." {
        WalkExtends(t, t', Parent(at), rest[1..], links);
      } else {
        match t[next] {
          case Dir => WalkExtends(t, t', next, rest[1..], links);
          case File(_) =>
          case Link(g) =>
            WalkExtends(t, t', if g.absolute then [] else at, g.comps + rest[1..], links - 1);
        }
      }
    }
  }

  // ---- mkdir -p ----

  /** Where everything is already there, nothing is made. */
  lemma {:induction false} MakeDirsExisting(t: Tree, at: Path, rest: seq<Name>, links: nat)
    requires TreeOk(t) && at in t && t[at].Dir? && AllPlain(rest) && Walk(t, at, rest, links).At?
    ensures var q := Walk(t, at, rest, links).path;
            MakeDirs(t, at, rest, links) == if q in t && t[q].Dir? then Some(t) else None
    decreases |rest|
  {
    if rest != [] {
      var next := at + [rest[0]];
      assert AllPlain(rest[1..]);
      if t[next].Dir? {
        MakeDirsExisting(t, next, rest[1..], links);
      } else if t[next].Link? {
        var g := t[next].target;
        var from := if g.absolute then [] else at;
        WalkAppend(t, from, g.comps, rest[1..], links - 1);
        WalkIsReal(t, from, g.comps, links - 1);
        var mid := Walk(t, from, g.comps, links - 1);
        if t[mid.path].Dir? {
          MakeDirsExisting(t, mid.path, rest[1..], mid.links);
        }
      }
    }
  }

  /** The tree with the directories `at + names[..1]`, `at + names[..2]`, ... added. */
  function WithDirs(t: Tree, at: Path, names: seq<Name>): Tree
    decreases |names|
  {
    if names == [] then t
    else WithDirs(t[at + [names[0]] := Dir], at + [names[0]], names[1..])
  }

  /** What `WithDirs` adds: exactly the paths between `at` and `at + names`, as directories. */
  lemma {:induction false} WithDirsAdds(t: Tree, at: Path, names: seq<Name>, p: Path)
    ensures p in WithDirs(t, at, names) <==> p in t || (at < p && p <= at + names)
    ensures p in WithDirs(t, at, names) ==>
              WithDirs(t, at, names)[p] == if at < p && p <= at + names then Dir else t[p]
    decreases |names|
  {
    if names == [] {
      assert at + names == at;
    } else {
      var next := at + [names[0]];
      assert next + names[1..] == at + names;
      WithDirsAdds(t[next := Dir], next, names[1..], p);
      if at < p && p <= at + names && !(next < p) {
        assert |p| == |at| + 1;
        assert p == next;
      }
    }
  }

  /** In a directory where the first name is missing, `mkdir -p` makes the whole rest of the path there. */
  lemma {:induction false} MakeDirsMissing(t: Tree, at: Path, rest: seq<Name>, links: nat)
    requires at in t && t[at].Dir?
    requires rest != [] ==> forall p :: p in t ==> !(at + [rest[0]] <= p)
    ensures MakeDirs(t, at, rest, links) == Some(WithDirs(t, at, rest))
    decreases |rest|
  {
    if rest != [] {
      var next := at + [rest[0]];
      var t' := t[next := Dir];
      if |rest| > 1 {
        forall p | p in t'
          ensures !(next + [rest[1]] <= p)
        {
          assert next <= next + [rest[1]];
        }
      }
      MakeDirsMissing(t', next, rest[1..], links);
    }
  }

  lemma NothingUnderMissing(t: Tree, p: Path)
    requires TreeOk(t) && p !in t
    ensures forall q :: q in t ==> !(p <= q)
  {
    forall q | q in t
      ensures !(p <= q)
    {
      assert p <= q ==> q[..|p|] == p;
      if |p| < |q| {
        PrefixIsDir(t, q, |p|);
      } else if |p| == |q| {
        assert q[..|p|] == q;
      }
    }
  }

  /** `k` names resolve to a directory, no longer stretch does, and `mkdir -p` makes the rest there. */
  ghost predicate Splits(t: Tree, at: Path, rest: seq<Name>, links: nat, k: nat) {
    && k < |rest| && Walk(t, at, rest[..k], links).At?
    && (var q := Walk(t, at, rest[..k], links).path;
        && q in t && t[q].Dir? && q + [rest[k]] !in t
        && MakeDirs(t, at, rest, links) == Some(WithDirs(t, q, rest[k..])))
    && forall j :: k < j <= |rest| ==> Walk(t, at, rest[..j], links).Lost?
  }

  /** A path that does not resolve, of which `mkdir -p` nevertheless succeeds, splits. */
  lemma {:induction false} MakeDirsSplit(t: Tree, at: Path, rest: seq<Name>, links: nat) returns (k: nat)
    requires TreeOk(t) && at in t && t[at].Dir? && AllPlain(rest)
    requires Walk(t, at, rest, links).Lost? && MakeDirs(t, at, rest, links).Some?
    ensures Splits(t, at, rest, links, k)
    decreases |rest|
  {
    var next := at + [rest[0]];
    assert AllPlain(rest[1..]);
    if next !in t {
      k := 0;
      SplitHere(t, at, rest, links);
    } else if t[next].Dir? {
      var k' := MakeDirsSplit(t, next, rest[1..], links);
      k := k' + 1;
      forall j | 0 <= j <= |rest| - 1
        ensures Walk(t, at, rest[..j + 1], links) == Walk(t, next, rest[1..][..j], links)
      {
        assert rest[..j + 1][0] == rest[0] && rest[..j + 1][1..] == rest[1..][..j];
      }
      Shifted(t, at, rest, links, next, links, k');
    } else {
      var mid := SplitThroughLink(t, at, rest, links);
      var k' := MakeDirsSplit(t, mid.path, rest[1..], mid.links);
      k := k' + 1;
      Shifted(t, at, rest, links, mid.path, mid.links, k');
    }
  }

  lemma SplitHere(t: Tree, at: Path, rest: seq<Name>, links: nat)
    requires TreeOk(t) && at in t && t[at].Dir? && AllPlain(rest)
    requires rest != [] && at + [rest[0]] !in t
    ensures Splits(t, at, rest, links, 0)
  {
    NothingUnderMissing(t, at + [rest[0]]);
    MakeDirsMissing(t, at, rest, links);
    assert rest[0..] == rest;
    forall j | 0 < j <= |rest|
      ensures Walk(t, at, rest[..j], links).Lost?
    {
      assert rest[..j][0] == rest[0];
    }
  }

  lemma SplitThroughLink(t: Tree, at: Path, rest: seq<Name>, links: nat) returns (mid: Walked)
    requires TreeOk(t) && at in t && t[at].Dir? && AllPlain(rest) && rest != []
    requires at + [rest[0]] in t && t[at + [rest[0]]].Link?
    requires Walk(t, at, rest, links).Lost? && MakeDirs(t, at, rest, links).Some?
    ensures mid.At? && mid.path in t && t[mid.path].Dir?
    ensures MakeDirs(t, at, rest, links) == MakeDirs(t, mid.path, rest[1..], mid.links)
    ensures Walk(t, mid.path, rest[1..], mid.links).Lost?
    ensures forall j :: 0 <= j <= |rest| - 1 ==>
              Walk(t, at, rest[..j + 1], links) == Walk(t, mid.path, rest[1..][..j], mid.links)
  {
    var g := t[at + [rest[0]]].target;
    var from := if g.absolute then [] else at;
    mid := Walk(t, from, g.comps, links - 1);
    assert rest == [rest[0]] + rest[1..];
    ThroughLink(t, at, rest[0], rest[1..], links);
    forall j | 0 <= j <= |rest| - 1
      ensures Walk(t, at, rest[..j + 1], links) == Walk(t, mid.path, rest[1..][..j], mid.links)
    {
      assert rest[..j + 1] == [rest[0]] + rest[1..][..j];
      ThroughLink(t, at, rest[0], rest[1..][..j], links);
    }
  }

  /** A path that begins with a link goes on from where the link leads. */
  lemma ThroughLink(t: Tree, at: Path, n: Name, rest: seq<Name>, links: nat)
    requires TreeOk(t) && at in t && t[at].Dir? && Plain(n) && AllPlain(rest)
    requires at + [n] in t && t[at + [n]].Link? && links > 0
    ensures var g := t[at + [n]].target;
            var mid := Walk(t, if g.absolute then [] else at, g.comps, links - 1);
            Walk(t, at, [n] + rest, links) == if mid.Lost? then Lost else Walk(t, mid.path, rest, mid.links)
  {
    var g := t[at + [n]].target;
    assert ([n] + rest)[1..] == rest;
    WalkAppend(t, if g.absolute then [] else at, g.comps, rest, links - 1);
  }

  lemma Shifted(t: Tree, at: Path, rest: seq<Name>, links: nat, mid: Path, left: nat, k: nat)
    requires rest != [] && Splits(t, mid, rest[1..], left, k)
    requires MakeDirs(t, at, rest, links) == MakeDirs(t, mid, rest[1..], left)
    requires forall j :: 0 <= j <= |rest| - 1 ==> Walk(t, at, rest[..j + 1], links) == Walk(t, mid, rest[1..][..j], left)
    ensures Splits(t, at, rest, links, k + 1)
  {
    assert rest[k + 1..] == rest[1..][k..];
    assert Walk(t, at, rest[..k + 1], links) == Walk(t, mid, rest[1..][..k], left);
    forall j | k + 1 < j <= |rest|
      ensures Walk(t, at, rest[..j], links).Lost?
    {
      var i := j - 1;
      assert Walk(t, at, rest[..i + 1], links) == Walk(t, mid, rest[1..][..i], left);
    }
  }

  /** Adding directories under a real one keeps the tree well formed. */
  lemma {:induction false} WithDirsOk(t: Tree, at: Path, names: seq<Name>)
    requires TreeOk(t) && at in t && t[at].Dir? && AllPlain(names)
    requires names != [] ==> at + [names[0]] !in t
    ensures TreeOk(WithDirs(t, at, names)) && Extends(t, WithDirs(t, at, names))
    ensures at + names in WithDirs(t, at, names) && WithDirs(t, at, names)[at + names].Dir?
    decreases |names|
  {
    if names == [] {
      assert at + names == at;
    } else {
      var next := at + [names[0]];
      var t' := t[next := Dir];
      assert AllPlain(next);
      assert Parent(next) == at;
      assert TreeOk(t');
      assert next + names[1..] == at + names;
      if |names| > 1 {
        NothingUnderMissing(t, next);
        assert next <= next + [names[1]];
      }
      WithDirsOk(t', next, names[1..]);
    }
  }
}
