/** The order of a workspace listing (agent-computer/src/workspace.ts, `list`): a folder, then all that is in it, then what comes next. */
module ListingOrders {
  import opened FileTrees
  import opened WorkspaceLists

  /** One name before another in a directory. */
  ghost predicate NameBefore(names: seq<Name>, a: Name, b: Name) {
    exists i, j :: 0 <= i < j < |names| && names[i] == a && names[j] == b
  }

  /** Of two paths under `d`: the one that leads to the other, or the one whose way parts to an earlier name. */
  ghost predicate Precedes(order: Order, d: Path, p: Path, q: Path)
    decreases |p| - |d|
  {
    && d <= p && d < q
    && (p == d
        || (if p[|d|] == q[|d|] then Precedes(order, d + [p[|d|]], p, q) else NameBefore(order(d), p[|d|], q[|d|])))
  }

  ghost predicate AreItems(t: Tree, root: Path, items: seq<Item>, paths: seq<Path>) {
    && |paths| == |items|
    && forall i :: 0 <= i < |items| ==> paths[i] in t && root <= paths[i] && items[i] == ItemOf(t, root, paths[i])
  }

  ghost predicate Ascend(order: Order, d: Path, paths: seq<Path>) {
    forall i, j :: 0 <= i < j < |paths| ==> Precedes(order, d, paths[i], paths[j])
  }

  /** These items are of entries of the disk under `d`, listed in that order. */
  ghost predicate InOrderOf(t: Tree, order: Order, root: Path, d: Path, items: seq<Item>, paths: seq<Path>) {
    AreItems(t, root, items, paths) && Ascend(order, d, paths)
  }

  lemma StillPrecedes(order: Order, d: Path, n: Name, p: Path, q: Path)
    requires Precedes(order, d + [n], p, q)
    ensures Precedes(order, d, p, q)
  {
    var e := d + [n];
    assert p[..|e|] == e && q[..|e|] == e;
    assert p[|d|] == e[|d|] && q[|d|] == e[|d|];
    assert p[..|d|] == d && q[..|d|] == d;
  }

  lemma Parts(order: Order, d: Path, a: Name, b: Name, p: Path, q: Path)
    requires d + [a] <= p && d + [b] <= q && a != b && NameBefore(order(d), a, b)
    ensures Precedes(order, d, p, q)
  {
    var e, f := d + [a], d + [b];
    assert p[..|e|] == e && q[..|f|] == f;
    assert p[|d|] == e[|d|] && q[|d|] == f[|d|];
    assert p[..|d|] == d && q[..|d|] == d;
  }

  /** The names of a directory from `k` on. */
  lemma {:induction false} FoundInOrder(t: Tree, order: Order, root: Path, d: Path, k: nat) returns (paths: seq<Path>)
    requires TreeOk(t) && Lists(t, order) && d in t && t[d].Dir? && root <= d && k <= |order(d)|
    ensures InOrderOf(t, order, root, d, FoundIn(t, order, root, d, order(d)[k..]), paths)
    ensures forall i :: 0 <= i < |paths| ==> d < paths[i] && paths[i][|d|] in order(d)[k..]
    decreases Under(t, d), 0, |order(d)| - k
  {
    var names := order(d)[k..];
    if names == [] {
      paths := [];
    } else {
      var next := d + [names[0]];
      UnderShrinks(t, d, next);
      var first := FoundAtOrder(t, order, root, next);
      assert names[1..] == order(d)[k + 1..];
      var rest := FoundInOrder(t, order, root, d, k + 1);
      paths := first + rest;
      FirstThenRest(t, order, root, d, k, first, rest);
    }
  }

  lemma ItemsJoin(t: Tree, root: Path, a: seq<Item>, p: seq<Path>, b: seq<Item>, q: seq<Path>)
    requires AreItems(t, root, a, p) && AreItems(t, root, b, q)
    ensures AreItems(t, root, a + b, p + q)
  {
  }

  /** All paths of one name, then those of later names. */
  lemma AscendJoin(order: Order, d: Path, n: Name, first: seq<Path>, rest: seq<Path>)
    requires Ascend(order, d + [n], first) && Ascend(order, d, rest)
    requires forall i :: 0 <= i < |first| ==> d + [n] <= first[i]
    requires forall j :: 0 <= j < |rest| ==>
               d < rest[j] && d + [rest[j][|d|]] <= rest[j] && rest[j][|d|] != n && NameBefore(order(d), n, rest[j][|d|])
    ensures Ascend(order, d, first + rest)
  {
    var paths := first + rest;
    forall i, j | 0 <= i < j < |paths|
      ensures Precedes(order, d, paths[i], paths[j])
    {
      if j < |first| {
        StillPrecedes(order, d, n, first[i], first[j]);
      } else if i < |first| {
        Parts(order, d, n, rest[j - |first|][|d|], first[i], rest[j - |first|]);
      } else {
        assert Precedes(order, d, rest[i - |first|], rest[j - |first|]);
      }
    }
  }

  lemma UnderName(d: Path, n: Name, p: Path)
    requires d + [n] <= p
    ensures d < p && p[|d|] == n
  {
    var next := d + [n];
    assert p[..|next|] == next;
    assert p[|d|] == next[|d|] && p[..|d|] == d;
  }

  lemma FirstThenRest(t: Tree, order: Order, root: Path, d: Path, k: nat, first: seq<Path>, rest: seq<Path>)
    requires Lists(t, order) && d in t && t[d].Dir? && root <= d && k < |order(d)|
    requires var next := d + [order(d)[k]];
             && InOrderOf(t, order, root, next, FoundAt(t, order, root, next), first)
             && forall i :: 0 <= i < |first| ==> next <= first[i]
    requires InOrderOf(t, order, root, d, FoundIn(t, order, root, d, order(d)[k + 1..]), rest)
    requires forall i :: 0 <= i < |rest| ==> d < rest[i] && rest[i][|d|] in order(d)[k + 1..]
    ensures InOrderOf(t, order, root, d, FoundIn(t, order, root, d, order(d)[k..]), first + rest)
    ensures forall i :: 0 <= i < |first + rest| ==> d < (first + rest)[i] && (first + rest)[i][|d|] in order(d)[k..]
  {
    var n, names := order(d)[k], order(d)[k..];
    assert names[0] == n && names[1..] == order(d)[k + 1..];
    forall j | 0 <= j < |rest|
      ensures d + [rest[j][|d|]] <= rest[j] && rest[j][|d|] != n && NameBefore(order(d), n, rest[j][|d|])
      ensures rest[j][|d|] in names
    {
      LaterName(t, order, d, k, rest[j]);
      assert rest[j][|d|] in names[1..];
    }
    forall i | 0 <= i < |first|
      ensures d < first[i] && first[i][|d|] == n
    {
      UnderName(d, n, first[i]);
    }
    AscendJoin(order, d, n, first, rest);
    ItemsJoin(t, root, FoundAt(t, order, root, d + [n]), first, FoundIn(t, order, root, d, names[1..]), rest);
  }

  /** A path by a later name of the directory. */
  lemma LaterName(t: Tree, order: Order, d: Path, k: nat, q: Path)
    requires Lists(t, order) && d in t && t[d].Dir? && k < |order(d)|
    requires d < q && q[|d|] in order(d)[k + 1..]
    ensures q[|d|] != order(d)[k] && NameBefore(order(d), order(d)[k], q[|d|]) && d + [q[|d|]] <= q
  {
    var later := order(d)[k + 1..];
    var m :| 0 <= m < |later| && later[m] == q[|d|];
    assert order(d)[k + 1 + m] == later[m];
    assert q[..|d| + 1] == d + [q[|d|]];
  }

  lemma {:induction false} FoundAtOrder(t: Tree, order: Order, root: Path, p: Path) returns (paths: seq<Path>)
    requires TreeOk(t) && Lists(t, order) && p in t && root < p
    ensures InOrderOf(t, order, root, p, FoundAt(t, order, root, p), paths)
    ensures forall i :: 0 <= i < |paths| ==> p <= paths[i]
    decreases Under(t, p), 2, 0
  {
    paths := [p];
    if t[p].Dir? {
      var inside := FoundInOrder(t, order, root, p, 0);
      assert order(p)[0..] == order(p);
      paths := [p] + inside;
      FolderThenInside(t, order, root, p, inside);
    }
  }

  lemma FolderThenInside(t: Tree, order: Order, root: Path, p: Path, inside: seq<Path>)
    requires Lists(t, order) && p in t && t[p].Dir? && root < p
    requires InOrderOf(t, order, root, p, Found(t, order, root, p), inside)
    requires forall i :: 0 <= i < |inside| ==> p < inside[i]
    ensures InOrderOf(t, order, root, p, FoundAt(t, order, root, p), [p] + inside)
  {
    var items, paths := FoundAt(t, order, root, p), [p] + inside;
    assert items == [ItemOf(t, root, p)] + Found(t, order, root, p);
    assert forall i | 0 < i < |paths| :: paths[i] == inside[i - 1] && items[i] == Found(t, order, root, p)[i - 1];
    forall i, j | 0 <= i < j < |paths|
      ensures Precedes(order, p, paths[i], paths[j])
    {
      if i > 0 {
        assert Precedes(order, p, inside[i - 1], inside[j - 1]);
      }
    }
  }

  /** A listing without its limit names a folder before what is in it, and goes by the directory's order otherwise. */
  lemma ListingInOrder(t: Tree, order: Order, root: Path, dir: Path) returns (paths: seq<Path>)
    requires TreeOk(t) && Lists(t, order) && dir in t && t[dir].Dir? && root <= dir
    ensures InOrderOf(t, order, root, dir, Found(t, order, root, dir), paths)
  {
    paths := FoundInOrder(t, order, root, dir, 0);
    assert order(dir)[0..] == order(dir);
  }
}
