/** The order of a snapshot's elements (agent-computer/src/aria-snapshot.ts): by their place in the tree, depth first. */
module AriaOrders {
  import opened Prelude
  import opened AriaSnapshots
  import opened AriaElements

  /** A shorter way first, and otherwise by the first position at which two ways part. */
  predicate Earlier(p: seq<nat>, q: seq<nat>) {
    q != [] && (p == [] || p[0] < q[0] || (p[0] == q[0] && Earlier(p[1..], q[1..])))
  }

  ghost predicate Ascending(paths: seq<seq<nat>>) { forall i, j :: 0 <= i < j < |paths| ==> Earlier(paths[i], paths[j]) }

  /** These elements stand at these paths, in order, and no other path of the tree has one. */
  ghost predicate InPlace(node: Yaml, elements: seq<Element>, paths: seq<seq<nat>>) {
    && |paths| == |elements|
    && (forall i :: 0 <= i < |paths| ==> AtPath(node, paths[i], elements[i]))
    && Ascending(paths)
    && forall path, e :: AtPath(node, path, e) ==> path in paths
  }

  // ---- one position of a list or an object ----

  /** The elements and the paths found from position `k` on, of those that go through a position at all. */
  ghost predicate FromPosition(node: Yaml, k: nat, elements: seq<Element>, paths: seq<seq<nat>>) {
    && |paths| == |elements|
    && (forall i :: 0 <= i < |paths| ==> paths[i] != [] && paths[i][0] >= k && AtPath(node, paths[i], elements[i]))
    && Ascending(paths)
    && forall path, e :: AtPath(node, path, e) && path != [] && path[0] >= k ==> path in paths
  }

  /** And those at one position. */
  ghost predicate AtPosition(node: Yaml, k: nat, elements: seq<Element>, paths: seq<seq<nat>>) {
    && |paths| == |elements|
    && (forall i :: 0 <= i < |paths| ==> paths[i] != [] && paths[i][0] == k && AtPath(node, paths[i], elements[i]))
    && Ascending(paths)
    && forall path, e :: AtPath(node, path, e) && path != [] && path[0] == k ==> path in paths
  }

  lemma JoinAscends(ps: seq<seq<nat>>, qs: seq<seq<nat>>)
    requires Ascending(ps) && Ascending(qs)
    requires forall i, j :: 0 <= i < |ps| && 0 <= j < |qs| ==> Earlier(ps[i], qs[j])
    ensures Ascending(ps + qs)
  {
    var paths := ps + qs;
    forall i, j | 0 <= i < j < |paths|
      ensures Earlier(paths[i], paths[j])
    {
      if j < |ps| {
        assert Earlier(ps[i], ps[j]);
      } else if i < |ps| {
        assert Earlier(ps[i], qs[j - |ps|]);
      } else {
        assert Earlier(qs[i - |ps|], qs[j - |ps|]);
      }
    }
  }

  /** Each of these elements stands at its path. */
  ghost predicate Stand(node: Yaml, elements: seq<Element>, paths: seq<seq<nat>>) {
    |paths| == |elements| && forall i :: 0 <= i < |paths| ==> AtPath(node, paths[i], elements[i])
  }

  lemma StandTogether(node: Yaml, es: seq<Element>, ps: seq<seq<nat>>, fs: seq<Element>, qs: seq<seq<nat>>)
    requires Stand(node, es, ps) && Stand(node, fs, qs)
    ensures Stand(node, es + fs, ps + qs)
  {
  }

  lemma OnePositionMore(node: Yaml, k: nat, es: seq<Element>, ps: seq<seq<nat>>, fs: seq<Element>, qs: seq<seq<nat>>)
    requires AtPosition(node, k, es, ps) && FromPosition(node, k + 1, fs, qs)
    ensures FromPosition(node, k, es + fs, ps + qs)
  {
    StandTogether(node, es, ps, fs, qs);
    JoinAscends(ps, qs);
    NoneMissed(node, k, ps, qs);
  }

  lemma NoneMissed(node: Yaml, k: nat, ps: seq<seq<nat>>, qs: seq<seq<nat>>)
    requires forall path, e :: AtPath(node, path, e) && path != [] && path[0] == k ==> path in ps
    requires forall path, e :: AtPath(node, path, e) && path != [] && path[0] >= k + 1 ==> path in qs
    ensures forall path, e :: AtPath(node, path, e) && path != [] && path[0] >= k ==> path in ps + qs
  {
    forall path, e | AtPath(node, path, e) && path != [] && path[0] >= k
      ensures path in ps + qs
    {
      assert path in ps || path in qs;
    }
  }

  /** The paths of a part of the tree, seen from the whole. */
  function Through(k: nat, paths: seq<seq<nat>>): (all: seq<seq<nat>>)
    ensures |all| == |paths| && forall i :: 0 <= i < |paths| ==> all[i] == [k] + paths[i]
  {
    seq(|paths|, i requires 0 <= i < |paths| => [k] + paths[i])
  }

  lemma ThroughAscends(k: nat, paths: seq<seq<nat>>)
    requires Ascending(paths)
    ensures Ascending(Through(k, paths))
  {
    var all := Through(k, paths);
    forall i, j | 0 <= i < j < |all|
      ensures Earlier(all[i], all[j])
    {
      assert all[i][1..] == paths[i] && all[j][1..] == paths[j];
    }
  }

  lemma ThroughHas(k: nat, paths: seq<seq<nat>>, path: seq<nat>)
    requires path != [] && path[0] == k && path[1..] in paths
    ensures path in Through(k, paths)
  {
    var i :| 0 <= i < |paths| && paths[i] == path[1..];
    assert Through(k, paths)[i] == path;
  }

  // ---- lists ----

  lemma ItemAt(items: seq<Yaml>, k: nat, paths: seq<seq<nat>>)
    requires k < |items| && InPlace(items[k], Flat(items[k]), paths)
    ensures AtPosition(Items(items), k, Flat(items[k]), Through(k, paths))
  {
    var all := Through(k, paths);
    ThroughAscends(k, paths);
    forall i | 0 <= i < |all|
      ensures AtPath(Items(items), all[i], Flat(items[k])[i])
    {
      assert all[i][1..] == paths[i];
    }
    forall path, e | AtPath(Items(items), path, e) && path != [] && path[0] == k
      ensures path in all
    {
      assert AtPath(items[k], path[1..], e);
      ThroughHas(k, paths, path);
    }
  }

  lemma {:induction false} ItemsFrom(items: seq<Yaml>, k: nat) returns (paths: seq<seq<nat>>)
    requires k <= |items|
    ensures FromPosition(Items(items), k, FlatItems(items[k..]), paths)
    decreases items, 0, |items| - k
  {
    if k == |items| {
      paths := [];
    } else {
      var here := FlatInOrder(items[k]);
      var rest := ItemsFrom(items, k + 1);
      paths := Through(k, here) + rest;
      ItemAt(items, k, here);
      assert items[k..][0] == items[k] && items[k..][1..] == items[k + 1..];
      OnePositionMore(Items(items), k, Flat(items[k]), Through(k, here), FlatItems(items[k + 1..]), rest);
    }
  }

  // ---- objects ----

  /** The path of an entry's own element, if it has one. */
  function OwnPath(entry: (string, Yaml), k: nat): (mine: seq<seq<nat>>)
    ensures |mine| == |ElementOf(entry.0, entry.1)|
  {
    if ElementOf(entry.0, entry.1) == [] then [] else [[k]]
  }

  /** The entry's own element comes before those inside it. */
  lemma EntryAt(entries: seq<(string, Yaml)>, k: nat, inside: seq<seq<nat>>)
    requires k < |entries|
    requires var value := entries[k].1;
             if value.Items? || value.Entries? then InPlace(value, Flat(value), inside) else inside == []
    ensures AtPosition(Entries(entries), k, FlatEntry(entries[k]), OwnPath(entries[k], k) + Through(k, inside))
  {
    var node, entry := Entries(entries), entries[k];
    var deep := if entry.1.Items? || entry.1.Entries? then Flat(entry.1) else [];
    InsideIsDeeper(entry.1, inside);
    InsideStands(entries, k, deep, inside);
    StandTogether(node, ElementOf(entry.0, entry.1), OwnPath(entry, k), deep, Through(k, inside));
    ThroughAscends(k, inside);
    OwnFirst(k, OwnPath(entry, k), inside);
    NoEntryMissed(entries, k, inside);
  }

  lemma InsideStands(entries: seq<(string, Yaml)>, k: nat, deep: seq<Element>, inside: seq<seq<nat>>)
    requires k < |entries| && |deep| == |inside|
    requires inside != [] ==> entries[k].1.Items? || entries[k].1.Entries?
    requires forall i :: 0 <= i < |inside| ==> inside[i] != [] && AtPath(entries[k].1, inside[i], deep[i])
    ensures Stand(Entries(entries), deep, Through(k, inside))
  {
    forall i | 0 <= i < |inside|
      ensures AtPath(Entries(entries), Through(k, inside)[i], deep[i])
    {
      assert Through(k, inside)[i][1..] == inside[i];
    }
  }

  lemma NoEntryMissed(entries: seq<(string, Yaml)>, k: nat, inside: seq<seq<nat>>)
    requires k < |entries|
    requires entries[k].1.Items? || entries[k].1.Entries? ==>
               forall path, e :: AtPath(entries[k].1, path, e) ==> path in inside
    ensures forall path, e :: AtPath(Entries(entries), path, e) && path != [] && path[0] == k ==>
              path in OwnPath(entries[k], k) + Through(k, inside)
  {
    forall path, e | AtPath(Entries(entries), path, e) && path != [] && path[0] == k
      ensures path in OwnPath(entries[k], k) + Through(k, inside)
    {
      if |path| == 1 {
        assert path == [k] && OwnPath(entries[k], k) == [[k]];
        assert path in OwnPath(entries[k], k);
      } else {
        assert AtPath(entries[k].1, path[1..], e);
        ThroughHas(k, inside, path);
      }
    }
  }

  lemma InsideIsDeeper(value: Yaml, inside: seq<seq<nat>>)
    requires value.Items? || value.Entries? ==> InPlace(value, Flat(value), inside)
    requires !(value.Items? || value.Entries?) ==> inside == []
    ensures forall i :: 0 <= i < |inside| ==> inside[i] != []
  {
  }

  lemma OwnFirst(k: nat, mine: seq<seq<nat>>, inside: seq<seq<nat>>)
    requires mine == [] || mine == [[k]]
    requires Ascending(Through(k, inside)) && forall i :: 0 <= i < |inside| ==> inside[i] != []
    ensures Ascending(mine + Through(k, inside))
  {
    var deep := Through(k, inside);
    var paths := mine + deep;
    forall i, j | 0 <= i < j < |paths|
      ensures Earlier(paths[i], paths[j])
    {
      if mine == [] {
        assert Earlier(deep[i], deep[j]);
      } else if i > 0 {
        assert Earlier(deep[i - 1], deep[j - 1]);
      } else {
        assert paths[0] == [k] && paths[j] == [k] + inside[j - 1];
        assert paths[0][1..] == [] && paths[j][1..] == inside[j - 1];
      }
    }
  }

  lemma {:induction false} InsideOf(entry: (string, Yaml)) returns (inside: seq<seq<nat>>)
    ensures if entry.1.Items? || entry.1.Entries? then InPlace(entry.1, Flat(entry.1), inside) else inside == []
    decreases entry, 0, 0
  {
    inside := [];
    if entry.1.Items? || entry.1.Entries? {
      inside := FlatInOrder(entry.1);
    }
  }

  lemma {:induction false} EntriesFrom(entries: seq<(string, Yaml)>, k: nat) returns (paths: seq<seq<nat>>)
    requires k <= |entries|
    ensures FromPosition(Entries(entries), k, FlatEntries(entries[k..]), paths)
    decreases entries, 0, |entries| - k
  {
    if k == |entries| {
      paths := [];
    } else {
      var inside := InsideOf(entries[k]);
      EntryAt(entries, k, inside);
      var here := OwnPath(entries[k], k) + Through(k, inside);
      var rest := EntriesFrom(entries, k + 1);
      paths := here + rest;
      assert entries[k..][0] == entries[k] && entries[k..][1..] == entries[k + 1..];
      OnePositionMore(Entries(entries), k, FlatEntry(entries[k]), here, FlatEntries(entries[k + 1..]), rest);
    }
  }

  // ---- the whole ----

  lemma Whole(node: Yaml, elements: seq<Element>, paths: seq<seq<nat>>)
    requires node.Items? || node.Entries?
    requires FromPosition(node, 0, elements, paths)
    ensures InPlace(node, elements, paths)
  {
    forall path, e | AtPath(node, path, e)
      ensures path in paths
    {
      assert path != [] && path[0] >= 0;
    }
  }

  /**
   The elements of a tree are those of its descriptors, one for each place that has one and no other,
   in the order of their places: a descriptor before what is inside it, and that before what comes next.
   */
  lemma {:induction false} FlatInOrder(node: Yaml) returns (paths: seq<seq<nat>>)
    ensures InPlace(node, Flat(node), paths)
    decreases node, 1, 0
  {
    match node {
      case Nothing => paths := [];
      case Text(text) =>
        paths := if ElementOf(text, Nothing) == [] then [] else [[]];
      case Items(items) =>
        paths := ItemsFrom(items, 0);
        assert items[0..] == items;
        Whole(node, Flat(node), paths);
      case Entries(entries) =>
        paths := EntriesFrom(entries, 0);
        assert entries[0..] == entries;
        Whole(node, Flat(node), paths);
    }
  }
}
