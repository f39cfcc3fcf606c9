/**
 The workspace listing (agent-computer/src/workspace.ts, `list`): a recursive walk that stops at a
 number of entries. `order` is whatever order the filesystem gives a directory's names in.
 */
module WorkspaceLists {
  import opened Prelude
  import opened JsText
  import opened FileTrees
  import opened Workspaces
  import opened WorkspaceConfinement
  import opened WorkspaceOutcomes

  /** A line of the listing; its path is shown from the root down. */
  datatype Entry = Folder(path: Path) | FileEntry(path: Path, bytes: nat)

  /** What the walk meets: something it lists, or a link, which is neither a folder nor a file. */
  datatype Item = Listed(entry: Entry) | Skipped(path: Path)

  type Order = Path -> seq<Name>

  /** `readdir` names exactly what is in a directory, each once. */
  ghost predicate Lists(t: Tree, order: Order) {
    forall d :: d in t && t[d].Dir? ==>
      && (forall n :: n in order(d) <==> d + [n] in t)
      && forall i, j :: 0 <= i < j < |order(d)| ==> order(d)[i] != order(d)[j]
  }

  // ---- the walk without its limit ----

  ghost function Under(t: Tree, d: Path): set<Path> { set p | p in t && d < p }

  lemma UnderShrinks(t: Tree, d: Path, p: Path)
    requires p in t && d < p
    ensures Under(t, p) < Under(t, d)
  {
    forall q | q in Under(t, p)
      ensures q in Under(t, d)
    {
      assert q[..|d|] == p[..|d|] == d;
    }
    assert p in Under(t, d) && p !in Under(t, p);
  }

  /** Everything below a directory, depth first: a folder, then what is in it. */
  function Found(t: Tree, order: Order, root: Path, dir: Path): seq<Item>
    requires Lists(t, order) && dir in t && t[dir].Dir? && root <= dir
    decreases Under(t, dir), 1, 0
  {
    FoundIn(t, order, root, dir, order(dir))
  }

  function FoundIn(t: Tree, order: Order, root: Path, dir: Path, names: seq<Name>): seq<Item>
    requires Lists(t, order) && dir in t && t[dir].Dir? && root <= dir
    requires forall n :: n in names ==> dir + [n] in t
    decreases Under(t, dir), 0, |names|
  {
    if names == [] then []
    else
      UnderShrinks(t, dir, dir + [names[0]]);
      FoundAt(t, order, root, dir + [names[0]]) + FoundIn(t, order, root, dir, names[1..])
  }

  function FoundAt(t: Tree, order: Order, root: Path, p: Path): seq<Item>
    requires Lists(t, order) && p in t && root < p
    decreases Under(t, p), 2, 0
  {
    match t[p]
    case Dir => [Listed(Folder(p[|root|..]))] + Found(t, order, root, p)
    case File(bytes) => [Listed(FileEntry(p[|root|..], |bytes|))]
    case Link(_) => [Skipped(p[|root|..])]
  }

  // ---- the limit ----

  /** The walk's two variables. */
  datatype Progress = Progress(entries: seq<Entry>, truncated: bool)

  const NOTHING_YET: Progress := Progress([], false)

  /** One turn of the loop, as far as it concerns the item itself. */
  function Met(p: Progress, x: Item, limit: nat): Progress {
    if |p.entries| >= limit then p.(truncated := true)
    else if x.Listed? then p.(entries := p.entries + [x.entry])
    else p
  }

  function After(p: Progress, items: seq<Item>, limit: nat): Progress
    decreases |items|
  {
    if items == [] then p else After(Met(p, items[0], limit), items[1..], limit)
  }

  lemma {:induction false} AfterAppend(p: Progress, a: seq<Item>, b: seq<Item>, limit: nat)
    ensures After(p, a + b, limit) == After(After(p, a, limit), b, limit)
    decreases |a|
  {
    if a == [] {
      assert a + b == b;
    } else {
      assert (a + b)[0] == a[0] && (a + b)[1..] == a[1..] + b;
      AfterAppend(Met(p, a[0], limit), a[1..], b, limit);
    }
  }

  /** Once it has been cut, going further changes nothing. */
  lemma {:induction false} StaysCut(p: Progress, items: seq<Item>, limit: nat)
    requires p.truncated && |p.entries| >= limit
    ensures After(p, items, limit) == p
    decreases |items|
  {
    if items != [] {
      StaysCut(p, items[1..], limit);
    }
  }

  function ListedOf(items: seq<Item>): seq<Entry> {
    if items == [] then []
    else ListedOf(items[..|items| - 1])
         + if items[|items| - 1].Listed? then [items[|items| - 1].entry] else []
  }

  /** The first `limit` entries, and whether something, a link included, comes after those. */
  predicate Bounded(p: Progress, items: seq<Item>, limit: nat) {
    && p.entries == (if |ListedOf(items)| <= limit then ListedOf(items) else ListedOf(items)[..limit])
    && (p.truncated <==> items != [] && |ListedOf(items[..|items| - 1])| >= limit)
  }

  lemma {:induction false} AfterIsBounded(items: seq<Item>, limit: nat)
    ensures Bounded(After(NOTHING_YET, items, limit), items, limit)
    decreases |items|
  {
    if items != [] {
      var front, last := items[..|items| - 1], items[|items| - 1];
      assert items == front + [last];
      AfterIsBounded(front, limit);
      AfterAppend(NOTHING_YET, front, [last], limit);
      OneMore(After(NOTHING_YET, front, limit), front, last, limit);
    }
  }

  lemma OneMore(p: Progress, items: seq<Item>, x: Item, limit: nat)
    requires Bounded(p, items, limit)
    ensures Bounded(Met(p, x, limit), items + [x], limit)
  {
    var all := items + [x];
    assert all[..|all| - 1] == items;
    if items != [] {
      assert |ListedOf(items[..|items| - 1])| <= |ListedOf(items)|;
    }
    TakeOfAppend(ListedOf(items), if x.Listed? then [x.entry] else [], limit);
  }

  lemma TakeOfAppend(a: seq<Entry>, b: seq<Entry>, n: nat)
    ensures n <= |a| ==> (a + b)[..n] == a[..n] && a[..|a|] == a
    ensures |a + b| == n <= |a| ==> a + b == a
  {
  }

  /**
   A listing says it was cut when it left an entry out, and in one more case: nothing was left out, but
   the limit was just reached and the last thing the walk met was a link.
   */
  lemma CutExactlyWhen(t: Tree, order: Order, root: Path, dir: Path, limit: nat)
    requires Lists(t, order) && dir in t && t[dir].Dir? && root <= dir
    ensures var items := Found(t, order, root, dir);
            var p := After(NOTHING_YET, items, limit);
            && (p.truncated <==>
                  || |ListedOf(items)| > limit
                  || (|ListedOf(items)| == limit && items != [] && items[|items| - 1].Skipped?))
            && (p.truncated && p.entries == ListedOf(items) <==>
                  |ListedOf(items)| == limit && items != [] && items[|items| - 1].Skipped?)
  {
    AfterIsBounded(Found(t, order, root, dir), limit);
  }

  /** One call of `list`: its two variables and its inner function. */
  class Listing {
    const tree: Tree
    const order: Order
    const root: Path
    const limit: nat
    var entries: seq<Entry>
    var truncated: bool

    constructor (tree: Tree, order: Order, root: Path, limit: nat)
      ensures this.tree == tree && this.order == order && this.root == root && this.limit == limit
      ensures State() == NOTHING_YET
    {
      this.tree, this.order, this.root, this.limit := tree, order, root, limit;
      entries, truncated := [], false;
    }

    function State(): Progress
      reads this
    {
      Progress(entries, truncated)
    }

    /** What is cut is full. */
    predicate Valid()
      reads this
    {
      truncated ==> |entries| >= limit
    }

    method Walk(dir: Path)
      requires Valid() && Lists(tree, order) && dir in tree && tree[dir].Dir? && root <= dir
      modifies this
      ensures Valid() && State() == After(old(State()), Found(tree, order, root, dir), limit)
      decreases Under(tree, dir), 1, 0
    {
      if truncated {
        StaysCut(State(), Found(tree, order, root, dir), limit);
        return;
      }
      WalkNames(dir, order(dir));
    }

    /** The rest of the loop over a directory's names. */
    method WalkNames(dir: Path, names: seq<Name>)
      requires Valid() && Lists(tree, order) && dir in tree && tree[dir].Dir? && root <= dir
      requires forall n :: n in names ==> dir + [n] in tree
      modifies this
      ensures Valid() && State() == After(old(State()), FoundIn(tree, order, root, dir, names), limit)
      decreases Under(tree, dir), 0, |names|
    {
      if names == [] {
        return;
      }
      var full := dir + [names[0]];
      UnderShrinks(tree, dir, full);
      AfterAppend(State(), FoundAt(tree, order, root, full), FoundIn(tree, order, root, dir, names[1..]), limit);
      Visit(full);
      WalkNames(dir, names[1..]);
    }

    /** One turn of that loop; when the list is full the source returns, and so does every turn after. */
    method Visit(full: Path)
      requires Valid() && Lists(tree, order) && full in tree && root < full
      modifies this
      ensures Valid() && State() == After(old(State()), FoundAt(tree, order, root, full), limit)
      decreases Under(tree, full), 2, 0
    {
      if |entries| >= limit {
        truncated := true;
        FullStaysFull(old(State()), FoundAt(tree, order, root, full), limit);
        return;
      }
      var shown := full[|root|..];
      match tree[full] {
        case Dir =>
          entries := entries + [Folder(shown)];
          FolderFirst(old(State()), tree, order, root, full, limit);
          Walk(full);
        case File(bytes) =>
          entries := entries + [FileEntry(shown, |bytes|)];
        case Link(_) =>
      }
    }
  }

  /** Anything met when the list is full cuts it, and changes nothing more. */
  lemma FullStaysFull(p: Progress, items: seq<Item>, limit: nat)
    requires |p.entries| >= limit && items != []
    ensures After(p, items, limit) == p.(truncated := true)
  {
    StaysCut(p.(truncated := true), items[1..], limit);
  }

  lemma FolderFirst(p: Progress, t: Tree, order: Order, root: Path, full: Path, limit: nat)
    requires Lists(t, order) && full in t && root < full && t[full].Dir? && |p.entries| < limit
    ensures After(p, FoundAt(t, order, root, full), limit)
         == After(p.(entries := p.entries + [Folder(full[|root|..])]), Found(t, order, root, full), limit)
  {
    var items, x := FoundAt(t, order, root, full), Listed(Folder(full[|root|..]));
    assert items[0] == x && items[1..] == Found(t, order, root, full);
    assert Met(p, x, limit) == p.(entries := p.entries + [Folder(full[|root|..])]);
  }

  // ---- what the walk finds ----

  function ItemOf(t: Tree, root: Path, q: Path): Item
    requires q in t && root <= q
  {
    match t[q]
    case Dir => Listed(Folder(q[|root|..]))
    case File(bytes) => Listed(FileEntry(q[|root|..], |bytes|))
    case Link(_) => Skipped(q[|root|..])
  }

  function ShownPath(x: Item): Path { if x.Listed? then x.entry.path else x.path }

  lemma ItemsDiffer(t: Tree, root: Path, p: Path, q: Path)
    requires p in t && q in t && root <= p && root <= q
    ensures ShownPath(ItemOf(t, root, p)) == ShownPath(ItemOf(t, root, q)) <==> p == q
  {
    assert p == root + p[|root|..] && q == root + q[|root|..];
  }

  predicate NoneTwice<T(==)>(s: seq<T>) { forall i, j :: 0 <= i < j < |s| ==> s[i] != s[j] }

  /** Exactly the items of these entries of the disk, each once. */
  ghost predicate Exactly(t: Tree, root: Path, items: seq<Item>, paths: set<Path>) {
    && NoneTwice(items)
    && (forall q :: q in paths ==> q in t && root <= q && ItemOf(t, root, q) in items)
    && forall x :: x in items ==> exists q :: q in paths && x == ItemOf(t, root, q)
  }

  lemma ExactlyAppend(t: Tree, root: Path, a: seq<Item>, p: set<Path>, b: seq<Item>, q: set<Path>)
    requires Exactly(t, root, a, p) && Exactly(t, root, b, q) && p !! q
    ensures Exactly(t, root, a + b, p + q)
  {
    var all := a + b;
    forall i, j | 0 <= i < j < |all|
      ensures all[i] != all[j]
    {
      if i < |a| <= j {
        assert all[i] in a && all[j] in b;
        var x :| x in p && all[i] == ItemOf(t, root, x);
        var y :| y in q && all[j] == ItemOf(t, root, y);
        ItemsDiffer(t, root, x, y);
      }
    }
    forall x | x in all
      ensures exists r :: r in p + q && x == ItemOf(t, root, r)
    {
      if x in a {
        var r :| r in p && x == ItemOf(t, root, r);
        assert r in p + q;
      } else {
        var r :| r in q && x == ItemOf(t, root, r);
        assert r in p + q;
      }
    }
  }

  /** What lies in a directory, by these names. */
  ghost function UnderBy(t: Tree, dir: Path, names: seq<Name>): set<Path> {
    set p | p in t && dir < p && p[|dir|] in names
  }

  ghost function From(t: Tree, p: Path): set<Path> { set q | q in t && p <= q }

  lemma {:induction false} FoundInIs(t: Tree, order: Order, root: Path, dir: Path, names: seq<Name>)
    requires TreeOk(t) && Lists(t, order) && dir in t && t[dir].Dir? && root <= dir
    requires NoneTwice(names) && forall n :: n in names ==> dir + [n] in t
    ensures Exactly(t, root, FoundIn(t, order, root, dir, names), UnderBy(t, dir, names))
    decreases Under(t, dir), 0, |names|
  {
    if names == [] {
      assert UnderBy(t, dir, names) == {};
    } else {
      var next, rest := dir + [names[0]], names[1..];
      UnderShrinks(t, dir, next);
      FoundAtIs(t, order, root, next);
      FoundInIs(t, order, root, dir, rest);
      OneNameMore(t, order, root, dir, names);
    }
  }

  lemma OneNameMore(t: Tree, order: Order, root: Path, dir: Path, names: seq<Name>)
    requires Lists(t, order) && dir in t && t[dir].Dir? && root <= dir && names != []
    requires NoneTwice(names) && forall n :: n in names ==> dir + [n] in t
    requires Exactly(t, root, FoundAt(t, order, root, dir + [names[0]]), From(t, dir + [names[0]]))
    requires Exactly(t, root, FoundIn(t, order, root, dir, names[1..]), UnderBy(t, dir, names[1..]))
    ensures Exactly(t, root, FoundIn(t, order, root, dir, names), UnderBy(t, dir, names))
  {
    UnderSplits(t, dir, names);
    ExactlyAppend(t, root, FoundAt(t, order, root, dir + [names[0]]), From(t, dir + [names[0]]),
                  FoundIn(t, order, root, dir, names[1..]), UnderBy(t, dir, names[1..]));
  }

  lemma UnderSplits(t: Tree, dir: Path, names: seq<Name>)
    requires names != [] && NoneTwice(names)
    ensures UnderBy(t, dir, names) == From(t, dir + [names[0]]) + UnderBy(t, dir, names[1..])
    ensures From(t, dir + [names[0]]) !! UnderBy(t, dir, names[1..])
  {
    var next := dir + [names[0]];
    forall p
      ensures next <= p <==> dir < p && p[|dir|] == names[0]
    {
      if dir < p && p[|dir|] == names[0] {
        assert p[..|next|] == next;
      }
    }
    assert forall n :: n in names <==> n == names[0] || n in names[1..];
    assert names[0] !in names[1..];
  }

  lemma FromIs(t: Tree, p: Path)
    requires p in t
    ensures From(t, p) == {p} + Under(t, p)
  {
    forall q: Path | p <= q && |q| == |p|
      ensures q == p
    {
      assert q[..|p|] == q;
    }
  }

  lemma AboveIsDir(t: Tree, p: Path, q: Path)
    requires TreeOk(t) && q in t && p < q
    ensures p in t && t[p].Dir?
  {
    PrefixIsDir(t, q, |p|);
    assert q[..|p|] == p;
  }

  /** Under anything but a directory there is nothing. */
  lemma FromLeaf(t: Tree, p: Path)
    requires TreeOk(t) && p in t && !t[p].Dir?
    ensures From(t, p) == {p}
  {
    FromIs(t, p);
    if Under(t, p) != {} {
      var q :| q in Under(t, p);
      AboveIsDir(t, p, q);
      assert false;
    }
  }

  lemma ExactlyOne(t: Tree, root: Path, p: Path)
    requires p in t && root <= p
    ensures Exactly(t, root, [ItemOf(t, root, p)], {p})
  {
  }

  lemma {:induction false} FoundAtIs(t: Tree, order: Order, root: Path, p: Path)
    requires TreeOk(t) && Lists(t, order) && p in t && root < p
    ensures Exactly(t, root, FoundAt(t, order, root, p), From(t, p))
    decreases Under(t, p), 2, 0
  {
    ExactlyOne(t, root, p);
    if t[p].Dir? {
      FoundIs(t, order, root, p);
      FromIs(t, p);
      ExactlyAppend(t, root, [ItemOf(t, root, p)], {p}, Found(t, order, root, p), Under(t, p));
    } else {
      FromLeaf(t, p);
    }
  }

  /** The walk of a directory finds everything below it, each once, and nothing else. */
  lemma {:induction false} FoundIs(t: Tree, order: Order, root: Path, dir: Path)
    requires TreeOk(t) && Lists(t, order) && dir in t && t[dir].Dir? && root <= dir
    ensures Exactly(t, root, Found(t, order, root, dir), Under(t, dir))
    decreases Under(t, dir), 1, 0
  {
    FoundInIs(t, order, root, dir, order(dir));
    AllByName(t, order, dir);
  }

  lemma AllByName(t: Tree, order: Order, dir: Path)
    requires TreeOk(t) && Lists(t, order) && dir in t && t[dir].Dir?
    ensures UnderBy(t, dir, order(dir)) == Under(t, dir)
  {
    forall p | p in Under(t, dir)
      ensures p[|dir|] in order(dir)
    {
      FirstStepIn(t, dir, p);
    }
  }

  lemma FirstStepIn(t: Tree, dir: Path, p: Path)
    requires TreeOk(t) && p in t && dir < p
    ensures dir + [p[|dir|]] in t
  {
    assert p[..|dir| + 1] == dir + [p[|dir|]];
    if |p| > |dir| + 1 {
      PrefixIsDir(t, p, |dir| + 1);
    } else {
      assert p[..|dir| + 1] == p;
    }
  }

  lemma {:induction false} ListedOfIs(items: seq<Item>)
    ensures forall e :: e in ListedOf(items) <==> Listed(e) in items
    ensures NoneTwice(items) ==> NoneTwice(ListedOf(items))
    decreases |items|
  {
    if items != [] {
      var front, last := items[..|items| - 1], items[|items| - 1];
      assert items == front + [last];
      ListedOfIs(front);
      if NoneTwice(items) && last.Listed? {
        assert last !in front;
      }
    }
  }

  /**
   An unlimited listing is the folders and files below its start, each once, and nothing outside it:
   a link is never listed and never walked through.
   */
  lemma ListingIsWhole(t: Tree, order: Order, root: Path, dir: Path)
    requires TreeOk(t) && Lists(t, order) && dir in t && t[dir].Dir? && root <= dir
    ensures var entries := ListedOf(Found(t, order, root, dir));
            && NoneTwice(entries)
            && (forall e :: e in entries ==>
                  exists q :: q in t && dir < q && !t[q].Link? && Listed(e) == ItemOf(t, root, q))
            && forall q :: q in t && dir < q && !t[q].Link? ==> ItemOf(t, root, q).entry in entries
  {
    var items := Found(t, order, root, dir);
    FoundIs(t, order, root, dir);
    ListedOfIs(items);
    forall e | e in ListedOf(items)
      ensures exists q :: q in t && dir < q && !t[q].Link? && Listed(e) == ItemOf(t, root, q)
    {
      assert Listed(e) in items;
      var q :| q in Under(t, dir) && Listed(e) == ItemOf(t, root, q);
    }
    forall q | q in t && dir < q && !t[q].Link?
      ensures ItemOf(t, root, q).entry in ListedOf(items)
    {
      assert q in Under(t, dir);
      assert ItemOf(t, root, q) == Listed(ItemOf(t, root, q).entry);
    }
  }

  /** Where a listing starts: the workspace itself, or what a read of that string would resolve to. */
  function StartOf(t: Tree, rootPath: Path, requested: string): Result<Path, Refusal> {
    if requested == "." || Trim(requested) == "" then
      match RealPath(t, rootPath) case Lost => Err(SystemError) case At(root, _) => Ok(root)
    else ResolveRead(t, rootPath, requested)
  }

  /** A listing starts at the workspace for a blank string or a dot, and otherwise where the string says. */
  lemma StartIsAsked(t: Tree, rootPath: Path, requested: string)
    requires TreeOk(t) && RealPath(t, rootPath).At?
    ensures AllSpace(requested) || requested == "." ==>
              StartOf(t, rootPath, requested) == Ok(RealPath(t, rootPath).path)
    ensures var p := RealPath(t, rootPath).path + NamesIn(requested);
            !RefusedText(requested) && requested != "." && p in t && !t[p].Link? ==> StartOf(t, rootPath, requested) == Ok(p)
  {
    BlankExactlyWhen(requested);
    var p := RealPath(t, rootPath).path + NamesIn(requested);
    if !RefusedText(requested) && requested != "." && p in t && !t[p].Link? {
      ReadsWhatIsThere(t, rootPath, 0, requested);
    }
  }

  lemma StartIsInside(t: Tree, rootPath: Path, requested: string)
    requires TreeOk(t) && StartOf(t, rootPath, requested).Ok?
    ensures var start := StartOf(t, rootPath, requested).value;
            RealPath(t, rootPath).At? && RealPath(t, rootPath).path <= start && start in t && !t[start].Link?
  {
    WalkIsReal(t, [], rootPath, KERNEL_LINKS);
    if !(requested == "." || Trim(requested) == "") {
      ReadIsConfined(t, rootPath, requested);
    }
  }

  /**
   The first `limit` of everything below the start, depth first, links left out; and `truncated`
   exactly when something, a link included, comes after those.
   */
  method List(t: Tree, order: Order, rootPath: Path, limit: nat, requested: string)
    returns (r: Result<(seq<Entry>, bool), Refusal>)
    requires TreeOk(t) && Lists(t, order)
    ensures r.Ok? <==>
              && StartOf(t, rootPath, requested).Ok? && StartOf(t, rootPath, requested).value in t
              && t[StartOf(t, rootPath, requested).value].Dir?
    ensures r.Ok? ==>
              && RealPath(t, rootPath).At? && RealPath(t, rootPath).path <= StartOf(t, rootPath, requested).value
              && Bounded(Progress(r.value.0, r.value.1),
                         Found(t, order, RealPath(t, rootPath).path, StartOf(t, rootPath, requested).value), limit)
    ensures r.Err? ==>
              r.error == if StartOf(t, rootPath, requested).Err? then StartOf(t, rootPath, requested).error else FileError
  {
    var start := StartOf(t, rootPath, requested);
    if start.Err? {
      return Err(start.error);
    }
    StartIsInside(t, rootPath, requested);
    if !t[start.value].Dir? {
      return Err(FileError);
    }
    var listing := new Listing(t, order, RealPath(t, rootPath).path, limit);
    listing.Walk(start.value);
    AfterIsBounded(Found(t, order, RealPath(t, rootPath).path, start.value), limit);
    return Ok((listing.entries, listing.truncated));
  }
}
