/** A disk on which a listing says it was cut, and was not (agent-computer/src/workspace.ts, `list`). */
module CutListings {
  import opened Prelude
  import opened FileTrees
  import opened Workspaces
  import opened WorkspaceLists

  const W: Path := ["w"]
  const FILE: Path := ["w", "f"]
  const LINK: Path := ["w", "l"]

  /** A disk whose workspace `/w` holds one empty file and one link. */
  const FILE_AND_LINK: Tree := map[[] := Dir, W := Dir, FILE := File([]), LINK := Link(Target(true, []))]

  /** The file's name comes first. */
  function FileFirst(d: Path): seq<Name> {
    if d == W then ["f", "l"] else if d == [] then ["w"] else []
  }

  lemma FileAndLinkOk()
    ensures TreeOk(FILE_AND_LINK)
  {
    assert Parent(FILE) == Parent(LINK) == W && Parent(W) == [];
    assert AllPlain(W) && AllPlain(FILE) && AllPlain(LINK);
  }

  lemma FileFirstLists()
    ensures Lists(FILE_AND_LINK, FileFirst)
  {
    forall n: Name
      ensures [] + [n] in FILE_AND_LINK <==> n == "w"
      ensures W + [n] in FILE_AND_LINK <==> n == "f" || n == "l"
    {
      assert ([] + [n])[0] == n && (W + [n])[1] == n;
      assert [] + ["w"] == W && W + ["f"] == FILE && W + ["l"] == LINK;
    }
    assert forall d :: d in FILE_AND_LINK && FILE_AND_LINK[d].Dir? ==> d == [] || d == W;
  }

  lemma FoundInW()
    requires Lists(FILE_AND_LINK, FileFirst)
    ensures Found(FILE_AND_LINK, FileFirst, W, W) == [Listed(FileEntry(["f"], 0)), Skipped(["l"])]
  {
    var names := ["f", "l"];
    assert names[1..] == ["l"] && ["l"][1..] == [];
    assert W + ["f"] == FILE && W + ["l"] == LINK && FILE[1..] == ["f"] && LINK[1..] == ["l"];
    assert FoundIn(FILE_AND_LINK, FileFirst, W, W, []) == [];
    assert FoundIn(FILE_AND_LINK, FileFirst, W, W, ["l"]) == [Skipped(["l"])];
    assert FoundIn(FILE_AND_LINK, FileFirst, W, W, names) == [Listed(FileEntry(["f"], 0))] + [Skipped(["l"])];
  }

  /** With a limit of one, the workspace's only entry is listed, and the listing says there was more. */
  lemma LinkCutsListing()
    ensures TreeOk(FILE_AND_LINK) && Lists(FILE_AND_LINK, FileFirst)
    ensures var items := Found(FILE_AND_LINK, FileFirst, W, W);
            && ListedOf(items) == [FileEntry(["f"], 0)]
            && After(NOTHING_YET, items, 1) == Progress(ListedOf(items), true)
  {
    FileAndLinkOk();
    FileFirstLists();
    FoundInW();
    ListedOfPair(FileEntry(["f"], 0), ["l"]);
    CutExactlyWhen(FILE_AND_LINK, FileFirst, W, W, 1);
    AfterIsBounded(Found(FILE_AND_LINK, FileFirst, W, W), 1);
  }

  lemma ListedOfPair(entry: Entry, link: Path)
    ensures ListedOf([Listed(entry), Skipped(link)]) == [entry]
  {
    var items := [Listed(entry), Skipped(link)];
    assert items[..1] == [Listed(entry)] && items[..1][..0] == [];
    assert ListedOf(items[..1]) == [entry];
  }

  lemma WorkspaceIsW()
    ensures RealPath(FILE_AND_LINK, W) == At(W, KERNEL_LINKS)
  {
    var next: Path := [] + ["w"];
    assert next == W && W[1..] == [];
    assert Walk(FILE_AND_LINK, W, [], KERNEL_LINKS) == At(W, KERNEL_LINKS);
  }

  lemma StartIsW(requested: string)
    requires requested == "."
    ensures StartOf(FILE_AND_LINK, W, requested) == Ok(W)
  {
    WorkspaceIsW();
  }

  /** And so says `list` itself. */
  method ListWorkspace(requested: string) returns (r: Result<(seq<Entry>, bool), Refusal>)
    requires requested == "."
    ensures r == Ok(([FileEntry(["f"], 0)], true))
  {
    LinkCutsListing();
    StartIsW(requested);
    WorkspaceIsW();
    ghost var items := Found(FILE_AND_LINK, FileFirst, W, W);
    r := List(FILE_AND_LINK, FileFirst, W, 1, requested);
    assert Bounded(Progress(r.value.0, r.value.1), items, 1);
    OnlyProgress(Progress(r.value.0, r.value.1), After(NOTHING_YET, items, 1), items, 1);
    AfterIsBounded(items, 1);
  }

  /** The items and the limit say what the walk comes to. */
  lemma OnlyProgress(p: Progress, q: Progress, items: seq<Item>, limit: nat)
    ensures Bounded(p, items, limit) && Bounded(q, items, limit) ==> p == q
  {
  }
}
