/**
 * The file collectors `walkFilesSync` and `walkFiles` hand the filter
 * `isFile` to the walker. The walker applies the filter before it descends,
 * so every directory is rejected and never entered, and only the root's own
 * files come back, although the walk is recursive by default.
 *
 * This module exhibits that on a two-level tree, and defines the collector
 * the names promise: walk with no filter and keep the file entries. It proves
 * that this collector returns every file reachable through directories within
 * the depth bound, in traversal order.
 */
module FilesFixed {
  import opened Wrappers
  import opened FsWalk
  import opened WalkFacts
  import WalkCollect

  function AcceptAll(e: WalkEntry): bool { true }

  /** The paths of the file entries among `es`, in order. */
  function FilesOf(es: seq<WalkEntry>): seq<seq<string>> {
    if |es| == 0 then [] else (if es[0].isFile then [es[0].path] else []) + FilesOf(es[1..])
  }

  lemma {:induction false} FilesOfCat(a: seq<WalkEntry>, b: seq<WalkEntry>)
    ensures FilesOf(a + b) == FilesOf(a) + FilesOf(b)
    decreases |a|
  {
    if |a| == 0 {
      assert a + b == b;
    } else {
      assert (a + b)[0] == a[0];
      assert (a + b)[1..] == a[1..] + b;
      FilesOfCat(a[1..], b);
    }
  }

  /** A file entry has nothing beneath it, so either order keeps it before the files below the others. */
  lemma FilesOfArrange(order: Order, we: WalkEntry, sub: seq<WalkEntry>)
    requires we.isFile ==> sub == []
    ensures FilesOf(Arrange(order, we, sub)) == (if we.isFile then [we.path] else []) + FilesOf(sub)
  {
    FilesOfCat([we], sub);
    FilesOfCat(sub, [we]);
    if we.isFile {
      assert sub + [we] == [we];
    }
  }

  /** Reference: every file reachable through directories, within the depth bound, in the walk's order. */
  function FilePaths(mode: Mode, opts: WalkOptions, dir: Node, path: seq<string>, depth: nat): seq<seq<string>>
    requires dir.Dir?
    decreases Size(dir), 1
  {
    if DepthCut(mode, opts.maxDepth, depth) then []
    else match dir.listing
      case Unreadable => []
      case Entries(items) => FileItemsAll(mode, opts, items, path, depth)
  }

  function FileItemsAll(mode: Mode, opts: WalkOptions, items: seq<Entry>, path: seq<string>, depth: nat): seq<seq<string>>
    decreases ItemsSize(items), 0
  {
    if |items| == 0 then []
    else FileOneAll(mode, opts, items[0], path, depth) + FileItemsAll(mode, opts, items[1..], path, depth)
  }

  function FileOneAll(mode: Mode, opts: WalkOptions, e: Entry, path: seq<string>, depth: nat): seq<seq<string>>
    decreases Size(e.node), 2
  {
    if ResolvesToFile(opts.followSymlinks, e.node) then [path + [e.name]]
    else if ResolvesToDir(opts.followSymlinks, e.node) && opts.recursive then
      FilePaths(mode, opts, Stat(e.node).value, path + [e.name], depth + 1)
    else []
  }

  /** Walking without a filter and keeping the files gives the reference, directory by directory. */
  lemma {:induction false} FilePathsMatch(mode: Mode, opts: WalkOptions, dir: Node, path: seq<string>, depth: nat)
    requires opts.filter == AcceptAll && dir.Dir? && |path| == depth
    ensures FilesOf(WalkDir(mode, opts, dir, path, depth).entries) == FilePaths(mode, opts, dir, path, depth)
    decreases Size(dir), 1
  {
    if !DepthCut(mode, opts.maxDepth, depth) && dir.listing.Entries? {
      FileItemsAllMatch(mode, opts, dir.listing.items, path, depth);
    }
  }

  lemma {:induction false} FileItemsAllMatch(mode: Mode, opts: WalkOptions, items: seq<Entry>, path: seq<string>, depth: nat)
    requires opts.filter == AcceptAll && |path| == depth && !DepthCut(mode, opts.maxDepth, depth)
    ensures FilesOf(WalkItems(mode, opts, items, path, depth).entries) == FileItemsAll(mode, opts, items, path, depth)
    decreases ItemsSize(items), 0
  {
    if |items| > 0 {
      var first := WalkOne(mode, opts, items[0], path, depth).entries;
      var rest := WalkItems(mode, opts, items[1..], path, depth).entries;
      ItemsStep(mode, opts, items, path, depth);
      FileOneAllMatch(mode, opts, items[0], path, depth);
      FileItemsAllMatch(mode, opts, items[1..], path, depth);
      FilesOfCat(first, rest);
    }
  }

  lemma {:induction false} FileOneAllMatch(mode: Mode, opts: WalkOptions, e: Entry, path: seq<string>, depth: nat)
    requires opts.filter == AcceptAll && |path| == depth && !DepthCut(mode, opts.maxDepth, depth)
    ensures FilesOf(WalkOne(mode, opts, e, path, depth).entries) == FileOneAll(mode, opts, e, path, depth)
    decreases Size(e.node), 2
  {
    ClassifyResolves(mode, opts.followSymlinks, e, path, depth);
    OneSteps(mode, opts, e, path, depth);
    var c := Classify(mode, opts.followSymlinks, e, path, depth);
    if c.visit.Some? {
      var v := c.visit.value;
      var p := path + [e.name];
      assert opts.filter(v.entry);
      if v.entry.isDirectory && opts.recursive {
        var sub := WalkDir(mode, opts, v.target, p, depth + 1).entries;
        FilePathsMatch(mode, opts, v.target, p, depth + 1);
        FilesOfArrange(opts.order, v.entry, sub);
      } else {
        assert FilesOf([v.entry]) == (if v.entry.isFile then [p] else []);
      }
    }
  }

  /** The reference does not look at the filter. */
  lemma {:induction false} FilePathsFilterFree(mode: Mode, o1: WalkOptions, o2: WalkOptions, dir: Node, path: seq<string>, depth: nat)
    requires o1.(filter := o2.filter) == o2 && dir.Dir?
    ensures FilePaths(mode, o1, dir, path, depth) == FilePaths(mode, o2, dir, path, depth)
    decreases Size(dir), 1
  {
    if !DepthCut(mode, o1.maxDepth, depth) && dir.listing.Entries? {
      FileItemsFilterFree(mode, o1, o2, dir.listing.items, path, depth);
    }
  }

  lemma {:induction false} FileItemsFilterFree(mode: Mode, o1: WalkOptions, o2: WalkOptions, items: seq<Entry>, path: seq<string>, depth: nat)
    requires o1.(filter := o2.filter) == o2
    ensures FileItemsAll(mode, o1, items, path, depth) == FileItemsAll(mode, o2, items, path, depth)
    decreases ItemsSize(items), 0
  {
    if |items| > 0 {
      FileOneFilterFree(mode, o1, o2, items[0], path, depth);
      FileItemsFilterFree(mode, o1, o2, items[1..], path, depth);
    }
  }

  lemma {:induction false} FileOneFilterFree(mode: Mode, o1: WalkOptions, o2: WalkOptions, e: Entry, path: seq<string>, depth: nat)
    requires o1.(filter := o2.filter) == o2
    ensures FileOneAll(mode, o1, e, path, depth) == FileOneAll(mode, o2, e, path, depth)
    decreases Size(e.node), 2
  {
    if !ResolvesToFile(o1.followSymlinks, e.node) && ResolvesToDir(o1.followSymlinks, e.node) && o1.recursive {
      FilePathsFilterFree(mode, o1, o2, Stat(e.node).value, path + [e.name], depth + 1);
    }
  }

  /**
   * The corrected collector: the walk with the caller's options and no
   * filter, keeping the file entries. It returns every reachable file.
   */
  function WalkFilesFixed(mode: Mode, root: Option<Node>, opts: WalkOptions): (r: Result<seq<seq<string>>, WalkError>)
    ensures r.Ok? <==> IsDirRoot(root)
    ensures r.Ok? ==> r.value == FilePaths(mode, opts, Stat(root.value).value, [], 0)
  {
    match Walk(mode, root, opts.(filter := AcceptAll))
    case Err(e) => Err(e)
    case Ok(out) =>
      var dir := Stat(root.value).value;
      FilePathsMatch(mode, opts.(filter := AcceptAll), dir, [], 0);
      FilePathsFilterFree(mode, opts, opts.(filter := AcceptAll), dir, [], 0);
      Ok(FilesOf(out.entries))
  }

  /** A root holding only the directory `a`, which holds only the file `f`. */
  function NestedTree(): Option<Node> {
    Some(Dir(Entries([Entry("a", Dir(Entries([Entry("f", File)])))])))
  }

  /** The files the reference finds in that tree. */
  lemma NestedFilePaths(mode: Mode, opts: WalkOptions)
    requires opts.recursive && !DepthCut(mode, opts.maxDepth, 0) && !DepthCut(mode, opts.maxDepth, 1)
    ensures FilePaths(mode, opts, NestedTree().value, [], 0) == [["a", "f"]]
  {
    var inner := Dir(Entries([Entry("f", File)]));
    var outer := [Entry("a", inner)];
    assert ["a"] + ["f"] == ["a", "f"];
    assert FileOneAll(mode, opts, Entry("f", File), ["a"], 1) == [["a", "f"]];
    assert FileItemsAll(mode, opts, [Entry("f", File)], ["a"], 1) == [["a", "f"]];
    assert FilePaths(mode, opts, inner, ["a"], 1) == [["a", "f"]];
    assert Stat(inner) == Some(inner);
    assert [] + ["a"] == ["a"];
    assert FileOneAll(mode, opts, outer[0], [], 0) == [["a", "f"]];
    assert FileItemsAll(mode, opts, outer, [], 0) == [["a", "f"]];
  }

  /** As written, both collectors miss `a/f` under the default options. */
  lemma NestedFileMissed()
    ensures WalkCollect.WalkFilesSync(NestedTree(), DefaultOptions()) == Ok([])
    ensures WalkCollect.WalkFiles(NestedTree(), DefaultOptions()) == Ok([])
  {
    var root := NestedTree();
    var items := [Entry("a", Dir(Entries([Entry("f", File)])))];
    assert Stat(root.value) == Some(root.value);
    assert FileItems(true, items, []) == [] by {
      assert FileItems(true, items[1..], []) == [];
    }
  }

  /** The corrected collector finds `a/f` in the same tree, under either walker. */
  lemma NestedFileFound(mode: Mode)
    ensures WalkFilesFixed(mode, NestedTree(), DefaultOptions()) == Ok([["a", "f"]])
  {
    NestedFilePaths(mode, DefaultOptions());
  }
}
