/**
 * Properties of the directory walkers of `FsWalk`: yield order, pruning by
 * the filter, the depth guard, and reference definitions of what the
 * file-only and directory-only wrappers collect.
 */
module WalkFacts {
  import opened Wrappers
  import opened FsWalk

  predicate ProperPrefix(a: seq<string>, b: seq<string>) {
    |a| < |b| && b[..|a|] == a
  }

  /** Pre-order: a directory comes before everything beneath it; post-order: after. */
  predicate Ordered(es: seq<WalkEntry>, order: Order) {
    forall i, j {:trigger ProperPrefix(es[i].path, es[j].path)} :: 0 <= i < |es| && 0 <= j < |es| && ProperPrefix(es[i].path, es[j].path) ==>
      (if order.Pre? then i < j else j < i)
  }

  function Names(items: seq<Entry>): set<string> {
    set k | 0 <= k < |items| :: items[k].name
  }

  /** Every entry of `es` lies under `path` and continues with a name from `names`. */
  predicate Under(es: seq<WalkEntry>, path: seq<string>, names: set<string>) {
    forall k :: 0 <= k < |es| ==> |es[k].path| > |path| && es[k].path[..|path|] == path && es[k].path[|path|] in names
  }

  lemma StatWellFormed(n: Node)
    requires WellFormed(n)
    ensures Stat(n).Some? ==> WellFormed(Stat(n).value)
  {
  }

  /** Paths under `path` that continue with different names are never prefixes of each other. */
  lemma SiblingsUnrelated(x: seq<string>, y: seq<string>, path: seq<string>)
    requires |x| > |path| && x[..|path|] == path
    requires |y| > |path| && y[..|path|] == path
    requires x[|path|] != y[|path|]
    ensures !ProperPrefix(x, y) && !ProperPrefix(y, x)
  {
    if |x| < |y| {
      assert y[..|x|][|path|] == y[|path|];
    }
    if |y| < |x| {
      assert x[..|y|][|path|] == x[|path|];
    }
  }

  lemma OrderedCat(a: seq<WalkEntry>, b: seq<WalkEntry>, order: Order, path: seq<string>, na: set<string>, nb: set<string>)
    requires Ordered(a, order) && Ordered(b, order)
    requires Under(a, path, na) && Under(b, path, nb) && na !! nb
    ensures Ordered(a + b, order)
  {
    var es := a + b;
    forall i, j | 0 <= i < |a| && |a| <= j < |es|
      ensures !ProperPrefix(es[i].path, es[j].path) && !ProperPrefix(es[j].path, es[i].path)
    {
      assert es[i] == a[i] && es[j] == b[j - |a|];
      SiblingsUnrelated(es[i].path, es[j].path, path);
    }
    forall i, j | 0 <= i < |es| && 0 <= j < |es| && ProperPrefix(es[i].path, es[j].path)
      ensures if order.Pre? then i < j else j < i
    {
      if i < |a| && j < |a| {
        assert es[i] == a[i] && es[j] == a[j];
      } else if i >= |a| && j >= |a| {
        assert es[i] == b[i - |a|] && es[j] == b[j - |a|];
      }
    }
  }

  lemma {:induction false} OrderedDir(mode: Mode, opts: WalkOptions, dir: Node, path: seq<string>, depth: nat)
    requires dir.Dir? && |path| == depth && WellFormed(dir)
    ensures Ordered(WalkDir(mode, opts, dir, path, depth).entries, opts.order)
    decreases Size(dir), 1
  {
    if !DepthCut(mode, opts.maxDepth, depth) && dir.listing.Entries? {
      OrderedItems(mode, opts, dir.listing.items, path, depth);
    }
  }

  lemma {:induction false} OrderedItems(mode: Mode, opts: WalkOptions, items: seq<Entry>, path: seq<string>, depth: nat)
    requires |path| == depth && !DepthCut(mode, opts.maxDepth, depth)
    requires DistinctNames(items) && ItemsWellFormed(items)
    ensures Ordered(WalkItems(mode, opts, items, path, depth).entries, opts.order)
    ensures Under(WalkItems(mode, opts, items, path, depth).entries, path, Names(items))
    decreases ItemsSize(items), 0
  {
    if |items| > 0 {
      var first := WalkOne(mode, opts, items[0], path, depth);
      var rest := WalkItems(mode, opts, items[1..], path, depth);
      OrderedOne(mode, opts, items[0], path, depth);
      NamesCons(items);
      OrderedItems(mode, opts, items[1..], path, depth);
      OrderedCat(first.entries, rest.entries, opts.order, path, {items[0].name}, Names(items[1..]));
      UnderCat(first.entries, rest.entries, path, {items[0].name}, Names(items[1..]));
    }
  }

  /** The names of a listing are its first name and the names of the rest, which (when distinct) do not repeat it. */
  lemma NamesCons(items: seq<Entry>)
    requires |items| > 0 && DistinctNames(items)
    ensures Names(items) == {items[0].name} + Names(items[1..])
    ensures DistinctNames(items[1..])
    ensures {items[0].name} !! Names(items[1..])
  {
    forall k | 0 <= k < |items[1..]| ensures items[1..][k] == items[k + 1] {
    }
    assert forall n :: n in Names(items[1..]) ==> n in Names(items);
    forall n | n in Names(items) ensures n == items[0].name || n in Names(items[1..]) {
      var m :| 0 <= m < |items| && items[m].name == n;
      if m > 0 {
        assert items[1..][m - 1].name == n;
      }
    }
  }

  lemma UnderCat(a: seq<WalkEntry>, b: seq<WalkEntry>, path: seq<string>, na: set<string>, nb: set<string>)
    requires Under(a, path, na) && Under(b, path, nb)
    ensures Under(a + b, path, na + nb)
  {
    forall k | 0 <= k < |a + b|
      ensures |(a + b)[k].path| > |path| && (a + b)[k].path[..|path|] == path && (a + b)[k].path[|path|] in na + nb
    {
      if k < |a| {
        assert (a + b)[k] == a[k];
      } else {
        assert (a + b)[k] == b[k - |a|];
      }
    }
  }

  /** An entry placed before or after its own subtree keeps the subtree's order. */
  lemma OrderedArrange(order: Order, we: WalkEntry, sub: seq<WalkEntry>)
    requires Ordered(sub, order)
    requires forall k :: 0 <= k < |sub| ==> |sub[k].path| > |we.path| && sub[k].path[..|we.path|] == we.path
    ensures Ordered(Arrange(order, we, sub), order)
  {
    if order.Pre? {
      OrderedBefore(we, sub);
    } else {
      OrderedAfter(we, sub);
    }
  }

  lemma OrderedBefore(we: WalkEntry, sub: seq<WalkEntry>)
    requires Ordered(sub, Pre)
    requires forall k :: 0 <= k < |sub| ==> |sub[k].path| > |we.path| && sub[k].path[..|we.path|] == we.path
    ensures Ordered([we] + sub, Pre)
  {
    var es := [we] + sub;
    forall i, j | 0 <= i < |es| && 0 <= j < |es| && ProperPrefix(es[i].path, es[j].path)
      ensures i < j
    {
      if i > 0 {
        assert es[i] == sub[i - 1];
        if j > 0 {
          assert es[j] == sub[j - 1];
        }
      }
    }
  }

  lemma OrderedAfter(we: WalkEntry, sub: seq<WalkEntry>)
    requires Ordered(sub, Post)
    requires forall k :: 0 <= k < |sub| ==> |sub[k].path| > |we.path| && sub[k].path[..|we.path|] == we.path
    ensures Ordered(sub + [we], Post)
  {
    var es := sub + [we];
    forall i, j | 0 <= i < |es| && 0 <= j < |es| && ProperPrefix(es[i].path, es[j].path)
      ensures j < i
    {
      if j < |sub| {
        assert es[j] == sub[j];
        if i < |sub| {
          assert es[i] == sub[i];
        }
      }
    }
  }

  /** Everything an entry's walk yields lies under the entry's own name. */
  lemma UnderArrange(order: Order, we: WalkEntry, sub: seq<WalkEntry>, path: seq<string>)
    requires we.path == path + [we.name]
    requires forall k :: 0 <= k < |sub| ==> |sub[k].path| > |we.path| && sub[k].path[..|we.path|] == we.path
    ensures Under(Arrange(order, we, sub), path, {we.name})
  {
    var p := we.path;
    var es := Arrange(order, we, sub);
    var at := if order.Pre? then 0 else |sub|;
    var off := if order.Pre? then 1 else 0;
    assert es[at] == we;
    forall k | 0 <= k < |es|
      ensures |es[k].path| > |path| && es[k].path[..|path|] == path && es[k].path[|path|] == we.name
    {
      if k != at {
        var x := sub[k - off];
        assert es[k] == x;
        assert x.path[..|path|] == x.path[..|p|][..|path|];
        assert x.path[|path|] == x.path[..|p|][|path|];
      }
    }
  }

  lemma {:induction false} OrderedOne(mode: Mode, opts: WalkOptions, e: Entry, path: seq<string>, depth: nat)
    requires |path| == depth && !DepthCut(mode, opts.maxDepth, depth)
    requires WellFormed(e.node)
    ensures Ordered(WalkOne(mode, opts, e, path, depth).entries, opts.order)
    ensures Under(WalkOne(mode, opts, e, path, depth).entries, path, {e.name})
    decreases Size(e.node), 2
  {
    var c := Classify(mode, opts.followSymlinks, e, path, depth);
    if c.visit.Some? && opts.filter(c.visit.value.entry) {
      var v := c.visit.value;
      var p := path + [e.name];
      if v.entry.isDirectory && opts.recursive {
        var sub := WalkDir(mode, opts, v.target, p, depth + 1);
        StatWellFormed(e.node);
        OrderedDir(mode, opts, v.target, p, depth + 1);
        assert forall k :: 0 <= k < |sub.entries| ==> EntryOk(mode, opts, sub.entries[k], p, depth + 1);
        OrderedArrange(opts.order, v.entry, sub.entries);
        UnderArrange(opts.order, v.entry, sub.entries, path);
      } else {
        OrderedArrange(opts.order, v.entry, []);
        UnderArrange(opts.order, v.entry, [], path);
      }
    }
  }

  /** The yield order of a walk over a well-formed tree: `"pre"` puts a directory before its descendants, `"post"` after them. */
  lemma WalkOrdered(mode: Mode, root: Option<Node>, opts: WalkOptions)
    requires root.Some? && WellFormed(root.value)
    requires Walk(mode, root, opts).Ok?
    ensures Ordered(Walk(mode, root, opts).value.entries, opts.order)
  {
    StatWellFormed(root.value);
    OrderedDir(mode, opts, Stat(root.value).value, [], 0);
  }

  /**
   * Nothing beneath a rejected entry is yielded: every directory on the way
   * from the root to a yielded entry was itself yielded, so it passed the
   * filter.
   */
  lemma {:induction false} AncestorsYielded(mode: Mode, opts: WalkOptions, es: seq<WalkEntry>, k: nat, n: nat)
    requires Sound(mode, opts, es, [], 0) && AncestorClosed(es, 0)
    requires k < |es| && 1 <= n < |es[k].path|
    ensures exists a :: 0 <= a < |es| && es[a].isDirectory && es[a].path == es[k].path[..n] && opts.filter(es[a])
    decreases |es[k].path| - n
  {
    var e := es[k];
    assert EntryOk(mode, opts, e, [], 0);
    assert HasDirAt(es, Parent(e.path));
    var a :| 0 <= a < |es| && es[a].isDirectory && es[a].path == Parent(e.path);
    assert EntryOk(mode, opts, es[a], [], 0);
    if n < |e.path| - 1 {
      AncestorsYielded(mode, opts, es, a, n);
      assert es[a].path[..n] == e.path[..n];
    }
  }

  lemma FilterPrunes(mode: Mode, root: Option<Node>, opts: WalkOptions, k: nat, n: nat)
    requires Walk(mode, root, opts).Ok?
    requires k < |Walk(mode, root, opts).value.entries|
    requires 1 <= n < |Walk(mode, root, opts).value.entries[k].path|
    ensures var es := Walk(mode, root, opts).value.entries;
            opts.filter(es[k])
            && exists a :: 0 <= a < |es| && es[a].isDirectory && es[a].path == es[k].path[..n] && opts.filter(es[a])
  {
    var es := Walk(mode, root, opts).value.entries;
    AncestorsYielded(mode, opts, es, k, n);
  }

  /** Two option records that cut the walk at the same depths give the same walk. */
  ghost predicate SameCuts(mode: Mode, o1: WalkOptions, o2: WalkOptions) {
    && o1.recursive == o2.recursive && o1.followSymlinks == o2.followSymlinks
    && o1.filter == o2.filter && o1.order == o2.order
    && forall d: int :: DepthCut(mode, o1.maxDepth, d) == DepthCut(mode, o2.maxDepth, d)
  }

  lemma {:induction false} SameCutsDir(mode: Mode, o1: WalkOptions, o2: WalkOptions, dir: Node, path: seq<string>, depth: nat)
    requires SameCuts(mode, o1, o2) && dir.Dir? && |path| == depth
    ensures WalkDir(mode, o1, dir, path, depth) == WalkDir(mode, o2, dir, path, depth)
    decreases Size(dir), 1
  {
    assert DepthCut(mode, o1.maxDepth, depth) == DepthCut(mode, o2.maxDepth, depth);
    if !DepthCut(mode, o1.maxDepth, depth) && dir.listing.Entries? {
      SameCutsItems(mode, o1, o2, dir.listing.items, path, depth);
    }
  }

  lemma {:induction false} SameCutsItems(mode: Mode, o1: WalkOptions, o2: WalkOptions, items: seq<Entry>, path: seq<string>, depth: nat)
    requires SameCuts(mode, o1, o2) && |path| == depth && !DepthCut(mode, o1.maxDepth, depth)
    ensures WalkItems(mode, o1, items, path, depth) == WalkItems(mode, o2, items, path, depth)
    decreases ItemsSize(items), 0
  {
    assert DepthCut(mode, o1.maxDepth, depth) == DepthCut(mode, o2.maxDepth, depth);
    if |items| > 0 {
      SameCutsOne(mode, o1, o2, items[0], path, depth);
      SameCutsItems(mode, o1, o2, items[1..], path, depth);
    }
  }

  lemma {:induction false} SameCutsOne(mode: Mode, o1: WalkOptions, o2: WalkOptions, e: Entry, path: seq<string>, depth: nat)
    requires SameCuts(mode, o1, o2) && |path| == depth && !DepthCut(mode, o1.maxDepth, depth)
    ensures WalkOne(mode, o1, e, path, depth) == WalkOne(mode, o2, e, path, depth)
    decreases Size(e.node), 2
  {
    assert DepthCut(mode, o1.maxDepth, depth) == DepthCut(mode, o2.maxDepth, depth);
    var c := Classify(mode, o1.followSymlinks, e, path, depth);
    if c.visit.Some? && o1.filter(c.visit.value.entry) && c.visit.value.entry.isDirectory && o1.recursive {
      SameCutsDir(mode, o1, o2, c.visit.value.target, path + [e.name], depth + 1);
    }
  }

  /** `walkSync` skips its depth guard when `maxDepth` is 0 (falsy), so 0 walks as deep as `Infinity`. */
  lemma SyncZeroDepthIsUnlimited(root: Option<Node>, opts: WalkOptions)
    ensures WalkSync(root, opts.(maxDepth := Finite(0))) == WalkSync(root, opts.(maxDepth := Infinite))
  {
    var o1, o2 := opts.(maxDepth := Finite(0)), opts.(maxDepth := Infinite);
    assert SameCuts(Sync, o1, o2);
    if root.Some? && Stat(root.value).Some? && Stat(root.value).value.Dir? {
      SameCutsDir(Sync, o1, o2, Stat(root.value).value, [], 0);
    }
  }

  /** The async walker has no such exception: with `maxDepth` 0 it yields only the root's own entries. */
  lemma AsyncZeroDepthIsRootOnly(root: Option<Node>, opts: WalkOptions)
    requires WalkAsync(root, opts.(maxDepth := Finite(0))).Ok?
    ensures forall e <- WalkAsync(root, opts.(maxDepth := Finite(0))).value.entries :: e.depth == 0
  {
    var es := WalkAsync(root, opts.(maxDepth := Finite(0))).value.entries;
    forall e <- es ensures e.depth == 0 {
      var k :| 0 <= k < |es| && es[k] == e;
      assert EntryOk(Async, opts.(maxDepth := Finite(0)), es[k], [], 0);
    }
  }

  /** What a walk with filter `isFile` yields from one directory listing: its entries that are (or link to) regular files. */
  predicate ResolvesToFile(follow: bool, n: Node) {
    if n.Symlink? then follow && Stat(n) == Some(File) else n.File?
  }

  predicate ResolvesToDir(follow: bool, n: Node) {
    if n.Symlink? then follow && Stat(n).Some? && Stat(n).value.Dir? else n.Dir?
  }

  /** Reference: the paths of the directly listed entries that are regular files, in `readdir` order. */
  function FileItems(follow: bool, items: seq<Entry>, path: seq<string>): (r: seq<seq<string>>)
    ensures forall q <- r :: |q| == |path| + 1 && q[..|path|] == path
  {
    if |items| == 0 then []
    else (if ResolvesToFile(follow, items[0].node) then [path + [items[0].name]] else [])
         + FileItems(follow, items[1..], path)
  }

  /** Reference: the paths a files-only walk of a root directory collects. */
  function RootFiles(mode: Mode, opts: WalkOptions, dir: Node): seq<seq<string>>
    requires dir.Dir?
  {
    if DepthCut(mode, opts.maxDepth, 0) then []
    else match dir.listing
      case Unreadable => []
      case Entries(items) => FileItems(opts.followSymlinks, items, [])
  }

  lemma PathsCat(a: seq<WalkEntry>, b: seq<WalkEntry>)
    ensures Paths(a + b) == Paths(a) + Paths(b)
  {
  }

  /** The loop over a non-empty listing yields the first entry's walk, then the rest's. */
  lemma ItemsStep(mode: Mode, opts: WalkOptions, items: seq<Entry>, path: seq<string>, depth: nat)
    requires |path| == depth && !DepthCut(mode, opts.maxDepth, depth) && |items| > 0
    ensures WalkItems(mode, opts, items, path, depth).entries
            == WalkOne(mode, opts, items[0], path, depth).entries + WalkItems(mode, opts, items[1..], path, depth).entries
  {
  }

  /** With the filter `isFile`, one entry yields its own path exactly when it is (or links to) a regular file. */
  lemma FileOne(mode: Mode, opts: WalkOptions, e: Entry, path: seq<string>, depth: nat)
    requires opts.filter == IsFileEntry
    requires |path| == depth && !DepthCut(mode, opts.maxDepth, depth)
    ensures Paths(WalkOne(mode, opts, e, path, depth).entries)
            == if ResolvesToFile(opts.followSymlinks, e.node) then [path + [e.name]] else []
  {
    ClassifyResolves(mode, opts.followSymlinks, e, path, depth);
    OneSteps(mode, opts, e, path, depth);
  }

  lemma FileItemsStep(follow: bool, items: seq<Entry>, path: seq<string>)
    requires |items| > 0
    ensures FileItems(follow, items, path)
            == (if ResolvesToFile(follow, items[0].node) then [path + [items[0].name]] else []) + FileItems(follow, items[1..], path)
  {
  }

  /** With the filter `isFile`, directories are rejected and so never entered: only the listed files remain. */
  lemma {:induction false} FileItemsMatch(mode: Mode, opts: WalkOptions, items: seq<Entry>, path: seq<string>, depth: nat)
    requires opts.filter == IsFileEntry
    requires |path| == depth && !DepthCut(mode, opts.maxDepth, depth)
    ensures Paths(WalkItems(mode, opts, items, path, depth).entries) == FileItems(opts.followSymlinks, items, path)
    decreases |items|
  {
    if |items| > 0 {
      var first := WalkOne(mode, opts, items[0], path, depth).entries;
      var rest := WalkItems(mode, opts, items[1..], path, depth).entries;
      ItemsStep(mode, opts, items, path, depth);
      FileOne(mode, opts, items[0], path, depth);
      FileItemsMatch(mode, opts, items[1..], path, depth);
      PathsCat(first, rest);
      FileItemsStep(opts.followSymlinks, items, path);
    }
  }

  lemma RootFilesMatch(mode: Mode, root: Option<Node>, opts: WalkOptions)
    requires opts.filter == IsFileEntry
    ensures Walk(mode, root, opts).Ok? ==>
              Paths(Walk(mode, root, opts).value.entries) == RootFiles(mode, opts, Stat(root.value).value)
  {
    if Walk(mode, root, opts).Ok? {
      var dir := Stat(root.value).value;
      if !DepthCut(mode, opts.maxDepth, 0) && dir.listing.Entries? {
        FileItemsMatch(mode, opts, dir.listing.items, [], 0);
      }
    }
  }

  /** Reference: every directory reachable through directories, within the depth bound, in the walk's order. */
  function DirPaths(mode: Mode, opts: WalkOptions, dir: Node, path: seq<string>, depth: nat): seq<seq<string>>
    requires dir.Dir?
    decreases Size(dir), 1
  {
    if DepthCut(mode, opts.maxDepth, depth) then []
    else match dir.listing
      case Unreadable => []
      case Entries(items) => DirItems(mode, opts, items, path, depth)
  }

  function DirItems(mode: Mode, opts: WalkOptions, items: seq<Entry>, path: seq<string>, depth: nat): seq<seq<string>>
    decreases ItemsSize(items), 0
  {
    if |items| == 0 then [] else DirOne(mode, opts, items[0], path, depth) + DirItems(mode, opts, items[1..], path, depth)
  }

  function DirOne(mode: Mode, opts: WalkOptions, e: Entry, path: seq<string>, depth: nat): seq<seq<string>>
    decreases Size(e.node), 2
  {
    if !ResolvesToDir(opts.followSymlinks, e.node) then []
    else
      var target := Stat(e.node).value;
      var below := if opts.recursive then DirPaths(mode, opts, target, path + [e.name], depth + 1) else [];
      if opts.order.Pre? then [path + [e.name]] + below else below + [path + [e.name]]
  }

  lemma {:induction false} DirPathsMatch(mode: Mode, opts: WalkOptions, dir: Node, path: seq<string>, depth: nat)
    requires opts.filter == IsDirectoryEntry && dir.Dir? && |path| == depth
    ensures Paths(WalkDir(mode, opts, dir, path, depth).entries) == DirPaths(mode, opts, dir, path, depth)
    decreases Size(dir), 1
  {
    if !DepthCut(mode, opts.maxDepth, depth) && dir.listing.Entries? {
      DirItemsMatch(mode, opts, dir.listing.items, path, depth);
    }
  }

  lemma {:induction false} DirItemsMatch(mode: Mode, opts: WalkOptions, items: seq<Entry>, path: seq<string>, depth: nat)
    requires opts.filter == IsDirectoryEntry && |path| == depth && !DepthCut(mode, opts.maxDepth, depth)
    ensures Paths(WalkItems(mode, opts, items, path, depth).entries) == DirItems(mode, opts, items, path, depth)
    decreases ItemsSize(items), 0
  {
    if |items| > 0 {
      var first := WalkOne(mode, opts, items[0], path, depth);
      var rest := WalkItems(mode, opts, items[1..], path, depth);
      DirOneMatch(mode, opts, items[0], path, depth);
      DirItemsMatch(mode, opts, items[1..], path, depth);
      PathsCat(first.entries, rest.entries);
    }
  }

  /** How `Classify` decides the two flags the wrappers filter on. */
  lemma ClassifyResolves(mode: Mode, follow: bool, e: Entry, path: seq<string>, depth: nat)
    ensures var c := Classify(mode, follow, e, path, depth);
            && (c.visit.Some? ==> c.visit.value.entry.isDirectory == ResolvesToDir(follow, e.node)
                                  && c.visit.value.entry.isFile == ResolvesToFile(follow, e.node))
            && (c.visit.Some? && c.visit.value.entry.isDirectory ==> c.visit.value.target == Stat(e.node).value)
            && (c.visit.None? ==> !ResolvesToDir(follow, e.node) && !ResolvesToFile(follow, e.node))
  {
  }

  /** One iteration of the loop, unfolded: what it yields for an entry the filter rejects or accepts. */
  lemma OneSteps(mode: Mode, opts: WalkOptions, e: Entry, path: seq<string>, depth: nat)
    requires |path| == depth && !DepthCut(mode, opts.maxDepth, depth)
    ensures var c := Classify(mode, opts.followSymlinks, e, path, depth);
            var out := WalkOne(mode, opts, e, path, depth);
            && (c.visit.None? || !opts.filter(c.visit.value.entry) ==> out.entries == [])
            && (c.visit.Some? && opts.filter(c.visit.value.entry) && !(c.visit.value.entry.isDirectory && opts.recursive) ==>
                  out.entries == [c.visit.value.entry])
            && (c.visit.Some? && opts.filter(c.visit.value.entry) && c.visit.value.entry.isDirectory && opts.recursive ==>
                  out.entries == Arrange(opts.order, c.visit.value.entry,
                                         WalkDir(mode, opts, c.visit.value.target, path + [e.name], depth + 1).entries))
  {
  }

  /** With the filter `isDirectory`, what one entry yields: nothing, or its directory arranged with the walk beneath it. */
  lemma DirOneSteps(mode: Mode, opts: WalkOptions, e: Entry, path: seq<string>, depth: nat)
    requires opts.filter == IsDirectoryEntry && |path| == depth && !DepthCut(mode, opts.maxDepth, depth)
    ensures !ResolvesToDir(opts.followSymlinks, e.node) ==> WalkOne(mode, opts, e, path, depth).entries == []
    ensures ResolvesToDir(opts.followSymlinks, e.node) ==>
              var v := Classify(mode, opts.followSymlinks, e, path, depth).visit;
              && v.Some? && v.value.entry.path == path + [e.name] && v.value.target == Stat(e.node).value
              && v.value.target.Dir?
              && WalkOne(mode, opts, e, path, depth).entries
                 == Arrange(opts.order, v.value.entry,
                            if opts.recursive then WalkDir(mode, opts, v.value.target, path + [e.name], depth + 1).entries else [])
  {
    ClassifyResolves(mode, opts.followSymlinks, e, path, depth);
    OneSteps(mode, opts, e, path, depth);
  }

  lemma PathsArrange(order: Order, we: WalkEntry, sub: seq<WalkEntry>)
    ensures Paths(Arrange(order, we, sub)) == if order.Pre? then [we.path] + Paths(sub) else Paths(sub) + [we.path]
  {
    PathsCat([we], sub);
    PathsCat(sub, [we]);
  }

  lemma {:induction false} DirOneMatch(mode: Mode, opts: WalkOptions, e: Entry, path: seq<string>, depth: nat)
    requires opts.filter == IsDirectoryEntry && |path| == depth && !DepthCut(mode, opts.maxDepth, depth)
    ensures Paths(WalkOne(mode, opts, e, path, depth).entries) == DirOne(mode, opts, e, path, depth)
    decreases Size(e.node), 2
  {
    DirOneSteps(mode, opts, e, path, depth);
    if ResolvesToDir(opts.followSymlinks, e.node) {
      var v := Classify(mode, opts.followSymlinks, e, path, depth).visit.value;
      var p := path + [e.name];
      var sub := if opts.recursive then WalkDir(mode, opts, v.target, p, depth + 1).entries else [];
      var below := if opts.recursive then DirPaths(mode, opts, v.target, p, depth + 1) else [];
      if opts.recursive {
        DirPathsMatch(mode, opts, v.target, p, depth + 1);
      }
      assert Paths(sub) == below;
      PathsArrange(opts.order, v.entry, sub);
      assert DirOne(mode, opts, e, path, depth) == if opts.order.Pre? then [p] + below else below + [p];
    }
  }

  lemma DirectoriesMatch(mode: Mode, root: Option<Node>, opts: WalkOptions)
    requires opts.filter == IsDirectoryEntry
    ensures Walk(mode, root, opts).Ok? ==>
              Paths(Walk(mode, root, opts).value.entries) == DirPaths(mode, opts, Stat(root.value).value, [], 0)
  {
    if Walk(mode, root, opts).Ok? {
      DirPathsMatch(mode, opts, Stat(root.value).value, [], 0);
    }
  }

  /** The reference for directories does not look at the filter. */
  lemma {:induction false} DirPathsFilterFree(mode: Mode, o1: WalkOptions, o2: WalkOptions, dir: Node, path: seq<string>, depth: nat)
    requires o1.(filter := o2.filter) == o2 && dir.Dir?
    ensures DirPaths(mode, o1, dir, path, depth) == DirPaths(mode, o2, dir, path, depth)
    decreases Size(dir), 1
  {
    if !DepthCut(mode, o1.maxDepth, depth) && dir.listing.Entries? {
      DirItemsFilterFree(mode, o1, o2, dir.listing.items, path, depth);
    }
  }

  lemma {:induction false} DirItemsFilterFree(mode: Mode, o1: WalkOptions, o2: WalkOptions, items: seq<Entry>, path: seq<string>, depth: nat)
    requires o1.(filter := o2.filter) == o2
    ensures DirItems(mode, o1, items, path, depth) == DirItems(mode, o2, items, path, depth)
    decreases ItemsSize(items), 0
  {
    if |items| > 0 {
      DirOneFilterFree(mode, o1, o2, items[0], path, depth);
      DirItemsFilterFree(mode, o1, o2, items[1..], path, depth);
    }
  }

  lemma {:induction false} DirOneFilterFree(mode: Mode, o1: WalkOptions, o2: WalkOptions, e: Entry, path: seq<string>, depth: nat)
    requires o1.(filter := o2.filter) == o2
    ensures DirOne(mode, o1, e, path, depth) == DirOne(mode, o2, e, path, depth)
    decreases Size(e.node), 2
  {
    if ResolvesToDir(o1.followSymlinks, e.node) && o1.recursive {
      DirPathsFilterFree(mode, o1, o2, Stat(e.node).value, path + [e.name], depth + 1);
    }
  }

  /** What a directories-only walk collects, for any options the caller passes. */
  lemma DirPathsIgnoreFilter(mode: Mode, opts: WalkOptions, root: Option<Node>)
    ensures IsDirRoot(root) ==>
              DirPaths(mode, opts, Stat(root.value).value, [], 0)
              == DirPaths(mode, opts.(filter := IsDirectoryEntry), Stat(root.value).value, [], 0)
  {
    if IsDirRoot(root) {
      DirPathsFilterFree(mode, opts, opts.(filter := IsDirectoryEntry), Stat(root.value).value, [], 0);
    }
  }

  /** The loop over a listing is the loop over its first part followed by the loop over the rest. */
  lemma ItemsCons(mode: Mode, opts: WalkOptions, a: seq<Entry>, b: seq<Entry>, path: seq<string>, depth: nat)
    requires |path| == depth && !DepthCut(mode, opts.maxDepth, depth) && |a| > 0
    ensures WalkItems(mode, opts, a + b, path, depth)
            == Cat(WalkOne(mode, opts, a[0], path, depth), WalkItems(mode, opts, a[1..] + b, path, depth))
  {
    assert (a + b)[1..] == a[1..] + b;
    assert (a + b)[0] == a[0];
  }

  lemma CatAssoc(x: WalkOut, y: WalkOut, z: WalkOut)
    ensures Cat(x, Cat(y, z)) == Cat(Cat(x, y), z)
  {
    assert x.entries + (y.entries + z.entries) == (x.entries + y.entries) + z.entries;
    assert x.errors + (y.errors + z.errors) == (x.errors + y.errors) + z.errors;
  }

  lemma {:induction false} WalkItemsAppend(mode: Mode, opts: WalkOptions, a: seq<Entry>, b: seq<Entry>, path: seq<string>, depth: nat)
    requires |path| == depth && !DepthCut(mode, opts.maxDepth, depth)
    ensures WalkItems(mode, opts, a + b, path, depth) == Cat(WalkItems(mode, opts, a, path, depth), WalkItems(mode, opts, b, path, depth))
    decreases |a|
  {
    if |a| == 0 {
      assert a + b == b;
    } else {
      var x := WalkOne(mode, opts, a[0], path, depth);
      var y := WalkItems(mode, opts, a[1..], path, depth);
      var z := WalkItems(mode, opts, b, path, depth);
      ItemsCons(mode, opts, a, b, path, depth);
      WalkItemsAppend(mode, opts, a[1..], b, path, depth);
      CatAssoc(x, y, z);
    }
  }

  /**
   * A subdirectory whose `readdir` fails is reported at its own entry's
   * depth (`currentDepth - 1` inside the failed call), and the siblings
   * listed after it are walked as usual.
   */
  lemma UnreadableSubdirectory(mode: Mode, opts: WalkOptions, before: seq<Entry>, name: string, after: seq<Entry>, path: seq<string>, depth: nat)
    requires |path| == depth && !DepthCut(mode, opts.maxDepth, depth) && !DepthCut(mode, opts.maxDepth, depth + 1)
    requires opts.recursive
    requires opts.filter(WalkEntry(path + [name], name, false, true, false, depth, false))
    ensures var we := WalkEntry(path + [name], name, false, true, false, depth, false);
            WalkItems(mode, opts, before + [Entry(name, Dir(Unreadable))] + after, path, depth)
            == Cat(Cat(WalkItems(mode, opts, before, path, depth),
                       WalkOut([we], [ErrorReport(path + [name], false, true, false, depth)])),
                   WalkItems(mode, opts, after, path, depth))
  {
    var bad := Entry(name, Dir(Unreadable));
    WalkItemsAppend(mode, opts, before + [bad], after, path, depth);
    WalkItemsAppend(mode, opts, before, [bad], path, depth);
    UnreadableOne(mode, opts, name, path, depth);
    assert [bad][1..] == [];
    assert WalkItems(mode, opts, [bad], path, depth) == Cat(WalkOne(mode, opts, bad, path, depth), Empty());
  }

  /** The one iteration for an unreadable subdirectory: the entry, and the failed `readdir` reported. */
  lemma UnreadableOne(mode: Mode, opts: WalkOptions, name: string, path: seq<string>, depth: nat)
    requires |path| == depth && !DepthCut(mode, opts.maxDepth, depth) && !DepthCut(mode, opts.maxDepth, depth + 1)
    requires opts.recursive
    requires opts.filter(WalkEntry(path + [name], name, false, true, false, depth, false))
    ensures WalkOne(mode, opts, Entry(name, Dir(Unreadable)), path, depth)
            == WalkOut([WalkEntry(path + [name], name, false, true, false, depth, false)],
                       [ErrorReport(path + [name], false, true, false, depth)])
  {
    var bad := Entry(name, Dir(Unreadable));
    var we := WalkEntry(path + [name], name, false, true, false, depth, false);
    var report := ErrorReport(path + [name], false, true, false, depth);
    assert Classify(mode, opts.followSymlinks, bad, path, depth) == Classified([], Some(Visit(we, bad.node)));
    assert WalkDir(mode, opts, bad.node, path + [name], depth + 1) == WalkOut([], [report]);
    assert Arrange(opts.order, we, []) == [we];
  }

  /** A dangling symlink: `walkSync` yields it as neither file nor directory, `walk` skips it; both report it. */
  lemma DanglingSymlink(opts: WalkOptions)
    requires opts.followSymlinks
    requires opts.filter(WalkEntry(["l"], "l", false, false, true, 0, false))
    requires !DepthCut(Sync, opts.maxDepth, 0) && !DepthCut(Async, opts.maxDepth, 0)
    ensures var root := Some(Dir(Entries([Entry("l", Symlink(None))])));
            && WalkSync(root, opts) == Ok(WalkOut([WalkEntry(["l"], "l", false, false, true, 0, false)],
                                                   [ErrorReport(["l"], false, false, true, 0)]))
            && WalkAsync(root, opts) == Ok(WalkOut([], [ErrorReport(["l"], false, false, true, 0)]))
  {
    var link := Entry("l", Symlink(None));
    var items := [link];
    var dir := Dir(Entries(items));
    var we := WalkEntry(["l"], "l", false, false, true, 0, false);
    var report := ErrorReport(["l"], false, false, true, 0);
    assert items[1..] == [];
    assert Stat(dir) == Some(dir);
    assert Stat(link.node) == None;
    assert [] + [link.name] == ["l"];
    assert Classify(Sync, true, link, [], 0) == Classified([report], Some(Visit(we, link.node)));
    assert Classify(Async, true, link, [], 0) == Classified([report], None);
    assert WalkOne(Sync, opts, link, [], 0) == WalkOut(Arrange(opts.order, we, []), [report] + []);
    assert WalkOne(Async, opts, link, [], 0) == WalkOut([], [report]);
    assert WalkItems(Sync, opts, items, [], 0) == Cat(WalkOne(Sync, opts, link, [], 0), Empty());
    assert WalkItems(Async, opts, items, [], 0) == Cat(WalkOne(Async, opts, link, [], 0), Empty());
    assert WalkDir(Sync, opts, dir, [], 0) == WalkItems(Sync, opts, items, [], 0);
    assert WalkDir(Async, opts, dir, [], 0) == WalkItems(Async, opts, items, [], 0);
    assert Arrange(opts.order, we, []) == [we];
    assert WalkSync(Some(dir), opts) == Ok(WalkDir(Sync, opts, dir, [], 0));
    assert WalkAsync(Some(dir), opts) == Ok(WalkDir(Async, opts, dir, [], 0));
    assert WalkOne(Sync, opts, link, [], 0) == WalkOut([we], [report]);
    assert Cat(WalkOut([we], [report]), Empty()) == WalkOut([we], [report]);
    assert WalkSync(Some(dir), opts) == Ok(WalkOut([we], [report]));
    assert WalkAsync(Some(dir), opts) == Ok(WalkOut([], [report]));
  }
}
