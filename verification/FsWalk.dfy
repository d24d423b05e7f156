/**
 * The directory walkers of the shared package: `walkSync` (a generator) and
 * `walk` (an async generator), which share one algorithm and differ in two
 * places, and the four wrappers that collect only files or only directories.
 *
 * The filesystem is an immutable tree. A path is the sequence of entry names
 * from the root (the root itself is `[]`); the string joining done by
 * `path.join`/`path.resolve` is not interpreted. The generator is modelled by
 * everything it yields when run to completion, together with every report it
 * makes to `onError`.
 */
module FsWalk {
  import opened Wrappers

  /** A filesystem object as `readdir` and `stat` see it. */
  datatype Node =
    | File
    | Other                           // socket, FIFO, device: neither a file nor a directory
    | Dir(listing: Listing)
    | Symlink(target: Option<Node>)   // `None`: dangling, so `stat` through it fails

  /** What `readdir` returns for a directory: its entries in order, or a failure. */
  datatype Listing = Unreadable | Entries(items: seq<Entry>)

  datatype Entry = Entry(name: string, node: Node)

  /** A measure that every step of the walk makes smaller. */
  function Size(n: Node): nat
    decreases n
  {
    match n
    case File => 1
    case Other => 1
    case Dir(listing) =>
      (match listing
       case Unreadable => 1
       case Entries(items) => 1 + ItemsSize(items))
    case Symlink(t) =>
      (match t
       case None => 1
       case Some(x) => 1 + Size(x))
  }

  function ItemsSize(items: seq<Entry>): nat
    decreases items
  {
    if |items| == 0 then 0 else 1 + Size(items[0].node) + ItemsSize(items[1..])
  }

  /** `stat`: follows symbolic links to the object they finally name; `None` when it fails. */
  function Stat(n: Node): (r: Option<Node>)
    ensures r.Some? ==> !r.value.Symlink? && Size(r.value) <= Size(n)
    ensures !n.Symlink? ==> r == Some(n)
    decreases n
  {
    match n
    case Symlink(t) =>
      (match t
       case None => None
       case Some(x) => Stat(x))
    case _ => Some(n)
  }

  /** Entry names are unique within every directory (as on a real filesystem). */
  predicate WellFormed(n: Node)
    decreases n
  {
    match n
    case File => true
    case Other => true
    case Dir(listing) =>
      (match listing
       case Unreadable => true
       case Entries(items) => DistinctNames(items) && ItemsWellFormed(items))
    case Symlink(t) =>
      (match t
       case None => true
       case Some(x) => WellFormed(x))
  }

  predicate ItemsWellFormed(items: seq<Entry>)
    decreases items
  {
    |items| == 0 || (WellFormed(items[0].node) && ItemsWellFormed(items[1..]))
  }

  predicate DistinctNames(items: seq<Entry>) {
    forall i, j :: 0 <= i < j < |items| ==> items[i].name != items[j].name
  }

  /** One yielded `WalkEntry`. `hasStats` tells whether the `stats` field is set. */
  datatype WalkEntry = WalkEntry(
    path: seq<string>,
    name: string,
    isFile: bool,
    isDirectory: bool,
    isSymbolicLink: bool,
    depth: nat,
    hasStats: bool)

  /** One call of `onError`: the entry it describes (the error object itself is not modelled). */
  datatype ErrorReport = ErrorReport(
    path: seq<string>,
    isFile: bool,
    isDirectory: bool,
    isSymbolicLink: bool,
    depth: int)

  /** `maxDepth` after the options are merged: a number, `Infinity`, or `NaN`/`undefined` (both compare false and are falsy). */
  datatype MaxDepth = Finite(n: int) | Infinite | Unset

  datatype Order = Pre | Post

  /** The two walkers: `walkSync` (walk.ts) and the async `walk` (walk.ts and promises.ts). */
  datatype Mode = Sync | Async

  /** The merged options; `onError` is modelled by the returned reports. */
  datatype WalkOptions = WalkOptions(
    recursive: bool,
    maxDepth: MaxDepth,
    followSymlinks: bool,
    filter: WalkEntry -> bool,
    order: Order)

  /** `DEFAULT_OPTIONS`. */
  function DefaultOptions(): WalkOptions {
    WalkOptions(true, Infinite, true, _ => true, Pre)
  }

  /** JavaScript truthiness of the merged `maxDepth`. */
  predicate Truthy(m: MaxDepth) {
    match m
    case Finite(n) => n != 0
    case Infinite => true
    case Unset => false
  }

  /** `currentDepth > opts.maxDepth`. */
  predicate Exceeds(depth: int, m: MaxDepth) {
    match m
    case Finite(n) => depth > n
    case Infinite => false
    case Unset => false
  }

  /** Whether `walkRecursive` returns at once at this depth: `walkSync` tests `maxDepth` for truthiness first. */
  predicate DepthCut(mode: Mode, m: MaxDepth, depth: int)
    ensures DepthCut(mode, m, depth) <==> m.Finite? && depth > m.n && (mode == Async || m.n != 0)
  {
    match mode
    case Sync => Truthy(m) && Exceeds(depth, m)
    case Async => Exceeds(depth, m)
  }

  /** What the walker yields and reports. */
  datatype WalkOut = WalkOut(entries: seq<WalkEntry>, errors: seq<ErrorReport>)

  function Empty(): WalkOut {
    WalkOut([], [])
  }

  function Cat(a: WalkOut, b: WalkOut): WalkOut {
    WalkOut(a.entries + b.entries, a.errors + b.errors)
  }

  /** An entry that survived the symlink rules, with the node to read if the walk descends into it. */
  datatype Visit = Visit(entry: WalkEntry, target: Node)

  datatype Classified = Classified(errors: seq<ErrorReport>, visit: Option<Visit>)

  /**
   * The part of the loop body before the filter: skip an unfollowed symlink,
   * `stat` a followed one. When that `stat` fails both walkers report it;
   * `walkSync` then keeps the entry with the dirent's flags (both false) and
   * no stats, while `walk` skips it.
   */
  function Classify(mode: Mode, follow: bool, e: Entry, path: seq<string>, depth: nat): (c: Classified)
    ensures c.visit.Some? ==> Size(c.visit.value.target) <= Size(e.node)
    ensures c.visit.Some? ==> (c.visit.value.entry.path == path + [e.name]
                               && c.visit.value.entry.name == e.name
                               && c.visit.value.entry.depth == depth)
    ensures c.visit.Some? && c.visit.value.entry.isDirectory ==> c.visit.value.target.Dir?
    ensures c.visit.Some? && c.visit.value.entry.isFile ==> !c.visit.value.entry.isDirectory
    ensures c.visit.Some? ==> c.visit.value.entry.isSymbolicLink == e.node.Symlink?
    ensures e.node.Symlink? && !follow ==> c == Classified([], None)
    ensures !e.node.Symlink? ==> c.errors == [] && c.visit.Some?
  {
    var full := path + [e.name];
    if e.node.Symlink? && !follow then Classified([], None)
    else if e.node.Symlink? then
      match Stat(e.node)
      case None =>
        var report := ErrorReport(full, false, false, true, depth);
        if mode.Async? then Classified([report], None)
        else Classified([report], Some(Visit(WalkEntry(full, e.name, false, false, true, depth, false), e.node)))
      case Some(t) =>
        Classified([], Some(Visit(WalkEntry(full, e.name, t.File?, t.Dir?, true, depth, true), t)))
    else
      Classified([], Some(Visit(WalkEntry(full, e.name, e.node.File?, e.node.Dir?, false, depth, false), e.node)))
  }

  /** The facts every yielded entry satisfies, for a walk started at `path`, `depth`. */
  predicate EntryOk(mode: Mode, opts: WalkOptions, e: WalkEntry, path: seq<string>, depth: nat) {
    && |e.path| == |path| + 1 + (e.depth - depth)
    && e.depth >= depth
    && e.path[..|path|] == path
    && e.path[|e.path| - 1] == e.name
    && opts.filter(e)
    && !DepthCut(mode, opts.maxDepth, e.depth)
    && (!opts.recursive ==> e.depth == depth)
    && (!opts.followSymlinks ==> !e.isSymbolicLink)
    && (e.isSymbolicLink && !e.hasStats ==> mode.Sync? && !e.isFile && !e.isDirectory)
    && !(e.isFile && e.isDirectory)
  }

  predicate Sound(mode: Mode, opts: WalkOptions, es: seq<WalkEntry>, path: seq<string>, depth: nat) {
    forall k :: 0 <= k < |es| ==> EntryOk(mode, opts, es[k], path, depth)
  }

  /** The path of the directory holding the object at `p`. */
  function Parent(p: seq<string>): seq<string> {
    if |p| == 0 then [] else p[..|p| - 1]
  }

  /** Some yielded entry is the directory at path `p`. */
  predicate HasDirAt(es: seq<WalkEntry>, p: seq<string>) {
    exists a :: 0 <= a < |es| && es[a].isDirectory && es[a].path == p
  }

  /** Every entry below the starting level has its parent directory among the yielded entries. */
  predicate AncestorClosed(es: seq<WalkEntry>, depth: nat) {
    forall k {:trigger Parent(es[k].path)} :: 0 <= k < |es| && es[k].depth > depth ==> HasDirAt(es, Parent(es[k].path))
  }

  lemma HasDirAtCat(a: seq<WalkEntry>, b: seq<WalkEntry>, p: seq<string>)
    ensures HasDirAt(a, p) ==> HasDirAt(a + b, p)
    ensures HasDirAt(b, p) ==> HasDirAt(a + b, p)
  {
    if HasDirAt(a, p) {
      var x :| 0 <= x < |a| && a[x].isDirectory && a[x].path == p;
      assert (a + b)[x] == a[x];
    }
    if HasDirAt(b, p) {
      var x :| 0 <= x < |b| && b[x].isDirectory && b[x].path == p;
      assert (a + b)[x + |a|] == b[x];
    }
  }

  lemma CatClosed(a: seq<WalkEntry>, b: seq<WalkEntry>, depth: nat)
    requires AncestorClosed(a, depth) && AncestorClosed(b, depth)
    ensures AncestorClosed(a + b, depth)
  {
    var es := a + b;
    forall k | 0 <= k < |es| && es[k].depth > depth
      ensures HasDirAt(es, Parent(es[k].path))
    {
      if k < |a| {
        assert es[k] == a[k];
        HasDirAtCat(a, b, Parent(a[k].path));
      } else {
        assert es[k] == b[k - |a|];
        HasDirAtCat(a, b, Parent(b[k - |a|].path));
      }
    }
  }

  /**
   * `walkRecursive(currentPath, currentDepth)` for a directory node: the
   * depth guard, then `readdir`, whose failure is reported at depth
   * `currentDepth - 1`.
   */
  function WalkDir(mode: Mode, opts: WalkOptions, dir: Node, path: seq<string>, depth: nat): (out: WalkOut)
    requires dir.Dir?
    requires |path| == depth
    ensures Sound(mode, opts, out.entries, path, depth)
    ensures AncestorClosed(out.entries, depth)
    ensures DepthCut(mode, opts.maxDepth, depth) ==> out == Empty()
    ensures !DepthCut(mode, opts.maxDepth, depth) && dir.listing.Unreadable? ==>
              out == WalkOut([], [ErrorReport(path, false, true, false, depth - 1)])
    decreases Size(dir), 1
  {
    if DepthCut(mode, opts.maxDepth, depth) then Empty()
    else
      match dir.listing
      case Unreadable => WalkOut([], [ErrorReport(path, false, true, false, depth - 1)])
      case Entries(items) => WalkItems(mode, opts, items, path, depth)
  }

  /** The `for` loop over one directory's entries, from the first remaining one. */
  function WalkItems(mode: Mode, opts: WalkOptions, items: seq<Entry>, path: seq<string>, depth: nat): (out: WalkOut)
    requires |path| == depth
    requires !DepthCut(mode, opts.maxDepth, depth)
    ensures Sound(mode, opts, out.entries, path, depth)
    ensures AncestorClosed(out.entries, depth)
    decreases ItemsSize(items), 0
  {
    if |items| == 0 then Empty()
    else
      var first := WalkOne(mode, opts, items[0], path, depth);
      var rest := WalkItems(mode, opts, items[1..], path, depth);
      CatClosed(first.entries, rest.entries, depth);
      Cat(first, rest)
  }

  /** Yield the entry before (`"pre"`) or after (`"post"`) everything beneath it. */
  function Arrange(order: Order, self: WalkEntry, sub: seq<WalkEntry>): seq<WalkEntry> {
    if order.Pre? then [self] + sub else sub + [self]
  }

  /** One iteration of the loop: symlink rules, filter, then yield before or after the subtree. */
  function WalkOne(mode: Mode, opts: WalkOptions, e: Entry, path: seq<string>, depth: nat): (out: WalkOut)
    requires |path| == depth
    requires !DepthCut(mode, opts.maxDepth, depth)
    ensures Sound(mode, opts, out.entries, path, depth)
    ensures AncestorClosed(out.entries, depth)
    decreases Size(e.node), 2
  {
    var c := Classify(mode, opts.followSymlinks, e, path, depth);
    match c.visit
    case None => WalkOut([], c.errors)
    case Some(v) =>
      if !opts.filter(v.entry) then WalkOut([], c.errors)
      else
        var sub :=
          if v.entry.isDirectory && opts.recursive
          then WalkDir(mode, opts, v.target, path + [e.name], depth + 1)
          else Empty();
        SubSound(mode, opts, v.entry, sub.entries, path, depth);
        WalkOut(Arrange(opts.order, v.entry, sub.entries), c.errors + sub.errors)
  }

  /** An entry of the subtree below `path + [name]` satisfies the facts for `path` as well. */
  lemma LiftEntry(mode: Mode, opts: WalkOptions, e: WalkEntry, name: string, path: seq<string>, depth: nat)
    requires |path| == depth && opts.recursive
    requires EntryOk(mode, opts, e, path + [name], depth + 1)
    ensures EntryOk(mode, opts, e, path, depth)
  {
    var p := path + [name];
    assert e.path[..|path|] == e.path[..|p|][..|path|];
  }

  /** Placing an accepted entry next to its subtree keeps the facts of `Sound`, and its subtree's parents are found. */
  lemma SubSound(mode: Mode, opts: WalkOptions, we: WalkEntry, sub: seq<WalkEntry>, path: seq<string>, depth: nat)
    requires |path| == depth
    requires EntryOk(mode, opts, we, path, depth) && we.depth == depth
    requires Sound(mode, opts, sub, path + [we.name], depth + 1)
    requires AncestorClosed(sub, depth + 1)
    requires |sub| > 0 ==> we.isDirectory && opts.recursive
    ensures Sound(mode, opts, Arrange(opts.order, we, sub), path, depth)
    ensures AncestorClosed(Arrange(opts.order, we, sub), depth)
  {
    if |sub| > 0 {
      LiftSound(mode, opts, sub, we.name, path, depth);
    }
    SubParentsFound(mode, opts, we, sub, path, depth);
    if opts.order.Pre? {
      SoundCat(mode, opts, [we], sub, path, depth);
      ClosedAround([we], sub, depth);
    } else {
      SoundCat(mode, opts, sub, [we], path, depth);
      ClosedAround(sub, [we], depth);
    }
  }

  /** The facts of a subtree below `path + [name]` hold for `path` as well. */
  lemma LiftSound(mode: Mode, opts: WalkOptions, sub: seq<WalkEntry>, name: string, path: seq<string>, depth: nat)
    requires |path| == depth && opts.recursive
    requires Sound(mode, opts, sub, path + [name], depth + 1)
    ensures Sound(mode, opts, sub, path, depth)
  {
    forall k | 0 <= k < |sub|
      ensures EntryOk(mode, opts, sub[k], path, depth)
    {
      LiftEntry(mode, opts, sub[k], name, path, depth);
    }
  }

  lemma SoundCat(mode: Mode, opts: WalkOptions, a: seq<WalkEntry>, b: seq<WalkEntry>, path: seq<string>, depth: nat)
    requires Sound(mode, opts, a, path, depth) && Sound(mode, opts, b, path, depth)
    ensures Sound(mode, opts, a + b, path, depth)
  {
    forall k | 0 <= k < |a + b|
      ensures EntryOk(mode, opts, (a + b)[k], path, depth)
    {
      if k < |a| {
        assert (a + b)[k] == a[k];
      } else {
        assert (a + b)[k] == b[k - |a|];
      }
    }
  }

  /** Every entry of a subtree below `we` has its parent among `we` and the subtree, in either order. */
  lemma SubParentsFound(mode: Mode, opts: WalkOptions, we: WalkEntry, sub: seq<WalkEntry>, path: seq<string>, depth: nat)
    requires |path| == depth
    requires EntryOk(mode, opts, we, path, depth) && we.depth == depth
    requires Sound(mode, opts, sub, path + [we.name], depth + 1)
    requires AncestorClosed(sub, depth + 1)
    requires |sub| > 0 ==> we.isDirectory
    ensures forall k :: 0 <= k < |sub| && sub[k].depth > depth ==>
              HasDirAt([we] + sub, Parent(sub[k].path)) && HasDirAt(sub + [we], Parent(sub[k].path))
  {
    var p := path + [we.name];
    assert we.path == p;
    assert HasDirAt([we], p) <== we.isDirectory by {
      if we.isDirectory {
        assert [we][0] == we;
      }
    }
    forall k | 0 <= k < |sub| && sub[k].depth > depth
      ensures HasDirAt([we] + sub, Parent(sub[k].path)) && HasDirAt(sub + [we], Parent(sub[k].path))
    {
      var e := sub[k];
      assert EntryOk(mode, opts, e, p, depth + 1);
      if e.depth == depth + 1 {
        assert Parent(e.path) == e.path[..|p|] == p;
        HasDirAtCat([we], sub, p);
        HasDirAtCat(sub, [we], p);
      } else {
        assert HasDirAt(sub, Parent(e.path));
        HasDirAtCat([we], sub, Parent(e.path));
        HasDirAtCat(sub, [we], Parent(e.path));
      }
    }
  }

  /** Two runs whose deeper entries all have their parents in the joined run make it closed. */
  lemma ClosedAround(a: seq<WalkEntry>, b: seq<WalkEntry>, depth: nat)
    requires forall k :: 0 <= k < |a| && a[k].depth > depth ==> HasDirAt(a + b, Parent(a[k].path))
    requires forall k :: 0 <= k < |b| && b[k].depth > depth ==> HasDirAt(a + b, Parent(b[k].path))
    ensures AncestorClosed(a + b, depth)
  {
    var es := a + b;
    forall k | 0 <= k < |es| && es[k].depth > depth
      ensures HasDirAt(es, Parent(es[k].path))
    {
      if k < |a| {
        assert es[k] == a[k];
      } else {
        assert es[k] == b[k - |a|];
      }
    }
  }

  /** Why a walk refuses to start: `stat` of the root failed, or the root is not a directory. */
  datatype RootProblem = RootMissing | NotADirectory

  /** The "Invalid root path" error both walkers throw before yielding anything. */
  datatype WalkError = InvalidRootPath(problem: RootProblem)

  /** `walkSync(base, options)` / `walk(base, options)`, with `root` the object `resolve(base)` names (`None`: nothing there). */
  function Walk(mode: Mode, root: Option<Node>, opts: WalkOptions): (r: Result<WalkOut, WalkError>)
    ensures root.None? ==> r == Err(InvalidRootPath(RootMissing))
    ensures r.Ok? <==> root.Some? && Stat(root.value).Some? && Stat(root.value).value.Dir?
    ensures r.Ok? ==> Sound(mode, opts, r.value.entries, [], 0) && AncestorClosed(r.value.entries, 0)
  {
    if root.None? then Err(InvalidRootPath(RootMissing))
    else
      match Stat(root.value)
      case None => Err(InvalidRootPath(RootMissing))
      case Some(n) =>
        if !n.Dir? then Err(InvalidRootPath(NotADirectory))
        else Ok(WalkDir(mode, opts, n, [], 0))
  }

  /** A root the walkers accept: `stat` succeeds and names a directory. */
  predicate IsDirRoot(root: Option<Node>) {
    root.Some? && Stat(root.value).Some? && Stat(root.value).value.Dir?
  }

  /** `walkSync` of walk.ts. */
  function WalkSync(root: Option<Node>, opts: WalkOptions): (r: Result<WalkOut, WalkError>)
    ensures r.Ok? <==> IsDirRoot(root)
    ensures r.Ok? ==> forall e <- r.value.entries ::
              && opts.filter(e)
              && (!opts.recursive ==> e.depth == 0)
              && (!opts.followSymlinks ==> !e.isSymbolicLink)
              && (e.isSymbolicLink && !e.hasStats ==> !e.isFile && !e.isDirectory)
    ensures r.Ok? && opts.maxDepth.Finite? && opts.maxDepth.n != 0 ==>
              forall e <- r.value.entries :: e.depth <= opts.maxDepth.n
  {
    var r := Walk(Sync, root, opts);
    if r.Ok? then SoundMembers(Sync, opts, r.value.entries); r else r
  }

  /** The async `walk` of walk.ts (promises.ts holds a copy of the same generator). */
  function WalkAsync(root: Option<Node>, opts: WalkOptions): (r: Result<WalkOut, WalkError>)
    ensures r.Ok? <==> IsDirRoot(root)
    ensures r.Ok? ==> forall e <- r.value.entries ::
              && opts.filter(e)
              && (!opts.recursive ==> e.depth == 0)
              && (!opts.followSymlinks ==> !e.isSymbolicLink)
              && (e.isSymbolicLink ==> e.hasStats)
    ensures r.Ok? && opts.maxDepth.Finite? ==> forall e <- r.value.entries :: e.depth <= opts.maxDepth.n
  {
    var r := Walk(Async, root, opts);
    if r.Ok? then SoundMembers(Async, opts, r.value.entries); r else r
  }

  /** The facts of `Sound`, for the members of the sequence. */
  lemma SoundMembers(mode: Mode, opts: WalkOptions, es: seq<WalkEntry>)
    requires Sound(mode, opts, es, [], 0)
    ensures forall e <- es :: EntryOk(mode, opts, e, [], 0)
  {
    forall e <- es ensures EntryOk(mode, opts, e, [], 0) {
      var k :| 0 <= k < |es| && es[k] == e;
    }
  }

  function Paths(es: seq<WalkEntry>): (ps: seq<seq<string>>)
    ensures |ps| == |es|
    ensures forall k :: 0 <= k < |es| ==> ps[k] == es[k].path
  {
    if |es| == 0 then [] else [es[0].path] + Paths(es[1..])
  }

  function IsFileEntry(e: WalkEntry): bool { e.isFile }

  function IsDirectoryEntry(e: WalkEntry): bool { e.isDirectory }

  /** The shape shared by the four wrappers: walk with a fixed filter and collect the paths. */
  function Collect(mode: Mode, root: Option<Node>, opts: WalkOptions, keep: WalkEntry -> bool): Result<seq<seq<string>>, WalkError> {
    match Walk(mode, root, opts.(filter := keep))
    case Err(e) => Err(e)
    case Ok(out) => Ok(Paths(out.entries))
  }
}
