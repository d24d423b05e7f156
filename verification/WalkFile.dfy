/**
 * The command-line package's own `walkFile`: a depth-first search for regular
 * files with an optional directory filter (which prunes) and file filter,
 * returning the paths or handing each one to a callback.
 *
 * Unlike the shared walkers it classifies entries by their directory entry
 * only, so a symbolic link is neither a directory nor a file and is skipped,
 * has no depth limit, and does not catch a failing `readdirSync`: the error
 * propagates to the caller after the callbacks already made.
 */
module WalkFile {
  import opened Wrappers
  import opened FsWalk

  /** `dirFilter(fullPath, name)` and `fileFilter(fullPath)`; `None` when not given. */
  datatype FileOptions = FileOptions(
    dirFilter: Option<(seq<string>, string) -> bool>,
    fileFilter: Option<seq<string> -> bool>)

  /** The `{}` used when no options object is passed. */
  function NoOptions(): FileOptions {
    FileOptions(None, None)
  }

  predicate DirAccepted(o: FileOptions, p: seq<string>, name: string) {
    o.dirFilter.None? || o.dirFilter.value(p, name)
  }

  predicate FileAccepted(o: FileOptions, p: seq<string>) {
    o.fileFilter.None? || o.fileFilter.value(p)
  }

  /** What one search found before it finished or before `readdirSync` threw on the directory `failed`. */
  datatype Scan = Scan(found: seq<seq<string>>, failed: Option<seq<string>>)

  predicate AllUnder(qs: seq<seq<string>>, path: seq<string>) {
    forall q <- qs :: |q| > |path| && q[..|path|] == path
  }

  /**
   * Reference: `rel` (a path relative to the directory with entries `items`
   * at `path`) names a regular file the search must report — every directory
   * on the way passes `dirFilter` and the file passes `fileFilter`.
   */
  predicate AcceptedIn(o: FileOptions, items: seq<Entry>, path: seq<string>, rel: seq<string>)
    decreases |rel|, 0
  {
    |rel| >= 1 &&
    exists k | 0 <= k < |items| :: items[k].name == rel[0] && AcceptedAt(o, items[k].node, path + [rel[0]], rel[1..])
  }

  /** The entry `n` at `p` (named `p`'s last name) leads to an accepted file at `rel` below it. */
  predicate AcceptedAt(o: FileOptions, n: Node, p: seq<string>, rel: seq<string>)
    decreases |rel|, 1
  {
    if |rel| == 0 then n.File? && FileAccepted(o, p)
    else && |p| > 0
         && n.Dir? && n.listing.Entries?
         && DirAccepted(o, p, p[|p| - 1])
         && AcceptedIn(o, n.listing.items, p, rel)
  }

  /** `walk(dir)` for a directory found in a listing: `readdirSync`, whose failure stops everything. */
  function ScanDir(o: FileOptions, dir: Node, path: seq<string>): (s: Scan)
    requires dir.Dir?
    ensures AllUnder(s.found, path)
    ensures s.failed.None? ==> forall q <- s.found :: dir.listing.Entries? && AcceptedIn(o, dir.listing.items, path, q[|path|..])
    decreases Size(dir), 1
  {
    match dir.listing
    case Unreadable => Scan([], Some(path))
    case Entries(items) => ScanItems(o, items, path)
  }

  /** The `for` loop over one listing, from the first remaining entry. */
  function ScanItems(o: FileOptions, items: seq<Entry>, path: seq<string>): (s: Scan)
    ensures AllUnder(s.found, path)
    ensures s.failed.None? ==> forall q <- s.found :: AcceptedIn(o, items, path, q[|path|..])
    decreases ItemsSize(items), 0
  {
    if |items| == 0 then Scan([], None)
    else
      var first := ScanOne(o, items[0], path);
      if first.failed.Some? then first
      else
        var rest := ScanItems(o, items[1..], path);
        ScanItemsSound(o, items, path, first.found, rest.found, rest.failed.None?);
        Scan(first.found + rest.found, rest.failed)
  }

  /** One iteration: a directory is entered unless `dirFilter` rejects it; a file is reported if `fileFilter` accepts it. */
  function ScanOne(o: FileOptions, e: Entry, path: seq<string>): (s: Scan)
    ensures AllUnder(s.found, path)
    ensures s.failed.None? ==> forall q <- s.found :: |q| > |path| && q[|path|] == e.name && AcceptedAt(o, e.node, path + [e.name], q[|path| + 1..])
    decreases Size(e.node), 2
  {
    var p := path + [e.name];
    if e.node.Dir? then
      if !DirAccepted(o, p, e.name) then Scan([], None)
      else
        var s := ScanDir(o, e.node, p);
        ScanOneSound(o, e, path, s);
        s
    else if e.node.File? then
      Scan(if FileAccepted(o, p) then [p] else [], None)
    else Scan([], None)
  }

  lemma ScanOneSound(o: FileOptions, e: Entry, path: seq<string>, s: Scan)
    requires e.node.Dir? && DirAccepted(o, path + [e.name], e.name)
    requires AllUnder(s.found, path + [e.name])
    requires s.failed.None? ==> forall q <- s.found :: e.node.listing.Entries? && AcceptedIn(o, e.node.listing.items, path + [e.name], q[|path| + 1..])
    ensures AllUnder(s.found, path)
    ensures s.failed.None? ==> forall q <- s.found :: |q| > |path| && q[|path|] == e.name && AcceptedAt(o, e.node, path + [e.name], q[|path| + 1..])
  {
    var p := path + [e.name];
    forall q <- s.found ensures |q| > |path| && q[..|path|] == path && q[|path|] == e.name {
      assert q[..|path|] == q[..|p|][..|path|];
      assert q[|path|] == q[..|p|][|path|];
    }
  }

  lemma ScanItemsSound(o: FileOptions, items: seq<Entry>, path: seq<string>, first: seq<seq<string>>, rest: seq<seq<string>>, restOk: bool)
    requires |items| > 0
    requires AllUnder(first, path) && AllUnder(rest, path)
    requires forall q <- first :: |q| > |path| && q[|path|] == items[0].name && AcceptedAt(o, items[0].node, path + [items[0].name], q[|path| + 1..])
    requires restOk ==> forall q <- rest :: AcceptedIn(o, items[1..], path, q[|path|..])
    ensures AllUnder(first + rest, path)
    ensures restOk ==> forall q <- first + rest :: AcceptedIn(o, items, path, q[|path|..])
  {
    forall q <- first + rest | restOk ensures AcceptedIn(o, items, path, q[|path|..]) {
      var rel := q[|path|..];
      if q in first {
        assert rel[0] == items[0].name && rel[1..] == q[|path| + 1..];
        assert path + [rel[0]] == path + [items[0].name];
      } else {
        var k :| 0 <= k < |items[1..]| && items[1..][k].name == rel[0] && AcceptedAt(o, items[1..][k].node, path + [rel[0]], rel[1..]);
        assert items[k + 1] == items[1..][k];
      }
    }
  }

  /** Every accepted file is found, when no `readdirSync` fails. */
  lemma {:induction false} ScanItemsComplete(o: FileOptions, items: seq<Entry>, path: seq<string>, rel: seq<string>)
    requires AcceptedIn(o, items, path, rel)
    requires ScanItems(o, items, path).failed.None?
    ensures path + rel in ScanItems(o, items, path).found
    decreases ItemsSize(items), 0
  {
    var k :| 0 <= k < |items| && items[k].name == rel[0] && AcceptedAt(o, items[k].node, path + [rel[0]], rel[1..]);
    var first := ScanOne(o, items[0], path);
    assert first.failed.None?;
    if k == 0 {
      ScanOneComplete(o, items[0], path, rel[1..]);
      assert path + [items[0].name] + rel[1..] == path + rel;
    } else {
      assert items[1..][k - 1] == items[k];
      assert AcceptedIn(o, items[1..], path, rel);
      ScanItemsComplete(o, items[1..], path, rel);
    }
  }

  lemma {:induction false} ScanOneComplete(o: FileOptions, e: Entry, path: seq<string>, rel: seq<string>)
    requires AcceptedAt(o, e.node, path + [e.name], rel)
    requires ScanOne(o, e, path).failed.None?
    ensures path + [e.name] + rel in ScanOne(o, e, path).found
    decreases Size(e.node), 2
  {
    var p := path + [e.name];
    if |rel| == 0 {
      assert p + rel == p;
    } else {
      assert p[|p| - 1] == e.name;
      ScanItemsComplete(o, e.node.listing.items, p, rel);
    }
  }

  /** The second argument of `walkFile`: a callback, an options object, or nothing. */
  datatype SecondArg = CallbackArg | OptionsArg(options: FileOptions) | NoArg

  /** The overload resolution: whether a callback was given, and the options in force. */
  function ResolveArgs(second: SecondArg, third: Option<FileOptions>): (r: (bool, FileOptions))
    ensures r.0 <==> second.CallbackArg?
    ensures second.OptionsArg? ==> r.1 == second.options
    ensures second.CallbackArg? && third.Some? ==> r.1 == third.value
    ensures second.NoArg? || (second.CallbackArg? && third.None?) ==> r.1 == NoOptions()
  {
    var callbackMode := second.CallbackArg?;
    var given := if callbackMode then third else if second.OptionsArg? then Some(second.options) else None;
    (callbackMode, given.GetOr(NoOptions()))
  }

  /** `readdirSync` threw for this directory (the root, or one found on the way). */
  datatype ReadFailure = ReadFailure(path: seq<string>)

  /**
   * One call: `calls` are the paths handed to the callback, in order (also
   * those made before a throw); `outcome` is the array returned (`None` for
   * the `undefined` of callback mode) or the propagated failure.
   */
  datatype WalkFileRun = WalkFileRun(calls: seq<seq<string>>, outcome: Result<Option<seq<seq<string>>>, ReadFailure>)

  /** `readdirSync` of the starting path follows links; `None`: nothing there. */
  function RootScan(o: FileOptions, root: Option<Node>): (s: Scan)
    ensures !IsDirRoot(root) ==> s == Scan([], Some([]))
  {
    if root.Some? && Stat(root.value).Some? && Stat(root.value).value.Dir?
    then ScanDir(o, Stat(root.value).value, [])
    else Scan([], Some([]))
  }

  /** `walkFile(dir, callbackOrOptions, optionsOrUndefined)`. */
  function WalkFile(root: Option<Node>, second: SecondArg, third: Option<FileOptions>): (r: WalkFileRun)
    ensures second.CallbackArg? ==> r.outcome.Ok? ==> r.outcome.value.None?
    ensures !second.CallbackArg? ==> r.calls == [] && (r.outcome.Ok? ==> r.outcome.value.Some?)
    ensures !IsDirRoot(root) ==> r.outcome == Err(ReadFailure([]))
    ensures var found := if second.CallbackArg? then r.calls else if r.outcome.Ok? then r.outcome.value.value else [];
            r.outcome.Ok? ==> forall q <- found :: Stat(root.value).value.listing.Entries?
                                                   && AcceptedIn(ResolveArgs(second, third).1, Stat(root.value).value.listing.items, [], q)
  {
    var (callbackMode, o) := ResolveArgs(second, third);
    var s := RootScan(o, root);
    assert s.failed.None? ==> forall q <- s.found :: q[0..] == q;
    var calls := if callbackMode then s.found else [];
    match s.failed
    case Some(p) => WalkFileRun(calls, Err(ReadFailure(p)))
    case None => WalkFileRun(calls, Ok(if callbackMode then None else Some(s.found)))
  }

  /** With no failing `readdirSync`, every accepted regular file below the root is reported. */
  lemma WalkFileComplete(root: Option<Node>, second: SecondArg, third: Option<FileOptions>, rel: seq<string>)
    requires WalkFile(root, second, third).outcome.Ok?
    requires AcceptedIn(ResolveArgs(second, third).1, Stat(root.value).value.listing.items, [], rel)
    ensures var r := WalkFile(root, second, third);
            rel in (if second.CallbackArg? then r.calls else r.outcome.value.value)
  {
    var o := ResolveArgs(second, third).1;
    ScanItemsComplete(o, Stat(root.value).value.listing.items, [], rel);
    assert [] + rel == rel;
  }

  /** The callback receives exactly the paths the array form returns, in the same order. */
  lemma CallbackSeesArray(root: Option<Node>, o: FileOptions)
    ensures var withCallback := WalkFile(root, CallbackArg, Some(o));
            var withArray := WalkFile(root, OptionsArg(o), None);
            && (withCallback.outcome.Ok? <==> withArray.outcome.Ok?)
            && (withArray.outcome.Ok? ==> withCallback.calls == withArray.outcome.value.value)
  {
  }
}
