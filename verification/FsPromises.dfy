/**
 * The promise-based copies in promises.ts: its async `walk` is line for line
 * the generator of walk.ts, and its `walkFiles`/`walkDirectories` collect from
 * it as walk.ts's do. They are modelled by the same definitions.
 */
module FsPromises {
  import opened Wrappers
  import opened FsWalk
  import opened WalkFacts
  import WalkCollect

  /** promises.ts `walk`: no falsy exception for `maxDepth`, and a followed link whose `stat` fails is skipped. */
  function Walk(root: Option<Node>, opts: WalkOptions): (r: Result<WalkOut, WalkError>)
    ensures r.Ok? <==> IsDirRoot(root)
    ensures r.Ok? ==> forall e <- r.value.entries :: opts.filter(e) && (e.isSymbolicLink ==> e.hasStats)
    ensures r.Ok? && opts.maxDepth.Finite? ==> forall e <- r.value.entries :: e.depth <= opts.maxDepth.n
  {
    WalkAsync(root, opts)
  }

  /** promises.ts `walkFiles`: the root's own files, in `readdir` order. */
  function WalkFiles(root: Option<Node>, opts: WalkOptions): (r: Result<seq<seq<string>>, WalkError>)
    ensures r.Ok? <==> IsDirRoot(root)
    ensures r.Ok? ==> r.value == RootFiles(Async, opts, Stat(root.value).value)
  {
    WalkCollect.WalkFiles(root, opts)
  }

  /** promises.ts `walkDirectories`: every directory reachable through directories. */
  function WalkDirectories(root: Option<Node>, opts: WalkOptions): (r: Result<seq<seq<string>>, WalkError>)
    ensures r.Ok? <==> IsDirRoot(root)
    ensures r.Ok? ==> r.value == DirPaths(Async, opts, Stat(root.value).value, [], 0)
  {
    WalkCollect.WalkDirectories(root, opts)
  }
}
