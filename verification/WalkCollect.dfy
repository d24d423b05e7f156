/**
 * The four collecting wrappers of walk.ts: `walkFilesSync`,
 * `walkDirectoriesSync`, `walkFiles` and `walkDirectories` run a walker with
 * the caller's options and a fixed filter, and return the yielded paths.
 */
module WalkCollect {
  import opened Wrappers
  import opened FsWalk
  import opened WalkFacts

  /**
   * `walkFilesSync`. The filter `isFile` also rejects every directory, and a
   * rejected directory is never entered, so only the root's own files come back.
   */
  function WalkFilesSync(root: Option<Node>, opts: WalkOptions): (r: Result<seq<seq<string>>, WalkError>)
    ensures r.Ok? <==> IsDirRoot(root)
    ensures r.Ok? ==> r.value == RootFiles(Sync, opts, Stat(root.value).value)
    ensures r.Ok? ==> forall p <- r.value :: |p| == 1
  {
    RootFilesMatch(Sync, root, opts.(filter := IsFileEntry));
    Collect(Sync, root, opts, IsFileEntry)
  }

  /** `walkDirectoriesSync`: every directory reachable through directories, within the depth bound. */
  function WalkDirectoriesSync(root: Option<Node>, opts: WalkOptions): (r: Result<seq<seq<string>>, WalkError>)
    ensures r.Ok? <==> IsDirRoot(root)
    ensures r.Ok? ==> r.value == DirPaths(Sync, opts, Stat(root.value).value, [], 0)
  {
    DirectoriesMatch(Sync, root, opts.(filter := IsDirectoryEntry));
    DirPathsIgnoreFilter(Sync, opts, root);
    Collect(Sync, root, opts, IsDirectoryEntry)
  }

  /** `walkFiles` (async): as `walkFilesSync`, over the async walker. */
  function WalkFiles(root: Option<Node>, opts: WalkOptions): (r: Result<seq<seq<string>>, WalkError>)
    ensures r.Ok? <==> IsDirRoot(root)
    ensures r.Ok? ==> r.value == RootFiles(Async, opts, Stat(root.value).value)
    ensures r.Ok? ==> forall p <- r.value :: |p| == 1
  {
    RootFilesMatch(Async, root, opts.(filter := IsFileEntry));
    Collect(Async, root, opts, IsFileEntry)
  }

  /** `walkDirectories` (async). */
  function WalkDirectories(root: Option<Node>, opts: WalkOptions): (r: Result<seq<seq<string>>, WalkError>)
    ensures r.Ok? <==> IsDirRoot(root)
    ensures r.Ok? ==> r.value == DirPaths(Async, opts, Stat(root.value).value, [], 0)
  {
    DirectoriesMatch(Async, root, opts.(filter := IsDirectoryEntry));
    DirPathsIgnoreFilter(Async, opts, root);
    Collect(Async, root, opts, IsDirectoryEntry)
  }
}
