# A Dafny model of the fast SDK command-line core

This project models the core of the `fast` SDK tooling. Each piece is written as pure Dafny functions with contracts, and lemmas are proved about them:

- the file-system walkers of the shared package (`walkSync`, the two async `walk` generators, and their file and directory collectors);
- the CLI's recursive `walkFile` and the `findParent` search for a project root;
- `parseConfigId`;
- the `clean` and `result` commands (`Cleanup`, `ResultManager`);
- the dotted-path `ConfigManager` with its `get` cache and `deepMerge`;
- the debounced `ConfigService`;
- the retrying `UploadService`;
- the `ServiceManager` registry;
- the `LoggerService`, its level table and `formatDate`;
- the text clean-up of `openEditorAndRead`;
- the `BufferLike` converters.

The file system is a finite tree of `Node`s. A node is a file, a directory (readable with a listing, or unreadable), or a symbolic link that resolves to a node or dangles. Paths are sequences of names relative to the walked root. A walk returns its yielded entries together with the error reports it passes to `onError`.

Effects the model cannot see are parameters:
- timers are explicit `Tick` events;
- the upload client's `put` is a function from attempt number to outcome;
- `path.join`/`dirname`, `basename`, `normalizeName`, `addPrefixZero` and `new URL` are uninterpreted functions or given values.

Every `process.exit(1)` and every throw becomes an `Err` value.

Modules (one per file, `Logger.dfy` holding two):
- `Wrappers`: `Option` and `Result`.
- `Strings`: the string operations JavaScript provides (`split`, `join`, `indexOf`, `replace` with a string pattern, global replace, `trim`, decimal numerals).
- `FsWalk`: the shared walk engine for `walkSync` (`Sync`) and the async `walk` (`Async`). The two differ in how `maxDepth` 0 is treated and in how a failed `stat` of a symbolic link is handled.
- `WalkFacts`: ordering, pruning, depth and completeness facts about the engine.
- `WalkCollect`: `walkFilesSync`, `walkDirectoriesSync`, `walkFiles` and `walkDirectories` of `fs/walk.ts`.
- `FsPromises`: `walk`, `walkFiles` and `walkDirectories` of `fs/promises.ts`.
- `FilesFixed`: a file collector that reaches nested files, and a two-level tree on which the collectors as written miss them (see Findings).
- `WalkFile`: the CLI's `walkFile`.
- `FindParent`: `findParent` and `getWorkerDir`.
- `ConfigId`: `parseConfigId`.
- `Cleanup`: the template path, the two directories compared, and the names removed.
- `ResultManager`: the links, the rendering context and `render`.
- `Json`: JSON values, property access, and `deepMerge`.
- `ConfigManager`: `new`, `get`, `set`, `has`, `getAll` and `reset`.
- `ConfigService`: loading, the debounced save, and `get`/`set`/`delete`/`has`.
- `UploadService`: client options, the object name, the retry loop, backoff and the result URL.
- `ServiceManager`: `register`, `get`, `destroy` and `destroyAll`.
- `LogLevels` and `LoggerService`: the level table, threshold filtering and line assembly.
- `DateFormat`: `formatDate`.
- `EditorText`: comment stripping and the changelog heading.
- `Buffer`: the `BufferLike` predicates and converters over an explicit model of backing stores.

## Model

| member | source | states |
|---|---|---|
| FsWalk.Stat | packages/shared/src/fs/walk.ts:45-61 | `stat` follows symbolic links to a non-link node no larger than the link, or fails on a dangling link; a non-link is its own stat |
| FsWalk.Classify | packages/shared/src/fs/walk.ts:36-71 | one directory entry: a link is skipped when links are not followed; the entry gets the joined path, the name and the current depth; its kind flags come from the resolved node; `isSymbolicLink` records the link |
| FsWalk.DepthCut | packages/shared/src/fs/walk.ts:26-30 | a walk stops at a depth exactly when `maxDepth` is a finite number below it, and for `walkSync` also not 0, which its truthiness test skips (the async test at lines 124-126 has no such exception) |
| FsWalk.WalkDir | packages/shared/src/fs/walk.ts:22-98 | a directory's walk yields only entries that satisfy the filter, and each entry's parent directory was also yielded. Past the depth cut nothing happens. An unreadable directory yields nothing and reports one error at `depth - 1`. |
| FsWalk.WalkItems | packages/shared/src/fs/walk.ts:35-88 | the loop over a listing keeps every yielded entry sound (filtered, correctly placed under the path) and ancestor-closed |
| FsWalk.WalkOne | packages/shared/src/fs/walk.ts:73-87 | one entry: it is filtered; it is yielded before (`pre`) or after (`post`) its subtree; recursion happens only into directories when `recursive` |
| FsWalk.SubSound | packages/shared/src/fs/walk.ts:77-87 | putting a directory entry before or after its subtree keeps the result sound and ancestor-closed |
| FsWalk.Walk | packages/shared/src/fs/walk.ts:101-110 | the root check: a missing root or one that is not a directory after `stat` is an `Invalid root path` error, and otherwise the walk of the root directory is sound |
| FsWalk.WalkSync | packages/shared/src/fs/walk.ts:15-111 | `walkSync` succeeds exactly for a directory root. It yields only filtered entries, only depth 0 without `recursive`, and no links without `followSymlinks`. It yields a dangling link with neither kind. It never goes deeper than a non-zero `maxDepth`. |
| FsWalk.WalkAsync | packages/shared/src/fs/walk.ts:113-208 | the async `walk` succeeds exactly for a directory root. It yields only filtered entries, every yielded link has stats, and no entry is deeper than any finite `maxDepth`. |
| WalkFacts.OrderedDir | packages/shared/src/fs/walk.ts:77-87 | in a well-formed tree, `pre` order yields every directory before everything below it and `post` order yields it after |
| WalkFacts.OrderedItems | packages/shared/src/fs/walk.ts:35-88 | the loop keeps that order, and each yielded path lies under one of the listed names |
| WalkFacts.OrderedOne | packages/shared/src/fs/walk.ts:73-87 | one entry's contribution is ordered and lies under that entry's name |
| WalkFacts.WalkOrdered | packages/shared/src/fs/walk.ts:15-111 | a whole walk of a well-formed tree respects `opts.order` |
| WalkFacts.AncestorsYielded | packages/shared/src/fs/walk.ts:73-83 | every proper ancestor of a yielded entry (below the root) was yielded as a directory that passed the filter |
| WalkFacts.FilterPrunes | packages/shared/src/fs/walk.ts:73-75 | a rejected directory is not descended into: every yielded entry has all its ancestors accepted by the filter |
| WalkFacts.SameCutsDir | packages/shared/src/fs/walk.ts:26-30 | two option sets that cut the walk at the same depths give identical walks |
| WalkFacts.SyncZeroDepthIsUnlimited | packages/shared/src/fs/walk.ts:26-30 | in `walkSync`, `maxDepth: 0` fails the truthiness guard, so it walks exactly like `maxDepth: Infinity` |
| WalkFacts.AsyncZeroDepthIsRootOnly | packages/shared/src/fs/walk.ts:124-126 | in the async `walk`, `maxDepth: 0` yields only the root's own children |
| WalkFacts.FileItemsMatch | packages/shared/src/fs/walk.ts:216-221 | with the filter `isFile`, the paths yielded by the loop are exactly the listed entries that resolve to files, in listing order |
| WalkFacts.RootFilesMatch | packages/shared/src/fs/walk.ts:210-224 | with the filter `isFile`, a whole walk yields exactly the files among the root's children, in listing order |
| WalkFacts.DirPathsMatch | packages/shared/src/fs/walk.ts:226-240 | with the filter `isDirectory`, a walk yields exactly the directory paths of an independent recursive definition, in traversal order |
| WalkFacts.DirectoriesMatch | packages/shared/src/fs/walk.ts:226-240 | the same for a whole walk from the root |
| WalkFacts.DirPathsIgnoreFilter | packages/shared/src/fs/walk.ts:232-235 | the directory paths do not depend on the caller's filter, which the collectors override |
| WalkFacts.WalkItemsAppend | packages/shared/src/fs/walk.ts:35-88 | walking a listing split in two gives the first part's walk followed by the second part's, entries and errors alike |
| WalkFacts.UnreadableSubdirectory | packages/shared/src/fs/walk.ts:89-98 | an unreadable child directory is yielded, then reported once with `depth - 1` of its own walk, and the siblings' walks are unaffected |
| WalkFacts.DanglingSymlink | packages/shared/src/fs/walk.ts:45-61 | a dangling link is yielded by `walkSync` as neither file nor directory and reported, while the async `walk` reports it and skips it |
| WalkCollect.WalkFilesSync | packages/shared/src/fs/walk.ts:210-224 | `walkFilesSync` is `Invalid root path` exactly when the root is not a directory. Otherwise it is the root's files in listing order, each one level down. |
| WalkCollect.WalkDirectoriesSync | packages/shared/src/fs/walk.ts:226-240 | `walkDirectoriesSync` is the directory paths of the independent definition under `walkSync`'s depth rule |
| WalkCollect.WalkFiles | packages/shared/src/fs/walk.ts:242-256 | the async `walkFiles` is the root's files in listing order |
| WalkCollect.WalkDirectories | packages/shared/src/fs/walk.ts:258-272 | the async `walkDirectories` is the directory paths under the async depth rule |
| FilesFixed.FilesOfCat | packages/shared/src/fs/walk.ts:218-220 | keeping the paths of file entries distributes over concatenation of the yielded entries |
| FilesFixed.FilesOfArrange | packages/shared/src/fs/walk.ts:77-87 | a file entry has no subtree, so pre-order and post-order place the same files in the same order |
| FilesFixed.FilePathsMatch | packages/shared/src/fs/walk.ts:35-98 | an unfiltered walk of a directory, reduced to its file entries, is the independent definition of every file reachable through directories within the depth bound |
| FilesFixed.FileItemsAllMatch | packages/shared/src/fs/walk.ts:35-88 | the same, listing by listing |
| FilesFixed.FileOneAllMatch | packages/shared/src/fs/walk.ts:45-87 | the same, entry by entry: a file gives its own path, a directory (followed through a link when links are followed) the files below it when recursive, anything else nothing |
| FilesFixed.FilePathsFilterFree | packages/shared/src/fs/walk.ts:15-111 | which files are reachable does not depend on the filter option |
| FilesFixed.WalkFilesFixed | packages/shared/src/fs/walk.ts:210-224 | corrected collector: an error exactly when the root is not a directory; otherwise every reachable file in traversal order, under either walker's depth rule |
| FilesFixed.NestedFilePaths | packages/shared/src/fs/walk.ts:6-13 | with recursion and room for two levels, the only file of `a/f` is found at path `a/f` |
| FilesFixed.NestedFileMissed | packages/shared/src/fs/walk.ts:210-224 | as written: with default options, `walkFilesSync` and `walkFiles` return nothing for a root whose only file is `a/f` |
| FilesFixed.NestedFileFound | packages/shared/src/fs/walk.ts:210-224 | the corrected collector returns `a/f` for that root under either walker's depth rule |
| FsPromises.Walk | packages/shared/src/fs/promises.ts:49-144 | the `walk` of `fs/promises` succeeds exactly for a directory root. It yields only filtered entries, every link it yields has stats, and no entry is deeper than a finite `maxDepth`. |
| FsPromises.WalkFiles | packages/shared/src/fs/promises.ts:147-161 | its `walkFiles` is the root's files in listing order |
| FsPromises.WalkDirectories | packages/shared/src/fs/promises.ts:163-177 | its `walkDirectories` is the independently defined directory paths |
| WalkFile.ScanDir | packages/cli/src/utils/walkFile.ts:28-45 | every path found lies under the directory. Without a read failure, each one is a file accepted by `fileFilter` whose every directory on the way was accepted by `dirFilter`. |
| WalkFile.ScanItems | packages/cli/src/utils/walkFile.ts:29-44 | the same for the loop over one listing |
| WalkFile.ScanOne | packages/cli/src/utils/walkFile.ts:31-42 | one entry: a rejected directory contributes nothing, an accepted one its accepted files, and a file itself only when `fileFilter` accepts it |
| WalkFile.ScanItemsComplete | packages/cli/src/utils/walkFile.ts:29-44 | conversely every accepted file under a listing is found, so found and accepted coincide |
| WalkFile.ScanOneComplete | packages/cli/src/utils/walkFile.ts:31-42 | every accepted file below one entry is found |
| WalkFile.ResolveArgs | packages/cli/src/utils/walkFile.ts:21-24 | the overloads: a function second argument is the callback and the third argument the options, otherwise the second argument is the options, and missing options are `{}` |
| WalkFile.RootScan | packages/cli/src/utils/walkFile.ts:47 | a missing or non-directory root makes `readdirSync` throw at the root |
| WalkFile.WalkFile | packages/cli/src/utils/walkFile.ts:16-52 | with a callback nothing is returned. Without one, there are no calls and an array is returned. A non-directory root throws. Every path reported is an accepted file under the root. |
| WalkFile.WalkFileComplete | packages/cli/src/utils/walkFile.ts:16-52 | every accepted file under the root is reported, to the callback or in the array |
| WalkFile.CallbackSeesArray | packages/cli/src/utils/walkFile.ts:37-41 | the callback form calls back exactly the paths, in the order, that the array form returns |
| FindParent.Chain | packages/cli/src/utils/findParent.ts:14-20 | the ancestor chain starts at the base, steps by `dirname`, and ends at the first fixed point |
| FindParent.FirstAccepted | packages/cli/src/utils/findParent.ts:10-20 | the first position on the chain that the comparison accepts, or none |
| FindParent.FindParent | packages/cli/src/utils/findParent.ts:5-21 | an accepted base is returned as it is, and anything else returned is on the ancestor chain or is the fallback |
| FindParent.FindParentIsFirstOnChain | packages/cli/src/utils/findParent.ts:5-21 | `findParent` is the first accepted ancestor. When none is accepted, it is the root when the root is non-empty, and the fallback otherwise. |
| FindParent.RootReturnedWithoutMatch | packages/cli/src/utils/findParent.ts:16-17 | as written: when no ancestor is accepted, the root `/` is returned although the comparison rejected it |
| FindParent.FindAccepted | packages/cli/src/utils/findParent.ts:5-21 | corrected search: its result is accepted and on the chain, and it is none exactly when no ancestor is accepted |
| FindParent.FindAcceptedAgrees | packages/cli/src/utils/findParent.ts:10-20 | when some ancestor is accepted, the source and the corrected search agree |
| FindParent.WorkerDir | packages/cli/src/utils/getWorkerDir.ts:5-12 | `getWorkerDir` through the corrected search: a found directory holds the file, and none means no ancestor holds it |
| ConfigId.Between | packages/cli/src/utils/parseConfigId.ts:19 | the second piece of a `split` exists exactly when the separator occurs, and it contains no further separator |
| ConfigId.ParseConfigId | packages/cli/src/utils/parseConfigId.ts:14-30 | the platform is the text before the first `@`. The channel is missing exactly when there is no `@`. A non-empty channel part is split at `#` into channel and publisher. An empty or absent channel leaves the publisher `""`. |
| ConfigId.ParseFormat | packages/cli/src/utils/parseConfigId.ts:14-30 | round trip: `platform@channel#publisher` built from separator-free parts parses back into those parts |
| ConfigId.ParsePlatformOnly | packages/cli/src/utils/parseConfigId.ts:19-23 | an id without `@` is all platform, with no channel and an empty publisher |
| ConfigId.SecondAtIgnored | packages/cli/src/utils/parseConfigId.ts:19 | text after a second `@` is dropped by the destructuring |
| ConfigId.ParseDeterminedByPieces | packages/cli/src/utils/parseConfigId.ts:19-23 | the parse depends only on the first two `@`-pieces |
| Cleanup.TemplatePath | packages/cli/src/commands/clean/Cleanup.ts:19-38 | a missing data file and an unreadable one are the two errors; otherwise the path is `~/.xyx-cli/template/xyx-template-<version>` |
| Cleanup.TemplateVersionRecoverable | packages/cli/src/commands/clean/Cleanup.ts:31-34 | the cached version can be read back from the template path |
| Cleanup.TemplatePathInjective | packages/cli/src/commands/clean/Cleanup.ts:31-34 | different versions give different template paths |
| Cleanup.Dirs | packages/cli/src/commands/clean/Cleanup.ts:55-66 | the target is `platform/<configId>` and the template `common/<platform>`, both with `game` appended for `hippoo` |
| Cleanup.GameDirLast | packages/cli/src/commands/clean/Cleanup.ts:63-66 | for any id that parses to platform `hippoo`, both directories end in `game` |
| Cleanup.HippooUsesGameDir | packages/cli/src/commands/clean/Cleanup.ts:55-66 | in particular for `hippoo@<channel>#<publisher>` |
| Cleanup.ToRemove | packages/cli/src/commands/clean/Cleanup.ts:71-74 | a name is removed exactly when the target lists it and the template does not |
| Cleanup.Kept | packages/cli/src/commands/clean/Cleanup.ts:71-74 | a name is kept exactly when both list it |
| Cleanup.Partition | packages/cli/src/commands/clean/Cleanup.ts:71-82 | removed and kept names together are the target listing, as a multiset |
| Cleanup.CoveredListingUntouched | packages/cli/src/commands/clean/Cleanup.ts:71-82 | a target whose every name is in the template loses nothing |
| Cleanup.CleanIsIdempotent | packages/cli/src/commands/clean/Cleanup.ts:68-82 | cleaning the remaining listing again removes nothing |
| Cleanup.Clean | packages/cli/src/commands/clean/Cleanup.ts:40-85 | `clean` fails without a project and without template data, and reports a failed `readdirSync`. Otherwise it reads the two directories named by `Dirs` and removes, in target order, exactly the names the template lacks, each directly inside the target directory. |
| ResultManager.Hostname | packages/cli/src/commands/result/ResultManager.ts:32 | `<publisher>game`, or `hnyigegame` for an empty or missing publisher |
| ResultManager.StripLeadingSlash | packages/cli/src/commands/result/ResultManager.ts:37 | one leading `/` is removed, and nothing else changes |
| ResultManager.BuildLinks | packages/cli/src/commands/result/ResultManager.ts:29-46 | the official link is `index.html` under the host and project, with `?env=pre`. The test link extends it with `&ad_env=preview`. The project name is the URL's directory without its leading slash. The package prefix is the normalized id and lower-cased project name. |
| ResultManager.PublisherHost | packages/cli/src/commands/result/ResultManager.ts:30-40 | for `platform@channel#publisher`, the host is the publisher's game site |
| ResultManager.DefaultHost | packages/cli/src/commands/result/ResultManager.ts:30-40 | for an id without `@`, the host is `hnyigegame` |
| ResultManager.ShowCtx | packages/cli/src/commands/result/ResultManager.ts:84-90 | the context keeps the links' key order with the project keys after. The four links keep their values, the download address gets `<version>.zip`, the platform is `[<configId>]`, and there is no `changelog` key. |
| ResultManager.BracelessUnchanged | packages/cli/src/commands/result/ResultManager.ts:54 | every placeholder starts with `{{`, so one replacement leaves text without `{{` unchanged |
| ResultManager.Render | packages/cli/src/commands/result/ResultManager.ts:48-59 | a template containing no `{{` renders as itself, whatever the context |
| ResultManager.RenderSnoc | packages/cli/src/commands/result/ResultManager.ts:51-56 | rendering applies each key's global replacement in turn, left to right |
| ResultManager.RenderWithoutPlaceholders | packages/cli/src/commands/result/ResultManager.ts:48-59 | a template with none of the context's placeholders renders unchanged |
| ResultManager.LaterKeysRewriteValues | packages/cli/src/commands/result/ResultManager.ts:51-56 | a value containing a later key's placeholder is itself rewritten |
| ResultManager.UndefinedRendersEmpty | packages/cli/src/commands/result/ResultManager.ts:53 | an `undefined` value renders as the empty string |
| ResultManager.ChangelogLeftInPlace | packages/cli/src/commands/result/ResultManager.ts:84-93 | `{{changelog}}` survives rendering, since no key fills it |
| ResultManager.Show | packages/cli/src/commands/result/ResultManager.ts:61-96 | `show` fails without a project directory. It fails exactly when the id has no entry, succeeds exactly when the entry's URL parses, and then prints the rendered context. |
| Json.OrEmpty | packages/cli/src/utils/config/ConfigManager.ts:33 | `target[key] \|\| {}`: a truthy value as it is, and a falsy one replaced by `{}` |
| Json.DeepMerge | packages/cli/src/utils/config/ConfigManager.ts:23-42 | the result has the keys of both. A non-object source value overwrites. An object source value is merged into an object. A target key absent from the source is kept. |
| Json.MergeIntoEmpty | packages/cli/src/utils/config/ConfigManager.ts:23-42 | merging into `{}` reproduces the source |
| Json.MergeNothing | packages/cli/src/utils/config/ConfigManager.ts:23-42 | merging `{}` copies the target |
| Json.MergeIdempotent | packages/cli/src/utils/config/ConfigManager.ts:23-42 | merging the same source twice changes nothing more |
| ConfigManager.SetIn | packages/cli/src/utils/config/ConfigManager.ts:65-77 | the walk of `set` succeeds exactly when it starts from an object and each key but the last is missing (and created) or holds an object; it leaves an object. Starting from an array is the array error, and from anything else a `TypeError`. |
| ConfigManager.EmptyWalkable | packages/cli/src/utils/config/ConfigManager.ts:69-75 | every path can be walked from a fresh `{}`, since each missing key is created |
| ConfigManager.WalkableStep | packages/cli/src/utils/config/ConfigManager.ts:69-75 | the success condition of a path is the success condition of its tail, from the child its first key leads to or from the `{}` created for it |
| ConfigManager.SetInLookup | packages/cli/src/utils/config/ConfigManager.ts:65-77 | after the walk the path leads to the value |
| ConfigManager.SetInOthers | packages/cli/src/utils/config/ConfigManager.ts:65-77 | paths unrelated to the written one read as before |
| ConfigManager.Create | packages/cli/src/utils/config/ConfigManager.ts:8-21 | construction merges the defaults: `cloud` is always present (`{}` unless given), non-object initial values are copied, the cache is empty, and the manager is coherent |
| ConfigManager.CreateCopiesCloud | packages/cli/src/utils/config/ConfigManager.ts:18-21 | a given `cloud` object is taken over as it is |
| ConfigManager.Reset | packages/cli/src/utils/config/ConfigManager.ts:100-103 | `reset` re-merges with the defaults and empties the cache |
| ConfigManager.Get | packages/cli/src/utils/config/ConfigManager.ts:47-60 | a cached path returns the cached value. Otherwise the dotted lookup is returned and cached only when defined. On a coherent manager the result always equals the live lookup. |
| ConfigManager.Set | packages/cli/src/utils/config/ConfigManager.ts:64-88 | `set` succeeds exactly when its path can be walked (as for `SetIn`). After `set` the path reads as the value and every prefix is an object. Paths neither under nor above it are unchanged. The cache loses exactly the path and its descendants, and coherence is preserved. |
| ConfigManager.SetThenGet | packages/cli/src/utils/config/ConfigManager.ts:64-88 | a `get` after a successful `set` returns the value set |
| ConfigManager.SetOnFreshSucceeds | packages/cli/src/utils/config/ConfigManager.ts:64-80 | on a manager created with an empty configuration, `set` succeeds for every path, `cloud.oss.region` included |
| ConfigManager.Has | packages/cli/src/utils/config/ConfigManager.ts:90-92 | `has` asks the cache, not the data |
| ConfigManager.HasIgnoresData | packages/cli/src/utils/config/ConfigManager.ts:90-92 | a fresh manager holds `cloud` yet `has("cloud")` is false |
| ConfigManager.GetThenHas | packages/cli/src/utils/config/ConfigManager.ts:56-58 | after a `get` that finds a defined value, `has` is true |
| ConfigManager.GetAll | packages/cli/src/utils/config/ConfigManager.ts:94-98 | `getAll` is a shallow copy: the same top-level keys and values |
| ConfigService.Save | packages/cli/src/core/services/config/ConfigService.ts:53-55 | `save` writes the current data once and changes nothing else |
| ConfigService.RequestSave | packages/cli/src/core/services/config/ConfigService.ts:57-66 | `requestSave` arms one pending timer and writes nothing |
| ConfigService.Elapse | packages/cli/src/core/services/config/ConfigService.ts:62-65 | when the delay passes, a pending save writes the data once and clears the timer, and with no pending save nothing changes |
| ConfigService.Flush | packages/cli/src/core/services/config/ConfigService.ts:68-74 | `flush` cancels the pending timer and writes the data immediately, without clearing `saveTimeout` |
| ConfigService.OnDestroy | packages/cli/src/core/services/config/ConfigService.ts:25-27 | destroying the service flushes it |
| ConfigService.Exit | packages/cli/src/core/services/config/ConfigService.ts:22 | process exit flushes exactly when the exit hook was installed |
| ConfigService.Get | packages/cli/src/core/services/config/ConfigService.ts:76-78 | a present key reads as its stored value, a missing key as `undefined` |
| ConfigService.Set | packages/cli/src/core/services/config/ConfigService.ts:80-83 | the key reads as the value, other keys are unchanged, and a save is requested without writing |
| ConfigService.Delete | packages/cli/src/core/services/config/ConfigService.ts:85-88 | the key is absent afterwards, other keys are unchanged, and a save is requested |
| ConfigService.Has | packages/cli/src/core/services/config/ConfigService.ts:90-92 | `has` is key membership |
| ConfigService.BurstWritesNothing | packages/cli/src/core/services/config/ConfigService.ts:57-66 | any burst of mutations leaves a save pending and writes nothing |
| ConfigService.BurstThenOneWrite | packages/cli/src/core/services/config/ConfigService.ts:57-66 | a burst followed by the timer writes exactly once, with the final data |
| ConfigService.FlushCancelsTimer | packages/cli/src/core/services/config/ConfigService.ts:68-74 | a flush followed by the timer writes only once |
| ConfigService.ReadJson | packages/cli/src/utils/readJSON.ts:3-10 | `readJSON` returns the parsed file, and every failure is wrapped in a plain `Error` without `code` whose `cause` is the original |
| ConfigService.LoadConfig | packages/cli/src/core/services/config/ConfigService.ts:29-45 | as written: a readable file is loaded, and every failure rethrows as `Failed to load config` |
| ConfigService.MissingFileFailsLoad | packages/cli/src/core/services/config/ConfigService.ts:34-40 | as written: a missing file and a corrupt file both fail the load instead of falling back to defaults |
| ConfigService.LoadConfigFixed | packages/cli/src/core/services/config/ConfigService.ts:29-45 | corrected: a missing or corrupt file gives the defaults with a save pending, and other failures rethrow |
| ConfigService.FirstRunWritesDefaults | packages/cli/src/core/services/config/ConfigService.ts:34-36 | on a first run, the corrected load writes the defaults when the timer fires |
| ConfigService.Register | packages/cli/src/core/services/config/ConfigService.ts:19-23 | as written: `onRegister` succeeds exactly when the file reads, takes its data and installs the exit hook; any read failure throws `Failed to load config` before the hook is installed |
| ConfigService.RegisterFixed | packages/cli/src/core/services/config/ConfigService.ts:19-23 | `onRegister` over the corrected load: succeeds exactly when the file reads, is missing or is unparsable, starting from the armed defaults in the last two cases, and installs the exit hook |
| UploadService.ClientOptions | packages/cli/src/core/services/upload/UploadService.ts:28-39 | the options copy region, key, secret and bucket, and a truthy `domain` adds endpoint, `cname` and `secure` |
| UploadService.Register | packages/cli/src/core/services/upload/UploadService.ts:16-42 | registration fails exactly when there is no `cloud.oss` configuration |
| UploadService.MaxAttempts | packages/cli/src/core/services/upload/UploadService.ts:57-60 | a numeric `uploadRetries` gives at least one attempt and itself when at least 1, and anything else gives 3 attempts |
| UploadService.ObjectName | packages/cli/src/core/services/upload/UploadService.ts:55 | a truthy destination name wins over the file's base name |
| UploadService.StripHttps | packages/cli/src/core/services/upload/UploadService.ts:77 | only a leading `https://` is removed |
| UploadService.StripTrailingSlash | packages/cli/src/core/services/upload/UploadService.ts:77 | only one trailing `/` is removed |
| UploadService.HostStripsDecoration | packages/cli/src/core/services/upload/UploadService.ts:77 | `https://h/` and `h` give the host `h`; of two trailing slashes only one goes |
| UploadService.ResultUrl | packages/cli/src/core/services/upload/UploadService.ts:72-84 | the client's URL wins. Otherwise: `<proto>://<host>/<name>` from the endpoint, the bucket-and-region URL when the result has a name, and `""` otherwise. |
| UploadService.DomainUrl | packages/cli/src/core/services/upload/UploadService.ts:35-39 | with a custom domain the URL is `https://<domain>/<name>` |
| UploadService.NoDomainUrl | packages/cli/src/core/services/upload/UploadService.ts:81-82 | without a domain the URL is `http://<bucket>.<region>.aliyuncs.com/<name>` |
| UploadService.Backoffs | packages/cli/src/core/services/upload/UploadService.ts:93-99 | one wait after each failed attempt but the last, the `i`-th being `500 * 2^(i-1)` ms |
| UploadService.BackoffDoubles | packages/cli/src/core/services/upload/UploadService.ts:94 | the first wait is 500 ms and each further wait doubles |
| UploadService.FirstOk | packages/cli/src/core/services/upload/UploadService.ts:64-102 | the first successful attempt within the limit, after only failures, or none when every attempt fails |
| UploadService.FailureMessage | packages/cli/src/core/services/upload/UploadService.ts:104-106 | the final error names the file and ends with the last error's message |
| UploadService.FailureMessageNamesAttempts | packages/cli/src/core/services/upload/UploadService.ts:104-106 | the message determines the attempt count: different counts give different messages |
| UploadService.UploadFile | packages/cli/src/core/services/upload/UploadService.ts:44-107 | an inaccessible or non-regular file exits before any attempt. Otherwise the attempts stop at the first success with its URL, or after `maxAttempts` failures with the last error's message, waiting the backoff between attempts. |
| ServiceManager.Get | packages/cli/src/core/ServiceManager.ts:19-21 | `get` finds a stored instance exactly when the name is registered |
| ServiceManager.Register | packages/cli/src/core/ServiceManager.ts:9-17 | a known name changes nothing. A new name stores a freshly constructed instance, then runs `onRegister`. Names stay unique. |
| ServiceManager.ReentrantRegisterIsNoOp | packages/cli/src/core/ServiceManager.ts:14-16 | since the instance is stored before `onRegister`, registering the same name from the hook does nothing |
| ServiceManager.RegisterThenGet | packages/cli/src/core/ServiceManager.ts:9-21 | after registering a new name, `get` returns its new instance |
| ServiceManager.WithoutUnique | packages/cli/src/core/ServiceManager.ts:25 | `Map.delete` of one name keeps the remaining names unique |
| ServiceManager.Destroy | packages/cli/src/core/ServiceManager.ts:23-29 | an unknown name changes nothing; a known one is removed and its `onDestroy` runs; the name is gone afterwards and the names stay unique, so `destroyAll` can follow |
| ServiceManager.DestroyAll | packages/cli/src/core/ServiceManager.ts:31-35 | `destroyAll` empties the registry |
| ServiceManager.DestroyAllInOrder | packages/cli/src/core/ServiceManager.ts:31-35 | every `onDestroy` runs once, in insertion order |
| LogLevels.Table | packages/cli/src/utils/logger/levels.ts:3-29 | only `silent` has an empty badge and no colour |
| LogLevels.PrioritiesDecrease | packages/cli/src/utils/logger/levels.ts:3-29 | priorities strictly decrease from `debug` to `silent`, so they order the levels totally |
| LoggerService.Log | packages/cli/src/core/services/logger/LoggerService.ts:11-25 | a line is printed exactly for a non-silent level whose priority reaches the threshold's. It is the date, the badge, a string first argument painted in the level's colour, and the rest as given. |
| LoggerService.LogInfo | packages/cli/src/core/services/logger/LoggerService.ts:35-37 | `info` prints with the info badge exactly when its priority reaches the threshold |
| LoggerService.LogDebug | packages/cli/src/core/services/logger/LoggerService.ts:39-41 | the same for `debug` |
| LoggerService.LogWarn | packages/cli/src/core/services/logger/LoggerService.ts:43-45 | the same for `warn` |
| LoggerService.LogError | packages/cli/src/core/services/logger/LoggerService.ts:47-49 | the same for `error` |
| LoggerService.SetLevelGoverns | packages/cli/src/core/services/logger/LoggerService.ts:31-33 | after `setLevel(t)` what is printed is decided by `t` alone |
| LoggerService.InvertedUnderLevelsTable | packages/cli/src/core/services/logger/LoggerService.ts:9-13 | with the table of packages/cli/src/utils/logger/levels.ts (not the sibling `./levels` that `LoggerService` imports) and the default threshold `info`, `debug` and `info` print while `warn` and `error` do not |
| LoggerService.SilentNeverPrinted | packages/cli/src/core/services/logger/LoggerService.ts:12 | nothing is printed at level `silent` |
| LoggerService.SilentThresholdShowsAll | packages/cli/src/core/services/logger/LoggerService.ts:13 | under the table of packages/cli/src/utils/logger/levels.ts (not the sibling `./levels` that `LoggerService` imports), the threshold `silent` lets every other level through |
| LoggerService.SilentRowPaintsNothing | packages/cli/src/utils/logger/levels.ts:24-28 | the `silent` colour leaves a string as it is |
| DateFormat.FormatDate | packages/cli/src/utils/logger/formatter.ts:3-18 | a format containing none of the letters `Y`, `M`, `D`, `H`, `m` and `s` is returned unchanged (a format such as `Y/M`, which holds no whole token, is not covered) |
| DateFormat.DefaultLayout | packages/cli/src/utils/logger/formatter.ts:3-18 | the default format gives `<year>-<MM>-<DD> <HH>:<mm>:<ss>` from the padded parts |
| DateFormat.FirstOccurrenceOnly | packages/cli/src/utils/logger/formatter.ts:11-12 | string `replace` fills only the first `YYYY` |
| DateFormat.NumeralTokenFree | packages/cli/src/utils/logger/formatter.ts:12 | a year's numeral contains no token, so later replacements cannot touch it |
| EditorText.DropComments | packages/cli/src/utils/openEditorAndRead.ts:33 | the kept lines are exactly the non-comment lines; text without comment lines is kept whole |
| EditorText.DropCommentsCounts | packages/cli/src/utils/openEditorAndRead.ts:33 | each non-comment line is kept as often as it occurs |
| EditorText.DropCommentsAppend | packages/cli/src/utils/openEditorAndRead.ts:33 | the filter works line by line in order: dropping from two runs of lines is dropping from each, one after the other |
| EditorText.Clean | packages/cli/src/utils/openEditorAndRead.ts:31-35 | the cleaned text starts and ends with non-space characters, and text with no comment line is simply trimmed |
| EditorText.TitleHeaderRemoved | packages/cli/src/utils/openEditorAndRead.ts:13-35 | the `# <title>` header written before editing is removed by the cleaning |
| EditorText.Finish | packages/cli/src/utils/openEditorAndRead.ts:39-43 | the result always contains `更新日志`, and is the cleaned text headed by `更新日志: \n` exactly when the cleaned text lacked it |
| EditorText.CommentOnlyGivesHeading | packages/cli/src/utils/openEditorAndRead.ts:31-43 | text that is only a comment line yields the bare heading |
| Buffer.ToUint8Array | packages/shared/src/buffer/index.ts:28-50 | a `TypeError` exactly for an unsupported value. Otherwise a plain `Uint8Array` over the same store showing the same bytes: a Buffer or DataView keeps its window, and a `Uint8Array` is returned as it is. |
| Buffer.ToArrayBuffer | packages/shared/src/buffer/index.ts:52-69 | a whole store is returned as it is. A view is copied into a new store of the same kind with the same bytes. Unsupported values are a `TypeError`. |
| Buffer.NewBuffer | packages/shared/src/buffer/index.ts:77-85 | `Buffer.from` gives a new Buffer showing exactly the given bytes |
| Buffer.ToBuffer | packages/shared/src/buffer/index.ts:71-89 | a Buffer is returned as it is. Anything else supported becomes a new Buffer with the same bytes. Unsupported values are a `TypeError`. |
| Buffer.ByteLength | packages/shared/src/buffer/index.ts:91-105 | the number of bytes shown, or a `TypeError` exactly for unsupported values |
| Buffer.SupportedExactly | packages/shared/src/buffer/index.ts:49 | only a value of no `BufferLike` kind makes every converter throw |
| Buffer.BufferGetsPlainView | packages/shared/src/buffer/index.ts:29-39 | a Buffer is also a `Uint8Array`, but the earlier `isBuffer` test gives it a fresh plain view, while `toBuffer` returns it unchanged |
| Buffer.ConversionsKeepBytes | packages/shared/src/buffer/index.ts:28-105 | all three conversions keep the bytes and the byte length |
| Buffer.ArrayBufferRoundTrip | packages/shared/src/buffer/index.ts:28-69 | `toUint8Array(toArrayBuffer(x))` shows the bytes of `x` |
| Buffer.AliasingOfConversions | packages/shared/src/buffer/index.ts:28-69 | `toUint8Array` of a view shares its store, while `toArrayBuffer` of a view does not |
| Buffer.SharedSliceStaysShared | packages/shared/src/buffer/index.ts:61-66 | `toArrayBuffer` of a view over shared memory returns a `SharedArrayBuffer`, not an `ArrayBuffer` |

## Left out

- All I/O is outside the model: the file system is a given tree, `readdir` order is the listing order, and reading and writing files are values and counters. Concurrency between the async walk and other code is not modelled either.
- The interleaving of `onError` calls with yields is not modelled; a walk returns its entries and its error reports as two sequences. A missing `onError` (optional chaining) and the default `console.error` are not distinguished.
- `fs/promises.ts`'s `readJSON`, `writeJSON` and `ensureDir` wrappers are plain I/O and are left out.
- `path.join`, `resolve`, `dirname` and `basename` are uninterpreted or replaced by name sequences, so path normalisation (`..`, duplicate separators) is not modelled.
- `FindParent`: `dirname` is a parameter that must reach a fixed point (the `Shrinks` requirement); Node's `dirname` always does.
- The `xyx.config.json` lookup (`getXYXConfig`), `normalizeName`, `toLocaleLowerCase` and `new URL` are parameters; a URL that `new URL` rejects is an absent `onlineUrl`.
- `ResultManager`'s template text lives in a file that is not part of this model, so it is a parameter. `$` patterns in replacement strings are not interpreted.
- Object key order is modelled only where it is observable (the rendering context, the service registry); JSON objects are maps.
- `ConfigManager.Set`: a path running through an array is reported as an error rather than modelled, and a write through a primitive is the strict-mode `TypeError`. JavaScript keeps ancestor objects in the cache by reference, so `set` mutates them in place; the model states this by re-reading cached strict ancestors after `set`. Other sharing of values is not modelled: values are copied, while `set` stores the caller's object and `get`/`getAll` return live references. So after `set("a", o)`, `set("b", o)` and `set("a.x", 1)`, JavaScript reads 1 at `b.x`, whereas `ConfigManager.Set` and `ConfigManager.SetInOthers` state that `b` is unchanged.
- `ConfigService` and `UploadService` depend on `requireService`, `Service` and the logger only for logging and lookups, which are not modelled. The debounce delay of 100 ms is an abstract `Tick`.
- `UploadService.MaxAttempts`: retry counts are integers here, so `Math.floor` of a fractional count is not modelled, and neither is a non-finite `uploadRetries`. There `Math.max(1, NaN)` is `NaN`, which gives no attempts at all, and `Infinity` (from `JSON.parse("1e999")`) gives unbounded attempts (UploadService.ts:57-64).
- `UploadService.UploadFile`: the `ali-oss` client is a function from attempt number to outcome, and the waits are returned rather than slept.
- `LoggerService`: `chalk` styling is named rather than applied, the date prefix is a parameter, and `console.log` is the returned line. `LoggerService` imports its table from a sibling `./levels` module that is not part of this model, so there the table is a parameter.
- `utils/logger/Logger.ts` (the older `createLogger` logger used by `Cleanup` and `ResultManager`) is not part of this model; those commands' log lines are not modelled.
- `DateFormat`: `Date` getters and `addPrefixZero` are parameters.
- `EditorText`: spawning `$EDITOR`, the temporary file name, and the editor's exit status are not modelled; the text read back is a parameter.
- `Buffer.NewBuffer`: Node's pooled allocation (a small `Buffer.from` sharing a larger pool at a non-zero offset) is not modelled; the new Buffer covers its own store.
- `WalkFile.WalkFile`: the order of the returned paths is the traversal order, but only completeness and soundness of the set of paths are stated, not the exact sequence.
- `Cleanup.Clean`: `rmSync` with `force` is modelled as always succeeding, and the removals are returned as paths.
- `FsWalk.Node`: the tree is finite and acyclic, so symbolic-link cycles are not modelled. With `followSymlinks` on (the default), a link to an ancestor makes the walkers descend `a/l/a/l/…` until `stat` or `readdir` fails (`ELOOP`, `ENAMETOOLONG`) and reports the failure to `onError`. Termination and the completeness lemmas (`WalkFacts.DirPathsMatch`, `FilesFixed.FilePathsMatch`) rest on acyclicity.
- Strings are sequences of Unicode scalar values, while JavaScript strings are UTF-16 code units. For characters outside the Basic Multilingual Plane, string indexing and `length` in `Json.Prop`, and the positions `Trim` works on, differ from JavaScript.
- `FsWalk.WalkOptions`: the filter is a total function. A `filter` that throws, or one passed explicitly as `undefined` (which overrides the default through the spread at walk.ts:19), raises inside the `try` of the `readdir` loop. That is caught at walk.ts:89-98 and abandons the rest of the listing, which is not modelled. Likewise `order` is `Pre` or `Post`: an explicit `order: undefined` overrides the default `"pre"` through the same spread (walk.ts:19 and 117). Then neither `=== "pre"` nor `=== "post"` holds (walk.ts:77-87 and 174-183), so the walk yields nothing while it still recurses and reports to `onError`; that case is not modelled.
- `FsWalk.DepthCut`: depths and `maxDepth` are integers (`MaxDepth.Finite(n: int)`), while the option is any `number`. The one behaviour lost is a fractional `maxDepth` between 0 and 1 under `walkSync`: it passes the truthiness test at walk.ts:26, and `currentDepth > maxDepth` then cuts every subdirectory, so only the root's children are yielded. No `MaxDepth` value gives that cut in `Sync` mode, where `Finite(0)` means unlimited. Other fractions behave like their floor, `NaN` like `Unset`, and `-Infinity` like `Finite(-1)`.
- `Json`: inherited prototype properties are not modelled. In JavaScript, `key in current` in `set` (ConfigManager.ts:71) and `xyxConfig[configId]` in `show` (ResultManager.ts:76) also see keys such as `toString` and `constructor`.
- `UploadService.Register`: a configuration with no `cloud` key makes `this.config.get("cloud").oss` throw (UploadService.ts:20); the model takes `cloud.oss` as given and only distinguishes a falsy one.

## Findings

| source | as written | input that shows it | evidently intended | confidence | as-written member | corrected member |
|---|---|---|---|---|---|---|
| packages/cli/src/utils/findParent.ts:16-17 | when no ancestor satisfies the comparison, the root directory is returned (`parentDir \|\| fallback` is the root, which is truthy) | base `/a`, no directory holding `xyx.config.json`: `findParent` returns `/`, so `getWorkerDir` reports a project at `/` and the "Could not find" exits in `Cleanup.ts` and `ResultManager.ts` are unreachable | return the fallback (or nothing) when no ancestor is accepted | not executed | FindParent.RootReturnedWithoutMatch | FindParent.FindAccepted |
| packages/cli/src/core/services/config/ConfigService.ts:31-43 | `readJSON` wraps every failure in a new `Error` without `code`, so the `ENOENT` and `SyntaxError` branches can never be taken | no config file yet (first run): `loadConfig` throws `Failed to load config` instead of using the defaults | test the wrapped error's `cause`, falling back to the defaults for a missing or corrupt file | not executed | ConfigService.MissingFileFailsLoad | ConfigService.LoadConfigFixed |
| packages/shared/src/fs/walk.ts:210-224 | `walkFilesSync` passes `filter: e => e.isFile` to `walkSync`, which tests the filter before descending, so every directory is skipped with its contents; `walkFiles` (lines 242-256) and `walkFiles` of `promises.ts` (lines 147-161) do the same | a root holding only the directory `a`, which holds only the file `f`, default options (recursive): the result is empty | collect every file the recursive walk reaches, by walking without a filter and keeping the file entries | not executed | FilesFixed.NestedFileMissed | FilesFixed.WalkFilesFixed |
