/**
 * The `clean` command's `Cleanup`: every entry of a platform build directory
 * whose name the cached template's platform directory does not have is
 * removed, so that only template-provided files remain.
 *
 * Paths are sequences of components and `path.join` is concatenation
 * (normalisation of "." and ".." is not modelled). The home directory, the
 * project root found by `getWorkerDir`, the cached template data and
 * `readdirSync` are parameters.
 */
module Cleanup {
  import opened Wrappers
  import ConfigId

  type Path = seq<string>

  /** What `~/.xyx-cli/template/data.json` holds, as far as `clean` reads it. */
  datatype TemplateData =
    | DataMissing                                  // existsSync is false: exit(1)
    | DataUnreadable                               // readJSON throws
    | Data(cachedVersion: Option<string>)          // None: the field is undefined

  datatype CleanError =
    | NoProject               // getWorkerDir found nothing: exit(1)
    | NoTemplateData          // the template data file is missing: exit(1)
    | TemplateDataUnreadable  // readJSON rejects the file
    | ReaddirFailed(dir: Path)

  const TemplateHome: Path := [".xyx-cli", "template"]
  const TemplatePrefix := "xyx-template-"

  /** Template-literal interpolation of a possibly `undefined` value. */
  function Interpolate(v: Option<string>): string {
    v.GetOr("undefined")
  }

  /** `getTemplatePath()`: the versioned template directory next to the data file. */
  function TemplatePath(home: Path, data: TemplateData): (r: Result<Path, CleanError>)
    ensures data.DataMissing? <==> r == Err(NoTemplateData)
    ensures data.DataUnreadable? <==> r == Err(TemplateDataUnreadable)
    ensures r.Ok? ==> |r.value| == |home| + 3 && r.value[..|home| + 2] == home + TemplateHome
    ensures r.Ok? ==> |r.value[|home| + 2]| >= |TemplatePrefix| && r.value[|home| + 2][..|TemplatePrefix|] == TemplatePrefix
  {
    match data
    case DataMissing => Err(NoTemplateData)
    case DataUnreadable => Err(TemplateDataUnreadable)
    case Data(v) => Ok(home + TemplateHome + [TemplatePrefix + Interpolate(v)])
  }

  /** The cached version can be read back from the template path. */
  lemma TemplateVersionRecoverable(home: Path, v: string)
    ensures var r := TemplatePath(home, Data(Some(v)));
            r.Ok? && r.value[|home| + 2][|TemplatePrefix|..] == v
  {
  }

  /** Different cached versions use different template directories. */
  lemma TemplatePathInjective(home: Path, v: string, w: string)
    requires TemplatePath(home, Data(Some(v))) == TemplatePath(home, Data(Some(w)))
    ensures v == w
  {
    TemplateVersionRecoverable(home, v);
    TemplateVersionRecoverable(home, w);
  }

  /** The build directory and the template directory `clean` compares. */
  function Dirs(projectBase: Path, templatePath: Path, configId: string): (d: (Path, Path))
    ensures var platform := ConfigId.ParseConfigId(configId).platform;
            var extra := if platform == "hippoo" then ["game"] else [];
            d.0 == projectBase + ["platform", configId] + extra
            && d.1 == templatePath + ["common", platform] + extra
  {
    var platform := ConfigId.ParseConfigId(configId).platform;
    var target := projectBase + ["platform", configId];
    var templ := templatePath + ["common", platform];
    if platform == "hippoo" then (target + ["game"], templ + ["game"]) else (target, templ)
  }

  /** Only the `hippoo` platform keeps its files one level down, in `game`. */
  lemma HippooUsesGameDir(projectBase: Path, templatePath: Path, channel: string, publisher: string)
    requires '@' !in channel && '@' !in publisher && '#' !in channel && '#' !in publisher
    requires channel != ""
    ensures var d := Dirs(projectBase, templatePath, "hippoo" + "@" + channel + "#" + publisher);
            d.0[|d.0| - 1] == "game" && d.1[|d.1| - 1] == "game"
  {
    var id := "hippoo" + "@" + channel + "#" + publisher;
    ConfigId.ParseFormat("hippoo", channel, publisher);
    GameDirLast(projectBase, templatePath, id);
  }

  lemma GameDirLast(projectBase: Path, templatePath: Path, configId: string)
    requires ConfigId.ParseConfigId(configId).platform == "hippoo"
    ensures var d := Dirs(projectBase, templatePath, configId);
            d.0[|d.0| - 1] == "game" && d.1[|d.1| - 1] == "game"
  {
  }

  /** The names of `target` that `template` lacks, in `target`'s order. */
  function ToRemove(target: seq<string>, template: seq<string>): (r: seq<string>)
    ensures forall n :: n in r <==> n in target && n !in template
    ensures |r| <= |target|
  {
    if |target| == 0 then []
    else (if target[0] in template then [] else [target[0]]) + ToRemove(target[1..], template)
  }

  /** The names of `target` that `template` also has. */
  function Kept(target: seq<string>, template: seq<string>): (r: seq<string>)
    ensures forall n :: n in r <==> n in target && n in template
  {
    if |target| == 0 then []
    else (if target[0] in template then [target[0]] else []) + Kept(target[1..], template)
  }

  /** Removal works entry by entry: the listing can be split anywhere. */
  lemma {:induction false} ToRemoveAppend(a: seq<string>, b: seq<string>, template: seq<string>)
    ensures ToRemove(a + b, template) == ToRemove(a, template) + ToRemove(b, template)
  {
    if |a| == 0 {
      assert a + b == b;
    } else {
      var head := if a[0] in template then [] else [a[0]];
      assert (a + b)[0] == a[0];
      assert (a + b)[1..] == a[1..] + b;
      assert ToRemove(a + b, template) == head + ToRemove(a[1..] + b, template);
      ToRemoveAppend(a[1..], b, template);
    }
  }

  lemma {:induction false} KeptAppend(a: seq<string>, b: seq<string>, template: seq<string>)
    ensures Kept(a + b, template) == Kept(a, template) + Kept(b, template)
  {
    if |a| == 0 {
      assert a + b == b;
    } else {
      var head := if a[0] in template then [a[0]] else [];
      assert (a + b)[0] == a[0];
      assert (a + b)[1..] == a[1..] + b;
      assert Kept(a + b, template) == head + Kept(a[1..] + b, template);
      KeptAppend(a[1..], b, template);
    }
  }

  /** Every entry is either removed or kept, never both. */
  lemma {:induction false} Partition(target: seq<string>, template: seq<string>)
    ensures |ToRemove(target, template)| + |Kept(target, template)| == |target|
    ensures multiset(ToRemove(target, template)) + multiset(Kept(target, template)) == multiset(target)
  {
    if |target| > 0 {
      Partition(target[1..], template);
      assert target == [target[0]] + target[1..];
    }
  }

  /** A build directory the template fully covers loses nothing. */
  lemma {:induction false} CoveredListingUntouched(target: seq<string>, template: seq<string>)
    requires forall n <- target :: n in template
    ensures ToRemove(target, template) == [] && Kept(target, template) == target
  {
    if |target| > 0 {
      CoveredListingUntouched(target[1..], template);
      assert target == [target[0]] + target[1..];
    }
  }

  /** Cleaning again removes nothing. */
  lemma CleanIsIdempotent(target: seq<string>, template: seq<string>)
    ensures ToRemove(Kept(target, template), template) == []
  {
    CoveredListingUntouched(Kept(target, template), template);
  }

  /** What a completed `clean` listed and removed. */
  datatype CleanRun = CleanRun(targetDir: Path, templateDir: Path, targetNames: seq<string>,
                               templateNames: seq<string>, removed: seq<Path>)

  /**
   * `clean(configId)`: the checks in source order, then one `rmSync` per
   * target entry the template lacks. `readdir` is `readdirSync`, `None` when it throws.
   */
  function Clean(projectBase: Option<Path>, home: Path, data: TemplateData, configId: string,
                 readdir: Path -> Option<seq<string>>): (r: Result<CleanRun, CleanError>)
    ensures projectBase.None? ==> r == Err(NoProject)
    ensures projectBase.Some? && !data.Data? ==> r == TemplatePath(home, data).PropagateFailure()
    ensures r.Ok? ==> projectBase.Some? && TemplatePath(home, data).Ok?
                      && (r.value.targetDir, r.value.templateDir) == Dirs(projectBase.value, TemplatePath(home, data).value, configId)
    ensures r.Ok? ==> readdir(r.value.templateDir) == Some(r.value.templateNames)
                      && readdir(r.value.targetDir) == Some(r.value.targetNames)
    ensures r.Ok? ==> var names := ToRemove(r.value.targetNames, r.value.templateNames);
                      |r.value.removed| == |names|
                      && forall i :: 0 <= i < |names| ==> r.value.removed[i] == r.value.targetDir + [names[i]]
    ensures r.Ok? ==> forall p <- r.value.removed ::
                        |p| == |r.value.targetDir| + 1 && p[..|r.value.targetDir|] == r.value.targetDir
                        && p[|p| - 1] in r.value.targetNames && p[|p| - 1] !in r.value.templateNames
    ensures r.Err? && r.error.ReaddirFailed? ==> readdir(r.error.dir).None?
  {
    if projectBase.None? then Err(NoProject)
    else
      var templatePath :- TemplatePath(home, data);
      var (target, templ) := Dirs(projectBase.value, templatePath, configId);
      match readdir(templ)
      case None => Err(ReaddirFailed(templ))
      case Some(templateNames) =>
        match readdir(target)
        case None => Err(ReaddirFailed(target))
        case Some(targetNames) =>
          var names := ToRemove(targetNames, templateNames);
          Ok(CleanRun(target, templ, targetNames, templateNames,
                      seq(|names|, i requires 0 <= i < |names| => target + [names[i]])))
  }
}
