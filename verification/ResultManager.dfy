/**
 * The `result` command's `ResultManager`: derive the advertising links of a
 * configuration from its publisher and online URL, assemble the rendering
 * context, and fill `{{key}}` placeholders of a text template.
 *
 * `path.dirname`, `path.join`, `normalizeName` and `toLocaleLowerCase` are
 * parameters (`PathOps`), and so is the parsed `new URL(online_url)`; the
 * template text itself is a parameter too.
 */
module ResultManager {
  import opened Wrappers
  import opened Strings
  import ConfigId

  /** The helpers the links are computed with, left uninterpreted. */
  datatype PathOps = PathOps(
    dirname: string -> string,
    join3: (string, string, string) -> string,
    normalizeName: string -> string,
    lower: string -> string)

  /** The parts of `new URL(online_url)` the links use. */
  datatype Url = Url(pathname: string, href: string)

  /** `LinksResult`, with `package_download_address` still missing its version. */
  datatype Links = Links(
    official: string,
    test: string,
    packagePrefix: string,
    gameUrl: string,
    cyProjectName: string)

  /** The host name of a publisher's site: `<publisher>game`, or `hnyigegame` when the publisher is empty or missing. */
  function Hostname(publisher: Option<string>): (h: string)
    ensures publisher.Some? && publisher.value != "" ==> h == publisher.value + "game"
    ensures publisher.None? || publisher.value == "" ==> h == "hnyigegame"
  {
    if publisher.Some? && publisher.value != "" then publisher.value + "game" else "hnyigegame"
  }

  function Host(hostname: string): string {
    "http://twww." + hostname + ".com/h5games/" + hostname
  }

  /** `.replace(/^\//, "")`: at most one leading slash goes. */
  function StripLeadingSlash(s: string): (r: string)
    ensures StartsWith(s, "/") ==> r == s[1..]
    ensures !StartsWith(s, "/") ==> r == s
    ensures |s| - 1 <= |r| <= |s|
  {
    if |s| > 0 && s[0] == '/' then s[1..] else s
  }

  /** `buildLinks(configId, online_url)`. */
  function BuildLinks(ops: PathOps, configId: string, url: Url): (l: Links)
    ensures var hostname := Hostname(ConfigId.ParseConfigId(configId).publisher);
            l.official == ops.join3(Host(hostname), l.cyProjectName, "index.html") + "?env=pre"
    ensures l.test == l.official + "&ad_env=preview"
    ensures l.cyProjectName == StripLeadingSlash(ops.dirname(url.pathname))
    ensures l.packagePrefix == ops.normalizeName(configId) + "-" + ops.lower(l.cyProjectName) + "-"
    ensures l.gameUrl == url.href
  {
    var publisher := ConfigId.ParseConfigId(configId).publisher;
    var host := Host(Hostname(publisher));
    var cy := StripLeadingSlash(ops.dirname(url.pathname));
    var page := ops.join3(host, cy, "index.html");
    TestLinkExtendsOfficial(page);
    Links(page + "?env=pre", page + "?env=pre&ad_env=preview",
          ops.normalizeName(configId) + "-" + ops.lower(cy) + "-", url.href, cy)
  }

  /** The preview link is the pre-release link with one more query parameter. */
  lemma TestLinkExtendsOfficial(page: string)
    ensures page + "?env=pre&ad_env=preview" == page + "?env=pre" + "&ad_env=preview"
  {
    assert "?env=pre&ad_env=preview" == "?env=pre" + "&ad_env=preview";
  }

  /** A configuration with a non-empty publisher gets that publisher's host. */
  lemma PublisherHost(ops: PathOps, platform: string, channel: string, publisher: string, url: Url)
    requires '@' !in platform && '@' !in channel && '@' !in publisher
    requires '#' !in channel && '#' !in publisher
    requires channel != "" && publisher != ""
    ensures var id := platform + "@" + channel + "#" + publisher;
            Hostname(ConfigId.ParseConfigId(id).publisher) == publisher + "game"
            && BuildLinks(ops, id, url).official
               == ops.join3(Host(publisher + "game"), BuildLinks(ops, id, url).cyProjectName, "index.html") + "?env=pre"
  {
    ConfigId.ParseFormat(platform, channel, publisher);
  }

  /** Without "@" there is no publisher, so the default host is used. */
  lemma DefaultHost(ops: PathOps, configId: string, url: Url)
    requires '@' !in configId
    ensures Hostname(ConfigId.ParseConfigId(configId).publisher) == "hnyigegame"
    ensures BuildLinks(ops, configId, url).official
            == ops.join3(Host("hnyigegame"), BuildLinks(ops, configId, url).cyProjectName, "index.html") + "?env=pre"
  {
    ConfigId.ParsePlatformOnly(configId);
  }

  /** One entry of the `xyx.config.json` object, as far as `show` reads it. */
  datatype ProjectConfig = ProjectConfig(onlineUrl: Option<Url>, projectName: Option<string>, versionName: Option<string>)

  /** A rendering context: keys in JavaScript insertion order, `None` for `undefined`. */
  type Ctx = seq<(string, Option<string>)>

  function Keys(ctx: Ctx): (ks: seq<string>)
    ensures |ks| == |ctx| && forall i :: 0 <= i < |ctx| ==> ks[i] == ctx[i].0
  {
    if |ctx| == 0 then [] else [ctx[0].0] + Keys(ctx[1..])
  }

  /** Template-literal interpolation of a possibly `undefined` value. */
  function Interpolate(v: Option<string>): string {
    v.GetOr("undefined")
  }

  /**
   * The context `show` renders: the links spread first, then the project
   * fields; overriding `package_download_address` keeps its place.
   */
  function ShowCtx(links: Links, configId: string, cfg: ProjectConfig): (ctx: Ctx)
    ensures Keys(ctx) == ["official_advertising_link", "test_advertising_link", "package_download_address",
                          "game_url", "cyProjectName", "project_name", "platform", "version"]
    ensures "changelog" !in Keys(ctx)
    ensures ctx[0].1 == Some(links.official) && ctx[1].1 == Some(links.test)
    ensures ctx[3].1 == Some(links.gameUrl) && ctx[4].1 == Some(links.cyProjectName)
    ensures ctx[2].1 == Some(links.packagePrefix + Interpolate(cfg.versionName) + ".zip")
    ensures ctx[6].1 == Some("[" + configId + "]")
    ensures ctx[5].1 == cfg.projectName && ctx[7].1 == cfg.versionName
  {
    [("official_advertising_link", Some(links.official)),
     ("test_advertising_link", Some(links.test)),
     ("package_download_address", Some(links.packagePrefix + Interpolate(cfg.versionName) + ".zip")),
     ("game_url", Some(links.gameUrl)),
     ("cyProjectName", Some(links.cyProjectName)),
     ("project_name", cfg.projectName),
     ("platform", Some("[" + configId + "]")),
     ("version", cfg.versionName)]
  }

  function Placeholder(key: string): (p: string)
    ensures |p| > 0
  {
    "{{" + key + "}}"
  }

  /** Every placeholder opens with "{{", so replacing one in text without "{{" changes nothing. */
  lemma BracelessUnchanged(t: string, key: string, value: string)
    ensures !Contains(t, "{{") ==> ReplaceAll(t, Placeholder(key), value) == t
  {
    var p := Placeholder(key);
    if !Contains(t, "{{") {
      forall i | OccursAt(t, p, i)
        ensures false
      {
        assert t[i..i + 2] == p[..2] == "{{";
        assert OccursAt(t, "{{", i);
      }
      ReplaceAllAbsent(t, p, value);
    }
  }

  /** `render(ctx)`: for each key in order, replace every `{{key}}` of the text so far by the value, or by "". */
  function Render(template: string, ctx: Ctx): (r: string)
    ensures !Contains(template, "{{") ==> r == template
    decreases |ctx|
  {
    if |ctx| == 0 then template
    else
      BracelessUnchanged(template, ctx[0].0, ctx[0].1.GetOr(""));
      Render(ReplaceAll(template, Placeholder(ctx[0].0), ctx[0].1.GetOr("")), ctx[1..])
  }

  /** Rendering is left to right: the result is the last key's replacement applied to the rendering of the others. */
  lemma {:induction false} RenderSnoc(template: string, ctx: Ctx, key: string, value: Option<string>)
    ensures Render(template, ctx + [(key, value)]) == ReplaceAll(Render(template, ctx), Placeholder(key), value.GetOr(""))
    decreases |ctx|
  {
    if |ctx| == 0 {
      assert ([] + [(key, value)])[1..] == [];
    } else {
      assert (ctx + [(key, value)])[1..] == ctx[1..] + [(key, value)];
      RenderSnoc(ReplaceAll(template, Placeholder(ctx[0].0), ctx[0].1.GetOr("")), ctx[1..], key, value);
    }
  }

  /** A text holding no placeholder of any key of the context is rendered unchanged. */
  lemma {:induction false} RenderWithoutPlaceholders(template: string, ctx: Ctx)
    requires forall i :: 0 <= i < |ctx| ==> !Contains(template, Placeholder(ctx[i].0))
    ensures Render(template, ctx) == template
    decreases |ctx|
  {
    if |ctx| > 0 {
      ReplaceAllAbsent(template, Placeholder(ctx[0].0), ctx[0].1.GetOr(""));
      RenderWithoutPlaceholders(template, ctx[1..]);
    }
  }

  /** A value inserted for an earlier key is itself rewritten by a later key's replacement. */
  lemma LaterKeysRewriteValues()
    ensures Render("{{a}}", [("a", Some("{{b}}")), ("b", Some("x"))]) == "x"
  {
    var s1 := ReplaceAll("{{a}}", "{{a}}", "{{b}}");
    assert "{{a}}"[5..] == "";
    assert s1 == "{{b}}";
    assert "{{b}}"[5..] == "";
    assert ReplaceAll("{{b}}", "{{b}}", "x") == "x";
  }

  /** A key with an `undefined` value erases its placeholders. */
  lemma UndefinedRendersEmpty(key: string)
    ensures Render(Placeholder(key), [(key, None)]) == ""
  {
    var p := Placeholder(key);
    assert p[..|p|] == p && p[|p|..] == "";
    assert ReplaceAll(p, p, "") == "";
  }

  /** `show` never sets `changelog`, so its placeholder is printed as it stands. */
  lemma ChangelogLeftInPlace(links: Links, configId: string, cfg: ProjectConfig)
    ensures Render("{{changelog}}", ShowCtx(links, configId, cfg)) == "{{changelog}}"
  {
    var t := "{{changelog}}";
    var ctx := ShowCtx(links, configId, cfg);
    forall i | 0 <= i < |ctx|
      ensures !Contains(t, Placeholder(ctx[i].0))
    {
      var p := Placeholder(ctx[i].0);
      forall k | 0 <= k <= |t|
        ensures !OccursAt(t, p, k)
      {
        if k + |p| <= |t| {
          var w := t[k..k + |p|];
          if k == 0 {
            assert w[2] != p[2];
          } else if k == 1 {
            assert w[1] != p[1];
          } else {
            assert w[0] != p[0];
          }
        }
      }
    }
    RenderWithoutPlaceholders(t, ctx);
  }

  /** Why `show` stops before rendering. */
  datatype ShowError =
    | ProjectNotFound            // no ancestor holds xyx.config.json: exit(1)
    | ConfigIdNotFound           // the id has no entry in xyx.config.json: exit(1)
    | InvalidUrl                 // `new URL(online_url)` throws

  /** `show()`: `projectBase` is what `getWorkerDir` found; the text is what is printed. */
  function Show(ops: PathOps, template: string, configId: string, projectBase: Option<string>,
                configs: map<string, ProjectConfig>): (r: Result<string, ShowError>)
    ensures projectBase.None? || projectBase.value == "" ==> r == Err(ProjectNotFound)
    ensures r == Err(ConfigIdNotFound) <==> projectBase.Some? && projectBase.value != "" && configId !in configs
    ensures r.Ok? <==> projectBase.Some? && projectBase.value != "" && configId in configs && configs[configId].onlineUrl.Some?
    ensures r.Ok? ==> r.value == Render(template, ShowCtx(BuildLinks(ops, configId, configs[configId].onlineUrl.value), configId, configs[configId]))
  {
    if projectBase.None? || projectBase.value == "" then Err(ProjectNotFound)
    else if configId !in configs then Err(ConfigIdNotFound)
    else
      var cfg := configs[configId];
      match cfg.onlineUrl
      case None => Err(InvalidUrl)
      case Some(url) => Ok(Render(template, ShowCtx(BuildLinks(ops, configId, url), configId, cfg)))
  }
}
