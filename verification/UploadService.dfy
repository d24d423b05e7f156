/**
 * `UploadService`: client options from the `cloud.oss` configuration, and
 * `uploadFile`'s bounded retry with doubling back-off and the derivation of
 * the uploaded object's URL.
 *
 * The object-storage client is replaced by `put`, the outcome of each
 * attempt (attempts are numbered from 1); `stat` and `basename` are
 * parameters, and the waits are returned instead of slept.
 */
module UploadService {
  import opened Wrappers
  import opened Strings

  /** How `uploadRetries` is set: a number (modelled as an integer) or anything else. */
  datatype Retries = RetriesNumber(n: int) | RetriesOther

  /** `cloud.oss`; absent fields are `None`. */
  datatype OssConfig = OssConfig(
    region: Option<string>,
    apiKey: Option<string>,
    apiKeySecret: Option<string>,
    bucket: Option<string>,
    domain: Option<string>,
    uploadRetries: Retries)

  /** The client `Options` built in `onRegister`. */
  datatype Options = Options(
    region: Option<string>,
    accessKeyId: Option<string>,
    accessKeySecret: Option<string>,
    bucket: Option<string>,
    endpoint: Option<string>,
    cname: Option<bool>,
    secure: Option<bool>)

  predicate Truthy(s: Option<string>) {
    s.Some? && s.value != ""
  }

  /** Template-literal interpolation of a possibly `undefined` value. */
  function Interpolate(s: Option<string>): string {
    s.GetOr("undefined")
  }

  /** The client options: credentials copied; endpoint, `cname` and `secure` only with a domain. */
  function ClientOptions(cfg: OssConfig): (o: Options)
    ensures o.region == cfg.region && o.accessKeyId == cfg.apiKey
    ensures o.accessKeySecret == cfg.apiKeySecret && o.bucket == cfg.bucket
    ensures Truthy(cfg.domain) ==> o.endpoint == cfg.domain && o.cname == Some(true) && o.secure == Some(true)
    ensures !Truthy(cfg.domain) ==> o.endpoint.None? && o.cname.None? && o.secure.None?
  {
    var base := Options(cfg.region, cfg.apiKey, cfg.apiKeySecret, cfg.bucket, None, None, None);
    if Truthy(cfg.domain) then base.(endpoint := cfg.domain, cname := Some(true), secure := Some(true)) else base
  }

  datatype RegisterError = NoOssConfig   // `cloud.oss` is missing: exit(1)

  /** `onRegister()`, given what `config.get("cloud").oss` returned. */
  function Register(oss: Option<OssConfig>): (r: Result<Options, RegisterError>)
    ensures oss.None? <==> r == Err(NoOssConfig)
    ensures r.Ok? ==> r.value == ClientOptions(oss.value)
  {
    match oss
    case None => Err(NoOssConfig)
    case Some(cfg) => Ok(ClientOptions(cfg))
  }

  /** The number of attempts: the configured count, at least 1, or 3 when it is not a number. */
  function MaxAttempts(r: Retries): (n: nat)
    ensures n >= 1
    ensures r.RetriesOther? ==> n == 3
    ensures r.RetriesNumber? && r.n >= 1 ==> n == r.n
    ensures r.RetriesNumber? && r.n < 1 ==> n == 1
  {
    match r
    case RetriesOther => 3
    case RetriesNumber(k) => if k < 1 then 1 else k
  }

  /** The object's name: `destName` when non-empty, else the file's base name. */
  function ObjectName(file: string, destName: Option<string>, basename: string -> string): (name: string)
    ensures Truthy(destName) ==> name == destName.value
    ensures !Truthy(destName) ==> name == basename(file)
  {
    if Truthy(destName) then destName.value else basename(file)
  }

  /** `.replace(/^https:\/\//, "")`. */
  function StripHttps(e: string): (r: string)
    ensures StartsWith(e, "https://") ==> r == e[8..]
    ensures !StartsWith(e, "https://") ==> r == e
  {
    if StartsWith(e, "https://") then e[8..] else e
  }

  /** `.replace(/\/$/, "")`. */
  function StripTrailingSlash(e: string): (r: string)
    ensures |e| > 0 && e[|e| - 1] == '/' ==> r == e[..|e| - 1]
    ensures !(|e| > 0 && e[|e| - 1] == '/') ==> r == e
  {
    if |e| > 0 && e[|e| - 1] == '/' then e[..|e| - 1] else e
  }

  function Host(endpoint: string): string {
    StripTrailingSlash(StripHttps(endpoint))
  }

  /** Only a leading "https://" and one trailing "/" go; a bare host stays as it is. */
  lemma HostStripsDecoration(h: string)
    requires !StartsWith(h, "https://")
    requires |h| > 0 && h[|h| - 1] != '/'
    ensures Host("https://" + h + "/") == h
    ensures Host(h) == h
    ensures Host("https://" + h + "//") == h + "/"
  {
    var e := "https://" + h + "/";
    assert e[..8] == "https://";
    assert e[8..] == h + "/";
    var e2 := "https://" + h + "//";
    assert e2[..8] == "https://";
    assert e2[8..] == h + "//";
    assert (h + "//")[..|h| + 1] == h + "/";
  }

  /** A `put` attempt: success with the reported `url` and `name`, or an error with its message. */
  datatype PutOutcome = PutOk(url: Option<string>, name: Option<string>) | PutErr(message: string)

  /** The URL reported for an uploaded object. */
  function ResultUrl(o: Options, objectName: string, url: Option<string>, name: Option<string>): (u: string)
    ensures Truthy(url) ==> u == url.value
    ensures !Truthy(url) && Host(o.endpoint.GetOr("")) != "" ==>
              u == (if o.secure == Some(true) then "https" else "http") + "://" + Host(o.endpoint.GetOr("")) + "/" + objectName
    ensures !Truthy(url) && Host(o.endpoint.GetOr("")) == "" && Truthy(name) ==>
              u == (if o.secure == Some(true) then "https" else "http") + "://" + Interpolate(o.bucket) + "." + Interpolate(o.region) + ".aliyuncs.com/" + objectName
    ensures !Truthy(url) && Host(o.endpoint.GetOr("")) == "" && !Truthy(name) ==> u == ""
  {
    var u := url.GetOr("");
    if u != "" then u
    else
      var proto := if o.secure == Some(true) then "https" else "http";
      var host := Host(o.endpoint.GetOr(""));
      if host != "" then proto + "://" + host + "/" + objectName
      else if Truthy(name) then proto + "://" + Interpolate(o.bucket) + "." + Interpolate(o.region) + ".aliyuncs.com/" + objectName
      else ""
  }

  /** With a custom domain and no URL from the store, the object is served over https from that domain. */
  lemma DomainUrl(cfg: OssConfig, h: string, objectName: string, name: Option<string>)
    requires cfg.domain == Some("https://" + h + "/")
    requires !StartsWith(h, "https://") && |h| > 0 && h[|h| - 1] != '/'
    ensures ResultUrl(ClientOptions(cfg), objectName, None, name) == "https://" + h + "/" + objectName
  {
    HostStripsDecoration(h);
  }

  /** Without a domain the URL is built from bucket and region, and only when the store named the object. */
  lemma NoDomainUrl(cfg: OssConfig, objectName: string, name: string)
    requires !Truthy(cfg.domain) && name != ""
    ensures ResultUrl(ClientOptions(cfg), objectName, Some(""), Some(name))
            == "http://" + Interpolate(cfg.bucket) + "." + Interpolate(cfg.region) + ".aliyuncs.com/" + objectName
  {
    assert Host("") == "";
  }

  function Pow2(k: nat): (p: nat)
    ensures p >= 1
  {
    if k == 0 then 1 else 2 * Pow2(k - 1)
  }

  /** The wait after failed attempt `k`, in milliseconds. */
  function Backoff(k: nat): nat
    requires k >= 1
  {
    500 * Pow2(k - 1)
  }

  /** The waits after attempts 1..m. */
  function Backoffs(m: nat): (ws: seq<nat>)
    ensures |ws| == m
    ensures forall i :: 0 <= i < m ==> ws[i] == Backoff(i + 1)
  {
    seq(m, i requires 0 <= i => Backoff(i + 1))
  }

  /** Each wait doubles the one before. */
  lemma BackoffDoubles(k: nat)
    requires k >= 1
    ensures Backoff(k + 1) == 2 * Backoff(k)
    ensures Backoff(1) == 500
  {
  }

  /** The first attempt among 1..n whose `put` succeeds. */
  function FirstOk(put: nat -> PutOutcome, n: nat): (r: Option<nat>)
    ensures r.Some? ==> 1 <= r.value <= n && put(r.value).PutOk?
                        && forall j :: 1 <= j < r.value ==> put(j).PutErr?
    ensures r.None? ==> forall j :: 1 <= j <= n ==> put(j).PutErr?
  {
    if n == 0 then None
    else match FirstOk(put, n - 1)
      case Some(k) => Some(k)
      case None => if put(n).PutOk? then Some(n) else None
  }

  datatype FileStat = RegularFile | NotRegularFile | StatFailed

  datatype UploadError =
    | FileNotRegular                 // exit(1)
    | FileInaccessible               // exit(1)
    | UploadFailed(message: string)  // every attempt failed

  /** The message thrown after the last failed attempt. */
  function FailureMessage(file: string, attempts: nat, last: string): (msg: string)
    ensures StartsWith(msg, "Failed to upload \"" + file + "\" after ")
    ensures |msg| >= |last| && msg[|msg| - |last|..] == last
  {
    var head := "Failed to upload \"" + file + "\" after ";
    var msg := head + NatToDecimal(attempts) + " attempts: " + last;
    assert msg[..|head|] == head;
    msg
  }

  /** Equal texts with the same head and tail have the same middle. */
  lemma SameMiddle(head: string, d: string, e: string, tail: string)
    requires head + d + tail == head + e + tail
    ensures d == e
  {
    var x, y := head + d + tail, head + e + tail;
    assert |d| == |e|;
    assert x[|head|..|head| + |d|] == d;
    assert y[|head|..|head| + |e|] == e;
  }

  /** The message names the attempt count: two counts give two different messages. */
  lemma FailureMessageNamesAttempts(file: string, a: nat, b: nat, last: string)
    requires FailureMessage(file, a, last) == FailureMessage(file, b, last)
    ensures a == b
  {
    var head := "Failed to upload \"" + file + "\" after ";
    var tail := " attempts: " + last;
    assert FailureMessage(file, a, last) == head + NatToDecimal(a) + tail;
    assert FailureMessage(file, b, last) == head + NatToDecimal(b) + tail;
    SameMiddle(head, NatToDecimal(a), NatToDecimal(b), tail);
    NatToDecimalInjective(a, b);
  }

  /**
   * `uploadFile(file, destName)`: `attempts` is how many times `put` ran
   * and `waits` the back-off delays slept, in order.
   */
  method UploadFile(cfg: OssConfig, o: Options, file: string, destName: Option<string>, basename: string -> string,
                    stat: FileStat, put: nat -> PutOutcome)
    returns (r: Result<string, UploadError>, attempts: nat, waits: seq<nat>)
    ensures stat == StatFailed ==> r == Err(FileInaccessible) && attempts == 0
    ensures stat == NotRegularFile ==> r == Err(FileNotRegular) && attempts == 0
    ensures stat == RegularFile ==>
              var n := MaxAttempts(cfg.uploadRetries);
              var name := ObjectName(file, destName, basename);
              match FirstOk(put, n)
              case Some(k) => attempts == k && waits == Backoffs(k - 1)
                              && r == Ok(ResultUrl(o, name, put(k).url, put(k).name))
              case None => attempts == n && waits == Backoffs(n - 1)
                           && r == Err(UploadFailed(FailureMessage(file, n, put(n).message)))
  {
    waits := [];
    attempts := 0;
    if stat == StatFailed {
      return Err(FileInaccessible), 0, [];
    }
    if stat == NotRegularFile {
      return Err(FileNotRegular), 0, [];
    }
    var name := ObjectName(file, destName, basename);
    var n := MaxAttempts(cfg.uploadRetries);
    var lastMessage := "";
    var attempt := 1;
    while attempt <= n
      invariant 1 <= attempt <= n + 1
      invariant forall j :: 1 <= j < attempt ==> put(j).PutErr?
      invariant attempts == attempt - 1
      invariant waits == Backoffs(if attempt <= n then attempt - 1 else n - 1)
      invariant attempt > 1 ==> lastMessage == put(attempt - 1).message
      decreases n + 1 - attempt
    {
      attempts := attempt;
      match put(attempt)
      case PutOk(url, resultName) =>
        return Ok(ResultUrl(o, name, url, resultName)), attempts, waits;
      case PutErr(message) =>
        lastMessage := message;
        if attempt < n {
          waits := waits + [Backoff(attempt)];
        }
        attempt := attempt + 1;
    }
    r := Err(UploadFailed(FailureMessage(file, n, lastMessage)));
  }
}
