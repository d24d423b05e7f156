/**
 * `parseConfigId`: a config id has the shape `platform@channel#publisher`.
 * The id is split on "@" and, when the second piece is non-empty, that piece
 * is split on "#". Missing pieces stay `undefined`; the platform is a plain
 * string, not checked against the `Platform` enumeration.
 */
module ConfigId {
  import opened Wrappers
  import opened Strings

  /** `ConfigInfo`; `None` stands for `undefined`. */
  datatype ConfigInfo = ConfigInfo(platform: string, channel: Option<string>, publisher: Option<string>)

  /** The element at `i` of an array, `undefined` past its end. */
  function At(parts: seq<string>, i: nat): Option<string> {
    if i < |parts| then Some(parts[i]) else None
  }

  /** JavaScript truthiness of an optional string. */
  predicate Truthy(s: Option<string>) {
    s.Some? && s.value != ""
  }

  /** The text up to the first `c`, or all of it. */
  function Before(s: string, c: char): (r: string)
    ensures c !in r
  {
    match IndexOfChar(s, c)
    case None => s
    case Some(i) => s[..i]
  }

  /** The text after the first `c` and up to the next one, when `c` occurs. */
  function Between(s: string, c: char): (r: Option<string>)
    ensures r.Some? <==> c in s
    ensures r.Some? ==> c !in r.value
  {
    match IndexOfChar(s, c)
    case None => None
    case Some(i) => Some(Before(s[i + 1..], c))
  }

  function ParseConfigId(id: string): (r: ConfigInfo)
    ensures r.platform == Before(id, '@')
    ensures r.channel.None? <==> '@' !in id
    ensures '@' in id && Between(id, '@').value != "" ==>
              r.channel == Some(Before(Between(id, '@').value, '#'))
              && r.publisher == Between(Between(id, '@').value, '#')
    ensures '@' in id && Between(id, '@').value == "" ==> r.channel == Some("") && r.publisher == Some("")
    ensures '@' !in id ==> r.publisher == Some("")
  {
    var parts := Split(id, '@');
    SplitHead(id, '@');
    var platform := parts[0];
    var channel := At(parts, 1);
    if Truthy(channel) then
      var sub := Split(channel.value, '#');
      SplitHead(channel.value, '#');
      ConfigInfo(platform, Some(sub[0]), At(sub, 1))
    else
      ConfigInfo(platform, channel, Some(""))
  }

  /** The first two pieces of a split, in terms of the first separator. */
  lemma SplitHead(s: string, c: char)
    ensures Split(s, c)[0] == Before(s, c)
    ensures At(Split(s, c), 1) == Between(s, c)
  {
    match IndexOfChar(s, c)
    case None =>
    case Some(i) =>
      var rest := s[i + 1..];
      assert Split(s, c) == [s[..i]] + Split(rest, c);
      SplitHeadFirst(rest, c);
  }

  lemma SplitHeadFirst(s: string, c: char)
    ensures Split(s, c)[0] == Before(s, c)
  {
  }

  /** Writing the three parts with their separators and parsing gives them back. */
  lemma ParseFormat(platform: string, channel: string, publisher: string)
    requires '@' !in platform && '@' !in channel && '@' !in publisher
    requires '#' !in channel && '#' !in publisher
    requires channel != ""
    ensures ParseConfigId(platform + "@" + channel + "#" + publisher)
            == ConfigInfo(platform, Some(channel), Some(publisher))
  {
    var id := platform + "@" + channel + "#" + publisher;
    IndexOfCharAt(id, '@', |platform|);
    assert id[..|platform|] == platform;
    var tail := id[|platform| + 1..];
    assert tail == channel + "#" + publisher;
    assert '@' !in tail;
    IndexOfCharAt(tail, '#', |channel|);
    assert tail[..|channel|] == channel;
    assert tail[|channel| + 1..] == publisher;
    assert IndexOfChar(publisher, '#').None?;
  }

  /** An id without "@" is all platform: the channel is undefined and the publisher empty. */
  lemma ParsePlatformOnly(id: string)
    requires '@' !in id
    ensures ParseConfigId(id) == ConfigInfo(id, None, Some(""))
  {
  }

  /** Text appended after an occurrence of `c` does not change what comes before the first one. */
  lemma BeforeAppend(s: string, c: char, t: string)
    requires c in s
    ensures Before(s + t, c) == Before(s, c)
    ensures IndexOfChar(s + t, c) == IndexOfChar(s, c)
  {
    var i := IndexOfChar(s, c).value;
    assert (s + t)[..i] == s[..i];
    IndexOfCharAt(s + t, c, i);
  }

  lemma BeforeSep(s: string, c: char, t: string)
    requires c !in s
    ensures Before(s + [c] + t, c) == s
  {
    var u := s + [c] + t;
    assert u[..|s|] == s;
    IndexOfCharAt(u, c, |s|);
  }

  /** Text after a second "@" does not reach the result. */
  lemma SecondAtIgnored(id: string, extra: string)
    requires '@' in id
    ensures ParseConfigId(id + "@" + extra) == ParseConfigId(id)
  {
    var i := IndexOfChar(id, '@').value;
    var long := id + "@" + extra;
    BeforeAppend(id, '@', "@" + extra);
    assert id + ("@" + extra) == long;
    var tail := id[i + 1..];
    assert long[i + 1..] == tail + "@" + extra;
    if '@' in tail {
      BeforeAppend(tail, '@', "@" + extra);
      assert tail + ("@" + extra) == tail + "@" + extra;
    } else {
      BeforeSep(tail, '@', extra);
    }
    assert Between(long, '@') == Between(id, '@');
    ParseDeterminedByPieces(long, id);
  }

  /** The parse depends only on the platform piece and the first "@"-piece. */
  lemma ParseDeterminedByPieces(a: string, b: string)
    requires Before(a, '@') == Before(b, '@') && Between(a, '@') == Between(b, '@')
    ensures ParseConfigId(a) == ParseConfigId(b)
  {
  }
}
