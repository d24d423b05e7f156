/**
 * What `openEditorAndRead` does with the text the editor leaves behind:
 * comment lines (those starting with "#") are dropped, the rest rejoined
 * and trimmed, and a changelog heading is put in front unless the text
 * already mentions it.
 *
 * Spawning the editor and the temporary file are not modelled: the text
 * read back is a parameter.
 */
module EditorText {
  import opened Strings

  /** "更新日志" ("changelog"). */
  const Marker: string := "\U{66F4}\U{65B0}\U{65E5}\U{5FD7}"

  /** The heading put in front of text that lacks the marker. */
  const Heading: string := Marker + ": \n"

  predicate IsComment(line: string) {
    StartsWith(line, "#")
  }

  /** `.filter(line => !line.startsWith("#"))`. */
  function DropComments(lines: seq<string>): (kept: seq<string>)
    ensures |kept| <= |lines|
    ensures forall k :: 0 <= k < |kept| ==> !IsComment(kept[k])
    ensures forall l :: l in kept <==> l in lines && !IsComment(l)
    ensures (forall k :: 0 <= k < |lines| ==> !IsComment(lines[k])) ==> kept == lines
  {
    if |lines| == 0 then []
    else (if IsComment(lines[0]) then [] else [lines[0]]) + DropComments(lines[1..])
  }

  /** Each non-comment line is kept as many times as it occurs; with `DropCommentsAppend`, in its original order. */
  lemma {:induction false} DropCommentsCounts(lines: seq<string>, l: string)
    requires !IsComment(l)
    ensures multiset(DropComments(lines))[l] == multiset(lines)[l]
    decreases |lines|
  {
    if |lines| > 0 {
      assert lines == [lines[0]] + lines[1..];
      DropCommentsCounts(lines[1..], l);
    }
  }

  /** Dropping comments from two runs of lines drops them from each. */
  lemma {:induction false} DropCommentsAppend(a: seq<string>, b: seq<string>)
    ensures DropComments(a + b) == DropComments(a) + DropComments(b)
    decreases |a|
  {
    if |a| == 0 {
      assert a + b == b;
    } else {
      assert (a + b)[0] == a[0];
      assert (a + b)[1..] == a[1..] + b;
      DropCommentsAppend(a[1..], b);
    }
  }

  /** Lines 31-35: split on "\n", drop comments, rejoin with "\n", trim. */
  function Clean(content: string): (r: string)
    ensures |r| > 0 ==> !IsJsSpace(r[0]) && !IsJsSpace(r[|r| - 1])
    ensures (forall l <- Split(content, '\n') :: !IsComment(l)) ==> r == Trim(content)
  {
    JoinSplit(content, '\n');
    Trim(Join(DropComments(Split(content, '\n')), "\n"))
  }

  /** The returned text: the cleaned text, headed by the marker unless it already contains it. */
  function Finish(content: string): (r: string)
    ensures Contains(Clean(content), Marker) ==> r == Clean(content)
    ensures !Contains(Clean(content), Marker) ==> r == Heading + Clean(content)
    ensures Contains(r, Marker)
  {
    var c := Clean(content);
    if Contains(c, Marker) then c
    else
      assert (Heading + c)[0..|Marker|] == Marker;
      assert OccursAt(Heading + c, Marker, 0);
      Heading + c
  }

  /** A text without comment lines, after a title header the editor left in place. */
  lemma TitleHeaderRemoved(title: string, body: string)
    requires '\n' !in title
    ensures Clean("# " + title + "\n" + body) == Clean(body)
  {
    var header := "# " + title;
    assert '\n' !in header by {
      assert forall k :: 2 <= k < |header| ==> header[k] == title[k - 2];
    }
    assert "# " + title + "\n" + body == header + ['\n'] + body;
    SplitAround(header, '\n', body);
    assert IndexOfChar(header, '\n').None?;
    assert Split(header, '\n') == [header];
    assert IsComment(header) by { assert header[..1] == "#"; }
    DropCommentsAppend([header], Split(body, '\n'));
    assert DropComments([header]) == [];
    assert [] + DropComments(Split(body, '\n')) == DropComments(Split(body, '\n'));
  }

  /** A single comment line, such as the untouched title header, leaves only the heading. */
  lemma CommentOnlyGivesHeading(content: string)
    requires '\n' !in content && IsComment(content)
    ensures Clean(content) == ""
    ensures Finish(content) == Heading
  {
    assert Split(content, '\n') == [content];
    assert DropComments([content]) == [];
    assert !Contains("", Marker) by {
      assert forall i :: 0 <= i <= 0 ==> !OccursAt("", Marker, i);
    }
    assert Heading + "" == Heading;
  }
}
