/**
 * `formatDate(date, format)`: the six tokens `YYYY`, `MM`, `DD`, `HH`, `mm`
 * and `ss` are replaced in that order, each at its first occurrence only.
 *
 * The clock is replaced by the values `Date`'s getters return, and the
 * zero-padding helper `addPrefixZero` (not part of this model) by a
 * parameter `pad`.
 */
module DateFormat {
  import opened Strings

  /** What `getFullYear`, `getMonth` (0-based), `getDate`, `getHours`, `getMinutes` and `getSeconds` return. */
  datatype DateParts = DateParts(year: int, month0: int, day: int, hours: int, minutes: int, seconds: int)

  const DefaultFormat: string := "YYYY-MM-DD HH:mm:ss"

  /** No character of `a` is `c`. */
  predicate Avoids(a: string, c: char) {
    forall k :: 0 <= k < |a| ==> a[k] != c
  }

  /** A string none of whose characters starts a token. */
  predicate TokenFree(s: string) {
    Avoids(s, 'Y') && Avoids(s, 'M') && Avoids(s, 'D') && Avoids(s, 'H') && Avoids(s, 'm') && Avoids(s, 's')
  }

  /** `pat` cannot occur at any index where `s` does not hold its first character. */
  lemma NoOccurrenceBefore(s: string, pat: string, n: int)
    requires |pat| > 0 && 0 <= n <= |s|
    requires forall k :: 0 <= k < n ==> s[k] != pat[0]
    ensures forall j :: 0 <= j < n ==> !OccursAt(s, pat, j)
  {
    forall j | 0 <= j < n
      ensures !OccursAt(s, pat, j)
    {
      if j + |pat| <= |s| {
        assert s[j..j + |pat|][0] == s[j];
      }
    }
  }

  /** When nothing before `pat` can start it, the first occurrence is the one after `a`. */
  lemma ReplaceFirstAfter(a: string, pat: string, val: string, b: string)
    requires |pat| > 0 && Avoids(a, pat[0])
    ensures ReplaceFirst(a + pat + b, pat, val) == a + val + b
  {
    var s := a + pat + b;
    assert s[|a|..|a| + |pat|] == pat;
    assert OccursAt(s, pat, |a|);
    NoOccurrenceBefore(s, pat, |a|);
    var i := IndexOf(s, pat);
    assert i.Some? && i.value == |a|;
    assert s[..|a|] == a;
    assert s[|a| + |pat|..] == b;
  }

  /** A token whose first letter does not occur is not replaced. */
  lemma ReplaceAbsent(s: string, pat: string, val: string)
    requires |pat| > 0
    ensures Avoids(s, pat[0]) ==> ReplaceFirst(s, pat, val) == s
  {
    if Avoids(s, pat[0]) {
      NoOccurrenceBefore(s, pat, |s|);
      assert !OccursAt(s, pat, |s|);
    }
  }

  /** The substitutions `formatDate` performs, in order: token and replacement. */
  function Substitutions(d: DateParts, pad: int -> string): (subs: seq<(string, string)>)
    ensures |subs| == 6
  {
    [("YYYY", IntToDecimal(d.year)), ("MM", pad(d.month0 + 1)), ("DD", pad(d.day)),
     ("HH", pad(d.hours)), ("mm", pad(d.minutes)), ("ss", pad(d.seconds))]
  }

  /** Each substitution in turn, at the first occurrence of its token. */
  function ReplaceEach(s: string, subs: seq<(string, string)>): string
    decreases |subs|
  {
    if |subs| == 0 then s else ReplaceEach(ReplaceFirst(s, subs[0].0, subs[0].1), subs[1..])
  }

  /** `s` holds no first letter of any token in `subs`. */
  predicate AvoidsTokens(s: string, subs: seq<(string, string)>) {
    forall i :: 0 <= i < |subs| ==> |subs[i].0| > 0 && Avoids(s, subs[i].0[0])
  }

  /** Substitutions whose tokens do not start in `s` leave it unchanged. */
  lemma {:induction false} ReplaceEachAbsent(s: string, subs: seq<(string, string)>)
    requires AvoidsTokens(s, subs)
    ensures ReplaceEach(s, subs) == s
    decreases |subs|
  {
    if |subs| > 0 {
      assert |subs[0].0| > 0 && Avoids(s, subs[0].0[0]);
      ReplaceAbsent(s, subs[0].0, subs[0].1);
      assert AvoidsTokens(s, subs[1..]) by {
        forall i | 0 <= i < |subs| - 1
          ensures |subs[1..][i].0| > 0 && Avoids(s, subs[1..][i].0[0])
        {
          assert subs[1..][i] == subs[i + 1];
        }
      }
      ReplaceEachAbsent(s, subs[1..]);
    }
  }

  /** `formatDate(date, format)`. */
  function FormatDate(d: DateParts, pad: int -> string, format: string): (r: string)
    ensures TokenFree(format) ==> r == format
  {
    TokenFreeUnchanged(format, Substitutions(d, pad));
    ReplaceEach(format, Substitutions(d, pad))
  }

  /** A format with none of the tokens' first letters comes back unchanged. */
  lemma TokenFreeUnchanged(format: string, subs: seq<(string, string)>)
    requires |subs| == 6
    requires subs[0].0 == "YYYY" && subs[1].0 == "MM" && subs[2].0 == "DD"
    requires subs[3].0 == "HH" && subs[4].0 == "mm" && subs[5].0 == "ss"
    ensures TokenFree(format) ==> ReplaceEach(format, subs) == format
  {
    if TokenFree(format) {
      forall i | 0 <= i < |subs|
        ensures |subs[i].0| > 0 && Avoids(format, subs[i].0[0])
      {
        assert subs[i].0[0] in "YMDHms";
      }
      ReplaceEachAbsent(format, subs);
    }
  }

  /** A number printed by `String`: digits, possibly after a minus sign. */
  lemma NumeralTokenFree(i: int)
    ensures TokenFree(IntToDecimal(i))
  {
    var r := IntToDecimal(i);
    if i < 0 {
      var n := NatToDecimal(-i);
      assert r == "-" + n;
      forall k | 0 <= k < |r|
        ensures IsDigit(r[k]) || r[k] == '-'
      {
        if k > 0 {
          assert r[k] == n[k - 1];
        }
      }
    }
  }

  lemma DigitsTokenFree(s: string)
    requires AllDigits(s)
    ensures TokenFree(s)
  {
  }

  /** The tokens of `subs` in order, each followed by its separator. */
  function Pattern(subs: seq<(string, string)>, seps: seq<string>): string
    requires |seps| == |subs|
    decreases |subs|
  {
    if |subs| == 0 then "" else subs[0].0 + seps[0] + Pattern(subs[1..], seps[1..])
  }

  /** The replacements of `subs` in order, each followed by its separator. */
  function Filled(subs: seq<(string, string)>, seps: seq<string>): string
    requires |seps| == |subs|
    decreases |subs|
  {
    if |subs| == 0 then "" else subs[0].1 + seps[0] + Filled(subs[1..], seps[1..])
  }

  /** No replacement or separator starts a later token. */
  predicate NoLaterToken(subs: seq<(string, string)>, seps: seq<string>)
    requires |seps| == |subs|
  {
    forall i, j :: 0 <= i < j < |subs| ==> |subs[j].0| > 0 && Avoids(subs[i].1, subs[j].0[0]) && Avoids(seps[i], subs[j].0[0])
  }

  lemma AvoidsAppend(a: string, b: string, c: char)
    requires Avoids(a, c) && Avoids(b, c)
    ensures Avoids(a + b, c)
  {
    assert forall k :: 0 <= k < |b| ==> (a + b)[|a| + k] == b[k];
  }

  /** The first substitution of a laid-out format replaces its leading token. */
  lemma FillFirst(done: string, subs: seq<(string, string)>, seps: seq<string>)
    requires |seps| == |subs| > 0
    requires |subs[0].0| > 0 && Avoids(done, subs[0].0[0])
    ensures ReplaceEach(done + Pattern(subs, seps), subs)
            == ReplaceEach(done + subs[0].1 + seps[0] + Pattern(subs[1..], seps[1..]), subs[1..])
  {
    var pat, val := subs[0].0, subs[0].1;
    var later := Pattern(subs[1..], seps[1..]);
    assert done + Pattern(subs, seps) == done + pat + (seps[0] + later);
    ReplaceFirstAfter(done, pat, val, seps[0] + later);
    assert done + val + (seps[0] + later) == done + val + seps[0] + later;
  }

  /** What stands before the second token still starts none of the later ones. */
  lemma FillInvariant(done: string, subs: seq<(string, string)>, seps: seq<string>)
    requires |seps| == |subs| > 0
    requires AvoidsTokens(done, subs) && NoLaterToken(subs, seps)
    ensures AvoidsTokens(done + subs[0].1 + seps[0], subs[1..]) && NoLaterToken(subs[1..], seps[1..])
  {
    var done' := done + subs[0].1 + seps[0];
    forall i | 0 <= i < |subs| - 1
      ensures |subs[1..][i].0| > 0 && Avoids(done', subs[1..][i].0[0])
    {
      var c := subs[i + 1].0[0];
      assert subs[1..][i] == subs[i + 1];
      AvoidsAppend(done, subs[0].1, c);
      AvoidsAppend(done + subs[0].1, seps[0], c);
    }
    forall i, j | 0 <= i < j < |subs| - 1
      ensures |subs[1..][j].0| > 0 && Avoids(subs[1..][i].1, subs[1..][j].0[0]) && Avoids(seps[1..][i], subs[1..][j].0[0])
    {
      assert subs[1..][i] == subs[i + 1] && subs[1..][j] == subs[j + 1] && seps[1..][i] == seps[i + 1];
    }
  }

  lemma LeadingEmpty(a: string, b: string, c: string)
    ensures "" + a + (b + c) == a + b + c
  {
  }

  lemma Regroup(a: string, b: string, c: string, d: string)
    ensures a + b + c + d == a + (b + c + d)
  {
  }

  /**
   * Tokens laid out in order, after text and between separators that start
   * no later token, are each replaced where they stand.
   */
  lemma {:induction false} FillInOrder(done: string, subs: seq<(string, string)>, seps: seq<string>)
    requires |seps| == |subs|
    requires AvoidsTokens(done, subs) && NoLaterToken(subs, seps)
    ensures ReplaceEach(done + Pattern(subs, seps), subs) == done + Filled(subs, seps)
    decreases |subs|
  {
    if |subs| == 0 {
      assert done + "" == done;
    } else {
      var done' := done + subs[0].1 + seps[0];
      FillFirst(done, subs, seps);
      FillInvariant(done, subs, seps);
      FillInOrder(done', subs[1..], seps[1..]);
      Regroup(done, subs[0].1, seps[0], Filled(subs[1..], seps[1..]));
    }
  }

  /**
   * With the default format, and a `pad` that yields digits, the result is
   * the unpadded year, then the 1-based month, day, hours, minutes and
   * seconds as padded: "MM" is the month and "mm" the minutes.
   */
  lemma DefaultLayout(d: DateParts, pad: int -> string)
    requires AllDigits(pad(d.month0 + 1)) && AllDigits(pad(d.day)) && AllDigits(pad(d.hours))
    requires AllDigits(pad(d.minutes))
    ensures FormatDate(d, pad, DefaultFormat)
            == IntToDecimal(d.year) + "-" + pad(d.month0 + 1) + "-" + pad(d.day)
               + " " + pad(d.hours) + ":" + pad(d.minutes) + ":" + pad(d.seconds)
  {
    NumeralTokenFree(d.year);
    DigitsTokenFree(pad(d.month0 + 1));
    DigitsTokenFree(pad(d.day));
    DigitsTokenFree(pad(d.hours));
    DigitsTokenFree(pad(d.minutes));
    DefaultFill(IntToDecimal(d.year), pad(d.month0 + 1), pad(d.day), pad(d.hours), pad(d.minutes), pad(d.seconds));
    SubstitutionsListed(d, pad);
    FormatDateUnfold(d, pad, DefaultFormat);
  }

  lemma SubstitutionsListed(d: DateParts, pad: int -> string)
    ensures Substitutions(d, pad)
            == [("YYYY", IntToDecimal(d.year)), ("MM", pad(d.month0 + 1)), ("DD", pad(d.day)),
                ("HH", pad(d.hours)), ("mm", pad(d.minutes)), ("ss", pad(d.seconds))]
  {
  }

  lemma FormatDateUnfold(d: DateParts, pad: int -> string, format: string)
    ensures FormatDate(d, pad, format) == ReplaceEach(format, Substitutions(d, pad))
  {
  }

  /** The default format under substitutions of its tokens by token-free values. */
  lemma DefaultFill(y: string, mo: string, dd: string, h: string, mi: string, se: string)
    requires TokenFree(y) && TokenFree(mo) && TokenFree(dd) && TokenFree(h) && TokenFree(mi)
    ensures ReplaceEach(DefaultFormat, [("YYYY", y), ("MM", mo), ("DD", dd), ("HH", h), ("mm", mi), ("ss", se)])
            == y + "-" + mo + "-" + dd + " " + h + ":" + mi + ":" + se
  {
    var subs := [("YYYY", y), ("MM", mo), ("DD", dd), ("HH", h), ("mm", mi), ("ss", se)];
    var seps := ["-", "-", " ", ":", ":", ""];
    DefaultPattern(subs, seps);
    DefaultLaidOut(subs, seps);
    FillInOrder("", subs, seps);
    LeadingEmpty("", "", DefaultFormat);
    DefaultFilled(subs, seps);
  }

  /** The default separators and token-free values start no later token. */
  lemma DefaultLaidOut(subs: seq<(string, string)>, seps: seq<string>)
    requires |subs| == 6 && seps == ["-", "-", " ", ":", ":", ""]
    requires subs[0].0 == "YYYY" && subs[1].0 == "MM" && subs[2].0 == "DD"
    requires subs[3].0 == "HH" && subs[4].0 == "mm" && subs[5].0 == "ss"
    requires forall i :: 0 <= i < 5 ==> TokenFree(subs[i].1)
    ensures AvoidsTokens("", subs) && NoLaterToken(subs, seps)
  {
    forall i, j | 0 <= i < j < 6
      ensures |subs[j].0| > 0 && Avoids(subs[i].1, subs[j].0[0]) && Avoids(seps[i], subs[j].0[0])
    {
      assert subs[j].0[0] in "YMDHms";
      assert TokenFree(subs[i].1);
      assert TokenFree(seps[i]);
    }
  }

  /** Six substitutions laid out with these separators spell the default format. */
  lemma DefaultPattern(subs: seq<(string, string)>, seps: seq<string>)
    requires |subs| == 6 && seps == ["-", "-", " ", ":", ":", ""]
    requires subs[0].0 == "YYYY" && subs[1].0 == "MM" && subs[2].0 == "DD"
    requires subs[3].0 == "HH" && subs[4].0 == "mm" && subs[5].0 == "ss"
    ensures Pattern(subs, seps) == DefaultFormat
  {
    var p5 := Pattern(subs[5..], seps[5..]);
    assert p5 == "ss" + "" + Pattern(subs[6..], seps[6..]);
    var p4 := Pattern(subs[4..], seps[4..]);
    assert p4 == "mm" + ":" + p5;
    var p3 := Pattern(subs[3..], seps[3..]);
    assert p3 == "HH" + ":" + p4;
    var p2 := Pattern(subs[2..], seps[2..]);
    assert p2 == "DD" + " " + p3;
    var p1 := Pattern(subs[1..], seps[1..]);
    assert p1 == "MM" + "-" + p2;
    assert Pattern(subs, seps) == "YYYY" + "-" + p1;
  }

  /** ... and fill in as the replacements with the same separators. */
  lemma DefaultFilled(subs: seq<(string, string)>, seps: seq<string>)
    requires |subs| == 6 && seps == ["-", "-", " ", ":", ":", ""]
    ensures Filled(subs, seps) == subs[0].1 + "-" + subs[1].1 + "-" + subs[2].1 + " " + subs[3].1
                                  + ":" + subs[4].1 + ":" + subs[5].1
  {
    var f5 := Filled(subs[5..], seps[5..]);
    assert f5 == subs[5].1 + "" + Filled(subs[6..], seps[6..]);
    var f4 := Filled(subs[4..], seps[4..]);
    assert f4 == subs[4].1 + ":" + f5;
    var f3 := Filled(subs[3..], seps[3..]);
    assert f3 == subs[3].1 + ":" + f4;
    var f2 := Filled(subs[2..], seps[2..]);
    assert f2 == subs[2].1 + " " + f3;
    var f1 := Filled(subs[1..], seps[1..]);
    assert f1 == subs[1].1 + "-" + f2;
    assert Filled(subs, seps) == subs[0].1 + "-" + f1;
  }

  /** Only the first occurrence of a token is replaced: in "YYYY" + sep + "YYYY" the second survives. */
  lemma FirstOccurrenceOnly(d: DateParts, pad: int -> string, sep: string)
    requires TokenFree(sep)
    ensures FormatDate(d, pad, "YYYY" + sep + "YYYY") == IntToDecimal(d.year) + sep + "YYYY"
  {
    var subs := Substitutions(d, pad);
    var y := IntToDecimal(d.year);
    var format := "YYYY" + sep + "YYYY";
    assert FormatDate(d, pad, format) == ReplaceEach(format, subs);
    assert ReplaceEach(format, subs) == ReplaceEach(ReplaceFirst(format, "YYYY", y), subs[1..]);
    LeadingEmpty("YYYY", sep, "YYYY");
    ReplaceFirstAfter("", "YYYY", y, sep + "YYYY");
    LeadingEmpty(y, sep, "YYYY");
    assert ReplaceFirst(format, "YYYY", y) == y + sep + "YYYY";
    NumeralTokenFree(d.year);
    LaterTokensAbsent(y, sep, subs);
    ReplaceEachAbsent(y + sep + "YYYY", subs[1..]);
  }

  /** After the year is in place, none of the later tokens starts in the text. */
  lemma LaterTokensAbsent(y: string, sep: string, subs: seq<(string, string)>)
    requires TokenFree(y) && TokenFree(sep) && |subs| == 6
    requires subs[1].0 == "MM" && subs[2].0 == "DD" && subs[3].0 == "HH" && subs[4].0 == "mm" && subs[5].0 == "ss"
    ensures AvoidsTokens(y + sep + "YYYY", subs[1..])
  {
    forall i | 0 <= i < 5
      ensures |subs[1..][i].0| > 0 && Avoids(y + sep + "YYYY", subs[1..][i].0[0])
    {
      var c := subs[i + 1].0[0];
      assert subs[1..][i] == subs[i + 1];
      assert c in "MDHms";
      AvoidsAppend(y, sep, c);
      AvoidsAppend(y + sep, "YYYY", c);
    }
  }
}
