/**
 * `findParent`: the search up the ancestor chain of a path for the first
 * directory a predicate accepts, as `getWorkerDir` uses it to locate the
 * project root holding `xyx.config.json`.
 *
 * `dirname` is a parameter. The search stops where `dirname` has a fixed
 * point (the filesystem root), so the model asks for a rank that every
 * non-fixed step of `dirname` lowers; Node's `dirname` has one.
 */
module FindParent {
  import opened Wrappers

  /** `rank` strictly decreases along every step of `dirname` that moves. */
  ghost predicate Shrinks(dirname: string -> string, rank: string -> nat) {
    forall p :: dirname(p) != p ==> rank(dirname(p)) < rank(p)
  }

  /** The ancestor chain of `p`: `p`, `dirname(p)`, … up to and including the first fixed point. */
  function Chain(dirname: string -> string, rank: string -> nat, p: string): (ch: seq<string>)
    requires Shrinks(dirname, rank)
    ensures |ch| >= 1 && ch[0] == p
    ensures dirname(ch[|ch| - 1]) == ch[|ch| - 1]
    ensures forall i :: 0 <= i < |ch| - 1 ==> dirname(ch[i]) != ch[i] && ch[i + 1] == dirname(ch[i])
    decreases rank(p)
  {
    if dirname(p) == p then [p] else [p] + Chain(dirname, rank, dirname(p))
  }

  /** The first index of `ch` that `cmp` accepts. */
  function FirstAccepted(ch: seq<string>, cmp: string -> bool): (r: Option<nat>)
    ensures r.Some? ==> r.value < |ch| && cmp(ch[r.value]) && forall j :: 0 <= j < r.value ==> !cmp(ch[j])
    ensures r.None? ==> forall j :: 0 <= j < |ch| ==> !cmp(ch[j])
  {
    if |ch| == 0 then None
    else if cmp(ch[0]) then Some(0)
    else match FirstAccepted(ch[1..], cmp)
      case None => None
      case Some(i) => Some(i + 1)
  }

  /** JavaScript's `s || fallback` for a string: the empty string is falsy. */
  function OrElse(s: string, fallback: Option<string>): Option<string> {
    if s == "" then fallback else Some(s)
  }

  /**
   * `findParent(basePath, comparison, fallback)` as written: at the fixed
   * point it returns `parentDir || fallback` without asking `comparison`
   * about it, so a non-empty root comes back even when nothing matched.
   */
  function FindParent(base: string, cmp: string -> bool, dirname: string -> string, rank: string -> nat, fallback: Option<string>): (r: Option<string>)
    requires Shrinks(dirname, rank)
    ensures cmp(base) ==> r == Some(base)
    ensures r.Some? && r != fallback ==> r.value in Chain(dirname, rank, base)
    decreases rank(base)
  {
    if cmp(base) then Some(base)
    else
      var parent := dirname(base);
      if parent == base then OrElse(parent, fallback)
      else FindParent(parent, cmp, dirname, rank, fallback)
  }

  lemma ChainStep(dirname: string -> string, rank: string -> nat, p: string)
    requires Shrinks(dirname, rank) && dirname(p) != p
    ensures Chain(dirname, rank, p) == [p] + Chain(dirname, rank, dirname(p))
  {
  }

  lemma FirstAcceptedStep(ch: seq<string>, cmp: string -> bool)
    requires |ch| > 0 && !cmp(ch[0])
    ensures FirstAccepted(ch, cmp) == match FirstAccepted(ch[1..], cmp)
                                      case None => None
                                      case Some(i) => Some(i + 1)
  {
  }

  /** What `findParent` is claimed to return on a chain: the first accepted entry, else the last one or `fallback`. */
  function OnChain(ch: seq<string>, cmp: string -> bool, fallback: Option<string>): Option<string>
    requires |ch| >= 1
  {
    match FirstAccepted(ch, cmp)
    case Some(i) => Some(ch[i])
    case None => OrElse(ch[|ch| - 1], fallback)
  }

  /** Skipping a rejected head of a chain of two or more does not change `OnChain`. */
  lemma OnChainStep(ch: seq<string>, cmp: string -> bool, fallback: Option<string>)
    requires |ch| >= 2 && !cmp(ch[0])
    ensures OnChain(ch, cmp, fallback) == OnChain(ch[1..], cmp, fallback)
  {
    FirstAcceptedStep(ch, cmp);
    assert ch[|ch| - 1] == ch[1..][|ch| - 2];
  }

  /** The result is the first accepted ancestor, or else the root (or `fallback` when the root is ""). */
  lemma {:induction false} FindParentIsFirstOnChain(base: string, cmp: string -> bool, dirname: string -> string, rank: string -> nat, fallback: Option<string>)
    requires Shrinks(dirname, rank)
    ensures FindParent(base, cmp, dirname, rank, fallback) == OnChain(Chain(dirname, rank, base), cmp, fallback)
    decreases rank(base)
  {
    var ch := Chain(dirname, rank, base);
    if cmp(base) {
      assert FirstAccepted(ch, cmp) == Some(0);
    } else if dirname(base) == base {
      assert ch == [base];
    } else {
      ChainStep(dirname, rank, base);
      assert ch[1..] == Chain(dirname, rank, dirname(base));
      OnChainStep(ch, cmp, fallback);
      FindParentIsFirstOnChain(dirname(base), cmp, dirname, rank, fallback);
    }
  }

  /** As written: with no match at all on `/a`'s chain, the root `/` is returned and `fallback` is ignored. */
  lemma RootReturnedWithoutMatch(cmp: string -> bool, dirname: string -> string, rank: string -> nat, fallback: Option<string>)
    requires Shrinks(dirname, rank)
    requires dirname("/a") == "/" && dirname("/") == "/"
    requires !cmp("/a") && !cmp("/")
    ensures FindParent("/a", cmp, dirname, rank, fallback) == Some("/")
    ensures !cmp("/")
  {
  }

  /** The search callers evidently rely on: `None` unless some ancestor is accepted. */
  function FindAccepted(base: string, cmp: string -> bool, dirname: string -> string, rank: string -> nat): (r: Option<string>)
    requires Shrinks(dirname, rank)
    ensures r.Some? ==> cmp(r.value) && r.value in Chain(dirname, rank, base)
    ensures r.None? <==> forall q <- Chain(dirname, rank, base) :: !cmp(q)
    decreases rank(base)
  {
    if cmp(base) then Some(base)
    else
      var parent := dirname(base);
      if parent == base then None
      else FindAccepted(parent, cmp, dirname, rank)
  }

  /** The corrected search returns the same directory as `findParent` whenever some ancestor matches. */
  lemma {:induction false} FindAcceptedAgrees(base: string, cmp: string -> bool, dirname: string -> string, rank: string -> nat, fallback: Option<string>)
    requires Shrinks(dirname, rank)
    requires FindAccepted(base, cmp, dirname, rank).Some?
    ensures FindParent(base, cmp, dirname, rank, fallback) == FindAccepted(base, cmp, dirname, rank)
    decreases rank(base)
  {
    if !cmp(base) {
      FindAcceptedAgrees(dirname(base), cmp, dirname, rank, fallback);
    }
  }

  /**
   * `getWorkerDir(base, name)`, on the corrected search: the first ancestor
   * holding `name`, or `None`, which the callers turn into their "Could not
   * find xyx.config.json" exit.
   */
  function WorkerDir(base: string, holds: string -> bool, dirname: string -> string, rank: string -> nat): (r: Option<string>)
    requires Shrinks(dirname, rank)
    ensures r.Some? ==> holds(r.value)
    ensures r.None? <==> forall q <- Chain(dirname, rank, base) :: !holds(q)
  {
    FindAccepted(base, holds, dirname, rank)
  }
}
