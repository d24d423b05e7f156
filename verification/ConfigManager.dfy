/**
 * `ConfigManager`: an in-memory configuration object with dotted-path
 * `get`/`set`, a cache of looked-up values, and prefix invalidation.
 *
 * JavaScript caches objects by reference, and `set` mutates objects in
 * place, so a cached ancestor of the written path sees the write. With
 * values instead of references, `Set` re-reads the cached strict ancestors
 * of the path from the new data, which is what the shared reference shows.
 */
module ConfigManager {
  import opened Wrappers
  import opened Strings
  import opened Json

  /** The dotted path split into property keys. */
  function Segs(path: string): (ks: seq<string>)
    ensures |ks| >= 1
  {
    Split(path, '.')
  }

  predicate IsPrefix(a: seq<string>, b: seq<string>) {
    |a| <= |b| && b[..|a|] == a
  }

  /** Neither key sequence extends the other: the two paths lead to different places. */
  predicate Unrelated(a: seq<string>, b: seq<string>) {
    !IsPrefix(a, b) && !IsPrefix(b, a)
  }

  lemma {:induction false} JoinAppend(a: seq<string>, b: seq<string>, sep: string)
    requires |a| > 0 && |b| > 0
    ensures Join(a + b, sep) == Join(a, sep) + sep + Join(b, sep)
    decreases |a|
  {
    assert (a + b)[0] == a[0];
    if |a| == 1 {
      assert (a + b)[1..] == b;
    } else {
      assert (a + b)[1..] == a[1..] + b;
      JoinAppend(a[1..], b, sep);
    }
  }

  /** Key sequences and paths agree on prefixes: one path's keys begin the other's exactly when its text followed by "." begins the other's text. */
  lemma SegsPrefix(q: string, p: string)
    ensures IsPrefix(Segs(q), Segs(p)) ==> q == p || StartsWith(p, q + ".")
    ensures StartsWith(p, q + ".") ==> Segs(p) == Segs(q) + Segs(p[|q| + 1..])
  {
    var qs, ps := Segs(q), Segs(p);
    if IsPrefix(qs, ps) {
      JoinSplit(q, '.');
      JoinSplit(p, '.');
      if |qs| < |ps| {
        var rest := ps[|qs|..];
        assert ps == qs + rest;
        JoinAppend(qs, rest, ".");
        assert p == q + "." + Join(rest, ".");
      } else {
        assert ps == qs;
      }
    }
    if StartsWith(p, q + ".") {
      var rest := p[|q| + 1..];
      assert p == q + ['.'] + rest;
      SplitAround(q, '.', rest);
    }
  }

  datatype SetError =
    | TypeError      // `in` or a property write on undefined, null or a primitive
    | ArrayWrite     // the path runs through an array: not modelled

  /** One step of the walk from `v` by `key` is possible: `v` is not an object reached on the path, or the key is missing (and created), or it holds an object. */
  predicate StepOk(v: Json, key: string) {
    v.Obj? ==> key !in v.fields || v.fields[key].Obj?
  }

  /**
   * When `set` gets through: it starts from an object, and each key but the
   * last, looked up from where the path has led so far, is missing or holds an
   * object. Past a missing key the lookups are `undefined` and say nothing.
   */
  predicate SetWalkable(cur: Json, keys: seq<string>) {
    cur.Obj? && forall i :: 0 <= i < |keys| - 1 ==> StepOk(Lookup(cur, keys[..i]), keys[i])
  }

  /** From a fresh `{}` every path can be walked. */
  lemma EmptyWalkable(keys: seq<string>)
    ensures SetWalkable(EmptyObject, keys)
  {
    forall i | 0 <= i < |keys| - 1
      ensures StepOk(Lookup(EmptyObject, keys[..i]), keys[i])
    {
      if i > 0 {
        assert Lookup(EmptyObject, keys[..i]) == Lookup(Undefined, keys[..i][1..]);
        LookupUndefined(keys[..i][1..]);
      }
    }
  }

  /** The condition for a path of two or more keys is the condition for its tail, from the child the first key leads to. */
  lemma WalkableStep(m: map<string, Json>, keys: seq<string>)
    requires |keys| > 1
    ensures var child := if keys[0] in m then m[keys[0]] else EmptyObject;
            SetWalkable(Obj(m), keys) <==> SetWalkable(child, keys[1..])
  {
    var child := if keys[0] in m then m[keys[0]] else EmptyObject;
    var tl := keys[1..];
    if keys[0] !in m {
      EmptyWalkable(tl);
      forall i | 0 < i < |keys| - 1
        ensures StepOk(Lookup(Obj(m), keys[..i]), keys[i])
      {
        assert Lookup(Obj(m), keys[..i]) == Lookup(Undefined, keys[..i][1..]);
        LookupUndefined(keys[..i][1..]);
      }
      assert StepOk(Lookup(Obj(m), keys[..0]), keys[0]);
    } else if child.Obj? {
      forall i | 0 < i < |keys| - 1
        ensures Lookup(Obj(m), keys[..i]) == Lookup(child, tl[..i - 1]) && keys[i] == tl[i - 1]
      {
        assert keys[..i][1..] == tl[..i - 1];
      }
      assert StepOk(Lookup(Obj(m), keys[..0]), keys[0]);
      if SetWalkable(child, tl) {
        forall i | 0 <= i < |keys| - 1
          ensures StepOk(Lookup(Obj(m), keys[..i]), keys[i])
        {
          if i > 0 {
            assert StepOk(Lookup(child, tl[..i - 1]), tl[i - 1]);
          }
        }
      }
      if SetWalkable(Obj(m), keys) {
        forall i | 0 <= i < |tl| - 1
          ensures StepOk(Lookup(child, tl[..i]), tl[i])
        {
          assert StepOk(Lookup(Obj(m), keys[..i + 1]), keys[i + 1]);
        }
      }
    } else {
      assert !StepOk(Lookup(Obj(m), keys[..0]), keys[0]);
    }
  }

  /**
   * The walk of `set`: each key but the last is created as `{}` when
   * missing and descended into; the last key is assigned.
   */
  function SetIn(cur: Json, keys: seq<string>, value: Json): (r: Result<Json, SetError>)
    requires |keys| >= 1
    ensures r.Ok? <==> SetWalkable(cur, keys)
    ensures r.Ok? ==> cur.Obj? && r.value.Obj?
    ensures cur.Arr? ==> r == Err(ArrayWrite)
    ensures !cur.Obj? && !cur.Arr? ==> r == Err(TypeError)
    decreases |keys|
  {
    match cur
    case Obj(m) =>
      if |keys| == 1 then Ok(Obj(m[keys[0] := value]))
      else
        var child := if keys[0] in m then m[keys[0]] else EmptyObject;
        WalkableStep(m, keys);
        var c :- SetIn(child, keys[1..], value);
        Ok(Obj(m[keys[0] := c]))
    case Arr(_) => Err(ArrayWrite)
    case _ => Err(TypeError)
  }

  /** After the walk the path leads to the value. */
  lemma {:induction false} SetInLookup(cur: Json, keys: seq<string>, value: Json)
    requires |keys| >= 1 && SetIn(cur, keys, value).Ok?
    ensures Lookup(SetIn(cur, keys, value).value, keys) == value
    decreases |keys|
  {
    var m := cur.fields;
    var r := SetIn(cur, keys, value).value;
    if |keys| == 1 {
      assert Lookup(r, keys) == Lookup(Prop(r, keys[0]), []);
    } else {
      var child := if keys[0] in m then m[keys[0]] else EmptyObject;
      SetInLookup(child, keys[1..], value);
      assert Prop(r, keys[0]) == SetIn(child, keys[1..], value).value;
    }
  }

  /** After the walk every proper prefix of the path leads to an object: missing ones were created. */
  lemma {:induction false} SetInPath(cur: Json, keys: seq<string>, value: Json)
    requires |keys| >= 1 && SetIn(cur, keys, value).Ok?
    ensures forall i :: 0 <= i < |keys| ==> Lookup(SetIn(cur, keys, value).value, keys[..i]).Obj?
    decreases |keys|
  {
    var m := cur.fields;
    var r := SetIn(cur, keys, value).value;
    forall i | 0 <= i < |keys|
      ensures Lookup(r, keys[..i]).Obj?
    {
      if i > 0 {
        var child := if keys[0] in m then m[keys[0]] else EmptyObject;
        var c := SetIn(child, keys[1..], value).value;
        SetInPath(child, keys[1..], value);
        assert keys[..i][0] == keys[0] && keys[..i][1..] == keys[1..][..i - 1];
        assert Lookup(r, keys[..i]) == Lookup(c, keys[1..][..i - 1]);
      }
    }
  }

  /** The walk changes nothing reached by a path unrelated to the written one. */
  lemma {:induction false} SetInOthers(cur: Json, keys: seq<string>, value: Json, qs: seq<string>)
    requires |keys| >= 1 && SetIn(cur, keys, value).Ok?
    requires Unrelated(qs, keys)
    ensures Lookup(SetIn(cur, keys, value).value, qs) == Lookup(cur, qs)
    decreases |keys|
  {
    var m := cur.fields;
    var r := SetIn(cur, keys, value).value;
    assert |qs| > 0;
    if qs[0] != keys[0] {
      assert Prop(r, qs[0]) == Prop(cur, qs[0]);
    } else {
      var child := if keys[0] in m then m[keys[0]] else EmptyObject;
      var c := SetIn(child, keys[1..], value).value;
      SetInOthers(child, keys[1..], value, qs[1..]);
      assert Prop(r, qs[0]) == c;
      if keys[0] !in m {
        LookupUndefined(qs[2..]);
        assert Lookup(cur, qs) == Lookup(Undefined, qs[1..]);
        LookupUndefined(qs[1..]);
      }
    }
  }

  /** The manager's state: the configuration object and the cache of `get` results. */
  datatype Manager = Manager(data: map<string, Json>, cache: map<string, Json>)

  /** `getDefaultConfig()`. */
  const Defaults: map<string, Json> := map["cloud" := EmptyObject]

  /** What `get(path)` finds in the data, bypassing the cache. */
  function Live(data: map<string, Json>, path: string): Json {
    Lookup(Obj(data), Segs(path))
  }

  /** Every cached value is defined and is what the data holds at that path. */
  ghost predicate Coherent(m: Manager) {
    forall q :: q in m.cache ==> m.cache[q] != Undefined && m.cache[q] == Live(m.data, q)
  }

  /** `new ConfigManager(initial)`: the defaults merged with the initial configuration, an empty cache. */
  function Create(initial: Json): (r: Manager)
    requires initial.Obj?
    ensures r.cache == map[]
    ensures r.data.Keys == {"cloud"} + initial.fields.Keys
    ensures "cloud" !in initial.fields ==> r.data["cloud"] == EmptyObject
    ensures forall k :: k in initial.fields && !initial.fields[k].Obj? ==> r.data[k] == initial.fields[k]
    ensures Coherent(r)
  {
    Manager(DeepMerge(Obj(Defaults), initial), map[])
  }

  /** `reset(config)`: the state of a fresh manager built from `config`. */
  function Reset(m: Manager, config: Json): (r: Manager)
    requires config.Obj?
    ensures r.cache == map[] && Coherent(r)
    ensures r.data.Keys == {"cloud"} + config.fields.Keys
  {
    Create(config)
  }

  /** An initial configuration with nested objects is copied in full next to the defaults. */
  lemma CreateCopiesCloud(initial: Json)
    requires initial.Obj? && "cloud" in initial.fields && initial.fields["cloud"].Obj?
    ensures Create(initial).data["cloud"] == initial.fields["cloud"]
  {
    MergeIntoEmpty(initial.fields["cloud"]);
  }

  datatype GetResult = GetResult(value: Json, next: Manager)

  /** `get(path)`: the cached value, else the lookup, which is cached when defined. */
  function Get(m: Manager, path: string): (r: GetResult)
    ensures path in m.cache ==> r.value == m.cache[path] && r.next == m
    ensures path !in m.cache ==> r.value == Live(m.data, path)
    ensures r.next.data == m.data
    ensures r.next.cache.Keys == m.cache.Keys + (if r.value != Undefined then {path} else {})
    ensures Coherent(m) ==> r.value == Live(m.data, path) && Coherent(r.next)
  {
    if path in m.cache then GetResult(m.cache[path], m)
    else
      var v := Live(m.data, path);
      if v != Undefined then GetResult(v, m.(cache := m.cache[path := v])) else GetResult(v, m)
  }

  /** `clearCache(path)` removes `path` and the paths below it. */
  predicate Evicted(q: string, path: string) {
    q == path || StartsWith(q, path + ".")
  }

  /** `set(path, value)`: the walk, then eviction of the path and everything below it. */
  function Set(m: Manager, path: string, value: Json): (r: Result<Manager, SetError>)
    ensures r.Ok? <==> SetWalkable(Obj(m.data), Segs(path))
    ensures r.Ok? ==> Live(r.value.data, path) == value
    ensures r.Ok? ==> forall i :: 0 <= i < |Segs(path)| ==> Lookup(Obj(r.value.data), Segs(path)[..i]).Obj?
    ensures r.Ok? ==> forall q :: !Evicted(q, path) && !StartsWith(path, q + ".") ==> Live(r.value.data, q) == Live(m.data, q)
    ensures r.Ok? ==> r.value.cache.Keys == set q | q in m.cache && !Evicted(q, path)
    ensures r.Ok? ==> forall q :: q in r.value.cache && !StartsWith(path, q + ".") ==> r.value.cache[q] == m.cache[q]
    ensures r.Ok? && Coherent(m) ==> Coherent(r.value)
  {
    var keys := Segs(path);
    var root :- SetIn(Obj(m.data), keys, value);
    var data := root.fields;
    SetInLookup(Obj(m.data), keys, value);
    SetInPath(Obj(m.data), keys, value);
    SetFacts(m, path, value, data);
    var cache := map q | q in m.cache && !Evicted(q, path) ::
                   if StartsWith(path, q + ".") then Live(data, q) else m.cache[q];
    var r := Manager(data, cache);
    CoherentAfterSet(m, path, value, r);
    Ok(r)
  }

  lemma SetFacts(m: Manager, path: string, value: Json, data: map<string, Json>)
    requires SetIn(Obj(m.data), Segs(path), value) == Ok(Obj(data))
    ensures forall q :: !Evicted(q, path) && !StartsWith(path, q + ".") ==> Live(data, q) == Live(m.data, q)
  {
    forall q | !Evicted(q, path) && !StartsWith(path, q + ".")
      ensures Live(data, q) == Live(m.data, q)
    {
      SegsPrefix(q, path);
      SegsPrefix(path, q);
      SetInOthers(Obj(m.data), Segs(path), value, Segs(q));
    }
  }

  lemma CoherentAfterSet(m: Manager, path: string, value: Json, r: Manager)
    requires SetIn(Obj(m.data), Segs(path), value) == Ok(Obj(r.data))
    requires forall i :: 0 <= i < |Segs(path)| ==> Lookup(Obj(r.data), Segs(path)[..i]).Obj?
    requires forall q :: !Evicted(q, path) && !StartsWith(path, q + ".") ==> Live(r.data, q) == Live(m.data, q)
    requires r.cache == map q | q in m.cache && !Evicted(q, path) ::
                          if StartsWith(path, q + ".") then Live(r.data, q) else m.cache[q]
    ensures Coherent(m) ==> Coherent(r)
  {
    if Coherent(m) {
      forall q | q in r.cache
        ensures r.cache[q] != Undefined && r.cache[q] == Live(r.data, q)
      {
        if StartsWith(path, q + ".") {
          SegsPrefix(q, path);
          var n := |Segs(q)|;
          assert Segs(path)[..n] == Segs(q);
        }
      }
    }
  }

  /** `has(path)`: whether `path` is cached. */
  function Has(m: Manager, path: string): (b: bool)
    ensures b <==> path in m.cache
  {
    path in m.cache
  }

  /** `has` reports the cache, not the data: a fresh manager has "cloud" but does not report it. */
  lemma HasIgnoresData()
    ensures Live(Create(EmptyObject).data, "cloud") == EmptyObject
    ensures !Has(Create(EmptyObject), "cloud")
  {
    var d := Create(EmptyObject).data;
    assert "cloud" !in EmptyObject.fields;
    assert Segs("cloud") == ["cloud"];
    assert Live(d, "cloud") == Lookup(Prop(Obj(d), "cloud"), []);
  }

  /** A `get` that finds a value makes `has` true. */
  lemma GetThenHas(m: Manager, path: string)
    requires Live(m.data, path) != Undefined
    ensures Has(Get(m, path).next, path)
  {
  }

  /** On a freshly created or reset manager every `set` succeeds, whatever the path. */
  lemma SetOnFreshSucceeds(path: string, value: Json)
    ensures Set(Create(EmptyObject), path, value).Ok?
  {
    var d := Create(EmptyObject).data;
    var keys := Segs(path);
    assert d == map["cloud" := EmptyObject];
    forall i | 0 <= i < |keys| - 1
      ensures StepOk(Lookup(Obj(d), keys[..i]), keys[i])
    {
      if i > 0 {
        var v := Prop(Obj(d), keys[0]);
        assert Lookup(Obj(d), keys[..i]) == Lookup(v, keys[..i][1..]);
        if keys[0] == "cloud" {
          if i > 1 {
            assert Lookup(v, keys[..i][1..]) == Lookup(Undefined, keys[..i][2..]);
            LookupUndefined(keys[..i][2..]);
          }
        } else {
          LookupUndefined(keys[..i][1..]);
        }
      }
    }
  }

  /** Writing a path and reading it back gives the value written, whatever was cached. */
  lemma SetThenGet(m: Manager, path: string, value: Json)
    requires Set(m, path, value).Ok?
    ensures Get(Set(m, path, value).value, path).value == value
  {
  }

  /** `getAll()`: a shallow copy, with the same top-level keys and values. */
  function GetAll(m: Manager): (r: map<string, Json>)
    ensures r.Keys == m.data.Keys
    ensures forall k :: k in r && '.' !in k ==> r[k] == Live(m.data, k)
  {
    forall k | k in m.data && '.' !in k
      ensures m.data[k] == Live(m.data, k)
    {
      assert Segs(k) == [k];
      assert Live(m.data, k) == Lookup(Prop(Obj(m.data), k), []);
    }
    m.data
  }
}
