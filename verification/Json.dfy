/**
 * JavaScript values as the configuration store sees them: the JSON kinds
 * plus `undefined`, property lookup with optional chaining, truthiness,
 * object spread, and `ConfigManager.deepMerge`.
 *
 * Objects are maps (their key order is not modelled), numbers are integers,
 * and inherited prototype properties do not exist.
 */
module Json {
  import opened Wrappers
  import opened Strings

  datatype Json =
    | Undefined
    | Null
    | Bool(b: bool)
    | Num(n: int)
    | Str(s: string)
    | Arr(items: seq<Json>)
    | Obj(fields: map<string, Json>)

  const EmptyObject: Json := Obj(map[])

  /** JavaScript truthiness (`NaN` and `-0` do not exist here). */
  predicate Truthy(v: Json) {
    match v
    case Undefined => false
    case Null => false
    case Bool(b) => b
    case Num(n) => n != 0
    case Str(s) => s != ""
    case _ => true
  }

  /** `v || {}`. */
  function OrEmpty(v: Json): (r: Json)
    ensures Truthy(v) ==> r == v
    ensures !Truthy(v) ==> r == EmptyObject
  {
    if Truthy(v) then v else EmptyObject
  }

  /** `v?.[key]`: an own property, an array or string index, or `length`. */
  function Prop(v: Json, key: string): Json {
    match v
    case Obj(m) => if key in m then m[key] else Undefined
    case Arr(items) =>
      if key == "length" then Num(|items|)
      else (match ParseIndex(key)
        case Some(i) => if i < |items| then items[i] else Undefined
        case None => Undefined)
    case Str(s) =>
      if key == "length" then Num(|s|)
      else (match ParseIndex(key)
        case Some(i) => if i < |s| then Str([s[i]]) else Undefined
        case None => Undefined)
    case _ => Undefined
  }

  /** `keys.reduce((obj, key) => obj?.[key], v)`. */
  function Lookup(v: Json, keys: seq<string>): Json
    decreases |keys|
  {
    if |keys| == 0 then v else Lookup(Prop(v, keys[0]), keys[1..])
  }

  /** Once a lookup reaches `undefined` it stays there. */
  lemma {:induction false} LookupUndefined(keys: seq<string>)
    ensures Lookup(Undefined, keys) == Undefined
    decreases |keys|
  {
    if |keys| > 0 {
      LookupUndefined(keys[1..]);
    }
  }

  /** A lookup of a path is the lookup of its last part from the lookup of the rest. */
  lemma {:induction false} LookupAppend(v: Json, a: seq<string>, b: seq<string>)
    ensures Lookup(v, a + b) == Lookup(Lookup(v, a), b)
    decreases |a|
  {
    if |a| > 0 {
      assert (a + b)[0] == a[0] && (a + b)[1..] == a[1..] + b;
      assert Lookup(v, a + b) == Lookup(Prop(v, a[0]), a[1..] + b);
      assert Lookup(v, a) == Lookup(Prop(v, a[0]), a[1..]);
      LookupAppend(Prop(v, a[0]), a[1..], b);
    } else {
      assert a + b == b;
    }
  }

  /** The property keys of the indices below `n`. */
  function IndexKeys(n: nat): set<string> {
    set i | 0 <= i < n :: NatToDecimal(i)
  }

  lemma IndexKeysParse(n: nat)
    ensures forall k <- IndexKeys(n) :: ParseIndex(k).Some? && ParseIndex(k).value < n
  {
    forall i | 0 <= i < n
      ensures ParseIndex(NatToDecimal(i)) == Some(i)
    {
      IndexRoundTrip(i);
    }
  }

  /** The own enumerable properties of an array or string: one per index. */
  function IndexMap<T>(items: seq<T>): map<string, T> {
    IndexKeysParse(|items|);
    map k | k in IndexKeys(|items|) :: items[ParseIndex(k).value]
  }

  /** `{...v}`: an object's own fields, the indices of an array or string, nothing for the rest. */
  function Spread(v: Json): (r: map<string, Json>)
    ensures v.Obj? ==> r == v.fields
    ensures !v.Obj? && !v.Arr? && !v.Str? ==> r == map[]
  {
    match v
    case Obj(m) => m
    case Arr(items) => IndexMap(items)
    case Str(s) => IndexMap(seq(|s|, i requires 0 <= i < |s| => Str([s[i]])))
    case _ => map[]
  }

  /**
   * `deepMerge(target, source)`: a copy of `target` in which every key of
   * `source` holding a (non-null, non-array) object is merged recursively
   * into `target[key] || {}`, and every other key of `source` overwrites.
   */
  function DeepMerge(target: Json, source: Json): (r: map<string, Json>)
    requires source.Obj?
    ensures r.Keys == Spread(target).Keys + source.fields.Keys
    ensures forall k :: k in source.fields && !source.fields[k].Obj? ==> r[k] == source.fields[k]
    ensures forall k :: k in source.fields && source.fields[k].Obj? ==> r[k].Obj?
    ensures forall k :: k in Spread(target) && k !in source.fields ==> r[k] == Spread(target)[k]
    decreases source
  {
    var base := Spread(target);
    map k | k in base.Keys + source.fields.Keys ::
      if k in source.fields then
        (var s := source.fields[k];
         if s.Obj? then Obj(DeepMerge(OrEmpty(Prop(target, k)), s)) else s)
      else base[k]
  }

  /** Merging an object into `{}` copies it. */
  lemma {:induction false} MergeIntoEmpty(source: Json)
    requires source.Obj?
    ensures DeepMerge(EmptyObject, source) == source.fields
    decreases source
  {
    var r := DeepMerge(EmptyObject, source);
    forall k | k in source.fields
      ensures r[k] == source.fields[k]
    {
      var s := source.fields[k];
      if s.Obj? {
        assert Prop(EmptyObject, k) == Undefined;
        MergeIntoEmpty(s);
      }
    }
  }

  /** Merging an empty object copies the target's own keys. */
  lemma MergeNothing(target: Json)
    ensures DeepMerge(target, EmptyObject) == Spread(target)
  {
  }

  /** Merging the same source a second time changes nothing. */
  lemma {:induction false} MergeIdempotent(target: Json, source: Json)
    requires source.Obj?
    ensures DeepMerge(Obj(DeepMerge(target, source)), source) == DeepMerge(target, source)
    decreases source, 1
  {
    var once := DeepMerge(target, source);
    var twice := DeepMerge(Obj(once), source);
    assert Spread(Obj(once)) == once;
    assert twice.Keys == once.Keys;
    forall k | k in once
      ensures twice[k] == once[k]
    {
      if k in source.fields {
        MergeIdempotentKey(target, source, k);
      }
    }
    MapsEqual(twice, once);
  }

  /** Maps with the same keys and the same value at each key are equal. */
  lemma MapsEqual<K, V>(a: map<K, V>, b: map<K, V>)
    requires a.Keys == b.Keys && forall k :: k in a ==> a[k] == b[k]
    ensures a == b
  {
  }

  /** One key of the source, merged a second time, keeps the value the first merge gave it. */
  lemma {:induction false} MergeIdempotentKey(target: Json, source: Json, k: string)
    requires source.Obj? && k in source.fields
    ensures k in DeepMerge(target, source)
    ensures DeepMerge(Obj(DeepMerge(target, source)), source)[k] == DeepMerge(target, source)[k]
    decreases source, 0
  {
    var once := DeepMerge(target, source);
    var s := source.fields[k];
    if s.Obj? {
      var inner := OrEmpty(Prop(target, k));
      MergeAt(target, source, k);
      MergeAt(Obj(once), source, k);
      PropOfObject(once, k);
      MergeIdempotent(inner, s);
    }
  }

  /** An object's own property, when it holds an object, is kept by `|| {}`. */
  lemma PropOfObject(m: map<string, Json>, k: string)
    requires k in m && m[k].Obj?
    ensures OrEmpty(Prop(Obj(m), k)) == m[k]
  {
  }

  /** The value a merge gives a key whose source value is an object. */
  lemma MergeAt(target: Json, source: Json, k: string)
    requires source.Obj? && k in source.fields && source.fields[k].Obj?
    ensures DeepMerge(target, source)[k] == Obj(DeepMerge(OrEmpty(Prop(target, k)), source.fields[k]))
  {
  }
}
