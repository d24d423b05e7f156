/**
 * `ServiceManager`: services by name, in registration order. Registering
 * constructs an instance, stores it, then runs its `onRegister` hook;
 * destroying removes it, then runs its `onDestroy` hook.
 *
 * Instances are numbered in construction order, and constructions and hook
 * calls are recorded as events; what the hooks themselves do is not
 * modelled.
 */
module ServiceManager {
  import opened Wrappers

  datatype Event =
    | Constructed(name: string, instance: nat)
    | Registered(name: string, instance: nat)     // `onRegister` ran
    | Destroyed(name: string, instance: nat)      // `onDestroy` ran

  /** The `Map` of services (in insertion order), the next instance number, and the events so far. */
  datatype Manager = Manager(services: seq<(string, nat)>, next: nat, events: seq<Event>)

  function Names(services: seq<(string, nat)>): (ns: seq<string>)
    ensures |ns| == |services| && forall i :: 0 <= i < |services| ==> ns[i] == services[i].0
  {
    seq(|services|, i requires 0 <= i < |services| => services[i].0)
  }

  predicate UniqueNames(services: seq<(string, nat)>) {
    forall i, j :: 0 <= i < j < |services| ==> services[i].0 != services[j].0
  }

  /** A `Map` holds each key once. */
  predicate Valid(m: Manager) {
    UniqueNames(m.services)
  }

  const Empty: Manager := Manager([], 0, [])

  function Find(services: seq<(string, nat)>, name: string): (r: Option<nat>)
    ensures r.None? <==> name !in Names(services)
    ensures r.Some? ==> (name, r.value) in services
  {
    if |services| == 0 then None
    else if services[0].0 == name then Some(services[0].1)
    else Find(services[1..], name)
  }

  /** `get(name)`: the stored instance, or `undefined`. */
  function Get(m: Manager, name: string): (r: Option<nat>)
    ensures r.None? <==> name !in Names(m.services)
    ensures r.Some? ==> (name, r.value) in m.services
  {
    Find(m.services, name)
  }

  /** The first half of `register` for a new name: construct and store. */
  function Store(m: Manager, name: string): (r: Manager)
    ensures r.services == m.services + [(name, m.next)] && r.next == m.next + 1
    ensures r.events == m.events + [Constructed(name, m.next)]
  {
    Manager(m.services + [(name, m.next)], m.next + 1, m.events + [Constructed(name, m.next)])
  }

  /** `register(name, serviceClass)`. */
  function Register(m: Manager, name: string): (r: Manager)
    ensures name in Names(m.services) ==> r == m
    ensures name !in Names(m.services) ==>
              r.services == m.services + [(name, m.next)] && r.next == m.next + 1
              && r.events == m.events + [Constructed(name, m.next), Registered(name, m.next)]
    ensures Valid(m) ==> Valid(r)
    ensures Get(r, name).Some?
  {
    if name in Names(m.services) then m
    else
      var s := Store(m, name);
      assert Names(s.services) == Names(m.services) + [name];
      s.(events := s.events + [Registered(name, m.next)])
  }

  /** The instance is stored before `onRegister` runs, so a `register` of the same name from the hook does nothing. */
  lemma ReentrantRegisterIsNoOp(m: Manager, name: string)
    requires name !in Names(m.services)
    ensures Register(Store(m, name), name) == Store(m, name)
  {
    assert Names(Store(m, name).services) == Names(m.services) + [name];
  }

  /** A new name gets the newly constructed instance. */
  lemma RegisterThenGet(m: Manager, name: string)
    requires Valid(m) && name !in Names(m.services)
    ensures Get(Register(m, name), name) == Some(m.next)
  {
  }

  function Without(services: seq<(string, nat)>, name: string): (r: seq<(string, nat)>)
    ensures forall p :: p in r <==> p in services && p.0 != name
  {
    if |services| == 0 then []
    else (if services[0].0 == name then [] else [services[0]]) + Without(services[1..], name)
  }

  /** Removing a name keeps the other names unique. */
  lemma {:induction false} WithoutUnique(services: seq<(string, nat)>, name: string)
    ensures UniqueNames(services) ==> UniqueNames(Without(services, name))
    decreases |services|
  {
    if |services| > 0 && UniqueNames(services) {
      var tl := services[1..];
      assert UniqueNames(tl) by {
        forall i, j | 0 <= i < j < |tl|
          ensures tl[i].0 != tl[j].0
        {
          assert tl[i] == services[i + 1] && tl[j] == services[j + 1];
        }
      }
      WithoutUnique(tl, name);
      var rest := Without(tl, name);
      if services[0].0 != name {
        var r := [services[0]] + rest;
        assert Without(services, name) == r;
        forall i, j | 0 <= i < j < |r|
          ensures r[i].0 != r[j].0
        {
          assert r[j] == rest[j - 1] && r[j] in rest && r[j] in tl;
          if i == 0 {
            var k :| 0 <= k < |tl| && tl[k] == r[j];
            assert tl[k] == services[k + 1];
          } else {
            assert r[i] == rest[i - 1];
          }
        }
      } else {
        assert Without(services, name) == rest;
      }
    }
  }

  /** `destroy(name)`: remove, then run `onDestroy`; an unknown name changes nothing. */
  function Destroy(m: Manager, name: string): (r: Manager)
    ensures Get(m, name).None? ==> r == m
    ensures Get(m, name).Some? ==>
              r.services == Without(m.services, name) && r.next == m.next
              && r.events == m.events + [Destroyed(name, Get(m, name).value)]
    ensures Get(r, name).None?
    ensures Valid(m) ==> Valid(r)
  {
    match Get(m, name)
    case None => m
    case Some(inst) =>
      var rest := Without(m.services, name);
      WithoutUnique(m.services, name);
      Manager(rest, m.next, m.events + [Destroyed(name, inst)])
  }

  /** The `onDestroy` events of destroying `services` in order. */
  function DestroyEvents(services: seq<(string, nat)>): (es: seq<Event>)
    ensures |es| == |services|
    ensures forall i :: 0 <= i < |services| ==> es[i] == Destroyed(services[i].0, services[i].1)
  {
    if |services| == 0 then [] else [Destroyed(services[0].0, services[0].1)] + DestroyEvents(services[1..])
  }

  lemma Assoc<T>(a: seq<T>, b: seq<T>, c: seq<T>)
    ensures (a + b) + c == a + (b + c)
  {
  }

  lemma DestroyEventsCons(services: seq<(string, nat)>)
    requires |services| > 0
    ensures DestroyEvents(services) == [Destroyed(services[0].0, services[0].1)] + DestroyEvents(services[1..])
  {
  }

  /** `destroyAll()`: each service in insertion order. */
  function DestroyAll(m: Manager): (r: Manager)
    requires Valid(m)
    ensures r.services == [] && r.next == m.next
    decreases |m.services|
  {
    if |m.services| == 0 then m
    else
      FirstDestroyed(m);
      DestroyAll(Destroy(m, m.services[0].0))
  }

  /** Destroying the first service removes exactly it. */
  lemma FirstDestroyed(m: Manager)
    requires Valid(m) && |m.services| > 0
    ensures Get(m, m.services[0].0) == Some(m.services[0].1)
    ensures Destroy(m, m.services[0].0) == Manager(m.services[1..], m.next, m.events + [Destroyed(m.services[0].0, m.services[0].1)])
    ensures Valid(Destroy(m, m.services[0].0))
  {
    var name := m.services[0].0;
    var rest := m.services[1..];
    assert forall i :: 0 <= i < |rest| ==> rest[i].0 != name by {
      forall i | 0 <= i < |rest|
        ensures rest[i].0 != name
      {
        assert rest[i] == m.services[i + 1];
      }
    }
    assert m.services == [m.services[0]] + rest;
    assert Without(m.services, name) == Without(rest, name);
    KeepAll(rest, name);
  }

  lemma {:induction false} KeepAll(services: seq<(string, nat)>, name: string)
    requires forall i :: 0 <= i < |services| ==> services[i].0 != name
    ensures Without(services, name) == services
  {
    if |services| > 0 {
      KeepAll(services[1..], name);
      assert services == [services[0]] + services[1..];
    }
  }

  /** `destroyAll` runs every `onDestroy` exactly once, in insertion order, and empties the map. */
  lemma {:induction false} DestroyAllInOrder(m: Manager)
    requires Valid(m)
    ensures DestroyAll(m).events == m.events + DestroyEvents(m.services)
    decreases |m.services|
  {
    if |m.services| > 0 {
      FirstDestroyed(m);
      var x := Destroyed(m.services[0].0, m.services[0].1);
      var d := Destroy(m, m.services[0].0);
      assert d.services == m.services[1..] && d.events == m.events + [x];
      assert DestroyAll(m) == DestroyAll(d);
      DestroyAllInOrder(d);
      var later := DestroyEvents(d.services);
      DestroyEventsCons(m.services);
      Assoc(m.events, [x], later);
    }
  }
}
