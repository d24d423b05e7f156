/**
 * `ConfigService`: the persisted configuration of the CLI. Mutations change
 * the in-memory data and (re)arm a debounce timer; when the timer fires, or
 * on `flush`, the data is written to disk.
 *
 * Time is reduced to an `Elapse` event (the debounce delay passing); the
 * disk is the last value written. `readJSON` is modelled by the error it
 * throws: every failure is wrapped in a plain `Error` whose `cause` is the
 * original one.
 */
module ConfigService {
  import opened Wrappers
  import opened Json

  /** `CONFIG.DEBOUNCE_DELAY`, in milliseconds. */
  const DebounceDelay: nat := 100

  /** The service's fields, plus what the model observes of the outside. */
  datatype Service = Service(
    data: map<string, Json>,
    saveTimeout: bool,                 // the `saveTimeout` field is non-null
    armed: bool,                       // a timer is scheduled and not cleared
    disk: Option<map<string, Json>>,   // the last value written, if any
    writes: nat,                       // how many times `save` ran
    exitHook: bool)                    // `flush` is registered for process exit

  /** `flush` clears the timer but leaves the field set, so a set field need not mean a live timer; the converse holds. */
  predicate Valid(s: Service) {
    s.armed ==> s.saveTimeout
  }

  /** `getDefaultConfig()`. */
  const Defaults: map<string, Json> := map["cloud" := EmptyObject]

  /** `save()`. */
  function Save(s: Service): (r: Service)
    ensures r.disk == Some(s.data) && r.writes == s.writes + 1
    ensures r.data == s.data && r.armed == s.armed && r.saveTimeout == s.saveTimeout
  {
    s.(disk := Some(s.data), writes := s.writes + 1)
  }

  /** `requestSave()`: any pending timer is cleared and a new one armed. */
  function RequestSave(s: Service): (r: Service)
    ensures r.armed && r.saveTimeout && Valid(r)
    ensures r.data == s.data && r.disk == s.disk && r.writes == s.writes
  {
    s.(saveTimeout := true, armed := true)
  }

  /** The debounce delay passes: an armed timer saves and clears the field; otherwise nothing happens. */
  function Elapse(s: Service): (r: Service)
    requires Valid(s)
    ensures Valid(r) && !r.armed
    ensures s.armed ==> r.disk == Some(s.data) && r.writes == s.writes + 1 && !r.saveTimeout
    ensures !s.armed ==> r == s
  {
    if s.armed then Save(s).(saveTimeout := false, armed := false) else s
  }

  /** `flush()`: the timer is cleared (the field is not reset) and the data written. */
  function Flush(s: Service): (r: Service)
    requires Valid(s)
    ensures Valid(r) && !r.armed
    ensures r.disk == Some(s.data) && r.writes == s.writes + 1 && r.data == s.data
    ensures r.saveTimeout == s.saveTimeout
  {
    Save(s.(armed := false))
  }

  /** `onDestroy()`. */
  function OnDestroy(s: Service): (r: Service)
    requires Valid(s)
    ensures r.disk == Some(s.data) && !r.armed
  {
    Flush(s)
  }

  /** The process `exit` event: the registered hook flushes. */
  function Exit(s: Service): (r: Service)
    requires Valid(s)
    ensures s.exitHook ==> r.disk == Some(s.data) && !r.armed
    ensures !s.exitHook ==> r == s
  {
    if s.exitHook then Flush(s) else s
  }

  /** `get(key)`: the value, `undefined` when absent. */
  function Get(s: Service, key: string): (v: Json)
    ensures key !in s.data ==> v == Undefined
    ensures key in s.data ==> v == s.data[key]
  {
    if key in s.data then s.data[key] else Undefined
  }

  /** `set(key, value)`. */
  function Set(s: Service, key: string, value: Json): (r: Service)
    ensures Get(r, key) == value
    ensures forall k :: k != key ==> Get(r, k) == Get(s, k)
    ensures r.armed && Valid(r) && r.disk == s.disk && r.writes == s.writes
  {
    RequestSave(s.(data := s.data[key := value]))
  }

  /** `delete(key)`. */
  function Delete(s: Service, key: string): (r: Service)
    ensures !Has(r, key)
    ensures forall k :: k != key ==> Get(r, k) == Get(s, k) && (Has(r, k) <==> Has(s, k))
    ensures r.armed && Valid(r) && r.disk == s.disk && r.writes == s.writes
  {
    RequestSave(s.(data := s.data - {key}))
  }

  /** `has(key)`: `key in this.data`. */
  function Has(s: Service, key: string): (b: bool)
    ensures b <==> key in s.data
  {
    key in s.data
  }

  /** What the service can be told to do. */
  datatype Event = SetKey(key: string, value: Json) | DeleteKey(key: string) | Tick | FlushNow

  predicate IsMutation(e: Event) {
    e.SetKey? || e.DeleteKey?
  }

  function Step(s: Service, e: Event): (r: Service)
    requires Valid(s)
    ensures Valid(r)
  {
    match e
    case SetKey(k, v) => Set(s, k, v)
    case DeleteKey(k) => Delete(s, k)
    case Tick => Elapse(s)
    case FlushNow => Flush(s)
  }

  function Run(s: Service, es: seq<Event>): (r: Service)
    requires Valid(s)
    ensures Valid(r)
    decreases |es|
  {
    if |es| == 0 then s else Run(Step(s, es[0]), es[1..])
  }

  lemma {:induction false} RunAppend(s: Service, a: seq<Event>, b: seq<Event>)
    requires Valid(s)
    ensures Run(s, a + b) == Run(Run(s, a), b)
    decreases |a|
  {
    if |a| == 0 {
      assert a + b == b;
    } else {
      assert (a + b)[0] == a[0] && (a + b)[1..] == a[1..] + b;
      RunAppend(Step(s, a[0]), a[1..], b);
    }
  }

  /** A burst of mutations writes nothing and leaves the timer armed. */
  lemma {:induction false} BurstWritesNothing(s: Service, es: seq<Event>)
    requires Valid(s) && |es| > 0
    requires forall i :: 0 <= i < |es| ==> IsMutation(es[i])
    ensures Run(s, es).armed
    ensures Run(s, es).writes == s.writes && Run(s, es).disk == s.disk
    decreases |es|
  {
    if |es| > 1 {
      BurstWritesNothing(Step(s, es[0]), es[1..]);
    }
  }

  /** A burst of mutations followed by the delay produces exactly one write, of the final data. */
  lemma BurstThenOneWrite(s: Service, es: seq<Event>)
    requires Valid(s) && |es| > 0
    requires forall i :: 0 <= i < |es| ==> IsMutation(es[i])
    ensures var r := Run(s, es + [Tick]);
            r.writes == s.writes + 1 && r.disk == Some(Run(s, es).data) && !r.armed && !r.saveTimeout
  {
    BurstWritesNothing(s, es);
    RunAppend(s, es, [Tick]);
  }

  /** After `flush` the timer no longer writes. */
  lemma FlushCancelsTimer(s: Service)
    requires Valid(s)
    ensures var r := Run(s, [FlushNow, Tick]);
            r.writes == s.writes + 1 && r.disk == Some(s.data)
  {
  }

  /** How `readFileSync` + `JSON.parse` can fail. */
  datatype ReadFailure = FileMissing | Unparsable | OtherFailure(message: string)

  /** A thrown error: its `code`, whether it is a `SyntaxError`, and its `cause`. */
  datatype JsError = JsError(code: Option<string>, isSyntaxError: bool, cause: Option<ReadFailure>)

  /** The error `readFileSync` or `JSON.parse` throws. */
  function Raw(f: ReadFailure): (e: JsError)
    ensures e.code == Some("ENOENT") <==> f == FileMissing
    ensures e.isSyntaxError <==> f == Unparsable
  {
    match f
    case FileMissing => JsError(Some("ENOENT"), false, None)
    case Unparsable => JsError(None, true, None)
    case OtherFailure(_) => JsError(None, false, None)
  }

  /** `readJSON`: every failure is rethrown as a plain `Error` with the original as `cause`. */
  function ReadJson(file: Result<map<string, Json>, ReadFailure>): (r: Result<map<string, Json>, JsError>)
    ensures file.Ok? ==> r == Ok(file.value)
    ensures file.Err? ==> r.Err? && r.error.code.None? && !r.error.isSyntaxError && r.error.cause == Some(file.error)
  {
    match file
    case Ok(v) => Ok(v)
    case Err(f) => Err(JsError(None, false, Some(f)))
  }

  datatype LoadError = LoadFailed(error: JsError)

  /** The state `loadConfig` starts from: nothing loaded, nothing written. */
  const Unloaded: Service := Service(map[], false, false, None, 0, false)

  /** `loadConfig()` as written: the fallbacks test the caught error's own `code` and class. */
  function LoadConfig(s: Service, file: Result<map<string, Json>, ReadFailure>): (r: Result<Service, LoadError>)
    ensures file.Ok? ==> r == Ok(s.(data := file.value))
    ensures file.Err? ==> r == Err(LoadFailed(ReadJson(file).error))
  {
    match ReadJson(file)
    case Ok(v) => Ok(s.(data := v))
    case Err(e) =>
      if e.code == Some("ENOENT") || e.isSyntaxError then Ok(RequestSave(s.(data := Defaults)))
      else Err(LoadFailed(e))
  }

  /** As written, a missing configuration file fails the load instead of starting from the defaults. */
  lemma MissingFileFailsLoad(s: Service)
    ensures LoadConfig(s, Err(FileMissing)).Err?
    ensures LoadConfig(s, Err(Unparsable)).Err?
  {
  }

  /** The evidently intended `loadConfig`: the fallbacks look at the error `readJSON` wraps. */
  function LoadConfigFixed(s: Service, file: Result<map<string, Json>, ReadFailure>): (r: Result<Service, LoadError>)
    ensures file.Ok? ==> r == Ok(s.(data := file.value))
    ensures file == Err(FileMissing) || file == Err(Unparsable) ==>
              r.Ok? && r.value.data == Defaults && r.value.armed && r.value.writes == s.writes
    ensures file.Err? && file.error.OtherFailure? ==> r == Err(LoadFailed(ReadJson(file).error))
  {
    match ReadJson(file)
    case Ok(v) => Ok(s.(data := v))
    case Err(e) =>
      var original := if e.cause.Some? then Raw(e.cause.value) else e;
      if original.code == Some("ENOENT") || original.isSyntaxError then Ok(RequestSave(s.(data := Defaults)))
      else Err(LoadFailed(e))
  }

  /** With the fix, a first run without a configuration file writes the defaults once the delay passes. */
  lemma FirstRunWritesDefaults()
    ensures var r := LoadConfigFixed(Unloaded, Err(FileMissing));
            r.Ok? && Elapse(r.value).disk == Some(Defaults)
  {
  }

  /** `onRegister()`: load as written, then register `flush` for process exit; any read failure throws before the hook is installed. */
  function Register(s: Service, file: Result<map<string, Json>, ReadFailure>): (r: Result<Service, LoadError>)
    requires Valid(s)
    ensures r.Ok? <==> file.Ok?
    ensures file.Ok? ==> r == Ok(s.(data := file.value, exitHook := true)) && Valid(r.value)
    ensures file.Err? ==> r == Err(LoadFailed(ReadJson(file).error))
  {
    var loaded :- LoadConfig(s, file);
    Ok(loaded.(exitHook := true))
  }

  /** `onRegister()` over the corrected load: a missing or unparsable file starts from the defaults and still installs the hook. */
  function RegisterFixed(s: Service, file: Result<map<string, Json>, ReadFailure>): (r: Result<Service, LoadError>)
    requires Valid(s)
    ensures r.Ok? <==> file.Ok? || file.error == FileMissing || file.error == Unparsable
    ensures r.Ok? ==> r.value.exitHook && Valid(r.value)
    ensures file.Err? && r.Ok? ==> r.value.data == Defaults && r.value.armed
  {
    var loaded :- LoadConfigFixed(s, file);
    Ok(loaded.(exitHook := true))
  }
}
