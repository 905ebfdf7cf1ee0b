/**
 * The backend registry of `qibo.backends`: which computation engines are
 * available, a memo of the engines constructed so far, the active engine,
 * and the default chosen from the installed libraries.
 *
 * A backend object is abstracted to the three attributes the registry reads
 * and writes: its `name`, its `precision` and its `default_device`; a device
 * that Python would treat as false (`None` or `''`) is the empty string.
 * The active backend is stored as the name it was constructed under, so the
 * active object and its entry in the memo are one and the same object, as
 * they are in the source.
 */
module Backends {
  import opened Wrappers

  /** The minimum TensorFlow version, compared as a string. */
  const TF_MIN_VERSION: string := "2.2.0"

  datatype Engine = Engine(name: string, precision: string, device: string)

  /** Python truthiness of a device attribute. */
  predicate Truthy(device: string)
  {
    device != ""
  }

  datatype Error =
    | ModuleNotFound            // numpy is not installed
    | UnsupportedTensorflow     // tf.__version__ < TF_MIN_VERSION
    | UnknownBackend(name: string)

  /**
   * What `__init__` learns from its surroundings: which libraries are
   * installed, TensorFlow's version string, the `QIBO_BACKEND` variable, and
   * the object each backend class builds when called with no arguments.
   */
  datatype Environment = Environment(
    numpy: bool, tensorflow: bool, qibotf: bool, tfVersion: string,
    qiboBackend: Option<string>,
    numpyEngine: Engine, tensorflowEngine: Engine, customEngine: Engine)

  /** The registry's state: `available_backends`, `constructed_backends`, and the active backend's name. */
  datatype Registry = Registry(available: map<string, Engine>, constructed: map<string, Engine>, active: Option<string>)

  /** Only available names are ever constructed, and the active backend is a constructed one. */
  predicate Wf(r: Registry)
  {
    r.constructed.Keys <= r.available.Keys
    && (r.active.Some? ==> r.active.value in r.constructed)
  }

  /** The active backend object, or None while `_active_backend` is still None. */
  function ActiveEngine(r: Registry): (e: Option<Engine>)
    requires Wf(r)
    ensures e.Some? <==> r.active.Some?
  {
    if r.active.Some? then Some(r.constructed[r.active.value]) else None
  }

  /** A fresh backend after it copied the active one's precision, and its device when that is truthy. */
  function Inherit(made: Engine, active: Option<Engine>): Engine
  {
    match active
    case None => made
    case Some(a) =>
      var e := made.(precision := a.precision);
      if Truthy(a.device) then e.(device := a.device) else e
  }

  /** `construct_backend(name)`: the new registry state and the returned object or raised error. */
  function Construct(r: Registry, name: string): (out: (Registry, Result<Engine, Error>))
    requires Wf(r)
    ensures Wf(out.0)
    ensures out.1.Ok? <==> name in r.constructed || name in r.available
  {
    if name in r.constructed then (r, Ok(r.constructed[name]))
    else if name !in r.available then (r, Err(UnknownBackend(name)))
    else
      var e := Inherit(r.available[name], ActiveEngine(r));
      (r.(constructed := r.constructed[name := e]), Ok(e))
  }

  /** The `active_backend` setter: construct (or look up) `name`, then make it active. */
  function SetActive(r: Registry, name: string): (out: (Registry, Result<Engine, Error>))
    requires Wf(r)
    ensures Wf(out.0)
  {
    var (r1, res) := Construct(r, name);
    if res.Err? then (r1, res) else (r1.(active := Some(name)), res)
  }

  /** Python's `<` on strings: lexicographic order on code points, a proper prefix first. */
  predicate PyStrLess(a: string, b: string)
    decreases |a|
  {
    if b == [] then false
    else if a == [] then true
    else if a[0] != b[0] then a[0] < b[0]
    else PyStrLess(a[1..], b[1..])
  }

  /** The backend `__init__` makes active: qibotf, else tensorflow, else numpy. */
  function DefaultChoice(env: Environment): string
  {
    if env.tensorflow && env.qibotf then "qibotf"
    else if env.tensorflow then "tensorflow"
    else "numpy"
  }

  /** `available_backends` as `__init__` fills it. */
  function Available(env: Environment): map<string, Engine>
  {
    var m := map["numpy" := env.numpyEngine];
    var m := if env.tensorflow then m["tensorflow" := env.tensorflowEngine] else m;
    if env.tensorflow && env.qibotf then m["qibotf" := env.customEngine] else m
  }

  /** `Backend()`: the state after `__init__`, or the error it raises. */
  function Init(env: Environment): Result<Registry, Error>
  {
    if !env.numpy then Err(ModuleNotFound)
    else if env.tensorflow && PyStrLess(env.tfVersion, TF_MIN_VERSION) then Err(UnsupportedTensorflow)
    else
      var r0 := Registry(Available(env), map[], None);
      var r1 := Construct(r0, "numpy").0;          // self.qnp
      var (r2, res) := if env.qiboBackend.Some? then SetActive(r1, env.qiboBackend.value) else (r1, Ok(env.numpyEngine));
      if res.Err? then Err(res.error)
      else Ok(SetActive(r2, DefaultChoice(env)).0)
  }

  /** `set_precision`'s loop: every constructed backend gets precision `d`. */
  function SetAllPrecision(m: map<string, Engine>, d: string): map<string, Engine>
  {
    map n | n in m :: m[n].(precision := d)
  }

  /** `set_device`'s loop: every constructed backend gets default device `d`. */
  function SetAllDevice(m: map<string, Engine>, d: string): map<string, Engine>
  {
    map n | n in m :: m[n].(device := d)
  }

  // ---------------------------------------------------------------------
  // construct_backend and the active_backend setter

  /** A name already constructed is returned from the memo and nothing changes. */
  lemma ConstructCached(r: Registry, name: string)
    requires Wf(r) && name in r.constructed
    ensures Construct(r, name) == (r, Ok(r.constructed[name]))
  {
  }

  /** A name neither constructed nor available raises ValueError and changes nothing. */
  lemma ConstructUnknown(r: Registry, name: string)
    requires Wf(r)
    ensures Construct(r, name).1 == Err(UnknownBackend(name)) <==> name !in r.available
    ensures name !in r.available ==> Construct(r, name).0 == r
  {
  }

  /**
   * A successful construction of a new name adds exactly that entry; the new
   * object keeps its own name, takes the active backend's precision, and its
   * device only when that device is truthy; with no active backend it keeps
   * its defaults.
   */
  lemma ConstructNew(r: Registry, name: string)
    requires Wf(r) && name !in r.constructed && name in r.available
    ensures var (r1, res) := Construct(r, name);
      var made := r.available[name];
      && res.Ok?
      && r1 == r.(constructed := r.constructed[name := res.value])
      && (forall n :: n in r.constructed ==> n in r1.constructed && r1.constructed[n] == r.constructed[n])
      && res.value.name == made.name
      && (r.active.None? ==> res.value == made)
      && (r.active.Some? ==>
            var a := r.constructed[r.active.value];
            && res.value.precision == a.precision
            && res.value.device == (if a.device != "" then a.device else made.device))
  {
  }

  /** Constructing never removes a memo entry and touches neither the available classes nor the active backend. */
  lemma ConstructKeepsEntries(r: Registry, name: string)
    requires Wf(r)
    ensures r.constructed.Keys <= Construct(r, name).0.constructed.Keys
    ensures Construct(r, name).0.available == r.available && Construct(r, name).0.active == r.active
  {
  }

  /** The setter makes `name` active on success; on error the active backend is left as it was. */
  lemma SetActiveOutcome(r: Registry, name: string)
    requires Wf(r)
    ensures SetActive(r, name).1.Ok? ==> SetActive(r, name).0.active == Some(name)
    ensures SetActive(r, name).1.Err? ==> SetActive(r, name).0 == r
  {
  }

  /**
   * Switching to `a`, then to `b`, then back to `a` hands back the very
   * object constructed the first time and constructs nothing new.
   */
  lemma SwitchBackReuses(r: Registry, a: string, b: string)
    requires Wf(r)
    requires SetActive(r, a).1.Ok? && SetActive(SetActive(r, a).0, b).1.Ok?
    ensures var (r1, x) := SetActive(r, a);
      var (r2, _) := SetActive(r1, b);
      var (r3, z) := SetActive(r2, a);
      z == x && r3.constructed == r2.constructed && r3.active == Some(a)
  {
    var (r1, x) := SetActive(r, a);
    var (r2, _) := SetActive(r1, b);
    assert a in r1.constructed && r1.constructed[a] == x.value;
    assert a in r2.constructed && r2.constructed[a] == x.value;
    ConstructCached(r2, a);
  }

  // ---------------------------------------------------------------------
  // Python string comparison

  lemma {:induction false} PyStrLessIrreflexive(a: string)
    ensures !PyStrLess(a, a)
    decreases |a|
  {
    if a != [] {
      PyStrLessIrreflexive(a[1..]);
    }
  }

  /** Python string `<` is a strict total order: exactly one of a < b, a == b, b < a. */
  lemma {:induction false} PyStrLessTrichotomy(a: string, b: string)
    ensures PyStrLess(a, b) || a == b || PyStrLess(b, a)
    ensures !(PyStrLess(a, b) && PyStrLess(b, a))
    decreases |a|
  {
    if a != [] && b != [] && a[0] == b[0] {
      PyStrLessTrichotomy(a[1..], b[1..]);
      if a[1..] == b[1..] {
        assert a == [a[0]] + a[1..] && b == [b[0]] + b[1..];
      }
    }
    if a == b {
      PyStrLessIrreflexive(a);
    }
  }

  lemma {:induction false} PyStrLessTransitive(a: string, b: string, c: string)
    requires PyStrLess(a, b) && PyStrLess(b, c)
    ensures PyStrLess(a, c)
    decreases |a|
  {
    if a != [] && a[0] == b[0] && b[0] == c[0] {
      PyStrLessTransitive(a[1..], b[1..], c[1..]);
    }
  }

  /**
   * The version check compares strings, not version numbers: TensorFlow
   * "2.10.0", which is newer than 2.2.0, sorts before "2.2.0" and is
   * refused, while "2.2.0" itself and "2.3.1" are accepted.
   */
  lemma TfVersionIsLexicographic()
    ensures PyStrLess("2.10.0", TF_MIN_VERSION)
    ensures !PyStrLess("2.2.0", TF_MIN_VERSION) && !PyStrLess("2.3.1", TF_MIN_VERSION)
  {
    assert "2.10.0"[1..] == ".10.0" && "2.2.0"[1..] == ".2.0";
    assert ".10.0"[1..] == "10.0" && ".2.0"[1..] == "2.0";
    PyStrLessIrreflexive("2.2.0");
    assert "2.3.1"[1..] == ".3.1" && ".3.1"[1..] == "3.1";
  }

  // ---------------------------------------------------------------------
  // __init__

  /** The available names: numpy always, tensorflow when installed, qibotf when both are. */
  lemma AvailableNames(env: Environment, name: string)
    ensures name in Available(env) <==>
      name == "numpy" || (name == "tensorflow" && env.tensorflow)
      || (name == "qibotf" && env.tensorflow && env.qibotf)
    ensures DefaultChoice(env) in Available(env)
  {
  }

  /** `__init__` fails exactly when numpy is missing, TensorFlow is too old, or QIBO_BACKEND names an unknown backend. */
  lemma InitErrors(env: Environment)
    ensures Init(env) == Err(ModuleNotFound) <==> !env.numpy
    ensures Init(env) == Err(UnsupportedTensorflow) <==>
      env.numpy && env.tensorflow && PyStrLess(env.tfVersion, TF_MIN_VERSION)
    ensures Init(env).Err? <==>
      !env.numpy || (env.tensorflow && PyStrLess(env.tfVersion, TF_MIN_VERSION))
      || (env.qiboBackend.Some? && env.qiboBackend.value !in Available(env))
    ensures Init(env).Err? && Init(env).error.UnknownBackend? ==>
      env.qiboBackend.Some? && Init(env).error.name == env.qiboBackend.value
  {
    if env.numpy && !(env.tensorflow && PyStrLess(env.tfVersion, TF_MIN_VERSION)) {
      var r0 := Registry(Available(env), map[], None);
      assert Wf(r0);
      ConstructKeepsEntries(r0, "numpy");
      var r1 := Construct(r0, "numpy").0;
      assert r1.available == Available(env);
      if env.qiboBackend.Some? {
        SetActiveOutcome(r1, env.qiboBackend.value);
      }
    }
  }

  /**
   * After `__init__` the active backend is always the default choice, even
   * when QIBO_BACKEND named another one: that one was constructed (with its
   * own class defaults, since no backend is active yet) and then overwritten.
   * numpy (`qnp`) is constructed.
   */
  lemma InitActiveIsDefault(env: Environment)
    requires Init(env).Ok?
    ensures var r := Init(env).value;
      && Wf(r)
      && r.available == Available(env)
      && r.active == Some(DefaultChoice(env))
      && "numpy" in r.constructed
      && (env.qiboBackend.Some? ==> env.qiboBackend.value in r.constructed)
  {
    var r0 := Registry(Available(env), map[], None);
    AvailableNames(env, DefaultChoice(env));
    ConstructKeepsEntries(r0, "numpy");
    var r1 := Construct(r0, "numpy").0;
    if env.qiboBackend.Some? {
      SetActiveOutcome(r1, env.qiboBackend.value);
      var r2 := SetActive(r1, env.qiboBackend.value).0;
      SetActiveOutcome(r2, DefaultChoice(env));
      ConstructKeepsEntries(r2, DefaultChoice(env));
    } else {
      SetActiveOutcome(r1, DefaultChoice(env));
      ConstructKeepsEntries(r1, DefaultChoice(env));
    }
  }

  /** With numpy alone installed and no QIBO_BACKEND, numpy is constructed once with its own defaults and is active. */
  lemma InitNumpyOnly(env: Environment)
    requires env.numpy && !env.tensorflow && env.qiboBackend.None?
    ensures Init(env) == Ok(Registry(map["numpy" := env.numpyEngine], map["numpy" := env.numpyEngine], Some("numpy")))
  {
  }

  // ---------------------------------------------------------------------
  // set_precision and set_device

  /** `set_precision(d)` constructs nothing, changes nothing but precisions, and sets every one to d. */
  lemma SetAllPrecisionSpec(m: map<string, Engine>, d: string)
    ensures SetAllPrecision(m, d).Keys == m.Keys
    ensures forall n :: n in m ==>
      SetAllPrecision(m, d)[n].precision == d
      && SetAllPrecision(m, d)[n].name == m[n].name
      && SetAllPrecision(m, d)[n].device == m[n].device
  {
  }

  /** `set_device(d)` constructs nothing, changes nothing but devices, and sets every one to d. */
  lemma SetAllDeviceSpec(m: map<string, Engine>, d: string)
    ensures SetAllDevice(m, d).Keys == m.Keys
    ensures forall n :: n in m ==>
      SetAllDevice(m, d)[n].device == d
      && SetAllDevice(m, d)[n].name == m[n].name
      && SetAllDevice(m, d)[n].precision == m[n].precision
  {
  }

  /**
   * The active backend is updated in place with the others, so a backend
   * constructed after `set_precision(d)` inherits precision d.
   */
  lemma ConstructAfterSetPrecision(r: Registry, d: string, name: string)
    requires Wf(r) && r.active.Some?
    requires name !in r.constructed && name in r.available
    ensures var r1 := r.(constructed := SetAllPrecision(r.constructed, d));
      Wf(r1) && Construct(r1, name).1.Ok? && Construct(r1, name).1.value.precision == d
  {
    var r1 := r.(constructed := SetAllPrecision(r.constructed, d));
    assert Wf(r1);
  }

  /** A truthy device set by `set_device(d)` is inherited by a backend constructed afterwards. */
  lemma ConstructAfterSetDevice(r: Registry, d: string, name: string)
    requires Wf(r) && r.active.Some? && Truthy(d)
    requires name !in r.constructed && name in r.available
    ensures var r1 := r.(constructed := SetAllDevice(r.constructed, d));
      Wf(r1) && Construct(r1, name).1.Ok? && Construct(r1, name).1.value.device == d
  {
    var r1 := r.(constructed := SetAllDevice(r.constructed, d));
    assert Wf(r1);
  }

  // ---------------------------------------------------------------------
  // The registry object

  /** `Backend`: the registry object `K` whose dictionaries its methods update in place. */
  class Backend {
    var available: map<string, Engine>
    var constructed: map<string, Engine>
    var active: Option<string>

    function State(): Registry
      reads this
    {
      Registry(available, constructed, active)
    }

    predicate Valid()
      reads this
    {
      Wf(State())
    }

    /** An object with the given classes available and nothing constructed yet. */
    constructor Empty(available: map<string, Engine>)
      ensures State() == Registry(available, map[], None) && Valid()
    {
      this.available := available;
      constructed := map[];
      active := None;
    }

    /** `construct_backend(name)`: look `name` up in the memo, or build it from the active backend's settings. */
    method ConstructBackend(name: string) returns (r: Result<Engine, Error>)
      requires Valid()
      modifies this
      ensures (State(), r) == Construct(old(State()), name)
      ensures Valid()
    {
      ConstructKeepsEntries(State(), name);
      if name !in constructed {
        if name !in available {
          return Err(UnknownBackend(name));
        }
        var e := available[name];
        if active.Some? {
          var a := constructed[active.value];
          e := e.(precision := a.precision);
          if a.device != "" {
            e := e.(device := a.device);
          }
        }
        constructed := constructed[name := e];
      }
      return Ok(constructed[name]);
    }

    /** The `active_backend` setter; the error of `construct_backend` leaves the active backend alone. */
    method SetActiveBackend(name: string) returns (r: Result<Engine, Error>)
      requires Valid()
      modifies this
      ensures (State(), r) == SetActive(old(State()), name)
      ensures Valid()
    {
      SetActiveOutcome(State(), name);
      r := ConstructBackend(name);
      if r.Ok? {
        active := Some(name);
      }
    }
  }

  /** `Backend()`: run `__init__` in the given environment. */
  method NewBackend(env: Environment) returns (r: Result<Backend, Error>)
    ensures r.Ok? <==> Init(env).Ok?
    ensures r.Ok? ==> fresh(r.value) && r.value.Valid() && r.value.State() == Init(env).value
    ensures r.Err? ==> r.error == Init(env).error
  {
    if !env.numpy {
      return Err(ModuleNotFound);
    }
    var available := map["numpy" := env.numpyEngine];
    var defaultName := "numpy";
    if env.tensorflow {
      if PyStrLess(env.tfVersion, TF_MIN_VERSION) {
        return Err(UnsupportedTensorflow);
      }
      available := available["tensorflow" := env.tensorflowEngine];
      defaultName := "tensorflow";
      if env.qibotf {
        available := available["qibotf" := env.customEngine];
        defaultName := "qibotf";
      }
    }
    var k := new Backend.Empty(available);
    var _ := k.ConstructBackend("numpy");
    if env.qiboBackend.Some? {
      var chosen := k.SetActiveBackend(env.qiboBackend.value);
      if chosen.Err? {
        return Err(chosen.error);
      }
    }
    var _ := k.SetActiveBackend(defaultName);
    return Ok(k);
  }

  /**
   * `set_precision(dtype)`: set the precision of every constructed backend,
   * in place.  The returned flag is the RuntimeWarning the source issues when
   * switchers are not allowed and the precision changes; it never blocks.
   */
  method SetPrecision(k: Backend, dtype: string, allowSwitchers: bool) returns (warned: bool)
    requires k.Valid() && k.active.Some?
    modifies k
    ensures warned == (!allowSwitchers && dtype != old(k.constructed[k.active.value].precision))
    ensures k.State() == old(k.State()).(constructed := SetAllPrecision(old(k.constructed), dtype))
    ensures k.Valid()
  {
    warned := !allowSwitchers && dtype != k.constructed[k.active.value].precision;
    ghost var start := k.constructed;
    var todo := k.constructed.Keys;
    while todo != {}
      invariant todo <= start.Keys && k.constructed.Keys == start.Keys
      invariant k.available == old(k.available) && k.active == old(k.active)
      invariant forall n :: n in start && n !in todo ==> k.constructed[n] == start[n].(precision := dtype)
      invariant forall n :: n in todo ==> k.constructed[n] == start[n]
      decreases todo
    {
      var n :| n in todo;
      k.constructed := k.constructed[n := k.constructed[n].(precision := dtype)];
      todo := todo - {n};
    }
  }

  /**
   * `set_device(name)`: set the default device of every constructed backend,
   * in place; the warning flag is as for `SetPrecision`.
   */
  method SetDevice(k: Backend, device: string, allowSwitchers: bool) returns (warned: bool)
    requires k.Valid() && k.active.Some?
    modifies k
    ensures warned == (!allowSwitchers && device != old(k.constructed[k.active.value].device))
    ensures k.State() == old(k.State()).(constructed := SetAllDevice(old(k.constructed), device))
    ensures k.Valid()
  {
    warned := !allowSwitchers && device != k.constructed[k.active.value].device;
    ghost var start := k.constructed;
    var todo := k.constructed.Keys;
    while todo != {}
      invariant todo <= start.Keys && k.constructed.Keys == start.Keys
      invariant k.available == old(k.available) && k.active == old(k.active)
      invariant forall n :: n in start && n !in todo ==> k.constructed[n] == start[n].(device := device)
      invariant forall n :: n in todo ==> k.constructed[n] == start[n]
      decreases todo
    {
      var n :| n in todo;
      k.constructed := k.constructed[n := k.constructed[n].(device := device)];
      todo := todo - {n};
    }
  }
}
