/**
 `plaidml_invoker` and the calls on it (plaidml/plaidml.cc:1293-1509): bindings, two derived objects that are kept until
 a binding changes, and the caches behind them.  What the TILE compiler makes of a function and its arguments is a
 parameter of the model.
 */
module Invokers {
  import opened Wrappers
  import opened LruCaches
  import opened ParameterOrders

  // A bound value.  Anything but a tensor or a constant is refused.
  datatype Value = Tensor(shape: Shape, isConst: bool, buffer: nat) | FConst(f: real) | IConst(i: int) | Unsupported

  // What the function application is given: tensors appear under their names, without their buffers.
  datatype Argument = Buffer(name: string, shape: Shape, isConst: bool) | Float(f: real) | Integer(i: int)

  type Bindings = map<string, Value>
  type Parameters = map<string, Parameter>
  type Arguments = map<string, Argument>

  predicate Supported(m: Bindings) {
    forall n :: n in m ==> !m[n].Unsupported?
  }

  // Tensors as plaidml_alloc_tensor makes them.
  predicate NoConstTensors(m: Bindings) {
    forall n :: n in m ==> m[n].Tensor? ==> !m[n].isConst
  }

  predicate Plain(m: Bindings) {
    Supported(m) && NoConstTensors(m)
  }

  function ParameterOf(v: Value): Parameter
    requires !v.Unsupported?
  {
    match v
    case Tensor(shape, _, _) => TensorShaped(shape)
    case FConst(f) => FloatConst(f)
    case IConst(i) => IntConst(i)
  }

  // ToApplierParameterShapes
  function ParametersOf(m: Bindings): Parameters
    requires Supported(m)
  {
    map n | n in m :: ParameterOf(m[n])
  }

  function ArgumentOf(name: string, v: Value): Argument
    requires !v.Unsupported?
  {
    match v
    case Tensor(shape, isConst, _) => Buffer(name, shape, isConst)
    case FConst(f) => Float(f)
    case IConst(i) => Integer(i)
  }

  function ArgumentsOf(m: Bindings): Arguments
    requires Supported(m)
  {
    map n | n in m :: ArgumentOf(n, m[n])
  }

  function FromParameter(name: string, p: Parameter): Argument {
    match p
    case TensorShaped(shape) => Buffer(name, shape, false)
    case FloatConst(f) => Float(f)
    case IntConst(i) => Integer(i)
  }

  function FromParameters(k: Parameters): Arguments {
    map n | n in k :: FromParameter(n, k[n])
  }

  // What the function application is given is named after its binding and has its type, constness or value; only the
  // buffers do not show, and nothing else is given.
  lemma ArgumentsTellBindings(m: Bindings, n: string)
    requires Supported(m)
    ensures n in ArgumentsOf(m) <==> n in m
    ensures n in m && m[n].Tensor? ==> ArgumentsOf(m)[n] == Buffer(n, m[n].shape, m[n].isConst)
    ensures n in m && m[n].FConst? ==> ArgumentsOf(m)[n] == Float(m[n].f)
    ensures n in m && m[n].IConst? ==> ArgumentsOf(m)[n] == Integer(m[n].i)
  {
  }

  predicate SameButBuffer(v: Value, v': Value) {
    if v.Tensor? && v'.Tensor? then v.shape == v'.shape && v.isConst == v'.isConst else v == v'
  }

  // So equal arguments come from bindings that differ in their buffers alone.
  lemma EqualArguments(m: Bindings, m': Bindings)
    requires Supported(m) && Supported(m')
    ensures ArgumentsOf(m) == ArgumentsOf(m') <==>
              m.Keys == m'.Keys && forall n :: n in m && n in m' ==> SameButBuffer(m[n], m'[n])
  {
    assert ArgumentsOf(m).Keys == m.Keys && ArgumentsOf(m').Keys == m'.Keys;
    if ArgumentsOf(m) == ArgumentsOf(m') {
      forall n | n in m && n in m' ensures SameButBuffer(m[n], m'[n]) {
        assert ArgumentsOf(m)[n] == ArgumentsOf(m')[n];
      }
    }
    if m.Keys == m'.Keys && forall n :: n in m && n in m' ==> SameButBuffer(m[n], m'[n]) {
      forall n | n in m ensures n in m' && ArgumentsOf(m)[n] == ArgumentsOf(m')[n] {
        assert n in m.Keys && n in m'.Keys;
      }
      assert ArgumentsOf(m) == ArgumentsOf(m');
    }
  }

  // A cache key holds all that the cached object is built from, as long as no tensor is constant.
  lemma KeyDeterminesArguments(m: Bindings)
    requires Supported(m)
    ensures FromParameters(ParametersOf(m)) == ArgumentsOf(m) <==> NoConstTensors(m)
  {
    forall n | n in m
      ensures FromParameters(ParametersOf(m))[n] == ArgumentsOf(m)[n] <==> (m[n].Tensor? ==> !m[n].isConst)
    {
    }
    if FromParameters(ParametersOf(m)) == ArgumentsOf(m) {
      forall n | n in m ensures m[n].Tensor? ==> !m[n].isConst {
        assert FromParameters(ParametersOf(m))[n] == ArgumentsOf(m)[n];
      }
    }
  }

  predicate SameConstness(m: Bindings, m': Bindings) {
    forall n :: n in m && n in m' && m[n].Tensor? && m'[n].Tensor? ==> m[n].isConst == m'[n].isConst
  }

  // In general it does so exactly up to the constness of tensors, which the key leaves out.
  lemma KeysIgnoreConstness(m: Bindings, m': Bindings)
    requires Supported(m) && Supported(m') && ParametersOf(m) == ParametersOf(m')
    ensures ArgumentsOf(m) == ArgumentsOf(m') <==> SameConstness(m, m')
  {
    assert ParametersOf(m).Keys == m.Keys && ParametersOf(m').Keys == m'.Keys;
    forall n | n in m
      ensures ArgumentsOf(m)[n] == ArgumentsOf(m')[n] <==>
                (m[n].Tensor? && m'[n].Tensor? ==> m[n].isConst == m'[n].isConst)
    {
      assert ParametersOf(m)[n] == ParametersOf(m')[n];
    }
    if ArgumentsOf(m) == ArgumentsOf(m') {
      forall n | n in m && n in m' && m[n].Tensor? && m'[n].Tensor? ensures m[n].isConst == m'[n].isConst {
        assert ArgumentsOf(m)[n] == ArgumentsOf(m')[n];
      }
    }
  }

  // ---------------------------------------------------------------------------------------------- the function

  // What the compiler makes of arguments: None is an exception.
  datatype Compiler<!C, !A> = Compiler(
    build: (Arguments, Arguments) -> Option<C>, apply: Arguments -> Option<A>, shapeOf: (A, string) -> Option<Shape>)

  // The program name is changed by every save; the rest is fixed.
  class RunInfo<C> {
    const content: C
    var programName: string

    constructor (content: C)
      ensures this.content == content
    {
      this.content := content;
      programName := "";
    }
  }

  // What a call tells its caller.
  datatype Answer<C> =
    | Done(ok: bool)
    | OutputShape(shape: Option<Shape>)
    | Saved(name: string, content: Option<C>)
    | Ran(content: Option<C>)

  const APPLIER_CACHE_SIZE := 8
  const RUNINFO_CACHE_SIZE := 8

  class Invoker<C(!new), A(!new)> {
    const compiler: Compiler<C, A>
    const applierCache: LruCache<Parameters, A>
    const runinfoCache: LruCache<(Parameters, Parameters), RunInfo<C>>
    var inputs: Bindings
    var outputs: Bindings
    var applier: Option<A>
    var runinfo: RunInfo?<C>
    // Every run information object that the cache or the invoker refers to.
    ghost var infos: set<RunInfo<C>>

    ghost predicate CachesAgree()
      reads this, applierCache, runinfoCache
    {
      && applierCache.Valid() && runinfoCache.Valid()
      && (forall k :: k in applierCache.entries ==> compiler.apply(FromParameters(k)) == Some(applierCache.entries[k]))
      && (forall k :: k in runinfoCache.entries ==>
            && runinfoCache.entries[k] in infos
            && compiler.build(FromParameters(k.0), FromParameters(k.1)) == Some(runinfoCache.entries[k].content))
    }

    // Whatever is kept is what recomputing it from the current bindings would give.
    ghost predicate Valid()
      reads this, applierCache, runinfoCache
    {
      && CachesAgree()
      && Plain(inputs) && Plain(outputs) && (forall n :: n in outputs ==> outputs[n].Tensor?)
      && (applier.Some? ==> compiler.apply(ArgumentsOf(inputs)) == applier)
      && (runinfo != null ==>
            && runinfo in infos
            && compiler.build(ArgumentsOf(inputs), ArgumentsOf(outputs)) == Some(runinfo.content))
    }

    constructor (compiler: Compiler<C, A>)
      ensures Valid() && fresh(applierCache) && fresh(runinfoCache) && infos == {}
      ensures this.compiler == compiler && inputs == map[] && outputs == map[]
    {
      this.compiler := compiler;
      applierCache := new LruCache(APPLIER_CACHE_SIZE);
      runinfoCache := new LruCache(RUNINFO_CACHE_SIZE);
      inputs := map[];
      outputs := map[];
      applier := None;
      runinfo := null;
      infos := {};
    }

    // plaidml_set_invoker_input; no value removes the binding.
    method SetInput(name: string, value: Option<Value>) returns (ok: bool)
      requires Valid() && (value.Some? ==> NoConstTensors(map[name := value.value]))
      modifies this`inputs, this`applier, this`runinfo
      ensures Valid()
      ensures ok <==> value != Some(Unsupported)
      ensures inputs == if !ok then old(inputs)
                        else if value.Some? then old(inputs)[name := value.value]
                        else old(inputs) - {name}
      ensures ok ==> applier == None && runinfo == null
      ensures !ok ==> applier == old(applier) && runinfo == old(runinfo)
    {
      if value.Some? {
        if value.value.Unsupported? {
          return false;
        }
        assert map[name := value.value][name] == value.value;
        inputs := inputs[name := value.value];
      } else {
        inputs := inputs - {name};
      }
      applier := None;
      runinfo := null;
      return true;
    }

    // plaidml_set_invoker_output
    method SetOutput(name: string, value: Option<Value>) returns (ok: bool)
      requires Valid() && (value.Some? ==> NoConstTensors(map[name := value.value]))
      modifies this`outputs, this`runinfo
      ensures Valid()
      ensures ok <==> value.Some? ==> value.value.Tensor?
      ensures outputs == if !ok then old(outputs)
                         else if value.Some? then old(outputs)[name := value.value]
                         else old(outputs) - {name}
      ensures runinfo == if ok then null else old(runinfo)
    {
      if value.Some? {
        if !value.value.Tensor? {
          return false;
        }
        assert map[name := value.value][name] == value.value;
        outputs := outputs[name := value.value];
      } else {
        outputs := outputs - {name};
      }
      runinfo := null;
      return true;
    }

    // The lookup in the run information cache, which builds on a miss; null is an exception from the builder.
    method LookUpRunInfo(key: (Parameters, Parameters)) returns (info: RunInfo?<C>)
      requires CachesAgree()
      modifies this`infos, runinfoCache
      ensures CachesAgree() && old(infos) <= infos && fresh(infos - old(infos))
      ensures info != null ==>
                info in infos && compiler.build(FromParameters(key.0), FromParameters(key.1)) == Some(info.content)
      ensures info == null ==> compiler.build(FromParameters(key.0), FromParameters(key.1)) == None
    {
      var found := runinfoCache.Find(key);
      if found.Some? {
        return found.value;
      }
      var content := compiler.build(FromParameters(key.0), FromParameters(key.1));
      if content.None? {
        return null;
      }
      var built := new RunInfo(content.value);
      infos := infos + {built};
      runinfoCache.Insert(key, built);
      return built;
    }

    // BuildInvokerRunInfo
    method BuildRunInfo() returns (ok: bool)
      requires Valid()
      modifies this`runinfo, this`infos, runinfoCache
      ensures Valid() && fresh(infos - old(infos))
      ensures ok <==> runinfo != null
      ensures ok <==> compiler.build(ArgumentsOf(inputs), ArgumentsOf(outputs)).Some?
    {
      if runinfo != null {
        return true;
      }
      var key := (ParametersOf(inputs), ParametersOf(outputs));
      KeyDeterminesArguments(inputs);
      KeyDeterminesArguments(outputs);
      runinfo := LookUpRunInfo(key);
      return runinfo != null;
    }

    // plaidml_save_invoker in the Stripe formats: the program that is written, under the file's name.
    method Save(stem: string) returns (content: Option<C>)
      requires Valid()
      modifies this`runinfo, this`infos, runinfoCache, infos
      ensures Valid() && fresh(infos - old(infos))
      ensures content == compiler.build(ArgumentsOf(inputs), ArgumentsOf(outputs))
      ensures content.Some? ==> runinfo != null && runinfo.programName == stem
    {
      var ok := BuildRunInfo();
      if !ok {
        return None;
      }
      runinfo.programName := stem;
      return Some(runinfo.content);
    }

    // plaidml_schedule_invocation up to the program that is run
    method Schedule() returns (content: Option<C>)
      requires Valid()
      modifies this`runinfo, this`infos, runinfoCache
      ensures Valid() && fresh(infos - old(infos))
      ensures content == compiler.build(ArgumentsOf(inputs), ArgumentsOf(outputs))
    {
      var ok := BuildRunInfo();
      if !ok {
        return None;
      }
      return Some(runinfo.content);
    }

    // plaidml_alloc_invoker_output_shape
    method AllocOutputShape(name: string) returns (shape: Option<Shape>)
      requires Valid()
      modifies this`applier, applierCache
      ensures Valid()
      ensures shape == UncachedShape(compiler, inputs, name)
    {
      if applier.None? {
        var key := ParametersOf(inputs);
        KeyDeterminesArguments(inputs);
        var found := applierCache.Find(key);
        if found.Some? {
          applier := found;
        } else {
          var built := compiler.apply(ArgumentsOf(inputs));
          if built.None? {
            return None;
          }
          applierCache.Insert(key, built.value);
          applier := built;
        }
      }
      return compiler.shapeOf(applier.value, name);
    }
  }

  // The answer that computing from the bindings gives.
  function UncachedShape<C(!new), A(!new)>(c: Compiler<C, A>, inputs: Bindings, name: string): Option<Shape>
    requires Supported(inputs)
  {
    var applier := c.apply(ArgumentsOf(inputs));
    if applier.None? then None else c.shapeOf(applier.value, name)
  }

  // ---------------------------------------------------------------------------------------------- runs

  datatype Call =
    | BindInput(name: string, value: Option<Value>)
    | BindOutput(name: string, value: Option<Value>)
    | AskShape(name: string)
    | SaveAs(stem: string)
    | Run

  predicate Acceptable(call: Call) {
    (call.BindInput? || call.BindOutput?) && call.value.Some? && call.value.value.Tensor? ==> !call.value.value.isConst
  }

  // The bindings after a call.
  function Rebound(m: Bindings, name: string, value: Option<Value>): Bindings {
    if value.Some? then m[name := value.value] else m - {name}
  }

  function InputsAfter(m: Bindings, call: Call): (r: Bindings)
    ensures Plain(m) && Acceptable(call) ==> Plain(r)
  {
    if call.BindInput? && call.value != Some(Unsupported) then Rebound(m, call.name, call.value) else m
  }

  function OutputsAfter(m: Bindings, call: Call): (r: Bindings)
    ensures Plain(m) && Acceptable(call) ==> Plain(r)
  {
    if call.BindOutput? && (call.value.Some? ==> call.value.value.Tensor?) then Rebound(m, call.name, call.value) else m
  }

  // An invoker that keeps nothing but its bindings.
  function Uncached<C(!new), A(!new)>(c: Compiler<C, A>, inputs: Bindings, outputs: Bindings, call: Call): Answer<C>
    requires Supported(inputs) && Supported(outputs)
  {
    match call
    case BindInput(_, value) => Done(value != Some(Unsupported))
    case BindOutput(_, value) => Done(value.Some? ==> value.value.Tensor?)
    case AskShape(name) => OutputShape(UncachedShape(c, inputs, name))
    case SaveAs(stem) => Saved(stem, c.build(ArgumentsOf(inputs), ArgumentsOf(outputs)))
    case Run => Ran(c.build(ArgumentsOf(inputs), ArgumentsOf(outputs)))
  }

  function UncachedRun<C(!new), A(!new)>(c: Compiler<C, A>, inputs: Bindings, outputs: Bindings, calls: seq<Call>)
    : (answers: seq<Answer<C>>)
    requires Plain(inputs) && Plain(outputs) && forall i :: 0 <= i < |calls| ==> Acceptable(calls[i])
    decreases |calls|
  {
    if calls == [] then []
    else
      [Uncached(c, inputs, outputs, calls[0])]
      + UncachedRun(c, InputsAfter(inputs, calls[0]), OutputsAfter(outputs, calls[0]), calls[1..])
  }

  method Perform<C(!new), A(!new)>(invoker: Invoker<C, A>, call: Call) returns (answer: Answer<C>)
    requires invoker.Valid() && Acceptable(call)
    modifies invoker, invoker.applierCache, invoker.runinfoCache, invoker.infos
    ensures invoker.Valid() && fresh(invoker.infos - old(invoker.infos))
    ensures answer == Uncached(invoker.compiler, old(invoker.inputs), old(invoker.outputs), call)
    ensures invoker.inputs == InputsAfter(old(invoker.inputs), call)
    ensures invoker.outputs == OutputsAfter(old(invoker.outputs), call)
  {
    match call {
      case BindInput(name, value) =>
        var ok := invoker.SetInput(name, value);
        return Done(ok);
      case BindOutput(name, value) =>
        var ok := invoker.SetOutput(name, value);
        return Done(ok);
      case AskShape(name) =>
        var shape := invoker.AllocOutputShape(name);
        return OutputShape(shape);
      case SaveAs(stem) =>
        var content := invoker.Save(stem);
        return Saved(stem, content);
      case Run =>
        var content := invoker.Schedule();
        return Ran(content);
    }
  }

  lemma {:induction false} UncachedStep<C(!new), A(!new)>(c: Compiler<C, A>, inputs: Bindings, outputs: Bindings,
                                                          calls: seq<Call>, answers: seq<Answer<C>>)
    requires Plain(inputs) && Plain(outputs) && calls != [] && forall i :: 0 <= i < |calls| ==> Acceptable(calls[i])
    ensures answers + UncachedRun(c, inputs, outputs, calls)
         == (answers + [Uncached(c, inputs, outputs, calls[0])])
            + UncachedRun(c, InputsAfter(inputs, calls[0]), OutputsAfter(outputs, calls[0]), calls[1..])
  {
  }

  // Over any sequence of calls the invoker answers as one that recomputes everything each time.
  method PerformAll<C(!new), A(!new)>(compiler: Compiler<C, A>, calls: seq<Call>) returns (answers: seq<Answer<C>>)
    requires forall i :: 0 <= i < |calls| ==> Acceptable(calls[i])
    ensures answers == UncachedRun(compiler, map[], map[], calls)
  {
    var invoker := new Invoker(compiler);
    answers := [];
    for i := 0 to |calls|
      invariant invoker.Valid() && fresh(invoker) && fresh(invoker.infos)
      invariant fresh(invoker.applierCache) && fresh(invoker.runinfoCache) && invoker.compiler == compiler
      invariant UncachedRun(compiler, map[], map[], calls)
             == answers + UncachedRun(compiler, invoker.inputs, invoker.outputs, calls[i..])
    {
      assert calls[i..][0] == calls[i] && calls[i..][1..] == calls[i + 1..];
      UncachedStep(compiler, invoker.inputs, invoker.outputs, calls[i..], answers);
      var answer := Perform(invoker, calls[i]);
      answers := answers + [answer];
    }
  }
}
