/** The workflow builder: a registry from type names to collaborator instances, and node
    creation that binds every parameter except `state` to the instance registered under
    the name of its type hint. Reflection is modelled by giving each node function its
    parameter list with optional annotations. */
module GraphBuilding {
  import opened Wrappers
  import opened Text

  /** A type hint as reflection returns it: a class (its `__name__`), a plain string, or
      another object whose `str` is used. */
  datatype Annotation =
    | ClassHint(className: string)
    | StringHint(text: string)
    | OtherHint(repr: string)

  datatype Param = Param(name: string, hint: Option<Annotation>)

  /** A node function: its name, its parameters in declaration order, and its behaviour
      given the state and the keyword arguments bound to the other parameters. */
  datatype NodeFunc<!S, !D> = NodeFunc(name: string, params: seq<Param>, body: (S, map<string, D>) -> S)

  /** The wrapper `create_node` returns: the node function with its bindings fixed. */
  datatype Wrapper<!S, !D> = Wrapper(node: NodeFunc<S, D>, bindings: map<string, D>)

  datatype BuildError =
    | EmptyRegistry
    | MissingTypeHint(node: string, param: string)
    | MissingDependencies(node: string, missing: seq<string>, available: set<string>)

  /** Calling the wrapper with a state calls the node function with the bound arguments. */
  function Call<S, D>(w: Wrapper<S, D>, s: S): S
  {
    w.node.body(s, w.bindings)
  }

  /** The registry key a hint resolves to; a stringified annotation resolves to a name
      without quotes and without dots. */
  function TypeName(a: Annotation): (name: string)
    ensures a.OtherHint? ==> '\'' !in name && '.' !in name
  {
    match a
    case ClassHint(n) => n
    case StringHint(t) => t
    case OtherHint(r) =>
      var t := ReplaceChar(r, '\'', "");
      ReplaceCharRemoves(r, '\'', "");
      if '.' in t then
        var parts := Split(t, ".");
        SplitAvoidsSeparator(t, '.');
        SplitKeepsAbsent(t, ".", '\'');
        parts[|parts| - 1]
      else t
  }

  /** A dotted annotation resolves to its last component. */
  lemma DottedHintResolvesToLast(qualifier: string, last: string)
    requires '.' !in last && '\'' !in qualifier + "." + last
    ensures TypeName(OtherHint(qualifier + "." + last)) == last
  {
    var r := qualifier + "." + last;
    ReplaceCharAbsent(r, '\'', "");
    assert r[|qualifier|] == '.';
    SplitLast(qualifier, last, '.');
  }

  /** Parameter names are unique in a Python signature. */
  predicate NamesIdentify(ps: seq<Param>)
  {
    forall p, q | p in ps && q in ps :: p.name == q.name ==> p == q
  }

  /** The parameters other than `state`, in declaration order. */
  function Injected(ps: seq<Param>): seq<Param>
  {
    if ps == [] then []
    else
      var last := ps[|ps| - 1];
      Injected(ps[..|ps| - 1]) + (if last.name != "state" then [last] else [])
  }

  lemma {:induction false} InjectedMeaning(ps: seq<Param>)
    ensures forall p :: p in Injected(ps) <==> p in ps && p.name != "state"
  {
    if ps != [] {
      assert ps == ps[..|ps| - 1] + [ps[|ps| - 1]];
      InjectedMeaning(ps[..|ps| - 1]);
    }
  }

  /** The position of the first parameter without a hint, if any. */
  function FirstUnhinted(ps: seq<Param>): (r: Option<nat>)
    ensures r.Some? ==> r.value < |ps|
  {
    if ps == [] then None
    else if ps[0].hint.None? then Some(0)
    else match FirstUnhinted(ps[1..])
      case None => None
      case Some(i) => Some(i + 1)
  }

  lemma {:induction false} FirstUnhintedMeaning(ps: seq<Param>)
    ensures var r := FirstUnhinted(ps);
      (r.Some? ==> ps[r.value].hint.None? && forall j :: 0 <= j < r.value ==> ps[j].hint.Some?) &&
      (r.None? ==> forall j :: 0 <= j < |ps| ==> ps[j].hint.Some?)
  {
    if ps != [] && ps[0].hint.Some? {
      FirstUnhintedMeaning(ps[1..]);
    }
  }

  /** The loop's early exit: the first unhinted parameter is the one it stops at. */
  lemma FirstUnhintedAt(ps: seq<Param>, j: nat)
    requires j < |ps| && ps[j].hint.None?
    requires forall k :: 0 <= k < j ==> ps[k].hint.Some?
    ensures FirstUnhinted(ps) == Some(j)
  {
    FirstUnhintedMeaning(ps);
  }

  predicate Unresolved<D>(deps: map<string, D>, p: Param)
  {
    p.hint.Some? && TypeName(p.hint.value) !in deps
  }

  /** The hinted parameters whose type name is not registered, in declaration order. */
  function MissingParams<D>(deps: map<string, D>, ps: seq<Param>): seq<Param>
  {
    if ps == [] then []
    else
      var last := ps[|ps| - 1];
      MissingParams(deps, ps[..|ps| - 1]) + (if Unresolved(deps, last) then [last] else [])
  }

  lemma {:induction false} MissingParamsMeaning<D>(deps: map<string, D>, ps: seq<Param>)
    ensures forall p :: p in MissingParams(deps, ps) <==> p in ps && Unresolved(deps, p)
    ensures forall k :: 0 <= k < |MissingParams(deps, ps)| ==> Unresolved(deps, MissingParams(deps, ps)[k])
  {
    if ps != [] {
      assert ps == ps[..|ps| - 1] + [ps[|ps| - 1]];
      MissingParamsMeaning(deps, ps[..|ps| - 1]);
    }
  }

  /** How a missing parameter is listed in the error: "name: TypeName". */
  function Label(p: Param): string
    requires p.hint.Some?
  {
    p.name + ": " + TypeName(p.hint.value)
  }

  /** The entries of the error message, one per unregistered parameter. */
  function Labels<D>(deps: map<string, D>, ps: seq<Param>): seq<string>
  {
    if ps == [] then []
    else
      var last := ps[|ps| - 1];
      Labels(deps, ps[..|ps| - 1]) + (if Unresolved(deps, last) then [Label(last)] else [])
  }

  /** The message lists the unregistered parameters one by one, in order. */
  lemma {:induction false} LabelsListMissing<D>(deps: map<string, D>, ps: seq<Param>)
    ensures |Labels(deps, ps)| == |MissingParams(deps, ps)|
    ensures forall k :: 0 <= k < |Labels(deps, ps)| ==>
      MissingParams(deps, ps)[k].hint.Some? && Labels(deps, ps)[k] == Label(MissingParams(deps, ps)[k])
  {
    if ps != [] {
      LabelsListMissing(deps, ps[..|ps| - 1]);
    }
  }

  /** The keyword arguments, entered one parameter at a time as `create_node` does. */
  function Bindings<D>(deps: map<string, D>, ps: seq<Param>): map<string, D>
  {
    if ps == [] then map[]
    else
      var last := ps[|ps| - 1];
      var b := Bindings(deps, ps[..|ps| - 1]);
      if last.hint.Some? && TypeName(last.hint.value) in deps
      then b[last.name := deps[TypeName(last.hint.value)]]
      else b
  }

  /** With unique names, each hinted parameter whose type is registered is bound to the
      registered instance, and no other name is bound. */
  lemma {:induction false} BindingsMeaning<D>(deps: map<string, D>, ps: seq<Param>)
    requires NamesIdentify(ps)
    ensures forall n :: n in Bindings(deps, ps) ==> exists p :: p in ps && p.name == n
    ensures forall p :: p in ps && p.hint.Some? && TypeName(p.hint.value) in deps ==>
      p.name in Bindings(deps, ps) && Bindings(deps, ps)[p.name] == deps[TypeName(p.hint.value)]
  {
    if ps != [] {
      var init := ps[..|ps| - 1];
      var last := ps[|ps| - 1];
      assert ps == init + [last];
      assert NamesIdentify(init);
      BindingsMeaning(deps, init);
    }
  }

  /** One step of the resolution loop: the error labels and the bindings of a longer
      prefix of the parameters. */
  lemma ResolveStep<D>(deps: map<string, D>, ps: seq<Param>, j: nat)
    requires j < |ps| && ps[j].hint.Some?
    ensures Labels(deps, ps[..j + 1]) ==
      Labels(deps, ps[..j]) + (if Unresolved(deps, ps[j]) then [Label(ps[j])] else [])
    ensures Bindings(deps, ps[..j + 1]) ==
      if Unresolved(deps, ps[j]) then Bindings(deps, ps[..j])
      else Bindings(deps, ps[..j])[ps[j].name := deps[TypeName(ps[j].hint.value)]]
  {
    assert ps[..j + 1][..j] == ps[..j];
  }

  /** What `create_node` produces: TypeError for the first unhinted parameter, else
      ValueError listing the unregistered ones, else the wrapper. */
  function Resolve<S, D>(deps: map<string, D>, f: NodeFunc<S, D>): Result<Wrapper<S, D>, BuildError>
  {
    var ps := Injected(f.params);
    match FirstUnhinted(ps)
    case Some(i) => Err(MissingTypeHint(f.name, ps[i].name))
    case None =>
      if MissingParams(deps, ps) != [] then Err(MissingDependencies(f.name, Labels(deps, ps), deps.Keys))
      else Ok(Wrapper(f, Bindings(deps, ps)))
  }

  /** A missing hint wins over missing dependencies: TypeError is raised exactly when some
      parameter other than `state` has no hint, and it names such a parameter. */
  lemma MissingHintTakesPrecedence<S, D>(deps: map<string, D>, f: NodeFunc<S, D>)
    ensures Resolve(deps, f).Err? && Resolve(deps, f).error.MissingTypeHint?
      <==> exists p :: p in f.params && p.name != "state" && p.hint.None?
    ensures Resolve(deps, f).Err? && Resolve(deps, f).error.MissingTypeHint? ==>
      exists p :: p in f.params && p.name != "state" && p.hint.None? && p.name == Resolve(deps, f).error.param
  {
    var ps := Injected(f.params);
    InjectedMeaning(f.params);
    FirstUnhintedMeaning(ps);
    if FirstUnhinted(ps).None? {
      forall p | p in f.params && p.name != "state"
        ensures p.hint.Some?
      {
        var j :| 0 <= j < |ps| && ps[j] == p;
      }
    } else {
      assert ps[FirstUnhinted(ps).value] in ps;
    }
  }

  /** With every parameter hinted, ValueError is raised exactly when some type name is not
      registered, and it lists exactly the unregistered parameters. */
  lemma MissingDependenciesExact<S, D>(deps: map<string, D>, f: NodeFunc<S, D>)
    requires forall p :: p in f.params && p.name != "state" ==> p.hint.Some?
    ensures Resolve(deps, f).Err? <==> exists p :: p in f.params && p.name != "state" && Unresolved(deps, p)
    ensures Resolve(deps, f).Err? ==>
      Resolve(deps, f).error == MissingDependencies(f.name, Labels(deps, Injected(f.params)), deps.Keys)
    ensures forall p :: p in MissingParams(deps, Injected(f.params)) <==>
      p in f.params && p.name != "state" && Unresolved(deps, p)
  {
    var ps := Injected(f.params);
    InjectedMeaning(f.params);
    FirstUnhintedMeaning(ps);
    MissingParamsMeaning(deps, ps);
    if MissingParams(deps, ps) != [] {
      assert MissingParams(deps, ps)[0] in MissingParams(deps, ps);
    }
  }

  /** On success every parameter other than `state` is bound to the instance registered under
      its type name, and nothing else is bound. */
  lemma ResolvedBindings<S, D>(deps: map<string, D>, f: NodeFunc<S, D>)
    requires NamesIdentify(f.params)
    requires Resolve(deps, f).Ok?
    ensures var b := Resolve(deps, f).value.bindings;
      "state" !in b &&
      (forall n :: n in b <==> exists p :: p in f.params && p.name != "state" && p.name == n) &&
      (forall p :: p in f.params && p.name != "state" ==>
         p.hint.Some? && TypeName(p.hint.value) in deps && b[p.name] == deps[TypeName(p.hint.value)])
    ensures Resolve(deps, f).value.node == f
  {
    var ps := Injected(f.params);
    InjectedMeaning(f.params);
    FirstUnhintedMeaning(ps);
    MissingParamsMeaning(deps, ps);
    forall p | p in f.params && p.name != "state"
      ensures p.hint.Some? && TypeName(p.hint.value) in deps
    {
      assert p in ps;
      var j :| 0 <= j < |ps| && ps[j] == p;
      assert p !in MissingParams(deps, ps);
    }
    assert NamesIdentify(ps);
    BindingsMeaning(deps, ps);
  }

  /** The builder and its registry, keyed by type name. */
  class WorkflowBuilder<D> {
    var dependencies: map<string, D>

    predicate Valid()
      reads this
    {
      |dependencies| > 0
    }

    constructor (dependencies: map<string, D>)
      requires |dependencies| > 0
      ensures Valid() && this.dependencies == dependencies
    {
      this.dependencies := dependencies;
    }

    /** `WorkflowBuilder(dependencies)`: an empty registry is rejected. */
    static method Create(dependencies: map<string, D>) returns (r: Result<WorkflowBuilder<D>, BuildError>)
      ensures r.Err? <==> |dependencies| == 0
      ensures r.Err? ==> r.error == EmptyRegistry
      ensures r.Ok? ==> fresh(r.value) && r.value.Valid() && r.value.dependencies == dependencies
    {
      if |dependencies| == 0 {
        return Err(EmptyRegistry);
      }
      var b := new WorkflowBuilder(dependencies);
      return Ok(b);
    }

    /** `create_node`: resolves the parameters one by one in declaration order. */
    method CreateNode<S>(f: NodeFunc<S, D>) returns (r: Result<Wrapper<S, D>, BuildError>)
      ensures r == Resolve(dependencies, f)
    {
      var ps := NonStateParams(f.params);
      var nodeDeps: map<string, D> := map[];
      var missing: seq<string> := [];
      for j := 0 to |ps|
        invariant forall k :: 0 <= k < j ==> ps[k].hint.Some?
        invariant missing == Labels(dependencies, ps[..j])
        invariant nodeDeps == Bindings(dependencies, ps[..j])
      {
        var p := ps[j];
        if p.hint.None? {
          FirstUnhintedAt(ps, j);
          return Err(MissingTypeHint(f.name, p.name));
        }
        ResolveStep(dependencies, ps, j);
        var typeName := TypeName(p.hint.value);
        if typeName in dependencies {
          nodeDeps := nodeDeps[p.name := dependencies[typeName]];
        } else {
          missing := missing + [p.name + ": " + typeName];
        }
      }
      assert ps[..|ps|] == ps;
      FirstUnhintedMeaning(ps);
      LabelsListMissing(dependencies, ps);
      if missing != [] {
        return Err(MissingDependencies(f.name, missing, dependencies.Keys));
      }
      return Ok(Wrapper(f, nodeDeps));
    }

    /** The parameter names of the signature, `state` excluded. */
    static method NonStateParams(params: seq<Param>) returns (ps: seq<Param>)
      ensures ps == Injected(params)
    {
      ps := [];
      for i := 0 to |params|
        invariant ps == Injected(params[..i])
      {
        assert params[..i + 1][..i] == params[..i];
        if params[i].name != "state" {
          ps := ps + [params[i]];
        }
      }
      assert params[..|params|] == params;
    }

    /** `get_dependencies`: a copy of the registry; maps are values, so changing the copy
        cannot reach the registry. */
    method GetDependencies() returns (copy: map<string, D>)
      ensures copy == dependencies
    {
      copy := dependencies;
    }

    /** `add_dependency`: sets one key, keeps every other entry, and keeps the registry
        non-empty. */
    method AddDependency(typeName: string, instance: D)
      requires Valid()
      modifies this
      ensures Valid()
      ensures dependencies == old(dependencies)[typeName := instance]
      ensures forall k :: k in old(dependencies) && k != typeName ==> k in dependencies && dependencies[k] == old(dependencies)[k]
    {
      dependencies := dependencies[typeName := instance];
    }
  }
}
