/** Layout-chain resolution: `render_layouts`. A layout file may carry front
    matter whose `layout` key names a parent layout; its body is rendered
    against the current variables, the result becomes `content`, and the
    parent is resolved in turn. A layout without front matter is terminal.

    The source recurses with no guard. `Resolve` is the model the rest of
    the project uses: it carries the set of layout names already visited and
    fails with `LayoutCycle` on a revisit. `SourceRenderLayouts` is the
    source as written, observed up to a recursion depth; the lemmas at the
    end relate the two. */
module Layouts {
  import opened Collaborators

  /** `format!("{}/_layouts/{}.html", base_dir, variant)` */
  function LayoutPath(base: string, name: string): string
  {
    base + "/_layouts/" + name + ".html"
  }

  lemma LayoutPathInjective(base: string, n1: string, n2: string)
    ensures LayoutPath(base, n1) == LayoutPath(base, n2) ==> n1 == n2
  {
    if LayoutPath(base, n1) == LayoutPath(base, n2) {
      var k := |base| + 10;
      assert |n1| == |n2|;
      assert n1 == LayoutPath(base, n1)[k..k + |n1|];
      assert n2 == LayoutPath(base, n2)[k..k + |n2|];
    }
  }

  /** Read and split a layout file: the read and the parse both unwrap. */
  function LoadLayout(env: Env, base: string, name: string): (r: Result<Split>)
    ensures r.Ok? <==> LayoutPath(base, name) in env.sources && env.parse(env.sources[LayoutPath(base, name)]).Some?
    ensures r.Ok? ==> Some(r.value) == env.parse(env.sources[LayoutPath(base, name)])
    ensures LayoutPath(base, name) !in env.sources ==> r == Err(ReadFailed(LayoutPath(base, name)))
  {
    var path := LayoutPath(base, name);
    if path !in env.sources then Err(ReadFailed(path))
    else match env.parse(env.sources[path])
      case None => Err(MalformedFrontMatter(path))
      case Some(split) => Ok(split)
  }

  /** The parent a layout names, when it has front matter with a string `layout`. */
  function Parent(env: Env, base: string, name: string): Option<string>
  {
    match LoadLayout(env, base, name)
    case Ok(Split(Some(matter), _)) => AsStr(matter, "layout")
    case _ => None
  }

  /** A layout that loads and has no front matter ends the chain. */
  predicate Terminal(env: Env, base: string, name: string)
  {
    LoadLayout(env, base, name).Ok? && LoadLayout(env, base, name).value.matter.None?
  }

  // ---------------------------------------------------------------------------
  // The guarded resolver

  /** The layout files of the visited names: the part of the file system used up. */
  function VisitedPaths(base: string, visited: set<string>): set<string>
  {
    set n | n in visited :: LayoutPath(base, n)
  }

  function Unvisited(env: Env, base: string, visited: set<string>): set<string>
  {
    env.sources.Keys - VisitedPaths(base, visited)
  }

  lemma UnvisitedShrinks(env: Env, base: string, visited: set<string>, name: string)
    requires LayoutPath(base, name) in env.sources && name !in visited
    ensures |Unvisited(env, base, visited + {name})| < |Unvisited(env, base, visited)|
  {
    var p := LayoutPath(base, name);
    forall n | n in visited
      ensures LayoutPath(base, n) != p
    {
      LayoutPathInjective(base, n, name);
    }
    assert VisitedPaths(base, visited + {name}) == VisitedPaths(base, visited) + {p};
    assert Unvisited(env, base, visited) == Unvisited(env, base, visited + {name}) + {p};
  }

  /** One layout rendered: its name, the variables it saw and what it produced. */
  datatype Step = Step(name: string, vars: Vars, output: string)

  /** The layouts rendered in order, the outcome, and the variables at return. */
  datatype Resolution = Resolution(steps: seq<Step>, result: Result<string>, vars: Vars)

  /** The guarded `render_layouts`: load the layout, fail on a revisit, render
      its body; a terminal layout's rendering is the result, otherwise it
      becomes `content` and the parent is resolved. */
  function Resolve(env: Env, base: string, visited: set<string>, name: string, vars: Vars): (r: Resolution)
    ensures r.result.Ok? ==> r.steps != [] && r.result.value == r.steps[|r.steps| - 1].output
    ensures r.steps != [] ==> r.steps[0].name == name && r.steps[0].vars == vars
    ensures r.steps == [] ==> r.vars == vars
    decreases |Unvisited(env, base, visited)|
  {
    match LoadLayout(env, base, name)
    case Err(e) => Resolution([], Err(e), vars)
    case Ok(split) =>
      if name in visited then Resolution([], Err(LayoutCycle(name)), vars)
      else match split.matter
        case None =>
          (match env.render(split.body, vars)
           case None => Resolution([], Err(TemplateFailed(LayoutPath(base, name))), vars)
           case Some(out) => Resolution([Step(name, vars, out)], Ok(out), vars))
        case Some(matter) =>
          match AsStr(matter, "layout")
          case None => Resolution([], Err(MissingField("layout")), vars)
          case Some(parent) =>
            match env.render(split.body, vars)
            case None => Resolution([], Err(TemplateFailed(LayoutPath(base, name))), vars)
            case Some(out) =>
              UnvisitedShrinks(env, base, visited, name);
              var rest := Resolve(env, base, visited + {name}, parent, vars["content" := out]);
              Resolution([Step(name, vars, out)] + rest.steps, rest.result, rest.vars)
  }

  /** The layout loads, is not yet visited, names a parent and renders: resolution goes on. */
  predicate Continues(env: Env, base: string, visited: set<string>, name: string, vars: Vars)
  {
    && LoadLayout(env, base, name).Ok? && name !in visited
    && LoadLayout(env, base, name).value.matter.Some?
    && AsStr(LoadLayout(env, base, name).value.matter.value, "layout").Some?
    && env.render(LoadLayout(env, base, name).value.body, vars).Some?
  }

  /** One step of a resolution that goes on: its own step, then the parent's chain. */
  lemma ResolveContinues(env: Env, base: string, visited: set<string>, name: string, vars: Vars)
    requires Continues(env, base, visited, name, vars)
    ensures LayoutPath(base, name) in env.sources
    ensures var split := LoadLayout(env, base, name).value;
      var out := env.render(split.body, vars).value;
      var rest := Resolve(env, base, visited + {name}, AsStr(split.matter.value, "layout").value, vars["content" := out]);
      Resolve(env, base, visited, name, vars) == Resolution([Step(name, vars, out)] + rest.steps, rest.result, rest.vars)
  {
  }

  /** A resolution that stops renders at most its own layout, and succeeds
      exactly when that layout is terminal and renders. */
  lemma ResolveStops(env: Env, base: string, visited: set<string>, name: string, vars: Vars)
    requires !Continues(env, base, visited, name, vars)
    ensures var r := Resolve(env, base, visited, name, vars);
      && r.vars == vars
      && (r.result.Ok? <==> Terminal(env, base, name) && name !in visited
                            && env.render(LoadLayout(env, base, name).value.body, vars).Some?)
      && (r.result.Ok? ==> r.steps == [Step(name, vars, r.result.value)]
                           && env.render(LoadLayout(env, base, name).value.body, vars) == Some(r.result.value))
      && (r.result.Err? ==> r.steps == [])
  {
  }

  // ---------------------------------------------------------------------------
  // One level of resolution, case by case

  /** An unreadable layout file fails. */
  lemma UnreadableLayoutFails(env: Env, base: string, visited: set<string>, name: string, vars: Vars)
    requires LayoutPath(base, name) !in env.sources
    ensures Resolve(env, base, visited, name, vars).result == Err(ReadFailed(LayoutPath(base, name)))
  {
  }

  /** A layout without front matter is terminal: its rendering is the result. */
  lemma TerminalLayout(env: Env, base: string, visited: set<string>, name: string, vars: Vars, body: string)
    requires LoadLayout(env, base, name) == Ok(Split(None, body)) && name !in visited
    ensures var r := Resolve(env, base, visited, name, vars);
      && r.result == (match env.render(body, vars)
                      case Some(out) => Ok(out)
                      case None => Err(TemplateFailed(LayoutPath(base, name))))
      && r.steps == (if env.render(body, vars).Some? then [Step(name, vars, env.render(body, vars).value)] else [])
  {
  }

  /** Front matter without a string `layout` key is a failure, not a terminal layout. */
  lemma MissingParentFails(env: Env, base: string, visited: set<string>, name: string, vars: Vars,
                           matter: FrontMatter, body: string)
    requires LoadLayout(env, base, name) == Ok(Split(Some(matter), body)) && name !in visited
    requires AsStr(matter, "layout").None?
    ensures Resolve(env, base, visited, name, vars).result == Err(MissingField("layout"))
  {
  }

  /** A layout with a parent renders its body, binds it to `content`, and
      returns exactly what resolving the parent returns. */
  lemma NestedLayout(env: Env, base: string, visited: set<string>, name: string, vars: Vars,
                     matter: FrontMatter, body: string, parent: string, out: string)
    requires LoadLayout(env, base, name) == Ok(Split(Some(matter), body)) && name !in visited
    requires AsStr(matter, "layout") == Some(parent) && env.render(body, vars) == Some(out)
    ensures Resolve(env, base, visited, name, vars).result
         == Resolve(env, base, visited + {name}, parent, vars["content" := out]).result
  {
  }

  // ---------------------------------------------------------------------------
  // The whole chain

  /** Each step's layout loads, its output is its body rendered against the
      variables it saw, and those variables agree with `vars` outside `content`. */
  ghost predicate StepsRender(env: Env, base: string, steps: seq<Step>, vars: Vars)
  {
    forall i | 0 <= i < |steps| ::
      && LoadLayout(env, base, steps[i].name).Ok?
      && env.render(LoadLayout(env, base, steps[i].name).value.body, steps[i].vars) == Some(steps[i].output)
      && steps[i].vars - {"content"} == vars - {"content"}
  }

  /** Each step's parent is the next step, which sees the same variables with
      `content` rebound to this step's output. */
  ghost predicate StepsLinked(env: Env, base: string, steps: seq<Step>)
  {
    forall i | 0 <= i < |steps| - 1 ::
      && Parent(env, base, steps[i].name) == Some(steps[i + 1].name)
      && steps[i + 1].vars == steps[i].vars["content" := steps[i].output]
  }

  lemma SingleStep(env: Env, base: string, step: Step)
    requires LoadLayout(env, base, step.name).Ok?
    requires env.render(LoadLayout(env, base, step.name).value.body, step.vars) == Some(step.output)
    ensures StepsRender(env, base, [step], step.vars) && StepsLinked(env, base, [step])
  {
    assert [step][0] == step;
  }

  lemma ChainCons(env: Env, base: string, first: Step, rest: seq<Step>, vars: Vars)
    requires StepsRender(env, base, [first], vars) && StepsRender(env, base, rest, vars)
    requires rest != [] ==> Parent(env, base, first.name) == Some(rest[0].name)
                            && rest[0].vars == first.vars["content" := first.output]
    requires StepsLinked(env, base, rest)
    ensures StepsRender(env, base, [first] + rest, vars) && StepsLinked(env, base, [first] + rest)
  {
    var steps := [first] + rest;
    forall i | 0 <= i < |steps|
      ensures && LoadLayout(env, base, steps[i].name).Ok?
              && env.render(LoadLayout(env, base, steps[i].name).value.body, steps[i].vars) == Some(steps[i].output)
              && steps[i].vars - {"content"} == vars - {"content"}
    {
      if i > 0 {
        assert steps[i] == rest[i - 1];
      } else {
        assert steps[i] == [first][0];
      }
    }
    forall i | 0 <= i < |steps| - 1
      ensures && Parent(env, base, steps[i].name) == Some(steps[i + 1].name)
              && steps[i + 1].vars == steps[i].vars["content" := steps[i].output]
    {
      assert steps[i + 1] == rest[i];
      if i > 0 {
        assert steps[i] == rest[i - 1];
      }
    }
  }

  /** The steps of a chain: it starts at `name` with the given variables,
      every step renders and only `content` varies, and each step's parent
      is the next, which sees this step's output as `content`. */
  lemma {:induction false} ChainSteps(env: Env, base: string, visited: set<string>, name: string, vars: Vars)
    ensures var r := Resolve(env, base, visited, name, vars);
      && (|r.steps| > 0 ==> r.steps[0].name == name && r.steps[0].vars == vars)
      && StepsRender(env, base, r.steps, vars)
      && StepsLinked(env, base, r.steps)
    decreases |Unvisited(env, base, visited)|
  {
    var r := Resolve(env, base, visited, name, vars);
    if !Continues(env, base, visited, name, vars) {
      ResolveStops(env, base, visited, name, vars);
      if r.result.Ok? {
        SingleStep(env, base, Step(name, vars, r.result.value));
      }
    } else {
      ResolveContinues(env, base, visited, name, vars);
      var split := LoadLayout(env, base, name).value;
      var parent := AsStr(split.matter.value, "layout").value;
      var out := env.render(split.body, vars).value;
      UnvisitedShrinks(env, base, visited, name);
      var vars' := vars["content" := out];
      var rest := Resolve(env, base, visited + {name}, parent, vars');
      ChainSteps(env, base, visited + {name}, parent, vars');
      assert vars' - {"content"} == vars - {"content"};
      assert Parent(env, base, name) == Some(parent);
      ChainCons(env, base, Step(name, vars, out), rest.steps, vars);
      assert r.steps == [Step(name, vars, out)] + rest.steps;
    }
  }

  /** The outcome of a chain: a success is the output of the last step, which
      is terminal, and the variables at return differ from the starting ones
      only in `content`. */
  lemma {:induction false} ChainOutcome(env: Env, base: string, visited: set<string>, name: string, vars: Vars)
    ensures var r := Resolve(env, base, visited, name, vars);
      && (r.result.Ok? ==> |r.steps| > 0 && r.result.value == r.steps[|r.steps| - 1].output
                           && Terminal(env, base, r.steps[|r.steps| - 1].name))
      && r.vars - {"content"} == vars - {"content"}
    decreases |Unvisited(env, base, visited)|
  {
    if !Continues(env, base, visited, name, vars) {
      ResolveStops(env, base, visited, name, vars);
    } else {
      ResolveContinues(env, base, visited, name, vars);
      var split := LoadLayout(env, base, name).value;
      var parent := AsStr(split.matter.value, "layout").value;
      var out := env.render(split.body, vars).value;
      UnvisitedShrinks(env, base, visited, name);
      var vars' := vars["content" := out];
      ChainOutcome(env, base, visited + {name}, parent, vars');
      assert vars' - {"content"} == vars - {"content"};
    }
  }

  /** What the chain looks like from outside: `ChainSteps` and `ChainOutcome` together. */
  lemma ChainShape(env: Env, base: string, visited: set<string>, name: string, vars: Vars)
    ensures var r := Resolve(env, base, visited, name, vars);
      && (|r.steps| > 0 ==> r.steps[0].name == name && r.steps[0].vars == vars)
      && StepsRender(env, base, r.steps, vars)
      && StepsLinked(env, base, r.steps)
      && (r.result.Ok? ==> |r.steps| > 0 && r.result.value == r.steps[|r.steps| - 1].output
                           && Terminal(env, base, r.steps[|r.steps| - 1].name))
      && r.vars - {"content"} == vars - {"content"}
  {
    ChainSteps(env, base, visited, name, vars);
    ChainOutcome(env, base, visited, name, vars);
  }

  /** No step renders a layout of `visited`, and no layout is rendered twice. */
  ghost predicate FreshAndDistinct(steps: seq<Step>, visited: set<string>)
  {
    && (forall i | 0 <= i < |steps| :: steps[i].name !in visited)
    && (forall i, j | 0 <= i < j < |steps| :: steps[i].name != steps[j].name)
  }

  lemma FreshAndDistinctCons(step: Step, rest: seq<Step>, visited: set<string>)
    requires step.name !in visited && FreshAndDistinct(rest, visited + {step.name})
    ensures FreshAndDistinct([step] + rest, visited)
  {
    var steps := [step] + rest;
    forall i | 0 <= i < |steps|
      ensures steps[i].name !in visited
    {
      if i > 0 {
        assert steps[i] == rest[i - 1];
      }
    }
    forall i, j | 0 <= i < j < |steps|
      ensures steps[i].name != steps[j].name
    {
      assert steps[j] == rest[j - 1];
      if i > 0 {
        assert steps[i] == rest[i - 1];
      }
    }
  }

  /** The guard at work: no layout is rendered twice, and none already visited. */
  lemma {:induction false} ChainVisitsEachLayoutOnce(env: Env, base: string, visited: set<string>, name: string, vars: Vars)
    ensures FreshAndDistinct(Resolve(env, base, visited, name, vars).steps, visited)
    decreases |Unvisited(env, base, visited)|
  {
    var r := Resolve(env, base, visited, name, vars);
    if !Continues(env, base, visited, name, vars) {
      ResolveStops(env, base, visited, name, vars);
    } else {
      ResolveContinues(env, base, visited, name, vars);
      var split := LoadLayout(env, base, name).value;
      var parent := AsStr(split.matter.value, "layout").value;
      var out := env.render(split.body, vars).value;
      UnvisitedShrinks(env, base, visited, name);
      var vars' := vars["content" := out];
      var rest := Resolve(env, base, visited + {name}, parent, vars').steps;
      ChainVisitsEachLayoutOnce(env, base, visited + {name}, parent, vars');
      FreshAndDistinctCons(Step(name, vars, out), rest, visited);
    }
  }

  // ---------------------------------------------------------------------------
  // The source as written: no guard, observed up to a recursion depth

  /** A run of the unguarded recursion: it returned, or needed more than the
      depth allowed. */
  datatype Run = Unfinished | Finished(result: Result<string>)

  /** `render_layouts` as written, with no guard; `depth` bounds how far it is followed. */
  function SourceRenderLayouts(env: Env, base: string, depth: nat, name: string, vars: Vars): (r: Run)
    ensures r.Finished? ==> !IsCycleError(r.result)
    ensures r.Finished? && r.result.Ok? ==> depth > 0
    decreases depth
  {
    if depth == 0 then Unfinished
    else match LoadLayout(env, base, name)
      case Err(e) => Finished(Err(e))
      case Ok(split) =>
        match split.matter
        case None =>
          (match env.render(split.body, vars)
           case None => Finished(Err(TemplateFailed(LayoutPath(base, name))))
           case Some(out) => Finished(Ok(out)))
        case Some(matter) =>
          match AsStr(matter, "layout")
          case None => Finished(Err(MissingField("layout")))
          case Some(parent) =>
            match env.render(split.body, vars)
            case None => Finished(Err(TemplateFailed(LayoutPath(base, name))))
            case Some(out) => SourceRenderLayouts(env, base, depth - 1, parent, vars["content" := out])
  }

  /** A set of layouts each of which names a parent inside the set: a cycle. */
  ghost predicate Closed(env: Env, base: string, names: set<string>)
  {
    forall n | n in names :: Parent(env, base, n).Some? && Parent(env, base, n).value in names
  }

  /** The parent chain from `name` runs into a cycle. */
  ghost predicate CyclicFrom(env: Env, base: string, name: string)
  {
    exists names :: name in names && Closed(env, base, names)
  }

  predicate IsCycleError(r: Result<string>)
  {
    r.Err? && r.error.LayoutCycle?
  }

  predicate IsTemplateError(r: Result<string>)
  {
    r.Err? && r.error.TemplateFailed?
  }

  /** One step of the unguarded recursion where the guarded one goes on. */
  lemma SourceContinues(env: Env, base: string, visited: set<string>, depth: nat, name: string, vars: Vars)
    requires Continues(env, base, visited, name, vars) && depth > 0
    ensures var split := LoadLayout(env, base, name).value;
      var out := env.render(split.body, vars).value;
      SourceRenderLayouts(env, base, depth, name, vars)
        == SourceRenderLayouts(env, base, depth - 1, AsStr(split.matter.value, "layout").value, vars["content" := out])
  {
  }

  /** Where the guarded resolution stops without a cycle error, the unguarded
      one stops with the same result. */
  lemma SourceStops(env: Env, base: string, visited: set<string>, depth: nat, name: string, vars: Vars)
    requires !Continues(env, base, visited, name, vars) && depth > 0
    requires !IsCycleError(Resolve(env, base, visited, name, vars).result)
    ensures SourceRenderLayouts(env, base, depth, name, vars) == Finished(Resolve(env, base, visited, name, vars).result)
  {
  }

  /** Whenever the guard does not fire, the source returns the same result,
      given a recursion depth beyond the number of files. */
  lemma {:induction false} GuardAgreesWithSource(env: Env, base: string, visited: set<string>, name: string, vars: Vars, depth: nat)
    requires !IsCycleError(Resolve(env, base, visited, name, vars).result)
    requires depth > |Unvisited(env, base, visited)|
    ensures SourceRenderLayouts(env, base, depth, name, vars) == Finished(Resolve(env, base, visited, name, vars).result)
    decreases |Unvisited(env, base, visited)|
  {
    if !Continues(env, base, visited, name, vars) {
      SourceStops(env, base, visited, depth, name, vars);
    } else {
      ResolveContinues(env, base, visited, name, vars);
      SourceContinues(env, base, visited, depth, name, vars);
      var split := LoadLayout(env, base, name).value;
      var parent := AsStr(split.matter.value, "layout").value;
      var out := env.render(split.body, vars).value;
      UnvisitedShrinks(env, base, visited, name);
      GuardAgreesWithSource(env, base, visited + {name}, parent, vars["content" := out], depth - 1);
    }
  }

  /** Inside a closed set of layouts the source never returns, except when a
      template fails to render. */
  lemma {:induction false} SourceLoopsInClosedSet(env: Env, base: string, names: set<string>, depth: nat, name: string, vars: Vars)
    requires Closed(env, base, names) && name in names
    ensures var run := SourceRenderLayouts(env, base, depth, name, vars);
      run == Unfinished || IsTemplateError(run.result)
    decreases depth
  {
    if depth > 0 {
      var load := LoadLayout(env, base, name);
      var out := env.render(load.value.body, vars);
      if out.Some? {
        SourceLoopsInClosedSet(env, base, names, depth - 1, Parent(env, base, name).value, vars["content" := out.value]);
      }
    }
  }

  /** Inside a closed set of layouts the guard fires, unless a template fails first. */
  lemma {:induction false} GuardFiresInClosedSet(env: Env, base: string, names: set<string>, visited: set<string>, name: string, vars: Vars)
    requires Closed(env, base, names) && name in names
    ensures var r := Resolve(env, base, visited, name, vars).result;
      IsCycleError(r) || IsTemplateError(r)
    decreases |Unvisited(env, base, visited)|
  {
    var load := LoadLayout(env, base, name);
    var out := env.render(load.value.body, vars);
    if name !in visited && out.Some? {
      UnvisitedShrinks(env, base, visited, name);
      GuardFiresInClosedSet(env, base, names, visited + {name}, Parent(env, base, name).value, vars["content" := out.value]);
    }
  }

  /** When the guard fires, the visited layouts and the current one form a
      closed set: the chain really is cyclic. */
  lemma {:induction false} CycleErrorMeansClosedChain(env: Env, base: string, visited: set<string>, name: string, vars: Vars)
    returns (names: set<string>)
    requires forall m | m in visited :: Parent(env, base, m).Some? && Parent(env, base, m).value in visited + {name}
    requires IsCycleError(Resolve(env, base, visited, name, vars).result)
    ensures visited <= names && name in names && Closed(env, base, names)
    decreases |Unvisited(env, base, visited)|
  {
    var load := LoadLayout(env, base, name);
    if name in visited {
      names := visited;
    } else {
      var parent := AsStr(load.value.matter.value, "layout").value;
      var out := env.render(load.value.body, vars).value;
      UnvisitedShrinks(env, base, visited, name);
      names := CycleErrorMeansClosedChain(env, base, visited + {name}, parent, vars["content" := out]);
    }
  }

  /** The guard changes the source's behaviour only on cyclic chains: with
      no cycle error, the source returns the same result; a cycle error means
      the chain is cyclic, and on a cyclic chain the guard fires (or a
      template fails first) while the source never returns a result other
      than a template error. */
  lemma CycleGuard(env: Env, base: string, name: string, vars: Vars)
    ensures var r := Resolve(env, base, {}, name, vars).result;
      && (!IsCycleError(r) ==> forall depth: nat | depth > |env.sources| ::
            SourceRenderLayouts(env, base, depth, name, vars) == Finished(r))
      && (IsCycleError(r) ==> CyclicFrom(env, base, name))
      && (CyclicFrom(env, base, name) ==> IsCycleError(r) || IsTemplateError(r))
      && (CyclicFrom(env, base, name) ==> forall depth: nat ::
            SourceRenderLayouts(env, base, depth, name, vars) == Unfinished
            || IsTemplateError(SourceRenderLayouts(env, base, depth, name, vars).result))
  {
    var r := Resolve(env, base, {}, name, vars).result;
    assert VisitedPaths(base, {}) == {};
    assert |Unvisited(env, base, {})| == |env.sources|;
    if !IsCycleError(r) {
      forall depth: nat | depth > |env.sources|
        ensures SourceRenderLayouts(env, base, depth, name, vars) == Finished(r)
      {
        GuardAgreesWithSource(env, base, {}, name, vars, depth);
      }
    } else {
      var names := CycleErrorMeansClosedChain(env, base, {}, name, vars);
    }
    if CyclicFrom(env, base, name) {
      var names :| name in names && Closed(env, base, names);
      GuardFiresInClosedSet(env, base, names, {}, name, vars);
      forall depth: nat
        ensures SourceRenderLayouts(env, base, depth, name, vars) == Unfinished
             || IsTemplateError(SourceRenderLayouts(env, base, depth, name, vars).result)
      {
        SourceLoopsInClosedSet(env, base, names, depth, name, vars);
      }
    }
  }

  // ---------------------------------------------------------------------------
  // A concrete cycle: layout `a` names `b` as its parent and `b` names `a`

  function CyclicPair(): Env
  {
    Env(map[LayoutPath("site", "a") := "A", LayoutPath("site", "b") := "B"],
        text => if text == "A" then Some(Split(Some(map["layout" := Text("b")]), "{{ content }}"))
                else if text == "B" then Some(Split(Some(map["layout" := Text("a")]), "{{ content }}"))
                else None,
        (template, vars) => Some(template),
        text => text,
        path => true)
  }

  lemma CyclicPairLoads()
    ensures Parent(CyclicPair(), "site", "a") == Some("b")
    ensures Parent(CyclicPair(), "site", "b") == Some("a")
  {
    assert LayoutPath("site", "a") != LayoutPath("site", "b") by {
      assert LayoutPath("site", "a")[14] != LayoutPath("site", "b")[14];
    }
    assert AsStr(map["layout" := Text("b")], "layout") == Some("b");
    assert AsStr(map["layout" := Text("a")], "layout") == Some("a");
  }

  /** As written, the source never returns on the pair, however deep it may recurse. */
  lemma {:induction false} CyclicPairNeverReturns(depth: nat, name: string, vars: Vars)
    requires name == "a" || name == "b"
    ensures SourceRenderLayouts(CyclicPair(), "site", depth, name, vars) == Unfinished
    decreases depth
  {
    CyclicPairLoads();
    if depth > 0 {
      var parent := if name == "a" then "b" else "a";
      assert Parent(CyclicPair(), "site", name) == Some(parent);
      var split := LoadLayout(CyclicPair(), "site", name).value;
      CyclicPairNeverReturns(depth - 1, parent, vars["content" := split.body]);
    }
  }

  /** With the guard, resolution from `a` stops with a cycle error at the revisit. */
  lemma CyclicPairIsCaught(vars: Vars)
    ensures Resolve(CyclicPair(), "site", {}, "a", vars).result == Err(LayoutCycle("a"))
  {
    CyclicPairLoads();
    var env := CyclicPair();
    assert "a" != "b";
    var vars1 := vars["content" := "{{ content }}"];
    assert {} + {"a"} == {"a"};
    assert Resolve(env, "site", {"a", "b"}, "a", vars1).result == Err(LayoutCycle("a"));
    assert {"a"} + {"b"} == {"a", "b"};
    assert Resolve(env, "site", {"a"}, "b", vars1).result == Err(LayoutCycle("a"));
  }
}
