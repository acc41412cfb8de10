/** Per-document rendering: `render_post` and `render_page`. Each reads the
    document, splits off its front matter, builds the variables `title` and
    `site_name`, renders the body once (through markdown first for posts),
    binds the result to `content` and hands the variables to layout
    resolution, starting at `post` for posts and at the page's own `layout`
    for pages. */
module Documents {
  import opened Collaborators
  import opened Layouts

  /** Where layout resolution starts, and with which variables. */
  datatype Start = Start(layout: string, vars: Vars)

  /** The variables every document starts from. */
  function BaseVars(title: string, siteName: string): Vars
  {
    map["title" := title, "site_name" := siteName]
  }

  /** Variables that hold `content`, and otherwise exactly `title` and `site_name`. */
  predicate DocumentVars(vars: Vars, title: string, siteName: string)
  {
    "content" in vars && vars - {"content"} == BaseVars(title, siteName)
  }

  /** The document's file as split by the front-matter parser. */
  function Parsed(env: Env, path: string): Option<Split>
  {
    if path in env.sources then env.parse(env.sources[path]) else None
  }

  function PostStart(env: Env, siteName: string, path: string): (r: Result<Start>)
    ensures path !in env.sources ==> r == Err(ReadFailed(path))
    ensures path in env.sources && Parsed(env, path).None? ==> r == Err(MalformedFrontMatter(path))
    ensures Parsed(env, path).Some? && Parsed(env, path).value.matter.None? ==> r == Err(MissingFrontMatter(path))
    ensures (&& Parsed(env, path).Some? && Parsed(env, path).value.matter.Some?
             && AsStr(Parsed(env, path).value.matter.value, "title").None?) ==> r == Err(MissingField("title"))
    ensures (&& Parsed(env, path).Some? && Parsed(env, path).value.matter.Some?
             && AsStr(Parsed(env, path).value.matter.value, "title").Some?) ==>
      var title := AsStr(Parsed(env, path).value.matter.value, "title").value;
      var output := env.render(env.markdown(Parsed(env, path).value.body), BaseVars(title, siteName));
      && (output.None? ==> r == Err(TemplateFailed(path)))
      && (output.Some? ==> r.Ok?)
    ensures r.Ok? ==>
      && r.value.layout == "post"
      && Parsed(env, path).Some? && Parsed(env, path).value.matter.Some?
      && AsStr(Parsed(env, path).value.matter.value, "title").Some?
      && var title := AsStr(Parsed(env, path).value.matter.value, "title").value;
         && DocumentVars(r.value.vars, title, siteName)
         && env.render(env.markdown(Parsed(env, path).value.body), BaseVars(title, siteName))
            == Some(r.value.vars["content"])
  {
    if path !in env.sources then Err(ReadFailed(path))
    else match env.parse(env.sources[path])
      case None => Err(MalformedFrontMatter(path))
      case Some(split) =>
        var html := env.markdown(split.body);
        match split.matter
        case None => Err(MissingFrontMatter(path))
        case Some(matter) =>
          match AsStr(matter, "title")
          case None => Err(MissingField("title"))
          case Some(title) =>
            var vars := BaseVars(title, siteName);
            match env.render(html, vars)
            case None => Err(TemplateFailed(path))
            case Some(output) => Ok(Start("post", vars["content" := output]))
  }

  function PageStart(env: Env, siteName: string, path: string): (r: Result<Start>)
    ensures path !in env.sources ==> r == Err(ReadFailed(path))
    ensures path in env.sources && Parsed(env, path).None? ==> r == Err(MalformedFrontMatter(path))
    ensures Parsed(env, path).Some? && Parsed(env, path).value.matter.None? ==> r == Err(MissingFrontMatter(path))
    ensures (&& Parsed(env, path).Some? && Parsed(env, path).value.matter.Some?
             && AsStr(Parsed(env, path).value.matter.value, "layout").None?) ==> r == Err(MissingField("layout"))
    ensures (&& Parsed(env, path).Some? && Parsed(env, path).value.matter.Some?
             && AsStr(Parsed(env, path).value.matter.value, "layout").Some?
             && AsStr(Parsed(env, path).value.matter.value, "title").None?) ==> r == Err(MissingField("title"))
    ensures (&& Parsed(env, path).Some? && Parsed(env, path).value.matter.Some?
             && AsStr(Parsed(env, path).value.matter.value, "layout").Some?
             && AsStr(Parsed(env, path).value.matter.value, "title").Some?) ==>
      var title := AsStr(Parsed(env, path).value.matter.value, "title").value;
      var output := env.render(Parsed(env, path).value.body, BaseVars(title, siteName));
      && (output.None? ==> r == Err(TemplateFailed(path)))
      && (output.Some? ==> r.Ok?)
    ensures r.Ok? ==>
      && Parsed(env, path).Some? && Parsed(env, path).value.matter.Some?
      && AsStr(Parsed(env, path).value.matter.value, "layout") == Some(r.value.layout)
      && AsStr(Parsed(env, path).value.matter.value, "title").Some?
      && var title := AsStr(Parsed(env, path).value.matter.value, "title").value;
         && DocumentVars(r.value.vars, title, siteName)
         && env.render(Parsed(env, path).value.body, BaseVars(title, siteName))
            == Some(r.value.vars["content"])
  {
    if path !in env.sources then Err(ReadFailed(path))
    else match env.parse(env.sources[path])
      case None => Err(MalformedFrontMatter(path))
      case Some(split) =>
        match split.matter
        case None => Err(MissingFrontMatter(path))
        case Some(matter) =>
          match AsStr(matter, "layout")
          case None => Err(MissingField("layout"))
          case Some(layout) =>
            match AsStr(matter, "title")
            case None => Err(MissingField("title"))
            case Some(title) =>
              var vars := BaseVars(title, siteName);
              match env.render(split.body, vars)
              case None => Err(TemplateFailed(path))
              case Some(output) => Ok(Start(layout, vars["content" := output]))
  }

  /** A document rendered through its layout chain. */
  function RenderedFrom(env: Env, base: string, start: Result<Start>): (r: Result<string>)
    ensures start.Err? ==> r == Err(start.error)
  {
    match start
    case Err(e) => Err(e)
    case Ok(s) => Resolve(env, base, {}, s.layout, s.vars).result
  }

  function RenderedPost(env: Env, base: string, siteName: string, path: string): (r: Result<string>)
    ensures r.Ok? ==> PostStart(env, siteName, path).Ok?
    ensures r.Ok? ==> Resolve(env, base, {}, "post", PostStart(env, siteName, path).value.vars).result == r
  {
    RenderedFrom(env, base, PostStart(env, siteName, path))
  }

  function RenderedPage(env: Env, base: string, siteName: string, path: string): (r: Result<string>)
    ensures r.Ok? ==> PageStart(env, siteName, path).Ok?
    ensures r.Ok? ==> Resolve(env, base, {}, PageStart(env, siteName, path).value.layout,
                              PageStart(env, siteName, path).value.vars).result == r
  {
    RenderedFrom(env, base, PageStart(env, siteName, path))
  }

  /** Every layout of a document's chain, the outermost included, sees the
      document's own `title` and the site's name: only `content` changes
      along the chain. */
  lemma DocumentVarsReachEveryLayout(env: Env, base: string, title: string, siteName: string, start: Start)
    requires DocumentVars(start.vars, title, siteName)
    ensures var steps := Resolve(env, base, {}, start.layout, start.vars).steps;
      forall i | 0 <= i < |steps| :: DocumentVars(steps[i].vars, title, siteName)
  {
    var steps := Resolve(env, base, {}, start.layout, start.vars).steps;
    ChainShape(env, base, {}, start.layout, start.vars);
    forall i | 0 <= i < |steps|
      ensures DocumentVars(steps[i].vars, title, siteName)
    {
      if i > 0 {
        assert steps[i].vars == steps[i - 1].vars["content" := steps[i - 1].output];
      }
    }
  }

  /** A post starts its chain at `post`, and its title and the site's name
      reach every layout of that chain. */
  lemma PostChain(env: Env, base: string, siteName: string, path: string)
    requires PostStart(env, siteName, path).Ok?
    ensures var start := PostStart(env, siteName, path).value;
      var title := AsStr(Parsed(env, path).value.matter.value, "title").value;
      var chain := Resolve(env, base, {}, "post", start.vars);
      && RenderedPost(env, base, siteName, path) == chain.result
      && forall i | 0 <= i < |chain.steps| :: DocumentVars(chain.steps[i].vars, title, siteName)
  {
    var title := AsStr(Parsed(env, path).value.matter.value, "title").value;
    DocumentVarsReachEveryLayout(env, base, title, siteName, PostStart(env, siteName, path).value);
  }

  /** A page starts its chain at its own `layout`, and its title and the
      site's name reach every layout of that chain. */
  lemma PageChain(env: Env, base: string, siteName: string, path: string)
    requires PageStart(env, siteName, path).Ok?
    ensures var start := PageStart(env, siteName, path).value;
      var matter := Parsed(env, path).value.matter.value;
      var chain := Resolve(env, base, {}, AsStr(matter, "layout").value, start.vars);
      && RenderedPage(env, base, siteName, path) == chain.result
      && forall i | 0 <= i < |chain.steps| :: DocumentVars(chain.steps[i].vars, AsStr(matter, "title").value, siteName)
  {
    var title := AsStr(Parsed(env, path).value.matter.value, "title").value;
    DocumentVarsReachEveryLayout(env, base, title, siteName, PageStart(env, siteName, path).value);
  }
}
