/** The three layouts a new project is created with (`create_new_project`):
    `post` names `page` as its parent, `page` names `default`, and
    `default` has no front matter. Resolution from `post` walks exactly
    these three, innermost first. */
module Scaffold {
  import opened Collaborators
  import opened Layouts

  const DefaultLayout: string :=
    "<!DOCTYPE html>\n<html lang=\"en\">\n<head>\n<meta charset=\"utf-8\">\n<title>{{ site_name }}</title>\n</head>\n<body>{{ content }}</body>\n</html>"
  const PostLayout: string := "---\nlayout: page\n---\n{{ content }}"
  const PageLayout: string := "---\nlayout: default\n---\n{{ content }}"

  /** The project's `_layouts` directory holds the three scaffold files. */
  predicate Scaffolded(env: Env, base: string)
  {
    && LayoutPath(base, "post") in env.sources && env.sources[LayoutPath(base, "post")] == PostLayout
    && LayoutPath(base, "page") in env.sources && env.sources[LayoutPath(base, "page")] == PageLayout
    && LayoutPath(base, "default") in env.sources && env.sources[LayoutPath(base, "default")] == DefaultLayout
  }

  /** The front-matter parser reads the scaffold files as their text says:
      a one-key header for `post` and `page`, none for `default`. */
  predicate ParsesScaffold(env: Env, postBody: string, pageBody: string)
  {
    && env.parse(PostLayout) == Some(Split(Some(map["layout" := Text("page")]), postBody))
    && env.parse(PageLayout) == Some(Split(Some(map["layout" := Text("default")]), pageBody))
    && env.parse(DefaultLayout) == Some(Split(None, DefaultLayout))
  }

  /** From `post` the chain visits `post`, `page`, `default` and stops; the
      result is the default template rendered with `content` bound to the
      page rendering of the post rendering. A template failure anywhere is
      the only other outcome. */
  lemma ScaffoldChain(env: Env, base: string, vars: Vars, postBody: string, pageBody: string)
    requires Scaffolded(env, base) && ParsesScaffold(env, postBody, pageBody)
    ensures var r := Resolve(env, base, {}, "post", vars);
      var postOut := env.render(postBody, vars);
      var pageOut := if postOut.Some? then env.render(pageBody, vars["content" := postOut.value]) else None;
      var defaultOut := if pageOut.Some? then env.render(DefaultLayout, vars["content" := pageOut.value]) else None;
      && (defaultOut.Some? ==>
            && r.result == Ok(defaultOut.value)
            && |r.steps| == 3
            && r.steps[0].name == "post" && r.steps[1].name == "page" && r.steps[2].name == "default")
      && (defaultOut.None? ==> IsTemplateError(r.result))
  {
    assert "post" != "page" by { assert "post"[1] != "page"[1]; }
    assert "default" !in {"post", "page"} by {
      assert "default"[0] != "post"[0] && "default"[0] != "page"[0];
    }
    assert LoadLayout(env, base, "post") == Ok(Split(Some(map["layout" := Text("page")]), postBody));
    assert AsStr(map["layout" := Text("page")], "layout") == Some("page");
    assert LoadLayout(env, base, "page") == Ok(Split(Some(map["layout" := Text("default")]), pageBody));
    assert AsStr(map["layout" := Text("default")], "layout") == Some("default");
    assert LoadLayout(env, base, "default") == Ok(Split(None, DefaultLayout));
    var postOut := env.render(postBody, vars);
    if postOut.Some? {
      var vars1 := vars["content" := postOut.value];
      var pageOut := env.render(pageBody, vars1);
      if pageOut.Some? {
        var vars2 := vars1["content" := pageOut.value];
        assert vars2 == vars["content" := pageOut.value];
        var last := Resolve(env, base, {"post", "page"}, "default", vars2);
        assert {"post"} + {"page"} == {"post", "page"};
        var defaultOut := env.render(DefaultLayout, vars2);
        assert last.result == if defaultOut.Some? then Ok(defaultOut.value)
                              else Err(TemplateFailed(LayoutPath(base, "default")));
        assert defaultOut.Some? ==> last.steps == [Step("default", vars2, defaultOut.value)];
        var middle := Resolve(env, base, {"post"}, "page", vars1);
        assert middle.steps == [Step("page", vars1, pageOut.value)] + last.steps;
        assert middle.result == last.result;
        assert {} + {"post"} == {"post"};
        var top := Resolve(env, base, {}, "post", vars);
        assert top.steps == [Step("post", vars, postOut.value)] + middle.steps;
        assert top.result == middle.result;
      }
    }
  }
}
