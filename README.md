# A verified model of stark's rendering pipeline

stark is a small static-site generator written in Rust. A site holds:

- posts under `posts/`;
- pages under `pages/`;
- layout templates under `_layouts/<name>.html`.

A build renders each document, wraps it in its chain of layouts and writes the result under `public/`. This project models that pipeline, from `src/main.rs`, and proves properties of it in Dafny.

**Layout resolution (`render_layouts`), `layouts.dfy`**
- A layout file is read and split into an optional front-matter header and a body. The body is rendered against the current variables.
- A layout with a header names its parent in the `layout` key. Its rendering is bound to `content`, and resolution continues with the parent.
- A layout without a header is terminal. Its rendering is the result.
- The source has no guard against a cyclic chain. The model adds one (a set of visited layout names) and proves that:
  - the guard changes nothing on chains that are not cyclic;
  - on a cyclic chain the source, as written, never returns except through a template failure (see Findings).
- The source's version appears as `SourceRenderLayouts`, observed up to a recursion depth.

**Per-document rendering (`render_post`, `render_page`), `documents.dfy`**
- Both build variables `title` and `site_name` from the document's header and the site name.
- They render the body once and bind the result to `content`. A post's body goes through markdown first; a page's does not.
- They then resolve layouts: posts from `post`, pages from their own `layout` key.

**The scaffold, `scaffold.dfy`**
- These are the three layouts a new project is created with.
- Resolution from `post` walks `post`, `page`, `default`.

**The collection loops (`render_posts`, `render_pages`, `get_file_name`), `site.dfy`**
- Each loop walks a directory. For every file with a file name it renders the document and writes it to `<output dir>/<file name>`. It records `source path -> output path`.
- When the loop completes, the map replaces the site's `posts` or `pages`.
- The class `Site` holds the imperative versions:
  - `RenderLayouts` fills a mutable `Context` in place;
  - `RenderPost` and `RenderPage`;
  - the loop `RenderCollection`, shared by `RenderPosts` and `RenderPages`.
- Each method is proved against the function that specifies it.

**Collaborators, `collaborators.dfy`**
- The file system as read, the front-matter parser, the Tera template engine, the markdown converter and the permission to create an output file are fields of one `Env` value: the readable files are a map from path to text, the others are functions. Every result therefore holds whatever those collaborators do.
- Written files go to a `Disk` object.
- Every `unwrap`, `expect` and `?` of the source becomes an `Err` value of type `Error`, so a panic appears as an error result.

**Behaviour of the code that the model keeps:**
- An output path keeps only the source's file name and extension, so same-name documents in different subdirectories collide (`SameNameCollides`, `SameFileNameSameOutput`). It does not mirror the source tree.
- A layout whose header lacks a string `layout` key is a failure, not a terminal layout (`MissingParentFails`).
- The first failing document stops its collection loop (`FailureStops`). Failures are not isolated per document.
- Pages are not run through markdown.

## Model

| member | source | states |
|---|---|---|
| Collaborators.AsStr | src/main.rs:131-132 | a header value is present exactly when the key exists and holds a string, and it is that string |
| Collaborators.Context.Insert | src/main.rs:111-117 | inserting into the template context rebinds that one key and keeps the rest |
| Layouts.LayoutPathInjective | src/main.rs:218 | distinct layout names have distinct file paths `<base>/_layouts/<name>.html` |
| Layouts.LoadLayout | src/main.rs:218-223 | a layout loads exactly when its file exists and its header parses, giving the parser's split; a missing file is a read failure on that path |
| Layouts.Resolve | src/main.rs:217-240 | the guarded resolver: it loads the layout, fails with `LayoutCycle` on a revisit, renders the body, and either returns that rendering (terminal layout) or rebinds `content` and resolves the parent. A success has steps and is the last step's output; the first step is the named layout with the given variables; with no step the variables are unchanged. Its properties are the lemmas below, from `UnreadableLayoutFails` to `CycleGuard` |
| Layouts.UnreadableLayoutFails | src/main.rs:218-219 | resolving a layout whose file cannot be read fails with a read error on its path |
| Layouts.TerminalLayout | src/main.rs:233-239 | a layout without front matter is terminal: the result is its body rendered against the current variables (or a template failure), with one step and no recursion |
| Layouts.MissingParentFails | src/main.rs:224-226 | a header without a string `layout` key is a failure, not a terminal layout |
| Layouts.NestedLayout | src/main.rs:225-231 | a layout with a parent renders its body, binds that rendering to `content` and returns exactly what resolving the parent returns |
| Layouts.ResolveContinues | src/main.rs:225-231 | when a layout loads, names a parent and renders, its step comes first and the rest, the result and the final variables are those of the parent's resolution with `content` rebound |
| Layouts.ResolveStops | src/main.rs:219-239 | otherwise resolution keeps the variables, renders at most this layout, and succeeds exactly when the layout is terminal and renders |
| Layouts.ChainSteps | src/main.rs:217-240 | the chain starts at the named layout with the given variables; each step's output is its body rendered against the variables it saw; each step's parent is the next step, which sees this output as `content` |
| Layouts.ChainOutcome | src/main.rs:217-240 | a success is the output of the last step, which is terminal, and the variables at return differ from the starting ones only in `content` |
| Layouts.ChainShape | src/main.rs:217-240 | the chain starts at the named layout; every step's output is its body rendered against the variables it saw; each step's parent is the next step; each step rebinds only `content`, to the previous output; a success is the output of the last step, which is terminal |
| Layouts.ChainVisitsEachLayoutOnce | src/main.rs:217-240 | no layout is rendered twice in one chain |
| Layouts.SourceRenderLayouts | src/main.rs:217-240 | `render_layouts` as written, with no guard, followed up to a recursion depth: the same loads, renders and recursion as `Resolve`, and it never produces a cycle error. `GuardAgreesWithSource`, `SourceLoopsInClosedSet`, `CycleGuard` and `CyclicPairNeverReturns` relate it to `Resolve` |
| Layouts.GuardAgreesWithSource | src/main.rs:217-240 | whenever the cycle guard does not fire, the unguarded recursion returns the same result |
| Layouts.SourceLoopsInClosedSet | src/main.rs:225-231 | inside a set of layouts whose parents stay in the set, the unguarded recursion never returns anything but a template failure |
| Layouts.GuardFiresInClosedSet | src/main.rs:225-231 | inside such a set, guarded resolution ends in a cycle error or a template failure |
| Layouts.CycleErrorMeansClosedChain | src/main.rs:225-231 | a cycle error is raised only when the parent chain really closes on itself |
| Layouts.CycleGuard | src/main.rs:217-240 | the guard changes the result only on cyclic chains: off them the source's result is reproduced; a cycle error means the chain is cyclic; on a cyclic chain the guard fires or a template fails first, and the source never returns except through a template failure |
| Layouts.CyclicPairNeverReturns | src/main.rs:225-231 | for layouts `a` and `b` naming each other, the source recursion never returns at any depth |
| Layouts.CyclicPairIsCaught | src/main.rs:225-231 | on the same pair, guarded resolution from `a` fails with a cycle error on `a` |
| Documents.PostStart | src/main.rs:101-117 | a post fails on an unreadable file, a malformed header, missing front matter, a missing string `title` or a body that does not render, and it starts exactly when none of these happens; otherwise it starts at `post` with variables `title`, `site_name` and `content`, where `content` is the markdown of the body rendered against `title` and `site_name` |
| Documents.PageStart | src/main.rs:124-140 | a page fails on an unreadable file, a malformed header, missing front matter, a missing string `layout` or `title`, or a body that does not render, and it starts exactly when none of these happens; otherwise it starts at its own `layout`, with `content` being the body rendered (no markdown) against `title` and `site_name` |
| Documents.RenderedFrom | src/main.rs:119-121 | a failure before the layouts run is the document's result |
| Documents.RenderedPost | src/main.rs:101-122 | a post's start followed by its layout chain: a success means the post started and is the chain's result from `post` (see `PostChain`) |
| Documents.RenderedPage | src/main.rs:124-145 | a page's start followed by its layout chain: a success means the page started and is the chain's result from its own `layout` (see `PageChain`) |
| Documents.DocumentVarsReachEveryLayout | src/main.rs:111-117 | every layout of the chain, the outermost included, sees the document's `title` and `site_name` unchanged, with only `content` varying |
| Documents.PostChain | src/main.rs:108-121 | a rendered post is the result of the chain from `post`, and every layout in it sees the post's title and the site's name |
| Documents.PageChain | src/main.rs:131-144 | a rendered page is the result of the chain from its own `layout`, and every layout in it sees the page's title and the site's name |
| Scaffold.ScaffoldChain | src/main.rs:51-61 | with the scaffold layouts, resolution from `post` visits exactly `post`, `page`, `default` and returns the default template rendered with `content` bound to the page rendering of the post rendering; otherwise a template failure |
| SiteBuilder.LastSegment | src/main.rs:213-215 | the last path component is a suffix of the path without `/` and is preceded by `/` when shorter than the path |
| SiteBuilder.FileName | src/main.rs:213-215 | a file name, when present, is the path's last component: a suffix without `/`, preceded by `/` unless it is the whole path, non-empty and not `..`; it is absent exactly when that component is empty or `..` |
| SiteBuilder.LastSegmentAfterSlash | src/main.rs:159 | the last component of `dir + "/" + name` is `name` |
| SiteBuilder.OutputPathKeepsFileName | src/main.rs:159 | the output path's own file name is the source's file name |
| SiteBuilder.OutputPathInjective | src/main.rs:159 | within one output directory, different file names give different output paths |
| SiteBuilder.SameNameCollides | src/main.rs:157-159 | two different source paths with the same file name in different directories get the same file name, and so the same output path |
| SiteBuilder.RenderEntry | src/main.rs:154-170 | one pass of the loop body: metadata, file name, rendering, file creation and recording, each of which may end the loop. A failed batch is left as it is; the recorded and written maps only grow, by this entry's path at most. `RenderEntryCases` states its effect exactly |
| SiteBuilder.RenderEntries | src/main.rs:153-173 | the loop over the walk, entry by entry. The maps only grow, and a run that ends without failure began without one. `FailureStops`, `OutputsUseFileNameOnly` and `RecordsEveryFile` are its properties |
| SiteBuilder.RenderEntryCases | src/main.rs:154-167 | one entry either records a file under its file name and writes its rendering to that output path, or leaves the recorded and written maps unchanged |
| SiteBuilder.FailureStops | src/main.rs:162-165 | after the first failure nothing more is rendered, written or recorded |
| SiteBuilder.OutputsUseFileNameOnly | src/main.rs:157-167 | every recorded source maps to the output directory joined with the source's file name, and that output was written |
| SiteBuilder.SameFileNameSameOutput | src/main.rs:190-200 | two recorded sources with the same file name share one output path |
| SiteBuilder.RecordsEveryFile | src/main.rs:153-171 | a loop that meets no failure records exactly the file entries that have a file name |
| SiteBuilder.Disk.Write | src/main.rs:164-165 | creating and writing the file succeeds exactly when creation is permitted, and then replaces that file's contents |
| SiteBuilder.Site.constructor | src/main.rs:27-33 | a new site has its name and base directory and no posts or pages |
| SiteBuilder.Site.RenderLayouts | src/main.rs:217-240 | the result and the final template context are those of layout resolution from the context as given |
| SiteBuilder.Site.RenderPost | src/main.rs:101-122 | the result is the post's start followed by its layout chain |
| SiteBuilder.Site.RenderPage | src/main.rs:124-145 | the result is the page's start followed by its layout chain |
| SiteBuilder.Site.RenderCollection | src/main.rs:153-173 | the map recorded, the files written and the failure met are those of the entry-by-entry specification over the walk |
| SiteBuilder.Site.RenderPosts | src/main.rs:147-178 | posts go to `<base>/public/posts/<file name>`; `posts` is replaced by the recorded map only when the loop completes |
| SiteBuilder.Site.RenderPages | src/main.rs:180-211 | pages go to `<base>/public/<file name>`; `pages` is replaced by the recorded map only when the loop completes |

## Left out

- `Site::new` and `create_new_project` (src/main.rs:24-68): directory creation, `to_kebab_case` from the `heck` crate and the config file. Only the three layout strings are kept, in `Scaffold`.
- `build` and `create_build_folder` (src/main.rs:70-88): directory creation and sequencing. `build` discards the `Result` of `render_posts`, so a failed post write does not stop the build; this is not modelled.
- `markdown_to_html` (src/main.rs:90-99), `Tera::one_off` and `front_matter::parse_and_find_content` are foreign code. They are uninterpreted fields of `Env`: the front-matter parser's source is not part of this model.
- `WalkDir`: the walk is given as a sequence of entries, already filtered of walk errors as `filter_map(|e| e.ok())` does. Entry order is the walk's order.
- `entry.metadata()`, `File::create` and `write_all` are parameters: metadata is a field of each entry, and creation is a predicate of `Env`. A partial write (create succeeds, write fails) is folded into one failure.
- Reads come from a snapshot that writes do not change. A layout or document written during the build is not re-read.
- All `println!` output, and `main` (src/main.rs:243-246).
- Panics (`unwrap`, `expect`) and `?` returns are both modelled as `Err`. A panic's unwinding of the whole process is not distinguished.
- Non-string front-matter values are one constructor. The YAML structure is not modelled.
- SiteBuilder.FileName: modelled as the text after the last `/`, absent when empty or `..`. Rust's path normalisation (trailing `/`, a final `.` component) and the `OsStr::to_str` failure on non-UTF-8 names are not modelled. Walk entries for files contain neither.
- SiteBuilder.Site.RenderLayouts: adds a guard the source lacks. A layout already on the chain fails with `LayoutCycle` instead of recursing forever. `Layouts.CycleGuard` proves that this changes the result only on cyclic chains.

## Findings

| source | as written | input that shows it | evidently intended | confidence | as-written member | corrected member |
|---|---|---|---|---|---|---|
| src/main.rs:225-231 | `render_layouts` recurses into the parent named by `layout` with no record of the layouts already entered | layout `a` with `layout: b` and layout `b` with `layout: a` (`Layouts.CyclicPair`) | a cyclic chain is reported as an error | high; not executed | Layouts.CyclicPairNeverReturns | Layouts.CyclicPairIsCaught |
