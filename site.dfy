/** The site object and its two collection loops, `render_posts` and
    `render_pages`. Each loop walks the entries under its source directory,
    and for every file renders it, writes the result to the output
    directory under the file's bare name, and records source path to
    output path; the map replaces the site's `posts` or `pages` at the end.
    The directory walk is given as a sequence of entries. */
module SiteBuilder {
  import opened Collaborators
  import opened Layouts
  import opened Documents

  datatype Collection = Posts | Pages

  /** One entry of the directory walk; `isFile` is None when reading its metadata fails. */
  datatype DirEntry = DirEntry(path: string, isFile: Option<bool>)

  /** The text after the last `/`. */
  function LastSegment(path: string): (s: string)
    ensures '/' !in s
    ensures |s| <= |path| && s == path[|path| - |s|..]
    ensures |s| < |path| ==> path[|path| - |s| - 1] == '/'
    decreases |path|
  {
    if |path| == 0 || path[|path| - 1] == '/' then ""
    else LastSegment(path[..|path| - 1]) + [path[|path| - 1]]
  }

  /** `entry.path().file_name()`: the last component, absent for an empty one or `..`. */
  function FileName(path: string): (r: Option<string>)
    ensures r.Some? ==> r.value != "" && r.value != ".." && '/' !in r.value
    ensures r.Some? ==> && |r.value| <= |path| && r.value == path[|path| - |r.value|..]
                        && (|r.value| < |path| ==> path[|path| - |r.value| - 1] == '/')
    ensures r.None? <==> LastSegment(path) == "" || LastSegment(path) == ".."
  {
    var s := LastSegment(path);
    if s == "" || s == ".." then None else Some(s)
  }

  function OutputDir(base: string, kind: Collection): string
  {
    match kind
    case Posts => base + "/public/posts"
    case Pages => base + "/public"
  }

  /** `format!("{}/{}", output_dir, file_name)` */
  function OutputPath(outputDir: string, fileName: string): string
  {
    outputDir + "/" + fileName
  }

  lemma {:induction false} LastSegmentAfterSlash(dir: string, name: string)
    requires '/' !in name
    ensures LastSegment(dir + "/" + name) == name
    decreases |name|
  {
    var p := dir + "/" + name;
    if name != [] {
      var init := name[..|name| - 1];
      assert p[..|p| - 1] == dir + "/" + init;
      assert p[|p| - 1] == name[|name| - 1];
      LastSegmentAfterSlash(dir, init);
      assert name == init + [name[|name| - 1]];
    }
  }

  /** The output path keeps the file name of the source, and nothing else of it. */
  lemma OutputPathKeepsFileName(outputDir: string, name: string)
    requires FileName(name) == Some(name)
    ensures FileName(OutputPath(outputDir, name)) == Some(name)
  {
    LastSegmentAfterSlash(outputDir, name);
  }

  lemma OutputPathInjective(outputDir: string, n1: string, n2: string)
    ensures OutputPath(outputDir, n1) == OutputPath(outputDir, n2) ==> n1 == n2
  {
    if OutputPath(outputDir, n1) == OutputPath(outputDir, n2) {
      var k := |outputDir| + 1;
      assert n1 == OutputPath(outputDir, n1)[k..];
      assert n2 == OutputPath(outputDir, n2)[k..];
    }
  }

  /** Two sources in different directories with the same file name, such as
      `posts/2024/hello.md` and `posts/2023/hello.md`, have that file name,
      and so the same output path. */
  lemma {:induction false} SameNameCollides(dir1: string, dir2: string, name: string, outputDir: string)
    requires '/' !in name && name != "" && name != ".."
    ensures FileName(dir1 + "/" + name) == FileName(dir2 + "/" + name) == Some(name)
    ensures dir1 != dir2 ==> dir1 + "/" + name != dir2 + "/" + name
  {
    LastSegmentAfterSlash(dir1, name);
    LastSegmentAfterSlash(dir2, name);
    if dir1 + "/" + name == dir2 + "/" + name {
      assert |dir1| == |dir2|;
      assert dir1 == (dir1 + "/" + name)[..|dir1|];
      assert dir2 == (dir2 + "/" + name)[..|dir2|];
    }
  }

  // ---------------------------------------------------------------------------
  // What a collection loop does, entry by entry

  /** Source path to output path, the files written so far, and the failure that stopped the loop. */
  datatype Batch = Batch(recorded: map<string, string>, written: map<string, string>, failure: Option<Error>)

  const NoBatch := Batch(map[], map[], None)

  function Rendered(env: Env, base: string, siteName: string, kind: Collection, path: string): Result<string>
  {
    match kind
    case Posts => RenderedPost(env, base, siteName, path)
    case Pages => RenderedPage(env, base, siteName, path)
  }

  /** The document renderer a collection uses, as a function of the source path. */
  function Renderer(env: Env, base: string, siteName: string, kind: Collection): string -> Result<string>
  {
    path => Rendered(env, base, siteName, kind, path)
  }

  /** An entry is recorded when it is a file with a file name. */
  predicate Recordable(entry: DirEntry)
  {
    entry.isFile == Some(true) && FileName(entry.path).Some?
  }

  /** One pass of the loop body: the entry's metadata, its file name, its
      rendering and the write, each of which may end the loop. */
  function RenderEntry(env: Env, outputDir: string, render: string -> Result<string>, b: Batch, entry: DirEntry): (r: Batch)
    ensures b.failure.Some? ==> r == b
    ensures b.recorded.Keys <= r.recorded.Keys && b.written.Keys <= r.written.Keys
    ensures r.recorded.Keys <= b.recorded.Keys + {entry.path}
  {
    if b.failure.Some? then b
    else match entry.isFile
      case None => b.(failure := Some(MetadataFailed(entry.path)))
      case Some(isFile) =>
        if !isFile then b
        else match FileName(entry.path)
          case None => b
          case Some(name) =>
            var outputPath := OutputPath(outputDir, name);
            match render(entry.path)
            case Err(e) => b.(failure := Some(e))
            case Ok(html) =>
              if !env.canCreate(outputPath) then b.(failure := Some(CreateFailed(outputPath)))
              else Batch(b.recorded[entry.path := outputPath], b.written[outputPath := html], None)
  }

  /** The loop: the entries in walk order, each through `RenderEntry`. */
  function RenderEntries(env: Env, outputDir: string, render: string -> Result<string>, b: Batch, entries: seq<DirEntry>): (r: Batch)
    ensures b.recorded.Keys <= r.recorded.Keys && b.written.Keys <= r.written.Keys
    ensures r.failure.None? ==> b.failure.None?
    decreases |entries|
  {
    if entries == [] then b
    else RenderEntries(env, outputDir, render, RenderEntry(env, outputDir, render, b, entries[0]), entries[1..])
  }

  /** The loop from entry `i` on is entry `i` followed by the loop from `i + 1` on. */
  lemma RenderEntriesFrom(env: Env, outputDir: string, render: string -> Result<string>, b: Batch, entries: seq<DirEntry>, i: nat)
    requires i < |entries|
    ensures RenderEntries(env, outputDir, render, b, entries[i..])
         == RenderEntries(env, outputDir, render, RenderEntry(env, outputDir, render, b, entries[i]), entries[i + 1..])
  {
    assert entries[i..][0] == entries[i] && entries[i..][1..] == entries[i + 1..];
  }

  /** The first failure stops the loop: nothing after it is rendered, written or recorded. */
  lemma {:induction false} FailureStops(env: Env, outputDir: string, render: string -> Result<string>, b: Batch, entries: seq<DirEntry>)
    requires b.failure.Some?
    ensures RenderEntries(env, outputDir, render, b, entries) == b
    decreases |entries|
  {
    if entries != [] {
      FailureStops(env, outputDir, render, b, entries[1..]);
    }
  }

  /** Every recorded source maps to the output directory joined with its own
      file name, and that output path has been written. */
  ghost predicate RecordsFileNames(b: Batch, outputDir: string)
  {
    forall p | p in b.recorded ::
      && FileName(p).Some?
      && b.recorded[p] == OutputPath(outputDir, FileName(p).value)
      && b.recorded[p] in b.written
  }

  /** One entry either records a file under its file name and writes its
      rendering there, or leaves the recorded and written maps alone. */
  lemma RenderEntryCases(env: Env, outputDir: string, render: string -> Result<string>, b: Batch, entry: DirEntry)
    ensures var next := RenderEntry(env, outputDir, render, b, entry);
      if next.failure.None? && Recordable(entry) then
        && render(entry.path).Ok?
        && var outputPath := OutputPath(outputDir, FileName(entry.path).value);
           next.recorded == b.recorded[entry.path := outputPath]
           && next.written == b.written[outputPath := render(entry.path).value]
      else
        next.recorded == b.recorded && next.written == b.written
  {
    var next := RenderEntry(env, outputDir, render, b, entry);
    if b.failure.None? && Recordable(entry) && render(entry.path).Ok?
       && env.canCreate(OutputPath(outputDir, FileName(entry.path).value)) {
      var outputPath := OutputPath(outputDir, FileName(entry.path).value);
      assert next == Batch(b.recorded[entry.path := outputPath], b.written[outputPath := render(entry.path).value], None);
    } else {
      assert next.recorded == b.recorded && next.written == b.written;
      assert !(next.failure.None? && Recordable(entry)) by {
        if b.failure.None? && Recordable(entry) {
          assert next.failure.Some?;
        }
      }
    }
  }

  lemma RecordFileNamePreserved(b: Batch, outputDir: string, path: string, name: string, html: string)
    requires RecordsFileNames(b, outputDir)
    requires FileName(path) == Some(name)
    ensures RecordsFileNames(Batch(b.recorded[path := OutputPath(outputDir, name)],
                                   b.written[OutputPath(outputDir, name) := html], b.failure), outputDir)
  {
    var outputPath := OutputPath(outputDir, name);
    var next := Batch(b.recorded[path := outputPath], b.written[outputPath := html], b.failure);
    forall p | p in next.recorded
      ensures && FileName(p).Some?
              && next.recorded[p] == OutputPath(outputDir, FileName(p).value)
              && next.recorded[p] in next.written
    {
      if p != path {
        assert next.recorded[p] == b.recorded[p];
      }
    }
  }

  lemma RenderEntryRecordsFileName(env: Env, outputDir: string, render: string -> Result<string>, b: Batch, entry: DirEntry)
    requires RecordsFileNames(b, outputDir)
    ensures RecordsFileNames(RenderEntry(env, outputDir, render, b, entry), outputDir)
  {
    var next := RenderEntry(env, outputDir, render, b, entry);
    RenderEntryCases(env, outputDir, render, b, entry);
    if !(next.failure.None? && Recordable(entry)) {
      assert RecordsFileNames(Batch(next.recorded, next.written, None), outputDir);
    } else {
      RecordFileNamePreserved(b, outputDir, entry.path, FileName(entry.path).value, render(entry.path).value);
      assert next.recorded == b.recorded[entry.path := OutputPath(outputDir, FileName(entry.path).value)];
    }
  }

  lemma {:induction false} OutputsUseFileNameOnly(env: Env, outputDir: string, render: string -> Result<string>, b: Batch, entries: seq<DirEntry>)
    requires RecordsFileNames(b, outputDir)
    ensures RecordsFileNames(RenderEntries(env, outputDir, render, b, entries), outputDir)
    decreases |entries|
  {
    if entries != [] {
      var next := RenderEntry(env, outputDir, render, b, entries[0]);
      RenderEntryRecordsFileName(env, outputDir, render, b, entries[0]);
      OutputsUseFileNameOnly(env, outputDir, render, next, entries[1..]);
    }
  }

  /** Sources of the same file name, in whatever subdirectories, share one output path. */
  lemma SameFileNameSameOutput(env: Env, outputDir: string, render: string -> Result<string>, entries: seq<DirEntry>, p1: string, p2: string)
    requires var b := RenderEntries(env, outputDir, render, NoBatch, entries);
      p1 in b.recorded && p2 in b.recorded
    requires FileName(p1) == FileName(p2)
    ensures var b := RenderEntries(env, outputDir, render, NoBatch, entries);
      b.recorded[p1] == b.recorded[p2]
  {
    OutputsUseFileNameOnly(env, outputDir, render, NoBatch, entries);
  }

  /** The paths of the recordable entries. */
  ghost function RecordablePaths(entries: seq<DirEntry>): set<string>
  {
    set i | 0 <= i < |entries| && Recordable(entries[i]) :: entries[i].path
  }

  lemma RecordablePathsCons(entries: seq<DirEntry>)
    requires entries != []
    ensures RecordablePaths(entries)
         == (if Recordable(entries[0]) then {entries[0].path} else {}) + RecordablePaths(entries[1..])
  {
    forall p | p in RecordablePaths(entries)
      ensures p in (if Recordable(entries[0]) then {entries[0].path} else {}) + RecordablePaths(entries[1..])
    {
      var i :| 0 <= i < |entries| && Recordable(entries[i]) && entries[i].path == p;
      if i > 0 {
        assert entries[1..][i - 1] == entries[i];
      }
    }
    forall p | p in RecordablePaths(entries[1..])
      ensures p in RecordablePaths(entries)
    {
      var i :| 0 <= i < |entries[1..]| && Recordable(entries[1..][i]) && entries[1..][i].path == p;
      assert entries[i + 1] == entries[1..][i];
    }
  }

  lemma RenderEntryRecords(env: Env, outputDir: string, render: string -> Result<string>, b: Batch, entry: DirEntry)
    ensures var next := RenderEntry(env, outputDir, render, b, entry);
      next.failure.None? ==> next.recorded.Keys == b.recorded.Keys + (if Recordable(entry) then {entry.path} else {})
  {
    RenderEntryCases(env, outputDir, render, b, entry);
  }

  /** A loop that meets no failure records exactly the files that have a file name. */
  lemma {:induction false} RecordsEveryFile(env: Env, outputDir: string, render: string -> Result<string>, b: Batch, entries: seq<DirEntry>)
    requires RenderEntries(env, outputDir, render, b, entries).failure.None?
    ensures RenderEntries(env, outputDir, render, b, entries).recorded.Keys == b.recorded.Keys + RecordablePaths(entries)
    decreases |entries|
  {
    if entries == [] {
      assert RecordablePaths(entries) == {};
    } else {
      var next := RenderEntry(env, outputDir, render, b, entries[0]);
      RenderEntryRecords(env, outputDir, render, b, entries[0]);
      RecordsEveryFile(env, outputDir, render, next, entries[1..]);
      RecordablePathsCons(entries);
    }
  }

  // ---------------------------------------------------------------------------
  // The state the loops change

  lemma UnionUpdate(a: map<string, string>, b: map<string, string>, k: string, v: string)
    ensures (a + b)[k := v] == a + b[k := v]
  {
  }

  /** The output files written so far. */
  class Disk {
    var files: map<string, string>

    constructor ()
      ensures files == map[]
    {
      files := map[];
    }

    /** `File::create(path)?` then `write_all(..)?`. */
    method Write(env: Env, path: string, text: string) returns (r: Result<()>)
      modifies this
      ensures r.Ok? <==> env.canCreate(path)
      ensures r.Err? ==> r.error == CreateFailed(path)
      ensures files == if r.Ok? then old(files)[path := text] else old(files)
    {
      if !env.canCreate(path) {
        return Err(CreateFailed(path));
      }
      files := files[path := text];
      r := Ok(());
    }
  }

  class Site {
    const siteName: string
    const baseDir: string
    var posts: map<string, string>
    var pages: map<string, string>

    constructor (siteName: string, baseDir: string)
      ensures this.siteName == siteName && this.baseDir == baseDir
      ensures posts == map[] && pages == map[]
    {
      this.siteName := siteName;
      this.baseDir := baseDir;
      posts := map[];
      pages := map[];
    }

    /** `render_layouts`: fills `content` in the context it is given as it
        walks up the chain. */
    method RenderLayouts(env: Env, variant: string, context: Context, visited: set<string>) returns (r: Result<string>)
      modifies context
      ensures var resolution := Resolve(env, baseDir, visited, variant, old(context.vars));
        r == resolution.result && context.vars == resolution.vars
      decreases |Unvisited(env, baseDir, visited)|
    {
      var layoutPath := LayoutPath(baseDir, variant);
      var layout := LoadLayout(env, baseDir, variant);
      if layout.Err? {
        return Err(layout.error);
      }
      if variant in visited {
        return Err(LayoutCycle(variant));
      }
      var split := layout.value;
      if split.matter.Some? {
        var nestedLayout := AsStr(split.matter.value, "layout");
        if nestedLayout.None? {
          return Err(MissingField("layout"));
        }
        var layoutOutput := env.render(split.body, context.vars);
        if layoutOutput.None? {
          return Err(TemplateFailed(layoutPath));
        }
        context.Insert("content", layoutOutput.value);
        UnvisitedShrinks(env, baseDir, visited, variant);
        r := RenderLayouts(env, nestedLayout.value, context, visited + {variant});
        return;
      }
      var layoutOutput := env.render(split.body, context.vars);
      if layoutOutput.None? {
        return Err(TemplateFailed(layoutPath));
      }
      r := Ok(layoutOutput.value);
    }

    method RenderPost(env: Env, path: string) returns (r: Result<string>)
      ensures r == RenderedPost(env, baseDir, siteName, path)
    {
      if path !in env.sources {
        return Err(ReadFailed(path));
      }
      var input := env.sources[path];
      var parsed := env.parse(input);
      if parsed.None? {
        return Err(MalformedFrontMatter(path));
      }
      var markdownOutput := env.markdown(parsed.value.body);
      if parsed.value.matter.None? {
        return Err(MissingFrontMatter(path));
      }
      var matter := parsed.value.matter.value;
      var layout := "post";
      var title := AsStr(matter, "title");
      if title.None? {
        return Err(MissingField("title"));
      }
      var context := new Context();
      context.Insert("title", title.value);
      context.Insert("site_name", siteName);
      var postOutput := env.render(markdownOutput, context.vars);
      if postOutput.None? {
        return Err(TemplateFailed(path));
      }
      context.Insert("content", postOutput.value);
      r := RenderLayouts(env, layout, context, {});
    }

    method RenderPage(env: Env, path: string) returns (r: Result<string>)
      ensures r == RenderedPage(env, baseDir, siteName, path)
    {
      if path !in env.sources {
        return Err(ReadFailed(path));
      }
      var input := env.sources[path];
      var parsed := env.parse(input);
      if parsed.None? {
        return Err(MalformedFrontMatter(path));
      }
      if parsed.value.matter.None? {
        return Err(MissingFrontMatter(path));
      }
      var matter := parsed.value.matter.value;
      var layout := AsStr(matter, "layout");
      if layout.None? {
        return Err(MissingField("layout"));
      }
      var title := AsStr(matter, "title");
      if title.None? {
        return Err(MissingField("title"));
      }
      var context := new Context();
      context.Insert("title", title.value);
      context.Insert("site_name", siteName);
      var pageOutput := env.render(parsed.value.body, context.vars);
      if pageOutput.None? {
        return Err(TemplateFailed(path));
      }
      context.Insert("content", pageOutput.value);
      r := RenderLayouts(env, layout.value, context, {});
    }

    /** The loop body shared by `render_posts` and `render_pages`. */
    method RenderCollection(env: Env, kind: Collection, walk: seq<DirEntry>, disk: Disk)
      returns (recorded: map<string, string>, r: Result<()>)
      modifies disk
      ensures var b := RenderEntries(env, OutputDir(baseDir, kind), Renderer(env, baseDir, siteName, kind), NoBatch, walk);
        && recorded == b.recorded
        && disk.files == old(disk.files) + b.written
        && (r.Ok? <==> b.failure.None?)
        && (r.Err? ==> b.failure == Some(r.error))
    {
      var outputDir := OutputDir(baseDir, kind);
      ghost var render := Renderer(env, baseDir, siteName, kind);
      recorded := map[];
      ghost var written: map<string, string> := map[];
      var i := 0;
      while i < |walk|
        invariant 0 <= i <= |walk|
        invariant disk.files == old(disk.files) + written
        invariant RenderEntries(env, outputDir, render, Batch(recorded, written, None), walk[i..])
               == RenderEntries(env, outputDir, render, NoBatch, walk)
      {
        var entry := walk[i];
        ghost var b := Batch(recorded, written, None);
        RenderEntriesFrom(env, outputDir, render, b, walk, i);
        ghost var next := RenderEntry(env, outputDir, render, b, entry);
        if entry.isFile.None? {
          assert next.failure == Some(MetadataFailed(entry.path));
          FailureStops(env, outputDir, render, next, walk[i + 1..]);
          return recorded, Err(MetadataFailed(entry.path));
        }
        if entry.isFile.value {
          var fileName := FileName(entry.path);
          if fileName.Some? {
            var outputPath := OutputPath(outputDir, fileName.value);
            var output;
            if kind == Posts {
              output := RenderPost(env, entry.path);
            } else {
              output := RenderPage(env, entry.path);
            }
            assert output == render(entry.path);
            if output.Err? {
              assert next.failure == Some(output.error);
              FailureStops(env, outputDir, render, next, walk[i + 1..]);
              return recorded, Err(output.error);
            }
            var created := disk.Write(env, outputPath, output.value);
            if created.Err? {
              assert next.failure == Some(CreateFailed(outputPath));
              FailureStops(env, outputDir, render, next, walk[i + 1..]);
              return recorded, created;
            }
            assert next == Batch(recorded[entry.path := outputPath], written[outputPath := output.value], None);
            UnionUpdate(old(disk.files), written, outputPath, output.value);
            recorded := recorded[entry.path := outputPath];
            written := written[outputPath := output.value];
          } else {
            assert next == b;
          }
        } else {
          assert next == b;
        }
        assert Batch(recorded, written, None) == next;
        i := i + 1;
      }
      r := Ok(());
    }

    /** `render_posts`: the recorded map replaces `posts` only when the loop completes. */
    method RenderPosts(env: Env, walk: seq<DirEntry>, disk: Disk) returns (r: Result<()>)
      modifies this`posts, disk
      ensures var b := RenderEntries(env, OutputDir(baseDir, Posts), Renderer(env, baseDir, siteName, Posts), NoBatch, walk);
        && disk.files == old(disk.files) + b.written
        && (r.Ok? <==> b.failure.None?)
        && (r.Err? ==> b.failure == Some(r.error))
        && posts == if r.Ok? then b.recorded else old(posts)
    {
      var recorded;
      recorded, r := RenderCollection(env, Posts, walk, disk);
      if r.Ok? {
        posts := recorded;
      }
    }

    /** `render_pages`: the recorded map replaces `pages` only when the loop completes. */
    method RenderPages(env: Env, walk: seq<DirEntry>, disk: Disk) returns (r: Result<()>)
      modifies this`pages, disk
      ensures var b := RenderEntries(env, OutputDir(baseDir, Pages), Renderer(env, baseDir, siteName, Pages), NoBatch, walk);
        && disk.files == old(disk.files) + b.written
        && (r.Ok? <==> b.failure.None?)
        && (r.Err? ==> b.failure == Some(r.error))
        && pages == if r.Ok? then b.recorded else old(pages)
    {
      var recorded;
      recorded, r := RenderCollection(env, Pages, walk, disk);
      if r.Ok? {
        pages := recorded;
      }
    }
  }
}
