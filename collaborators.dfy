/** The parts of the site generator that this model does not compute itself:
    the file system as it is read, the front-matter splitter, the template
    engine, the markdown converter and the permission to create output files.
    They are passed around as one `Env` value, so every property proved
    here holds whatever these collaborators do. The module also holds the
    shared value types: front matter, rendering variables, errors, and the
    mutable template context. */
module Collaborators {

  datatype Option<+T> = None | Some(value: T)

  /** Every `unwrap`, `expect` and `?` of the pipeline ends in one of these. */
  datatype Error =
    | ReadFailed(path: string)            // fs::read_to_string(..).unwrap()
    | MalformedFrontMatter(path: string)  // parse_and_find_content(..).unwrap()
    | MissingFrontMatter(path: string)    // matter.unwrap()
    | MissingField(field: string)         // matter[field].as_str().unwrap()
    | TemplateFailed(path: string)        // Tera::one_off(..).expect(..)
    | MetadataFailed(path: string)        // entry.metadata().unwrap()
    | CreateFailed(path: string)          // File::create(..)? / write_all(..)?
    | LayoutCycle(name: string)           // the model's guard against a cyclic layout chain

  datatype Result<+T> = Ok(value: T) | Err(error: Error)

  /** A front-matter value: only string values matter to the pipeline. */
  datatype Yaml = Text(s: string) | NonText

  type FrontMatter = map<string, Yaml>

  /** What the front-matter parser makes of a file: an optional header and the rest. */
  datatype Split = Split(matter: Option<FrontMatter>, body: string)

  /** The variables a template is rendered against. */
  type Vars = map<string, string>

  datatype Env = Env(
    sources: map<string, string>,               // readable files, by path
    parse: string -> Option<Split>,             // None: malformed header
    render: (string, Vars) -> Option<string>,   // None: template error
    markdown: string -> string,
    canCreate: string -> bool                   // File::create and write_all succeed
  )

  /** `matter[key].as_str()`: a missing key and a non-string value both give None. */
  function AsStr(matter: FrontMatter, key: string): (r: Option<string>)
    ensures r.Some? <==> key in matter && matter[key].Text?
    ensures r.Some? ==> matter[key] == Text(r.value)
  {
    if key in matter && matter[key].Text? then Some(matter[key].s) else None
  }

  /** The template context, which the pipeline fills in place. */
  class Context {
    var vars: Vars

    constructor ()
      ensures vars == map[]
    {
      vars := map[];
    }

    method Insert(key: string, value: string)
      modifies this
      ensures vars == old(vars)[key := value]
    {
      vars := vars[key := value];
    }
  }
}
