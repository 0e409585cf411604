/** `Shader::from_file` of `shader.rs`: the file extension picks the shader stage before
    the file is opened. Opening and reading the file and compiling the source
    (`Shader::from_string`) are external effects and arrive as parameters. */
module Shaders {
  import opened GL
  import opened Results

  /** A shader object created by the device; `resource` is its GL name. */
  datatype Shader = Shader(resource: nat)

  datatype ShaderError =
    | UnsupportedExtension(extension: string)
    | CouldNotOpenFile(path: string)
    | CompileError(log: string)
    | Other

  /** What `Path::extension` found: an extension that is valid UTF-8, or one that is not. */
  datatype OsExtension = Utf8(text: string) | NotUtf8

  /** The stages `GLShaderResource::new` accepts; any other type panics there. */
  predicate ResourceAccepts(shaderType: GLenum) {
    shaderType == VERTEX_SHADER || shaderType == GEOMETRY_SHADER || shaderType == FRAGMENT_SHADER
  }

  /** The extension match at the top of `from_file`. */
  function Classify(ext: Option<OsExtension>): (r: Result<GLenum, ShaderError>)
    ensures ext == Some(Utf8("geom")) <==> r == Ok(GEOMETRY_SHADER)
    ensures ext == Some(Utf8("frag")) <==> r == Ok(FRAGMENT_SHADER)
    ensures ext == Some(Utf8("vert")) <==> r == Ok(VERTEX_SHADER)
    ensures r.Ok? ==> ResourceAccepts(r.value)
    ensures ext.Some? && ext.value.Utf8? && ext.value.text !in {"geom", "frag", "vert"} ==>
      r == Err(UnsupportedExtension(ext.value.text))
    ensures (ext.None? || ext.value.NotUtf8?) <==> r == Err(Other)
  {
    match ext
    case Some(Utf8(s)) =>
      if s == "geom" then Ok(GEOMETRY_SHADER)
      else if s == "frag" then Ok(FRAGMENT_SHADER)
      else if s == "vert" then Ok(VERTEX_SHADER)
      else Err(UnsupportedExtension(s))
    case _ => Err(Other)
  }

  /** What opening and reading the file gave: it could not be opened, it opened but
      `read_to_string` failed (an I/O error or text that is not UTF-8), or its text. */
  datatype FileRead = NotOpened | Unreadable | Text(code: string)

  /** How `from_file` ends: it returns, or the `expect` on `read_to_string` panics. */
  datatype FromFileOutcome = Returned(result: Result<Shader, ShaderError>) | ReadPanic

  /** `Shader::from_file(path)`: `ext` is `path.extension()`, `file` what opening and
      reading the file gave, and `fromString` stands for `Shader::from_string`. */
  function FromFile(path: string, ext: Option<OsExtension>, file: FileRead,
                    fromString: (string, GLenum) -> Result<Shader, ShaderError>)
    : (r: FromFileOutcome)
    ensures Classify(ext).Err? ==> r == Returned(Err(Classify(ext).error))
    ensures Classify(ext).Err? ==> !r.result.error.CouldNotOpenFile? && !r.result.error.CompileError?
    ensures Classify(ext).Ok? && file.NotOpened? ==> r == Returned(Err(CouldNotOpenFile(path)))
    ensures r.ReadPanic? <==> Classify(ext).Ok? && file.Unreadable?
    ensures Classify(ext).Ok? && file.Text? ==>
      ResourceAccepts(Classify(ext).value) && r == Returned(fromString(file.code, Classify(ext).value))
  {
    match Classify(ext)
    case Err(e) => Returned(Err(e))
    case Ok(shaderType) =>
      match file
      case NotOpened => Returned(Err(CouldNotOpenFile(path)))
      case Unreadable => ReadPanic
      case Text(code) => Returned(fromString(code, shaderType))
  }
}
