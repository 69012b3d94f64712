/** The source-map upload and error-restoration handlers of backend/index.js as functions from
    a request and the server's filesystem to a response. The HTTP framework is gone; the
    stack parser, the source-map reader, the code formatter and path joining are the
    abstract functions carried by `Libraries`. */
module Backend {
  import opened Wrappers

  /** A frame as the stack parser reports it. */
  datatype StackFrame = StackFrame(
    functionName: Option<string>,
    fileName: Option<string>,
    lineNumber: Option<int>,
    columnNumber: Option<int>)

  /** What a source map answers for a generated position; absent fields are null. */
  datatype OriginalPosition = OriginalPosition(
    source: Option<string>,
    line: Option<int>,
    column: Option<int>,
    name: Option<string>)

  /** A loaded source map: generated (line, column) to original position. */
  type SourceMap = (Option<int>, Option<int>) -> OriginalPosition

  /** The foreign libraries. A function that can throw returns a Result. */
  datatype Libraries = Libraries(
    parseStack: string -> Result<seq<StackFrame>>,
    openSourceMap: string -> Result<SourceMap>,
    format: string -> Result<string>,
    join: (string, string) -> string)

  /** The server's files: the paths that exist, and the text of those that can be read. */
  datatype FileSystem = FileSystem(paths: set<string>, contents: map<string, string>)

  /** A response field holding either a resolved number or a placeholder text. */
  datatype Field = Num(n: int) | Text(s: string)

  datatype RestoredFrame = RestoredFrame(
    functionName: Option<string>,
    fileName: Option<string>,
    lineNumber: Option<int>,
    columnNumber: Option<int>,
    originalSource: string,
    originalLine: Field,
    originalColumn: Field,
    originalFunctionName: string,
    sourceContent: string)

  /** HTTP status and JSON body `{ code, message, data?, error? }`. */
  datatype Response = Response(
    status: nat,
    code: int,
    message: string,
    data: Option<seq<RestoredFrame>>,
    error: Option<string>)

  datatype RestoreRequest = RestoreRequest(stack: Option<string>, appVersion: Option<string>)

  /** A multipart upload: the `version` field and the `sourcemap` file's text. */
  datatype UploadRequest = UploadRequest(version: Option<string>, file: Option<string>)

  datatype UploadOutcome = UploadOutcome(fs: FileSystem, response: Response)

  const BackendDir: string := "backend"
  const ArtifactPrefix: string := "monitor-sdk-"
  const ArtifactSuffix: string := ".js.map"

  const UnknownSource: string := "未知源码文件"
  const UnknownLine: string := "未知行号"
  const UnknownColumn: string := "未知列号"
  const UnknownFunction: string := "未知函数名"
  const SourceNotFound: string := "源码文件未找到"
  const MissingStackOrVersion: string := "缺少错误堆栈或应用版本"
  const RestoreSucceeded: string := "错误还原成功"
  const RestoreFailed: string := "错误还原失败"
  const MissingVersionOrFile: string := "缺少版本号或SourceMap文件"
  const UploadSucceeded: string := "SourceMap上传成功"

  /** JavaScript truthiness of a string that may be absent. */
  predicate Truthy(s: Option<string>)
  {
    s.Some? && s.value != ""
  }

  /** `${v}` in a template literal: an absent value prints as "undefined". */
  function TemplateText(v: Option<string>): string
  {
    if v.Some? then v.value else "undefined"
  }

  function NotFoundMessage(version: string): string
  {
    "未找到版本" + version + "的SourceMap文件"
  }

  function SourcemapDir(libs: Libraries): string
  {
    libs.join(libs.join(BackendDir, "storage"), "sourcemaps")
  }

  /** The one naming rule for a version's source map, shared by upload and lookup. */
  function ArtifactName(version: string): string
  {
    ArtifactPrefix + version + ArtifactSuffix
  }

  function ArtifactPath(libs: Libraries, version: string): string
  {
    libs.join(SourcemapDir(libs), ArtifactName(version))
  }

  /** The version an artifact file name was stored under, if it follows the naming rule. */
  function VersionOfArtifact(name: string): (v: Option<string>)
    ensures v.Some? ==> |v.value| + |ArtifactPrefix| + |ArtifactSuffix| == |name|
  {
    if |name| >= |ArtifactPrefix| + |ArtifactSuffix|
       && name[..|ArtifactPrefix|] == ArtifactPrefix
       && name[|name| - |ArtifactSuffix|..] == ArtifactSuffix
    then Some(name[|ArtifactPrefix|..|name| - |ArtifactSuffix|])
    else None
  }

  lemma ArtifactNameRoundTrip(version: string)
    ensures VersionOfArtifact(ArtifactName(version)) == Some(version)
  {
  }

  lemma ArtifactOfVersion(name: string)
    requires VersionOfArtifact(name).Some?
    ensures ArtifactName(VersionOfArtifact(name).value) == name
  {
  }

  /** Lookup is by exact version: two versions share an artifact name only if they are equal. */
  lemma ArtifactNameInjective(v1: string, v2: string)
    ensures ArtifactName(v1) == ArtifactName(v2) <==> v1 == v2
  {
    ArtifactNameRoundTrip(v1);
    ArtifactNameRoundTrip(v2);
  }

  /** `fs.readFile` in this filesystem abstraction: it fails on a path that exists but cannot
      be read (a directory, say). */
  function ReadFile(fs: FileSystem, path: string): Result<string>
  {
    if path in fs.contents then Ok(fs.contents[path]) else Err("cannot read " + path)
  }

  /** The upload route. The disk storage writes the file under the name derived from the
      `version` field before the handler runs, so a request rejected with 400 for a missing
      version still leaves a file named after "undefined" (or the empty version). */
  function UploadSourcemap(fs: FileSystem, req: UploadRequest, libs: Libraries): (out: UploadOutcome)
    ensures out.response.status == 400 <==> !Truthy(req.version) || req.file.None?
    ensures out.response.status == 200 <==> Truthy(req.version) && req.file.Some?
    ensures out.response.code == (if out.response.status == 200 then 0 else -1)
    ensures out.response.data.None? && out.response.error.None?
    ensures req.file.None? ==> out.fs == fs
    ensures req.file.Some? ==>
      var p := ArtifactPath(libs, TemplateText(req.version));
      && out.fs.paths == fs.paths + {p}
      && ReadFile(out.fs, p) == Ok(req.file.value)
      && forall q :: q != p ==> ReadFile(out.fs, q) == ReadFile(fs, q)
  {
    var stored :=
      if req.file.Some? then
        var p := ArtifactPath(libs, TemplateText(req.version));
        FileSystem(fs.paths + {p}, fs.contents[p := req.file.value])
      else fs;
    if !Truthy(req.version) || req.file.None? then
      UploadOutcome(stored, Response(400, -1, MissingVersionOrFile, None, None))
    else
      UploadOutcome(stored, Response(200, 0, UploadSucceeded, None, None))
  }

  /** A string field of the position, or its placeholder when it is null or empty. */
  function TextOr(s: Option<string>, placeholder: string): (r: string)
  {
    if Truthy(s) then s.value else placeholder
  }

  /** A number field of the position, or its placeholder when it is null or 0. */
  function NumberOr(n: Option<int>, placeholder: string): (r: Field)
  {
    if n.Some? && n.value != 0 then Num(n.value) else Text(placeholder)
  }

  /** The formatted text of the original source file, or the not-found placeholder. */
  function SourceContent(pos: OriginalPosition, fs: FileSystem, libs: Libraries): (r: Result<string>)
    ensures !Truthy(pos.source) ==> r == Ok(SourceNotFound)
    ensures Truthy(pos.source) && libs.join(libs.join(BackendDir, ".."), pos.source.value) !in fs.paths
            ==> r == Ok(SourceNotFound)
    ensures Truthy(pos.source) ==>
      var p := libs.join(libs.join(BackendDir, ".."), pos.source.value);
      && (p in fs.paths && p in fs.contents ==> r == libs.format(fs.contents[p]))
      && (p in fs.paths && p !in fs.contents ==> r.Err?)
  {
    if !Truthy(pos.source) then Ok(SourceNotFound)
    else
      var p := libs.join(libs.join(BackendDir, ".."), pos.source.value);
      if p !in fs.paths then Ok(SourceNotFound)
      else match ReadFile(fs, p)
        case Err(m) => Err(m)
        case Ok(text) => libs.format(text)
  }

  /** One frame of the `map` over parsed frames. */
  function RestoreFrame(frame: StackFrame, sourceMap: SourceMap, fs: FileSystem, libs: Libraries)
    : (r: Result<RestoredFrame>)
    ensures var pos := sourceMap(frame.lineNumber, frame.columnNumber);
      && (r.Ok? <==> SourceContent(pos, fs, libs).Ok?)
      && (r.Ok? ==>
        && r.value.functionName == frame.functionName
        && r.value.fileName == frame.fileName
        && r.value.lineNumber == frame.lineNumber
        && r.value.columnNumber == frame.columnNumber
        && (Truthy(pos.source) ==> r.value.originalSource == pos.source.value)
        && (!Truthy(pos.source) ==> r.value.originalSource == UnknownSource)
        && (r.value.originalLine == Text(UnknownLine) <==> pos.line.None? || pos.line.value == 0)
        && (r.value.originalLine.Num? ==> pos.line == Some(r.value.originalLine.n))
        && (pos.line.Some? && pos.line.value != 0 ==> r.value.originalLine == Num(pos.line.value))
        && (r.value.originalColumn == Text(UnknownColumn) <==> pos.column.None? || pos.column.value == 0)
        && (r.value.originalColumn.Num? ==> pos.column == Some(r.value.originalColumn.n))
        && (pos.column.Some? && pos.column.value != 0 ==> r.value.originalColumn == Num(pos.column.value))
        && (Truthy(pos.name) ==> r.value.originalFunctionName == pos.name.value)
        && (!Truthy(pos.name) ==> r.value.originalFunctionName == UnknownFunction)
        && Ok(r.value.sourceContent) == SourceContent(pos, fs, libs))
  {
    var pos := sourceMap(frame.lineNumber, frame.columnNumber);
    match SourceContent(pos, fs, libs)
    case Err(m) => Err(m)
    case Ok(content) =>
      Ok(RestoredFrame(
        frame.functionName, frame.fileName, frame.lineNumber, frame.columnNumber,
        TextOr(pos.source, UnknownSource),
        NumberOr(pos.line, UnknownLine),
        NumberOr(pos.column, UnknownColumn),
        TextOr(pos.name, UnknownFunction),
        content))
  }

  /** `Promise.all` over the frames: all of them restored in order, or the first failure. */
  function RestoreFrames(frames: seq<StackFrame>, sourceMap: SourceMap, fs: FileSystem, libs: Libraries)
    : (r: Result<seq<RestoredFrame>>)
    ensures r.Ok? <==> forall i :: 0 <= i < |frames| ==> RestoreFrame(frames[i], sourceMap, fs, libs).Ok?
    ensures r.Ok? ==> |r.value| == |frames|
    ensures r.Ok? ==> forall i :: 0 <= i < |frames| ==> RestoreFrame(frames[i], sourceMap, fs, libs) == Ok(r.value[i])
  {
    if frames == [] then Ok([])
    else
      match RestoreFrame(frames[0], sourceMap, fs, libs)
      case Err(m) => Err(m)
      case Ok(first) =>
        match RestoreFrames(frames[1..], sourceMap, fs, libs)
        case Err(m) => Err(m)
        case Ok(rest) => Ok([first] + rest)
  }

  function Failed(message: string): Response
  {
    Response(500, -1, RestoreFailed, None, Some(message))
  }

  /** The error-restoration route. */
  function RestoreError(req: RestoreRequest, fs: FileSystem, libs: Libraries): (resp: Response)
    ensures resp.status in {200, 400, 404, 500}
    ensures resp.code == (if resp.status == 200 then 0 else -1)
    ensures resp.data.Some? <==> resp.status == 200
    ensures resp.error.Some? <==> resp.status == 500
    ensures resp.status == 200 <==>
      && Truthy(req.stack) && Truthy(req.appVersion)
      && libs.parseStack(req.stack.value).Ok?
      && ArtifactPath(libs, req.appVersion.value) in fs.paths
      && ArtifactPath(libs, req.appVersion.value) in fs.contents
      && libs.openSourceMap(fs.contents[ArtifactPath(libs, req.appVersion.value)]).Ok?
      && RestoreFrames(libs.parseStack(req.stack.value).value,
                       libs.openSourceMap(fs.contents[ArtifactPath(libs, req.appVersion.value)]).value,
                       fs, libs).Ok?
    ensures resp.status == 500 <==>
      && Truthy(req.stack) && Truthy(req.appVersion)
      && (|| libs.parseStack(req.stack.value).Err?
          || (&& ArtifactPath(libs, req.appVersion.value) in fs.paths
              && (|| ArtifactPath(libs, req.appVersion.value) !in fs.contents
                  || libs.openSourceMap(fs.contents[ArtifactPath(libs, req.appVersion.value)]).Err?
                  || RestoreFrames(libs.parseStack(req.stack.value).value,
                                   libs.openSourceMap(fs.contents[ArtifactPath(libs, req.appVersion.value)]).value,
                                   fs, libs).Err?)))
  {
    if !Truthy(req.stack) || !Truthy(req.appVersion) then
      Response(400, -1, MissingStackOrVersion, None, None)
    else
      match libs.parseStack(req.stack.value)
      case Err(m) => Failed(m)
      case Ok(frames) =>
        var path := ArtifactPath(libs, req.appVersion.value);
        if path !in fs.paths then
          Response(404, -1, NotFoundMessage(req.appVersion.value), None, None)
        else
          match ReadFile(fs, path)
          case Err(m) => Failed(m)
          case Ok(text) =>
            match libs.openSourceMap(text)
            case Err(m) => Failed(m)
            case Ok(sourceMap) =>
              match RestoreFrames(frames, sourceMap, fs, libs)
              case Err(m) => Failed(m)
              case Ok(data) => Response(200, 0, RestoreSucceeded, Some(data), None)
  }

  /** A request without a stack or a version is refused before anything is parsed or looked
      up: the response does not depend on the filesystem or on the libraries. */
  lemma MissingInputIsBadRequest(req: RestoreRequest, fs: FileSystem, libs: Libraries,
                                 otherFs: FileSystem, otherLibs: Libraries)
    requires !Truthy(req.stack) || !Truthy(req.appVersion)
    ensures RestoreError(req, fs, libs) == Response(400, -1, MissingStackOrVersion, None, None)
    ensures RestoreError(req, fs, libs) == RestoreError(req, otherFs, otherLibs)
  {
  }

  /** 404 happens exactly when the stack parses and no artifact exists for the version; its
      message names the version and it carries no data. */
  lemma NotFoundExactly(req: RestoreRequest, fs: FileSystem, libs: Libraries)
    ensures var resp := RestoreError(req, fs, libs);
      resp.status == 404 <==>
        && Truthy(req.stack) && Truthy(req.appVersion)
        && libs.parseStack(req.stack.value).Ok?
        && ArtifactPath(libs, req.appVersion.value) !in fs.paths
    ensures var resp := RestoreError(req, fs, libs);
      resp.status == 404 ==> resp.message == NotFoundMessage(req.appVersion.value) && resp.data.None?
  {
  }

  /** A version that has been uploaded is found: restoring with it is never a 404, and when the
      stack parses and the uploaded map can be read, the outcome is decided by the frames alone:
      200 when every frame is restored through the uploaded map, 500 otherwise. */
  lemma UploadedVersionIsFound(fs: FileSystem, version: string, file: string, stack: string,
                               libs: Libraries)
    ensures var up := UploadSourcemap(fs, UploadRequest(Some(version), Some(file)), libs);
      var resp := RestoreError(RestoreRequest(Some(stack), Some(version)), up.fs, libs);
      && resp.status != 404
      && (version != "" ==> up.response.status == 200)
      && (stack != "" && version != "" && libs.parseStack(stack).Ok? && libs.openSourceMap(file).Ok? ==>
          var restored := RestoreFrames(libs.parseStack(stack).value, libs.openSourceMap(file).value, up.fs, libs);
          && (resp.status == 200 <==> restored.Ok?)
          && (resp.status == 500 <==> restored.Err?)
          && (restored.Ok? ==> resp.data == Some(restored.value)))
  {
  }

  /** A known version and a stack with one resolvable and one unresolvable frame: two restored
      frames in the original order, the first carrying the resolved position, the second the
      placeholders. */
  lemma ResolvableAndUnresolvableFrames(first: StackFrame, second: StackFrame, sourceMap: SourceMap,
                                        fs: FileSystem, libs: Libraries,
                                        source: string, line: int, column: int, name: string)
    requires source != "" && line != 0 && column != 0 && name != ""
    requires libs.join(libs.join(BackendDir, ".."), source) !in fs.paths
    requires sourceMap(first.lineNumber, first.columnNumber)
             == OriginalPosition(Some(source), Some(line), Some(column), Some(name))
    requires sourceMap(second.lineNumber, second.columnNumber) == OriginalPosition(None, None, None, None)
    ensures RestoreFrames([first, second], sourceMap, fs, libs) == Ok([
      RestoredFrame(first.functionName, first.fileName, first.lineNumber, first.columnNumber,
                    source, Num(line), Num(column), name, SourceNotFound),
      RestoredFrame(second.functionName, second.fileName, second.lineNumber, second.columnNumber,
                    UnknownSource, Text(UnknownLine), Text(UnknownColumn), UnknownFunction, SourceNotFound)])
  {
    var a := RestoreFrame(first, sourceMap, fs, libs);
    var b := RestoreFrame(second, sourceMap, fs, libs);
    assert a.Ok? && b.Ok?;
    var frames := [first, second];
    assert forall i :: 0 <= i < |frames| ==> RestoreFrame(frames[i], sourceMap, fs, libs).Ok? by {
      forall i | 0 <= i < |frames| ensures RestoreFrame(frames[i], sourceMap, fs, libs).Ok? {
        if i == 0 { assert frames[i] == first; } else { assert frames[i] == second; }
      }
    }
    var r := RestoreFrames(frames, sourceMap, fs, libs);
    assert RestoreFrame(frames[0], sourceMap, fs, libs) == Ok(r.value[0]);
    assert RestoreFrame(frames[1], sourceMap, fs, libs) == Ok(r.value[1]);
    assert r.value == [a.value, b.value];
  }

  /** A successful restoration returns one restored frame per parsed frame, in order, each
      resolved through the version's source map. */
  lemma RestoreSucceedsFrameByFrame(req: RestoreRequest, fs: FileSystem, libs: Libraries)
    requires RestoreError(req, fs, libs).status == 200
    ensures Truthy(req.stack) && Truthy(req.appVersion)
    ensures libs.parseStack(req.stack.value).Ok?
    ensures ArtifactPath(libs, req.appVersion.value) in fs.contents
    ensures libs.openSourceMap(fs.contents[ArtifactPath(libs, req.appVersion.value)]).Ok?
    ensures var frames := libs.parseStack(req.stack.value).value;
      var sourceMap := libs.openSourceMap(fs.contents[ArtifactPath(libs, req.appVersion.value)]).value;
      var data := RestoreError(req, fs, libs).data.value;
      && |data| == |frames|
      && forall i :: 0 <= i < |frames| ==> RestoreFrame(frames[i], sourceMap, fs, libs) == Ok(data[i])
  {
  }
}
