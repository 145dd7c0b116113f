/** The request rules of the HTTP handlers: the per-client workspace, which names are
    accepted, which paths they become, and what each handler stores or hands to the worker.
    Status codes stand for the error responses; the JSON bodies are not modelled. */
module Api {
  import opened Text
  import opened Paths
  import opened Results
  import opened Files
  import opened Worker

  const StatusBadRequest := 400
  const StatusUnauthorized := 401
  const StatusNotFound := 404
  const StatusInternalServerError := 500

  datatype Reason =
    | Message(text: string)
    | WorkspaceFailed(cause: IoError)
    | ProcessingFailed(failure: ProcessError)

  /** An error response. */
  datatype Rejection = Rejection(status: int, reason: Reason)

  /** What a handler answers, and the disk after it. */
  datatype Outcome<+T> = Outcome(result: Result<T, Rejection>, fs: FS)

  // ----- The workspace -----

  datatype Workspace = Workspace(inDir: Path, outDir: Path, base: Path)

  function WorkspaceOf(cwd: Path, clientId: string): Workspace {
    var base := Join([cwd, "data", clientId]);
    Workspace(Join([base, "in"]), Join([base, "out"]), base)
  }

  /** `getWorkspace`: the client is named by the `X-Client-ID` header; its `in` directory is
      created, then its `out` directory. Every handler answers 401 when this fails. */
  function GetWorkspace(fs: FS, cwd: Path, clientId: string): (o: Outcome<Workspace>)
    ensures clientId == "" ==> o == Outcome(Err(Rejection(StatusUnauthorized, Message("Missing X-Client-ID header"))), fs)
    ensures o.result.Err? ==> o.result.error.status == StatusUnauthorized
    ensures o.result.Ok? ==> o.result.value == WorkspaceOf(cwd, clientId)
                             && IsDir(o.fs, o.result.value.inDir) && IsDir(o.fs, o.result.value.outDir)
    ensures o.result.Ok? ==> forall a :: a in Lineage(o.result.value.outDir) ==> !IsFile(o.fs, a)
  {
    if clientId == "" then Outcome(Err(Rejection(StatusUnauthorized, Message("Missing X-Client-ID header"))), fs)
    else
      var ws := WorkspaceOf(cwd, clientId);
      var i := MkdirAll(fs, ws.inDir);
      if i.err.Some? then Outcome(Err(Rejection(StatusUnauthorized, WorkspaceFailed(i.err.value))), fs)
      else
        var o := MkdirAll(i.fs, ws.outDir);
        if o.err.Some? then Outcome(Err(Rejection(StatusUnauthorized, WorkspaceFailed(o.err.value))), i.fs)
        else Outcome(Ok(ws), o.fs)
  }

  /** Getting the workspace only ever adds directories. */
  lemma GetWorkspaceOnlyDirs(fs: FS, cwd: Path, clientId: string)
    ensures OnlyDirsAdded(fs, GetWorkspace(fs, cwd, clientId).fs)
  {
    if clientId != "" {
      var ws := WorkspaceOf(cwd, clientId);
      MkdirAllOnlyDirs(fs, ws.inDir);
      MkdirAllOnlyDirs(MkdirAll(fs, ws.inDir).fs, ws.outDir);
    }
  }

  /** For a plain client name the workspace is `data/<id>` with `in` and `out` inside it. */
  lemma WorkspaceLayout(cwd: Path, clientId: string)
    requires cwd != "" && PlainName(clientId)
    ensures var ws := WorkspaceOf(cwd, clientId);
            && Dir(ws.base) == Join([cwd, "data"]) && Base(ws.base) == clientId
            && Dir(ws.inDir) == ws.base && Base(ws.inDir) == "in"
            && Dir(ws.outDir) == ws.base && Base(ws.outDir) == "out"
  {
    var base := Join([cwd, "data", clientId]);
    assert [cwd, "data", clientId] == [cwd, "data"] + [clientId];
    JoinChild([cwd, "data"], clientId);
    CleanNonEmpty(JoinSep([cwd, "data", clientId]));
    CleanIdempotent(JoinSep([cwd, "data", clientId]));
    WorkspaceChild(base, "in");
    WorkspaceChild(base, "out");
  }

  /** A plain name joined to a clean directory is directly inside it. */
  lemma WorkspaceChild(base: Path, name: string)
    requires base != "" && Clean(base) == base && PlainName(name)
    ensures Dir(Join([base, name])) == base && Base(Join([base, name])) == name
  {
    assert [base] + [name] == [base, name];
    JoinChild([base], name);
    assert JoinSep([base]) == base;
  }

  // ----- Names from requests -----

  /** The check of `handleDownload`: a name is refused when it is empty or holds ".." or "/". */
  predicate ValidName(name: string) {
    name != "" && !Contains(name, "..") && !Contains(name, "/")
  }

  /** An accepted name is a plain name or "."; it never climbs out and never descends. */
  lemma ValidNameShape(name: string)
    requires ValidName(name)
    ensures PlainName(name) || name == "."
  {
    forall i | 0 <= i < |name| ensures name[i] != '/' {
      if name[i] == '/' {
        assert name[i..i + 1] == "/";
        ContainsAt(name, "/", i);
      }
    }
    assert ".."[0..2] == "..";
    ContainsAt("..", "..", 0);
  }

  /** An accepted name joined to a directory is that directory or a file directly inside it. */
  lemma ValidNameInside(dir: Path, name: string)
    requires dir != "" && ValidName(name)
    ensures var t := Join([dir, name]);
            t == Clean(dir) || (Dir(t) == Clean(dir) && Base(t) == name)
  {
    ValidNameShape(name);
    Join2(dir, name);
    if name == "." {
      CleanIgnoresTrailing(dir, ".");
    } else {
      CleanChild(dir, name);
    }
  }

  // ----- POST /upload -----

  /** An uploaded part: the client's file name and the bytes. */
  datatype Part = Part(filename: string, data: seq<byte>)

  /** The multipart form: whether it parsed within the size limit, and the two optional parts. */
  datatype UploadForm = UploadForm(parsed: bool, apk: Option<Part>, icon: Option<Part>)

  datatype UploadReply = UploadReply(filename: string, iconFilename: string)

  /** `os.Create` then `io.Copy`, both errors ignored: when the file cannot be created nothing
      is written. */
  function Save(fs: FS, path: Path, data: seq<byte>): FS {
    if CanCreate(fs, path) then WriteData(Truncate(fs, path, CreatePerm), path, data) else fs
  }

  /** The stored name of a part: the base of the client's name, so it is never empty. */
  function StoredName(part: Option<Part>): (n: string)
    ensures part.Some? <==> n != ""
  {
    if part.Some? then Base(part.value.filename) else ""
  }

  function SavePart(fs: FS, inDir: Path, part: Option<Part>): FS {
    if part.Some? then Save(fs, Join([inDir, StoredName(part)]), part.value.data) else fs
  }

  /** `handleUpload` after the method check. */
  function HandleUpload(fs: FS, cwd: Path, clientId: string, form: UploadForm): Outcome<UploadReply> {
    var w := GetWorkspace(fs, cwd, clientId);
    if w.result.Err? then Outcome(Err(w.result.error), w.fs)
    else if !form.parsed then Outcome(Err(Rejection(StatusBadRequest, Message("File too large"))), w.fs)
    else
      var inDir := w.result.value.inDir;
      var fs1 := SavePart(SavePart(w.fs, inDir, form.apk), inDir, form.icon);
      var apkName := StoredName(form.apk);
      var iconName := StoredName(form.icon);
      if apkName == "" && iconName == "" then
        Outcome(Err(Rejection(StatusBadRequest, Message("At least one file (apk or icon) is required"))), fs1)
      else Outcome(Ok(UploadReply(apkName, iconName)), fs1)
  }

  /** Once the workspace exists and the form parses, an upload is accepted exactly when it has
      at least one of the two parts, and it answers with the stored names. */
  lemma UploadAccepted(fs: FS, cwd: Path, clientId: string, form: UploadForm)
    requires GetWorkspace(fs, cwd, clientId).result.Ok? && form.parsed
    ensures var o := HandleUpload(fs, cwd, clientId, form);
            && (o.result.Ok? <==> form.apk.Some? || form.icon.Some?)
            && (o.result.Ok? ==> o.result.value == UploadReply(StoredName(form.apk), StoredName(form.icon)))
            && (o.result.Err? ==> o.result.error.status == StatusBadRequest && o.fs == GetWorkspace(fs, cwd, clientId).fs)
  {
  }

  /** A stored part lands where the reply says: directly inside `in` under its base name when
      that name is plain, and a part whose base is not plain is never stored outside `in` or its
      parent. The client's directories in the name are dropped. */
  lemma UploadedPartStored(fs: FS, inDir: Path, part: Part)
    requires inDir != ""
    ensures var name := StoredName(Some(part));
            var target := Join([inDir, name]);
            && ('/' !in name || name == "/")
            && (PlainName(name) ==> Dir(target) == Clean(inDir) && Base(target) == name)
            && (CanCreate(fs, target) ==> target in SavePart(fs, inDir, Some(part))
                                          && SavePart(fs, inDir, Some(part))[target].data == part.data)
            && (forall k :: k in fs && k != target ==>
                  k in SavePart(fs, inDir, Some(part)) && SavePart(fs, inDir, Some(part))[k] == fs[k])
  {
    var name := StoredName(Some(part));
    if PlainName(name) {
      Join2(inDir, name);
      CleanChild(inDir, name);
    }
  }

  // ----- POST /templates -----

  datatype TemplateForm = TemplateForm(parsed: bool, apk: Option<Part>, id: string)

  function TemplatesDir(cwd: Path): Path {
    Join([cwd, "data", "templates"])
  }

  /** The template id: the form's `id`, else the base of the uploaded file's name. */
  function TemplateId(formId: string, filename: string): (id: string)
    ensures id != ""
    ensures formId != "" ==> id == formId
    ensures formId == "" ==> '/' !in id || id == "/"
  {
    if formId == "" then Base(filename) else formId
  }

  /** `handleTemplates` after the method check, as written: the id is joined unchecked. */
  function HandleTemplates(fs: FS, cwd: Path, form: TemplateForm): Outcome<string> {
    if !form.parsed then Outcome(Err(Rejection(StatusBadRequest, Message("File too large"))), fs)
    else if form.apk.None? then Outcome(Err(Rejection(StatusBadRequest, Message("Missing 'apk' file"))), fs)
    else StoreTemplate(fs, cwd, TemplateId(form.id, form.apk.value.filename), form.apk.value.data)
  }

  function StoreTemplate(fs: FS, cwd: Path, id: string, data: seq<byte>): Outcome<string> {
    var fs1 := MkdirAll(fs, TemplatesDir(cwd)).fs;
    var target := Join([TemplatesDir(cwd), id]);
    if !CanCreate(fs1, target) then Outcome(Err(Rejection(StatusInternalServerError, Message("Storage failed"))), fs1)
    else Outcome(Ok(id), WriteData(Truncate(fs1, target, CreatePerm), target, data))
  }

  /** The templates directory is a clean path ending in "templates", inside `data`. */
  lemma TemplatesDirShape(cwd: Path)
    requires cwd != ""
    ensures var dir := TemplatesDir(cwd);
            && dir != "" && Clean(dir) == dir && EndsInName(dir)
            && Dir(dir) == Join([cwd, "data"])
  {
    assert [cwd, "data", "templates"] == [cwd, "data"] + ["templates"];
    JoinEndsInName([cwd, "data"], "templates");
    JoinChild([cwd, "data"], "templates");
    CleanIdempotent(JoinSep([cwd, "data", "templates"]));
  }

  /** "../e" joined to the templates directory is `data/e`, outside `data/templates/`. */
  lemma TemplateEscapePath(cwd: Path, e: string)
    requires cwd != "" && PlainName(e)
    ensures var target := Join([TemplatesDir(cwd), "../" + e]);
            && !HasPrefix(target, TemplatesDir(cwd) + "/")
            && Dir(target) == Join([cwd, "data"]) && Base(target) == e
  {
    var dir := TemplatesDir(cwd);
    TemplatesDirShape(cwd);
    Join2(dir, "../" + e);
    assert dir + "/" + ("../" + e) == dir + "/../" + e;
    CleanUpAndOver(dir, e);
  }

  /** An id "../e" stores the upload beside the templates directory, in `data`, outside
      `data/templates/`. */
  lemma TemplateIdEscapes(fs: FS, cwd: Path, e: string, data: seq<byte>, filename: string)
    requires cwd != "" && PlainName(e)
    requires var target := Join([TemplatesDir(cwd), "../" + e]);
             CanCreate(MkdirAll(fs, TemplatesDir(cwd)).fs, target)
    ensures var target := Join([TemplatesDir(cwd), "../" + e]);
            var o := HandleTemplates(fs, cwd, TemplateForm(true, Some(Part(filename, data)), "../" + e));
            && o.result == Ok("../" + e) && target in o.fs && o.fs[target].data == data
            && !HasPrefix(target, TemplatesDir(cwd) + "/")
            && Dir(target) == Join([cwd, "data"]) && Base(target) == e
  {
    TemplateEscapePath(cwd, e);
  }

  /** `handleTemplates` with the id required to be a plain name: not empty, not "." or "..",
      and without a separator. */
  function HandleTemplatesFixed(fs: FS, cwd: Path, form: TemplateForm): Outcome<string> {
    if !form.parsed then Outcome(Err(Rejection(StatusBadRequest, Message("File too large"))), fs)
    else if form.apk.None? then Outcome(Err(Rejection(StatusBadRequest, Message("Missing 'apk' file"))), fs)
    else
      var id := TemplateId(form.id, form.apk.value.filename);
      if !PlainName(id) then Outcome(Err(Rejection(StatusBadRequest, Message("Invalid template id"))), fs)
      else StoreTemplate(fs, cwd, id, form.apk.value.data)
  }

  /** With the check, a stored template is a file directly inside the templates directory,
      named by its id, and nothing else but directories on the way to it changes. */
  lemma TemplatesFixedConfined(fs: FS, cwd: Path, form: TemplateForm)
    requires cwd != ""
    ensures var o := HandleTemplatesFixed(fs, cwd, form);
            o.result.Ok? ==>
              var target := Join([TemplatesDir(cwd), o.result.value]);
              && Dir(target) == TemplatesDir(cwd) && Base(target) == o.result.value
              && IsFile(o.fs, target)
              && fs.Keys <= o.fs.Keys
              && forall k :: k in o.fs && (k !in fs || o.fs[k] != fs[k]) ==> k == target || o.fs[k] == Directory
    ensures form.parsed && form.apk.Some? && HasPrefix(form.id, "../") ==>
              HandleTemplatesFixed(fs, cwd, form) == Outcome(Err(Rejection(StatusBadRequest, Message("Invalid template id"))), fs)
  {
    if HasPrefix(form.id, "../") {
      assert form.id[2] == '/';
    }
    var o := HandleTemplatesFixed(fs, cwd, form);
    if o.result.Ok? {
      var dir := TemplatesDir(cwd);
      var id := o.result.value;
      var target := Join([dir, id]);
      TemplatesDirShape(cwd);
      Join2(dir, id);
      CleanChild(dir, id);
      MkdirAllOnlyDirs(fs, dir);
    }
  }

  // ----- POST /process -----

  datatype ProcessRequest = ProcessRequest(
    filename: string, templateId: string, packageName: string, appName: string, iconFilename: string)

  datatype ProcessReply = ProcessReply(downloadUrl: string, file: string)

  /** The input: a template when a template id is given, else an uploaded file. */
  function SelectInput(cwd: Path, inDir: Path, req: ProcessRequest): (r: Result<Path, Rejection>)
    ensures r.Err? <==> req.templateId == "" && req.filename == ""
    ensures r.Err? ==> r.error == Rejection(StatusBadRequest, Message("Missing template_id or filename"))
  {
    if req.templateId != "" then Ok(Join([cwd, "data", "templates", req.templateId]))
    else if req.filename != "" then Ok(Join([inDir, req.filename]))
    else Err(Rejection(StatusBadRequest, Message("Missing template_id or filename")))
  }

  /** A template id takes precedence over a file name; with plain names the input is a file
      directly inside the templates directory or the client's `in` directory. */
  lemma SelectInputPlace(cwd: Path, inDir: Path, req: ProcessRequest)
    requires cwd != "" && inDir != ""
    ensures req.templateId != "" && PlainName(req.templateId) ==>
              var r := SelectInput(cwd, inDir, req);
              Dir(r.value) == TemplatesDir(cwd) && Base(r.value) == req.templateId
    ensures req.templateId == "" && PlainName(req.filename) ==>
              var r := SelectInput(cwd, inDir, req);
              Dir(r.value) == Clean(inDir) && Base(r.value) == req.filename
  {
    if req.templateId != "" && PlainName(req.templateId) {
      assert [cwd, "data", "templates", req.templateId] == [cwd, "data", "templates"] + [req.templateId];
      JoinChild([cwd, "data", "templates"], req.templateId);
    }
    if req.templateId == "" && PlainName(req.filename) {
      Join2(inDir, req.filename);
      CleanChild(inDir, req.filename);
    }
  }

  /** The job for the worker: the input is refused only when `os.Stat` says it does not exist;
      a named icon is looked up in `in` and refused in the same case; the handler never asks for
      a deep rename. */
  function JobOf(fs: FS, cwd: Path, ws: Workspace, req: ProcessRequest): Result<Job, Rejection> {
    match SelectInput(cwd, ws.inDir, req)
    case Err(e) => Err(e)
    case Ok(inputPath) =>
      if StatNotExist(fs, inputPath) then Err(Rejection(StatusNotFound, Message("Input file (Template/Upload) not found.")))
      else if req.iconFilename != "" && StatNotExist(fs, Join([ws.inDir, req.iconFilename])) then
        Err(Rejection(StatusNotFound, Message("Icon file not found")))
      else
        var iconPath := if req.iconFilename != "" then Join([ws.inDir, req.iconFilename]) else "";
        Ok(Job(inputPath, ws.outDir, Options(req.packageName, req.appName, iconPath, false)))
  }

  /** The job's input, and its icon when one is named, exist or have a file in the way (which
      `os.Stat` reports as "not a directory", not as missing). The job carries the request's
      names, an icon exactly when one is named, and no deep rename; so the tool is given `-i`
      exactly when the request names an icon and never `-d`. */
  lemma JobOptions(fs: FS, cwd: Path, ws: Workspace, req: ProcessRequest, jar: Path, output: Path)
    requires ws.inDir != ""
    ensures var j := JobOf(fs, cwd, ws, req);
            j.Ok? ==>
              && !StatNotExist(fs, j.value.inputPath) && j.value.outputDir == ws.outDir
              && j.value.opts.packageName == req.packageName && j.value.opts.appName == req.appName
              && !j.value.opts.deepRename
              && (j.value.opts.iconPath == "" <==> req.iconFilename == "")
              && (req.iconFilename != "" ==> j.value.opts.iconPath == Join([ws.inDir, req.iconFilename])
                                             && !StatNotExist(fs, j.value.opts.iconPath))
              && ParseToolArgs(ToolArgs(jar, j.value.inputPath, output, j.value.opts))
                 == Some(ToolCall(jar, j.value.inputPath, output, j.value.opts))
  {
    var j := JobOf(fs, cwd, ws, req);
    if j.Ok? {
      if req.iconFilename != "" {
        Join2(ws.inDir, req.iconFilename);
        CleanNonEmpty(ws.inDir + "/" + req.iconFilename);
      }
      ToolArgsRoundTrip(jar, j.value.inputPath, output, j.value.opts);
    }
  }

  /** An uploaded name with a file in the way, such as "a.apk/x" after "a.apk" was uploaded,
      is not refused with 404: it reaches the worker, whose hashing fails, and the handler
      answers 500. */
  lemma FileInTheWayReachesWorker(fs: FS, worker: WorkerSetup, clientId: string, req: ProcessRequest)
    requires GetWorkspace(fs, worker.host.env.cwd, clientId).result.Ok?
    requires req.templateId == "" && req.filename != "" && req.iconFilename == ""
    requires var w := GetWorkspace(fs, worker.host.env.cwd, clientId);
             var p := Join([w.result.value.inDir, req.filename]);
             !Exists(w.fs, p) && exists a :: a in Lineage(p) && a != p && IsFile(w.fs, a)
    ensures var w := GetWorkspace(fs, worker.host.env.cwd, clientId);
            var p := Join([w.result.value.inDir, req.filename]);
            HandleProcess(fs, worker, clientId, Some(req))
            == Outcome(Err(Rejection(StatusInternalServerError, ProcessingFailed(HashFailed(NotADirectory(p))))), w.fs)
  {
  }

  /** The service the handler runs jobs on: its executable and jar, and everything outside. */
  datatype WorkerSetup = WorkerSetup(javaPath: Path, jarPath: Path, host: Host)

  /** `handleProcess` after the method check; `decoded` is the JSON body, if it decodes. */
  function HandleProcess(fs: FS, worker: WorkerSetup, clientId: string, decoded: Option<ProcessRequest>): Outcome<ProcessReply> {
    var cwd := worker.host.env.cwd;
    var w := GetWorkspace(fs, cwd, clientId);
    if w.result.Err? then Outcome(Err(w.result.error), w.fs)
    else if decoded.None? then Outcome(Err(Rejection(StatusBadRequest, Message("Invalid JSON"))), w.fs)
    else match JobOf(w.fs, cwd, w.result.value, decoded.value)
      case Err(e) => Outcome(Err(e), w.fs)
      case Ok(job) =>
        var run := Process(worker.javaPath, worker.jarPath, w.fs, worker.host, job);
        if run.result.Err? then
          Outcome(Err(Rejection(StatusInternalServerError, ProcessingFailed(run.result.error))), run.fs)
        else
          var file := Base(run.result.value);
          Outcome(Ok(ProcessReply("/download?file=" + file, file)), run.fs)
  }

  /** Every refusal of `handleProcess` carries one of its four statuses: 500 exactly for a
      failed worker run, and any refusal before the worker leaves the files as the workspace
      lookup left them. */
  lemma ProcessRejections(fs: FS, worker: WorkerSetup, clientId: string, decoded: Option<ProcessRequest>)
    ensures var p := HandleProcess(fs, worker, clientId, decoded);
            var w := GetWorkspace(fs, worker.host.env.cwd, clientId);
            && (clientId == "" ==> p.result == Err(Rejection(StatusUnauthorized, Message("Missing X-Client-ID header"))) && p.fs == fs)
            && (w.result.Ok? && decoded.None? ==> p.result == Err(Rejection(StatusBadRequest, Message("Invalid JSON"))))
            && (p.result.Err? ==> p.result.error.status in {StatusBadRequest, StatusUnauthorized, StatusNotFound, StatusInternalServerError})
            && (p.result.Err? && p.result.error.status == StatusInternalServerError <==> p.result.Err? && p.result.error.reason.ProcessingFailed?)
            && (p.result.Err? && p.result.error.status != StatusInternalServerError ==> p.fs == w.fs)
  {
    var cwd := worker.host.env.cwd;
    var w := GetWorkspace(fs, cwd, clientId);
    if w.result.Ok? && decoded.Some? {
      var j := JobOf(w.fs, cwd, w.result.value, decoded.value);
      if j.Err? {
        assert j.error.status in {StatusBadRequest, StatusNotFound} && !j.error.reason.ProcessingFailed?;
      }
    }
  }

  // ----- GET /download -----

  /** `handleDownload` after the method check: the file served, if any. */
  function HandleDownload(fs: FS, cwd: Path, clientId: string, filename: string): Outcome<Path> {
    var w := GetWorkspace(fs, cwd, clientId);
    if w.result.Err? then Outcome(Err(w.result.error), w.fs)
    else if !ValidName(filename) then Outcome(Err(Rejection(StatusBadRequest, Message("Invalid filename"))), w.fs)
    else
      var target := Join([w.result.value.outDir, filename]);
      if StatNotExist(w.fs, target) then Outcome(Err(Rejection(StatusNotFound, Message("File not found"))), w.fs)
      else Outcome(Ok(target), w.fs)
  }

  /** Only the client's own output directory or a file directly inside it is ever served. */
  lemma DownloadConfined(fs: FS, cwd: Path, clientId: string, filename: string)
    ensures var o := HandleDownload(fs, cwd, clientId, filename);
            o.result.Ok? ==>
              var out := WorkspaceOf(cwd, clientId).outDir;
              && ValidName(filename) && Exists(o.fs, o.result.value)
              && (o.result.value == Clean(out) || (Dir(o.result.value) == Clean(out) && Base(o.result.value) == filename))
  {
    var o := HandleDownload(fs, cwd, clientId, filename);
    if o.result.Ok? {
      var out := WorkspaceOf(cwd, clientId).outDir;
      WorkspaceLayoutNonEmpty(cwd, clientId);
      ValidNameInside(out, filename);
      OutDirClean(cwd, clientId);
      var w := GetWorkspace(fs, cwd, clientId);
      NoFileInTheWay(w.fs, out, filename);
    }
  }

  /** Below a clean directory whose whole lineage consists of directories, an accepted name
      that `os.Stat` does not report as missing exists. */
  lemma NoFileInTheWay(fs: FS, out: Path, filename: string)
    requires out != "" && Clean(out) == out && ValidName(filename)
    requires forall a :: a in Lineage(out) ==> !IsFile(fs, a)
    requires !StatNotExist(fs, Join([out, filename]))
    ensures Exists(fs, Join([out, filename]))
  {
    var t := Join([out, filename]);
    Join2(out, filename);
    ValidNameShape(filename);
    assert t == Clean(out + "/" + filename);
    if filename == "." {
      CleanIgnoresTrailing(out, ".");
      assert t == out;
    } else {
      CleanChildShape(out, filename);
      ChildLineage(out, filename, t);
    }
    assert forall a :: a in Lineage(t) && a != t ==> a in Lineage(out);
  }

  /** The output directory is spelled cleanly, as `Join` leaves it. */
  lemma OutDirClean(cwd: Path, clientId: string)
    ensures Clean(WorkspaceOf(cwd, clientId).outDir) == WorkspaceOf(cwd, clientId).outDir
  {
    var base := WorkspaceOf(cwd, clientId).base;
    Join2(base, "out");
    CleanIdempotent(if base != "" then base + "/" + "out" else "out");
  }

  /** The name `handleProcess` returns is accepted by `handleDownload` and names the worker's
      result, a file in the client's output directory. */
  lemma ProcessedName(fs: FS, worker: WorkerSetup, clientId: string, req: ProcessRequest)
    requires worker.host.env.cwd != ""
    ensures var p := HandleProcess(fs, worker, clientId, Some(req));
            p.result.Ok? ==>
              && ValidName(p.result.value.file)
              && p.result.value.downloadUrl == "/download?file=" + p.result.value.file
              && IsFile(p.fs, Join([WorkspaceOf(worker.host.env.cwd, clientId).outDir, p.result.value.file]))
  {
    var cwd := worker.host.env.cwd;
    var p := HandleProcess(fs, worker, clientId, Some(req));
    if p.result.Ok? {
      var w := GetWorkspace(fs, cwd, clientId);
      var ws := w.result.value;
      var job := JobOf(w.fs, cwd, ws, req).value;
      var run := Process(worker.javaPath, worker.jarPath, w.fs, worker.host, job);
      assert run.result.Ok? && p.fs == run.fs && p.result.value.file == Base(run.result.value);
      WorkspaceLayoutNonEmpty(cwd, clientId);
      WorkerFileNamed(worker.javaPath, worker.jarPath, w.fs, worker.host, job);
    }
  }

  /** A successful worker run names, by its base name, a file directly in the job's output
      directory, and that base name passes the download check. */
  lemma WorkerFileNamed(javaPath: Path, jarPath: Path, fs: FS, host: Host, job: Job)
    requires host.env.cwd != "" && job.outputDir != ""
    ensures var run := Process(javaPath, jarPath, fs, host, job);
            run.result.Ok? ==>
              && ValidName(Base(run.result.value))
              && IsFile(run.fs, Join([job.outputDir, Base(run.result.value)]))
  {
    var run := Process(javaPath, jarPath, fs, host, job);
    if run.result.Ok? {
      ProcessOk(javaPath, jarPath, fs, host, job);
      var key := CacheKey(fs, job.inputPath, job.opts, host.sum).value;
      assert forall i :: 0 <= i < |key| ==> IsHexDigit(key[i]);
      JobPaths(host.env.cwd, job.outputDir, key);
      KeyFileName(key);
    }
  }

  /** The download of that name, in the same client's workspace, serves the worker's result. */
  lemma ProcessedFileDownloads(fs: FS, worker: WorkerSetup, clientId: string, req: ProcessRequest)
    requires worker.host.env.cwd != ""
    ensures var p := HandleProcess(fs, worker, clientId, Some(req));
            var cwd := worker.host.env.cwd;
            p.result.Ok? && GetWorkspace(p.fs, cwd, clientId).result.Ok? ==>
              HandleDownload(p.fs, cwd, clientId, p.result.value.file).result
              == Ok(Join([WorkspaceOf(cwd, clientId).outDir, p.result.value.file]))
  {
    var p := HandleProcess(fs, worker, clientId, Some(req));
    ProcessedName(fs, worker, clientId, req);
    GetWorkspaceOnlyDirs(p.fs, worker.host.env.cwd, clientId);
  }

  lemma WorkspaceLayoutNonEmpty(cwd: Path, clientId: string)
    ensures WorkspaceOf(cwd, clientId).outDir != ""
  {
    var base := WorkspaceOf(cwd, clientId).base;
    Join2(base, "out");
    CleanNonEmpty(base + "/" + "out");
    CleanNonEmpty("out");
  }
}
