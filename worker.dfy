/** The job executor: derive a cache key from the input and the options, serve a cached
    result when there is one, and otherwise run the renamer tool under a concurrency limit
    and copy its output to the client's output directory. */
module Worker {
  import opened Text
  import opened Paths
  import opened Results
  import opened Files
  import opened Framing

  datatype Options = Options(packageName: string, appName: string, iconPath: Path, deepRename: bool)

  // ----- The cache key -----

  /** The running SHA-256 state, as the bytes written into it so far. */
  class Hasher {
    var written: seq<byte>

    constructor ()
      ensures written == []
    {
      written := [];
    }

    method Write(p: seq<byte>)
      modifies this
      ensures written == old(written) + p
    {
      written := written + p;
    }
  }

  /** What copying the icon into the hash adds: its bytes when the path is set and names a
      readable file; nothing when it is missing or is a directory (the copy error is ignored). */
  function IconBytes(fs: FS, iconPath: Path): seq<byte> {
    if iconPath != "" && IsFile(fs, iconPath) then fs[iconPath].data else []
  }

  /** The bytes the hash takes for a deep rename: `[]byte("deep")`. */
  const DeepWord: seq<byte> := [0x64, 0x65, 0x65, 0x70]

  lemma DeepWordSpelling()
    ensures DeepWord == Utf8("deep")
  {
  }

  /** The bytes that go into the hash, in order, with nothing between them. */
  function Preimage(input: seq<byte>, opts: Options, icon: seq<byte>): seq<byte> {
    input + Utf8(opts.packageName) + Utf8(opts.appName)
    + (if opts.deepRename then DeepWord else []) + icon
  }

  /** One lower-case hex digit. */
  function HexDigit(n: int): (c: char)
    requires 0 <= n < 16
    ensures IsHexDigit(c)
    ensures n < 10 ==> c as int == '0' as int + n
    ensures n >= 10 ==> c as int == 'a' as int + (n - 10)
  {
    if n < 10 then (48 + n) as char else (87 + n) as char
  }

  predicate IsHexDigit(c: char) {
    '0' <= c <= '9' || 'a' <= c <= 'f'
  }

  /** `fmt.Sprintf("%x", sum)`: two lower-case hex digits per byte, high nibble first. */
  function Hex(b: seq<byte>): (r: string)
    ensures |r| == 2 * |b|
    ensures forall i :: 0 <= i < |r| ==> IsHexDigit(r[i])
    decreases |b|
  {
    if b == [] then [] else [HexDigit(b[0] / 16), HexDigit(b[0] % 16)] + Hex(b[1..])
  }

  lemma HexByteInjective(x: byte, y: byte)
    requires HexDigit(x / 16) == HexDigit(y / 16) && HexDigit(x % 16) == HexDigit(y % 16)
    ensures x == y
  {
  }

  /** Hex spelling loses nothing: equal keys mean equal digests. */
  lemma {:induction false} HexInjective(a: seq<byte>, b: seq<byte>)
    requires Hex(a) == Hex(b)
    ensures a == b
    decreases |a|
  {
    if a != [] {
      var ha := [HexDigit(a[0] / 16), HexDigit(a[0] % 16)];
      var hb := [HexDigit(b[0] / 16), HexDigit(b[0] % 16)];
      assert Hex(a) == ha + Hex(a[1..]) && Hex(b) == hb + Hex(b[1..]);
      assert Hex(a)[..2] == ha && Hex(b)[..2] == hb;
      assert Hex(a)[2..] == Hex(a[1..]) && Hex(b)[2..] == Hex(b[1..]);
      HexByteInjective(a[0], b[0]);
      HexInjective(a[1..], b[1..]);
      assert a == [a[0]] + a[1..] && b == [b[0]] + b[1..];
    }
  }

  /** `calculateCacheKey`: the input must open and read as a file; `sum` is SHA-256. */
  function CacheKey(fs: FS, inputPath: Path, opts: Options, sum: seq<byte> -> seq<byte>): Result<string, IoError> {
    if !Exists(fs, inputPath) then Err(MissingError(fs, inputPath))
    else if !IsFile(fs, inputPath) then Err(ReadFailed(inputPath))
    else Ok(Hex(sum(Preimage(fs[inputPath].data, opts, IconBytes(fs, opts.iconPath)))))
  }

  /** The hasher written step by step, as the Go code does. */
  method CalculateCacheKey(fs: FS, inputPath: Path, opts: Options, sum: seq<byte> -> seq<byte>)
    returns (r: Result<string, IoError>)
    ensures r == CacheKey(fs, inputPath, opts, sum)
  {
    var h := new Hasher();
    if !Exists(fs, inputPath) {
      return Err(MissingError(fs, inputPath));
    }
    if !IsFile(fs, inputPath) {
      return Err(ReadFailed(inputPath));
    }
    var input := fs[inputPath].data;
    h.Write(input);
    assert h.written == input by {
      assert [] + input == input;
    }
    h.Write(Utf8(opts.packageName));
    h.Write(Utf8(opts.appName));
    ghost var names := h.written;
    assert names == input + Utf8(opts.packageName) + Utf8(opts.appName);
    if opts.deepRename {
      h.Write(DeepWord);
    } else {
      assert names + [] == names;
    }
    ghost var named := h.written;
    assert named == names + if opts.deepRename then DeepWord else [];
    ghost var icon := IconBytes(fs, opts.iconPath);
    if opts.iconPath != "" && Exists(fs, opts.iconPath) && IsFile(fs, opts.iconPath) {
      h.Write(fs[opts.iconPath].data);
      assert icon == fs[opts.iconPath].data;
    } else {
      assert icon == [];
      assert named + icon == named;
    }
    assert h.written == named + icon;
    assert h.written == Preimage(input, opts, icon);
    return Ok(Hex(sum(h.written)));
  }

  /** A key names a plain file: hex digits and ".apk" hold no separator and no "..". */
  lemma KeyFileName(key: string)
    requires forall i :: 0 <= i < |key| ==> IsHexDigit(key[i])
    ensures PlainName(key + ".apk")
    ensures !Contains(key + ".apk", "..") && !Contains(key + ".apk", "/")
  {
    var f := key + ".apk";
    assert f[|key|..] == ".apk";
    forall i | 0 <= i < |f| ensures f[i] != '/' && (f[i] == '.' <==> i == |key|) {
      if i < |key| {
        assert f[i] == key[i];
      } else {
        assert f[i] == ".apk"[i - |key|];
      }
    }
    forall i: nat ensures !OccursAt(f, "/", i) {
      if i + 1 <= |f| {
        assert f[i..i + 1] == [f[i]];
      }
    }
    forall i: nat ensures !OccursAt(f, "..", i) {
      if i + 2 <= |f| {
        assert f[i..i + 2] == [f[i], f[i + 1]];
      }
    }
    NotContains(f, "..");
    NotContains(f, "/");
    assert f != "." && f != ".." by {
      assert |f| >= 4;
    }
  }

  // ----- Paths of one job -----

  function CacheFile(cwd: Path, key: string): Path {
    Join([cwd, "data", "cache", key + ".apk"])
  }

  function DestPath(outputDir: Path, key: string): Path {
    Join([outputDir, key + ".apk"])
  }

  /** The cache file sits directly in `data/cache` (the directory the miss path creates), and
      the result directly in the output directory; both are named after the key. */
  lemma JobPaths(cwd: Path, outputDir: Path, key: string)
    requires cwd != "" && outputDir != ""
    requires forall i :: 0 <= i < |key| ==> IsHexDigit(key[i])
    ensures Dir(CacheFile(cwd, key)) == Join([cwd, "data", "cache"]) && Base(CacheFile(cwd, key)) == key + ".apk"
    ensures Dir(DestPath(outputDir, key)) == Clean(outputDir) && Base(DestPath(outputDir, key)) == key + ".apk"
  {
    KeyFileName(key);
    assert [cwd, "data", "cache", key + ".apk"] == [cwd, "data", "cache"] + [key + ".apk"];
    JoinChild([cwd, "data", "cache"], key + ".apk");
    Join2(outputDir, key + ".apk");
    CleanChild(outputDir, key + ".apk");
  }

  // ----- The tool's command line -----

  /** A flag with a value, present only when the value is set. */
  function Flag(name: string, value: string): seq<string> {
    if value != "" then [name, value] else []
  }

  /** The argument list: the fixed part, then `-p`, `-n`, `-i` and `-d`, each only when set. */
  function ToolArgs(jar: Path, input: Path, output: Path, opts: Options): seq<string> {
    ["-Xmx256m", "-jar", jar, "-a", input, "-o", output]
    + Flag("-p", opts.packageName) + Flag("-n", opts.appName) + Flag("-i", opts.iconPath)
    + (if opts.deepRename then ["-d"] else [])
  }

  /** The list grown by successive appends, as the Go code does. */
  method BuildArgs(jar: Path, input: Path, output: Path, opts: Options) returns (args: seq<string>)
    ensures args == ToolArgs(jar, input, output, opts)
  {
    args := ["-Xmx256m", "-jar", jar, "-a", input, "-o", output];
    if opts.packageName != "" {
      args := args + ["-p", opts.packageName];
    }
    if opts.appName != "" {
      args := args + ["-n", opts.appName];
    }
    if opts.iconPath != "" {
      args := args + ["-i", opts.iconPath];
    }
    if opts.deepRename {
      args := args + ["-d"];
    }
  }

  /** How the tool reads its command line back. */
  datatype ToolCall = ToolCall(jar: Path, input: Path, output: Path, opts: Options)

  /** The option a valued flag sets; an empty value sets nothing. */
  function SetFlag(acc: Options, name: string, value: string): Options {
    if value == "" then acc
    else if name == "-p" then acc.(packageName := value)
    else if name == "-n" then acc.(appName := value)
    else acc.(iconPath := value)
  }

  function ParseFlags(rest: seq<string>, acc: Options): Option<Options>
    decreases |rest|
  {
    if rest == [] then Some(acc)
    else if rest[0] == "-d" then ParseFlags(rest[1..], acc.(deepRename := true))
    else if |rest| < 2 || rest[0] !in ["-p", "-n", "-i"] then None
    else ParseFlags(rest[2..], SetFlag(acc, rest[0], rest[1]))
  }

  function ParseToolArgs(args: seq<string>): Option<ToolCall> {
    if |args| < 7 || args[0] != "-Xmx256m" || args[1] != "-jar" || args[3] != "-a" || args[5] != "-o" then None
    else match ParseFlags(args[7..], Options("", "", "", false))
      case None => None
      case Some(opts) => Some(ToolCall(args[2], args[4], args[6], opts))
  }

  lemma ParseFlag(name: string, value: string, rest: seq<string>, acc: Options)
    requires name in ["-p", "-n", "-i"]
    ensures ParseFlags(Flag(name, value) + rest, acc) == ParseFlags(rest, SetFlag(acc, name, value))
  {
    if value != "" {
      assert (Flag(name, value) + rest)[2..] == rest;
    } else {
      assert Flag(name, value) + rest == rest;
    }
  }

  /** The optional flags, in order. */
  function Flags(opts: Options): seq<string> {
    Flag("-p", opts.packageName) + Flag("-n", opts.appName) + Flag("-i", opts.iconPath)
    + (if opts.deepRename then ["-d"] else [])
  }

  lemma ParseFlagsRoundTrip(opts: Options)
    ensures ParseFlags(Flags(opts), Options("", "", "", false)) == Some(opts)
  {
    var p := Flag("-p", opts.packageName);
    var n := Flag("-n", opts.appName);
    var i := Flag("-i", opts.iconPath);
    var d := if opts.deepRename then ["-d"] else [];
    assert Flags(opts) == p + (n + (i + d));
    var o1 := SetFlag(Options("", "", "", false), "-p", opts.packageName);
    var o2 := SetFlag(o1, "-n", opts.appName);
    var o3 := SetFlag(o2, "-i", opts.iconPath);
    ParseFlag("-p", opts.packageName, n + (i + d), Options("", "", "", false));
    ParseFlag("-n", opts.appName, i + d, o1);
    ParseFlag("-i", opts.iconPath, d, o2);
    if opts.deepRename {
      assert d[1..] == [];
    }
    assert ParseFlags(d, o3) == Some(opts);
  }

  /** The tool receives exactly the job: parsing the argument list gives back the jar, the
      input, the output and every option (an empty option is an absent flag). */
  lemma ToolArgsRoundTrip(jar: Path, input: Path, output: Path, opts: Options)
    ensures ParseToolArgs(ToolArgs(jar, input, output, opts)) == Some(ToolCall(jar, input, output, opts))
  {
    var args := ToolArgs(jar, input, output, opts);
    assert args == ["-Xmx256m", "-jar", jar, "-a", input, "-o", output] + Flags(opts);
    assert args[7..] == Flags(opts);
    ParseFlagsRoundTrip(opts);
  }

  // ----- The tool's environment -----

  const ListSeparator: char := ':'

  /** The process environment the server runs in: `os.Environ()` and `os.Getenv("PATH")`. */
  datatype Env = Env(cwd: Path, environ: seq<string>, pathVar: string)

  /** The inherited environment, then the PATH with the JRE's directory in front, then the
      JVM options. */
  function ToolEnv(env: Env, javaPath: Path): seq<string> {
    env.environ + ["PATH=" + Dir(javaPath) + [ListSeparator] + env.pathVar, "JAVA_TOOL_OPTIONS=-Xmx512m"]
  }

  /** The value a process sees for `key`: the last entry `key=value` wins, as `os/exec`
      keeps the last of duplicate keys. */
  function EnvLookup(entries: seq<string>, key: string): Option<string>
    decreases |entries|
  {
    if entries == [] then None
    else
      var last := entries[|entries| - 1];
      if HasPrefix(last, key + "=") then Some(last[|key| + 1..])
      else EnvLookup(entries[..|entries| - 1], key)
  }

  lemma EntryKey(name: string, value: string, key: string)
    requires '=' !in name && '=' !in key
    ensures HasPrefix(name + "=" + value, key + "=") <==> key == name
  {
    var e := name + "=" + value;
    if |key| < |name| {
      assert e[|key|] == name[|key|];
      assert (key + "=")[|key|] == '=';
    } else if |key| > |name| && |key| < |e| {
      assert e[|name|] == '=';
      assert (key + "=")[|name|] == key[|name|];
    } else if |key| == |name| && key != name {
      var j :| 0 <= j < |key| && key[j] != name[j];
      assert (key + "=")[j] == key[j] && e[j] == name[j];
    }
  }

  /** The tool sees the JRE's directory at the front of its PATH and the JVM options set,
      and every other variable as the server has it. */
  lemma ToolEnvLookup(env: Env, javaPath: Path, key: string)
    requires '=' !in key
    ensures EnvLookup(ToolEnv(env, javaPath), key) ==
      if key == "JAVA_TOOL_OPTIONS" then Some("-Xmx512m")
      else if key == "PATH" then Some(Dir(javaPath) + [ListSeparator] + env.pathVar)
      else EnvLookup(env.environ, key)
  {
    var a := "PATH=" + Dir(javaPath) + [ListSeparator] + env.pathVar;
    var b := "JAVA_TOOL_OPTIONS=-Xmx512m";
    var all := env.environ + [a, b];
    assert a == "PATH" + "=" + (Dir(javaPath) + [ListSeparator] + env.pathVar);
    assert b == "JAVA_TOOL_OPTIONS" + "=" + "-Xmx512m";
    EntryKey("PATH", Dir(javaPath) + [ListSeparator] + env.pathVar, key);
    EntryKey("JAVA_TOOL_OPTIONS", "-Xmx512m", key);
    assert all[|all| - 1] == b && all[..|all| - 1] == env.environ + [a];
    assert (env.environ + [a])[|env.environ|] == a && (env.environ + [a])[..|env.environ|] == env.environ;
  }

  // ----- One job -----

  /** The context of the request. */
  datatype Context = Context(done: bool, err: string)

  /** Which case of the `select` fired: a free slot of the semaphore, or the context. */
  datatype Choice = SlotFree | ContextDone

  /** What the tool did: whether `cmd.Run` failed, and what it left at its output path. */
  datatype ToolRun = ToolRun(runError: Option<string>, output: Option<seq<byte>>)

  /** One start of the tool: executable, arguments, working directory and environment. */
  datatype Launch = Launch(exe: Path, args: seq<string>, dir: Path, env: seq<string>)

  datatype ProcessError =
    | HashFailed(cause: IoError)
    | Cancelled(reason: string)
    | Io(cause: IoError)
    | ExecutionFailed(reason: string)
    | OutputNotGenerated

  /** Everything outside the service a job depends on. */
  datatype Host = Host(env: Env, ctx: Context, sum: seq<byte> -> seq<byte>, choice: Choice, tool: ToolRun)

  datatype Job = Job(inputPath: Path, outputDir: Path, opts: Options)

  /** The outcome of a job: its result, the disk afterwards, and the tool start if any. */
  datatype Run = Run(result: Result<Path, ProcessError>, fs: FS, launch: Option<Launch>)

  /** The tool writes its output at the output path when it produces one. */
  function ToolEffect(fs: FS, cacheFile: Path, tool: ToolRun): FS {
    if tool.output.Some? && CanCreate(fs, cacheFile)
    then WriteData(Truncate(fs, cacheFile, CreatePerm), cacheFile, tool.output.value)
    else fs
  }

  /** Copying a cached file to the output directory. */
  function Deliver(fs: FS, outputDir: Path, cacheFile: Path, dest: Path): Run {
    var m := MkdirAll(fs, outputDir);
    if m.err.Some? then Run(Err(Io(m.err.value)), fs, None)
    else
      var c := CopyFile(m.fs, cacheFile, dest);
      Run(if c.err.Some? then Err(Io(c.err.value)) else Ok(dest), c.fs, None)
  }

  /** What follows `cmd.Run()`: its error, the output check, the copy. Only a "does not exist"
      stat error means no output; with a file in the way the copy reports the failure. */
  function AfterRun(fs: FS, cacheFile: Path, dest: Path, tool: ToolRun, launch: Launch): Run {
    if tool.runError.Some? then Run(Err(ExecutionFailed(tool.runError.value)), fs, Some(launch))
    else if StatNotExist(fs, cacheFile) then Run(Err(OutputNotGenerated), fs, Some(launch))
    else
      var c := CopyFile(fs, cacheFile, dest);
      Run(if c.err.Some? then Err(Io(c.err.value)) else Ok(dest), c.fs, Some(launch))
  }

  /** `ProcessApk` for a service with the given executable and jar. */
  function Process(javaPath: Path, jarPath: Path, fs: FS, host: Host, job: Job): Run {
    match CacheKey(fs, job.inputPath, job.opts, host.sum)
    case Err(e) => Run(Err(HashFailed(e)), fs, None)
    case Ok(key) =>
      var cacheFile := CacheFile(host.env.cwd, key);
      var dest := DestPath(job.outputDir, key);
      if Exists(fs, cacheFile) then Deliver(fs, job.outputDir, cacheFile, dest)
      else if host.choice == ContextDone then Run(Err(Cancelled(host.ctx.err)), fs, None)
      else
        var m := MkdirAll(fs, job.outputDir);
        if m.err.Some? then Run(Err(Io(m.err.value)), fs, None)
        else
          var fs1 := MkdirAll(m.fs, Dir(cacheFile)).fs;
          var launch := Launch(javaPath, ToolArgs(jarPath, job.inputPath, cacheFile, job.opts),
                               Dir(jarPath), ToolEnv(host.env, javaPath));
          AfterRun(ToolEffect(fs1, cacheFile, host.tool), cacheFile, dest, host.tool, launch)
  }

  /** Every start of the tool held a slot, and no more than `size` slots were taken while it
      ran. */
  predicate SlotsHeld(running: seq<int>, size: int) {
    forall i :: 0 <= i < |running| ==> 1 <= running[i] <= size
  }

  /** The service: the tool's paths and a semaphore of `maxConcurrent` slots, `inUse` of which
      are taken. `launches` records every start of the tool, and `running` how many slots
      were taken while it ran, its own included. */
  class Service {
    const javaPath: Path
    const jarPath: Path
    const maxConcurrent: int
    var inUse: int
    ghost var launches: seq<Launch>
    ghost var running: seq<int>

    /** The semaphore's count is within its size, and every start of the tool held a slot,
        so no more than `maxConcurrent` tools ever ran at once. */
    ghost predicate Valid()
      reads this
    {
      && 0 <= inUse <= maxConcurrent
      && |running| == |launches|
      && SlotsHeld(running, maxConcurrent)
    }

    /** `New`: `make(chan struct{}, maxConcurrent)` panics on a negative size. */
    constructor (javaPath: Path, jarPath: Path, maxConcurrent: int)
      requires maxConcurrent >= 0
      ensures Valid() && inUse == 0 && launches == [] && running == []
      ensures this.javaPath == javaPath && this.jarPath == jarPath && this.maxConcurrent == maxConcurrent
    {
      this.javaPath := javaPath;
      this.jarPath := jarPath;
      this.maxConcurrent := maxConcurrent;
      inUse := 0;
      launches := [];
      running := [];
    }

    /** `ProcessApk`. The `select` may take a slot only when one is free and may take the
        context only when it is done; which ready case fires is the host's choice. A miss
        holds its slot for the whole run of the tool and gives it back on every way out. */
    method ProcessApk(fs0: FS, host: Host, job: Job) returns (result: Result<Path, ProcessError>, fs: FS)
      requires Valid()
      requires host.choice == SlotFree ==> inUse < maxConcurrent
      requires host.choice == ContextDone ==> host.ctx.done
      modifies this`inUse, this`launches, this`running
      ensures Valid() && inUse == old(inUse)
      ensures |old(running)| <= |running| && running[..|old(running)|] == old(running)
      ensures |launches| > |old(launches)| ==> running[|running| - 1] == old(inUse) + 1
      ensures var run := Process(javaPath, jarPath, fs0, host, job);
              && result == run.result && fs == run.fs
              && launches == old(launches) + (if run.launch.Some? then [run.launch.value] else [])
    {
      fs := fs0;
      var key := CalculateCacheKey(fs, job.inputPath, job.opts, host.sum);
      if key.Err? {
        return Err(HashFailed(key.error)), fs;
      }
      var cacheFile := CacheFile(host.env.cwd, key.value);
      if Exists(fs, cacheFile) {
        var m := MkdirAll(fs, job.outputDir);
        if m.err.Some? {
          return Err(Io(m.err.value)), fs;
        }
        fs := m.fs;
        var destPath := DestPath(job.outputDir, key.value);
        var c := CopyFile(fs, cacheFile, destPath);
        fs := c.fs;
        if c.err.Some? {
          return Err(Io(c.err.value)), fs;
        }
        return Ok(destPath), fs;
      }
      if host.choice == ContextDone {
        return Err(Cancelled(host.ctx.err)), fs;
      }
      inUse := inUse + 1;
      result, fs := RunTool(fs, host, job, key.value, cacheFile);
      inUse := inUse - 1;
    }

    /** The miss path while the slot is held. */
    method RunTool(fs0: FS, host: Host, job: Job, key: string, cacheFile: Path)
      returns (result: Result<Path, ProcessError>, fs: FS)
      requires Valid() && 1 <= inUse
      requires cacheFile == CacheFile(host.env.cwd, key)
      modifies this`launches, this`running
      ensures Valid()
      ensures var m := MkdirAll(fs0, job.outputDir);
              var run := if m.err.Some? then Run(Err(Io(m.err.value)), fs0, None)
                else AfterRun(ToolEffect(MkdirAll(m.fs, Dir(cacheFile)).fs, cacheFile, host.tool), cacheFile,
                              DestPath(job.outputDir, key), host.tool,
                              Launch(javaPath, ToolArgs(jarPath, job.inputPath, cacheFile, job.opts),
                                     Dir(jarPath), ToolEnv(host.env, javaPath)));
              && result == run.result && fs == run.fs
              && launches == old(launches) + (if run.launch.Some? then [run.launch.value] else [])
              && running == old(running) + (if run.launch.Some? then [inUse] else [])
    {
      fs := fs0;
      var m := MkdirAll(fs, job.outputDir);
      if m.err.Some? {
        return Err(Io(m.err.value)), fs;
      }
      fs := m.fs;
      var cacheDir := Dir(cacheFile);
      fs := MkdirAll(fs, cacheDir).fs;
      var args := BuildArgs(jarPath, job.inputPath, cacheFile, job.opts);
      var launch := Launch(javaPath, args, Dir(jarPath), ToolEnv(host.env, javaPath));
      launches := launches + [launch];
      running := running + [inUse];
      fs := ToolEffect(fs, cacheFile, host.tool);
      if host.tool.runError.Some? {
        return Err(ExecutionFailed(host.tool.runError.value)), fs;
      }
      if StatNotExist(fs, cacheFile) {
        return Err(OutputNotGenerated), fs;
      }
      var destPath := DestPath(job.outputDir, key);
      var c := CopyFile(fs, cacheFile, destPath);
      fs := c.fs;
      if c.err.Some? {
        return Err(Io(c.err.value)), fs;
      }
      return Ok(destPath), fs;
    }
  }

  // ----- What a job does -----

  /** An unreadable input fails first: no cache lookup, no slot, no tool, no change on disk. */
  lemma HashFailureFirst(javaPath: Path, jarPath: Path, fs: FS, host: Host, job: Job)
    requires CacheKey(fs, job.inputPath, job.opts, host.sum).Err?
    ensures var run := Process(javaPath, jarPath, fs, host, job);
            run.result == Err(HashFailed(CacheKey(fs, job.inputPath, job.opts, host.sum).error))
            && run.fs == fs && run.launch.None?
    ensures !IsFile(fs, job.inputPath)
  {
  }

  /** A cache hit never starts the tool; when the copy succeeds the result is the key's file
      in the output directory, holding the cached bytes. */
  lemma CacheHit(javaPath: Path, jarPath: Path, fs: FS, host: Host, job: Job, key: string)
    requires CacheKey(fs, job.inputPath, job.opts, host.sum) == Ok(key)
    requires Exists(fs, CacheFile(host.env.cwd, key))
    ensures var run := Process(javaPath, jarPath, fs, host, job);
            && run.launch.None?
            && (run.result.Ok? ==>
                  && run.result.value == DestPath(job.outputDir, key)
                  && IsFile(run.fs, run.result.value) && IsFile(fs, CacheFile(host.env.cwd, key))
                  && (DestPath(job.outputDir, key) != CacheFile(host.env.cwd, key) ==>
                        run.fs[run.result.value].data == fs[CacheFile(host.env.cwd, key)].data))
  {
  }

  /** A job that succeeds returns the key's file in the output directory, which then holds a
      file, whether it was a hit or a miss. */
  lemma ProcessOk(javaPath: Path, jarPath: Path, fs: FS, host: Host, job: Job)
    ensures var run := Process(javaPath, jarPath, fs, host, job);
            run.result.Ok? ==>
              && CacheKey(fs, job.inputPath, job.opts, host.sum).Ok?
              && run.result.value == DestPath(job.outputDir, CacheKey(fs, job.inputPath, job.opts, host.sum).value)
              && IsFile(run.fs, run.result.value)
  {
    var k := CacheKey(fs, job.inputPath, job.opts, host.sum);
    if k.Ok? {
      var cacheFile := CacheFile(host.env.cwd, k.value);
      var dest := DestPath(job.outputDir, k.value);
      if Exists(fs, cacheFile) {
        DeliverOk(fs, job.outputDir, cacheFile, dest);
      } else if host.choice == SlotFree {
        var m := MkdirAll(fs, job.outputDir);
        if m.err.None? {
          var fs1 := MkdirAll(m.fs, Dir(cacheFile)).fs;
          var launch := Launch(javaPath, ToolArgs(jarPath, job.inputPath, cacheFile, job.opts),
                               Dir(jarPath), ToolEnv(host.env, javaPath));
          AfterRunOk(ToolEffect(fs1, cacheFile, host.tool), cacheFile, dest, host.tool, launch);
        }
      }
    }
  }

  lemma CopyFileOk(fs: FS, src: Path, dst: Path)
    ensures CopyFile(fs, src, dst).err.None? ==> IsFile(CopyFile(fs, src, dst).fs, dst)
  {
  }

  lemma DeliverOk(fs: FS, outputDir: Path, cacheFile: Path, dest: Path)
    ensures var run := Deliver(fs, outputDir, cacheFile, dest);
            run.result.Ok? ==> run.result.value == dest && IsFile(run.fs, dest)
  {
    CopyFileOk(MkdirAll(fs, outputDir).fs, cacheFile, dest);
  }

  lemma AfterRunOk(fs: FS, cacheFile: Path, dest: Path, tool: ToolRun, launch: Launch)
    ensures var run := AfterRun(fs, cacheFile, dest, tool, launch);
            run.result.Ok? ==> run.result.value == dest && IsFile(run.fs, dest)
  {
    CopyFileOk(fs, cacheFile, dest);
  }

  /** A miss whose `select` takes the context returns the context's error and touches nothing. */
  lemma MissCancelled(javaPath: Path, jarPath: Path, fs: FS, host: Host, job: Job, key: string)
    requires CacheKey(fs, job.inputPath, job.opts, host.sum) == Ok(key)
    requires !Exists(fs, CacheFile(host.env.cwd, key)) && host.choice == ContextDone
    ensures Process(javaPath, jarPath, fs, host, job) == Run(Err(Cancelled(host.ctx.err)), fs, None)
  {
  }

  /** On a miss whose `select` takes a slot and whose output directory can be made, the tool
      starts once, with the job's arguments, and what follows is decided by its run. */
  lemma MissLaunches(javaPath: Path, jarPath: Path, fs: FS, host: Host, job: Job, key: string)
    requires CacheKey(fs, job.inputPath, job.opts, host.sum) == Ok(key)
    requires !Exists(fs, CacheFile(host.env.cwd, key)) && host.choice == SlotFree
    requires MkdirAll(fs, job.outputDir).err.None?
    ensures var cacheFile := CacheFile(host.env.cwd, key);
            var fs1 := MkdirAll(MkdirAll(fs, job.outputDir).fs, Dir(cacheFile)).fs;
            var run := Process(javaPath, jarPath, fs, host, job);
            && run.launch.Some?
            && run.launch.value.exe == javaPath && run.launch.value.dir == Dir(jarPath)
            && ParseToolArgs(run.launch.value.args) == Some(ToolCall(jarPath, job.inputPath, cacheFile, job.opts))
            && run == AfterRun(ToolEffect(fs1, cacheFile, host.tool), cacheFile, DestPath(job.outputDir, key),
                               host.tool, run.launch.value)
    ensures job.outputDir != "" && host.env.cwd != "" ==>
              var cacheFile := CacheFile(host.env.cwd, key);
              (cacheFile !in Lineage(job.outputDir) <==>
                 !Exists(MkdirAll(MkdirAll(fs, job.outputDir).fs, Dir(cacheFile)).fs, cacheFile))
  {
    var cacheFile := CacheFile(host.env.cwd, key);
    var fs1 := MkdirAll(MkdirAll(fs, job.outputDir).fs, Dir(cacheFile)).fs;
    var launch := Launch(javaPath, ToolArgs(jarPath, job.inputPath, cacheFile, job.opts),
                         Dir(jarPath), ToolEnv(host.env, javaPath));
    var run := AfterRun(ToolEffect(fs1, cacheFile, host.tool), cacheFile, DestPath(job.outputDir, key),
                        host.tool, launch);
    assert Process(javaPath, jarPath, fs, host, job) == run;
    assert run.launch == Some(launch);
    ToolArgsRoundTrip(jarPath, job.inputPath, cacheFile, job.opts);
    if job.outputDir != "" && host.env.cwd != "" {
      CacheFileNotAncestor(host.env.cwd, key);
    }
  }

  lemma CacheFileNotAncestor(cwd: Path, key: string)
    requires cwd != ""
    requires forall i :: 0 <= i < |key| ==> IsHexDigit(key[i])
    ensures CacheFile(cwd, key) !in Lineage(Dir(CacheFile(cwd, key)))
  {
    KeyFileName(key);
    assert [cwd, "data", "cache", key + ".apk"] == [cwd, "data", "cache"] + [key + ".apk"];
    JoinChild([cwd, "data", "cache"], key + ".apk");
  }

  /** After the tool ran: a run error is "execution failed"; a clean exit that left nothing at
      the output path is "output not generated" when `os.Stat` says it does not exist, and
      the copy's "not a directory" when a file stands in the way; otherwise the output's
      bytes are copied to the destination. */
  lemma AfterRunOutcomes(fs: FS, cacheFile: Path, dest: Path, tool: ToolRun, launch: Launch)
    requires !Exists(fs, cacheFile)
    ensures var run := AfterRun(ToolEffect(fs, cacheFile, tool), cacheFile, dest, tool, launch);
            && run.launch == Some(launch)
            && (tool.runError.Some? ==> run.result == Err(ExecutionFailed(tool.runError.value)))
            && (tool.runError.None? && tool.output.None? && StatNotExist(fs, cacheFile) ==>
                  run.result == Err(OutputNotGenerated))
            && (tool.runError.None? && tool.output.None? && !StatNotExist(fs, cacheFile) ==>
                  run.result == Err(Io(NotADirectory(cacheFile))) && run.fs == fs)
            && (run.result.Ok? ==>
                  && tool.runError.None? && tool.output.Some? && run.result.value == dest
                  && (dest != cacheFile ==> IsFile(run.fs, dest) && run.fs[dest].data == tool.output.value))
  {
  }

  // ----- Findings -----

  /** The hash input has no separators, so two different jobs can share a key: package "ab"
      without an app name, and package "a" with app name "b". They run the tool with different
      arguments, yet the second is served the first one's cached result. */
  lemma SeparatorlessCollision(fs: FS, inputPath: Path, iconPath: Path, deep: bool, sum: seq<byte> -> seq<byte>)
    ensures var o1 := Options("ab", "", iconPath, deep);
            var o2 := Options("a", "b", iconPath, deep);
            && CacheKey(fs, inputPath, o1, sum) == CacheKey(fs, inputPath, o2, sum)
            && ParseToolArgs(ToolArgs("", inputPath, "", o1)) != ParseToolArgs(ToolArgs("", inputPath, "", o2))
  {
    var o1 := Options("ab", "", iconPath, deep);
    var o2 := Options("a", "b", iconPath, deep);
    Utf8Concat("a", "b");
    assert "a" + "b" == "ab";
    assert Utf8("") == [];
    if IsFile(fs, inputPath) {
      var x := fs[inputPath].data;
      assert x + Utf8("ab") + Utf8("") == x + Utf8("a") + Utf8("b");
      assert Preimage(x, o1, IconBytes(fs, iconPath)) == Preimage(x, o2, IconBytes(fs, iconPath));
    }
    ToolArgsRoundTrip("", inputPath, "", o1);
    ToolArgsRoundTrip("", inputPath, "", o2);
  }

  /** An icon that cannot be read is dropped from the hash without an error, so a job naming
      a missing icon gets the key of the same job without an icon, though the tool is asked
      for a different icon. */
  lemma UnreadableIconIgnored(fs: FS, inputPath: Path, opts: Options, sum: seq<byte> -> seq<byte>)
    requires opts.iconPath != "" && !IsFile(fs, opts.iconPath)
    ensures CacheKey(fs, inputPath, opts, sum) == CacheKey(fs, inputPath, opts.(iconPath := ""), sum)
    ensures ParseToolArgs(ToolArgs("", inputPath, "", opts)) != ParseToolArgs(ToolArgs("", inputPath, "", opts.(iconPath := "")))
  {
    ToolArgsRoundTrip("", inputPath, "", opts);
    ToolArgsRoundTrip("", inputPath, "", opts.(iconPath := ""));
  }

  /** A run that fails after writing part of its output leaves that file at the cache path:
      the job reports "execution failed", and every later job with the same key is a cache
      hit that delivers the partial bytes without starting the tool. */
  lemma FailedRunPoisonsCache(javaPath: Path, jarPath: Path, fs: FS, host: Host, job: Job, key: string,
                              partial: seq<byte>, run: Run, later: FS, laterHost: Host, laterJob: Job, again: Run)
    requires CacheKey(fs, job.inputPath, job.opts, host.sum) == Ok(key)
    requires !Exists(fs, CacheFile(host.env.cwd, key)) && host.choice == SlotFree
    requires MkdirAll(fs, job.outputDir).err.None?
    requires host.tool.runError.Some? && host.tool.output == Some(partial)
    requires CanCreate(MkdirAll(MkdirAll(fs, job.outputDir).fs, Dir(CacheFile(host.env.cwd, key))).fs,
                       CacheFile(host.env.cwd, key))
    requires run == Process(javaPath, jarPath, fs, host, job)
    requires CacheKey(later, laterJob.inputPath, laterJob.opts, laterHost.sum) == Ok(key)
    requires laterHost.env.cwd == host.env.cwd
    requires var cacheFile := CacheFile(host.env.cwd, key);
             cacheFile in run.fs && cacheFile in later && later[cacheFile] == run.fs[cacheFile]
    requires again == Process(javaPath, jarPath, later, laterHost, laterJob)
    ensures run.result == Err(ExecutionFailed(host.tool.runError.value))
    ensures IsFile(run.fs, CacheFile(host.env.cwd, key)) && run.fs[CacheFile(host.env.cwd, key)].data == partial
    ensures again.launch.None?
    ensures var dest := DestPath(laterJob.outputDir, key);
            again.result.Ok? && dest != CacheFile(host.env.cwd, key) ==> IsFile(again.fs, dest) && again.fs[dest].data == partial
  {
    FailedRunKeepsPartial(javaPath, jarPath, fs, host, job, key, partial);
    PartialCacheHit(javaPath, jarPath, later, laterHost, laterJob, key, partial);
  }

  /** The first half: the failed job's report and the file it leaves. */
  lemma FailedRunKeepsPartial(javaPath: Path, jarPath: Path, fs: FS, host: Host, job: Job, key: string,
                              partial: seq<byte>)
    requires CacheKey(fs, job.inputPath, job.opts, host.sum) == Ok(key)
    requires !Exists(fs, CacheFile(host.env.cwd, key)) && host.choice == SlotFree
    requires MkdirAll(fs, job.outputDir).err.None?
    requires host.tool.runError.Some? && host.tool.output == Some(partial)
    requires CanCreate(MkdirAll(MkdirAll(fs, job.outputDir).fs, Dir(CacheFile(host.env.cwd, key))).fs,
                       CacheFile(host.env.cwd, key))
    ensures var cacheFile := CacheFile(host.env.cwd, key);
            var run := Process(javaPath, jarPath, fs, host, job);
            && run.result == Err(ExecutionFailed(host.tool.runError.value))
            && IsFile(run.fs, cacheFile) && run.fs[cacheFile].data == partial
  {
    var cacheFile := CacheFile(host.env.cwd, key);
    var fs1 := MkdirAll(MkdirAll(fs, job.outputDir).fs, Dir(cacheFile)).fs;
    MissLaunches(javaPath, jarPath, fs, host, job, key);
    var run := Process(javaPath, jarPath, fs, host, job);
    FailedRunLeavesOutput(fs1, cacheFile, DestPath(job.outputDir, key), host.tool, run.launch.value);
  }

  /** The second half: a job whose key's cache file holds the partial bytes delivers them. */
  lemma PartialCacheHit(javaPath: Path, jarPath: Path, later: FS, host: Host, job: Job, key: string,
                        partial: seq<byte>)
    requires CacheKey(later, job.inputPath, job.opts, host.sum) == Ok(key)
    requires IsFile(later, CacheFile(host.env.cwd, key)) && later[CacheFile(host.env.cwd, key)].data == partial
    ensures var again := Process(javaPath, jarPath, later, host, job);
            var dest := DestPath(job.outputDir, key);
            && again.launch.None?
            && (again.result.Ok? && dest != CacheFile(host.env.cwd, key) ==> IsFile(again.fs, dest) && again.fs[dest].data == partial)
  {
    CacheHit(javaPath, jarPath, later, host, job, key);
  }

  /** A run that fails after writing its output keeps that output at the output path. */
  lemma FailedRunLeavesOutput(fs: FS, cacheFile: Path, dest: Path, tool: ToolRun, launch: Launch)
    requires tool.runError.Some? && tool.output.Some? && CanCreate(fs, cacheFile)
    ensures var run := AfterRun(ToolEffect(fs, cacheFile, tool), cacheFile, dest, tool, launch);
            && run.result == Err(ExecutionFailed(tool.runError.value))
            && IsFile(run.fs, cacheFile) && run.fs[cacheFile].data == tool.output.value
  {
  }

  /** The corrected hash input: every part framed, so that the parts can be read back. */
  function FramedPreimage(input: seq<byte>, opts: Options, icon: seq<byte>): seq<byte> {
    Field(input) + (Field(Utf8(opts.packageName)) + (Field(Utf8(opts.appName))
      + (Field(if opts.deepRename then [1] else [0]) + (Field(Utf8(opts.iconPath)) + Field(icon)))))
  }

  /** Framed inputs are equal only when the input, every option and the icon are. */
  lemma FramedPreimageInjective(in1: seq<byte>, o1: Options, i1: seq<byte>, in2: seq<byte>, o2: Options, i2: seq<byte>)
    requires FramedPreimage(in1, o1, i1) == FramedPreimage(in2, o2, i2)
    ensures in1 == in2 && o1 == o2 && i1 == i2
  {
    var d1: seq<byte> := if o1.deepRename then [1] else [0];
    var d2: seq<byte> := if o2.deepRename then [1] else [0];
    FieldsInjective(in1, Field(Utf8(o1.packageName)) + (Field(Utf8(o1.appName)) + (Field(d1) + (Field(Utf8(o1.iconPath)) + Field(i1)))),
                    in2, Field(Utf8(o2.packageName)) + (Field(Utf8(o2.appName)) + (Field(d2) + (Field(Utf8(o2.iconPath)) + Field(i2)))));
    FieldsInjective(Utf8(o1.packageName), Field(Utf8(o1.appName)) + (Field(d1) + (Field(Utf8(o1.iconPath)) + Field(i1))),
                    Utf8(o2.packageName), Field(Utf8(o2.appName)) + (Field(d2) + (Field(Utf8(o2.iconPath)) + Field(i2))));
    FieldsInjective(Utf8(o1.appName), Field(d1) + (Field(Utf8(o1.iconPath)) + Field(i1)),
                    Utf8(o2.appName), Field(d2) + (Field(Utf8(o2.iconPath)) + Field(i2)));
    FieldsInjective(d1, Field(Utf8(o1.iconPath)) + Field(i1), d2, Field(Utf8(o2.iconPath)) + Field(i2));
    FieldsInjective(Utf8(o1.iconPath), Field(i1), Utf8(o2.iconPath), Field(i2));
    assert Field(i1) + [] == Field(i2) + [];
    FieldsInjective(i1, [], i2, []);
    Utf8Injective(o1.packageName, o2.packageName);
    Utf8Injective(o1.appName, o2.appName);
    Utf8Injective(o1.iconPath, o2.iconPath);
    assert d1[0] == d2[0];
  }

  /** The corrected key: a named icon must be readable, and the parts are framed. */
  function CacheKeyFixed(fs: FS, inputPath: Path, opts: Options, sum: seq<byte> -> seq<byte>): Result<string, IoError> {
    if !Exists(fs, inputPath) then Err(MissingError(fs, inputPath))
    else if !IsFile(fs, inputPath) then Err(ReadFailed(inputPath))
    else if opts.iconPath != "" && !Exists(fs, opts.iconPath) then Err(MissingError(fs, opts.iconPath))
    else if opts.iconPath != "" && !IsFile(fs, opts.iconPath) then Err(ReadFailed(opts.iconPath))
    else Ok(Hex(sum(FramedPreimage(fs[inputPath].data, opts, IconBytes(fs, opts.iconPath)))))
  }

  /** With the corrected key, two jobs share a key only when they hash the same input, options
      and icon, or when the hash itself collides. */
  lemma CacheKeyFixedSeparates(fs1: FS, in1: Path, o1: Options, fs2: FS, in2: Path, o2: Options, sum: seq<byte> -> seq<byte>)
    requires CacheKeyFixed(fs1, in1, o1, sum).Ok? && CacheKeyFixed(fs2, in2, o2, sum).Ok?
    requires CacheKeyFixed(fs1, in1, o1, sum) == CacheKeyFixed(fs2, in2, o2, sum)
    ensures var p1 := FramedPreimage(fs1[in1].data, o1, IconBytes(fs1, o1.iconPath));
            var p2 := FramedPreimage(fs2[in2].data, o2, IconBytes(fs2, o2.iconPath));
            && sum(p1) == sum(p2)
            && (p1 == p2 ==> fs1[in1].data == fs2[in2].data && o1 == o2
                             && IconBytes(fs1, o1.iconPath) == IconBytes(fs2, o2.iconPath))
  {
    var p1 := FramedPreimage(fs1[in1].data, o1, IconBytes(fs1, o1.iconPath));
    var p2 := FramedPreimage(fs2[in2].data, o2, IconBytes(fs2, o2.iconPath));
    HexInjective(sum(p1), sum(p2));
    if p1 == p2 {
      FramedPreimageInjective(fs1[in1].data, o1, IconBytes(fs1, o1.iconPath), fs2[in2].data, o2, IconBytes(fs2, o2.iconPath));
    }
  }

  /** The corrected key reports an icon it cannot read instead of hashing without it. */
  lemma CacheKeyFixedIcon(fs: FS, inputPath: Path, opts: Options, sum: seq<byte> -> seq<byte>)
    requires IsFile(fs, inputPath)
    ensures CacheKeyFixed(fs, inputPath, opts, sum).Err? <==> opts.iconPath != "" && !IsFile(fs, opts.iconPath)
  {
  }

  /** The corrected tail of the miss path: a failed run removes what it left at the cache path. */
  function AfterRunFixed(fs: FS, cacheFile: Path, dest: Path, tool: ToolRun, launch: Launch): Run {
    if tool.runError.Some? then Run(Err(ExecutionFailed(tool.runError.value)), Remove(fs, cacheFile), Some(launch))
    else AfterRun(fs, cacheFile, dest, tool, launch)
  }

  /** With the correction, a failed run never leaves a cache entry behind, so the next job
      with the same key is a miss again; a successful run is unchanged. */
  lemma AfterRunFixedNoPoison(fs: FS, cacheFile: Path, dest: Path, tool: ToolRun, launch: Launch)
    ensures var run := AfterRunFixed(fs, cacheFile, dest, tool, launch);
            && (tool.runError.Some? ==>
                  && run.result.Err? && cacheFile !in run.fs
                  && forall k :: k in fs && k != cacheFile ==> k in run.fs && run.fs[k] == fs[k])
            && (tool.runError.None? ==> run == AfterRun(fs, cacheFile, dest, tool, launch))
  {
  }
}
