/** The portable-JRE manager: find a `java` executable under `bin/jre`, or pick a download
    for the platform, fetch it and unpack it (zip on Windows, gzip-compressed tar elsewhere). */
module Java {
  import opened Text
  import opened Paths
  import opened Results
  import opened Files
  import opened Zip
  import opened Download

  const LinuxX64Url := "https://api.adoptium.net/v3/binary/latest/17/ga/linux/x64/jre/hotspot/normal/eclipse"
  const WindowsX64Url := "https://api.adoptium.net/v3/binary/latest/17/ga/windows/x64/jre/hotspot/normal/eclipse"

  // ----- The platform table -----

  datatype Platform =
    | Fetch(url: string)
    | Unsupported(message: string)
      /** Any other operating system: rely on a `java` on the PATH. */
    | SystemJava

  /** The `switch runtime.GOOS` of `EnsureJava`. */
  function SelectPlatform(goos: string, goarch: string): (p: Platform)
    ensures p.Fetch? <==> (goos == "linux" || goos == "windows") && goarch == "amd64"
    ensures p.Fetch? ==> p.url == if goos == "linux" then LinuxX64Url else WindowsX64Url
    ensures p.Unsupported? <==> (goos == "linux" || goos == "windows") && goarch != "amd64"
    ensures p.Unsupported? ==> p.message == "unsupported os/arch: " + goos + "/" + goarch
    ensures p.SystemJava? <==> goos != "linux" && goos != "windows"
  {
    match goos
    case "linux" =>
      if goarch == "amd64" then Fetch(LinuxX64Url)
      else Unsupported("unsupported os/arch: " + goos + "/" + goarch)
    case "windows" =>
      if goarch == "amd64" then Fetch(WindowsX64Url)
      else Unsupported("unsupported os/arch: " + goos + "/" + goarch)
    case _ => SystemJava
  }

  // ----- Tar extraction -----

  const TypeReg: char := '0'
  const TypeDir: char := '5'

  /** A header as `tar.Reader.Next` returns it, with the bytes copying its body delivers. */
  datatype TarHeader = TarHeader(name: string, typeflag: char, mode: int, data: seq<byte>)

  /** What one call of `Next` gives: a header, or an error other than `io.EOF`. The end of
      the sequence is `io.EOF`. */
  datatype TarRecord = Header(header: TarHeader) | ReadError(reason: string)

  /** `os.FileMode(header.Mode)`: the `int64` mode truncated to 32 bits. */
  function FileMode(mode: int): (m: nat)
    ensures m < 0x1_0000_0000 && (m - mode) % 0x1_0000_0000 == 0
  {
    mode % 0x1_0000_0000
  }

  /** One header of the tar loop. There is no containment check: the target is wherever
      `Join(dest, name)` lands. */
  function TarEntry(fs: FS, dest: Path, h: TarHeader): Effect {
    var target := Join([dest, h.name]);
    if h.typeflag == TypeDir then Effect(None, MkdirAll(fs, target).fs)
    else if h.typeflag == TypeReg then
      var fs1 := MkdirAll(fs, Dir(target)).fs;
      if !CanCreate(fs1, target) then Effect(Some(CannotCreate(target)), fs1)
      else
        var fs2 := WriteData(Truncate(fs1, target, CreatePerm), target, h.data);
        Effect(None, Chmod(fs2, target, FileMode(h.mode)))
    else Effect(None, fs)
  }

  /** The tar loop: headers in order until the end (nil) or a read error (returned). */
  function ExtractTar(fs: FS, dest: Path, records: seq<TarRecord>): Effect
    decreases |records|
  {
    if records == [] then Effect(None, fs)
    else match records[0]
      case ReadError(reason) => Effect(Some(ArchiveUnreadable(reason)), fs)
      case Header(h) =>
        var o := TarEntry(fs, dest, h);
        if o.err.Some? then o else ExtractTar(o.fs, dest, records[1..])
  }

  /** What `extractTarGz(src, dest)` does: open and decode the archive, then the tar loop. */
  function Untar(fs: FS, src: Path, dest: Path, decode: seq<byte> -> Option<seq<TarRecord>>): Effect {
    match OpenArchive(fs, src, decode)
    case Err(e) => Effect(Some(e), fs)
    case Ok(records) => ExtractTar(fs, dest, records)
  }

  /** `extractTarGz(src, dest)`. */
  method ExtractTarGz(fs0: FS, src: Path, dest: Path, decode: seq<byte> -> Option<seq<TarRecord>>)
    returns (err: Option<IoError>, fs: FS)
    ensures Effect(err, fs) == Untar(fs0, src, dest, decode)
    ensures OpenArchive(fs0, src, decode).Err? ==> err == Some(OpenArchive(fs0, src, decode).error) && fs == fs0
    ensures OpenArchive(fs0, src, decode).Ok? ==> Effect(err, fs) == ExtractTar(fs0, dest, OpenArchive(fs0, src, decode).value)
  {
    fs := fs0;
    var archive := OpenArchive(fs, src, decode);
    if archive.Err? {
      return Some(archive.error), fs;
    }
    var records := archive.value;
    var i := 0;
    while i < |records|
      invariant 0 <= i <= |records|
      invariant ExtractTar(fs0, dest, records) == ExtractTar(fs, dest, records[i..])
    {
      assert records[i..][0] == records[i] && records[i..][1..] == records[i + 1..];
      if records[i].ReadError? {
        return Some(ArchiveUnreadable(records[i].reason)), fs;
      }
      var header := records[i].header;
      var target := Join([dest, header.name]);
      if header.typeflag == TypeDir {
        fs := MkdirAll(fs, target).fs;
      } else if header.typeflag == TypeReg {
        fs := MkdirAll(fs, Dir(target)).fs;
        if !CanCreate(fs, target) {
          return Some(CannotCreate(target)), fs;
        }
        fs := Truncate(fs, target, CreatePerm);
        fs := WriteData(fs, target, header.data);
        fs := Chmod(fs, target, FileMode(header.mode));
      }
      i := i + 1;
    }
    err := None;
  }

  // ----- Properties of the tar loop -----

  /** Only directory and regular-file headers act; every other type leaves the disk unchanged. */
  lemma OtherTypesIgnored(fs: FS, dest: Path, h: TarHeader)
    requires h.typeflag != TypeDir && h.typeflag != TypeReg
    ensures TarEntry(fs, dest, h) == Effect(None, fs)
  {
  }

  /** A regular file lands at `Join(dest, name)` with its bytes and the header's mode, whatever
      the name; only an unopenable target stops the loop. */
  lemma RegularFileWritten(fs: FS, dest: Path, h: TarHeader)
    requires h.typeflag == TypeReg
    ensures var target := Join([dest, h.name]);
            var fs1 := MkdirAll(fs, Dir(target)).fs;
            var o := TarEntry(fs, dest, h);
            && (CanCreate(fs1, target) ==> o.err.None? && target in o.fs && o.fs[target] == File(h.data, FileMode(h.mode)))
            && (!CanCreate(fs1, target) ==> o == Effect(Some(CannotCreate(target)), fs1))
  {
  }

  /** Traversal: a regular file named "../e" is written beside the destination, outside
      `Clean(dest)+"/"`, where the zip loop would have skipped the same name. */
  lemma TarEscapesDest(fs: FS, dest: Path, e: string, mode: int, data: seq<byte>)
    requires EndsInName(dest) && PlainName(e)
    requires var target := Join([dest, "../" + e]);
             CanCreate(MkdirAll(fs, Dir(target)).fs, target)
    ensures var target := Join([dest, "../" + e]);
            var o := TarEntry(fs, dest, TarHeader("../" + e, TypeReg, mode, data));
            && !HasPrefix(target, Clean(dest) + "/")
            && Dir(target) == Dir(Clean(dest)) && Base(target) == e
            && o.err.None? && target in o.fs && o.fs[target] == File(data, FileMode(mode))
    ensures ExtractEntry(fs, dest, Entry("../" + e, false, FileMode(mode), true, data)) == Effect(None, fs)
  {
    Join2(dest, "../" + e);
    assert dest + "/" + ("../" + e) == dest + "/../" + e;
    CleanUpAndOver(dest, e);
    DotDotEntrySkipped(fs, dest, e, false, FileMode(mode), true, data);
  }

  /** A read error is returned at once: the headers after it are never processed and the
      work already done stays. */
  lemma {:induction false} ReadErrorStops(fs: FS, dest: Path, before: seq<TarHeader>, reason: string, after: seq<TarRecord>)
    requires ExtractTar(fs, dest, Headers(before)).err.None?
    ensures ExtractTar(fs, dest, Headers(before) + [ReadError(reason)] + after)
         == Effect(Some(ArchiveUnreadable(reason)), ExtractTar(fs, dest, Headers(before)).fs)
    decreases |before|
  {
    var rest := [ReadError(reason)] + after;
    if before == [] {
      assert Headers(before) + rest == rest;
      assert Headers(before) + [ReadError(reason)] + after == rest;
    } else {
      var records := Headers(before) + [ReadError(reason)] + after;
      assert records[0] == Header(before[0]);
      assert records[1..] == Headers(before[1..]) + [ReadError(reason)] + after;
      var o := TarEntry(fs, dest, before[0]);
      assert Headers(before)[1..] == Headers(before[1..]);
      ReadErrorStops(o.fs, dest, before[1..], reason, after);
    }
  }

  /** Headers read with no error. */
  function Headers(hs: seq<TarHeader>): (r: seq<TarRecord>)
    ensures |r| == |hs| && forall i :: 0 <= i < |hs| ==> r[i] == Header(hs[i])
    decreases |hs|
  {
    if hs == [] then [] else [Header(hs[0])] + Headers(hs[1..])
  }

  /** The tar loop with the zip loop's guard added: a header whose joined path is not strictly
      below the cleaned destination is skipped. */
  function TarEntryFixed(fs: FS, dest: Path, h: TarHeader): Effect {
    if !Guard(dest, Join([dest, h.name])) then Effect(None, fs) else TarEntry(fs, dest, h)
  }

  function ExtractTarFixed(fs: FS, dest: Path, records: seq<TarRecord>): Effect
    decreases |records|
  {
    if records == [] then Effect(None, fs)
    else match records[0]
      case ReadError(reason) => Effect(Some(ArchiveUnreadable(reason)), fs)
      case Header(h) =>
        var o := TarEntryFixed(fs, dest, h);
        if o.err.Some? then o else ExtractTarFixed(o.fs, dest, records[1..])
  }

  /** With the guard, one header changes nothing outside the cleaned destination except
      directories on its lineage. */
  lemma TarEntryFixedConfined(fs: FS, dest: Path, h: TarHeader)
    ensures ChangesConfined(fs, TarEntryFixed(fs, dest, h).fs, Clean(dest))
  {
    var d := Clean(dest);
    var target := Join([dest, h.name]);
    CleanNonEmpty(dest);
    if Guard(dest, target) && (h.typeflag == TypeDir || h.typeflag == TypeReg) {
      Join2(dest, h.name);
      var x :| target == Clean(x) by {
        if dest != "" {
          assert target == Clean(dest + "/" + h.name);
        } else {
          assert target == Clean(h.name);
        }
      }
      if h.typeflag == TypeDir {
        MkdirAllConfined(fs, target, d);
      } else {
        DirStaysBelow(x, d);
        MkdirAllConfined(fs, Dir(target), d);
        var fs1 := MkdirAll(fs, Dir(target)).fs;
        if CanCreate(fs1, target) {
          var fs2 := WriteData(Truncate(fs1, target, CreatePerm), target, h.data);
          var fs3 := Chmod(fs2, target, FileMode(h.mode));
          assert ChangesConfined(fs1, fs3, d);
          ConfinedTransitive(fs, fs1, fs3, d);
        }
      }
    } else {
      ConfinedReflexive(fs, d);
    }
  }

  /** With the guard, the whole tar loop is confined like the zip loop, however it ends. */
  lemma {:induction false} ExtractTarFixedConfined(fs: FS, dest: Path, records: seq<TarRecord>)
    ensures ChangesConfined(fs, ExtractTarFixed(fs, dest, records).fs, Clean(dest))
    decreases |records|
  {
    if records == [] || records[0].ReadError? {
      ConfinedReflexive(fs, Clean(dest));
    } else {
      var o := TarEntryFixed(fs, dest, records[0].header);
      TarEntryFixedConfined(fs, dest, records[0].header);
      if o.err.None? {
        ExtractTarFixedConfined(o.fs, dest, records[1..]);
        ConfinedTransitive(fs, o.fs, ExtractTarFixed(o.fs, dest, records[1..]).fs, Clean(dest));
      }
    }
  }

  /** The guarded loop skips the "../e" header that the loop as written follows. */
  lemma TarFixedSkipsEscape(fs: FS, dest: Path, e: string, typeflag: char, mode: int, data: seq<byte>)
    requires EndsInName(dest) && PlainName(e)
    ensures TarEntryFixed(fs, dest, TarHeader("../" + e, typeflag, mode, data)) == Effect(None, fs)
  {
    Join2(dest, "../" + e);
    assert dest + "/" + ("../" + e) == dest + "/../" + e;
    CleanUpAndOver(dest, e);
  }

  // ----- Finding the executable -----

  /** One callback of `filepath.Walk`: a visited path (its name is its base name), or an error
      that the callback returns, ending the walk. */
  datatype WalkItem = Visit(path: Path, isDir: bool) | WalkError(path: Path, reason: string)

  function JavaName(goos: string): string {
    if goos == "windows" then "java.exe" else "java"
  }

  predicate IsJava(item: WalkItem, target: string) {
    item.Visit? && !item.isDir && Base(item.path) == target
  }

  /** Position `i` is the first match of the walk, and the walk reaches it. */
  predicate FirstMatchAt(walk: seq<WalkItem>, target: string, i: int) {
    0 <= i < |walk| && IsJava(walk[i], target)
    && forall j :: 0 <= j < i ==> walk[j].Visit? && !IsJava(walk[j], target)
  }

  /** `findJavaExec(root)` over the walk of `root`. */
  method FindJavaExec(goos: string, walk: seq<WalkItem>) returns (r: Result<Path, string>)
    ensures r.Ok? <==> exists i :: FirstMatchAt(walk, JavaName(goos), i) && walk[i].path != ""
    ensures r.Ok? ==> exists i :: FirstMatchAt(walk, JavaName(goos), i) && r.value == walk[i].path
    ensures r.Err? ==> r.error == "not found"
  {
    var javaPath := "";
    var target := JavaName(goos);
    var i := 0;
    while i < |walk|
      invariant 0 <= i <= |walk| && javaPath == ""
      invariant NoMatchBefore(walk, target, i)
    {
      var item := walk[i];
      if item.WalkError? {
        break;
      }
      if IsJava(item, target) {
        javaPath := item.path;
        break;
      }
      i := i + 1;
    }
    WalkStopped(walk, target, i, javaPath);
    assert javaPath != "" <==> exists k :: FirstMatchAt(walk, JavaName(goos), k) && walk[k].path != "";
    if javaPath != "" {
      return Ok(javaPath);
    }
    return Err("not found");
  }

  /** The first `i` items of the walk are visits that do not match. */
  predicate NoMatchBefore(walk: seq<WalkItem>, target: string, i: int) {
    forall j :: 0 <= j < i && j < |walk| ==> walk[j].Visit? && !IsJava(walk[j], target)
  }

  /** Where the walk stopped decides the outcome: a non-empty path found there is the first
      match, and otherwise no first match has a non-empty path. */
  lemma WalkStopped(walk: seq<WalkItem>, target: string, i: int, javaPath: Path)
    requires 0 <= i <= |walk|
    requires NoMatchBefore(walk, target, i)
    requires javaPath != "" ==> i < |walk| && IsJava(walk[i], target) && javaPath == walk[i].path
    requires javaPath == "" ==> i == |walk| || walk[i].WalkError? || (IsJava(walk[i], target) && walk[i].path == "")
    ensures javaPath != "" <==> exists k :: FirstMatchAt(walk, target, k) && walk[k].path != ""
    ensures javaPath != "" ==> exists k :: FirstMatchAt(walk, target, k) && javaPath == walk[k].path
  {
    if javaPath != "" {
      FoundAt(walk, target, i);
    } else {
      StoppedWithoutPath(walk, target, i);
    }
  }

  /** A match at `i` after `i` non-matching visits is the only first match. */
  lemma FoundAt(walk: seq<WalkItem>, target: string, i: int)
    requires 0 <= i < |walk| && IsJava(walk[i], target)
    requires forall j :: 0 <= j < i ==> walk[j].Visit? && !IsJava(walk[j], target)
    ensures FirstMatchAt(walk, target, i)
    ensures forall k :: FirstMatchAt(walk, target, k) ==> k == i
  {
    FirstMatchUnique(walk, target);
  }

  /** A walk that passed `i` items without a match and then ended, hit an error, or matched
      an empty path has no first match with a non-empty path. */
  lemma StoppedWithoutPath(walk: seq<WalkItem>, target: string, i: int)
    requires 0 <= i <= |walk|
    requires forall j :: 0 <= j < i ==> walk[j].Visit? && !IsJava(walk[j], target)
    requires i < |walk| ==> walk[i].WalkError? || (IsJava(walk[i], target) && walk[i].path == "")
    ensures forall k :: FirstMatchAt(walk, target, k) ==> walk[k].path == ""
  {
  }

  /** There is at most one first match. */
  lemma FirstMatchUnique(walk: seq<WalkItem>, target: string)
    ensures forall i, j :: FirstMatchAt(walk, target, i) && FirstMatchAt(walk, target, j) ==> i == j
  {
  }

  /** `walk` is a walk of `root` on `fs`: it visits existing paths at or below `root`, and
      tells directories from files as the disk does. */
  ghost predicate WalkOf(fs: FS, root: Path, walk: seq<WalkItem>) {
    forall i :: 0 <= i < |walk| && walk[i].Visit? ==>
      && (walk[i].path == root || HasPrefix(walk[i].path, root + "/"))
      && Exists(fs, walk[i].path)
      && (walk[i].isDir <==> IsDir(fs, walk[i].path))
  }

  /** What `findJavaExec` returns is a file named `java` (or `java.exe`) inside the root. */
  lemma FoundIsJavaFile(fs: FS, root: Path, goos: string, walk: seq<WalkItem>, i: int)
    requires WalkOf(fs, root, walk) && FirstMatchAt(walk, JavaName(goos), i)
    ensures IsFile(fs, walk[i].path) && Base(walk[i].path) == JavaName(goos)
    ensures walk[i].path == root || HasPrefix(walk[i].path, root + "/")
  {
  }

  // ----- EnsureJava -----

  datatype JavaError = Io(io: IoError) | UnsupportedPlatform(message: string) | NotFound

  function LocalJre(cwd: Path): Path {
    Join([cwd, "bin", "jre"])
  }

  function TempArchive(cwd: Path): Path {
    Join([Join([cwd, "temp"]), "jre_temp.archive"])
  }

  /** The environment `EnsureJava` runs in: the working directory and platform, the two walks
      of `bin/jre` (before and after installing), the network's answer for each URL and the two archive
      decoders. */
  datatype Host = Host(
    cwd: Path, goos: string, goarch: string,
    walkBefore: seq<WalkItem>, walkAfter: seq<WalkItem>,
    fetch: string -> Download.Fetch,
    unzip: seq<byte> -> Option<seq<Entry>>,
    untar: seq<byte> -> Option<seq<TarRecord>>)

  /** The extraction `EnsureJava` runs on the downloaded archive: `extractZip` on windows,
      `extractTarGz` elsewhere, both into `bin/jre`. */
  function Install(fs: FS, host: Host): Effect {
    if host.goos == "windows" then Unzip(fs, TempArchive(host.cwd), LocalJre(host.cwd), host.unzip)
    else Untar(fs, TempArchive(host.cwd), LocalJre(host.cwd), host.untar)
  }

  /** The walk finds a usable executable. */
  predicate Finds(walk: seq<WalkItem>, goos: string) {
    exists i :: 0 <= i < |walk| && FirstMatchAt(walk, JavaName(goos), i) && walk[i].path != ""
  }

  /** `EnsureJava()`. */
  method EnsureJava(fs0: FS, host: Host) returns (r: Result<Path, JavaError>, fs: FS)
    ensures Finds(host.walkBefore, host.goos) && WalkOf(fs0, LocalJre(host.cwd), host.walkBefore) ==>
              r.Ok? && IsFile(fs, r.value) && Base(r.value) == JavaName(host.goos)
    ensures Finds(host.walkBefore, host.goos) ==>
              fs == fs0 && r.Ok? && exists i :: FirstMatchAt(host.walkBefore, JavaName(host.goos), i) && r.value == host.walkBefore[i].path
    ensures !Finds(host.walkBefore, host.goos) ==>
              var m := MkdirAll(fs0, LocalJre(host.cwd));
              && (m.err.Some? ==> r == Err(Io(m.err.value)) && fs == fs0)
              && (m.err.None? && SelectPlatform(host.goos, host.goarch).SystemJava? ==> r == Ok("java") && fs == m.fs)
              && (m.err.None? && SelectPlatform(host.goos, host.goarch).Unsupported? ==>
                    r == Err(UnsupportedPlatform(SelectPlatform(host.goos, host.goarch).message)) && fs == m.fs)
    ensures !Finds(host.walkBefore, host.goos) && MkdirAll(fs0, LocalJre(host.cwd)).err.None?
            && SelectPlatform(host.goos, host.goarch).Fetch? ==>
              var t := MkdirAll(MkdirAll(fs0, LocalJre(host.cwd)).fs, Join([host.cwd, "temp"]));
              && (t.err.Some? ==> r == Err(Io(t.err.value)) && fs == MkdirAll(fs0, LocalJre(host.cwd)).fs)
              && (t.err.None? ==>
                    var d := DownloadFile(t.fs, TempArchive(host.cwd), host.fetch(SelectPlatform(host.goos, host.goarch).url));
                    && (d.err.Some? ==> r == Err(Io(d.err.value)) && fs == d.fs)
                    && (d.err.None? ==>
                          var x := Install(d.fs, host);
                          && fs == Remove(x.fs, TempArchive(host.cwd))
                          && (x.err.Some? ==> r == Err(Io(x.err.value)))
                          && (x.err.None? && !Finds(host.walkAfter, host.goos) ==> r == Err(NotFound))
                          && (x.err.None? && Finds(host.walkAfter, host.goos) ==>
                                r.Ok? && exists i :: FirstMatchAt(host.walkAfter, JavaName(host.goos), i)
                                                     && r.value == host.walkAfter[i].path)))
    ensures r.Ok? && r.value != "java" ==>
              (exists i :: FirstMatchAt(host.walkBefore, JavaName(host.goos), i) && r.value == host.walkBefore[i].path)
              || (exists i :: FirstMatchAt(host.walkAfter, JavaName(host.goos), i) && r.value == host.walkAfter[i].path)
  {
    var localJre := LocalJre(host.cwd);
    var found := FindJavaExec(host.goos, host.walkBefore);
    if found.Ok? {
      if WalkOf(fs0, localJre, host.walkBefore) {
        var i :| FirstMatchAt(host.walkBefore, JavaName(host.goos), i) && found.value == host.walkBefore[i].path;
        FoundIsJavaFile(fs0, localJre, host.goos, host.walkBefore, i);
      }
      return Ok(found.value), fs0;
    }
    var m := MkdirAll(fs0, localJre);
    if m.err.Some? {
      return Err(Io(m.err.value)), fs0;
    }
    fs := m.fs;
    var platform := SelectPlatform(host.goos, host.goarch);
    if platform.SystemJava? {
      return Ok("java"), fs;
    } else if platform.Unsupported? {
      return Err(UnsupportedPlatform(platform.message)), fs;
    }
    var tempDir := Join([host.cwd, "temp"]);
    var t := MkdirAll(fs, tempDir);
    if t.err.Some? {
      return Err(Io(t.err.value)), fs;
    }
    fs := t.fs;
    var tempFile := TempArchive(host.cwd);
    var d := DownloadFile(fs, tempFile, host.fetch(platform.url));
    fs := d.fs;
    if d.err.Some? {
      return Err(Io(d.err.value)), fs;
    }
    var err: Option<IoError>;
    if host.goos == "windows" {
      err, fs := ExtractArchive(fs, tempFile, localJre, host.unzip);
    } else {
      err, fs := ExtractTarGz(fs, tempFile, localJre, host.untar);
    }
    if err.Some? {
      fs := Remove(fs, tempFile);
      return Err(Io(err.value)), fs;
    }
    var after := FindJavaExec(host.goos, host.walkAfter);
    fs := Remove(fs, tempFile);
    if after.Ok? {
      return Ok(after.value), fs;
    }
    return Err(NotFound), fs;
  }
}
