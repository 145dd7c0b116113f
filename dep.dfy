/** The renamer dependency: make sure `lib/ApkRenamer/renamer.jar` exists under the working
    directory, downloading and unpacking the release archive when it does not. */
module Dep {
  import opened Text
  import opened Paths
  import opened Results
  import opened Files
  import opened Zip
  import opened Download

  const RenamerUrl := "https://github.com/dvaoru/ApkRenamer/releases/download/1.9.7/ApkRenamer.zip"
  const JarName := "renamer.jar"

  function LibDir(cwd: Path): Path {
    Join([cwd, "lib"])
  }

  function MainJar(cwd: Path): Path {
    Join([LibDir(cwd), "ApkRenamer", JarName])
  }

  function TempDir(cwd: Path): Path {
    Join([cwd, "temp"])
  }

  function TempZip(cwd: Path): Path {
    Join([TempDir(cwd), "renamer.zip"])
  }

  /** `EnsureRenamer()` in working directory `cwd`, with the network answering `fetch` and
      `decode` reading zip archives. */
  method EnsureRenamer(fs0: FS, cwd: Path, fetch: Fetch, decode: seq<byte> -> Option<seq<Entry>>)
    returns (err: Option<IoError>, fs: FS)
    ensures Exists(fs0, MainJar(cwd)) ==> err.None? && fs == fs0
    ensures !Exists(fs0, MainJar(cwd)) && MkdirAll(fs0, LibDir(cwd)).err.Some? ==>
              err == MkdirAll(fs0, LibDir(cwd)).err && fs == fs0
    ensures !Exists(fs0, MainJar(cwd)) && MkdirAll(fs0, LibDir(cwd)).err.None? ==>
              var fs1 := MkdirAll(MkdirAll(fs0, LibDir(cwd)).fs, TempDir(cwd)).fs;
              var d := DownloadFile(fs1, TempZip(cwd), fetch);
              && (d.err.Some? ==> err == d.err && fs == d.fs)
              && (d.err.None? ==>
                    var u := Unzip(d.fs, TempZip(cwd), LibDir(cwd), decode);
                    && err == u.err && fs == Remove(u.fs, TempZip(cwd))
                    && TempZip(cwd) !in fs
                    && forall k :: k in fs && (k !in d.fs || fs[k] != d.fs[k]) ==>
                         HasPrefix(k, Clean(LibDir(cwd)) + "/") || (k in Lineage(Clean(LibDir(cwd))) && fs[k] == Directory))
  {
    var libDir := LibDir(cwd);
    var mainJarPath := MainJar(cwd);
    if Exists(fs0, mainJarPath) {
      return None, fs0;
    }
    var m := MkdirAll(fs0, libDir);
    if m.err.Some? {
      return m.err, fs0;
    }
    fs := m.fs;
    var tempDir := TempDir(cwd);
    fs := MkdirAll(fs, tempDir).fs;
    var tempZip := TempZip(cwd);
    var d := DownloadFile(fs, tempZip, fetch);
    fs := d.fs;
    if d.err.Some? {
      return d.err, fs;
    }
    err, fs := ExtractArchive(fs, tempZip, libDir, decode);
    fs := Remove(fs, tempZip);
  }
}
