/** The zip-extraction loop that both `dep.unzipAll` and `java.extractZip` carry, line for
    line: join each entry name to the destination, skip it unless the joined path lies
    strictly below the cleaned destination (the Zip-Slip guard), create directories for
    directory entries, and write file entries through a truncating open. */
module Zip {
  import opened Text
  import opened Paths
  import opened Results
  import opened Files

  /** One entry of the archive's central directory, already decoded. `opens` tells whether
      `f.Open()` succeeds for it; `data` is what copying its stream delivers (a copy error
      is ignored by the loop, so a short stream simply leaves fewer bytes). */
  datatype Entry = Entry(name: string, isDir: bool, mode: nat, opens: bool, data: seq<byte>)

  /** The Zip-Slip guard: `strings.HasPrefix(fpath, filepath.Clean(dest)+"/")`. */
  predicate Guard(dest: Path, fpath: Path) {
    HasPrefix(fpath, Clean(dest) + "/")
  }

  /** One iteration of the loop. */
  function ExtractEntry(fs: FS, dest: Path, e: Entry): Effect {
    var fpath := Join([dest, e.name]);
    if !Guard(dest, fpath) then Effect(None, fs)
    else if e.isDir then Effect(None, MkdirAll(fs, fpath).fs)
    else
      var fs1 := MkdirAll(fs, Dir(fpath)).fs;
      if !CanCreate(fs1, fpath) then Effect(Some(CannotCreate(fpath)), fs1)
      else
        var fs2 := Truncate(fs1, fpath, e.mode);
        if !e.opens then Effect(Some(EntryUnreadable(e.name)), fs2)
        else Effect(None, WriteData(fs2, fpath, e.data))
  }

  /** The whole loop: entries in archive order, stopping at the first error. */
  function Extract(fs: FS, dest: Path, entries: seq<Entry>): Effect
    decreases |entries|
  {
    if entries == [] then Effect(None, fs)
    else
      var o := ExtractEntry(fs, dest, entries[0]);
      if o.err.Some? then o else Extract(o.fs, dest, entries[1..])
  }

  /** The loop as the Go code runs it, over the decoded entries. */
  method ExtractEntries(fs0: FS, dest: Path, entries: seq<Entry>) returns (err: Option<IoError>, fs: FS)
    ensures Effect(err, fs) == Extract(fs0, dest, entries)
  {
    fs := fs0;
    var i := 0;
    while i < |entries|
      invariant 0 <= i <= |entries|
      invariant Extract(fs0, dest, entries) == Extract(fs, dest, entries[i..])
    {
      var f := entries[i];
      assert entries[i..][0] == f && entries[i..][1..] == entries[i + 1..];
      var fpath := Join([dest, f.name]);
      if !HasPrefix(fpath, Clean(dest) + "/") {
        i := i + 1;
        continue;
      }
      if f.isDir {
        fs := MkdirAll(fs, fpath).fs;
        i := i + 1;
        continue;
      }
      fs := MkdirAll(fs, Dir(fpath)).fs;
      if !CanCreate(fs, fpath) {
        return Some(CannotCreate(fpath)), fs;
      }
      fs := Truncate(fs, fpath, f.mode);
      if !f.opens {
        return Some(EntryUnreadable(f.name)), fs;
      }
      fs := WriteData(fs, fpath, f.data);
      i := i + 1;
    }
    err := None;
  }

  /** Opening the archive: a missing file cannot be opened; anything that does not decode
      as an archive, a directory included, fails in the reader. */
  function OpenArchive<T>(fs: FS, src: Path, decode: seq<byte> -> Option<T>): (r: Result<T, IoError>)
    ensures r.Ok? <==> IsFile(fs, src) && decode(fs[src].data).Some?
    ensures r.Ok? ==> r.value == decode(fs[src].data).value
  {
    if !Exists(fs, src) then Err(MissingError(fs, src))
    else if !IsFile(fs, src) then Err(ArchiveUnreadable("not an archive"))
    else match decode(fs[src].data)
      case None => Err(ArchiveUnreadable("not an archive"))
      case Some(x) => Ok(x)
  }

  /** Opening the archive at `src`, then the loop. */
  function Unzip(fs: FS, src: Path, dest: Path, decode: seq<byte> -> Option<seq<Entry>>): Effect {
    match OpenArchive(fs, src, decode)
    case Err(e) => Effect(Some(e), fs)
    case Ok(entries) => Extract(fs, dest, entries)
  }

  /** `unzipAll(src, dest)` and `extractZip(src, dest)`, which are the same code: whatever the
      archive holds, nothing outside `Clean(dest)` changes but directories on its lineage. */
  method ExtractArchive(fs0: FS, src: Path, dest: Path, decode: seq<byte> -> Option<seq<Entry>>)
    returns (err: Option<IoError>, fs: FS)
    ensures Effect(err, fs) == Unzip(fs0, src, dest, decode)
    ensures ChangesConfined(fs0, fs, Clean(dest))
  {
    var archive := OpenArchive(fs0, src, decode);
    if archive.Err? {
      ConfinedReflexive(fs0, Clean(dest));
      return Some(archive.error), fs0;
    }
    err, fs := ExtractEntries(fs0, dest, archive.value);
    ExtractConfined(fs0, dest, archive.value);
  }

  // ----- Properties -----

  /** One entry changes nothing outside the cleaned destination except directories on its lineage. */
  lemma EntryConfined(fs: FS, dest: Path, e: Entry)
    ensures ChangesConfined(fs, ExtractEntry(fs, dest, e).fs, Clean(dest))
  {
    var d := Clean(dest);
    var fpath := Join([dest, e.name]);
    CleanNonEmpty(dest);
    if Guard(dest, fpath) {
      Join2(dest, e.name);
      var x :| fpath == Clean(x) by {
        if dest != "" {
          assert fpath == Clean(dest + "/" + e.name);
        } else {
          assert fpath == Clean(e.name);
        }
      }
      if e.isDir {
        MkdirAllConfined(fs, fpath, d);
      } else {
        DirStaysBelow(x, d);
        MkdirAllConfined(fs, Dir(fpath), d);
        var fs1 := MkdirAll(fs, Dir(fpath)).fs;
        if CanCreate(fs1, fpath) {
          var fs2 := Truncate(fs1, fpath, e.mode);
          assert ChangesConfined(fs1, fs2, d);
          ConfinedTransitive(fs, fs1, fs2, d);
          if e.opens {
            assert ChangesConfined(fs2, WriteData(fs2, fpath, e.data), d);
            ConfinedTransitive(fs, fs2, WriteData(fs2, fpath, e.data), d);
          }
        }
      }
    }
  }

  /** Zip-Slip safety: whether extraction finishes or aborts, every file it writes, and every
      directory it creates except the destination's own lineage, lies below `Clean(dest)+"/"`. */
  lemma {:induction false} ExtractConfined(fs: FS, dest: Path, entries: seq<Entry>)
    ensures ChangesConfined(fs, Extract(fs, dest, entries).fs, Clean(dest))
    decreases |entries|
  {
    if entries == [] {
      ConfinedReflexive(fs, Clean(dest));
    } else {
      var o := ExtractEntry(fs, dest, entries[0]);
      EntryConfined(fs, dest, entries[0]);
      if o.err.None? {
        ExtractConfined(o.fs, dest, entries[1..]);
        ConfinedTransitive(fs, o.fs, Extract(o.fs, dest, entries[1..]).fs, Clean(dest));
      }
    }
  }

  /** A directory entry never creates a file and never fails. */
  lemma DirEntryOnlyDirs(fs: FS, dest: Path, e: Entry)
    requires e.isDir
    ensures ExtractEntry(fs, dest, e).err.None?
    ensures OnlyDirsAdded(fs, ExtractEntry(fs, dest, e).fs)
  {
    MkdirAllOnlyDirs(fs, Join([dest, e.name]));
  }

  /** An entry that fails the guard is skipped without error and without effect; in particular
      one that resolves to the destination itself. */
  lemma GuardFailSkips(fs: FS, dest: Path, e: Entry)
    requires !Guard(dest, Join([dest, e.name])) || Join([dest, e.name]) == Clean(dest)
    ensures ExtractEntry(fs, dest, e) == Effect(None, fs)
  {
  }

  /** The names "" and "." (and any name that cleans away) resolve to the destination itself. */
  lemma EmptyAndDotResolveToDest(dest: Path, name: string)
    requires dest != "" && (name == "" || name == ".")
    ensures Join([dest, name]) == Clean(dest)
  {
    Join2(dest, name);
    CleanIgnoresTrailing(dest, name);
  }

  /** A file entry whose target can be opened and whose stream opens leaves exactly its bytes
      at the joined path, with its own mode when the file is new and the old mode otherwise. */
  lemma FileEntryWrites(fs: FS, dest: Path, e: Entry)
    requires !e.isDir && e.opens && Guard(dest, Join([dest, e.name]))
    requires CanCreate(MkdirAll(fs, Dir(Join([dest, e.name]))).fs, Join([dest, e.name]))
    ensures var fpath := Join([dest, e.name]);
            var fs1 := MkdirAll(fs, Dir(fpath)).fs;
            var o := ExtractEntry(fs, dest, e);
            && o.err.None? && fpath in o.fs
            && o.fs[fpath] == File(e.data, if IsFile(fs1, fpath) then fs1[fpath].mode else e.mode)
  {
  }

  /** A target that cannot be opened aborts with that error; an entry stream that cannot be
      opened aborts too, after the target was already truncated to nothing. */
  lemma FileEntryFailures(fs: FS, dest: Path, e: Entry)
    requires !e.isDir && Guard(dest, Join([dest, e.name]))
    ensures var fpath := Join([dest, e.name]);
            var fs1 := MkdirAll(fs, Dir(fpath)).fs;
            var o := ExtractEntry(fs, dest, e);
            && (!CanCreate(fs1, fpath) ==> o == Effect(Some(CannotCreate(fpath)), fs1))
            && (CanCreate(fs1, fpath) && !e.opens ==>
                  o.err == Some(EntryUnreadable(e.name)) && fpath in o.fs && o.fs[fpath].File? && o.fs[fpath].data == [])
  {
  }

  /** Appending entries after an aborting prefix changes nothing: later entries are never
      processed and earlier writes stay. */
  lemma {:induction false} AbortStops(fs: FS, dest: Path, entries: seq<Entry>, more: seq<Entry>)
    requires Extract(fs, dest, entries).err.Some?
    ensures Extract(fs, dest, entries + more) == Extract(fs, dest, entries)
    decreases |entries|
  {
    assert entries != [];
    assert (entries + more)[0] == entries[0];
    assert (entries + more)[1..] == entries[1..] + more;
    var o := ExtractEntry(fs, dest, entries[0]);
    if o.err.None? {
      AbortStops(o.fs, dest, entries[1..], more);
    }
  }

  /** Extraction of `entries + [e]` is extraction of `entries` followed by one more iteration. */
  lemma {:induction false} ExtractSnoc(fs: FS, dest: Path, entries: seq<Entry>, e: Entry)
    ensures var o := Extract(fs, dest, entries);
            Extract(fs, dest, entries + [e]) == if o.err.Some? then o else ExtractEntry(o.fs, dest, e)
    decreases |entries|
  {
    if entries == [] {
      assert entries + [e] == [e];
      assert [e][1..] == [];
    } else {
      assert (entries + [e])[0] == entries[0];
      assert (entries + [e])[1..] == entries[1..] + [e];
      var o := ExtractEntry(fs, dest, entries[0]);
      if o.err.None? {
        ExtractSnoc(o.fs, dest, entries[1..], e);
      }
    }
  }

  /** When several entries share a name, the last one's content wins (`O_TRUNC`). */
  lemma LastEntryWins(fs: FS, dest: Path, entries: seq<Entry>, e: Entry)
    requires Extract(fs, dest, entries).err.None?
    requires !e.isDir && e.opens && Guard(dest, Join([dest, e.name]))
    requires var mid := Extract(fs, dest, entries).fs;
             CanCreate(MkdirAll(mid, Dir(Join([dest, e.name]))).fs, Join([dest, e.name]))
    ensures var r := Extract(fs, dest, entries + [e]);
            r.err.None? && IsFile(r.fs, Join([dest, e.name])) && r.fs[Join([dest, e.name])].data == e.data
  {
    ExtractSnoc(fs, dest, entries, e);
    FileEntryWrites(Extract(fs, dest, entries).fs, dest, e);
  }

  /** A traversal attempt: an entry named "../e" would land beside the destination, so the
      guard skips it. */
  lemma DotDotEntrySkipped(fs: FS, dest: Path, e: string, isDir: bool, mode: nat, opens: bool, data: seq<byte>)
    requires EndsInName(dest) && PlainName(e)
    ensures ExtractEntry(fs, dest, Entry("../" + e, isDir, mode, opens, data)) == Effect(None, fs)
  {
    Join2(dest, "../" + e);
    assert dest + "/" + ("../" + e) == dest + "/../" + e;
    CleanUpAndOver(dest, e);
  }
}
