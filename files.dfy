/** The disk as a map from clean paths to nodes, with the few `os` calls the service makes:
    `Stat`, `MkdirAll`, `Create`/`OpenFile(O_WRONLY|O_CREATE|O_TRUNC)`, `Chmod`, `Remove`
    and the `copyFile` helper of the worker. The root "/" and the working directory "."
    always exist as directories and are never entries of the map. */
module Files {
  import opened Text
  import opened Paths
  import opened Results

  datatype Node = Directory | File(data: seq<byte>, mode: nat)

  type FS = map<Path, Node>

  /** `os.ModePerm` (0777) and the permission `os.Create` uses (0666). */
  const ModePerm: nat := 0x1FF
  const CreatePerm: nat := 0x1B6

  datatype IoError =
    | NotExist(path: Path)
    | NotADirectory(path: Path)
    | CannotCreate(path: Path)
    | ReadFailed(path: Path)
    | EntryUnreadable(name: string)
    | ArchiveUnreadable(reason: string)
    | DownloadFailed(reason: string)

  datatype Effect = Effect(err: Option<IoError>, fs: FS)

  predicate IsDir(fs: FS, p: Path) {
    p == "/" || p == "." || (p in fs && fs[p].Directory?)
  }

  predicate IsFile(fs: FS, p: Path) {
    p in fs && fs[p].File?
  }

  /** `os.Stat(p)` succeeds. */
  predicate Exists(fs: FS, p: Path) {
    p == "/" || p == "." || p in fs
  }

  /** `os.IsNotExist` holds of the error of `os.Stat(p)`: `p` is missing and no ancestor spelled
      inside it is a file. A file in the way makes `Stat` fail with "not a directory" instead,
      which is not a "does not exist" error. */
  predicate StatNotExist(fs: FS, p: Path) {
    !Exists(fs, p) && forall a :: a in Lineage(p) && a != p ==> !IsFile(fs, a)
  }

  /** The error of opening a path that is not there: "does not exist", or "not a directory"
      when a file stands in the way. */
  function MissingError(fs: FS, p: Path): (e: IoError)
    ensures e == NotExist(p) <==> StatNotExist(fs, p)
    ensures e.NotExist? || e == NotADirectory(p)
  {
    if StatNotExist(fs, p) then NotExist(p) else NotADirectory(p)
  }

  /** `p` and every ancestor spelled inside it: the prefixes that end just before a separator. */
  function Lineage(p: Path): (r: set<Path>)
    ensures p in r
    ensures forall a :: a in r ==> a <= p
  {
    {p} + set i | 0 < i < |p| && p[i] == '/' :: p[..i]
  }

  /** `os.MkdirAll(p, perm)`: fails, creating nothing, when `p` or an ancestor is a file;
      otherwise creates every missing directory on the way. */
  function MkdirAll(fs: FS, p: Path): (e: Effect)
    ensures e.err.None? <==> forall a :: a in Lineage(p) ==> !IsFile(fs, a)
    ensures e.err.None? ==> IsDir(e.fs, p)
    ensures e.err.None? ==> forall a :: a in Lineage(p) ==> IsDir(e.fs, a) && !IsFile(e.fs, a)
  {
    if exists a :: a in Lineage(p) && IsFile(fs, a) then Effect(Some(NotADirectory(p)), fs)
    else Effect(None, fs + map a | a in Lineage(p) && !IsDir(fs, a) :: Directory)
  }

  /** `os.OpenFile(p, O_WRONLY|O_CREATE|O_TRUNC, _)` and `os.Create(p)` succeed: `p` is not a
      directory and its parent is one. */
  predicate CanCreate(fs: FS, p: Path) {
    !IsDir(fs, p) && IsDir(fs, Dir(p))
  }

  /** The file after a successful truncating open: empty, and with `perm` only when it is new. */
  function Truncate(fs: FS, p: Path, perm: nat): (r: FS)
    ensures r.Keys == fs.Keys + {p}
    ensures p in r && r[p] == File([], if IsFile(fs, p) then fs[p].mode else perm)
  {
    fs[p := File([], if IsFile(fs, p) then fs[p].mode else perm)]
  }

  /** Bytes written through an open file replace its content and keep its mode. */
  function WriteData(fs: FS, p: Path, data: seq<byte>): (r: FS)
    requires IsFile(fs, p)
    ensures r.Keys == fs.Keys && r[p] == File(data, fs[p].mode)
  {
    fs[p := File(data, fs[p].mode)]
  }

  /** `os.Chmod` on a file. */
  function Chmod(fs: FS, p: Path, mode: nat): (r: FS)
    requires IsFile(fs, p)
    ensures r.Keys == fs.Keys && r[p] == File(fs[p].data, mode)
  {
    fs[p := File(fs[p].data, mode)]
  }

  /** `os.Remove` with its error ignored. */
  function Remove(fs: FS, p: Path): (r: FS)
    ensures p !in r && forall k :: k in fs && k != p ==> k in r && r[k] == fs[k]
  {
    fs - {p}
  }

  /** The worker's `copyFile(src, dst)`: open the source, create (truncate) the destination,
      then copy. Reading a directory fails after the destination was truncated; copying a
      file onto itself reads the already truncated file. */
  function CopyFile(fs: FS, src: Path, dst: Path): Effect {
    if !Exists(fs, src) then Effect(Some(MissingError(fs, src)), fs)
    else if !CanCreate(fs, dst) then Effect(Some(CannotCreate(dst)), fs)
    else
      var fs1 := Truncate(fs, dst, CreatePerm);
      if !IsFile(fs1, src) then Effect(Some(ReadFailed(src)), fs1)
      else Effect(None, WriteData(fs1, dst, fs1[src].data))
  }

  // ----- What an operation may change -----

  /** Nothing is removed, and everything `after` adds or changes lies strictly below `d`,
      or is a directory at `d` or at an ancestor spelled inside `d`. */
  ghost predicate ChangesConfined(before: FS, after: FS, d: Path) {
    && before.Keys <= after.Keys
    && forall k :: k in after && (k !in before || after[k] != before[k]) ==>
         HasPrefix(k, d + "/") || (k in Lineage(d) && after[k] == Directory)
  }

  /** Nothing is removed and every added or changed entry is a directory. */
  ghost predicate OnlyDirsAdded(before: FS, after: FS) {
    && before.Keys <= after.Keys
    && forall k :: k in after && (k !in before || after[k] != before[k]) ==> after[k] == Directory
  }

  lemma ConfinedTransitive(a: FS, b: FS, c: FS, d: Path)
    requires ChangesConfined(a, b, d) && ChangesConfined(b, c, d)
    ensures ChangesConfined(a, c, d)
  {
    forall k | k in c && (k !in a || c[k] != a[k])
      ensures HasPrefix(k, d + "/") || (k in Lineage(d) && c[k] == Directory)
    {
      if k in b && k in c && c[k] == b[k] {
        assert k !in a || b[k] != a[k];
      }
    }
  }

  lemma ConfinedReflexive(a: FS, d: Path)
    ensures ChangesConfined(a, a, d)
  {
  }

  /** The ancestors of a child spelled `d/e`, `e` or `/e` are among those of `d`. */
  lemma ChildLineage(d: Path, e: string, t: Path)
    requires '/' !in e && (t == d + "/" + e || t == e || t == "/" + e)
    ensures forall a :: a in Lineage(t) && a != t ==> a in Lineage(d)
  {
    forall a | a in Lineage(t) && a != t
      ensures a in Lineage(d)
    {
      var i :| 0 < i < |t| && t[i] == '/' && a == t[..i];
      if t == e || t == "/" + e {
        assert false;
      }
      if i > |d| {
        assert false;
      }
      if i == |d| {
        assert a == d;
      } else {
        assert d[i] == t[i];
        assert a == d[..i];
      }
    }
  }

  /** `MkdirAll` only ever adds directories. */
  lemma MkdirAllOnlyDirs(fs: FS, p: Path)
    ensures OnlyDirsAdded(fs, MkdirAll(fs, p).fs)
  {
  }

  /** The lineage of a path at or below `d` consists of paths below `d` and of `d`'s own lineage. */
  lemma LineageBelow(p: Path, d: Path)
    requires p == d || HasPrefix(p, d + "/")
    ensures forall a :: a in Lineage(p) ==> HasPrefix(a, d + "/") || a in Lineage(d)
  {
    forall a | a in Lineage(p)
      ensures HasPrefix(a, d + "/") || a in Lineage(d)
    {
      if a != p && p != d {
        var i :| 0 < i < |p| && p[i] == '/' && a == p[..i];
        if i > |d| {
          assert (d + "/") == p[..|d| + 1];
          assert a[..|d| + 1] == p[..|d| + 1];
        } else if i == |d| {
          assert a == d;
        } else {
          assert p[..|d|] == d;
          assert d[i] == p[i];
          assert a == d[..i];
        }
      }
    }
  }

  /** `MkdirAll` of a path at or below `d` changes nothing outside `d` but directories on `d`'s lineage. */
  lemma MkdirAllConfined(fs: FS, p: Path, d: Path)
    requires p == d || HasPrefix(p, d + "/")
    ensures ChangesConfined(fs, MkdirAll(fs, p).fs, d)
  {
    LineageBelow(p, d);
  }
}
