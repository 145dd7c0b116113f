/** The download helpers of `dep` and `java` (`downloadFile` and `downloadFileWithProgress`
    are the same code): create the target first, then fetch, then copy the body through a
    `WriteCounter` that counts bytes in a `uint64`. */
module Download {
  import opened Text
  import opened Paths
  import opened Results
  import opened Files

  const Uint64: int := 0x1_0000_0000_0000_0000

  /** A `uint64` addition: wraps around at 2^64. */
  function Advance(current: int, n: int): int {
    (current + n) % Uint64
  }

  /** The progress counter the body is teed through. */
  class WriteCounter {
    var total: int
    var current: int

    ghost predicate Valid()
      reads this
    {
      0 <= total < Uint64 && 0 <= current < Uint64
    }

    /** `&WriteCounter{Total: uint64(size)}`: a negative `size` wraps around. */
    constructor (size: int)
      ensures Valid() && total == size % Uint64 && current == 0
    {
      total := size % Uint64;
      current := 0;
    }

    /** `Write` accepts every byte it is given and counts them. */
    method Write(p: seq<byte>) returns (n: int)
      requires Valid()
      modifies this
      ensures Valid() && n == |p|
      ensures current == Advance(old(current), |p|) && total == old(total)
    {
      n := |p|;
      current := (current + n) % Uint64;
    }

    /** The two figures of the progress line: whole mebibytes so far and expected. */
    function Megabytes(): (r: (int, int))
      requires Valid()
      reads this
      ensures 0 <= r.0 && r.0 * 1048576 <= current < (r.0 + 1) * 1048576
      ensures 0 <= r.1 && r.1 * 1048576 <= total < (r.1 + 1) * 1048576
    {
      (current / 1024 / 1024, total / 1024 / 1024)
    }

    /** `io.Copy` through the tee: one `Write` per chunk the body arrives in. */
    method CountChunks(chunks: seq<seq<byte>>)
      requires Valid()
      modifies this
      ensures Valid() && total == old(total)
      ensures current == Counted(old(current), chunks)
    {
      var i := 0;
      while i < |chunks|
        invariant 0 <= i <= |chunks| && Valid() && total == old(total)
        invariant Counted(old(current), chunks) == Counted(current, chunks[i..])
      {
        assert chunks[i..][0] == chunks[i] && chunks[i..][1..] == chunks[i + 1..];
        var _ := Write(chunks[i]);
        i := i + 1;
      }
    }
  }

  /** The counter after a sequence of writes. */
  function Counted(current: int, chunks: seq<seq<byte>>): int
    decreases |chunks|
  {
    if chunks == [] then current else Counted(Advance(current, |chunks[0]|), chunks[1..])
  }

  function TotalLength(chunks: seq<seq<byte>>): nat
    decreases |chunks|
  {
    if chunks == [] then 0 else |chunks[0]| + TotalLength(chunks[1..])
  }

  lemma AdvanceTwice(c: int, a: int, b: int)
    ensures Advance(Advance(c, a), b) == Advance(c, a + b)
  {
    var q := (c + a) / Uint64;
    assert c + a == q * Uint64 + (c + a) % Uint64;
    assert (c + a) % Uint64 + b == (c + a + b) - q * Uint64;
  }

  /** How the body is chunked does not matter: the counter ends at the byte count, modulo 2^64. */
  lemma {:induction false} CountedIsTotal(current: int, chunks: seq<seq<byte>>)
    requires 0 <= current < Uint64
    ensures Counted(current, chunks) == Advance(current, TotalLength(chunks))
    decreases |chunks|
  {
    if chunks == [] {
      assert current % Uint64 == current;
    } else {
      var c1 := Advance(current, |chunks[0]|);
      CountedIsTotal(c1, chunks[1..]);
      AdvanceTwice(current, |chunks[0]|, TotalLength(chunks[1..]));
    }
  }

  /** Below 16 EiB there is no wrap-around: the counter is exactly the number of bytes. */
  lemma CountedExact(chunks: seq<seq<byte>>)
    requires TotalLength(chunks) < Uint64
    ensures Counted(0, chunks) == TotalLength(chunks)
  {
    CountedIsTotal(0, chunks);
  }

  /** What the network does for one request. */
  datatype Fetch =
    | RequestFailed(reason: string)
      /** A response: its status code and text, the body bytes that arrived, and whether
          the body ended normally. */
    | Response(code: int, status: string, body: seq<byte>, complete: bool)

  /** `downloadFile(url, path)`: the target is created (truncated) before the request is made,
      and is not removed on any error. */
  function DownloadFile(fs: FS, path: Path, fetch: Fetch): (e: Effect)
    ensures !CanCreate(fs, path) ==> e == Effect(Some(CannotCreate(path)), fs)
    ensures CanCreate(fs, path) ==> IsFile(e.fs, path) && e.fs.Keys == fs.Keys + {path}
    ensures e.err.None? <==> CanCreate(fs, path) && fetch.Response? && fetch.code == 200 && fetch.complete
    ensures e.err.None? ==> e.fs[path].data == fetch.body
    ensures forall k :: k in fs && k != path ==> k in e.fs && e.fs[k] == fs[k]
  {
    if !CanCreate(fs, path) then Effect(Some(CannotCreate(path)), fs)
    else
      var fs1 := Truncate(fs, path, CreatePerm);
      match fetch
      case RequestFailed(reason) => Effect(Some(DownloadFailed(reason)), fs1)
      case Response(code, status, body, complete) =>
        if code != 200 then Effect(Some(DownloadFailed("status: " + status)), fs1)
        else
          var fs2 := WriteData(fs1, path, body);
          if !complete then Effect(Some(DownloadFailed("body")), fs2) else Effect(None, fs2)
  }
}
