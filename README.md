# android-package-signer-service, modelled in Dafny

The service takes APK uploads and re-packages them under a new package name, app name and icon by
running an external Java tool (ApkRenamer). It caches results by a content hash. At start-up it
makes sure that the tool's jar and a Java runtime are present, downloading and unpacking them
when they are not. This project models that core and proves properties of the model:

- `text.dfy` (`Text`): bytes, prefix and substring tests, and the UTF-8 encoding of Go string
  conversions, which is proved injective.
- `paths.dfy` (`Paths`): the lexical part of Go's `path/filepath` with `/` as separator
  (`Clean`, `Join`, `Dir`, `Base`). It is the vocabulary for everything that joins a name from
  outside onto a directory.
- `files.dfy` (`Files`): a file system as a map from cleaned paths to directories and files,
  with `os.MkdirAll`, `os.Create`, writing, `os.Chmod`, `os.Remove` and the service's `copyFile`.
  `ChangesConfined` says that nothing changed outside a directory except directories on its own
  lineage.
- `zip.dfy` (`Zip`): the zip extraction loop, which is the same code in `dep/manager.go`
  (`unzipAll`) and `java/manager.go` (`extractZip`), with its Zip-Slip guard.
- `download.dfy` (`Download`): the `WriteCounter` progress counter, which is identical in both
  managers, and `downloadFile` / `downloadFileWithProgress`.
- `dep.dfy` (`Dep`): `EnsureRenamer`.
- `java.dfy` (`Java`): `EnsureJava`, the platform switch, `extractTarGz` and `findJavaExec`.
- `framing.dfy` (`Framing`): a self-delimiting byte encoding. It is used only by the corrected
  cache key (see Findings).
- `worker.dfy` (`Worker`): the cache key, the tool's arguments and environment, and the
  `Service` with its concurrency semaphore and `ProcessApk`.
- `api.dfy` (`Api`): the HTTP handlers' decisions, covering the workspace, upload, templates,
  process and download.

Everything outside the program is a parameter of the model:

- the working directory and the environment;
- the platform (`GOOS`, `GOARCH`);
- the network's answer;
- the archive decoders;
- the order of a directory walk;
- SHA-256, as a function from bytes to bytes;
- which ready case of a `select` fires;
- what the external tool writes and whether it exits with an error.

Where the Go code walks a loop or updates an object, the model is imperative:

- `ExtractEntries`, `ExtractTarGz`, `FindJavaExec`, `CalculateCacheKey` and `BuildArgs` are
  methods with loops or step-by-step updates.
- `WriteCounter`, `Hasher` and `Service` are classes.
- Each of them is proved equal to a specification function, and the properties are proved about
  that function.

## Model

| member | source | states |
|---|---|---|
| Zip.ExtractArchive | internal/dep/manager.go:89-127 | `unzipAll`: the result is opening the archive then the entry loop, and whatever the archive holds, nothing outside the cleaned destination changes except directories on its lineage |
| Zip.OpenArchive | internal/dep/manager.go:90-93 | opening succeeds exactly when the source is a readable file that decodes as an archive, and yields the decoded entries |
| Zip.ExtractEntries | internal/java/manager.go:177-205 | the entry loop of `extractZip` equals the entries applied in archive order, stopping at the first error |
| Zip.EntryConfined | internal/dep/manager.go:96-124 | one guarded entry changes nothing outside the cleaned destination except directories on its lineage |
| Zip.ExtractConfined | internal/java/manager.go:177-205 | Zip-Slip safety of the whole loop, whether it finishes or aborts |
| Zip.GuardFailSkips | internal/dep/manager.go:99-102 | an entry whose joined path is not strictly below the destination changes nothing and is not an error |
| Zip.EmptyAndDotResolveToDest | internal/dep/manager.go:97-100 | entries named "" or "." join to the destination itself, so the guard skips them |
| Zip.DotDotEntrySkipped | internal/dep/manager.go:97-102 | an entry named "../e" is skipped, whatever its kind or content |
| Zip.DirEntryOnlyDirs | internal/dep/manager.go:104-107 | a directory entry never fails and only adds directories |
| Zip.FileEntryWrites | internal/dep/manager.go:109-124 | a file entry that can be created and opened ends up holding exactly the entry's bytes, with the entry's mode when the file is new |
| Zip.FileEntryFailures | internal/dep/manager.go:111-120 | a file that cannot be created aborts with that path; an entry that cannot be opened aborts after its file was truncated to empty |
| Zip.AbortStops | internal/java/manager.go:190-199 | after an aborting entry, later entries have no effect |
| Zip.ExtractSnoc | internal/java/manager.go:177-204 | the loop over entries plus one more is the loop then that entry, unless the loop already failed |
| Zip.LastEntryWins | internal/java/manager.go:189-203 | when two entries name the same file, the later one's bytes remain |
| Download.WriteCounter.constructor | internal/dep/manager.go:68-69 | the total is the Content-Length converted to uint64, with wrap-around, and the count starts at 0 |
| Download.WriteCounter.Write | internal/dep/manager.go:82-87 | reports the whole chunk as written and advances the uint64 count by its length, modulo 2^64 |
| Download.WriteCounter.Megabytes | internal/java/manager.go:122-125 | the two numbers printed are the count and the total in whole mebibytes, rounded down |
| Download.WriteCounter.CountChunks | internal/dep/manager.go:70 | teeing a body through the counter leaves the count advanced chunk by chunk and the total unchanged |
| Download.AdvanceTwice | internal/java/manager.go:117 | two uint64 advances are one advance by the sum |
| Download.CountedIsTotal | internal/java/manager.go:115-120 | after any chunking the count is the starting count plus the body's length, modulo 2^64 |
| Download.CountedExact | internal/dep/manager.go:84 | for a body shorter than 2^64 bytes, counting from zero gives its exact length |
| Download.DownloadFile | internal/dep/manager.go:51-75 | the file is created before the request and left in place on every later failure; success holds exactly the body and requires status 200 and a complete copy; no other file changes |
| Dep.EnsureRenamer | internal/dep/manager.go:19-49 | an existing jar means nothing to do; a failing `lib` directory is returned; otherwise the download's error, or the extraction's result with the temporary archive removed, where every change the extraction made lies below `lib` or on its lineage |
| Java.SelectPlatform | internal/java/manager.go:41-57 | linux and windows on amd64 download their URL; linux and windows on another architecture are refused with the exact message; every other OS uses the system `java` |
| Java.FileMode | internal/java/manager.go:164 | `os.FileMode(header.Mode)` keeps the mode modulo 2^32 |
| Java.ExtractTarGz | internal/java/manager.go:127-168 | an unopenable or undecodable archive returns its error and changes nothing; otherwise the result is the tar loop over the records |
| Java.OtherTypesIgnored | internal/java/manager.go:153-165 | a header that is neither a directory nor a regular file changes nothing |
| Java.RegularFileWritten | internal/java/manager.go:156-164 | a regular file is written with its bytes and its truncated mode, or the loop returns the creation error |
| Java.TarEscapesDest | internal/java/manager.go:151-164 | a header "../e" writes `e` beside the destination, outside it, while the zip loop skips the same name |
| Java.ReadErrorStops | internal/java/manager.go:142-149 | a read error ends the loop with that error, after the headers before it took effect and before any after it |
| Java.TarEntryFixedConfined | internal/java/manager.go:151 | with the zip loop's guard added, one tar header changes nothing outside the cleaned destination except its lineage |
| Java.ExtractTarFixedConfined | internal/java/manager.go:142-166 | with the guard, the whole tar loop is confined, however it ends |
| Java.TarFixedSkipsEscape | internal/java/manager.go:151 | with the guard, the "../e" header is skipped |
| Java.FindJavaExec | internal/java/manager.go:208-230 | finds a path exactly when the walk reaches a non-directory named `java` (`java.exe` on windows) before any walk error, and returns the first such path; otherwise "not found" |
| Java.FirstMatchUnique | internal/java/manager.go:219-222 | the walk stops at the first match, so the match returned is unique |
| Java.FoundIsJavaFile | internal/java/manager.go:215-224 | on a walk of the tree, the path found is a file named for the platform inside the root |
| Java.EnsureJava | internal/java/manager.go:22-82 | an installed runtime is returned without change, and on a walk of the disk it is a file named for the platform; otherwise the `bin/jre` directory error, the system `java` or the platform refusal, as the switch says; on a supported platform the `temp` directory error, or the download's error with its file left in place, or else the archive fetched from the URL the switch selects, extracted into `bin/jre` (zip on windows, tar elsewhere) with the temporary archive removed afterwards and the extraction's error, the second walk's first match, or "not found" |
| Worker.Hasher.Write | internal/worker/service.go:131-134 | writing into the hash appends the bytes to what it has consumed |
| Worker.HexDigit | internal/worker/service.go:144 | a nibble below 10 becomes '0' plus the nibble, and one from 10 to 15 becomes 'a' plus the nibble less 10 |
| Worker.Hex | internal/worker/service.go:144 | `%x` gives two hex digits per byte |
| Worker.HexInjective | internal/worker/service.go:144 | distinct digests give distinct keys |
| Worker.CalculateCacheKey | internal/worker/service.go:119-145 | a missing input is reported as not existing, or as "not a directory" when a file stands in its way; an unreadable one as a read failure; otherwise the key is the hex of the hash of the input, the package name, the app name, "deep" when set, and the icon's bytes when it can be read |
| Worker.KeyFileName | internal/worker/service.go:43 | a hex key plus ".apk" is a plain file name, with no ".." and no "/" |
| Worker.JobPaths | internal/worker/service.go:43-49 | the cache file is `<key>.apk` directly in `data/cache`, and the destination is `<key>.apk` directly in the output directory |
| Worker.BuildArgs | internal/worker/service.go:72-89 | the argument list is built flag by flag as the specification function says |
| Worker.ParseFlagsRoundTrip | internal/worker/service.go:78-89 | the optional flags read back give exactly the options that produced them |
| Worker.ToolArgsRoundTrip | internal/worker/service.go:72-89 | the tool's argument list determines the jar, input, output and all four options |
| Worker.EntryKey | internal/worker/service.go:98-101 | an entry `name=value` sets `key` exactly when the names are equal |
| Worker.ToolEnvLookup | internal/worker/service.go:96-101 | the tool sees PATH with the runtime's directory in front and `JAVA_TOOL_OPTIONS=-Xmx512m`, and every other variable as the server has it |
| Worker.Service.constructor | internal/worker/service.go:19-25 | a new service holds its paths and a semaphore of `maxConcurrent` free slots, and has started no tool |
| Worker.Service.ProcessApk | internal/worker/service.go:36-117 | the result and the files are those of one job; the tool is started at most once, and each start is recorded; a start holds one slot more than were taken before the job, and the slot is given back on every path; the invariant keeps every recorded start within the semaphore's size |
| Worker.Service.RunTool | internal/worker/service.go:65-116 | the miss path runs only while a slot is held: output directory, cache directory, one launch with the job's arguments and environment, recorded with the slots taken, then the outcome of the run, where only a "does not exist" stat of the output is "output not generated" |
| Worker.HashFailureFirst | internal/worker/service.go:37-40 | a key failure is reported as "hash failed", before anything else happens, and only for an input that is not a readable file |
| Worker.CacheHit | internal/worker/service.go:44-54 | a hit never starts the tool, and on success delivers the cached bytes at the key's destination |
| Worker.ProcessOk | internal/worker/service.go:36-117 | every success returns the key's destination, which then holds a file |
| Worker.CopyFileOk | internal/worker/service.go:147-162 | a successful copy leaves a file at the destination |
| Worker.DeliverOk | internal/worker/service.go:46-53 | a successful delivery returns the destination, which holds a file |
| Worker.AfterRunOk | internal/worker/service.go:103-116 | a success after the run returns the destination, which holds a file |
| Worker.MissCancelled | internal/worker/service.go:58-63 | a miss whose `select` takes the context returns its error and changes nothing |
| Worker.MissLaunches | internal/worker/service.go:65-101 | a miss with a free slot starts the runtime once in the jar's directory with arguments that read back as the job; the cache file is absent before the run unless it lies on the output directory's lineage |
| Worker.CacheFileNotAncestor | internal/worker/service.go:69-70 | the cache file is not among the cache directory's ancestors |
| Worker.AfterRunOutcomes | internal/worker/service.go:103-116 | a run error is "execution failed"; a clean exit without output is "output not generated" when the stat reports it missing, and the copy's "not a directory" error when a file stands in the way of the cache; success copies exactly the tool's output |
| Worker.SeparatorlessCollision | internal/worker/service.go:131-132 | as written: package "ab" with app "" and package "a" with app "b" get the same key, though the tool is asked for different things |
| Worker.UnreadableIconIgnored | internal/worker/service.go:137-141 | as written: a job naming an unreadable icon gets the key of the same job without an icon |
| Worker.FailedRunPoisonsCache | internal/worker/service.go:103-105 | as written: a run that fails after writing part of its output reports the failure but leaves the partial file, and a later job with the same key is a hit that delivers it without starting the tool |
| Worker.FailedRunKeepsPartial | internal/worker/service.go:103-105 | as written: the failed job reports "execution failed" and its partial output stays at the cache path |
| Worker.PartialCacheHit | internal/worker/service.go:44-54 | a job whose cache file holds partial bytes starts no tool and delivers those bytes |
| Worker.FailedRunLeavesOutput | internal/worker/service.go:103-104 | a run error returns at once, without touching what the tool wrote |
| Framing.FieldRoundTrip | internal/worker/service.go:131-132 | a framed field reads back as itself, leaving what follows untouched |
| Framing.FieldsInjective | internal/worker/service.go:131-132 | consecutive framed fields cannot run into each other |
| Worker.FramedPreimageInjective | internal/worker/service.go:127-142 | the corrected hash input determines the input bytes, all four options and the icon bytes |
| Worker.CacheKeyFixedSeparates | internal/worker/service.go:119-145 | with the corrected key, equal keys mean equal input, options and icon unless the digest itself collides |
| Worker.CacheKeyFixedIcon | internal/worker/service.go:137-141 | the corrected key fails exactly when the icon is named but cannot be read |
| Worker.AfterRunFixedNoPoison | internal/worker/service.go:103-105 | with the correction, a failed run removes the cache file and changes nothing else; a good run is unchanged |
| Api.GetWorkspace | internal/api/handler.go:33-50 | a missing client id is refused with 401 and the exact message, and no files change; every failure is 401; success gives `data/<id>/in` and `data/<id>/out`, and both directories then exist |
| Api.GetWorkspaceOnlyDirs | internal/api/handler.go:45-48 | the lookup only ever adds directories |
| Api.WorkspaceLayout | internal/api/handler.go:40-42 | for a plain client id, `in` and `out` lie directly inside `data/<id>` |
| Api.WorkspaceLayoutNonEmpty | internal/api/handler.go:42 | the output directory path is never empty |
| Api.StoredName | internal/api/handler.go:75 | a part's stored name is non-empty exactly when the part was sent |
| Api.UploadAccepted | internal/api/handler.go:71-104 | an upload is accepted exactly when at least one part was sent, and it answers with the stored names; a refusal is 400 and writes nothing |
| Api.UploadedPartStored | internal/api/handler.go:75-79 | a part is stored under the base of its name, directly in `in` when that name is plain, with its bytes when the file can be created; no other file changes |
| Api.TemplateId | internal/api/handler.go:129-132 | the id is the form's id when given, else the base of the file name, and never empty |
| Api.TemplatesDirShape | internal/api/handler.go:136 | the templates directory is `data/templates` |
| Api.TemplateEscapePath | internal/api/handler.go:139 | "../e" joined to the templates directory is `data/e`, outside it |
| Api.TemplateIdEscapes | internal/api/handler.go:129-146 | as written: an id "../e" is accepted and stores the upload at `data/e` |
| Api.TemplatesFixedConfined | internal/api/handler.go:129-146 | with the id required to be a plain name, a stored template is a file directly in the templates directory and only directories change besides it; a "../" id is refused with 400 and changes nothing |
| Api.SelectInput | internal/api/handler.go:182-191 | there is an input exactly when a template id or a file name is given, and otherwise a 400 refusal with the exact message |
| Api.SelectInputPlace | internal/api/handler.go:183-187 | a template id wins over a file name; plain names select a file directly in the templates directory or the client's `in` directory |
| Api.JobOptions | internal/api/handler.go:193-213 | the job's input, and its icon when one is named, exist or have a file in the way, since only a "does not exist" stat error is refused; it carries the request's names, an icon in `in` exactly when one is named, and no deep rename; the tool's arguments read back as this job |
| Api.ProcessRejections | internal/api/handler.go:169-220 | refusals carry 400, 401, 404 or 500; 500 means exactly a failed worker run; refusals before the worker leave the files as the workspace lookup left them |
| Api.ProcessedName | internal/api/handler.go:216-229 | the file name returned passes the download check, the URL is built from it, and it names a file in the client's output directory |
| Api.ProcessedFileDownloads | internal/api/handler.go:223-258 | downloading that name in the same workspace serves the worker's result |
| Api.ValidNameShape | internal/api/handler.go:246 | a name the download check accepts is a plain name or "." |
| Api.ValidNameInside | internal/api/handler.go:246-251 | an accepted name joined to a directory is that directory or a file directly inside it |
| Api.DownloadConfined | internal/api/handler.go:239-255 | only the client's output directory or a file directly inside it is ever served, and only when it exists |
| Api.NoFileInTheWay | internal/api/handler.go:251-254 | below the output directory that the workspace lookup just made, a stat that does not report "does not exist" means the file exists |
| Api.FileInTheWayReachesWorker | internal/api/handler.go:193-196 | an uploaded name with a file in the way, such as "a.apk/x", is not refused with 404: the worker's hashing fails with "not a directory" and the handler answers 500 |

## Left out

- The process working directory is a parameter of the model. The error of `os.Getwd` in
  `EnsureRenamer` and `EnsureJava` is not modelled, and the handlers ignore it anyway.
- Only `/` is modelled as a path separator. On windows, `\` separators, volume names and the `;`
  list separator are not modelled; the PATH entry uses `:`.
- The file system has no permissions, links or other processes. `CanCreate` abstracts every
  reason `os.Create` or `os.OpenFile` can fail. Directory creation fails only on a file in the
  way. `os.Stat` fails for a missing path; `os.IsNotExist` holds of that failure only when no
  ancestor spelled in the path is a file, since a file in the way gives "not a directory"
  (`StatNotExist`). Opening such a path fails with "not a directory" too (`MissingError`).
- File modes are stored but never enforced. `os.Chmod` errors are ignored, as in the code.
- The HTTP layer is left out: the method checks (405), multipart parsing, JSON encoding and
  decoding, `http.ServeFile`, the `Content-Disposition` header and the routes in `server.go` and
  `main.go`. A handler receives the parsed form or decoded request, or the fact that parsing
  failed.
- The network is an outcome: an error, or a status with a body and whether the copy completed.
  The `status:` message text is not modelled.
- Zip, gzip and tar decoding are decoder parameters. A zip entry that cannot be opened is one
  whose local header or compression method `File.Open` refuses. Corrupt data or a checksum
  mismatch inside an entry shows up only in the `io.Copy` whose error the loop ignores, so such
  an entry is one whose data is the bytes copied before the failure, and the truncated file
  stays. The tar stream is a sequence of headers ending in the end
  or a read error.
- SHA-256 is a function parameter. `CacheKeyFixedSeparates` therefore concludes equality of
  the hashed inputs only up to a collision of that function.
- The external tool is an outcome, consisting of an exit error and the output file it wrote,
  if any. Its standard output and error, its own subprocesses and `exec.CommandContext` killing
  it on cancellation are not modelled.
- Worker.Service.ProcessApk: blocking in `select` is not modelled. The host chooses which
  ready case fires, and the precondition only says that case is ready. Concurrent jobs and their
  interleaving on shared files are not modelled.
- Java.EnsureJava: the walks before and after installing are parameters, not derived from the
  disk. Only when the first walk is a walk of the disk (`WalkOf`) does the contract say that
  the path found is a file; the second walk is not tied to the extracted files.
- Directory walk order is the order of the walk sequence given. `filepath.Walk`'s lexical order
  is not modelled.
- Progress printing and console messages are left out; `Megabytes` gives the two printed
  numbers.
- Download.DownloadFile: the `Content-Length` header's parse error, which yields 0, is inside
  the size parameter of `WriteCounter`.
- Deferred `Close` calls and their errors are ignored, as the code ignores them.
- Go strings are byte sequences; the model's strings are sequences of Unicode characters,
  encoded by `Utf8`. Zip entry names, upload names and client ids that are not valid UTF-8
  cannot be written down in the model.

## Findings

| source | as written | input that shows it | evidently intended | confidence | as-written member | corrected member |
|---|---|---|---|---|---|---|
| internal/worker/service.go:131-132 | the package name and app name are written into the hash back to back, with no separator or length | package "ab" with app "" and package "a" with app "b": same key, so the second job is served the first job's cached APK | the key separates different options | not executed; follows from the byte layout | Worker.SeparatorlessCollision | Worker.CacheKeyFixedSeparates |
| internal/worker/service.go:137-141 | an icon that cannot be opened is silently left out of the hash | a job whose icon path is missing or a directory gets the key of the job without an icon | the key reflects the icon the tool is asked to use, or the job fails | not executed | Worker.UnreadableIconIgnored | Worker.CacheKeyFixedIcon |
| internal/worker/service.go:103-105 | a failed run returns without removing a cache file the tool may have partly written | the tool writes part of its output and then exits with an error; the next job with the same key is a hit that delivers the partial file | only completed output enters the cache | not executed; needs a tool that writes before failing | Worker.FailedRunPoisonsCache | Worker.AfterRunFixedNoPoison |
| internal/api/handler.go:129-139 | the template id from the form is joined to the templates directory unchecked; latent, since `Routes` in internal/api/server.go:16-21 does not register `handleTemplates` | id "../e" writes the upload to `data/e`, outside `data/templates` | the id names a file inside the templates directory | not executed; latent while the handler is not routed | Api.TemplateIdEscapes | Api.TemplatesFixedConfined |
| internal/java/manager.go:151-164 | the tar loop joins header names to the destination without the Zip-Slip guard the zip loop has | a header "../e" of a hostile archive writes `e` beside `bin/jre` | tar extraction is confined like zip extraction | not executed; needs a hostile archive from the download source | Java.TarEscapesDest | Java.ExtractTarFixedConfined |

The template-id row is latent in the server as shipped. The routed `/process` handler joins
its `template_id` to the templates directory in the same unchecked way, but only to read an
input (internal/api/handler.go:182-185); `SelectInputPlace` states where plain names lead and
nothing is claimed for other names.

The operational members (`Service.ProcessApk`, `HandleTemplates`, `ExtractTarGz`) model the
code as written. Each corrected definition (`CacheKeyFixed`, `AfterRunFixed`,
`HandleTemplatesFixed`, `ExtractTarFixed`) stands beside its original, with its property proved.
