/**
 * The resumable multi-file model downloader.
 *
 * The file system is a map from path to file length in bytes. The network
 * and the file operations that can fail are scripted: for the i-th file of
 * the model, `script[i]` holds the HTTP response the request gets and what
 * rename and copy do when the file is finalised. A run returns the final
 * file system, the requests sent, the progress values emitted, and whether
 * it completed.
 */
module ModelDownloader {
  import opened Wrappers
  import opened Text
  import M = ModelInfo

  /** Suffix of the staging file a download is written to before it is finalised. */
  const TempSuffix: string := ".tmp"

  /** Path to file length in bytes; a path absent from the map does not exist. */
  type FileSystem = map<string, nat>

  /** A response body: the declared Content-Length (-1 when unknown) and the sizes of the reads. */
  datatype Body = Body(contentLength: int, chunks: seq<nat>)

  datatype Response = Response(code: int, body: Option<Body>)

  /**
   * What finalising does: whether `renameTo` succeeds, and, if it does not,
   * the length of the target after `copyTo` (`None` when it is absent).
   */
  datatype Finalize = Finalize(renamed: bool, copiedLength: Option<nat>)

  /** What the i-th file's request gets back, and how its finalisation goes. */
  datatype Exchange = Exchange(response: Response, finalize: Finalize)

  /** A GET request, with `Range: bytes=<rangeFrom>-` when `rangeFrom` is present. */
  datatype Request = Request(url: string, rangeFrom: Option<nat>)

  datatype DownloadError =
    | HttpFailure(code: int, localName: string)
    | EmptyBody
    | Incomplete(localName: string, expected: int, got: int)
    | CopyVerificationFailed(localName: string)

  datatype Outcome = Completed | Failed(error: DownloadError)

  /** Everything one download run does. */
  datatype Run = Run(fs: FileSystem, requests: seq<Request>, progress: seq<real>, outcome: Outcome)

  /** What handling one file does: the new file system, its request, its progress values, its error. */
  datatype FileStep = FileStep(fs: FileSystem, request: Option<Request>, progress: seq<real>,
                               error: Option<DownloadError>)

  /** The directory holding one model's files. */
  function ModelDir(modelsDir: string, model: M.ModelInfo): (dir: string)
    ensures |dir| == |modelsDir| + 1 + |model.id| && dir[..|modelsDir|] == modelsDir && dir[|modelsDir| + 1..] == model.id
  {
    PathJoin(modelsDir, model.id)
  }

  /** The path of a model's first file; a model with no files has none. */
  function ModelFilePath(modelsDir: string, model: M.ModelInfo): (path: Option<string>)
    ensures path.Some? <==> model.files != []
    ensures path.Some? ==> path.value == PathJoin(ModelDir(modelsDir, model), model.files[0].localName)
  {
    if model.files == [] then None
    else Some(PathJoin(ModelDir(modelsDir, model), model.files[0].localName))
  }

  function TargetPath(dir: string, f: M.ModelFile): string
  {
    PathJoin(dir, f.localName)
  }

  function TempPath(dir: string, f: M.ModelFile): string
  {
    PathJoin(dir, f.localName + TempSuffix)
  }

  /** Every file of the model exists; a model with no files is always downloaded. */
  predicate IsModelDownloaded(modelsDir: string, model: M.ModelInfo, fs: FileSystem): (downloaded: bool)
    ensures downloaded <==> forall f :: f in model.files ==> TargetPath(ModelDir(modelsDir, model), f) in fs
  {
    model.files == [] ||
    forall k :: 0 <= k < |model.files| ==> TargetPath(ModelDir(modelsDir, model), model.files[k]) in fs
  }

  /** `File.length()`: 0 for a file that does not exist. */
  function LengthOf(fs: FileSystem, path: string): nat
  {
    if path in fs then fs[path] else 0
  }

  /** Deletes `path` if it exists (deletion is taken to succeed). */
  function SafeDelete(fs: FileSystem, path: string): (r: FileSystem)
    ensures path !in r && forall p :: p in fs && p != path ==> p in r && r[p] == fs[p]
    ensures r.Keys <= fs.Keys
  {
    fs - {path}
  }

  /** `isSuccessful`: a 2xx status. */
  predicate IsSuccessful(code: int)
  {
    200 <= code <= 299
  }

  function Sum(chunks: seq<nat>): nat
  {
    if chunks == [] then 0 else chunks[0] + Sum(chunks[1..])
  }

  /** Overall progress while file `i` of `n` has `bytesRead` of `totalBytes` bytes. */
  function FileProgress(i: nat, n: nat, bytesRead: int, totalBytes: int): real
    requires n > 0 && totalBytes > 0
  {
    ((i as real) + (bytesRead as real) / (totalBytes as real)) / (n as real)
  }

  /** The progress values reading `chunks` emits, starting from `bytesRead` bytes. */
  function ChunkProgress(chunks: seq<nat>, bytesRead: int, i: nat, n: nat, totalBytes: int): seq<real>
    requires n > 0
  {
    if chunks == [] then []
    else
      var b := bytesRead + chunks[0];
      (if totalBytes > 0 then [FileProgress(i, n, b, totalBytes)] else [])
        + ChunkProgress(chunks[1..], b, i, n, totalBytes)
  }

  /** Handling file `i` of `n`: a file whose target exists is skipped, counting as done. */
  function FetchFile(dir: string, f: M.ModelFile, i: nat, n: nat, fs: FileSystem, ex: Exchange): (step: FileStep)
    requires i < n
    ensures step.request.None? <==> TargetPath(dir, f) in fs
    ensures step.error.None? ==> TargetPath(dir, f) in step.fs
  {
    if TargetPath(dir, f) in fs then FileStep(fs, None, [((i + 1) as real) / (n as real)], None)
    else Transfer(dir, f, i, n, fs, ex.response, ex.finalize)
  }

  /**
   * Requesting a missing file, resuming from the staging file's length when
   * one exists; a non-2xx status or a missing body fails before anything is
   * written.
   */
  function Transfer(dir: string, f: M.ModelFile, i: nat, n: nat, fs: FileSystem, response: Response,
                    finalize: Finalize): (step: FileStep)
    requires i < n
    ensures step.request.Some? && step.request.value.url == f.url
    ensures !IsSuccessful(response.code) || response.body.None? ==> step.fs == fs && step.progress == []
    ensures step.error.None? ==> TargetPath(dir, f) in step.fs && TempPath(dir, f) !in step.fs
  {
    var temp := TempPath(dir, f);
    PathJoinInjective(dir, f.localName, f.localName + TempSuffix);
    var request := Request(f.url, if temp in fs then Some(fs[temp]) else None);
    if !IsSuccessful(response.code) then
      FileStep(fs, Some(request), [], Some(HttpFailure(response.code, f.localName)))
    else if response.body.None? then
      FileStep(fs, Some(request), [], Some(EmptyBody))
    else
      var body := response.body.value;
      var existingBytes := if response.code == 206 then LengthOf(fs, temp) else 0;
      var totalBytes := body.contentLength + existingBytes;
      var bytesRead := existingBytes + Sum(body.chunks);
      var progress := ChunkProgress(body.chunks, existingBytes, i, n, totalBytes);
      var written := fs[temp := bytesRead];
      if totalBytes > 0 && bytesRead != totalBytes then
        FileStep(SafeDelete(written, temp), Some(request), progress,
                 Some(Incomplete(f.localName, totalBytes, bytesRead)))
      else
        var r := FinalizeFile(TargetPath(dir, f), temp, written, finalize, f.localName);
        FileStep(r.0, Some(request), progress, r.1)
  }

  /**
   * Moving the staging file to the target: rename, or else copy and keep the
   * copy only if its length matches the staging file's.
   */
  function FinalizeFile(target: string, temp: string, fs: FileSystem, finalize: Finalize, localName: string)
    : (r: (FileSystem, Option<DownloadError>))
    requires temp in fs
    ensures target != temp && r.1.None? ==> target in r.0 && r.0[target] == fs[temp] && temp !in r.0
    ensures r.1.Some? ==> !finalize.renamed && target !in r.0 && r.1 == Some(CopyVerificationFailed(localName))
  {
    if finalize.renamed then ((fs - {temp})[target := fs[temp]], None)
    else
      var copied := match finalize.copiedLength
                    case Some(len) => fs[target := len]
                    case None => fs;
      if target in copied && copied[target] == copied[temp] then (SafeDelete(copied, temp), None)
      else (SafeDelete(copied, target), Some(CopyVerificationFailed(localName)))
  }

  /** The run over files `i..` of the model, ending with the final 1.0 unless a file fails. */
  function DownloadFrom(dir: string, files: seq<M.ModelFile>, script: seq<Exchange>, i: nat, fs: FileSystem): (run: Run)
    requires i <= |files| == |script|
    ensures |run.requests| <= |files| - i
    decreases |files| - i
  {
    if i == |files| then Run(fs, [], [1.0], Completed)
    else
      var step := FetchFile(dir, files[i], i, |files|, fs, script[i]);
      var request := if step.request.Some? then [step.request.value] else [];
      if step.error.Some? then
        Run(step.fs, request, step.progress, Failed(step.error.value))
      else
        var rest := DownloadFrom(dir, files, script, i + 1, step.fs);
        Run(rest.fs, request + rest.requests, step.progress + rest.progress, rest.outcome)
  }

  /** A whole download of `model`: a model with no files yields just 1.0. */
  function DownloadRun(modelsDir: string, model: M.ModelInfo, fs: FileSystem, script: seq<Exchange>): (run: Run)
    requires |script| == |model.files|
    ensures |run.requests| <= |model.files|
    ensures run.outcome.Failed? ==> model.files != []
  {
    if model.files == [] then Run(fs, [], [1.0], Completed)
    else DownloadFrom(ModelDir(modelsDir, model), model.files, script, 0, fs)
  }

  /** `requests` and `progress` happened before `run`. */
  function After(requests: seq<Request>, progress: seq<real>, run: Run): Run
  {
    Run(run.fs, requests + run.requests, progress + run.progress, run.outcome)
  }

  /**
   * Copies the response body into the staging file read by read, counting
   * the bytes and emitting overall progress after each read when the total
   * is known to be positive.
   */
  method WriteBody(fs0: FileSystem, temp: string, chunks: seq<nat>, existingBytes: nat, i: nat, n: nat,
                   totalBytes: int) returns (fs: FileSystem, bytesRead: nat, progress: seq<real>)
    requires n > 0
    ensures bytesRead == existingBytes + Sum(chunks)
    ensures fs == fs0[temp := bytesRead]
    ensures progress == ChunkProgress(chunks, existingBytes, i, n, totalBytes)
  {
    fs := fs0[temp := existingBytes];
    bytesRead := existingBytes;
    progress := [];
    var k := 0;
    while k < |chunks|
      invariant 0 <= k <= |chunks|
      invariant fs == fs0[temp := bytesRead]
      invariant bytesRead + Sum(chunks[k..]) == existingBytes + Sum(chunks)
      invariant progress + ChunkProgress(chunks[k..], bytesRead, i, n, totalBytes)
                == ChunkProgress(chunks, existingBytes, i, n, totalBytes)
    {
      var read := chunks[k];
      assert chunks[k..][1..] == chunks[k + 1..];
      fs := fs[temp := fs[temp] + read];
      bytesRead := bytesRead + read;
      if totalBytes > 0 {
        progress := progress + [FileProgress(i, n, bytesRead, totalBytes)];
      }
      k := k + 1;
    }
    assert chunks[k..] == [];
  }

  /** Renames the staging file to the target, falling back to a length-checked copy. */
  method FinalizeOne(target: string, temp: string, fs0: FileSystem, finalize: Finalize, localName: string)
    returns (fs: FileSystem, error: Option<DownloadError>)
    requires temp in fs0
    ensures (fs, error) == FinalizeFile(target, temp, fs0, finalize, localName)
  {
    fs := fs0;
    error := None;
    if finalize.renamed {
      fs := (fs - {temp})[target := fs[temp]];
      return;
    }
    match finalize.copiedLength {
      case Some(len) => fs := fs[target := len];
      case None =>
    }
    if target in fs && fs[target] == fs[temp] {
      fs := SafeDelete(fs, temp);
    } else {
      fs := SafeDelete(fs, target);
      error := Some(CopyVerificationFailed(localName));
    }
  }

  /** Handles file `i` of `n` (see `FetchFile`). */
  method FetchOne(dir: string, f: M.ModelFile, i: nat, n: nat, fs0: FileSystem, ex: Exchange)
    returns (step: FileStep)
    requires i < n
    ensures step == FetchFile(dir, f, i, n, fs0, ex)
  {
    var target := TargetPath(dir, f);
    if target in fs0 {
      return FileStep(fs0, None, [((i + 1) as real) / (n as real)], None);
    }
    var temp := TempPath(dir, f);
    var request := Request(f.url, None);
    if temp in fs0 {
      request := Request(f.url, Some(fs0[temp]));
    }
    var response := ex.response;
    if !IsSuccessful(response.code) {
      return FileStep(fs0, Some(request), [], Some(HttpFailure(response.code, f.localName)));
    }
    if response.body.None? {
      return FileStep(fs0, Some(request), [], Some(EmptyBody));
    }
    var body := response.body.value;
    var existingBytes: nat := if response.code == 206 then LengthOf(fs0, temp) else 0;
    var totalBytes := body.contentLength + existingBytes;
    var fs, bytesRead, progress := WriteBody(fs0, temp, body.chunks, existingBytes, i, n, totalBytes);
    if totalBytes > 0 && bytesRead != totalBytes {
      fs := SafeDelete(fs, temp);
      return FileStep(fs, Some(request), progress, Some(Incomplete(f.localName, totalBytes, bytesRead)));
    }
    var error;
    fs, error := FinalizeOne(target, temp, fs, ex.finalize, f.localName);
    step := FileStep(fs, Some(request), progress, error);
  }

  /**
   * One file's step, seen from the whole run: a failing step ends the run,
   * a succeeding one is followed by the run over the remaining files.
   */
  lemma StepThenRest(dir: string, files: seq<M.ModelFile>, script: seq<Exchange>, i: nat, fs: FileSystem,
                     requests: seq<Request>, progress: seq<real>, step: FileStep)
    requires i < |files| == |script|
    requires step == FetchFile(dir, files[i], i, |files|, fs, script[i])
    ensures var request := if step.request.Some? then [step.request.value] else [];
            && (step.error.Some? ==>
                  After(requests, progress, DownloadFrom(dir, files, script, i, fs))
                  == Run(step.fs, requests + request, progress + step.progress, Failed(step.error.value)))
            && (step.error.None? ==>
                  After(requests, progress, DownloadFrom(dir, files, script, i, fs))
                  == After(requests + request, progress + step.progress, DownloadFrom(dir, files, script, i + 1, step.fs)))
  {
  }

  /** Downloads every file of `model` in order, then emits 1.0; stops at the first failing file. */
  method Download(modelsDir: string, model: M.ModelInfo, fs0: FileSystem, script: seq<Exchange>)
    returns (run: Run)
    requires |script| == |model.files|
    ensures run == DownloadRun(modelsDir, model, fs0, script)
  {
    if model.files == [] {
      return Run(fs0, [], [1.0], Completed);
    }
    var dir := ModelDir(modelsDir, model);
    var files := model.files;
    var n := |files|;
    var fs := fs0;
    var requests: seq<Request> := [];
    var progress: seq<real> := [];
    var i := 0;
    while i < n
      invariant 0 <= i <= n
      invariant After(requests, progress, DownloadFrom(dir, files, script, i, fs))
                == DownloadFrom(dir, files, script, 0, fs0)
    {
      var step := FetchOne(dir, files[i], i, n, fs, script[i]);
      StepThenRest(dir, files, script, i, fs, requests, progress, step);
      var request := if step.request.Some? then [step.request.value] else [];
      if step.error.Some? {
        return Run(step.fs, requests + request, progress + step.progress, Failed(step.error.value));
      }
      requests := requests + request;
      progress := progress + step.progress;
      fs := step.fs;
      i := i + 1;
    }
    progress := progress + [1.0];
    run := Run(fs, requests, progress, Completed);
  }

  // ---------------------------------------------------------------------
  // Properties of a run
  // ---------------------------------------------------------------------

  ghost predicate Sorted(s: seq<real>)
  {
    forall j, k :: 0 <= j < k < |s| ==> s[j] <= s[k]
  }

  ghost predicate Within(s: seq<real>, lo: real, hi: real)
  {
    forall j :: 0 <= j < |s| ==> lo <= s[j] <= hi
  }

  /**
   * The HTTP client delivers no more bytes than a body declares when the
   * length is known, and a partial-content (206) reply declares its length.
   * A body of unknown length (-1) in any other reply is allowed.
   */
  ghost predicate WithinDeclaredLength(response: Response)
  {
    response.body.Some? ==>
      var body := response.body.value;
      && (body.contentLength >= 0 ==> Sum(body.chunks) <= body.contentLength)
      && (body.contentLength < 0 ==> response.code != 206)
  }

  ghost predicate ReadsWithinContentLength(script: seq<Exchange>)
  {
    forall k :: 0 <= k < |script| ==> WithinDeclaredLength(script[k].response)
  }

  /** No local name is another's staging name, so finishing one file never removes another. */
  ghost predicate NoStagingNameClash(files: seq<M.ModelFile>)
  {
    forall j, k :: 0 <= j < |files| && 0 <= k < |files| ==> files[j].localName != files[k].localName + TempSuffix
  }

  /** A model with no files emits exactly one value, 1.0, sends nothing and touches no file. */
  lemma NoFilesEmitsOnlyOne(modelsDir: string, model: M.ModelInfo, fs: FileSystem, script: seq<Exchange>)
    requires model.files == [] && script == []
    ensures DownloadRun(modelsDir, model, fs, script) == Run(fs, [], [1.0], Completed)
  {
  }

  /** A file whose target exists is skipped: no request, no change, its slot counted as complete. */
  lemma ExistingFileIsSkipped(dir: string, f: M.ModelFile, i: nat, n: nat, fs: FileSystem, ex: Exchange)
    requires i < n && TargetPath(dir, f) in fs
    ensures FetchFile(dir, f, i, n, fs, ex) == FileStep(fs, None, [((i + 1) as real) / (n as real)], None)
  {
  }

  /**
   * A missing file is requested from its URL, with a range starting at the
   * staging file's length exactly when a staging file exists.
   */
  lemma RangeRequestIffStagingFileExists(dir: string, f: M.ModelFile, i: nat, n: nat, fs: FileSystem,
                                         ex: Exchange)
    requires i < n && TargetPath(dir, f) !in fs
    ensures var request := FetchFile(dir, f, i, n, fs, ex).request;
            && request.Some? && request.value.url == f.url
            && (request.value.rangeFrom.Some? <==> TempPath(dir, f) in fs)
            && (request.value.rangeFrom.Some? ==> request.value.rangeFrom.value == fs[TempPath(dir, f)])
  {
  }

  /** A non-2xx status fails naming the status and the file, before anything is written. */
  lemma BadStatusWritesNothing(dir: string, f: M.ModelFile, i: nat, n: nat, fs: FileSystem, ex: Exchange)
    requires i < n && TargetPath(dir, f) !in fs && !IsSuccessful(ex.response.code)
    ensures FetchFile(dir, f, i, n, fs, ex).fs == fs
    ensures FetchFile(dir, f, i, n, fs, ex).progress == []
    ensures FetchFile(dir, f, i, n, fs, ex).error == Some(HttpFailure(ex.response.code, f.localName))
  {
  }

  /**
   * Resume accounting: a 206 appends to the staging file's bytes and a
   * different 2xx restarts from zero, so a renamed file holds the kept bytes
   * plus the bytes read, and the staging file is gone.
   */
  lemma ResumeAppendsRestartTruncates(dir: string, f: M.ModelFile, i: nat, n: nat, fs: FileSystem,
                                      ex: Exchange)
    requires i < n && TargetPath(dir, f) !in fs
    requires IsSuccessful(ex.response.code) && ex.response.body.Some? && ex.finalize.renamed
    requires var kept := if ex.response.code == 206 then LengthOf(fs, TempPath(dir, f)) else 0;
             var body := ex.response.body.value;
             body.contentLength + kept <= 0 || Sum(body.chunks) == body.contentLength
    ensures var kept := if ex.response.code == 206 then LengthOf(fs, TempPath(dir, f)) else 0;
            var step := FetchFile(dir, f, i, n, fs, ex);
            && step.error.None?
            && TargetPath(dir, f) in step.fs
            && step.fs[TargetPath(dir, f)] == kept + Sum(ex.response.body.value.chunks)
            && TempPath(dir, f) !in step.fs
  {
    assert TempPath(dir, f) != TargetPath(dir, f) by {
      PathJoinInjective(dir, f.localName, f.localName + TempSuffix);
    }
  }

  /**
   * Size check: with a positive expected total, a byte count that misses it
   * fails and discards the staging file; with no positive total nothing is
   * checked.
   */
  lemma SizeMismatchDiscardsStagingFile(dir: string, f: M.ModelFile, i: nat, n: nat, fs: FileSystem,
                                        ex: Exchange)
    requires i < n && TargetPath(dir, f) !in fs
    requires IsSuccessful(ex.response.code) && ex.response.body.Some?
    ensures var kept := if ex.response.code == 206 then LengthOf(fs, TempPath(dir, f)) else 0;
            var body := ex.response.body.value;
            var total := body.contentLength + kept;
            var step := FetchFile(dir, f, i, n, fs, ex);
            && (total > 0 && kept + Sum(body.chunks) != total ==>
                  step.error == Some(Incomplete(f.localName, total, kept + Sum(body.chunks)))
                  && TempPath(dir, f) !in step.fs)
            && (step.error.Some? && step.error.value.Incomplete? ==> total > 0)
  {
  }

  /**
   * When rename fails the copy is kept only if the target then has the
   * staging file's length, and the staging file is deleted; otherwise the
   * target is deleted and finalising fails.
   */
  lemma CopyFallbackVerifiesLength(target: string, temp: string, fs: FileSystem, finalize: Finalize,
                                   localName: string)
    requires temp in fs && target !in fs && target != temp && !finalize.renamed
    ensures var (fs', error) := FinalizeFile(target, temp, fs, finalize, localName);
            && (error.None? <==> finalize.copiedLength == Some(fs[temp]))
            && (error.None? ==> target in fs' && fs'[target] == fs[temp] && temp !in fs')
            && (error.Some? ==> target !in fs' && error == Some(CopyVerificationFailed(localName)))
  {
  }

  /**
   * A staging file resumed with a 206 whose length is unknown (-1) and that
   * already holds two or more bytes always fails the size check, and its
   * bytes are discarded: the expected total is one less than what was kept.
   */
  lemma ResumeWithUnknownLengthDiscardsStagingFile(dir: string, f: M.ModelFile, i: nat, n: nat,
                                                   fs: FileSystem, chunks: seq<nat>, finalize: Finalize)
    requires i < n && TargetPath(dir, f) !in fs
    requires TempPath(dir, f) in fs && fs[TempPath(dir, f)] >= 2
    ensures var kept := fs[TempPath(dir, f)];
            var step := FetchFile(dir, f, i, n, fs, Exchange(Response(206, Some(Body(-1, chunks))), finalize));
            && step.error == Some(Incomplete(f.localName, kept - 1, kept + Sum(chunks)))
            && TempPath(dir, f) !in step.fs
  {
  }

  /**
   * In the same situation, the first read already reports progress past the
   * end of the file's slot (past 1.0 for the last file): the unknown length
   * makes the expected total smaller than the bytes kept.
   */
  lemma ResumeWithUnknownLengthOvershoots(dir: string, f: M.ModelFile, i: nat, n: nat, fs: FileSystem,
                                          chunks: seq<nat>, finalize: Finalize)
    requires i < n && TargetPath(dir, f) !in fs
    requires TempPath(dir, f) in fs && fs[TempPath(dir, f)] >= 2 && chunks != []
    ensures var p := FetchFile(dir, f, i, n, fs, Exchange(Response(206, Some(Body(-1, chunks))), finalize)).progress;
            p != [] && p[0] > ((i + 1) as real) / (n as real)
  {
    var kept := fs[TempPath(dir, f)];
    var t := kept - 1;
    var b := kept + chunks[0];
    var p := ChunkProgress(chunks, kept, i, n, t);
    assert p[0] == FileProgress(i, n, b, t);
    var x := (b as real) / (t as real);
    QuotientAboveOne(b as real, t as real);
    assert ((i as real) + x) / (n as real) - ((i + 1) as real) / (n as real) == (x - 1.0) / (n as real);
  }

  lemma QuotientAboveOne(a: real, d: real)
    requires a > d > 0.0
    ensures a / d > 1.0
  {
    var q := a / d;
    assert q * d == a;
  }

  lemma DivideMonotone(a: real, b: real, d: real)
    requires a <= b && d > 0.0
    ensures a / d <= b / d
  {
    assert b / d - a / d == (b - a) / d;
  }

  /** Concatenating two sorted runs of values separated by `mid` keeps them sorted. */
  lemma SortedConcat(a: seq<real>, b: seq<real>, lo: real, mid: real, hi: real)
    requires lo <= mid <= hi
    requires Sorted(a) && Sorted(b) && Within(a, lo, mid) && Within(b, mid, hi)
    ensures Sorted(a + b) && Within(a + b, lo, hi)
  {
    var p := a + b;
    forall j, k | 0 <= j < k < |p| ensures p[j] <= p[k] {
      if k < |a| {
      } else if j >= |a| {
        assert p[j] == b[j - |a|] && p[k] == b[k - |a|];
      } else {
        assert p[j] <= mid <= p[k];
      }
    }
    forall j | 0 <= j < |p| ensures lo <= p[j] <= hi {
      if j >= |a| {
        assert p[j] == b[j - |a|];
      }
    }
  }

  /** Within one file, progress grows with the bytes read and stays inside the file's slot. */
  lemma FileProgressInSlot(i: nat, n: nat, b: int, b': int, t: int)
    requires i < n && 0 <= b <= b' <= t && t > 0
    ensures (i as real) / (n as real) <= FileProgress(i, n, b, t)
    ensures FileProgress(i, n, b, t) <= FileProgress(i, n, b', t)
    ensures FileProgress(i, n, b', t) <= ((i + 1) as real) / (n as real)
  {
    var tr := t as real;
    var x, x' := (b as real) / tr, (b' as real) / tr;
    DivideMonotone(0.0, b as real, tr);
    DivideMonotone(b as real, b' as real, tr);
    DivideMonotone(b' as real, tr, tr);
    var nr := n as real;
    DivideMonotone(i as real, (i as real) + x, nr);
    DivideMonotone((i as real) + x, (i as real) + x', nr);
    DivideMonotone((i as real) + x', (i as real) + 1.0, nr);
  }

  /**
   * The values one body emits are non-decreasing and lie between the
   * progress at the starting byte count and the end of the file's slot.
   */
  lemma {:induction false} ChunkProgressInSlot(chunks: seq<nat>, b: nat, i: nat, n: nat, t: int)
    requires i < n && (t > 0 ==> b + Sum(chunks) <= t)
    ensures var p := ChunkProgress(chunks, b, i, n, t);
            && Sorted(p)
            && (t > 0 ==> Within(p, FileProgress(i, n, b, t), ((i + 1) as real) / (n as real)))
            && (t <= 0 ==> p == [])
    decreases |chunks|
  {
    if chunks != [] {
      var b1 := b + chunks[0];
      ChunkProgressInSlot(chunks[1..], b1, i, n, t);
      if t > 0 {
        FileProgressInSlot(i, n, b, b1, t);
        FileProgressInSlot(i, n, b1, t, t);
        var p := ChunkProgress(chunks, b, i, n, t);
        var rest := ChunkProgress(chunks[1..], b1, i, n, t);
        assert p == [FileProgress(i, n, b1, t)] + rest;
      }
    }
  }

  /** The values one file emits are non-decreasing and inside the file's slot. */
  lemma FetchFileProgressInSlot(dir: string, f: M.ModelFile, i: nat, n: nat, fs: FileSystem, ex: Exchange)
    requires i < n
    requires WithinDeclaredLength(ex.response)
    ensures var p := FetchFile(dir, f, i, n, fs, ex).progress;
            Sorted(p) && Within(p, (i as real) / (n as real), ((i + 1) as real) / (n as real))
  {
    var step := FetchFile(dir, f, i, n, fs, ex);
    if TargetPath(dir, f) in fs {
      DivideMonotone(i as real, (i + 1) as real, n as real);
    } else if IsSuccessful(ex.response.code) && ex.response.body.Some? {
      var body := ex.response.body.value;
      var kept := if ex.response.code == 206 then LengthOf(fs, TempPath(dir, f)) else 0;
      var t := body.contentLength + kept;
      ChunkProgressInSlot(body.chunks, kept, i, n, t);
      if t > 0 {
        FileProgressInSlot(i, n, 0, kept, t);
      }
    }
  }

  /** Over files `i..`, the emitted values are non-decreasing and within [i/n, 1]. */
  lemma {:induction false} ProgressFromInRange(dir: string, files: seq<M.ModelFile>, script: seq<Exchange>,
                                                i: nat, fs: FileSystem)
    requires i <= |files| == |script| && |files| > 0
    requires ReadsWithinContentLength(script)
    ensures var run := DownloadFrom(dir, files, script, i, fs);
            Sorted(run.progress) && Within(run.progress, (i as real) / (|files| as real), 1.0)
    decreases |files| - i
  {
    var n := |files|;
    if i == n {
      assert (n as real) / (n as real) == 1.0;
    } else {
      var step := FetchFile(dir, files[i], i, n, fs, script[i]);
      var run := DownloadFrom(dir, files, script, i, fs);
      DownloadFromUnfold(dir, files, script, i, fs);
      assert WithinDeclaredLength(script[i].response);
      FetchFileProgressInSlot(dir, files[i], i, n, fs, script[i]);
      if step.error.None? {
        var rest := DownloadFrom(dir, files, script, i + 1, step.fs);
        ProgressFromInRange(dir, files, script, i + 1, step.fs);
        SlotThenRest(step.progress, rest.progress, i, n);
        assert run.progress == step.progress + rest.progress;
      } else {
        SlotThenRest(step.progress, [], i, n);
        assert step.progress + [] == step.progress == run.progress;
      }
    }
  }

  /** No files done out of `n` is no progress. */
  lemma NothingOverCount(n: nat)
    requires n > 0
    ensures (0 as real) / (n as real) == 0.0
  {
  }

  /** The values of file `i`'s slot followed by values in [(i+1)/n, 1] are sorted and in [i/n, 1]. */
  lemma SlotThenRest(p: seq<real>, rest: seq<real>, i: nat, n: nat)
    requires i < n
    requires Sorted(p) && Within(p, (i as real) / (n as real), ((i + 1) as real) / (n as real))
    requires Sorted(rest) && Within(rest, ((i + 1) as real) / (n as real), 1.0)
    ensures Sorted(p + rest) && Within(p + rest, (i as real) / (n as real), 1.0)
  {
    var nr := n as real;
    DivideMonotone(i as real, (i + 1) as real, nr);
    DivideMonotone((i + 1) as real, nr, nr);
    SortedConcat(p, rest, (i as real) / nr, ((i + 1) as real) / nr, 1.0);
  }

  /** Over files `i..`, a run that completes ends with the value 1.0. */
  lemma {:induction false} CompletedFromEndsWithOne(dir: string, files: seq<M.ModelFile>, script: seq<Exchange>,
                                                     i: nat, fs: FileSystem)
    requires i <= |files| == |script|
    requires DownloadFrom(dir, files, script, i, fs).outcome.Completed?
    ensures var p := DownloadFrom(dir, files, script, i, fs).progress;
            p != [] && p[|p| - 1] == 1.0
    decreases |files| - i
  {
    if i < |files| {
      var step := FetchFile(dir, files[i], i, |files|, fs, script[i]);
      DownloadFromUnfold(dir, files, script, i, fs);
      CompletedFromEndsWithOne(dir, files, script, i + 1, step.fs);
    }
  }

  /** One step of a run over files `i..`: the file's step, then the rest unless it failed. */
  lemma DownloadFromUnfold(dir: string, files: seq<M.ModelFile>, script: seq<Exchange>, i: nat, fs: FileSystem)
    requires i < |files| == |script|
    ensures var step := FetchFile(dir, files[i], i, |files|, fs, script[i]);
            var run := DownloadFrom(dir, files, script, i, fs);
            && (step.error.Some? ==> run.progress == step.progress && run.outcome == Failed(step.error.value))
            && (step.error.None? ==>
                  var rest := DownloadFrom(dir, files, script, i + 1, step.fs);
                  run.progress == step.progress + rest.progress && run.outcome == rest.outcome && run.fs == rest.fs)
  {
  }

  /**
   * Every value a download emits is in [0, 1], the values never decrease,
   * and a completed download ends with 1.0.
   */
  lemma DownloadProgressInRange(modelsDir: string, model: M.ModelInfo, fs: FileSystem, script: seq<Exchange>)
    requires |script| == |model.files| && ReadsWithinContentLength(script)
    ensures var run := DownloadRun(modelsDir, model, fs, script);
            && Sorted(run.progress)
            && Within(run.progress, 0.0, 1.0)
            && (run.outcome.Completed? ==> run.progress != [] && run.progress[|run.progress| - 1] == 1.0)
  {
    var run := DownloadRun(modelsDir, model, fs, script);
    if model.files != [] {
      var dir := ModelDir(modelsDir, model);
      assert run == DownloadFrom(dir, model.files, script, 0, fs);
      ProgressFromInRange(dir, model.files, script, 0, fs);
      NothingOverCount(|model.files|);
      if run.outcome.Completed? {
        CompletedFromEndsWithOne(dir, model.files, script, 0, fs);
      }
    }
  }

  /**
   * A file step that succeeds leaves its target in place and removes
   * nothing but its own staging file.
   */
  lemma FetchFileSuccessKeepsFiles(dir: string, f: M.ModelFile, i: nat, n: nat, fs: FileSystem, ex: Exchange)
    requires i < n && FetchFile(dir, f, i, n, fs, ex).error.None?
    ensures var step := FetchFile(dir, f, i, n, fs, ex);
            && TargetPath(dir, f) in step.fs
            && forall p :: p in fs && p != TempPath(dir, f) ==> p in step.fs && step.fs[p] == fs[p]
  {
    if TargetPath(dir, f) !in fs {
      PathJoinInjective(dir, f.localName, f.localName + TempSuffix);
    }
  }

  /**
   * Over files `i..`, a completed run leaves every one of their targets in
   * place, and keeps every earlier file that is not one of their staging files.
   */
  lemma {:induction false} CompletedFromKeepsTargets(dir: string, files: seq<M.ModelFile>, script: seq<Exchange>,
                                                      i: nat, fs: FileSystem)
    requires i <= |files| == |script| && NoStagingNameClash(files)
    requires DownloadFrom(dir, files, script, i, fs).outcome.Completed?
    ensures var run := DownloadFrom(dir, files, script, i, fs);
            && (forall k :: i <= k < |files| ==> TargetPath(dir, files[k]) in run.fs)
            && (forall p :: p in fs && (forall k :: i <= k < |files| ==> p != TempPath(dir, files[k])) ==>
                  p in run.fs && run.fs[p] == fs[p])
    decreases |files| - i
  {
    if i < |files| {
      var step := FetchFile(dir, files[i], i, |files|, fs, script[i]);
      FetchFileSuccessKeepsFiles(dir, files[i], i, |files|, fs, script[i]);
      CompletedFromKeepsTargets(dir, files, script, i + 1, step.fs);
      var run := DownloadFrom(dir, files, script, i, fs);
      forall k | i + 1 <= k < |files| ensures TargetPath(dir, files[i]) != TempPath(dir, files[k]) {
        PathJoinInjective(dir, files[i].localName, files[k].localName + TempSuffix);
      }
    }
  }

  /** After a download that completes, the model counts as downloaded. */
  lemma CompletedDownloadIsDownloaded(modelsDir: string, model: M.ModelInfo, fs: FileSystem,
                                      script: seq<Exchange>)
    requires |script| == |model.files| && NoStagingNameClash(model.files)
    requires DownloadRun(modelsDir, model, fs, script).outcome.Completed?
    ensures IsModelDownloaded(modelsDir, model, DownloadRun(modelsDir, model, fs, script).fs)
  {
    if model.files != [] {
      CompletedFromKeepsTargets(ModelDir(modelsDir, model), model.files, script, 0, fs);
    }
  }

  /**
   * Over files `i..` whose targets all exist, every file is skipped: no
   * request, no change, one progress value per file and then 1.0.
   */
  lemma {:induction false} SkippedFrom(dir: string, files: seq<M.ModelFile>, script: seq<Exchange>, i: nat,
                                       fs: FileSystem)
    requires i <= |files| == |script|
    requires forall k :: i <= k < |files| ==> TargetPath(dir, files[k]) in fs
    ensures var run := DownloadFrom(dir, files, script, i, fs);
            && run.requests == [] && run.fs == fs && run.outcome == Completed
            && |run.progress| == |files| - i + 1
    decreases |files| - i
  {
    if i < |files| {
      SkippedFrom(dir, files, script, i + 1, fs);
    }
  }

  /** Downloading a model that is already downloaded sends nothing, changes nothing and completes. */
  lemma DownloadedModelFetchesNothing(modelsDir: string, model: M.ModelInfo, fs: FileSystem,
                                      script: seq<Exchange>)
    requires |script| == |model.files| && IsModelDownloaded(modelsDir, model, fs)
    ensures var run := DownloadRun(modelsDir, model, fs, script);
            run.requests == [] && run.fs == fs && run.outcome == Completed
  {
    if model.files != [] {
      SkippedFrom(ModelDir(modelsDir, model), model.files, script, 0, fs);
    }
  }

  /** Two models share a directory exactly when they share an id. */
  lemma ModelDirsDistinct(modelsDir: string, a: M.ModelInfo, b: M.ModelInfo)
    ensures ModelDir(modelsDir, a) == ModelDir(modelsDir, b) <==> a.id == b.id
  {
    PathJoinInjective(modelsDir, a.id, b.id);
  }

  /** The catalog's files satisfy the naming condition. */
  lemma CatalogHasNoStagingNameClash(model: M.ModelInfo)
    requires model in M.AvailableModels
    ensures NoStagingNameClash(model.files)
  {
  }
}
