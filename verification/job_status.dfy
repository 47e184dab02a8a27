/** The status check of a recognition job. A finished, error-free operation
    lists one entry per audio file; each entry is an error or the reference of
    a stored native result, which is read and parsed. The storage read is a
    parameter: it maps a path to the results stored there, or to `None` when
    no object exists. */
module JobStatus {
  import opened Wrappers
  import opened Text
  import opened Domain
  import opened GcsUri
  import opened CueSegmenter
  import opened NativeResult

  /** One file entry of a finished batch operation. */
  datatype FileResult = FileFailed(message: string) | FileStored(uri: string)

  /** What the operations endpoint reports for a job. */
  datatype Operation = Operation(done: bool, error: Option<string>, files: seq<FileResult>)

  type Fetch = GcsPath -> Option<seq<seq<RawWord>>>

  /** The native result a file entry leads to, if it leads to one. */
  function Stored(f: FileResult, fetch: Fetch): (r: Option<ParsedNative>)
    ensures f.FileFailed? ==> r.None?
    ensures r.Some? ==> f.FileStored? && ParseGsUri(Some(f.uri)).Ok? && WellTimed(r.value.segments)
  {
    if f.FileFailed? then None
    else
      match ParseGsUri(Some(f.uri))
      case Err(_) => None
      case Ok(path) =>
        match fetch(path)
        case None => None
        case Some(results) => Some(ParseNative(results))
  }

  /** The loop over the file entries. The first failed entry turns the whole
      check into ERROR with its message; a bad reference or a missing object
      aborts the check; otherwise each file's transcript is appended after a
      newline (none before the first) and its cues are appended. */
  function CollectFiles(files: seq<FileResult>, fetch: Fetch, sb: string, cues: seq<SttCue>): (r: Result<JobResult>)
    ensures r.Ok? ==> r.value.status == Done || r.value.status == Error
    ensures r.Ok? && r.value.status == Error ==>
              r.value.transcript.None? && r.value.cues == [] && r.value.errorMessage.Some?
    ensures r.Ok? && r.value.status == Error ==>
              exists k :: 0 <= k < |files| && files[k].FileFailed? && r.value.errorMessage == Some(files[k].message)
    ensures r.Err? ==> r.error in {NotGsUri, InvalidGsUri, BlobNotFound}
    decreases |files|
  {
    if files == [] then Ok(JobResult(Done, Some(Trim(sb)), cues, None))
    else
      match files[0]
      case FileFailed(message) => Ok(JobResult(Error, None, [], Some(message)))
      case FileStored(uri) =>
        match ParseGsUri(Some(uri))
        case Err(e) => Err(e)
        case Ok(path) =>
          match fetch(path)
          case None => Err(BlobNotFound)
          case Some(results) =>
            var parsed := ParseNative(results);
            var rest := files[1..];
            var r := CollectFiles(rest, fetch, AppendSep(sb, '\n', parsed.transcript), cues + BuildCues(parsed.segments));
            assert r.Ok? && r.value.status == Error ==>
                     exists k :: 1 <= k < |files| && files[k].FileFailed? && r.value.errorMessage == Some(files[k].message) by {
              if r.Ok? && r.value.status == Error {
                var k :| 0 <= k < |rest| && rest[k].FileFailed? && r.value.errorMessage == Some(rest[k].message);
                assert rest[k] == files[k + 1];
              }
            }
            r
  }

  /** Checks a job: PROCESSING while the operation runs, ERROR with the
      operation's message when it failed, else the files' combined result. */
  function CheckJobStatus(op: Operation, fetch: Fetch): (r: Result<JobResult>)
    ensures !op.done ==> r == Ok(JobResult(Processing, None, [], None))
    ensures op.done && op.error.Some? ==> r == Ok(JobResult(Error, None, [], op.error))
    ensures r.Ok? && r.value.status == Processing ==> !op.done
  {
    if !op.done then Ok(JobResult(Processing, None, [], None))
    else if op.error.Some? then Ok(JobResult(Error, None, [], op.error))
    else CollectFiles(op.files, fetch, "", [])
  }

  /** The first failed file entry, after entries that all lead to stored
      results, ends the check as ERROR with that entry's message. */
  lemma {:induction false} FirstFailedFileGivesError(files: seq<FileResult>, fetch: Fetch, sb: string, cues: seq<SttCue>, k: nat)
    requires k < |files| && files[k].FileFailed?
    requires forall j :: 0 <= j < k ==> Stored(files[j], fetch).Some?
    ensures CollectFiles(files, fetch, sb, cues) == Ok(JobResult(Error, None, [], Some(files[k].message)))
    decreases k
  {
    if k > 0 {
      var parsed := Stored(files[0], fetch).value;
      FirstFailedFileGivesError(files[1..], fetch, AppendSep(sb, '\n', parsed.transcript), cues + BuildCues(parsed.segments), k - 1);
    }
  }

  /** A finished, error-free job whose file entries fail somewhere, with every
      earlier entry stored, reports ERROR with the first failed entry's message. */
  lemma {:induction false} FailedFileFailsJob(op: Operation, fetch: Fetch, k: nat)
    requires op.done && op.error.None?
    requires k < |op.files| && op.files[k].FileFailed?
    requires forall j :: 0 <= j < k ==> Stored(op.files[j], fetch).Some?
    ensures CheckJobStatus(op, fetch) == Ok(JobResult(Error, None, [], Some(op.files[k].message)))
  {
    FirstFailedFileGivesError(op.files, fetch, "", [], k);
  }

  /** Every file entry leads to a stored native result. */
  predicate AllStored(files: seq<FileResult>, fetch: Fetch) {
    forall i :: 0 <= i < |files| ==> Stored(files[i], fetch).Some?
  }

  /** The transcripts and the cues of files that all lead to results. */
  function Transcripts(files: seq<FileResult>, fetch: Fetch): (ts: seq<string>)
    requires AllStored(files, fetch)
    ensures |ts| == |files|
    decreases |files|
  {
    if files == [] then [] else [Stored(files[0], fetch).value.transcript] + Transcripts(files[1..], fetch)
  }

  function FileCues(files: seq<FileResult>, fetch: Fetch): seq<SttCue>
    requires AllStored(files, fetch)
    decreases |files|
  {
    if files == [] then [] else BuildCues(Stored(files[0], fetch).value.segments) + FileCues(files[1..], fetch)
  }

  /** A file entry that leads to a result passes its transcript and cues on. */
  lemma {:induction false} CollectStep(files: seq<FileResult>, fetch: Fetch, sb: string, cues: seq<SttCue>)
    requires files != [] && Stored(files[0], fetch).Some?
    ensures var parsed := Stored(files[0], fetch).value;
            CollectFiles(files, fetch, sb, cues)
            == CollectFiles(files[1..], fetch, AppendSep(sb, '\n', parsed.transcript), cues + BuildCues(parsed.segments))
  {
  }

  lemma {:induction false} AllStoredTail(files: seq<FileResult>, fetch: Fetch)
    requires files != []
    ensures AllStored(files, fetch) <==> Stored(files[0], fetch).Some? && AllStored(files[1..], fetch)
  {
    var tl := files[1..];
    assert forall i :: 0 < i < |files| ==> files[i] == tl[i - 1];
    assert forall i :: 0 <= i < |tl| ==> tl[i] == files[i + 1];
  }

  lemma {:induction false} CollectDoneIffAllStored(files: seq<FileResult>, fetch: Fetch, sb: string, cues: seq<SttCue>)
    ensures CollectFiles(files, fetch, sb, cues).Ok? && CollectFiles(files, fetch, sb, cues).value.status == Done
            <==> AllStored(files, fetch)
    decreases |files|
  {
    if files != [] {
      AllStoredTail(files, fetch);
      if Stored(files[0], fetch).Some? {
        var parsed := Stored(files[0], fetch).value;
        CollectStep(files, fetch, sb, cues);
        CollectDoneIffAllStored(files[1..], fetch, AppendSep(sb, '\n', parsed.transcript), cues + BuildCues(parsed.segments));
      }
    }
  }

  lemma {:induction false} CollectDoneContents(files: seq<FileResult>, fetch: Fetch, sb: string, cues: seq<SttCue>)
    requires AllStored(files, fetch)
    ensures CollectFiles(files, fetch, sb, cues)
            == Ok(JobResult(Done, Some(Trim(Gather(sb, '\n', Transcripts(files, fetch)))), cues + FileCues(files, fetch), None))
    decreases |files|
  {
    if files == [] {
      assert cues + [] == cues;
    } else {
      var parsed := Stored(files[0], fetch).value;
      var sb' := AppendSep(sb, '\n', parsed.transcript);
      var cues' := cues + BuildCues(parsed.segments);
      AllStoredTail(files, fetch);
      CollectStep(files, fetch, sb, cues);
      CollectDoneContents(files[1..], fetch, sb', cues');
      TranscriptsStep(files, fetch, sb);
      FileCuesStep(files, fetch, cues);
    }
  }

  lemma {:induction false} TranscriptsStep(files: seq<FileResult>, fetch: Fetch, sb: string)
    requires files != [] && AllStored(files, fetch)
    ensures AllStored(files[1..], fetch)
    ensures Gather(sb, '\n', Transcripts(files, fetch))
            == Gather(AppendSep(sb, '\n', Stored(files[0], fetch).value.transcript), '\n', Transcripts(files[1..], fetch))
  {
    AllStoredTail(files, fetch);
    var ts := Transcripts(files, fetch);
    assert ts[0] == Stored(files[0], fetch).value.transcript && ts[1..] == Transcripts(files[1..], fetch);
  }

  lemma {:induction false} FileCuesStep(files: seq<FileResult>, fetch: Fetch, cues: seq<SttCue>)
    requires files != [] && AllStored(files, fetch)
    ensures AllStored(files[1..], fetch)
    ensures cues + BuildCues(Stored(files[0], fetch).value.segments) + FileCues(files[1..], fetch)
            == cues + FileCues(files, fetch)
  {
    AllStoredTail(files, fetch);
    var fc := FileCues(files, fetch);
    assert fc == BuildCues(Stored(files[0], fetch).value.segments) + FileCues(files[1..], fetch);
  }

  /** A job is DONE exactly when its operation finished without error and every
      file entry leads to a stored result; its transcript is then the files'
      transcripts joined by newlines (empty ones before the first non-empty one
      leave no newline) and trimmed, and its cues are the files' cues in order. */
  lemma {:induction false} DoneJobCombinesFiles(op: Operation, fetch: Fetch)
    ensures CheckJobStatus(op, fetch).Ok? && CheckJobStatus(op, fetch).value.status == Done
            <==> op.done && op.error.None? && AllStored(op.files, fetch)
    ensures op.done && op.error.None? && AllStored(op.files, fetch) ==>
              CheckJobStatus(op, fetch).value
              == JobResult(Done, Some(Trim(Join(DropLeadingEmpty(Transcripts(op.files, fetch)), '\n'))),
                           FileCues(op.files, fetch), None)
  {
    if op.done && op.error.None? {
      assert CheckJobStatus(op, fetch) == CollectFiles(op.files, fetch, "", []);
      CollectDoneIffAllStored(op.files, fetch, "", []);
      if AllStored(op.files, fetch) {
        CollectDoneContents(op.files, fetch, "", []);
        GatherFromEmpty('\n', Transcripts(op.files, fetch));
        assert [] + FileCues(op.files, fetch) == FileCues(op.files, fetch);
      }
    }
  }

  lemma {:induction false} WellTimedConcat(a: seq<SttCue>, b: seq<SttCue>)
    requires CuesWellTimed(a) && CuesWellTimed(b)
    ensures CuesWellTimed(a + b)
  {
    forall i | 0 <= i < |a + b| ensures (a + b)[i].endMs > (a + b)[i].startMs {
      if i >= |a| {
        assert (a + b)[i] == b[i - |a|];
      } else {
        assert (a + b)[i] == a[i];
      }
    }
  }

  /** Every cue of a DONE job ends after it starts. */
  lemma {:induction false} DoneCuesWellTimed(files: seq<FileResult>, fetch: Fetch)
    requires AllStored(files, fetch)
    ensures CuesWellTimed(FileCues(files, fetch))
    decreases |files|
  {
    if files != [] {
      var segs := Stored(files[0], fetch).value.segments;
      CuesEndAfterStart(segs);
      AllStoredTail(files, fetch);
      DoneCuesWellTimed(files[1..], fetch);
      WellTimedConcat(BuildCues(segs), FileCues(files[1..], fetch));
    }
  }
}
