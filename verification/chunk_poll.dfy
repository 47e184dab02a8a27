/** The poll of a meeting: the chunks, in `chunkSeq` order, are scanned once.
    A DONE chunk is skipped. For any other chunk the recognition job is
    checked: DONE stores the transcript and cues and moves on, ERROR submits a
    new job for the same audio and stops, PROCESSING stops. The verdict is
    DONE only when the scan reaches the end of a non-empty list. The job check
    and the job submission are parameters; when either fails, the poll
    returns that failure and no updated chunk list. That is the outcome of a
    rolled-back transaction, which the service gets for unchecked exceptions. */
module ChunkPoll {
  import opened Wrappers
  import opened Text
  import opened Domain
  import opened CueStore

  /** The language a job is resubmitted with when the chunk has none. */
  const DefaultLanguage: string := "ko-KR"

  /** The stored language code, or the default when it is null or blank. */
  function LanguageOrDefault(code: Option<string>): (r: string)
    ensures code.Some? && !IsBlank(code.value) ==> r == code.value
    ensures code.None? || IsBlank(code.value) ==> r == DefaultLanguage
    ensures !IsBlank(r)
  {
    assert DefaultLanguage[0] == 'k';
    if code.None? || IsBlank(code.value) then DefaultLanguage else code.value
  }

  /** Checks the job with the given id. */
  type StatusCheck = string -> Result<JobResult>

  /** Starts a job for an audio reference and a language; yields the job id. */
  type Submit = (string, string) -> Result<string>

  datatype Verdict = Wait | AllDone

  /** A job started by the poll. */
  datatype Submission = Submission(chunkSeq: int, gcsUri: string, languageCode: string)

  /** The scan so far: the chunks, whether it stopped early, the positions of
      the chunks whose job it checked, and the job it started. */
  datatype Scanned = Scanned(chunks: seq<Chunk>, stopped: bool, queried: seq<nat>, submitted: Option<Submission>)

  datatype PollOutcome = PollOutcome(chunks: seq<Chunk>, verdict: Verdict, queried: seq<nat>, submitted: Option<Submission>)

  /** A chunk whose job finished: DONE, with the job's transcript, no error
      message, and its cue set replaced by the job's cues. */
  function Completed(c: Chunk, res: JobResult): (d: Chunk)
    ensures d.status == Done && d.transcript == res.transcript && d.errorMessage.None?
    ensures d.chunkSeq == c.chunkSeq && d.gcsUri == c.gcsUri && d.jobId == c.jobId
    ensures d.durationMs == c.durationMs && d.languageCode == c.languageCode
    ensures d.cues == SaveChunkCues(c.chunkSeq, res.cues)
  {
    c.(status := Done, transcript := res.transcript, errorMessage := None, cues := SaveChunkCues(c.chunkSeq, res.cues))
  }

  /** A chunk whose job failed and was started again. */
  function Resubmitted(c: Chunk, jobId: string, res: JobResult): (d: Chunk)
    ensures d.status == Processing && d.jobId == jobId && d.errorMessage == res.errorMessage
    ensures d.chunkSeq == c.chunkSeq && d.gcsUri == c.gcsUri && d.durationMs == c.durationMs
    ensures d.transcript == c.transcript && d.languageCode == c.languageCode && d.cues == c.cues
  {
    c.(jobId := jobId, status := Processing, errorMessage := res.errorMessage)
  }

  /** The scan from position i on. */
  function Scan(chunks: seq<Chunk>, i: nat, check: StatusCheck, submit: Submit): (r: Result<Scanned>)
    requires i <= |chunks|
    ensures r.Ok? ==> |r.value.chunks| == |chunks|
    decreases |chunks| - i
  {
    if i == |chunks| then Ok(Scanned(chunks, false, [], None))
    else
      var c := chunks[i];
      if c.status == Done then Scan(chunks, i + 1, check, submit)
      else
        var res :- check(c.jobId);
        match res.status
        case Done =>
          var rest :- Scan(chunks[i := Completed(c, res)], i + 1, check, submit);
          Ok(rest.(queried := [i] + rest.queried))
        case Error =>
          var language := LanguageOrDefault(c.languageCode);
          var jobId :- submit(c.gcsUri, language);
          Ok(Scanned(chunks[i := Resubmitted(c, jobId, res)], true, [i], Some(Submission(c.chunkSeq, c.gcsUri, language))))
        case Processing =>
          Ok(Scanned(chunks, true, [i], None))
  }

  /** Polls a meeting. A meeting without chunks waits. */
  function Poll(chunks: seq<Chunk>, check: StatusCheck, submit: Submit): (r: Result<PollOutcome>)
    ensures chunks == [] ==> r == Ok(PollOutcome([], Wait, [], None))
    ensures r.Ok? ==> |r.value.chunks| == |chunks|
  {
    if chunks == [] then Ok(PollOutcome([], Wait, [], None))
    else
      var s :- Scan(chunks, 0, check, submit);
      Ok(PollOutcome(s.chunks, if s.stopped then Wait else AllDone, s.queried, s.submitted))
  }

  /** The positions from i on of the chunks that are not DONE, ascending. */
  function PendingFrom(chunks: seq<Chunk>, i: nat): (ps: seq<nat>)
    requires i <= |chunks|
    decreases |chunks| - i
  {
    if i == |chunks| then []
    else (if chunks[i].status != Done then [i] else []) + PendingFrom(chunks, i + 1)
  }

  /** The pending positions are exactly the positions from i on whose chunk is
      not DONE, in ascending order. */
  lemma {:induction false} PendingFromShape(chunks: seq<Chunk>, i: nat)
    requires i <= |chunks|
    ensures forall n :: 0 <= n < |PendingFrom(chunks, i)| ==>
              i <= PendingFrom(chunks, i)[n] < |chunks| && chunks[PendingFrom(chunks, i)[n]].status != Done
    ensures forall n, m :: 0 <= n < m < |PendingFrom(chunks, i)| ==> PendingFrom(chunks, i)[n] < PendingFrom(chunks, i)[m]
    ensures forall j :: i <= j < |chunks| && chunks[j].status != Done ==> j in PendingFrom(chunks, i)
    decreases |chunks| - i
  {
    if i < |chunks| {
      PendingFromShape(chunks, i + 1);
      var head: seq<nat> := if chunks[i].status != Done then [i] else [];
      var tail := PendingFrom(chunks, i + 1);
      var ps := head + tail;
      assert PendingFrom(chunks, i) == ps;
      forall n | 0 <= n < |ps| ensures i <= ps[n] < |chunks| && chunks[ps[n]].status != Done {
        if n >= |head| {
          assert ps[n] == tail[n - |head|];
        }
      }
      forall n, m | 0 <= n < m < |ps| ensures ps[n] < ps[m] {
        if n >= |head| {
          assert ps[n] == tail[n - |head|];
        }
        assert ps[m] == tail[m - |head|];
      }
      forall j | i <= j < |chunks| && chunks[j].status != Done ensures j in ps {
        if j > i {
          assert j in tail;
        }
      }
    }
  }

  predicate IsPrefix(a: seq<nat>, b: seq<nat>) {
    |a| <= |b| && b[..|a|] == a
  }

  function Last(s: seq<nat>): nat
    requires s != []
  {
    s[|s| - 1]
  }

  /** Only the chunks at the given positions differ. */
  predicate Untouched(before: seq<Chunk>, after: seq<Chunk>, queried: seq<nat>) {
    |after| == |before| && forall j :: 0 <= j < |before| && j !in queried ==> after[j] == before[j]
  }

  /** The chunk at q was checked, its job was DONE, and it was completed with
      the job's result. */
  predicate CompletedAt(before: seq<Chunk>, after: seq<Chunk>, check: StatusCheck, q: nat) {
    && q < |before| && q < |after|
    && check(before[q].jobId).Ok?
    && check(before[q].jobId).value.status == Done
    && after[q] == Completed(before[q], check(before[q].jobId).value)
  }

  /** The scan stopped at k: its job was not DONE; an ERROR job was started
      again with the chunk's audio and language, a PROCESSING one left the
      chunk as it was. */
  predicate StoppedAt(before: seq<Chunk>, after: seq<Chunk>, check: StatusCheck, submit: Submit, k: nat, submitted: Option<Submission>) {
    && k < |before| && k < |after|
    && check(before[k].jobId).Ok?
    && check(before[k].jobId).value.status != Done
    && (check(before[k].jobId).value.status == Error ==>
          && submit(before[k].gcsUri, LanguageOrDefault(before[k].languageCode)).Ok?
          && submitted == Some(Submission(before[k].chunkSeq, before[k].gcsUri, LanguageOrDefault(before[k].languageCode)))
          && after[k] == Resubmitted(before[k], submit(before[k].gcsUri, LanguageOrDefault(before[k].languageCode)).value,
                                     check(before[k].jobId).value))
    && (check(before[k].jobId).value.status == Processing ==> submitted.None? && after[k] == before[k])
  }

  lemma {:induction false} PendingFromSame(a: seq<Chunk>, b: seq<Chunk>, i: nat)
    requires i <= |a| == |b|
    requires forall j :: i <= j < |a| ==> a[j] == b[j]
    ensures PendingFrom(a, i) == PendingFrom(b, i)
    decreases |a| - i
  {
    if i < |a| {
      PendingFromSame(a, b, i + 1);
    }
  }

  lemma {:induction false} ScanQueriesPending(chunks: seq<Chunk>, i: nat, check: StatusCheck, submit: Submit)
    requires i <= |chunks|
    ensures Scan(chunks, i, check, submit).Ok? ==>
              && IsPrefix(Scan(chunks, i, check, submit).value.queried, PendingFrom(chunks, i))
              && (!Scan(chunks, i, check, submit).value.stopped ==> Scan(chunks, i, check, submit).value.queried == PendingFrom(chunks, i))
              && (Scan(chunks, i, check, submit).value.stopped ==> Scan(chunks, i, check, submit).value.queried != [])
    decreases |chunks| - i
  {
    var r := Scan(chunks, i, check, submit);
    if i < |chunks| && r.Ok? {
      var c := chunks[i];
      if c.status == Done {
        ScanQueriesPending(chunks, i + 1, check, submit);
      } else {
        var res := check(c.jobId).value;
        if res.status == Done {
          var next := chunks[i := Completed(c, res)];
          ScanQueriesPending(next, i + 1, check, submit);
          PendingFromSame(next, chunks, i + 1);
          var rest := Scan(next, i + 1, check, submit).value;
          assert PendingFrom(chunks, i) == [i] + PendingFrom(chunks, i + 1);
          assert r.value.queried == [i] + rest.queried;
        }
      }
    }
  }

  /** The checked positions lie between i and the end of the list. */
  lemma {:induction false} ScanQueriedInRange(chunks: seq<Chunk>, i: nat, check: StatusCheck, submit: Submit)
    requires i <= |chunks|
    ensures Scan(chunks, i, check, submit).Ok? ==>
              forall n :: 0 <= n < |Scan(chunks, i, check, submit).value.queried| ==>
                i <= Scan(chunks, i, check, submit).value.queried[n] < |chunks|
  {
    if Scan(chunks, i, check, submit).Ok? {
      var q := Scan(chunks, i, check, submit).value.queried;
      ScanQueriesPending(chunks, i, check, submit);
      PendingFromShape(chunks, i);
      forall n | 0 <= n < |q| ensures i <= q[n] < |chunks| {
        assert q[n] == PendingFrom(chunks, i)[n];
      }
    }
  }

  lemma {:induction false} ScanUntouched(chunks: seq<Chunk>, i: nat, check: StatusCheck, submit: Submit)
    requires i <= |chunks|
    ensures Scan(chunks, i, check, submit).Ok? ==>
              Untouched(chunks, Scan(chunks, i, check, submit).value.chunks, Scan(chunks, i, check, submit).value.queried)
    decreases |chunks| - i
  {
    var r := Scan(chunks, i, check, submit);
    if i < |chunks| && r.Ok? {
      var c := chunks[i];
      if c.status == Done {
        ScanUntouched(chunks, i + 1, check, submit);
      } else if check(c.jobId).value.status == Done {
        var next := chunks[i := Completed(c, check(c.jobId).value)];
        ScanUntouched(next, i + 1, check, submit);
        var rest := Scan(next, i + 1, check, submit).value;
        assert r.value.queried == [i] + rest.queried;
        assert r.value.chunks == rest.chunks;
        forall j | 0 <= j < |chunks| && j !in r.value.queried ensures r.value.chunks[j] == chunks[j] {
          assert j !in rest.queried && j != i;
        }
      }
    }
  }

  lemma {:induction false} ScanCompletes(chunks: seq<Chunk>, i: nat, check: StatusCheck, submit: Submit)
    requires i <= |chunks|
    ensures Scan(chunks, i, check, submit).Ok? ==>
              forall n :: 0 <= n < |Scan(chunks, i, check, submit).value.queried|
                          && (n < |Scan(chunks, i, check, submit).value.queried| - 1 || !Scan(chunks, i, check, submit).value.stopped) ==>
                CompletedAt(chunks, Scan(chunks, i, check, submit).value.chunks, check, Scan(chunks, i, check, submit).value.queried[n])
    decreases |chunks| - i
  {
    var r := Scan(chunks, i, check, submit);
    if i < |chunks| && r.Ok? {
      var c := chunks[i];
      if c.status == Done {
        ScanCompletes(chunks, i + 1, check, submit);
      } else if check(c.jobId).value.status == Done {
        var res := check(c.jobId).value;
        var next := chunks[i := Completed(c, res)];
        ScanCompletes(next, i + 1, check, submit);
        ScanUntouched(next, i + 1, check, submit);
        ScanQueriedInRange(next, i + 1, check, submit);
        var rest := Scan(next, i + 1, check, submit).value;
        var q := r.value.queried;
        assert q == [i] + rest.queried;
        assert r.value.chunks == rest.chunks && r.value.stopped == rest.stopped;
        forall n | 0 <= n < |q| && (n < |q| - 1 || !r.value.stopped)
          ensures CompletedAt(chunks, r.value.chunks, check, q[n])
        {
          if n == 0 {
            assert i !in rest.queried;
            assert rest.chunks[i] == next[i];
          } else {
            assert q[n] == rest.queried[n - 1];
            assert CompletedAt(next, rest.chunks, check, rest.queried[n - 1]);
            assert next[q[n]] == chunks[q[n]];
          }
        }
      }
    }
  }

  lemma {:induction false} ScanStops(chunks: seq<Chunk>, i: nat, check: StatusCheck, submit: Submit)
    requires i <= |chunks|
    ensures Scan(chunks, i, check, submit).Ok? && Scan(chunks, i, check, submit).value.stopped ==>
              && Scan(chunks, i, check, submit).value.queried != []
              && StoppedAt(chunks, Scan(chunks, i, check, submit).value.chunks, check, submit,
                           Last(Scan(chunks, i, check, submit).value.queried), Scan(chunks, i, check, submit).value.submitted)
    ensures Scan(chunks, i, check, submit).Ok? && !Scan(chunks, i, check, submit).value.stopped ==>
              Scan(chunks, i, check, submit).value.submitted.None?
    decreases |chunks| - i
  {
    var r := Scan(chunks, i, check, submit);
    if i < |chunks| && r.Ok? {
      var c := chunks[i];
      if c.status == Done {
        ScanStops(chunks, i + 1, check, submit);
      } else if check(c.jobId).value.status == Done {
        var res := check(c.jobId).value;
        var next := chunks[i := Completed(c, res)];
        ScanStops(next, i + 1, check, submit);
        ScanQueriedInRange(next, i + 1, check, submit);
        var rest := Scan(next, i + 1, check, submit).value;
        assert r.value.queried == [i] + rest.queried;
        if rest.stopped {
          assert Last(r.value.queried) == Last(rest.queried);
          assert next[Last(rest.queried)] == chunks[Last(rest.queried)];
        }
      }
    }
  }

  /** A scan over chunks that are all DONE from i on changes nothing. */
  lemma {:induction false} ScanAllDone(chunks: seq<Chunk>, i: nat, check: StatusCheck, submit: Submit)
    requires i <= |chunks|
    requires forall j :: i <= j < |chunks| ==> chunks[j].status == Done
    ensures Scan(chunks, i, check, submit) == Ok(Scanned(chunks, false, [], None))
    decreases |chunks| - i
  {
    if i < |chunks| {
      ScanAllDone(chunks, i + 1, check, submit);
    }
  }

  /** The poll checks the jobs of the chunks that are not DONE, in order, up to
      where it stops; DONE chunks are never checked, and only checked chunks
      can change. */
  lemma {:induction false} PollTouchesOnlyPending(chunks: seq<Chunk>, check: StatusCheck, submit: Submit)
    ensures Poll(chunks, check, submit).Ok? ==>
              && IsPrefix(Poll(chunks, check, submit).value.queried, PendingFrom(chunks, 0))
              && Untouched(chunks, Poll(chunks, check, submit).value.chunks, Poll(chunks, check, submit).value.queried)
              && (forall j :: 0 <= j < |chunks| && chunks[j].status == Done ==>
                    j !in Poll(chunks, check, submit).value.queried && Poll(chunks, check, submit).value.chunks[j] == chunks[j])
  {
    if chunks != [] && Poll(chunks, check, submit).Ok? {
      ScanQueriesPending(chunks, 0, check, submit);
      ScanUntouched(chunks, 0, check, submit);
      PendingFromShape(chunks, 0);
      var q := Poll(chunks, check, submit).value.queried;
      forall j | 0 <= j < |chunks| && chunks[j].status == Done ensures j !in q {
        forall n | 0 <= n < |q| ensures q[n] != j {
          assert q[n] == PendingFrom(chunks, 0)[n];
        }
      }
    }
  }

  /** Every checked chunk but the one the poll stops at was DONE at the
      provider and now holds the job's transcript and cues. */
  lemma {:induction false} PollStoresFinishedJobs(chunks: seq<Chunk>, check: StatusCheck, submit: Submit)
    ensures Poll(chunks, check, submit).Ok? ==>
              forall n :: 0 <= n < |Poll(chunks, check, submit).value.queried|
                          && (n < |Poll(chunks, check, submit).value.queried| - 1 || Poll(chunks, check, submit).value.verdict == AllDone) ==>
                CompletedAt(chunks, Poll(chunks, check, submit).value.chunks, check, Poll(chunks, check, submit).value.queried[n])
  {
    if chunks != [] {
      ScanCompletes(chunks, 0, check, submit);
    }
  }

  /** A poll that waits on a non-empty meeting stopped at its last checked
      chunk: an ERROR job was started once more for that chunk's audio, a
      PROCESSING one left it as it was. A poll that finishes starts no job. */
  lemma {:induction false} PollStopsAtUnfinishedJob(chunks: seq<Chunk>, check: StatusCheck, submit: Submit)
    ensures Poll(chunks, check, submit).Ok? && chunks != [] && Poll(chunks, check, submit).value.verdict == Wait ==>
              && Poll(chunks, check, submit).value.queried != []
              && StoppedAt(chunks, Poll(chunks, check, submit).value.chunks, check, submit,
                           Last(Poll(chunks, check, submit).value.queried), Poll(chunks, check, submit).value.submitted)
    ensures Poll(chunks, check, submit).Ok? && Poll(chunks, check, submit).value.verdict == AllDone ==>
              Poll(chunks, check, submit).value.submitted.None?
  {
    if chunks != [] {
      ScanStops(chunks, 0, check, submit);
    }
  }

  /** The verdict is DONE exactly when the meeting has chunks and all of them
      are DONE after the poll. */
  lemma {:induction false} PollDoneIffAllChunksDone(chunks: seq<Chunk>, check: StatusCheck, submit: Submit)
    ensures Poll(chunks, check, submit).Ok? ==>
              (Poll(chunks, check, submit).value.verdict == AllDone
               <==> chunks != [] && forall j :: 0 <= j < |chunks| ==> Poll(chunks, check, submit).value.chunks[j].status == Done)
  {
    var r := Poll(chunks, check, submit);
    if chunks != [] && r.Ok? {
      var s := Scan(chunks, 0, check, submit).value;
      ScanQueriesPending(chunks, 0, check, submit);
      ScanUntouched(chunks, 0, check, submit);
      ScanCompletes(chunks, 0, check, submit);
      ScanStops(chunks, 0, check, submit);
      PendingFromShape(chunks, 0);
      if !s.stopped {
        forall j | 0 <= j < |chunks| ensures s.chunks[j].status == Done {
          if chunks[j].status != Done {
            assert j in s.queried;
            var n :| 0 <= n < |s.queried| && s.queried[n] == j;
            assert CompletedAt(chunks, s.chunks, check, s.queried[n]);
          }
        }
      } else {
        var k := Last(s.queried);
        assert k == PendingFrom(chunks, 0)[|s.queried| - 1];
        assert s.chunks[k].status != Done;
      }
    }
  }

  /** Polling a meeting whose chunks are all DONE checks nothing, starts
      nothing, changes nothing and reports DONE. */
  lemma {:induction false} PollFinishedMeetingIsNoOp(chunks: seq<Chunk>, check: StatusCheck, submit: Submit)
    requires chunks != []
    requires forall j :: 0 <= j < |chunks| ==> chunks[j].status == Done
    ensures Poll(chunks, check, submit) == Ok(PollOutcome(chunks, AllDone, [], None))
  {
    ScanAllDone(chunks, 0, check, submit);
  }

  /** No chunk is newly left in the ERROR state by a poll. */
  lemma {:induction false} PollLeavesNoNewError(chunks: seq<Chunk>, check: StatusCheck, submit: Submit)
    ensures Poll(chunks, check, submit).Ok? ==>
              forall j :: 0 <= j < |chunks| && Poll(chunks, check, submit).value.chunks[j].status == Error ==>
                Poll(chunks, check, submit).value.chunks[j] == chunks[j]
  {
    var r := Poll(chunks, check, submit);
    if chunks != [] && r.Ok? {
      var s := Scan(chunks, 0, check, submit).value;
      ScanUntouched(chunks, 0, check, submit);
      ScanCompletes(chunks, 0, check, submit);
      ScanStops(chunks, 0, check, submit);
      forall j | 0 <= j < |chunks| ensures s.chunks[j].status == Error ==> s.chunks[j] == chunks[j] {
        if j in s.queried {
          var n :| 0 <= n < |s.queried| && s.queried[n] == j;
          if n < |s.queried| - 1 || !s.stopped {
            assert CompletedAt(chunks, s.chunks, check, j);
          } else {
            assert j == Last(s.queried);
          }
        }
      }
    }
  }
}
