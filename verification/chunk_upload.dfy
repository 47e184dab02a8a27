/** Chunk upload: each uploaded audio file becomes a new PROCESSING chunk with
    the next sequence number of its meeting. Storing the audio, starting its
    recognition job and measuring its duration are external steps; their
    outcome per file is a parameter, and a failing step aborts the whole
    upload with no updated chunk list, as a rolled-back transaction does. */
module ChunkUpload {
  import opened Wrappers
  import opened Domain

  /** What the external steps produce for one file: the audio reference, the
      job id and the measured duration. */
  datatype Staged = Staged(gcsUri: string, jobId: string, durationMs: int)

  /** The answer for one uploaded chunk. */
  datatype Uploaded = Uploaded(chunkSeq: int, jobId: string, gcsUri: string)

  /** The largest sequence number of a non-empty chunk list. */
  function MaxSeq(chunks: seq<Chunk>): (m: int)
    requires chunks != []
    ensures forall j :: 0 <= j < |chunks| ==> chunks[j].chunkSeq <= m
    ensures exists j :: 0 <= j < |chunks| && chunks[j].chunkSeq == m
    decreases |chunks|
  {
    if |chunks| == 1 then chunks[0].chunkSeq
    else
      var m := MaxSeq(chunks[1..]);
      assert forall j :: 1 <= j < |chunks| ==> chunks[j] == chunks[1..][j - 1];
      if chunks[0].chunkSeq >= m then chunks[0].chunkSeq else m
  }

  /** The sequence number of the next chunk: one more than the largest so far,
      or 1 for a meeting without chunks. */
  function NextChunkSeq(chunks: seq<Chunk>): (n: int)
    ensures chunks == [] ==> n == 1
    ensures forall j :: 0 <= j < |chunks| ==> chunks[j].chunkSeq < n
    ensures chunks != [] ==> exists j :: 0 <= j < |chunks| && chunks[j].chunkSeq == n - 1
  {
    if chunks == [] then 1 else MaxSeq(chunks) + 1
  }

  /** The stored state of a freshly uploaded chunk. */
  function NewChunk(chunkSeq: int, s: Staged, languageCode: Option<string>): Chunk {
    Chunk(chunkSeq, s.gcsUri, s.jobId, Some(s.durationMs), Processing, None, None, languageCode, [])
  }

  /** Uploads one file as the next chunk of the meeting. */
  function UploadChunk(chunks: seq<Chunk>, staged: Result<Staged>, languageCode: Option<string>): (r: Result<(seq<Chunk>, Uploaded)>)
    ensures r.Ok? <==> staged.Ok?
    ensures r.Ok? ==>
              && r.value.0 == chunks + [NewChunk(NextChunkSeq(chunks), staged.value, languageCode)]
              && r.value.1 == Uploaded(NextChunkSeq(chunks), staged.value.jobId, staged.value.gcsUri)
  {
    var s :- staged;
    var n := NextChunkSeq(chunks);
    Ok((chunks + [NewChunk(n, s, languageCode)], Uploaded(n, s.jobId, s.gcsUri)))
  }

  /** Uploads several files in input order. */
  function UploadBatch(chunks: seq<Chunk>, staged: seq<Result<Staged>>, languageCode: Option<string>): (r: Result<(seq<Chunk>, seq<Uploaded>)>)
    ensures r.Ok? <==> AllStaged(staged)
    ensures r.Ok? ==> |r.value.0| == |chunks| + |staged| && r.value.0[..|chunks|] == chunks && |r.value.1| == |staged|
    decreases |staged|
  {
    if staged == [] then Ok((chunks, []))
    else
      AllStagedTail(staged);
      var first :- UploadChunk(chunks, staged[0], languageCode);
      var rest :- UploadBatch(first.0, staged[1..], languageCode);
      Ok((rest.0, [first.1] + rest.1))
  }

  /** Sequence numbers strictly increase along the list. */
  predicate Ascending(chunks: seq<Chunk>) {
    forall i, j :: 0 <= i < j < |chunks| ==> chunks[i].chunkSeq < chunks[j].chunkSeq
  }

  /** For a list in ascending order the next number follows the last one. */
  lemma {:induction false} NextFollowsLast(chunks: seq<Chunk>)
    requires chunks != [] && Ascending(chunks)
    ensures NextChunkSeq(chunks) == chunks[|chunks| - 1].chunkSeq + 1
  {
    var j :| 0 <= j < |chunks| && chunks[j].chunkSeq == NextChunkSeq(chunks) - 1;
    if j < |chunks| - 1 {
      assert chunks[j].chunkSeq < chunks[|chunks| - 1].chunkSeq;
    }
  }

  /** An upload keeps the chunk list in ascending order. */
  lemma {:induction false} UploadKeepsAscending(chunks: seq<Chunk>, staged: Result<Staged>, languageCode: Option<string>)
    requires Ascending(chunks) && staged.Ok?
    ensures Ascending(UploadChunk(chunks, staged, languageCode).value.0)
  {
    var out := UploadChunk(chunks, staged, languageCode).value.0;
    forall i, j | 0 <= i < j < |out| ensures out[i].chunkSeq < out[j].chunkSeq {
      if j == |chunks| {
        assert out[i] == chunks[i];
      } else {
        assert out[i] == chunks[i] && out[j] == chunks[j];
      }
    }
  }

  predicate AllStaged(staged: seq<Result<Staged>>) {
    forall i :: 0 <= i < |staged| ==> staged[i].Ok?
  }

  lemma {:induction false} AllStagedTail(staged: seq<Result<Staged>>)
    requires staged != []
    ensures AllStaged(staged) <==> staged[0].Ok? && AllStaged(staged[1..])
  {
    assert forall i :: 1 <= i < |staged| ==> staged[i] == staged[1..][i - 1];
  }

  /** The chunks and answers of a batch: the new chunks come after the old
      ones, numbered consecutively from `next` in input order. */
  predicate AppendedInOrder(chunks: seq<Chunk>, staged: seq<Result<Staged>>, languageCode: Option<string>, next: int,
                            out: seq<Chunk>, answers: seq<Uploaded>)
    requires AllStaged(staged)
  {
    && |answers| == |staged|
    && |out| == |chunks| + |staged|
    && out[..|chunks|] == chunks
    && forall i :: 0 <= i < |staged| ==>
         && answers[i] == Uploaded(next + i, staged[i].value.jobId, staged[i].value.gcsUri)
         && out[|chunks| + i] == NewChunk(next + i, staged[i].value, languageCode)
  }

  /** After one upload the next number is one higher. */
  lemma {:induction false} NextAfterUpload(chunks: seq<Chunk>, staged: Result<Staged>, languageCode: Option<string>)
    requires staged.Ok?
    ensures NextChunkSeq(UploadChunk(chunks, staged, languageCode).value.0) == NextChunkSeq(chunks) + 1
  {
    var mid := UploadChunk(chunks, staged, languageCode).value.0;
    var n := NextChunkSeq(chunks);
    var j :| 0 <= j < |mid| && mid[j].chunkSeq == NextChunkSeq(mid) - 1;
    assert mid[|chunks|].chunkSeq == n;
    if j < |chunks| {
      assert mid[j] == chunks[j];
    }
  }

  /** A successful batch appends the files as chunks numbered consecutively
      from the next number on, in input order, and answers in the same order. */
  lemma {:induction false} BatchNumbersConsecutively(chunks: seq<Chunk>, staged: seq<Result<Staged>>, languageCode: Option<string>)
    requires AllStaged(staged)
    ensures UploadBatch(chunks, staged, languageCode).Ok?
    ensures AppendedInOrder(chunks, staged, languageCode, NextChunkSeq(chunks),
                            UploadBatch(chunks, staged, languageCode).value.0, UploadBatch(chunks, staged, languageCode).value.1)
    decreases |staged|
  {
    if staged == [] {
      assert chunks[..|chunks|] == chunks;
    } else {
      AllStagedTail(staged);
      var r := UploadBatch(chunks, staged, languageCode).value;
      var first := UploadChunk(chunks, staged[0], languageCode).value;
      var mid := first.0;
      var n := NextChunkSeq(chunks);
      NextAfterUpload(chunks, staged[0], languageCode);
      BatchNumbersConsecutively(mid, staged[1..], languageCode);
      var rest := UploadBatch(mid, staged[1..], languageCode).value;
      assert r == (rest.0, [first.1] + rest.1);
      AppendedCons(chunks, staged, languageCode, n, rest.0, rest.1);
    }
  }

  /** One upload in front of a batch that appended in order. */
  lemma {:induction false} AppendedCons(chunks: seq<Chunk>, staged: seq<Result<Staged>>, languageCode: Option<string>, n: int,
                                        out: seq<Chunk>, answers: seq<Uploaded>)
    requires staged != [] && AllStaged(staged) && AllStaged(staged[1..])
    requires AppendedInOrder(chunks + [NewChunk(n, staged[0].value, languageCode)], staged[1..], languageCode, n + 1, out, answers)
    ensures AppendedInOrder(chunks, staged, languageCode, n,
                            out, [Uploaded(n, staged[0].value.jobId, staged[0].value.gcsUri)] + answers)
  {
    var mid := chunks + [NewChunk(n, staged[0].value, languageCode)];
    var answers' := [Uploaded(n, staged[0].value.jobId, staged[0].value.gcsUri)] + answers;
    assert out[..|chunks|] == mid[..|chunks|] == chunks;
    forall i | 0 <= i < |staged|
      ensures answers'[i] == Uploaded(n + i, staged[i].value.jobId, staged[i].value.gcsUri)
      ensures out[|chunks| + i] == NewChunk(n + i, staged[i].value, languageCode)
    {
      if i == 0 {
        assert out[|chunks|] == out[..|mid|][|chunks|] == mid[|chunks|];
      } else {
        var k := i - 1;
        assert staged[i] == staged[1..][k];
        assert answers'[i] == answers[k];
        assert out[|chunks| + i] == out[|mid| + k];
      }
    }
  }

  /** A batch keeps an ascending chunk list ascending. */
  lemma {:induction false} BatchKeepsAscending(chunks: seq<Chunk>, staged: seq<Result<Staged>>, languageCode: Option<string>)
    requires Ascending(chunks)
    ensures UploadBatch(chunks, staged, languageCode).Ok? ==> Ascending(UploadBatch(chunks, staged, languageCode).value.0)
    decreases |staged|
  {
    if staged != [] && staged[0].Ok? {
      UploadKeepsAscending(chunks, staged[0], languageCode);
      BatchKeepsAscending(UploadChunk(chunks, staged[0], languageCode).value.0, staged[1..], languageCode);
    }
  }
}
