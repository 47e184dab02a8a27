/** The meeting read side: the joined transcript, the subtitles on the
    meeting timeline, the chunk list and the status a snapshot reports. The
    chunks come in ascending `chunkSeq` order. On the meeting timeline a DONE
    chunk starts where the DONE chunks before it end, so its cues move by the
    total duration of the earlier DONE chunks. */
module Timeline {
  import opened Wrappers
  import opened Text
  import opened Domain
  import opened CueStore
  import opened ChunkPoll

  /** A sequence without its last element. */
  function Init<T>(s: seq<T>): seq<T>
    requires s != []
  {
    s[..|s| - 1]
  }

  /** The number of DONE chunks. */
  function DoneCount(chunks: seq<Chunk>): (n: nat)
    ensures n <= |chunks|
    decreases |chunks|
  {
    if chunks == [] then 0
    else DoneCount(Init(chunks)) + (if chunks[|chunks| - 1].status == Done then 1 else 0)
  }

  lemma {:induction false} DoneCountAll(chunks: seq<Chunk>)
    ensures DoneCount(chunks) == |chunks| <==> forall j :: 0 <= j < |chunks| ==> chunks[j].status == Done
    decreases |chunks|
  {
    if chunks != [] {
      var init := Init(chunks);
      DoneCountAll(init);
      assert forall j :: 0 <= j < |init| ==> init[j] == chunks[j];
    }
  }

  // ---- transcript -------------------------------------------------------

  datatype TranscriptView = TranscriptView(transcript: Option<string>, totalChunks: nat, completedChunks: nat)

  /** A chunk whose transcript goes into the meeting transcript. */
  predicate Contributes(c: Chunk) {
    c.status == Done && c.transcript.Some?
  }

  /** The loop over the chunks: the buffer and the number of contributing chunks. */
  function TranscriptFold(chunks: seq<Chunk>, sb: string, completed: nat): (r: (string, nat))
    ensures StartsWith(r.0, sb)
    ensures completed <= r.1 <= completed + |chunks|
    ensures r.1 == completed ==> r.0 == sb
    decreases |chunks|
  {
    if chunks == [] then (sb, completed)
    else if Contributes(chunks[0]) then
      AppendSepExtends(sb, '\n', chunks[0].transcript.value);
      TranscriptFold(chunks[1..], AppendSep(sb, '\n', chunks[0].transcript.value), completed + 1)
    else TranscriptFold(chunks[1..], sb, completed)
  }

  /** The meeting transcript. A meeting without chunks has none. */
  function MeetingTranscript(chunks: seq<Chunk>): (v: TranscriptView)
    ensures chunks == [] ==> v == TranscriptView(None, 0, 0)
    ensures v.totalChunks == |chunks|
    ensures chunks != [] ==> v.transcript.Some?
  {
    if chunks == [] then TranscriptView(None, 0, 0)
    else
      var r := TranscriptFold(chunks, "", 0);
      TranscriptView(Some(Trim(r.0)), |chunks|, r.1)
  }

  /** The transcripts of the contributing chunks, in order. */
  function ContributedTranscripts(chunks: seq<Chunk>): seq<string>
    decreases |chunks|
  {
    if chunks == [] then []
    else (if Contributes(chunks[0]) then [chunks[0].transcript.value] else []) + ContributedTranscripts(chunks[1..])
  }

  lemma {:induction false} TranscriptFoldGathers(chunks: seq<Chunk>, sb: string, completed: nat)
    ensures TranscriptFold(chunks, sb, completed)
            == (Gather(sb, '\n', ContributedTranscripts(chunks)), completed + |ContributedTranscripts(chunks)|)
    decreases |chunks|
  {
    if chunks != [] {
      var c := chunks[0];
      var rest := ContributedTranscripts(chunks[1..]);
      if Contributes(c) {
        TranscriptFoldGathers(chunks[1..], AppendSep(sb, '\n', c.transcript.value), completed + 1);
        assert ContributedTranscripts(chunks) == [c.transcript.value] + rest;
        assert ([c.transcript.value] + rest)[1..] == rest;
      } else {
        TranscriptFoldGathers(chunks[1..], sb, completed);
        assert ContributedTranscripts(chunks) == [] + rest;
        assert [] + rest == rest;
      }
    }
  }

  /** The meeting transcript is the newline-join of the contributing chunks'
      transcripts in chunk order (empty ones before the first non-empty one
      leave no newline), trimmed; the completed count is how many contributed. */
  lemma {:induction false} MeetingTranscriptJoins(chunks: seq<Chunk>)
    requires chunks != []
    ensures MeetingTranscript(chunks).transcript == Some(Trim(Join(DropLeadingEmpty(ContributedTranscripts(chunks)), '\n')))
    ensures MeetingTranscript(chunks).completedChunks == |ContributedTranscripts(chunks)|
  {
    TranscriptFoldGathers(chunks, "", 0);
    GatherFromEmpty('\n', ContributedTranscripts(chunks));
  }

  // ---- subtitles ---------------------------------------------------------

  datatype SubtitleView = SubtitleView(totalChunks: nat, completedChunks: nat, cues: seq<SubtitleCue>)

  /** A chunk whose duration can place the next chunk on the timeline. */
  predicate HasDuration(c: Chunk) {
    c.durationMs.Some? && c.durationMs.value > 0
  }

  /** The duration of a DONE chunk, which must be known and positive. */
  function ResolveDuration(c: Chunk): (r: Result<int>)
    ensures r.Ok? <==> HasDuration(c)
    ensures r.Ok? ==> r.value == c.durationMs.value && r.value > 0
    ensures r.Err? ==> r.error == DurationRequired(c.chunkSeq)
  {
    if c.durationMs.None? || c.durationMs.value <= 0 then Err(DurationRequired(c.chunkSeq))
    else Ok(c.durationMs.value)
  }

  /** Chunk-local cues moved onto the meeting timeline and tagged with the chunk. */
  function Shift(cues: seq<SubtitleCue>, chunkSeq: int, offset: int): (r: seq<SubtitleCue>)
    ensures |r| == |cues|
    ensures forall i :: 0 <= i < |r| ==>
              r[i] == SubtitleCue(chunkSeq, cues[i].startMs + offset, cues[i].endMs + offset, cues[i].text, cues[i].speaker)
  {
    seq(|cues|, i requires 0 <= i < |cues| =>
      SubtitleCue(chunkSeq, cues[i].startMs + offset, cues[i].endMs + offset, cues[i].text, cues[i].speaker))
  }

  /** The cues of one DONE chunk at a given offset. */
  function ChunkCues(c: Chunk, offset: int): seq<SubtitleCue> {
    Shift(ReadChunkCues(c.cues), c.chunkSeq, offset)
  }

  /** The loop over the chunks: the running offset, the cues so far and the
      number of DONE chunks. A DONE chunk's cues go in before its duration is
      resolved, but a failing resolution aborts the whole read. */
  function SubtitleFold(chunks: seq<Chunk>, offset: int, acc: seq<SubtitleCue>, completed: nat): (r: Result<(seq<SubtitleCue>, nat)>)
    ensures r.Ok? ==> |acc| <= |r.value.0| && r.value.0[..|acc|] == acc
    ensures r.Ok? ==> completed <= r.value.1 <= completed + |chunks|
    decreases |chunks|
  {
    if chunks == [] then Ok((acc, completed))
    else
      var c := chunks[0];
      if c.status != Done then SubtitleFold(chunks[1..], offset, acc, completed)
      else
        var shifted := ChunkCues(c, offset);
        var d :- ResolveDuration(c);
        SubtitleFold(chunks[1..], offset + d, acc + shifted, completed + 1)
  }

  /** The subtitles of a meeting on its timeline. */
  function MeetingSubtitles(chunks: seq<Chunk>): (r: Result<SubtitleView>)
    ensures chunks == [] ==> r == Ok(SubtitleView(0, 0, []))
    ensures r.Ok? ==> r.value.totalChunks == |chunks|
  {
    if chunks == [] then Ok(SubtitleView(0, 0, []))
    else
      var p :- SubtitleFold(chunks, 0, [], 0);
      Ok(SubtitleView(|chunks|, p.1, p.0))
  }

  /** Every DONE chunk has a known positive duration. */
  predicate DurationsKnown(chunks: seq<Chunk>) {
    forall j :: 0 <= j < |chunks| && chunks[j].status == Done ==> HasDuration(chunks[j])
  }

  /** The total duration of the DONE chunks. */
  function DoneDuration(chunks: seq<Chunk>): int
    decreases |chunks|
  {
    if chunks == [] then 0
    else
      var last := chunks[|chunks| - 1];
      DoneDuration(Init(chunks)) + (if last.status == Done then last.durationMs.GetOr(0) else 0)
  }

  /** The meeting timeline, built from the last chunk backwards: the cues of
      the earlier chunks, then the last chunk's cues (when it is DONE) moved
      by the total duration of the DONE chunks before it. */
  function GlobalCues(chunks: seq<Chunk>): seq<SubtitleCue>
    decreases |chunks|
  {
    if chunks == [] then []
    else
      var last := chunks[|chunks| - 1];
      GlobalCues(Init(chunks)) + (if last.status == Done then ChunkCues(last, DoneDuration(Init(chunks))) else [])
  }

  lemma {:induction false} SubtitleFoldFrom(chunks: seq<Chunk>, k: nat)
    requires k <= |chunks| && DurationsKnown(chunks)
    ensures SubtitleFold(chunks[k..], DoneDuration(chunks[..k]), GlobalCues(chunks[..k]), DoneCount(chunks[..k]))
            == Ok((GlobalCues(chunks), DoneCount(chunks)))
    decreases |chunks| - k
  {
    if k == |chunks| {
      assert chunks[..k] == chunks;
    } else {
      var c := chunks[k];
      var pre := chunks[..k];
      var pre' := chunks[..k + 1];
      assert Init(pre') == pre && pre'[|pre'| - 1] == c;
      assert chunks[k..][1..] == chunks[k + 1..];
      assert chunks[k..][0] == c;
      SubtitleFoldFrom(chunks, k + 1);
      if c.status == Done {
        assert HasDuration(c);
        assert DoneDuration(pre') == DoneDuration(pre) + c.durationMs.value;
        assert GlobalCues(pre') == GlobalCues(pre) + ChunkCues(c, DoneDuration(pre));
        assert DoneCount(pre') == DoneCount(pre) + 1;
      } else {
        assert DoneDuration(pre') == DoneDuration(pre);
        assert GlobalCues(pre') == GlobalCues(pre) + [];
        assert GlobalCues(pre) + [] == GlobalCues(pre);
        assert DoneCount(pre') == DoneCount(pre);
      }
    }
  }

  lemma {:induction false} SubtitleFoldNeedsDurations(chunks: seq<Chunk>, offset: int, acc: seq<SubtitleCue>, completed: nat)
    ensures SubtitleFold(chunks, offset, acc, completed).Ok? <==> DurationsKnown(chunks)
    ensures SubtitleFold(chunks, offset, acc, completed).Err? ==>
              exists j :: 0 <= j < |chunks| && chunks[j].status == Done && !HasDuration(chunks[j])
                          && SubtitleFold(chunks, offset, acc, completed).error == DurationRequired(chunks[j].chunkSeq)
    decreases |chunks|
  {
    if chunks != [] {
      var c := chunks[0];
      assert DurationsKnown(chunks) <==> (c.status == Done ==> HasDuration(c)) && DurationsKnown(chunks[1..]) by {
        assert forall j :: 0 < j < |chunks| ==> chunks[j] == chunks[1..][j - 1];
      }
      var r := SubtitleFold(chunks, offset, acc, completed);
      if c.status != Done {
        SubtitleFoldNeedsDurations(chunks[1..], offset, acc, completed);
        if r.Err? {
          var j :| 0 <= j < |chunks[1..]| && chunks[1..][j].status == Done && !HasDuration(chunks[1..][j])
                   && r.error == DurationRequired(chunks[1..][j].chunkSeq);
          assert chunks[1..][j] == chunks[j + 1];
        }
      } else if HasDuration(c) {
        var d := c.durationMs.value;
        SubtitleFoldNeedsDurations(chunks[1..], offset + d, acc + ChunkCues(c, offset), completed + 1);
        if r.Err? {
          var j :| 0 <= j < |chunks[1..]| && chunks[1..][j].status == Done && !HasDuration(chunks[1..][j])
                   && r.error == DurationRequired(chunks[1..][j].chunkSeq);
          assert chunks[1..][j] == chunks[j + 1];
        }
      }
    }
  }

  /** The subtitles are the meeting timeline: each DONE chunk's stored cues,
      tagged with its `chunkSeq` and moved by the summed durations of the DONE
      chunks before it. The read fails exactly when some DONE chunk lacks a
      positive duration, naming such a chunk. */
  lemma {:induction false} SubtitlesArePrefixSumShifted(chunks: seq<Chunk>)
    ensures MeetingSubtitles(chunks).Ok? <==> DurationsKnown(chunks)
    ensures DurationsKnown(chunks) ==>
              MeetingSubtitles(chunks) == Ok(SubtitleView(|chunks|, DoneCount(chunks), GlobalCues(chunks)))
    ensures MeetingSubtitles(chunks).Err? ==>
              exists j :: 0 <= j < |chunks| && chunks[j].status == Done && !HasDuration(chunks[j])
                          && MeetingSubtitles(chunks).error == DurationRequired(chunks[j].chunkSeq)
  {
    if chunks != [] {
      SubtitleFoldNeedsDurations(chunks, 0, [], 0);
      if DurationsKnown(chunks) {
        SubtitleFoldFrom(chunks, 0);
        assert chunks[0..] == chunks;
        assert chunks[..0] == [];
      }
    }
  }

  // ---- chunk list and snapshot status ------------------------------------

  /** One entry of the chunk list. */
  datatype ChunkRow = ChunkRow(chunkSeq: int, status: ChunkStatus, transcript: Option<string>)

  datatype ChunksView = ChunksView(totalChunks: nat, completedChunks: nat, rows: seq<ChunkRow>)

  function RowOf(c: Chunk): ChunkRow {
    ChunkRow(c.chunkSeq, c.status, c.transcript)
  }

  /** The loop over the chunks: the DONE count and the rows so far. */
  function ChunkFold(chunks: seq<Chunk>, completed: nat, rows: seq<ChunkRow>): (r: (nat, seq<ChunkRow>))
    ensures |r.1| == |rows| + |chunks| && r.1[..|rows|] == rows
    ensures forall i :: 0 <= i < |chunks| ==> r.1[|rows| + i] == RowOf(chunks[i])
    ensures completed <= r.0 <= completed + |chunks|
    decreases |chunks|
  {
    if chunks == [] then (completed, rows)
    else ChunkFold(chunks[1..], completed + (if chunks[0].status == Done then 1 else 0), rows + [RowOf(chunks[0])])
  }

  /** The chunk list: one row per chunk in order, and the DONE count. */
  function MeetingChunks(chunks: seq<Chunk>): (v: ChunksView)
    ensures chunks == [] ==> v == ChunksView(0, 0, [])
    ensures v.totalChunks == |chunks|
  {
    if chunks == [] then ChunksView(0, 0, [])
    else
      var r := ChunkFold(chunks, 0, []);
      ChunksView(|chunks|, r.0, r.1)
  }

  /** The rows of the given chunks, in order. */
  function RowsOf(chunks: seq<Chunk>): (rows: seq<ChunkRow>)
    ensures |rows| == |chunks|
    ensures forall i :: 0 <= i < |chunks| ==> rows[i] == RowOf(chunks[i])
  {
    seq(|chunks|, i requires 0 <= i < |chunks| => RowOf(chunks[i]))
  }

  lemma {:induction false} ChunkFoldFrom(chunks: seq<Chunk>, k: nat)
    requires k <= |chunks|
    ensures ChunkFold(chunks[k..], DoneCount(chunks[..k]), RowsOf(chunks[..k])) == (DoneCount(chunks), RowsOf(chunks))
    decreases |chunks| - k
  {
    if k == |chunks| {
      assert chunks[..k] == chunks;
    } else {
      var pre' := chunks[..k + 1];
      assert Init(pre') == chunks[..k] && pre'[|pre'| - 1] == chunks[k];
      assert chunks[k..][1..] == chunks[k + 1..];
      assert RowsOf(chunks[..k]) + [RowOf(chunks[k])] == RowsOf(pre');
      ChunkFoldFrom(chunks, k + 1);
    }
  }

  /** The chunk list has one row per chunk, in order, with its sequence
      number, status and transcript, and counts the DONE chunks. */
  lemma {:induction false} ChunkListRows(chunks: seq<Chunk>)
    ensures MeetingChunks(chunks).completedChunks == DoneCount(chunks)
    ensures MeetingChunks(chunks).rows == RowsOf(chunks)
  {
    if chunks != [] {
      ChunkFoldFrom(chunks, 0);
      assert chunks[0..] == chunks && chunks[..0] == [];
      assert RowsOf([]) == [];
    }
  }

  /** The status a snapshot reports without polling: DONE when the meeting
      has chunks and all of them are counted as DONE, which is the verdict a
      poll of the same chunks gives when it finds nothing left to do. */
  function SnapshotStatus(chunks: seq<Chunk>): (r: Verdict)
    ensures r == AllDone <==> chunks != [] && forall j :: 0 <= j < |chunks| ==> chunks[j].status == Done
  {
    var v := MeetingChunks(chunks);
    ChunkListRows(chunks);
    DoneCountAll(chunks);
    if v.totalChunks > 0 && v.totalChunks == v.completedChunks then AllDone else Wait
  }

  // ---- snapshot ----------------------------------------------------------

  /** The combined view of a meeting, together with the chunks as stored
      after the call. */
  datatype Snapshot = Snapshot(
    chunks: seq<Chunk>,
    status: Verdict,
    totalChunks: nat,
    completedChunks: nat,
    transcript: Option<string>,
    cues: seq<SubtitleCue>,
    rows: seq<ChunkRow>)

  /** The reads of a snapshot over the given chunks, with the given status. */
  function ViewOf(chunks: seq<Chunk>, status: Verdict): (r: Result<Snapshot>)
    ensures r.Ok? <==> MeetingSubtitles(chunks).Ok?
  {
    var sub :- MeetingSubtitles(chunks);
    var v := MeetingChunks(chunks);
    Ok(Snapshot(chunks, status, v.totalChunks, v.completedChunks, MeetingTranscript(chunks).transcript, sub.cues, v.rows))
  }

  /** A snapshot: with `poll` the meeting is polled first and the status is the
      poll's verdict; without, the status comes from the stored chunks. */
  function MeetingSnapshot(chunks: seq<Chunk>, poll: bool, check: StatusCheck, submit: Submit): (r: Result<Snapshot>)
    ensures !poll ==> (r.Ok? <==> DurationsKnown(chunks))
  {
    if poll then
      var o :- Poll(chunks, check, submit);
      ViewOf(o.chunks, o.verdict)
    else
      SubtitlesArePrefixSumShifted(chunks);
      ViewOf(chunks, SnapshotStatus(chunks))
  }

  /** After a poll the reported status is the one a snapshot without polling
      would report for the stored chunks. */
  lemma {:induction false} PolledStatusMatchesStored(chunks: seq<Chunk>, check: StatusCheck, submit: Submit)
    requires MeetingSnapshot(chunks, true, check, submit).Ok?
    ensures MeetingSnapshot(chunks, true, check, submit).value.status
            == SnapshotStatus(MeetingSnapshot(chunks, true, check, submit).value.chunks)
  {
    var o := Poll(chunks, check, submit).value;
    PollDoneIffAllChunksDone(chunks, check, submit);
  }

  /** Polling a meeting whose chunks are all DONE yields the same snapshot as
      not polling. */
  lemma {:induction false} PollingFinishedMeetingChangesNothing(chunks: seq<Chunk>, check: StatusCheck, submit: Submit)
    requires chunks != []
    requires forall j :: 0 <= j < |chunks| ==> chunks[j].status == Done
    ensures MeetingSnapshot(chunks, true, check, submit) == MeetingSnapshot(chunks, false, check, submit)
  {
    PollFinishedMeetingIsNoOp(chunks, check, submit);
  }
}
