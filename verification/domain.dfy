/** The records shared by the speech-recognition side and the meeting side:
    word entries as they come out of a recognition result, the repaired word
    segments, the cues, the job result and the stored chunk state. */
module Domain {
  import opened Wrappers

  /** One entry of `alternatives[0].words` in a native recognition result.
      A missing `speakerLabel` reads as "". The offsets are already converted
      to milliseconds, and `None` means the offset is absent. */
  datatype RawWord = RawWord(word: string, speakerLabel: string, startMs: Option<int>, endMs: Option<int>)

  /** A word whose text is trimmed and whose speaker is resolved, before its
      timing is repaired. */
  datatype SpokenWord = SpokenWord(word: string, speaker: string, startMs: Option<int>, endMs: Option<int>)

  /** Who says what, word by word. */
  function Spoken(ws: seq<SpokenWord>): (r: seq<(string, string)>)
    ensures |r| == |ws|
    ensures forall i :: 0 <= i < |ws| ==> r[i] == (ws[i].speaker, ws[i].word)
  {
    seq(|ws|, i requires 0 <= i < |ws| => (ws[i].speaker, ws[i].word))
  }

  /** A fully timed word. */
  datatype WordSegment = WordSegment(startMs: int, endMs: int, speaker: string, word: string)

  /** A subtitle cue in chunk-local time, as the recognition side hands it over. */
  datatype SttCue = SttCue(startMs: int, endMs: int, text: Option<string>, speaker: string)

  /** The processing state of one chunk. ERROR is only ever reported by a job
      check; the poll turns it into a resubmission. */
  datatype ChunkStatus = Processing | Done | Error

  /** What a job check reports. */
  datatype JobResult = JobResult(status: ChunkStatus, transcript: Option<string>, cues: seq<SttCue>, errorMessage: Option<string>)

  /** One stored cue row of a chunk. The start and end columns are read back
      as nullable values. */
  datatype CueRow = CueRow(chunkSeq: int, cueIndex: int, startMs: Option<int>, endMs: Option<int>, text: string, speaker: string)

  /** The stored state of one uploaded chunk, together with its cue rows in
      ascending `cueIndex` order. */
  datatype Chunk = Chunk(
    chunkSeq: int,
    gcsUri: string,
    jobId: string,
    durationMs: Option<int>,
    status: ChunkStatus,
    transcript: Option<string>,
    errorMessage: Option<string>,
    languageCode: Option<string>,
    cues: seq<CueRow>)

  /** A cue on the meeting timeline, tagged with the chunk it came from. */
  datatype SubtitleCue = SubtitleCue(chunkSeq: int, startMs: int, endMs: int, text: string, speaker: string)
}
