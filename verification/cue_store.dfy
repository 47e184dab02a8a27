/** The stored cue rows of a chunk. Saving replaces the chunk's rows with one
    row per cue, numbered from 1; reading returns the rows in index order as
    timeline cues and skips rows without a start or an end. */
module CueStore {
  import opened Wrappers
  import opened Domain

  /** The rows that replace a chunk's cue set: `cueIndex` counts from 1 in
      list order and a missing text is stored as "". */
  function SaveChunkCues(chunkSeq: int, cues: seq<SttCue>): (rows: seq<CueRow>)
    ensures |rows| == |cues|
    ensures forall i :: 0 <= i < |rows| ==>
              && rows[i].chunkSeq == chunkSeq
              && rows[i].cueIndex == i + 1
              && rows[i].startMs == Some(cues[i].startMs)
              && rows[i].endMs == Some(cues[i].endMs)
              && rows[i].text == cues[i].text.GetOr("")
              && rows[i].speaker == cues[i].speaker
  {
    seq(|cues|, i requires 0 <= i < |cues| =>
      CueRow(chunkSeq, i + 1, Some(cues[i].startMs), Some(cues[i].endMs), cues[i].text.GetOr(""), cues[i].speaker))
  }

  /** A row that has both a start and an end. */
  predicate Complete(row: CueRow) {
    row.startMs.Some? && row.endMs.Some?
  }

  /** The cue a complete row reads as. */
  function RowCue(row: CueRow): SubtitleCue
    requires Complete(row)
  {
    SubtitleCue(row.chunkSeq, row.startMs.value, row.endMs.value, row.text, row.speaker)
  }

  /** Reads a chunk's rows, dropping incomplete ones. */
  function ReadChunkCues(rows: seq<CueRow>): (cues: seq<SubtitleCue>)
    ensures |cues| <= |rows|
    ensures (forall j :: 0 <= j < |rows| ==> !Complete(rows[j])) ==> cues == []
    decreases |rows|
  {
    if rows == [] then []
    else
      var rest := ReadChunkCues(rows[1..]);
      if Complete(rows[0]) then [RowCue(rows[0])] + rest else rest
  }

  /** Reading rows one more row at a time: a complete row adds its cue at the
      end, an incomplete one adds nothing. */
  lemma {:induction false} ReadSnoc(rows: seq<CueRow>, row: CueRow)
    ensures ReadChunkCues(rows + [row]) == ReadChunkCues(rows) + (if Complete(row) then [RowCue(row)] else [])
    decreases |rows|
  {
    if rows == [] {
      assert ([] + [row])[1..] == [];
    } else {
      assert (rows + [row])[1..] == rows[1..] + [row];
      ReadSnoc(rows[1..], row);
    }
  }

  /** When every row is complete, each row reads as its own cue. */
  lemma {:induction false} ReadAllComplete(rows: seq<CueRow>)
    requires forall j :: 0 <= j < |rows| ==> Complete(rows[j])
    ensures |ReadChunkCues(rows)| == |rows|
    ensures forall i :: 0 <= i < |rows| ==> ReadChunkCues(rows)[i] == RowCue(rows[i])
    decreases |rows|
  {
    if rows != [] {
      ReadAllComplete(rows[1..]);
    }
  }

  /** The timeline cue a saved cue reads back as. */
  function SavedCue(chunkSeq: int, c: SttCue): SubtitleCue {
    SubtitleCue(chunkSeq, c.startMs, c.endMs, c.text.GetOr(""), c.speaker)
  }

  /** Reading back the rows saved for a chunk gives every cue, in order, with
      a missing text read as "". */
  lemma {:induction false} SaveThenRead(chunkSeq: int, cues: seq<SttCue>)
    ensures |ReadChunkCues(SaveChunkCues(chunkSeq, cues))| == |cues|
    ensures forall i :: 0 <= i < |cues| ==> ReadChunkCues(SaveChunkCues(chunkSeq, cues))[i] == SavedCue(chunkSeq, cues[i])
  {
    ReadAllComplete(SaveChunkCues(chunkSeq, cues));
  }
}
