/** The native-result parser: the recognition results of one stored result
    file become a speaker-labelled transcript and a list of timed words. Each
    result starts afresh (no current speaker, no previous end, an empty
    pending buffer); the transcript buffer is shared by all results. */
module NativeResult {
  import opened Wrappers
  import opened Text
  import opened Domain
  import opened Speakers
  import opened WordTiming
  import opened TranscriptLines
  import opened CueSegmenter

  datatype ParsedNative = ParsedNative(transcript: string, segments: seq<WordSegment>)

  /** The words of one result, ready for both builders. */
  function ResultWords(result: seq<RawWord>): (r: seq<SpokenWord>)
    ensures |r| == |result|
    ensures forall i :: 0 <= i < |r| ==>
              && r[i].word == Trim(result[i].word)
              && r[i].startMs == result[i].startMs
              && r[i].endMs == result[i].endMs
  {
    Utter(result, None)
  }

  /** The segments one result contributes. */
  function ResultSegments(result: seq<RawWord>): seq<WordSegment> {
    RepairTimings(ResultWords(result), -1, [])
  }

  /** The loop over the results: the transcript buffer and the segments so far. */
  function ParseResults(results: seq<seq<RawWord>>, sb: string, segs: seq<WordSegment>): (r: (string, seq<WordSegment>))
    ensures WellTimed(segs) ==> WellTimed(r.1)
    decreases |results|
  {
    if results == [] then (sb, segs)
    else
      var ws := ResultWords(results[0]);
      ParseResults(results[1..], BuildLines(ws, None, "", sb), segs + RepairTimings(ws, -1, []))
  }

  /** Parses a native result: the trimmed transcript and the timed words.
      Every timed word ends after it starts. */
  function ParseNative(results: seq<seq<RawWord>>): (p: ParsedNative)
    ensures WellTimed(p.segments)
  {
    var r := ParseResults(results, "", []);
    ParsedNative(Trim(r.0), r.1)
  }

  /** All transcript lines of the results, result after result. */
  function AllLines(results: seq<seq<RawWord>>): seq<string>
    decreases |results|
  {
    if results == [] then [] else ResultLines(ResultWords(results[0])) + AllLines(results[1..])
  }

  /** All segments of the results, result after result. */
  function AllSegments(results: seq<seq<RawWord>>): seq<WordSegment>
    decreases |results|
  {
    if results == [] then [] else ResultSegments(results[0]) + AllSegments(results[1..])
  }

  function WordCount(results: seq<seq<RawWord>>): nat
    decreases |results|
  {
    if results == [] then 0 else |results[0]| + WordCount(results[1..])
  }

  lemma {:induction false} ParseResultsGathers(results: seq<seq<RawWord>>, sb: string, segs: seq<WordSegment>)
    ensures ParseResults(results, sb, segs) == (Gather(sb, '\n', AllLines(results)), segs + AllSegments(results))
    decreases |results|
  {
    if results == [] {
      assert segs + [] == segs;
    } else {
      var ws := ResultWords(results[0]);
      var sb' := BuildLines(ws, None, "", sb);
      ResultTranscript(ws, sb);
      ParseResultsGathers(results[1..], sb', segs + RepairTimings(ws, -1, []));
      GatherConcat(sb, '\n', ResultLines(ws), AllLines(results[1..]));
      assert segs + RepairTimings(ws, -1, []) + AllSegments(results[1..]) == segs + AllSegments(results);
    }
  }

  /** The transcript is the trimmed newline-join of every result's lines,
      except that empty lines before the first non-empty one vanish; the
      segments are every result's segments in result order. */
  lemma {:induction false} ParseNativeAssembles(results: seq<seq<RawWord>>)
    ensures ParseNative(results).transcript == Trim(Join(DropLeadingEmpty(AllLines(results)), '\n'))
    ensures ParseNative(results).segments == AllSegments(results)
  {
    ParseResultsGathers(results, "", []);
    GatherFromEmpty('\n', AllLines(results));
    assert [] + AllSegments(results) == AllSegments(results);
  }

  /** There are never more timed words than words. */
  lemma {:induction false} SegmentsAtMostWords(results: seq<seq<RawWord>>)
    ensures |AllSegments(results)| <= WordCount(results)
    decreases |results|
  {
    if results != [] {
      SegmentsAtMostWords(results[1..]);
    }
  }

  /** A result with some offset and no negative start keeps all its words,
      with their resolved speakers, in order. */
  lemma {:induction false} TimedResultKept(result: seq<RawWord>, k: nat)
    requires k < |result| && (result[k].startMs.Some? || result[k].endMs.Some?)
    requires forall i :: 0 <= i < |result| ==> result[i].startMs.Some? ==> result[i].startMs.value >= 0
    ensures SaidByAll(ResultSegments(result)) == Spoken(ResultWords(result))
  {
    var ws := ResultWords(result);
    assert !Untimed(ws[k]);
    assert StartsNonNegative(ws);
    TimedResultKeepsAllWords(ws, k);
  }

  /** A result whose words all lack both offsets contributes no timed word. */
  lemma {:induction false} UntimedResultDropped(result: seq<RawWord>)
    requires forall i :: 0 <= i < |result| ==> result[i].startMs.None? && result[i].endMs.None?
    ensures ResultSegments(result) == []
  {
    var ws := ResultWords(result);
    assert forall i :: 0 <= i < |ws| ==> Untimed(ws[i]);
    NeverTimedDropsAll(ws, []);
  }
}
