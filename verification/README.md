# Speech-to-text meeting service: a Dafny model of its core

This project models the core logic of a Spring service that transcribes
meetings. A meeting's audio arrives as a numbered series of chunks
(`chunkSeq` 1, 2, …). Each chunk is uploaded to cloud storage and a
batch-recognition job is started for it. The chunk's state row then waits in
the PROCESSING state.

Polling a meeting walks its chunks in `chunkSeq` order:

- A chunk that is already DONE is skipped.
- A finished job stores its transcript and subtitle cues.
- A failed job is resubmitted with the same audio.
- The walk stops at the first job that has not finished.

The recognizer's native result is a list of results, and each result is a
list of words with an optional speaker label and optional offsets. The
service turns it into two things:

- a transcript with one `SPEAKER_<id>: …` line per run of same-speaker words;
- word segments with repaired timings, which are sorted and cut into
  subtitle cues.

Meeting views combine the chunks:

- The transcript joins the DONE chunks' transcripts.
- The subtitles shift each DONE chunk's cues by the durations of the DONE
  chunks before it.
- The chunk list and the snapshot report the counts and status.

Merging a meeting's audio either serves its single chunk or writes an ffmpeg
concat list with one quoted line per chunk.

The model is functional. Entities are immutable datatypes, and every
operation is a pure function.

- An exception the service throws is an `Err` of `Wrappers.Result` that
  names its condition, and the caller keeps its previous state. That is what
  the transaction does for unchecked exceptions, and the model's own error
  conditions are all unchecked: an invalid reference is an
  `IllegalArgumentException`, and a missing object or duration is an
  `IllegalStateException`. A checked exception from an external call behaves
  differently (see "Left out").
- External calls are function parameters:
  - the job-status check (`ChunkPoll.StatusCheck`);
  - the job submission (`ChunkPoll.Submit`);
  - the storage read of a native result (`JobStatus.Fetch`);
  - the storage existence check and the local download path (`AudioMerge.PlanMerge`);
  - the outcome of uploading and probing one file (`ChunkUpload.UploadChunk`).
- Java's `String.trim` and `String.isBlank` are modelled separately, because
  they strip different characters (`Text.Trim` and `Text.IsBlank`).

The per-word loop of the native-result parser keeps three pieces of state:
the current speaker, the timing repair state and the transcript line. The
model splits the loop into three folds over the same words:

- `Speakers.Utter` resolves each word's speaker;
- `WordTiming.RepairTimings` repairs the timings;
- `TranscriptLines.BuildLines` builds the lines.

The split is exact. The only state the folds share is the current speaker,
and after each word it equals that word's resolved speaker.

Two behaviours of the code are easy to misread:

- A speaker label with no digit but some non-blank text is kept verbatim as
  the speaker id. Only a blank label falls back to the previous speaker, or
  to `"0"` for the first word of a result (`Speakers.ResolveSpeaker`;
  src/main/java/com/example/stttest/service/GoogleSttService.java:277-280 and :419-427).
- Take two leading untimed words before a word that starts at 2000 ms. They
  are back-filled into the slots [1998, 1999) and [1999, 2000), which start
  at `max(0, start - n)`. They do not start at 0 (`WordTiming.Backfill`;
  src/main/java/com/example/stttest/service/GoogleSttService.java:300-315).

## Model

| member | source | states |
|---|---|---|
| GcsUri.IndexOf | src/main/java/com/example/stttest/service/MeetingAudioMergeService.java:169 | `indexOf` gives the first position of the character, or -1 exactly when it does not occur |
| GcsUri.ParseGsUri | src/main/java/com/example/stttest/service/MeetingAudioMergeService.java:161-175 | null input or input not starting with `gs://` is rejected as not-a-gs-URI, and nothing else is; on success the bucket is non-empty without `/`, the object is non-empty, and `gs://bucket/object` is the input; every other failure is an invalid-URI error |
| GcsUri.SplitBucket | src/main/java/com/example/stttest/service/MeetingAudioMergeService.java:167-174 | after the scheme, splits at the first `/` into a valid bucket and object that reassemble the rest; a missing `/`, an empty bucket or an empty object is an invalid-URI error |
| GcsUri.ParseFormat | src/main/java/com/example/stttest/service/GoogleSttService.java:445-459 | formatting any valid bucket/object pair and parsing it back yields the same pair |
| GcsUri.ParseAcceptsExactlyFormatted | src/main/java/com/example/stttest/service/GoogleSttService.java:445-459 | a string parses exactly when it is the `gs://bucket/object` form of some valid pair |
| Speakers.FirstDigitIndex | src/main/java/com/example/stttest/service/GoogleSttService.java:421-422 | the regex search for a digit finds the first digit's position, and finds none exactly when the label has no digit |
| Speakers.DigitPrefix | src/main/java/com/example/stttest/service/GoogleSttService.java:423 | the digit run taken at a position is all digits and is not followed by a digit |
| Speakers.NormalizeSpeakerTag | src/main/java/com/example/stttest/service/GoogleSttService.java:419-427 | the tag is the first maximal run of digits in the label; a label without digits is returned unchanged |
| Speakers.ResolveSpeaker | src/main/java/com/example/stttest/service/GoogleSttService.java:277-280 | a non-blank normalised tag is the speaker; a blank one falls back to the current speaker, or to `"0"` when there is none |
| Speakers.Utter | src/main/java/com/example/stttest/service/GoogleSttService.java:266-280 | each word is trimmed and keeps its offsets; a usable label gives its tag; an unusable one repeats the previous word's speaker, and on the first word of a result it gives the current speaker or `"0"` |
| Speakers.SpeakerIsLatestUsableLabel | src/main/java/com/example/stttest/service/GoogleSttService.java:266-330 | a word's speaker is the tag of the latest word at or before it with a usable label |
| Speakers.SpeakerDefaultsToZero | src/main/java/com/example/stttest/service/GoogleSttService.java:266-280 | when no word of a result up to this one has a usable label, the speaker is `"0"`, because the current speaker is reset for each result |
| WordTiming.Repair | src/main/java/com/example/stttest/service/GoogleSttService.java:290-298 | a missing start becomes the previous end if there is one, else `max(0, end - 1)`; a missing end, or an end not after the start, becomes start + 1; a given start is kept; the segment ends after it starts |
| WordTiming.Backfill | src/main/java/com/example/stttest/service/GoogleSttService.java:300-315 | the pending words keep their order, speaker and text in 1 ms slots starting at `max(0, start - n)`; when `start >= n` the last slot ends exactly at the timed word's start |
| WordTiming.RepairTimings | src/main/java/com/example/stttest/service/GoogleSttService.java:269-319 | every emitted segment ends after it starts, and there are never more segments than words, pending ones included |
| WordTiming.RepairKeepsWordOrder | src/main/java/com/example/stttest/service/GoogleSttService.java:286-317 | the segments say the pending words and then the incoming words, with speaker and text and in the original order, up to the last emitted segment |
| WordTiming.AllKeptAfterTimedWord | src/main/java/com/example/stttest/service/GoogleSttService.java:286-318 | once a previous end is set and no start is negative, no word is deferred, so every word gives a segment |
| WordTiming.LeadingUntimedBackfilled | src/main/java/com/example/stttest/service/GoogleSttService.java:286-317 | words with no offset before the first timed word are back-filled just before that word; the rest of the result follows it |
| WordTiming.NeverTimedDropsAll | src/main/java/com/example/stttest/service/GoogleSttService.java:271-288 | a result in which no word has an offset contributes no segment, because its pending words are dropped |
| WordTiming.TimedResultKeepsAllWords | src/main/java/com/example/stttest/service/GoogleSttService.java:286-319 | a result with some timed word and no negative start keeps every word as a segment, in order |
| TranscriptLines.Pairs | src/main/java/com/example/stttest/service/GoogleSttService.java:324-336 | a line's run pairs each of its words with the line's speaker |
| TranscriptLines.GroupIsMaximal | src/main/java/com/example/stttest/service/GoogleSttService.java:322-336 | grouping cuts the words into non-empty same-speaker runs, neighbouring runs have different speakers, and the runs say the words in order |
| TranscriptLines.RunsAreMaximal | src/main/java/com/example/stttest/service/GoogleSttService.java:322-339 | the runs of a result are its maximal same-speaker runs |
| TranscriptLines.TrimmedLines | src/main/java/com/example/stttest/service/GoogleSttService.java:400-406 | one trimmed line per run |
| TranscriptLines.BuildLinesGroups | src/main/java/com/example/stttest/service/GoogleSttService.java:322-339 | the line-building loop appends one trimmed `SPEAKER_<id>: words` line per maximal run |
| TranscriptLines.ResultTranscript | src/main/java/com/example/stttest/service/GoogleSttService.java:266-339 | a result's transcript contribution is its run lines appended after newlines; an empty result appends an empty line |
| TranscriptLines.AppendTranscriptLine | src/main/java/com/example/stttest/service/GoogleSttService.java:400-406 | the buffer is kept, followed by a newline when it already held text, and then by the trimmed line |
| TranscriptLines.BuildLines | src/main/java/com/example/stttest/service/GoogleSttService.java:322-339 | the word loop only appends to the transcript buffer: what the buffer held stays its prefix |
| CueSegmenter.Insert | src/main/java/com/example/stttest/service/GoogleSttService.java:353 | inserting adds exactly the new segment |
| CueSegmenter.SortByTime | src/main/java/com/example/stttest/service/GoogleSttService.java:353 | sorting is a permutation of the segments |
| CueSegmenter.InsertKeepsSorted | src/main/java/com/example/stttest/service/GoogleSttService.java:353 | inserting into a `(start, end)`-sorted list keeps it sorted |
| CueSegmenter.SortIsSorted | src/main/java/com/example/stttest/service/GoogleSttService.java:353 | the result is sorted by `(start, end)` |
| CueSegmenter.InsertKeepsOrderOfEqualKeys | src/main/java/com/example/stttest/service/GoogleSttService.java:353 | insertion puts a segment before every segment with its own key |
| CueSegmenter.SortIsStable | src/main/java/com/example/stttest/service/GoogleSttService.java:353 | segments with equal `(start, end)` keep their relative order, as `List.sort` guarantees |
| CueSegmenter.Words | src/main/java/com/example/stttest/service/GoogleSttService.java:383 | a cue's words are its segments' words, in order |
| CueSegmenter.Segment | src/main/java/com/example/stttest/service/GoogleSttService.java:362-395 | every cue is non-empty, and an open cue is continued by the first cue |
| CueSegmenter.SegmentFlattens | src/main/java/com/example/stttest/service/GoogleSttService.java:362-395 | the cues hold the open cue's words and then every input word, each exactly once and in order |
| CueSegmenter.SegmentGoodCues | src/main/java/com/example/stttest/service/GoogleSttService.java:362-390 | every cue has one speaker and no word ending in `.` except possibly its last |
| CueSegmenter.SegmentBreaks | src/main/java/com/example/stttest/service/GoogleSttService.java:368-390 | neighbouring cues are separated by a word ending in `.` or by a speaker change |
| CueSegmenter.SegmentIsCueCut | src/main/java/com/example/stttest/service/GoogleSttService.java:362-395 | the cues are exactly the cut of the words at sentence ends and speaker changes |
| CueSegmenter.MaxEnd | src/main/java/com/example/stttest/service/GoogleSttService.java:367-377 | the running maximum of ends is at least every word's end and is one of them |
| CueSegmenter.CueOf | src/main/java/com/example/stttest/service/GoogleSttService.java:365-394 | a cue starts at its first word's start, has that word's speaker, and ends at the largest end among its words |
| CueSegmenter.CueGroups | src/main/java/com/example/stttest/service/GoogleSttService.java:353-395 | no cue is empty |
| CueSegmenter.CueGroupCount | src/main/java/com/example/stttest/service/GoogleSttService.java:353-395 | the cut has at most as many groups as there are segments, and none exactly when there are no segments |
| CueSegmenter.BuildCues | src/main/java/com/example/stttest/service/GoogleSttService.java:351-398 | there are at most as many cues as segments, and no cue exactly when there is no segment |
| CueSegmenter.CuesComeFromWords | src/main/java/com/example/stttest/service/GoogleSttService.java:353-394 | every cue starts where some segment starts and has that segment's speaker, and ends where some segment ends |
| CueSegmenter.FirstsOfSortedCut | src/main/java/com/example/stttest/service/GoogleSttService.java:353-372 | cutting a sorted word list gives groups whose first starts ascend |
| CueSegmenter.CueGroupsCutSortedWords | src/main/java/com/example/stttest/service/GoogleSttService.java:353-395 | the cues are the sentence/speaker cut of the stably sorted segments: every sorted word lands in exactly one cue, in order |
| CueSegmenter.CueStartsAscend | src/main/java/com/example/stttest/service/GoogleSttService.java:353-372 | cue starts are non-decreasing in output order |
| CueSegmenter.CuesEndAfterStart | src/main/java/com/example/stttest/service/GoogleSttService.java:365-377 | when every segment ends after it starts, so does every cue |
| CueSegmenter.CueTextJoinsWords | src/main/java/com/example/stttest/service/GoogleSttService.java:380-394 | a cue's text is its words joined by single spaces, with leading empty words leaving no space, then trimmed |
| NativeResult.ParseResults | src/main/java/com/example/stttest/service/GoogleSttService.java:257-340 | appending results keeps every segment ending after its start |
| NativeResult.ParseNative | src/main/java/com/example/stttest/service/GoogleSttService.java:254-344 | every segment of a parsed native result ends after it starts |
| NativeResult.ParseResultsGathers | src/main/java/com/example/stttest/service/GoogleSttService.java:257-340 | the results are concatenated line-wise into the transcript buffer, and their segments are appended in result order to one shared list |
| NativeResult.ParseNativeAssembles | src/main/java/com/example/stttest/service/GoogleSttService.java:257-343 | the transcript is all results' lines joined by single newlines, with no newline before the first non-empty line, and then trimmed; the segments are all results' segments in order |
| NativeResult.SegmentsAtMostWords | src/main/java/com/example/stttest/service/GoogleSttService.java:286-319 | there are at most as many segments as words |
| NativeResult.TimedResultKept | src/main/java/com/example/stttest/service/GoogleSttService.java:266-319 | a result with a timed word and no negative start has one segment per word, in order |
| NativeResult.UntimedResultDropped | src/main/java/com/example/stttest/service/GoogleSttService.java:271-288 | a result with no offsets contributes no segments |
| NativeResult.ResultWords | src/main/java/com/example/stttest/service/GoogleSttService.java:273-285 | one spoken word per JSON word, in order, with the word text trimmed and both offsets kept |
| JobStatus.CollectFiles | src/main/java/com/example/stttest/service/GoogleSttService.java:211-246 | the file loop ends as DONE or as ERROR; an ERROR carries the message of one of the failed file entries and no transcript or cues; a bad native-result reference or a missing object aborts with that condition |
| JobStatus.Stored | src/main/java/com/example/stttest/service/GoogleSttService.java:211-246 | a failed file entry leads to no result; a result comes only from a stored entry whose reference parses as a `gs://` URI, and every segment in it ends after it starts |
| JobStatus.FirstFailedFileGivesError | src/main/java/com/example/stttest/service/GoogleSttService.java:211-215 | when every entry before a failed one leads to a stored result, the loop ends as ERROR with exactly that entry's message, no transcript and no cues |
| JobStatus.FailedFileFailsJob | src/main/java/com/example/stttest/service/GoogleSttService.java:182-215 | a finished, error-free job whose first failing file entry follows only stored ones reports ERROR with that entry's message |
| JobStatus.CheckJobStatus | src/main/java/com/example/stttest/service/GoogleSttService.java:182-231 | a running operation is PROCESSING with no cues; a failed operation is ERROR with its message; only a running operation gives PROCESSING |
| JobStatus.Transcripts | src/main/java/com/example/stttest/service/GoogleSttService.java:216-223 | one transcript per file |
| JobStatus.CollectDoneIffAllStored | src/main/java/com/example/stttest/service/GoogleSttService.java:211-230 | the loop ends in DONE exactly when every file leads to a stored native result |
| JobStatus.CollectDoneContents | src/main/java/com/example/stttest/service/GoogleSttService.java:211-230 | when it does, the transcript is the buffer with the files' transcripts appended, trimmed, and the cues are all files' cues in file order |
| JobStatus.DoneJobCombinesFiles | src/main/java/com/example/stttest/service/GoogleSttService.java:195-230 | DONE exactly when the operation is done without error and every file is stored; the transcript is the files' transcripts joined by newlines and trimmed, and the cues are appended in file order |
| JobStatus.DoneCuesWellTimed | src/main/java/com/example/stttest/service/GoogleSttService.java:211-230 | every cue of a DONE job ends after it starts |
| CueStore.SaveChunkCues | src/main/java/com/example/stttest/service/SttService.java:354-385 | the chunk's cue rows are replaced by one row per cue in list order, with `cueIndex` 1..n, both bounds set, and a null text stored as `""` |
| CueStore.ReadChunkCues | src/main/java/com/example/stttest/service/SttService.java:387-413 | reading yields at most one cue per row, and nothing when no row has both bounds |
| CueStore.ReadSnoc | src/main/java/com/example/stttest/service/SttService.java:399-411 | a row is read after the rows before it, and is skipped when a bound is missing |
| CueStore.ReadAllComplete | src/main/java/com/example/stttest/service/SttService.java:399-411 | when every row has both bounds, each row is read back as one cue, in order |
| CueStore.SaveThenRead | src/main/java/com/example/stttest/service/SttService.java:354-413 | reading saved cues gives back every cue, in order, with a null text as `""` |
| ChunkPoll.LanguageOrDefault | src/main/java/com/example/stttest/service/SttService.java:184-186 | the stored language code when it is non-blank, else `"ko-KR"`; never blank |
| ChunkPoll.Completed | src/main/java/com/example/stttest/service/SttService.java:174-180 | a finished job makes the chunk DONE with its transcript and cues, and clears the error; nothing else changes |
| ChunkPoll.Resubmitted | src/main/java/com/example/stttest/service/SttService.java:193-195 | a failed job gives the chunk the new job id, the status PROCESSING and the error message; nothing else changes |
| ChunkPoll.Scan | src/main/java/com/example/stttest/service/SttService.java:165-206 | the scan keeps the chunk count |
| ChunkPoll.Poll | src/main/java/com/example/stttest/service/SttService.java:158-211 | a meeting with no chunks polls as WAIT and queries nothing; a poll keeps the chunk count |
| ChunkPoll.PendingFromShape | src/main/java/com/example/stttest/service/SttService.java:165-169 | the chunks to query are exactly the ones that are not DONE, in ascending order |
| ChunkPoll.ScanQueriesPending | src/main/java/com/example/stttest/service/SttService.java:165-206 | the scan queries a prefix of the chunks that are not DONE; it queries all of them unless it stops, and a stop follows a query |
| ChunkPoll.ScanQueriedInRange | src/main/java/com/example/stttest/service/SttService.java:165-206 | only chunks from the scan position on are queried |
| ChunkPoll.ScanUntouched | src/main/java/com/example/stttest/service/SttService.java:165-206 | chunks that are not queried are unchanged |
| ChunkPoll.ScanCompletes | src/main/java/com/example/stttest/service/SttService.java:174-181 | every queried chunk except one the scan stopped at had a finished job and is now DONE with its result |
| ChunkPoll.ScanStops | src/main/java/com/example/stttest/service/SttService.java:182-205 | a scan stops at its last query, whose job had not finished: a failed job is resubmitted exactly once for the same audio and language, a running one is left alone; a scan that does not stop submits nothing |
| ChunkPoll.ScanAllDone | src/main/java/com/example/stttest/service/SttService.java:165-169 | with only DONE chunks ahead, the scan changes and queries nothing and does not stop |
| ChunkPoll.PollTouchesOnlyPending | src/main/java/com/example/stttest/service/SttService.java:165-169 | a poll queries only chunks that are not DONE, in order, and never queries or changes a DONE chunk |
| ChunkPoll.PollStoresFinishedJobs | src/main/java/com/example/stttest/service/SttService.java:174-181 | each finished job's chunk becomes DONE with its transcript and its cue set replaced |
| ChunkPoll.PollStopsAtUnfinishedJob | src/main/java/com/example/stttest/service/SttService.java:182-205 | a WAIT on a non-empty meeting stops at the last queried chunk: ERROR resubmits once and records the message, PROCESSING changes nothing, and no later chunk is queried; an all-DONE poll submits nothing |
| ChunkPoll.PollDoneIffAllChunksDone | src/main/java/com/example/stttest/service/SttService.java:159-210 | a poll answers DONE exactly when the meeting has chunks and all of them are DONE afterwards |
| ChunkPoll.PollFinishedMeetingIsNoOp | src/main/java/com/example/stttest/service/SttService.java:165-210 | polling a meeting whose chunks are all DONE changes nothing, queries nothing and answers DONE |
| ChunkPoll.PollLeavesNoNewError | src/main/java/com/example/stttest/service/SttService.java:174-205 | a poll never puts a chunk into the ERROR status |
| Timeline.DoneCount | src/main/java/com/example/stttest/service/SttService.java:296-298 | the number of DONE chunks is at most the number of chunks |
| Timeline.DoneCountAll | src/main/java/com/example/stttest/service/SttService.java:327-329 | every chunk is DONE exactly when the DONE count is the chunk count |
| Timeline.MeetingTranscript | src/main/java/com/example/stttest/service/SttService.java:216-242 | an empty meeting has no transcript and zero counts; the total is the chunk count; a non-empty meeting has a transcript |
| Timeline.TranscriptFoldGathers | src/main/java/com/example/stttest/service/SttService.java:225-234 | the loop appends, in chunk order, the transcripts of chunks that are DONE with a transcript, and counts exactly those |
| Timeline.TranscriptFold | src/main/java/com/example/stttest/service/SttService.java:225-234 | the loop only appends to the buffer, counts at most one per chunk, and leaves the buffer as it was when it counts nothing |
| Timeline.MeetingTranscriptJoins | src/main/java/com/example/stttest/service/SttService.java:216-242 | the transcript is the contributing transcripts joined by newlines and trimmed, with no newline for leading empty ones, and the completed count is the number of contributing chunks |
| Timeline.ResolveDuration | src/main/java/com/example/stttest/service/SttService.java:415-424 | a chunk's duration resolves exactly when it is present and positive; otherwise the error names the chunk |
| Timeline.Shift | src/main/java/com/example/stttest/service/SttService.java:265-275 | every cue is moved by the offset and tagged with the chunk's sequence number, with its text and speaker kept |
| Timeline.MeetingSubtitles | src/main/java/com/example/stttest/service/SttService.java:247-282 | an empty meeting has no cues and zero counts; the total is the chunk count |
| Timeline.SubtitleFoldFrom | src/main/java/com/example/stttest/service/SttService.java:258-279 | continuing the loop after any prefix of the chunks reaches the global cue list and the DONE count |
| Timeline.SubtitleFoldNeedsDurations | src/main/java/com/example/stttest/service/SttService.java:258-279 | the loop succeeds exactly when every DONE chunk has a positive duration; otherwise it fails naming such a chunk |
| Timeline.SubtitleFold | src/main/java/com/example/stttest/service/SttService.java:258-279 | when the loop succeeds, the cues gathered so far stay a prefix of its cues and the DONE count grows by at most one per chunk |
| Timeline.SubtitlesArePrefixSumShifted | src/main/java/com/example/stttest/service/SttService.java:247-282 | the subtitles exist exactly when every DONE chunk has a positive duration; each DONE chunk's complete cue rows are shifted by the summed durations of the DONE chunks before it; other chunks add nothing and do not move the offset |
| Timeline.MeetingChunks | src/main/java/com/example/stttest/service/SttService.java:287-312 | an empty meeting lists nothing; the total is the chunk count |
| Timeline.RowsOf | src/main/java/com/example/stttest/service/SttService.java:303-308 | one row per chunk with its sequence number, status and transcript |
| Timeline.ChunkFoldFrom | src/main/java/com/example/stttest/service/SttService.java:296-309 | continuing the loop after any prefix reaches all rows and the DONE count |
| Timeline.ChunkFold | src/main/java/com/example/stttest/service/SttService.java:296-309 | the loop appends one row per chunk, in chunk order, after the rows so far, and counts at most one per chunk |
| Timeline.ChunkListRows | src/main/java/com/example/stttest/service/SttService.java:287-312 | the chunk list has one row per chunk in order, and the completed count is the number of DONE chunks |
| Timeline.SnapshotStatus | src/main/java/com/example/stttest/service/SttService.java:327-329 | without polling, the status is DONE exactly when the meeting has chunks and every one is DONE |
| Timeline.ViewOf | src/main/java/com/example/stttest/service/SttService.java:332-344 | the snapshot exists exactly when its subtitles can be built |
| Timeline.MeetingSnapshot | src/main/java/com/example/stttest/service/SttService.java:319-345 | without polling, a snapshot exists exactly when every DONE chunk has a positive duration |
| Timeline.PolledStatusMatchesStored | src/main/java/com/example/stttest/service/SttService.java:319-345 | a polled snapshot's status agrees with the stored chunks it shows |
| Timeline.PollingFinishedMeetingChangesNothing | src/main/java/com/example/stttest/service/SttService.java:319-345 | for a meeting whose chunks are all DONE, polling gives the same snapshot as not polling |
| ChunkUpload.MaxSeq | src/main/java/com/example/stttest/service/SttService.java:84 | the largest sequence number bounds every chunk and belongs to one |
| ChunkUpload.NextChunkSeq | src/main/java/com/example/stttest/service/SttService.java:84-86 | a new meeting starts at 1; otherwise the next number follows the last, so it is larger than every stored number |
| ChunkUpload.UploadChunk | src/main/java/com/example/stttest/service/SttService.java:79-150 | an upload succeeds exactly when its file was stored and its job started; it appends one PROCESSING chunk with the next number, the probed duration and the language, and answers with that number |
| ChunkUpload.NextFollowsLast | src/main/java/com/example/stttest/service/SttService.java:84-86 | with ascending numbers, the next number is the last plus one |
| ChunkUpload.UploadKeepsAscending | src/main/java/com/example/stttest/service/SttService.java:84-86 | an upload keeps the sequence numbers ascending |
| ChunkUpload.NextAfterUpload | src/main/java/com/example/stttest/service/SttService.java:84-86 | after an upload the next number is one larger |
| ChunkUpload.BatchNumbersConsecutively | src/main/java/com/example/stttest/service/SttService.java:97-106 | a batch numbers its files consecutively from the next number, in input order, appending one chunk and one answer per file |
| ChunkUpload.BatchKeepsAscending | src/main/java/com/example/stttest/service/SttService.java:97-106 | a batch keeps the sequence numbers ascending |
| ChunkUpload.UploadBatch | src/main/java/com/example/stttest/service/SttService.java:97-106 | a batch succeeds exactly when every file stages; it then keeps the old chunks unchanged in front, adds one chunk per file and answers once per file |
| AudioMerge.EscapeQuotes | src/main/java/com/example/stttest/service/MeetingAudioMergeService.java:120 | each `'` becomes `'\''`, so the length grows by three per quote |
| AudioMerge.ConcatLine | src/main/java/com/example/stttest/service/MeetingAudioMergeService.java:119-121 | a path's list line grows by three characters per quote beyond the path and its fixed frame, and reads back as exactly that one path |
| AudioMerge.ConcatList | src/main/java/com/example/stttest/service/MeetingAudioMergeService.java:117-122 | the list is empty exactly when there are no inputs; otherwise it starts with `file '` and ends with a line end |
| AudioMerge.ReadEscaped | src/main/java/com/example/stttest/service/MeetingAudioMergeService.java:120 | an escaped path followed by its closing quote reads back as exactly the path, with the rest left over |
| AudioMerge.ConcatListReadsBack | src/main/java/com/example/stttest/service/MeetingAudioMergeService.java:117-122 | the list file reads back as exactly its input paths, in order, whatever quotes they hold |
| AudioMerge.ConcatListLines | src/main/java/com/example/stttest/service/MeetingAudioMergeService.java:117-122 | the list has exactly one line per input |
| AudioMerge.CountEscapeKeeps | src/main/java/com/example/stttest/service/MeetingAudioMergeService.java:120 | escaping leaves every character other than the quote and the backslash as often as it was |
| AudioMerge.Sources | src/main/java/com/example/stttest/service/MeetingAudioMergeService.java:79-89 | each chunk's reference parses to a valid path that formats back to it and names an existing object, one per chunk in order; otherwise the merge fails with that condition |
| AudioMerge.SourcesOkIffAllAvailable | src/main/java/com/example/stttest/service/MeetingAudioMergeService.java:79-89 | the sources resolve exactly when every chunk's reference parses and names an existing object |
| AudioMerge.PlanMerge | src/main/java/com/example/stttest/service/MeetingAudioMergeService.java:44-94 | a meeting with no chunks fails, and only then with that error; one chunk is served as the object its reference names; several are concatenated, one source per chunk |
| AudioMerge.LocalFiles | src/main/java/com/example/stttest/service/MeetingAudioMergeService.java:87-88 | one local copy per chunk, in chunk order |
| AudioMerge.MergeSucceedsIffAllAvailable | src/main/java/com/example/stttest/service/MeetingAudioMergeService.java:59-89 | a non-empty meeting merges exactly when every chunk is available |
| AudioMerge.MergeListsChunksInOrder | src/main/java/com/example/stttest/service/MeetingAudioMergeService.java:79-122 | a multi-chunk merge lists each chunk's local copy once, in chunk order, and reads each chunk's audio from the object its reference names |
| Text.TrimStart | src/main/java/com/example/stttest/service/GoogleSttService.java:274 | the leading characters up to U+0020 are dropped |
| Text.TrimEnd | src/main/java/com/example/stttest/service/GoogleSttService.java:343 | the trailing characters up to U+0020 are dropped |
| Text.Trim | src/main/java/com/example/stttest/service/GoogleSttService.java:343 | `trim` neither starts nor ends with a character up to U+0020, is no longer than its input, and leaves a string that already meets that unchanged |
| Text.DropLeadingEmpty | src/main/java/com/example/stttest/service/GoogleSttService.java:402-405 | only empty pieces before the first non-empty one are dropped |
| Text.GatherOntoNonEmpty | src/main/java/com/example/stttest/service/GoogleSttService.java:402-405 | appending to a non-empty buffer puts exactly one separator before each piece |
| Text.GatherFromEmpty | src/main/java/com/example/stttest/service/GoogleSttService.java:402-405 | appending from an empty buffer joins the pieces, with no separator for leading empty pieces |
| Text.GatherConcat | src/main/java/com/example/stttest/service/GoogleSttService.java:257-339 | appending two lists of pieces is appending their concatenation |
| Text.GatherNonEmptyPieces | src/main/java/com/example/stttest/service/GoogleSttService.java:380-383 | with no empty piece, appending from an empty buffer is a plain join |

## Left out

- JSON decoding of the native result, including the fail-fast on a missing `alternatives[0]`. The input is the decoded list of results, and each result is a list of raw words.
- `parseDurationToMsOrNull`: it uses floating point (`Double.parseDouble`, `Math.round`). Offsets are given as optional whole milliseconds.
- The ffprobe duration probe, and the GCS upload and job start of an upload. Their combined outcome is the `Result<Staged>` parameter of `ChunkUpload.UploadChunk`.
- Calls to the Google Speech and Storage clients: loading credentials, creating clients, unpacking the response, downloading blobs, and writing or reading temporary files. They become the parameters named above.
- Running ffmpeg, the merged file's name and bytes, the content type, and deleting the temporary directory. `AudioMerge.PlanMerge` stops at the plan: the sources and the concat list text.
- Object names and output URIs built from the current date, `generateMeetingId` (clock and randomness), and the `…NewMeeting` upload variants. A new meeting is modelled as an empty chunk list, whose next sequence number is 1.
- `id == null` guards and the entity timestamp hooks, since entities are assumed persisted.
- The audio URL shown in the chunk list, which is derived from the meeting id and sequence number.
- Logging, the REST controller and the DTO classes. The DTO fields appear in the datatypes of `Domain`.
- External failures from checked exceptions (`External` in the model): I/O errors reading credentials or storage, a JSON read error, a response that does not unpack, or a failed upload. Spring's `@Transactional` rolls back only on unchecked exceptions. So in the service, the steps before such a failure are committed: the chunks a poll already completed, and the chunks a batch already uploaded. The model returns `Err` and no updated list instead.
- Jobs submitted to the recognition provider are not undone by any rollback. A resubmission made while polling stays submitted even when the snapshot then fails for a missing duration. The model keeps the submission in the poll's outcome but returns only `Err` from `Timeline.MeetingSnapshot`.
- Concurrent polls. Serialising them is left to the database transaction.
- Java `long` overflow. Milliseconds and offsets are unbounded integers.
- The job's per-file results come from a map whose iteration order the service does not fix. The model takes them as a sequence in the order they are visited.
- ChunkPoll.Scan: its own contract states only that the chunk count is kept. What it queries, changes and submits is stated by the Scan and Poll lemmas above.
- CueStore.ReadChunkCues: its own contract bounds the cue count. Which rows become cues, and in which order, is stated by `CueStore.ReadSnoc` and `CueStore.ReadAllComplete`.
