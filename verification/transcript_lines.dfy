/** The transcript builder of the native-result parser. Within one
    recognition result, each maximal run of words by the same speaker becomes
    one line "SPEAKER_<id>: <words joined by single spaces>"; lines are trimmed
    and separated by single newlines in a buffer shared by all results. */
module TranscriptLines {
  import opened Wrappers
  import opened Text
  import opened Domain

  /** A run of consecutive words by one speaker. */
  datatype Run = Run(speaker: string, words: seq<string>)

  function LinePrefix(speaker: string): string {
    "SPEAKER_" + speaker + ": "
  }

  /** The transcript line of a run. */
  function LineOf(run: Run): string {
    LinePrefix(run.speaker) + Join(run.words, ' ')
  }

  /** Closes a line: a newline first unless the buffer is empty, then the
      trimmed line. */
  function AppendTranscriptLine(sb: string, line: string): (r: string)
    ensures StartsWith(r, sb) && EndsWith(r, Trim(line))
    ensures sb == [] ==> r == Trim(line)
    ensures sb != [] ==> |r| == |sb| + 1 + |Trim(line)| && r[|sb|] == '\n'
  {
    AppendSepExtends(sb, '\n', Trim(line));
    AppendSep(sb, '\n', Trim(line))
  }

  /** The word loop over one result, as it builds lines: the current speaker,
      the open line and the transcript buffer. The open line is closed on a
      speaker change and when the result ends (also when it had no word). */
  function BuildLines(ws: seq<SpokenWord>, current: Option<string>, line: string, sb: string): (r: string)
    ensures StartsWith(r, sb)
    decreases |ws|
  {
    if ws == [] then AppendTranscriptLine(sb, line)
    else
      var w := ws[0];
      if current.None? then
        BuildLines(ws[1..], Some(w.speaker), LinePrefix(w.speaker) + w.word, sb)
      else if w.speaker != current.value then
        BuildLines(ws[1..], Some(w.speaker), LinePrefix(w.speaker) + w.word, AppendTranscriptLine(sb, line))
      else
        BuildLines(ws[1..], current, line + " " + w.word, sb)
  }

  /** The runs that follow an open run, the open run included. */
  function Group(ws: seq<SpokenWord>, open: Run): seq<Run>
    decreases |ws|
  {
    if ws == [] then [open]
    else if ws[0].speaker == open.speaker then Group(ws[1..], Run(open.speaker, open.words + [ws[0].word]))
    else [open] + Group(ws[1..], Run(ws[0].speaker, [ws[0].word]))
  }

  /** The maximal same-speaker runs of a word sequence. */
  function Runs(ws: seq<SpokenWord>): seq<Run> {
    if ws == [] then [] else Group(ws[1..], Run(ws[0].speaker, [ws[0].word]))
  }

  /** Who says what in a run, word by word. */
  function Pairs(run: Run): (r: seq<(string, string)>)
    ensures |r| == |run.words|
    ensures forall i :: 0 <= i < |r| ==> r[i] == (run.speaker, run.words[i])
  {
    seq(|run.words|, i requires 0 <= i < |run.words| => (run.speaker, run.words[i]))
  }

  /** Who says what in a list of runs, run after run. */
  function Expand(runs: seq<Run>): seq<(string, string)>
    decreases |runs|
  {
    if runs == [] then [] else Pairs(runs[0]) + Expand(runs[1..])
  }

  /** Runs that cover a word sequence: read in order they say exactly its
      words with their speakers, none is empty, and neighbours have different
      speakers, so every run is maximal. */
  predicate MaximalRuns(runs: seq<Run>, said: seq<(string, string)>) {
    && Expand(runs) == said
    && (forall i :: 0 <= i < |runs| ==> runs[i].words != [])
    && (forall i :: 0 < i < |runs| ==> runs[i - 1].speaker != runs[i].speaker)
  }

  lemma {:induction false} GroupIsMaximal(ws: seq<SpokenWord>, open: Run)
    requires open.words != []
    ensures var g := Group(ws, open);
            && g != [] && g[0].speaker == open.speaker
            && MaximalRuns(g, Pairs(open) + Spoken(ws))
    decreases |ws|, 1
  {
    if ws == [] {
      var g := Group(ws, open);
      assert Expand(g) == Pairs(open) + Expand([]);
      assert Pairs(open) + Spoken(ws) == Pairs(open);
    } else if ws[0].speaker == open.speaker {
      GroupExtends(ws, open);
    } else {
      GroupCuts(ws, open);
    }
  }

  /** A word by the open run's speaker extends the open run. */
  lemma {:induction false} GroupExtends(ws: seq<SpokenWord>, open: Run)
    requires open.words != [] && ws != [] && ws[0].speaker == open.speaker
    ensures var g := Group(ws, open);
            && g != [] && g[0].speaker == open.speaker
            && MaximalRuns(g, Pairs(open) + Spoken(ws))
    decreases |ws|, 0
  {
    var ext := Run(open.speaker, open.words + [ws[0].word]);
    var said := Pairs(ext) + Spoken(ws[1..]);
    GroupIsMaximal(ws[1..], ext);
    assert Group(ws, open) == Group(ws[1..], ext);
    assert said == Pairs(open) + Spoken(ws) by {
      SpokenCons(ws);
      PairsSnoc(open, ws[0].word);
    }
  }

  /** A word by another speaker closes the open run and opens the next. */
  lemma {:induction false} GroupCuts(ws: seq<SpokenWord>, open: Run)
    requires open.words != [] && ws != [] && ws[0].speaker != open.speaker
    ensures var g := Group(ws, open);
            && g != [] && g[0].speaker == open.speaker
            && MaximalRuns(g, Pairs(open) + Spoken(ws))
    decreases |ws|, 0
  {
    var next := Run(ws[0].speaker, [ws[0].word]);
    var rest := Group(ws[1..], next);
    GroupIsMaximal(ws[1..], next);
    assert Group(ws, open) == [open] + rest;
    SpokenCons(ws);
    assert Pairs(next) == [(ws[0].speaker, ws[0].word)];
    ConsMaximal(open, rest, Pairs(next) + Spoken(ws[1..]));
  }

  lemma {:induction false} SpokenCons(ws: seq<SpokenWord>)
    requires ws != []
    ensures Spoken(ws) == [(ws[0].speaker, ws[0].word)] + Spoken(ws[1..])
  {
    assert forall i :: 0 < i < |ws| ==> ws[i] == ws[1..][i - 1];
  }

  lemma {:induction false} PairsSnoc(run: Run, word: string)
    ensures Pairs(Run(run.speaker, run.words + [word])) == Pairs(run) + [(run.speaker, word)]
  {
  }

  /** A non-empty run put in front of maximal runs that start with another
      speaker keeps them maximal. */
  lemma {:induction false} ConsMaximal(open: Run, rest: seq<Run>, said: seq<(string, string)>)
    requires open.words != [] && rest != [] && rest[0].speaker != open.speaker
    requires MaximalRuns(rest, said)
    ensures MaximalRuns([open] + rest, Pairs(open) + said)
  {
    var g := [open] + rest;
    assert g[1..] == rest;
    assert Expand(g) == Pairs(open) + Expand(rest);
    assert forall i :: 0 < i < |g| ==> g[i] == rest[i - 1];
  }

  /** The runs of a word sequence are its maximal same-speaker runs. */
  lemma {:induction false} RunsAreMaximal(ws: seq<SpokenWord>)
    ensures MaximalRuns(Runs(ws), Spoken(ws))
  {
    if ws != [] {
      var open := Run(ws[0].speaker, [ws[0].word]);
      GroupIsMaximal(ws[1..], open);
      assert Spoken(ws) == Pairs(open) + Spoken(ws[1..]);
    }
  }

  /** Each run's trimmed line, in order. */
  function TrimmedLines(runs: seq<Run>): (r: seq<string>)
    ensures |r| == |runs|
    decreases |runs|
  {
    if runs == [] then [] else [Trim(LineOf(runs[0]))] + TrimmedLines(runs[1..])
  }

  /** The lines one result adds to the transcript buffer: one per maximal
      run, or a single empty line for a result without words. */
  function ResultLines(ws: seq<SpokenWord>): seq<string> {
    if ws == [] then [""] else TrimmedLines(Runs(ws))
  }

  lemma {:induction false} BuildLinesGroups(ws: seq<SpokenWord>, open: Run, sb: string)
    requires open.words != []
    ensures BuildLines(ws, Some(open.speaker), LineOf(open), sb) == Gather(sb, '\n', TrimmedLines(Group(ws, open)))
    decreases |ws|
  {
    if ws == [] {
    } else if ws[0].speaker == open.speaker {
      var ext := Run(open.speaker, open.words + [ws[0].word]);
      JoinSnoc(open.words, ' ', ws[0].word);
      assert LineOf(open) + " " + ws[0].word == LineOf(ext);
      BuildLinesGroups(ws[1..], ext, sb);
    } else {
      var next := Run(ws[0].speaker, [ws[0].word]);
      assert LineOf(next) == LinePrefix(ws[0].speaker) + ws[0].word;
      var sb' := AppendTranscriptLine(sb, LineOf(open));
      BuildLinesGroups(ws[1..], next, sb');
      var rest := Group(ws[1..], next);
      assert ([open] + rest)[1..] == rest;
      assert TrimmedLines([open] + rest) == [Trim(LineOf(open))] + TrimmedLines(rest);
    }
  }

  /** The word loop of one result adds exactly the result's lines. */
  lemma {:induction false} ResultTranscript(ws: seq<SpokenWord>, sb: string)
    ensures BuildLines(ws, None, "", sb) == Gather(sb, '\n', ResultLines(ws))
  {
    if ws != [] {
      var open := Run(ws[0].speaker, [ws[0].word]);
      assert LineOf(open) == LinePrefix(ws[0].speaker) + ws[0].word;
      BuildLinesGroups(ws[1..], open, sb);
    }
  }
}
