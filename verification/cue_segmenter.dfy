/** The subtitle cue builder of the recognition side. The word segments are
    sorted stably by (start, end) and cut into cues: a cue closes when the
    speaker changes, and right after a word that ends with a period. */
module CueSegmenter {
  import opened Wrappers
  import opened Text
  import opened Domain
  import WordTiming

  /** The sort key of a segment, compared lexicographically. */
  function Key(seg: WordSegment): (int, int) {
    (seg.startMs, seg.endMs)
  }

  predicate KeyLe(a: WordSegment, b: WordSegment) {
    a.startMs < b.startMs || (a.startMs == b.startMs && a.endMs <= b.endMs)
  }

  predicate SortedByTime(s: seq<WordSegment>) {
    forall i, j :: 0 <= i < j < |s| ==> KeyLe(s[i], s[j])
  }

  /** The segments with a given key, in their order. */
  function WithKey(s: seq<WordSegment>, k: (int, int)): seq<WordSegment>
    decreases |s|
  {
    if s == [] then []
    else if Key(s[0]) == k then [s[0]] + WithKey(s[1..], k)
    else WithKey(s[1..], k)
  }

  /** Inserts a segment before the first one whose key is not smaller. */
  function Insert(x: WordSegment, s: seq<WordSegment>): (r: seq<WordSegment>)
    ensures multiset(r) == multiset(s) + multiset{x}
    decreases |s|
  {
    if s == [] || KeyLe(x, s[0]) then [x] + s
    else
      assert s == [s[0]] + s[1..];
      [s[0]] + Insert(x, s[1..])
  }

  /** Stable sort by (start, end): `List.sort` with a comparing chain. */
  function SortByTime(s: seq<WordSegment>): (r: seq<WordSegment>)
    ensures multiset(r) == multiset(s)
    decreases |s|
  {
    if s == [] then []
    else
      assert s == [s[0]] + s[1..];
      Insert(s[0], SortByTime(s[1..]))
  }

  lemma {:induction false} InsertKeepsSorted(x: WordSegment, s: seq<WordSegment>)
    requires SortedByTime(s)
    ensures SortedByTime(Insert(x, s))
    decreases |s|
  {
    if s != [] && !KeyLe(x, s[0]) {
      var t := Insert(x, s[1..]);
      assert SortedByTime(s[1..]) by {
        forall i, j | 0 <= i < j < |s[1..]| ensures KeyLe(s[1..][i], s[1..][j]) {
          assert s[1..][i] == s[i + 1] && s[1..][j] == s[j + 1];
        }
      }
      InsertKeepsSorted(x, s[1..]);
      forall j | 0 <= j < |t| ensures KeyLe(s[0], t[j]) {
        assert t[j] in multiset(t);
        if t[j] != x {
          assert t[j] in multiset(s[1..]);
          var k :| 0 <= k < |s[1..]| && s[1..][k] == t[j];
          assert s[1..][k] == s[k + 1];
        }
      }
    } else if s != [] {
      forall j | 0 <= j < |s| ensures KeyLe(x, s[j]) {
        if j > 0 {
          assert KeyLe(s[0], s[j]);
        }
      }
    }
  }

  /** The sorted segments are in (start, end) order. */
  lemma {:induction false} SortIsSorted(s: seq<WordSegment>)
    ensures SortedByTime(SortByTime(s))
    decreases |s|
  {
    if s != [] {
      SortIsSorted(s[1..]);
      InsertKeepsSorted(s[0], SortByTime(s[1..]));
    }
  }

  lemma {:induction false} InsertKeepsOrderOfEqualKeys(x: WordSegment, s: seq<WordSegment>, k: (int, int))
    ensures WithKey(Insert(x, s), k) == if Key(x) == k then [x] + WithKey(s, k) else WithKey(s, k)
    decreases |s|
  {
    if s == [] || KeyLe(x, s[0]) {
      assert ([x] + s)[1..] == s;
    } else {
      InsertKeepsOrderOfEqualKeys(x, s[1..], k);
      var t := Insert(x, s[1..]);
      assert ([s[0]] + t)[1..] == t;
    }
  }

  /** The sort is stable: segments with equal keys keep their relative order. */
  lemma {:induction false} SortIsStable(s: seq<WordSegment>, k: (int, int))
    ensures WithKey(SortByTime(s), k) == WithKey(s, k)
    decreases |s|
  {
    if s != [] {
      SortIsStable(s[1..], k);
      InsertKeepsOrderOfEqualKeys(s[0], SortByTime(s[1..]), k);
    }
  }

  /** A word that ends a sentence closes its cue. */
  predicate ClosesCue(seg: WordSegment) {
    EndsWith(seg.word, ".")
  }

  /** The words of the segments, in order. */
  function Words(g: seq<WordSegment>): (r: seq<string>)
    ensures |r| == |g|
    ensures forall i :: 0 <= i < |g| ==> r[i] == g[i].word
  {
    seq(|g|, i requires 0 <= i < |g| => g[i].word)
  }

  /** The cut into cues, as the word loop makes it. `open` holds the words of
      the open cue; empty means no cue is open. Each word first closes an open
      cue of another speaker, joins or opens the current cue, and then closes
      it when the word ends with a period. An open cue is flushed at the end. */
  function Segment(segs: seq<WordSegment>, open: seq<WordSegment>): (r: seq<seq<WordSegment>>)
    ensures forall i :: 0 <= i < |r| ==> r[i] != []
    ensures open != [] ==> r != [] && r[0] != [] && r[0][0] == open[0]
    decreases |segs|
  {
    if segs == [] then (if open == [] then [] else [open])
    else
      var s := segs[0];
      var closed := if open != [] && open[0].speaker != s.speaker then [open] else [];
      var cur := if open != [] && open[0].speaker == s.speaker then open + [s] else [s];
      if ClosesCue(s) then closed + [cur] + Segment(segs[1..], [])
      else closed + Segment(segs[1..], cur)
  }

  function Flatten(gs: seq<seq<WordSegment>>): seq<WordSegment>
    decreases |gs|
  {
    if gs == [] then [] else gs[0] + Flatten(gs[1..])
  }

  /** All words of a cue have the speaker of its first word. */
  predicate OneSpeaker(g: seq<WordSegment>) {
    forall j :: 0 <= j < |g| ==> g[j].speaker == g[0].speaker
  }

  /** Only the last word of a cue may end a sentence. */
  predicate NoSentenceEndInside(g: seq<WordSegment>) {
    forall j :: 0 <= j < |g| - 1 ==> !ClosesCue(g[j])
  }

  /** A cut of a word sequence into cues: in order the cues hold exactly the
      words, every cue is one speaker's, only its last word may end a
      sentence, and a cue ends before the next one only because its last word
      ends a sentence or the speaker changes. */
  predicate IsCueCut(gs: seq<seq<WordSegment>>, words: seq<WordSegment>) {
    && Flatten(gs) == words
    && (forall i :: 0 <= i < |gs| ==> GoodCue(gs[i]))
    && (forall i :: 0 < i < |gs| ==> CueBreak(gs[i - 1], gs[i]))
  }

  lemma {:induction false} FlattenConcat(a: seq<seq<WordSegment>>, b: seq<seq<WordSegment>>)
    ensures Flatten(a + b) == Flatten(a) + Flatten(b)
    decreases |a|
  {
    if a != [] {
      assert (a + b)[1..] == a[1..] + b;
      FlattenConcat(a[1..], b);
    } else {
      assert a + b == b;
    }
  }

  predicate GoodCue(g: seq<WordSegment>) {
    g != [] && OneSpeaker(g) && NoSentenceEndInside(g)
  }

  /** Two neighbouring cues are apart because the first ends a sentence or
      the speaker changes. */
  predicate CueBreak(g: seq<WordSegment>, h: seq<WordSegment>) {
    g != [] && h != [] && (ClosesCue(g[|g| - 1]) || g[0].speaker != h[0].speaker)
  }

  lemma {:induction false} FlattenOne(g: seq<WordSegment>)
    ensures Flatten([g]) == g
  {
    assert Flatten([g]) == g + Flatten([]);
  }

  lemma {:induction false} SegmentFlattens(segs: seq<WordSegment>, open: seq<WordSegment>)
    ensures Flatten(Segment(segs, open)) == open + segs
    decreases |segs|
  {
    if segs == [] {
      assert open + segs == open;
      FlattenOne(open);
    } else {
      var s := segs[0];
      var closed := if open != [] && open[0].speaker != s.speaker then [open] else [];
      var cur := if open != [] && open[0].speaker == s.speaker then open + [s] else [s];
      assert Flatten(closed) + cur == open + [s] by {
        if closed != [] {
          FlattenOne(open);
        }
      }
      assert open + segs == Flatten(closed) + cur + segs[1..];
      if ClosesCue(s) {
        var rest := Segment(segs[1..], []);
        assert Segment(segs, open) == closed + [cur] + rest;
        SegmentFlattens(segs[1..], []);
        assert [] + segs[1..] == segs[1..];
        FlattenConcat(closed + [cur], rest);
        FlattenConcat(closed, [cur]);
        FlattenOne(cur);
      } else {
        var rest := Segment(segs[1..], cur);
        assert Segment(segs, open) == closed + rest;
        SegmentFlattens(segs[1..], cur);
        FlattenConcat(closed, rest);
      }
    }
  }

  lemma {:induction false} SegmentGoodCues(segs: seq<WordSegment>, open: seq<WordSegment>)
    requires OneSpeaker(open)
    requires forall j :: 0 <= j < |open| ==> !ClosesCue(open[j])
    ensures forall i :: 0 <= i < |Segment(segs, open)| ==> GoodCue(Segment(segs, open)[i])
    decreases |segs|
  {
    var r := Segment(segs, open);
    if segs != [] {
      var s := segs[0];
      var closed := if open != [] && open[0].speaker != s.speaker then [open] else [];
      var cur := if open != [] && open[0].speaker == s.speaker then open + [s] else [s];
      assert OneSpeaker(cur);
      assert forall g :: g in closed ==> GoodCue(g);
      if ClosesCue(s) {
        SegmentGoodCues(segs[1..], []);
        assert GoodCue(cur);
        assert r == closed + [cur] + Segment(segs[1..], []);
      } else {
        SegmentGoodCues(segs[1..], cur);
        assert r == closed + Segment(segs[1..], cur);
      }
    }
  }

  lemma {:induction false} SegmentBreaks(segs: seq<WordSegment>, open: seq<WordSegment>)
    ensures forall i :: 0 < i < |Segment(segs, open)| ==>
              CueBreak(Segment(segs, open)[i - 1], Segment(segs, open)[i])
    decreases |segs|
  {
    var r := Segment(segs, open);
    if segs != [] {
      var s := segs[0];
      var closed := if open != [] && open[0].speaker != s.speaker then [open] else [];
      var cur := if open != [] && open[0].speaker == s.speaker then open + [s] else [s];
      assert cur != [] && cur[0].speaker == s.speaker && cur[|cur| - 1] == s;
      assert closed != [] ==> CueBreak(open, cur);
      if ClosesCue(s) {
        var rest := Segment(segs[1..], []);
        SegmentBreaks(segs[1..], []);
        assert r == closed + [cur] + rest;
        forall i | 0 < i < |r| ensures CueBreak(r[i - 1], r[i]) {
          if i > |closed| + 1 {
            var k := i - |closed| - 1;
            assert 0 < k < |rest|;
            assert CueBreak(rest[k - 1], rest[k]);
            assert r[i - 1] == rest[k - 1] && r[i] == rest[k];
          } else if i == |closed| + 1 {
            assert r[i - 1] == cur;
            assert ClosesCue(cur[|cur| - 1]);
          } else {
            assert r[0] == open && r[1] == cur;
          }
        }
      } else {
        var rest := Segment(segs[1..], cur);
        SegmentBreaks(segs[1..], cur);
        assert r == closed + rest;
        assert closed != [] ==> cur == [s] && rest[0][0] == s;
        forall i | 0 < i < |r| ensures CueBreak(r[i - 1], r[i]) {
          if i > |closed| {
            var k := i - |closed|;
            assert 0 < k < |rest|;
            assert CueBreak(rest[k - 1], rest[k]);
            assert r[i - 1] == rest[k - 1] && r[i] == rest[k];
          } else {
            assert r[0] == open && r[1] == rest[0];
          }
        }
      }
    }
  }

  /** The cut is a cue cut of the open words followed by the incoming ones. */
  lemma {:induction false} SegmentIsCueCut(segs: seq<WordSegment>, open: seq<WordSegment>)
    requires OneSpeaker(open)
    requires forall j :: 0 <= j < |open| ==> !ClosesCue(open[j])
    ensures IsCueCut(Segment(segs, open), open + segs)
  {
    SegmentFlattens(segs, open);
    SegmentGoodCues(segs, open);
    SegmentBreaks(segs, open);
  }

  /** `currentEndMs`: the first word's end, raised to every later word's end. */
  function MaxEnd(g: seq<WordSegment>): (m: int)
    requires g != []
    ensures forall j :: 0 <= j < |g| ==> g[j].endMs <= m
    ensures exists j :: 0 <= j < |g| && g[j].endMs == m
    decreases |g|
  {
    if |g| == 1 then g[0].endMs
    else
      var m := MaxEnd(g[..|g| - 1]);
      assert forall j :: 0 <= j < |g| - 1 ==> g[..|g| - 1][j] == g[j];
      WordTiming.Max(m, g[|g| - 1].endMs)
  }

  /** The cue a group of words becomes: it starts with its first word, ends
      with its latest-ending word, belongs to its first word's speaker, and its
      text is the words appended with single spaces, then trimmed. */
  function CueOf(g: seq<WordSegment>): (c: SttCue)
    requires g != []
    ensures c.startMs == g[0].startMs && c.speaker == g[0].speaker
    ensures forall j :: 0 <= j < |g| ==> g[j].endMs <= c.endMs
    ensures exists j :: 0 <= j < |g| && g[j].endMs == c.endMs
  {
    SttCue(g[0].startMs, MaxEnd(g), Some(Trim(Gather("", ' ', Words(g)))), g[0].speaker)
  }

  /** The words of each cue, in cue order. */
  function CueGroups(segs: seq<WordSegment>): (gs: seq<seq<WordSegment>>)
    ensures forall i :: 0 <= i < |gs| ==> gs[i] != []
  {
    Segment(SortByTime(segs), [])
  }

  /** The cues of a list of word segments: one per group of the cut, so never
      more cues than words, and some cue as soon as there is a word. */
  function BuildCues(segs: seq<WordSegment>): (cues: seq<SttCue>)
    ensures |cues| <= |segs|
    ensures segs == [] <==> cues == []
  {
    var groups := CueGroups(segs);
    CueGroupCount(segs);
    seq(|groups|, i requires 0 <= i < |groups| => CueOf(groups[i]))
  }

  /** Cutting non-empty groups out of a list never gives more groups than
      elements, and gives none only for the empty list. */
  lemma {:induction false} FlattenLength(gs: seq<seq<WordSegment>>)
    requires forall i :: 0 <= i < |gs| ==> gs[i] != []
    ensures |gs| <= |Flatten(gs)|
    ensures gs == [] <==> Flatten(gs) == []
    decreases |gs|
  {
    if gs != [] {
      assert Flatten(gs) == gs[0] + Flatten(gs[1..]);
      FlattenLength(gs[1..]);
    }
  }

  lemma {:induction false} CueGroupCount(segs: seq<WordSegment>)
    ensures |CueGroups(segs)| <= |segs|
    ensures segs == [] <==> CueGroups(segs) == []
  {
    CueGroupsCutSortedWords(segs);
    FlattenLength(CueGroups(segs));
    assert |multiset(SortByTime(segs))| == |multiset(segs)|;
  }

  predicate WellTimed(segs: seq<WordSegment>) {
    forall i :: 0 <= i < |segs| ==> segs[i].endMs > segs[i].startMs
  }

  predicate CuesWellTimed(cues: seq<SttCue>) {
    forall i :: 0 <= i < |cues| ==> cues[i].endMs > cues[i].startMs
  }

  lemma {:induction false} FirstsOfSortedCut(gs: seq<seq<WordSegment>>)
    requires forall i :: 0 <= i < |gs| ==> gs[i] != []
    requires SortedByTime(Flatten(gs))
    ensures forall i :: 0 < i < |gs| ==> gs[i - 1][0].startMs <= gs[i][0].startMs
    decreases |gs|
  {
    if |gs| > 1 {
      var f := Flatten(gs);
      assert f == gs[0] + Flatten(gs[1..]);
      assert Flatten(gs[1..]) == gs[1] + Flatten(gs[2..]);
      assert f[0] == gs[0][0];
      assert f[|gs[0]|] == gs[1][0];
      assert SortedByTime(Flatten(gs[1..])) by {
        forall i, j | 0 <= i < j < |Flatten(gs[1..])|
          ensures KeyLe(Flatten(gs[1..])[i], Flatten(gs[1..])[j])
        {
          assert Flatten(gs[1..])[i] == f[|gs[0]| + i];
          assert Flatten(gs[1..])[j] == f[|gs[0]| + j];
        }
      }
      FirstsOfSortedCut(gs[1..]);
    }
  }

  /** The cues hold the words sorted by time, cut exactly at sentence ends and
      speaker changes. */
  lemma {:induction false} CueGroupsCutSortedWords(segs: seq<WordSegment>)
    ensures IsCueCut(CueGroups(segs), SortByTime(segs))
  {
    SegmentIsCueCut(SortByTime(segs), []);
    assert [] + SortByTime(segs) == SortByTime(segs);
  }

  /** Cue starts never decrease. */
  lemma {:induction false} CueStartsAscend(segs: seq<WordSegment>)
    ensures forall i :: 0 < i < |BuildCues(segs)| ==> BuildCues(segs)[i - 1].startMs <= BuildCues(segs)[i].startMs
  {
    CueGroupsCutSortedWords(segs);
    SortIsSorted(segs);
    FirstsOfSortedCut(CueGroups(segs));
  }

  /** When every word ends after it starts, so does every cue. */
  lemma {:induction false} CuesEndAfterStart(segs: seq<WordSegment>)
    requires WellTimed(segs)
    ensures CuesWellTimed(BuildCues(segs))
  {
    var groups := CueGroups(segs);
    CueGroupsCutSortedWords(segs);
    forall i | 0 <= i < |groups| ensures CueOf(groups[i]).endMs > CueOf(groups[i]).startMs {
      var g := groups[i];
      InFlatten(groups, i, 0);
      assert g[0] in multiset(SortByTime(segs));
      assert g[0] in segs;
    }
  }

  /** Every cue starts at the start of one of the input words, belongs to that
      word's speaker, and ends at the end of one of the input words. */
  lemma {:induction false} CuesComeFromWords(segs: seq<WordSegment>)
    ensures forall i :: 0 <= i < |BuildCues(segs)| ==>
              && (exists j :: 0 <= j < |segs| && BuildCues(segs)[i].startMs == segs[j].startMs
                                              && BuildCues(segs)[i].speaker == segs[j].speaker)
              && (exists j :: 0 <= j < |segs| && BuildCues(segs)[i].endMs == segs[j].endMs)
  {
    var groups := CueGroups(segs);
    var cues := BuildCues(segs);
    CueGroupsCutSortedWords(segs);
    forall i | 0 <= i < |cues|
      ensures exists j :: 0 <= j < |segs| && cues[i].startMs == segs[j].startMs && cues[i].speaker == segs[j].speaker
      ensures exists j :: 0 <= j < |segs| && cues[i].endMs == segs[j].endMs
    {
      var g := groups[i];
      assert cues[i] == CueOf(g);
      InFlatten(groups, i, 0);
      assert g[0] in multiset(SortByTime(segs));
      assert g[0] in segs;
      var j0 :| 0 <= j0 < |segs| && segs[j0] == g[0];
      var k :| 0 <= k < |g| && g[k].endMs == cues[i].endMs;
      InFlatten(groups, i, k);
      assert g[k] in multiset(SortByTime(segs));
      assert g[k] in segs;
      var j1 :| 0 <= j1 < |segs| && segs[j1] == g[k];
    }
  }

  lemma {:induction false} InFlatten(gs: seq<seq<WordSegment>>, i: nat, j: nat)
    requires i < |gs| && j < |gs[i]|
    ensures gs[i][j] in Flatten(gs)
    decreases i
  {
    assert Flatten(gs) == gs[0] + Flatten(gs[1..]);
    if i > 0 {
      InFlatten(gs[1..], i - 1, j);
    } else {
      assert gs[0][j] == Flatten(gs)[j];
    }
  }

  /** The text of a cue is its words joined by single spaces, leaving out the
      empty words before the first non-empty one, and trimmed. */
  lemma {:induction false} CueTextJoinsWords(g: seq<WordSegment>)
    requires g != []
    ensures CueOf(g).text == Some(Trim(Join(DropLeadingEmpty(Words(g)), ' ')))
  {
    GatherFromEmpty(' ', Words(g));
  }
}
