/** Timing repair of the native-result parser. Recognition results may omit a
    word's start or end offset. Every emitted segment gets a start and an end
    after it. Untimed words before the first timed word of a result wait in a
    pending buffer and are back-filled into 1 ms slots before that word. */
module WordTiming {
  import opened Wrappers
  import opened Domain

  function Max(a: int, b: int): int {
    if a >= b then a else b
  }

  predicate Untimed(w: SpokenWord) {
    w.startMs.None? && w.endMs.None?
  }

  /** A word goes to the pending buffer when it has no offset at all and no
      segment has set the previous end (still negative) in this result. */
  predicate Deferred(w: SpokenWord, prevEnd: int) {
    Untimed(w) && prevEnd < 0
  }

  /** The repaired slot of a word that is not deferred. A missing start is
      the previous end when there is one, else one millisecond before the
      given end (but not below 0). A missing end is one millisecond after the
      start, and so is an end that is not after the start. */
  function Repair(w: SpokenWord, prevEnd: int): (seg: WordSegment)
    requires !Deferred(w, prevEnd)
    ensures seg.endMs > seg.startMs
    ensures seg.word == w.word && seg.speaker == w.speaker
    ensures w.startMs.Some? ==> seg.startMs == w.startMs.value
    ensures w.startMs.None? && prevEnd >= 0 ==> seg.startMs == prevEnd
    ensures w.startMs.None? && prevEnd < 0 ==> seg.startMs == Max(0, w.endMs.value - 1)
    ensures w.endMs.Some? && w.endMs.value > seg.startMs ==> seg.endMs == w.endMs.value
    ensures w.endMs.None? || w.endMs.value <= seg.startMs ==> seg.endMs == seg.startMs + 1
  {
    var start :=
      if w.startMs.Some? then w.startMs.value
      else if prevEnd >= 0 then prevEnd
      else Max(0, w.endMs.value - 1);
    var end := if w.endMs.Some? then w.endMs.value else start + 1;
    var end' := if end <= start then start + 1 else end;
    WordSegment(start, end', w.speaker, w.word)
  }

  /** The pending words placed, in order, into consecutive 1 ms slots that
      start at `max(0, start - n)` for n pending words. When the timed word
      starts at least n ms in, the slots end exactly where it starts. */
  function Backfill(pending: seq<SpokenWord>, start: int): (r: seq<WordSegment>)
    ensures |r| == |pending|
    ensures forall i :: 0 <= i < |r| ==>
              && r[i].speaker == pending[i].speaker
              && r[i].word == pending[i].word
              && r[i].startMs == Max(0, start - |pending|) + i
              && r[i].endMs == r[i].startMs + 1
    ensures start >= |pending| ==> forall i :: 0 <= i < |r| ==> r[i].endMs <= start
    ensures start >= |pending| && |r| > 0 ==> r[|r| - 1].endMs == start
  {
    var base := Max(0, start - |pending|);
    seq(|pending|, i requires 0 <= i < |pending| =>
      WordSegment(base + i, base + i + 1, pending[i].speaker, pending[i].word))
  }

  /** What a segment says and who says it. */
  function SaidBy(seg: WordSegment): (string, string) {
    (seg.speaker, seg.word)
  }

  function SaidByAll(segs: seq<WordSegment>): (r: seq<(string, string)>)
    ensures |r| == |segs|
    ensures forall i :: 0 <= i < |segs| ==> r[i] == SaidBy(segs[i])
  {
    seq(|segs|, i requires 0 <= i < |segs| => SaidBy(segs[i]))
  }

  /** The segments one recognition result contributes, given the previous end
      (-1 before any segment of the result) and the pending buffer. Words still
      pending when the result ends are not emitted. Every segment ends after it
      starts, and there are never more segments than words. */
  function RepairTimings(ws: seq<SpokenWord>, prevEnd: int, pending: seq<SpokenWord>): (r: seq<WordSegment>)
    ensures forall i :: 0 <= i < |r| ==> r[i].endMs > r[i].startMs
    ensures |r| <= |pending| + |ws|
    decreases |ws|
  {
    if ws == [] then []
    else
      var w := ws[0];
      if Deferred(w, prevEnd) then
        RepairTimings(ws[1..], prevEnd, pending + [w])
      else
        var seg := Repair(w, prevEnd);
        Backfill(pending, seg.startMs) + [seg] + RepairTimings(ws[1..], seg.endMs, [])
  }

  /** The segments say the pending and incoming words in their original order,
      up to the last emitted one: only a tail of words still pending when the
      result ends can go missing. */
  lemma {:induction false} RepairKeepsWordOrder(ws: seq<SpokenWord>, prevEnd: int, pending: seq<SpokenWord>)
    ensures var r := RepairTimings(ws, prevEnd, pending);
            SaidByAll(r) == Spoken(pending + ws)[..|r|]
    decreases |ws|
  {
    if ws != [] {
      var w := ws[0];
      if Deferred(w, prevEnd) {
        RepairKeepsWordOrder(ws[1..], prevEnd, pending + [w]);
        assert pending + [w] + ws[1..] == pending + ws;
      } else {
        var seg := Repair(w, prevEnd);
        var rest := RepairTimings(ws[1..], seg.endMs, []);
        RepairKeepsWordOrder(ws[1..], seg.endMs, []);
        var r := Backfill(pending, seg.startMs) + [seg] + rest;
        assert [] + ws[1..] == ws[1..];
        var all := Spoken(pending + ws);
        forall i | 0 <= i < |r| ensures SaidByAll(r)[i] == all[i] {
          if i > |pending| {
            assert r[i] == rest[i - |pending| - 1];
            assert (pending + ws)[i] == ws[1..][i - |pending| - 1];
            assert SaidByAll(rest)[i - |pending| - 1] == Spoken(ws[1..])[i - |pending| - 1];
          }
        }
      }
    }
  }

  /** No offset in the result is a negative start. */
  predicate StartsNonNegative(ws: seq<SpokenWord>) {
    forall i :: 0 <= i < |ws| ==> ws[i].startMs.Some? ==> ws[i].startMs.value >= 0
  }

  lemma {:induction false} NonNegativeSuffix(ws: seq<SpokenWord>, k: nat)
    requires k <= |ws| && StartsNonNegative(ws)
    ensures StartsNonNegative(ws[k..])
  {
    forall i | 0 <= i < |ws[k..]| ensures ws[k..][i].startMs.Some? ==> ws[k..][i].startMs.value >= 0 {
      assert ws[k..][i] == ws[k + i];
    }
  }

  /** Once a segment has set a non-negative previous end, and no start offset
      is negative, no word is deferred again: every word becomes a segment. */
  lemma {:induction false} AllKeptAfterTimedWord(ws: seq<SpokenWord>, prevEnd: int)
    requires prevEnd >= 0
    requires StartsNonNegative(ws)
    ensures |RepairTimings(ws, prevEnd, [])| == |ws|
    decreases |ws|
  {
    if ws != [] {
      var seg := Repair(ws[0], prevEnd);
      NonNegativeSuffix(ws, 1);
      AllKeptAfterTimedWord(ws[1..], seg.endMs);
    }
  }

  /** The leading untimed words of a result are back-filled right before the
      first word that has an offset, and the rest follows that word. */
  lemma {:induction false} LeadingUntimedBackfilled(ws: seq<SpokenWord>, pending: seq<SpokenWord>, k: nat)
    requires k < |ws|
    requires forall i :: 0 <= i < k ==> Untimed(ws[i])
    requires !Untimed(ws[k])
    ensures var seg := Repair(ws[k], -1);
            RepairTimings(ws, -1, pending)
            == Backfill(pending + ws[..k], seg.startMs) + [seg] + RepairTimings(ws[k + 1..], seg.endMs, [])
    decreases k
  {
    if k > 0 {
      LeadingUntimedBackfilled(ws[1..], pending + [ws[0]], k - 1);
      assert ws[1..][..k - 1] == ws[1..k];
      assert pending + [ws[0]] + ws[1..k] == pending + ws[..k];
      assert ws[1..][k - 1 + 1..] == ws[k + 1..];
    } else {
      assert ws[..0] == [];
      assert pending + [] == pending;
    }
  }

  /** A result in which no word carries an offset contributes no segment. */
  lemma {:induction false} NeverTimedDropsAll(ws: seq<SpokenWord>, pending: seq<SpokenWord>)
    requires forall i :: 0 <= i < |ws| ==> Untimed(ws[i])
    ensures RepairTimings(ws, -1, pending) == []
    decreases |ws|
  {
    if ws != [] {
      NeverTimedDropsAll(ws[1..], pending + [ws[0]]);
    }
  }

  /** A result with some offset and no negative start keeps every word: its
      segments say all its words, in order. */
  lemma {:induction false} TimedResultKeepsAllWords(ws: seq<SpokenWord>, k: nat)
    requires k < |ws| && !Untimed(ws[k])
    requires StartsNonNegative(ws)
    ensures SaidByAll(RepairTimings(ws, -1, [])) == Spoken(ws)
  {
    FirstTimed(ws, k);
    var j :| 0 <= j <= k && !Untimed(ws[j]) && forall i :: 0 <= i < j ==> Untimed(ws[i]);
    KeepsAllFromFirstTimed(ws, j);
  }

  lemma {:induction false} KeepsAllFromFirstTimed(ws: seq<SpokenWord>, j: nat)
    requires j < |ws| && !Untimed(ws[j]) && StartsNonNegative(ws)
    requires forall i :: 0 <= i < j ==> Untimed(ws[i])
    ensures SaidByAll(RepairTimings(ws, -1, [])) == Spoken(ws)
  {
    var r := RepairTimings(ws, -1, []);
    var seg := Repair(ws[j], -1);
    var rest := RepairTimings(ws[j + 1..], seg.endMs, []);
    LeadingUntimedBackfilled(ws, [], j);
    assert [] + ws[..j] == ws[..j];
    assert r == Backfill(ws[..j], seg.startMs) + [seg] + rest;
    NonNegativeSuffix(ws, j + 1);
    AllKeptAfterTimedWord(ws[j + 1..], seg.endMs);
    assert |r| == |ws|;
    RepairKeepsWordOrder(ws, -1, []);
    assert [] + ws == ws;
    assert Spoken(ws)[..|ws|] == Spoken(ws);
  }

  /** Some word is the first one with an offset. */
  lemma {:induction false} FirstTimed(ws: seq<SpokenWord>, k: nat)
    requires k < |ws| && !Untimed(ws[k])
    ensures exists j :: 0 <= j <= k && !Untimed(ws[j]) && forall i :: 0 <= i < j ==> Untimed(ws[i])
    decreases k
  {
    if exists j :: 0 <= j < k && !Untimed(ws[j]) {
      var j :| 0 <= j < k && !Untimed(ws[j]);
      FirstTimed(ws, j);
    }
  }
}
