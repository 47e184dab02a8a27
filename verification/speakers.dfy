/** Speaker normalisation of the native-result parser: a diarisation tag
    such as "spk:1" or "SPEAKER_2" is reduced to its first run of digits, and
    a word whose tag yields nothing usable keeps the previous word's speaker. */
module Speakers {
  import opened Wrappers
  import opened Text
  import opened Domain

  /** The speaker id used when the first word of a result has no usable tag. */
  const DefaultSpeaker: string := "0"

  predicate AllDigits(s: string) {
    forall i :: 0 <= i < |s| ==> IsDigit(s[i])
  }

  /** The longest prefix made of digits. */
  function DigitPrefix(s: string): (r: string)
    ensures |r| <= |s| && r == s[..|r|]
    ensures AllDigits(r)
    ensures |r| == |s| || !IsDigit(s[|r|])
  {
    if s == [] || !IsDigit(s[0]) then []
    else
      var t := DigitPrefix(s[1..]);
      assert [s[0]] + t == s[..|t| + 1];
      [s[0]] + t
  }

  /** The position of the first digit, if any. */
  function FirstDigitIndex(s: string): (r: Option<nat>)
    ensures r.None? <==> forall i :: 0 <= i < |s| ==> !IsDigit(s[i])
    ensures r.Some? ==> r.value < |s| && IsDigit(s[r.value])
    ensures r.Some? ==> forall i :: 0 <= i < r.value ==> !IsDigit(s[i])
  {
    if s == [] then None
    else if IsDigit(s[0]) then Some(0)
    else
      match FirstDigitIndex(s[1..])
      case None => None
      case Some(k) => Some(k + 1)
  }

  /** What the pattern `(\d+)` finds first in the tag: the first maximal
      run of digits. A tag without any digit is returned unchanged. */
  function NormalizeSpeakerTag(tag: string): (r: string)
    ensures match FirstDigitIndex(tag)
            case None => r == tag
            case Some(k) =>
              && r != []
              && AllDigits(r)
              && k + |r| <= |tag|
              && r == tag[k..k + |r|]
              && (k + |r| == |tag| || !IsDigit(tag[k + |r|]))
  {
    match FirstDigitIndex(tag)
    case None => tag
    case Some(k) =>
      var r := DigitPrefix(tag[k..]);
      assert tag[k..][..|r|] == tag[k..k + |r|];
      r
  }

  /** A normalised tag that is blank is replaced by the current speaker of
      the result, or by "0" before the result's first word. Any other tag,
      with digits or without, is kept. */
  function ResolveSpeaker(tag: string, current: Option<string>): (r: string)
    ensures !IsBlank(NormalizeSpeakerTag(tag)) ==> r == NormalizeSpeakerTag(tag)
    ensures IsBlank(NormalizeSpeakerTag(tag)) ==> r == current.GetOr(DefaultSpeaker)
  {
    var normalized := NormalizeSpeakerTag(tag);
    if IsBlank(normalized) then (if current.None? then DefaultSpeaker else current.value)
    else normalized
  }

  /** A tag is usable when its normalisation is not blank. */
  predicate Usable(w: RawWord) {
    !IsBlank(NormalizeSpeakerTag(w.speakerLabel))
  }

  /** The words of one result with trimmed text and resolved speakers. The
      speaker carried from word to word is the one the transcript builder
      keeps as its current speaker: after each word it is that word's speaker. */
  function Utter(raws: seq<RawWord>, current: Option<string>): (r: seq<SpokenWord>)
    ensures |r| == |raws|
    ensures forall i :: 0 <= i < |r| ==>
              && r[i].word == Trim(raws[i].word)
              && r[i].startMs == raws[i].startMs
              && r[i].endMs == raws[i].endMs
    ensures forall i :: 0 <= i < |r| && Usable(raws[i]) ==>
              r[i].speaker == NormalizeSpeakerTag(raws[i].speakerLabel)
    ensures |r| > 0 && !Usable(raws[0]) ==> r[0].speaker == current.GetOr(DefaultSpeaker)
    ensures forall i :: 0 < i < |r| && !Usable(raws[i]) ==> r[i].speaker == r[i - 1].speaker
    decreases |raws|
  {
    if raws == [] then []
    else
      var w := raws[0];
      var speaker := ResolveSpeaker(w.speakerLabel, current);
      [SpokenWord(Trim(w.word), speaker, w.startMs, w.endMs)] + Utter(raws[1..], Some(speaker))
  }

  /** A word takes the normalised tag of the nearest word at or before it
      whose tag is usable. */
  lemma {:induction false} SpeakerIsLatestUsableLabel(raws: seq<RawWord>, current: Option<string>, i: nat, j: nat)
    requires j <= i < |raws|
    requires Usable(raws[j])
    requires forall m :: j < m <= i ==> !Usable(raws[m])
    ensures Utter(raws, current)[i].speaker == NormalizeSpeakerTag(raws[j].speakerLabel)
    decreases i
  {
    if i > j {
      SpeakerIsLatestUsableLabel(raws, current, i - 1, j);
    }
  }

  /** When no word up to position i has a usable tag, the words of a
      result (which starts without a current speaker) are attributed to "0". */
  lemma {:induction false} SpeakerDefaultsToZero(raws: seq<RawWord>, i: nat)
    requires i < |raws|
    requires forall m :: 0 <= m <= i ==> !Usable(raws[m])
    ensures Utter(raws, None)[i].speaker == DefaultSpeaker
    decreases i
  {
    if i > 0 {
      SpeakerDefaultsToZero(raws, i - 1);
    }
  }
}
