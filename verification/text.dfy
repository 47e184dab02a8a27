/** The string operations of `java.lang.String` and `StringBuilder` that the
    services use, on strings as sequences of code points. */
module Text {

  /** The characters the regular expression class `\d` matches. */
  predicate IsDigit(c: char) {
    '0' <= c <= '9'
  }

  /** The characters `String.trim` strips: every code point up to U+0020. */
  predicate IsTrimmable(c: char) {
    c <= ' '
  }

  /** `Character.isWhitespace`, which `String.isBlank` tests: the ASCII
      separators and the Unicode space, line and paragraph separators other
      than the non-breaking ones. */
  predicate IsWhitespace(c: char) {
    || c == ' '
    || '\t' <= c <= '\r'
    || '\U{1C}' <= c <= '\U{1F}'
    || c == '\U{1680}'
    || '\U{2000}' <= c <= '\U{2006}'
    || '\U{2008}' <= c <= '\U{200A}'
    || c == '\U{2028}'
    || c == '\U{2029}'
    || c == '\U{205F}'
    || c == '\U{3000}'
  }

  /** `String.isBlank`: empty or only whitespace. */
  predicate IsBlank(s: string) {
    forall i :: 0 <= i < |s| ==> IsWhitespace(s[i])
  }

  predicate StartsWith(s: string, prefix: string) {
    |prefix| <= |s| && s[..|prefix|] == prefix
  }

  predicate EndsWith(s: string, suffix: string) {
    |suffix| <= |s| && s[|s| - |suffix|..] == suffix
  }

  /** Drops the leading trimmable characters. */
  function TrimStart(s: string): (r: string)
    ensures |r| <= |s| && r == s[|s| - |r|..]
    ensures forall i :: 0 <= i < |s| - |r| ==> IsTrimmable(s[i])
    ensures r == [] || !IsTrimmable(r[0])
  {
    if s == [] || !IsTrimmable(s[0]) then s else TrimStart(s[1..])
  }

  /** Drops the trailing trimmable characters. */
  function TrimEnd(s: string): (r: string)
    ensures |r| <= |s| && r == s[..|r|]
    ensures forall i :: |r| <= i < |s| ==> IsTrimmable(s[i])
    ensures r == [] || !IsTrimmable(r[|r| - 1])
  {
    if s == [] || !IsTrimmable(s[|s| - 1]) then s else TrimEnd(s[..|s| - 1])
  }

  /** `String.trim`: the longest infix that neither starts nor ends with a
      character up to U+0020. */
  function Trim(s: string): (r: string)
    ensures r == [] || (!IsTrimmable(r[0]) && !IsTrimmable(r[|r| - 1]))
    ensures |r| <= |s|
    ensures s == [] || (!IsTrimmable(s[0]) && !IsTrimmable(s[|s| - 1])) ==> r == s
  {
    TrimEnd(TrimStart(s))
  }

  /** The idiom `if (sb.length() > 0) sb.append(sep); sb.append(piece);`:
      the separator goes in only once the buffer holds something. */
  function AppendSep(sb: string, sep: char, piece: string): string {
    (if |sb| > 0 then sb + [sep] else sb) + piece
  }

  /** The buffer is kept as it is, and the piece ends it. */
  lemma {:induction false} AppendSepExtends(sb: string, sep: char, piece: string)
    ensures StartsWith(AppendSep(sb, sep, piece), sb) && EndsWith(AppendSep(sb, sep, piece), piece)
    ensures sb == [] ==> AppendSep(sb, sep, piece) == piece
    ensures sb != [] ==> |AppendSep(sb, sep, piece)| == |sb| + 1 + |piece| && AppendSep(sb, sep, piece)[|sb|] == sep
  {
  }

  /** Repeated `AppendSep`, one piece after the other. */
  function Gather(sb: string, sep: char, pieces: seq<string>): string
    decreases |pieces|
  {
    if pieces == [] then sb else Gather(AppendSep(sb, sep, pieces[0]), sep, pieces[1..])
  }

  /** The pieces joined with exactly one separator between neighbours. */
  function Join(pieces: seq<string>, sep: char): string
    decreases |pieces|
  {
    if pieces == [] then ""
    else if |pieces| == 1 then pieces[0]
    else pieces[0] + [sep] + Join(pieces[1..], sep)
  }

  /** The pieces from the first non-empty one on. */
  function DropLeadingEmpty(pieces: seq<string>): (r: seq<string>)
    ensures r == [] || r[0] != []
    ensures |r| <= |pieces| && r == pieces[|pieces| - |r|..]
    ensures forall i :: 0 <= i < |pieces| - |r| ==> pieces[i] == []
  {
    if pieces == [] || pieces[0] != [] then pieces else DropLeadingEmpty(pieces[1..])
  }

  /** Joining one more piece adds one separator and the piece. */
  lemma {:induction false} JoinSnoc(pieces: seq<string>, sep: char, last: string)
    requires pieces != []
    ensures Join(pieces + [last], sep) == Join(pieces, sep) + [sep] + last
    decreases |pieces|
  {
    if |pieces| == 1 {
      assert pieces + [last] == [pieces[0], last];
    } else {
      assert (pieces + [last])[1..] == pieces[1..] + [last];
      JoinSnoc(pieces[1..], sep, last);
    }
  }

  /** Appending to a buffer that already holds something puts exactly one
      separator before every piece. */
  lemma {:induction false} GatherOntoNonEmpty(sb: string, sep: char, pieces: seq<string>)
    requires |sb| > 0
    ensures Gather(sb, sep, pieces) == if pieces == [] then sb else sb + [sep] + Join(pieces, sep)
    decreases |pieces|
  {
    if pieces != [] {
      var next := AppendSep(sb, sep, pieces[0]);
      assert next == sb + [sep] + pieces[0];
      GatherOntoNonEmpty(next, sep, pieces[1..]);
      if |pieces| > 1 {
        assert next + [sep] + Join(pieces[1..], sep) == sb + [sep] + (pieces[0] + [sep] + Join(pieces[1..], sep));
      }
    }
  }

  /** Gathering from an empty buffer joins the pieces, except that the empty
      pieces before the first non-empty one leave no separator behind. */
  lemma {:induction false} GatherFromEmpty(sep: char, pieces: seq<string>)
    ensures Gather("", sep, pieces) == Join(DropLeadingEmpty(pieces), sep)
    decreases |pieces|
  {
    if pieces != [] {
      if pieces[0] == [] {
        assert AppendSep("", sep, pieces[0]) == "";
        GatherFromEmpty(sep, pieces[1..]);
      } else {
        assert AppendSep("", sep, pieces[0]) == pieces[0];
        GatherOntoNonEmpty(pieces[0], sep, pieces[1..]);
      }
    }
  }

  /** Gathering two lists of pieces is gathering their concatenation. */
  lemma {:induction false} GatherConcat(sb: string, sep: char, a: seq<string>, b: seq<string>)
    ensures Gather(Gather(sb, sep, a), sep, b) == Gather(sb, sep, a + b)
    decreases |a|
  {
    if a != [] {
      assert (a + b)[0] == a[0];
      assert (a + b)[1..] == a[1..] + b;
      GatherConcat(AppendSep(sb, sep, a[0]), sep, a[1..], b);
    } else {
      assert a + b == b;
    }
  }

  /** When no piece is empty, gathering from an empty buffer is a plain join. */
  lemma {:induction false} GatherNonEmptyPieces(sep: char, pieces: seq<string>)
    requires forall i :: 0 <= i < |pieces| ==> pieces[i] != []
    ensures Gather("", sep, pieces) == Join(pieces, sep)
  {
    GatherFromEmpty(sep, pieces);
    if pieces != [] {
      assert DropLeadingEmpty(pieces) == pieces;
    }
  }
}
