/** Planning the merged meeting audio. A meeting with one chunk is served as
    that chunk's stored audio. Several chunks are downloaded in `chunkSeq`
    order and joined by the ffmpeg concat demuxer, which reads a list file with
    one line `file '<path>'` per input; a quote inside a path is written as
    `'\''` (close the quote, an escaped quote, reopen). Whether an object
    exists and where a chunk is downloaded to are parameters. */
module AudioMerge {
  import opened Wrappers
  import opened Text
  import opened Domain
  import opened GcsUri

  const Quote: char := '\''
  const Backslash: char := '\\'

  /** The escaped form of one quote. */
  const EscapedQuote: string := [Quote, Backslash, Quote, Quote]

  /** How often a character occurs. */
  function Count(s: string, c: char): nat
    decreases |s|
  {
    if s == [] then 0 else (if s[0] == c then 1 else 0) + Count(s[1..], c)
  }

  /** `replace("'", "'\\''")`: each quote becomes the escaped quote, every
      other character stays as it is. */
  function EscapeQuotes(p: string): (r: string)
    ensures |r| == |p| + 3 * Count(p, Quote)
    decreases |p|
  {
    if p == [] then []
    else (if p[0] == Quote then EscapedQuote else [p[0]]) + EscapeQuotes(p[1..])
  }

  const LinePrefix: string := "file '"

  /** The list line of one input file. */
  function ConcatLine(path: string): (r: string)
    ensures |r| == |LinePrefix| + |path| + 3 * Count(path, Quote) + 2
    ensures ParseConcatList(r) == Some([path])
  {
    var after := "\n";
    var r := LinePrefix + EscapeQuotes(path) + [Quote, '\n'];
    assert r == LinePrefix + (EscapeQuotes(path) + [Quote] + after);
    ReadEscaped(path, after);
    assert r[|LinePrefix|..] == EscapeQuotes(path) + [Quote] + after;
    assert StartsWith(r, LinePrefix);
    assert after[1..] == [] && ParseConcatList([]) == Some([]);
    assert ParseConcatList(r) == Some([path] + []);
    assert [path] + [] == [path];
    r
  }

  /** The list file: one line per input, in input order. */
  function ConcatList(paths: seq<string>): (r: string)
    ensures paths == [] <==> r == []
    ensures paths != [] ==> StartsWith(r, LinePrefix) && r[|r| - 1] == '\n'
    decreases |paths|
  {
    if paths == [] then [] else ConcatLine(paths[0]) + ConcatList(paths[1..])
  }

  /** Reads back the quoting `ConcatLine` writes, from just after the opening
      quote: an escaped quote stands for a quote, a lone quote ends the path.
      Yields the path and what follows the closing quote. */
  function ReadQuoted(s: string): (r: Option<(string, string)>)
    ensures r.Some? ==> |r.value.1| < |s|
    decreases |s|
  {
    if s == [] then None
    else if s[0] == Quote then
      if |s| >= 4 && s[..4] == EscapedQuote then
        match ReadQuoted(s[4..])
        case None => None
        case Some(pr) => Some(([Quote] + pr.0, pr.1))
      else Some(([], s[1..]))
    else
      match ReadQuoted(s[1..])
      case None => None
      case Some(pr) => Some(([s[0]] + pr.0, pr.1))
  }

  /** Reads a whole list file back into its paths, or `None` when it is not
      made of `file '<path>'` lines. */
  function ParseConcatList(text: string): (r: Option<seq<string>>)
    decreases |text|
  {
    if text == [] then Some([])
    else if !StartsWith(text, LinePrefix) then None
    else
      match ReadQuoted(text[|LinePrefix|..])
      case None => None
      case Some(pr) =>
        if pr.1 == [] || pr.1[0] != '\n' then None
        else
          match ParseConcatList(pr.1[1..])
          case None => None
          case Some(rest) => Some([pr.0] + rest)
  }

  lemma {:induction false} ReadEscaped(p: string, tail: string)
    requires tail == [] || tail[0] != Backslash
    ensures ReadQuoted(EscapeQuotes(p) + [Quote] + tail) == Some((p, tail))
    decreases |p|, 1
  {
    if p == [] {
      assert EscapeQuotes(p) + [Quote] + tail == [Quote] + tail;
      ReadQuotedClosing(tail);
    } else if p[0] == Quote {
      ReadEscapedQuoteFirst(p, tail);
    } else {
      ReadEscapedPlainFirst(p, tail);
    }
  }

  lemma {:induction false} ReadEscapedQuoteFirst(p: string, tail: string)
    requires tail == [] || tail[0] != Backslash
    requires p != [] && p[0] == Quote
    ensures ReadQuoted(EscapeQuotes(p) + [Quote] + tail) == Some((p, tail))
    decreases |p|, 0
  {
    ReadEscaped(p[1..], tail);
    var rest := EscapeQuotes(p[1..]) + [Quote] + tail;
    assert EscapeQuotes(p) + [Quote] + tail == EscapedQuote + rest by {
      assert EscapeQuotes(p) == EscapedQuote + EscapeQuotes(p[1..]);
    }
    ReadQuotedEscapedQuote(rest, p[1..], tail);
    assert [Quote] + p[1..] == p;
  }

  lemma {:induction false} ReadEscapedPlainFirst(p: string, tail: string)
    requires tail == [] || tail[0] != Backslash
    requires p != [] && p[0] != Quote
    ensures ReadQuoted(EscapeQuotes(p) + [Quote] + tail) == Some((p, tail))
    decreases |p|, 0
  {
    ReadEscaped(p[1..], tail);
    var rest := EscapeQuotes(p[1..]) + [Quote] + tail;
    assert EscapeQuotes(p) + [Quote] + tail == [p[0]] + rest by {
      assert EscapeQuotes(p) == [p[0]] + EscapeQuotes(p[1..]);
    }
    ReadQuotedPlain(p[0], rest, p[1..], tail);
    assert [p[0]] + p[1..] == p;
  }

  /** A quote not followed by a backslash closes the path. */
  lemma {:induction false} ReadQuotedClosing(tail: string)
    requires tail == [] || tail[0] != Backslash
    ensures ReadQuoted([Quote] + tail) == Some(([], tail))
  {
    var s := [Quote] + tail;
    assert s[1..] == tail;
    if |s| >= 4 {
      assert s[1] == tail[0];
      assert s[..4] != EscapedQuote;
    }
  }

  /** An escaped quote reads as one quote of the path. */
  lemma {:induction false} ReadQuotedEscapedQuote(rest: string, path: string, tail: string)
    requires ReadQuoted(rest) == Some((path, tail))
    ensures ReadQuoted(EscapedQuote + rest) == Some(([Quote] + path, tail))
  {
    var s := EscapedQuote + rest;
    assert s[0] == Quote && |s| >= 4;
    assert s[..4] == EscapedQuote;
    assert s[4..] == rest;
  }

  /** Any other character reads as itself. */
  lemma {:induction false} ReadQuotedPlain(c: char, rest: string, path: string, tail: string)
    requires c != Quote && ReadQuoted(rest) == Some((path, tail))
    ensures ReadQuoted([c] + rest) == Some(([c] + path, tail))
  {
    assert ([c] + rest)[1..] == rest;
  }

  /** The list file reads back as exactly its inputs, in order: the quoting
      loses nothing and splits nothing, whatever quotes the paths hold. */
  lemma {:induction false} ConcatListReadsBack(paths: seq<string>)
    ensures ParseConcatList(ConcatList(paths)) == Some(paths)
    decreases |paths|
  {
    if paths != [] {
      ConcatListReadsBack(paths[1..]);
      LineThenList(paths[0], ConcatList(paths[1..]), paths[1..]);
      assert ConcatList(paths) == ConcatLine(paths[0]) + ConcatList(paths[1..]);
      assert [paths[0]] + paths[1..] == paths;
    }
  }

  /** One line in front of a list that reads back adds its path in front. */
  lemma {:induction false} LineThenList(path: string, more: string, ps: seq<string>)
    requires ParseConcatList(more) == Some(ps)
    ensures ParseConcatList(ConcatLine(path) + more) == Some([path] + ps)
  {
    var after := "\n" + more;
    var quoted := EscapeQuotes(path) + [Quote] + after;
    var text := LinePrefix + quoted;
    assert ConcatLine(path) + more == text;
    assert StartsWith(text, LinePrefix) && text[|LinePrefix|..] == quoted;
    ReadEscaped(path, after);
    assert after[1..] == more;
  }

  /** The list has one line per input: as many line ends as inputs, as long
      as no path holds a line end itself. */
  lemma {:induction false} ConcatListLines(paths: seq<string>)
    requires forall i :: 0 <= i < |paths| ==> Count(paths[i], '\n') == 0
    ensures Count(ConcatList(paths), '\n') == |paths|
    decreases |paths|
  {
    if paths != [] {
      CountAbsent(LinePrefix, '\n');
      CountConcat([Quote], ['\n'], '\n');
      assert [Quote] + ['\n'] == [Quote, '\n'];
      CountConcat(LinePrefix + EscapeQuotes(paths[0]), [Quote, '\n'], '\n');
      CountConcat(LinePrefix, EscapeQuotes(paths[0]), '\n');
      CountEscapeKeeps(paths[0], '\n');
      CountConcat(ConcatLine(paths[0]), ConcatList(paths[1..]), '\n');
      ConcatListLines(paths[1..]);
    }
  }

  lemma {:induction false} CountAbsent(s: string, c: char)
    requires forall i :: 0 <= i < |s| ==> s[i] != c
    ensures Count(s, c) == 0
    decreases |s|
  {
    if s != [] {
      CountAbsent(s[1..], c);
    }
  }

  lemma {:induction false} CountConcat(a: string, b: string, c: char)
    ensures Count(a + b, c) == Count(a, c) + Count(b, c)
    decreases |a|
  {
    if a == [] {
      assert a + b == b;
    } else {
      assert (a + b)[1..] == a[1..] + b;
      CountConcat(a[1..], b, c);
    }
  }

  lemma {:induction false} CountEscapeKeeps(p: string, c: char)
    requires c != Quote && c != Backslash
    ensures Count(EscapeQuotes(p), c) == Count(p, c)
    decreases |p|
  {
    if p != [] {
      var head := if p[0] == Quote then EscapedQuote else [p[0]];
      assert EscapeQuotes(p) == head + EscapeQuotes(p[1..]);
      CountConcat(head, EscapeQuotes(p[1..]), c);
      CountEscapeKeeps(p[1..], c);
      if p[0] == Quote {
        CountConcat([Quote], [Backslash, Quote, Quote], c);
        CountConcat([Backslash], [Quote, Quote], c);
        CountConcat([Quote], [Quote], c);
        assert [Quote] + [Backslash, Quote, Quote] == EscapedQuote;
        assert [Backslash] + [Quote, Quote] == [Backslash, Quote, Quote];
        assert Count(head, c) == 0;
      } else {
        assert Count(head, c) == (if p[0] == c then 1 else 0) + Count([], c);
      }
    }
  }

  /** How the merged audio is produced. */
  datatype MergePlan =
    | Passthrough(source: GcsPath)
    | Concat(sources: seq<GcsPath>, listText: string)

  /** Resolves the audio objects of the chunks in order: each reference must
      parse and name an existing object. */
  function Sources(chunks: seq<Chunk>, exists_: GcsPath -> bool): (r: Result<seq<GcsPath>>)
    ensures r.Ok? ==> |r.value| == |chunks|
    ensures r.Ok? ==> forall i :: 0 <= i < |chunks| ==>
              ValidPath(r.value[i]) && chunks[i].gcsUri == Format(r.value[i]) && exists_(r.value[i])
    ensures r.Err? ==> r.error in {NotGsUri, InvalidGsUri, BlobNotFound}
    decreases |chunks|
  {
    if chunks == [] then Ok([])
    else
      match ParseGsUri(Some(chunks[0].gcsUri))
      case Err(e) => Err(e)
      case Ok(path) =>
        if !exists_(path) then Err(BlobNotFound)
        else
          match Sources(chunks[1..], exists_)
          case Err(e) => Err(e)
          case Ok(rest) =>
            ResolvedCons(chunks, exists_, path, rest);
            Ok([path] + rest)
  }

  /** Each chunk's reference formats one path of the list, which exists. */
  predicate Resolved(chunks: seq<Chunk>, exists_: GcsPath -> bool, paths: seq<GcsPath>) {
    && |paths| == |chunks|
    && forall i :: 0 <= i < |chunks| ==>
         ValidPath(paths[i]) && chunks[i].gcsUri == Format(paths[i]) && exists_(paths[i])
  }

  lemma {:induction false} ResolvedCons(chunks: seq<Chunk>, exists_: GcsPath -> bool, path: GcsPath, rest: seq<GcsPath>)
    requires chunks != []
    requires ValidPath(path) && chunks[0].gcsUri == Format(path) && exists_(path)
    requires Resolved(chunks[1..], exists_, rest)
    ensures Resolved(chunks, exists_, [path] + rest)
  {
    var paths := [path] + rest;
    forall i | 0 < i < |chunks|
      ensures ValidPath(paths[i]) && chunks[i].gcsUri == Format(paths[i]) && exists_(paths[i])
    {
      assert chunks[i] == chunks[1..][i - 1] && paths[i] == rest[i - 1];
    }
  }

  /** A chunk whose reference parses and names an existing object. */
  predicate Available(c: Chunk, exists_: GcsPath -> bool) {
    var p := ParseGsUri(Some(c.gcsUri));
    p.Ok? && exists_(p.value)
  }

  /** Resolving the sources fails exactly when some chunk is not available. */
  lemma {:induction false} SourcesOkIffAllAvailable(chunks: seq<Chunk>, exists_: GcsPath -> bool)
    ensures Sources(chunks, exists_).Ok? <==> forall i :: 0 <= i < |chunks| ==> Available(chunks[i], exists_)
    decreases |chunks|
  {
    if chunks != [] {
      SourcesOkIffAllAvailable(chunks[1..], exists_);
      SourcesStep(chunks, exists_);
      if Available(chunks[0], exists_) {
        forall i | 0 <= i < |chunks| && !Available(chunks[i], exists_)
          ensures 0 < i && !Available(chunks[1..][i - 1], exists_)
        {
          assert chunks[1..][i - 1] == chunks[i];
        }
      }
    }
  }

  lemma {:induction false} SourcesStep(chunks: seq<Chunk>, exists_: GcsPath -> bool)
    requires chunks != []
    ensures Sources(chunks, exists_).Ok? <==> Available(chunks[0], exists_) && Sources(chunks[1..], exists_).Ok?
  {
  }

  /** The merge of a meeting's chunks: none is an error, one is served as it
      is, several are concatenated from their local copies in chunk order. */
  function PlanMerge(chunks: seq<Chunk>, exists_: GcsPath -> bool, localFile: int -> string): (r: Result<MergePlan>)
    ensures chunks == [] <==> r == Err(NoChunks)
    ensures r.Err? ==> r.error in {NoChunks, NotGsUri, InvalidGsUri, BlobNotFound}
    ensures r.Ok? && |chunks| == 1 ==> r.value.Passthrough? && chunks[0].gcsUri == Format(r.value.source)
    ensures r.Ok? && |chunks| > 1 ==> r.value.Concat? && |r.value.sources| == |chunks|
  {
    if chunks == [] then Err(NoChunks)
    else
      var sources :- Sources(chunks, exists_);
      if |chunks| == 1 then Ok(Passthrough(sources[0]))
      else Ok(Concat(sources, ConcatList(LocalFiles(chunks, localFile))))
  }

  function LocalFiles(chunks: seq<Chunk>, localFile: int -> string): (r: seq<string>)
    ensures |r| == |chunks|
    ensures forall i :: 0 <= i < |chunks| ==> r[i] == localFile(chunks[i].chunkSeq)
  {
    seq(|chunks|, i requires 0 <= i < |chunks| => localFile(chunks[i].chunkSeq))
  }

  /** A non-empty meeting merges exactly when every chunk is available. */
  lemma {:induction false} MergeSucceedsIffAllAvailable(chunks: seq<Chunk>, exists_: GcsPath -> bool, localFile: int -> string)
    requires chunks != []
    ensures PlanMerge(chunks, exists_, localFile).Ok? <==> forall i :: 0 <= i < |chunks| ==> Available(chunks[i], exists_)
  {
    SourcesOkIffAllAvailable(chunks, exists_);
  }

  /** A multi-chunk merge lists every chunk's local copy once, in chunk order,
      and each chunk's audio object is the one its reference names. */
  lemma {:induction false} MergeListsChunksInOrder(chunks: seq<Chunk>, exists_: GcsPath -> bool, localFile: int -> string)
    requires |chunks| > 1 && PlanMerge(chunks, exists_, localFile).Ok?
    ensures ParseConcatList(PlanMerge(chunks, exists_, localFile).value.listText) == Some(LocalFiles(chunks, localFile))
    ensures forall i :: 0 <= i < |chunks| ==>
              chunks[i].gcsUri == Format(PlanMerge(chunks, exists_, localFile).value.sources[i])
  {
    ConcatListReadsBack(LocalFiles(chunks, localFile));
  }
}
