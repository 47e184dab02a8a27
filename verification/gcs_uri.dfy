/** Splitting a `gs://bucket/object` reference. The merge service and the
    recognition service carry identical copies of this parser. */
module GcsUri {
  import opened Wrappers
  import opened Text

  datatype GcsPath = GcsPath(bucket: string, objectName: string)

  const Scheme: string := "gs://"

  /** A path that a reference can name: a bucket without '/' and both parts non-empty. */
  predicate ValidPath(p: GcsPath) {
    p.bucket != [] && p.objectName != [] && '/' !in p.bucket
  }

  /** The reference naming a path. */
  function Format(p: GcsPath): string {
    Scheme + p.bucket + "/" + p.objectName
  }

  /** `String.indexOf(char)`: the first position of `c`, or -1. */
  function IndexOf(s: string, c: char): (r: int)
    ensures -1 <= r < |s|
    ensures r >= 0 ==> s[r] == c && c !in s[..r]
    ensures r == -1 <==> c !in s
  {
    if s == [] then -1
    else if s[0] == c then 0
    else
      var k := IndexOf(s[1..], c);
      if k < 0 then -1
      else
        assert s[..k + 1] == [s[0]] + s[1..][..k];
        k + 1
  }

  /** Rejects a null reference or one without the scheme, then splits the rest
      at its first '/', rejecting an empty bucket or an empty object name. */
  function ParseGsUri(uri: Option<string>): (r: Result<GcsPath>)
    ensures uri.None? || !StartsWith(uri.value, Scheme) <==> r == Err(NotGsUri)
    ensures r.Ok? ==> ValidPath(r.value) && uri == Some(Format(r.value))
    ensures r.Err? ==> r.error == NotGsUri || r.error == InvalidGsUri
  {
    if uri.None? || !StartsWith(uri.value, Scheme) then Err(NotGsUri)
    else
      var s := uri.value;
      var rest := s[|Scheme|..];
      var r := SplitBucket(rest);
      if r.Ok? then
        assert s == Scheme + rest;
        assert Format(r.value) == Scheme + (r.value.bucket + "/" + r.value.objectName);
        Ok(r.value)
      else r
  }

  /** The part after the scheme, split at its first '/'. */
  function SplitBucket(rest: string): (r: Result<GcsPath>)
    ensures r.Ok? ==> ValidPath(r.value) && rest == r.value.bucket + "/" + r.value.objectName
    ensures r.Err? ==> r.error == InvalidGsUri
  {
    var idx := IndexOf(rest, '/');
    if idx < 1 || idx == |rest| - 1 then Err(InvalidGsUri)
    else
      var p := GcsPath(rest[..idx], rest[idx + 1..]);
      assert rest == rest[..idx] + [rest[idx]] + rest[idx + 1..];
      Ok(p)
  }

  /** Every valid path survives formatting and parsing unchanged. */
  lemma {:induction false} ParseFormat(p: GcsPath)
    requires ValidPath(p)
    ensures ParseGsUri(Some(Format(p))) == Ok(p)
  {
    var s := Format(p);
    assert s[..|Scheme|] == Scheme;
    var rest := s[|Scheme|..];
    assert rest == p.bucket + "/" + p.objectName;
    assert rest[|p.bucket|] == '/';
    assert rest[..|p.bucket|] == p.bucket;
    assert rest[|p.bucket| + 1..] == p.objectName;
  }

  /** A reference with the scheme is accepted exactly when it names a valid path. */
  lemma {:induction false} ParseAcceptsExactlyFormatted(s: string)
    ensures ParseGsUri(Some(s)).Ok? <==> exists p :: ValidPath(p) && s == Format(p)
  {
    if exists p :: ValidPath(p) && s == Format(p) {
      var p :| ValidPath(p) && s == Format(p);
      ParseFormat(p);
    }
  }
}
