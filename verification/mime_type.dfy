/** `getMimeType(uriBase64)`: the media type of a data URI, read as
    `split(",")[0].split(";")[0].split(":")[1]`. */
module MimeType {
  import opened Results
  import opened Strings

  /** The text before the first `sep` (all of it when there is none). */
  function Before(s: string, sep: char): (r: string)
    ensures |r| <= |s| && r == s[..|r|] && sep !in r
    ensures sep !in s ==> r == s
    ensures |r| < |s| ==> s[|r|] == sep
  {
    SplitFirstPiece(s, sep);
    Split(s, sep)[0]
  }

  function GetMimeType(uri: string): (r: Option<string>)
    ensures r.Some? ==> ':' !in r.value
    ensures r.Some? <==> ':' in Before(Before(uri, ','), ';')
  {
    var header := Before(Before(uri, ','), ';');
    var parts := Split(header, ':');
    SplitFirstPiece(header, ':');
    if |parts| > 1 then Some(parts[1]) else None
  }

  /** A prefix holds no character the text lacks. */
  lemma NotInPrefix(s: string, n: nat)
    requires n <= |s|
    ensures forall c :: c !in s ==> c !in s[..n]
  {
    forall c | c in s[..n] ensures c in s {
      var i :| 0 <= i < n && s[..n][i] == c;
      assert s[i] == c;
    }
  }

  /** Without a ":" before the parameters there is no media type. */
  lemma NoColon(uri: string)
    requires ':' !in uri
    ensures GetMimeType(uri).None?
  {
    NotInPrefix(uri, |Before(uri, ',')|);
    NotInPrefix(Before(uri, ','), |Before(Before(uri, ','), ';')|);
  }

  /** Only the text before the first "," counts. */
  lemma PayloadIgnored(head: string, rest: string)
    requires ',' !in head
    ensures GetMimeType(head + [','] + rest) == GetMimeType(head)
  {
    SplitAround(head, rest, ',');
  }

  /** Within that text, only the part before the first ";" counts. */
  lemma ParamsIgnored(head: string, params: string)
    requires ',' !in head && ';' !in head && ',' !in params
    ensures GetMimeType(head + [';'] + params) == GetMimeType(head)
  {
    var uri := head + [';'] + params;
    assert ',' !in uri;
    SplitAround(head, params, ';');
  }

  /** The media type is the text after the scheme's ":". */
  lemma MediaTypeAfterScheme(scheme: string, mediaType: string)
    requires ':' !in scheme && ':' !in mediaType
    requires ',' !in scheme && ';' !in scheme && ',' !in mediaType && ';' !in mediaType
    ensures GetMimeType(scheme + [':'] + mediaType) == Some(mediaType)
  {
    SplitAround(scheme, mediaType, ':');
    SplitNoSeparator(mediaType, ':');
  }

  /** A second ":" ends the media type. */
  lemma SecondColonEnds(scheme: string, mediaType: string, more: string)
    requires ':' !in scheme && ':' !in mediaType
    requires ',' !in scheme + [':'] + mediaType + [':'] + more
    requires ';' !in scheme + [':'] + mediaType + [':'] + more
    ensures GetMimeType(scheme + [':'] + mediaType + [':'] + more) == Some(mediaType)
  {
    var b := scheme + [':'] + mediaType + [':'] + more;
    SplitAround(scheme, mediaType + [':'] + more, ':');
    SplitAround(mediaType, more, ':');
    assert b == scheme + [':'] + (mediaType + [':'] + more);
  }

  /** A data URI `scheme:mediaType;params,payload` (as in
      "data:image/jpeg;base64,/9j/4AAQ") gives its media type. */
  lemma DataUri(scheme: string, mediaType: string, params: string, payload: string)
    requires ':' !in scheme && ':' !in mediaType
    requires ',' !in scheme && ';' !in scheme && ',' !in mediaType && ';' !in mediaType && ',' !in params
    ensures GetMimeType(scheme + [':'] + mediaType + [';'] + params + [','] + payload) == Some(mediaType)
  {
    var header := scheme + [':'] + mediaType;
    assert ',' !in header + [';'] + params;
    PayloadIgnored(header + [';'] + params, payload);
    ParamsIgnored(header, params);
    MediaTypeAfterScheme(scheme, mediaType);
  }
}
