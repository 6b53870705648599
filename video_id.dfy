/** The video-identifier parser of the command-line entry point
    (extract_video_id in src/yt_transcript/__main__.py). It finds the
    leftmost place where "v=" or "/" is followed by eleven characters of
    the identifier alphabet [0-9A-Za-z_-] and returns those eleven
    characters; nothing after them is looked at. With no such place it
    fails with the parser's error message. */
module VideoId {

  import opened Options

  datatype Result<T> = Ok(value: T) | Err(message: string)

  /** The message of the ValueError raised when no identifier is found. */
  const NotFoundMessage: string := "Could not extract video ID from URL"

  /** Every identifier has exactly this many characters. */
  const IdLength: nat := 11

  /** A character of the identifier alphabet [0-9A-Za-z_-]. */
  predicate IsIdChar(c: char) {
    ('0' <= c <= '9') || ('A' <= c <= 'Z') || ('a' <= c <= 'z') || c == '_' || c == '-'
  }

  predicate AllIdChars(s: string) {
    forall k :: 0 <= k < |s| ==> IsIdChar(s[k])
  }

  /** The first alternative of the pattern matches at i: "v=" and then
      eleven identifier characters. */
  predicate QueryAnchorAt(url: string, i: nat) {
    i + 2 + IdLength <= |url| && url[i] == 'v' && url[i + 1] == '='
    && AllIdChars(url[i + 2..i + 2 + IdLength])
  }

  /** The second alternative matches at i: "/" and then eleven identifier
      characters. */
  predicate PathAnchorAt(url: string, i: nat) {
    i + 1 + IdLength <= |url| && url[i] == '/' && AllIdChars(url[i + 1..i + 1 + IdLength])
  }

  /** The whole pattern matches starting at index i. The trailing ".*"
      matches the empty string, so it adds no condition. A match needs the
      anchor character "v" or "/" at i and room for the eleven characters
      of the group. */
  predicate MatchAt(url: string, i: nat)
    ensures MatchAt(url, i) ==> i + 1 + IdLength <= |url|
  {
    QueryAnchorAt(url, i) || PathAnchorAt(url, i)
  }

  /** Where the captured identifier starts, for a match at i. */
  function TokenStart(url: string, i: nat): (s: nat)
    requires MatchAt(url, i)
    ensures s + IdLength <= |url|
    ensures s == i + 1 || s == i + 2
  {
    if url[i] == '/' then i + 1 else i + 2
  }

  /** The captured group of a match at i: the eleven characters right
      after the "/" or right after the "v=" that starts the match. */
  function Token(url: string, i: nat): (id: string)
    requires MatchAt(url, i)
    ensures |id| == IdLength && AllIdChars(id)
    ensures url[i] == '/' ==> id == url[i + 1..i + 1 + IdLength]
    ensures url[i] != '/' ==> url[i] == 'v' && url[i + 1] == '=' && id == url[i + 2..i + 2 + IdLength]
  {
    url[TokenStart(url, i)..TokenStart(url, i) + IdLength]
  }

  /** i is where a left-to-right search finds its match. */
  ghost predicate IsLeftmostMatch(url: string, i: nat) {
    MatchAt(url, i) && forall j :: 0 <= j < i ==> !MatchAt(url, j)
  }

  /** The search for a match, trying start positions from i upwards, as
      re.search does. */
  function Scan(url: string, i: nat): (r: Option<nat>)
    requires i <= |url|
    ensures r.None? ==> forall j :: i <= j ==> !MatchAt(url, j)
    ensures r.Some? ==> i <= r.value && MatchAt(url, r.value)
    ensures r.Some? ==> forall j :: i <= j < r.value ==> !MatchAt(url, j)
    decreases |url| - i
  {
    if i == |url| then None
    else if MatchAt(url, i) then Some(i)
    else Scan(url, i + 1)
  }

  /** extract_video_id: the captured identifier of the leftmost match, or
      the parser's error when the pattern matches nowhere. */
  function ExtractVideoId(url: string): (r: Result<string>)
    ensures r.Err? <==> forall j :: !MatchAt(url, j)
    ensures r.Err? ==> r.message == NotFoundMessage
    ensures r.Ok? ==> |r.value| == IdLength && AllIdChars(r.value)
  {
    match Scan(url, 0)
    case None => Err(NotFoundMessage)
    case Some(k) => Ok(Token(url, k))
  }

  /** From the specification to the parser: the identifier after the
      leftmost match is what the parser returns. */
  lemma {:induction false} ExtractFindsLeftmost(url: string, k: nat)
    requires IsLeftmostMatch(url, k)
    ensures ExtractVideoId(url) == Ok(Token(url, k))
  {
    var r := Scan(url, 0);
    assert r.Some? && r.value == k;
  }

  /** From the parser to the specification: a returned identifier is the
      one after the leftmost match. */
  lemma {:induction false} ExtractIsLeftmost(url: string)
    requires ExtractVideoId(url).Ok?
    ensures exists k :: IsLeftmostMatch(url, k) && ExtractVideoId(url).value == Token(url, k)
  {
    var k := Scan(url, 0).value;
    assert IsLeftmostMatch(url, k);
  }

  /** id occurs in url at index p, right after "/" or right after "v=". */
  predicate AnchoredAt(url: string, p: nat, id: string) {
    1 <= p && p + |id| <= |url| && url[p..p + |id|] == id
    && (url[p - 1] == '/' || (2 <= p && url[p - 2..p] == "v="))
  }

  /** A returned identifier is a substring of the URL that starts right
      after "v=" or right after "/". */
  lemma {:induction false} ExtractIsAnchoredSubstring(url: string)
    requires ExtractVideoId(url).Ok?
    ensures exists p :: AnchoredAt(url, p, ExtractVideoId(url).value)
  {
    var k := Scan(url, 0).value;
    var p := TokenStart(url, k);
    if url[k] != '/' {
      assert QueryAnchorAt(url, k);
      assert url[p - 2..p] == [url[k], url[k + 1]];
    }
    assert AnchoredAt(url, p, ExtractVideoId(url).value);
  }

  /** Whether the pattern matches at j depends only on the thirteen
      characters from j on: two URLs that agree on that window match at j
      alike, whatever they hold elsewhere. */
  lemma {:induction false} MatchAtDependsOnWindow(u1: string, u2: string, j: nat)
    requires j + 2 + IdLength <= |u1| && j + 2 + IdLength <= |u2|
    requires u1[j..j + 2 + IdLength] == u2[j..j + 2 + IdLength]
    ensures MatchAt(u1, j) == MatchAt(u2, j)
  {
    forall i | j <= i < j + 2 + IdLength
      ensures u1[i] == u2[i]
    {
      assert u1[i] == u1[j..j + 2 + IdLength][i - j];
      assert u2[i] == u2[j..j + 2 + IdLength][i - j];
    }
    assert u1[j + 1..j + 1 + IdLength] == u2[j + 1..j + 1 + IdLength];
    assert u1[j + 2..j + 2 + IdLength] == u2[j + 2..j + 2 + IdLength];
  }

  /** Nothing after the identifier matters: the URL cut right after the
      identifier, followed by anything at all, gives the same result. */
  lemma {:induction false} TextAfterTokenIgnored(url: string, k: nat, rest: string)
    requires IsLeftmostMatch(url, k)
    ensures var e := TokenStart(url, k) + IdLength;
      ExtractVideoId(url[..e] + rest) == ExtractVideoId(url)
  {
    var s := TokenStart(url, k);
    var e := s + IdLength;
    var u := url[..e] + rest;
    assert u[..e] == url[..e];
    assert u[k] == url[k];
    assert u[s..e] == url[s..e];
    if url[k] == '/' {
      assert PathAnchorAt(u, k);
    } else {
      assert u[k + 1] == url[k + 1];
      assert QueryAnchorAt(u, k);
    }
    forall j | 0 <= j < k
      ensures !MatchAt(u, j)
    {
      assert u[j..j + 2 + IdLength] == url[j..j + 2 + IdLength] by {
        assert u[j..j + 2 + IdLength] == u[..e][j..j + 2 + IdLength];
        assert url[j..j + 2 + IdLength] == url[..e][j..j + 2 + IdLength];
      }
      MatchAtDependsOnWindow(url, u, j);
    }
    assert Token(u, k) == Token(url, k);
    ExtractFindsLeftmost(u, k);
    ExtractFindsLeftmost(url, k);
  }

  /** The URL "/" + run, where run is eleven or more identifier
      characters, yields the first eleven of them: there is no end-of-token
      boundary. */
  lemma {:induction false} LongRunAfterSlash(run: string)
    requires IdLength <= |run| && AllIdChars(run)
    ensures ExtractVideoId("/" + run) == Ok(run[..IdLength])
  {
    var url := "/" + run;
    assert url[1..1 + IdLength] == run[..IdLength];
    assert PathAnchorAt(url, 0);
    ExtractFindsLeftmost(url, 0);
  }

  /** No match can start inside url[i..k] when it holds neither "v" nor "/". */
  lemma {:induction false} NoMatchWithoutAnchorChar(url: string, i: nat, k: nat)
    requires i <= k <= |url| && 'v' !in url[i..k] && '/' !in url[i..k]
    ensures forall j :: i <= j < k ==> !MatchAt(url, j)
  {
    forall j | i <= j < k
      ensures !MatchAt(url, j)
    {
      assert url[j] == url[i..k][j - i];
    }
  }

  /** A "/" at j is no match when one of the next eleven characters is
      outside the alphabet. */
  lemma {:induction false} SlashWithoutToken(url: string, j: nat, bad: nat)
    requires j < bad <= j + IdLength && bad < |url| && url[j] == '/' && !IsIdChar(url[bad])
    ensures !MatchAt(url, j)
  {
    if j + 1 + IdLength <= |url| {
      assert url[j + 1..j + 1 + IdLength][bad - j - 1] == url[bad];
    }
  }

  /** A short link: scheme, "//", host, "/" and the identifier. Neither
      slash of "//" is followed by a token, because the second slash and
      a character of the host break the run. */
  lemma {:induction false} ShortLinkShape(scheme: string, host: string, bad: nat, id: string)
    requires 'v' !in scheme && '/' !in scheme && 'v' !in host && '/' !in host
    requires bad < |host| && bad < IdLength - 1 && !IsIdChar(host[bad])
    requires |id| == IdLength && AllIdChars(id)
    ensures ExtractVideoId(scheme + "/" + "/" + host + "/" + id) == Ok(id)
  {
    var url := scheme + "/" + "/" + host + "/" + id;
    var s1 := |scheme|;
    var s2 := s1 + 2 + |host|;
    assert url[0..s1] == scheme;
    assert url[s1 + 2..s2] == host;
    NoMatchWithoutAnchorChar(url, 0, s1);
    NoMatchWithoutAnchorChar(url, s1 + 2, s2);
    assert url[s1 + 1] == '/';
    SlashWithoutToken(url, s1, s1 + 1);
    assert url[s1 + 2 + bad] == host[bad];
    SlashWithoutToken(url, s1 + 1, s1 + 2 + bad);
    assert url[s2 + 1..s2 + 1 + IdLength] == id;
    assert PathAnchorAt(url, s2);
    forall j | 0 <= j < s2
      ensures !MatchAt(url, j)
    {
      if j < s1 {
      } else if j == s1 || j == s1 + 1 {
      }
    }
    ExtractFindsLeftmost(url, s2);
  }

  /** A watch page: scheme, "//", host, "/", page name, "v=" and the
      identifier. The three slashes are followed too soon by a character
      outside the alphabet, so the match is the one after "v=". */
  lemma {:induction false} WatchPageShape(scheme: string, host: string, bad: nat, page: string, id: string)
    requires 'v' !in scheme && '/' !in scheme && 'v' !in host && '/' !in host && 'v' !in page && '/' !in page
    requires bad < |host| && bad < IdLength - 1 && !IsIdChar(host[bad])
    requires 0 < |page| < IdLength && !IsIdChar(page[|page| - 1])
    requires |id| == IdLength && AllIdChars(id)
    ensures ExtractVideoId(scheme + "/" + "/" + host + "/" + page + "v=" + id) == Ok(id)
  {
    var url := scheme + "/" + "/" + host + "/" + page + "v=" + id;
    var s1 := |scheme|;
    var s2 := s1 + 2 + |host|;
    var s3 := s2 + 1 + |page|;
    assert url[0..s1] == scheme;
    assert url[s1 + 2..s2] == host;
    assert url[s2 + 1..s3] == page;
    NoMatchWithoutAnchorChar(url, 0, s1);
    NoMatchWithoutAnchorChar(url, s1 + 2, s2);
    NoMatchWithoutAnchorChar(url, s2 + 1, s3);
    assert url[s1 + 1] == '/';
    SlashWithoutToken(url, s1, s1 + 1);
    assert url[s1 + 2 + bad] == host[bad];
    SlashWithoutToken(url, s1 + 1, s1 + 2 + bad);
    assert url[s3 - 1] == page[|page| - 1];
    SlashWithoutToken(url, s2, s3 - 1);
    assert url[s3 + 2..s3 + 2 + IdLength] == id;
    assert QueryAnchorAt(url, s3);
    forall j | 0 <= j < s3
      ensures !MatchAt(url, j)
    {
      if j < s1 {
      } else if j == s1 || j == s1 + 1 {
      } else if j < s2 {
      } else if j == s2 {
      }
    }
    ExtractFindsLeftmost(url, s3);
  }

  /** The identifier of the examples below is made of alphabet characters. */
  lemma ExampleIdChars()
    ensures AllIdChars("dQw4w9WgXcQ")
  {
    var id := "dQw4w9WgXcQ";
    forall k | 0 <= k < |id|
      ensures IsIdChar(id[k])
    {
      assert k in {0, 1, 2, 3, 4, 5, 6, 7, 8, 9, 10};
    }
  }

  lemma WatchPageUrlPieces()
    ensures "https://www.youtube.com/watch?v=dQw4w9WgXcQ"
         == "https:" + "/" + "/" + "www.youtube.com" + "/" + "watch?" + "v=" + "dQw4w9WgXcQ"
  {
  }

  lemma ShortLinkUrlPieces()
    ensures "https://youtu.be/dQw4w9WgXcQ" == "https:" + "/" + "/" + "youtu.be" + "/" + "dQw4w9WgXcQ"
  {
  }

  /** A watch-page URL: the slashes before "watch" are followed by "/",
      "." or "?" too soon, so the identifier after "v=" is found. */
  lemma WatchPageUrl()
    ensures ExtractVideoId("https://www.youtube.com/watch?v=dQw4w9WgXcQ") == Ok("dQw4w9WgXcQ")
  {
    ExampleIdChars();
    WatchPageUrlPieces();
    assert !IsIdChar("www.youtube.com"[3]) && !IsIdChar("watch?"[5]);
    WatchPageShape("https:", "www.youtube.com", 3, "watch?", "dQw4w9WgXcQ");
  }

  /** A short-link URL: the identifier after the last "/" is found. */
  lemma ShortLinkUrl()
    ensures ExtractVideoId("https://youtu.be/dQw4w9WgXcQ") == Ok("dQw4w9WgXcQ")
  {
    ExampleIdChars();
    ShortLinkUrlPieces();
    assert !IsIdChar("youtu.be"[5]);
    ShortLinkShape("https:", "youtu.be", 5, "dQw4w9WgXcQ");
  }

}
