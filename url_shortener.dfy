/**
 * The URL shortener of PlayDocker/src/main.go: a global table from short URL
 * to original URL. A POST to /shorten stores the form's `url` under
 * "http://localhost:8080/<size+1>"; any other path is looked up as a short
 * URL and redirected permanently.
 */
module UrlShortener {
  import opened GoStrings

  /** The scheme and host every short URL starts with; a request path is what follows it. */
  const ShortHost: string := "http://localhost:8080"
  const ShortPrefix: string := ShortHost + "/"

  /** What a handler writes back. */
  datatype Response =
    | Shortened(shortUrl: string, body: string)   // 200 with "Shortened URL: <short>\n"
    | HttpError(status: nat, message: string)     // http.Error
    | Redirect(status: nat, location: string)     // http.Redirect

  /** The short URL handed out for the k-th entry (fmt.Sprintf with %d). */
  function ShortKey(k: nat): string
  {
    ShortPrefix + Decimal(k)
  }

  /** Every key of the table is the short URL of a number between 1 and its size,
      which is what the handler's numbering produces. */
  ghost predicate WellKeyed(m: map<string, string>)
  {
    forall key | key in m :: exists k :: 1 <= k <= |m| && key == ShortKey(k)
  }

  /** The next key is never in use yet, so shortening always adds an entry. */
  lemma FreshKey(m: map<string, string>)
    requires WellKeyed(m)
    ensures ShortKey(|m| + 1) !in m
  {
    if ShortKey(|m| + 1) in m {
      var k :| 1 <= k <= |m| && ShortKey(|m| + 1) == ShortKey(k);
      assert Decimal(k) == ShortKey(k)[|ShortPrefix|..];
      assert Decimal(|m| + 1) == ShortKey(|m| + 1)[|ShortPrefix|..];
      DecimalInjective(k, |m| + 1);
    }
  }

  /** A request path starts with '/', and no stored key does, so such a path is never found. */
  lemma SlashPathNotFound(m: map<string, string>, path: string)
    requires WellKeyed(m)
    requires |path| > 0 && path[0] == '/'
    ensures path !in m
  {
  }

  class Shortener {
    var urlMapping: map<string, string>

    ghost predicate Valid()
      reads this
    {
      WellKeyed(urlMapping)
    }

    /** make(map[string]string) */
    constructor ()
      ensures Valid() && urlMapping == map[]
    {
      urlMapping := map[];
    }

    /** shortenURLHandler (lines 15-34). */
    method Shorten(httpMethod: string, originalUrl: string) returns (resp: Response)
      requires Valid()
      modifies this
      ensures Valid()
      ensures httpMethod != "POST" ==>
        resp == HttpError(405, "Invalid request method") && urlMapping == old(urlMapping)
      ensures httpMethod == "POST" && originalUrl == "" ==>
        resp == HttpError(400, "URL is required") && urlMapping == old(urlMapping)
      ensures httpMethod == "POST" && originalUrl != "" ==>
        var key := ShortKey(|old(urlMapping)| + 1);
        key !in old(urlMapping)
        && urlMapping == old(urlMapping)[key := originalUrl]
        && |urlMapping| == |old(urlMapping)| + 1
        && resp == Shortened(key, "Shortened URL: " + key + "\n")
    {
      if httpMethod == "POST" {
        if originalUrl == "" {
          return HttpError(400, "URL is required");
        }
        var shortUrl := ShortPrefix + Decimal(|urlMapping| + 1);
        FreshKey(urlMapping);
        ghost var before := urlMapping;
        urlMapping := urlMapping[shortUrl := originalUrl];
        forall key | key in urlMapping
          ensures exists k :: 1 <= k <= |urlMapping| && key == ShortKey(k)
        {
          if key != shortUrl {
            var k :| 1 <= k <= |before| && key == ShortKey(k);
          }
        }
        resp := Shortened(shortUrl, "Shortened URL: " + shortUrl + "\n");
      } else {
        resp := HttpError(405, "Invalid request method");
      }
    }

    /** redirectHandler (lines 36-48): a lookup of the raw path that never changes the table. */
    method RedirectTo(path: string) returns (resp: Response)
      ensures path in urlMapping ==> resp == Redirect(308, urlMapping[path])
      ensures path !in urlMapping ==> resp == HttpError(404, "URL not found")
    {
      if path !in urlMapping {
        return HttpError(404, "URL not found");
      }
      resp := Redirect(308, urlMapping[path]);
    }

    /** The lookup the handler evidently intends: the request path is resolved
        against the host before the table is consulted. */
    method RedirectIntended(path: string) returns (resp: Response)
      ensures ShortHost + path in urlMapping ==> resp == Redirect(308, urlMapping[ShortHost + path])
      ensures ShortHost + path !in urlMapping ==> resp == HttpError(404, "URL not found")
    {
      var shortUrl := ShortHost + path;
      if shortUrl !in urlMapping {
        return HttpError(404, "URL not found");
      }
      resp := Redirect(308, urlMapping[shortUrl]);
    }
  }

  /** The path of the k-th short URL, resolved against the host, is that short URL again. */
  lemma RequestPathOfKey(k: nat)
    ensures ShortHost + ("/" + Decimal(k)) == ShortKey(k)
  {
    assert ShortHost + ("/" + Decimal(k)) == (ShortHost + "/") + Decimal(k);
  }

  /** Following a fresh short link: the handler as written answers 404 for the
      path "/1", while the intended lookup redirects to the stored URL. */
  method FollowFirstLink(url: string) returns (asWritten: Response, intended: Response)
    requires url != ""
    ensures asWritten == HttpError(404, "URL not found")
    ensures intended == Redirect(308, url)
  {
    var s := new Shortener();
    var _ := s.Shorten("POST", url);
    SlashPathNotFound(s.urlMapping, "/1");
    asWritten := s.RedirectTo("/1");
    assert Decimal(1) == "1";
    RequestPathOfKey(1);
    assert "/" + Decimal(1) == "/1";
    assert ShortHost + "/1" in s.urlMapping;
    intended := s.RedirectIntended("/1");
  }

  /** The same original URL shortened twice gets two different short URLs (the
      table does not deduplicate), and a redirect on a request path never reaches
      either of them. */
  method ShortenTwice(url: string) returns (first: Response, second: Response, size: nat, lookup: Response)
    requires url != ""
    ensures first == Shortened(ShortKey(1), "Shortened URL: " + ShortKey(1) + "\n")
    ensures second == Shortened(ShortKey(2), "Shortened URL: " + ShortKey(2) + "\n")
    ensures first.shortUrl != second.shortUrl
    ensures size == 2
    ensures lookup == HttpError(404, "URL not found")
  {
    var s := new Shortener();
    first := s.Shorten("POST", url);
    second := s.Shorten("POST", url);
    DecimalInjective(1, 2);
    assert Decimal(1) == ShortKey(1)[|ShortPrefix|..];
    assert Decimal(2) == ShortKey(2)[|ShortPrefix|..];
    size := |s.urlMapping|;
    SlashPathNotFound(s.urlMapping, "/1");
    lookup := s.RedirectTo("/1");
  }
}
