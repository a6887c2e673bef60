/**
 * The pure parts of the HTTP client wrapper (src/utils/http.rs): the bearer
 * header it attaches, the check `HeaderValue::from_str` makes, and how a
 * request URL is joined from the base URL and a path. Sending requests is not
 * modelled.
 */
module Http {
  import opened Wrappers
  import opened Text
  import opened Errors

  /**
   * A character `HeaderValue::from_str` accepts: tab, or any character from
   * space upwards except DEL. (Characters above ASCII are encoded as bytes of
   * 0x80 and above, which it accepts.)
   */
  predicate HeaderChar(c: char)
  {
    c == '\t' || (' ' <= c && c != '\U{7F}')
  }

  /** The text `HeaderValue::from_str` accepts; it never contains a line break, so it cannot end the header. */
  predicate ValidHeaderValue(s: string)
    ensures ValidHeaderValue(s) ==> forall i :: 0 <= i < |s| ==> s[i] != '\n' && s[i] != '\r'
  {
    forall i :: 0 <= i < |s| ==> HeaderChar(s[i])
  }

  /** The text of the Authorization header: `format!("Bearer {}", token)`. */
  function BearerValue(token: string): (r: string)
    ensures |r| == |token| + 7 && r[..7] == "Bearer " && r[7..] == token
  {
    "Bearer " + token
  }

  /** The bearer header is valid exactly when the token is. */
  lemma BearerValidIffToken(token: string)
    ensures ValidHeaderValue(BearerValue(token)) <==> ValidHeaderValue(token)
  {
    var b := BearerValue(token);
    if ValidHeaderValue(token) {
      forall i | 0 <= i < |b| ensures HeaderChar(b[i]) {
        if i >= 7 { assert b[i] == token[i - 7]; }
      }
    } else {
      var i :| 0 <= i < |token| && !HeaderChar(token[i]);
      assert b[i + 7] == token[i];
    }
  }

  /** A header map, as (name, value) pairs in insertion order. */
  type Headers = seq<(string, string)>

  datatype HttpClient = HttpClient(baseUrl: string, headers: Headers)

  /**
   * `HttpClient::new`: the bearer header is checked first, then the underlying
   * client is built; `builder` is the outcome of that build, with the error's text.
   */
  function NewClient(baseUrl: string, token: string, builder: Result<(), string>): (r: Result<HttpClient, ClientError>)
    ensures !ValidHeaderValue(token) ==> r == Err(HeaderInvalid)
    ensures ValidHeaderValue(token) && builder.Err? ==> r == Err(Reqwest(builder.error))
    ensures r.Ok? <==> ValidHeaderValue(token) && builder.Ok?
    ensures r.Ok? ==> r.value.baseUrl == baseUrl && r.value.headers == [("authorization", BearerValue(token))]
  {
    BearerValidIffToken(token);
    if !ValidHeaderValue(BearerValue(token)) then Err(HeaderInvalid)
    else if builder.Err? then Err(Reqwest(builder.error))
    else Ok(HttpClient(baseUrl, [("authorization", BearerValue(token))]))
  }

  /**
   * The URL `get` and `post` request:
   * `format!("{}/{}", base.trim_end_matches('/'), path.trim_start_matches('/'))`.
   * Both methods build it the same way, so they share this one definition.
   */
  function JoinUrl(base: string, path: string): (r: string)
    ensures |r| <= |base| + 1 + |path|
    ensures (base == [] || base[|base| - 1] != '/') ==> StartsWith(r, base + "/")
    ensures (path == [] || path[0] != '/') ==> EndsWith(r, "/" + path)
  {
    var b, p := TrimEndMatches(base, '/'), TrimStartMatches(path, '/');
    JoinParts(b, p);
    assert (base == [] || base[|base| - 1] != '/') ==> b == base;
    assert (path == [] || path[0] != '/') ==> p == path;
    b + "/" + p
  }

  lemma JoinParts(b: string, p: string)
    ensures (b + "/" + p)[..|b| + 1] == b + "/"
    ensures (b + "/" + p)[|b + "/" + p| - (|p| + 1)..] == "/" + p
  {
  }

  /** `base` is `stem` followed by `n` slashes, and `stem` does not end in a slash. */
  predicate SlashPadded(base: string, stem: string, n: nat)
  {
    base == stem + Repeat('/', n) && (stem == [] || stem[|stem| - 1] != '/')
  }

  /** `path` is `n` slashes followed by `stem`, and `stem` does not start with a slash. */
  predicate SlashPrefixed(path: string, stem: string, n: nat)
  {
    path == Repeat('/', n) + stem && (stem == [] || stem[0] != '/')
  }

  /**
   * The joined URL is the base without its trailing slashes, one slash, and the
   * path without its leading slashes.
   */
  lemma JoinUrlSeam(base: string, path: string)
    ensures exists b, k, p, m :: SlashPadded(base, b, k) && SlashPrefixed(path, p, m)
                                 && JoinUrl(base, path) == b + "/" + p
  {
    var b := TrimEndMatches(base, '/');
    var p := TrimStartMatches(path, '/');
    var k := |base| - |b|;
    var m := |path| - |p|;
    assert base == b + Repeat('/', k);
    assert path == Repeat('/', m) + p;
    assert SlashPadded(base, b, k) && SlashPrefixed(path, p, m);
  }

  /** Extra trailing slashes on the base, or extra leading slashes on the path, change nothing. */
  lemma JoinUrlIgnoresExtraSlashes(base: string, path: string, k: nat, m: nat)
    ensures JoinUrl(base + Repeat('/', k), Repeat('/', m) + path) == JoinUrl(base, path)
  {
    TrimEndMatchesPadded(base, '/', k);
    TrimStartMatchesPadded(path, '/', m);
  }

  /** Without slashes at the seam the URL is plain concatenation around one slash. */
  lemma JoinUrlPlain(base: string, path: string)
    requires base == [] || base[|base| - 1] != '/'
    requires path == [] || path[0] != '/'
    ensures JoinUrl(base, path) == base + "/" + path
  {
  }
}
