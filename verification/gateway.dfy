/** The access gateway: which folders need a token, where a request carries
    its token (an `Authorization: Bearer <token>` header first, then a
    `token` query parameter), and whether the request is authorised for a
    folder. */
module Gateway {
  import opened Common
  import opened Base64Url
  import opened Token
  import opened Catalog

  /** The parts of a request the gateway reads: the headers, keyed by
      lower-cased name (header names are case-insensitive), and the query
      parameters. */
  datatype Request = Request(headers: map<string, string>, query: map<string, string>)

  /** `folder_requires_auth(folder_id)`: a folder that is not marked for
      children needs a token; an unknown id does not. */
  predicate FolderRequiresAuth(t: Tables, folderId: int) {
    folderId in t.folders && !t.folders[folderId].isKids
  }

  /** The token of a well-formed `Authorization` header: exactly two
      whitespace-separated words, the first `bearer` in any case. */
  function HeaderToken(req: Request): Option<string> {
    if "authorization" in req.headers && req.headers["authorization"] != "" then
      var parts := Words(req.headers["authorization"]);
      if |parts| == 2 && Lower(parts[0]) == "bearer" && Strip(parts[1]) != "" then Some(Strip(parts[1]))
      else None
    else None
  }

  /** The `token` query parameter, when it is not empty, stripped. */
  function QueryToken(req: Request): Option<string> {
    if "token" in req.query && req.query["token"] != "" then Some(Strip(req.query["token"])) else None
  }

  /** `extract_bearer_token(request)`: the header's token if it has one, else
      the query parameter's. What it returns never starts or ends with
      whitespace, and it returns nothing when the request carries neither. */
  function ExtractBearerToken(req: Request): (r: Option<string>)
    ensures r.Some? ==> "authorization" in req.headers || "token" in req.query
    ensures r.Some? && r.value != "" ==> !IsSpace(r.value[0]) && !IsSpace(r.value[|r.value| - 1])
  {
    if HeaderToken(req).Some? then HeaderToken(req) else QueryToken(req)
  }

  /** `check_request_authorized(request, folder_id)`: a non-empty token that
      verifies for the folder. */
  predicate CheckRequestAuthorized(req: Request, folderId: int, now: int, key: seq<byte>, mac: Mac) {
    match ExtractBearerToken(req)
    case None => false
    case Some(token) => token != "" && VerifyFolderToken(token, folderId, now, key, mac)
  }

  // ---------------------------------------------------------------------
  // Properties

  /** A well-formed bearer header wins over the query parameter, whatever the
      case of the scheme word and the whitespace around and between the
      words. */
  lemma {:induction false} HeaderPreferred(req: Request, lead: string, scheme: string, gap: string, token: string)
    requires forall i | 0 <= i < |lead| :: IsSpace(lead[i])
    requires Lower(scheme) == "bearer" && NoSpace(scheme)
    requires gap != [] && forall i | 0 <= i < |gap| :: IsSpace(gap[i])
    requires token != [] && NoSpace(token)
    requires "authorization" in req.headers && req.headers["authorization"] == lead + scheme + gap + token
    ensures ExtractBearerToken(req) == Some(token)
  {
    assert scheme != [] by {
      assert |Lower(scheme)| == |scheme|;
    }
    BearerWords(lead, scheme, gap, token);
    StripNoSpace(token);
  }

  /** The words of a header value of the bearer form. */
  lemma BearerWords(lead: string, scheme: string, gap: string, token: string)
    requires forall i | 0 <= i < |lead| :: IsSpace(lead[i])
    requires scheme != [] && NoSpace(scheme)
    requires gap != [] && forall i | 0 <= i < |gap| :: IsSpace(gap[i])
    requires token != [] && NoSpace(token)
    ensures Words(lead + scheme + gap + token) == [scheme, token]
  {
    WordsOfTwo(scheme, gap, token);
    assert lead + scheme + gap + token == lead + (scheme + gap + token);
    LeadingSpacesSkipped(lead, scheme + gap + token);
  }

  /** Whitespace before the first word does not change the words. */
  lemma {:induction false} LeadingSpacesSkipped(lead: string, s: string)
    requires forall i | 0 <= i < |lead| :: IsSpace(lead[i])
    ensures Words(lead + s) == Words(s)
  {
    if lead != [] {
      assert (lead + s)[1..] == lead[1..] + s;
      LeadingSpacesSkipped(lead[1..], s);
    } else {
      assert lead + s == s;
    }
  }

  /** Without a usable header the token comes from the query: a request with
      no `Authorization` header, or one whose value is not of the bearer
      form, falls back to `?token=`. */
  lemma QueryFallback(req: Request)
    requires "authorization" in req.headers ==>
      var parts := Words(req.headers["authorization"]);
      |parts| != 2 || Lower(parts[0]) != "bearer"
    ensures ExtractBearerToken(req) ==
      if "token" in req.query && req.query["token"] != "" then Some(Strip(req.query["token"])) else None
  {
  }

  /** A request that carries no token is never authorised. */
  lemma NoTokenNeverAuthorized(req: Request, folderId: int, now: int, key: seq<byte>, mac: Mac)
    requires "authorization" !in req.headers && "token" !in req.query
    ensures !CheckRequestAuthorized(req, folderId, now, key, mac)
  {
  }

  /** A query token of nothing but whitespace strips to the empty token, and
      is refused. */
  lemma BlankQueryTokenRefused(req: Request, folderId: int, now: int, key: seq<byte>, mac: Mac)
    requires "authorization" !in req.headers
    requires "token" in req.query && forall i | 0 <= i < |req.query["token"]| :: IsSpace(req.query["token"][i])
    ensures ExtractBearerToken(req).Some? ==> ExtractBearerToken(req) == Some("")
    ensures !CheckRequestAuthorized(req, folderId, now, key, mac)
  {
  }

  /** Two base64url texts joined by a dot: one word, never empty. */
  lemma DottedPairIsOneWord(a: string, b: string)
    requires AllAlphabet(a) && AllAlphabet(b)
    ensures a + "." + b != [] && NoSpace(a + "." + b)
  {
    var token := a + "." + b;
    forall i | 0 <= i < |token| ensures !IsSpace(token[i]) {
      if i < |a| {
        assert token[i] == a[i] && IsAlphabetChar(a[i]);
      } else if i > |a| {
        assert token[i] == b[i - |a| - 1] && IsAlphabetChar(b[i - |a| - 1]);
      }
    }
  }

  /** An issued token is one run of base64url characters and a dot: no
      whitespace, never empty. */
  lemma IssuedTokenIsOneWord(folderId: int, hours: int, now: int, key: seq<byte>, mac: Mac)
    ensures var token := MakeFolderToken(folderId, hours, now, key, mac);
            token != [] && NoSpace(token)
  {
    var payload := AsciiBytes(PayloadText(folderId, Expiry(now, hours)));
    B64UrlIsUnpadded(payload);
    B64UrlIsUnpadded(mac(key, payload));
    DottedPairIsOneWord(B64Url(payload), B64Url(mac(key, payload)));
  }

  /** A one-word token reaches the gateway unchanged, sent either way. */
  lemma OneWordTokenCarried(token: string, query: map<string, string>)
    requires token != [] && NoSpace(token)
    ensures ExtractBearerToken(Request(map["authorization" := "Bearer " + token], query)) == Some(token)
    ensures ExtractBearerToken(Request(map[], map["token" := token])) == Some(token)
  {
    BearerSchemeWord(token);
    HeaderPreferred(Request(map["authorization" := "Bearer " + token], query), [], "Bearer", " ", token);
    StripNoSpace(token);
  }

  lemma BearerSchemeWord(token: string)
    ensures Lower("Bearer") == "bearer" && NoSpace("Bearer")
    ensures forall i | 0 <= i < |" "| :: IsSpace(" "[i])
    ensures "Bearer " + token == [] + "Bearer" + " " + token
  {
  }

  /** A token issued for a folder authorises a request for that folder, as
      `Authorization: Bearer <token>` or as `?token=<token>`, until it
      expires. */
  lemma IssuedTokenAuthorizes(folderId: int, hours: int, issued: int, now: int, key: seq<byte>, mac: Mac,
                              query: map<string, string>)
    requires now <= Expiry(issued, hours)
    ensures var token := MakeFolderToken(folderId, hours, issued, key, mac);
      && CheckRequestAuthorized(Request(map["authorization" := "Bearer " + token], query), folderId, now, key, mac)
      && CheckRequestAuthorized(Request(map[], map["token" := token]), folderId, now, key, mac)
  {
    var token := MakeFolderToken(folderId, hours, issued, key, mac);
    IssuedTokenIsOneWord(folderId, hours, issued, key, mac);
    IssuedTokenVerifies(folderId, hours, issued, now, key, mac);
    OneWordTokenCarried(token, query);
  }

  /** A token for one folder authorises nothing in another. */
  lemma IssuedTokenOnlyForItsFolder(folderId: int, other: int, hours: int, issued: int, now: int,
                                    key: seq<byte>, mac: Mac, req: Request)
    requires other != folderId
    requires ExtractBearerToken(req) == Some(MakeFolderToken(folderId, hours, issued, key, mac))
    ensures !CheckRequestAuthorized(req, other, now, key, mac)
  {
    IssuedTokenBoundToFolder(folderId, other, hours, issued, now, key, mac);
  }
}
