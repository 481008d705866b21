/**
 * The request/response logic of the client's Helix calls, with the HTTP exchange taken
 * as data: the request the client would send, and the decoded response it is handed.
 */
module Helix {
  import opened Wrappers
  import opened Errors
  import opened Text

  /** One record of a response's `data` array (a user or a video), field name to text. */
  type Record = map<string, string>

  /** A query parameter value: httpx sends both kinds as their text. */
  datatype Param = Str(s: string) | Int(n: int)

  /** An HTTP request as the client would send it: method, URL, headers and query parameters. */
  datatype Request =
    | Get(url: string, headers: map<string, string>, params: map<string, Param>)
    | Post(url: string, headers: map<string, string>, params: map<string, Param>)

  /**
   * A decoded Helix response: its status code and its `data` member, `None` when the
   * JSON body has no `data` key.
   */
  datatype Response = Response(status: int, data: Option<seq<Record>>)

  /** What an API call did: the requests it sent, in order, and what it returned or raised. */
  datatype Exchange<T> = Exchange(sent: seq<Request>, result: Result<T, Error>)

  /** A decoded answer of the token endpoint: its status code and the members of its JSON body. */
  datatype TokenResponse = TokenResponse(status: int, body: map<string, string>)

  const ACCESS_TOKEN := "access_token"

  const DEFAULT_API_BASE := "https://api.twitch.tv/helix"
  const DEFAULT_AUTH_URL := "https://id.twitch.tv/oauth2/token"
  const MAX_PAGE_SIZE := 100

  const WIDTH_PLACEHOLDER := "{width}"
  const HEIGHT_PLACEHOLDER := "{height}"

  /** `raise_for_status` passes exactly the 2xx codes. */
  predicate IsSuccess(status: int) {
    200 <= status < 300
  }

  /** Python falsiness of the `data` member: missing (`None`) or an empty list. */
  predicate IsEmpty(data: Option<seq<Record>>) {
    data.None? || data.value == []
  }

  /** Python truthiness of the optional token: present and not the empty string. */
  predicate TokenSet(token: Option<string>) {
    token.Some? && token.value != ""
  }

  /**
   * The `first` page-size parameter of the videos request: `max(1, min(limit, 100))`.
   */
  function PageSize(limit: int): (n: int)
    ensures 1 <= n <= MAX_PAGE_SIZE
    ensures 1 <= limit <= MAX_PAGE_SIZE ==> n == limit
    ensures limit < 1 ==> n == 1
    ensures limit > MAX_PAGE_SIZE ==> n == MAX_PAGE_SIZE
  {
    var capped := if limit < MAX_PAGE_SIZE then limit else MAX_PAGE_SIZE;
    if 1 < capped then capped else 1
  }

  /**
   * The authentication headers of every Helix request. A missing or empty token fails
   * with AuthTokenNotSet; otherwise there are exactly two headers, the client id and
   * the bearer token.
   */
  function AuthHeaders(clientId: string, token: Option<string>): (r: Result<map<string, string>, Error>)
    ensures r.Failure? <==> !TokenSet(token)
    ensures r.Failure? ==> r.error == AuthTokenNotSet
    ensures r.Success? ==> r.value.Keys == {"Client-ID", "Authorization"}
    ensures r.Success? ==> r.value["Client-ID"] == clientId
    ensures r.Success? ==> r.value["Authorization"] == "Bearer " + token.value
  {
    if !TokenSet(token) then Failure(AuthTokenNotSet)
    else Success(map["Client-ID" := clientId, "Authorization" := "Bearer " + token.value])
  }

  /**
   * The client-credentials grant's answer as the client reads it: a non-2xx status raises
   * the HTTP error; otherwise the token is the `access_token` member, and a body without
   * one raises KeyError.
   */
  function AccessToken(response: TokenResponse): (r: Result<string, Error>)
    ensures r.Success? <==> IsSuccess(response.status) && ACCESS_TOKEN in response.body
    ensures r.Success? ==> r.value == response.body[ACCESS_TOKEN]
    ensures !IsSuccess(response.status) ==> r == Failure(HttpStatus(response.status))
    ensures IsSuccess(response.status) && ACCESS_TOKEN !in response.body ==> r == Failure(MissingKey(ACCESS_TOKEN))
  {
    if !IsSuccess(response.status) then Failure(HttpStatus(response.status))
    else if ACCESS_TOKEN !in response.body then Failure(MissingKey(ACCESS_TOKEN))
    else Success(response.body[ACCESS_TOKEN])
  }

  /**
   * `raise_for_status` is checked before anything else is read: in the token, lookup and
   * list readers alike, the HTTP error is raised exactly for a non-2xx status, whatever
   * the body holds.
   */
  lemma RaiseForStatus(status: int, data: Option<seq<Record>>, body: map<string, string>, notFound: string, key: string)
    ensures !IsSuccess(status) <==> AccessToken(TokenResponse(status, body)) == Failure(HttpStatus(status))
    ensures !IsSuccess(status) <==> FirstField(Response(status, data), notFound, key) == Failure(HttpStatus(status))
    ensures !IsSuccess(status) <==> VideoList(Response(status, data)) == Failure(HttpStatus(status))
  {
  }

  /** The token carried by an `Authorization` header value of the bearer scheme. */
  function BearerToken(header: string): Option<string> {
    if |header| >= 7 && header[..7] == "Bearer " then Some(header[7..]) else None
  }

  /** The Authorization header gives back exactly the session's token. */
  lemma AuthHeadersCarryToken(clientId: string, token: Option<string>)
    requires TokenSet(token)
    ensures AuthHeaders(clientId, token).Success?
    ensures BearerToken(AuthHeaders(clientId, token).value["Authorization"]) == token
  {
    var h := AuthHeaders(clientId, token).value["Authorization"];
    assert h[..7] == "Bearer ";
    assert h[7..] == token.value;
  }

  /**
   * The lookup rule shared by the user and the video lookups: a non-2xx status raises
   * the HTTP error; an empty or missing `data` raises the not-found error, which is
   * therefore never confused with a status failure; otherwise `key` is read from the
   * first record, which raises KeyError when that record lacks it.
   */
  function FirstField(response: Response, notFound: string, key: string): (r: Result<string, Error>)
    ensures !IsSuccess(response.status) ==> r == Failure(HttpStatus(response.status))
    ensures r == Failure(NotFound(notFound)) <==> IsSuccess(response.status) && IsEmpty(response.data)
    ensures r == Failure(MissingKey(key)) <==>
              IsSuccess(response.status) && !IsEmpty(response.data) && key !in response.data.value[0]
    ensures r.Success? <==>
              IsSuccess(response.status) && !IsEmpty(response.data) && key in response.data.value[0]
    ensures r.Success? ==> r.value == response.data.value[0][key]
  {
    if !IsSuccess(response.status) then Failure(HttpStatus(response.status))
    else if IsEmpty(response.data) then Failure(NotFound(notFound))
    else if key !in response.data.value[0] then Failure(MissingKey(key))
    else Success(response.data.value[0][key])
  }

  /**
   * The videos of a list response: a non-2xx status raises the HTTP error; otherwise
   * `data` is returned as the API ordered it, and a missing `data` reads as no videos.
   */
  function VideoList(response: Response): (r: Result<seq<Record>, Error>)
    ensures r.Failure? <==> !IsSuccess(response.status)
    ensures r.Failure? ==> r.error == HttpStatus(response.status)
    ensures r.Success? && response.data.Some? ==> r.value == response.data.value
    ensures r.Success? && response.data.None? ==> r.value == []
  {
    if !IsSuccess(response.status) then Failure(HttpStatus(response.status))
    else Success(response.data.GetOr([]))
  }

  /** Neither placeholder can be rebuilt from the text of a decimal integer. */
  lemma PlaceholdersDisjointFromDecimal(n: int)
    ensures Disjoint(WIDTH_PLACEHOLDER, Decimal(n))
    ensures Disjoint(HEIGHT_PLACEHOLDER, Decimal(n))
  {
    var d := Decimal(n);
    forall i | 0 <= i < |WIDTH_PLACEHOLDER| ensures WIDTH_PLACEHOLDER[i] !in d {
      var c := WIDTH_PLACEHOLDER[i];
      assert !IsDigit(c) && c != '-';
    }
    forall i | 0 <= i < |HEIGHT_PLACEHOLDER| ensures HEIGHT_PLACEHOLDER[i] !in d {
      var c := HEIGHT_PLACEHOLDER[i];
      assert !IsDigit(c) && c != '-';
    }
  }

  /**
   * The thumbnail URL for a template: every `{width}` replaced by `str(width)`, then
   * every `{height}` by `str(height)`. No placeholder survives, whatever the template and
   * the size.
   */
  function FillThumbnail(template: string, width: int, height: int): (url: string)
    ensures !Occurs(url, WIDTH_PLACEHOLDER) && !Occurs(url, HEIGHT_PLACEHOLDER)
  {
    var w, h := Decimal(width), Decimal(height);
    var once := Replace(template, WIDTH_PLACEHOLDER, w);
    PlaceholdersDisjointFromDecimal(width);
    PlaceholdersDisjointFromDecimal(height);
    ReplaceLeavesNone(template, WIDTH_PLACEHOLDER, w, WIDTH_PLACEHOLDER);
    ReplaceLeavesNone(once, HEIGHT_PLACEHOLDER, h, WIDTH_PLACEHOLDER);
    ReplaceLeavesNone(once, HEIGHT_PLACEHOLDER, h, HEIGHT_PLACEHOLDER);
    Replace(once, HEIGHT_PLACEHOLDER, h)
  }

  /** A template with neither placeholder is returned unchanged. */
  lemma {:induction false} FillThumbnailWithoutPlaceholders(template: string, width: int, height: int)
    requires !Occurs(template, WIDTH_PLACEHOLDER) && !Occurs(template, HEIGHT_PLACEHOLDER)
    ensures FillThumbnail(template, width, height) == template
  {
    ReplaceAbsent(template, WIDTH_PLACEHOLDER, Decimal(width));
    ReplaceAbsent(template, HEIGHT_PLACEHOLDER, Decimal(height));
  }

  /** A placeholder preceded by no `{` is the first one: it is replaced, the text before it kept. */
  lemma {:induction false} FillFirstPlaceholder(before: string, placeholder: string, after: string, rep: string)
    requires 0 < |placeholder| && placeholder[0] == '{'
    requires forall i :: 0 <= i < |before| ==> before[i] != '{'
    ensures Replace(before + placeholder + after, placeholder, rep) == before + rep + Replace(after, placeholder, rep)
  {
    var s := before + placeholder + after;
    forall i | 0 <= i < |before| ensures !OccursAt(s, placeholder, i) {
      assert s[i] == before[i];
      if i + |placeholder| <= |s| {
        assert s[i..i + |placeholder|][0] == s[i];
      }
    }
    ReplaceFirstOccurrence(before, placeholder, after, rep);
  }

  /** A string without `{` holds no placeholder. */
  lemma NoBraceNoPlaceholder(t: string, placeholder: string)
    requires 0 < |placeholder| && placeholder[0] == '{'
    requires forall i :: 0 <= i < |t| ==> t[i] != '{'
    ensures !Occurs(t, placeholder)
  {
    forall i | 0 <= i <= |t| - |placeholder| ensures !OccursAt(t, placeholder, i) {
      assert t[i..i + |placeholder|][0] == t[i];
    }
  }

  /** Between brace-free text, the only `{` is the one opening `{height}`, and `h` follows it. */
  lemma HeightBraces(middle: string, suffix: string)
    requires forall i :: 0 <= i < |middle| ==> middle[i] != '{'
    requires forall i :: 0 <= i < |suffix| ==> suffix[i] != '{'
    ensures var t := middle + HEIGHT_PLACEHOLDER + suffix;
            && t[|middle| + 1] == 'h'
            && forall k :: 0 <= k < |t| && k != |middle| ==> t[k] != '{'
  {
    var t := middle + HEIGHT_PLACEHOLDER + suffix;
    var m := |middle|;
    assert t[m + 1] == HEIGHT_PLACEHOLDER[1];
    forall k | 0 <= k < |t| && k != m ensures t[k] != '{' {
      if k < m {
        assert t[k] == middle[k];
      } else if k < m + |HEIGHT_PLACEHOLDER| {
        assert t[k] == HEIGHT_PLACEHOLDER[k - m];
      } else {
        assert t[k] == suffix[k - m - |HEIGHT_PLACEHOLDER|];
      }
    }
  }

  /** The `{height}` placeholder does not contain `{width}`, wherever it stands between brace-free text. */
  lemma HeightHoldsNoWidth(middle: string, suffix: string)
    requires forall i :: 0 <= i < |middle| ==> middle[i] != '{'
    requires forall i :: 0 <= i < |suffix| ==> suffix[i] != '{'
    ensures !Occurs(middle + HEIGHT_PLACEHOLDER + suffix, WIDTH_PLACEHOLDER)
  {
    var t := middle + HEIGHT_PLACEHOLDER + suffix;
    var m := |middle|;
    HeightBraces(middle, suffix);
    forall i | 0 <= i <= |t| - |WIDTH_PLACEHOLDER| ensures !OccursAt(t, WIDTH_PLACEHOLDER, i) {
      var window := t[i..i + |WIDTH_PLACEHOLDER|];
      if i == m {
        assert window[1] == t[m + 1];
      } else {
        assert window[0] == t[i];
      }
    }
  }

  /** The width step: the single `{width}` is replaced and the text after it, which holds none, kept. */
  lemma WidthStep(prefix: string, rest: string, w: string)
    requires forall i :: 0 <= i < |prefix| ==> prefix[i] != '{'
    requires !Occurs(rest, WIDTH_PLACEHOLDER)
    ensures Replace(prefix + WIDTH_PLACEHOLDER + rest, WIDTH_PLACEHOLDER, w) == prefix + w + rest
  {
    FillFirstPlaceholder(prefix, WIDTH_PLACEHOLDER, rest, w);
    ReplaceAbsent(rest, WIDTH_PLACEHOLDER, w);
  }

  /** The height step: the single `{height}`, after brace-free text, is replaced. */
  lemma HeightStep(before: string, suffix: string, h: string)
    requires forall i :: 0 <= i < |before| ==> before[i] != '{'
    requires forall i :: 0 <= i < |suffix| ==> suffix[i] != '{'
    ensures Replace(before + HEIGHT_PLACEHOLDER + suffix, HEIGHT_PLACEHOLDER, h) == before + h + suffix
  {
    FillFirstPlaceholder(before, HEIGHT_PLACEHOLDER, suffix, h);
    NoBraceNoPlaceholder(suffix, HEIGHT_PLACEHOLDER);
    ReplaceAbsent(suffix, HEIGHT_PLACEHOLDER, h);
  }

  /**
   * A template with one `{width}` and, after it, one `{height}`, the text around them
   * free of braces: the placeholders become the decimal width and height and the text
   * around them is kept.
   */
  lemma {:induction false} FillThumbnailBothPlaceholders(prefix: string, middle: string, suffix: string, width: int, height: int)
    requires forall i :: 0 <= i < |prefix| ==> prefix[i] != '{'
    requires forall i :: 0 <= i < |middle| ==> middle[i] != '{'
    requires forall i :: 0 <= i < |suffix| ==> suffix[i] != '{'
    ensures FillThumbnail(prefix + WIDTH_PLACEHOLDER + middle + HEIGHT_PLACEHOLDER + suffix, width, height)
         == prefix + Decimal(width) + middle + Decimal(height) + suffix
  {
    var w, h := Decimal(width), Decimal(height);
    var rest := middle + HEIGHT_PLACEHOLDER + suffix;
    var template := prefix + WIDTH_PLACEHOLDER + middle + HEIGHT_PLACEHOLDER + suffix;
    assert template == prefix + WIDTH_PLACEHOLDER + rest;
    HeightHoldsNoWidth(middle, suffix);
    WidthStep(prefix, rest, w);
    var before := prefix + w + middle;
    forall i | 0 <= i < |before| ensures before[i] != '{' {
      if |prefix| <= i < |prefix| + |w| {
        assert before[i] == w[i - |prefix|];
      }
    }
    assert prefix + w + rest == before + HEIGHT_PLACEHOLDER + suffix;
    HeightStep(before, suffix, h);
  }

  /**
   * The example of a template with both placeholders, filled at 640 by 360. The literals
   * are given as parameters fixed by the precondition rather than written into the
   * statement: a literal argument makes the verifier unfold Replace and Decimal
   * character by character, which makes the proof needlessly expensive.
   */
  lemma FillThumbnailExample(prefix: string, middle: string, suffix: string, width: int, height: int)
    requires prefix == "https://x/" && middle == "x" && suffix == ".jpg" && width == 640 && height == 360
    ensures FillThumbnail(prefix + WIDTH_PLACEHOLDER + middle + HEIGHT_PLACEHOLDER + suffix, width, height)
         == "https://x/640x360.jpg"
  {
    FillThumbnailBothPlaceholders(prefix, middle, suffix, width, height);
    assert Decimal(640) == "640" && Decimal(360) == "360";
  }
}
