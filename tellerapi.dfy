/**
 * The client side of the bank-data provider: the `Authorization` value it
 * sends (an HTTP Basic credential, section 2 of RFC 7617, whose user-id is
 * the access token and whose password is empty), the decision between a
 * payload and an error for each response, and the three account reads the
 * cache uses. The network itself is a parameter: a transport that answers
 * each request with a response or fails it with an exception.
 */
module TellerApi {
  import opened Wrappers
  import opened PyStrings
  import opened Values
  import Utf8
  import Base64

  const BaseUrl := "https://api.teller.io"

  /** The request `_get` sends: the URL, the `Authorization` and `Accept`
      headers, and the `count` query parameter when there is one. */
  datatype HttpRequest = HttpRequest(url: string, authorization: string, accept: string, count: Option<int>)

  /** A response as `requests` sees it: the status code, the body decoded as
      JSON when it is JSON, and the body as text. */
  datatype HttpResponse = HttpResponse(status: int, json: Option<Value>, text: string)

  /** `TellerAPIError`: the status code and the payload of the response. */
  datatype ApiError = ApiError(status: int, payload: Value)

  /** What `requests.get` comes back with: a response, or an exception of
      its own (a refused connection, a TLS failure, the 15-second timeout),
      which `_get` does not catch. */
  datatype Exchange = Answered(response: HttpResponse) | RequestRaised

  /** The provider, as seen from the client: one exchange per request. */
  type Transport = HttpRequest -> Exchange

  /** Why a read gave no payload: the provider answered with an error
      status (`TellerAPIError`), or the request itself raised. */
  datatype Failure = ProviderError(error: ApiError) | RequestFailed

  /** The position of the first `c` in `s`. */
  function FirstIndex(s: string, c: char): (i: nat)
    requires Contains(s, c)
    ensures i < |s| && s[i] == c && forall j :: 0 <= j < i ==> s[j] != c
  {
    if s[0] == c then 0
    else
      assert Contains(s[1..], c) by { var i :| 0 <= i < |s| && s[i] == c; assert s[1..][i - 1] == c; }
      var i := FirstIndex(s[1..], c);
      assert forall j :: 1 <= j < 1 + i ==> s[j] == s[1..][j - 1];
      1 + i
  }

  /** The part of `s` after its first `c`: `s.split(c, 1)[1]`. */
  function AfterFirst(s: string, c: char): (r: string)
    requires Contains(s, c)
    ensures exists i :: 0 <= i < |s| && s[i] == c && r == s[i + 1..] && forall j :: 0 <= j < i ==> s[j] != c
  {
    var i := FirstIndex(s, c);
    s[i + 1..]
  }

  /** The credential for a token of any kind `_bearer_to_basic` accepts:
      "Basic " + base64 of the UTF-8 bytes of "<user-id>:". */
  function BasicFor(userId: string): (r: string)
    ensures StartsWith(r, "Basic ")
  {
    "Basic " + Base64.Encode(Utf8.Encode(userId + ":"))
  }

  /** `_bearer_to_basic`: after trimming white space, a value that is
      already a Basic credential is sent as it is; otherwise a "bearer "
      prefix is dropped up to its first space and the rest becomes the
      user-id of a Basic credential. Prefixes compare case-insensitively. */
  function BearerToBasic(token: string): (r: string)
    ensures StartsWithIgnoreCase(Strip(token), "basic ") ==> r == Strip(token)
    ensures !StartsWithIgnoreCase(Strip(token), "basic ") && StartsWithIgnoreCase(Strip(token), "bearer ") ==>
      r == BasicFor(Strip(token)[7..])
    ensures !StartsWithIgnoreCase(Strip(token), "basic ") && !StartsWithIgnoreCase(Strip(token), "bearer ") ==>
      r == BasicFor(Strip(token))
  {
    var t := Strip(token);
    if StartsWithIgnoreCase(t, "basic ") then t
    else if StartsWithIgnoreCase(t, "bearer ") then
      BearerSpace(t);
      BasicFor(AfterFirst(t, ' '))
    else BasicFor(t)
  }

  /** In a value that starts with "bearer " the first space is the one
      right after the word. */
  lemma BearerSpace(t: string)
    requires StartsWithIgnoreCase(t, "bearer ")
    ensures Contains(t, ' ') && AfterFirst(t, ' ') == t[7..]
  {
    var low := LowerAscii(t[..7]);
    assert low[6] == ' ' && t[6] == t[..7][6];
    forall j | 0 <= j < 6 ensures t[j] != ' ' {
      assert t[j] == t[..7][j] && low[j] == LowerChar(t[j]) && low[j] != ' ';
    }
    assert Contains(t, ' ');
    var i :| 0 <= i < |t| && t[i] == ' ' && AfterFirst(t, ' ') == t[i + 1..] && forall j :: 0 <= j < i ==> t[j] != ' ';
    assert i == 6;
  }

  /** A Basic credential carries its user-id and an empty password: the
      base64 text decodes to the UTF-8 bytes of "<user-id>:" and those to
      the text itself. */
  lemma BasicForDecodes(userId: string)
    ensures var b := BasicFor(userId)[6..];
      && Base64.Decode(b) == Some(Utf8.Encode(userId + ":"))
      && Utf8.Decode(Utf8.Encode(userId + ":")) == Some(userId + ":")
  {
    var bytes := Utf8.Encode(userId + ":");
    assert BasicFor(userId)[6..] == Base64.Encode(bytes);
    Base64.DecodeEncode(bytes);
    Utf8.DecodeEncode(userId + ":");
  }

  /** Converting twice changes nothing: the result is already a Basic
      credential with no surrounding white space. */
  lemma BearerToBasicIdempotent(token: string)
    ensures BearerToBasic(BearerToBasic(token)) == BearerToBasic(token)
  {
    var r := BearerToBasic(token);
    if !StartsWithIgnoreCase(Strip(token), "basic ") {
      var u := if StartsWithIgnoreCase(Strip(token), "bearer ") then Strip(token)[7..] else Strip(token);
      BasicForUnpadded(u);
    } else {
      StripTwice(token);
    }
  }

  lemma BasicForUnpadded(userId: string)
    ensures Strip(BasicFor(userId)) == BasicFor(userId)
    ensures StartsWithIgnoreCase(BasicFor(userId), "basic ")
  {
    var bytes := Utf8.Encode(userId + ":");
    assert |bytes| >= 1;
    Base64.EncodeUnpadded(bytes);
    BasicUnpadded(Base64.Encode(bytes));
  }

  /** "Basic " ahead of text with no white space at its end. */
  lemma BasicUnpadded(b: string)
    requires b != [] && !IsSpace(b[0]) && !IsSpace(b[|b| - 1])
    ensures Strip("Basic " + b) == "Basic " + b
    ensures StartsWithIgnoreCase("Basic " + b, "basic ")
  {
    BasicPrefix(b);
    var r := "Basic " + b;
    assert r[|r| - 1] == b[|b| - 1];
    StripUnpadded(r);
  }

  lemma BasicPrefix(b: string)
    ensures StartsWithIgnoreCase("Basic " + b, "basic ")
  {
    var r := "Basic " + b;
    assert r[..6] == "Basic ";
    assert LowerAscii("Basic ") == "basic ";
  }

  lemma StripTwice(s: string)
    ensures Strip(Strip(s)) == Strip(s)
  {
    StripUnpadded(Strip(s));
  }

  /** `response.ok` in `requests`: no client (4xx) or server (5xx) error. */
  predicate IsOk(status: int) {
    !(400 <= status < 600)
  }

  /** `_handle_response`: the payload is the decoded JSON, or the text when
      the body is not JSON; an error status raises it with the status. */
  function HandleResponse(resp: HttpResponse): (r: Result<Value, ApiError>)
    ensures r.Ok? <==> IsOk(resp.status)
    ensures resp.json.Some? ==> (if r.Ok? then r.value else r.error.payload) == resp.json.value
    ensures resp.json.None? ==> (if r.Ok? then r.value else r.error.payload) == Str(resp.text)
    ensures r.Err? ==> r.error.status == resp.status
  {
    var payload := if resp.json.Some? then resp.json.value else Str(resp.text);
    if !IsOk(resp.status) then Err(ApiError(resp.status, payload)) else Ok(payload)
  }

  /** The request `_get` builds for a path: the provider's URL, the
      converted credential, JSON accepted, and the count when given. */
  function RequestFor(accessToken: string, path: string, count: Option<int>): (q: HttpRequest)
    ensures q.url == BaseUrl + path && q.authorization == BearerToBasic(accessToken)
    ensures q.accept == "application/json" && q.count == count
  {
    HttpRequest(BaseUrl + path, BearerToBasic(accessToken), "application/json", count)
  }

  /** `_get`: a GET to the provider with the converted credential. An
      exception of the request passes through; a response is handled as
      above, an error status becoming a provider error. */
  function Fetch(teller: Transport, accessToken: string, path: string, count: Option<int>): (r: Result<Value, Failure>)
    ensures var x := teller(RequestFor(accessToken, path, count));
      && (x.RequestRaised? <==> r == Err(RequestFailed))
      && (x.Answered? ==> (r.Ok? <==> IsOk(x.response.status)))
      && (x.Answered? && r.Ok? ==> r.value == HandleResponse(x.response).value)
      && (x.Answered? && r.Err? ==> r.error == ProviderError(HandleResponse(x.response).error))
  {
    match teller(RequestFor(accessToken, path, count))
    case RequestRaised => Err(RequestFailed)
    case Answered(resp) =>
      match HandleResponse(resp)
      case Ok(v) => Ok(v)
      case Err(e) => Err(ProviderError(e))
  }

  function ListAccounts(teller: Transport, accessToken: string): (r: Result<Value, Failure>)
    ensures r == Fetch(teller, accessToken, "/accounts", None)
  {
    Fetch(teller, accessToken, "/accounts", None)
  }

  function GetAccountBalances(teller: Transport, accessToken: string, accountId: string): (r: Result<Value, Failure>)
    ensures r == Fetch(teller, accessToken, "/accounts/" + accountId + "/balances", None)
  {
    Fetch(teller, accessToken, "/accounts/" + accountId + "/balances", None)
  }

  function GetAccountTransactions(teller: Transport, accessToken: string, accountId: string, count: Option<int>): (r: Result<Value, Failure>)
    ensures r == Fetch(teller, accessToken, "/accounts/" + accountId + "/transactions", count)
  {
    Fetch(teller, accessToken, "/accounts/" + accountId + "/transactions", count)
  }
}
