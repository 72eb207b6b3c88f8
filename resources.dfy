/**
 * The HTTP handlers in front of the cache: bearer-token authentication,
 * validation of the query parameters, ownership checks, and the session
 * scope that commits a request's changes to the store or rolls them all
 * back. The provider is a transport parameter, and the clock a parameter
 * `now`.
 */
module Resources {
  import opened Wrappers
  import opened PyStrings
  import opened Decimals
  import opened Values
  import opened Models
  import opened Repository
  import TellerApi

  const StatusOk := 200
  const BadRequest := 400
  const Unauthorized := 401
  const NotFound := 404
  const InternalError := 500
  const BadGateway := 502

  datatype Body =
    | Problem(title: string)
      /** `HTTPBadGateway`, its description naming the provider's status
          and payload. */
    | Upstream(error: TellerApi.ApiError)
    | Enrolled(userId: string, userName: Option<string>, accounts: seq<Payload>)
    | AccountList(accounts: seq<Payload>)
    | CachedBalance(accountId: string, cachedAt: Instant, balance: Payload)
    | CachedTransactions(accountId: string, transactions: seq<Payload>, latestCachedAt: Option<Instant>)
    | LiveBalance(accountId: string, balance: Payload)
    | LiveTransactions(accountId: string, transactions: seq<Payload>)

  datatype Response = Response(status: int, body: Body)

  /** An uncaught exception: the framework answers 500. */
  const Crash := Response(InternalError, Problem("500 Internal Server Error"))

  /** `HTTPNotFound()`: no such account, or one the caller does not own. */
  const Missing := Response(NotFound, Problem("404 Not Found"))

  // ---------------------------------------------------------------------
  // The Authorization header

  /** `parse_bearer_token`: the `Authorization` header must be present and
      non-empty, and split on white space into exactly the word "bearer"
      (in any case) and the token. */
  function ParseBearerToken(header: Option<string>): (r: Result<string, Response>)
    ensures header.None? || header.value == [] ==> r == Err(Response(Unauthorized, Problem("Authentication required")))
    ensures r.Err? ==> r.error.status == Unauthorized
    ensures r.Ok? ==> r.value != [] && NoSpace(r.value)
    ensures r.Ok? <==> header.Some? && header.value != [] && |Split(header.value)| == 2 && LowerAscii(Split(header.value)[0]) == "bearer"
  {
    if header.None? || header.value == [] then Err(Response(Unauthorized, Problem("Authentication required")))
    else
      var parts := Split(header.value);
      if |parts| != 2 || LowerAscii(parts[0]) != "bearer" then Err(Response(Unauthorized, Problem("Invalid authorization header")))
      else Ok(parts[1])
  }

  /** Every well-formed header yields its token: "<sp>Bearer<sp>token<sp>",
      with any white space around and between. */
  lemma ParseBearerTokenOf(lead: string, word: string, sep: string, token: string, trail: string)
    requires AllSpace(lead) && AllSpace(sep) && AllSpace(trail) && sep != []
    requires word != [] && NoSpace(word) && LowerAscii(word) == "bearer"
    requires token != [] && NoSpace(token)
    ensures ParseBearerToken(Some(lead + (word + (sep + (token + trail))))) == Ok(token)
  {
    SplitTwo(lead, word, sep, token, trail);
  }

  /** A header whose first word is not "bearer", in any case, is refused. */
  lemma ParseBearerTokenScheme(lead: string, word: string, sep: string, token: string, trail: string)
    requires AllSpace(lead) && AllSpace(sep) && AllSpace(trail) && sep != []
    requires word != [] && NoSpace(word) && LowerAscii(word) != "bearer"
    requires token != [] && NoSpace(token)
    ensures ParseBearerToken(Some(lead + (word + (sep + (token + trail))))) == Err(Response(Unauthorized, Problem("Invalid authorization header")))
  {
    SplitTwo(lead, word, sep, token, trail);
  }

  // ---------------------------------------------------------------------
  // Query parameters

  /** The parsed query string, one value per name. */
  type Params = map<string, string>

  /** Digits with single underscores between them, as Python's `int`
      accepts. */
  predicate IntLiteral(b: string) {
    && b != [] && IsDigit(b[0]) && IsDigit(b[|b| - 1])
    && (forall i :: 0 <= i < |b| ==> IsDigit(b[i]) || b[i] == '_')
    && (forall i :: 0 <= i < |b| - 1 ==> !(b[i] == '_' && b[i + 1] == '_'))
  }

  /** The digits of a literal, underscores dropped. */
  function DigitsOf(b: string): (d: string)
    requires forall i :: 0 <= i < |b| ==> IsDigit(b[i]) || b[i] == '_'
    ensures AllDigits(d) && |d| <= |b|
  {
    if b == [] then []
    else (if b[0] == '_' then [] else [b[0]]) + DigitsOf(b[1..])
  }

  /** The most digits `int` converts from a decimal string: CPython's
      default `sys.int_info.default_max_str_digits` (3.11 onwards); a
      longer literal raises `ValueError`. */
  const MaxIntDigits := 4300

  /** `int(s)` for a string: white space around, an optional sign, then a
      decimal literal of at most `MaxIntDigits` digits. None where Python
      raises `ValueError`. */
  function PyInt(s: string): (r: Option<int>)
    ensures r.Some? ==> var t := Strip(s);
      && t != [] && (IsDigit(t[0]) || t[0] == '-' || t[0] == '+')
      && (t[0] == '-' ==> r.value <= 0) && (t[0] != '-' ==> r.value >= 0)
  {
    PyIntStripped(Strip(s))
  }

  /** `int` of a string with no white space at its ends. */
  function PyIntStripped(t: string): (r: Option<int>)
    ensures r.Some? ==> t != [] && (IsDigit(t[0]) || t[0] == '-' || t[0] == '+')
    ensures r.Some? ==> (t[0] == '-' ==> r.value <= 0) && (t[0] != '-' ==> r.value >= 0)
  {
    if t != [] && (t[0] == '-' || t[0] == '+') then
      if !IntLiteral(t[1..]) || |DigitsOf(t[1..])| > MaxIntDigits then None
      else
        var n: int := DigitsValue(DigitsOf(t[1..]));
        Some(if t[0] == '-' then -n else n)
    else if !IntLiteral(t) || |DigitsOf(t)| > MaxIntDigits then None
    else Some(DigitsValue(DigitsOf(t)))
  }

  /** The shortest numeral of an integer, as `str(n)` writes it. */
  function Numeral(n: int): (s: string)
    ensures s != [] && !IsSpace(s[0]) && !IsSpace(s[|s| - 1])
  {
    if n < 0 then "-" + NatDigits(-n) else NatDigits(n)
  }

  lemma {:induction false} DigitsOfDigits(s: string)
    requires AllDigits(s)
    ensures DigitsOf(s) == s
  {
    if s != [] {
      DigitsOfDigits(s[1..]);
      assert [s[0]] + s[1..] == s;
    }
  }

  lemma NatDigitsLiteral(n: nat)
    ensures IntLiteral(NatDigits(n)) && DigitsValue(DigitsOf(NatDigits(n))) == n
  {
    DigitsOfDigits(NatDigits(n));
    NatDigitsValue(n);
  }

  /** `int(str(n)) == n`. */
  lemma PyIntOfNumeral(n: int)
    requires |NatDigits(if n < 0 then -n else n)| <= MaxIntDigits
    ensures PyIntStripped(Numeral(n)) == Some(n)
  {
    if n < 0 {
      NatDigitsLiteral(-n);
      SignedLiteral(NatDigits(-n), -n);
    } else {
      NatDigitsLiteral(n);
      UnsignedLiteral(NatDigits(n), n);
    }
  }

  /** A literal of digits after a minus sign is the negated value. */
  lemma SignedLiteral(d: string, n: nat)
    requires IntLiteral(d) && |DigitsOf(d)| <= MaxIntDigits && DigitsValue(DigitsOf(d)) == n
    ensures PyIntStripped("-" + d) == Some(-(n as int))
  {
    var t := "-" + d;
    assert t[0] == '-' && t[1..] == d;
  }

  /** A literal of digits is its value. */
  lemma UnsignedLiteral(d: string, n: nat)
    requires IntLiteral(d) && |DigitsOf(d)| <= MaxIntDigits && DigitsValue(DigitsOf(d)) == n
    ensures PyIntStripped(d) == Some(n)
  {
    assert IsDigit(d[0]);
  }

  /** `int(str(n)) == n`, also with white space around the numeral, for
      every integer of at most `MaxIntDigits` digits. */
  lemma PyIntNumeral(n: int, lead: string, trail: string)
    requires AllSpace(lead) && AllSpace(trail) && |NatDigits(if n < 0 then -n else n)| <= MaxIntDigits
    ensures PyInt(lead + Numeral(n) + trail) == Some(n)
  {
    StripPadded(lead, Numeral(n), trail);
    PyIntOfNumeral(n);
  }

  /** A numeral longer than `MaxIntDigits` digits is refused, signed or
      not, however it is padded. */
  lemma PyIntDigitLimit(d: string, lead: string, trail: string)
    requires AllDigits(d) && |d| > MaxIntDigits && AllSpace(lead) && AllSpace(trail)
    ensures PyInt(lead + d + trail) == None && PyInt(lead + ("-" + d) + trail) == None
  {
    StripPadded(lead, d, trail);
    StripPadded(lead, "-" + d, trail);
    LongLiteral(d);
  }

  lemma LongLiteral(d: string)
    requires AllDigits(d) && |d| > MaxIntDigits
    ensures PyIntStripped(d) == None && PyIntStripped("-" + d) == None
  {
    DigitsOfDigits(d);
    var t := "-" + d;
    assert t[0] == '-' && t[1..] == d;
  }

  /** A decimal point makes a string no integer. */
  lemma PyIntRejectsPoint(s: string)
    requires Contains(Strip(s), '.')
    ensures PyInt(s) == None
  {
    var t := Strip(s);
    var i :| 0 <= i < |t| && t[i] == '.';
    if t[0] == '-' || t[0] == '+' {
      assert t[1..][i - 1] == '.';
    }
  }

  /** The cached-transactions `limit`: 10 when absent, otherwise an
      integer clamped to [1, 100]; a value that is not an integer is a
      400. */
  function CachedLimit(params: Params): (r: Result<nat, Response>)
    ensures r.Ok? ==> 1 <= r.value <= 100
    ensures "limit" !in params ==> r == Ok(10)
    ensures "limit" in params ==> (r.Err? <==> PyInt(params["limit"]).None?)
    ensures r.Err? ==> r.error == Response(BadRequest, Problem("invalid-limit"))
  {
    if "limit" !in params then Ok(10)
    else match PyInt(params["limit"])
      case None => Err(Response(BadRequest, Problem("invalid-limit")))
      case Some(n) => Ok(if n < 1 then 1 else if n > 100 then 100 else n)
  }

  /** The clamp keeps integers already in range and moves the others to
      the nearer bound. */
  lemma CachedLimitClamp(params: Params, n: int)
    requires "limit" in params && PyInt(params["limit"]) == Some(n)
    ensures 1 <= n <= 100 ==> CachedLimit(params) == Ok(n)
    ensures n < 1 ==> CachedLimit(params) == Ok(1)
    ensures n > 100 ==> CachedLimit(params) == Ok(100)
  {
  }

  /** The live-transactions `count`: 10 when absent; otherwise an integer
      in 1..100. A value that is not an integer is refused by the
      framework's integer parameter reader; one out of range is refused
      here. */
  function LiveCount(params: Params): (r: Result<nat, Response>)
    ensures r.Ok? ==> 1 <= r.value <= 100
    ensures "count" !in params ==> r == Ok(10)
    ensures "count" in params ==> r == CountIn(PyInt(params["count"]))
  {
    if "count" !in params then Ok(10) else CountIn(PyInt(params["count"]))
  }

  /** A present `count`: an integer in 1..100; one out of range is a 400
      of its own. */
  function CountIn(n: Option<int>): (r: Result<nat, Response>)
    ensures r.Ok? <==> n.Some? && 1 <= n.value <= 100
    ensures r.Ok? ==> r.value == n.value
    ensures n.Some? && r.Err? ==> r.error == Response(BadRequest, Problem("invalid-count"))
    ensures r.Err? ==> r.error.status == BadRequest
  {
    match n
    case None => Err(Response(BadRequest, Problem("Invalid parameter")))
    case Some(k) => if k < 1 || k > 100 then Err(Response(BadRequest, Problem("invalid-count"))) else Ok(k)
  }

  // ---------------------------------------------------------------------
  // Authentication

  /** The outcome of authenticating a request: the one user holding the
      bearer token. No holder is a 401; several make `scalar_one_or_none`
      raise. */
  ghost function Authenticated(t: Tables, header: Option<string>): (r: Result<User, Response>)
    requires KeysMatch(t)
    ensures ParseBearerToken(header).Err? ==> r == Err(ParseBearerToken(header).error)
    ensures ParseBearerToken(header).Ok? ==> (
      var holders := TokenHolders(t.users, ParseBearerToken(header).value);
      && (holders == {} <==> r == Err(Response(Unauthorized, Problem("Unknown access token"))))
      && (|holders| >= 2 <==> r == Err(Crash))
      && (r.Ok? <==> |holders| == 1))
    ensures r.Ok? ==> (ParseBearerToken(header).Ok?
      && TokenHolders(t.users, ParseBearerToken(header).value) == {r.value.id}
      && r.value.id in t.users && t.users[r.value.id] == r.value)
    ensures r.Err? ==> r.error.status == Unauthorized || r.error == Crash
  {
    match ParseBearerToken(header)
    case Err(resp) => Err(resp)
    case Ok(token) =>
      var holders := TokenHolders(t.users, token);
      if holders == {} then Err(Response(Unauthorized, Problem("Unknown access token")))
      else if exists k :: k in holders && holders == {k} then
        var k :| k in holders && holders == {k};
        assert |holders| == 1;
        Ok(t.users[k])
      else
        assert |holders| >= 2 by { if |holders| == 1 { OneMember(holders); } }
        Err(Crash)
  }

  /** A set of one element is that element's singleton. */
  lemma OneMember(s: set<string>)
    requires |s| == 1
    ensures exists k :: k in s && s == {k}
  {
    var k :| k in s;
    assert |s - {k}| == 0;
    assert s - {k} == {};
    assert s == {k};
  }

  /** `authenticate`. */
  method Authenticate(store: Store, header: Option<string>) returns (r: Result<User, Response>)
    requires store.Valid()
    ensures r == Authenticated(store.State(), header)
  {
    var token := ParseBearerToken(header);
    if token.Err? {
      return Err(token.error);
    }
    var found := store.GetUserByToken(token.value);
    match found {
      case NoUser =>
        r := Err(Response(Unauthorized, Problem("Unknown access token")));
      case ManyUsers =>
        r := Err(Crash);
      case OneUser(u) =>
        r := Ok(u);
    }
  }

  /** The account exists and belongs to the user. */
  predicate Owns(t: Tables, userId: string, accountId: string) {
    accountId in t.accounts && t.accounts[accountId].userId == userId
  }

  // ---------------------------------------------------------------------
  // Enrollment

  datatype Enrollment = Enrollment(token: string, userId: string, name: Option<string>)

  /** `body.get("enrollment") or body`, where `body` is `req.media or {}`:
      the mapping the enrolment is read from. None where the body, or a
      truthy `"enrollment"` member, is not a dict and has no `.get`. */
  function EnrollmentPart(media: Value): (r: Option<Payload>)
    ensures !Truthy(media) ==> r == Some(map[])
    ensures Truthy(media) && !media.Obj? ==> r.None?
    ensures Truthy(media) && media.Obj? ==> (
      var inner := Get(media.fields, "enrollment");
      && (!Truthy(inner) ==> r == Some(media.fields))
      && (Truthy(inner) && inner.Obj? ==> r == Some(inner.fields))
      && (Truthy(inner) && !inner.Obj? ==> r.None?))
  {
    var body := Or(media, Obj(map[]));
    if !body.Obj? then None
    else
      var e := Or(Get(body.fields, "enrollment"), body);
      if !e.Obj? then None else Some(e.fields)
  }

  /** The enrolment the request body describes: the body, or its
      `"enrollment"` member, carries `accessToken` (or `access_token`) and
      a `user` object with an `id` and optionally a `name`. The 400 comes
      exactly when the token or the id is missing or falsy; the token and
      the id accepted are the ones the body carries; a member that is not
      an object has no `.get` and fails the request. */
  function ReadEnrollment(media: Value): (r: Result<Enrollment, Response>)
    ensures r.Ok? ==> r.value.token != [] && r.value.userId != []
    ensures r.Err? ==> r.error == Crash || r.error == Response(BadRequest, Problem("invalid-enrollment"))
    ensures EnrollmentPart(media).None? ==> r == Err(Crash)
    ensures EnrollmentPart(media).Some? ==> (
      var e := EnrollmentPart(media).value;
      var token := Or(Get(e, "accessToken"), Get(e, "access_token"));
      var user := Or(Get(e, "user"), Obj(map[]));
      && (!user.Obj? ==> r == Err(Crash))
      && (user.Obj? ==> (
            var id := Get(user.fields, "id");
            && (r == Err(Response(BadRequest, Problem("invalid-enrollment"))) <==> !Truthy(token) || !Truthy(id))
            && (r.Ok? <==> Truthy(token) && Truthy(id) && token.Str? && id.Str?)
            && (r.Ok? ==> r.value == Enrollment(token.s, id.s, Text(Get(user.fields, "name")))))))
  {
    match EnrollmentPart(media)
    case None => Err(Crash)
    case Some(e) =>
      var token := Or(Get(e, "accessToken"), Get(e, "access_token"));
      var user := Or(Get(e, "user"), Obj(map[]));
      if !user.Obj? then Err(Crash)
      else
        var id := Get(user.fields, "id");
        if !Truthy(token) || !Truthy(id) then Err(Response(BadRequest, Problem("invalid-enrollment")))
        else if !token.Str? || !id.Str? then Err(Crash)
        else Ok(Enrollment(token.s, id.s, Text(Get(user.fields, "name"))))
  }

  /** The body the Connect widget posts, nested under `"enrollment"`. */
  lemma ReadNestedEnrollment(token: string, userId: string, name: string, rest: Payload)
    requires token != [] && userId != []
    ensures var user := Obj(map["id" := Str(userId), "name" := Str(name)]);
      ReadEnrollment(Obj(rest["enrollment" := Obj(map["accessToken" := Str(token), "user" := user])]))
        == Ok(Enrollment(token, userId, Some(name)))
  {
  }

  /** The flat form with `access_token`, and no name. */
  lemma ReadFlatEnrollment(token: string, userId: string)
    requires token != [] && userId != []
    ensures ReadEnrollment(Obj(map["access_token" := Str(token), "user" := Obj(map["id" := Str(userId)])]))
      == Ok(Enrollment(token, userId, None))
  {
    var e := map["access_token" := Str(token), "user" := Obj(map["id" := Str(userId)])];
    assert "enrollment" !in e && "accessToken" !in e && "name" !in map["id" := Str(userId)];
  }

  /** Without a token, or without a user id (a missing `user` included),
      an enrolment is refused with a 400, whether it is the body itself or
      nested under `"enrollment"`. */
  lemma ReadEnrollmentRequires(e: Payload, rest: Payload)
    requires "enrollment" !in e && Or(Get(e, "user"), Obj(map[])).Obj?
    requires !Truthy(Or(Get(e, "accessToken"), Get(e, "access_token")))
          || !Truthy(Get(Or(Get(e, "user"), Obj(map[])).fields, "id"))
    ensures ReadEnrollment(Obj(e)) == Err(Response(BadRequest, Problem("invalid-enrollment")))
    ensures e != map[] ==>
      ReadEnrollment(Obj(rest["enrollment" := Obj(e)])) == Err(Response(BadRequest, Problem("invalid-enrollment")))
  {
    if e != map[] {
      assert EnrollmentPart(Obj(rest["enrollment" := Obj(e)])) == Some(e);
    }
  }

  /** The account rows written for the provider's accounts, in order, and
      their ids; None where a payload has no id and `upsert_account`
      raises. */
  function UpsertAccounts(t: Tables, userId: string, ps: seq<Payload>): (r: Option<(Tables, seq<string>)>)
    ensures r.Some? <==> forall i :: 0 <= i < |ps| ==> IdOf(Get(ps[i], "id")).Some?
    ensures r.Some? ==> |r.value.1| == |ps| && forall i :: 0 <= i < |ps| ==> r.value.1[i] == IdOf(Get(ps[i], "id")).value
    ensures r.Some? ==> r.value.0 == t.(accounts := r.value.0.accounts)
    decreases |ps|
  {
    if ps == [] then Some((t, []))
    else
      var init := ps[..|ps| - 1];
      var p := ps[|ps| - 1];
      assert forall i :: 0 <= i < |init| ==> init[i] == ps[i];
      match UpsertAccounts(t, userId, init)
      case None => None
      case Some((t1, ids)) =>
        match AccountUpserted(t1, userId, p)
        case Err(_) => None
        case Ok(t2) => Some((t2, ids + [IdOf(Get(p, "id")).value]))
  }

  /** Every enrolled id names an account of the user, stored under its
      id; no account is removed, and an account the provider did not list
      is untouched. */
  lemma {:induction false} UpsertAccountsOwned(t: Tables, userId: string, ps: seq<Payload>)
    requires UpsertAccounts(t, userId, ps).Some?
    ensures var (t2, ids) := UpsertAccounts(t, userId, ps).value;
      && (forall i :: 0 <= i < |ids| ==> ids[i] in t2.accounts && t2.accounts[ids[i]].userId == userId && t2.accounts[ids[i]].id == ids[i])
      && (forall k :: k in t.accounts ==> k in t2.accounts)
      && (forall k :: k in t2.accounts && k !in ids ==> k in t.accounts && t2.accounts[k] == t.accounts[k])
    decreases |ps|
  {
    if ps != [] {
      var init := ps[..|ps| - 1];
      UpsertAccountsOwned(t, userId, init);
      var (t1, ids1) := UpsertAccounts(t, userId, init).value;
      var (t2, ids) := UpsertAccounts(t, userId, ps).value;
      var id := IdOf(Get(ps[|ps| - 1], "id")).value;
      assert ids == ids1 + [id];
      assert t2.accounts == t1.accounts[id := AccountFromPayload(id, userId, ps[|ps| - 1])];
      forall i | 0 <= i < |ids| ensures ids[i] in t2.accounts && t2.accounts[ids[i]].userId == userId && t2.accounts[ids[i]].id == ids[i] {
        if i < |ids1| { assert ids[i] == ids1[i]; }
      }
    }
  }

  lemma {:induction false} UpsertAccountsConsistent(t: Tables, userId: string, ps: seq<Payload>)
    requires Consistent(t) && userId in t.users
    ensures UpsertAccounts(t, userId, ps).Some? ==> Consistent(UpsertAccounts(t, userId, ps).value.0)
    decreases |ps|
  {
    if ps != [] {
      var init := ps[..|ps| - 1];
      UpsertAccountsConsistent(t, userId, init);
      if UpsertAccounts(t, userId, init).Some? {
        AccountUpsertConsistent(UpsertAccounts(t, userId, init).value.0, userId, ps[|ps| - 1]);
      }
    }
  }

  /** Priming one account's balance: a provider error is logged and
      skipped; an exception of the request, or a payload the repository
      cannot read (not an object), fails the request. A balance that
      arrives is cached as the account's row. */
  function PrimeBalance(t: Tables, teller: TellerApi.Transport, token: string, accountId: string, now: Instant): (r: Option<Tables>)
    ensures r.Some? ==> r.value.users == t.users && r.value.accounts == t.accounts && r.value.transactions == t.transactions
    ensures var b := TellerApi.GetAccountBalances(teller, token, accountId);
      && (b.Err? && b.error.ProviderError? ==> r == Some(t))
      && (b == Err(TellerApi.RequestFailed) ==> r.None?)
      && (b.Ok? && !b.value.Obj? ==> r.None?)
      && (b.Ok? && b.value.Obj? ==>
            && r == Some(BalanceUpdated(t, accountId, b.value.fields, now))
            && accountId in r.value.balances
            && r.value.balances[accountId] == BalanceFromPayload(accountId, b.value.fields, now))
  {
    match TellerApi.GetAccountBalances(teller, token, accountId)
    case Err(failure) => if failure.ProviderError? then Some(t) else None
    case Ok(v) => if v.Obj? then Some(BalanceUpdated(t, accountId, v.fields, now)) else None
  }

  /** Priming one account's ten most recent transactions, likewise; the
      list that arrives replaces the account's cached transactions. */
  function PrimeTransactions(t: Tables, teller: TellerApi.Transport, token: string, accountId: string, now: Instant): (r: Option<Tables>)
    ensures r.Some? ==> r.value.users == t.users && r.value.accounts == t.accounts && r.value.balances == t.balances
    ensures var x := TellerApi.GetAccountTransactions(teller, token, accountId, Some(10));
      && (x.Err? && x.error.ProviderError? ==> r == Some(t))
      && (x == Err(TellerApi.RequestFailed) ==> r.None?)
      && (x.Ok? && AsPayloadList(x.value).None? ==> r.None?)
      && (x.Ok? && AsPayloadList(x.value).Some? && !IdsStorable(AsPayloadList(x.value).value) ==> r.None?)
      && (x.Ok? && AsPayloadList(x.value).Some? && IdsStorable(AsPayloadList(x.value).value) ==> (
            var ps := AsPayloadList(x.value).value;
            && r == Some(Replaced(t, accountId, ps, now))
            && OwnedIds(r.value.transactions, accountId)
               == BatchIds(Dedup(ps)) - (t.transactions.Keys - OwnedIds(t.transactions, accountId))))
  {
    match TellerApi.GetAccountTransactions(teller, token, accountId, Some(10))
    case Err(failure) => if failure.ProviderError? then Some(t) else None
    case Ok(v) =>
      match AsPayloadList(v)
      case None => None
      case Some(ps) =>
        if !IdsStorable(ps) then None
        else
          ReplacedOwnership(t, accountId, ps, now);
          Some(Replaced(t, accountId, ps, now))
  }

  /** Priming one account: the balance, then the transactions on the
      tables the balance left, each fetch's provider error caught on its
      own. A balance that arrives stays cached through the second fetch. */
  function PrimeOne(t: Tables, teller: TellerApi.Transport, token: string, accountId: string, now: Instant): (r: Option<Tables>)
    ensures r.Some? ==> r.value.users == t.users && r.value.accounts == t.accounts
    ensures var b := TellerApi.GetAccountBalances(teller, token, accountId);
      && (b.Err? && b.error.ProviderError? ==> r == PrimeTransactions(t, teller, token, accountId, now))
      && (b.Ok? && b.value.Obj? ==> r == PrimeTransactions(BalanceUpdated(t, accountId, b.value.fields, now), teller, token, accountId, now))
      && (b == Err(TellerApi.RequestFailed) || (b.Ok? && !b.value.Obj?) ==> r.None?)
      && (b.Ok? && r.Some? ==> accountId in r.value.balances && r.value.balances[accountId] == BalanceFromPayload(accountId, b.value.fields, now))
    ensures FetchesReadable(teller, token, accountId) ==> r.Some?
    ensures (TellerApi.GetAccountBalances(teller, token, accountId).Err? && TellerApi.GetAccountBalances(teller, token, accountId).error.ProviderError?
             && TellerApi.GetAccountTransactions(teller, token, accountId, Some(10)).Err?
             && TellerApi.GetAccountTransactions(teller, token, accountId, Some(10)).error.ProviderError?) ==> r == Some(t)
  {
    match PrimeBalance(t, teller, token, accountId, now)
    case None => None
    case Some(t1) => PrimeTransactions(t1, teller, token, accountId, now)
  }

  /** Each of the account's two fetches fails with a provider error or
      returns what the repository can read; no request raises. */
  predicate FetchesReadable(teller: TellerApi.Transport, token: string, accountId: string) {
    var b := TellerApi.GetAccountBalances(teller, token, accountId);
    var x := TellerApi.GetAccountTransactions(teller, token, accountId, Some(10));
    && (if b.Ok? then b.value.Obj? else b.error.ProviderError?)
    && (if x.Ok? then AsPayloadList(x.value).Some? && IdsStorable(AsPayloadList(x.value).value) else x.error.ProviderError?)
  }

  /** Priming every enrolled account in turn; None once one fails. */
  function Primed(t: Tables, teller: TellerApi.Transport, token: string, ids: seq<string>, now: Instant): (r: Option<Tables>)
    ensures r.Some? ==> r.value.users == t.users && r.value.accounts == t.accounts
    decreases |ids|
  {
    if ids == [] then Some(t)
    else
      match Primed(t, teller, token, ids[..|ids| - 1], now)
      case None => None
      case Some(t1) => PrimeOne(t1, teller, token, ids[|ids| - 1], now)
  }

  lemma {:induction false} PrimedFails(t: Tables, teller: TellerApi.Transport, token: string, ids: seq<string>, now: Instant, n: nat)
    requires n <= |ids| && Primed(t, teller, token, ids[..n], now).None?
    ensures Primed(t, teller, token, ids, now).None?
    decreases |ids|
  {
    if n < |ids| {
      var init := ids[..|ids| - 1];
      assert init[..n] == ids[..n];
      PrimedFails(t, teller, token, init, now, n);
    } else {
      assert ids[..n] == ids;
    }
  }

  /** Provider errors never stop the priming: when every fetch either
      fails with a provider error or returns a readable payload, every
      account is primed (`EnrollSucceeds` carries this to the endpoint). */
  lemma {:induction false} PrimedCompletes(t: Tables, teller: TellerApi.Transport, token: string, ids: seq<string>, now: Instant)
    requires forall i :: 0 <= i < |ids| ==> FetchesReadable(teller, token, ids[i])
    ensures Primed(t, teller, token, ids, now).Some?
    decreases |ids|
  {
    if ids != [] {
      var init := ids[..|ids| - 1];
      assert forall i :: 0 <= i < |init| ==> init[i] == ids[i];
      PrimedCompletes(t, teller, token, init, now);
    }
  }

  lemma {:induction false} PrimedConsistent(t: Tables, teller: TellerApi.Transport, token: string, ids: seq<string>, now: Instant)
    requires Consistent(t) && forall i :: 0 <= i < |ids| ==> ids[i] in t.accounts
    ensures Primed(t, teller, token, ids, now).Some? ==> Consistent(Primed(t, teller, token, ids, now).value)
    decreases |ids|
  {
    if ids != [] {
      var init := ids[..|ids| - 1];
      PrimedConsistent(t, teller, token, init, now);
      var t1 := Primed(t, teller, token, init, now);
      if t1.Some? {
        PrimeOneConsistent(t1.value, teller, token, ids[|ids| - 1], now);
      }
    }
  }

  /** Priming one existing account keeps the tables consistent. */
  lemma PrimeOneConsistent(t: Tables, teller: TellerApi.Transport, token: string, id: string, now: Instant)
    requires Consistent(t) && id in t.accounts
    ensures PrimeOne(t, teller, token, id, now).Some? ==> Consistent(PrimeOne(t, teller, token, id, now).value)
  {
    var b := TellerApi.GetAccountBalances(teller, token, id);
    if b.Ok? && b.value.Obj? {
      BalanceUpdateConsistent(t, id, b.value.fields, now);
    }
    var t2 := PrimeBalance(t, teller, token, id, now);
    var x := TellerApi.GetAccountTransactions(teller, token, id, Some(10));
    if t2.Some? && x.Ok? && AsPayloadList(x.value).Some? && IdsStorable(AsPayloadList(x.value).value) {
      ReplacedConsistent(t2.value, id, AsPayloadList(x.value).value, now);
    }
  }

  /** The enrolled accounts, serialised. */
  function SerializeAt(accounts: map<string, Account>, ids: seq<string>): (r: seq<Payload>)
    requires forall i :: 0 <= i < |ids| ==> ids[i] in accounts
    ensures |r| == |ids| && forall i :: 0 <= i < |ids| ==> r[i] == SerializeAccount(accounts[ids[i]])
  {
    seq(|ids|, i requires 0 <= i < |ids| => SerializeAccount(accounts[ids[i]]))
  }

  /** What a successful enrolment promises: the user row is upserted
      with the token and name, the response names that user, and every
      account it lists is cached for that user. */
  ghost predicate EnrolledAs(t: Tables, e: Enrollment, r: (Response, Tables)) {
    && r.0.body.Enrolled?
    && r.1.users == UserUpserted(t.users, e.userId, e.token, e.name)
    && r.0.body.userId == e.userId && r.0.body.userName == r.1.users[e.userId].name
    && forall i :: 0 <= i < |r.0.body.accounts| ==>
      Get(r.0.body.accounts[i], "id").Str? && Owns(r.1, e.userId, Get(r.0.body.accounts[i], "id").s)
  }

  /** The provider's accounts, as the handler reads them: None where the
      provider answers an error (not caught by the handler) or a value
      that is not a list of objects. */
  function ProviderAccounts(teller: TellerApi.Transport, token: string): (r: Option<seq<Payload>>)
    ensures TellerApi.ListAccounts(teller, token).Err? ==> r.None?
    ensures TellerApi.ListAccounts(teller, token).Ok? ==> r == AsPayloadList(TellerApi.ListAccounts(teller, token).value)
  {
    match TellerApi.ListAccounts(teller, token)
    case Err(_) => None
    case Ok(v) => AsPayloadList(v)
  }

  /** `EnrollmentResource.on_post` in one session: the response, and the
      tables the session leaves. Every failure after the body was read
      rolls the whole session back. */
  function EnrollSpec(t: Tables, teller: TellerApi.Transport, media: Value, now: Instant): (r: (Response, Tables))
    ensures r.0.status != StatusOk ==> r.1 == t
    ensures ReadEnrollment(media).Err? ==> r == (ReadEnrollment(media).error, t)
    ensures ReadEnrollment(media).Ok? && ProviderAccounts(teller, ReadEnrollment(media).value.token).None? ==> r == (Crash, t)
    ensures r.0.status == StatusOk ==> ReadEnrollment(media).Ok? && EnrolledAs(t, ReadEnrollment(media).value, r)
  {
    match ReadEnrollment(media)
    case Err(resp) => (resp, t)
    case Ok(e) => Enroll(t, teller, e, now)
  }

  /** The session once the body was read. */
  function Enroll(t: Tables, teller: TellerApi.Transport, e: Enrollment, now: Instant): (r: (Response, Tables))
    ensures r.0.status != StatusOk ==> r.1 == t
    ensures ProviderAccounts(teller, e.token).None? ==> r == (Crash, t)
    ensures r.0.status == StatusOk ==> EnrolledAs(t, e, r)
  {
    match ProviderAccounts(teller, e.token)
    case None => (Crash, t)
    case Some(ps) => EnrollAccounts(t, teller, e, ps, now)
  }

  /** The session once the provider listed its accounts. */
  function EnrollAccounts(t: Tables, teller: TellerApi.Transport, e: Enrollment, ps: seq<Payload>, now: Instant): (r: (Response, Tables))
    ensures r.0.status != StatusOk ==> r == (Crash, t)
    ensures var u := UpsertAccounts(t.(users := UserUpserted(t.users, e.userId, e.token, e.name)), e.userId, ps);
      r.0.status == StatusOk <==> u.Some? && Primed(u.value.0, teller, e.token, u.value.1, now).Some?
    ensures r.0.status == StatusOk ==> EnrolledAs(t, e, r) && |r.0.body.accounts| == |ps|
    ensures r.0.status == StatusOk ==> forall i :: 0 <= i < |ps| ==>
      IdOf(Get(ps[i], "id")).Some? && Get(r.0.body.accounts[i], "id") == Str(IdOf(Get(ps[i], "id")).value)
  {
    var t1 := t.(users := UserUpserted(t.users, e.userId, e.token, e.name));
    match UpsertAccounts(t1, e.userId, ps)
    case None => (Crash, t)
    case Some((t2, ids)) =>
      UpsertAccountsOwned(t1, e.userId, ps);
      match Primed(t2, teller, e.token, ids, now)
      case None => (Crash, t)
      case Some(t3) =>
        (Response(StatusOk, Enrolled(e.userId, t3.users[e.userId].name, SerializeAt(t3.accounts, ids))), t3)
  }

  /** A successful enrolment reports every account the provider listed, in
      the provider's order, under the provider's id. */
  lemma EnrollListsEveryAccount(t: Tables, teller: TellerApi.Transport, media: Value, now: Instant)
    requires EnrollSpec(t, teller, media, now).0.status == StatusOk
    ensures var e := ReadEnrollment(media).value; var ps := ProviderAccounts(teller, e.token);
      var body := EnrollSpec(t, teller, media, now).0.body;
      && ps.Some? && |body.accounts| == |ps.value|
      && forall i :: 0 <= i < |ps.value| ==>
        IdOf(Get(ps.value[i], "id")).Some? && Get(body.accounts[i], "id") == Str(IdOf(Get(ps.value[i], "id")).value)
  {
    var e := ReadEnrollment(media).value;
    var ps := ProviderAccounts(teller, e.token);
    assert EnrollSpec(t, teller, media, now) == Enroll(t, teller, e, now) == EnrollAccounts(t, teller, e, ps.value, now);
  }

  /** A provider error on one account does not stop the others: when the
      body names a user and token, the provider lists its accounts, every
      account has an id, and each fetch either answers something readable
      or fails with a provider error, the enrolment answers 200 and lists
      every account the provider listed. */
  lemma EnrollSucceeds(t: Tables, teller: TellerApi.Transport, media: Value, now: Instant)
    requires ReadEnrollment(media).Ok?
    requires var token := ReadEnrollment(media).value.token;
      && ProviderAccounts(teller, token).Some?
      && forall i :: 0 <= i < |ProviderAccounts(teller, token).value| ==>
           var p := ProviderAccounts(teller, token).value[i];
           IdOf(Get(p, "id")).Some? && FetchesReadable(teller, token, IdOf(Get(p, "id")).value)
    ensures var r := EnrollSpec(t, teller, media, now);
      && r.0.status == StatusOk
      && EnrolledAs(t, ReadEnrollment(media).value, r)
      && |r.0.body.accounts| == |ProviderAccounts(teller, ReadEnrollment(media).value.token).value|
  {
    var e := ReadEnrollment(media).value;
    var ps := ProviderAccounts(teller, e.token).value;
    EnrollAccountsSucceeds(t, teller, e, ps, now);
    assert EnrollSpec(t, teller, media, now) == EnrollAccounts(t, teller, e, ps, now);
    EnrollListsEveryAccount(t, teller, media, now);
  }

  /** The same once the provider listed its accounts. */
  lemma EnrollAccountsSucceeds(t: Tables, teller: TellerApi.Transport, e: Enrollment, ps: seq<Payload>, now: Instant)
    requires forall i :: 0 <= i < |ps| ==>
      IdOf(Get(ps[i], "id")).Some? && FetchesReadable(teller, e.token, IdOf(Get(ps[i], "id")).value)
    ensures EnrollAccounts(t, teller, e, ps, now).0.status == StatusOk
  {
    var t1 := t.(users := UserUpserted(t.users, e.userId, e.token, e.name));
    var (t2, ids) := UpsertAccounts(t1, e.userId, ps).value;
    PrimedCompletes(t2, teller, e.token, ids, now);
  }

  /** An enrolment leaves consistent tables consistent. */
  lemma EnrollConsistent(t: Tables, teller: TellerApi.Transport, media: Value, now: Instant)
    requires Consistent(t)
    ensures Consistent(EnrollSpec(t, teller, media, now).1)
  {
    if ReadEnrollment(media).Ok? {
      var e := ReadEnrollment(media).value;
      var ps := ProviderAccounts(teller, e.token);
      if ps.Some? {
        EnrollAccountsConsistent(t, teller, e, ps.value, now);
      }
    }
  }

  lemma EnrollAccountsConsistent(t: Tables, teller: TellerApi.Transport, e: Enrollment, ps: seq<Payload>, now: Instant)
    requires Consistent(t)
    ensures Consistent(EnrollAccounts(t, teller, e, ps, now).1)
  {
    var t1 := t.(users := UserUpserted(t.users, e.userId, e.token, e.name));
    var r := UpsertAccounts(t1, e.userId, ps);
    if r.Some? {
      UpsertAccountsConsistent(t1, e.userId, ps);
      UpsertAccountsOwned(t1, e.userId, ps);
      PrimedConsistent(r.value.0, teller, e.token, r.value.1, now);
    }
  }

  /** `EnrollmentResource.on_post` on the session's store: the user, then
      the provider's accounts, then one balance and ten transactions per
      account. A failure restores the snapshot taken when the session
      opened. */
  method PostEnrollment(store: Store, teller: TellerApi.Transport, media: Value, now: Instant) returns (resp: Response)
    requires store.Valid()
    modifies store
    ensures store.Valid()
    ensures (resp, store.State()) == EnrollSpec(old(store.State()), teller, media, now)
  {
    var read := ReadEnrollment(media);
    if read.Err? {
      return read.error;
    }
    resp := EnrollSession(store, teller, read.value, now);
  }

  /** The session scope of the enrolment. */
  method EnrollSession(store: Store, teller: TellerApi.Transport, e: Enrollment, now: Instant) returns (resp: Response)
    requires store.Valid()
    modifies store
    ensures store.Valid()
    ensures (resp, store.State()) == Enroll(old(store.State()), teller, e, now)
  {
    var snapshot := store.State();
    var user := store.UpsertUser(e.userId, e.token, e.name);
    var listed := ProviderAccounts(teller, e.token);
    if listed.None? {
      store.Restore(snapshot);
      return Crash;
    }
    resp := EnrollListed(store, teller, e, listed.value, now, snapshot);
  }

  /** The two loops of the enrolment, once the provider listed its
      accounts and the user row is written. */
  method EnrollListed(store: Store, teller: TellerApi.Transport, e: Enrollment, ps: seq<Payload>, now: Instant, snapshot: Tables)
    returns (resp: Response)
    requires store.Valid() && Consistent(snapshot)
    requires store.State() == snapshot.(users := UserUpserted(snapshot.users, e.userId, e.token, e.name))
    modifies store
    ensures store.Valid()
    ensures (resp, store.State()) == EnrollAccounts(snapshot, teller, e, ps, now)
  {
    var ids := StoreAccounts(store, e.userId, ps);
    if ids.None? {
      store.Restore(snapshot);
      return Crash;
    }
    UpsertAccountsOwned(snapshot.(users := UserUpserted(snapshot.users, e.userId, e.token, e.name)), e.userId, ps);
    var primed := PrimeAccounts(store, teller, e.token, ids.value, now);
    if !primed {
      store.Restore(snapshot);
      return Crash;
    }
    resp := Response(StatusOk, Enrolled(e.userId, store.users[e.userId].name, SerializeAt(store.accounts, ids.value)));
  }

  /** The first loop of the enrolment: one `upsert_account` per provider
      payload. */
  method StoreAccounts(store: Store, userId: string, ps: seq<Payload>) returns (ids: Option<seq<string>>)
    requires store.Valid() && userId in store.users
    modifies store
    ensures store.Valid()
    ensures ids.None? ==> UpsertAccounts(old(store.State()), userId, ps).None?
    ensures ids.Some? ==> UpsertAccounts(old(store.State()), userId, ps) == Some((store.State(), ids.value))
  {
    ghost var t1 := store.State();
    var done: seq<string> := [];
    var i := 0;
    while i < |ps|
      invariant 0 <= i <= |ps|
      invariant store.Valid() && userId in store.users
      invariant UpsertAccounts(t1, userId, ps[..i]) == Some((store.State(), done))
    {
      assert ps[..i + 1][..i] == ps[..i];
      var account := store.UpsertAccount(userId, ps[i]);
      if account.Err? {
        assert !(forall j :: 0 <= j < |ps| ==> IdOf(Get(ps[j], "id")).Some?);
        return None;
      }
      done := done + [account.value.id];
      i := i + 1;
    }
    assert ps[..i] == ps;
    ids := Some(done);
  }

  /** The second loop of the enrolment: each account's balance, then its
      transactions. False where the request fails. */
  method PrimeAccounts(store: Store, teller: TellerApi.Transport, token: string, ids: seq<string>, now: Instant) returns (ok: bool)
    requires store.Valid() && forall i :: 0 <= i < |ids| ==> ids[i] in store.accounts
    modifies store
    ensures store.Valid()
    ensures !ok ==> Primed(old(store.State()), teller, token, ids, now).None?
    ensures ok ==> Primed(old(store.State()), teller, token, ids, now) == Some(store.State())
  {
    ghost var t2 := store.State();
    var j := 0;
    while j < |ids|
      invariant 0 <= j <= |ids|
      invariant store.Valid()
      invariant Primed(t2, teller, token, ids[..j], now) == Some(store.State())
    {
      assert ids[..j + 1][..j] == ids[..j];
      var id := ids[j];
      var step := PrimeAccount(store, teller, token, id, now);
      if !step {
        PrimedFails(t2, teller, token, ids, now, j + 1);
        return false;
      }
      j := j + 1;
    }
    assert ids[..j] == ids;
    ok := true;
  }

  /** One pass of the second loop. A provider error is skipped; an
      exception of the request, or a payload that is not what the
      repository reads, fails the request. */
  method PrimeAccount(store: Store, teller: TellerApi.Transport, token: string, id: string, now: Instant) returns (ok: bool)
    requires store.Valid() && id in store.accounts
    modifies store
    ensures store.Valid() && store.accounts == old(store.accounts)
    ensures !ok ==> PrimeOne(old(store.State()), teller, token, id, now).None?
    ensures ok ==> PrimeOne(old(store.State()), teller, token, id, now) == Some(store.State())
  {
    var balance := TellerApi.GetAccountBalances(teller, token, id);
    if balance.Err? && balance.error.RequestFailed? {
      return false;
    }
    if balance.Ok? {
      if !balance.value.Obj? {
        return false;
      }
      var row := store.UpdateBalance(id, balance.value.fields, now);
    }
    var fetched := TellerApi.GetAccountTransactions(teller, token, id, Some(10));
    if fetched.Err? && fetched.error.RequestFailed? {
      return false;
    }
    if fetched.Ok? {
      var payloads := AsPayloadList(fetched.value);
      if payloads.None? {
        return false;
      }
      var rows := store.ReplaceTransactions(id, payloads.value, now);
      if rows.None? {
        return false;
      }
    }
    ok := true;
  }

  // ---------------------------------------------------------------------
  // Reading the cache

  /** The serialised accounts, in order. */
  function SerializeRows(rows: seq<Account>): (r: seq<Payload>)
    ensures |r| == |rows| && forall i :: 0 <= i < |rows| ==> r[i] == SerializeAccount(rows[i])
  {
    seq(|rows|, i requires 0 <= i < |rows| => SerializeAccount(rows[i]))
  }

  /** `rows` are all of the user's accounts, each once, ordered by name. */
  ghost predicate ByName(t: Tables, userId: string, rows: seq<Account>) {
    && AccountsSorted(rows)
    && (forall i :: 0 <= i < |rows| ==> rows[i].id in t.accounts && t.accounts[rows[i].id] == rows[i] && rows[i].userId == userId)
    && (forall i, j :: 0 <= i < j < |rows| ==> rows[i].id != rows[j].id)
    && |rows| == |AccountsOf(t, userId)|
  }

  /** `rows` are the account's `limit` newest transactions, newest first:
      every row of the account that is left out is no newer than any row
      kept. */
  ghost predicate NewestFirst(txs: map<string, Transaction>, accountId: string, limit: nat, rows: seq<Transaction>) {
    && TransactionsSorted(rows)
    && |rows| == (if |OwnedIds(txs, accountId)| < limit then |OwnedIds(txs, accountId)| else limit)
    && (forall i :: 0 <= i < |rows| ==> rows[i].id in txs && txs[rows[i].id] == rows[i] && rows[i].accountId == accountId)
    && (forall i, j :: 0 <= i < j < |rows| ==> rows[i].id != rows[j].id)
    && (forall k, i :: k in OwnedIds(txs, accountId) && 0 <= i < |rows| && (forall j :: 0 <= j < |rows| ==> rows[j].id != k) ==>
         Newer(rows[i], txs[k]))
  }

  /** `AccountsResource.on_get`: the caller's accounts by name. */
  method GetAccounts(store: Store, header: Option<string>) returns (resp: Response, ghost rows: seq<Account>)
    requires store.Valid()
    ensures Authenticated(store.State(), header).Err? ==> resp == Authenticated(store.State(), header).error
    ensures resp.status == StatusOk <==> Authenticated(store.State(), header).Ok?
    ensures resp.status == StatusOk ==>
      resp.body == AccountList(SerializeRows(rows)) && ByName(store.State(), Authenticated(store.State(), header).value.id, rows)
  {
    var auth := Authenticate(store, header);
    if auth.Err? {
      return auth.error, [];
    }
    var accounts := store.ListAccounts(auth.value.id);
    rows := accounts;
    resp := Response(StatusOk, AccountList(SerializeRows(accounts)));
  }

  /** `CachedBalanceResource.on_get`: the cached balance of one of the
      caller's accounts. An account of another user looks missing. */
  method GetCachedBalance(store: Store, header: Option<string>, accountId: string) returns (resp: Response)
    requires store.Valid()
    ensures Authenticated(store.State(), header).Err? ==> resp == Authenticated(store.State(), header).error
    ensures Authenticated(store.State(), header).Ok? ==> (
      var t := store.State();
      if !Owns(t, Authenticated(t, header).value.id, accountId) || accountId !in t.balances then resp == Missing
      else resp == Response(StatusOk, CachedBalance(accountId, t.balances[accountId].cachedAt, t.balances[accountId].raw)))
  {
    var auth := Authenticate(store, header);
    if auth.Err? {
      return auth.error;
    }
    var account := store.GetAccount(accountId);
    if account.None? || account.value.userId != auth.value.id {
      return Missing;
    }
    if accountId !in store.balances {
      return Missing;
    }
    var balance := store.balances[accountId];
    resp := Response(StatusOk, CachedBalance(account.value.id, balance.cachedAt, balance.raw));
  }

  /** `CachedTransactionsResource.on_get`: the `limit` newest cached
      transactions of one of the caller's accounts, and when the newest of
      them was cached. The limit is checked before the caller. */
  method GetCachedTransactions(store: Store, header: Option<string>, params: Params, accountId: string)
    returns (resp: Response, ghost rows: seq<Transaction>)
    requires store.Valid()
    ensures CachedLimit(params).Err? ==> resp == CachedLimit(params).error
    ensures CachedLimit(params).Ok? && Authenticated(store.State(), header).Err? ==> resp == Authenticated(store.State(), header).error
    ensures CachedLimit(params).Ok? && Authenticated(store.State(), header).Ok? ==> (
      var t := store.State();
      if !Owns(t, Authenticated(t, header).value.id, accountId) then resp == Missing
      else
        && NewestFirst(t.transactions, accountId, CachedLimit(params).value, rows)
        && resp == Response(StatusOk, CachedTransactions(accountId, Raws(rows), if rows == [] then None else Some(rows[0].cachedAt))))
  {
    var limit := CachedLimit(params);
    if limit.Err? {
      return limit.error, [];
    }
    var auth := Authenticate(store, header);
    if auth.Err? {
      return auth.error, [];
    }
    var account := store.GetAccount(accountId);
    if account.None? || account.value.userId != auth.value.id {
      return Missing, [];
    }
    var txs := store.ListTransactions(account.value.id, limit.value);
    rows := txs;
    resp := Response(StatusOk, CachedTransactions(account.value.id, Raws(txs), if txs == [] then None else Some(txs[0].cachedAt)));
  }

  /** The stored payloads of the rows, in order. */
  function Raws(rows: seq<Transaction>): (r: seq<Payload>)
    ensures |r| == |rows| && forall i :: 0 <= i < |rows| ==> r[i] == rows[i].raw
  {
    seq(|rows|, i requires 0 <= i < |rows| => rows[i].raw)
  }

  // ---------------------------------------------------------------------
  // Refreshing from the provider

  /** `LiveBalanceResource.on_get` in one session: fetch the balance with
      the caller's own token, cache it, and return it. A provider error is
      a 502, an exception of the request a 500; a failure leaves the
      tables as they were. */
  ghost function LiveBalanceSpec(t: Tables, header: Option<string>, accountId: string, teller: TellerApi.Transport, now: Instant): (r: (Response, Tables))
    requires KeysMatch(t)
    ensures r.0.status != StatusOk ==> r.1 == t
    ensures Authenticated(t, header).Err? ==> r.0 == Authenticated(t, header).error
    ensures Authenticated(t, header).Ok? && !Owns(t, Authenticated(t, header).value.id, accountId) ==> r.0 == Missing
    ensures Authenticated(t, header).Ok? && Owns(t, Authenticated(t, header).value.id, accountId) ==> (
      var fetched := TellerApi.GetAccountBalances(teller, Authenticated(t, header).value.accessToken, accountId);
      && (fetched.Err? && fetched.error.ProviderError? ==> r.0 == Response(BadGateway, Upstream(fetched.error.error)))
      && (fetched == Err(TellerApi.RequestFailed) ==> r.0 == Crash)
      && (fetched.Ok? && fetched.value.Obj? ==>
            r == (Response(StatusOk, LiveBalance(accountId, fetched.value.fields)), BalanceUpdated(t, accountId, fetched.value.fields, now)))
      && (fetched.Ok? && !fetched.value.Obj? ==> r.0 == Crash))
  {
    match Authenticated(t, header)
    case Err(resp) => (resp, t)
    case Ok(user) =>
      if !Owns(t, user.id, accountId) then (Missing, t)
      else
        match TellerApi.GetAccountBalances(teller, user.accessToken, accountId)
        case Err(failure) =>
          if failure.ProviderError? then (Response(BadGateway, Upstream(failure.error)), t) else (Crash, t)
        case Ok(v) =>
          if !v.Obj? then (Crash, t)
          else (Response(StatusOk, LiveBalance(accountId, v.fields)), BalanceUpdated(t, accountId, v.fields, now))
  }

  method GetLiveBalance(store: Store, header: Option<string>, accountId: string, teller: TellerApi.Transport, now: Instant)
    returns (resp: Response)
    requires store.Valid()
    modifies store
    ensures store.Valid()
    ensures (resp, store.State()) == LiveBalanceSpec(old(store.State()), header, accountId, teller, now)
  {
    var auth := Authenticate(store, header);
    if auth.Err? {
      return auth.error;
    }
    var user := auth.value;
    var account := store.GetAccount(accountId);
    if account.None? || account.value.userId != user.id {
      return Missing;
    }
    var fetched := TellerApi.GetAccountBalances(teller, user.accessToken, account.value.id);
    if fetched.Err? {
      if fetched.error.RequestFailed? {
        return Crash;
      }
      return Response(BadGateway, Upstream(fetched.error.error));
    }
    if !fetched.value.Obj? {
      return Crash;
    }
    var row := store.UpdateBalance(account.value.id, fetched.value.fields, now);
    resp := Response(StatusOk, LiveBalance(account.value.id, fetched.value.fields));
  }

  /** `LiveTransactionsResource.on_get` in one session: the count is checked
      first; then the caller's account's transactions are fetched with the
      caller's own token, replace the cached ones, and are returned as the
      provider sent them. A provider error is a 502; an exception of the
      request, or an id the repository cannot look up, a 500. */
  ghost function LiveTransactionsSpec(t: Tables, header: Option<string>, params: Params, accountId: string, teller: TellerApi.Transport, now: Instant): (r: (Response, Tables))
    requires KeysMatch(t)
    ensures r.0.status != StatusOk ==> r.1 == t
    ensures LiveCount(params).Err? ==> r.0 == LiveCount(params).error
    ensures LiveCount(params).Ok? && Authenticated(t, header).Err? ==> r.0 == Authenticated(t, header).error
    ensures LiveCount(params).Ok? && Authenticated(t, header).Ok? && !Owns(t, Authenticated(t, header).value.id, accountId) ==> r.0 == Missing
    ensures LiveCount(params).Ok? && Authenticated(t, header).Ok? && Owns(t, Authenticated(t, header).value.id, accountId) ==> (
      var fetched := TellerApi.GetAccountTransactions(teller, Authenticated(t, header).value.accessToken, accountId, Some(LiveCount(params).value));
      && (fetched.Err? && fetched.error.ProviderError? ==> r.0 == Response(BadGateway, Upstream(fetched.error.error)))
      && (fetched == Err(TellerApi.RequestFailed) ==> r.0 == Crash)
      && (fetched.Ok? && AsPayloadList(fetched.value).Some? && !IdsStorable(AsPayloadList(fetched.value).value) ==> r.0 == Crash)
      && (fetched.Ok? && AsPayloadList(fetched.value).Some? && IdsStorable(AsPayloadList(fetched.value).value) ==> (
            var ps := AsPayloadList(fetched.value).value;
            r == (Response(StatusOk, LiveTransactions(accountId, ps)), Replaced(t, accountId, ps, now))))
      && (fetched.Ok? && AsPayloadList(fetched.value).None? ==> r.0 == Crash))
  {
    match LiveCount(params)
    case Err(resp) => (resp, t)
    case Ok(count) =>
      match Authenticated(t, header)
      case Err(resp) => (resp, t)
      case Ok(user) =>
        if !Owns(t, user.id, accountId) then (Missing, t)
        else
          match TellerApi.GetAccountTransactions(teller, user.accessToken, accountId, Some(count))
          case Err(failure) =>
            if failure.ProviderError? then (Response(BadGateway, Upstream(failure.error)), t) else (Crash, t)
          case Ok(v) =>
            match AsPayloadList(v)
            case None => (Crash, t)
            case Some(ps) =>
              if !IdsStorable(ps) then (Crash, t)
              else (Response(StatusOk, LiveTransactions(accountId, ps)), Replaced(t, accountId, ps, now))
  }

  method GetLiveTransactions(store: Store, header: Option<string>, params: Params, accountId: string, teller: TellerApi.Transport, now: Instant)
    returns (resp: Response)
    requires store.Valid()
    modifies store
    ensures store.Valid()
    ensures (resp, store.State()) == LiveTransactionsSpec(old(store.State()), header, params, accountId, teller, now)
  {
    var count := LiveCount(params);
    if count.Err? {
      return count.error;
    }
    var auth := Authenticate(store, header);
    if auth.Err? {
      return auth.error;
    }
    var user := auth.value;
    var account := store.GetAccount(accountId);
    if account.None? || account.value.userId != user.id {
      return Missing;
    }
    var fetched := TellerApi.GetAccountTransactions(teller, user.accessToken, account.value.id, Some(count.value));
    if fetched.Err? {
      if fetched.error.RequestFailed? {
        return Crash;
      }
      return Response(BadGateway, Upstream(fetched.error.error));
    }
    var payloads := AsPayloadList(fetched.value);
    if payloads.None? {
      return Crash;
    }
    var rows := store.ReplaceTransactions(account.value.id, payloads.value, now);
    if rows.None? {
      return Crash;
    }
    resp := Response(StatusOk, LiveTransactions(account.value.id, payloads.value));
  }
}
