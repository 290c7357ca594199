/** The authenticated HTTP client of the frontend: a request interceptor that attaches the stored
  * access token, a response interceptor that refreshes an expired token once and re-sends the
  * request, and the login/register calls of the authentication service.
  *
  * Browser state is explicit: `Session` holds the two localStorage entries and a flag for the
  * hard navigation to `/login`. The server is an oracle: `transport` answers a request given the
  * headers it is sent with, `refreshEndpoint` answers `POST /token/refresh/` given the refresh
  * token. One request is followed at a time. Since `transport` sees only the headers, a re-send
  * whose refreshed token equals the old one gets the reply of the first attempt again; no contract
  * depends on that. */
module ApiClient {
  import opened Wrappers

  type Headers = map<string, string>

  const AuthorizationHeader := "Authorization"
  const TokenKey := "token"
  const RefreshTokenKey := "refresh_token"

  /** A JSON reply body, reduced to its top-level string fields. */
  datatype Body = Body(fields: map<string, string>)

  /** An axios error that carries a response (the no-response case is outside the model). */
  datatype HttpError = HttpError(status: int, data: Body)

  /** What a call resolves to (a 2xx reply) or rejects with. */
  datatype Outcome = Resolved(status: int, data: Body) | Rejected(error: HttpError)

  /** The reply of the refresh endpoint as seen by `await axios.post(...)`. */
  datatype RefreshReply = RefreshFailed(error: HttpError) | Refreshed(data: Body)

  /** A request the client puts on the wire while serving one call. */
  datatype Call = Send(headers: Headers) | RefreshCall(refresh: string)

  /** The two localStorage entries; `None` is a missing key. */
  datatype Credentials = Credentials(token: Option<string>, refreshToken: Option<string>)

  const LoggedOut := Credentials(None, None)

  /** Everything one pass through the client produces. `loginRedirect` says whether this pass
    * assigned `window.location.href = '/login'`. */
  datatype Handled = Handled(outcome: Outcome, creds: Credentials, retried: bool, headers: Headers,
                             calls: seq<Call>, loginRedirect: bool)

  /** JavaScript truthiness of a value read from storage or a reply: null and "" are false. */
  predicate Truthy(v: Option<string>)
  {
    v.Some? && v.value != ""
  }

  function Bearer(token: string): string
  {
    "Bearer " + token
  }

  /** `response.data.access` */
  function Access(data: Body): Option<string>
  {
    if "access" in data.fields then Some(data.fields["access"]) else None
  }

  /** `const { access, refresh } = response.data; localStorage.setItem(key, value)`: a missing
    * field is `undefined`, which localStorage stores as the string "undefined". */
  function StoredField(data: Body, name: string): string
  {
    if name in data.fields then data.fields[name] else "undefined"
  }

  ghost predicate SameExcept(h: Headers, h': Headers, key: string)
  {
    forall k | k != key :: (k in h <==> k in h') && (k in h ==> h[k] == h'[k])
  }

  /** The request interceptor: with a token stored, `Authorization` becomes `Bearer <token>`;
    * without one, the headers are left exactly as they were. No other header is touched. */
  function WithAuthorization(token: Option<string>, headers: Headers): (r: Headers)
    ensures Truthy(token) ==> AuthorizationHeader in r && r[AuthorizationHeader] == Bearer(token.value)
    ensures !Truthy(token) ==> r == headers
    ensures SameExcept(r, headers, AuthorizationHeader)
  {
    if Truthy(token) then headers[AuthorizationHeader := Bearer(token.value)] else headers
  }

  /** The error branch of the response interceptor, for a request whose `_retry` flag is
    * `retried` and whose headers are `headers`, given the stored credentials. */
  function OnRejected(creds: Credentials, retried: bool, headers: Headers, error: HttpError,
                      refreshEndpoint: string -> RefreshReply, transport: Headers -> Outcome): (r: Handled)
    // Anything but a first 401 is rejected unchanged: no call, no storage change, no redirect.
    ensures error.status != 401 || retried ==>
      r == Handled(Rejected(error), creds, retried, headers, [], false)
    // A first 401 marks the request, so it is refreshed and re-sent at most once.
    ensures r.retried == (retried || error.status == 401)
    ensures !r.retried ==> r.calls == []
    ensures |r.calls| <= 2
    ensures forall i | 0 < i < |r.calls| :: r.calls[i].Send?
    ensures r.calls != [] ==> Truthy(creds.refreshToken) && r.calls[0] == RefreshCall(creds.refreshToken.value)
    // The refresh token is never rewritten; storage is either cleared or keeps it.
    ensures r.creds.refreshToken == creds.refreshToken || r.creds == LoggedOut
    // Without a usable refresh token, a first 401 logs out and redirects.
    ensures error.status == 401 && !retried && !Truthy(creds.refreshToken) ==>
      r == Handled(Rejected(error), LoggedOut, true, headers, [], true)
    // A refresh that fails logs out and redirects, but rejects with the ORIGINAL error.
    ensures r.calls != [] && refreshEndpoint(creds.refreshToken.value).RefreshFailed? ==>
      r.outcome == Rejected(error) && r.creds == LoggedOut && r.loginRedirect && |r.calls| == 1
    // The redirect always comes with cleared storage and the original error.
    ensures r.loginRedirect ==> r.creds == LoggedOut && r.outcome == Rejected(error)
    // A refresh reply with a usable `access`: store it, re-send once with it, return that outcome.
    ensures r.calls != [] && refreshEndpoint(creds.refreshToken.value).Refreshed?
            && Truthy(Access(refreshEndpoint(creds.refreshToken.value).data)) ==>
      var access := Access(refreshEndpoint(creds.refreshToken.value).data).value;
      && r.creds == Credentials(Some(access), creds.refreshToken)
      && r.headers == headers[AuthorizationHeader := Bearer(access)]
      && r.calls == [RefreshCall(creds.refreshToken.value), Send(r.headers)]
      && r.outcome == transport(r.headers)
      && !r.loginRedirect
    // A refresh reply without `access` changes nothing but the flag and rejects with the original error.
    ensures r.calls != [] && refreshEndpoint(creds.refreshToken.value).Refreshed?
            && !Truthy(Access(refreshEndpoint(creds.refreshToken.value).data)) ==>
      r == Handled(Rejected(error), creds, true, headers, [RefreshCall(creds.refreshToken.value)], false)
    // Whatever happens, the result is the original error unless the request was re-sent.
    ensures |r.calls| < 2 ==> r.outcome == Rejected(error) && r.headers == headers
  {
    if error.status != 401 || retried then
      Handled(Rejected(error), creds, retried, headers, [], false)
    else if !Truthy(creds.refreshToken) then
      // `throw new Error('No refresh token available')`, caught below
      Handled(Rejected(error), LoggedOut, true, headers, [], true)
    else
      var refresh := creds.refreshToken.value;
      match refreshEndpoint(refresh)
      case RefreshFailed(_) =>
        Handled(Rejected(error), LoggedOut, true, headers, [RefreshCall(refresh)], true)
      case Refreshed(data) =>
        if Truthy(Access(data)) then
          var access := Access(data).value;
          var resent := headers[AuthorizationHeader := Bearer(access)];
          Handled(transport(resent), Credentials(Some(access), creds.refreshToken), true, resent,
                  [RefreshCall(refresh), Send(resent)], false)
        else
          Handled(Rejected(error), creds, true, headers, [RefreshCall(refresh)], false)
  }

  /** One call through the client: request interceptor, first send, response interceptor. */
  function Pipeline(creds: Credentials, headers: Headers,
                    refreshEndpoint: string -> RefreshReply, transport: Headers -> Outcome): (r: Handled)
    // The first request on the wire carries the stored token, if there is one.
    ensures r.calls != [] && r.calls[0] == Send(WithAuthorization(creds.token, headers))
    ensures Truthy(creds.token) ==>
      AuthorizationHeader in r.calls[0].headers && r.calls[0].headers[AuthorizationHeader] == Bearer(creds.token.value)
    // A first reply that is not a 401 is returned as it is and changes nothing.
    ensures (transport(r.calls[0].headers).Resolved? || transport(r.calls[0].headers).error.status != 401) ==>
      r.outcome == transport(r.calls[0].headers) && r.creds == creds && |r.calls| == 1 && !r.loginRedirect
    // At most one refresh and one re-send follow the first send.
    ensures |r.calls| <= 3
    ensures |r.calls| == 3 ==> r.calls[1].RefreshCall? && r.calls[2].Send? && r.outcome == transport(r.calls[2].headers)
    ensures r.creds.refreshToken == creds.refreshToken || r.creds == LoggedOut
  {
    var sent := WithAuthorization(creds.token, headers);
    var first := transport(sent);
    match first
    case Resolved(_, _) => Handled(first, creds, false, sent, [Send(sent)], false)
    case Rejected(error) =>
      var h := OnRejected(creds, false, sent, error, refreshEndpoint, transport);
      h.(calls := [Send(sent)] + h.calls)
  }

  /** `authService.login`: the `.then` stores both tokens from the reply, only when the call resolves. */
  function LoginCredentials(after: Handled): (creds: Credentials)
    ensures after.outcome.Rejected? ==> creds == after.creds
    ensures after.outcome.Resolved? ==>
      creds == Credentials(Some(StoredField(after.outcome.data, "access")),
                           Some(StoredField(after.outcome.data, "refresh")))
  {
    match after.outcome
    case Resolved(_, data) => Credentials(Some(StoredField(data, "access")), Some(StoredField(data, "refresh")))
    case Rejected(_) => after.creds
  }

  /** The part of a request the interceptors touch: its headers and the `_retry` flag. */
  class Request {
    var headers: Headers
    var retried: bool

    constructor (headers: Headers)
      ensures this.headers == headers && !retried
    {
      this.headers := headers;
      retried := false;
    }
  }

  /** Browser state the client reads and writes: localStorage and `window.location`. */
  class Session {
    var token: Option<string>
    var refreshToken: Option<string>
    var loginRedirect: bool

    function Creds(): Credentials
      reads this
    {
      Credentials(token, refreshToken)
    }

    constructor ()
      ensures Creds() == LoggedOut && !loginRedirect
    {
      token, refreshToken, loginRedirect := None, None, false;
    }

    /** `api.interceptors.request.use(config => ...)` */
    method AttachToken(req: Request)
      modifies req`headers
      ensures req.headers == WithAuthorization(token, old(req.headers))
    {
      if token.Some? && token.value != "" {
        req.headers := req.headers[AuthorizationHeader := "Bearer " + token.value];
      }
    }

    /** The error handler of `api.interceptors.response.use`. */
    method HandleRejected(req: Request, error: HttpError,
                          refreshEndpoint: string -> RefreshReply, transport: Headers -> Outcome)
      returns (outcome: Outcome, calls: seq<Call>)
      modifies this, req
      ensures var h := OnRejected(old(Creds()), old(req.retried), old(req.headers), error, refreshEndpoint, transport);
        && outcome == h.outcome && calls == h.calls
        && Creds() == h.creds && req.retried == h.retried && req.headers == h.headers
        && loginRedirect == (old(loginRedirect) || h.loginRedirect)
    {
      outcome, calls := Rejected(error), [];
      if error.status == 401 && !req.retried {
        req.retried := true;
        var stored := refreshToken;
        if stored.None? || stored.value == "" {
          token, refreshToken := None, None;
          loginRedirect := true;
        } else {
          var reply := refreshEndpoint(stored.value);
          calls := [RefreshCall(stored.value)];
          if reply.RefreshFailed? {
            token, refreshToken := None, None;
            loginRedirect := true;
          } else if "access" in reply.data.fields && reply.data.fields["access"] != "" {
            var access := reply.data.fields["access"];
            token := Some(access);
            req.headers := req.headers[AuthorizationHeader := "Bearer " + access];
            outcome := transport(req.headers);
            calls := calls + [Send(req.headers)];
          }
        }
      }
    }

    /** One call through `api`: interceptors around the transport. */
    method Dispatch(req: Request, refreshEndpoint: string -> RefreshReply, transport: Headers -> Outcome)
      returns (outcome: Outcome, calls: seq<Call>)
      requires !req.retried
      modifies this, req
      ensures var h := Pipeline(old(Creds()), old(req.headers), refreshEndpoint, transport);
        && outcome == h.outcome && calls == h.calls
        && Creds() == h.creds && req.headers == h.headers
        && loginRedirect == (old(loginRedirect) || h.loginRedirect)
    {
      AttachToken(req);
      var sent := req.headers;
      var first := transport(sent);
      if first.Resolved? {
        outcome, calls := first, [Send(sent)];
      } else {
        var more;
        outcome, more := HandleRejected(req, first.error, refreshEndpoint, transport);
        calls := [Send(sent)] + more;
      }
    }

    /** `authService.login(email, password)`: `POST /token/` through `api`, then store both tokens. */
    method Login(headers: Headers, refreshEndpoint: string -> RefreshReply, transport: Headers -> Outcome)
      returns (outcome: Outcome, calls: seq<Call>)
      modifies this
      ensures var h := Pipeline(old(Creds()), headers, refreshEndpoint, transport);
        && outcome == h.outcome && calls == h.calls
        && Creds() == LoginCredentials(h)
        && loginRedirect == (old(loginRedirect) || h.loginRedirect)
      // A login refused with anything but a 401 leaves storage as it was.
      ensures transport(WithAuthorization(old(token), headers)).Rejected?
              && transport(WithAuthorization(old(token), headers)).error.status != 401 ==>
        Creds() == old(Creds()) && outcome.Rejected?
    {
      var req := new Request(headers);
      outcome, calls := Dispatch(req, refreshEndpoint, transport);
      if outcome.Resolved? {
        token := Some(StoredField(outcome.data, "access"));
        refreshToken := Some(StoredField(outcome.data, "refresh"));
      }
    }

    /** `authService.register(userData)`: `POST /auth/register/` through `api`; it stores nothing
      * itself, so storage changes only through the response interceptor on a 401. */
    method Register(headers: Headers, refreshEndpoint: string -> RefreshReply, transport: Headers -> Outcome)
      returns (outcome: Outcome, calls: seq<Call>)
      modifies this
      ensures var h := Pipeline(old(Creds()), headers, refreshEndpoint, transport);
        && outcome == h.outcome && calls == h.calls && Creds() == h.creds
        && loginRedirect == (old(loginRedirect) || h.loginRedirect)
      ensures (transport(WithAuthorization(old(token), headers)).Resolved?
               || transport(WithAuthorization(old(token), headers)).error.status != 401) ==>
        Creds() == old(Creds()) && loginRedirect == old(loginRedirect)
    {
      var req := new Request(headers);
      outcome, calls := Dispatch(req, refreshEndpoint, transport);
    }
  }
}
