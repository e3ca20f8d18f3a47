/**
 * src/services/axiosInstance.ts: the shared HTTP client's request interceptor and
 * its 401 handler, which refreshes the token pair once and replays or rejects
 * every request that failed meanwhile. Each interceptor run and each settlement of
 * the refresh call is one atomic event on an explicit client state.
 */
module RefreshClient {
  import opened Wrappers
  import opened Text
  import opened Js
  import opened Storage
  import AuthUtils
  import AuthService

  /** The parts of an axios request config the interceptors read or write. */
  datatype Request = Request(url: Option<string>, retried: bool, auth: Option<string>)

  /** Why a refresh attempt failed. */
  datatype RefreshError =
    | NoRefreshTokenAvailable
    | InvalidTokenResponseFormat
    | RefreshCallFailed(status: Option<int>)

  /** What a rejected request is rejected with. */
  datatype Reason = OriginalError | RefreshFailed(error: RefreshError)

  datatype Effect =
    /** The request is sent again through the client (its request interceptor included). */
    | Send(req: Request)
    | Reject(req: Request, reason: Reason)
    /** The plain (interceptor-free) POST of the stored refresh token. */
    | PostRefresh(path: string, refreshToken: string)
    /** The expiry toast, with the redirect to the login page scheduled. */
    | ExpiryNotice

  /**
   * `store` and `handling` are the storage and the expiry guard's flag; `refreshing`
   * and `queue` are `isRefreshing` and `failedQueue`; `inFlight` is the request whose
   * 401 started the refresh that has not settled yet.
   */
  datatype Client = Client(store: Store, handling: bool, refreshing: bool, queue: seq<Request>, inFlight: Option<Request>)

  datatype Step = Step(client: Client, effects: seq<Effect>)

  datatype Event =
    | ResponseError(req: Request, status: Option<int>)
    | RefreshResponse(data: Value)
    | RefreshError(status: Option<int>)
    | ExpiryTimer

  const SignoutPath: string := "/users/signout"
  const RefreshMarker: string := "refresh-token"
  /** Where the interceptor refreshes (after the configured base URL). */
  const UsersRefreshPath: string := "/users/refresh-token"

  /**
   * A refresh is in flight exactly when the flag is set; requests wait in the queue
   * only during one; the request that started it is marked retried.
   */
  predicate Valid(c: Client) {
    && (c.refreshing <==> c.inFlight.Some?)
    && (!c.refreshing ==> c.queue == [])
    && (c.inFlight.Some? ==> c.inFlight.value.retried)
  }

  const Initial: Client := Client(Store(map[], None), false, false, [], None)

  lemma InitialValid()
    ensures Valid(Initial)
  {
  }

  /** `originalRequest.url?.includes(sub)`. */
  predicate UrlContains(url: Option<string>, sub: string) {
    url.Some? && Contains(url.value, sub)
  }

  /** The request interceptor: a stored token becomes the `Authorization` header. */
  function Outgoing(st: Store, req: Request): (r: Request)
    ensures r.url == req.url && r.retried == req.retried
    ensures Has(st, TokenKey) ==> r.auth == Some(Bearer(st.local[TokenKey]))
    ensures !Has(st, TokenKey) ==> r.auth == req.auth
  {
    if Has(st, TokenKey) then req.(auth := Some(Bearer(st.local[TokenKey]))) else req
  }

  /** Sending a request twice through the interceptor changes nothing more. */
  lemma OutgoingIdempotent(st: Store, req: Request)
    ensures Outgoing(st, Outgoing(st, req)) == Outgoing(st, req)
  {
  }

  /** `handleTokenExpiration()` on the client state. */
  function Expire(c: Client): (r: Step)
    ensures r.client.refreshing == c.refreshing && r.client.queue == c.queue && r.client.inFlight == c.inFlight
    ensures r.client.handling
    ensures r.effects == (if c.handling then [] else [ExpiryNotice])
    ensures r.client.store == AuthUtils.HandleTokenExpiration(c.store, c.handling).store
  {
    var e := AuthUtils.HandleTokenExpiration(c.store, c.handling);
    Step(c.(store := e.store, handling := e.handling), if e.notified then [ExpiryNotice] else [])
  }

  function RejectAll(queue: seq<Request>, e: RefreshError): (r: seq<Effect>)
    ensures |r| == |queue|
    ensures forall i :: 0 <= i < |queue| ==> r[i] == Reject(queue[i], RefreshFailed(e))
  {
    seq(|queue|, i requires 0 <= i < |queue| => Reject(queue[i], RefreshFailed(e)))
  }

  function ReplayAll(st: Store, queue: seq<Request>): (r: seq<Effect>)
    ensures |r| == |queue|
    ensures forall i :: 0 <= i < |queue| ==> r[i] == Send(Outgoing(st, queue[i]))
  {
    seq(|queue|, i requires 0 <= i < |queue| => Send(Outgoing(st, queue[i])))
  }

  /**
   * The `catch` block: the queue is rejected with the error, the flag cleared, the
   * expiry handler run, and the request that started the refresh rejected.
   */
  function Fail(c: Client, orig: Request, e: RefreshError): (r: Step)
  {
    var c1 := c.(queue := [], refreshing := false, inFlight := None);
    var x := Expire(c1);
    Step(x.client, RejectAll(c.queue, e) + x.effects + [Reject(orig, RefreshFailed(e))])
  }

  /** The response interceptor's error handler. */
  function OnResponseError(c: Client, req: Request, status: Option<int>): Step {
    if UrlContains(req.url, SignoutPath) then Step(c, [Reject(req, OriginalError)])
    else if status != Some(401) || req.retried || UrlContains(req.url, RefreshMarker) then
      if status == Some(401) && UrlContains(req.url, RefreshMarker) then
        var x := Expire(c);
        Step(x.client, x.effects + [Reject(req, OriginalError)])
      else Step(c, [Reject(req, OriginalError)])
    else if c.refreshing then Step(c.(queue := c.queue + [req]), [])
    else
      var orig := req.(retried := true);
      var c1 := c.(refreshing := true);
      if !Has(c1.store, RefreshKey) then
        var x := Expire(c1);
        var f := Fail(x.client, orig, NoRefreshTokenAvailable);
        Step(f.client, x.effects + f.effects)
      else Step(c1.(inFlight := Some(orig)), [PostRefresh(UsersRefreshPath, c1.store.local[RefreshKey])])
  }

  /** The refresh call answered: both tokens stored and everything replayed, or the `catch` path. */
  function OnRefreshResponse(c: Client, data: Value): Step {
    if c.inFlight.None? then Step(c, [])
    else
      var orig := c.inFlight.value;
      var access := Get(data, "accessToken");
      var refresh := Get(data, "refreshToken");
      if Truthy(access) && Truthy(refresh) then
        var token := ToJsString(access.value);
        var st := SetItem(SetItem(c.store, TokenKey, token), RefreshKey, ToJsString(refresh.value))
          .(defaultAuth := Some(Bearer(token)));
        var c1 := c.(store := st, queue := [], refreshing := false, inFlight := None);
        Step(c1, ReplayAll(st, c.queue) + [Send(Outgoing(st, orig.(auth := Some(Bearer(token)))))])
      else Fail(c, orig, InvalidTokenResponseFormat)
  }

  function Next(c: Client, e: Event): Step {
    match e
    case ResponseError(req, status) => OnResponseError(c, req, status)
    case RefreshResponse(data) => OnRefreshResponse(c, data)
    case RefreshError(status) =>
      if c.inFlight.None? then Step(c, []) else Fail(c, c.inFlight.value, RefreshCallFailed(status))
    case ExpiryTimer => Step(c.(handling := AuthUtils.TimerFires(c.handling)), [])
  }

  /** A 401 that is neither a signout, nor a refresh call, nor already retried. */
  predicate Eligible(req: Request, status: Option<int>) {
    !UrlContains(req.url, SignoutPath) && status == Some(401) && !req.retried && !UrlContains(req.url, RefreshMarker)
  }

  function PostCount(effects: seq<Effect>): nat {
    if effects == [] then 0 else PostCount(effects[1..]) + if effects[0].PostRefresh? then 1 else 0
  }

  lemma {:induction false} PostCountAppend(a: seq<Effect>, b: seq<Effect>)
    ensures PostCount(a + b) == PostCount(a) + PostCount(b)
  {
    if a == [] {
      assert a + b == b;
    } else {
      assert (a + b)[1..] == a[1..] + b;
      PostCountAppend(a[1..], b);
    }
  }

  lemma {:induction false} RejectsPostNothing(effects: seq<Effect>)
    requires forall i :: 0 <= i < |effects| ==> effects[i].Reject? || effects[i].Send? || effects[i].ExpiryNotice?
    ensures PostCount(effects) == 0
  {
    if effects != [] {
      RejectsPostNothing(effects[1..]);
    }
  }

  lemma FailPostsNothing(c: Client, orig: Request, e: RefreshError)
    ensures PostCount(Fail(c, orig, e).effects) == 0
    ensures Fail(c, orig, e).client.queue == [] && !Fail(c, orig, e).client.refreshing
  {
    RejectsPostNothing(Fail(c, orig, e).effects);
  }

  // ---------------------------------------------------------------------------
  // Invariant
  // ---------------------------------------------------------------------------

  /** Every event keeps the client valid. */
  lemma NextValid(c: Client, e: Event)
    requires Valid(c)
    ensures Valid(Next(c, e).client)
  {
  }

  // ---------------------------------------------------------------------------
  // Requests that bypass the refresh path
  // ---------------------------------------------------------------------------

  /** A failed signout is rejected as it is, before its status is even looked at. */
  lemma SignoutBypass(c: Client, req: Request, status: Option<int>)
    requires UrlContains(req.url, SignoutPath)
    ensures Next(c, ResponseError(req, status)) == Step(c, [Reject(req, OriginalError)])
  {
  }

  /**
   * A non-401 error, a retried request or a refresh call is rejected without a refresh;
   * the expiry handler runs exactly when it is a 401 from a refresh call.
   */
  lemma NoRefreshForIneligible(c: Client, req: Request, status: Option<int>)
    requires !UrlContains(req.url, SignoutPath)
    requires status != Some(401) || req.retried || UrlContains(req.url, RefreshMarker)
    ensures var r := Next(c, ResponseError(req, status));
      && PostCount(r.effects) == 0
      && r.client.refreshing == c.refreshing && r.client.queue == c.queue && r.client.inFlight == c.inFlight
      && r.effects[|r.effects| - 1] == Reject(req, OriginalError)
      && (if status == Some(401) && UrlContains(req.url, RefreshMarker)
          then r.client == Expire(c).client
          else r == Step(c, [Reject(req, OriginalError)]))
  {
    RejectsPostNothing(Next(c, ResponseError(req, status)).effects);
  }

  /** Logging out posts `/auth/logout`, which is not the signout path the bypass looks for. */
  lemma LogoutIsNotBypassed(c: Client)
    requires c.refreshing && Valid(c)
    ensures var req := Request(Some(AuthService.LogoutUrl), false, None);
      Eligible(req, Some(401))
      && Next(c, ResponseError(req, Some(401))).client.queue == c.queue + [req]
  {
  }

  /**
   * A 401 on a request sent through the instance to a URL holding `refresh-token`
   * (and not the signout path) ends the session and posts no refresh. The program
   * sends no such request: both refresh calls, `/users/refresh-token` here and
   * `/auth/refresh-token` in the auth service, go out through plain `axios`, so a
   * failed refresh ends the session through `RefreshFails` instead.
   */
  lemma MarkedUrlEndsSession(c: Client, req: Request)
    requires UrlContains(req.url, RefreshMarker) && !UrlContains(req.url, SignoutPath)
    ensures var r := Next(c, ResponseError(req, Some(401)));
      r.client.store == AuthUtils.HandleTokenExpiration(c.store, c.handling).store
      && r.client.handling && PostCount(r.effects) == 0
      && r.client.queue == c.queue && r.client.refreshing == c.refreshing
  {
    NoRefreshForIneligible(c, req, Some(401));
  }

  // ---------------------------------------------------------------------------
  // One refresh at a time
  // ---------------------------------------------------------------------------

  /** While a refresh is in flight, a new 401 waits in the queue, unmarked, and nothing is sent. */
  lemma QueuedWhileRefreshing(c: Client, req: Request, status: Option<int>)
    requires c.refreshing && Eligible(req, status)
    ensures Next(c, ResponseError(req, status)) == Step(c.(queue := c.queue + [req]), [])
    ensures !(c.queue + [req])[|c.queue|].retried
  {
  }

  /** An idle client with a refresh token starts exactly one refresh, marking the request first. */
  lemma StartsOneRefresh(c: Client, req: Request, status: Option<int>)
    requires Valid(c) && !c.refreshing && Eligible(req, status) && Has(c.store, RefreshKey)
    ensures var r := Next(c, ResponseError(req, status));
      && r.effects == [PostRefresh(UsersRefreshPath, c.store.local[RefreshKey])]
      && r.client.refreshing && r.client.inFlight == Some(req.(retried := true))
      && r.client.queue == [] && r.client.store == c.store
  {
  }

  /** Without a stored refresh token the attempt fails before any call, ending the session. */
  lemma MissingRefreshToken(c: Client, req: Request, status: Option<int>)
    requires Valid(c) && !c.refreshing && Eligible(req, status) && !Has(c.store, RefreshKey)
    ensures var r := Next(c, ResponseError(req, status));
      && PostCount(r.effects) == 0
      && r.effects[|r.effects| - 1] == Reject(req.(retried := true), RefreshFailed(NoRefreshTokenAvailable))
      && r.client.store == AuthUtils.HandleTokenExpiration(c.store, c.handling).store
      && !r.client.refreshing && r.client.handling
      && (ExpiryNotice in r.effects <==> !c.handling)
  {
    var orig := req.(retried := true);
    var x := Expire(c.(refreshing := true));
    var f := Fail(x.client, orig, NoRefreshTokenAvailable);
    FailPostsNothing(x.client, orig, NoRefreshTokenAvailable);
    PostCountAppend(x.effects, f.effects);
    assert f.effects == x.effects[..0] + [] + [Reject(orig, RefreshFailed(NoRefreshTokenAvailable))];
  }

  /** The client after a sequence of events, with every effect in order. */
  function Run(c: Client, events: seq<Event>): Step
    decreases |events|
  {
    if events == [] then Step(c, [])
    else
      var s := Next(c, events[0]);
      var rest := Run(s.client, events[1..]);
      Step(rest.client, s.effects + rest.effects)
  }

  function Errors(reqs: seq<Request>): (es: seq<Event>)
    ensures |es| == |reqs|
    ensures forall i :: 0 <= i < |reqs| ==> es[i] == ResponseError(reqs[i], Some(401))
  {
    seq(|reqs|, i requires 0 <= i < |reqs| => ResponseError(reqs[i], Some(401)))
  }

  /** During a refresh, any number of 401s only join the queue, in order. */
  lemma {:induction false} ErrorsWhileRefreshing(c: Client, reqs: seq<Request>)
    requires Valid(c) && c.refreshing
    requires forall i :: 0 <= i < |reqs| ==> Eligible(reqs[i], Some(401))
    ensures Run(c, Errors(reqs)) == Step(c.(queue := c.queue + reqs), [])
    decreases |reqs|
  {
    if reqs != [] {
      var c1 := c.(queue := c.queue + [reqs[0]]);
      assert Next(c, Errors(reqs)[0]) == Step(c1, []);
      ErrorsWhileRefreshing(c1, reqs[1..]);
      assert Errors(reqs)[1..] == Errors(reqs[1..]);
      assert c.queue + [reqs[0]] + reqs[1..] == c.queue + reqs;
    }
  }

  /**
   * Concurrent 401s against an idle client with a refresh token cause a single
   * refresh call: the first starts it and the others wait in the queue.
   */
  lemma ConcurrentErrorsOneRefresh(c: Client, reqs: seq<Request>)
    requires Valid(c) && !c.refreshing && Has(c.store, RefreshKey)
    requires |reqs| >= 1
    requires forall i :: 0 <= i < |reqs| ==> Eligible(reqs[i], Some(401))
    ensures var r := Run(c, Errors(reqs));
      && r.effects == [PostRefresh(UsersRefreshPath, c.store.local[RefreshKey])]
      && r.client.queue == reqs[1..]
      && r.client.inFlight == Some(reqs[0].(retried := true))
  {
    StartsOneRefresh(c, reqs[0], Some(401));
    var c1 := Next(c, ResponseError(reqs[0], Some(401))).client;
    ErrorsWhileRefreshing(c1, reqs[1..]);
    assert Errors(reqs)[1..] == Errors(reqs[1..]);
    assert c1.queue + reqs[1..] == reqs[1..];
  }

  /** No event ever starts a second refresh while one is in flight. */
  lemma SingleFlight(c: Client, e: Event)
    requires Valid(c)
    ensures var r := Next(c, e);
      PostCount(r.effects) <= 1 && (PostCount(r.effects) == 1 ==> !c.refreshing && r.client.refreshing)
  {
    var r := Next(c, e);
    match e {
      case ResponseError(req, status) =>
        if UrlContains(req.url, SignoutPath) {
        } else if status != Some(401) || req.retried || UrlContains(req.url, RefreshMarker) {
          NoRefreshForIneligible(c, req, status);
        } else if c.refreshing {
        } else if !Has(c.store, RefreshKey) {
          MissingRefreshToken(c, req, status);
        }
      case RefreshResponse(data) =>
        if c.inFlight.Some? {
          var orig := c.inFlight.value;
          if Truthy(Get(data, "accessToken")) && Truthy(Get(data, "refreshToken")) {
            RejectsPostNothing(r.effects);
          } else {
            FailPostsNothing(c, orig, InvalidTokenResponseFormat);
          }
        }
      case RefreshError(status) =>
        if c.inFlight.Some? {
          FailPostsNothing(c, c.inFlight.value, RefreshCallFailed(status));
        }
      case ExpiryTimer =>
    }
  }

  // ---------------------------------------------------------------------------
  // Settling the refresh
  // ---------------------------------------------------------------------------

  /**
   * A response with both tokens stores both, sets the default header, replays every
   * queued request in order with the new token, then the original one; the queue is
   * empty and the flag clear afterwards.
   */
  lemma RefreshSucceeds(c: Client, data: Value)
    requires Valid(c) && c.refreshing
    requires Truthy(Get(data, "accessToken")) && Truthy(Get(data, "refreshToken"))
    ensures var token := ToJsString(Get(data, "accessToken").value);
      var r := Next(c, RefreshResponse(data));
      && GetItem(r.client.store, TokenKey) == Some(token)
      && GetItem(r.client.store, RefreshKey) == Some(ToJsString(Get(data, "refreshToken").value))
      && r.client.store.defaultAuth == Some(Bearer(token))
      && SameExcept(r.client.store, c.store, {TokenKey, RefreshKey})
      && |r.effects| == |c.queue| + 1
      && (forall i :: 0 <= i < |c.queue| ==> r.effects[i] == Send(Outgoing(r.client.store, c.queue[i])))
      && r.effects[|c.queue|].Send? && r.effects[|c.queue|].req.retried
      && r.effects[|c.queue|].req.auth == Some(Bearer(token))
      && r.client.queue == [] && !r.client.refreshing && r.client.inFlight.None?
  {
  }

  /**
   * A failed attempt rejects every queued request with the same error, clears the flag,
   * ends the session and rejects the original request; the default header is kept.
   */
  lemma RefreshFails(c: Client, e: Event)
    requires Valid(c) && c.refreshing
    requires e.RefreshError? || (e.RefreshResponse? && !(Truthy(Get(e.data, "accessToken")) && Truthy(Get(e.data, "refreshToken"))))
    ensures var r := Next(c, e);
      var err := if e.RefreshError? then RefreshCallFailed(e.status) else InvalidTokenResponseFormat;
      && (forall i :: 0 <= i < |c.queue| ==> r.effects[i] == Reject(c.queue[i], RefreshFailed(err)))
      && r.effects[|r.effects| - 1] == Reject(c.inFlight.value, RefreshFailed(err))
      && r.client.store == AuthUtils.HandleTokenExpiration(c.store, c.handling).store
      && r.client.store.defaultAuth == c.store.defaultAuth
      && r.client.queue == [] && !r.client.refreshing && r.client.inFlight.None?
      && PostCount(r.effects) == 0
  {
    var err := if e.RefreshError? then RefreshCallFailed(e.status) else InvalidTokenResponseFormat;
    FailPostsNothing(c, c.inFlight.value, err);
  }

  /** The queue is drained once: after a refresh settles, a further settlement does nothing. */
  lemma DrainedOnce(c: Client, e: Event, e2: Event)
    requires Valid(c) && c.refreshing
    requires e.RefreshResponse? || e.RefreshError?
    requires e2.RefreshResponse? || e2.RefreshError?
    ensures var c1 := Next(c, e).client; Next(c1, e2) == Step(c1, [])
  {
    NextValid(c, e);
  }

  /** Tokens are written only as a pair, by a refresh response carrying both. */
  lemma TokensWrittenAsPair(c: Client, e: Event)
    requires Valid(c)
    ensures var st := Next(c, e).client.store;
      GetItem(st, TokenKey).Some? && GetItem(st, TokenKey) != GetItem(c.store, TokenKey) ==>
        && e.RefreshResponse? && c.refreshing
        && Truthy(Get(e.data, "accessToken")) && Truthy(Get(e.data, "refreshToken"))
        && GetItem(st, RefreshKey) == Some(ToJsString(Get(e.data, "refreshToken").value))
  {
    match e {
      case ResponseError(req, status) =>
        if !UrlContains(req.url, SignoutPath) && !(status != Some(401) || req.retried || UrlContains(req.url, RefreshMarker))
          && !c.refreshing && !Has(c.store, RefreshKey) {
          MissingRefreshToken(c, req, status);
        }
      case RefreshResponse(data) =>
      case RefreshError(status) =>
      case ExpiryTimer =>
    }
  }
}
