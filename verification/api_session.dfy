/**
  The session side of the Tesco client: read and write rate limits, login
  with exponential backoff on failures, the preamble every data call runs
  (log in if needed, reopen the session), the data calls themselves, and
  close.

  Time is a monotonic clock in milliseconds.  Network exchanges take no
  time; a sleep wakes exactly at its deadline; time passing between calls is
  made explicit with `Elapse`.  Every reply the server could give is an input
  of the operation that receives it.

  Each operation is first specified as a function from the client's state
  (`ApiState`) and the replies to the new state and the result; the class
  `TescoApi` then carries the state in fields and performs each operation
  step by step, proved equal to its specification.
*/
module ApiSession {
  import opened Common
  import opened ApiExtract

  /** Texts whose presence in the lowered page after the login form is posted means success. */
  const LoginSuccessIndicators: seq<string> := ["my account", "clubcard", "sign out", "logout"]

  /** The cap on the login backoff, in seconds. */
  const MaxBackoffSeconds := 300

  /** Default spacing of read and write requests, in milliseconds. */
  const DefaultReadDelay := 1000
  const DefaultWriteDelay := 2000

  /** The client's mutable state; times are clock readings in milliseconds. */
  datatype ApiState = ApiState(
    password: Option<string>,
    sessionOpen: bool,
    loggedIn: bool,
    csrfToken: Option<string>,
    lastReadTime: Option<int>,
    lastWriteTime: Option<int>,
    failedLoginAttempts: nat,
    lastLoginAttemptTime: Option<int>,
    clock: int,
    basketRequests: seq<BasketRequest>)

  /**
    The JSON body of one add-to-basket request, in the order the client sent
    them: the product id, the quantity, and `_csrf` when the client holds a
    truthy CSRF token.
  */
  datatype BasketRequest = BasketRequest(productId: string, quantity: int, csrf: Option<string>)

  /** The client's fixed settings: the account and the request spacings in milliseconds. */
  datatype Config = Config(email: string, readDelay: nat, writeDelay: nat)

  // ---------------------------------------------------------------------------
  // Rate limiting and backoff
  // ---------------------------------------------------------------------------

  /**
    When a wait that must leave `gap` after the reading `last` ends: at once
    when there is no (truthy) reading or the gap has already passed,
    otherwise exactly when it passes.
  */
  function Wake(clock: int, last: Option<int>, gap: int): int {
    if TruthyTime(last) && clock - last.value < gap then last.value + gap else clock
  }

  /** The rate limiter: wait out the delay of the request's kind, then stamp it. */
  function RateLimited(s: ApiState, cfg: Config, isWrite: bool): ApiState {
    var delay := if isWrite then cfg.writeDelay else cfg.readDelay;
    var last := if isWrite then s.lastWriteTime else s.lastReadTime;
    var now := Wake(s.clock, last, delay);
    if isWrite then s.(clock := now, lastWriteTime := Some(now))
    else s.(clock := now, lastReadTime := Some(now))
  }

  /**
    Requests of one kind are spaced by at least that kind's delay, the
    limiter waits no longer than it has to, time never runs backwards, and
    the other kind's stamp and everything else are untouched.
  */
  lemma RateLimitSpacing(s: ApiState, cfg: Config, isWrite: bool)
    ensures var r := RateLimited(s, cfg, isWrite);
            var delay := if isWrite then cfg.writeDelay else cfg.readDelay;
            var last := if isWrite then s.lastWriteTime else s.lastReadTime;
            var stamp := if isWrite then r.lastWriteTime else r.lastReadTime;
            && r.clock >= s.clock
            && stamp == Some(r.clock)
            && (TruthyTime(last) ==> r.clock - last.value >= delay)
            && (r.clock == s.clock || (TruthyTime(last) && r.clock == last.value + delay))
            && (isWrite ==> r.lastReadTime == s.lastReadTime)
            && (!isWrite ==> r.lastWriteTime == s.lastWriteTime)
            && r.(clock := s.clock, lastReadTime := s.lastReadTime, lastWriteTime := s.lastWriteTime) == s
  {
  }

  function Pow2(n: nat): (p: nat)
    ensures p >= 1
  {
    if n == 0 then 1 else 2 * Pow2(n - 1)
  }

  /** `min(2 ** failures, 300)`: the seconds a login waits after the last attempt. */
  function BackoffSeconds(failures: nat): nat {
    if Pow2(failures) < MaxBackoffSeconds then Pow2(failures) else MaxBackoffSeconds
  }

  lemma {:induction false} Pow2Grows(m: nat, n: nat)
    requires m <= n
    ensures Pow2(m) <= Pow2(n)
    decreases n - m
  {
    if m < n {
      Pow2Grows(m, n - 1);
    }
  }

  /**
    The backoff doubles with every failure up to eight (256 s) and is capped
    at 300 s from the ninth on; it never shrinks as failures accumulate.
  */
  lemma BackoffSchedule(n: nat)
    ensures 1 <= BackoffSeconds(n) <= MaxBackoffSeconds
    ensures n <= 8 ==> BackoffSeconds(n) == Pow2(n)
    ensures n >= 9 ==> BackoffSeconds(n) == MaxBackoffSeconds
    ensures BackoffSeconds(n) <= BackoffSeconds(n + 1)
  {
    assert Pow2(8) == 256;
    assert Pow2(9) == 512;
    if n <= 8 {
      Pow2Grows(n, 8);
    } else {
      Pow2Grows(9, n);
    }
    Pow2Grows(n, n + 1);
  }

  // ---------------------------------------------------------------------------
  // Login
  // ---------------------------------------------------------------------------

  /** The page after the login form is posted: its HTML and the texts of its error, alert and warning elements. */
  datatype SubmitPage = SubmitPage(html: string, errorTexts: seq<string>)

  /** The two replies a login receives: the login page, then the answer to the posted form. */
  datatype LoginExchange = LoginExchange(page: Reply<LoginPage>, submit: Reply<SubmitPage>)

  /** A login either succeeds or raises an authentication error with a message. */
  datatype LoginResult = LoggedIn | LoginFailed(message: string)

  datatype LoginOutcome = LoginOutcome(state: ApiState, result: LoginResult)

  /** Some success indicator occurs in the lowered page. */
  predicate ShowsLoggedIn(html: string) {
    exists i :: 0 <= i < |LoginSuccessIndicators| && Contains(Lower(html), LoginSuccessIndicators[i])
  }

  /** The reason given when the posted form shows no success: the first three error texts, or "Invalid credentials". */
  function CredentialsError(errorTexts: seq<string>): string {
    var joined := Join(" ", Take(errorTexts, 3));
    if joined == "" then "Invalid credentials" else joined
  }

  /** Before the first request: wait out the backoff, stamp the attempt, open a session. */
  function BackedOff(s: ApiState): ApiState {
    var now := if s.failedLoginAttempts > 0
               then Wake(s.clock, s.lastLoginAttemptTime, BackoffSeconds(s.failedLoginAttempts) * 1000)
               else s.clock;
    s.(clock := now, lastLoginAttemptTime := Some(now), sessionOpen := true)
  }

  function Failed(s: ApiState, countIt: bool, tearDown: bool, message: string): LoginOutcome {
    var counted := if countIt then s.(failedLoginAttempts := s.failedLoginAttempts + 1) else s;
    LoginOutcome(if tearDown then counted.(sessionOpen := false) else counted, LoginFailed(message))
  }

  /**
    A login: back off, fetch the login page (a transport error counts as a
    failure and closes the session; a status other than 200 closes the
    session without counting; an unreadable body counts without closing),
    take its CSRF token, post the form, and accept a 200, 302 or 303 answer
    whose page shows a success indicator.  Success clears the failure count
    and forgets the password.
  */
  function LoginStep(s: ApiState, cfg: Config, x: LoginExchange): LoginOutcome {
    var s1 := RateLimited(BackedOff(s), cfg, false);
    match x.page
    case TransportError(e) => Failed(s1, true, true, "Network error: " + e)
    case Response(status, body) =>
      if status != 200 then Failed(s1, false, true, "Failed to load login page: " + IntString(status))
      else match body
        case Unreadable(e) => Failed(s1, true, false, "Failed to parse login response: " + e)
        case Read(page) => PostLoginFormStep(s1.(csrfToken := GetCsrfToken(page)), cfg, x.submit)
  }

  /**
    The second half of a login: post the form once the read delay has
    passed, and accept a 200, 302 or 303 answer showing a success indicator.
  */
  function PostLoginFormStep(s: ApiState, cfg: Config, submit: Reply<SubmitPage>): LoginOutcome {
    var s2 := RateLimited(s, cfg, false);
    match submit
    case TransportError(e) => Failed(s2, true, true, "Network error: " + e)
    case Response(status, body) =>
      if status == 200 || status == 302 || status == 303 then
        match body
        case Unreadable(e) => Failed(s2, true, false, "Failed to parse login response: " + e)
        case Read(answer) =>
          if ShowsLoggedIn(answer.html) then
            LoginOutcome(s2.(loggedIn := true, failedLoginAttempts := 0, password := None), LoggedIn)
          else Failed(s2, true, true, "Login failed: " + CredentialsError(answer.errorTexts))
      else Failed(s2, true, true, "Login failed with status: " + IntString(status))
  }

  /** The login page was fetched with status 200 and read. */
  predicate PageLoaded(x: LoginExchange) {
    x.page.Response? && x.page.status == 200 && x.page.body.Read?
  }

  /** The posted form was answered with 200, 302 or 303 and a readable page. */
  predicate SubmitAccepted(x: LoginExchange) {
    && x.submit.Response?
    && (x.submit.status == 200 || x.submit.status == 302 || x.submit.status == 303)
    && x.submit.body.Read?
  }

  /**
    A login succeeds exactly when the login page loads and the answer to the
    posted form is accepted and shows a success indicator.  Then the client
    is logged in, the failure count is cleared, the password is forgotten,
    the session is open and the CSRF token is the one the login page offered.
  */
  lemma LoginSuccess(s: ApiState, cfg: Config, x: LoginExchange)
    ensures var o := LoginStep(s, cfg, x);
            && (o.result == LoggedIn <==>
                  PageLoaded(x) && SubmitAccepted(x) && ShowsLoggedIn(x.submit.body.value.html))
            && (o.result == LoggedIn ==>
                  && o.state.loggedIn && o.state.failedLoginAttempts == 0
                  && o.state.password.None? && o.state.sessionOpen
                  && o.state.csrfToken == GetCsrfToken(x.page.body.value))
  {
  }

  /**
    A failed login leaves the logged-in flag and the password as they were.
    It counts as a failure except when the login page answers with a status
    other than 200; it closes the session except when a body cannot be read.
  */
  lemma LoginFailure(s: ApiState, cfg: Config, x: LoginExchange)
    requires LoginStep(s, cfg, x).result.LoginFailed?
    ensures var o := LoginStep(s, cfg, x);
            var pageRefused := x.page.Response? && x.page.status != 200;
            var unreadable := (x.page.Response? && x.page.status == 200 && x.page.body.Unreadable?)
                              || (PageLoaded(x) && x.submit.Response? && x.submit.body.Unreadable?
                                  && (x.submit.status == 200 || x.submit.status == 302 || x.submit.status == 303));
            && o.state.loggedIn == s.loggedIn
            && o.state.password == s.password
            && o.state.failedLoginAttempts == (if pageRefused then s.failedLoginAttempts else s.failedLoginAttempts + 1)
            && (o.state.sessionOpen <==> unreadable)
  {
  }

  /** The message of a login that is refused with no error text on the page. */
  lemma InvalidCredentialsMessage(s: ApiState, cfg: Config, x: LoginExchange)
    requires PageLoaded(x) && SubmitAccepted(x)
    requires !ShowsLoggedIn(x.submit.body.value.html) && x.submit.body.value.errorTexts == []
    ensures LoginStep(s, cfg, x).result == LoginFailed("Login failed: Invalid credentials")
  {
    assert Take(x.submit.body.value.errorTexts, 3) == [];
    assert CredentialsError(x.submit.body.value.errorTexts) == "Invalid credentials";
    var s1 := RateLimited(BackedOff(s), cfg, false).(csrfToken := GetCsrfToken(x.page.body.value));
    assert LoginStep(s, cfg, x) == PostLoginFormStep(s1, cfg, x.submit);
  }

  /**
    The attempt is stamped once the backoff has passed: only after a failure,
    with an earlier truthy stamp, does the login wait, and then exactly until
    the backoff after that stamp has passed (not at all when it already
    has); otherwise the attempt is stamped with the clock of the call.
  */
  lemma LoginBackoff(s: ApiState, cfg: Config, x: LoginExchange)
    ensures var o := LoginStep(s, cfg, x);
            && o.state.lastLoginAttemptTime.Some?
            && o.state.lastLoginAttemptTime.value >= s.clock
            && o.state.clock >= o.state.lastLoginAttemptTime.value
            && (s.failedLoginAttempts > 0 && TruthyTime(s.lastLoginAttemptTime) ==>
                  o.state.lastLoginAttemptTime.value
                  >= s.lastLoginAttemptTime.value + BackoffSeconds(s.failedLoginAttempts) * 1000)
    ensures !(s.failedLoginAttempts > 0 && TruthyTime(s.lastLoginAttemptTime)) ==>
              LoginStep(s, cfg, x).state.lastLoginAttemptTime == Some(s.clock)
    ensures s.failedLoginAttempts > 0 && TruthyTime(s.lastLoginAttemptTime) ==>
              var due := s.lastLoginAttemptTime.value + BackoffSeconds(s.failedLoginAttempts) * 1000;
              LoginStep(s, cfg, x).state.lastLoginAttemptTime == Some(if s.clock < due then due else s.clock)
  {
    LoginKeepsStamp(s, cfg, x);
  }

  /** Whatever the exchanges, the login ends with the stamp the backoff set, and no earlier. */
  lemma LoginKeepsStamp(s: ApiState, cfg: Config, x: LoginExchange)
    ensures LoginStep(s, cfg, x).state.lastLoginAttemptTime == BackedOff(s).lastLoginAttemptTime
    ensures LoginStep(s, cfg, x).state.clock >= BackedOff(s).clock
  {
    var s1 := RateLimited(BackedOff(s), cfg, false);
    if PageLoaded(x) {
      var s2 := s1.(csrfToken := GetCsrfToken(x.page.body.value));
      assert LoginStep(s, cfg, x) == PostLoginFormStep(s2, cfg, x.submit);
    }
  }

  // ---------------------------------------------------------------------------
  // Close
  // ---------------------------------------------------------------------------

  /** Close: the session is closed, the client logged out and the CSRF token dropped. */
  function CloseStep(s: ApiState): ApiState {
    s.(sessionOpen := false, loggedIn := false, csrfToken := None)
  }

  /** After close nothing of the login remains but the failure count and stamps; closing twice is closing once. */
  lemma CloseForgetsLogin(s: ApiState)
    ensures !CloseStep(s).sessionOpen && !CloseStep(s).loggedIn && CloseStep(s).csrfToken.None?
    ensures CloseStep(CloseStep(s)) == CloseStep(s)
    ensures CloseStep(s).failedLoginAttempts == s.failedLoginAttempts && CloseStep(s).password == s.password
  {
  }

  // ---------------------------------------------------------------------------
  // Data calls
  // ---------------------------------------------------------------------------

  datatype ApiException = AuthError(message: string) | ApiError(message: string)

  /** A call either returns a value or raises. */
  datatype Outcome<T> = Value(value: T) | Raised(error: ApiException)

  /** The state after a call, and what it returned or raised. */
  datatype Step<T> = Step(state: ApiState, outcome: Outcome<T>)

  /** The preamble of a data call: either ready to go, or the login it needed raised. */
  datatype Prepared = Ready(state: ApiState) | LoginRaised(state: ApiState, message: string)

  /** Log in when not logged in, then make sure a session is open. */
  function PrepareStep(s: ApiState, cfg: Config, x: LoginExchange): Prepared {
    if s.loggedIn then Ready(s.(sessionOpen := true))
    else
      var o := LoginStep(s, cfg, x);
      match o.result
      case LoggedIn => Ready(o.state.(sessionOpen := true))
      case LoginFailed(m) => LoginRaised(o.state, m)
  }

  /** The body of a 200 reply, if it could be read. */
  function PageOf<T>(reply: Reply<T>): Option<T> {
    if reply.Response? && reply.status == 200 && reply.body.Read? then Some(reply.body.value) else None
  }

  /** Product search: any failure after the preamble gives an empty list. */
  function SearchStep(s: ApiState, cfg: Config, x: LoginExchange, reply: Reply<seq<Container>>, maxResults: nat): Step<seq<Product>> {
    match PrepareStep(s, cfg, x)
    case LoginRaised(s1, m) => Step(s1, Raised(AuthError(m)))
    case Ready(s1) =>
      var s2 := RateLimited(s1, cfg, false);
      match PageOf(reply)
      case Some(containers) => Step(s2, Value(ProductsFrom(Take(containers, maxResults))))
      case None => Step(s2, Value([]))
  }

  /** The basket: any failure after the preamble gives an empty list. */
  function GetBasketStep(s: ApiState, cfg: Config, x: LoginExchange, reply: Reply<seq<BasketElement>>): Step<seq<BasketItem>> {
    match PrepareStep(s, cfg, x)
    case LoginRaised(s1, m) => Step(s1, Raised(AuthError(m)))
    case Ready(s1) =>
      var s2 := RateLimited(s1, cfg, false);
      match PageOf(reply)
      case Some(elements) => Step(s2, Value(ItemsFrom(elements)))
      case None => Step(s2, Value([]))
  }

  /** The `_csrf` field of a request: the client's token when it is truthy, else absent. */
  function CsrfField(token: Option<string>): Option<string> {
    if TruthyString(token) then token else None
  }

  /** The basket POST is sent: its body carries the product, the quantity and the client's token. */
  function Posted(s: ApiState, productId: string, quantity: int): ApiState {
    s.(basketRequests := s.basketRequests + [BasketRequest(productId, quantity, CsrfField(s.csrfToken))])
  }

  /**
    Add to basket as written: the preamble runs outside the error handling,
    so a failed login raises instead of reaching the handler meant for
    authentication errors.
  */
  function AddToBasketAsWrittenStep(s: ApiState, cfg: Config, x: LoginExchange, productId: string, quantity: int,
                                    reply: Reply<AddResponse>): Step<BasketOperationResult> {
    match PrepareStep(s, cfg, x)
    case LoginRaised(s1, m) => Step(s1, Raised(AuthError(m)))
    case Ready(s1) => Step(Posted(RateLimited(s1, cfg, true), productId, quantity), Value(ClassifyAddReply(reply)))
  }

  /** Add to basket with the preamble inside the error handling: a failed login is reported as a failed result. */
  function AddToBasketStep(s: ApiState, cfg: Config, x: LoginExchange, productId: string, quantity: int,
                           reply: Reply<AddResponse>): Step<BasketOperationResult> {
    match PrepareStep(s, cfg, x)
    case LoginRaised(s1, m) => Step(s1, Value(BasketOperationResult(false, "Authentication error: " + m, None)))
    case Ready(s1) => Step(Posted(RateLimited(s1, cfg, true), productId, quantity), Value(ClassifyAddReply(reply)))
  }

  /** The account page as the data fetch reads it. */
  datatype AccountPage = AccountPage(clubcardElements: seq<PointsMatches>, pageText: PointsMatches, deliveryElements: seq<DeliveryMatches>)

  /** What the coordinator receives: the full record, or the reduced one when the account page is not 200. */
  datatype TescoData =
    | AccountData(clubcardPoints: nat, nextDelivery: Option<string>, deliverySlot: Option<string>,
                  orderNumber: Option<string>, basketItems: seq<BasketItem>)
    | AccountUnavailable

  /**
    The periodic fetch: after the preamble (whose login failure propagates),
    read the account page; a status other than 200 gives the reduced record;
    a transport or read error raises an API error, without logging in again;
    otherwise the balance, the delivery and the basket (fetched in turn) are
    returned.
  */
  function GetDataStep(s: ApiState, cfg: Config, x: LoginExchange, account: Reply<AccountPage>,
                   basket: Reply<seq<BasketElement>>): Step<TescoData> {
    match PrepareStep(s, cfg, x)
    case LoginRaised(s1, m) => Step(s1, Raised(AuthError(m)))
    case Ready(s1) =>
      var s2 := RateLimited(s1, cfg, false);
      match account
      case TransportError(e) => Step(s2, Raised(ApiError("Failed to fetch data: " + e)))
      case Response(status, body) =>
        if status != 200 then Step(s2, Value(AccountUnavailable))
        else match body
          case Unreadable(e) => Step(s2, Raised(ApiError("Failed to fetch data: " + e)))
          case Read(page) =>
            var points := ParseClubcardPoints(page.clubcardElements, page.pageText);
            var info := DeliveryInfoOf(page.deliveryElements);
            var b := GetBasketStep(s2, cfg, x, basket);
            match b.outcome
            case Value(items) =>
              Step(b.state, Value(AccountData(points, info.nextDelivery, info.deliverySlot, info.orderNumber, items)))
            case Raised(err) => Step(b.state, Raised(ApiError("Failed to fetch data: " + err.message)))
  }

  /**
    Once logged in, search, basket and add never raise: every failure after
    the preamble becomes an empty list or a failed result.  Add raises only
    through the login it runs first.
  */
  lemma LoggedInCallsDoNotRaise(s: ApiState, cfg: Config, x: LoginExchange, products: Reply<seq<Container>>,
                                maxResults: nat, lines: Reply<seq<BasketElement>>, productId: string, quantity: int,
                                added: Reply<AddResponse>)
    requires s.loggedIn
    ensures SearchStep(s, cfg, x, products, maxResults).outcome.Value?
    ensures GetBasketStep(s, cfg, x, lines).outcome.Value?
    ensures AddToBasketAsWrittenStep(s, cfg, x, productId, quantity, added).outcome.Value?
    ensures AddToBasketAsWrittenStep(s, cfg, x, productId, quantity, added).outcome.value == ClassifyAddReply(added)
  {
  }

  /**
    Search and the basket read log in before their error handling, so a
    failed login escapes them as an authentication error, unlike every
    failure after it, which gives an empty list.
  */
  lemma SearchAndBasketRaiseOnLogin(s: ApiState, cfg: Config, x: LoginExchange, products: Reply<seq<Container>>,
                                    maxResults: nat, lines: Reply<seq<BasketElement>>)
    requires !s.loggedIn && LoginStep(s, cfg, x).result.LoginFailed?
    ensures SearchStep(s, cfg, x, products, maxResults)
         == Step(LoginStep(s, cfg, x).state, Raised(AuthError(LoginStep(s, cfg, x).result.message)))
    ensures GetBasketStep(s, cfg, x, lines)
         == Step(LoginStep(s, cfg, x).state, Raised(AuthError(LoginStep(s, cfg, x).result.message)))
  {
  }

  /**
    The fetch never retries a login: when the account page fails while
    logged in, the error is raised at once and no login is attempted (the
    failure count and the attempt stamp are unchanged, the client stays
    logged in).
  */
  lemma GetDataDoesNotRetry(s: ApiState, cfg: Config, x: LoginExchange, account: Reply<AccountPage>,
                            basket: Reply<seq<BasketElement>>)
    requires s.loggedIn && (account.TransportError? || (account.Response? && account.status == 200 && account.body.Unreadable?))
    ensures var r := GetDataStep(s, cfg, x, account, basket);
            && r.outcome.Raised? && r.outcome.error.ApiError?
            && r.outcome.error.message == "Failed to fetch data: " + (if account.TransportError? then account.reason else account.body.reason)
            && r.state.loggedIn
            && r.state.failedLoginAttempts == s.failedLoginAttempts
            && r.state.lastLoginAttemptTime == s.lastLoginAttemptTime
  {
  }

  /**
    When the login the fetch needs fails, the fetch raises that
    authentication error whatever the account and basket pages would have
    been.
  */
  lemma GetDataLoginFailurePropagates(s: ApiState, cfg: Config, x: LoginExchange, account: Reply<AccountPage>,
                                      basket: Reply<seq<BasketElement>>)
    requires !s.loggedIn && LoginStep(s, cfg, x).result.LoginFailed?
    ensures GetDataStep(s, cfg, x, account, basket)
         == Step(LoginStep(s, cfg, x).state, Raised(AuthError(LoginStep(s, cfg, x).result.message)))
  {
  }

  /**
    A full fetch: the record carries the balance, the delivery info and the
    basket; the basket page is requested one full read delay after the
    account page (unless the account read was stamped at clock 0, which
    Python's truthiness treats as no earlier read), and is the last read
    stamped.
  */
  lemma GetDataRecord(s: ApiState, cfg: Config, x: LoginExchange, account: Reply<AccountPage>,
                      basket: Reply<seq<BasketElement>>)
    requires s.loggedIn
    requires PageOf(account).Some?
    ensures var r := GetDataStep(s, cfg, x, account, basket);
            var page := PageOf(account).value;
            var accountTime := RateLimited(s, cfg, false).clock;
            && r.outcome.Value?
            && r.outcome.value == AccountData(ParseClubcardPoints(page.clubcardElements, page.pageText),
                                              FirstSome(Dates(page.deliveryElements)),
                                              FirstSome(Slots(page.deliveryElements)),
                                              LastSome(OrderNumbers(page.deliveryElements)),
                                              match PageOf(basket) case Some(lines) => ItemsFrom(lines) case None => [])
            && r.state.lastReadTime == Some(r.state.clock)
            && (accountTime != 0 ==> r.state.clock == accountTime + cfg.readDelay)
  {
  }

  /** The reduced record is returned, without raising, when the account page answers other than 200. */
  lemma GetDataUnavailable(s: ApiState, cfg: Config, x: LoginExchange, account: Reply<AccountPage>,
                           basket: Reply<seq<BasketElement>>)
    requires s.loggedIn && account.Response? && account.status != 200
    ensures GetDataStep(s, cfg, x, account, basket).outcome == Value(AccountUnavailable)
  {
  }

  /**
    The add-to-basket handler for authentication errors is never reached as
    written: a client that is not logged in and whose login page cannot be
    fetched raises instead of returning a failed result.
  */
  lemma AddToBasketAsWrittenRaisesOnLogin(s: ApiState, cfg: Config, reason: string, submit: Reply<SubmitPage>,
                                          productId: string, quantity: int, reply: Reply<AddResponse>)
    requires !s.loggedIn
    ensures var x := LoginExchange(TransportError(reason), submit);
            var r := AddToBasketAsWrittenStep(s, cfg, x, productId, quantity, reply);
            r.outcome == Raised(AuthError("Network error: " + reason)) && r.state.basketRequests == s.basketRequests
  {
    var x := LoginExchange(TransportError(reason), submit);
    assert LoginStep(s, cfg, x).result == LoginFailed("Network error: " + reason);
  }

  /**
    With the login inside the error handling, add to basket never raises: a
    failed login gives a failed result naming the authentication error, and
    otherwise the reply is classified as before.
  */
  lemma AddToBasketReportsAuthErrors(s: ApiState, cfg: Config, x: LoginExchange, productId: string, quantity: int,
                                     reply: Reply<AddResponse>)
    ensures AddToBasketStep(s, cfg, x, productId, quantity, reply).outcome.Value?
    ensures !s.loggedIn && LoginStep(s, cfg, x).result.LoginFailed? ==>
              AddToBasketStep(s, cfg, x, productId, quantity, reply).outcome.value
              == BasketOperationResult(false, "Authentication error: " + LoginStep(s, cfg, x).result.message, None)
    ensures !(!s.loggedIn && LoginStep(s, cfg, x).result.LoginFailed?) ==>
              AddToBasketStep(s, cfg, x, productId, quantity, reply)
              == AddToBasketAsWrittenStep(s, cfg, x, productId, quantity, reply)
  {
  }

  /**
    Only add to basket sends a basket request, and it sends exactly one, with
    the given product and quantity and the token the client then holds, once
    the preamble succeeds; a failed login sends none.  The login, search and
    the basket read send none.
  */
  lemma BasketRequestsSent(s: ApiState, cfg: Config, x: LoginExchange, productId: string, quantity: int,
                           reply: Reply<AddResponse>, products: Reply<seq<Container>>, maxResults: nat,
                           lines: Reply<seq<BasketElement>>)
    ensures LoginStep(s, cfg, x).state.basketRequests == s.basketRequests
    ensures SearchStep(s, cfg, x, products, maxResults).state.basketRequests == s.basketRequests
    ensures GetBasketStep(s, cfg, x, lines).state.basketRequests == s.basketRequests
    ensures var r := AddToBasketStep(s, cfg, x, productId, quantity, reply);
            match PrepareStep(s, cfg, x)
            case LoginRaised(_, _) => r.state.basketRequests == s.basketRequests
            case Ready(s1) =>
              r.state.basketRequests == s.basketRequests + [BasketRequest(productId, quantity, CsrfField(s1.csrfToken))]
  {
  }

  /** A search that returns leaves the client logged in, so a following call needs no login. */
  lemma SearchValueLoggedIn(s: ApiState, cfg: Config, x: LoginExchange, products: Reply<seq<Container>>, maxResults: nat)
    ensures SearchStep(s, cfg, x, products, maxResults).outcome.Value? ==>
              SearchStep(s, cfg, x, products, maxResults).state.loggedIn
  {
  }

  // ---------------------------------------------------------------------------
  // The client
  // ---------------------------------------------------------------------------

  class TescoApi {
    const email: string
    const readDelay: nat
    const writeDelay: nat

    var password: Option<string>
    var sessionOpen: bool
    var loggedIn: bool
    var csrfToken: Option<string>
    var lastReadTime: Option<int>
    var lastWriteTime: Option<int>
    var failedLoginAttempts: nat
    var lastLoginAttemptTime: Option<int>
    /** The monotonic clock, in milliseconds. */
    var clock: int
    /** The bodies of the add-to-basket requests sent so far, oldest first. */
    var basketRequests: seq<BasketRequest>

    function Settings(): Config {
      Config(email, readDelay, writeDelay)
    }

    function State(): ApiState
      reads this
    {
      ApiState(password, sessionOpen, loggedIn, csrfToken, lastReadTime, lastWriteTime,
               failedLoginAttempts, lastLoginAttemptTime, clock, basketRequests)
    }

    /** A new client: no session, not logged in, no token, no request or attempt yet. */
    constructor (email: string, password: string, readDelay: nat, writeDelay: nat, clock: int)
      ensures Settings() == Config(email, readDelay, writeDelay)
      ensures State() == ApiState(Some(password), false, false, None, None, None, 0, None, clock, [])
    {
      this.email := email;
      this.readDelay := readDelay;
      this.writeDelay := writeDelay;
      this.password := Some(password);
      sessionOpen := false;
      loggedIn := false;
      csrfToken := None;
      lastReadTime := None;
      lastWriteTime := None;
      failedLoginAttempts := 0;
      lastLoginAttemptTime := None;
      this.clock := clock;
      basketRequests := [];
    }

    /** Time passes between calls. */
    method Elapse(d: nat)
      modifies this
      ensures State() == old(State()).(clock := old(clock) + d)
    {
      clock := clock + d;
    }

    method RateLimit(isWrite: bool)
      modifies this
      ensures State() == RateLimited(old(State()), Settings(), isWrite)
    {
      var delay := if isWrite then writeDelay else readDelay;
      var last := if isWrite then lastWriteTime else lastReadTime;
      if last.Some? && last.value != 0 {
        var elapsed := clock - last.value;
        if elapsed < delay {
          clock := clock + (delay - elapsed);
        }
      }
      if isWrite {
        lastWriteTime := Some(clock);
      } else {
        lastReadTime := Some(clock);
      }
    }

    method Login(x: LoginExchange) returns (result: LoginResult)
      modifies this
      ensures LoginStep(old(State()), Settings(), x) == LoginOutcome(State(), result)
    {
      if failedLoginAttempts > 0 && lastLoginAttemptTime.Some? && lastLoginAttemptTime.value != 0 {
        var backoff := BackoffSeconds(failedLoginAttempts) * 1000;
        var elapsed := clock - lastLoginAttemptTime.value;
        if elapsed < backoff {
          clock := clock + (backoff - elapsed);
        }
      }
      lastLoginAttemptTime := Some(clock);
      sessionOpen := true;
      assert State() == BackedOff(old(State()));
      RateLimit(false);
      match x.page {
        case TransportError(e) =>
          sessionOpen := false;
          failedLoginAttempts := failedLoginAttempts + 1;
          return LoginFailed("Network error: " + e);
        case Response(status, body) =>
          if status != 200 {
            sessionOpen := false;
            return LoginFailed("Failed to load login page: " + IntString(status));
          }
          if body.Unreadable? {
            failedLoginAttempts := failedLoginAttempts + 1;
            return LoginFailed("Failed to parse login response: " + body.reason);
          }
          csrfToken := GetCsrfToken(body.value);
          assert LoginStep(old(State()), Settings(), x) == PostLoginFormStep(State(), Settings(), x.submit);
      }
      result := PostLoginForm(x.submit);
    }

    method PostLoginForm(submit: Reply<SubmitPage>) returns (result: LoginResult)
      modifies this
      ensures PostLoginFormStep(old(State()), Settings(), submit) == LoginOutcome(State(), result)
    {
      RateLimit(false);
      match submit {
        case TransportError(e) =>
          sessionOpen := false;
          failedLoginAttempts := failedLoginAttempts + 1;
          return LoginFailed("Network error: " + e);
        case Response(status, body) =>
          if status == 200 || status == 302 || status == 303 {
            if body.Unreadable? {
              failedLoginAttempts := failedLoginAttempts + 1;
              return LoginFailed("Failed to parse login response: " + body.reason);
            }
            if ShowsLoggedIn(body.value.html) {
              loggedIn := true;
              failedLoginAttempts := 0;
              password := None;
              return LoggedIn;
            }
            failedLoginAttempts := failedLoginAttempts + 1;
            sessionOpen := false;
            return LoginFailed("Login failed: " + CredentialsError(body.value.errorTexts));
          }
          failedLoginAttempts := failedLoginAttempts + 1;
          sessionOpen := false;
          return LoginFailed("Login failed with status: " + IntString(status));
      }
    }

    /** The preamble of every data call. */
    method Prepare(x: LoginExchange) returns (failure: Option<string>)
      modifies this
      ensures PrepareStep(old(State()), Settings(), x)
           == if failure.Some? then LoginRaised(State(), failure.value) else Ready(State())
    {
      if !loggedIn {
        var result := Login(x);
        if result.LoginFailed? {
          return Some(result.message);
        }
      }
      sessionOpen := true;
      return None;
    }

    method SearchProducts(x: LoginExchange, reply: Reply<seq<Container>>, maxResults: nat)
      returns (outcome: Outcome<seq<Product>>)
      modifies this
      ensures SearchStep(old(State()), Settings(), x, reply, maxResults) == Step(State(), outcome)
    {
      var failure := Prepare(x);
      if failure.Some? {
        return Raised(AuthError(failure.value));
      }
      RateLimit(false);
      if reply.Response? && reply.status == 200 && reply.body.Read? {
        var products := CollectProducts(reply.body.value, maxResults);
        return Value(products);
      }
      return Value([]);
    }

    method GetBasket(x: LoginExchange, reply: Reply<seq<BasketElement>>) returns (outcome: Outcome<seq<BasketItem>>)
      modifies this
      ensures GetBasketStep(old(State()), Settings(), x, reply) == Step(State(), outcome)
    {
      var failure := Prepare(x);
      if failure.Some? {
        return Raised(AuthError(failure.value));
      }
      RateLimit(false);
      if reply.Response? && reply.status == 200 && reply.body.Read? {
        var items := CollectBasketItems(reply.body.value);
        return Value(items);
      }
      return Value([]);
    }

    /** Add to basket, with a failed login reported as a failed result. */
    method AddToBasket(x: LoginExchange, productId: string, quantity: int, reply: Reply<AddResponse>)
      returns (result: BasketOperationResult)
      modifies this
      ensures AddToBasketStep(old(State()), Settings(), x, productId, quantity, reply) == Step(State(), Value(result))
    {
      var failure := Prepare(x);
      if failure.Some? {
        return BasketOperationResult(false, "Authentication error: " + failure.value, None);
      }
      RateLimit(true);
      var csrf := if csrfToken.Some? && csrfToken.value != "" then csrfToken else None;
      basketRequests := basketRequests + [BasketRequest(productId, quantity, csrf)];
      return ClassifyAddReply(reply);
    }

    method GetData(x: LoginExchange, account: Reply<AccountPage>, basket: Reply<seq<BasketElement>>)
      returns (outcome: Outcome<TescoData>)
      modifies this
      ensures GetDataStep(old(State()), Settings(), x, account, basket) == Step(State(), outcome)
    {
      var failure := Prepare(x);
      if failure.Some? {
        return Raised(AuthError(failure.value));
      }
      RateLimit(false);
      match account {
        case TransportError(e) =>
          return Raised(ApiError("Failed to fetch data: " + e));
        case Response(status, body) =>
          if status != 200 {
            return Value(AccountUnavailable);
          }
          if body.Unreadable? {
            return Raised(ApiError("Failed to fetch data: " + body.reason));
          }
          var page := body.value;
          var points := ParseClubcardPoints(page.clubcardElements, page.pageText);
          var info := ParseDeliveryInfo(page.deliveryElements);
          var items := GetBasket(x, basket);
          if items.Raised? {
            return Raised(ApiError("Failed to fetch data: " + items.error.message));
          }
          return Value(AccountData(points, info.nextDelivery, info.deliverySlot, info.orderNumber, items.value));
      }
    }

    method Close()
      modifies this
      ensures State() == CloseStep(old(State()))
    {
      sessionOpen := false;
      loggedIn := false;
      csrfToken := None;
    }
  }
}
