/**
 The HTTP driver as a transition system.

 Each operation of the driver is a function from a driver state to a result and a new
 state. The network is an arbitrary function of the whole history and of the fetch
 being made, so a statement for all networks is a statement for all runs.
 One call runs at a time: the driver takes no lock, and two overlapping calls could
 send a token of one origin to another.
 */
module HttpModel {
  import opened Wrappers
  import opened Origins

  const HTTP_UNAUTHORIZED := 401
  const HTTP_MISDIRECTED := 421
  const PRIMARY_FAILOVER_RETRIES: nat := 3
  const TRANSIENT_SIGNIN_ERROR_CODES: set<Code> := {HDR2, SRV14, CSV8, CSV9}

  // ----- what travels -----

  /** What a call asks for; the same for every fetch made on its behalf. */
  datatype Call = Call(method_: string, path: string, body: Option<string>)

  /** Error codes: those the driver knows, and any other text. */
  datatype Code = HDR1 | HDR2 | SRV14 | CSV8 | CSV9 | OtherCode(text: string)

  /** Error messages: a server's text, or one of the three that the driver writes. */
  datatype Message =
    | ServerText(text: string)
    | NoServerAtAll
    | CannotConnectTo(origin: string)
    | UnexpectedSignin(origin: string, status: int)

  /** The string members of a JSON body that the driver looks at; all None if there is no JSON. */
  datatype Json = Json(token: Option<string>, code: Option<Code>, message: Option<string>, primaryAddress: Option<string>)
  {
    predicate IsApiError() { code.Some? && message.Some? }
    predicate IsMisdirectedError() { code.Some? && message.Some? && primaryAddress.Some? }
  }

  datatype Fetch =
    | SignInFetch(origin: string)
    | CallFetch(origin: string, token: string, call: Call)

  datatype Answer = Unreachable | Reply(status: int, json: Json)

  predicate OkStatus(status: int) {
    200 <= status <= 299
  }

  /** History of a driver. `BodyRead(k)` consumes the body answered to the k-th event. */
  datatype Event = Fetched(fetch: Fetch, answer: Answer) | BodyRead(at: nat) | Waited

  type Network = (seq<Event>, Fetch) -> Answer

  datatype Env = Env(params: DriverParams, url: UrlParser, net: Network)

  // ----- results -----

  datatype ApiErrorResponse = ApiErrorResponse(code: Code, message: Message, status: int)

  /** A response is identified by the event that brought it. */
  datatype Response = Response(at: nat, status: int, json: Json)
  {
    predicate IsOk() { OkStatus(status) }
  }

  /** Outcome of trying one origin: a response, a sign-in error to report, or no contact. */
  datatype TryResult = GotResponse(resp: Response) | GotError(err: ApiErrorResponse) | NoResponse

  datatype Final = Answered(resp: Response) | Failed(err: ApiErrorResponse)
  {
    function Status(): int { if Answered? then resp.status else err.status }
  }

  datatype TokenResult = TokenOk(token: string) | TokenErr(err: ApiErrorResponse)

  function DriverError(code: Code, message: Message): ApiErrorResponse {
    ApiErrorResponse(code, message, 503)
  }

  const CANNOT_CONNECT: ApiErrorResponse := DriverError(HDR1, NoServerAtAll)

  // ----- states and steps -----

  datatype State = State(token: Option<string>, currentOrigin: string, log: seq<Event>)

  datatype Sent = Sent(answer: Answer, state: State)
  datatype Signed = Signed(result: TokenResult, state: State)
  datatype Tried = Tried(result: TryResult, state: State)

  function InitialState(env: Env): State
    requires env.params.Usable()
  {
    State(None, RemoteOrigin(env.params), [])
  }

  function SwitchOrigin(s: State, origin: string): State {
    s.(currentOrigin := origin, token := None)
  }

  function Send(env: Env, s: State, fetch: Fetch): Sent {
    var answer := env.net(s.log, fetch);
    Sent(answer, s.(log := s.log + [Fetched(fetch, answer)]))
  }

  /** What a sign-in answered means, apart from storing the token. */
  function SigninMeaning(origin: string, answer: Answer): TokenResult {
    match answer
    case Unreachable => TokenErr(DriverError(HDR2, CannotConnectTo(origin)))
    case Reply(status, json) =>
      if OkStatus(status) && json.token.Some? then TokenOk(json.token.value)
      else if json.IsApiError() then TokenErr(ApiErrorResponse(json.code.value, ServerText(json.message.value), status))
      else TokenErr(DriverError(HDR2, UnexpectedSignin(origin, status)))
  }

  function SigninOnce(env: Env, s: State): Signed {
    var sent := Send(env, s, SignInFetch(s.currentOrigin));
    var result := SigninMeaning(s.currentOrigin, sent.answer);
    Signed(result, if result.TokenOk? then sent.state.(token := Some(result.token)) else sent.state)
  }

  /** A stored token is reused unless it is the empty string, which counts as none. */
  function GetToken(env: Env, s: State): Signed {
    if s.token.Some? && s.token.value != "" then Signed(TokenOk(s.token.value), s)
    else SigninOnce(env, s)
  }

  predicate Transient(err: ApiErrorResponse) {
    err.code in TRANSIENT_SIGNIN_ERROR_CODES
  }

  function TokenErrToResult(err: ApiErrorResponse): TryResult {
    if Transient(err) then NoResponse else GotError(err)
  }

  /** The answer to the last event of the log, as a response. */
  function LastResponse(sent: Sent): Response
    requires sent.answer.Reply? && |sent.state.log| > 0
  {
    Response(|sent.state.log| - 1, sent.answer.status, sent.answer.json)
  }

  /** One origin: sign in if needed, send, and on 401 sign in and send once more. */
  function TryApiReq(env: Env, s: State, call: Call): Tried {
    var signed := GetToken(env, s);
    if signed.result.TokenErr? then Tried(TokenErrToResult(signed.result.err), signed.state)
    else
      var sent := Send(env, signed.state, CallFetch(s.currentOrigin, signed.result.token, call));
      if sent.answer.Unreachable? then Tried(NoResponse, sent.state)
      else if sent.answer.status != HTTP_UNAUTHORIZED then Tried(GotResponse(LastResponse(sent)), sent.state)
      else TryAgain(env, sent.state, call)
  }

  /** After a 401: sign in afresh and send once more, whatever the answer. */
  function TryAgain(env: Env, s: State, call: Call): Tried {
    var signed := SigninOnce(env, s);
    if signed.result.TokenErr? then Tried(TokenErrToResult(signed.result.err), signed.state)
    else
      var sent := Send(env, signed.state, CallFetch(s.currentOrigin, signed.result.token, call));
      Tried(if sent.answer.Unreachable? then NoResponse else GotResponse(LastResponse(sent)), sent.state)
  }

  /** Where a 421 sends the driver: None if its body names no other origin. */
  function RedirectTarget(env: Env, origin: string, json: Json): Option<string>
    requires env.params.Usable()
  {
    if !json.IsMisdirectedError() then None
    else
      var target := ResolveOrigin(env.url, env.params, json.primaryAddress.value);
      if target == origin then None else Some(target)
  }

  function ReadBody(s: State, resp: Response): State {
    s.(log := s.log + [BodyRead(resp.at)])
  }

  function FollowMisdirected(env: Env, s: State, resp: Response, call: Call): Tried
    requires env.params.Usable()
  {
    var read := ReadBody(s, resp);
    match RedirectTarget(env, s.currentOrigin, resp.json)
    case None => Tried(NoResponse, read)
    case Some(target) => TryApiReq(env, SwitchOrigin(read, target), call)
  }

  // ----- a round: the current origin, then the other configured ones -----

  /** One try of one origin; `last` is the index of its last event. */
  datatype Attempt = Attempt(origin: string, last: int, result: TryResult)

  /** A try of an origin and, after a 421 naming another origin, a try of that one. */
  datatype Visit = Visit(first: Attempt, redirected: Option<Attempt>)
  {
    /** The origin the driver is on when the visit ends. */
    function Landed(): string {
      if redirected.Some? then redirected.value.origin else first.origin
    }

    function Outcome(): TryResult {
      if first.result.GotResponse? && first.result.resp.status == HTTP_MISDIRECTED
      then if redirected.Some? then redirected.value.result else NoResponse
      else first.result
    }
  }

  datatype Visited = Visited(visit: Visit, state: State)

  function VisitOrigin(env: Env, s: State, call: Call): Visited
    requires env.params.Usable()
  {
    CompleteVisit(env, s, call, TryApiReq(env, s, call))
  }

  /** The visit that begins with an attempt ending in `t`. */
  function CompleteVisit(env: Env, s: State, call: Call, t: Tried): Visited
    requires env.params.Usable()
  {
    if t.result.GotResponse? && t.result.resp.status == HTTP_MISDIRECTED
    then MisdirectedVisit(env, s, t, FollowMisdirected(env, t.state, t.result.resp, call))
    else Visited(Visit(Attempt(s.currentOrigin, |t.state.log| - 1, t.result), None), t.state)
  }

  function MisdirectedVisit(env: Env, s: State, t: Tried, f: Tried): Visited
    requires env.params.Usable() && t.result.GotResponse?
  {
    var first := Attempt(s.currentOrigin, |t.state.log| - 1, t.result);
    match RedirectTarget(env, s.currentOrigin, t.result.resp.json)
    case None => Visited(Visit(first, None), f.state)
    case Some(target) => Visited(Visit(first, Some(Attempt(target, |f.state.log| - 1, f.result))), f.state)
  }

  datatype Scan = Scan(result: TryResult, visits: seq<Visit>, state: State)

  function TryFallbackOrigins(env: Env, s: State, call: Call, origins: seq<string>, tried: set<string>,
                              lastError: Option<Response>): Scan
    requires env.params.Usable()
    decreases |origins|
  {
    if origins == [] then Scan(if lastError.Some? then GotResponse(lastError.value) else NoResponse, [], s)
    else if origins[0] in tried then TryFallbackOrigins(env, s, call, origins[1..], tried, lastError)
    else
      var v := VisitOrigin(env, SwitchOrigin(s, origins[0]), call);
      var outcome := v.visit.Outcome();
      if Decisive(outcome) then Scan(outcome, [v.visit], v.state)
      else
        var lastError' := if outcome.GotResponse? then Some(outcome.resp) else lastError;
        var rest := TryFallbackOrigins(env, v.state, call, origins[1..], tried, lastError');
        rest.(visits := [v.visit] + rest.visits)
  }

  /** An outcome after which no further origin is tried. */
  predicate Decisive(outcome: TryResult) {
    outcome.GotError? || (outcome.GotResponse? && outcome.resp.IsOk())
  }

  datatype Round = Round(result: Final, visits: seq<Visit>, state: State)

  function ApiReqOnce(env: Env, s: State, call: Call): Round
    requires env.params.Usable()
  {
    var v := VisitOrigin(env, s, call);
    var initial := v.visit.Outcome();
    if initial.GotError? then Round(Failed(initial.err), [v.visit], v.state)
    else if initial.GotResponse? && initial.resp.IsOk() then Round(Answered(initial.resp), [v.visit], v.state)
    else
      var tried := {s.currentOrigin, v.state.currentOrigin};
      ChooseAnswer(v, TryFallbackOrigins(env, v.state, call, AllOrigins(env.params), tried, None))
  }

  /** The answer after a first visit that did not decide, and the scan that followed it. */
  function ChooseAnswer(v: Visited, fb: Scan): Round {
    var initial := v.visit.Outcome();
    var visits := [v.visit] + fb.visits;
    if fb.result.GotError? then Round(Failed(fb.result.err), visits, fb.state)
    else if fb.result.GotResponse? && (!initial.GotResponse? || fb.result.resp.IsOk()) then
      Round(Answered(fb.result.resp), visits, fb.state)
    else if initial.GotResponse? then
      Round(Answered(initial.resp), visits, SwitchOrigin(fb.state, v.state.currentOrigin))
    else Round(Failed(CANNOT_CONNECT), visits, fb.state)
  }

  // ----- a call: rounds, while the answer is 421 -----

  datatype Called = Called(result: Final, state: State)

  function Wait(s: State): State {
    s.(log := s.log + [Waited])
  }

  function CallOnce(env: Env, s: State, call: Call): Called
    requires env.params.Usable()
  {
    var r := ApiReqOnce(env, s, call);
    Called(r.result, r.state)
  }

  /** One round of the given call, as a function of the state it starts in. */
  function RoundOf(env: Env, call: Call): State -> Called
    requires env.params.Usable()
  {
    s => CallOnce(env, s, call)
  }

  predicate Misdirected(c: Called) {
    c.result.Status() == HTTP_MISDIRECTED
  }

  function RetryMisdirected(round: State -> Called, c: Called, retries: nat): Called
    decreases retries, c
  {
    if retries > 0 && Misdirected(c) then RetryMisdirected(round, round(Wait(c.state)), retries - 1) else c
  }

  function ApiReq(env: Env, s: State, call: Call): Called
    requires env.params.Usable()
  {
    RetryMisdirected(RoundOf(env, call), CallOnce(env, s, call), PRIMARY_FAILOVER_RETRIES)
  }

  /** The state of a new driver after a sequence of calls. */
  function After(env: Env, calls: seq<Call>): State
    requires env.params.Usable()
  {
    if calls == [] then InitialState(env)
    else ApiReq(env, After(env, calls[..|calls| - 1]), calls[|calls| - 1]).state
  }
}
