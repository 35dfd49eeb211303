/**
 The driver object: the two fields of TypeDBHttpDriver and the history of the network,
 changed step by step by nested loops. Every method is proved to do what the function of
 the same name in HttpModel says.
 */
module HttpDriver {
  import opened Wrappers
  import opened Origins
  import opened HttpModel
  import opened HttpInvariants

  class TypeDBHttpDriver {
    const env: Env
    var token: Option<string>
    var currentOrigin: string
    var log: seq<Event>

    ghost predicate Valid()
      reads this
    {
      env.params.Usable() && DriverInvariant(env, View())
    }

    ghost function View(): State
      reads this
    {
      State(token, currentOrigin, log)
    }

    constructor (env: Env)
      requires env.params.Usable()
      ensures Valid() && this.env == env && View() == InitialState(env)
    {
      this.env := env;
      token := None;
      currentOrigin := RemoteOrigin(env.params);
      log := [];
      new;
      InitialInvariant(env);
    }

    method SwitchOrigin(origin: string)
      modifies this`token, this`currentOrigin
      ensures View() == HttpModel.SwitchOrigin(old(View()), origin)
    {
      currentOrigin := origin;
      token := None;
    }

    method Send(fetch: Fetch) returns (answer: Answer)
      modifies this`log
      ensures Sent(answer, View()) == HttpModel.Send(env, old(View()), fetch)
    {
      answer := env.net(log, fetch);
      log := log + [Fetched(fetch, answer)];
    }

    method SigninOnce() returns (result: TokenResult)
      modifies this`log, this`token
      ensures Signed(result, View()) == HttpModel.SigninOnce(env, old(View()))
    {
      var answer := Send(SignInFetch(currentOrigin));
      if answer.Unreachable? {
        return TokenErr(DriverError(HDR2, CannotConnectTo(currentOrigin)));
      }
      var json := answer.json;
      if OkStatus(answer.status) && json.token.Some? {
        token := json.token;
        return TokenOk(json.token.value);
      }
      if json.IsApiError() {
        return TokenErr(ApiErrorResponse(json.code.value, ServerText(json.message.value), answer.status));
      }
      return TokenErr(DriverError(HDR2, UnexpectedSignin(currentOrigin, answer.status)));
    }

    method GetToken() returns (result: TokenResult)
      modifies this`log, this`token
      ensures Signed(result, View()) == HttpModel.GetToken(env, old(View()))
    {
      if token.Some? && token.value != "" {
        result := TokenOk(token.value);
      } else {
        result := SigninOnce();
      }
    }

    method TryApiReq(call: Call) returns (result: TryResult)
      modifies this`log, this`token
      ensures Tried(result, View()) == HttpModel.TryApiReq(env, old(View()), call)
    {
      var origin := currentOrigin;
      var tokenResp := GetToken();
      if tokenResp.TokenErr? {
        return TokenErrToResult(tokenResp.err);
      }
      var answer := Send(CallFetch(origin, tokenResp.token, call));
      if answer.Unreachable? {
        return NoResponse;
      }
      if answer.status == HTTP_UNAUTHORIZED {
        tokenResp := SigninOnce();
        if tokenResp.TokenErr? {
          return TokenErrToResult(tokenResp.err);
        }
        answer := Send(CallFetch(origin, tokenResp.token, call));
        if answer.Unreachable? {
          return NoResponse;
        }
      }
      return GotResponse(Response(|log| - 1, answer.status, answer.json));
    }

    method SwitchToRedirectTarget(resp: Response) returns (switched: bool)
      requires env.params.Usable()
      modifies this
      ensures switched <==> RedirectTarget(env, old(currentOrigin), resp.json).Some?
      ensures View() == var read := ReadBody(old(View()), resp);
                        if switched
                        then HttpModel.SwitchOrigin(read, RedirectTarget(env, old(currentOrigin), resp.json).value)
                        else read
    {
      log := log + [BodyRead(resp.at)];
      if !resp.json.IsMisdirectedError() {
        return false;
      }
      var newOrigin := ResolveOrigin(env.url, env.params, resp.json.primaryAddress.value);
      if newOrigin == currentOrigin {
        return false;
      }
      SwitchOrigin(newOrigin);
      return true;
    }

    method FollowMisdirected(resp: Response, call: Call) returns (result: TryResult)
      requires env.params.Usable()
      modifies this
      ensures Tried(result, View()) == HttpModel.FollowMisdirected(env, old(View()), resp, call)
    {
      var switched := SwitchToRedirectTarget(resp);
      if switched {
        result := TryApiReq(call);
      } else {
        result := NoResponse;
      }
    }

    method TryFallbackOrigins(call: Call, tried: set<string>) returns (result: TryResult)
      requires env.params.Usable()
      modifies this
      ensures var scan := HttpModel.TryFallbackOrigins(env, old(View()), call, AllOrigins(env.params), tried, None);
              result == scan.result && View() == scan.state
    {
      var origins := AllOrigins(env.params);
      var lastError: Option<Response> := None;
      ghost var scan := HttpModel.TryFallbackOrigins(env, View(), call, origins, tried, None);
      assert origins[0..] == origins;
      for i := 0 to |origins|
        invariant var rest := HttpModel.TryFallbackOrigins(env, View(), call, origins[i..], tried, lastError);
                  rest.result == scan.result && rest.state == scan.state
      {
        assert origins[i..][0] == origins[i] && origins[i..][1..] == origins[i + 1..];
        if origins[i] in tried {
          continue;
        }
        SwitchOrigin(origins[i]);
        var initial := TryApiReq(call);
        if initial.NoResponse? {
          continue;
        }
        if initial.GotError? {
          return initial;
        }
        var resp := initial.resp;
        if resp.status == HTTP_MISDIRECTED {
          var redirected := FollowMisdirected(resp, call);
          if redirected.NoResponse? {
            continue;
          }
          if redirected.GotError? {
            return redirected;
          }
          resp := redirected.resp;
        }
        if resp.IsOk() {
          return GotResponse(resp);
        }
        lastError := Some(resp);
      }
      assert origins[|origins|..] == [];
      return if lastError.Some? then GotResponse(lastError.value) else NoResponse;
    }

    method ApiReqOnce(call: Call) returns (result: Final)
      requires env.params.Usable()
      modifies this
      ensures Called(result, View()) == CallOnce(env, old(View()), call)
    {
      var tried := {currentOrigin};
      ghost var v := VisitOrigin(env, View(), call);
      var outcome := TryApiReq(call);
      if outcome.GotError? {
        return Failed(outcome.err);
      }
      if outcome.GotResponse? && outcome.resp.status == HTTP_MISDIRECTED {
        outcome := FollowMisdirected(outcome.resp, call);
        if outcome.GotError? {
          return Failed(outcome.err);
        }
      }
      assert outcome == v.visit.Outcome() && View() == v.state;
      if outcome.NoResponse? || !outcome.resp.IsOk() {
        var startOrigin := currentOrigin;
        tried := tried + {startOrigin};
        assert tried == {old(currentOrigin), startOrigin};
        var fallback := TryFallbackOrigins(call, tried);
        if fallback.GotError? {
          return Failed(fallback.err);
        }
        if fallback.GotResponse? && (outcome.NoResponse? || fallback.resp.IsOk()) {
          outcome := fallback;
        } else if outcome.GotResponse? {
          SwitchOrigin(startOrigin);
        }
      }
      return if outcome.GotResponse? then Answered(outcome.resp) else Failed(CANNOT_CONNECT);
    }

    /** A whole call. The invariant of the driver holds again when it ends. */
    method ApiReq(call: Call) returns (result: Final)
      requires Valid()
      modifies this
      ensures Valid()
      ensures Called(result, View()) == HttpModel.ApiReq(env, old(View()), call)
    {
      ghost var whole := HttpModel.ApiReq(env, View(), call);
      result := ApiReqOnce(call);
      var retry := 0;
      while retry < PRIMARY_FAILOVER_RETRIES && result.Status() == HTTP_MISDIRECTED
        invariant retry <= PRIMARY_FAILOVER_RETRIES
        invariant RetryMisdirected(RoundOf(env, call), Called(result, View()), PRIMARY_FAILOVER_RETRIES - retry) == whole
      {
        log := log + [Waited];
        result := ApiReqOnce(call);
        retry := retry + 1;
      }
      ApiReqKeepsInvariant(env, old(View()), call);
    }
  }
}
