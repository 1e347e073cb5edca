/**
  The login correlator: one promise, settled by whichever comes first — the
  timeout timer, or the callback server's result checked against the
  generated id. Timers and the server are replaced by events.
 */
module Login {
  import opened Wrappers
  import opened Text
  import opened JsValues
  import opened Query
  import opened Http
  import opened Helpers

  const AuthTimeoutSeconds := 120
  const DefaultServerPort := 8000

  /** `config.timeout || AUTH_TIMEOUT_SECONDS`. */
  function TimeoutSeconds(timeout: JsValue): (t: JsValue)
    ensures Truthy(t)
    ensures Truthy(timeout) ==> t == timeout
    ensures !Truthy(timeout) ==> t == Num(AuthTimeoutSeconds)
  {
    Or(timeout, Num(AuthTimeoutSeconds))
  }

  /** A timeout of 0 (or none at all) means 120 seconds. */
  lemma ZeroTimeoutIsDefault()
    ensures TimeoutSeconds(Num(0)) == Num(120) && TimeoutSeconds(Undefined) == Num(120)
  {
  }

  /** Node's TIMEOUT_MAX: a longer delay, or one below 1 ms, becomes 1 ms. */
  const MaxTimerDelayMs := 2147483647

  /**
    The delay setTimeout uses for `timeoutSeconds * 1000`, for a numeric
    timeout: the product when it lies in 1 .. TIMEOUT_MAX, and 1 ms otherwise.
   */
  function TimerDelayMs(timeoutSeconds: JsValue): (d: Option<int>)
    ensures timeoutSeconds.Num? <==> d.Some?
    ensures d.Some? ==> 1 <= d.value <= MaxTimerDelayMs
    ensures d.Some? ==> (d.value == timeoutSeconds.n * 1000 <==> 1 <= timeoutSeconds.n * 1000 <= MaxTimerDelayMs)
    ensures d.Some? && d.value != timeoutSeconds.n * 1000 ==> d.value == 1
  {
    if timeoutSeconds.Num? then
      var ms := timeoutSeconds.n * 1000;
      Some(if 1 <= ms <= MaxTimerDelayMs then ms else 1)
    else None
  }

  /** Without a timeout the timer waits 120 s; a negative or over-long timeout fires after 1 ms. */
  lemma TimerDelays()
    ensures TimerDelayMs(TimeoutSeconds(Undefined)) == Some(120000)
    ensures TimerDelayMs(TimeoutSeconds(Num(-1))) == Some(1)
    ensures TimerDelayMs(TimeoutSeconds(Num(3000000))) == Some(1)
    ensures TimerDelayMs(TimeoutSeconds(Num(2147483))) == Some(2147483000)
  {
  }

  const TimeoutPrefix := "Timed out after "
  const TimeoutSuffix := " seconds."

  /** `Timed out after ${timeoutSeconds} seconds.`: a numeric timeout can be read back from the text. */
  function TimeoutMessage(timeoutSeconds: JsValue): (m: string)
    ensures |m| >= |TimeoutPrefix| + |TimeoutSuffix|
    ensures m[..|TimeoutPrefix|] == TimeoutPrefix && m[|m| - |TimeoutSuffix|..] == TimeoutSuffix
    ensures m[|TimeoutPrefix|..|m| - |TimeoutSuffix|] == ToJsString(timeoutSeconds)
    ensures timeoutSeconds.Num? && timeoutSeconds.n >= 0 ==>
              var middle := m[|TimeoutPrefix|..|m| - |TimeoutSuffix|];
              (forall k :: 0 <= k < |middle| ==> IsDigit(middle[k])) && ParseNat(middle) == timeoutSeconds.n
  {
    var text := ToJsString(timeoutSeconds);
    var m := TimeoutPrefix + text + TimeoutSuffix;
    assert m[..|TimeoutPrefix|] == TimeoutPrefix;
    assert m[|TimeoutPrefix|..|m| - |TimeoutSuffix|] == text;
    m
  }

  /** `config.port || 8000`. */
  function ServerPort(port: JsValue): (p: JsValue)
    ensures Truthy(p)
    ensures Truthy(port) ==> p == port
    ensures !Truthy(port) ==> p == Num(DefaultServerPort)
  {
    Or(port, Num(DefaultServerPort))
  }

  /** The query parameters of the auth URL, in this order: the generated id, then three config values. */
  function AuthQueryParams(id: string, config: JsValue): (ps: seq<(string, JsValue)>)
    ensures DistinctKeys(ps)
    ensures ps == [("id", Str(id)), ("port", Get(config, "port")),
                   ("clientId", Get(config, "client_id")), ("scope", Get(config, "scope"))]
  {
    [("id", Str(id)), ("port", Get(config, "port")), ("clientId", Get(config, "client_id")), ("scope", Get(config, "scope"))]
  }

  /** The promise's state. */
  datatype Status = Pending | Resolved(code: JsValue) | Rejected(message: string)

  /**
    The check applied to the server's result: resolve with the code when it is
    truthy and the state's id is the generated one, otherwise reject.
   */
  function ServerVerdict(id: string, state: JsValue): (s: Status)
    ensures !s.Pending?
    ensures s.Resolved? <==> Truthy(Get(state, "code")) && Get(state, "id") == Str(id)
    ensures s.Resolved? ==> s.code == Get(state, "code") && Truthy(s.code)
    ensures s.Rejected? ==> s.message == "error code=" + ToJsString(Get(state, "code"))
  {
    var code := Get(state, "code");
    if Truthy(code) && Get(state, "id") == Str(id) then Resolved(code)
    else Rejected("error code=" + ToJsString(code))
  }

  /**
    A browser request whose JSON state carries the generated id and whose
    code parameter is non-empty is answered with the logged-in page and
    resolves the login with that code.
   */
  lemma {:induction false} MatchingCallbackResolves(
    query: seq<Pair>, parse: string -> Option<JsValue>, id: string, stateText: string,
    fields: map<string, JsValue>, code: string)
    requires GetParam(query, "state") == Some(stateText) && stateText != ""
    requires parse(stateText) == Some(Obj(fields))
    requires "id" in fields && fields["id"] == Str(id)
    requires GetParam(query, "code") == Some(code) && code != ""
    ensures HandleRequest(query, parse).Handled?
    ensures HandleRequest(query, parse).reply == LoggedInReply
    ensures HandleRequest(query, parse).settlement.Resolve?
    ensures ServerVerdict(id, HandleRequest(query, parse).settlement.state) == Resolved(Str(code))
  {
    var r := HandleRequest(query, parse);
    var state := Obj(fields[("code") := Str(code)]);
    assert r == Handled(Resolve(state), LoggedInReply);
    assert Get(state, "id") == Str(id);
  }

  /** A request whose state has a different id is rejected with the code in the message, whatever the code. */
  lemma {:induction false} MismatchedCallbackRejects(
    query: seq<Pair>, parse: string -> Option<JsValue>, id: string, stateText: string,
    fields: map<string, JsValue>, code: string)
    requires GetParam(query, "state") == Some(stateText) && stateText != ""
    requires parse(stateText) == Some(Obj(fields))
    requires "id" !in fields || fields["id"] != Str(id)
    requires GetParam(query, "code") == Some(code)
    ensures HandleRequest(query, parse).Handled?
    ensures ServerVerdict(id, HandleRequest(query, parse).settlement.state) == Rejected("error code=" + code)
  {
    var r := HandleRequest(query, parse);
    var state := Obj(fields[("code") := Str(code)]);
    assert r == Handled(Resolve(state), LoggedInReply);
    assert Get(state, "id") != Str(id);
  }

  /** One call of login: its promise, its timer and the callback server's promise. */
  class LoginAttempt {
    const id: string
    const uri: Url
    const timeoutSeconds: JsValue
    const delayMs: Option<int>
    const serverPort: JsValue
    var status: Status
    var timerArmed: bool
    var serverSettled: bool

    /** The timer is armed exactly while the promise is pending. */
    ghost predicate Valid()
      reads this
    {
      status.Pending? <==> timerArmed
    }

    /** login(config): id, URL and timeout are computed; the timer is set and the server started. */
    constructor (config: JsValue, authUrl: Url, randomBytes: seq<byte>)
      requires |randomBytes| == 4
      ensures Valid()
      ensures id == RandomId(randomBytes)
      ensures uri.base == authUrl.base && uri.fragment == authUrl.fragment
      ensures uri.query == SetAll(authUrl.query, Stringified(AuthQueryParams(id, config)))
      ensures GetParam(uri.query, "id") == Some(id) && Count(uri.query, "id") == 1
      ensures GetParam(uri.query, "port") == Some(ToJsString(Get(config, "port")))
      ensures GetParam(uri.query, "clientId") == Some(ToJsString(Get(config, "client_id")))
      ensures GetParam(uri.query, "scope") == Some(ToJsString(Get(config, "scope")))
      ensures timeoutSeconds == TimeoutSeconds(Get(config, "timeout"))
      ensures delayMs == TimerDelayMs(timeoutSeconds)
      ensures serverPort == ServerPort(Get(config, "port"))
      ensures status == Pending && timerArmed && !serverSettled
    {
      var generated := RandomId(randomBytes);
      var params := AuthQueryParams(generated, config);
      var built := AuthSiteUrl(authUrl, params);
      assert params[0].0 == "id" && params[1].0 == "port" && params[2].0 == "clientId" && params[3].0 == "scope";
      var seconds := TimeoutSeconds(Get(config, "timeout"));
      id := generated;
      uri := built;
      timeoutSeconds := seconds;
      delayMs := TimerDelayMs(seconds);
      serverPort := ServerPort(Get(config, "port"));
      status := Pending;
      timerArmed := true;
      serverSettled := false;
    }

    /** The timer callback: reject with the timeout message. A cleared timer never fires. */
    method TimerFired()
      requires Valid()
      modifies this
      ensures Valid()
      ensures old(timerArmed) ==> status == Rejected(TimeoutMessage(timeoutSeconds)) && !timerArmed
      ensures !old(timerArmed) ==> status == old(status) && timerArmed == old(timerArmed)
      ensures !old(status).Pending? ==> status == old(status)
      ensures serverSettled == old(serverSettled)
    {
      if timerArmed {
        timerArmed := false;
        if status.Pending? {
          status := Rejected(TimeoutMessage(timeoutSeconds));
        }
      }
    }

    /**
      The server's promise resolved with state: clear the timer, then resolve or
      reject by ServerVerdict, which is a no-op on a promise already settled.
      The server's promise settles once, so a later result is ignored.
     */
    method ServerResult(state: JsValue)
      requires Valid()
      modifies this
      ensures Valid()
      ensures old(serverSettled) ==> status == old(status) && timerArmed == old(timerArmed) && serverSettled
      ensures !old(serverSettled) ==>
                && serverSettled && !timerArmed
                && status == (if old(status).Pending? then ServerVerdict(id, state) else old(status))
      ensures !old(status).Pending? ==> status == old(status)
    {
      if !serverSettled {
        serverSettled := true;
        timerArmed := false;
        if status.Pending? {
          status := ServerVerdict(id, state);
        }
      }
    }

    /** The server's promise rejected: `.then` has no rejection handler, so the login is untouched. */
    method ServerRejected()
      requires Valid()
      modifies this
      ensures Valid()
      ensures status == old(status) && timerArmed == old(timerArmed)
      ensures serverSettled
    {
      serverSettled := true;
    }
  }
}
