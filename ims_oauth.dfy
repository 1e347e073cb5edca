/**
  The Electron-driven OAuth2 plugin: four required keys with the falsy rule,
  `false` for an absent configuration, and the module-level web result that
  the Electron callback stores and the poll reads.
 */
module ImsOauth {
  import opened Wrappers
  import opened JsValues
  import opened Text
  import opened ConfigKeys

  const RequiredKeys: seq<string> := ["callback_url", "client_id", "client_secret", "scope"]
  const UnsupportedPrefix := "OAuth2 not supported due to some missing properties: "
  const NoResultMessage := "No result received from web app"
  const StatePrefix := "oauth-imslogin-"

  lemma RequiredKeysDistinct()
    ensures NoDuplicates(RequiredKeys)
  {
  }

  /** What configMissingKeys returns. */
  function MissingKeys(configData: JsValue): (r: KeysOrFalse)
    ensures !Truthy(configData) <==> r == NoConfig
    ensures r.Keys? ==> forall k :: k in r.keys <==> k in RequiredKeys && !Truthy(Get(configData, k))
    ensures r.Keys? ==> forall i, j :: 0 <= i < j < |r.keys| ==>
                          PositionIn(RequiredKeys, r.keys[i]) < PositionIn(RequiredKeys, r.keys[j])
  {
    RequiredKeysDistinct();
    MissingOfMembers(RequiredKeys, configData, FalsyIsMissing);
    MissingOfOrdered(RequiredKeys, configData, FalsyIsMissing);
    if !Truthy(configData) then NoConfig else Keys(MissingOf(RequiredKeys, configData, FalsyIsMissing))
  }

  /** configMissingKeys: `false` for an absent configuration, otherwise the push loop. */
  method ConfigMissingKeys(configData: JsValue) returns (r: KeysOrFalse)
    ensures r == MissingKeys(configData)
  {
    if !Truthy(configData) {
      return NoConfig;
    }
    var missing := CollectMissing(RequiredKeys, configData, FalsyIsMissing);
    r := Keys(missing);
  }

  /** canSupportSync: usable iff the configuration is present and all four keys are truthy. */
  function Supports(configData: JsValue): (r: bool)
    ensures r <==> Truthy(configData) && forall k :: k in RequiredKeys ==> Truthy(Get(configData, k))
  {
    MissingOfEmpty(RequiredKeys, configData, FalsyIsMissing);
    LengthOf(MissingKeys(configData)) == Some(0)
  }

  /** canSupport: resolves with true, or rejects naming `${missingKeys}`. */
  function CanSupport(configData: JsValue): (r: Result<bool, string>)
    ensures r.Success? <==> Supports(configData)
    ensures r.Success? ==> r.value
    ensures r.Failure? ==> r.error == UnsupportedPrefix + KeysText(MissingKeys(configData))
  {
    CanSupportWith(UnsupportedPrefix, MissingKeys(configData))
  }

  /** `supports()` and `supports({})` are false; the second names all four keys. */
  lemma EmptyConfigsUnsupported()
    ensures !Supports(Undefined) && !Supports(Obj(map[]))
    ensures CanSupport(Obj(map[])) == Failure(UnsupportedPrefix + Join(RequiredKeys, ','))
  {
    assert "callback_url" in RequiredKeys;
    MissingOfAll(RequiredKeys, Obj(map[]), FalsyIsMissing);
  }

  lemma RequiredKeysText()
    ensures Join(RequiredKeys, ',') == "callback_url,client_id,client_secret,scope"
  {
  }

  // ------------------------------------------------------------- web result

  /** What the Electron app hands back: an Error object, or any other value. */
  datatype WebValue = ErrorObject(message: string) | Value(v: JsValue)

  /** An Error object is truthy; any other value by JavaScript truthiness. */
  predicate WebTruthy(w: WebValue)
  {
    w.ErrorObject? || Truthy(w.v)
  }

  /** `result || new Error('No result received from web app')`. */
  function StoredResult(result: WebValue): (w: WebValue)
    ensures WebTruthy(w)
    ensures WebTruthy(result) ==> w == result
    ensures !WebTruthy(result) ==> w == ErrorObject(NoResultMessage)
  {
    if WebTruthy(result) then result else ErrorObject(NoResultMessage)
  }

  /** One round of checkWebResult. */
  datatype Poll = KeepPolling | RejectWith(message: string) | ResolveWith(value: JsValue)

  /** checkWebResult: wait while nothing is stored, reject with a stored Error, resolve with anything else. */
  function CheckWebResult(w: WebValue): (p: Poll)
    ensures p.KeepPolling? <==> !WebTruthy(w)
    ensures p.RejectWith? <==> w.ErrorObject?
    ensures p.RejectWith? ==> p.message == w.message
    ensures p.ResolveWith? ==> w == Value(p.value) && Truthy(p.value)
  {
    match w
    case ErrorObject(m) => RejectWith(m)
    case Value(v) => if Truthy(v) then ResolveWith(v) else KeepPolling
  }

  /** Once the Electron callback has stored anything, the poll stops: it rejects or resolves. */
  lemma StoredResultSettlesPoll(result: WebValue)
    ensures !CheckWebResult(StoredResult(result)).KeepPolling?
    ensures CheckWebResult(StoredResult(result)).ResolveWith? <==> result.Value? && Truthy(result.v)
  {
  }

  /** The module-level `gWebResult`, assigned by electronCallback and read by checkWebResult. */
  class WebSession {
    var webResult: WebValue

    /** `let gWebResult`: undefined until the callback runs. */
    constructor ()
      ensures webResult == Value(Undefined)
      ensures CheckWebResult(webResult) == KeepPolling
    {
      webResult := Value(Undefined);
    }

    /** electronCallback(result, state): stores the result; the state is only logged. */
    method ElectronCallback(result: WebValue, state: string)
      modifies this
      ensures webResult == StoredResult(result)
      ensures WebTruthy(webResult) && !CheckWebResult(webResult).KeepPolling?
    {
      webResult := StoredResult(result);
    }
  }

  // ------------------------------------------------------------ imsLogin

  /** The arguments of ims.getSusiUrl. */
  datatype SusiRequest = GetSusiUrl(clientId: JsValue, scope: JsValue, callbackUrl: JsValue, state: string)

  /** setupWeb: the Electron app launched on the SUSI URL with the callback URL and the force flag. */
  datatype Launch = Launch(susi: SusiRequest, callbackUrl: JsValue, force: JsValue)

  /** The arguments of ims.getAccessToken. */
  datatype AccessTokenCall =
    GetAccessToken(authorizationCode: JsValue, clientId: JsValue, clientSecret: JsValue, scope: JsValue)

  /** How far imsLogin has got, given the web result present when the poll looks. */
  datatype ImsLoginState =
    | Unsupported(message: string)
    | AwaitingWeb(launch: Launch)
    | WebFailed(launch: Launch, message: string)
    | TokenRequested(launch: Launch, call: AccessTokenCall)

  /** The correlation state 'oauth-imslogin-' + Date.now(). */
  function LoginState(now: nat): (s: string)
    ensures StatePrefix <= s && |s| > |StatePrefix|
    ensures var suffix := s[|StatePrefix|..];
            (forall k :: 0 <= k < |suffix| ==> IsDigit(suffix[k])) && ParseNat(suffix) == now
  {
    ParseNatToString(now);
    var s := StatePrefix + NatToString(now);
    assert s[|StatePrefix|..] == NatToString(now);
    s
  }

  /** Two logins started at different times carry different states. */
  lemma {:induction false} LoginStateInjective(a: nat, b: nat)
    requires LoginState(a) == LoginState(b)
    ensures a == b
  {
    assert LoginState(a)[|StatePrefix|..] == LoginState(b)[|StatePrefix|..];
  }

  /**
    imsLogin: canSupport, then setupWeb, then checkWebResult, then
    getAccessToken with the polled value as the authorization code.
   */
  function ImsLogin(config: JsValue, force: JsValue, now: nat, webResult: WebValue): (r: ImsLoginState)
    ensures r.Unsupported? <==> !Supports(config)
    ensures r.Unsupported? ==> Failure(r.message) == CanSupport(config)
    ensures !r.Unsupported? ==>
              r.launch == Launch(GetSusiUrl(Get(config, "client_id"), Get(config, "scope"),
                                            Get(config, "callback_url"), LoginState(now)),
                                 Get(config, "callback_url"), force)
    ensures r.AwaitingWeb? <==> Supports(config) && !WebTruthy(webResult)
    ensures r.WebFailed? <==> Supports(config) && webResult.ErrorObject?
    ensures r.WebFailed? ==> r.message == webResult.message
    ensures r.TokenRequested? <==> Supports(config) && CheckWebResult(webResult).ResolveWith?
    ensures r.TokenRequested? ==>
              r.call == GetAccessToken(CheckWebResult(webResult).value, Get(config, "client_id"),
                                       Get(config, "client_secret"), Get(config, "scope"))
  {
    match CanSupport(config)
    case Failure(e) => Unsupported(e)
    case Success(_) =>
      var launch := Launch(GetSusiUrl(Get(config, "client_id"), Get(config, "scope"),
                                      Get(config, "callback_url"), LoginState(now)),
                           Get(config, "callback_url"), force);
      match CheckWebResult(webResult)
      case KeepPolling => AwaitingWeb(launch)
      case RejectWith(m) => WebFailed(launch, m)
      case ResolveWith(code) =>
        TokenRequested(launch, GetAccessToken(code, Get(config, "client_id"),
                                              Get(config, "client_secret"), Get(config, "scope")))
  }
}
