/**
  The CLI-hosted OAuth2 plugin. Its only required key is '$cli.bare-output',
  which counts as missing only when undefined or null; an absent
  configuration makes the key check return `false`.
 */
module ImsCli {
  import opened Wrappers
  import opened JsValues
  import opened ConfigKeys

  const CliBareOutput := "$cli.bare-output"
  const RequiredKeys: seq<string> := [CliBareOutput]
  const UnsupportedPrefix := "OAuth2 for cli not supported due to some missing properties: "

  /** The options object handed to the login flow. */
  datatype LoginOptions = LoginOptions(bare: JsValue, env: JsValue, timeout: JsValue)

  /** isEmpty: undefined or null, which is the nullish rule of the shared key check. */
  predicate IsEmpty(v: JsValue): (b: bool)
    ensures b <==> IsMissing(NullishIsMissing, v)
    ensures b ==> !Truthy(v)
  {
    v.Undefined? || v.Null?
  }

  /** false, 0 and "" are falsy but present: only undefined and null are empty. */
  lemma FalsyValuesArePresent()
    ensures forall v: JsValue :: IsEmpty(v) ==> !Truthy(v)
    ensures !IsEmpty(Bool(false)) && !IsEmpty(Num(0)) && !IsEmpty(Str(""))
  {
  }

  /** What configMissingKeys returns. */
  function MissingKeys(configData: JsValue): (r: KeysOrFalse)
    ensures !Truthy(configData) <==> r == NoConfig
    ensures Truthy(configData) ==>
              r == Keys(if IsEmpty(Get(configData, CliBareOutput)) then [CliBareOutput] else [])
  {
    MissingOfSingle(CliBareOutput, configData, NullishIsMissing);
    if !Truthy(configData) then NoConfig else Keys(MissingOf(RequiredKeys, configData, NullishIsMissing))
  }

  /** configMissingKeys: `false` for an absent configuration, otherwise the push loop. */
  method ConfigMissingKeys(configData: JsValue) returns (r: KeysOrFalse)
    ensures r == MissingKeys(configData)
  {
    if !Truthy(configData) {
      return NoConfig;
    }
    var missing := CollectMissing(RequiredKeys, configData, NullishIsMissing);
    r := Keys(missing);
  }

  /** canSupportSync: `.length === 0`, which `false.length` (undefined) never is. */
  function Supports(configData: JsValue): (r: bool)
    ensures r <==> Truthy(configData) && !IsEmpty(Get(configData, CliBareOutput))
  {
    LengthOf(MissingKeys(configData)) == Some(0)
  }

  /** canSupport: resolves with true, or rejects naming `${missingKeys}`. */
  function CanSupport(configData: JsValue): (r: Result<bool, string>)
    ensures r.Success? <==> Supports(configData)
    ensures r.Success? ==> r.value
    ensures r.Failure? ==> r.error == UnsupportedPrefix + KeysText(MissingKeys(configData))
  {
    CanSupportWith(UnsupportedPrefix, MissingKeys(configData))
  }

  /** An absent configuration is rejected, and the message ends in ": false". */
  lemma CanSupportAbsent(configData: JsValue)
    requires !Truthy(configData)
    ensures CanSupport(configData) == Failure(UnsupportedPrefix + "false")
  {
  }

  /** A configuration without the key is rejected naming it. */
  lemma CanSupportMissingKey(configData: JsValue)
    requires Truthy(configData) && IsEmpty(Get(configData, CliBareOutput))
    ensures CanSupport(configData) == Failure(UnsupportedPrefix + CliBareOutput)
  {
  }

  /** imsLogin: the login flow is reached only after canSupport succeeded, with bare, env and timeout. */
  function ImsLogin(config: JsValue): (r: Result<LoginOptions, string>)
    ensures r.Success? <==> Supports(config)
    ensures r.Failure? ==> Failure(r.error) == CanSupport(config)
    ensures r.Success? ==>
              r.value == LoginOptions(Get(config, CliBareOutput), Get(config, "env"), Get(config, "timeout"))
    ensures r.Success? ==> !IsEmpty(r.value.bare)
  {
    match CanSupport(config)
    case Failure(e) => Failure(e)
    case Success(_) => Success(LoginOptions(Get(config, CliBareOutput), Get(config, "env"), Get(config, "timeout")))
  }
}
