/**
  The OAuth server-to-server (client credentials) plugin: six required keys,
  a falsy value counts as missing, an absent configuration misses all of them,
  and a failed check is the SDK's MISSING_PROPERTIES error.
 */
module ServerToServer {
  import opened Wrappers
  import opened JsValues
  import opened Text
  import opened ConfigKeys

  const RequiredKeys: seq<string> :=
    ["client_id", "client_secrets", "technical_account_email", "technical_account_id", "scopes", "ims_org_id"]

  /** The SDK error with code MISSING_PROPERTIES and the value substituted into its template. */
  datatype SdkError = MissingProperties(messageValues: string)

  /** The arguments of ims.getAccessTokenByClientCredentials. */
  datatype ClientCredentialsCall =
    GetAccessTokenByClientCredentials(clientId: JsValue, clientSecret: JsValue, imsOrgId: JsValue, scopes: JsValue)

  lemma RequiredKeysDistinct()
    ensures NoDuplicates(RequiredKeys)
  {
  }

  /** What configMissingKeys returns. */
  function MissingKeys(configData: JsValue): (r: seq<string>)
    ensures !Truthy(configData) ==> r == RequiredKeys
    ensures Truthy(configData) ==>
              forall k :: k in r <==> k in RequiredKeys && !Truthy(Get(configData, k))
    ensures |r| <= |RequiredKeys| && NoDuplicates(r)
    ensures forall i, j :: 0 <= i < j < |r| ==> PositionIn(RequiredKeys, r[i]) < PositionIn(RequiredKeys, r[j])
  {
    RequiredKeysDistinct();
    MissingOfMembers(RequiredKeys, configData, FalsyIsMissing);
    MissingOfOrdered(RequiredKeys, configData, FalsyIsMissing);
    if !Truthy(configData) then RequiredKeys else MissingOf(RequiredKeys, configData, FalsyIsMissing)
  }

  /** configMissingKeys: the early return for an absent configuration, then the push loop. */
  method ConfigMissingKeys(configData: JsValue) returns (missing: seq<string>)
    ensures missing == MissingKeys(configData)
  {
    if !Truthy(configData) {
      return RequiredKeys;
    }
    missing := CollectMissing(RequiredKeys, configData, FalsyIsMissing);
  }

  /** canSupportSync (exported as `supports`): the configuration is usable iff every required key is truthy. */
  function Supports(configData: JsValue): (r: bool)
    ensures r <==> Truthy(configData) && forall k :: k in RequiredKeys ==> Truthy(Get(configData, k))
  {
    MissingOfEmpty(RequiredKeys, configData, FalsyIsMissing);
    |MissingKeys(configData)| == 0
  }

  /** canSupport: resolves with true, or rejects with MISSING_PROPERTIES naming the missing keys. */
  function CanSupport(configData: JsValue): (r: Result<bool, SdkError>)
    ensures r.Success? <==> Supports(configData)
    ensures r.Success? ==> r.value
    ensures r.Failure? ==> r.error == MissingProperties(Join(MissingKeys(configData), ','))
  {
    var missing := MissingKeys(configData);
    if |missing| == 0 then Success(true) else Failure(MissingProperties(Join(missing, ',')))
  }

  /**
    imsLogin: the token function is reached only after canSupport succeeded,
    with client_id, the first of client_secrets, ims_org_id and scopes.
   */
  function ImsLogin(config: JsValue): (r: Result<ClientCredentialsCall, SdkError>)
    ensures r.Success? <==> Supports(config)
    ensures r.Failure? ==> Failure(r.error) == CanSupport(config)
    ensures r.Success? ==>
              && r.value.clientId == Get(config, "client_id")
              && r.value.clientSecret == Index0(Get(config, "client_secrets"))
              && r.value.imsOrgId == Get(config, "ims_org_id")
              && r.value.scopes == Get(config, "scopes")
    ensures r.Success? ==> Truthy(r.value.clientId) && Truthy(r.value.imsOrgId) && Truthy(r.value.scopes)
  {
    match CanSupport(config)
    case Failure(e) => Failure(e)
    case Success(_) =>
      Success(GetAccessTokenByClientCredentials(
        Get(config, "client_id"), Index0(Get(config, "client_secrets")),
        Get(config, "ims_org_id"), Get(config, "scopes")))
  }

  /** `supports({})` and `supports()` are both false. */
  lemma EmptyConfigsUnsupported()
    ensures !Supports(Obj(map[])) && !Supports(Undefined)
    ensures MissingKeys(Obj(map[])) == RequiredKeys
  {
    assert "client_id" in RequiredKeys;
    var m := MissingKeys(Obj(map[]));
    assert forall k :: k in RequiredKeys ==> k in m;
    MissingOfIsAllWhenNoneTruthy(Obj(map[]));
  }

  lemma MissingOfIsAllWhenNoneTruthy(configData: JsValue)
    requires forall k :: k in RequiredKeys ==> !Truthy(Get(configData, k))
    ensures MissingOf(RequiredKeys, configData, FalsyIsMissing) == RequiredKeys
  {
    MissingOfAll(RequiredKeys, configData, FalsyIsMissing);
  }
}
