/**
  The helpers of the login flow: the auth-site URL builder, the decision taken
  by the one-shot callback server's request handler, and the correlation id.
 */
module Helpers {
  import opened Wrappers
  import opened Text
  import opened JsValues
  import opened Query
  import opened Http

  // ------------------------------------------------------------ authSiteUrl

  /** A parsed URL: what precedes the query, the query's pairs, and the fragment. */
  datatype Url = Url(base: string, query: seq<Pair>, fragment: string)

  /** The `searchParams` of a URL object, updated in place by set(). */
  class SearchParams {
    var list: seq<Pair>

    constructor (init: seq<Pair>)
      ensures list == init
    {
      list := init;
    }

    /** URLSearchParams.set (section 6.2 of the WHATWG URL Standard). */
    method Set(name: string, value: string)
      modifies this
      ensures list == SetPairs(old(list), name, value)
      ensures Count(list, name) == 1 && GetParam(list, name) == Some(value)
    {
      list := SetPairs(list, name, value);
    }
  }

  /** The keys of a JavaScript object, which Object.keys lists without repetition. */
  function KeysOf(params: seq<(string, JsValue)>): set<string>
  {
    set i | 0 <= i < |params| :: params[i].0
  }

  predicate DistinctKeys(params: seq<(string, JsValue)>)
  {
    forall i, j :: 0 <= i < j < |params| ==> params[i].0 != params[j].0
  }

  /**
    Each value as `set` receives it: converted with String(value), so
    undefined becomes "undefined". The names are the keys, in the same order,
    so they are distinct exactly when the keys are.
   */
  function Stringified(params: seq<(string, JsValue)>): (ps: seq<Pair>)
    ensures |ps| == |params|
    ensures NamesOf(ps) == KeysOf(params)
    ensures DistinctNames(ps) <==> DistinctKeys(params)
  {
    var ps := seq(|params|, i requires 0 <= i < |params| => (params[i].0, ToJsString(params[i].1)));
    assert forall i :: 0 <= i < |params| ==> ps[i].0 == params[i].0;
    ps
  }

  /**
    authSiteUrl: a copy of the URL whose query has had set(key, value) applied
    for each key of queryParams, in Object.keys order.
   */
  method AuthSiteUrl(url: Url, queryParams: seq<(string, JsValue)>) returns (r: Url)
    ensures r.base == url.base && r.fragment == url.fragment
    ensures r.query == SetAll(url.query, Stringified(queryParams))
    ensures DistinctKeys(queryParams) ==>
              forall j :: 0 <= j < |queryParams| ==>
                Count(r.query, queryParams[j].0) == 1 &&
                GetParam(r.query, queryParams[j].0) == Some(ToJsString(queryParams[j].1))
    ensures Without(r.query, KeysOf(queryParams)) == Without(url.query, KeysOf(queryParams))
    ensures DistinctKeys(queryParams) && (forall j :: 0 <= j < |queryParams| ==> GetParam(url.query, queryParams[j].0).None?) ==>
              r.query == url.query + Stringified(queryParams)
    ensures DistinctKeys(queryParams) ==>
              r.query == UpdateInPlace(url.query, Stringified(queryParams), {}) + NewPairs(url.query, Stringified(queryParams))
  {
    var pairs := Stringified(queryParams);
    assert forall i :: 0 <= i < |pairs| ==> pairs[i] == (queryParams[i].0, ToJsString(queryParams[i].1));
    var searchParams := new SearchParams(url.query);
    var i := 0;
    while i < |pairs|
      invariant 0 <= i <= |pairs|
      invariant searchParams.list == SetAll(url.query, pairs[..i])
    {
      assert pairs[..i + 1][..i] == pairs[..i];
      searchParams.Set(pairs[i].0, pairs[i].1);
      i := i + 1;
    }
    assert pairs[..|pairs|] == pairs;
    r := Url(url.base, searchParams.list, url.fragment);
    SetAllKeepsOthers(url.query, pairs, KeysOf(queryParams));
    if DistinctKeys(queryParams) {
      SetAllSetsEach(url.query, pairs);
      SetAllUpdatesThenAppends(url.query, pairs);
      if forall j :: 0 <= j < |queryParams| ==> GetParam(url.query, queryParams[j].0).None? {
        SetAllAppends(url.query, pairs);
      }
    }
  }

  // ------------------------------------------------- createServer's handler

  const LoggedInMessage := "You are now logged in, you may close this window\n"
  const NoQueryDataMessage := "No query data to get the authorization code from"

  /** The reply sent on both branches: 200, text/plain, the logged-in message. */
  const LoggedInReply := Reply(200, [("Content-Type", "text/plain")], LoggedInMessage)

  /** How the request settles the createServer promise. */
  datatype Settlement = Resolve(state: JsValue) | Reject(message: string)

  /**
    Handled: the promise is settled (a no-op if it already was), the reply is
    sent and the server is closed. Threw: JSON.parse, or the assignment of
    `code` to null, threw; nothing after it runs.
   */
  datatype HandlerOutcome = Handled(settlement: Settlement, reply: Reply) | Threw

  /** queryData.get('code'): the first code parameter, or null. */
  function CodeParameter(query: seq<Pair>): (v: JsValue)
    ensures v == Null || v.Str?
    ensures v.Str? <==> GetParam(query, "code").Some?
    ensures GetParam(query, "code").Some? ==> v == Str(GetParam(query, "code").value)
    ensures v.Str? && v.s != "" ==> Count(query, "code") > 0 && Truthy(v)
  {
    match GetParam(query, "code")
    case Some(c) => Str(c)
    case None => Null
  }

  /** `resultData.code = queryData.get('code')`; a primitive ignores the assignment, null throws. */
  function WithCode(parsed: JsValue, code: JsValue): (r: Option<JsValue>)
    ensures r.None? <==> parsed.Null? || parsed.Undefined?
    ensures parsed.Obj? ==> r.Some? && r.value.Obj? && Get(r.value, "code") == code &&
                            forall k :: k != "code" ==> Get(r.value, k) == Get(parsed, k)
    ensures r.Some? && !parsed.Obj? ==> r.value == parsed
  {
    match parsed
    case Obj(fields) => Some(Obj(fields[("code") := code]))
    case Null => None
    case Undefined => None
    case _ => Some(parsed)
  }

  /**
    The request handler: with a non-empty `state` parameter, resolve with the
    parsed state whose `code` is the `code` parameter; otherwise reject.
    `parse` is JSON.parse, None standing for a thrown SyntaxError.
   */
  function HandleRequest(query: seq<Pair>, parse: string -> Option<JsValue>): (r: HandlerOutcome)
    ensures r.Handled? ==> r.reply == LoggedInReply
    ensures (GetParam(query, "state").None? || GetParam(query, "state") == Some("")) ==>
              r == Handled(Reject(NoQueryDataMessage), LoggedInReply)
    ensures r.Handled? && r.settlement.Resolve? ==>
              GetParam(query, "state").Some? && GetParam(query, "state").value != "" &&
              parse(GetParam(query, "state").value).Some?
    ensures r.Handled? && r.settlement.Resolve? && r.settlement.state.Obj? ==>
              var parsed := parse(GetParam(query, "state").value).value;
              && Get(r.settlement.state, "code") == CodeParameter(query)
              && forall k :: k != "code" ==> Get(r.settlement.state, k) == Get(parsed, k)
    ensures var s := GetParam(query, "state");
            s.Some? && s.value != "" && parse(s.value).Some? &&
            !parse(s.value).value.Null? && !parse(s.value).value.Undefined? ==>
              r.Handled? && r.settlement == Resolve(WithCode(parse(s.value).value, CodeParameter(query)).value)
    ensures r.Threw? <==>
              GetParam(query, "state").Some? && GetParam(query, "state").value != "" &&
              (parse(GetParam(query, "state").value).None? ||
               parse(GetParam(query, "state").value).value.Null? ||
               parse(GetParam(query, "state").value).value.Undefined?)
  {
    var state := GetParam(query, "state");
    if state.Some? && state.value != "" then
      match parse(state.value)
      case None => Threw
      case Some(parsed) =>
        match WithCode(parsed, CodeParameter(query))
        case None => Threw
        case Some(resultData) => Handled(Resolve(resultData), LoggedInReply)
    else
      Handled(Reject(NoQueryDataMessage), LoggedInReply)
  }

  // ---------------------------------------------------------------- randomId

  /** randomId: the 4 random bytes in lower-case hexadecimal. */
  function RandomId(randomBytes: seq<byte>): (id: string)
    requires |randomBytes| == 4
    ensures |id| == 8
    ensures forall i :: 0 <= i < |id| ==> IsHexDigit(id[i])
    ensures HexDecode(id) == randomBytes
  {
    HexDecodeEncode(randomBytes);
    HexEncode(randomBytes)
  }
}
