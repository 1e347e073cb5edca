/**
  The Electron app that drives the sign-in window: argument defaulting, the
  callback-URL filter with its code-before-error order, and the `win`
  reference that decides whether closing the window means the user gave up.
  Window and navigation events are method calls; URL parsing is given as the
  URL's query pairs.
 */
module ElectronMain {
  import opened Wrappers
  import opened Text
  import opened Query

  const MissingAuthUrlMessage := "Missing authentication URL"
  const MissingCallbackUrlMessage := "Missing callback URL"
  const TerminatedMessage := "User terminated the browser without authenticating"
  const UnexpectedCallbackPrefix := "Unexpected Callback received: "

  /**
    How the app ends: _succeedApp(code, state) or _failApp(message, state).
    Code, message and state are what querystring.parse gave (a string, or an
    array for a repeated name); a literal message is One(text).
   */
  datatype Outcome = Succeed(code: QValue, state: Option<QValue>) | Fail(message: QValue, state: Option<QValue>)

  datatype Stream = Stdout | Stderr

  /** A JSON object as its members in order; JSON.stringify leaves out a member whose value is undefined. */
  type JsonObject = seq<(string, QValue)>

  /** What an exit leaves behind: the stream written, the JSON object written to it, the exit code. */
  datatype Exit = Exit(stream: Stream, payload: JsonObject, exitCode: nat)

  /**
    _succeedApp(code, state) writes JSON.stringify({ code, state }) to stdout and
    exits 0; _failApp(message, state) writes { message, state } to stderr and
    exits 1. An undefined state is not written.
   */
  function ExitWith(o: Outcome): (e: Exit)
    ensures e.exitCode == 0 <==> o.Succeed?
    ensures e.stream == Stdout <==> o.Succeed?
    ensures e.exitCode <= 1
    ensures |e.payload| == (if o.state.Some? then 2 else 1)
    ensures e.payload[0].0 == (if o.Succeed? then "code" else "message")
    ensures ReadBack(e) == Some(o)
  {
    var state := if o.state.Some? then [("state", o.state.value)] else [];
    assert Member(state, "state") == o.state;
    var key := if o.Succeed? then "code" else "message";
    var value := if o.Succeed? then o.code else o.message;
    var payload := [(key, value)] + state;
    assert payload[1..] == state && key != "state";
    assert Member(payload, "state") == o.state;
    Exit(if o.Succeed? then Stdout else Stderr, payload, if o.Succeed? then 0 else 1)
  }

  /** The value of the first member named key. */
  function Member(obj: JsonObject, key: string): Option<QValue>
  {
    if obj == [] then None else if obj[0].0 == key then Some(obj[0].1) else Member(obj[1..], key)
  }

  /**
    How the process that launched the app reads an exit: the code on stdout or
    the message on stderr, and the state when one was written.
   */
  function ReadBack(e: Exit): Option<Outcome>
  {
    var key := if e.stream == Stdout then "code" else "message";
    match Member(e.payload, key)
    case None => None
    case Some(v) =>
      var state := Member(e.payload, "state");
      Some(if e.stream == Stdout then Succeed(v, state) else Fail(v, state))
  }

  // ----------------------------------------------------------- arguments

  datatype ArgResult = Arg(value: string) | ArgMissing(message: Option<string>)

  /** getArg: argv[idx] when present, else the default when defined, else fail with the message. */
  function GetArg(argv: seq<string>, idx: nat, message: Option<string>, defaultValue: Option<string>): (r: ArgResult)
    ensures r.Arg? <==> idx < |argv| || defaultValue.Some?
    ensures idx < |argv| ==> r.value == argv[idx]
    ensures idx >= |argv| && defaultValue.Some? ==> r.value == defaultValue.value
    ensures r.ArgMissing? ==> r.message == message
  {
    if idx < |argv| then Arg(argv[idx])
    else if defaultValue.Some? then Arg(defaultValue.value)
    else ArgMissing(message)
  }

  /** `getArg(process.argv, 4, undefined, 'false') === 'true'`. */
  function Force(argv: seq<string>): (force: bool)
    ensures force <==> |argv| > 4 && argv[4] == "true"
  {
    GetArg(argv, 4, None, Some("false")) == Arg("true")
  }

  datatype Args = Args(authUrl: string, callbackUrl: string, force: bool)

  /** The module's start: authUrl is argv[2], callbackUrl argv[3]; a missing one fails the app. */
  function Startup(argv: seq<string>): (r: Result<Args, Outcome>)
    ensures |argv| <= 2 ==> r == Failure(Fail(One(MissingAuthUrlMessage), None))
    ensures |argv| == 3 ==> r == Failure(Fail(One(MissingCallbackUrlMessage), None))
    ensures |argv| > 3 ==> r == Success(Args(argv[2], argv[3], Force(argv)))
  {
    match GetArg(argv, 2, Some(MissingAuthUrlMessage), None)
    case ArgMissing(_) => Failure(Fail(One(MissingAuthUrlMessage), None))
    case Arg(authUrl) =>
      match GetArg(argv, 3, Some(MissingCallbackUrlMessage), None)
      case ArgMissing(_) => Failure(Fail(One(MissingCallbackUrlMessage), None))
      case Arg(callbackUrl) => Success(Args(authUrl, callbackUrl, Force(argv)))
  }

  // ------------------------------------------------------- handleCallback

  /**
    The decision of handleCallback: None for a URL that does not start with
    the callback URL, otherwise success with the code, or failure with the
    provider's error, or failure naming the unexpected URL.
   */
  function CallbackOutcome(callbackUrl: string, redirectUrl: string, query: seq<Pair>): (r: Option<Outcome>)
    ensures r.None? <==> !(callbackUrl <= redirectUrl)
    ensures r.Some? ==> r.value.state == Field(query, "state")
    ensures r.Some? ==> (r.value.Succeed? <==> FieldTruthy(Field(query, "code")))
    ensures r.Some? && r.value.Succeed? ==> Some(r.value.code) == Field(query, "code")
    ensures r.Some? && !FieldTruthy(Field(query, "code")) && FieldTruthy(Field(query, "error")) ==>
              Some(r.value.message) == Field(query, "error")
    ensures r.Some? && !FieldTruthy(Field(query, "code")) && !FieldTruthy(Field(query, "error")) ==>
              r.value.message == One(UnexpectedCallbackPrefix + redirectUrl)
  {
    if !(callbackUrl <= redirectUrl) then None
    else
      var code, error, state := Field(query, "code"), Field(query, "error"), Field(query, "state");
      if FieldTruthy(code) then Some(Succeed(code.value, state))
      else if FieldTruthy(error) then Some(Fail(error.value, state))
      else Some(Fail(One(UnexpectedCallbackPrefix + redirectUrl), state))
  }

  /** A code in the callback wins over an error next to it. */
  lemma CodeBeatsError(callbackUrl: string, redirectUrl: string, query: seq<Pair>, code: string)
    requires callbackUrl <= redirectUrl
    requires Values(query, "code") == [code] && code != ""
    ensures CallbackOutcome(callbackUrl, redirectUrl, query) == Some(Succeed(One(code), Field(query, "state")))
  {
  }

  /**
    The did-fail-load message: the URL, the description and the Chromium error
    code in parentheses, whose digits read back as the code.
   */
  function LoadFailedMessage(url: string, errorDescription: string, errorCode: int): (m: string)
    ensures var head := "Failed to load " + url + "\nReason: " + errorDescription + " (";
            && |m| > |head| + 1 && m[..|head|] == head && m[|m| - 1] == ')'
            && var code := m[|head|..|m| - 1];
               var digits := if errorCode < 0 then code[1..] else code;
               && (code[0] == '-' <==> errorCode < 0)
               && (forall k :: 0 <= k < |digits| ==> IsDigit(digits[k]))
               && ParseNat(digits) == (if errorCode < 0 then -errorCode else errorCode)
  {
    var head := "Failed to load " + url + "\nReason: " + errorDescription + " (";
    var code := IntToString(errorCode);
    var m := head + code + ")";
    assert m[..|head|] == head;
    assert m[|head|..|m| - 1] == code;
    m
  }

  // --------------------------------------------------------------- window

  /**
    The window created on 'ready'. `win` is true while the module-level
    reference is set; reports lists the _succeedApp/_failApp calls in order.
    A closed window emits no further events.
   */
  class ElectronWindow {
    const authUrl: string
    const callbackUrl: string
    const authState: Option<QValue>
    const storageCleared: bool
    var win: bool
    var closed: bool
    var reports: seq<Outcome>

    /** win is only dropped together with a report. */
    ghost predicate Valid()
      reads this
    {
      reports == [] ==> win
    }

    /** createWindow: the window, its handlers, then clearStorageData first when forced, then loadURL(authUrl). */
    constructor (args: Args, authQuery: seq<Pair>)
      ensures Valid()
      ensures authUrl == args.authUrl && callbackUrl == args.callbackUrl
      ensures authState == Field(authQuery, "state")
      ensures storageCleared == args.force
      ensures win && !closed && reports == []
    {
      authUrl := args.authUrl;
      callbackUrl := args.callbackUrl;
      authState := Field(authQuery, "state");
      storageCleared := args.force;
      win := true;
      closed := false;
      reports := [];
    }

    /** will-navigate, will-redirect and did-get-redirect-request all go to handleCallback(url). */
    method Navigate(url: string, query: seq<Pair>)
      requires Valid()
      modifies this
      ensures Valid()
      ensures closed == old(closed)
      ensures old(closed) || CallbackOutcome(callbackUrl, url, query).None? ==>
                win == old(win) && reports == old(reports)
      ensures !old(closed) && CallbackOutcome(callbackUrl, url, query).Some? ==>
                !win && reports == old(reports) + [CallbackOutcome(callbackUrl, url, query).value]
    {
      if !closed {
        var outcome := CallbackOutcome(callbackUrl, url, query);
        if outcome.Some? {
          win := false;
          reports := reports + [outcome.value];
        }
      }
    }

    /**
      did-fail-load: only a failure of the auth URL itself fails the app, with
      the state of that URL's own query.
     */
    method DidFailLoad(errorCode: int, errorDescription: string, url: string)
      requires Valid()
      modifies this
      ensures Valid()
      ensures closed == old(closed)
      ensures old(closed) || url != authUrl ==> win == old(win) && reports == old(reports)
      ensures !old(closed) && url == authUrl ==>
                !win &&
                reports == old(reports) + [Fail(One(LoadFailedMessage(authUrl, errorDescription, errorCode)), authState)]
    {
      if !closed && url == authUrl {
        win := false;
        reports := reports + [Fail(One(LoadFailedMessage(url, errorDescription, errorCode)), authState)];
      }
    }

    /** 'closed': reports the user's cancellation only while win is still set. */
    method Closed()
      requires Valid()
      modifies this
      ensures Valid()
      ensures closed && win == old(win)
      ensures !old(closed) && old(win) ==> reports == old(reports) + [Fail(One(TerminatedMessage), authState)]
      ensures old(closed) || !old(win) ==> reports == old(reports)
    {
      if !closed && win {
        reports := reports + [Fail(One(TerminatedMessage), authState)];
      }
      closed := true;
    }
  }
}
