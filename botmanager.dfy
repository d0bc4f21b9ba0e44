/**
 * The bot manager (src/BotManager.php): it builds the parameter store and the
 * requested action, checks the secret, creates the Telegram client and then
 * either manages the webhook (set, unset, reset) or handles updates (handle),
 * by webhook, by one fetch, or by a fetch loop.
 *
 * The client is the stand-in of module TelegramClient: a call on it is
 * recorded in its trace. Throwing becomes a returned error; calling a method
 * on a client that was never built (`$this->telegram` still null) is PHP's
 * "Call to a member function ... on null" error. The number of rounds the
 * wall clock lets the fetch loop run is an explicit input.
 */
module Manager {
  import opened Php
  import opened Actions
  import opened ParamStore
  import opened TelegramClient

  const InvalidAccess: Error := Error(InvalidArgumentException, "Invalid access")
  const InvalidWebhook: Error := Error(InvalidArgumentException, "Invalid webhook")

  /** Seven days, the loop time when `l` is given without a value. */
  const WeekInSeconds: nat := 604800

  const SetActions: Value := StrList(["set", "reset"])
  const UnsetActions: Value := StrList(["unset", "reset"])
  const WebhookActions: Value := StrList(["set", "unset", "reset"])

  /** The client method a call stands for. */
  function MethodName(c: Call): string
  {
    match c
    case UnsetWebhook => "unsetWebHook"
    case SetWebhook(_, _) => "setWebHook"
    case HandleWebhook => "handle"
    case GetUpdates => "handleGetUpdates"
  }

  /** The error PHP raises for a method call on null. */
  function NullReceiver(c: Call): Error
  {
    Error(NullReceiverError, "Call to a member function " + MethodName(c) + "() on null")
  }

  /** `getScriptParam('a')` handed to `new Action(...)`. */
  function RequestedAction(script: map<string, Value>): (r: Result<Action>)
    ensures r.Ok? ==> r.value.Valid()
    ensures "a" !in script || !Truthy(script["a"]) ==> r == Ok(Action(Str("handle")))
    ensures "a" in script && Truthy(script["a"]) ==>
      (r.Ok? <==> script["a"].Str? && script["a"].s in ValidActionNames)
      && (r.Ok? ==> r.value.action == script["a"])
  {
    New(Coalesce(script, "a", Null))
  }

  /** With no `a` given anywhere, the request is for handle. */
  lemma ActionDefaultsToHandle(query: map<string, Value>, isCli: bool, argv: seq<string>)
    requires "a" !in query
    requires isCli ==> !SetsKey(Arguments(argv), "a")
    ensures RequestedAction(ScriptParamsOf(query, isCli, argv)) == Ok(Action(Str("handle")))
  {
    ScriptParamsShape(query, isCli, argv, "a");
  }

  /** From the command line, the last `a=<name>` argument names the action. */
  lemma ActionFromCommandLine(query: map<string, Value>, argv: seq<string>, j: nat, name: string)
    requires name in ValidActionNames
    requires j < |Arguments(argv)| && Arguments(argv)[j] == "a=" + name
    requires !SetsKey(Arguments(argv)[j + 1..], "a")
    ensures RequestedAction(ScriptParamsOf(query, true, argv)) == Ok(Action(Str(name)))
  {
    assert ParseArg(Arguments(argv)[j]) == Some(("a", name)) by {
      assert '=' !in name;
      assert "a=" + name == "a" + "=" + name;
      ArgKeyValue("a", name);
    }
    assert Coalesce(ScriptParamsOf(query, true, argv), "a", Null) == Str(name) by {
      ScriptParamFromArgument(query, argv, j, "a", name);
    }
    NewFromName(name);
  }

  // ---------------------------------------------------------------------------
  // Webhook management

  /**
   * Text that a query string carries back unchanged: no '&' or '=' to split
   * it, no '#' to end the URL, and no '+' or '%' for URL-decoding to rewrite.
   */
  predicate QuerySafe(s: string)
  {
    forall j :: 0 <= j < |s| ==> s[j] != '&' && s[j] != '=' && s[j] != '#' && s[j] != '+' && s[j] != '%'
  }

  /** The URL Telegram is told to call back: the webhook, `?a=handle&s=` and the secret. */
  function HookUrl(webhook: Value, secret: Value): (u: string)
    ensures '?' in u
  {
    var u := ToStr(webhook) + "?a=handle&s=" + ToStr(secret);
    assert u[|ToStr(webhook)|] == '?';
    u
  }

  /**
   * The callback URL's query string, split on '&' and each piece on '=',
   * carries exactly a=handle and s=<the secret>, when the webhook has no '?'
   * and the secret is query-safe.
   */
  lemma HookUrlQuery(webhook: Value, secret: Value)
    requires '?' !in ToStr(webhook) && QuerySafe(ToStr(secret))
    ensures var u := HookUrl(webhook, secret);
      var pieces := Explode('&', u[IndexOf(u, '?') + 1..]);
      && u[..IndexOf(u, '?')] == ToStr(webhook)
      && |pieces| == 2
      && ParseArg(pieces[0]) == Some(("a", "handle"))
      && ParseArg(pieces[1]) == Some(("s", ToStr(secret)))
  {
    var w, t := ToStr(webhook), ToStr(secret);
    assert HookUrl(webhook, secret) == w + "?a=handle&s=" + t;
    CallbackQuery(w, t);
  }

  /** The query string of the callback URL, for a webhook without '?' and a query-safe secret. */
  lemma CallbackQuery(w: string, s: string)
    ensures var u := w + "?a=handle&s=" + s;
      && '?' in u
      && ('?' !in w && QuerySafe(s) ==>
            var pieces := Explode('&', u[IndexOf(u, '?') + 1..]);
            && u[..IndexOf(u, '?')] == w
            && |pieces| == 2
            && ParseArg(pieces[0]) == Some(("a", "handle"))
            && ParseArg(pieces[1]) == Some(("s", s)))
  {
    var q := "a=handle&s=" + s;
    assert w + "?a=handle&s=" + s == w + ['?'] + q;
    QueryStart(w, q);
    if QuerySafe(s) {
      QueryPairs(s);
    }
  }

  /** After a webhook without '?', the first '?' is the one that starts the query. */
  lemma QueryStart(w: string, q: string)
    ensures var u := w + ['?'] + q;
      && '?' in u
      && ('?' !in w ==> IndexOf(u, '?') == |w| && u[..|w|] == w && u[|w| + 1..] == q)
  {
    var u := w + ['?'] + q;
    assert u[|w|] == '?';
    if '?' !in w {
      assert u[..|w|] == w;
      assert u[|w| + 1..] == q;
    }
  }

  /** The query a=handle&s=<secret> splits into its two pairs when the secret is query-safe. */
  lemma QueryPairs(s: string)
    requires QuerySafe(s)
    ensures var pieces := Explode('&', "a=handle&s=" + s);
      && |pieces| == 2
      && ParseArg(pieces[0]) == Some(("a", "handle"))
      && ParseArg(pieces[1]) == Some(("s", s))
  {
    SplitQuery(s);
    HandlePair();
    SecretPair(s);
  }

  lemma SplitQuery(s: string)
    requires QuerySafe(s)
    ensures Explode('&', "a=handle&s=" + s) == ["a=handle", "s=" + s]
  {
    var second := "s=" + s;
    assert "a=handle&s=" + s == "a=handle" + ['&'] + second;
    ExplodeAfterFirst('&', "a=handle", second);
    assert '&' !in second by {
      forall j | 0 <= j < |s|
        ensures second[j + 2] == s[j]
      {
      }
    }
  }

  lemma HandlePair()
    ensures ParseArg("a=handle") == Some(("a", "handle"))
  {
    assert "a=handle" == "a" + "=" + "handle";
    ArgKeyValue("a", "handle");
  }

  lemma SecretPair(s: string)
    requires QuerySafe(s)
    ensures ParseArg("s=" + s) == Some(("s", s))
  {
    assert '=' !in s;
    ArgKeyValue("s", s);
    assert "s" + "=" + s == "s=" + s;
  }

  /**
   * The client calls `validateAndSetWebhook()` makes, in order, or the error it
   * raises before making any.
   */
  function WebhookPlan(action: Action, webhook: Value, secret: Value, certificate: Value): (r: Result<seq<Call>>)
    ensures r.Err? <==> IsEmpty(webhook) && action.IsAction(SetActions)
    ensures r.Err? ==> r.error == InvalidWebhook
    ensures r.Ok? ==> |r.value| <= 2
    ensures r.Ok? ==> forall i :: 0 <= i < |r.value| ==>
                        r.value[i] == UnsetWebhook || r.value[i] == SetWebhook(HookUrl(webhook, secret), certificate)
    ensures r.Ok? && |r.value| == 2 ==> r.value == [UnsetWebhook, SetWebhook(HookUrl(webhook, secret), certificate)]
  {
    if IsEmpty(webhook) && action.IsAction(SetActions) then
      Err(InvalidWebhook)
    else
      Ok((if action.IsAction(UnsetActions) then [UnsetWebhook] else [])
         + (if action.IsAction(SetActions) then [SetWebhook(HookUrl(webhook, secret), certificate)] else []))
  }

  /**
   * What each action does to the webhook: unset deletes it; set installs it,
   * or fails when no webhook is configured; reset deletes and then installs, or
   * fails before deleting anything; every other action leaves it alone.
   */
  lemma WebhookPlanByAction(action: Action, webhook: Value, secret: Value, certificate: Value)
    requires action.Valid()
    ensures var p, name, install := WebhookPlan(action, webhook, secret, certificate),
                                    action.GetAction(), SetWebhook(HookUrl(webhook, secret), certificate);
      && (name == "unset" ==> p == Ok([UnsetWebhook]))
      && (name == "set" ==> p == if IsEmpty(webhook) then Err(InvalidWebhook) else Ok([install]))
      && (name == "reset" ==> p == if IsEmpty(webhook) then Err(InvalidWebhook) else Ok([UnsetWebhook, install]))
      && (name !in ["set", "unset", "reset"] ==> p == Ok([]))
      && (action.IsAction(WebhookActions) <==> name in ["set", "unset", "reset"])
  {
    var name, install := action.GetAction(), SetWebhook(HookUrl(webhook, secret), certificate);
    var none: seq<Call> := [];
    WebhookFlags(action);
    var unsets, sets := action.IsAction(UnsetActions), action.IsAction(SetActions);
    if name == "reset" {
      assert unsets && sets;
      assert [UnsetWebhook] + [install] == [UnsetWebhook, install];
    } else if name == "unset" {
      assert unsets && !sets;
      assert [UnsetWebhook] + none == [UnsetWebhook];
    } else if name == "set" {
      assert !unsets && sets;
      assert none + [install] == [install];
    } else {
      assert !unsets && !sets;
      assert none + none == none;
    }
  }

  /** Which of the webhook action lists each valid action belongs to. */
  lemma WebhookFlags(action: Action)
    requires action.Valid()
    ensures var name := action.GetAction();
      && (action.IsAction(UnsetActions) <==> name == "unset" || name == "reset")
      && (action.IsAction(SetActions) <==> name == "set" || name == "reset")
      && (action.IsAction(WebhookActions) <==> name in ["set", "unset", "reset"])
  {
    IsActionOfNames(action, ["unset", "reset"]);
    IsActionOfNames(action, ["set", "reset"]);
    IsActionOfNames(action, ["set", "unset", "reset"]);
  }

  /**
   * A web request whose query is a=handle and s=<the configured secret> passes
   * the secret check and asks for the handle action.
   */
  lemma WebhookCallbackAccepted(input: map<string, Value>, secret: string, argv: seq<string>)
    requires BotParamsOf(input).Ok? && "secret" in input && input["secret"] == Str(secret)
    ensures var script := ScriptParamsOf(map["a" := Str("handle"), "s" := Str(secret)], false, argv);
      && RequestedAction(script) == Ok(Action(Str("handle")))
      && Coalesce(script, "s", Null) == Coalesce(BotParamsOf(input).value, "secret", Null)
  {
    var query := map["a" := Str("handle"), "s" := Str(secret)];
    ScriptParamsShape(query, false, argv, "a");
    ScriptParamsShape(query, false, argv, "s");
    BotParamLookup(input, "secret", Null);
  }

  /**
   * Telegram's callback to the installed URL: for a webhook without '?' and a
   * query-safe secret, the query read off the URL (split on '&', each piece on
   * '=') is exactly a=handle and s=<secret>, the request WebhookCallbackAccepted
   * admits.
   */
  lemma CallbackQueryOfHookUrl(webhook: Value, secret: string)
    requires '?' !in ToStr(webhook) && QuerySafe(secret)
    ensures var u := HookUrl(webhook, Str(secret));
      Overlay(map[], Explode('&', u[IndexOf(u, '?') + 1..])) == map["a" := Str("handle"), "s" := Str(secret)]
  {
    var u := HookUrl(webhook, Str(secret));
    HookUrlQuery(webhook, Str(secret));
    QueryOfPieces(u[IndexOf(u, '?') + 1..], Str(secret));
  }

  lemma QueryOfPieces(q: string, secret: Value)
    requires secret.Str?
    requires var pieces := Explode('&', q);
      |pieces| == 2 && ParseArg(pieces[0]) == Some(("a", "handle")) && ParseArg(pieces[1]) == Some(("s", ToStr(secret)))
    ensures Overlay(map[], Explode('&', q)) == map["a" := Str("handle"), "s" := secret]
  {
    OverlayPair(Explode('&', q), secret.s);
  }

  /** Two parsed pairs, applied in order to an empty query. */
  lemma OverlayPair(pieces: seq<string>, secret: string)
    requires |pieces| == 2
    requires ParseArg(pieces[0]) == Some(("a", "handle")) && ParseArg(pieces[1]) == Some(("s", secret))
    ensures Overlay(map[], pieces) == map["a" := Str("handle"), "s" := Str(secret)]
  {
    var empty: map<string, Value> := map[];
    var first := pieces[..1];
    assert pieces[..|pieces| - 1] == first && pieces[|pieces| - 1] == pieces[1];
    assert first[..|first| - 1] == [] && first[|first| - 1] == pieces[0];
    assert Overlay(empty, first) == empty["a" := Str("handle")];
    assert Overlay(empty, pieces) == Overlay(empty, first)["s" := Str(secret)];
  }

  // ---------------------------------------------------------------------------
  // The secret check

  /**
   * On a web request the secret given as query parameter `s` is compared with
   * the configured secret exactly as given (both read with `??`).
   */
  lemma WebSecretFromInputs(input: map<string, Value>, query: map<string, Value>, argv: seq<string>)
    requires BotParamsOf(input).Ok?
    ensures Coalesce(ScriptParamsOf(query, false, argv), "s", Null) == Coalesce(query, "s", Null)
    ensures Coalesce(BotParamsOf(input).value, "secret", Null) == Coalesce(input, "secret", Null)
  {
    ScriptParamsShape(query, false, argv, "s");
    BotParamLookup(input, "secret", Null);
  }

  /**
   * A null configured secret is matched by a request that gives no `s` at all,
   * so such a request passes the secret check.
   */
  lemma NullSecretAdmitsBareRequest(input: map<string, Value>, query: map<string, Value>, argv: seq<string>)
    requires BotParamsOf(input).Ok? && "secret" in input && input["secret"] == Null
    requires "s" !in query
    ensures Coalesce(ScriptParamsOf(query, false, argv), "s", Null) == Coalesce(BotParamsOf(input).value, "secret", Null)
  {
    WebSecretFromInputs(input, query, argv);
  }

  // ---------------------------------------------------------------------------
  // The loop time and the way updates are handled

  /**
   * `getLoopTime()` on the script parameter `l`: 0 when absent, seven days
   * when blank, otherwise its integer value, never below 0. An array skips the
   * blank test (`trim` of an array is null) and casts to 0 or 1.
   */
  function LoopTime(l: Value): (t: nat)
    ensures l == Null ==> t == 0
    ensures l != Null && !l.IsArray() && Trim(ToStr(l)) == "" ==> t == WeekInSeconds
    ensures l != Null && (l.IsArray() || Trim(ToStr(l)) != "") ==> t == if IntCast(l) < 0 then 0 else IntCast(l)
  {
    if l == Null then 0
    else if !l.IsArray() && Trim(ToStr(l)) == "" then WeekInSeconds
    else if IntCast(l) < 0 then 0
    else IntCast(l)
  }

  /** A number, given as integer or as its decimal text, loops for that many seconds, or 0 if negative. */
  lemma LoopTimeOfInteger(n: int)
    ensures LoopTime(Int(n)) == if n < 0 then 0 else n
    ensures LoopTime(Str(IntToDecimal(n))) == if n < 0 then 0 else n
  {
    var d, m := IntToDecimal(n), if n < 0 then 0 else n;
    DecimalNotBlank(n);
    assert LoopTime(Int(n)) == m by {
      assert ToStr(Int(n)) == d;
    }
    assert LoopTime(Str(d)) == m by {
      DecimalRoundTrip(n);
      assert IntCast(Str(d)) == n;
    }
  }

  /** A decimal numeral never trims away to nothing. */
  lemma DecimalNotBlank(n: int)
    ensures Trim(IntToDecimal(n)) != []
  {
    var d := IntToDecimal(n);
    assert !IsTrimChar(d[0]);
  }

  /** Text that starts with neither white space, a sign nor a digit loops for 0 seconds. */
  lemma LoopTimeOfText(s: string)
    requires s != [] && !IsTrimChar(s[0]) && !IsCSpace(s[0])
    requires !IsDigit(s[0]) && s[0] != '-' && s[0] != '+'
    ensures LoopTime(Str(s)) == 0
  {
    assert Trim(s) != [];
    assert SkipLeadingSpace(s) == s;
    assert LeadingDigits(s) == [];
  }

  /** A value made only of `trim` characters loops for seven days. */
  lemma LoopTimeOfBlank(s: string)
    requires forall j :: 0 <= j < |s| ==> IsTrimChar(s[j])
    ensures LoopTime(Str(s)) == WeekInSeconds
  {
    assert Trim(s) == [];
  }

  /**
   * A numeral, possibly after white space, with a sign, leading zeros or
   * trailing text (" 12", "+5", "007", "12abc"), loops for its value, or 0 if negative.
   */
  lemma LoopTimeOfNumeral(w: string, sign: string, ds: string, rest: string)
    requires forall j :: 0 <= j < |w| ==> IsCSpace(w[j])
    requires sign == "" || sign == "+" || sign == "-"
    requires ds != [] && AllDigits(ds)
    requires rest == [] || !IsDigit(rest[0])
    ensures LoopTime(Str(w + sign + ds + rest)) == if sign == "-" then 0 else DigitsValue(ds)
  {
    var s := w + sign + ds + rest;
    CastNumeral(w, sign, ds, rest);
    DigitAfter(w + sign, ds, rest);
    LoopTimeOfCast(s, |w| + |sign|);
  }

  /** The first digit sits right after the white space and the sign. */
  lemma DigitAfter(p: string, ds: string, rest: string)
    requires ds != [] && AllDigits(ds)
    ensures |p| < |p + ds + rest| && IsDigit((p + ds + rest)[|p|])
  {
    assert (p + ds + rest)[|p|] == ds[0];
  }

  /** Text with a digit somewhere is not blank, so it loops for its cast, or 0 if negative. */
  lemma LoopTimeOfCast(s: string, k: nat)
    requires k < |s| && IsDigit(s[k])
    ensures LoopTime(Str(s)) == if StringToInt(s) < 0 then 0 else StringToInt(s)
  {
    assert !IsTrimChar(s[k]);
  }

  /** Booleans and arrays: false is blank and loops for a week; true and a non-empty array cast to 1. */
  lemma LoopTimeOfOtherValues(xs: seq<Value>, m: map<string, Value>)
    ensures LoopTime(Bool(false)) == WeekInSeconds && LoopTime(Bool(true)) == 1
    ensures LoopTime(List(xs)) == if xs == [] then 0 else 1
    ensures LoopTime(Map(m)) == if m == map[] then 0 else 1
  {
    assert Trim("1") == "1" by {
      StripUnpadded("1", IsTrimChar);
    }
    if m != map[] {
      var k :| k in m;
      assert |m| != 0;
    }
  }

  /** The values the library's getLoopTime test tries. */
  lemma LoopTimeExamples()
    ensures LoopTime(Null) == 0
    ensures LoopTime(Str("")) == WeekInSeconds && LoopTime(Str("     ")) == WeekInSeconds
    ensures LoopTime(Str("text-string")) == 0
    ensures LoopTime(Int(0)) == 0 && LoopTime(Int(-12345)) == 0 && LoopTime(Int(12345)) == 12345
    ensures LoopTime(Str("-12345")) == 0 && LoopTime(Str("12345")) == 12345
  {
    LoopTimeOfBlank("");
    LoopTimeOfBlank("     ");
    LoopTimeOfText("text-string");
    LoopTimeOfInteger(0);
    LoopTimeOfInteger(-12345);
    LoopTimeOfInteger(12345);
    LoopTimeOfNumerals();
  }

  // Proof helper with no counterpart in the source: evaluates the digits of the literal "12345" for the solver.
  lemma DigitsOfTest()
    ensures AllDigits("12345") && DigitsValue("12345") == 12345
  {
    assert DigitsValue("1") == 1 by { assert "1"[..0] == ""; }
    assert DigitsValue("12") == 12 by { assert "12"[..1] == "1"; }
    assert DigitsValue("123") == 123 by { assert "123"[..2] == "12"; }
    assert DigitsValue("1234") == 1234 by { assert "1234"[..3] == "123"; }
    assert "12345"[..4] == "1234";
  }

  /** The two numerals of the library's test, as text. */
  lemma LoopTimeOfNumerals()
    ensures LoopTime(Str("12345")) == 12345 && LoopTime(Str("-12345")) == 0
  {
    DigitsOfTest();
    NumeralPositive("12345");
    NumeralNegative("12345");
    MinusNumeral();
  }

  // Proof helper with no counterpart in the source: the literal concatenation, kept apart so it is cheap for the solver.
  lemma MinusNumeral()
    ensures "-" + "12345" == "-12345"
  {
  }

  /** A digit string loops for its value. */
  lemma NumeralPositive(ds: string)
    requires ds != [] && AllDigits(ds)
    ensures LoopTime(Str(ds)) == DigitsValue(ds)
  {
    CastDigits(ds);
    LoopTimeOfCast(ds, 0);
  }

  /** A digit string after '-' loops for 0 seconds. */
  lemma NumeralNegative(ds: string)
    requires ds != [] && AllDigits(ds)
    ensures LoopTime(Str("-" + ds)) == 0
  {
    CastNegativeDigits(ds);
    assert ("-" + ds)[1] == ds[0];
    LoopTimeOfCast("-" + ds, 1);
  }

  datatype RequestMode = WebhookRequest | UpdatesLoop(seconds: nat) | SingleFetch

  /** How `handleRequest()` handles updates. */
  function ModeFor(webhook: Value, loopParam: Value): (m: RequestMode)
    ensures m == WebhookRequest <==> !IsEmpty(webhook)
    ensures m.UpdatesLoop? ==> m.seconds > 0 && m.seconds == LoopTime(loopParam)
    ensures m == SingleFetch ==> LoopTime(loopParam) == 0
  {
    if IsEmpty(webhook) then
      var t := LoopTime(loopParam);
      if t != 0 then UpdatesLoop(t) else SingleFetch
    else
      WebhookRequest
  }

  /**
   * A configured webhook always means webhook handling, whatever `l` says;
   * without one, no `l` means a single fetch, a blank `l` a week-long loop and
   * a positive number a loop of that many seconds.
   */
  lemma ModeChoice(webhook: Value, l: Value)
    ensures Truthy(webhook) ==> ModeFor(webhook, l) == WebhookRequest
    ensures !Truthy(webhook) && l == Null ==> ModeFor(webhook, l) == SingleFetch
    ensures !Truthy(webhook) && l.Str? && (forall j :: 0 <= j < |l.s| ==> IsTrimChar(l.s[j])) ==>
      ModeFor(webhook, l) == UpdatesLoop(WeekInSeconds)
    ensures forall n: int {:trigger IntToDecimal(n)} :: !Truthy(webhook) && n > 0 && l == Str(IntToDecimal(n)) ==>
      ModeFor(webhook, l) == UpdatesLoop(n)
  {
    if l.Str? && forall j :: 0 <= j < |l.s| ==> IsTrimChar(l.s[j]) {
      LoopTimeOfBlank(l.s);
    }
    forall n: int | !Truthy(webhook) && n > 0 && l == Str(IntToDecimal(n))
      ensures ModeFor(webhook, l) == UpdatesLoop(n)
    {
      LoopTimeOfInteger(n);
    }
  }

  /** `n` copies of the call `c`. */
  function Repeat(c: Call, n: nat): (r: seq<Call>)
    ensures |r| == n && forall i :: 0 <= i < n ==> r[i] == c
  {
    seq(n, _ => c)
  }

  /** The client calls handling updates makes in mode `m`, when the clock allows `rounds` loop rounds. */
  function ModeCalls(m: RequestMode, rounds: nat): seq<Call>
  {
    match m
    case WebhookRequest => [HandleWebhook]
    case SingleFetch => [GetUpdates]
    case UpdatesLoop(_) => Repeat(GetUpdates, rounds)
  }

  // ---------------------------------------------------------------------------
  // The dispatch of `run()`

  /**
   * The client calls `run()` makes once the secret check has passed, or the
   * error it stops with, for the stored bot and script parameters.
   */
  function DispatchPlan(action: Action, bot: map<string, Value>, script: map<string, Value>, rounds: nat)
    : (r: Result<seq<Call>>)
    ensures r.Err? ==> r.error == InvalidWebhook
    ensures r.Err? ==> action.IsAction(SetActions) && IsEmpty(Coalesce(bot, "webhook", Null))
    ensures !action.IsAction(WebhookActions) ==> r.Ok?
  {
    var webhook := Coalesce(bot, "webhook", Null);
    if action.IsAction(WebhookActions) then
      WebhookPlan(action, webhook, Coalesce(bot, "secret", Null), Coalesce(bot, "selfcrt", Null))
    else if action.IsAction(Str("handle")) then
      Ok(ModeCalls(ModeFor(webhook, Coalesce(script, "l", Null)), rounds))
    else
      Ok([])
  }

  /**
   * Each action's share of the dispatch: set, unset and reset follow the
   * webhook plan and make at least one call when they succeed; handle makes the
   * calls of its mode and never fails; cron and webhookinfo make no call.
   */
  lemma DispatchByAction(action: Action, bot: map<string, Value>, script: map<string, Value>, rounds: nat)
    requires action.Valid()
    ensures var out, name := DispatchPlan(action, bot, script, rounds), action.GetAction();
      && (name in ["set", "unset", "reset"] ==>
            out == WebhookPlan(action, Coalesce(bot, "webhook", Null), Coalesce(bot, "secret", Null),
                               Coalesce(bot, "selfcrt", Null))
            && (out.Ok? ==> out.value != []))
      && (name == "handle" ==>
            out == Ok(ModeCalls(ModeFor(Coalesce(bot, "webhook", Null), Coalesce(script, "l", Null)), rounds)))
      && (name in ["cron", "webhookinfo"] ==> out == Ok([]))
  {
    WebhookPlanByAction(action, Coalesce(bot, "webhook", Null), Coalesce(bot, "secret", Null),
                        Coalesce(bot, "selfcrt", Null));
  }

  // ---------------------------------------------------------------------------
  // The manager

  class BotManager {
    /** The Telegram client; null until `run()` builds one. */
    var telegram: Client?
    /** What the last webhook operation answered (`test_output`). */
    var testOutput: Value
    const params: Params
    const action: Action
    /** Whether the script runs from the command line (`PHP_SAPI === 'cli'`). */
    const isCli: bool

    ghost predicate Valid()
      reads this, params, telegram
    {
      params.Valid() && action.Valid() && (telegram != null ==> telegram.Valid())
    }

    constructor FromParts(params: Params, action: Action, isCli: bool)
      requires params.Valid() && action.Valid()
      ensures this.params == params && this.action == action && this.isCli == isCli
      ensures telegram == null && testOutput == Null && Valid()
    {
      this.params := params;
      this.action := action;
      this.isCli := isCli;
      telegram := null;
      testOutput := Null;
    }

    /**
     * `new BotManager($params)`: the parameter store is built first and its
     * error wins; then the action is taken from script parameter `a`.
     */
    static method Create(input: map<string, Value>, query: map<string, Value>, isCli: bool, argv: seq<string>)
      returns (r: Result<BotManager>)
      ensures r.Err? <==> BotParamsOf(input).Err? || RequestedAction(ScriptParamsOf(query, isCli, argv)).Err?
      ensures BotParamsOf(input).Err? ==> r.Err? && r.error == BotParamsOf(input).error
      ensures BotParamsOf(input).Ok? && r.Err? ==> r.error == RequestedAction(ScriptParamsOf(query, isCli, argv)).error
      ensures r.Ok? ==> fresh(r.value) && fresh(r.value.params) && r.value.Valid()
      ensures r.Ok? ==> r.value.telegram == null && r.value.testOutput == Null && r.value.isCli == isCli
      ensures r.Ok? ==> r.value.params.botParams == BotParamsOf(input).value
      ensures r.Ok? ==> r.value.params.scriptParams == ScriptParamsOf(query, isCli, argv)
      ensures r.Ok? ==> r.value.action == RequestedAction(ScriptParamsOf(query, isCli, argv)).value
    {
      var p := Params.Create(input, query, isCli, argv);
      if p.Err? {
        return Err(p.error);
      }
      var a := New(p.value.GetScriptParam("a", Null));
      if a.Err? {
        return Err(a.error);
      }
      var m := new BotManager.FromParts(p.value, a.value, isCli);
      return Ok(m);
    }

    /** The secret given as script parameter `s` is not, strictly, the configured one. */
    ghost predicate SecretMismatch()
      reads params
      requires params.Valid()
    {
      params.GetScriptParam("s", Null) != params.GetBotParam("secret", Null)
    }

    /** What `validateAndSetWebhook()` does with the stored parameters and action. */
    ghost function Plan(): Result<seq<Call>>
      reads params
    {
      var bot := params.botParams;
      WebhookPlan(action, Coalesce(bot, "webhook", Null), Coalesce(bot, "secret", Null), Coalesce(bot, "selfcrt", Null))
    }

    /** How `handleRequest()` handles updates with the stored parameters. */
    ghost function Mode(): RequestMode
      reads params
    {
      ModeFor(Coalesce(params.botParams, "webhook", Null), Coalesce(params.scriptParams, "l", Null))
    }

    /**
     * `validateSecret($force)`: from the command line the secret is checked
     * only when forced; otherwise a mismatch is "Invalid access".
     */
    method ValidateSecret(force: bool) returns (err: Option<Error>)
      requires Valid()
      ensures err.Some? <==> (force || !isCli) && SecretMismatch()
      ensures err.Some? ==> err.value == InvalidAccess
    {
      if force || !isCli {
        var secret := params.GetBotParam("secret", Null);
        var secretGet := params.GetScriptParam("s", Null);
        if secretGet != secret {
          return Some(InvalidAccess);
        }
      }
      return None;
    }

    /**
     * `validateAndSetWebhook()`: the planned calls are made in order and
     * `test_output` ends as the description of the last one; on an error
     * nothing further is called and `test_output` keeps its value.
     */
    method ValidateAndSetWebhook() returns (err: Option<Error>)
      requires Valid()
      modifies this, telegram
      ensures Valid() && telegram == old(telegram)
      ensures Plan().Err? ==>
        && err == Some(Plan().error) && testOutput == old(testOutput)
        && (telegram != null ==> telegram.trace == old(telegram.trace))
      ensures Plan().Ok? && telegram == null ==>
        && testOutput == old(testOutput)
        && err == if Plan().value == [] then None else Some(NullReceiver(Plan().value[0]))
      ensures Plan().Ok? && telegram != null ==>
        && err == None && Appended(old(telegram.trace), telegram.trace, Plan().value)
        && testOutput == if Plan().value == [] then old(testOutput)
                         else Str(ReplyAt(telegram.script, |telegram.trace| - 1))
    {
      var webhook := params.GetBotParam("webhook", Null);
      var selfcrt := params.GetBotParam("selfcrt", Null);
      if IsEmpty(webhook) && action.IsAction(SetActions) {
        return Some(InvalidWebhook);
      }
      var install := SetWebhook(HookUrl(webhook, params.GetBotParam("secret", Null)), selfcrt);
      err := WebhookSteps(install, Plan().value);
    }

    /**
     * The two steps of `validateAndSetWebhook()` past its check: unset when
     * the action is unset or reset, then `install` when it is set or reset.
     */
    method WebhookSteps(install: Call, ghost calls: seq<Call>) returns (err: Option<Error>)
      requires Valid()
      requires calls == (if action.IsAction(UnsetActions) then [UnsetWebhook] else [])
                        + (if action.IsAction(SetActions) then [install] else [])
      requires install.SetWebhook?
      modifies this, telegram
      ensures Valid() && telegram == old(telegram)
      ensures telegram == null ==>
        && testOutput == old(testOutput)
        && err == if calls == [] then None else Some(NullReceiver(calls[0]))
      ensures telegram != null ==>
        && err == None && Appended(old(telegram.trace), telegram.trace, calls)
        && testOutput == if calls == [] then old(testOutput)
                         else Str(ReplyAt(telegram.script, |telegram.trace| - 1))
    {
      ghost var none: seq<Call> := [];
      ghost var done := none;
      if telegram != null {
        AppendedNothing(telegram.trace);
      }
      if action.IsAction(UnsetActions) {
        err := UnsetStep();
        if err.Some? {
          return;
        }
        done := [UnsetWebhook];
      }
      if action.IsAction(SetActions) {
        ghost var mid := if telegram != null then telegram.trace else [];
        err := SetStep(install.url, install.certificate);
        if err.Some? {
          return;
        }
        AppendedTrans(old(telegram.trace), mid, telegram.trace, done, [install]);
        done := done + [install];
      } else {
        assert done + none == done;
      }
      assert done == calls;
      return None;
    }

    /** `$this->test_output = $this->telegram->unsetWebHook()->getDescription()` */
    method UnsetStep() returns (err: Option<Error>)
      requires Valid()
      modifies this, telegram
      ensures Valid() && telegram == old(telegram)
      ensures telegram == null ==> err == Some(NullReceiver(UnsetWebhook)) && testOutput == old(testOutput)
      ensures telegram != null ==>
        && err == None && Appended(old(telegram.trace), telegram.trace, [UnsetWebhook])
        && testOutput == Str(ReplyAt(telegram.script, |telegram.trace| - 1))
    {
      if telegram == null {
        return Some(NullReceiver(UnsetWebhook));
      }
      var description := telegram.UnsetWebHook();
      testOutput := Str(description);
      return None;
    }

    /** `$this->test_output = $this->telegram->setWebHook($url, $certificate)->getDescription()` */
    method SetStep(url: string, certificate: Value) returns (err: Option<Error>)
      requires Valid()
      modifies this, telegram
      ensures Valid() && telegram == old(telegram)
      ensures telegram == null ==> err == Some(NullReceiver(SetWebhook(url, certificate))) && testOutput == old(testOutput)
      ensures telegram != null ==>
        && err == None && Appended(old(telegram.trace), telegram.trace, [SetWebhook(url, certificate)])
        && testOutput == Str(ReplyAt(telegram.script, |telegram.trace| - 1))
    {
      if telegram == null {
        return Some(NullReceiver(SetWebhook(url, certificate)));
      }
      var description := telegram.SetWebHook(url, certificate);
      testOutput := Str(description);
      return None;
    }

    /** `handleGetUpdates()`: one fetch of pending updates. */
    method HandleGetUpdates() returns (err: Option<Error>)
      requires Valid()
      modifies telegram
      ensures Valid()
      ensures telegram == null ==> err == Some(NullReceiver(GetUpdates))
      ensures telegram != null ==> err == None && Appended(old(telegram.trace), telegram.trace, [GetUpdates])
    {
      if telegram == null {
        return Some(NullReceiver(GetUpdates));
      }
      telegram.HandleGetUpdates();
      return None;
    }

    /** `handleGetUpdatesLoop()`: one fetch per round the clock allows. */
    method HandleGetUpdatesLoop(rounds: nat) returns (err: Option<Error>)
      requires Valid()
      modifies telegram
      ensures Valid()
      ensures telegram == null ==> (err.None? <==> rounds == 0) && (err.Some? ==> err.value == NullReceiver(GetUpdates))
      ensures telegram != null ==> err == None && Appended(old(telegram.trace), telegram.trace, Repeat(GetUpdates, rounds))
    {
      if telegram != null {
        assert telegram.trace[..|telegram.trace|] == telegram.trace;
      }
      var i := 0;
      while i < rounds
        invariant i <= rounds && Valid()
        invariant telegram == null ==> i == 0
        invariant telegram != null ==> Appended(old(telegram.trace), telegram.trace, Repeat(GetUpdates, i))
      {
        ghost var mid := if telegram != null then telegram.trace else [];
        err := HandleGetUpdates();
        if err.Some? {
          return;
        }
        AppendedTrans(old(telegram.trace), mid, telegram.trace, Repeat(GetUpdates, i), [GetUpdates]);
        assert Repeat(GetUpdates, i) + [GetUpdates] == Repeat(GetUpdates, i + 1);
        i := i + 1;
      }
      return None;
    }

    /** `handleWebhook()`: process the incoming webhook request. */
    method HandleWebhook() returns (err: Option<Error>)
      requires Valid()
      modifies telegram
      ensures Valid()
      ensures telegram == null ==> err == Some(NullReceiver(Call.HandleWebhook))
      ensures telegram != null ==> err == None && Appended(old(telegram.trace), telegram.trace, [Call.HandleWebhook])
    {
      if telegram == null {
        return Some(NullReceiver(Call.HandleWebhook));
      }
      telegram.Handle();
      return None;
    }

    /**
     * `handleRequest()`: webhook handling when a webhook is configured, else a
     * fetch loop when the loop time is positive, else a single fetch.
     */
    method HandleRequest(rounds: nat) returns (err: Option<Error>)
      requires Valid()
      modifies telegram
      ensures Valid()
      ensures telegram == null ==> (err.None? <==> ModeCalls(Mode(), rounds) == [])
      ensures telegram == null && err.Some? ==> err.value == NullReceiver(ModeCalls(Mode(), rounds)[0])
      ensures telegram != null ==> err == None && Appended(old(telegram.trace), telegram.trace, ModeCalls(Mode(), rounds))
    {
      if IsEmpty(params.GetBotParam("webhook", Null)) {
        var loopTime := LoopTime(params.GetScriptParam("l", Null));
        if loopTime != 0 {
          err := HandleGetUpdatesLoop(rounds);
        } else {
          err := HandleGetUpdates();
        }
      } else {
        err := HandleWebhook();
      }
    }

    /**
     * The dispatch at the end of `run()`, on a client that has had no call yet:
     * set, unset and reset manage the webhook; handle handles updates; cron and
     * webhookinfo do nothing further.
     */
    method Dispatch(rounds: nat) returns (err: Option<Error>)
      requires Valid() && telegram != null && telegram.trace == []
      modifies this, telegram
      ensures Valid() && telegram == old(telegram)
      ensures var out := DispatchPlan(action, params.botParams, params.scriptParams, rounds);
        && (out.Err? ==> err == Some(out.error) && telegram.trace == [] && testOutput == old(testOutput))
        && (out.Ok? ==> err == None && CallsOf(telegram.trace) == out.value)
        && (out.Ok? && action.IsAction(WebhookActions) && out.value != [] ==>
              testOutput == Str(ReplyAt(telegram.script, |out.value| - 1)))
        && (!action.IsAction(WebhookActions) ==> testOutput == old(testOutput))
    {
      ghost var out := DispatchPlan(action, params.botParams, params.scriptParams, rounds);
      if action.IsAction(WebhookActions) {
        assert out == Plan();
        err := ValidateAndSetWebhook();
        if out.Ok? {
          AppendedFromEmpty(telegram.trace, out.value);
        }
      } else if action.IsAction(Str("handle")) {
        assert out == Ok(ModeCalls(Mode(), rounds));
        err := HandleRequest(rounds);
        AppendedFromEmpty(telegram.trace, out.value);
      } else {
        err := None;
      }
    }

    /**
     * `run()`: check the secret (not forced), build the client from the API key
     * and the never-stored `botname`, then dispatch on the action.
     */
    method Run(replies: seq<string>, rounds: nat) returns (err: Option<Error>)
      requires Valid()
      modifies this
      ensures Valid()
      ensures !isCli && SecretMismatch() ==>
        err == Some(InvalidAccess) && telegram == old(telegram) && testOutput == old(testOutput)
      ensures !(!isCli && SecretMismatch()) ==>
        && telegram != null && fresh(telegram) && telegram.script == replies
        && telegram.apiKey == params.GetBotParam("api_key", Null) && telegram.botUsername == Null
      ensures !(!isCli && SecretMismatch()) ==>
        var out := DispatchPlan(action, params.botParams, params.scriptParams, rounds);
        && (out.Err? ==> err == Some(out.error) && telegram.trace == [] && testOutput == old(testOutput))
        && (out.Ok? ==> err == None && CallsOf(telegram.trace) == out.value)
        && (out.Ok? && action.IsAction(WebhookActions) && out.value != [] ==>
              testOutput == Str(ReplyAt(replies, |out.value| - 1)))
        && (!action.IsAction(WebhookActions) ==> testOutput == old(testOutput))
    {
      err := ValidateSecret(false);
      if err.Some? {
        return;
      }
      var botname := params.GetBotParam("botname", Null);
      BotnameAndSelfcrtUnrecognised();
      telegram := new Client(params.GetBotParam("api_key", Null), botname, replies);
      err := Dispatch(rounds);
    }
  }
}
