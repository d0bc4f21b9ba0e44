/**
 * The parameter store (src/Params.php). It holds two maps:
 *  - bot parameters: the configuration given at construction. Three vital keys
 *    must be present. Recognised extra keys are copied, anything else is dropped,
 *    and `validate_request` is seeded with true;
 *  - script parameters: the request's query map, overlaid on the command line by
 *    `key=value` arguments, then cut down to the whitelist s, a, l, i.
 *
 * The superglobals `$_GET`, `$_SERVER['argv']` and the constant `PHP_SAPI` are
 * explicit inputs: `query`, `argv` and `isCli`.
 */
module ParamStore {
  import opened Php

  const ValidScriptParams: seq<string> := ["s", "a", "l", "i"]
  const ValidVitalBotParams: seq<string> := ["api_key", "bot_username", "secret"]
  const ValidExtraBotParams: seq<string> := [
    "validate_request", "webhook", "certificate", "max_connections", "allowed_updates",
    "logging", "limiter", "admins", "mysql", "download_path", "upload_path",
    "commands_paths", "command_configs", "botan_token", "custom_input"]

  /** The bot parameters before any input is copied in. */
  const DefaultBotParams: map<string, Value> := map["validate_request" := Bool(true)]

  predicate Recognised(key: string)
  {
    key in ValidVitalBotParams || key in ValidExtraBotParams
  }

  /** The entries of `input` whose key is one of `keys`. */
  function Restrict(input: map<string, Value>, keys: seq<string>): map<string, Value>
  {
    map k | k in input && k in keys :: input[k]
  }

  /** The first of `keys` that `input` lacks; existence alone counts, a null value is present. */
  function FirstMissing(keys: seq<string>, input: map<string, Value>): (r: Option<string>)
    ensures r.None? <==> forall i :: 0 <= i < |keys| ==> keys[i] in input
    ensures r.Some? ==> exists i :: 0 <= i < |keys| && keys[i] == r.value && r.value !in input
                                    && forall j :: 0 <= j < i ==> keys[j] in input
  {
    if keys == [] then None
    else if keys[0] !in input then Some(keys[0])
    else
      var r := FirstMissing(keys[1..], input);
      if r.Some? then
        var i :| 0 <= i < |keys[1..]| && keys[1..][i] == r.value && r.value !in input
                 && forall j :: 0 <= j < i ==> keys[1..][j] in input;
        assert keys[i + 1] == r.value;
        r
      else r
  }

  /** The bot parameters that construction from `input` stores, or the error it raises. */
  function BotParamsOf(input: map<string, Value>): (r: Result<map<string, Value>>)
    ensures r.Ok? <==> forall i :: 0 <= i < |ValidVitalBotParams| ==> ValidVitalBotParams[i] in input
    ensures r.Err? ==> r.error.kind == InvalidParamsException
    ensures r.Err? ==> exists i :: 0 <= i < |ValidVitalBotParams| && ValidVitalBotParams[i] !in input
                          && r.error.message == "Some vital info is missing: " + ValidVitalBotParams[i]
    ensures r.Ok? ==> "validate_request" in r.value
    ensures r.Ok? ==> forall k :: k in input && k in ValidVitalBotParams + ValidExtraBotParams ==>
                        k in r.value && r.value[k] == input[k]
  {
    match FirstMissing(ValidVitalBotParams, input)
    case Some(key) => Err(Error(InvalidParamsException, "Some vital info is missing: " + key))
    case None => Ok(DefaultBotParams + Restrict(input, ValidVitalBotParams + ValidExtraBotParams))
  }

  /**
   * `@list($key, $val) = explode('=', $arg)`, kept only when both are set:
   * the key is the text before the first '=', the value the text up to the next.
   */
  function ParseArg(arg: string): (r: Option<(string, string)>)
    ensures r.Some? <==> '=' in arg
    ensures r.Some? ==> var (key, val) := r.value;
      && '=' !in key && '=' !in val
      && |key| < |arg| && arg[..|key|] == key && arg[|key|] == '='
      && val <= arg[|key| + 1..]
      && (|key| + 1 + |val| == |arg| || arg[|key| + 1 + |val|] == '=')
  {
    var parts := Explode('=', arg);
    ExplodeFront('=', arg);
    if |parts| < 2 then None
    else
      ExplodeFront('=', arg[IndexOf(arg, '=') + 1..]);
      Some((parts[0], parts[1]))
  }

  /** The script map after the command-line arguments `args` were applied in order. */
  function Overlay(m: map<string, Value>, args: seq<string>): (r: map<string, Value>)
    ensures m.Keys <= r.Keys
    ensures forall k :: k in r ==> (k in m && r[k] == m[k]) || r[k].Str?
  {
    if args == [] then m
    else
      var before := Overlay(m, args[..|args| - 1]);
      match ParseArg(args[|args| - 1])
      case Some((key, val)) => before[key := Str(val)]
      case None => before
  }

  /** Only the whitelisted script keys survive. */
  function Whitelisted(m: map<string, Value>): (r: map<string, Value>)
    ensures r.Keys <= m.Keys && forall k :: k in r ==> k in ValidScriptParams && r[k] == m[k]
    ensures forall i :: 0 <= i < |ValidScriptParams| && ValidScriptParams[i] in m ==> ValidScriptParams[i] in r
  {
    map k | k in m && k in ValidScriptParams :: m[k]
  }

  /** `array_slice($argv, 1)`: the arguments after the script name. */
  function Arguments(argv: seq<string>): seq<string>
  {
    if argv == [] then [] else argv[1..]
  }

  /** The script parameters that construction stores. */
  function ScriptParamsOf(query: map<string, Value>, isCli: bool, argv: seq<string>): (r: map<string, Value>)
    ensures forall k :: k in r ==> k in ValidScriptParams
    ensures forall k :: k in query && k in ValidScriptParams ==> k in r
    ensures forall k :: k in r ==> (k in query && r[k] == query[k]) || (isCli && r[k].Str?)
  {
    Whitelisted(if isCli then Overlay(query, Arguments(argv)) else query)
  }

  class Params {
    var scriptParams: map<string, Value>
    var botParams: map<string, Value>

    /** What construction establishes and nothing later changes. */
    ghost predicate Valid()
      reads this
    {
      && (forall k :: k in botParams ==> Recognised(k))
      && "validate_request" in botParams
      && (forall k :: k in scriptParams ==> k in ValidScriptParams)
    }

    constructor Init()
      ensures scriptParams == map[] && botParams == DefaultBotParams
    {
      scriptParams := map[];
      botParams := DefaultBotParams;
    }

    /**
     * `new Params($params)`, with the superglobals made explicit. Bot parameters
     * are validated first; script parameters are never an error.
     */
    static method Create(input: map<string, Value>, query: map<string, Value>, isCli: bool, argv: seq<string>)
      returns (r: Result<Params>)
      ensures r.Err? <==> BotParamsOf(input).Err?
      ensures r.Err? ==> r.error == BotParamsOf(input).error
      ensures r.Ok? ==> fresh(r.value) && r.value.Valid()
      ensures r.Ok? ==> r.value.botParams == BotParamsOf(input).value
      ensures r.Ok? ==> r.value.scriptParams == ScriptParamsOf(query, isCli, argv)
    {
      var p := new Params.Init();
      var err := p.ValidateAndSetBotParams(input);
      if err.Some? {
        return Err(err.value);
      }
      p.ValidateAndSetScriptParams(query, isCli, argv);
      BotParamsRecognised(input);
      return Ok(p);
    }

    /** `validateAndSetBotParams($params)`: the vital keys in order, then the recognised extras. */
    method ValidateAndSetBotParams(input: map<string, Value>) returns (err: Option<Error>)
      modifies this`botParams
      ensures err.Some? <==> BotParamsOf(input).Err?
      ensures err.Some? ==> err.value == BotParamsOf(input).error
      ensures err.None? ==> botParams == old(botParams) + Restrict(input, ValidVitalBotParams + ValidExtraBotParams)
    {
      ghost var before := botParams;
      err := SetVitalBotParams(input, ValidVitalBotParams);
      if err.None? {
        SetExtraBotParams(input, ValidExtraBotParams);
        RestrictConcat(before, input, ValidVitalBotParams, ValidExtraBotParams);
      }
    }

    /** The first loop of validateAndSetBotParams: copy each vital key, failing on the first one missing. */
    method SetVitalBotParams(input: map<string, Value>, vitals: seq<string>) returns (err: Option<Error>)
      modifies this`botParams
      ensures err.Some? <==> FirstMissing(vitals, input).Some?
      ensures err.Some? ==> err.value == Error(InvalidParamsException, "Some vital info is missing: " + FirstMissing(vitals, input).value)
      ensures err.None? ==> botParams == old(botParams) + Restrict(input, vitals)
    {
      var i := 0;
      while i < |vitals|
        invariant 0 <= i <= |vitals|
        invariant forall j :: 0 <= j < i ==> vitals[j] in input
        invariant botParams == old(botParams) + Restrict(input, vitals[..i])
      {
        var vitalKey := vitals[i];
        if vitalKey !in input {
          FirstMissingAt(vitals, input, i);
          return Some(Error(InvalidParamsException, "Some vital info is missing: " + vitalKey));
        }
        RestrictStep(input, vitals[..i], vitalKey);
        UpdateUnion(old(botParams), Restrict(input, vitals[..i]), vitalKey, input[vitalKey]);
        botParams := botParams[vitalKey := input[vitalKey]];
        assert vitals[..i + 1] == vitals[..i] + [vitalKey];
        i := i + 1;
      }
      assert vitals[..i] == vitals;
      return None;
    }

    /** The second loop of validateAndSetBotParams: copy each of the extra keys that is present. */
    method SetExtraBotParams(input: map<string, Value>, extras: seq<string>)
      modifies this`botParams
      ensures botParams == old(botParams) + Restrict(input, extras)
    {
      var n := 0;
      while n < |extras|
        invariant 0 <= n <= |extras|
        invariant botParams == old(botParams) + Restrict(input, extras[..n])
      {
        var extraKey := extras[n];
        assert extras[..n + 1] == extras[..n] + [extraKey];
        RestrictStep(input, extras[..n], extraKey);
        if extraKey in input {
          UpdateUnion(old(botParams), Restrict(input, extras[..n]), extraKey, input[extraKey]);
          botParams := botParams[extraKey := input[extraKey]];
        }
        n := n + 1;
      }
      assert extras[..n] == extras;
    }

    /** `validateAndSetScriptParams()` */
    method ValidateAndSetScriptParams(query: map<string, Value>, isCli: bool, argv: seq<string>)
      modifies this`scriptParams
      ensures scriptParams == ScriptParamsOf(query, isCli, argv)
    {
      scriptParams := query;
      if isCli {
        var args := Arguments(argv);
        for i := 0 to |args|
          invariant scriptParams == Overlay(query, args[..i])
        {
          assert args[..i + 1][..i] == args[..i];
          var parsed := ParseArg(args[i]);
          if parsed.Some? {
            var (key, val) := parsed.value;
            scriptParams := scriptParams[key := Str(val)];
          }
        }
        assert args[..|args|] == args;
      }
      scriptParams := map k | k in scriptParams && k in ValidScriptParams :: scriptParams[k];
    }

    /** `getBotParam($param, $default)`: the stored value unless it is absent or null. */
    function GetBotParam(param: string, default: Value): (r: Value)
      reads this
      requires Valid()
      ensures !Recognised(param) ==> r == default
      ensures r == default || (param in botParams && r == botParams[param] && r != Null)
      ensures param in botParams && botParams[param] != Null ==> r == botParams[param]
    {
      Coalesce(botParams, param, default)
    }

    /** `getBotParams()` */
    function GetBotParams(): (r: map<string, Value>)
      reads this
      requires Valid()
      ensures "validate_request" in r && forall k :: k in r ==> Recognised(k)
    {
      botParams
    }

    /** `getScriptParam($param, $default)` */
    function GetScriptParam(param: string, default: Value): (r: Value)
      reads this
      requires Valid()
      ensures param !in ValidScriptParams ==> r == default
      ensures r == default || (param in scriptParams && r == scriptParams[param] && r != Null)
      ensures param in scriptParams && scriptParams[param] != Null ==> r == scriptParams[param]
    {
      Coalesce(scriptParams, param, default)
    }

    /** `getScriptParams()` */
    function GetScriptParams(): (r: map<string, Value>)
      reads this
      requires Valid()
      ensures forall k :: k in r ==> k in ValidScriptParams
    {
      scriptParams
    }
  }

  // ---------------------------------------------------------------------------
  // Properties of the construction

  lemma RestrictStep(input: map<string, Value>, keys: seq<string>, x: string)
    ensures Restrict(input, keys + [x]) ==
      if x in input then Restrict(input, keys)[x := input[x]] else Restrict(input, keys)
  {
    if x in input {
      assert Restrict(input, keys + [x]).Keys == Restrict(input, keys).Keys + {x};
    } else {
      assert Restrict(input, keys + [x]).Keys == Restrict(input, keys).Keys;
    }
  }

  lemma RestrictConcat(m: map<string, Value>, input: map<string, Value>, a: seq<string>, b: seq<string>)
    ensures m + Restrict(input, a) + Restrict(input, b) == m + Restrict(input, a + b)
  {
    var lhs, rhs := m + Restrict(input, a) + Restrict(input, b), m + Restrict(input, a + b);
    assert lhs.Keys == rhs.Keys;
    forall k | k in lhs ensures lhs[k] == rhs[k] {
    }
  }

  lemma UpdateUnion(a: map<string, Value>, b: map<string, Value>, x: string, v: Value)
    ensures (a + b)[x := v] == a + b[x := v]
  {
  }

  lemma {:induction false} FirstMissingAt(keys: seq<string>, input: map<string, Value>, i: nat)
    requires i < |keys| && keys[i] !in input
    requires forall j :: 0 <= j < i ==> keys[j] in input
    ensures FirstMissing(keys, input) == Some(keys[i])
  {
    if i > 0 {
      FirstMissingAt(keys[1..], input, i - 1);
    }
  }

  lemma BotParamsRecognised(input: map<string, Value>)
    requires BotParamsOf(input).Ok?
    ensures forall k :: k in BotParamsOf(input).value ==> Recognised(k)
    ensures "validate_request" in BotParamsOf(input).value
  {
  }

  /**
   * Construction fails exactly when a vital key is missing, and it names the
   * first missing one in the order api_key, bot_username, secret. A vital key
   * mapped to null is present.
   */
  lemma VitalKeysChecked(input: map<string, Value>)
    ensures BotParamsOf(input).Ok? <==> "api_key" in input && "bot_username" in input && "secret" in input
    ensures "api_key" !in input ==>
      BotParamsOf(input) == Err(Error(InvalidParamsException, "Some vital info is missing: api_key"))
    ensures "api_key" in input && "bot_username" !in input ==>
      BotParamsOf(input) == Err(Error(InvalidParamsException, "Some vital info is missing: bot_username"))
    ensures "api_key" in input && "bot_username" in input && "secret" !in input ==>
      BotParamsOf(input) == Err(Error(InvalidParamsException, "Some vital info is missing: secret"))
  {
    FirstMissingOfThree("api_key", "bot_username", "secret", input);
  }

  /** The first missing key of a three-key list, spelled out. */
  lemma FirstMissingOfThree(a: string, b: string, c: string, input: map<string, Value>)
    ensures FirstMissing([a, b, c], input) ==
      if a !in input then Some(a) else if b !in input then Some(b) else if c !in input then Some(c) else None
  {
    var ks := [a, b, c];
    if a !in input {
      FirstMissingAt(ks, input, 0);
    } else if b !in input {
      FirstMissingAt(ks, input, 1);
    } else if c !in input {
      FirstMissingAt(ks, input, 2);
    }
  }

  /**
   * What `getBotParam` returns after a successful construction, in terms of the
   * input: a recognised key's non-null value; true for an unset
   * `validate_request`; the default for everything else, unknown keys included.
   */
  lemma BotParamLookup(input: map<string, Value>, key: string, default: Value)
    requires BotParamsOf(input).Ok?
    ensures Coalesce(BotParamsOf(input).value, key, default) ==
      if Recognised(key) && key in input && input[key] != Null then input[key]
      else if key == "validate_request" && key !in input then Bool(true)
      else default
  {
  }

  /** Neither `botname` nor `selfcrt` is among the keys the store keeps. */
  lemma BotnameAndSelfcrtUnrecognised()
    ensures !Recognised("botname") && !Recognised("selfcrt")
  {
  }

  /** `botname` and `selfcrt` are not recognised keys, so looking them up always yields the default. */
  lemma UnstoredKeys(input: map<string, Value>, default: Value)
    requires BotParamsOf(input).Ok?
    ensures Coalesce(BotParamsOf(input).value, "botname", default) == default
    ensures Coalesce(BotParamsOf(input).value, "selfcrt", default) == default
  {
    BotnameAndSelfcrtUnrecognised();
    BotParamLookup(input, "botname", default);
    BotParamLookup(input, "selfcrt", default);
  }

  /** An input made only of recognised keys is stored as given, over the `validate_request` default. */
  lemma RecognisedInputStoredVerbatim(input: map<string, Value>)
    requires BotParamsOf(input).Ok?
    requires forall k :: k in input ==> Recognised(k)
    ensures BotParamsOf(input).value == DefaultBotParams + input
    ensures "validate_request" in input ==> BotParamsOf(input).value == input
  {
    assert Restrict(input, ValidVitalBotParams + ValidExtraBotParams) == input;
  }

  // ---------------------------------------------------------------------------
  // Properties of the command-line arguments

  /** An argument without '=' is dropped. */
  lemma ArgWithoutEquals(arg: string)
    requires '=' !in arg
    ensures ParseArg(arg) == None
  {
  }

  /** "k=v" sets k to v, and "k=" sets k to the empty string. */
  lemma ArgKeyValue(key: string, val: string)
    requires '=' !in key && '=' !in val
    ensures ParseArg(key + "=" + val) == Some((key, val))
  {
    ExplodeAfterFirst('=', key, val);
  }

  /** In "k=v=w" everything from the second '=' on is ignored. */
  lemma ArgExtraEquals(key: string, val: string, tail: string)
    requires '=' !in key && '=' !in val
    ensures ParseArg(key + "=" + val + "=" + tail) == Some((key, val))
  {
    assert key + "=" + val + "=" + tail == key + ['='] + (val + ['='] + tail);
    ExplodeAfterFirst('=', key, val + "=" + tail);
    ExplodeAfterFirst('=', val, tail);
  }

  /** Whether some argument in `args` sets `key`. */
  predicate SetsKey(args: seq<string>, key: string)
  {
    exists j :: 0 <= j < |args| && ParseArg(args[j]).Some? && ParseArg(args[j]).value.0 == key
  }

  /** A key no argument sets keeps its query entry (or stays absent). */
  lemma {:induction false} OverlayUntouched(m: map<string, Value>, args: seq<string>, key: string)
    requires !SetsKey(args, key)
    ensures key in Overlay(m, args) <==> key in m
    ensures key in m ==> Overlay(m, args)[key] == m[key]
  {
    if args != [] {
      var init := args[..|args| - 1];
      assert !SetsKey(init, key);
      OverlayUntouched(m, init, key);
    }
  }

  /** The last argument that sets a key decides its value, whatever came before. */
  lemma {:induction false} OverlayLastWins(m: map<string, Value>, args: seq<string>, j: nat, key: string, val: string)
    requires j < |args| && ParseArg(args[j]) == Some((key, val))
    requires !SetsKey(args[j + 1..], key)
    ensures key in Overlay(m, args) && Overlay(m, args)[key] == Str(val)
  {
    var init := args[..|args| - 1];
    if j == |args| - 1 {
    } else {
      assert init[j] == args[j];
      assert !SetsKey(init[j + 1..], key);
      OverlayLastWins(m, init, j, key, val);
      var last := args[|args| - 1];
      assert last == args[j + 1..][|args| - 1 - (j + 1)];
    }
  }

  /**
   * The script parameters: only s, a, l, i remain. Off the command line they
   * are the query's; on it, the last argument setting a key wins over the
   * query, and a key no argument sets keeps its query value.
   */
  lemma ScriptParamsShape(query: map<string, Value>, isCli: bool, argv: seq<string>, key: string)
    ensures key in ScriptParamsOf(query, isCli, argv) ==> key in ValidScriptParams
    ensures !isCli ==> ScriptParamsOf(query, isCli, argv) == Whitelisted(query)
    ensures isCli && key in ValidScriptParams && !SetsKey(Arguments(argv), key) ==>
      (key in ScriptParamsOf(query, isCli, argv) <==> key in query)
      && (key in query ==> ScriptParamsOf(query, isCli, argv)[key] == query[key])
  {
    if isCli && !SetsKey(Arguments(argv), key) {
      OverlayUntouched(query, Arguments(argv), key);
    }
  }

  /** On the command line, an argument `key=val` with no later argument for `key` decides its script value. */
  lemma ScriptParamFromArgument(query: map<string, Value>, argv: seq<string>, j: nat, key: string, val: string)
    requires key in ValidScriptParams
    requires j < |Arguments(argv)| && ParseArg(Arguments(argv)[j]) == Some((key, val))
    requires !SetsKey(Arguments(argv)[j + 1..], key)
    ensures key in ScriptParamsOf(query, true, argv) && ScriptParamsOf(query, true, argv)[key] == Str(val)
  {
    OverlayLastWins(query, Arguments(argv), j, key, val);
  }
}
