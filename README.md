# Telegram bot manager — a Dafny model

This project models the core of the PHP telegram-bot-manager library:

- the action object (`src/Action.php`);
- the parameter store (`src/Params.php`);
- the bot manager (`src/BotManager.php`).

A request to a bot's entry script runs through these steps:

1. The bot configuration is validated and stored. The three vital keys must be present, recognised extras are copied and everything else is dropped.
2. The request's script parameters are read. They come from the query string, or on the command line from `key=value` arguments, and only `s`, `a`, `l` and `i` are kept.
3. The action is built from `a`, defaulting to `handle`.
4. Off the command line, the secret `s` is checked against the configured one.
5. A Telegram client is created, and the action is dispatched:
   - set, unset and reset manage the webhook;
   - handle processes updates by webhook, by a single fetch, or by a fetch loop;
   - cron and webhookinfo do nothing further.

The modules:

- `php.dfy` (module `Php`) gives the PHP values and built-ins the code relies on:
  - values are a tagged union;
  - truthiness, `?:`, `??` and `in_array(..., true)`;
  - the `(int)` cast, string conversion, `trim` and `explode`.
- `action.dfy` (`Actions`): the action is a value. Its constructor becomes a function returning a `Result`, so a throwing constructor is an `Err`.
- `params.dfy` (`ParamStore`): `Params` is a class whose two maps are fields.
  - Construction is a factory method. It runs the two validating loops of the source as `while`/`for` loops, each proved against a specification function (`BotParamsOf`, `ScriptParamsOf`).
  - The superglobals `$_GET`, `$_SERVER['argv']` and `PHP_SAPI` become the inputs `query`, `argv` and `isCli`.
- `client.dfy` (`TelegramClient`): a stand-in for the Telegram client library.
  - It records every call it receives.
  - It answers with canned descriptions, taken in order.
- `botmanager.dfy` (`Manager`): the `BotManager` class.
  - `telegram` and `test_output` are mutable fields.
  - Every thrown exception becomes a returned error.
  - Calling a method on a client that was never built is PHP's "Call to a member function … on null" error.
- `text.dfy` (`UpdateText`): the normalisation of an update's text before it is printed.

PHP version assumed: PHP 7. `src/BotManager.php` does not declare strict types, so `trim()` converts a scalar to a string, and `trim()` of an array gives null.

## Notes on the code

- The code whitelists four script keys: `s`, `a`, `l` and `i`.
- All three of `api_key`, `bot_username` and `secret` are vital, unconditionally. The secret is vital whether or not a webhook is configured.
- Bot parameters are looked up by their top-level key only.
- A command-line argument `k=` sets `k` to the empty string.
- `test_output` holds only the description of the last webhook call.
- Invalid access and an invalid webhook raise `\InvalidArgumentException`.

## Model

| member | source | states |
|---|---|---|
| Actions.GetValidActions | src/Action.php:77-80 | the list of valid actions has six entries, and a value is among them exactly when it is one of the strings set, unset, reset, handle, cron, webhookinfo |
| Actions.New | src/Action.php:41-48 | construction succeeds exactly when the argument is falsy or is one of the six names. A falsy argument gives "handle", and any other accepted argument is held as given. Otherwise the error is InvalidActionException with "Invalid action: " followed by the argument as a string |
| Actions.Action.GetAction | src/Action.php:67-70 | a valid action reports one of the six names, and it holds exactly that string |
| Actions.Action.IsAction | src/Action.php:57-60 | the candidates are cast to an array before the strict search: null matches nothing, a list matches when it holds the action, an associative array when one of its values is the action, and a lone scalar when it is strictly equal to the action |
| Actions.NewFromName | src/Action.php:41-48 | each of the six names builds an action that reports the same name |
| Actions.ConstructedMatchesAll | src/Action.php:43-47 | every action that could be built passes the vocabulary check and reports a name from the vocabulary |
| Actions.LoneCandidate | src/Action.php:57-60 | a single non-null scalar candidate is treated as a one-element list |
| Actions.IsActionMeansSameString | src/Action.php:57-60 | a valid action matches a list exactly when some entry is a string equal to its name (strict comparison) |
| Actions.NonStringCandidatesNeverMatch | src/Action.php:57-60 | null, booleans, integers and unknown names never match a valid action |
| Actions.IsActionOfNames | src/Action.php:57-60 | a valid action matches a list of names exactly when its own name is one of them |
| ParamStore.FirstMissing | src/Params.php:112-115 | the result is none exactly when every key is present; otherwise it is the first absent key, with every earlier key present |
| ParamStore.BotParamsOf | src/Params.php:109-130 | the bot parameters are accepted exactly when every vital key is present. A rejection is InvalidParamsException naming an absent vital key. An accepted map holds validate_request and every vital or extra entry of the input, unchanged |
| ParamStore.VitalKeysChecked | src/Params.php:112-118 | construction fails exactly when api_key, bot_username or secret is absent. It names the first absent key in that order, with the exact message. A key mapped to null counts as present |
| ParamStore.BotParamsRecognised | src/Params.php:109-130 | after construction, every stored bot key is a vital or extra key, and validate_request is always stored |
| ParamStore.RecognisedInputStoredVerbatim | src/Params.php:109-130 | an input made only of recognised keys is stored as given, over the validate_request => true default |
| ParamStore.Params.Init | src/Params.php:60-67 | a fresh store has no script parameters, and its bot parameters are validate_request => true |
| ParamStore.Params.Create | src/Params.php:95-99 | fails exactly when the bot parameters are rejected, with the same error. On success, the bot and script maps are those of the specification functions, and the store invariant holds |
| ParamStore.Params.ValidateAndSetBotParams | src/Params.php:109-130 | the error is the first missing vital key. Otherwise the new bot map is the old one overlaid with the input's vital and extra entries |
| ParamStore.Params.SetVitalBotParams | src/Params.php:112-118 | the loop over the given vital keys stops at the first missing key, with "Some vital info is missing: " and that key. Otherwise it copies every vital entry of the input into the bot map |
| ParamStore.Params.SetExtraBotParams | src/Params.php:121-127 | the loop over the given extra keys copies exactly those of them present in the input, and nothing else changes |
| ParamStore.Params.ValidateAndSetScriptParams | src/Params.php:140-163 | the script map becomes the query overlaid with the parsed arguments (command line only), cut down to s, a, l, i |
| ParamStore.Params.GetBotParam | src/Params.php:173-176 | returns the stored non-null value of the key, else the default; an unrecognised key always gives the default |
| ParamStore.Params.GetBotParams | src/Params.php:183-186 | the returned map holds validate_request and only recognised keys |
| ParamStore.Params.GetScriptParam | src/Params.php:196-199 | returns the stored non-null value of the key, else the default; a key outside s, a, l, i always gives the default |
| ParamStore.Params.GetScriptParams | src/Params.php:206-209 | the returned map holds only the keys s, a, l, i |
| ParamStore.BotParamLookup | src/Params.php:173-176 | a bot parameter lookup after construction, in terms of the input: a recognised key's non-null value, true for an unset validate_request, else the default |
| ParamStore.UnstoredKeys | src/BotManager.php:83-86 | botname and selfcrt are never stored, so looking them up always gives the default |
| ParamStore.ParseArg | src/Params.php:151-152 | an argument sets something exactly when it contains '='. The key is the text before the first '=', and the value the text after it up to the next '=' or the end; neither contains '=' |
| ParamStore.Overlay | src/Params.php:145-155 | applying the arguments keeps every query key; each entry is either the query's own or a string taken from an argument |
| ParamStore.Whitelisted | src/Params.php:157-161 | the result keeps exactly those of s, a, l, i present in the map, with their values |
| ParamStore.ScriptParamsOf | src/Params.php:140-163 | only s, a, l, i remain, each of them present in the query remains, and every value is the query's, or on the command line a string from an argument |
| ParamStore.ArgWithoutEquals | src/Params.php:151-152 | an argument without '=' sets nothing |
| ParamStore.ArgKeyValue | src/Params.php:151-152 | "k=v" sets k to v, and "k=" sets k to the empty string |
| ParamStore.ArgExtraEquals | src/Params.php:151-152 | in "k=v=w" the part from the second '=' on is ignored |
| ParamStore.OverlayUntouched | src/Params.php:150-153 | a key that no argument sets keeps its query entry, or stays absent |
| ParamStore.OverlayLastWins | src/Params.php:150-153 | the last argument that sets a key decides its value |
| ParamStore.ScriptParamsShape | src/Params.php:140-163 | only s, a, l, i remain. Off the command line they are the query's. On it, a key no argument sets keeps its query value |
| ParamStore.ScriptParamFromArgument | src/Params.php:145-160 | on the command line, the last "key=val" argument for a whitelisted key gives its script value |
| Php.ExplodeImplode | src/Params.php:151 | splitting on '=' and joining again gives back the argument, and no piece contains '=' |
| Php.DecimalRoundTrip | src/BotManager.php:230 | casting the decimal text of an integer back to int gives the integer |
| Php.CastNumeral | src/BotManager.php:230 | `(int)` of text made of white space, an optional sign, digits (leading zeros allowed) and then anything not starting with a digit is the digits' value, negated after '-' |
| Php.SkipSpacePrefix | src/BotManager.php:230 | the cast skips leading white space up to the first character that is not white space |
| Php.Strip | src/BotManager.php:226 | trimming never lengthens a string. It gives "" exactly when every character is a trim character, and what remains starts and ends with a non-trim character |
| Php.StripIsInfix | src/BotManager.php:226 | what trimming keeps is the stretch after the leading padding, and every character removed, before or after that stretch, is padding |
| Php.StripFramed | src/BotManager.php:226 | of padding, then a stretch that neither starts nor ends with padding, then padding, trimming keeps exactly that stretch |
| Php.ExplodeFront | src/Params.php:151 | the first piece is the text before the first separator, or all of it when there is none, and a second piece exists exactly when a separator occurs |
| TelegramClient.Client.constructor | src/BotManager.php:83-86 | a new client holds the API key and user name it was built with, and has received no call |
| TelegramClient.Client.UnsetWebHook | src/BotManager.php:153 | the call is recorded, and its description is the next canned reply |
| TelegramClient.Client.SetWebHook | src/BotManager.php:156-159 | the call is recorded with its URL and certificate, and its description is the next canned reply |
| TelegramClient.Client.Handle | src/BotManager.php:302-307 | exactly one webhook-handling call is appended to the trace |
| TelegramClient.Client.HandleGetUpdates | src/BotManager.php:264 | exactly one update fetch is appended to the trace |
| Manager.BotManager.FromParts | src/BotManager.php:53-57 | a manager built from a valid store and action has no client yet and a null test_output |
| Manager.BotManager.Create | src/BotManager.php:53-57 | the parameter store's error comes first, then the action's error. On success, the manager holds the stored parameters and the action named by script parameter a, with no client yet |
| Manager.ActionDefaultsToHandle | src/BotManager.php:56 | with no a in the query or the arguments, the action is handle |
| Manager.ActionFromCommandLine | src/BotManager.php:56 | on the command line, the last "a=<name>" argument names the action |
| Manager.RequestedAction | src/BotManager.php:56 | a successful action is valid. An absent or falsy a gives handle, and a truthy a succeeds exactly when it is one of the six names, held as given |
| Manager.BotManager.ValidateSecret | src/BotManager.php:125-137 | "Invalid access" is raised exactly when the check applies and the given s is not strictly the configured secret, with arrays compared regardless of key order. The check applies when forced or off the command line |
| Manager.WebSecretFromInputs | src/BotManager.php:128-131 | on a web request, the query's s is compared with the configured secret exactly as given |
| Manager.NullSecretAdmitsBareRequest | src/BotManager.php:129-133 | with a null configured secret, a request with no s passes the check |
| Manager.WebhookPlanByAction | src/BotManager.php:144-160 | unset deletes the webhook. set installs it, or fails with "Invalid webhook" if none is configured. reset deletes and then installs, or fails before deleting anything. Every other action makes no call |
| Manager.HookUrl | src/BotManager.php:156-157 | the callback URL contains the '?' that starts its query |
| Manager.HookUrlQuery | src/BotManager.php:156-157 | for a webhook without '?' and a secret without '&', '=', '#', '+' or '%', the URL is the webhook, then '?', then a query that splits on '&' into exactly two pieces, which parse to a=handle and s=<the secret> |
| Manager.CallbackQueryOfHookUrl | src/BotManager.php:156-157 | under the same conditions, the query read off the installed URL is exactly a=handle and s=<the secret> |
| Manager.WebhookPlan | src/BotManager.php:144-160 | the plan fails with "Invalid webhook" exactly when set or reset has no webhook. Otherwise it has at most two calls, each an unset or the install of the callback URL with the certificate, and with two the unset comes first |
| Manager.WebhookFlags | src/BotManager.php:148-155 | the actions that delete the webhook are unset and reset, those that install it are set and reset, and the webhook actions are exactly set, unset and reset |
| Manager.WebhookCallbackAccepted | src/BotManager.php:125-137 | a web request whose query is a=handle and s=<the configured string secret> passes the secret check and asks for handle |
| Manager.BotManager.ValidateAndSetWebhook | src/BotManager.php:144-165 | "Invalid webhook" is raised before any call when set or reset has no webhook. Otherwise the planned calls are made in order, and test_output becomes the description of the last one. A missing client is a null-receiver error naming the first call, and test_output keeps its value |
| Manager.BotManager.WebhookSteps | src/BotManager.php:152-160 | unset (for unset and reset) and then the install (for set and reset) are called in that order, and test_output is the reply to the last. Without a client, the first of them is a null-receiver error |
| Manager.BotManager.UnsetStep | src/BotManager.php:153 | exactly one unset call is appended, and test_output becomes its description; without a client, a null-receiver error and nothing changes |
| Manager.BotManager.SetStep | src/BotManager.php:156-159 | exactly one set call with the URL and certificate is appended, and test_output becomes its description; without a client, a null-receiver error and nothing changes |
| Manager.LoopTimeOfInteger | src/BotManager.php:218-231 | an integer, or its decimal text, gives that many seconds, or 0 when negative |
| Manager.LoopTimeOfText | src/BotManager.php:218-231 | text starting with neither white space, a sign nor a digit gives 0 |
| Manager.LoopTimeOfBlank | src/BotManager.php:226-228 | a value made only of trim characters gives seven days (604800 s) |
| Manager.LoopTimeExamples | src/BotManager.php:218-231 | absent gives 0; "" and "     " give 604800; "text-string" gives 0; 0 and -12345 give 0; 12345 gives 12345; the texts "12345" and "-12345" give 12345 and 0 |
| Manager.LoopTimeOfNumeral | src/BotManager.php:226-230 | text of white space, an optional sign, digits and then anything not starting with a digit (" 12", "+5", "007", "12abc") gives the digits' value, or 0 after '-' |
| Manager.LoopTimeOfOtherValues | src/BotManager.php:222-230 | false is blank and gives seven days; true gives 1; an empty array gives 0 and a non-empty one 1 |
| Manager.LoopTime | src/BotManager.php:218-231 | an absent l gives 0; a non-array l that trims to "" gives seven days; any other l gives its integer cast, or 0 when that is negative |
| Manager.ModeChoice | src/BotManager.php:198-211 | a configured webhook always means webhook handling. Without one: no l means a single fetch, a blank l a week-long loop, and a positive number a loop of that many seconds |
| Manager.ModeFor | src/BotManager.php:198-211 | webhook handling is chosen exactly when a webhook is configured. A loop runs for the positive loop time of l, and a single fetch means a loop time of 0 |
| Manager.BotManager.HandleRequest | src/BotManager.php:198-211 | makes exactly the calls of the chosen mode: one webhook handling, one fetch, or one fetch per loop round. Without a client, the first of them is a null-receiver error |
| Manager.BotManager.HandleGetUpdatesLoop | src/BotManager.php:240-255 | one fetch per round the clock allows, in order |
| Manager.BotManager.HandleGetUpdates | src/BotManager.php:260-264 | one fetch, or a null-receiver error without a client |
| Manager.BotManager.HandleWebhook | src/BotManager.php:302-307 | one webhook handling, or a null-receiver error without a client |
| Manager.BotManager.Dispatch | src/BotManager.php:88-94 | on a fresh client, the calls made are exactly those the action plans, or none with the plan's error. After webhook calls, test_output is the reply to the last one. Any other action leaves test_output alone |
| Manager.DispatchByAction | src/BotManager.php:88-94 | set, unset and reset follow the webhook plan, and a plan that succeeds makes at least one call. handle makes the calls of the mode chosen from the webhook and l. cron and webhookinfo make no call |
| Manager.DispatchPlan | src/BotManager.php:88-94 | the dispatch fails only for set or reset without a webhook, with "Invalid webhook". An action other than set, unset and reset never fails |
| Manager.BotManager.Run | src/BotManager.php:74-97 | off the command line, a failed secret check gives "Invalid access" and changes nothing. Otherwise a fresh client gets the API key and a null user name (botname is never stored). Its calls are exactly those the action plans, and test_output is the reply to the last webhook call |
| UpdateText.CollapseSpaces | src/BotManager.php:287 | the result is single-spaced and empty only for empty text. It starts (ends) with a space exactly when the text starts (ends) with white space, and otherwise with the text's own first (last) character |
| UpdateText.CollapseRun | src/BotManager.php:287 | a non-empty run of white space becomes a single space |
| UpdateText.CollapseOther | src/BotManager.php:287 | a character that is not white space is kept as it is |
| UpdateText.CollapseAppend | src/BotManager.php:287 | collapsing distributes over concatenation where no run of white space crosses the seam |
| UpdateText.CollapseKeepsVisible | src/BotManager.php:287 | collapsing keeps every non-white-space character, in order |
| UpdateText.CollapseFixpoint | src/BotManager.php:287 | single-spaced text is left as it is |
| UpdateText.NormalizeAsWritten | src/BotManager.php:287 | trimming and then collapsing gives single-spaced text, empty exactly when the text is all trim characters |
| UpdateText.NormalizeAsWrittenShape | src/BotManager.php:287 | the printed text is single-spaced and keeps every visible character. It starts or ends with a space exactly when the trimmed text starts or ends with a form feed, and otherwise with the trimmed text's own first or last character |
| UpdateText.FormFeedKeepsLeadingSpace | src/BotManager.php:287 | the text "\x0Chi" is printed as " hi" |
| UpdateText.NormalizeText | src/BotManager.php:287 | collapsing and then trimming gives empty text exactly when the text is all white space or trim characters |
| UpdateText.TrimCollapse | src/BotManager.php:287 | trimming the collapsed text equals collapsing the text with white space and trim characters stripped from both ends |
| UpdateText.NormalizeTextContent | src/BotManager.php:287 | the normalised text is the text stripped of white space and trim characters at both ends, then collapsed; it is also the as-written result trimmed once more |
| UpdateText.NormalizeTextIsClean | src/BotManager.php:287 | collapsing first and then trimming gives single-spaced text with no white space at either end; it equals the as-written result trimmed once more, and normalising twice changes nothing |

## Left out

- Logging (`initLogging`, src/BotManager.php:102-115): it only configures the external logger.
- Bot extras (`setBotExtras`, src/BotManager.php:172-191): each is a call into the client library with a configuration value. The client library is not part of this model.
- What the client library does with a call: network requests, the updates it fetches and their entities, failure responses (src/BotManager.php:265-291). A call is only recorded, with a canned description.
- The printing of updates and results, and the `PHPUNIT_TEST` switch (src/BotManager.php:162, 245, 262-291). Only the text normalisation of src/BotManager.php:287 is modelled.
- Manager.BotManager.HandleGetUpdatesLoop: the wall clock and `sleep` are not modelled. The number of rounds the clock allows is an input, and 0 is admitted, although with a positive loop time the source always makes at least one fetch.
- Manager.HookUrlQuery: PHP's decoding of a query string into `$_GET` is not modelled. Decoding turns '+' into a space and expands '%' escapes, and '#' ends the URL. The query is split on '&' and '=' only, which agrees with PHP for a secret free of '&', '=', '#', '+' and '%'. The source does not URL-encode the secret, so a secret with those characters is not covered.
- Manager.BotManager.Run: the `setBotExtras` step before handling is left out. The client's own construction errors, such as an empty API key, are not modelled.
- Manager.LoopTimeOfText: floats, exponents and integer overflow of the `(int)` cast are not modelled.
- Script parameters as given by the web server, the superglobals and `PHP_SAPI`: they are explicit inputs.
- The order of PHP arrays: maps are unordered here. No modelled operation depends on their order, except strict identity (`!==`) of two arrays in validateSecret; see the next line.
- Manager.BotManager.ValidateSecret: PHP's `!==` on two arrays (src/BotManager.php:131) is order-sensitive. Here an array-valued secret is compared regardless of key order, so a request listing the same entries in another order passes, where PHP answers "Invalid access". The secret is documented as a string (src/Params.php:74).
- PHP 8 behaviour: `trim()` of an array is a TypeError there. This model follows PHP 7, where it returns null.
- ParamStore.Params.ValidateAndSetBotParams is written as two helper methods, one per loop of the source.
- Manager.BotManager.ValidateAndSetWebhook is written as the lookups and the webhook check, followed by a helper method for the two client calls. The URL is built before the calls rather than inside the set branch; building it has no effect.

## Findings

| source | as written | input that shows it | evidently intended | confidence | as-written member | corrected member |
|---|---|---|---|---|---|---|
| src/BotManager.php:287 | trims with `trim()`, whose set is " \t\n\r\0\x0B", and then collapses `\s+` runs, whose set adds the form feed \x0C | an update text "\x0Chi" is printed as " hi", with a leading space | printed text with single spaces and no white space at either end | medium, not executed | UpdateText.FormFeedKeepsLeadingSpace | UpdateText.NormalizeTextIsClean |
