# sunnyportal adapter: template engine and poll/publish cycle

This project models the core of the ioBroker `sunnyportal` adapter (`main.js`),
which logs in to the Sunny Portal web site, polls its live "homemanager"
metrics endpoint and republishes the readings as data points in the host's
state store.

Two parts are modelled.

- **`format(fmt, ...args)`** (module `Template`, file `template.dfy`) is a small
  template engine. `main.js` defines it but never calls it, so nothing about
  it, including the finding below, affects what the adapter publishes. It
  first checks that the format string is a non-empty sequence of tokens. A token is a non-brace character, an escape `{{` or `}}`,
  or a placeholder `{digits}`. A string outside this grammar raises
  "invalid format string.". Otherwise a single global replace walks the string.
  Each literal run has its escapes collapsed to single braces. Each placeholder
  becomes its argument, or raises "argument index is out of range in format".
  `Tokenize` and `ReplaceAll` follow the two regular expressions character by
  character. `Render` gives the token-level meaning. `ReplaceAllSpelled` proves
  that the two agree.
- **The poll/publish cycle** (module `Poller`, file `poller.dfy`) covers the
  host store, read and written by `create_indicator`. The store has object
  definitions and acknowledged states. The model also covers the login
  callback and the homemanager callback. HTTP outcomes are inputs:
  `LoginReply` for the login request and `Response` for a metrics request (a
  transport error, a body that does not parse, or a parsed `Payload`). The class
  `Poller.Adapter` holds the store as two maps, the delays of the timers it has
  armed, the number of metrics requests it has issued, and whether the process
  has ended. Its methods update these fields in place. Each method is proved equal to a value-level function
  (`Indicate`, `AfterPoll`/`PollStep`, `LoginStep`). The lemmas are stated about
  those functions.

What `main.js` does, and therefore what the model does:

- After a failed login, `main.js` makes no retry. It only logs the error.
- `main.js` never disarms the timer.
- `main.js` arms the timer right after login, whatever the first poll returns.
- A body that does not parse, or a payload with a truthy total and no
  `Timestamp`, makes the response callback throw. Nothing catches it, so the
  process ends, and its timer with it. It does not trigger re-authentication.
- Message lists are not published.

## Model

| member | source | states |
|---|---|---|
| `Template.Tokenize` | main.js:24 | every token split it returns spells the input back and has only well-formed tokens |
| `Template.HeadToken` | main.js:24 | the token it finds at the head of a string is well-formed and is a prefix of that string |
| `Template.HoleDigits` | main.js:24 | a placeholder it finds is an opening brace, one or more digits and a closing brace, inside the string |
| `Template.DigitPrefix` | main.js:24 | the prefix it measures is all digits and is followed by a non-digit or the end |
| `Template.TokenizeSpelled` | main.js:24 | the split is unique: the spelling of any well-formed token sequence tokenizes back to exactly that sequence |
| `Template.ValidFormatIffTokens` | main.js:24-26 | a string passes the grammar check iff it is the spelling of a non-empty well-formed token sequence |
| `Template.MalformedExamples` | main.js:24-26 | the empty string, `{`, `}`, `{{0}`, `a{12` and `{}` raise the invalid-format error |
| `Template.ValidationComesFirst` | main.js:24-35 | for every argument list, a placeholder one past the last argument raises the range error, but followed by a stray `}` it raises the invalid-format error: the grammar is checked first |
| `Template.LiteralStep` | main.js:27-29 | replacing a string that starts with a literal token emits that token's character and goes on with the rest |
| `Template.HoleStep` | main.js:30-35 | replacing a string that starts with a placeholder raises the range error when the index is not below the number of arguments, else emits the argument and goes on |
| `Template.ReplaceAllSpelled` | main.js:27-35 | the global replace over a well-formed token sequence's spelling equals the tokens' meaning |
| `Template.FormatRendersTokens` | main.js:23-37 | `format` of a valid string is the meaning of its tokens |
| `Template.BraceFreeUnchanged` | main.js:24-29 | a non-empty brace-free string is valid and is returned unchanged, whatever the arguments |
| `Template.EscapeRoundTrip` | main.js:24-29 | doubling every brace of a non-empty string gives a valid format string that `format` with no arguments turns back into that string |
| `Template.RenderAppend` | main.js:27-35 | the meaning of two token sequences side by side is the first's result followed by the second's, the first error winning |
| `Template.RenderErrorIff` | main.js:31-33 | rendering fails iff some placeholder's index is not below the number of arguments, and the failure is the range error |
| `Template.FormatErrorIff` | main.js:24-35 | `format` of a valid string fails iff some placeholder names a missing argument, and then with the range error |
| `Template.FormatAppend` | main.js:24-35 | two valid strings side by side form a valid string, formatted to the two results side by side |
| `Template.FormatHole` | main.js:30-35 | a single placeholder raises the range error when out of range, else formats to its argument |
| `Template.DecimalCanonical` | main.js:31 | the decimal spelling of a number is non-empty, all digits, canonical, and has that number as its value |
| `Template.FormatPlaceholder` | main.js:30-35 | `{i}` in canonical decimal formats to `args[i]` when i is below the number of arguments, else raises the range error |
| `Template.LeadingZeroReadsUndefined` | main.js:31-34 | as written, `format("{00}", "a")` passes the range check and yields "undefined", where numeric lookup yields "a" |
| `Template.FormatByValueSelects` | main.js:31-34 | with numeric lookup, every in-range placeholder, leading zeros or not, formats to the argument at its value |
| `Poller.IndicateEffect` | main.js:63-81 | `create_indicator` sets the state to the value, acknowledged; it defines the object only if it was missing, leaving an existing one untouched; every other key keeps its state and object |
| `Poller.IndicateIdempotent` | main.js:63-81 | two identical `create_indicator` calls leave the store as one does |
| `Poller.IndicateAllElsewhere` | main.js:179-184 | a key no call names keeps its state and its object |
| `Poller.IndicateAllAt` | main.js:179-184 | with distinct names, each named key ends with its call's value, acknowledged, and with its old object or else the new definition |
| `Poller.PollOutcomes` | main.js:164-185 | a poll publishes iff the payload parsed, its total is truthy and its timestamp is readable; it then publishes the six names in order; otherwise the store is unchanged |
| `Poller.ReadingsDistinct` | main.js:179-184 | the six published names are distinct and are exactly the fixed list |
| `Poller.PollPublishes` | main.js:171-184 | a successful poll sets the five metrics and `last_update = Timestamp.DateTime`, all acknowledged; it defines only the missing objects, each with its description; every other key is untouched |
| `Poller.PollIdempotent` | main.js:164-185 | handling the same response twice leaves the store as handling it once |
| `Poller.PollPeriod` | main.js:143 | the timer delay is `interval*1000` when `interval >= 15`, else 15000, so always at least 15000 ms |
| `Poller.TicksUntilHalt` | main.js:143-177 | the number of ticks handled is the position of the first response that throws, counted from one, or all of them when none throws |
| `Poller.RunUntilHalt` | main.js:143-177 | while the process runs, each tick issues one request, up to and including the first response that throws; the process has then ended, and the later responses change nothing |
| `Poller.LoginArmsOneTimer` | main.js:137-144 | from startup, a failed login issues no request and arms no timer for good. A completed login arms exactly one timer, with a delay of at least 15000 ms. It issues one request at once, then one per tick until a response throws. The process ends iff the first or a later response throws |
| `Poller.FirstPollScenario` | main.js:137-185 | a completed login whose first payload has total 100 and timestamp "2024-01-01T00:00:00" publishes both, arms one 30000 ms timer for a 30 s interval, and the process keeps running |
| `Poller.Adapter.constructor` | main.js:83-95 | at startup the store is as found, no timer is armed, no request has been issued and the process is running |
| `Poller.Adapter.CreateIndicator` | main.js:63-81 | the in-place store update equals `Indicate`; timers, request count and the running flag are unchanged |
| `Poller.Adapter.Homemanager` | main.js:147-187 | in a running process, one request is issued; the outcome and the new store are those of `Outcome` and `AfterPoll`; a response whose callback throws ends the process; timers are unchanged |
| `Poller.Adapter.Login` | main.js:137-144 | called once, at startup, with no timer armed, no request issued and the process running; the new state is `LoginStep`: nothing on a transport error, else one poll and one more armed timer of delay `PollPeriod(interval)` |
| `Poller.Adapter.Tick` | main.js:143 | a tick of an armed timer in a running process is one `homemanager` poll |

## Left out

- HTTP transport is left out: `request.post`/`request.get`, the cookie jar, headers, the login form body and `strictSSL` (main.js:108-135, 149-159). Their outcomes are the inputs `LoginReply` and `Response`.
- `JSON.parse` is left out. The payload arrives already parsed. A body that does not parse, or parses to `null`, is the `Malformed` response. Its outcome `ParseFailed` stands for the uncaught exception: the store is unchanged and the process has ended (`halted`), so no later tick runs. A body that parses to a non-object, such as a number, is a `Payload` whose fields are all `Undefined`.
- A payload with a truthy total and an absent or null `Timestamp` raises a TypeError at main.js:177 before anything is published. It is the outcome `TimestampMissing`, with the store unchanged and the process ended.
- Process exit is one flag, `halted`. The host's restart of a crashed adapter is not modelled.
- Each tick's request is answered before the next tick. In the source, requests are asynchronous, and a slow response can arrive after later ticks have issued their own requests.
- Adapter lifecycle hooks are left out: `unload`, `ready`, the no-op `stateChange` handler, and `main()` (main.js:40-61, 83-95). `main()` only logs the configuration, subscribes to states and calls `login()`. The constructor stands for the state at that point.
- All logging and the cache-busting timestamp of the metrics URL (main.js:161-162) are left out.
- Running time is not modelled. The regular expression at main.js:24 nests quantifiers, so a JavaScript engine can backtrack for exponential time on a long invalid string, such as thirty `a`s followed by `{`, before it raises the invalid-format error. The model returns that error directly.
- Real timer scheduling is left out. Armed timers are recorded by their delays, and each tick is one `Tick` call.
- Poller.PollPeriod: gives the delay main.js passes to `setInterval`. Node.js replaces any delay above 2147483647 ms with 1 ms, so an interval above 2147483 s would poll every millisecond. The model does not capture this.
- The `interval` setting is an integer number of seconds. Fractional and non-numeric values are not modelled.
- The host's store calls are taken to succeed. main.js:64-65 ignores the error of `getObject` and tests only the object, so after a failed lookup main.js would redefine an object that may already exist; the model's lookup cannot fail, which is why `IndicateEffect` and `PollPublishes` can promise that an existing object is untouched. The `setState`/`setObject` calls at main.js:66, 77 and 80 pass no callback, so their failures are unseen in the source as well.
- A state is only its value and its acknowledged flag. The write timestamp the host stamps on every state is not modelled, which is why `IndicateIdempotent` and `PollIdempotent` hold.
- Each `create_indicator` call is applied in program order, with its net effect. In the source, `setState`/`setObject` reach the host asynchronously. All six unconditional `setState` calls run before any object-lookup callback.
- Values are stored as they arrive. The object definition's `type: "boolean"` is kept as written, even for numbers and strings.
- `format` arguments are strings. Non-string arguments, which JavaScript would convert to text, are not modelled. Neither is a non-string `fmt`, which would raise a TypeError.
- Placeholder indices are unbounded integers. JavaScript converts them to doubles, but any index large enough to lose precision is already past every argument list, so the range error is the same.
- Retry after a delay, timer disarm, re-authentication and message-list publishing are not modelled, because `main.js` does none of them.

## Findings

| source | as written | input that shows it | evidently intended | confidence | as-written member | corrected member |
|---|---|---|---|---|---|---|
| main.js:31-34 | the range check converts the placeholder's digits to a number, but `args[index]` uses the digit string as a property name, so a placeholder with a leading zero passes the check and yields the text "undefined" | `format("{00}", "a")` gives "undefined" | the argument at the digits' value, "a" | medium, not executed | `Template.LeadingZeroReadsUndefined` | `Template.FormatByValueSelects` |

The lemmas that do not depend on how a placeholder selects its argument are
stated for both lookups (`FormatWith` with `PropertyKey` is `Format` as written;
with `NumericIndex` it is the corrected `FormatByValue`).
