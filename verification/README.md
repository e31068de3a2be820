# Logistics MCP server: the tool-call layer in Dafny

This project models the part of the logistics MCP server that turns a tool
call into a response. It covers six pieces:

- **Utilities.** The string hash, string clamping, `McpError`/`assertOrThrow`,
  the validators (container id, Incoterm, HS code, weight, invoice-number
  extraction), the cached reference data (Incoterm set, HS code table), and
  the ZERO guard.
- **Registry.** The `McpTool`/`ToolRegistry` pair.
- **Envelopes.** The `createOkResponse`/`createErrorResponse` response envelopes.
- **Server.** The CallTool and GetPrompt handlers of `src/server.js` and the
  per-call tool context.
- **Tools.** The six tool handlers: health ping, invoice audit, container
  status, shipping cost, ETA prediction and weather tie.
- **Legacy server.** The older single-file server `logistics-server.js`: its
  helpers and the if-chain of its CallTool handler. The model sets this chain
  against the current server.

JavaScript values are a `JsValue` datatype: undefined, null, booleans,
numbers, strings, arrays and objects. Objects are ordered key/value
sequences, so key order and "a later key overrides in place" are explicit.

Numbers are exact decimals `m / 10^e`, plus NaN and ±Infinity, so
`Math.ceil`, rounding and comparisons become integer arithmetic. `Number`
reads a decimal literal within the range of a 64-bit double. A magnitude
of at least 2^1024 - 2^970 becomes an infinity. A non-zero magnitude of at
most 2^-1075 becomes zero. Inside that range the literal keeps its exact
value, while JavaScript rounds it to 53 significant bits; "## Left out"
says where that differs.

Some inputs are parameters of the model rather than effects:

- the clock (`now`);
- the engine's date parser (`World.parseDate`);
- the loaded reference data (`World.incoterms`, `World.hsCodes`).

A thrown exception is the `Err` side of `Result`. The `:-` operator
propagates it exactly where the source lets an exception unwind.

Modules, one per source component:

- `Base`, `OrderedMaps`, `JsValues`, `Errors`, `ToolContext`;
- `Hash`, `Strings`, `InvoicePattern`, `Validation`, `ReferenceData`, `ZeroGuard`;
- `HealthPing`, `InvoiceAudit`, `ContainerStatus`, `ShippingCost`, `Predict`, `WeatherTie`;
- `Toolkit`, `Responses`, `Server`, `Legacy`.

## Model

| member | source | states |
|---|---|---|
| Hash.Fold | src/utils/hash.js:4-7 | the rolling `acc * 33 + code` fold stays a 32-bit unsigned value |
| Hash.HashToInt | src/utils/hash.js:4-7 | the hash is below 2^32; `null`, `undefined` and `""` all hash to the seed 5381 |
| Hash.HashStep | src/utils/hash.js:5 | appending one character multiplies the previous hash by 33, adds its code unit, and reduces mod 2^32 |
| Hash.FinalShiftIsNoOp | src/utils/hash.js:6 | the final `>>> 0` never changes the folded value |
| Hash.FoldIsRawReduced | src/utils/hash.js:5 | reducing at every step equals reducing the unbounded polynomial once at the end |
| Hash.HashLoop | src/utils/hash.js:4-7 | an imperative loop computes the same hash as the fold and the unbounded polynomial |
| Hash.LegacyHashInt | logistics-server.js:41 | the legacy hash agrees with `hashToInt` on every non-nullish value |
| Hash.UndefinedDiffers | logistics-server.js:41 | the legacy hash of `undefined` is the hash of the text "undefined", not the seed |
| Strings.ClampString | src/utils/strings.js:4-9 | nullish gives ""; otherwise the result is the prefix of `String(value)` of length min(max, length), and is the whole string when it fits |
| Strings.ClampIdempotent | src/utils/strings.js:4-9 | clamping a clamped string again changes nothing |
| Strings.ClampCompose | src/utils/strings.js:4-9 | clamping to a and then to b is clamping to min(a, b) |
| Strings.LegacyClampStr | logistics-server.js:19 | the legacy clamp gives "" for every falsy value and agrees with `clampString` on truthy ones |
| Strings.ClampsDifferOnZero | logistics-server.js:19 | on the number 0 the two clamps differ: "0" against "" |
| Errors.McpError | src/utils/assertions.js:4-11 | an `McpError` has that name, the given code and message, and details defaulting to `{}` |
| Errors.AssertOrThrow | src/utils/assertions.js:16-20 | a true condition passes; a false one throws an `McpError` with exactly the given code, message and details |
| InvoicePattern.MatchAltCorrect | src/utils/validation.js:6 | the matcher of one alternative fails exactly when no word of that alternative starts there, and otherwise returns its longest match |
| InvoicePattern.MatchAtCorrect | src/utils/validation.js:6 | the matcher at one position returns the first alternative in pattern order that matches, with its longest word |
| InvoicePattern.SearchCorrect | src/utils/validation.js:6 | the search finds nothing exactly when no position matches; otherwise it returns the leftmost match, as a backtracking regex engine would |
| InvoicePattern.ExtractInvoiceNumber | src/utils/validation.js:11-14 | the extracted number is the upper-cased leftmost match of the pattern in the clamped path, or `HVDC-INV-001` when nothing matches |
| InvoicePattern.ExtractExample | tests/tools.test.js:9-19 | "HVDC-INV-123.pdf" yields HVDC-INV-123 |
| InvoicePattern.ExtractFallbackExample | src/utils/validation.js:11-14 | an empty path yields the fallback number |
| Validation.ValidateContainerId | src/utils/validation.js:19-23 | the id is accepted exactly when the upper-cased, clamped value is four letters followed by seven digits |
| Validation.ContainerIdIdempotent | src/utils/validation.js:19-23 | validating an accepted id again returns it unchanged |
| Validation.ContainerIdExamples | tests/validation.test.js:32-35 | a lower-case id is normalised to upper case; a malformed id is refused |
| Validation.ShapeFrom | logistics-server.js:25 | the unanchored test holds exactly when the ISO 6346 shape occurs somewhere in the string |
| Validation.AnchoredImpliesUnanchored | logistics-server.js:25 | every whole-string match is also an unanchored match |
| Validation.ValidateIncoterm | src/utils/validation.js:28-40 | falsy input is MISSING; otherwise the code is the upper-cased value clamped to 8 characters, valid exactly when it is in the Incoterm set, and UNKNOWN_INCOTERM otherwise |
| Validation.ValidateHsCode | src/utils/validation.js:45-58 | falsy input is MISSING; otherwise the code is the digits of the value clamped to 10 characters; it is valid exactly when the table gives it a non-empty description |
| JsValues.DoubleRange | src/utils/validation.js:64 | a decimal literal read by `Number` is an infinity of its sign exactly when its magnitude is at least 2^1024 - 2^970, zero exactly when it is zero or at most 2^-1075, and otherwise its exact value |
| JsValues.StringToNumberInRange | src/utils/validation.js:64 | every finite number read from a string is below the overflow bound and is zero or above the underflow bound |
| Validation.ValidateWeight | src/utils/validation.js:63-67 | the weight is accepted exactly when `Number(value)` is finite and positive; it is returned as that number, and a refusal is BAD_INPUT |
| Validation.WeightExamples | src/utils/validation.js:63-67 | 12000 and "12" are accepted; 0, Infinity, NaN, undefined and null are refused |
| Validation.DigitWeight | src/utils/validation.js:63-67 | a weight written as digits is accepted exactly when its value is positive and below 2^1024 - 2^970; longer runs are Infinity to `Number` and refused |
| Validation.FractionWeight | src/utils/validation.js:63-67 | a weight written `0.f` is accepted exactly when f / 10^len(f) is positive and above 2^-1075; smaller fractions are zero to `Number` and refused |
| ReferenceData.SplitLines | src/domain/referenceData.js:16 | there is always at least one line and no line holds a line feed; a carriage return directly before a line feed goes with the separator |
| ReferenceData.SplitLinesRoundTrip | src/domain/referenceData.js:13-19 | on text without carriage returns, joining the lines with line feeds restores the text |
| ReferenceData.SplitLinesCrlfRoundTrip | src/domain/referenceData.js:16 | lines without line feeds, joined with CRLF, split back into exactly those lines |
| ReferenceData.KeepNonBlank | src/domain/referenceData.js:17-18 | a text is kept exactly when it is the non-empty trim of some line; a single line is kept trimmed or dropped when blank; never more lines than the input |
| ReferenceData.FilterConcat | src/domain/referenceData.js:18 | filtering a concatenation filters each part, in order |
| ReferenceData.KeepNonBlankConcat | src/domain/referenceData.js:17-18 | the kept lines of a concatenation are the kept lines of each part, in order |
| ReferenceData.LoadCsv | src/domain/referenceData.js:13-19 | a text is among the loaded lines exactly when it is the non-empty trim of a line of the file split at LF or CRLF |
| ReferenceData.LoadCsvCrlf | src/domain/referenceData.js:13-19 | a file of lines joined with CRLF loads as the trimmed non-blank lines themselves |
| ReferenceData.ParseRow | src/domain/referenceData.js:45-46 | the code holds no comma, and code and description together are no longer than the line |
| ReferenceData.ParseRowSplitsAtFirstComma | src/domain/referenceData.js:44-47 | the code is the text before the first comma; the description is everything after it, later commas included |
| ReferenceData.ParseRowWithoutComma | src/domain/referenceData.js:44-47 | a row without a comma has an empty description |
| ReferenceData.Entries | src/domain/referenceData.js:43-48 | an entry is kept exactly when it is a parsed row after the header with a non-empty code and a non-empty description |
| ReferenceData.EntriesRowByRow | src/domain/referenceData.js:43-48 | a row appended to the file adds its entry at the end when both parts are non-empty, and nothing otherwise |
| ReferenceData.ParseHsTable | src/domain/referenceData.js:40-53 | looking up a code in the table agrees with the last data row for that code; keys are distinct |
| ReferenceData.TableDescriptionsNonEmpty | src/domain/referenceData.js:40-53 | every description in the parsed table is non-empty |
| ReferenceData.HeaderDiscarded | src/domain/referenceData.js:40-53 | a file with only a header row yields an empty table |
| ReferenceData.LoadHsCodes | src/domain/referenceData.js:40-53 | a failed read gives the fallback table; otherwise the table has distinct codes and each lookup agrees with the last complete row for that code |
| ReferenceData.LoadIncoterms | src/domain/referenceData.js:29-38 | a failed read gives the fallback set; a document without an `incoterms` array gives the empty set; otherwise the set holds its items upper-cased |
| ReferenceData.Fetch | src/domain/referenceData.js:58-73 | the first call fills the cache; later calls return the cached value |
| ReferenceData.ReplayReturnsFirst | src/domain/referenceData.js:58-73 | over any sequence of calls every answer is the first loaded value |
| ReferenceData.GetIncotermSet | src/domain/referenceData.js:58-63 | the answer is the cached set when there is one and the loaded set otherwise, and the cache then holds the answer |
| ReferenceData.GetHsCodeMap | src/domain/referenceData.js:68-73 | the answer is the cached table when there is one and the loaded table otherwise, and the cache then holds the answer |
| ReferenceData.FallbackTables | src/domain/referenceData.js:21-27 | the fallback set has the 11 Incoterms, and the fallback HS table has three distinct codes, in order |
| ReferenceData.IncotermExamples | tests/validation.test.js:8-18 | "cfr" is valid as CFR; "abc" is UNKNOWN_INCOTERM; a missing value is MISSING |
| ReferenceData.HsCodeExamples | tests/validation.test.js:20-30 | 850490 is valid with its description |
| ReferenceData.UnknownHsCodeExample | tests/validation.test.js:20-30 | 999999 is UNKNOWN_HS_CODE |
| ZeroGuard.EnforceZeroGuard | src/security/zeroGuard.js:7-17 | `null` throws a TypeError; a risk of at least 0.8 throws HS_RISK_STOP before the certificate is looked at; a missing certificate throws CERT_MISSING |
| ZeroGuard.GuardDecision | src/security/zeroGuard.js:7-17 | the guard passes exactly when the risk is below 0.8 and no certificate is missing, and the error code says which rule stopped it |
| ZeroGuard.EmptyContextPasses | src/security/zeroGuard.js:7-17 | `{}` and `undefined` pass through the defaults |
| ZeroGuard.ThresholdExamples | tests/validation.test.js:37-46 | 0.79 passes, while 0.8 and 0.9 stop with HS_RISK_STOP and its message |
| ToolContext.Now | src/server.js:99-105 | the clock answers when the context has one; an empty context makes `now()` a TypeError |
| HealthPing.Handle | src/tools/healthPing.js:16-22 | the echo is the clamped value; the text is the banner followed, when the echo is non-empty, by `echo:` and the echo trimmed at the end |
| HealthPing.EchoShown | src/tools/healthPing.js:16-22 | an echo that fits and ends in a visible character appears verbatim in both json and text |
| InvoiceAudit.Handle | src/tools/invoiceAudit.js:27-95 | an empty path is BAD_INPUT; with a path the audit fails only when the context has no clock, and it reports the clamped path, the extracted number and both validations |
| InvoiceAudit.Report | src/tools/invoiceAudit.js:35-93 | OCR confidence is 0.90 + (seed mod 6)/100 and HS risk 0.05 + (seed mod 25)/100 for the hash of the invoice number; the amounts total 139500; the text is the header, the total and the warnings, with no warning exactly when both validations pass |
| InvoiceAudit.GuardNeverStops | src/tools/invoiceAudit.js:36-39 | no HS risk the seed can produce reaches the guard's 0.8 threshold |
| InvoiceAudit.SameInvoiceSameMetrics | src/tools/invoiceAudit.js:35-37 | two audits with the same invoice number report the same metrics |
| InvoiceAudit.AuditExample | tests/tools.test.js:9-19 | the documented request gives HVDC-INV-123 with a valid Incoterm and HS code |
| ContainerStatus.Handle | src/tools/containerStatus.js:19-51 | an invalid id is BAD_INPUT; otherwise progress is 50 + (seed mod 41), port and vessel follow the hash's parity, terminal and voyage follow the seed, and the text shows id, progress percentage, vessel and ETA |
| ContainerStatus.Terminal | src/tools/containerStatus.js:33 | the terminal is `T` followed by the digit 1 + (seed mod 4) |
| ContainerStatus.Voyage | src/tools/containerStatus.js:23 | the voyage is `SD-`, a year 2025-2027, `-`, and a zero-padded four-digit number 814-863 |
| ContainerStatus.SameIdSameSnapshot | src/tools/containerStatus.js:20-46 | equal validated ids give equal snapshots apart from the timestamp |
| ShippingCost.Costs | src/tools/shippingCost.js:30-36 | the total is the sum of the six parts and exceeds the base fee |
| ShippingCost.WeightCost | src/tools/shippingCost.js:31 | the weight cost is the least integer at or above 2.8 × weight |
| ShippingCost.Insurance | src/tools/shippingCost.js:33 | insurance is (base + weight cost) × 0.05 rounded half up |
| ShippingCost.Handle | src/tools/shippingCost.js:23-62 | an invalid weight is BAD_INPUT; otherwise the breakdown is the costs of that weight, the Incoterm defaults to CFR only when absent, and the text shows total, base, weight, handling and insurance |
| ShippingCost.WeightCostMonotone | src/tools/shippingCost.js:31 | a heavier cargo never costs less by weight |
| ShippingCost.TotalMonotone | src/tools/shippingCost.js:31-36 | a heavier cargo never has a smaller total |
| ShippingCost.ShippingExample | tests/tools.test.js:21-30 | 12000 kg gives weight cost 33600, insurance 2430 and total 60130 |
| ShippingCost.HeavyDap | src/tools/shippingCost.js:23-36 | any call with 12000 kg under DAP succeeds with that breakdown and records DAP, whatever the other arguments |
| Predict.Handle | src/tools/predict.js:22-53 | a missing route is BAD_INPUT, then an invalid weight is; otherwise the call fails only without a clock, and the result is the prediction for the clamped route and the validated weight |
| Predict.Prediction | src/tools/predict.js:28-52 | the ETA is 7 + (seed mod 7) days, confidence 0.82 + (seed mod 5)/100, the customs window `n-(n+1)` with n = 2 + (seed mod 2), weather, congestion and risk labels exactly as the seed's residues select, on-time target 0.93, and the text built from these |
| Predict.Seed | src/tools/predict.js:28 | the seed is a 32-bit hash of the route and the printed weight |
| Predict.SeedKeySeparates | src/tools/predict.js:28 | when neither port name holds a bar, equal seed keys mean the same route and the same printed weight |
| Predict.SeedKeyAmbiguous | src/tools/predict.js:28 | a bar inside a port name can move between origin and destination without changing the seed |
| Predict.CongestionMeansLowRisk | src/tools/predict.js:41-46 | MEDIUM congestion always comes with a LOW risk |
| Predict.SameRouteSamePrediction | src/tools/predict.js:28-48 | the same route and weight give the same prediction apart from the timestamp |
| Predict.TrailingZeroSameSeed | src/tools/predict.js:28 | 12 and 12.0 give the same seed, since the seed hashes the printed number |
| WeatherTie.ToIsoUtc | src/utils/time.js:9-15 | an unparsable date throws a plain Error without a code; otherwise the result is the parser's ISO string |
| WeatherTie.Handle | src/tools/weatherTie.js:20-46 | an empty route or date is BAD_INPUT, checked before parsing; an unparsable date is an uncoded Error; otherwise the plan is the fixed LOW/PROCEED snapshot |
| Responses.CreateOkResponse | src/mcp/responses.js:4-6 | the JSON item comes first, followed by a text item exactly when the text is non-empty; never an error |
| Responses.CreateErrorResponse | src/mcp/responses.js:11-14 | one JSON item, flagged as an error, holding the error object of the code and details |
| Responses.ErrorFields | src/mcp/responses.js:12 | without details the object is exactly `{ ok: false, code }`; its keys are always distinct |
| Responses.ErrorFieldsKeys | src/mcp/responses.js:12 | `ok` and `code` come first, then each detail key not already there in order of first occurrence, and there are no other keys |
| Responses.ErrorFieldsValues | src/mcp/responses.js:12 | every detail key has the detail's value; `ok` and `code` keep theirs unless a detail names them |
| Responses.DetailOverridesCode | src/mcp/responses.js:12 | a `code` detail replaces the code in its slot rather than adding a key |
| Toolkit.Lift | src/core/toolkit.js:22-24 | a handler's error passes through unchanged and its output is tagged with its tool |
| Toolkit.Invoke | src/tools/index.js:11-18 | a result is tagged with the handler that produced it, for each of the six handlers, and needs a context with a clock |
| Toolkit.ToSchema | src/core/toolkit.js:14-20 | the schema is an object of exactly name, description and inputSchema, taken from the tool |
| Toolkit.Execute | src/core/toolkit.js:22-24 | a missing context fails when the clock is read; otherwise the handler runs on the arguments, or on `{}` when they are nullish |
| Toolkit.Register | src/core/toolkit.js:36-41 | a non-tool throws the registry's Error; a tool becomes the entry of its name, keeps that name's position or is appended, leaves other names alone, and keeps the registry well formed |
| Toolkit.RegisterTwice | src/core/toolkit.js:36-41 | registering the same tool twice is the same as once |
| Toolkit.NewRegistry | src/core/toolkit.js:31-34 | construction succeeds exactly when every item is a tool; each name then maps to the last tool of that name |
| Toolkit.RegistryOfDistinct | src/core/toolkit.js:31-34 | tools with distinct names are registered in list order |
| Toolkit.List | src/core/toolkit.js:43-45 | one schema per registered tool, in registration order |
| Toolkit.GetTool | src/core/toolkit.js:47-49 | a tool is found exactly when the name is a registered string, and the found tool has that name |
| Toolkit.Run | src/core/toolkit.js:51-57 | an unknown name throws TOOL_NOT_FOUND `Unknown tool: <name>`; a known one executes that tool |
| Toolkit.ServerRegistry | src/tools/index.js:11-18 | the six tools register without error, under their six names in list order |
| Toolkit.ServerLookup | src/core/toolkit.js:47-49 | in the server's registry the i-th listed name finds the i-th tool |
| Toolkit.ServerDispatch | src/tools/index.js:11-18 | running the i-th tool name invokes the i-th handler with `{}` for missing arguments |
| Toolkit.ServerUnknown | src/core/toolkit.js:51-57 | any name outside the six is TOOL_NOT_FOUND |
| Server.CreateToolContext | src/server.js:99-105 | the context's clock reads the current instant and its ZERO guard is set |
| Server.ErrorCodeName | src/server.js:62 | the code is the error's own, or UNEXPECTED when it has none |
| Server.ErrorDetails | src/server.js:63-66 | the details are `ts` and `message`, then `details` exactly when the error carries one, with distinct keys and those values |
| Server.Arguments | src/server.js:57 | `arguments` defaults to `{}` only when undefined; `null` is kept |
| Server.CallTool | src/server.js:55-70 | the reply is an error exactly when the run throws; a result becomes an ok envelope of its json and text, and a throw becomes an error envelope |
| Server.ErrorEnvelope | src/server.js:61-68 | the error envelope holds `ok`, `code`, `ts`, `message` and, exactly when the error carries details, `details`, in that order |
| Server.UnknownToolEnvelope | src/server.js:55-70 | for any registry, a name it does not hold gives the TOOL_NOT_FOUND error response with `ts`, `Unknown tool: <name>` and empty details |
| Server.HealthPingCall | src/server.js:55-70 | a health ping through the server is never an error and carries the handler's json and text |
| Server.MissingArguments | src/server.js:57 | omitting `arguments` is the same as sending `{}` |
| Server.GetPrompt | src/server.js:46-53 | a prompt is found exactly when the name is a string equal to a catalog name; otherwise PROMPT_NOT_FOUND carries that name |
| Legacy.LegacyAssert | logistics-server.js:20 | a false condition throws a plain Error carrying the code and no details |
| Legacy.LegacyZeroGuard | logistics-server.js:35-38 | the legacy guard stops at risk 0.8 or a missing certificate, with the risk rule first and no details |
| Legacy.InvoiceGuardPasses | logistics-server.js:276 | the invoice branch's constant risk of 0.2 never stops |
| Legacy.ReadArgs | logistics-server.js:263 | reading a property of `null` arguments is a TypeError |
| Legacy.Health | logistics-server.js:265-267 | a JSON item only, with the legacy-clamped echo |
| Legacy.Invoice | logistics-server.js:269-298 | an empty path is BAD_INPUT; otherwise the invoice number is extracted by the same pattern, and OCR, Incoterm and amounts are constants |
| Legacy.Container | logistics-server.js:300-318 | the branch succeeds exactly when the clamped, upper-cased id contains the container shape; progress is 50 + (legacy hash mod 41), the rest is fixed, and the text shows id and progress |
| Legacy.LegacyCosts | logistics-server.js:323-327 | the legacy total is the current total without the two reserves; an infinite weight gives an infinite total |
| Legacy.Cost | logistics-server.js:320-340 | the branch succeeds exactly when `weight > 0`; it then reports the legacy breakdown of `Number(weight)` |
| Legacy.LegacyPredict | logistics-server.js:342-359 | the branch succeeds exactly when origin and destination are truthy, with no check of the weight |
| Legacy.Weather | logistics-server.js:361-377 | truthy route and date are required, and an unparsable date is a RangeError |
| Legacy.Dispatch | logistics-server.js:261-379 | a name outside the six throws TOOL_NOT_FOUND with `Unknown tool: <name>` |
| Legacy.CallTool | logistics-server.js:261-384 | a throw becomes an error envelope of `ts` and `message` only; a result becomes an ok envelope |
| Legacy.LegacyAcceptsValidIds | logistics-server.js:300-318 | every id the current validator accepts, the legacy branch accepts with the same normalised id |
| Legacy.UnanchoredAcceptsLongId | logistics-server.js:25 | "XABCD1234567" passes the legacy test but not the current validator |
| Legacy.InfiniteWeightAccepted | logistics-server.js:322-327 | weight "Infinity" gives the legacy branch an infinite total, while the current tool throws BAD_INPUT |
| Legacy.LegacyTotalWithoutReserves | logistics-server.js:323-327 | whenever the current tool prices a weight, the legacy branch does too, with a total 4600 lower |
| Legacy.PredictWithoutWeight | logistics-server.js:342-345 | without a weight the legacy branch still predicts, while the current tool throws BAD_INPUT |
| Legacy.UnknownToolEnvelope | logistics-server.js:379-383 | an unknown tool gives exactly `ok`, `code` TOOL_NOT_FOUND, `ts` and `message`, with no details |
| Legacy.HealthCall | logistics-server.js:263-267 | a health ping is an error exactly when the arguments are `null`; otherwise it is a single JSON item with the legacy-clamped echo |
| Legacy.GetPrompt | logistics-server.js:248-258 | a prompt is found exactly when the name is one of the two catalog names |
| Legacy.SamePrompts | logistics-server.js:248-258 | both servers find a prompt for exactly the same names, and give the same PROMPT_NOT_FOUND reply for every other name |

## Left out

- I/O, logging, the HTTP server, process signals and the MCP transport: these are effects, not logic. The logger in the tool context is not modelled.
- Reading `reference/*.yaml` and `*.csv` from disk, and YAML parsing: each read is an input (`Option` of the file's text or document), with `None` standing for a read or parse that threw.
- The clock is an input `now`, read once per call. The source reads it again in its catch blocks, so its error details may carry a later instant than the handler would have used; the model stamps both with the same `now`.
- `Intl.NumberFormat` currency formatting: the amounts in a text are opaque `Money` pieces. `formatPercent` and the `toFixed` calls in the texts are applied to whole percentages only, which print as their digits, followed by `.0` where one decimal is asked for.
- Validation.ValidateWeight: `JsValues.StringToNumber` keeps an in-range literal's exact value instead of rounding it to the nearest double. A literal with more significant digits than a double holds therefore differs: `"12000.0000000000000001"` is 12000 in JavaScript, with weight cost 33600 and a seed key printing `12000`, but here it keeps its last digit, giving weight cost 33601 and a different seed. `ShippingCost.Handle`, `Predict.Handle` and `Legacy.Cost` inherit this. Numbers that arrive as `Num` are taken to be doubles already.
- Number parsing and printing: the model covers decimal literals and `Infinity` only. Exponent notation and hexadecimal strings are not covered. `Number.prototype.toString` is modelled as plain decimal printing, with no exponent form.
- Floating-point rounding: prices are exact decimals. The model assumes `weight * 2.8` and `(base + w) * 0.05` hit no binary rounding error at a rounding boundary.
- `toFixed(3)` on the audit's OCR confidence and `toFixed(2)` on its HS risk are taken as exact: both values already have two decimals.
- Strings.ClampString: lengths count code points, while JavaScript's `slice` counts UTF-16 code units, so a text with characters outside the Basic Multilingual Plane is cut at a different place.
- Case mapping covers ASCII letters only; `toUpperCase` on other scripts is not modelled.
- The prompt catalog's texts and `listPrompts`: only the names and the lookup are modelled.
- Legacy.SamePrompts: the two servers' message texts differ (the legacy `invoice_audit_summary` prompt is worded differently from the current catalog's), and the model does not carry the texts, so the lemma compares which names are found and the reply for a miss only.
- ListTools is not modelled beyond `Toolkit.List`.
- The wording of TypeError messages follows the V8 engine's and is not checked against it.
- The legacy invoice branch's constant `checks` and `next` fields are not modelled, and neither are the constant `conditions` and `notes` of the legacy container and cost branches.
- Legacy.Cost: `String(equipment_type || '')` is modelled as `OrEmpty`, the `String` of a truthy value. The check of weight > 0 is `Positive` of `Number(weight)`, which matches JavaScript's relational comparison for the string and number inputs modelled here.
- Toolkit.Invoke: the handlers are a closed set of six. A registry holding an arbitrary JavaScript function is outside the model.

## Findings

| source | as written | input that shows it | evidently intended | confidence | as-written member | corrected member |
|---|---|---|---|---|---|---|
| logistics-server.js:25,301-302 | the container test `/[A-Z]{4}\d{7}/` has no anchors, so any id containing the shape passes | `{ container_id: "XABCD1234567" }` is accepted as a container | the anchored ISO 6346 shape, as in src/utils/validation.js:5 | high; not executed | Legacy.UnanchoredAcceptsLongId | Validation.ValidateContainerId |
| logistics-server.js:322-327 | `weight > 0` accepts `"Infinity"`, and the cost arithmetic then yields an infinite total | `{ weight: "Infinity" }` gives total Infinity | a finite positive weight, as in src/utils/validation.js:63-67 | high; not executed | Legacy.InfiniteWeightAccepted | ShippingCost.Handle |
