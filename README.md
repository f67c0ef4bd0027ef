# dressed-forwarder, modelled in Dafny

dressed-forwarder connects a Discord bot written with the dressed framework to the
Discord gateway and forwards every gateway event, wrapped as a webhook event, to the
bot's own HTTP server. It has three parts:

- a request handler that checks a delivery's `authorization` header against the bot
  token and runs the event handlers;
- a forwarder that registers a listener in every `on…` slot of a gateway connection;
- a `build` command that finds the config file, fills in missing bot variables,
  resolves and deduplicates the event handlers, and writes the entry module.

This project models the decision rules of those parts and proves them:

| file | models |
|---|---|
| `wrappers.dfy` | `Option`, `Result` and a map lookup |
| `js_strings.dfy` | the JavaScript built-ins the code relies on: `trimStart`, `trimEnd`, `trim`, `startsWith`, `split` on one character, `join` |
| `config.dfy` | the `ServerConfig` record and `Object.assign` on it |
| `parser.dfy` | `parseEvents` (`src/parser.ts`, repeated at `src/build.ts:17-34`): two-table type lookup, first-seen dedup on `type`, warning texts |
| `server.dfy` | `handleRequest` (`src/server.ts`) as a function |
| `forwarder.dfy` | `createForwarder` (`src/index.ts`): a `Connection` class with a listener map and a request log, and the registration loop |
| `cli.dfy` | the `build` command (`src/bin/dressed-forwarder.ts`): `parseInt`, the port check, the extensions list, the config argument, the entry-module template, the success message |
| `build.dfy` | `build` and `fetchMissingVars` (`src/build.ts`): config-file name rule, source root and category paths, missing variables and the `.env` text, and a `Workspace` class for the state `build` changes |

Modelling choices:

- The Discord enum tables are two `map<string, string>`. They may share names.
- A request is an optional header, a body-parse outcome and a handler outcome.
- The bundler, dynamic imports, `override` and the directory listing are parameters.
- An environment variable that `botEnv` cannot read is `None`. Reading it throws.
- `getApp()` is an `Option<App>`; `None` means it throws.

Where the repository's documentation and its code disagree, the model follows the code:

- `handleRequest` passes any status other than 200 to `new Response(null, { status })`. The Fetch standard's `Response` constructor first converts the status to a WebIDL `unsigned short`, which takes it modulo 2^16. It then throws a RangeError when the result lies outside 200..599. That throw happens inside the `try`, so such a status gives 500 and is not passed through. A status such as 65736 becomes 200, and because the body is chosen by comparing the unconverted status with 200, its body is null.
- `handleRequest` reads `botEnv.DISCORD_TOKEN` outside the `try`. When the token is unset the call rejects (`Rejected`) instead of answering 401.
- `createData` tests `!type`, so a table entry whose code is the empty string resolves and is then rejected with the "dressed-parsing" error. Because `??` falls through only on `null` and `undefined`, not on the empty string, the gateway table is not consulted in that case.
- The documentation promises the scratch directory is removed on every exit path. The code removes `.dressed/tmp` only at the end of a successful `build` command (`src/bin/dressed-forwarder.ts:80`); `build` itself never removes it. File effects are not modelled, so the model does not claim cleanup either way.

## Model

| member | source | states |
|---|---|---|
| EventParser.CreateData | src/parser.ts:9-21 | a webhook code wins even when the gateway table also has the name; the gateway code is used only when the webhook table has no entry; no entry or an empty code fails with cause "dressed-parsing" and the name |
| EventParser.ParsedTypes | src/parser.ts:7 | the codes of the parsed events are exactly the codes of the resolvable items |
| EventParser.ParsedTypesUnique | src/parser.ts:7 | no two parsed events share a `type` |
| EventParser.ParsedIsFirstSeen | src/parser.ts:7-8 | the output equals an independent first-seen filter: the items that are first of their code, in input order |
| EventParser.ParsedCounts | src/parser.ts:7-8 | events plus conflicts equal the resolvable items; unresolved warnings equal the unresolvable items; the number of events is the number of distinct resolvable codes |
| EventParser.LaterDuplicateSkipped | src/parser.ts:7-8 | a later item with a taken code is skipped, earlier events are untouched and the conflict warning names the skipped item |
| EventParser.UnresolvableSkipped | src/parser.ts:14-18 | an unresolvable item adds no event, only its "dressed-parsing" error |
| EventParser.NewTypeAppended | src/parser.ts:20 | an item with a new code is appended with its name, path and the created `type` |
| EventParser.ConflictMessage | src/parser.ts:8 | the conflict text starts with the skipped item's name in double quotes |
| EventParser.UnresolvedMessage | src/parser.ts:15 | the error text starts with the warning symbol and quotes the handler name at a fixed offset |
| Server.HandleRequest | src/server.ts:5-17 | rejects exactly when the token is unset; every response status is one the Response constructor accepts; the body is either null or `{"type":1}`, and `{"type":1}` only with status 200 |
| Server.UnsignedShort | src/server.ts:12 | the status the constructor checks is the handler's status reduced into 0..65535 and congruent to it modulo 2^16 |
| Server.UnauthorizedRejected | src/server.ts:6-9 | a header that is not exactly the token, or no header, gives 401 with a null body and one logged error, whatever the body and the handlers would do |
| Server.HandledOkIsPingAck | src/server.ts:11-12 | handler status 200 gives status 200 with body `{"type":1}` |
| Server.OtherStatusPassedThrough | src/server.ts:12 | any other status in 200..599 is returned with a null body |
| Server.WrappedStatusConverted | src/server.ts:11-12 | a handler status outside 200..599 whose value modulo 2^16 lies in 200..599 is answered with that converted status and a null body |
| Server.WrappedOkHasNullBody | src/server.ts:12 | the handler status 65736 is answered with status 200 and a null body |
| Server.FailuresAre500 | src/server.ts:10-16 | a malformed body, a throwing handler or a status the Response constructor refuses after converting it modulo 2^16 gives 500 with a null body, after logging the error |
| Server.HandlerGetsConfiguredMiddleware | src/server.ts:5-11 | the body is read, then the handlers run exactly once with the payload and the middleware of `config`, or of `serverConfig` when no config is passed |
| Forwarder.SlotDispatchType | src/index.ts:25 | the envelope's `type` is the gateway code of the key without its first two characters, absent when that name is unknown |
| Forwarder.RequestFor | src/index.ts:18-28 | one POST to the endpoint, authorized with the token, whose envelope has the webhook event type and the payload unchanged |
| Forwarder.Connection.Register | src/index.ts:17 | registering sets exactly that slot's listener and sends nothing |
| Forwarder.Connection.Fire | src/index.ts:17-28 | firing a slot with a listener and a set token appends exactly one request for that slot; otherwise no request is sent; listeners are unchanged |
| Forwarder.CreateForwarder | src/index.ts:12-33 | the loop gives a listener to exactly the keys that start with "on", each one forwarding to the endpoint under its own key; nothing is sent yet |
| Forwarder.NonDispatchMembersSkipped | src/index.ts:5-16 | `emit` and `shards` never get a listener |
| Forwarder.ForwardOnce | src/index.ts:12-33 | firing slot `"on" + x` after `createForwarder` sends one request carrying the payload and the gateway code of `x` |
| Config.AssignLaws | src/build.ts:57 | merging `{}` on either side changes nothing; merging the same source twice equals merging it once; two successive merges equal one merge of the merged sources; every field the source defines wins |
| JsStrings.TrimStartSpec | src/bin/dressed-forwarder.ts:22 | `trimStart` removes a whitespace prefix and stops at the first character that is not whitespace |
| JsStrings.TrimEndSpec | src/bin/dressed-forwarder.ts:71 | `trimEnd` removes a whitespace suffix and stops at the last character that is not whitespace |
| JsStrings.TrimmedEnds | src/bin/dressed-forwarder.ts:54 | a trimmed string neither starts nor ends with whitespace |
| JsStrings.TrimIsInfix | src/bin/dressed-forwarder.ts:54 | the string is its trimmed form with whitespace on either side |
| JsStrings.TrimStartConcat | src/bin/dressed-forwarder.ts:71 | trimming the start of a concatenation skips a whitespace-only first part and otherwise stays in it |
| JsStrings.TrimEndConcat | src/bin/dressed-forwarder.ts:71 | the mirror image for the end of a concatenation |
| JsStrings.Split | src/bin/dressed-forwarder.ts:54 | `split` gives at least one piece and no piece contains the separator |
| JsStrings.JoinSplit | src/bin/dressed-forwarder.ts:54 | re-joining the pieces with the separator gives back the string |
| JsStrings.SplitLength | src/bin/dressed-forwarder.ts:54 | there is one piece more than there are separators |
| JsStrings.SplitJoin | src/bin/dressed-forwarder.ts:54 | splitting a join of separator-free pieces gives back the pieces |
| Cli.LeadingDigits | src/bin/dressed-forwarder.ts:22 | the longest prefix made of decimal digits |
| Cli.Decimal | src/bin/dressed-forwarder.ts:22 | the decimal rendering of a number is all digits and reads back as the number |
| Cli.ParseInt10 | src/bin/dressed-forwarder.ts:22 | `parseInt(v, 10)` is NaN exactly when no digit follows the leading whitespace and optional sign |
| Cli.ParseDecimal | src/bin/dressed-forwarder.ts:22 | any leading whitespace, then a decimal number, then text not starting with a digit parses to that number |
| Cli.ParseNegativeDecimal | src/bin/dressed-forwarder.ts:22 | a leading minus sign negates the number |
| Cli.ValidatePort | src/bin/dressed-forwarder.ts:21-27 | accepted exactly when `parseInt` gives a number in 0..65535, and then that number; a refusal carries the port error message |
| Cli.PortAccepted | src/bin/dressed-forwarder.ts:21-27 | every number in 0..65535, with any leading whitespace and a suffix that does not start with a digit, is accepted as itself |
| Cli.PortSignedAccepted | src/bin/dressed-forwarder.ts:21-27 | any run of digits in range, with leading zeros, after whitespace and an optional `+`, is accepted as its value; `-` followed by zeros is accepted as 0 |
| Cli.PortSignedExamples | src/bin/dressed-forwarder.ts:21-27 | "+80" and "0080" give 80 and "-0" gives 0 |
| Cli.PortRefused | src/bin/dressed-forwarder.ts:23-25 | numbers above 65535, negative numbers and text with no digits are refused |
| Cli.TrimAll | src/bin/dressed-forwarder.ts:54 | the list of trimmed pieces, in order and of the same length |
| Cli.SplitExtensions | src/bin/dressed-forwarder.ts:54 | an absent option stays absent |
| Cli.ExtensionsPieces | src/bin/dressed-forwarder.ts:54 | one extension per comma-separated piece, each trimmed, in order; the pieces re-join to the option text |
| Cli.ExtensionsRoundTrip | src/bin/dressed-forwarder.ts:54 | comma-joined comma-free names come back as the trimmed names |
| Cli.BuildArgument | src/bin/dressed-forwarder.ts:49-56 | fails exactly when a given port is refused; otherwise passes the endpoint, the port the port parser returned and a `build` object with the root and the split extensions |
| Cli.CliSourceRoot | src/bin/dressed-forwarder.ts:49-56 | the root `build` uses for the command's argument is `--root`, or "src" when it is not given, and the events directory lies under it |
| Cli.ServerImports | src/bin/dressed-forwarder.ts:62 | one name per flag: `createServer` first when `instance`, `installCommands` last when `register` |
| Cli.KeepPresent | src/bin/dressed-forwarder.ts:62 | `filter(Boolean)` keeps only names from the list, keeps every present name, and keeps as many as there are present entries |
| Cli.KeepPresentAppend | src/bin/dressed-forwarder.ts:62 | filtering a concatenation is the concatenation of the filtered parts, so the kept names stay in list order |
| Cli.KeepPresentOne | src/bin/dressed-forwarder.ts:62 | a single entry is kept when present and dropped when falsy |
| Cli.ImportLineContents | src/bin/dressed-forwarder.ts:60-64 | the import from "dressed/server" appears exactly when `instance` or `register` is set and lists the names comma-joined in the order createServer, installCommands |
| Cli.OutputShape | src/bin/dressed-forwarder.ts:59-71 | the trimmed entry module starts with the import line (when present) or the preamble and ends with the export line followed by `installCommands(commands);` only when `register` and `createServer(...)` only when `instance`, in that order |
| Cli.TemplateShape | src/bin/dressed-forwarder.ts:59-71 | trimming the template drops exactly the blank lines of the empty parts at either end |
| Cli.SuccessTree | src/bin/dressed-forwarder.ts:82-88 | one detail line per flag; `instancePrefix` is "├" when a registration line follows and "└" on the last line |
| Build.LastIndexOf | src/build.ts:50 | the position of the last dot, with no dot after it; none when the name has no dot |
| Build.ConfigFileNames | src/build.ts:50 | an entry is the config file exactly when it is "dressed.config", a dot and a dot-free extension |
| Build.ConfigFileExamples | src/build.ts:50 | "dressed.config" and "dressed.config.d.ts" are not the config file; "dressed.config.ts" is |
| Build.FirstConfigIndex | src/build.ts:50 | no entry before the returned position is the config file, and the entry at it is |
| Build.FindConfig | src/build.ts:50 | the first directory entry that is the config file; none exactly when no entry is |
| Build.CategoryLayout | src/build.ts:62-76 | the root is `build.root` when set and "src" otherwise; the three paths are the root followed by "/commands", "/components" and "/events", and they are distinct |
| Build.MissingVars | src/build.ts:84-95 | `DISCORD_APP_ID` is listed exactly when it is unset and `DISCORD_PUBLIC_KEY` likewise, the first before the second |
| Build.FetchCases | src/build.ts:81-117 | without a token only the error is logged; with every variable set nothing is looked up or appended; a failure appends nothing; the application is looked up exactly when the token is set and a variable is missing |
| Build.EnvAppendixLines | src/build.ts:102-112 | the appended text is a newline, then the header line and one `NAME="value"` line per missing variable in list order |
| Build.CollectMissing | src/build.ts:84-95 | the pushes build exactly the missing-variable list |
| Build.CollectEnvLines | src/build.ts:102-110 | the pushes build the header followed by one line per listed variable |
| Build.Workspace.FetchMissingVars | src/build.ts:81-117 | `.env`, the error log and the lookup count change exactly as the fetch outcome says; nothing else changes |
| Build.Workspace.ApplyConfig | src/build.ts:53-60 | with a config file: it is bundled, its export is overridden by the argument and merged into `serverConfig`; without one: the argument is written to the scratch config and returned unchanged |
| Build.Workspace.Build | src/build.ts:39-79 | missing variables are handled first; the returned config is the argument unchanged when there is no config file; the bundler gets the config file and then the entry module; the category paths come from the returned config's root; the events are the parsed handlers |

## Left out

- File writes and deletions (`mkdirSync`, `writeFileSync`, `appendFileSync`, `rmSync`) are I/O. The model records only what `build` writes to the scratch config and appends to `.env`.
- `readdirSync` is a sequence of names given as input. Its order is the filesystem's.
- The bundler, the dynamic `import()` of built modules, `crawlDir`, `importString`, `categoryExports` and `override` are foreign code with no source here. They are parameters, and the handler entry text is an input string.
- `parseCommands` and `parseComponents` belong to the framework and have no source here. Only the paths they are given are modelled.
- `createHandlerParser` is not part of this model. Its first-seen dedup on `type` follows the configuration (`uniqueKeys: ["type"]`). The configuration states no order, so keeping items in input order and emitting warnings in that order is the model's assumption about `createHandlerParser`.
- `createConnection`, the gateway transport and the delivery of `fetch` are left out, along with the concurrency of requests in flight. A firing appends to a request log.
- `for...in` enumeration order and inherited enumerable properties: the connection's keys are an input sequence.
- The enum lookups treat only the tables' own names. Names inherited from `Object.prototype` are not modelled.
- `handleEvent` internals and real JSON parsing are left out. They are outcome values: a status, or a throw.
- `getApp()`, `botEnv` and the process environment are inputs. Logger output other than the logged error texts is not modelled, nor is tree formatting.
- Commander's option parsing is not modelled. The options reach the model as optional strings and flags.
- `JSON.stringify` output is not modelled. The envelope and the config are datatypes.
- `Promise.all` over the three category crawls is not modelled. The crawls are independent inputs.
- Config.Assign: a field present but `undefined` in the source object is treated as absent. It does not overwrite the target.
- Server.HandleRequest: the handler's status is an integer. A fractional or non-numeric status, which the WebIDL conversion truncates or maps to 0, is not modelled.
- Cli.ParseInt10: computes on unbounded integers. JavaScript rounds runs of more than 2^53 to a double, which does not change any comparison with 0..65535.
- Build.ExtName and Build.BaseName are modelled for one directory entry, a name without "/", which is all `readdirSync` returns.
- Build.Workspace.Build: an `appendFileSync` that throws inside `fetchMissingVars` (a full disk) is not modelled. Neither is a bundler failure, which is fatal.
