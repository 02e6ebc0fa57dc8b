# grabbit-cli, modelled in Dafny

A model of the command-line client of a workflow service, with proofs about
it. The client drives an external browser process through named sessions and
records the network traffic of a session. It then submits that capture with a
prompt to a remote service, which turns it into a workflow. Other commands
manage API keys, check a task's status and install a workflow as a local
skill.

The model has one module per source file of the core:

- `Browse` (`browse.dfy`) models `src/commands/browse.ts`.
  - It splits the leading option flags from the subcommand.
  - It picks an explicit session or a `temp-<now>` one.
  - It issues the process invocations in order: close the stale sessions, launch, `har start`, `reload`. A non-navigation command is forwarded as it is.
  - It records or forgets the session marker.
- `Save` (`save.dfy`) models `src/commands/save.ts`.
  - The splice loop that pulls `--session`/`--model` out of the prompt words.
  - The guard order.
  - The decoding of the export envelope.
  - The filter that replaces binary response bodies; it is modelled in place over an array.
  - The submission, and the clean-up after a successful submission.
- `Api` (`api.dfy`) models `src/lib/api.ts`.
  - The URL and headers of `apiRequest`, and its error messages.
  - `validateToken` and `listWorkflows`.
  - `submitTask`: the choice of transport, the JSON body and the multipart fields.
- `JsonCodec` (`json_codec.dfy`) is `JSON.stringify` and `JSON.parse` for the values the CLI sends: strings, non-negative integers, arrays and objects. It is used for the `agentSteps` field, the JSON task body and the key-creation body.
- `Config` (`config.dfy`) models `src/lib/config.ts`.
  - Trailing-slash stripping.
  - The priority order of `getApiUrl`.
  - `isLocalhost`.
  - The configuration file and the session file, as two store objects.
- `Add` (`add.dfy`) models `src/commands/add.ts`.
  - The guards.
  - The `^name:\s*(.+)$` / `^description:\s*(.+)$` matches under the multiline flag.
  - The skill name and title, and the quote stripping.
  - The installation paths and its output.
- `Keys` (`keys.dfy`) models `src/commands/keys.ts`.
  - The token mask `/(.{8}).*(.{4})/`.
  - The padded columns and the default marker.
  - The three commands.
- `Check` (`check.dfy`) models `src/commands/check.ts`. `printStatus` is a function from the status record to its output lines.
- `Common` (`common.dfy`) holds `Option`/`Result`, JavaScript truthiness and the string methods the commands use.

The world outside the program enters as parameters:

- The exit of each browser process is a function from argument vector to outcome.
- `Date.now()` and the ISO start time are values.
- The export's parsed standard output is a value.
- `JSON.parse` of the capture, `JSON.stringify` and `gzipSync` are functions.
- `fetch` replies are values; the model outputs the request that would be sent.
- Whether the runtime has `FormData`/`Blob` is a flag.
- The environment variables are values.

Where the system's documented behaviour and its code differ, the model follows the code. A `browse` navigation whose `har start` fails exits with the launch's code, which is 0. The documented behaviour is that the exit code reflects the first failure.

When the scan of `browse`'s arguments reaches their end, every argument is a flag or the value of a value-taking flag (as in `--session s`), and the command index is 0. The whole vector then counts as the command part, so the flags are forwarded twice (`Browse.AllFlags`). The model keeps this behaviour of the code.

## Model

| member | source | states |
|---|---|---|
| Browse.Next | src/commands/browse.ts:58-64 | the scan moves past a flag, and past its value when the flag takes one and a value follows |
| Browse.CommandFrom | src/commands/browse.ts:56-68 | the token it finds is the first non-flag token the scan reaches, and it does not start with `-` |
| Browse.SplitFlagsSpec | src/commands/browse.ts:37-75 | the command index never exceeds the argument count |
| Browse.SplitFlags | src/commands/browse.ts:37-75 | the loop gives `SplitFlagsSpec`; either `flagArgs == args[..commandIndex]` and that token is not a flag, or no command was found, `flagArgs` is every token (each a flag or a flag's value) and the index is 0 |
| Browse.VisitsCommandFrom | src/commands/browse.ts:56-68 | from every position the scan reaches, it finds the same command |
| Browse.ValueIsNeverCommand | src/commands/browse.ts:39-62 | the token after a value-taking flag goes into `flagArgs` and is never the command, even without a leading `-` |
| Browse.LastFlagTakesNothing | src/commands/browse.ts:60-72 | a flag in last position consumes nothing; there is no command and the index is 0 |
| Browse.AllFlags | src/commands/browse.ts:56-74 | when the scan reaches the end (every token a flag or a flag's value), `flagArgs` is all the tokens and the command part is the whole vector again |
| Browse.OnlyFlagsVisited | src/commands/browse.ts:56-68 | a vector made only of flags is scanned to its end from any position |
| Browse.SessionFlagAlone | src/commands/browse.ts:56-74 | `--session s` alone has no command: both tokens are flag arguments |
| Browse.IndexOf | src/commands/browse.ts:78 | `indexOf` gives -1 exactly when the element is absent; otherwise it gives the first index holding it |
| Browse.GetFlagValue | src/commands/browse.ts:77-81 | the token after the first occurrence of the flag; undefined exactly when the flag is absent or first occurs in last position |
| Browse.PlanSession | src/commands/browse.ts:95-104 | the session is explicit exactly when `--session` has a truthy value; otherwise `temp-<now>` and a `--session` pair put in front; `--session` in the effective flags always names the chosen session, which is never empty |
| Browse.UrlAfterFlagsIsNotNavigation | src/commands/browse.ts:108-111 | a URL that comes after leading flags is not a navigation |
| Browse.ExitCodeOf | src/commands/browse.ts:156-175 | a spawn error gives 1, a null close code gives 0, any other close code is itself |
| Browse.Prepare | src/commands/browse.ts:90-111 | the effective arguments are the effective flags followed by the command part `args[commandIndex..]` |
| Browse.Lifecycle | src/commands/browse.ts:113-153 | a non-navigation issues exactly the forwarded command and forgets the session exactly for `close`; a navigation issues exactly: the closes of `default` and the temp session when ephemeral, the launch, then `har start` only after a launch that exits 0, then `reload` only after `har start` exits 0, when the marker is also written; the exit code is reload's, else launch's |
| Browse.Browse | src/commands/browse.ts:88-154 | the imperative command issues the commands of `BrowsePlan` with its exit code, and writes, clears or keeps the session store as it says |
| Config.StripTrailingSlashes | src/lib/config.ts:37 | the result is a prefix of the input, does not end with `/`, and only `/` characters were removed |
| Config.StripTrailingSlashesUnique | src/lib/config.ts:37 | any split into a part not ending in `/` followed by only slashes is the one found |
| Config.StripTrailingSlashesIdempotent | src/lib/config.ts:65-70 | stripping twice is stripping once |
| Config.IsLocalhostIgnoresCase | src/lib/config.ts:51-59 | the hostname test ignores letter case: `localhost`, `127.0.0.1` or `::1` after lower-casing |
| Config.GetApiUrl | src/lib/config.ts:61-78 | a truthy environment URL wins, stripped; then the stripped configured URL unless its host is `localhost`, `127.0.0.1` or `::1` after lower-casing; then production; the result never ends in `/`, and a non-production result without the environment variable never has one of those hosts |
| Config.NormalizeConfig | src/lib/config.ts:34-38 | the token and user id are kept, and a non-empty URL is stripped of its trailing slashes |
| Config.ConfigStore.GetConfig | src/lib/config.ts:25-32 | a record exactly when the file holds one; null when it is missing or does not parse |
| Config.ConfigStore.SaveConfig | src/lib/config.ts:34-41 | writes the normalised record, which reads back |
| Config.ConfigStore.ClearConfig | src/lib/config.ts:43-47 | afterwards there is no configuration |
| Config.SessionStore.GetSession | src/lib/config.ts:80-87 | a record exactly when the file holds one |
| Config.SessionStore.SaveSession | src/lib/config.ts:89-92 | the whole record is replaced and reads back |
| Config.SessionStore.ClearSession | src/lib/config.ts:94-98 | afterwards there is no session, whatever was there |
| Api.HeadersFor | src/lib/api.ts:16-35 | the JSON content type is added exactly for a truthy non-form body without a caller content type; the bearer header exactly for a non-empty token; every other header is the caller's |
| Api.BuildHeaders | src/lib/api.ts:16-35 | the step-by-step header assignments give `HeadersFor` |
| Api.PrepareRequest | src/lib/api.ts:13-37 | the URL is a truthy `baseUrl`, else the API URL, followed by the path; the verb and body are passed through and the headers are `HeadersFor` |
| Api.ErrorMessage | src/lib/api.ts:39-47 | the body's truthy `error`, else `Request failed: <status>`; never empty |
| Api.ApiResult | src/lib/api.ts:37-50 | a value exactly for an ok reply whose JSON parses; a non-ok status fails with `ErrorMessage` |
| Api.ValidateRequest | src/lib/api.ts:59-63 | a GET of `/api/cli/tokens/validate` without a body |
| Api.ValidateToken | src/lib/api.ts:53-71 | the server's answer when the request succeeds; otherwise `valid: false` with the thrown message |
| Api.WorkflowItem | src/lib/api.ts:179-183 | the id is kept; the title is `metadata.name`, else `goal`, else `Untitled`, never empty; the description is `metadata.description`, else empty |
| Api.ListWorkflows | src/lib/api.ts:177-184 | one item per workflow in the server's order, or the request's error |
| Api.Utf8Encode | src/lib/api.ts:117 | one to four bytes per code point |
| Api.EncodeCodePoint | src/lib/api.ts:117 | one code point takes one to four bytes |
| Api.DecodeCodePoint | src/lib/api.ts:117 | a strict UTF-8 decoding step consumes input |
| Api.TwoBytes | src/lib/api.ts:117 | a code point from U+0080 to U+07FF is written as a lead byte and one continuation byte that decode back to it |
| Api.ThreeBytes | src/lib/api.ts:117 | a code point from U+0800 to U+FFFF is written as three bytes that decode back to it |
| Api.FourBytes | src/lib/api.ts:117 | a code point from U+10000 on is written as four bytes that decode back to it |
| Api.CodePointRoundTrip | src/lib/api.ts:117 | every character's encoding, followed by any bytes, decodes to the character and those bytes |
| Api.Utf8RoundTrip | src/lib/api.ts:117 | decoding the encoded capture text gives the text back |
| Api.BuildForm | src/lib/api.ts:116-124 | the successive appends give `FormFields` |
| Api.FieldNamed | src/lib/api.ts:120-124 | the part found has that name and is in the form; none exactly when no part has it |
| Api.FieldNamedConcat | src/lib/api.ts:120-124 | looking a name up in two groups of parts searches the first group, then the second |
| Api.FormLookup | src/lib/api.ts:120-124 | a lookup in the form searches the fixed part groups in append order |
| Api.FormHead | src/lib/api.ts:118-121 | the first part is the capture file (`application/gzip`, `capture.har.gz`), the second the prompt |
| Api.FormModel | src/lib/api.ts:122 | a `model` part exactly when the model is truthy, holding it |
| Api.FormCompression | src/lib/api.ts:123 | a `compression: gzip` part exactly when compression is set |
| Api.FormAgentSteps | src/lib/api.ts:124 | an `agentSteps` part exactly when the list is non-empty, holding JSON text that parses back to the list |
| Api.TaskJsonBody | src/lib/api.ts:132-141 | the JSON text sent parses back to the object literal's members in order, those with an `undefined` value left out |
| Api.OptionalProperty | src/lib/api.ts:136-140 | a member left out when `undefined` answers only for its own key |
| Api.TaskLookup | src/lib/api.ts:134-140 | reading a key of the parsed body finds the optional member for that key, else the content or prompt |
| Api.TaskJsonProperties | src/lib/api.ts:132-141 | the service reads the content and prompt, and the model, `compression: "gzip"` and the steps exactly when given, the steps as the same list of strings |
| Api.SubmitRequest | src/lib/api.ts:84-141 | fails with `Multipart upload not supported in this runtime` exactly when multipart is needed and unsupported; otherwise a POST to `/api/cli/tasks` whose body is a form exactly when multipart is used; no JSON content type on a form; bearer header exactly with a token |
| Api.SubmitTask | src/lib/api.ts:84-142 | a request is sent exactly when `SubmitRequest` succeeds, and then the result is the reply's; otherwise it throws the runtime error |
| JsonCodec.HexValue | src/lib/api.ts:124 | a hex digit's value is below 16 |
| JsonCodec.HexRoundTrip | src/lib/api.ts:124 | the digit written for a value reads back as that value |
| JsonCodec.EscapeChar | src/lib/api.ts:124 | every character is written as at least one character |
| JsonCodec.DecodeChar | src/lib/api.ts:124 | each decoding step consumes input |
| JsonCodec.DecodeBody | src/lib/api.ts:124 | decoding a literal consumes its closing quote |
| JsonCodec.ParseString | src/lib/api.ts:124 | reading a string literal consumes input |
| JsonCodec.DigitRun | src/lib/api.ts:134-140 | the length of the longest run of decimal digits at the front |
| JsonCodec.ParseNumber | src/lib/api.ts:134-140 | reading a number consumes input |
| JsonCodec.ParseValue | src/lib/api.ts:132-141 | reading a value consumes input |
| JsonCodec.ParseItems | src/lib/api.ts:124 | reading array elements consumes input |
| JsonCodec.ParseMembers | src/lib/api.ts:132-141 | reading object members consumes input |
| JsonCodec.Property | src/lib/api.ts:132-141 | `obj[key]` is the value of a member with that key, and undefined exactly when no member has it |
| JsonCodec.PropertyAppend | src/lib/api.ts:132-141 | in two groups of members the later group wins a key |
| JsonCodec.DecodeEscape | src/lib/api.ts:124 | every escaped character decodes back to itself, whatever follows |
| JsonCodec.DecodeBodyStep | src/lib/api.ts:124 | an escaped character in front of a decodable body decodes to that character in front of the body's text |
| JsonCodec.BodyRoundTrip | src/lib/api.ts:124 | an escaped string followed by a quote decodes to the string and the rest |
| JsonCodec.QuoteRoundTrip | src/lib/api.ts:124 | a quoted string followed by anything reads back as the string and what follows |
| JsonCodec.DigitRunOf | src/lib/api.ts:134-140 | the digits of a number followed by a delimiter form the whole digit run |
| JsonCodec.NumberRoundTrip | src/lib/api.ts:134-140 | a written number followed by a delimiter reads back as the number |
| JsonCodec.ParseArrayStep | src/lib/api.ts:124 | a `[` followed by readable elements reads as the array |
| JsonCodec.ParseObjectStep | src/lib/api.ts:132-141 | a `{` followed by readable members reads as the object |
| JsonCodec.ParseItemsStep | src/lib/api.ts:124 | an element closes the array before `]` and continues it after `,` |
| JsonCodec.ParseMembersStep | src/lib/api.ts:132-141 | a `"key":value` closes the object before `}` and continues it after `,` |
| JsonCodec.WriteRoundTrip | src/lib/api.ts:132-141 | every written value, followed by text that does not extend it, reads back as the value and that text |
| JsonCodec.ItemsRoundTrip | src/lib/api.ts:124 | written elements of a non-empty array read back |
| JsonCodec.MembersRoundTrip | src/lib/api.ts:132-141 | written members of a non-empty object read back, in order |
| JsonCodec.StringifyRoundTrip | src/lib/api.ts:132-141 | `JSON.parse(JSON.stringify(v))` is `v` |
| JsonCodec.StringifyArrayRoundTrip | src/lib/api.ts:124 | `JSON.parse(JSON.stringify(xs))` gives `xs` for every array of strings |
| Save.PrependTwice | src/commands/save.ts:46-59 | putting back two groups of words is putting back their concatenation |
| Save.Extract | src/commands/save.ts:38-62 | extraction never adds words |
| Save.ExtractStep | src/commands/save.ts:46-59 | one loop step at index `i`: a flag with a non-empty next word sets its option and drops both; any other word stays |
| Save.NormalizePromptAndOptions | src/commands/save.ts:38-62 | the splice loop gives the trimmed, space-joined remaining words and the options of `Extract` |
| Save.ExtractNoFlags | src/commands/save.ts:46-61 | without option flags, the words and the options are unchanged |
| Save.ExtractCompose | src/commands/save.ts:46-59 | extraction of a concatenation is extraction of each part in turn, when the first part does not end with a flag |
| Save.LastPairWins | src/commands/save.ts:48-58 | a trailing flag pair sets its option whatever came before, and leaves the words and the other option alone |
| Save.TrailingFlagStays | src/commands/save.ts:48-54 | a flag in last position stays a prompt word |
| Save.EmptyValueStays | src/commands/save.ts:48-54 | a flag followed by an empty word stays, and so does the empty word |
| Save.ExtractLeavesNoPair | src/commands/save.ts:46-59 | no flag left among the words is followed by a non-empty word |
| Save.ExtractWithoutPairs | src/commands/save.ts:46-59 | words without such a pair are left unchanged |
| Save.ExtractIdempotent | src/commands/save.ts:38-62 | normalising the result again changes nothing |
| Save.DecodeExport | src/commands/save.ts:201-217 | a capture exactly when the close code is 0, the output parses, `success` holds and `data.har` is non-empty |
| Save.StripEntry | src/commands/save.ts:120-134 | a non-text entry with a truthy body gets the placeholder body; everything else about it is kept; other entries are unchanged |
| Save.FilterEntries | src/commands/save.ts:120-135 | same length, each entry filtered in place |
| Save.StrippedIndicesStep | src/commands/save.ts:118-135 | the stripped positions of a list are those of its prefix plus possibly the last |
| Save.CountStrippedIsCardinality | src/commands/save.ts:118-138 | `filteredCount` is the number of entries whose body was replaced |
| Save.FilterIdempotent | src/commands/save.ts:120-135 | filtering twice is filtering once, and the stripped positions are kept |
| Save.StripBinaryBodies | src/commands/save.ts:118-135 | the loop over the array leaves `FilterEntries` of the old contents and counts as `CountStripped` |
| Save.WithEntries | src/commands/save.ts:120 | the document's entries are the new ones, and the rest of its log (the creator) is unchanged |
| Save.SessionNameFor | src/commands/save.ts:71 | the `--session` option, else the stored session's name |
| Save.ExportAndSubmit | src/commands/save.ts:94-174 | the export is issued first; it fails exactly when the export yields nothing, the capture is invalid exactly when it does not parse, and there are no requests exactly when it parses with no entries; the count printed is the parsed entry count; what is submitted is the capture with its entries filtered, serialised and gzipped, as a multipart upload, and the outcome is the upload's; the session is closed and forgotten exactly on success |
| Save.SavePlan | src/commands/save.ts:64-175 | the guards in order (authentication, prompt, session name) exit before any process runs; the export runs only after them; clean-up exactly on success |
| Save.ExportedCapture | src/commands/save.ts:102-159 | what is submitted is the parsed capture with exactly the binary bodies replaced, counted, sent as a multipart form to the tasks endpoint |
| Save.SubmittedCapture | src/commands/save.ts:64-175 | a capture is submitted only after all three guards pass, and the run is then the export and submission of the resolved session with the trimmed prompt |
| Save.Run | src/commands/save.ts:64-175 | the imperative command gives `SavePlan`, and the session store is cleared exactly when the run clears it |
| Save.ExportFilterSubmit | src/commands/save.ts:94-174 | the steps after the guards give `ExportAndSubmit`; the filter runs in place on an array |
| Add.SpaceEnd | src/commands/add.ts:53-54 | greedy `\s*`: only white space is skipped, and it stops at the first other character |
| Add.LastOnLine | src/commands/add.ts:53-54 | the last position before a bound that is not a line end |
| Add.MatchAt | src/commands/add.ts:53-54 | what it returns is a match of the expression at that line start |
| Add.MatchEndIsLineEnd | src/commands/add.ts:53-54 | a match ends where its line ends |
| Add.MatchAtGreedy | src/commands/add.ts:53-54 | every match at that position stops `\s*` no later than `MatchAt` |
| Add.MatchAtComplete | src/commands/add.ts:53-54 | when `MatchAt` finds nothing, the expression has no match at that position |
| Add.FindFrom | src/commands/add.ts:53-54 | a reported position is a line start where the expression matches |
| Add.FindFromFound | src/commands/add.ts:53-54 | no line start before the reported one matches |
| Add.FindFromNone | src/commands/add.ts:53-54 | when nothing is reported, no line start matches |
| Add.FieldValueIsLeftmostGreedy | src/commands/add.ts:53-54 | the capture comes from the leftmost match, with the longest `\s*` |
| Add.FieldValueNone | src/commands/add.ts:53-54 | no capture means no line matches |
| Add.SkillName | src/commands/add.ts:56 | the trimmed `name:` capture, else `workflow-<id>` |
| Add.FindFromFirst | src/commands/add.ts:53-54 | a match with none at an earlier line start is the one reported |
| Add.NameOnNextLine | src/commands/add.ts:53-56 | for any text whose first `name:` line is blank after the colon, `\s*` crosses the end of that line and the name is the next non-blank line, trimmed |
| Add.OnlyBreaksAfterName | src/commands/add.ts:53-56 | a first `name:` followed only by line ends leaves nothing to capture, so no line start matches |
| Add.BlankNameIsEmpty | src/commands/add.ts:53-56 | for any text whose first `name:` is followed only by white space: an empty name when some of it is not a line end, the `workflow-<id>` fallback otherwise |
| Add.Capitalize | src/commands/add.ts:57 | the first character is upper-cased and the rest kept |
| Add.SkillTitleLaws | src/commands/add.ts:57 | one title word per dash-separated piece, each the piece capitalised, and no dash in the title |
| Add.Inner | src/commands/add.ts:62-64 | `slice(1, -1)`, empty when there are fewer than two characters |
| Add.StripQuotes | src/commands/add.ts:60-65 | one layer of `"` (tried first) or `'` quoting removed, else unchanged |
| Add.StripOneLayer | src/commands/add.ts:60-65 | whatever is inside the quotes, quotes included, comes back |
| Add.LoneQuoteIsEmpty | src/commands/add.ts:61-64 | a lone `"` or `'` both starts and ends with itself and becomes empty |
| Add.Description | src/commands/add.ts:54-65 | the trimmed `description:` capture without its quotes, else empty |
| Add.SuccessLines | src/commands/add.ts:73-80 | the title line, and the description line exactly when there is a description |
| Add.Install | src/commands/add.ts:33-87 | the download request; installation exactly for a skill text with no write error, into `<cwd>/.agents/skills/<name>/SKILL.md`, where cwd is `INIT_CWD` when set; the fetch and status error messages |
| Add.AddPlan | src/commands/add.ts:6-88 | the guards in order (missing id, no token, waitlisted, invalid) each stop before the next request, with their hint line; the download only after a valid token |
| Keys.LongRunFrom | src/commands/keys.ts:33 | a reported position starts twelve characters without a line end |
| Keys.LongRunFirst | src/commands/keys.ts:33 | no earlier position starts such a run |
| Keys.LongRunNone | src/commands/keys.ts:33 | when nothing is reported, no position starts such a run |
| Keys.MaskMatchWithinLine | src/commands/keys.ts:33 | a match cannot run past its line |
| Keys.MaskPieces | src/commands/keys.ts:33 | the masked token is the text before the match, its first eight, `...`, its last four and the text after it |
| Keys.NoEarlierMatch | src/commands/keys.ts:33 | no match starts before a position up to which no twelve-character run starts |
| Keys.MaskIsLeftmostLongest | src/commands/keys.ts:33 | the mask rewrites the leftmost match, extended as far as greedy `.*` goes, into its first eight, `...` and its last four |
| Keys.MaskNoMatch | src/commands/keys.ts:33 | without a match the token is printed unchanged |
| Keys.MaskOneLine | src/commands/keys.ts:33 | a one-line token of twelve or more characters becomes fifteen: eight, `...`, four |
| Keys.ShortTokenUnmasked | src/commands/keys.ts:33 | a token under twelve characters is unchanged |
| Keys.KeyLineLaws | src/commands/keys.ts:32-34 | the row starts with the padded name and padded masked token, and ends with ` (DEFAULT)` exactly for the default key |
| Keys.Rule | src/commands/keys.ts:30 | `"".padEnd(n, "-")` is `n` dashes |
| Keys.KeyLines | src/commands/keys.ts:31-35 | one row per key, in order |
| Keys.KeyTable | src/commands/keys.ts:29-37 | heading, rule, one row per key in order, rule, hint |
| Keys.ListKeys | src/commands/keys.ts:14-41 | no token: exit 1 before any request; `No API keys found.` for an empty list; the table otherwise; the error line on failure with exit 0 |
| Keys.CreateBody | src/commands/keys.ts:53 | the body parses back to an object whose `name` is the key's name |
| Keys.CreateRequest | src/commands/keys.ts:51-54 | a POST to the tokens path with the JSON name body, the JSON content type and the bearer token |
| Keys.CreatedLines | src/commands/keys.ts:56-61 | six lines: heading, 40-dash rule, the name, the token, rule, warning |
| Keys.CreateKey | src/commands/keys.ts:43-65 | no token: exit 1 before any request; otherwise that request, the new key's lines on success, the error line on failure, exit 0 either way |
| Keys.ShowKey | src/commands/keys.ts:67-79 | never a request; no token: exit 1; otherwise the configured token on the third line |
| Check.LinesAppend | src/commands/check.ts:42-59 | the lines of a concatenated list are the lines of each part in turn |
| Check.LinesInOrder | src/commands/check.ts:42-59 | item `i`'s lines come right after those of the items before it |
| Check.InputLines | src/commands/check.ts:43-48 | `  name: type`, with ` (default: …)` exactly when a default is defined, and the indented description line exactly when it is truthy |
| Check.OutputLines | src/commands/check.ts:55-58 | `  name: type`, and the indented description line exactly when it is truthy |
| Check.InputsSection | src/commands/check.ts:40-50 | present exactly for a non-empty input list: header, then each input's lines in order |
| Check.OutputsSection | src/commands/check.ts:52-60 | present exactly for a non-empty output list: header, then each output's lines in order |
| Check.TextSection | src/commands/check.ts:62-70 | the header and the text exactly when the field is truthy |
| Check.AddSection | src/commands/check.ts:72-76 | three lines ending with the indented command exactly when the command is truthy |
| Check.CompletedLines | src/commands/check.ts:39-77 | nothing printed exactly when every section is absent; otherwise it starts with a section header |
| Check.CompletedOrder | src/commands/check.ts:39-77 | each section present starts where the sections before it in the fixed order end |
| Check.PrintStatus | src/commands/check.ts:25-84 | a `Status:` line exactly when not completed; the fixed message for pending, processing and error (`Unknown error` when the error is absent); only the status line for any other state |
| Check.TaskRequest | src/lib/api.ts:167-169 | a GET of `/api/cli/tasks/<id>` with only the bearer header |
| Check.RunCheck | src/commands/check.ts:4-23 | no token: exit 1 before any request; the printed status, or `Failed to check task: <message>` with exit 1 |
| Common.OrElse | src/lib/api.ts:14 | `a \|\| b`: `a` when truthy, else `b` |
| Common.LineEnd | src/commands/add.ts:53 | the end of the line a position is on |
| Common.TrimStart | src/commands/save.ts:61 | a suffix of the input that does not start with white space, and only white space was cut before it |
| Common.TrimEnd | src/commands/save.ts:61 | a prefix of the input that does not end with white space, and only white space was cut after it |
| Common.Trim | src/commands/save.ts:61 | a piece of the input with no white space at either end |
| Common.ContainsAt | src/commands/save.ts:123-126 | a piece found at some position makes `includes` true |
| Common.ContainsWitness | src/commands/save.ts:123-126 | when `includes` is true the piece occurs at some position |
| Common.NatToString | src/commands/keys.ts:34 | a number renders as one or more decimal digits |
| Common.NatToStringValue | src/commands/keys.ts:34 | the digits denote the number, and start with `0` only for `0` itself |
| Common.IntToStringValue | src/lib/api.ts:39 | a rendered integer starts with `-` exactly when negative, and its digits denote its magnitude |
| Common.SplitLaws | src/commands/add.ts:57 | one more piece than separators, no separator in a piece, joining gives the input back |
| Common.JoinAvoids | src/commands/add.ts:57 | a character in no piece and not in the separator is not in the join |
| Common.LowerString | src/lib/config.ts:54 | lower-cases each character, keeping the length |
| Common.PadEnd | src/commands/keys.ts:34 | the input followed by spaces up to the width |

## Left out

- Locating the browser tool's script (`getGrabbitBrowsePath`), process spawning, stdio streaming and the 200 ms settle delay. The exit of each invocation is a parameter.
- `gzipSync` and the size report in megabytes. The report uses floating-point `toFixed`, and the compressed bytes are opaque.
- `JSON.parse` and `JSON.stringify` of the capture and of replies. The capture is a datatype, and parsing and printing it are function parameters.
- JsonCodec.ParseValue: the parser reads the compact text the writer emits. White space between tokens, `true`/`false`/`null`, negative and fractional numbers and exponents are not modelled, because no value the CLI sends contains them.
- `fetch`, and the probing for `FormData` and `Blob`. The model outputs the request, the reply is an input, and the runtime capability is a flag.
- URL parsing in `isLocalhost`. The hostname is an input. For IPv6 the parser's hostname is bracketed (`[::1]`), which is library behaviour.
- Case mapping: `toLowerCase` and `toUpperCase` map only ASCII letters. For the two tests that depend on them (`waitlist`, the local host names), full Unicode mapping gives the same verdict.
- Lengths count code points, not UTF-16 units (`padEnd`, `.{8}`, `slice`).
- `path.join` and `path.resolve`. Add.TargetDir concatenates with `/` and does not normalise `.` or `..` segments.
- The `--step` option and `deriveAgentStepsFromHarEntries`. `src/commands/save.ts` defines neither, so `save` submits without agent steps.
- `src/index.ts` (command dispatch), `src/commands/skill.ts`, `src/commands/skill-install.ts`, `src/commands/auth.ts`, `src/commands/validate.ts` and `src/commands/workflows.ts` are not part of this model.
- Two invocations racing on the session file.
- Standard-error text is modelled as error kinds, not lines, in `Save` and `Add`.
- Standard output that only reports progress is not modelled: `Exporting HAR…`, `Captured N request(s)`, the optimisation note, the submission lines, and `Starting HAR recording…`.
- The `default` of a task input is given as the text its template rendering produces, because the value is of unknown type.
- Save.Run: when the parsed capture has no `log` object, `log.entries` counts as empty, as in the source. A `log.entries` that is present but is not an array is not modelled.
- Api.TaskJsonBody: `JSON.stringify` of a `Uint8Array` gives an object keyed by the indices (`{"0":31,"1":139,…}`), not a string. The model writes `harContent` that way (Api.BytesJson) when bytes go by the JSON transport, which only an explicit `transport: "json"` with byte content selects; no command does that.
- Keys.Token: `rate_limit` is a JavaScript `number`, modelled as an integer. Fractional, `NaN` and infinite rates, which the row would print with `String(number)`, are not modelled.
- Api.PrepareRequest: a request without an explicit method is modelled as `GET`, the default of `fetch`.
- Common.Trim: it states that the result is a white-space-free slice of the input, which is weaker than the source's promise. The exact cut is stated by TrimStart and TrimEnd.
