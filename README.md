# microcore core, modelled in Dafny

This project models five pieces of the microcore HTTP server (Go), each in the
form the Go code has, and proves what the code promises about them.

- **The routing-pattern compiler** (`pkg/dvurl/urlparse.go`, modules `MaskSpec`,
  `DvUrl`, `MaskProps`). `cutOffFixedParts` and `ConvertSingleMask` turn one
  pattern such as `!<api/*/{id}` into a `MaskInfo`:
  - the negative and case flags;
  - a literal `FixedStart` and a literal `FixedEnd`;
  - a `Middle` list of wildcard runs, regexes, `{name}` captures, `{{cond}}`
    conditions and literal words.

  `ScanNamedIds` lists the capture names, and `PreparseMaskExpressions` compiles
  a list of patterns. `DvUrl` has the index loops of the Go code as methods.
  `MaskSpec` defines the same compiler as functions, one per phase and one per
  branch of the scan. Each method is proved to compute its function, and
  `MaskProps` proves the promised properties of those functions.
- **Server configuration** (`pkg/dvconfig/processing.go`, modules `DvConfig`,
  `Grouping` and `Registry`):
  - the rewrite map, which groups rules by their first path segment;
  - the one-element header lists;
  - normalisation of the CORS max-age and credentials settings;
  - the header maps filled from those settings;
  - first-wins registration of host servers.
- **Action registry** (`pkg/dvmodules/dvactions.go`, module `DvModules`):
  - named processors, each registered once;
  - firing an action by its type;
  - grouping end-point actions into one pool per HTTP verb;
  - looking up the pool for a request's verb.
- **Database connections** (`pkg/dvdbdata/connection.go`, module `DvDbData`):
  - parsing the `<sql name>,<connection string>` definitions;
  - kind masks of the drivers;
  - a bounded, last-in-first-out pool of idle handles per connection name,
    filled by `Close` and emptied by `GetDBConnection`.
- **Expression compile cache** (`pkg/dvgrammar/evaluator.go`, module
  `DvGrammar`):
  - `Compile`, which stops at the first error;
  - the cache `CompileOrCache` creates lazily;
  - `FastEvaluation`, which uses the cache only when the visitor options ask
    for it.

Module `Text` holds the parts of Go's `strings` and `strconv` packages that the
code calls, and `Wrappers` holds `Option` and `Result`.

The backward scan for `FixedEnd` (`pkg/dvurl/urlparse.go:69-73`) stops only at
`?`, `*`, a backtick or `$`, never at `{`. So `/api/{id}` compiles to
`FixedStart` `api/`, `FixedEnd` `{id}` and an empty `Middle`: the braces stay
literal text rather than becoming a capture (`MaskProps.ApiId`).

## Model

| member | source | states |
|---|---|---|
| MaskSpec.ModifierRunLength | pkg/dvurl/urlparse.go:19-32 | the leading run consists of blanks, `!`, `<` and `>` only and is maximal |
| MaskSpec.TrimTrailing | pkg/dvurl/urlparse.go:37-47 | the result is a prefix of its input, what it drops is blanks and slashes, and it does not itself end in one |
| MaskSpec.FirstSpecialFrom | pkg/dvurl/urlparse.go:49-61 | the forward scan stops at the first `?`, `*`, `{`, backtick or `^`, or at the end |
| MaskSpec.LiteralScan | pkg/dvurl/urlparse.go:48-64 | when the scan ends outside a skipped stretch, the kept text ends with the last character read (which characters are kept: MaskProps.LiteralScanKeepsSolid, LiteralScanCollapses and LiteralScanBlank) |
| MaskSpec.LastStopEnd | pkg/dvurl/urlparse.go:69-73 | the cut point has a stop character (or nothing) before it and no stop character after it |
| MaskSpec.LastStopEndUnique | pkg/dvurl/urlparse.go:69-88 | that cut point is the only one with this property |
| MaskSpec.MiddleTextShaped | pkg/dvurl/urlparse.go:86-88 | the text left for the middle scan is empty or ends in `?`, `*`, a backtick or `$`, so the `data[i]` lookahead of line 153 stays in bounds |
| MaskSpec.QuantRunEnd | pkg/dvurl/urlparse.go:103-116 | the run of `?`/`*` ends at the first other character or at the end |
| MaskSpec.QuantStep | pkg/dvurl/urlparse.go:98-118 | a `?`/`*` run becomes exactly one part, built from the whole run, and the scan resumes right after the run |
| MaskSpec.RegexStep | pkg/dvurl/urlparse.go:119-147 | a regex step either ends the scan or resumes it strictly after the opening delimiter, leaving `FixedEnd` alone |
| MaskSpec.RegexStepFound | pkg/dvurl/urlparse.go:127-146 | with a closer, the scan resumes right after the FIRST closer; a backtick regex drops both delimiters from its text, a `^...$` regex keeps them |
| MaskSpec.RegexStepMissing | pkg/dvurl/urlparse.go:128-136 | without a closer, the regex text is the rest of the mask followed by `FixedEnd` (and `$` for a `^` regex), `FixedEnd` is emptied and the scan ends |
| MaskSpec.BlockStep | pkg/dvurl/urlparse.go:158-171 | a block step resumes the scan no earlier than where the block text starts and never ends it |
| MaskSpec.BlockStepFound | pkg/dvurl/urlparse.go:158-171 | with a closer, the block text runs up to the FIRST closer and becomes one part (Min 1, Max MaxCharsForStar, Data = Condition = that text); the scan resumes right after the closer |
| MaskSpec.BlockStepMissing | pkg/dvurl/urlparse.go:158-162 | without a closer nothing is emitted and the scan resumes where the block text starts |
| MaskSpec.BraceStep | pkg/dvurl/urlparse.go:148-172 | a brace (`{{` condition block or `{` slash-aware capture) never ends the scan, always advances past the brace and leaves `FixedEnd` alone |
| MaskSpec.WordStep | pkg/dvurl/urlparse.go:173-183 | a literal word is non-empty, holds no special character, and runs up to the next special character |
| MaskSpec.NextStep | pkg/dvurl/urlparse.go:95-185 | every branch of the scan strictly advances or ends the scan |
| MaskSpec.MiddleFrom | pkg/dvurl/urlparse.go:95-185 | the scan of the middle text leaves the literal suffix as it found it or empties it (an unterminated regex takes it in) |
| MaskSpec.CompileMask | pkg/dvurl/urlparse.go:92-187 | the compiled mask keeps the flags and FixedStart of the first pass, and keeps its FixedEnd or empties it |
| MaskSpec.CompileAll | pkg/dvurl/urlparse.go:201-209 | one mask per pattern |
| MaskSpec.CompileAllAt | pkg/dvurl/urlparse.go:205-207 | the k-th mask is the k-th pattern compiled on its own |
| MaskSpec.CompileAllSnoc | pkg/dvurl/urlparse.go:205-207 | one more pattern appends exactly its own mask |
| DvUrl.SkipModifiers | pkg/dvurl/urlparse.go:19-32 | the loop stops at the end of the modifier run, and reports whether a `!` occurs in it and the case flag the run leaves |
| DvUrl.TrimTrailingBlanks | pkg/dvurl/urlparse.go:37-47 | the loop finds the length of the pattern without its trailing blanks and slashes |
| DvUrl.StripEnds | pkg/dvurl/urlparse.go:19-47 | the modifier flags and the body match their specification functions |
| DvUrl.StartStep | pkg/dvurl/urlparse.go:50-60 | one character of the forward scan keeps the pending text in step with LiteralScan |
| DvUrl.ScanFixedStart | pkg/dvurl/urlparse.go:48-64 | the forward loop stops at the first special character, and FixedStart is the literal scan of what precedes it |
| DvUrl.FixedEndStep | pkg/dvurl/urlparse.go:70-81 | one step of the backward loop keeps FixedEnd equal to the collapsed text after the cut and strictly moves left |
| DvUrl.ScanBackward | pkg/dvurl/urlparse.go:69-82 | the backward loop stops on a stop character or before the start, with no stop character after it |
| DvUrl.ScanFixedEnd | pkg/dvurl/urlparse.go:69-85 | FixedEnd is the text after the last stop character with doubled slashes collapsed |
| DvUrl.SlashRunStart | pkg/dvurl/urlparse.go:76-79 | the inner loop finds the start of the run of slashes |
| DvUrl.CollapsePlain | pkg/dvurl/urlparse.go:74-75 | a stretch with no doubled slash is copied into FixedEnd unchanged |
| DvUrl.CollapseSlashRun | pkg/dvurl/urlparse.go:75-80 | skipping a run of slashes does not change the collapsed text |
| DvUrl.CutOffFixedParts | pkg/dvurl/urlparse.go:15-90 | the method returns exactly the specified flags, FixedStart, FixedEnd and remaining text |
| DvUrl.ScanQuantifier | pkg/dvurl/urlparse.go:98-118 | the quantifier loop consumes the whole run and builds its part from it |
| DvUrl.HasDoubleStarSnoc | pkg/dvurl/urlparse.go:108-111 | a run has `**` exactly when a shorter run did or a `*` follows a `*` |
| DvUrl.ScanRegex | pkg/dvurl/urlparse.go:119-147 | the regex branch, including the in-place extension of the text when the closer is missing, matches RegexStep |
| DvUrl.RegexTextMissing | pkg/dvurl/urlparse.go:128-132 | with no closer, the regex text is the rest of the mask plus FixedEnd and the closer |
| DvUrl.RegexTextFound | pkg/dvurl/urlparse.go:133-136 | with a closer, the regex text runs up to it |
| DvUrl.AppendRegex | pkg/dvurl/urlparse.go:136-145 | an empty text adds nothing, a text that does not compile adds the `?? Error ??` word, any other adds a regex part |
| DvUrl.ScanBlock | pkg/dvurl/urlparse.go:158-171 | the block loop matches BlockStep |
| DvUrl.ScanBrace | pkg/dvurl/urlparse.go:148-172 | the brace branch matches BraceStep |
| DvUrl.ScanWord | pkg/dvurl/urlparse.go:173-183 | the word loop stops at the next special character and emits the literal between |
| DvUrl.StepBoundary | pkg/dvurl/urlparse.go:95-118 | no branch stops just after a `*` in front of a `?` or `*`, so each quantifier run is scanned whole |
| DvUrl.RegexBoundary | pkg/dvurl/urlparse.go:146 | a regex branch that finds its closer resumes right after it |
| DvUrl.BraceBoundary | pkg/dvurl/urlparse.go:159-171 | a brace branch resumes where the block starts or right after a `}` |
| DvUrl.BlockBoundary | pkg/dvurl/urlparse.go:171 | a block resumes right after its closer |
| DvUrl.ScanBranch | pkg/dvurl/urlparse.go:96-184 | the switch of ConvertSingleMask does what NextStep specifies |
| DvUrl.StepGlue | pkg/dvurl/urlparse.go:95-185 | the parts appended so far plus those the scan appends after a branch are what the scan promised before it |
| DvUrl.ScanStep | pkg/dvurl/urlparse.go:95-185 | one turn of the loop keeps the flags and FixedStart and advances towards the specified Middle and FixedEnd |
| DvUrl.ConvertSingleMask | pkg/dvurl/urlparse.go:92-187 | the imperative compiler returns exactly CompileMask of its pattern |
| DvUrl.ScanNamedIds | pkg/dvurl/urlparse.go:189-199 | nil gives no names; otherwise the names are the non-empty Data of the slash-aware parts, in order |
| DvUrl.PreparseMaskExpressions | pkg/dvurl/urlparse.go:201-209 | a newly allocated array holding the patterns compiled one by one, in order |
| MaskProps.CaseFlagUnset | pkg/dvurl/urlparse.go:25-28 | the case flag stays unset exactly when the run has no `<` or `>` |
| MaskProps.CaseFlagLastMark | pkg/dvurl/urlparse.go:25-28 | otherwise the last `<` or `>` decides it: `<` gives -MatchCaseInsensitive, `>` gives +MatchCaseInsensitive |
| MaskProps.NegativeIffBang | pkg/dvurl/urlparse.go:23-24 | the mask is negative exactly when a `!` occurs in the modifier run |
| MaskProps.BodyIsSlice | pkg/dvurl/urlparse.go:33-47 | the text scanned is the stretch between the modifiers and the trailing blanks and slashes |
| MaskProps.LiteralScanShape | pkg/dvurl/urlparse.go:48-64 | the literal prefix does not start with a blank or slash, holds no doubled slash, and takes its characters from the pattern |
| MaskProps.LiteralScanKeepsSolid | pkg/dvurl/urlparse.go:48-64 | every character that is neither a blank nor a slash is kept, in order: the scan drops only blanks and slashes |
| MaskProps.LiteralScanCollapses | pkg/dvurl/urlparse.go:48-64 | for a text without blanks, the kept text is the text after its leading slashes with each run of slashes collapsed to one; the scan is skipping exactly after the leading slashes or a doubled slash |
| MaskProps.LiteralScanBlank | pkg/dvurl/urlparse.go:51-52 | a blank read while skipping (after the leading run or a doubled slash) is dropped; any other blank is kept |
| MaskProps.FixedStartShape | pkg/dvurl/urlparse.go:48-64 | FixedStart holds no `?`, `*`, `{`, backtick or `^`, no doubled slash, and does not start with a blank or slash |
| MaskProps.LiteralPattern | pkg/dvurl/urlparse.go:48-68 | a pattern without special characters goes wholly into FixedStart, with empty FixedEnd and Middle |
| MaskProps.CollapseShape | pkg/dvurl/urlparse.go:74-81 | collapsing leaves no doubled slash and adds no stop character |
| MaskProps.FixedEndShape | pkg/dvurl/urlparse.go:69-88 | FixedEnd of the compiled mask holds no `?`, `*`, backtick or `$`, and no doubled slash |
| MaskProps.CountQIsCount | pkg/dvurl/urlparse.go:105-107 | the Min of a run is its number of `?` |
| MaskProps.QuantMaxNoStar | pkg/dvurl/urlparse.go:105-112 | with no `*`, Max equals Min |
| MaskProps.QuantMaxAfterStar | pkg/dvurl/urlparse.go:105-112 | with a `*`, Max is MaxCharsForStar plus the number of `?` after the last `*` |
| MaskProps.StepWordsClean | pkg/dvurl/urlparse.go:141-182 | every word part one branch emits is the error marker or a non-empty literal free of special characters |
| MaskProps.BlockKind | pkg/dvurl/urlparse.go:151-170 | a block emits parts of its own kind only |
| MaskProps.MiddleWordsClean | pkg/dvurl/urlparse.go:95-185 | the same holds for the whole middle scan |
| MaskProps.WordsCleanAppend | pkg/dvurl/urlparse.go:117-182 | appending parts keeps the word parts clean |
| MaskProps.CompiledWordsClean | pkg/dvurl/urlparse.go:92-187 | every word part of a compiled mask is the error marker or a non-empty literal with no `?`, `*`, `{`, backtick or `^` |
| MaskProps.NamedIdsAppend | pkg/dvurl/urlparse.go:192-196 | the names of two runs of parts are those of the first, then those of the second |
| MaskProps.NamedIdsAreCaptures | pkg/dvurl/urlparse.go:193-194 | every name is the non-empty Data of a slash-aware part |
| MaskProps.LiteralApi | pkg/dvurl/urlparse.go:48-64 | the literal scan of `/api/` drops the leading slash and keeps the trailing one |
| MaskProps.ApiSplit | pkg/dvurl/urlparse.go:19-68 | `/api/{id}` has no modifiers and its literal prefix ends before `{` |
| MaskProps.ApiSuffix | pkg/dvurl/urlparse.go:69-85 | `{id}` has no stop character, so it is all literal suffix |
| MaskProps.ApiId | pkg/dvurl/urlparse.go:15-187 | `/api/{id}` compiles to FixedStart `api/`, FixedEnd `{id}` and no Middle part |
| Grouping.GroupSnoc | pkg/dvconfig/processing.go:34 | appending an element grows only its own group, by exactly that element |
| Grouping.GroupOfAbsentKey | pkg/dvconfig/processing.go:34 | a key that never occurs has an empty group |
| Grouping.GroupOfPresentKey | pkg/dvconfig/processing.go:34 | a key that occurs has a non-empty group |
| Grouping.GroupContains | pkg/dvmodules/dvactions.go:51-56 | every element is found in the group of its own key |
| Grouping.GroupedSnoc | pkg/dvconfig/processing.go:34 | the grouping of `xs + [x]` is that of `xs` with `x` appended under its key, the key created if new |
| Grouping.GroupedStep | pkg/dvmodules/dvactions.go:51-56 | the same step, stated for a loop by index |
| DvConfig.RewriteKeyShape | pkg/dvconfig/processing.go:22-28 | at most one leading slash is dropped, and the key is the path up to its first slash |
| DvConfig.RewriteItemShape | pkg/dvconfig/processing.go:29-34 | the stored url starts with `/`; the rule is a prefix rule exactly when `"/"` plus the path ends in `*`, and exactly that star is removed |
| DvConfig.RewriteOfApiStar | pkg/dvconfig/processing.go:22-33 | `/api*` is a prefix rule keyed `api*` with url `/api` |
| DvConfig.RewriteEntry | pkg/dvconfig/processing.go:22-34 | the loop body computes the rule's key and item |
| DvConfig.PrepareComRewriteMap | pkg/dvconfig/processing.go:19-37 | the map is the order-preserving grouping of the rules by key |
| DvConfig.RewriteMapKeys | pkg/dvconfig/processing.go:19-37 | every key holds at least one item, and every rule's key is present |
| DvConfig.PrepareMapOfStringArrays | pkg/dvconfig/processing.go:39-45 | the key set is unchanged and each key maps to the one-element list of its value |
| DvConfig.OneElementLists | pkg/dvconfig/processing.go:39-45 | the key set is unchanged |
| DvConfig.NormalMaxAge | pkg/dvconfig/processing.go:48-54 | the max age is trimmed and kept only when strconv.Atoi accepts it |
| DvConfig.NormalCredentials | pkg/dvconfig/processing.go:55-63 | credentials become `true` exactly when they trim to `true`, and `""` otherwise |
| DvConfig.NormalMaxAgeIdempotent | pkg/dvconfig/processing.go:48-54 | normalising the max age twice is normalising it once |
| DvConfig.NormalCredentialsIdempotent | pkg/dvconfig/processing.go:55-63 | normalising credentials twice is normalising them once |
| DvConfig.ApplyOverlays | pkg/dvconfig/processing.go:89-124 | writing entries in order leaves every name to its last write, and the base map decides the rest |
| DvConfig.InfoOfOverlays | pkg/dvconfig/processing.go:71-124 | each header map is the user's headers as one-element lists, overlaid with the entries the settings call for: max age in the two options maps, credentials in all four, cache control, exposed and allowed headers, an empty methods list, and the origin list in the three special maps |
| DvConfig.DvHostServer.constructor | pkg/dvconfig/processing.go:135-141 | a server holds the given settings |
| DvConfig.NormalizeSettings | pkg/dvconfig/processing.go:48-63 | the two settings are overwritten in place with their normal forms |
| DvConfig.UserHeaders | pkg/dvconfig/processing.go:71-74 | each header map starts as the one-element lists of the user's headers |
| DvConfig.FillStatic | pkg/dvconfig/processing.go:93-107 | HeadersStatic gets credentials, cache control and the exposed headers, in source order |
| DvConfig.FillStaticOptions | pkg/dvconfig/processing.go:89-115 | HeadersStaticOptions gets max age, credentials, the allowed headers and an empty allowed-methods list |
| DvConfig.FillExtraServer | pkg/dvconfig/processing.go:93-103 | HeadersExtraServer gets credentials and cache control |
| DvConfig.FillExtraServerOptions | pkg/dvconfig/processing.go:89-98 | HeadersExtraServerOptions gets max age and credentials |
| DvConfig.MarkOrigin | pkg/dvconfig/processing.go:116-120 | a present origin list gets HEADERS_SET_ORIGIN_ALWAYS exactly when `*` is allowed, and HEADERS_SET_ORIGIN otherwise |
| DvConfig.FillSpecial | pkg/dvconfig/processing.go:104-124 | the special maps get the exposed headers, the allowed headers and methods, and the origin list in all three |
| DvConfig.FillInfo | pkg/dvconfig/processing.go:64-124 | everything computed after normalisation is InfoOf the settings |
| DvConfig.PrepareMicroCoreInfo | pkg/dvconfig/processing.go:47-128 | the server's settings are normalised in place, and the info is derived from the original settings |
| DvConfig.HostsOf | pkg/dvconfig/processing.go:136 | the split of the trimmed hosts always has at least one piece |
| DvConfig.OmittedIffBlank | pkg/dvconfig/processing.go:136-140 | a host server is skipped exactly when its Hosts setting is blank |
| DvConfig.InfoFn | pkg/dvconfig/processing.go:141 | the info function gives each server the info prepared from its own settings |
| DvConfig.RegisterServer | pkg/dvconfig/processing.go:136-148 | one pass of the loop: a skipped server adds nothing, otherwise its hosts not yet present are added |
| DvConfig.RegisterHostServers | pkg/dvconfig/processing.go:134-149 | the host map is built first-claim-wins over the servers in order |
| DvConfig.HostRegisteredIffClaimed | pkg/dvconfig/processing.go:135-149 | a host is in the host map exactly when some host server that is not skipped lists it |
| DvConfig.HostServedByFirstClaimant | pkg/dvconfig/processing.go:142-147 | a host is served with the info of the first server that lists it; later duplicates are ignored |
| DvConfig.ProcessBaseFolder | pkg/dvconfig/processing.go:131-152 | nothing happens without servers. Otherwise the default server keeps all its settings except the normalised max age and credentials, and the default info and the first-wins host map are handed on |
| Registry.AddHosts | pkg/dvconfig/processing.go:142-148 | the hosts are added, hosts already present keep their info, and new hosts get the server's info |
| Registry.RegisterHosts | pkg/dvconfig/processing.go:142-148 | the inner loop computes AddHosts |
| Registry.ClaimedStep | pkg/dvconfig/processing.go:135-149 | one more server grows the map by its hosts, unless it is skipped |
| Registry.ClaimedHosts | pkg/dvconfig/processing.go:135-149 | a host is registered exactly when some server claims it |
| Registry.ClaimedFirstWins | pkg/dvconfig/processing.go:142-147 | a host is served with the info of the first server that claims it |
| DvModules.ActionRegistry.RegisterActionProcessor | pkg/dvmodules/dvactions.go:18-27 | a new name is stored and answered true; a taken name leaves the map unchanged and is answered false when silent, otherwise with the panic's message |
| DvModules.ActionRegistry.FireAction | pkg/dvmodules/dvactions.go:29-37 | the action is always recorded in the request; an unregistered type gives false, otherwise the processor's answer |
| DvModules.ActionRegistry.UrlActionVerifier | pkg/dvmodules/dvactions.go:61-66 | the url parameters are set from the matcher's keys before the action is fired |
| DvModules.RegisterThenFire | pkg/dvmodules/dvactions.go:18-37 | an action of a newly registered type reaches that processor |
| DvModules.VerbOf | pkg/dvmodules/dvactions.go:47-50 | the loop computes the verb key: trimmed, upper-cased, GET when blank |
| DvModules.RegisterIntoPools | pkg/dvmodules/dvactions.go:44-57 | the pools are the order-preserving grouping of the actions by verb key |
| DvModules.RegisterEndPointActions | pkg/dvmodules/dvactions.go:39-59 | there is no handler exactly when there are no actions; otherwise the pools group the actions by verb key |
| DvModules.LookupPool | pkg/dvmodules/dvactions.go:70-74 | a pool is found exactly when the upper-cased, untrimmed request verb is a key |
| DvModules.HandleRequest | pkg/dvmodules/dvactions.go:69-78 | a request whose verb has no pool is refused |
| DvModules.ActionFoundUnderItsMethod | pkg/dvmodules/dvactions.go:44-74 | a request whose verb upper-cases to an action's key finds a pool holding that action |
| DvModules.PoolsHoldTheirMethod | pkg/dvmodules/dvactions.go:51-56 | every pool is non-empty and holds only actions with the pool's verb key |
| DvModules.GroupMembers | pkg/dvmodules/dvactions.go:51-56 | a group holds only actions with its key |
| DvModules.MethodKeyHasNoLeadingSpace | pkg/dvmodules/dvactions.go:47-50 | a verb key is non-empty and never starts with white space |
| DvModules.UntrimmedMethodFindsNoPool | pkg/dvmodules/dvactions.go:70-74 | because the request verb is not trimmed, one that starts with white space finds no pool |
| DvModules.PaddedGetKey | pkg/dvmodules/dvactions.go:47 | an action declared with verb ` get ` is served under GET |
| DvModules.LowerCaseGetFindsPaddedGet | pkg/dvmodules/dvactions.go:47-74 | a request with verb `get` reaches an action declared with verb ` get ` |
| DvDbData.Lookup | pkg/dvdbdata/connection.go:32 | a missing property reads as the empty string |
| DvDbData.ParseConnection | pkg/dvdbdata/connection.go:31-45 | an empty definition is the missing-definition error; success exactly when the first comma is past index 0 and both sides are non-blank, with trimmed parts; any other failure is the malformed-definition error |
| DvDbData.ParseDefinition | pkg/dvdbdata/connection.go:33-45 | the checks in source order compute ParseConnection |
| DvDbData.ParseOfDefinition | pkg/dvdbdata/connection.go:38-45 | a well-formed `name,conn` parses back into its two parts |
| DvDbData.GetConnectionKindMask | pkg/dvdbdata/connection.go:67-77 | `oracle` maps to SqlOracleLike, `postgres` to SqlPostgresLike, anything else to 0, each in both directions |
| DvDbData.ConnectionTypeOfDefinition | pkg/dvdbdata/connection.go:58-65 | for a valid definition, the type is the kind mask of its sql name |
| DvDbData.ConnectionTypeWithoutComma | pkg/dvdbdata/connection.go:58-65 | a property without a comma is taken whole and untrimmed as the driver name |
| DvDbData.ConnectionTypeAtFirstComma | pkg/dvdbdata/connection.go:58-65 | the first comma decides: the trimmed text before it names the driver, and a comma in first place leaves the whole property, untrimmed |
| DvDbData.GetDBConnectionDirect | pkg/dvdbdata/connection.go:30-52 | on failure nil, `""` and the error, properties untouched; on success a fresh open handle, the sql name, and the property `prefix + connName` set to the sql name |
| DvDbData.OpenOutcome | pkg/dvdbdata/connection.go:30-49 | a malformed definition gives the parse error as is; success means the definition parsed and sql.Open reported nothing; otherwise the open error becomes OpenFailed with the name and definition |
| DvDbData.DBConnection.constructor | pkg/dvdbdata/connection.go:95-96 | the kind is lower-cased and the kind mask derived from it |
| DvDbData.ConnectionPool.Pop | pkg/dvdbdata/connection.go:83-91 | an empty pool gives nil; otherwise the top handle is removed, last in first out |
| DvDbData.ConnectionPool.Push | pkg/dvdbdata/connection.go:111-121 | a handle is stored on top exactly when `amount < MaxConnections`; the pool never exceeds MaxConnections |
| DvDbData.TakeIdle | pkg/dvdbdata/connection.go:82-91 | the top idle handle of the name is taken with the pool's driver; other names are untouched |
| DvDbData.Connect | pkg/dvdbdata/connection.go:92-97 | a pooled handle is used as it is; otherwise the direct connection's outcome is returned |
| DvDbData.GetDBConnection | pkg/dvdbdata/connection.go:79-98 | the most recently pooled handle when there is one, else a direct connection; the kind is lower-cased and the mask derived; a connection is returned even with an error |
| DvDbData.PoolOf | pkg/dvdbdata/connection.go:101-110 | the name's pool, created empty with the connection's driver on first use |
| DvDbData.PushIdle | pkg/dvdbdata/connection.go:111-121 | the handle goes on top exactly when the pool has room; other names are untouched |
| DvDbData.ReturnHandle | pkg/dvdbdata/connection.go:100-121 | find or create the pool, then push when there is room |
| DvDbData.BackToPool | pkg/dvdbdata/connection.go:100-125 | the handle is pooled and let go while the pool has room, and closed otherwise; idle counts stay within MaxConnections |
| DvDbData.ReturnToPool | pkg/dvdbdata/connection.go:132-134 | the handle is given back to the pool, and the connection no longer holds it |
| DvDbData.Close | pkg/dvdbdata/connection.go:127-137 | nothing happens for nil; forced closes the handle without pooling; unforced pools or closes it; the handle is nil afterwards and the error is nil |
| DvDbData.CloseThenGet | pkg/dvdbdata/connection.go:79-137 | a connection closed into a pool with room is exactly the one the next GetDBConnection gets, and the pools end as they began |
| DvGrammar.Compile | pkg/dvgrammar/evaluator.go:7-18 | success exactly when tokenizing and building both succeed; a tokenizer error is returned first, otherwise the builder's error or tree |
| DvGrammar.Evaluate | pkg/dvgrammar/evaluator.go:41-51 | a compile error is returned without executing; otherwise the execution's result |
| DvGrammar.GrammarRules.CompileOrCache | pkg/dvgrammar/evaluator.go:20-39 | without caching it returns Compile and leaves the cache alone; with caching the cache is created lazily, a hit returns the stored tree, and a miss returns Compile and stores only a successful tree |
| DvGrammar.CachedCompileIsCompile | pkg/dvgrammar/evaluator.go:20-39 | a consistent cache is transparent: the result is Compile's, and the cache stays consistent |
| DvGrammar.CompileTwice | pkg/dvgrammar/evaluator.go:28-38 | with caching on, a text that compiled successfully once gets the very same tree the second time |
| DvGrammar.FastEvaluation | pkg/dvgrammar/evaluator.go:41-52 | without the cache flag the result is the uncached evaluation and the cache is untouched. With it the cache exists afterwards. A hit runs the cached tree and leaves the cache as it was. A miss gives the uncached evaluation and adds the tree when it compiles, else leaves the cache as it was. With a consistent cache the result is always the uncached evaluation and the cache stays consistent |
| Text.TrimSpace | pkg/dvconfig/processing.go:48 | the result is the stretch of the input that starts at its first non-white-space character and has only white space after it; it has no white space at either end, and is empty exactly when the input is all white space |
| Text.TrimSpaceIdempotent | pkg/dvconfig/processing.go:48-55 | trimming twice is trimming once |
| Text.PaddedTrim | pkg/dvmodules/dvactions.go:47 | one blank on each side of a trimmed word is dropped |
| Text.IndexChar | pkg/dvdbdata/connection.go:38 | the first position of the character, or -1 exactly when it is absent |
| Text.Index | pkg/dvurl/urlparse.go:158 | the first position where the text occurs, or -1 exactly when it occurs nowhere |
| Text.IndexOfOneChar | pkg/dvurl/urlparse.go:127 | for a one-character needle, Index and IndexChar agree |
| Text.Split | pkg/dvconfig/processing.go:26 | the pieces join back to the input and contain no separator |
| Text.SplitHead | pkg/dvconfig/processing.go:26-28 | the first piece is the text before the first separator |
| Text.ToUpper | pkg/dvmodules/dvactions.go:47-70 | same length, each character upper-cased |
| Text.ToLower | pkg/dvdbdata/connection.go:95 | same length, each character lower-cased |
| Text.AtoiAcceptsShort | pkg/dvconfig/processing.go:50 | Atoi accepts an optional sign followed by one to eighteen decimal digits |
| Text.AtoiRejectsNonDigit | pkg/dvconfig/processing.go:50 | Atoi rejects a text with any character that is neither a digit nor a leading sign |

## Left out

- Logging (`log.Printf`) is a side effect with no content to model.
- `http.HandleFunc` and `dvcom.MakeDefaultHandler` are HTTP wiring. ProcessBaseFolder returns the default info and host map it would hand to them.
- Several builders are outside this model: `dvcom.GetPurePath`, `dvcom.PrepareProxyName`, `dvparser.ConvertToNonEmptyList`, `dvprocessors.*` and `dvproviders.*`.
  - MicroCoreInfo keeps only the fields this file computes.
  - The access lists of `dvcom.PrepareAccessControlLists` are a parameter (`lists`).
  - `ConvertToNonEmptyList` is the parameter `split` of PreparseMaskExpressions.
- The handlers `RegisterEndPointHandlers` and `RegisterEndPointActions` that prepareMicroCoreInfo stores are not part of MicroCoreInfo here. RegisterEndPointActions is modelled on its own.
- `regexp.Compile` is the parameter `compiles`. A compiled regex is identified by its source text.
- `RequestContext.SetUrlInlineParameters` is not part of this model. UrlActionVerifier takes it to replace the context's `UrlParameters` with the matcher's keys.
- The url matcher (`dvurl.UrlSearch`, `UrlPool`, `RegisterHandlerFunc`) is not part of this model.
  - A pool is the ordered list of its registrations.
  - The search is the parameter `search` of HandleRequest.
- Processors are functions of what they see of the request. Their side effects on the request are not modelled.
- `Tokenize`, `buildExpressionTree`, `ExecuteExpression` and `fullTreeClean` are not part of this model.
  - The first three are the parameters `tokenize`, `build` and `execute`.
  - `fullTreeClean` frees memory and is left out.
  - `CheckCreateGrammarTable` is left out.
  - ExecuteExpression's value and error pair is one Result.
- DvGrammar.GrammarRules.CompileOrCache: that a cache hit does not call Compile is not stated, because the pure compile function has no observable call.
- `sql.Open` is the parameter `openError`: the error it gives for a driver and connection string, if any. Queries (`Query`, `Exec`), `GetDefaultDbConnection` and the reading of `dvparser.GlobalProperties` are left out.
  - GetConnectionType takes the property map as an argument.
  - GetDBConnectionDirect writes to a Properties object.
  - `propertyDefaultKind` is the parameter `defaultKindPrefix`.
- Errors are values of ConnectionError. Message renders them with the texts of the source.
- The mutexes and double-checked locking are left out. The pool is modelled sequentially.
- DvDbData.BackToPool: it requires an initialised `perDB`. The source never creates that map, so its write at connection.go line 107 would fault on a nil map. Close requires the same for an unforced close of an open connection.
- DvConfig.ProcessBaseFolder: it requires a default server whenever there are host servers. The source dereferences a nil server in that case.
- Several constants are defined outside the modelled files, so the model uses stand-ins. Only the facts that they differ and are non-zero matter.
  - MatchCaseInsensitive is kept symbolic, as the three-valued CaseFlag.
  - `HEADERS_SET_ORIGIN` and `HEADERS_SET_ORIGIN_ALWAYS` are the stand-ins 1 and 2.
  - `SqlOracleLike` and `SqlPostgresLike` are the stand-ins 1 and 2.
  - `VISITOR_OPTION_CASHED` is the stand-in 1.
- Text.ToUpper, Text.ToLower: only ASCII letters change case; Go's Unicode case mapping is not modelled. TrimSpace uses Go's full Unicode white-space set.
- Go compares bytes where the model compares characters. The patterns are taken as ASCII, so both agree.
- The header maps are filled per map. prepareMicroCoreInfo interleaves writes to different maps, but those writes do not interact.
