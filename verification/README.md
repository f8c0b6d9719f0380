# Verification of orbit-cli

A Dafny model of the algorithms and state machines behind the orbit command line: table layout, env files and their
sanitizer, the concurrent pull-request query, one-time codes, the merge gate, the custom configuration tree, the runs
that leave checkpoints (onboarding, migrations, asset sync), the printer, version order and audit reports. `dafny verify
dfyconfig.toml` checks all of it.

Each area has a module, or a few. Where the program changes things step by step, the model does too: loops with
invariants, arrays changed in place, classes with the program's fields. Those methods are proved equal to functions on
values, and the theorems are about the functions, for all inputs and all runs. Input and output, clocks, random values
and library code (hashes, letter case, styling) are parameters: a run takes the answers of the outside world as data, so
a theorem about every run covers every failure of every call.

| module | what it models |
|---|---|
| `WaterFilling`, `TableLayout`, `TextWidth`, `Table` | measuring, shrinking, truncating, padding and rendering a table |
| `EnvFile`, `EnvRoundTrip`, `EnvMeaning`, `EnvSanitize` | printing, parsing and sanitizing env files |
| `RepoPool` | the worker pool that queries repositories concurrently |
| `Challenge` | one-time code challenges, in memory and in a store |
| `Checks`, `MergeGate` | check evaluation and the two copies of the merge gate |
| `ConfigTree`, `ConfigHeap` | the custom configuration tree, as a value and as mutable maps |
| `Onboard` | onboarding runs over a checkpoint file |
| `Migrate` | the migration engine |
| `Assets`, `Gitignore` | asset index, pull, status and add, and the ignore file adding keeps |
| `Printer` | the newline state of the text printer |
| `Versions`, `AuditReport` | version order, merged audit reports, accepted messages |
| `Strings` | the string functions of Go's library the others call |

## What did not hold

Some expected properties are false of the code. The model keeps the code. For each, one lemma gives a failing input, and
another the exact condition under which the property holds.

| expected | failing input | exact condition |
|---|---|---|
| A printed env file is read back exactly. | `CarriageReturnLost`: the value is one carriage return, which is neither quoted nor kept. | `RoundTrip` |
| The two merge gates give the same verdict; the second copy says it mirrors the first. | `TimesOutEmpty`: an empty list times out before the register window is over; the release gate merges. | `GatesAgreeIff`, for overrides that are not blank: the release commands refuse a blank one before their gate (pkg/release/application/service.go:100 and 184) |
| The rank in the onboarding file never goes down in a resumed run. | `StartsOver`: a completed session, or one whose file cannot be read, is replaced by a new one. | `ResumeKeepsRankIff` |
| A dry run of the onboarding changes nothing. | `DryRunReplaces`: with no saved session, a new one is saved. | `DryRunKeepsFileIff` |
| The key a listing shows for a custom path leads back to it. | `DottedKeyLost`: the key `a.b`. | `ReadsBackIff` |
| Every row line of a table is as wide as the header. | `StyledRowSticksOut`: a styled cell that shows wider than its text. | `RowAlignedIff` |
| A section is preceded by an empty line. | `SectionAfterOpenLine`: it follows text that does not end its line. | `SectionAfterBlankIff` |
| A key/value block is followed by exactly one blank line. | `TwoBlanksAfterKvs`: its value ends with two newlines. | `OneBlankAfterKvsIff` |
| A pull without an error leaves every indexed file fitting. | `SharedPathMisleads`, with force: one path with two hashes. `TempNameMisleads`, also without force: a path that is the download name of a later one. | `AllPresentIff`, with and without force; `CompleteIff` for distinct paths |
| An added asset is listed in the ignore file, by one line however often it is added. | `HashNameNotIgnored`: its name starts with `#`, which makes the line a comment. | `AddIgnoresIff`, `EnsureTwiceIff` |
| Merging audit reports keeps every ERROR. | `ErrorCanBeLost`: it is about a clone that an earlier report called behind. Today this is a hazard of the merge only: the one producer of such findings warns (pkg/audit/application/service.go:362). | `EveryErrorKeptIff` for all of them; `LostIff` for each |
| A truncated text is the longest prefix that fits with an ellipsis. | `LongestFails`: three runes of width 0 and `abc` in two cells keep no letter, though there is room for `a`. | `LongestIff`; `LongestWithoutZeroWidth` |
| The two version parsers give the same numbers. | `ParsersDiffer`: a capital V. `PreReleaseDiffers`: `1-r.1`, where only the doctor goes on after the suffix. | `ParsersAgreeIff` |

## Model

| member | source | states |
|---|---|---|
| WaterFilling.Shrink | pkg/table/render.go:79-96 | The round-robin loop, in place: the result is a water filling of the widths, its total is the larger of the space and the total of all floors; columns outside the list keep their width. Both shrink loops are this one, and it ends. |
| WaterFilling.ShrinkRound | pkg/table/render.go:82-92 | One round over the flexible columns takes a cell from each that has room, in order, until enough are taken: it moves the widths from one level to a prefix of the next. |
| WaterFilling.WaterFillingUnique | pkg/table/render.go:79-96 | Two water fillings of the same widths with the same total are the same. |
| WaterFilling.WaterFillingFair | pkg/table/render.go:79-96 | While a column is above its floor, no other column has lost more than one cell more than it, and none to the right of it has lost more at all. |
| WaterFilling.WaterFillingBounds | pkg/table/render.go:79-96 | A shrink widens no column, leaves columns that are not flexible alone, and cuts none below its floor. |
| TableLayout.LayoutUnique | pkg/table/render.go:9-114 | The laid-out widths are a function of the columns, the natural widths and the space. |
| TableLayout.LayoutKeeps | pkg/table/render.go:60-113 | No column grows, none is cut below three cells, and one that does not shrink keeps its natural width. |
| TableLayout.SoftFloorsFirst | pkg/table/render.go:79-111 | If any column was cut below the larger of its minimum and four, every flexible column is at or below that floor. |
| TableLayout.LayoutTotal | pkg/table/render.go:51-113 | Once the natural widths exceed the space, the total is the larger of the space and the natural total less, for each flexible column, its width above three. |
| TableLayout.LayoutExact | pkg/table/render.go:44-113 | When all columns are flexible or none is, the total is exactly the smaller of the natural total and the space. |
| Table.NaturalLeast | pkg/table/render.go:15-37 | The natural width of a column is the least bound of its title, its minimum and all its cells, capped by its maximum; it is never negative. |
| Table.FlexibleIndices | pkg/table/render.go:65-77 | Lists exactly the columns that shrink, in order: the flexible ones, or all when none is. |
| Table.Table.MeasureColumns | pkg/table/render.go:15-37 | The measuring loops give the natural widths, also for rows shorter or longer than the header. |
| Table.FitWidths | pkg/table/render.go:51-113 | The widths are the layout of the natural widths in the space; the natural widths are not changed when a copy is shrunk. |
| Table.Table.CalculateWidths | pkg/table/render.go:9-114 | The widths of a table with columns are the layout of its natural widths in the space left by terminal, indent and padding; when all columns are flexible or none is, a line of them is as wide as the natural one or as the terminal, whichever is less, but has room for four cells a column. |
| Table.Table.NaturalWhenFits | pkg/table/render.go:39-58 | When the line of natural widths, with indent and padding, fits the terminal, the widths are the natural ones. |
| Table.Table.LineTotal | pkg/table/render.go:39-113 | For any columns a line that does not fit is cut to the terminal, or to four cells a column, or to what three cells for each flexible column leave, whichever is most. |
| TextWidth.TruncateString | pkg/table/truncate.go:7-26 | The downward search returns the longest prefix of at most maxLen runes that fits with an ellipsis. |
| TextWidth.TruncatedFits | pkg/table/truncate.go:7-26 | A truncated string fits; it is the string itself when that fits, and otherwise a prefix with an ellipsis, the longest among those of at most maxLen runes. |
| TextWidth.LongestIff | pkg/table/truncate.go:17-25 | A text that does not fit is cut to the longest of all its prefixes that would fit if and only if it has no more runes than may be kept, or its first runes, one more than may be kept, take at least maxLen cells. |
| TextWidth.LongestWithoutZeroWidth | pkg/table/truncate.go:17-25 | So it is in every text without runes of width 0. |
| TextWidth.LongestFails | pkg/table/truncate.go:17-25 | With three runes of width 0 in front, a text cut to two cells keeps no letter though one would fit. |
| TextWidth.TruncatePathFits | pkg/table/truncate.go:28-58 | A truncated path fits, and is the path itself when that fits. |
| TextWidth.TruncatePathMeans | pkg/table/truncate.go:28-58 | What a path with a slash is cut to: what stands before its first and after its last slash with an ellipsis between, or the last one behind an ellipsis, where that fits in more than five cells; else like any text. |
| TextWidth.TruncatePathKeeps | pkg/table/truncate.go:39-57 | In more than five cells it keeps the whole last segment whenever an ellipsis, a slash and that segment fit, and the whole first one too whenever both do. |
| Table.PadCellWidth | pkg/table/render.go:259-276 | A padded cell has the target width when its text fits, off by the difference between styled and plain text. |
| Table.RowCellShows | pkg/table/render.go:184-215 | Cell c of a row line shows cell c of the row between blanks split as the alignment says: styled or plain where it fits, else cut in the middle for a path in a flexible column and at the end otherwise; a missing cell is blank. |
| Table.HeaderCellShows | pkg/table/render.go:126-136 | A header cell shows the title of its column, whole or cut to the width, aligned like the column. |
| Table.HeaderWidth | pkg/table/render.go:125-137 | The header line is as wide as indent, widths and padding together, whatever the titles. |
| Table.DividerWidth | pkg/table/render.go:139-148 | The divider is as wide as the header. |
| Table.RowWidth | pkg/table/render.go:182-216 | A row line is off that width by exactly the drift of its styled cells, for any texts and any row length. |
| Table.RowAlignedIff | pkg/table/render.go:182-216 | A row line is as wide as the header if and only if the drifts of its styled cells cancel out. |
| Table.StyledRowSticksOut | pkg/table/render.go:184-216 | One styled cell that shows a cell wider than its text makes its row one cell wider than the header. |
| Table.BodyLineAt | pkg/table/render.go:182-221 | The body has one line for each row of the page, in order, each followed by its detail line if it has one. |
| Table.Table.LinesInOrder | pkg/table/render.go:126-221 | A table is its header line, the divider if it has one, a rule behind the indent, and the body. |
| Table.DetailBelowColumn | pkg/table/render.go:247-257 | The detail line is indented by the widths of the columns before the detail column and the padding behind them. |
| Table.Table.TableAligned | pkg/table/render.go:116-221 | Header, divider and every row line of a rendered table have the same width, when styled cells are as wide as their plain text. |
| Table.Table.LinesFitTerminal | pkg/table/render.go:39-221 | Every header, divider and row line of a rendered table whose columns are all flexible, or none, fits a terminal that has room for four cells a column, when styled cells are as wide as their plain text. |
| Table.PagesCover | pkg/table/render.go:150-180 | The pages one after another show every row once and in order. |
| Table.CountedPagesCover | pkg/table/render.go:161-180 | As many pages as the footer counts show every row once and in order. |
| Table.FooterMeans | pkg/table/render.go:161-236 | The footer of a page that is counted gives the first and last row shown and the totals; a later page, and an empty table, shows no row and says so. |
| Table.NoPages | pkg/table/render.go:147-240 | Without a page limit all rows are shown, and no footer. |
| Table.Table.Render | pkg/table/render.go:116-240 | Writes exactly header, divider, the lines of the rows of the page, and the footer, at the laid-out widths; nothing without columns. |
| EnvFile.RenderEnv | pkg/env/domain/generate.go:10-31 | Writes one entry per name, in sorted order of the names, each with its comment lines. |
| EnvFile.RenderingUnique | pkg/env/domain/generate.go:11-16 | There is one rendering of values and comments only. |
| EnvFile.ParseEnvContent | pkg/env/domain/parse.go:32-68 | The scanner loop gives the result of parsing line by line: the map of all pairs, later ones winning, or an error with the line it is on. |
| EnvFile.UnquoteEnvValue | pkg/env/domain/parse.go:72-128 | The index loop over a byte buffer computes the unquoted value for double-quoted, single-quoted and bare text. |
| EnvRoundTrip.ChainIsEscaped | pkg/env/domain/generate.go:58-65 | The six chained replacements equal one replacement per character: no replacement touches what another wrote. |
| EnvRoundTrip.UnescapeEscaped | pkg/env/domain/parse.go:77-112 | The unescaper inverts that replacement, for every string, and an escaped value has no line break. |
| EnvRoundTrip.UnquoteFormatted | pkg/env/domain/generate.go:53-71 | A formatted value is read back as it was when it is quoted or empty, and trimmed otherwise. |
| EnvRoundTrip.ParseByLines | pkg/env/domain/parse.go:33-67 | The scanner's own splitting, which drops carriage returns and a last empty line, parses like splitting at line feeds. |
| EnvRoundTrip.LineShape | pkg/env/domain/parse.go:38-62 | What a line with an equals sign parses to depends only on the trimmed text on either side of the first one. |
| EnvRoundTrip.CommentsNeverShow | pkg/env/domain/generate.go:18-28 | Two renderings of the same values with different comments are read as the same map or both fail, whatever the names and values. |
| EnvRoundTrip.RoundTrip | pkg/env/domain/parse.go:32-68 | Parsing a printed file gives exactly the values printed, whatever the comments, if and only if every name is trimmed, not empty, without an equals sign or line feed and not starting with # or "export ", and every value is quoted, empty or trimmed. |
| EnvRoundTrip.CarriageReturnLost | pkg/env/domain/generate.go:58-61 | A value that is one carriage return is not read back. |
| EnvMeaning.UnquoteComment | pkg/env/domain/parse.go:121-127 | A value without quotes ends, trimmed, before the first blank that a hash sign follows. |
| EnvMeaning.UnquoteBare | pkg/env/domain/parse.go:121-127 | Without such a blank it is the trimmed text, or empty when it starts with a hash sign. |
| EnvMeaning.UnquoteSingle | pkg/env/domain/parse.go:117-119 | What stands in single quotes is the value. |
| EnvMeaning.UnescapePlain | pkg/env/domain/parse.go:77-113 | In double quotes, runes before the first backslash stand for themselves. |
| EnvMeaning.UnescapeBackslash | pkg/env/domain/parse.go:82-110 | A backslash stands with the rune behind it for a line feed, carriage return or tab, or for that rune; a last one for itself. |
| EnvMeaning.LineWithoutEquals | pkg/env/domain/parse.go:41-52 | A line without an equals sign is skipped when it is blank or a comment, and is an error otherwise. |
| EnvMeaning.LineWithEquals | pkg/env/domain/parse.go:41-60 | A line with one names what stands before the first, behind the word export if it starts with that, and gives it what follows; comments are skipped, and a blank name is an error. |
| EnvMeaning.ParseReads | pkg/env/domain/parse.go:32-68 | A text fails at its first line in error, with its number; otherwise every variable has the value of the last line that names it, and there is no other. |
| EnvMeaning.PrintedBareIff | pkg/env/domain/generate.go:53-71 | A value is printed as it is if and only if it is not empty and holds no blank, tab, line feed, quote, hash sign, dollar sign, backquote or backslash. |
| EnvMeaning.EntryShows | pkg/env/domain/generate.go:18-28 | A variable is printed as the lines of its comment, each trimmed behind a hash sign, none for a blank comment, and one line with name and value. |
| EnvSanitize.SanitizeEnvContent | pkg/onboard/domain/sanitize.go:39-70 | The loop masks exactly the lines with a sensitive name and leaves the others as they are. |
| EnvSanitize.MaskedIff | pkg/onboard/domain/sanitize.go:44-66 | A line with an equals sign is masked if and only if it is no comment and the trimmed text before the first one holds KEY, SECRET, TOKEN, PASSWORD, PRIVATE or AUTH in any case; otherwise it is kept. |
| EnvSanitize.OtherLinesKept | pkg/onboard/domain/sanitize.go:44-66 | A line without an equals sign is kept. |
| EnvSanitize.LineCommutes | pkg/onboard/domain/sanitize.go:47-68 | Masking the text of a line masks the value it parses to, and nothing else, although the sanitizer and the parser find the name in different ways. |
| EnvSanitize.SanitizeCommutes | pkg/onboard/domain/sanitize.go:39-70 | For every text, parsing after sanitizing gives what masking the parsed values gives: the same names, the same error. |
| EnvSanitize.SanitizeTwice | pkg/onboard/domain/sanitize.go:39-70 | Sanitizing twice equals sanitizing once. |
| RepoPool.StepKeepsInv | cmd/orbit/pr.go:379-407 | Every step of dispatcher or worker keeps the invariant: each index is waiting, held by one worker, or written with its answer. |
| RepoPool.WritesAreFirst | cmd/orbit/pr.go:387-394 | A slot that is about to be written has not been written, and no other worker holds its index. |
| RepoPool.NoDeadlock | cmd/orbit/pr.go:379-407 | Until the pool has returned some step is enabled. |
| RepoPool.StepCounts | cmd/orbit/pr.go:379-407 | Every step takes one off the number of steps that remain, so all schedules have the same length. |
| RepoPool.EverySchedule | cmd/orbit/pr.go:379-407 | Every schedule that cannot be continued has returned, after the same number of steps, with every slot written once and the results equal to asking one after another. |
| RepoPool.BoundedWorkers | cmd/orbit/pr.go:379-391 | In no schedule are there ever more workers than four, or than targets. |
| RepoPool.StatusAcrossRepos | cmd/orbit/pr.go:379-407 | Under a scheduler that picks any enabled step, with workers writing a shared array, the array ends as the map of the query over the targets. |
| RepoPool.FirstRepoFailure | cmd/orbit/pr.go:440-461 | The chosen failure is the first among those with the highest exit code; none is chosen exactly when nothing failed. |
| RepoPool.TotalAddsUp | cmd/orbit/pr.go:352-356 | The total counts the open pull requests of every result once. |
| RepoPool.StatusWorkspace | cmd/orbit/pr.go:352-357 | The total and the failure of a workspace query are those of a sequential run, whatever the schedule. |
| Challenge.EachChallengeLimited | pkg/owner/domain/challenge.go:171-308 | Over every run of either backend, on any clock and with a store that may fail at any call, a challenge is compared at most three times and accepted at most once. |
| Challenge.SameVerdicts | pkg/owner/domain/challenge.go:242-308 | On the same calls, with a clock that does not go back and a store that does not fail, both backends compare the same challenges and accept or refuse alike at every step; replies differ only in why no challenge was left. |
| Challenge.AcceptedIff | pkg/owner/domain/challenge.go:171-308 | Over every run of either backend, on a clock that does not go back and a store that does not fail: a verification is accepted if and only if its code has the salted hash of the code the challenge was created with, at most the given time has passed, or ten minutes when none is given, fewer than three calls in between tried the address, and none of them had such a code. |
| Challenge.ReplyWhen | pkg/owner/domain/challenge.go:171-308 | What a verification is told in each case: accepted, wrong code, third try, used up, expired. |
| Challenge.OnlyTheCode | pkg/owner/domain/challenge.go:294-308 | With a hash that tells codes apart only the code itself is accepted, up to white space around it. |
| Challenge.OnlyEarned | pkg/owner/domain/challenge.go:171-308 | Over every run of either backend, on any clock and whatever the store fails to do: a code is accepted only if it has the salted hash of the latest challenge for its address, which has not expired and was not accepted before. |
| Challenge.StoreFailures | pkg/owner/domain/challenge.go:215-219 | A failing save or lookup gives a store failure and changes nothing; there is no store failure unless a call of the store failed. |
| Challenge.BlankRefused | pkg/owner/domain/challenge.go:228-237 | A blank address or code is refused by both backends and changes nothing. |
| Challenge.ReachedUnique | pkg/owner/domain/challenge.go:171-308 | No table a run reaches holds two records with one id. |
| Challenge.Survives | pkg/owner/domain/challenge.go:276-307 | What later calls leave of a challenge in memory: one attempt more per try, or nothing once a try was right or the limit was reached. |
| Challenge.ChallengeManager.CreateChallengeWithCode | pkg/owner/domain/challenge.go:171-223 | Replaces the record for the address by a fresh one, or refuses a blank address or code, or fails with the store, and then changes nothing. |
| Challenge.ChallengeManager.VerifyCode | pkg/owner/domain/challenge.go:228-308 | Takes exactly the step of its backend, with any failing calls of the store: new table, reply, and the challenge whose hash was compared. |
| Challenge.ChallengeManager.VerifyStored | pkg/owner/domain/challenge.go:242-280 | The store path: expired records are pruned, the attempt is counted before the comparison, a match is marked; a failing call ends it there, except a failing prune. |
| Challenge.ChallengeManager.VerifyInMemory | pkg/owner/domain/challenge.go:282-307 | The in-memory path: the record is dropped when it is expired, used or used up. |
| Challenge.Store.IncrementAttempts | pkg/owner/domain/challenge_test.go:45-55 | Finds a record with the id, in any order, and changes its attempts only; reports when no record has it. |
| Challenge.Store.MarkVerified | pkg/owner/domain/challenge_test.go:57-69 | Finds a record with the id, in any order, and marks it only; reports when no record has it. |
| Challenge.Store.PruneExpired | pkg/owner/domain/challenge_test.go:71-80 | Removes exactly the expired records, in any map order. |
| Checks.EvaluateChecks | pkg/pr/domain/checks.go:33-69 | The loop gives the refusal with the highest precedence, with all names it is about, or allows. |
| Checks.AllowedIff | pkg/pr/domain/checks.go:33-69 | Allowed if and only if the list is not empty and every check passed or was skipped. |
| Checks.RefusedWhy | pkg/pr/domain/checks.go:33-69 | Why a list is refused: it is empty; else the names of all checks that failed or were cancelled, in order; else of all that are pending; else the first that is in no known state. |
| Checks.CheckState | pkg/release/domain/release.go:68-92 | The release state is the summary of that evaluation, so it is "pass" exactly when the gate allows, although it stops at the first failure. |
| Checks.StateMeans | pkg/release/domain/release.go:68-92 | The release state of a list is none, fail, pending, unknown or pass, in this precedence, by what its checks say. |
| MergeGate.WaitMeans | pkg/pr/application/gate.go:32-75 | The wait ends at the first poll that settles or times out and fails at the first that cannot be read; a poll settles when nothing is pending and its names are those of the poll before, or it is the first, is empty, and the window has passed. |
| MergeGate.PollBound | pkg/pr/application/gate.go:32-75 | When each sleep lasts at least the interval, there are at most ceil(timeout / interval) + 1 polls, however the wait ends. |
| MergeGate.MergeOnlyWhen | pkg/pr/application/gate.go:72-92 | Either gate merges in three cases only: the last list is nonempty and all passed or skipped; it is empty and that is accepted; or an override is given and its comment can be written. In the third case only, and then always, the merge leaves the comment "override: " with the reason. |
| MergeGate.NoMergeWhen | pkg/release/application/service.go:434-455 | Why a gate does not merge: a blank override, checks that cannot be read, a comment that cannot be written, or the judgement of the list. |
| MergeGate.WithoutWaiting | pkg/release/application/service.go:476-485 | Without waiting the first poll decides. |
| MergeGate.GatesAgreeIff | pkg/release/application/service.go:434-507 | With the same timings and no blank override, the two gates give the same verdict in every world if and only if nobody waits, an empty list is not accepted, or the timeout is at least the register window. |
| MergeGate.TimesOutEmpty | pkg/release/application/service.go:434-457 | A world in which they differ: one empty poll that times out before the window has passed. |
| MergeGate.CheckNameSet | pkg/pr/application/gate.go:106-112 | The loop gives the set of the names. |
| MergeGate.SameCheckNameSet | pkg/pr/application/gate.go:115-125 | Comparing sizes and looking up one side decides equality of the sets. |
| MergeGate.PrService.PollChecks | pkg/pr/application/gate.go:32-75 | The polling loop ends as the wait does, with the last list. |
| MergeGate.PrService.EnforceGate | pkg/pr/application/gate.go:14-92 | Returns the verdict of the pull-request gate and posts the override comment exactly when it overrides. |
| MergeGate.PrService.MergeGated | pkg/pr/application/service.go:155-163 | Asks the host to merge exactly when the gate allows it; whenever it asks, the comment of the override is on the host unless the last list was green or an accepted empty one. |
| MergeGate.ReleaseService.WaitForChecks | pkg/release/application/service.go:460-507 | On the same trace and timings the second loop ends as the first does, with the same list. |
| MergeGate.ReleaseService.EnforceGate | pkg/release/application/service.go:434-457 | Returns the verdict of the release gate and posts the override comment exactly when it overrides. |
| ConfigTree.SetSeen | pkg/config/domain/domain.go:160-182 | After a set, seen from every path: the path holds the value, paths below it nothing, paths on the way maps, and every other path is unchanged, also where a scalar gave way to a map. |
| ConfigTree.UnsetSeen | pkg/config/domain/domain.go:184-198 | After an unset nothing is found at the path or below it, maps on the way are still maps, every other path is unchanged. |
| ConfigTree.UnsetUndoesSetIff | pkg/config/domain/domain.go:160-198 | Unsetting what was just set gives the tree back if and only if nothing was at the path and what it goes into was a map. |
| ConfigTree.NormalizePath | pkg/config/domain/domain.go:641-666 | The loop drops blank parts, trims the others and resolves the aliases. |
| ConfigTree.AliasesOfServers | pkg/config/domain/domain.go:641-666 | The names server and staff, in any case, lead to the addresses of their servers, and any other single name to itself. |
| ConfigTree.AliasesOfSettings | pkg/config/domain/domain.go:641-666 | Two settings may be written as one word, in any case; any other pair of names leads to itself. |
| ConfigTree.RouteMeans | pkg/config/domain/domain.go:505-516 | A path without a name is refused; one that does not begin with custom, in any case, is for another part of the configuration; custom alone cannot be set or read; everything below it can. |
| ConfigTree.GetAfter | pkg/config/domain/domain.go:380-399 | A get after a set of the same path gives the value, under its canonical key; after an unset it finds nothing; a key that leads to a map shows the map. |
| ConfigTree.ReadsBackIff | pkg/config/domain/domain.go:641-666 | The key listed for a custom path normalizes to exactly that path if and only if all its keys are plain. |
| ConfigTree.DottedKeyLost | pkg/config/domain/domain.go:641-666 | A key with a dot is listed under a key that normalizes to another path. |
| ConfigTree.EntryReadsBack | pkg/config/domain/domain.go:380-399 | Reading the full key of a leaf with a plain path gives that leaf under the same key. |
| ConfigTree.CommandsKeepPlain | pkg/config/domain/domain.go:406-521 | Set and unset commands keep all paths plain, so every entry of a tree they built is read back. |
| ConfigTree.ListingReadsBack | pkg/config/domain/domain.go:200-222 | Reading the key of any listed entry of a tree with plain paths gives that entry. |
| ConfigTree.ListingUnique | pkg/config/domain/domain.go:200-222 | There is one listing of a tree only, so map order does not show. |
| ConfigHeap.InPlace | pkg/config/domain/domain.go:160-198 | Changing one map object in place replaces its tree in every map above it and changes nothing beside it. |
| ConfigHeap.MakesRoom | pkg/config/domain/domain.go:165-180 | Putting an empty map where the path needs one does not change what the set under way will give. |
| ConfigHeap.SetCustomNested | pkg/config/domain/domain.go:160-182 | The loop that walks down shared map objects, making maps on the way, turns the tree into its set at the path; new maps only are added. |
| ConfigHeap.UnsetCustomNested | pkg/config/domain/domain.go:184-198 | The recursion removes the last key from the one map object at the end of the path, if the path leads to one. |
| ConfigHeap.UnsetContent | pkg/config/domain/domain.go:184-198 | The heap it leaves stands for the tree with the path unset. |
| ConfigHeap.GetCustomNested | pkg/config/domain/domain.go:138-158 | The loop finds exactly what looking the path up in the tree finds. |
| ConfigHeap.FlattenCustomMap | pkg/config/domain/domain.go:200-222 | Keeps what was there and appends every leaf exactly once, in path order, under its full key. |
| ConfigHeap.Config.Set | pkg/config/domain/domain.go:505-516 | The custom branch: the tree becomes its set at the normalized path with the inferred value; the root alone cannot be set. |
| ConfigHeap.Config.Unset | pkg/config/domain/domain.go:598-607 | The custom branch: the path is unset, or the whole tree is replaced by an empty one. |
| ConfigHeap.Config.Get | pkg/config/domain/domain.go:380-399 | The custom branch: the scalar found under its canonical key, a map, or not found. |
| ConfigHeap.Config.Entries | pkg/config/domain/domain.go:628-632 | The custom entries are the listing of the tree. |
| Onboard.MissingSteps | pkg/onboard/application/service.go:64-101 | A run starts exactly the steps its session lacks, in order, until one fails; all but a failed last are saved; without a failure the file holds a completed session. At dev_stack_ready or completed it starts none and leaves the file. |
| Onboard.ResumeKeepsRankIff | pkg/onboard/application/service.go:106-163 | A resumed run never lowers the rank in the file, whatever else fails, if and only if the rank is 0 or the session is pending and both reads succeed. |
| Onboard.StartsOver | pkg/onboard/application/service.go:155-162 | Otherwise a new session of rank 0 takes its place. |
| Onboard.DryRunKeepsFileIff | pkg/onboard/application/service.go:106-163 | A dry run leaves the file alone, whatever the world answers, if and only if it resumes a pending session that can be read. |
| Onboard.DryRunReplaces | pkg/onboard/application/service.go:157-161 | A dry run without a saved session saves a new one. |
| Onboard.FileAlwaysSound | pkg/onboard/application/service.go:41-102 | Over any sequence of runs of any kind that may fail at any call or save: rank 7 is never in the file, from rank 2 on its key is one EnsureKey returned, from rank 3 on its token is not empty. |
| Onboard.ErrorFreeCompletes | pkg/onboard/application/service.go:41-102 | After any runs that began with a sound file or none, an onboarding run without an error that is not a dry run leaves a completed session. |
| Onboard.StuckRun | pkg/onboard/application/service.go:531-534 | A session at dev_stack_ready would stay there: a resumed run succeeds without starting a step. |
| Onboard.EachStepOnce | pkg/onboard/application/service.go:64-101 | Over any sequence of resumed runs the checkpoints written are those of the missing steps, in order and each exactly once; from dev_stack_ready on none is written. |
| Onboard.AttemptMeans | pkg/onboard/application/service.go:165-564 | A step does its work exactly when it can: checks pass or are waved through by someone asked, there is a key, there is a token, given, kept or asked for in this order, and the claim is granted. It moves the session to its own stage, the last one to completed, fills in what it brings, and keeps the rest. |
| Onboard.InceptionMeans | pkg/onboard/application/service.go:106-163 | A pending session that can be read is taken up when the run resumes it or someone asked wants to; it is kept, and the run refused, rather than that a given token goes to a new one without asking; otherwise a new session is saved in its place. |
| Onboard.CompletesIff | pkg/onboard/application/service.go:64-101 | An onboarding run succeeds if and only if every step its session lacks can be done and saved; then the file holds that session, completed, with what each of these steps brings. |
| Onboard.OtherModes | pkg/onboard/application/service.go:566-655 | A reset removes the file, a rollback one that can be read, a bundle none; they start no step and fail only when a call does. |
| Onboard.DryRunMeans | pkg/onboard/application/service.go:64-72 | After inception a dry run only starts the checks, and only for a session without any stage. |
| Onboard.Service.Incept | pkg/onboard/application/service.go:106-163 | The session a run works on: resumed, fresh after a discard, or a refusal that would lose a token. |
| Onboard.Service.StepDiagnostics | pkg/onboard/application/service.go:165-270 | Skipped when done; a dry run stops after the report; fails on errors that nobody waives; otherwise saves its rank. |
| Onboard.Service.StepKeypair | pkg/onboard/application/service.go:272-307 | Skipped when done; stores the key EnsureKey returned and saves, or fails with the file unchanged. |
| Onboard.Service.StepClaim | pkg/onboard/application/service.go:309-389 | Skipped when done; claims with the given, the stored or the prompted token, in this order, and stores what the claim returned. |
| Onboard.Service.StepWorkspace | pkg/onboard/application/service.go:439-492 | Skipped when done; adds the repositories cloned, sets the workspace and saves. |
| Onboard.Service.StepStack | pkg/onboard/application/service.go:531-564 | Skipped when done; saves only after the stage has gone on to completed. |
| Onboard.Service.Run | pkg/onboard/application/service.go:41-102 | A run by options: reset and rollback clear the file, a bundle leaves it, onboarding is inception and then the steps. |
| Migrate.ApplyKeepsPrefix | pkg/migrate/application/engine.go:73-114 | From a saved prefix of the deduplicated list, an apply leaves a prefix that is no shorter; without an error, the whole list. |
| Migrate.SavedIsPrefix | pkg/migrate/application/engine.go:73-114 | Over any sequence of applies of lists that only grow at the end, what is saved stays a prefix of the deduplicated list. |
| Migrate.SavedOnlyGrows | pkg/migrate/application/engine.go:73-114 | Over any sequence of applies of any lists, the state file only ever grows, and never comes to hold an id twice. |
| Migrate.ApplyTakesMissing | pkg/migrate/application/engine.go:73-114 | From whatever the state file holds, an apply takes up the pending migrations in order, of those with one id the first, up to the one that ends it; it appends their records, with their descriptions, in that order. |
| Migrate.ApplyTells | pkg/migrate/application/engine.go:84-112 | From any state file and whatever the world answers: an apply comes to a pending migration if and only if every pending one before it succeeded and was saved. Then, and only then, its code runs, its outcome says whether that succeeded, and a record is added if it did and the state could be saved. |
| Migrate.SavedOnlyAfterSuccess | pkg/migrate/application/engine.go:92-111 | Whatever the state file holds newly is the record of a migration whose code succeeded, after which the state could be saved. |
| Migrate.NoErrorIff | pkg/migrate/application/engine.go:73-114 | An apply ends without an error if and only if the state could be read, and every pending migration succeeds and is saved. |
| Migrate.NeverRunsAgain | pkg/migrate/application/engine.go:85-100 | A migration that was saved is never run by any later apply, whatever lists the applies are given and whatever else the state file holds. |
| Migrate.ApplyTwice | pkg/migrate/application/engine.go:53-114 | After an apply without an error, from any state file, nothing is pending, and the next apply of the list runs nothing and changes nothing. |
| Migrate.DedupDistinct | pkg/migrate/application/engine.go:79-90 | The deduplicated list has no id twice. |
| Migrate.Engine.Pending | pkg/migrate/application/engine.go:53-70 | Lists the migrations whose id is not saved, in order. |
| Migrate.Engine.Apply | pkg/migrate/application/engine.go:73-114 | The loop leaves the state file with its records, the outcomes, the code run and the error of the specification, wherever a step or a save fails. |
| Assets.PullBrings | pkg/assets/application/service.go:17-41 | On any outcome, for any indexes and whatever the store holds: apart from download names only files of indexed paths change; each of them fits a line of its index then, did not fit one before, and was missing or forced. |
| Assets.UnforcedKeeps | pkg/assets/application/service.go:204-247 | Without force every file that is there and has no download name keeps its bytes, on any outcome and for any indexes. |
| Assets.OneError | pkg/assets/application/service.go:204-235 | Pulling one object: a file that fits is left alone, one that does not is a mismatch unless it is forced; what is downloaded must be in the store and fit, or the disk stays as it is. |
| Assets.DownloadMeans | pkg/assets/application/service.go:236-246 | What the last steps of a download leave: the new file, or the old one with what a failed write left under the download name, which a failed rename takes away. |
| Assets.FirstErrorWins | pkg/assets/application/service.go:188-202 | An index is pulled to its end whatever fails, each line on what the ones before it left, and the error is that of the first line that failed. |
| Assets.RepositoryMore | pkg/assets/application/service.go:17-41 | One repository more changes nothing once an index could not be looked for; otherwise its lines are pulled on what the others left, and its error counts when they had none or its index cannot be looked for. |
| Assets.WithIndexMeans | pkg/assets/application/service.go:17-41 | The repositories reported are those with an index, readable or not, up to the first whose index cannot be looked for. |
| Assets.AllPresentIff | pkg/assets/application/service.go:17-41 | For a store that holds what the indexes of any repositories list: every pull of them without an error, from any disk, leaves every indexed file fitting all its lines, if and only if the lines together are sound. With force: lines with one path have one hash, and none takes away for good what another brings. Without: the lines contradict each other, so that no pull succeeds, or all stand at the end. |
| Assets.UnforcedIsComplete | pkg/assets/application/service.go:204-247 | When lines with one path have one hash, the condition without force is the same as with force. |
| Assets.NoErrorAllPresent | pkg/assets/application/service.go:188-202 | Under the two conditions of a forced pull, a pull of one index without an error leaves every indexed file fitting, for any store, forced or not. |
| Assets.CompleteIff | pkg/assets/application/service.go:236-245 | For distinct paths, that none takes away what another brings means that no path is the download name of a later one; that is enough in any case. |
| Assets.PullAllPresent | pkg/assets/application/service.go:17-41 | A whole pull without an error, of sound lines, leaves every indexed file fitting, whatever the store holds. |
| Assets.SharedPathMisleads | pkg/assets/application/service.go:188-202 | A forced pull of one path with two hashes succeeds and leaves a file that does not fit its first line. |
| Assets.StateMeans | pkg/assets/application/service.go:276-308 | A file that is not there is missing; one that is there is fine if it fits, and does not match if it does not or that cannot be told. |
| Assets.ProblemsCounted | pkg/assets/application/service.go:68-101 | The problems counted are the indexed files that are not fine. |
| Assets.TempNameMisleads | pkg/assets/application/service.go:236-245 | An unforced pull of a file and then of the file whose download name it has succeeds and leaves the first one missing. |
| Assets.NoProblemsIff | pkg/assets/application/service.go:276-309 | Status counts no problem if and only if every indexed file is there and fits and no call failed. |
| Assets.PullThenStatus | pkg/assets/application/service.go:17-101 | A pull without an error, of sound lines, is followed by a status without a problem, when its calls do not fail. |
| Assets.AddMeans | pkg/assets/application/service.go:103-139 | What adding leaves, on any outcome: nothing before the upload; the file in the store under its hash when the index cannot be saved; else also its line in the index and the ignore file. |
| Assets.AddThenPull | pkg/assets/application/service.go:103-139 | Adding keeps a store honest; once it succeeded, another workspace finds the file in the index and pulls one with the same hash. |
| Assets.AddIgnoresIff | pkg/assets/application/service.go:135-137 | After adding succeeded the ignore file lists the file if and only if its path is trimmed, holds no line feed and does not start with #. |
| Assets.FindsFirst | pkg/assets/domain/domain.go:38-48 | The object found is the first one with the path; none is found when there is none. |
| Assets.FindAfterUpsert | pkg/assets/domain/domain.go:38-62 | After an upsert its path finds the new object, every other path what it found before. |
| Assets.UpsertKeepsDistinct | pkg/assets/domain/domain.go:51-62 | An upsert keeps the paths of an index distinct. |
| Assets.Manifest.Find | pkg/assets/domain/domain.go:38-48 | The loop finds the first object with the path. |
| Assets.Manifest.Upsert | pkg/assets/domain/domain.go:51-62 | Replaces the first object with the path in place, or appends. |
| Assets.Service.PullOne | pkg/assets/application/service.go:204-247 | The disk and the error after pulling one object, for every combination of failing calls. |
| Assets.Service.PullRepo | pkg/assets/application/service.go:188-202 | Goes on after a failure and returns the first error. |
| Assets.Service.Pull | pkg/assets/application/service.go:17-41 | Goes on after a repository that failed, skips those without an index, stops when an index cannot be looked for, and returns which repositories had one. |
| Assets.Service.StatusRepo | pkg/assets/application/service.go:276-309 | The state of every indexed file, and how many are not in order. |
| Assets.Service.Add | pkg/assets/application/service.go:103-139 | Uploads only when the hash is not in the store, changes the index only when everything before succeeded, and then sees to the ignore file. |
| Gitignore.EnsuredLists | pkg/assets/application/service.go:311-345 | After a success the file lists what it listed and the lines of the path, and was only appended to; a file that can neither be read nor looked up is replaced. |
| Gitignore.EnsuredOkIff | pkg/assets/application/service.go:323-343 | It succeeds for a file that lists the path, and otherwise when the text can be written, unless the file is there and cannot be read; a failure leaves the file alone unless the write did something to it. |
| Gitignore.IgnoredIff | pkg/assets/application/service.go:311-345 | The path itself is then listed if and only if it is trimmed, holds no line feed and does not start with #. |
| Gitignore.EnsureTwiceIff | pkg/assets/application/service.go:311-345 | A second time, when no call fails, leaves the file alone for exactly these paths; any other is appended every time. |
| Gitignore.HashNameNotIgnored | pkg/assets/application/service.go:316-321 | A file name that starts with # is not listed after a success. |
| Gitignore.IgnoreFile.Existing | pkg/assets/application/service.go:315-321 | The loop gives the set of listed paths. |
| Gitignore.IgnoreFile.Ensure | pkg/assets/application/service.go:311-345 | The file and the error after every combination of failing calls. |
| Printer.SectionAfterBlankIff | pkg/render/printer.go:88-94 | After any calls a section writes its rule, and before it one newline unless nothing was written or a blank line was left; so a blank line comes before the rule if and only if the output ended its line. |
| Printer.SectionAfterOpenLine | pkg/render/printer.go:88-94 | A section after text that does not end its line only ends the line. |
| Printer.OneBlankAfterKvsIff | pkg/render/printer.go:103-158 | The line, table, empty notice or section after a key/value block follows a newline that the block lacks for a blank line; there is exactly one blank line if and only if the last value, or its last label where there is no value, ends with at most one newline. |
| Printer.TwoBlanksAfterKvs | pkg/render/printer.go:103-158 | A value that ends with two newlines leaves two blank lines before the body. |
| Printer.BlockMeans | pkg/render/printer.go:107-119 | A block writes one line for each pair, in order, with the values in one column, two blanks behind the widest label; an empty one writes nothing. |
| Printer.OtherCalls | pkg/render/printer.go:72-192 | What titles, texts, summaries, hints and blank lines write. |
| Printer.NewlinesAppend | pkg/render/printer.go:194-214 | How many newlines a text ends with after more is appended: only newlines add up. |
| Printer.Printer.TrailingNewlines | pkg/render/printer.go:229-238 | Counts the newlines a text ends with, up to two. |
| Printer.Printer.Write | pkg/render/printer.go:194-214 | Keeps the counter equal to the newlines at the end of all output, up to two. |
| Printer.Printer.SeparateAfterKVs | pkg/render/printer.go:218-226 | Writes the blank line a waiting block lacks, looking only at the counter. |
| Printer.Printer.PrintSection | pkg/render/printer.go:88-94 | Writes the blank lines and the rule that looking back over the whole text calls for, from the counter alone. |
| Printer.Printer.PrintKVs | pkg/render/printer.go:103-121 | Writes the pairs with their values aligned after the widest label. |
| Printer.Printer.PrintAll | pkg/render/printer.go:72-192 | Any sequence of calls writes what the specification, which sees the whole text, writes. |
| Versions.CompareMeans | pkg/audit/domain/versions.go:272-295 | The comparison is that of the component lists continued with zeros: -1, 0 and 1 exactly when smaller, equal or greater at the first difference. |
| Versions.NumberOrder | pkg/audit/domain/versions.go:308-316 | Of two digit strings without leading zeros the one with more digits is the larger number; of two with equally many the first digit that differs decides. |
| Versions.WrappedMeans | pkg/audit/domain/versions.go:308-316 | Wrapping keeps a number that fits 64 bits, and takes any other to the one in range that differs by a multiple of the 64th power of two. |
| Versions.CompareAntisymmetric | pkg/audit/domain/versions.go:272-295 | Swapping the sides changes the sign. |
| Versions.CompareTransitive | pkg/audit/domain/versions.go:272-295 | "At most" is transitive, and strict when one side is. |
| Versions.CompareIgnoresZeros | pkg/audit/domain/versions.go:269-295 | Trailing zero components change nothing. |
| Versions.VersionIgnoresZeros | pkg/audit/domain/versions.go:269-318 | A dotted version, with any of the prefixes v, V and go, compares with any other as it does with ".0" any number of times at its end. |
| Versions.ParsersAgreeIff | pkg/doctor/domain/version.go:75-99 | For any version both parsers give the same components if and only if it passes a test on its parts: digits all ASCII and fitting an int, no number for the doctor to read after a suffix, and none for the audit after a capital V. |
| Versions.ComparesAlikeIff | pkg/audit/domain/versions.go:272-295 | Two component lists compare alike with every list if and only if they are the same version, up to zeros at the end; of what the two parsers read, this says when a version is ordered alike by both. |
| Versions.ComparisonsAgree | pkg/doctor/domain/version.go:46-73 | On versions that both parsers read as the same version, in particular those that pass the test, the two comparisons agree. |
| Versions.ParsersDiffer | pkg/doctor/domain/version.go:75-77 | A capital V is a prefix for the audit and the end of the version for the doctor. |
| Versions.PreReleaseDiffers | pkg/doctor/domain/version.go:78-97 | After a suffix the audit stops and the doctor goes on with the next part. |
| Versions.CompareComponents | pkg/doctor/domain/version.go:46-73 | The loop computes that comparison. |
| Versions.PartNumber | pkg/audit/domain/versions.go:308-316 | The digit loop gives the number of the leading digits, wrapped to 64 bits. |
| Versions.SortVersions | pkg/audit/domain/audit.go:170-183 | The same trimmed values that are not blank, each once, sorted by that comparison. |
| AuditReport.ExitCodeIff | pkg/audit/domain/audit.go:120-151 | A merged run of any reports exits 1 if and only if one of the findings that are kept is an ERROR, else 2 if and only if some part has a message that is not blank, else 0. |
| AuditReport.ErrorCanBeLost | pkg/audit/domain/audit.go:132-143 | A merged run can exit 0 although a part failed. |
| AuditReport.MergedFindings | pkg/audit/domain/audit.go:132-143 | A finding is in the merge of any reports if and only if some part has it, and it is not a clone.behind finding about a clone that an earlier part already called behind. |
| AuditReport.EveryErrorKeptIff | pkg/audit/domain/audit.go:132-143 | The ERRORs of the merge are those of all parts, each as often as it comes and in order, if and only if none is a clone.behind finding about a clone that an earlier part already called behind. |
| AuditReport.LostIff | pkg/audit/domain/audit.go:132-143 | A finding of some part vanishes altogether if and only if it is a clone.behind finding that the first part calling that clone behind does not have. |
| AuditReport.MergedAllErrors | pkg/audit/domain/audit.go:132-143 | The merge has an ERROR if and only if one of the findings that are kept is an ERROR. |
| AuditReport.NoErrorLost | pkg/audit/application/service.go:69-77 | So every ERROR is kept, each as often as it comes and in order, as long as no clone.behind finding is an ERROR. |
| AuditReport.MergedAllUnverified | pkg/audit/domain/audit.go:62-73 | The unverified messages of a merged run are those of its parts, trimmed, none blank, each once. |
| AuditReport.MergedAllAccepted | pkg/audit/domain/audit.go:96-103 | The accepted messages of a merged run are, of those of its parts with one check and message, the first, each once. |
| AuditReport.MergeAppends | pkg/audit/domain/audit.go:132-151 | A merge only appends to the findings, messages and items of the report. |
| AuditReport.DetailsAddUp | pkg/audit/application/service.go:69-78 | The details are those of the results that have one, in order. |
| AuditReport.EachOnOneSide | pkg/audit/domain/accepted.go:47-83 | Every message is on exactly one side, in the order it had. Accepted are those that an entry for the check, not past its date and with a pattern that is not blank and occurs in the message, accepts, each with reason and date of the first such entry; none accepts any on the other side. |
| AuditReport.ExpiredMeans | pkg/audit/domain/accepted.go:47-97 | The expired entries are those for the check whose date is malformed or before today. |
| AuditReport.InterleavesCounts | pkg/audit/domain/accepted.go:47-83 | The two sides together have the messages of the whole, with the same counts. |
| AuditReport.ApplyAccepted | pkg/audit/domain/accepted.go:47-83 | The nested loops give those sides, and the expired entries among those given for it. |
| AuditReport.ReportBuilder.AddUnverified | pkg/audit/domain/audit.go:62-73 | Appends a trimmed message that is neither blank nor there already. |
| AuditReport.ReportBuilder.AddAccepted | pkg/audit/domain/audit.go:96-103 | Appends an item unless its check and message are there already. |
| AuditReport.ReportBuilder.Merge | pkg/audit/domain/audit.go:132-151 | Takes over all findings but clones already reported behind, and the messages and items that are new. |
| AuditReport.ReportBuilder.GetExitCode | pkg/audit/domain/audit.go:120-128 | 1 with an ERROR, else 2 with an unverified message, else 0. |
| AuditReport.MergeAll | pkg/audit/application/service.go:58-79 | The report of all checks is the merge of their reports into a new one, with the details that are there joined. |
| Strings.SortKeys | pkg/config/domain/domain.go:201-205 | The keys of a map, collected in any order, sorted byte by byte. |
| Strings.SplitJoin | pkg/config/domain/domain.go:641-647 | Splitting a joined list of parts without the separator gives the list back. |

## Left out

- Commands, flags, prompts, wizard, styling and the wording of messages; prompts are answers in the model.
- HTTP, mail, git, containers, databases and real files: replaced by maps, traces and failing calls.
- Hashes, random values, letter case of addresses and hashes, date and number formats: uninterpreted functions and parameters.
- ANSI sequences and grapheme clusters: the width of a string is the sum of the widths of its runes.
- Strings are sequences of runes; invalid UTF-8 and the 64 KiB line limit of the scanner are not modelled.
- EnvSanitize.SanitizeEnvContent: upper-casing covers ASCII letters and the two other runes whose upper case is an ASCII letter, which is all that finding ASCII keywords needs.
- Table.Table.Render: leaves out the styles and the wording of the footer, whose numbers are modelled; a detail line is kept as text and offset.
- `RenderMCPEnv`, `ValuesFromSchema` and `SanitizeSession`: easy beside their neighbours.
- The SQLite challenge store, which keeps several rows per address; the model's store keeps one record per address.
- Challenge.ChallengeManager.CreateChallengeWithCode: the record is a value, so a caller that changes the returned pointer is not modelled; `CreateChallenge` is the same with a random code.
- Admin grants: in memory they follow the argument for challenges; their store has no attempt operation.
- ConfigHeap.Config.Get: a whole map is reported as a map, without Go's rendering of it; the built-in domains are settled branch by branch and left out.
- Config values other than maps are a text and a type name, as a listing shows them.
- Onboard.Service.StepDiagnostics: the diagnosis after healing is one answer of the world; network, host and shell effects of later steps, which no later step depends on, are left out.
- Onboard.Service.Save: the fallback that writes without a temporary file is taken to be atomic too.
- Migrate.Engine.Apply: leaves out the error texts of outcomes and the version field of the state file.
- Onboard.Service.Run: the removals and the remote call of a rollback are left out; they never touch the session file.
- Assets.Service.Add: an index is a list rather than a YAML file and the ignore file is held apart, so an asset that is itself one of these files is not modelled; the content type of a name is library code.
- Pushing assets: it uploads without hashing, so there is nothing to promise about the bytes.
- Printer.Printer.Write: the writer does not fail.
- Versions.SortVersions: the order among versions that compare equal is not fixed, as in the library sort.
- AuditReport.MergeAll: which checks are run, and what they find, is left out; their reports are given.
