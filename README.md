# nyfiken, modelled in Dafny

nyfiken is a daemon (`nyfikend`) that watches web pages and tells its user when they change. Each page comes from a section of `pages.ini` and is re-checked every interval. A check has these steps:

1. Download the page.
2. Cut out the part of it the user cares about, using a CSS selector, "strip" functions, an include pattern and an exclude pattern.
3. Compare that selection with the copy cached at the previous check, using a character-sum distance.
4. If the distance exceeds the page's threshold, record the page's URL in the registry of updated pages, optionally mail the user, and rewrite the cached copy.

A client talks to the daemon over a socket with three queries. "updates?" returns the registry, "clear all!" empties it and "recheck!" checks every page at once. `nyfikend -c` instead removes cached files that no page owns.

The model covers this core:
- the file-name escapers of `filename`;
- the two distance functions (`distance`, `strmetr`);
- the HTML strip functions (`strip`);
- a page's check, download charset handling and selection pipeline (`page`);
- the reading of `config.ini` and `pages.ini` (`ini`);
- the daemon's tick, `-c` start-up and `clean` (`cmd/nyfikend`);
- the client protocol's query switch and `forceUpdate` (`cli`);
- the notification mail (`mail`).

How the model is built:
- **Imperative code stays imperative.** Rune loops, the tick loop, the collector, `clean`, the section loops of `ReadPages` and the query loop are methods with loops. Each is proved equal to a specification function. The properties are then lemmas about those functions.
- **Package state is a class.** The package-level state of `settings` (the global settings, `Updates` and the copy saved to disk) is the class `Settings.Globals`. The cache directory is `Page.Cache`, a map from file name to contents. The error channels are classes whose `sent` sequence only grows, and so are the daemon log and the client connection.
- **HTML trees are objects.** An HTML tree is a `Html.Node` object graph, and the strip functions rewrite it in place.
- **Foreign libraries are parameters.** HTML parsing, CSS selectors, rendering, regular expressions, transcoding, `time.ParseDuration`, `url.Parse`, the ini library's numeric conversions, HTTP and SMTP are function-valued parameters, bundled in `Page.Lib`, `Page.World` and `Ini.Conv`.
- **Go map order is a sequence.** Go map iteration order (the sections and fields of an ini file) is the order of a sequence.

Where the code and its documentation or tests disagree, the model follows the code:
- `filename.Encode` writes `/` as upper-case `%2F`, through `url.QueryEscape`. Its test expects `%2f` (`FileName.EncodeSlashIsUpperCase`). `filename.Linux` writes lower-case `%2f`.
- The duration parsed in `parseSettings` is assigned before it is checked. A bad interval therefore leaves 0 in the global settings as well as being reported.
- `newline` is read in `parseSettings`, but it is not in the field whitelist. A `[settings]` section that sets it is refused, so the configured newline is always the default (`Ini.NewlineIsNeverConfigured`).
- Clearing the registry from the client does not save it, so the copy on disk keeps its old contents.
- `Check` names its cache file with `filename.Linux` of the URL. `clean` expects `filename.Encode` of `UrlAsFilename()`. The two spellings of `/` differ (`FileName.EncodeAgreesWithLinuxIffNoSlash`).
- The code at this revision uses names it does not define: `settings.Global.Newline`, `settings.DefaultNewline`, `Page.UrlAsFilename`, `page.ForceUpdate` and `ErrInvalidFileNameLength`. The model takes the newline default and `UrlAsFilename` as parameters. `Global.Newline` is a field of `Settings.Prog`.
- `ReadSettings`, `ReadPages` and `ReadIni` are declared without parameters but called with paths. The model passes them the loaded file.

## Model

| member | source | states |
|---|---|---|
| FileName.IsHostile | filename/filename_linux.go:70-73 | only `/` and NUL are hostile, and each is one byte long |
| FileName.IsSafeLen | filename/filename_linux.go:33-36 | a safe name has fewer than 255 bytes, so fewer than 255 runes |
| FileName.QueryEscape | filename/filename_linux.go:22 | the escape of a hostile rune is three runes, starts with `%` and is free of hostile runes |
| FileName.Encoded | filename/filename_linux.go:19-26 | the escaped name has no hostile rune, is two bytes longer per hostile rune, and equals the input when the input has none |
| FileName.Stripped | filename/filename_linux.go:40-47 | the stripped name has no hostile rune, loses exactly the hostile runes, and equals the input when the input has none |
| FileName.Replaced | filename/filename_linux.go:56-63 | each hostile rune becomes the replacement (length accounting), and a hostile-free replacement gives a hostile-free name |
| FileName.Encode | filename/filename_linux.go:18-31 | succeeds exactly when the escaped name is under 255 bytes and then returns it; otherwise returns "" and the length error with the escaped byte length and 255; a safe, hostile-free name comes back unchanged |
| FileName.Strip | filename/filename_linux.go:39-52 | the same contract over the stripped name |
| FileName.Replace | filename/filename_linux.go:55-68 | the same contract over the replaced name |
| FileName.LinuxRune | filename/filename.go:11-18 | `/` and NUL become three hostile-free runes, anything else is kept |
| FileName.LinuxEscaped | filename/filename.go:9-21 | the escaped name is hostile-free, two bytes longer per hostile rune, unchanged without hostile runes |
| FileName.Linux | filename/filename.go:9-21 | the loop returns LinuxEscaped of its input, with its properties; it never fails and has no length limit |
| FileName.ReplaceEmptyIsStrip | filename/filename_linux.go:39-68 | replacing with "" is stripping |
| FileName.ReplaceEmptyAgreesWithStrip | filename/filename_linux.go:39-68 | so `Replace(s, "")` and `Strip(s)` pass or fail the length check together, on the same length |
| FileName.LinuxIdempotent | filename/filename.go:9-21 | escaping an escaped name changes nothing |
| FileName.EncodedIsLinuxWithoutSlash | filename/filename.go:9-21 | on names without `/` the two escapers agree |
| FileName.EncodeAgreesWithLinuxIffNoSlash | filename/filename.go:12-13 | Encode's and Linux's escapes agree exactly on the names without `/` |
| FileName.EncodeSlashIsUpperCase | filename/filename_linux_test.go:14 | the code yields `asdf%2F` for `asdf/`, not the `asdf%2f` the test table expects |
| Distance.Ratio | distance/distance.go:14-19 | the score is in [0, 1], is 0 exactly when the sums are equal, and is 1 exactly when one sum is 0 and the other positive |
| Distance.Approx | distance/distance.go:5-20 | the two accumulation loops produce Ratio of the two code-point sums |
| Distance.SelfDistanceIsZero | distance/distance.go:5-20 | a string is at distance 0 from itself |
| Distance.Symmetric | distance/distance.go:14-19 | the score does not depend on the argument order |
| Distance.EqualSumsScoreZero | distance/distance.go:5-20 | strings with equal code-point sums score 0 |
| Distance.DifferentStringsCanScoreZero | distance/distance.go:5-20 | "ad" and "bc" differ but score 0 |
| Distance.PermutationInvariant | distance/distance.go:5-20 | reordering the characters of either string leaves the score unchanged |
| StrMetr.Percentage | strmetr/strmetr.go:14-19 | the score is 100 times Distance.Ratio, lies in [0, 100] and is 0 exactly when the sums are equal |
| StrMetr.Approx | strmetr/strmetr.go:5-20 | the two accumulation loops produce Percentage of the two code-point sums |
| StrMetr.SelfDistanceIsZero | strmetr/strmetr.go:5-20 | a string is at distance 0 from itself |
| StrMetr.Symmetric | strmetr/strmetr.go:14-19 | the score does not depend on the argument order |
| StrMetr.EqualSumsScoreZero | strmetr/strmetr.go:5-20 | strings with equal sums score 0 whatever their content |
| StrMetr.AppendingScoresAboveZero | strmetr/strmetr.go:5-20 | appending a non-NUL character always gives a score above 0 |
| Strip.DigitFreeDropsDigits | strip/strip.go:25-29 | the rune loop leaves no digit, never lengthens the string, and returns a digit-free string unchanged |
| Strip.DigitFreeKeepsTheRest | strip/strip.go:25-29 | every rune that is not a digit is kept as often as it occurs; with `DigitFreeSplit` (order over concatenation) and `AllDigitsVanish` this pins the result down to exactly the non-digit runes in order |
| Strip.DropDigits | strip/strip.go:25-29 | the rune loop returns DigitFree of the trimmed text |
| Strip.NumbersTree | strip/strip.go:21-36 | the walk keeps each node's children count and passes its label through the text-node rewrite |
| Strip.NumbersOnlyTouchesText | strip/strip.go:21-36 | the pre-order labels after Numbers are the input's, each rewritten on its own: only text nodes change |
| Strip.NumbersText | strip/strip.go:22-31 | a text node's data becomes its trimmed data without digits; its children stay |
| Strip.NumbersWalk | strip/strip.go:21-36 | the recursive closure turns the node's tree into NumbersTree of it, in place, within the same objects |
| Strip.NumbersChildren | strip/strip.go:33-35 | the sibling loop rewrites every child's subtree and keeps the node's own label |
| Strip.NumbersChild | strip/strip.go:33-35 | one turn of the sibling loop rewrites exactly child `i` |
| Strip.Numbers | strip/strip.go:19-41 | `doc` becomes NumbersTree of itself in place and the result is the clean rendering of the new tree |
| Strip.AttrsTree | strip/strip.go:46-54 | the walk keeps each node's children count and passes its label through the element rewrite |
| Strip.AttrsOnlyTouchesElements | strip/strip.go:46-54 | element nodes lose their attributes and nothing else changes anywhere |
| Strip.AttrsWalk | strip/strip.go:46-54 | the recursive closure turns the node's tree into AttrsTree of it, in place |
| Strip.AttrsChildren | strip/strip.go:51-53 | the sibling loop rewrites every child's subtree and keeps the node's own label |
| Strip.AttrsChild | strip/strip.go:51-53 | one turn of the sibling loop rewrites exactly child `i` |
| Strip.Attrs | strip/strip.go:44-59 | `doc` becomes AttrsTree of itself in place and the result is the clean rendering |
| Strip.ChildTexts | strip/strip.go:69-71 | one string per child |
| Strip.TextIsLinesInPreOrder | strip/strip.go:62-76 | the accumulated text is, in document order, each text node's trimmed data followed by Newline, and nothing for other nodes |
| Strip.TextWalk | strip/strip.go:64-72 | the closure appends exactly the subtree's text to the string it is handed |
| Strip.TextChildren | strip/strip.go:69-71 | the sibling loop appends the children's texts, first to last |
| Strip.HTML | strip/strip.go:62-76 | the result is the trimmed text nodes, one per line, in pre-order |
| Strip.NumbersKeepsSpaceBeforeDigits | strip/strip_test.go:21 | trimming happens before the digits go, so "Number test 12345" becomes "Number test " as the test expects |
| Strip.AllDigitsVanish | strip/strip.go:25-29 | a text of digits only becomes empty |
| Strip.DigitFreeSplit | strip/strip.go:25-29 | dropping digits distributes over concatenation |
| Mail.Compose | mail/mail.go:16-41 | the server is the outgoing server, the auth is PLAIN with the sender's address, password and authorization server, from is the sender, to is the one recipient and the message is the template |
| Mail.Send | mail/mail.go:14-47 | succeeds exactly when the SMTP client does, and otherwise wraps the client's error |
| Mail.MessageLines | mail/mail.go:25-33 | read back line by line, the message starts with `From: ` and the sender, `To: ` and the recipient, `Subject: [ nyfiken ] ` with the host and `: update`, the three content headers, a blank line and the link |
| Mail.MessageEndsWithBody | mail/mail.go:32-33 | the message ends with the body, `</body><html>` and the newline |
| Mail.RecipientCanAddHeader | mail/mail.go:25-26 | a recipient holding a newline puts its second part on a header line of its own |
| Mail.SplitLines | mail/mail.go:25-33 | joined lines free of newlines split back into the same lines |
| Page.Charset | page/page.go:184-195 | the token loop returns CharsetOf the Content-Type |
| Page.CharsetDefaultsToUtf8 | page/page.go:184-195 | with no token naming a charset it stays "utf-8" |
| Page.LastCharsetWins | page/page.go:187-195 | otherwise the value of the last token that contains "charset" and splits on `=` into two parts wins |
| Page.Download | page/page.go:147-201 | the method returns DownloadOf the reply |
| Page.Utf8IsNotTranscoded | page/page.go:196-198 | a "utf-8" body never reaches the decoder |
| Page.ErrorStatusFails | page/page.go:173-175 | a status of 400 or more fails with the URL, the code and the status, whatever the body |
| Page.MakeSelection | page/page.go:204-291 | the method returns Selection: selector, render and reparse, strip functions in order, include, exclude, with the first error deciding |
| Page.MatchLinesAppend | page/page.go:268-271 | one more match appends that match and a newline |
| Page.MatchLinesSplit | page/page.go:266-271 | read back on newlines, the include step gives its matches one per line and a final empty piece; no match gives "" |
| Page.StripNamesIgnoreCase | page/page.go:240 | strip function names match regardless of ASCII case |
| Page.UnknownStripKeepsSelection | page/page.go:241-248 | an unknown strip name leaves the selection unchanged |
| Page.NoStripFuncs | page/page.go:212-233 | with no strip functions the selection is the rendered hits passed through the two patterns |
| Page.EmptySelectorSelectsDocument | page/page.go:212-213 | an empty selector with nothing else set selects the rendered document |
| Page.Channel.Send | page/page.go:53 | a send appends exactly one value |
| Page.Check | page/page.go:39-134 | exactly one value is sent; the registry and the cache become what CheckOf gives; the global settings and the saved registry are untouched |
| Page.CompareAndStore | page/page.go:68-133 | the part after the selection: the read, baseline write or comparison, as Compare gives |
| Page.MailAndStore | page/page.go:101-131 | after recording an update: the mail, then the cache rewrite, as AfterUpdate gives |
| Page.FailedDownloadChangesNothing | page/page.go:50-59 | a timeout or failed download is reported and changes neither the registry nor the cache |
| Page.FirstSightIsBaseline | page/page.go:72-86 | a missing cache file is written with the selection, nothing is recorded, and nil is sent unless the write fails |
| Page.ReadFailureWritesNothing | page/page.go:87-90 | any other read error is reported and nothing is written or recorded |
| Page.UpdateIffOverThreshold | page/page.go:94-99 | the URL is recorded exactly when the distance exceeds the threshold |
| Page.MailFailureKeepsOldCache | page/page.go:113-123 | a failing mail selection or send is reported after the URL is recorded, and the old cached copy stays |
| Page.NoMailUnlessWanted | page/page.go:103-106 | without a recipient and all three sender settings the SMTP client is never consulted |
| Page.MailIgnoresStripFuncs | page/page.go:111-113 | the mailed selection does not depend on the page's strip functions |
| Page.CheckOnlyAddsItsUrl | page/page.go:98-99 | a check adds at most its own URL and removes nothing |
| Page.CheckOnlyWritesItsFile | page/page.go:69-131 | a check writes at most its own cache file, with its selection, and leaves every other file alone |
| Ini.Find | ini/ini.go:89-90 | a key is found exactly when some field has that name |
| Ini.UnknownField | ini/ini.go:109-113 | no unknown field is found exactly when every field is whitelisted; a found one is not whitelisted |
| Ini.CheckFields | ini/ini.go:109-113 | the field loop reports the first unknown field, or nothing |
| Ini.FileMode | ini/ini.go:125 | os.FileMode keeps the low 32 bits and leaves a 32-bit value alone |
| Ini.ParseSettings | ini/ini.go:108-137 | the global settings and the error become SettingsOf; the registry is untouched |
| Ini.ParseMail | ini/ini.go:140-179 | the global settings and the error become MailOf; the registry is untouched |
| Ini.ReadSettings | ini/ini.go:80-105 | the global settings and the error become ReadSettingsOf |
| Ini.UnknownFieldComesFirst | ini/ini.go:109-113 | an unknown field is reported before anything is written |
| Ini.NewlineIsNeverConfigured | ini/ini.go:58-64 | a section naming "newline" is refused, and an accepted one leaves the default newline |
| Ini.SettingsDefaults | ini/ini.go:117-134 | absent fields give one minute, 0600, ":5239" and no browser |
| Ini.BadIntervalLeavesZero | ini/ini.go:117-122 | a bad duration is reported and leaves interval 0 |
| Ini.MailAcceptedIff | ini/ini.go:140-179 | [mail] is accepted exactly when all fields are known, both addresses are set and hold '@', and both servers are set; the values are then stored |
| Ini.BadAddressIsKept | ini/ini.go:148-161 | a refused address has already been stored |
| Ini.ReceiverCheckedFirst | ini/ini.go:148-153 | the receiving address is checked before the sending one |
| Ini.AbsentSectionsChangeNothing | ini/ini.go:89-104 | without [settings] and [mail] reading succeeds and changes nothing |
| Ini.SettingsErrorSkipsMail | ini/ini.go:91-96 | a failing [settings] stops the read before [mail] |
| Ini.ParseHeaders | ini/ini.go:242-252 | the header loop returns HeadersOf the lines |
| Ini.HeadersKeepError | ini/ini.go:244-251 | once a prefix of the lines fails, the whole list fails the same way |
| Ini.HeadersAcceptedIff | ini/ini.go:244-251 | headers are accepted exactly when every line holds ':' |
| Ini.HeadersNameFirstBadLine | ini/ini.go:248-250 | the error names the first line without ':' |
| Ini.HeadersFailOnBadHeader | ini/ini.go:244-251 | the header map fails exactly when BadHeader finds a line (the first without ':'), and the error names that line |
| Ini.HeaderLastWins | ini/ini.go:245-247 | each key maps to the trimmed value of the last line carrying it |
| Ini.HeaderKeysComeFromLines | ini/ini.go:245-247 | every key of the map comes from some line |
| Ini.ReadPage | ini/ini.go:198-265 | one section of the loop gives PageOf |
| Ini.ReadPages | ini/ini.go:182-269 | the loop gives ReadPagesOf: the load error, the first section's error, or the pages |
| Ini.ReadIni | ini/ini.go:273-288 | the settings are read first; a failure returns without reading the pages, which are otherwise read under the new settings |
| Ini.PageDefaults | ini/ini.go:214-260 | an empty section takes the global interval and recipient, threshold 0, and no patterns, headers or strip functions |
| Ini.PageRefusesBrowser | ini/ini.go:198-202 | a settings-only field is refused in a page |
| Ini.PageAddressNeedsAt | ini/ini.go:236-239 | a page's own non-empty recipient needs '@' |
| Ini.StripMustBeAList | ini/ini.go:255-260 | `strip = ...` instead of a list is refused |
| Ini.NamedOnly | ini/ini.go:192-196 | the kept sections are all named and no more than the input |
| Ini.PagesAcceptedIff | ini/ini.go:192-268 | the pages are read exactly when every named section makes a page |
| Ini.UnnamedIsSkipped | ini/ini.go:194-196 | skipping the unnamed section equals reading only the named ones |
| Ini.OnePagePerSection | ini/ini.go:192-268 | one page per named section, in order, each that section's page |
| Ini.PagesFollowNamedSections | ini/ini.go:182-269 | an accepted file yields exactly the pages of its named sections, in order |
| Checks.RunChecks | cmd/nyfikend/nyfikend.go:89-98 | a batch sends one value per started check |
| Checks.BatchOnlyAddsItsUrls | cmd/nyfikend/nyfikend.go:89-98 | a batch adds only the URLs of its pages and removes none |
| Checks.BatchOnlyWritesItsFiles | cmd/nyfikend/nyfikend.go:89-98 | a batch leaves every file that is not one of its pages' cache files alone |
| Checks.Dispatch | cmd/nyfikend/nyfikend.go:96-97 | one more check extends the batch state by that page |
| Checks.DispatchAll | cli/cli.go:109-113 | one check per page, in order, on a fresh channel; the count returned is the number of pages |
| Checks.FailuresAreTheErrors | cmd/nyfikend/nyfikend.go:103-107 | exactly the non-nil values are logged, no more of them than values |
| Checks.Collect | cmd/nyfikend/nyfikend.go:102-108 | the collector reads exactly `nChecks` values and appends the non-nil ones to the log in order |
| Daemon.MultipleOfIsMod | cmd/nyfikend/nyfikend.go:92 | repeated subtraction reaching 0 is a remainder of 0 |
| Daemon.DuePages | cmd/nyfikend/nyfikend.go:89-94 | the due pages are pages of the list, each due |
| Daemon.DuePagesAreTheDueOnes | cmd/nyfikend/nyfikend.go:89-94 | a page is dispatched exactly when it is listed and its interval divides the seconds elapsed |
| Daemon.AllDueAtStart | cmd/nyfikend/nyfikend.go:82-94 | at second 0 every page with a non-zero interval is checked |
| Daemon.ZeroIntervalNeverDue | cmd/nyfikend/nyfikend.go:92 | a zero interval (a NaN remainder) is never due |
| Daemon.DueRepeats | cmd/nyfikend/nyfikend.go:92 | a page is due again exactly one interval later |
| Daemon.Tick | cmd/nyfikend/nyfikend.go:84-108 | the tick dispatches one check per due page, counts them, and the collector logs their failures; the registry and cache become RunChecks of the due pages |
| Daemon.DispatchDue | cmd/nyfikend/nyfikend.go:89-98 | exactly the due pages are checked, in order, and counted |
| Daemon.Run | cmd/nyfikend/nyfikend.go:82-111 | the counter starts at 0 and rises by one per tick, and tick `s` starts as many checks as there are pages due at second `s`; after `ticks` iterations the registry, the cache and the log are what `Ticks` gives: each iteration runs the checks of the pages due at its second on the state the last one left, and logs their failures |
| Daemon.DueCountsAreDuePages | cmd/nyfikend/nyfikend.go:87-98 | the counts the loop records are, tick by tick, the number of pages due at that second |
| Daemon.DueBatchAddsPageUrls | cmd/nyfikend/nyfikend.go:84-98 | the checks started in one tick only add to the registry, and only URLs of configured pages |
| Daemon.TicksOnlyAppendToLog | cmd/nyfikend/nyfikend.go:100-108 | however many ticks run, what was logged before stays at the head of the log |
| Daemon.IsOwned | cmd/nyfikend/nyfikend.go:174-184 | the page loop returns Owned: a match, no match, or the first name that cannot be encoded |
| Daemon.Clean | cmd/nyfikend/nyfikend.go:160-194 | the cache and the error become CleanOf: a ReadPages or ReadDir error first, then the entry loop |
| Daemon.OwnedIffNamed | cmd/nyfikend/nyfikend.go:174-184 | when every name can be encoded, an entry is owned exactly when it is some page's encoded name plus ".htm" |
| Daemon.CleanRemovesExactlyTheOrphans | cmd/nyfikend/nyfikend.go:173-191 | without errors, exactly the listed entries with no owner are removed, and nothing else changes |
| Daemon.CleanStopsAtFirstError | cmd/nyfikend/nyfikend.go:176-189 | the first error stops the loop: later entries are never looked at |
| Daemon.Start | cmd/nyfikend/nyfikend.go:54-61 | with `-c` only clean runs, under unchanged settings; otherwise the configuration is read and the cache untouched |
| Cli.Outbox.Send | cli/cli.go:75 | a send appends exactly one value |
| Cli.ForceUpdate | cli/cli.go:98-125 | the registry, cache, log and error become ForceUpdateOf |
| Cli.ForceFailureChangesNothing | cli/cli.go:99-102 | a ReadPages error is returned and nothing is checked |
| Cli.ForceChecksEveryPage | cli/cli.go:104-124 | otherwise one check per page, the collector reads one value per page, and nil is returned |
| Cli.ForceErrorIsReadPagesError | cli/cli.go:98-125 | forceUpdate fails exactly when ReadPages does, with its error |
| Cli.ForceOnlyAddsPageUrls | cli/cli.go:109-113 | a recheck adds only URLs of the pages it read |
| Cli.HandleEvent | cli/cli.go:63-92 | one select case and the nil after it: the objects take StepOf's state |
| Cli.TakeInput | cli/cli.go:62-93 | the loop takes the objects to Session of the events |
| Cli.ClearAllEmptiesRegistry | cli/cli.go:77-78 | "clear all!" empties the registry and changes nothing else; nothing is saved |
| Cli.UpdatesQuerySendsRegistry | cli/cli.go:68-76 | "updates?" sends the registry whole and leaves it unchanged, or forwards the encoder's error |
| Cli.UnknownQueryChangesNothing | cli/cli.go:67-84 | any other line only produces the nil |
| Cli.EofIsNotForwarded | cli/cli.go:87-91 | a read error is forwarded exactly when it is not "EOF" |
| Cli.StepSendsOneNil | cli/cli.go:92 | each turn ends with exactly one nil after what its case sent |
| Cli.OneNilPerEvent | cli/cli.go:62-93 | Listen's channel receives one nil per event |
| Cli.StepOnlyAddsPageUrls | cli/cli.go:67-84 | a turn adds only URLs of the pages in the pages file |
| Cli.SessionOnlyAddsPageUrls | cli/cli.go:62-93 | over a connection the registry gains only URLs of the pages file |
| Cli.StepWithoutRecheckAddsNothing | cli/cli.go:67-84 | only "recheck!" can add to the registry |
| Cli.SessionWithoutRecheckAddsNothing | cli/cli.go:62-93 | without "recheck!" the registry can only shrink |

## Left out

- Goroutines and channels: checks, the collector and the reader goroutine run one after another in dispatch order. A channel is the sequence of values sent on it.
- Timeouts: the download-or-timeout race of `Check` is an oracle that returns a timeout, a request error or a response.
- `time.Sleep` and wall-clock time: second `s` is the `s`-th turn of the loop, and intervals are whole seconds (sub-second durations and the float remainder of `math.Mod` are not modelled).
- Floating point: distances and thresholds are reals, without rounding.
- The filesystem, gob and the network: the cache directory is a map, reading and writing a file and removing one are oracles, and the registry on disk is the `saved` field, which nothing in the core writes.
- `watchConfig`, `Listen`, `usage` and `main`: configuration watching, the accept loop and process start-up are outside this model. The watcher calls the undefined `page.ForceUpdate`.
- `Listen` reads one value per connection, so a second query on a connection blocks takeInput. Cli.TakeInput processes the events without that blocking.
- cmd/nyfikenc/nyfikenc.go, the client, is not part of this model.
- filename/filename_windows.go does not compile and is not part of this model.
- `settings.SaveUpdates`, `LoadUpdates` and `initialize` are filesystem code and are left out.
- Go's randomized map iteration order: the `range` loops over sections and fields (ini/ini.go:109, 141, 192 and 198) visit them in an order that changes from run to run. The model takes that order as an input sequence, so which unknown field or which bad section is reported first is fixed by the input rather than left open.
- The `jteeuwen/ini` library is assumed to deliver a list field (`key <`) as a list and a scalar as a string. A scalar lookup of a list-valued field yields the default.
- Cli.UpdatesQuerySendsRegistry: when the gob encoder fails, nothing is recorded as written, though the real encoder may have written part of the value.
- Go strings are byte strings, and the model's strings are sequences of Unicode code points. Invalid UTF-8 is not modelled. In Go, `range` decodes each invalid byte as U+FFFD, which then adds 65533 to the code-point sums of `distance.Approx` and `strmetr.Approx`, and `len` in `IsSafeLen` counts raw bytes. `Text.ByteLen` is the UTF-8 length of valid code points only. Cached files read back with `string(buf)` are taken to be valid UTF-8.
- Page.Download: `mahonia.NewDecoder` returns nil for a charset it does not know (say `charset=bogus`, or `charset=` with an empty value). On a non-empty body the source then calls that nil decoder at page/page.go:196-198, and the daemon panics and exits. The model's decoder (`Lib.decode`) always returns a string, so such a download goes on to parsing, and `Page.Check` still sends its one value.
- Text.ToLower lowers ASCII letters only, while Go's `strings.ToLower` uses full Unicode case mapping. Its only use is in matching the strip names "numbers", "attrs" and "html", which are ASCII, and the model relies on the two lowerings agreeing on those names. Unicode case mapping of any other text is not modelled.
- The text of error messages (colours, wrapping) is not modelled; errors are constructors carrying their data.
