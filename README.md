# ESP32-CAM / SIM800L monitoring system — a Dafny model of its core

The system is a battery-powered GSM camera and the two Python services it
talks to. The ESP32-CAM firmware wakes from deep sleep, reads its settings
from the server, photographs, reads the SMS stored on the SIM card and posts
everything over the SIM800L modem's HTTP stack. The FastAPI service
(`app/app_sim800`) receives the uploads, the settings requests and the SMS
batches behind a security middleware that keeps a file-backed IP blocklist.
The Flask service (`app/app_web`) shows the images, the telemetry and the
SMS log behind a gate of its own.

This project models the logic of that system that can be stated
precisely and proves properties of it:

- **Request gatekeeping** (`patterns.dfy`, `blocklist.dfy`, `limiter.dfy`,
  `gatekeeper.dfy`, `webgate.dfy`): the detection patterns, the `IPBlocker`
  cache of both services as classes over an explicit file (its lines and
  its modification time), the client-IP and rate-limit key functions, the
  FastAPI middleware's order of checks, and the Flask `SecurityManager`.
- **Ingestion** (`filenames.dfy`, `telemetry.dfy`, `pruning.dfy`,
  `sms.dfy`): the positional file-name parsers of both services, the
  telemetry CSV merge, the image-directory pruning, and the SMS log's
  merge, deduplication, ordering and listing.
- **Settings trees** (`json.dfy`, `settings.dfy`): the settings document,
  `flatten_settings`, the FastAPI `apply_updates` and the Flask
  `update_settings`, with the request outcomes around them.
- **Firmware** (`arduino.dfy`, `sim800_codecs.dfy`, `sms_inbox.dfy`,
  `sms_outbox.dfy`, `device_json.dfy`, `device_settings.dfy`,
  `api_params.dfy`): the Arduino `String` primitives the code relies on;
  the UCS-2 decoder (RFC 3629 section 3), the JSON escaper (RFC 8259
  section 7), the `+CCLK` clock reformatter and the HTTP status reader;
  the `+CMGL` listing parser (3GPP TS 27.005 section 3.4.2); the SMS batch
  sent to the server; the flat-JSON settings scanner and the RTC settings
  copy; and the URL and access-point constructors.

`text.dfy` holds the Python string and integer primitives shared by the
server-side modules (`str.lower`, `str.strip`, `str.split`, `int()`,
slicing with negative bounds).

Clocks, file modification times, the modem's replies and the
`datetime.strptime` parse are parameters of the model.

## Model

| member | source | states |
|---|---|---|
| IpBlocklist.StrippedMembers | app/app_sim800/security.py:72-73 | an address is in the reloaded set exactly when it is non-empty and some line of the file strips to it |
| IpBlocklist.StrippedConcat | app/app_sim800/security.py:73 | the set comprehension over two runs of lines is the union of the two sets |
| IpBlocklist.RefreshMonotone | app/app_sim800/security.py:63-76 | update_cache never lowers the remembered mtime and never touches the file or the warning log |
| IpBlocklist.RefreshOutcome | app/app_sim800/security.py:67-76 | a refresh that changes the state replaces the set by the file's stripped non-empty lines; a missing or unreadable file, or an mtime not newer than the last one seen, leaves the state unchanged |
| IpBlocklist.RefreshIdempotent | app/app_sim800/security.py:63-76 | refreshing twice is the same as refreshing once |
| IpBlocklist.TrustedNeverWritten | app/app_sim800/security.py:85-86 | block_ip of a trusted address changes nothing |
| IpBlocklist.FailedWriteChangesNothing | app/app_sim800/security.py:88-95 | when the append fails, the set, the file and the log stay as they were (the exception is only logged) |
| IpBlocklist.BlockEffect | app/app_sim800/security.py:88-93 | a successful block adds the address to the set and one warning entry to the log, and leaves the remembered mtime alone |
| IpBlocklist.LinesAppend | app/app_sim800/security.py:90-91 | appending `ip + "\n"` to a line-terminated file adds one line `ip` in front of the final empty line |
| IpBlocklist.UniversalAppend | app/app_sim800/security.py:71-72 | text-mode newline translation distributes over an appended line without carriage returns |
| IpBlocklist.LoadedAppend | app/app_sim800/security.py:72-73 | appending `ip + "\n"` to a line-terminated file adds exactly that address to what a reload reads |
| IpBlocklist.AppendTerminates | app/app_sim800/security.py:91 | the file stays line-terminated after each block |
| IpBlocklist.BlockThenBlocked | app/app_sim800/security.py:78-92 | after a successful block of a clean address in a line-terminated file, is_blocked reports it whether or not the refresh reloads |
| IpBlocklist.QueryFinds | app/app_sim800/security.py:78-81 | an address both cached and present in the file is reported blocked |
| IpBlocklist.RefreshKeepsConsistent | app/app_sim800/security.py:63-76 | a refresh keeps the cache a subset of the file's addresses and the file line-terminated |
| IpBlocklist.BlockKeepsConsistent | app/app_sim800/security.py:83-95 | so does any block of a clean address |
| IpBlocklist.EmptyAddressForgotten | app/app_sim800/security.py:90-92 | an empty address is cached in memory after block_ip, but the next reload drops it, so is_blocked then says no |
| IpBlocklist.BlankLineLoadsNothing | app/app_sim800/security.py:73 | a file holding one empty line reloads as the empty set |
| IpBlocklist.UnterminatedLineMerges | app/app_sim800/security.py:72-73 | when the last line lacks its line break, the next appended address is glued onto it and neither address is found after a reload |
| IpBlocklist.OneLineLoads | app/app_sim800/security.py:72-73 | a file of one clean line reloads as that address alone |
| IpBlocklist.EmptyLoadsNothing | app/app_sim800/security.py:72-73 | an empty file reloads as the empty set |
| IpBlocklist.ReadBlocklist | app/app_sim800/security.py:71-73 | the loop over the file's lines builds exactly the reloaded set |
| IpBlocklist.StripLines | app/app_sim800/security.py:73 | the loop adds each stripped non-empty line and nothing else |
| IpBlocklist.IPBlocker.constructor | app/app_sim800/security.py:57-61 | an empty set, a remembered mtime of 0 and an empty log |
| IpBlocklist.IPBlocker.UpdateCache | app/app_sim800/security.py:63-76 | the new state is the refresh of the old one |
| IpBlocklist.IPBlocker.IsBlocked | app/app_sim800/security.py:78-81 | refreshes, then answers membership in the refreshed set |
| IpBlocklist.IPBlocker.BlockIp | app/app_sim800/security.py:83-95 | the new state is the block of the old one: trusted or failed writes change nothing, otherwise file, set and log grow together |
| Limiter.ClientIp | app/app_sim800/limiter.py:9-13 | behind a proxy, the whole X-Forwarded-For value when present; otherwise the remote address |
| Limiter.RateLimitKey | app/app_sim800/limiter.py:15-22 | a key, when there is one, is never a trusted address, and is the peer address or, behind a proxy, the whole X-Forwarded-For value; Limiter.ExemptIffTrusted states when there is none |
| Limiter.ExemptIffTrusted | app/app_sim800/limiter.py:15-22 | the key is absent (exempt) exactly for trusted clients, and otherwise is the client address |
| Limiter.ForwardedIgnoredWithoutProxy | app/app_sim800/limiter.py:11-13 | without a proxy, a spoofed X-Forwarded-For header does not change the key |
| Limiter.ForwardedChainNotSplit | app/app_sim800/limiter.py:12 | a forwarded chain of two addresses is one untrusted key, even when its first address is trusted |
| SecurityPatterns.PlainMatch | app/app_sim800/security.py:23 | a plain alternative matches at a position exactly when the text there agrees with it up to case |
| SecurityPatterns.PlainOccurrenceFound | app/app_sim800/security.py:18-52 | every plain alternative is found wherever its lower-cased text occurs in the lower-cased input |
| SecurityPatterns.PrefixMatch | app/app_sim800/security.py:18-52 | a run of plain characters and dots matches character by character, and the rest of the pattern carries on behind it |
| SecurityPatterns.EscapeMatch | app/app_sim800/security.py:19 | an escaped character matches itself, up to case |
| SecurityPatterns.OptionalMatch | app/app_sim800/security.py:19 | a character marked optional may be skipped or taken |
| SecurityPatterns.DotsAreWildcards | app/app_sim800/security.py:28 | the unescaped dots of `/../../` match any characters but newlines: every `/xy/zw/` hits BLOCKED_KEYWORDS |
| SecurityPatterns.OrdinaryPathDenied | app/app_sim800/security.py:28 | so the ordinary path `/ab/cd/` hits BLOCKED_KEYWORDS |
| SecurityPatterns.OptionalLetter | app/app_sim800/security.py:19 | `secrets\.ya?ml` catches both `secrets.yml` and `secrets.yaml` |
| SecurityPatterns.SpellingMatches | app/app_sim800/security.py:19 | `secrets\.ya?ml` matches wherever either spelling is written |
| SecurityPatterns.MixedCaseEntryMatches | app/app_sim800/security.py:21-23 | with IGNORECASE the mixed-case entry `Util/PHP` does catch the lower-cased path `/util/php` |
| Gatekeeper.ReasonOf | app/app_sim800/security.py:155-162 | a pattern hit's reason ends with the pattern text of the check that fired |
| Gatekeeper.FirstHit | app/app_sim800/security.py:155-158 | the check found is one that fires, and no earlier check fires |
| Gatekeeper.FirstMatchWins | app/app_sim800/security.py:146-158 | the first firing check in the fixed order is the violation, whatever fires after it |
| Gatekeeper.LongUrlOnlyWithoutHit | app/app_sim800/security.py:160-162 | the URL-length rule applies exactly when no group fires and the URL is over 512 characters |
| Gatekeeper.TwoLetterSegmentsDenied | app/app_sim800/security.py:28 | a plain request for `/ab/cd/` is a violation |
| Gatekeeper.TrustedBypass | app/app_sim800/security.py:110-112 | a trusted client goes straight to the application and changes nothing |
| Gatekeeper.BlockedClientDenied | app/app_sim800/security.py:114-120 | a client the refreshed cache holds gets 403 "access denied" and is not blocked again |
| Gatekeeper.ViolationBlocksOnce | app/app_sim800/security.py:122-127 | a violation blocks the client once, with its reason, and answers 403 "threat detected" |
| Gatekeeper.HandlerOutcome | app/app_sim800/security.py:129-138 | a handler that raises gets the client blocked and a 500; a handler that returns is passed on unchanged |
| Gatekeeper.DispatchLogsAtMostOne | app/app_sim800/security.py:106-138 | one request adds at most one block entry, and the remembered mtime never goes back |
| Gatekeeper.ViolatorRefusedNext | app/app_sim800/security.py:115-127 | a client that trips a check is refused on its next request, however harmless |
| Gatekeeper.SecurityMiddleware.constructor | app/app_sim800/security.py:99-103 | the middleware owns a fresh blocker over the given file, trusting the configured addresses, with an empty cache and no mtime seen |
| Gatekeeper.SecurityMiddleware.CheckSecurityViolations | app/app_sim800/security.py:140-164 | returns whether a violation exists, and blocks the client with that violation's reason (else nothing changes) |
| Gatekeeper.SecurityMiddleware.Dispatch | app/app_sim800/security.py:106-138 | the response and the new blocker state are those of the dispatch rules above |
| WebSecurity.ComponentsRule | app/app_web/main.py:234-249 | the components are valid exactly when the method is allowed, no bad User-Agent fragment occurs and the URL is at most 512 characters |
| WebSecurity.FirstFailingStepDecides | app/app_web/main.py:207-232 | the reason is the one of the first of the six steps that refuses |
| WebSecurity.PassesIffNoStepFails | app/app_web/main.py:207-232 | the request passes the screening exactly when no step refuses |
| WebSecurity.TraversalStep | app/app_web/main.py:213 | the traversal test on path or query is two plain `any` tests |
| WebSecurity.UnblockedScreened | app/app_web/main.py:198-232 | for an untrusted client the refreshed cache does not hold, the verdict is the screening verdict |
| WebSecurity.TrustedAllowed | app/app_web/main.py:194-196 | a trusted address is allowed before any other check, without a refresh |
| WebSecurity.BlockedReason | app/app_web/main.py:198-201 | a blocked address is refused with the reason `Blocked IP: <ip>` |
| WebSecurity.ReasonIffRefused | app/app_web/main.py:190-232 | a reason is present exactly when the request is refused |
| WebSecurity.MixedCaseEntryDead | app/app_web/main.py:52 | the entry `Util/PHP` is never found in a lower-cased path |
| WebSecurity.WebGateNeverEnrols | app/app_web/main.py:578-585 | before_request never writes the blocklist file or the log: the coroutine block_ip is not awaited |
| WebSecurity.RefusedClientNotBlocked | app/app_web/main.py:581-585 | a refused client not already in the file is not reported blocked afterwards |
| WebSecurity.SecurityManager.constructor | app/app_web/main.py:186-188 | a fresh blocker with the empty state |
| WebSecurity.SecurityManager.IsRequestAllowed | app/app_web/main.py:190-232 | the verdict and the new blocker state are those of the request-verdict function |
| WebSecurity.SecurityManager.PerformSecurityChecks | app/app_web/main.py:578-585 | aborts exactly when the verdict refuses, and leaves the blocker as the verdict did |
| Filenames.BaseName | app/app_sim800/utilits.py:70 | the last path component: no `/`, a suffix of the path, the path itself when it has no `/` |
| Filenames.UploadRootsAgree | app/app_sim800/utilits.py:70-71 | for a stored upload name `x.ext`, `Path.stem` of the base name and `os.path.splitext` both give back `x` |
| Filenames.StampedParts | app/app_sim800/utilits.py:56-57 | cutting `<date>_<time>_<rest>` at `_` gives the date, the time, then the parts of the rest |
| Filenames.StampedNameParts | app/app_sim800/utilits.py:55-71 | both parsers cut a stored name `<date>_<time>_<rest>.<ext>` into the same parts: date, time, then the rest |
| Filenames.SignalLevel | app/app_sim800/utilits.py:83 | the signal percentage is 100·raw/31 truncated toward zero and not capped (30 gives 96, 62 gives 200) |
| Filenames.SignalExamples | app/app_sim800/utilits.py:83 | concrete values: 31 gives 100, 15 gives 48, 30 gives 96, 62 gives 200, -15 gives -48 |
| Filenames.DateTimeText | app/app_sim800/utilits.py:76-77 | for an 8-character date and a 6-character time, the text `dd.mm.YYYY HH:MM:SS` from their slices |
| Filenames.StampReadsBack | app/app_sim800/utilits.py:76-85 | the server stamp `YYYYmmdd_HHMMSS` reads back as `dd.mm.YYYY HH:MM:SS` |
| Filenames.StampedUploadReadsBack | app/app_sim800/utilits.py:50-91 | a name stored by save_file reads back its server stamp in the web metadata, and in the service parser unless that parser gives all 'N/A' |
| Filenames.SafeParse | app/app_web/main.py:789-794 | 'N/A' exactly when the index is out of range or float() refuses the text; otherwise the value over the divisor |
| Filenames.StemInfo | app/app_sim800/utilits.py:67-91 | all seven fields are 'N/A' exactly when a part is missing for the time or any present field fails to convert; otherwise each field is read from its part, or 'N/A' when the part is absent |
| Filenames.StemShortNameKeepsDate | app/app_sim800/utilits.py:74-88 | a name with only two to four parts still gives its date, with the signal and voltages 'N/A' |
| Filenames.RootInfoWith | app/app_web/utilits.py:77-128 | no result with fewer than three parts; otherwise each field is 'N/A' exactly when its own part is missing or fails to convert |
| Filenames.RootInfo | app/app_web/utilits.py:98-102 | as written, the reason is always 'N/A' |
| Filenames.RootReasonLost | app/app_web/utilits.py:98-102 | a known wake-up code is reported as 'N/A' as written, but named by the intended lookup |
| Filenames.ImageMetadata | app/app_web/main.py:758-787 | no result without a time part; the date is the formatted stamp, the user id is 'N/A' exactly without a third part, and each other field degrades on its own |
| Filenames.BadVoltageContrast | app/app_sim800/utilits.py:81 | one bad voltage field loses all seven fields in the service parser but only that field in the web parsers |
| Filenames.ValidFilename | app/app_sim800/utilits.py:31-37 | a name is valid exactly when TRAVERSAL finds nothing in it and it has a dot, with no dot after it, followed by an allowed extension in any case; Filenames.ValidFilenameByLastExtension and the refusal rows below state it on concrete names |
| Filenames.ValidFilenameByLastExtension | app/app_sim800/utilits.py:31-37 | a name is valid exactly when its last extension, lower-cased, is allowed and TRAVERSAL finds nothing in it |
| Filenames.DotlessRefused | app/app_sim800/utilits.py:34 | a name without a dot is refused |
| Filenames.ParentStepRefused | app/app_sim800/utilits.py:36 | a name holding `../` is refused, whatever its extension |
| Filenames.EncodedParentStepRefused | app/app_sim800/utilits.py:36 | the URL-encoded `%2e%2e/`, in any case, is refused too |
| Telemetry.KeepLast | app/app_sim800/utilits.py:123-124 | deduplication never lengthens the table |
| Telemetry.Without | app/app_sim800/utilits.py:123-124 | dropping a date leaves no row of that date |
| Telemetry.KeepLastDates | app/app_sim800/utilits.py:124 | deduplication loses no date and invents none |
| Telemetry.KeepLastUnique | app/app_sim800/utilits.py:124 | no two rows of the result share a date |
| Telemetry.KeepLastOfUnique | app/app_sim800/utilits.py:124 | a table whose dates are already distinct is left as it is |
| Telemetry.SurvivorsAreLast | app/app_sim800/utilits.py:124 | every surviving row is the last row of its date in the input (keep='last') |
| Telemetry.KeepLastWithout | app/app_sim800/utilits.py:124 | dropping a date commutes with deduplication |
| Telemetry.KeepLastAppend | app/app_sim800/utilits.py:123-124 | after appending a row, it comes last and every earlier row of its date is gone |
| Telemetry.WithoutOfUnique | app/app_sim800/utilits.py:124 | dropping a date keeps the dates distinct |
| Telemetry.WithoutAbsent | app/app_sim800/utilits.py:124 | dropping an absent date changes nothing |
| Telemetry.Merge | app/app_sim800/utilits.py:119-125 | the merged table has distinct dates, ends with the new row, and is at most one row longer than the old one; Telemetry.MergeShape, Telemetry.MergeKeepsOthers and Telemetry.MergeIdempotent state the rest |
| Telemetry.MergeShape | app/app_sim800/utilits.py:119-125 | the merged table is the deduplicated older rows of other dates, in order, then the new row; its dates are distinct |
| Telemetry.MergeKeepsOthers | app/app_sim800/utilits.py:119-125 | merging into a table with distinct dates keeps every other row untouched and in order |
| Telemetry.MergeKeepsDates | app/app_sim800/utilits.py:119-125 | every date of the older table survives a merge |
| Telemetry.MergeTwice | app/app_sim800/utilits.py:119-125 | a second row of the same date replaces the first |
| Telemetry.MergeIdempotent | app/app_sim800/utilits.py:119-125 | merging the same row twice gives the table of merging it once |
| Telemetry.MergeIntoNothing | app/app_sim800/utilits.py:119 | with no table yet (or an unreadable one) the file becomes the new row alone |
| Telemetry.SignalsCsv.constructor | app/app_sim800/utilits.py:136-144 | the table read from the file, absent when missing or unreadable |
| Telemetry.SignalsCsv.Existing | app/app_sim800/utilits.py:119 | the rows read, or none when the file is missing or unreadable |
| Telemetry.SignalsCsv.WriteToCsv | app/app_sim800/utilits.py:114-134 | the file afterwards holds the merge of the old rows with the new row |
| Telemetry.SignalsCsv.UpdateStats | app/app_sim800/utilits.py:93-112 | the file afterwards holds the merge of the old rows with the row parsed from the stored name |
| ImagePruning.Glob | app/app_sim800/utilits.py:168 | the listed files are exactly the `*.jpg` entries (hidden ones left out where glob skips them) |
| ImagePruning.Names | app/app_web/utilits.py:35 | the names of the files, one per file, in order |
| ImagePruning.SortBy | app/app_sim800/utilits.py:166-171 | sorting keeps the same files (a permutation) |
| ImagePruning.Insert | app/app_sim800/utilits.py:166-171 | one insertion step adds exactly the one file |
| ImagePruning.InsertOrdered | app/app_sim800/utilits.py:166-171 | inserting into an ordered listing keeps it ordered |
| ImagePruning.SortOrdered | app/app_sim800/utilits.py:166-171 | the sorted listing is ordered by modification time, newest first or oldest first as asked |
| ImagePruning.InsertAtTime | app/app_sim800/utilits.py:166-171 | an inserted file goes behind every file of its modification time |
| ImagePruning.SortStable | app/app_sim800/utilits.py:166-171 | the sort is stable: files with the same modification time keep their directory order |
| ImagePruning.SortSnocAtTime | app/app_sim800/utilits.py:166-171 | sorting one more file adds it behind the others of its time |
| ImagePruning.Without | app/app_sim800/utilits.py:176-178 | after removals the folder holds exactly the entries whose names were not removed |
| ImagePruning.WithoutNothing | app/app_sim800/utilits.py:176-178 | removing nothing leaves the folder as it was |
| ImagePruning.WithoutTwice | app/app_sim800/utilits.py:176-178 | two rounds of removals are one round of both |
| ImagePruning.KeptAreNewest | app/app_sim800/utilits.py:154-159 | no deleted file is newer than a kept one |
| ImagePruning.KeepDeleteSplit | app/app_sim800/utilits.py:157-159 | kept and deleted files split the listing; a count in range keeps exactly that many, a larger count keeps all |
| ImagePruning.NothingStuck | app/app_sim800/utilits.py:174-180 | with no failing removal, every file past the cut is removed |
| ImagePruning.KeptOrDropped | app/app_sim800/utilits.py:157-159 | in a listing without repeated names a file is kept exactly when it is not past the cut |
| ImagePruning.DoomedSource | app/app_sim800/utilits.py:176-178 | a name is removed only when a file past the cut carries it |
| ImagePruning.CleanLeavesKept | app/app_sim800/utilits.py:146-162 | after a clean-up with no failing removal, the folder holds every non-image entry and exactly the kept images |
| ImagePruning.GlobUnique | app/app_sim800/utilits.py:168 | listing keeps names distinct |
| ImagePruning.SortUnique | app/app_sim800/utilits.py:166-171 | sorting keeps names distinct |
| ImagePruning.ListingsAgree | app/app_web/main.py:124-138 | `get_images` and `FileManager.get_image_list` list the same names for every count, 0 included |
| ImagePruning.ListsNewest | app/app_web/utilits.py:25-37 | a positive count lists the newest files, that many or all, oldest of them first |
| ImagePruning.ImageFolder.constructor | app/app_sim800/utilits.py:149 | the folder with the given path, entries and failing removals |
| ImagePruning.ImageFolder.DeleteOldFiles | app/app_sim800/utilits.py:174-180 | the folder afterwards lacks exactly the files past the cut whose removal succeeds; a failure does not stop the rest |
| ImagePruning.ImageFolder.CleanDirectory | app/app_sim800/utilits.py:146-162 | a missing folder gives nothing and is untouched; otherwise returns the paths, folder then name, of the newest `keep` images and removes the rest |
| ImagePruning.ImageFolder.CleanDirectoryFlask | app/app_web/utilits.py:39-57 | returns the paths, as `os.path.join` forms them, of the newest `keep` non-hidden images and removes the rest |
| ImagePruning.JoinPath | app/app_web/utilits.py:46 | `os.path.join(folder, name)`: the path starts with the folder and ends with the name |
| ImagePruning.JoinedBaseName | app/app_web/utilits.py:35 | for a name without a separator, the text after the last separator of the joined path is the name, and an empty folder adds nothing |
| SettingsTree.FlattenSettings | app/app_sim800/utilits.py:193-203 | the loop over the members builds exactly the flattened dictionary |
| SettingsTree.UpdateKeepsKey | app/app_sim800/utilits.py:202 | `dict.update` never loses a key |
| SettingsTree.UpdateUnique | app/app_sim800/utilits.py:202 | `dict.update` keeps keys distinct |
| SettingsTree.UpdateGet | app/app_sim800/utilits.py:202 | after `acc.update(other)` each key of `other` maps to its value there |
| SettingsTree.FlattenShape | app/app_sim800/utilits.py:193-203 | every flattened key starts with the prefix, and no key occurs twice |
| SettingsTree.FlattenHolderKey | app/app_sim800/utilits.py:198-200 | a holder anywhere at a level yields the key prefix+k, whatever follows it |
| SettingsTree.FlattenHolder | app/app_sim800/utilits.py:198-200 | a holder maps prefix+k to its `current` value |
| SettingsTree.FlattenSection | app/app_sim800/utilits.py:201-202 | a section is flattened under prefix+k+`_` and each of its entries lands in the result with its value |
| SettingsTree.FlattenDropsLeaf | app/app_sim800/utilits.py:198 | values that are not objects are dropped |
| SettingsTree.Coerce | app/app_sim800/endpoints/settings.py:95-103 | a converted bool, int or float holder keeps its type; only int and float conversions can raise; other holders take the value as sent |
| SettingsTree.AppliedStops | app/app_sim800/endpoints/settings.py:84-105 | an exception ends the walk: later updates change nothing |
| SettingsTree.ApplyUpdates | app/app_sim800/endpoints/settings.py:84-105 | the loop over `updates.items()` yields the applied tree, or the exception apply_updates raises |
| SettingsTree.ApplyMember | app/app_sim800/endpoints/settings.py:88-105 | one turn of the loop applies the member at index i to what the earlier members made |
| SettingsTree.PreservedRefl | app/app_sim800/endpoints/settings.py:84-105 | every tree keeps its own shape |
| SettingsTree.PreservedTrans | app/app_sim800/endpoints/settings.py:84-105 | keeping the shape composes |
| SettingsTree.AppliedPreserves | app/app_sim800/endpoints/settings.py:84-105 | apply_updates changes only `current` values: no key is added, removed or moved at any depth, and no other value changes |
| SettingsTree.UnknownKeyIgnored | app/app_sim800/endpoints/settings.py:90 | an update for a key the base lacks is ignored |
| SettingsTree.LeafKept | app/app_sim800/endpoints/settings.py:104-105 | a present entry that is not a holder is left alone by a value that is not an object |
| SettingsTree.HolderCoerced | app/app_sim800/endpoints/settings.py:93-103 | a holder's `current` takes the converted update, an exception ends the walk, every other entry stays put |
| SettingsTree.SectionRecurses | app/app_sim800/endpoints/settings.py:91-92 | an object value for a present key is applied to that entry, with the same exceptions |
| SettingsTree.CoerceIsCast | app/app_web/main.py:814-818 | for bool, int and float holders the FastAPI conversion is exactly the Flask `type(prior)(value)` |
| SettingsTree.CoerceIdempotent | app/app_sim800/endpoints/settings.py:95-103 | converting again with the same update changes nothing |
| SettingsTree.MergedStops | app/app_web/main.py:805-830 | an OverflowError ends the Flask walk: later updates change nothing |
| SettingsTree.UpdateSettings | app/app_web/main.py:805-830 | the loop yields the merged tree, or the exception it lets through |
| SettingsTree.MergeMember | app/app_web/main.py:808-830 | one turn of the Flask loop merges the member at index i into what the earlier members made |
| SettingsTree.MergedGrows | app/app_web/main.py:805-830 | the Flask walk keeps every key in place with a value of its prior type, and adds keys only from the updates |
| SettingsTree.GrownStep | app/app_web/main.py:808-830 | the last member of the updates keeps the result grown |
| SettingsTree.CastMemberGrows | app/app_web/main.py:813-827 | a converted value has the type of the value it replaces |
| SettingsTree.GrownAppend | app/app_web/main.py:828-830 | adding an unknown key from the updates keeps the result grown |
| SettingsTree.MergedIsObject | app/app_web/main.py:805-830 | a successful walk keeps the type of the tree it starts from |
| SettingsTree.MergedNonObject | app/app_web/main.py:805-830 | on a value that is not an object only an empty update succeeds |
| SettingsTree.UnknownKeyAdded | app/app_web/main.py:828-830 | an unknown key is added with the value as sent |
| SettingsTree.FailedCastKept | app/app_web/main.py:813-827 | a present leaf or holder whose conversion raises TypeError or ValueError is left as it was |
| SettingsTree.CastStored | app/app_web/main.py:813-827 | a present leaf or holder whose conversion succeeds takes the converted value, of the prior value's type |
| SettingsTree.UnknownKeyServicesDiffer | app/app_sim800/endpoints/settings.py:90 | the services part ways on an unknown key: the FastAPI service drops it, the Flask service adds it |
| SettingsTree.Sim800PostOutcome | app/app_sim800/endpoints/settings.py:65-123 | a wrong content type gives 400; a failure never writes; a success writes the applied tree, whose keys are the prior ones at every depth |
| SettingsTree.WebPostOutcome | app/app_web/main.py:681-697 | a failure never writes; a success writes an object holding every prior key in place with a value of its prior type |
| SettingsTree.Sim800TextForIntHolder | app/app_sim800/endpoints/settings.py:98-99 | `{"quality": "x"}` against an int holder: the FastAPI service answers 500 and keeps the file |
| SettingsTree.Sim800RefusesOnFailedCoerce | app/app_sim800/endpoints/settings.py:98-123 | any single update whose conversion raises gives 500 and keeps the file |
| SettingsTree.WebTextForIntHolder | app/app_web/main.py:813-827 | the same update to the Flask service keeps the prior value and answers success |
| SettingsTree.WebKeepsOnFailedCast | app/app_web/main.py:681-697 | a single update whose conversion fails leaves the Flask service's file as it was, and the answer is still a success |
| SettingsTree.CameraConfig.constructor | app/app_sim800/endpoints/settings.py:38-50 | the settings file and whether it can be written |
| SettingsTree.CameraConfig.GetSettings | app/app_sim800/endpoints/settings.py:53-63 | the document when the file holds one, else 500 |
| SettingsTree.CameraConfig.GetSettingsFlat | app/app_sim800/endpoints/settings.py:15-34 | 404 for a missing file, 500 for a corrupt one or a document that is not an object, else the flattened settings |
| SettingsTree.CameraConfig.HandleSettings | app/app_sim800/endpoints/settings.py:65-123 | the reply and the new file are those of the FastAPI POST rules |
| SettingsTree.CameraConfig.ManageSettings | app/app_web/main.py:681-697 | the reply and the new file are those of the Flask POST rules |
| Text.Lower | app/app_sim800/security.py:142-144 | `str.lower()` on the ASCII letters: one character for each, every ASCII capital lowered, every other character kept |
| Text.LowerHasNoUpper | app/app_web/main.py:204-205 | a lower-cased text holds no upper-case letter |
| Text.UpperNeverInLower | app/app_web/main.py:208 | a pattern with an upper-case letter never occurs in a lower-cased text |
| Text.Strip | app/app_sim800/security.py:73 | `str.strip()` leaves a text no longer than the input with no white space at either end |
| Text.PaddedUnique | app/app_sim800/security.py:73 | a text has at most one core without white space at its ends that stands in it with only white space around it |
| Text.StripPadding | app/app_sim800/security.py:73 | what `str.strip()` returns stands in the input with only white space (the full `str.isspace()` set) before and after it, and neither of its ends is white space |
| Text.StripIsTheCore | app/app_sim800/security.py:73 | conversely, any such core is what `str.strip()` returns |
| Text.StripKeepsUnpadded | app/app_sim800/security.py:73 | a text without surrounding white space strips to itself |
| Text.StripDropsNewline | app/app_sim800/security.py:73 | a line read with its line break strips back to the address written |
| Text.Split | app/app_sim800/utilits.py:71 | `str.split(sep)` gives at least one part, and no part holds the separator |
| Text.SplitJoin | app/app_sim800/utilits.py:71 | joining the parts with the separator gives back the text |
| Text.SplitConcat | app/app_sim800/utilits.py:71 | the parts of `a + sep + b` are the parts of a, then those of b |
| Text.SplitAppendLine | app/app_sim800/security.py:72 | appending one terminated line to a terminated text adds exactly that line before the empty last part |
| Text.Remove | app/app_sim800/utilits.py:83 | `replace(',', '')` leaves no comma, and changes nothing when there is none |
| Text.RemoveConcat | app/app_sim800/utilits.py:83 | removal distributes over concatenation |
| Text.NatToStringValue | app/app_sim800/utilits.py:81 | the decimal text of a number reads back as that number |
| Text.PyInt | app/app_sim800/utilits.py:81 | `int(s)` succeeds only when the stripped text ends in a digit and holds only digits and underscores after its first character; a negative result has a minus sign and a minus sign gives no positive result |
| Text.PyIntOfDigits | app/app_sim800/utilits.py:81 | a run of digits converts to its decimal value |
| Text.PyIntOfIntToString | app/app_sim800/utilits.py:81 | `int()` reads back the decimal text of every integer, whatever white space surrounds it |
| Text.PyIntUnderscores | app/app_sim800/utilits.py:81 | an underscore between digits groups them: `int("1_000")` is 1000 |
| Text.PyIntMisplacedUnderscores | app/app_sim800/utilits.py:81 | a doubled or leading underscore is refused: `1__000` and `_1` raise ValueError |
| Text.PyIntUnderscoreAtEdge | app/app_sim800/utilits.py:81 | a trailing underscore or one after the sign is refused: `1_` and `-_1` raise ValueError |
| Text.IntTextIsFloatText | app/app_sim800/utilits.py:81-87 | every text int() accepts, float() accepts too |
| Text.DecimalIsOnlyFloat | app/app_web/main.py:781 | `3.7` is a float text and not an int text |
| Text.SliceBound | app/app_sim800/utilits.py:76 | a slice bound is clamped into the sequence, and a negative one counts from the end |
| Text.PyFromRules | app/app_sim800/utilits.py:176 | `s[i:]` is the suffix from i for 0 <= i <= len(s); for a negative i the last -i elements; all of s below -len(s); empty past the end |
| Text.PyToRules | app/app_sim800/utilits.py:159 | `s[:j]` is the prefix before j for 0 <= j <= len(s); for a negative j all but the last -j elements; empty below -len(s); all of s past the end |
| Text.PyToFromSplit | app/app_sim800/utilits.py:157-159 | `s[:k] + s[k:]` is s for every k |
| JsonValue.Find | app/app_web/main.py:813 | the position of a key is that of its first occurrence, past the end exactly when it is absent |
| JsonValue.PutGet | app/app_web/main.py:825 | after `d[k] = v` the key is present and maps to v |
| JsonValue.PutOther | app/app_web/main.py:825 | every other key keeps its presence and its value |
| JsonValue.PutKeys | app/app_web/main.py:830 | a present key keeps its place; an absent one goes last |
| JsonValue.PutUnique | app/app_web/main.py:830 | keys stay distinct |
| JsonValue.Trunc | app/app_sim800/endpoints/settings.py:99 | `int()` of a float truncates toward zero |
| JsonValue.ToInt | app/app_sim800/endpoints/settings.py:99 | `int(v)` gives an int; on a str exactly when the text is an int text; a finite float truncates; OverflowError exactly for an infinity |
| JsonValue.PyFloat | app/app_sim800/endpoints/settings.py:101 | `float(s)` succeeds exactly on float syntax: white space, a sign, a decimal numeral with optional exponent and single underscores between digits, or inf, infinity or nan in any case |
| JsonValue.ToFloat | app/app_sim800/endpoints/settings.py:101 | `float(v)` gives a float; on a str exactly for float syntax; an int keeps its value unless its magnitude reaches 2^1024 - 2^970, where exactly OverflowError is raised; other failures are ValueError or TypeError |
| JsonValue.ToList | app/app_web/main.py:825 | `list(v)` succeeds exactly on a str, list or dict and gives a list |
| JsonValue.PairsToDict | app/app_web/main.py:825 | `dict(items)` succeeds exactly when every item is a pair (a two-character str, a two-element list headed by a str, a two-key dict); otherwise it raises the error of the first item that is not; keys stay distinct |
| JsonValue.PairsToDictKeys | app/app_web/main.py:825 | the keys of `dict(items)` are exactly the keys of its pairs |
| JsonValue.PairsToDictValues | app/app_web/main.py:825 | each key maps to the value of the last pair that names it |
| JsonValue.ToDict | app/app_web/main.py:825 | `dict(v)` gives a dict when it succeeds |
| JsonValue.Cast | app/app_web/main.py:816-818 | `type(prior)(v)` gives a value of that type when it succeeds; bool and str never raise; NoneType always raises TypeError; a value already of the type is kept |
| JsonValue.IntTextFloatValue | app/app_sim800/endpoints/settings.py:99-101 | a text int() accepts reads as the same number through float() |
| JsonValue.DecimalTextValue | app/app_sim800/endpoints/settings.py:101 | `float("a.b")` for digit runs a and b is a + b/10^|b| |
| JsonValue.FalseTextIsTrue | app/app_sim800/endpoints/settings.py:97 | the string `"false"` converts to True through bool() |
| JsonValue.NegativeFloatTruncates | app/app_sim800/endpoints/settings.py:99 | `int(-2.5)` is -2 |
| DeviceJson.ExtractJson | esp32CamSim800l/deviceSettings.cpp:14-19 | the reply from its first `{` to its last `}`; the empty text when either brace is missing; the swapped slice when the last `}` comes first |
| DeviceJson.ExtractJsonOfReply | esp32CamSim800l/deviceSettings.cpp:14-19 | a reply holding one JSON object, with no `{` before it and no `}` after it, extracts to exactly that object |
| DeviceJson.FoundKeyRead | esp32CamSim800l/deviceSettings.cpp:80-82 | a key that occurs is read at the end of its first occurrence |
| DeviceJson.UpdateInt | esp32CamSim800l/deviceSettings.cpp:87-95 | `updateIntIfExists`: a key the document does not contain leaves the field as it was; DeviceJson.IntValueRead states the value read when it does |
| DeviceJson.UpdateBool | esp32CamSim800l/deviceSettings.cpp:79-86 | `updateBoolIfExists`: a key the document does not contain leaves the field as it was; DeviceJson.BoolValueRead states the value read when it does |
| DeviceJson.UpdateStringAsWritten | esp32CamSim800l/deviceSettings.cpp:112-121 | `updateStringIfExists` as the firmware has it: a key the document does not contain leaves the field as it was; DeviceJson.QuotedValueAsWritten and DeviceJson.EmptyStringMisread state the value read when it does |
| DeviceJson.UpdateString | esp32CamSim800l/deviceSettings.cpp:112-121 | the intended `updateStringIfExists`: a key the document does not contain leaves the field as it was; DeviceJson.StringValueRead states the value read when it does |
| DeviceJson.AbsentKeyKeepsValue | esp32CamSim800l/deviceSettings.cpp:79-121 | a key missing from the document leaves the int, bool and string fields unchanged |
| DeviceJson.UpdateIdempotent | esp32CamSim800l/deviceSettings.cpp:79-121 | applying an updater to its own result changes nothing |
| DeviceJson.IntSliceValue | esp32CamSim800l/deviceSettings.cpp:93 | `toInt()` of a slice that starts with a number's text and ends at a non-digit is that number |
| DeviceJson.IntTextHasNoDelimiter | esp32CamSim800l/deviceSettings.cpp:91-92 | a number's decimal text holds no `,` and no `}`, so the end scan never stops inside it |
| DeviceJson.IntAtValue | esp32CamSim800l/deviceSettings.cpp:90-93 | a number followed by a non-digit reads as that number, whether the scan ends at `,`, at `}` or at the end |
| DeviceJson.IntValueRead | esp32CamSim800l/deviceSettings.cpp:87-95 | an integer written after the first occurrence of its key is the value the field gets |
| DeviceJson.BoolAtValue | esp32CamSim800l/deviceSettings.cpp:82-84 | the five characters after the key hold `true` exactly when the value is `true` |
| DeviceJson.BoolValueRead | esp32CamSim800l/deviceSettings.cpp:79-86 | `true` after the key sets the field to true and `false` sets it to false |
| DeviceJson.QuotedAt | esp32CamSim800l/deviceSettings.cpp:115-118 | both the intended quote search and the firmware's search stop at the closing quote of a non-empty value |
| DeviceJson.QuotedValueAsWritten | esp32CamSim800l/deviceSettings.cpp:112-121 | the firmware's scan reads a non-empty quoted value whole, and an empty one as a quote plus the text up to the next quote, or keeps the old value |
| DeviceJson.StringValueRead | esp32CamSim800l/deviceSettings.cpp:112-121 | a quoted value without inner quotes is read back whole; the firmware's own scan agrees whenever the value is not empty |
| DeviceJson.SearchPastQuote | esp32CamSim800l/deviceSettings.cpp:116 | a search for a quote started one past a quote runs on to the next quote after it |
| DeviceJson.EmptyStringMisread | esp32CamSim800l/deviceSettings.cpp:112-121 | with `""` as the value, the firmware reads a quote plus the text up to the next quote in the document, or keeps the old value when no quote follows |
| DeviceConfig.ReadDeviceKeys | esp32CamSim800l/deviceSettings.cpp:24-36 | the twelve Device_* look-ups, in the firmware's order |
| DeviceConfig.ReadSensorKeys | esp32CamSim800l/deviceSettings.cpp:38-44 | the four Sensors_* look-ups |
| DeviceConfig.ReadCaptureKeys | esp32CamSim800l/deviceSettings.cpp:46-56 | the Camera_Capture_*, Camera_Exposure_* and Camera_Gain_* look-ups |
| DeviceConfig.ReadFixKeys | esp32CamSim800l/deviceSettings.cpp:57-61 | the Camera_HardwareFixes_* look-ups |
| DeviceConfig.ReadAdjustmentKeys | esp32CamSim800l/deviceSettings.cpp:62-67 | the Camera_ImageAdjustment_* look-ups |
| DeviceConfig.ReadProcessingKeys | esp32CamSim800l/deviceSettings.cpp:68-75 | the Camera_ImageProcessing_* and Camera_WhiteBalance_* look-ups |
| DeviceConfig.ParseCameraSettings | esp32CamSim800l/deviceSettings.cpp:21-78 | always reports success; each of the 45 fields is looked up under its own key and replaced only when the key occurs |
| DeviceConfig.SleepMinutesRead | esp32CamSim800l/deviceSettings.cpp:25 | after parsing, the sleep time is the integer written after the first occurrence of its key |
| DeviceConfig.ParsedSmsReadMode | esp32CamSim800l/deviceSettings.cpp:35 | only the look-up of its own key sets the SMS read mode, with the firmware's quote search |
| DeviceConfig.SmsReadModeRead | esp32CamSim800l/deviceSettings.cpp:35 | after parsing, the SMS read mode is the quoted text written after its key when that text is not empty; an empty text is misread as a quote plus the text up to the next quote, or the old mode is kept when no quote follows |
| DeviceConfig.SmsReadModeIntended | esp32CamSim800l/deviceSettings.cpp:112-121 | with the closing quote searched from the value's first character, the read mode is the quoted text, the empty text included |
| DeviceConfig.IntendedAgreesOnText | esp32CamSim800l/deviceSettings.cpp:112-121 | the intended parse and the firmware's agree on every field whenever the read mode written is not empty |
| DeviceConfig.EmptyReplyKeepsSettings | esp32CamSim800l/deviceSettings.cpp:14-78 | a reply without a JSON object extracts to the empty text, and parsing the empty text leaves every setting as it was (the client refuses such a reply before parsing, at esp32CamSim800l/Sim800lClient.cpp:317-322) |
| DeviceConfig.DeviceKeysEmpty | esp32CamSim800l/deviceSettings.cpp:24-36 | the empty text leaves the Device_* fields alone |
| DeviceConfig.SensorKeysEmpty | esp32CamSim800l/deviceSettings.cpp:38-44 | the empty text leaves the Sensors_* fields alone |
| DeviceConfig.CaptureKeysEmpty | esp32CamSim800l/deviceSettings.cpp:46-56 | the empty text leaves the capture, exposure and gain fields alone |
| DeviceConfig.FixKeysEmpty | esp32CamSim800l/deviceSettings.cpp:57-61 | the empty text leaves the hardware-fix fields alone |
| DeviceConfig.AdjustmentKeysEmpty | esp32CamSim800l/deviceSettings.cpp:62-67 | the empty text leaves the image-adjustment fields alone |
| DeviceConfig.ProcessingKeysEmpty | esp32CamSim800l/deviceSettings.cpp:68-75 | the empty text leaves the image-processing and white-balance fields alone |
| DeviceConfig.SettingsStore.constructor | esp32CamSim800l/deviceSettings.cpp:5-9 | the globals at every start, cold or a wake from deep sleep: the working copy and the RTC copy hold the struct defaults, because the RTC copy's struct is constructed again at each start; only the flag keeps what RTC memory held |
| DeviceConfig.SettingsStore.Retaining | esp32CamSim800l/deviceSettings.cpp:5-9 | the globals at start as intended: the RTC copy and its flag hold what RTC memory kept, and the working copy the struct defaults |
| DeviceConfig.SettingsStore.InitRTCSettings | esp32CamSim800l/deviceSettings.cpp:125-131 | with the flag clear the RTC copy becomes the defaults; with it set nothing changes; either way the flag ends set |
| DeviceConfig.SettingsStore.SaveSettingsToRTC | esp32CamSim800l/deviceSettings.cpp:139-142 | reports success; the RTC copy becomes the given settings and nothing else changes |
| DeviceConfig.SettingsStore.LoadSettingsFromRTC | esp32CamSim800l/deviceSettings.cpp:144-148 | fails exactly on a null target; otherwise the target receives the RTC copy |
| DeviceConfig.SettingsStore.GetCurrentSettings | esp32CamSim800l/deviceSettings.cpp:150-157 | the result is always the RTC copy; the defaults fallback is never reached |
| DeviceConfig.SettingsStore.InitDeviceSettings | esp32CamSim800l/deviceSettings.cpp:159-162 | the working copy equals the RTC copy: the defaults when the flag was clear, otherwise the RTC copy as the start left it (the defaults again, see DeviceConfig.SaveSleepWake) |
| DeviceConfig.GetDefaultSettings | esp32CamSim800l/deviceSettings.h:9-18 | the defaults read SMS mode "ALL", sleep 30 minutes and batches of 2 SMS |
| DeviceConfig.SaveSleepWake | esp32CamSim800l/deviceSettings.cpp:125-162 | as written, the settings in use after a wake from deep sleep are the defaults, whatever was saved to RTC before it: the RTC copy (line 8) is constructed again while the set flag (line 9) keeps `initRTCSettings` from acting |
| DeviceConfig.SaveSleepWakeIntended | esp32CamSim800l/deviceSettings.cpp:139-162 | with an RTC copy that survives deep sleep, the settings saved before it are the settings in use after the wake-up |
| ArduinoString.IndexOf | esp32CamSim800l/deviceSettings.cpp:80 | `String::indexOf(String, from)`: -1 or the first occurrence at or after `from`, with no earlier one |
| ArduinoString.IndexOfChar | esp32CamSim800l/Sim800lClient.cpp:699 | `String::indexOf(char, from)`: -1 or the first index of the character at or after `from` |
| ArduinoString.IndexOfOneChar | esp32CamSim800l/Sim800lClient.cpp:708 | searching a one-character String finds what searching the character finds |
| ArduinoString.IndexOfFindsContained | esp32CamSim800l/Sim800lClient.cpp:679 | a search from the start finds a non-empty pattern exactly when the text contains it |
| ArduinoString.IndexOfCharFirst | esp32CamSim800l/deviceSettings.cpp:15 | a character search from the start gives its first index, or -1 when it is absent |
| ArduinoString.GeneralSubstring | esp32CamSim800l/deviceSettings.cpp:18 | `String::substring`: swapped bounds are swapped back, a negative bound becomes a huge unsigned one, the right bound is clamped |
| ArduinoString.GeneralSubstringInOrder | esp32CamSim800l/deviceSettings.cpp:93 | with ordered bounds inside the text, the general rule is the plain slice |
| ArduinoString.SubstringFrom | esp32CamSim800l/Sim800lClient.cpp:808 | `substring(left)`: the rest of the text from `left`, empty past the end |
| ArduinoString.SkipCSpace | esp32CamSim800l/Sim800lClient.cpp:749 | a suffix of the text that does not start with C white space, everything before it white space |
| ArduinoString.LeadingDigits | esp32CamSim800l/deviceSettings.cpp:93 | the longest prefix of decimal digits |
| ArduinoString.ToInt | esp32CamSim800l/deviceSettings.cpp:93 | `String::toInt()`: a text without a decimal digit reads as 0; ArduinoString.ToIntOfIntToString states the value of a number's text |
| ArduinoString.ToIntOfIntToString | esp32CamSim800l/deviceSettings.cpp:93 | `toInt()` reads back the decimal text of any integer, whatever non-digit follows |
| ArduinoString.Trim | esp32CamSim800l/Sim800lClient.cpp:749 | `trim()`: no longer than the input, no C white space at either end of the result |
| ArduinoString.TrimPadding | esp32CamSim800l/Sim800lClient.cpp:749 | what `trim()` leaves stands in the input with only C white space before and after it, and neither of its ends is white space |
| ArduinoString.TrimIsTheCore | esp32CamSim800l/Sim800lClient.cpp:749 | conversely, any such core is what `trim()` leaves |
| ArduinoString.TrimRight | esp32CamSim800l/Sim800lClient.cpp:749 | a prefix of the text with no white space at its end, everything after it white space, keeping a non-space first character |
| ArduinoString.LeadingHex | esp32CamSim800l/Sim800lClient.cpp:901 | the longest prefix of hex digits |
| ArduinoString.UnsignedOf | esp32CamSim800l/Sim800lClient.cpp:901 | `(unsigned int)` of a long: the value modulo 2^32 |
| Sim800Codecs.Utf8Of | esp32CamSim800l/Sim800lClient.cpp:903-915 | one, two or three bytes for a code below 0x80, below 0x800, or above |
| Sim800Codecs.GroupCode | esp32CamSim800l/Sim800lClient.cpp:901 | the unsigned value of one four-character group, below 2^32 |
| Sim800Codecs.Ucs2Decoded | esp32CamSim800l/Sim800lClient.cpp:884-913 | a text that is shorter than one group or not made of whole groups is returned unchanged |
| Sim800Codecs.AppendUtf8 | esp32CamSim800l/Sim800lClient.cpp:903-915 | one turn of the loop appends exactly the UTF-8 bytes of the code |
| Sim800Codecs.DecodeUcs2 | esp32CamSim800l/Sim800lClient.cpp:884-913 | the loop returns the decoded bytes of every group in order |
| Sim800Codecs.Utf8OfIsSequence | esp32CamSim800l/Sim800lClient.cpp:903-915 | the bytes written for a UCS-2 unit form one UTF-8 sequence carrying that unit (RFC 3629 section 3) |
| Sim800Codecs.Utf8OfDecodes | esp32CamSim800l/Sim800lClient.cpp:903-915 | a non-surrogate unit followed by any bytes decodes as that unit followed by the rest |
| Sim800Codecs.SurrogateIsIllFormed | esp32CamSim800l/Sim800lClient.cpp:912-915 | a surrogate unit is written as three bytes that RFC 3629 rejects |
| Sim800Codecs.GroupCodeOfHex | esp32CamSim800l/Sim800lClient.cpp:901 | `strtol` reads a group of four hex digits as their value, below 0x10000 |
| Sim800Codecs.Strtol16OfHex | esp32CamSim800l/Sim800lClient.cpp:901 | `strtol(s, NULL, 16)` on hex digits alone is their value |
| Sim800Codecs.Ucs2RoundTrip | esp32CamSim800l/Sim800lClient.cpp:895-916 | for hex groups without surrogates, the bytes written decode under RFC 3629 to exactly the UCS-2 units |
| Sim800Codecs.DecodeUcs2RoundTrip | esp32CamSim800l/Sim800lClient.cpp:884-913 | the same for the whole decoder, given at least one group |
| Sim800Codecs.EscapeChar | esp32CamSim800l/Sim800lClient.cpp:1031-1062 | an escaped character becomes two characters, any other stays one |
| Sim800Codecs.Escape | esp32CamSim800l/Sim800lClient.cpp:1025-1067 | the text `escapeJson` returns: empty exactly for the empty input, at least as long as it and at most twice as long; Sim800Codecs.EscapeLength and Sim800Codecs.EscapeRoundTrip state its length and its JSON reading |
| Sim800Codecs.EscapeJson | esp32CamSim800l/Sim800lClient.cpp:1025-1067 | the loop returns the input with each of `"`, `\`, `/`, backspace, form feed, newline, carriage return and tab escaped |
| Sim800Codecs.EscapeLength | esp32CamSim800l/Sim800lClient.cpp:1025-1067 | the output is the input plus one backslash per escaped character |
| Sim800Codecs.EscapeRoundTrip | esp32CamSim800l/Sim800lClient.cpp:1025-1067 | the escaped text, closed by a quote, reads back as a JSON string (RFC 8259 section 7) exactly when it holds no other control character |
| Sim800Codecs.ParseStatusCode | esp32CamSim800l/Sim800lClient.cpp:329-335 | 0 when the reply has no comma |
| Sim800Codecs.StatusCodeRead | esp32CamSim800l/Sim800lClient.cpp:329-335 | the status of a reply `<head>,<three digits><rest>` is the number those digits spell |
| Sim800Codecs.ClockZone | esp32CamSim800l/Sim800lClient.cpp:546-557 | `+00:00` without a zone, `+zz:00` for two characters, anything else copied as it stands |
| Sim800Codecs.ClockIsoLayout | esp32CamSim800l/Sim800lClient.cpp:537-561 | the reformatted clock has the century `20`, the six fields at their ISO 8601 places, and the zone |
| Sim800Codecs.CurrentDateTime | esp32CamSim800l/Sim800lClient.cpp:524-578 | the fixed fallback time when the reply has no `+CCLK:` |
| Sim800Codecs.CurrentDateTimeShape | esp32CamSim800l/Sim800lClient.cpp:524-578 | every reply yields the fallback or an ISO 8601 layout of a quote-free clock text |
| Sim800Codecs.ClockFields | esp32CamSim800l/Sim800lClient.cpp:537-561 | each field of `yy/MM/dd,hh:mm:ss` is read back at its place; a zone in quarters of an hour is copied, not converted |
| SmsInbox.ReadCommand | esp32CamSim800l/Sim800lClient.cpp:656-669 | `NEW` lists only unread messages; any other mode lists all of them |
| SmsInbox.StatusEnd | esp32CamSim800l/Sim800lClient.cpp:707-717 | -1 or the index of the quote that closes the status |
| SmsInbox.FirstDigitRun | esp32CamSim800l/Sim800lClient.cpp:752-762 | a run of digits, empty only when the header has no digit |
| SmsInbox.PhoneNumber | esp32CamSim800l/Sim800lClient.cpp:719-771 | the number is never empty and never a lone comma (`Unknown` at worst) |
| SmsInbox.Timestamp | esp32CamSim800l/Sim800lClient.cpp:773-829 | the reformatted header time when it has at least 17 characters, the clock reading otherwise |
| SmsInbox.MessageText | esp32CamSim800l/Sim800lClient.cpp:841-855 | the body is UCS-2 decoded exactly when its first four characters are hex digits |
| SmsInbox.Entry | esp32CamSim800l/Sim800lClient.cpp:686-872 | one turn of the loop yields no message for a header without a comma, and the next search always starts further on |
| SmsInbox.Inbox | esp32CamSim800l/Sim800lClient.cpp:686-873 | no message read has a blank number |
| SmsInbox.GetNewSms | esp32CamSim800l/Sim800lClient.cpp:678-880 | the messages are those of the parse loop over the whole reply |
| SmsInbox.ParseListing | esp32CamSim800l/Sim800lClient.cpp:685-873 | the `while` loop collects the messages of every `+CMGL:` entry in order and ends |
| SmsInbox.NoListingNoMessages | esp32CamSim800l/Sim800lClient.cpp:679 | a reply without `+CMGL:` yields no message |
| SmsInbox.EntryFields | esp32CamSim800l/Sim800lClient.cpp:698-864 | each message carries the header's index, a non-blank number, and the header time or the clock reading |
| SmsInbox.StdHeaderPhone | esp32CamSim800l/Sim800lClient.cpp:719-771 | on a standard 3GPP TS 27.005 header the number read is the originating address; for an empty address it is the message index |
| SmsInbox.StdHeaderTimestamp | esp32CamSim800l/Sim800lClient.cpp:773-829 | on a standard header the timestamp is the reformatted service-centre time, or the clock reading when it is short |
| SmsOutbox.AppendSmsObject | esp32CamSim800l/Sim800lClient.cpp:928-937 | one turn appends a separating comma after the first object, then the object in three parts |
| SmsOutbox.BuildSmsBatch | esp32CamSim800l/Sim800lClient.cpp:926-939 | the body is `[`, the objects of the messages joined by commas, and `]` |
| SmsOutbox.RequestBody | esp32CamSim800l/Sim800lClient.cpp:919-939 | no request for an empty list; otherwise a bracketed array |
| SmsOutbox.MemberRoundTrip | esp32CamSim800l/Sim800lClient.cpp:935-937 | an escaped member reads back as its value exactly when the value has no other control character |
| SmsOutbox.ObjectRoundTrip | esp32CamSim800l/Sim800lClient.cpp:935-937 | an object reads back as the server's item with the same phone, text and time |
| SmsOutbox.ItemsRoundTrip | esp32CamSim800l/Sim800lClient.cpp:927-938 | the joined objects read back as the items in order |
| SmsOutbox.BatchRoundTrip | esp32CamSim800l/Sim800lClient.cpp:926-939 | the JSON reading of the body's decoded text: the server gets the messages' phone, text and time, in order, exactly when no field holds a control character other than those escaped |
| Sim800Codecs.TextIsDecode | app/app_sim800/endpoints/sms.py:31-32 | the strict UTF-8 read of a body succeeds exactly when RFC 3629 decoding does, and gives the same characters |
| Sim800Codecs.AsciiText | app/app_sim800/endpoints/sms.py:31-32 | ASCII text reads as itself |
| Sim800Codecs.TextAppend | app/app_sim800/endpoints/sms.py:31-32 | after a well-formed part, the rest is read on its own: an ill-formed rest spoils the whole, a well-formed one is appended |
| Sim800Codecs.TextAppendBad | app/app_sim800/endpoints/sms.py:31-32 | an ill-formed text stays ill-formed when an ASCII character follows it |
| Sim800Codecs.EscapeText | esp32CamSim800l/Sim800lClient.cpp:1025-1067 | escaping commutes with the UTF-8 read: the escaped bytes are well-formed exactly when the bytes are, and read as the escaped text |
| SmsOutbox.BatchText | esp32CamSim800l/Sim800lClient.cpp:926-939 | the body is well-formed UTF-8 exactly when every field of every message is, and then reads as the body built from the decoded messages |
| SmsOutbox.BatchReceived | esp32CamSim800l/Sim800lClient.cpp:926-939 | the server's read of the body, UTF-8 then JSON: the decoded phone, text and time of each message in order exactly when every field is well-formed UTF-8 and no decoded field holds an unescaped control character; otherwise the body is refused |
| SmsOutbox.IllFormedTextLosesBatch | esp32CamSim800l/Sim800lClient.cpp:926-939 | one message whose text holds bytes RFC 3629 rejects makes the server refuse the whole batch |
| SmsOutbox.SurrogateLosesBatch | esp32CamSim800l/Sim800lClient.cpp:895-915 | one message holding the bytes `decodeUcs2` writes for half of a surrogate pair makes the strict read refuse the whole batch |
| Sim800Codecs.MinusOneGroupIllFormed | esp32CamSim800l/Sim800lClient.cpp:895-915 | the unchecked group `-001` is read as -1, cast to 0xFFFFFFFF and written as FF BF BF, which RFC 3629 rejects |
| SmsOutbox.MinusOneGroupLosesBatch | esp32CamSim800l/Sim800lClient.cpp:841-852 | one message whose body held the group `-001` makes the server refuse the whole batch |
| SmsOutbox.Sent | app/app_sim800/endpoints/sms.py:27-30 | the item the server sees keeps the phone, text and time; the SIM index is not sent |
| ConnectionParams.BaseUrl | esp32CamSim800l/apiParams.h:10-12 | the URL starts with `https://` exactly when `useHttps` is set, and the server address follows the scheme |
| ConnectionParams.EndpointUrl | esp32CamSim800l/apiParams.h:13-21 | an endpoint URL is `baseUrl()` followed by the endpoint, and reads back as the scheme, the address and the endpoint when the address has no `/` and the endpoint starts with one |
| ConnectionParams.SettingsUrl | esp32CamSim800l/apiParams.h:13-15 | `getSettingsUrl()`: `baseUrl()` then the settings endpoint, which reads back as scheme, address and endpoint |
| ConnectionParams.UploadUrl | esp32CamSim800l/apiParams.h:16-18 | `uploadUrl()`: `baseUrl()` then the upload endpoint, which reads back as scheme, address and endpoint |
| ConnectionParams.SmsUrl | esp32CamSim800l/apiParams.h:19-21 | `sendSmsUrl()`: `baseUrl()` then the SMS endpoint, which reads back as scheme, address and endpoint |
| ConnectionParams.ParseUrl | esp32CamSim800l/apiParams.h:10-21 | the server's reading of a URL these functions build: scheme, host up to the first `/`, and the path, which put together give the URL back |
| ConnectionParams.UrlRoundTrip | esp32CamSim800l/apiParams.h:10-21 | every URL the firmware builds reads back as its scheme, the server address and the endpoint |
| ConnectionParams.DefaultsReachRoutes | esp32CamSim800l/apiParams.h:3-8 | with the default endpoints, the settings, upload and SMS URLs land on the routes the server serves |
| ConnectionParams.GetAPNSettings | esp32CamSim800l/apnParams.h:8-31 | the access point is never empty; only MTS has a user name, equal to its password |
| ConnectionParams.UnknownOperatorIsMegaFon | esp32CamSim800l/apnParams.h:22-29 | an unknown operator gets the MegaFon settings |
| ConnectionParams.CredentialsCommand | esp32CamSim800l/Sim800lClient.cpp:201-209 | `AT+CSTT` is sent exactly when there is a user name |
| ConnectionParams.CredentialsOnlyForMts | esp32CamSim800l/Sim800lClient.cpp:201-209 | only an MTS SIM card gets the `AT+CSTT` step, carrying the MTS access point and credentials |
| SmsStore.RecordOfRow | app/app_sim800/endpoints/sms.py:44-49 | a record takes its timestamp, phone and text from the first three fields and keeps the whole row |
| SmsStore.Loaded | app/app_sim800/endpoints/sms.py:39-49 | only rows with at least three fields are read, each as a well-formed record |
| SmsStore.ItemRecords | app/app_sim800/endpoints/sms.py:52-58 | one record per item, keyed by its timestamp, phone and text |
| SmsStore.Dedup | app/app_sim800/endpoints/sms.py:61-68 | the unique records are drawn from the records and are never more of them |
| SmsStore.LoadRecords | app/app_sim800/endpoints/sms.py:39-49 | the reading loop keeps exactly the rows with at least three fields, in file order |
| SmsStore.AppendItems | app/app_sim800/endpoints/sms.py:52-58 | the batch loop appends one record per item after the loaded ones |
| SmsStore.DedupRecords | app/app_sim800/endpoints/sms.py:61-68 | the `seen` loop keeps the first record of each key, in order |
| SmsStore.WriteRecords | app/app_sim800/endpoints/sms.py:84-87 | one row per record, its original row |
| SmsStore.DedupKeys | app/app_sim800/endpoints/sms.py:61-68 | deduplication keeps every key and leaves no two records with the same key |
| SmsStore.DedupOfDistinct | app/app_sim800/endpoints/sms.py:61-68 | records with distinct keys are kept as they are |
| SmsStore.DedupCovered | app/app_sim800/endpoints/sms.py:61-68 | records whose keys are already present add nothing |
| SmsStore.LoadedRowsOf | app/app_sim800/endpoints/sms.py:39-49 | writing well-formed records and reading the rows back gives the same records |
| SmsStore.InsertSorted | app/app_sim800/endpoints/sms.py:81 | inserting into a sorted list keeps it sorted and adds exactly that record |
| SmsStore.SortSorted | app/app_sim800/endpoints/sms.py:72-81 | the sort yields records in timestamp order (unparseable first) that are a permutation of the input |
| SmsStore.SortOfSorted | app/app_sim800/endpoints/sms.py:81 | an already sorted list is left as it is |
| SmsStore.SortStable | app/app_sim800/endpoints/sms.py:72-81 | the sort is stable: the records of each sort key, the unparseable ones included, keep their original order |
| SmsStore.Receive | app/app_sim800/endpoints/sms.py:32-89 | the intended handler: the file is always written; `received` counts the batch and `total_records` the rows written |
| SmsStore.ReceiveContents | app/app_sim800/endpoints/sms.py:32-89 | the rows written are a permutation of the unique records of the old rows and the batch: every key once, in timestamp order, and the records of each timestamp, the unparseable ones included, in their first-seen order |
| SmsStore.ReceiveIdempotent | app/app_sim800/endpoints/sms.py:32-89 | posting the same batch again leaves the file as it is |
| SmsStore.HeaderStaysFirst | app/app_sim800/endpoints/sms.py:21-25 | the header row written at creation stays the first row |
| SmsStore.ReceiveAsWritten | app/app_sim800/endpoints/sms.py:72-91 | when parsed and unparsed timestamps are mixed, the handler returns its error object and the file is left as it was; otherwise it behaves as intended |
| SmsStore.HeaderBlocksDatedBatch | app/app_sim800/endpoints/sms.py:72-91 | with the header in the file, any batch holding a parseable timestamp fails and nothing is stored |
| SmsStore.UniformStampsAgree | app/app_sim800/endpoints/sms.py:72-81 | when no timestamp parses, the handler as written and the intended one agree |
| SmsStore.LastRows | app/app_sim800/endpoints/sms.py:103 | the last `limit` rows when there are more; all of them for `limit` 0; a negative limit drops rows from the front |
| SmsStore.LastSms | app/app_sim800/endpoints/sms.py:94-116 | no file gives an empty list; an empty file or a short row gives the error object; otherwise one entry per kept row with its first three fields |
| SmsStore.LastSmsLimits | app/app_sim800/endpoints/sms.py:103 | `limit=0` returns every row and `limit=-2` drops the first two |
| SmsStore.SmsLog.constructor | app/app_sim800/endpoints/sms.py:21-25 | a missing file is created holding only the header; an existing one is kept |
| SmsStore.SmsLog.ReceiveSms | app/app_sim800/endpoints/sms.py:32-89 | the file and the answer become those of the intended `receive_sms` |
| SmsStore.SmsLog.GetLastSms | app/app_sim800/endpoints/sms.py:94-116 | the answer is that of `get_last_sms` on the current file |

## Left out

- AT-command and serial I/O of the firmware (`sendATcommand`, `readLineFromSerial`, the HTTP and FTP transfers, `sendSMS`, `makeCall`, `waitForCallToEnd`, `waitForGsmNetwork`, `resetGsm`, `blinkRed`, `goToSleep`): these are timing and hardware exchanges. The modem's replies (`+CMGL`, `+CCLK`, `+HTTPACTION`, the settings body) are parameters, and so is the clock reading that `getNewSms` takes from `getCurrentDateTime`.
- `sendSmsToServer` after the body is built (the `AT+HTTPPARA`/`AT+HTTPDATA`/`AT+HTTPACTION` exchange) and `startHttp` apart from its credentials step: modem I/O.
- `updateFloatIfExists` (esp32CamSim800l/deviceSettings.cpp:96-110): the settings struct has no float field it is called on, and `toFloat` is floating point.
- ArduinoString.ToInt: `atol` is modelled without the overflow of a 32-bit `long`; the values read are settings and status codes far inside that range.
- Text.Lower: only the ASCII capitals are lowered. Python's `str.lower()` also lowers other letters: KELVIN SIGN becomes `k`, and `İ` becomes two characters. So a path of 512 characters or fewer can lengthen past the limit in the service and not in the model.
- SecurityPatterns.PlainMatch: matching with `re.IGNORECASE` is modelled as ASCII case folding. Python also matches dotless `ı` and dotted `İ` against `i`, long `ſ` against `s`, and KELVIN SIGN against `k`. A path such as `/wp-adm\u0131n` is therefore blocked by the service and let through by the model.
- Text.PyInt: only ASCII digits are read. Python's `int()` also accepts other Unicode decimal digits (Arabic-Indic, full-width), which the model refuses with ValueError.
- JsonValue.ToInt: on a str it inherits the ASCII-digit restriction of Text.PyInt.
- JsonValue.PyFloat: only ASCII digits are read. A finite numeral beyond the double range reads as an exact real, where Python gives an infinity. Rounding to the nearest double is not modelled.
- JsonValue.PairsToDict: keys are strings in the model. A two-element list headed by an int, a float, a bool or None is a valid pair for Python's `dict()`, but raises TypeError in the model.
- JsonValue.ToDict: inherits the string-key restriction of JsonValue.PairsToDict.
- Telemetry.MergeIdempotent: rows are compared as written. pandas reads a date field `N/A` back as NaN and writes it out as an empty field, so for rows with that date the table after a write and a re-read is not the one merged. The same holds for Telemetry.MergeTwice.
- SmsInbox.Inbox: one clock reading `now` stands in for every message without a usable header time. The firmware calls `getCurrentDateTime` once per such message, so two of them can carry different times.
- DeviceConfig.SettingsStore.SaveSettingsToRTC: the `memcpy` of a struct holding `String` members is modelled as a value copy within one boot. That copy is sound only while the one `String` member, `smsReadMode`, keeps its text in the object's own inline buffer, as its values do (`ALL`, `NEW`, or the two-character misread of an empty value); a longer value lives on the heap and the copy would share its pointer, which the model does not capture. Nothing of the copy outlives deep sleep, whatever its length: the next start constructs the RTC copy again (see the Findings row for deviceSettings.cpp:8-9).
- The ESP32 start-up sequence is not part of this model. That it runs the constructor of `rtcDeviceSettings` at every start, a wake from deep sleep included, and leaves `rtcInitialized` alone follows from the C++ rules for a global of a struct with default member initialisers and a `String` member, which is dynamically initialised.
- ImagePruning.ImageFolder.CleanDirectory: the paths are the folder text joined to the name. `Path` also normalises the folder (a trailing or doubled separator, `.` components, the folder `.` itself), and the model does not.
- SmsOutbox.SurrogateLosesBatch: the model reads the body as strict UTF-8, and Dafny's `char` cannot hold a lone surrogate. Python's `json.loads` decodes a byte body with `surrogatepass`, so the three-byte forms of surrogates read as lone surrogates instead of being refused. What happens to such text after that (validation of the item, then the UTF-8 write of `sms.csv`, which cannot encode it) is not modelled. The same holds for SmsOutbox.BatchReceived on such bodies. Bytes that are ill-formed in every reading, such as the FF BF BF of the group `-001`, are refused as modelled.
- Concurrency: `asyncio.Lock`, `aiofiles` and the thread pool of the services are left out; every operation runs to completion on its own, with file contents and modification times as explicit state.
- CSV and pandas: tables are held as rows of fields or records; the CSV text, quoting and pandas type inference are not modelled.
- Regular expressions: the six patterns of the FastAPI gate are modelled as alternatives of literals, any-character wildcards and optional characters, which are the only regex features they use; no general regex engine is modelled.
- Floating point: voltages, temperature and humidity stay opaque tokens with their divisor; JSON floats are exact reals, so rounding to the nearest double is not modelled.
- JsonValue.ToStr: `str()` of floats, lists and objects is a parameter (`render`), because Python's `repr` of floats is not modelled.
- `datetime.strptime` of the SMS timestamps is a parameter (`parse`), standing for the `%Y-%m-%dT%H:%M:%S%z` parse.
- Rate-limit counting (the slowapi and flask_limiter internals): only the key function and the exemption of trusted clients are modelled.
- Framework glue: routing, Talisman, ProxyFix, the login flow, sessions and the user database, Redis, `PlotGenerator`, `secure_filename`, image adjustment, and the service start-up code.
- app/app_sim800/endpoints/upload.py apart from its filename check: the handler's file writing is glue. Its 400 for a bad name becomes a 500 through the surrounding `except Exception`.
- The web utilities module never imports `ConfigMain`, so `get_images` and `clean_directory` would raise NameError as written. The model takes the folder and the wake-up table as parameters and states the reason lookup as written under Findings.
- `sendDataPage` (no `return` on one path) and the FTP paging loop are part of the FTP transfer and are not modelled.

## Findings

| source | as written | input that shows it | evidently intended | confidence | as-written member | corrected member |
|---|---|---|---|---|---|---|
| esp32CamSim800l/deviceSettings.cpp:115-118 | the closing quote is searched from one character past the value start, so an empty string value is misread | `"Device_SendSMS_smsReadMode":"","Device_SendSMS_batchSms":2` sets the mode to `",` | an empty quoted value reads as the empty text | not executed | DeviceJson.EmptyStringMisread | DeviceConfig.SmsReadModeIntended |
| app/app_sim800/endpoints/sms.py:72-81 | unparseable timestamps sort as the naive `datetime.min`, parseable ones are aware datetimes, and the two do not compare | a file holding its header row and a batch with the timestamp `2025-03-10T11:33:39+0300`: `sorted` raises TypeError and nothing is stored. The handler returns its `HTTPException` instead of raising it (sms.py:91), so the answer is an error object with HTTP status 200. The firmware tests only for `+HTTPACTION: 1,200` (esp32CamSim800l/Sim800lClient.cpp:981), counts the batch as delivered and, with `deleteSmsAfterSend`, deletes the messages from the SIM card (esp32CamSim800l/Sim800lClient.cpp:986-1003), so they are lost | unparseable timestamps first, the rest by instant, stable | not executed | SmsStore.HeaderBlocksDatedBatch | SmsStore.ReceiveContents |
| esp32CamSim800l/deviceSettings.cpp:8-9 | `rtcDeviceSettings` is of a struct with a `String` member and default member initialisers (deviceSettings.h:6-18), so it is dynamically initialised and constructed again to the defaults at every start, while the constant-initialised `rtcInitialized` stays true across deep sleep and `initRTCSettings` does nothing | save settings with a 60-minute sleep time to RTC memory, sleep, wake: `initDeviceSettings` puts the defaults, with 30 minutes, in use | the settings saved before deep sleep are those in use after the wake | not executed | DeviceConfig.SaveSleepWake | DeviceConfig.SaveSleepWakeIntended |
| app/app_web/utilits.py:98-102 | `ConfigMain` is not imported, so the reason lookup always raises NameError inside its try block | any name whose ninth field is a known wake-up code: the reason is still 'N/A' | the wake-up reason named by the table | not executed | Filenames.RootReasonLost | Filenames.RootInfoWith |
