# Shell operations of the Mod Organizer UI base library, in Dafny

This project models the shell-operation layer of the `uibase` library of
Mod Organizer 2 (the Linux port), and the small utilities around it. The
layer covers three things:

- the `shell::Result` outcome type and the system-message text it falls back on;
- the facade that decides what to do for `Explore`, `Open`, `shellDeleteQuiet`,
  `moveFileRecursive`/`copyFileRecursive` and `removeOldFiles`;
- the two backends. The Win32 one drives `SHFileOperationW` and
  `ShellExecuteExW` with double-NUL-terminated buffers and `FOF_*` flag words.
  The Linux one drives `posix_spawn(p)`, `QFile` and `std::filesystem`.

Around that layer, the project also models:

- the size and time-remaining formatters and the `TimeThis` timer;
- the template helpers of the Linux utility header (`VectorJoin`, `SetJoin`,
  `isOneOf`, `Guard`, `forEachLineInFile`);
- the Linux task progress table that feeds the launcher's progress bar.

Every operating-system call is a function-typed parameter (an oracle). This
covers the file operation, the spawn, the message lookup, the clock, the file
removal and the directory creation. The model states which call is made,
with which arguments, and how its answer turns into the result.

| file | module | models |
|---|---|---|
| `common.dfy` | `Common` | `Option`, number text (decimal, hex, two-digit padding) with round trips, split/join on one character, whitespace trimming |
| `result.dfy` | `ShellResult` | `Result`, `makeFailure`/`makeSuccess`, `toString`, `formatMessage` (hex on Windows, decimal on Linux), `formatSystemMessage`, `getMessage` |
| `facade.dfy` | `Facade` | `Explore` dispatch, `toUNC`, `shellDeleteQuiet`, the directory walk of `moveFileRecursive`/`copyFileRecursive`, `removeOldFiles`, the URL handler setting |
| `formatting.dfy` | `Formatting` | `localizedSize`/`localizedByteSize`/`localizedByteSpeed`, `localizedTimeRemaining`, `TimeThis` |
| `win32.dfy` | `Win32Shell` | `TranslateError`, `shellOp` and its wrappers, `stealProcessHandle`, `formatError`, `ShellExecuteWrapper`, `Explore`/`Open`/`OpenCustomURL`/`Execute`, `trimWString` |
| `linux.dfy` | `LinuxShell` | `shellDelete`, `removeOldFiles`, `ShellExecuteWrapper` and `LogShellFailure`, `Explore`/`Open`/`OpenCustomURL`/`Execute`, `CreateDirectories`, `DeleteDirectoryRecursive`, `getDesktopDirectory` |
| `headerutil.dfy` | `HeaderUtil` | `VectorJoin`, `SetJoin`, `isOneOf`, `Guard`, `forEachLineInFile` |
| `progress.dfy` | `TaskProgress` | `TaskProgressManager`: `getId`, `updateProgress`, `forgetMe`, `showProgress` |

Imperative source code is modelled as methods with loops and invariants:

- `shellOp`'s buffer pushes;
- the directory walk;
- `localizedTimeRemaining`;
- `trimWString`, over an `array<char>`;
- the Linux loops;
- the joins;
- the progress-table pruning.

State updated in place is modelled as a class: the process handle, the URL
handler, `TimeThis`, `Guard` and the progress manager. Each such method is
specified against a pure function, and that function's properties are
proved as lemmas.

`Explore` tries only the immediate parent directory of a missing path, never
a grandparent (src/utility.cpp:188-204).

## Model

| member | source | states |
|---|---|---|
| ShellResult.NewResult | src/utility.cpp:140-147 | a Result keeps the given flag, code and handle; an empty message is replaced by the system message, whose code reads back as the error |
| ShellResult.MakeFailure | src/utility.cpp:149-152 | a failure is unsuccessful, carries the code, holds the invalid handle of the platform and never has an empty message |
| ShellResult.MakeSuccess | src/utility.cpp:154-157 | a success carries ERROR_SUCCESS and the given process |
| ShellResult.MakeFailureFromCode | src/linux/utility.cpp:171-174 | a failure from a std::error_code carries its value and, when non-empty, its message |
| ShellResult.ToString | src/utility.cpp:179-186 | toString is the message, or "Error " followed by the code when the message is empty |
| ShellResult.ToStringIsMessage | src/utility.cpp:140-147 | every constructed Result renders as its own message; the "Error <code>" fallback is never reached |
| ShellResult.FormatHexMessage | src/utility.cpp:487-496 | the Windows rendering is "0x<hex>" alone or "<message> (0x<hex>)", and the code reads back from it |
| ShellResult.FormatDecimalMessage | src/linux/utility.cpp:713-716 | the Linux rendering is "<code>: <message>", ends with the message, and the code reads back from it |
| ShellResult.FormatSystemMessage | src/win32/utility.cpp:652-655 | the system message is never empty and always carries its code: hex of the DWORD on Windows, decimal on Linux (corrected getMessage on Windows, see Findings) |
| ShellResult.GetMessage | src/win32/utility.cpp:623-650 | no text gives ""; otherwise the result neither starts nor ends with whitespace (corrected trimming, see Findings) |
| Facade.ChooseExplore | src/utility.cpp:188-204 | a file is shown in its directory; otherwise a directory, or else an existing immediate parent, is opened; otherwise not found (each case an if-and-only-if) |
| Facade.Explore | src/utility.cpp:188-204 | Explore calls the file or directory backend on the path chosen, and fails with ERROR_FILE_NOT_FOUND without a backend call when nothing exists |
| Facade.ToUNC | src/utility.cpp:216-224 | toUNC starts with the \\?\ prefix, ends with the native-separator path and contains no '/' |
| Facade.ToUNCIdempotent | src/utility.cpp:216-224 | prefixing twice gives the same string as prefixing once |
| Facade.ToUNCKeepsPrefixed | src/utility.cpp:219-221 | a path that already has the prefix only has its separators converted |
| Facade.ShellDeleteQuiet | src/utility.cpp:407-413 | the direct remove is always made first; the shellDelete fallback (the one file, no recycling) is made exactly when that remove fails, and no other call is made; the result is true iff the remove or the fallback succeeds; one call is made when the remove succeeds, two otherwise |
| Facade.DirsOfIndex | src/utility.cpp:291-299 | the j-th directory of the walk is the base followed by components 0 … j |
| Facade.MakeDirCallsContents | src/utility.cpp:291-299 | mkdir is called on exactly the listed directories that do not exist yet |
| Facade.MakeDirCallsCount | src/utility.cpp:291-299 | a missing directory is created once for each time the list names it, an existing one never |
| Facade.ParentDirsLeadToTarget | src/utility.cpp:288-300 | the directories created are baseDir/c0, baseDir/c0/c1, … for every component but the last, each a prefix of baseDir/destination |
| Facade.PathOfJoin | src/utility.cpp:291-299 | appending components one at a time gives base + "/" + the components joined by "/" |
| Facade.CreateParentDirs | src/utility.cpp:291-300 | the directories are created in order, stopping at the first failed mkdir, and the result says whether all were created |
| Facade.MoveFileRecursive | src/utility.cpp:288-315 | after the directories, a rename is tried; only when it fails come a copy and a remove of the source; false only on a failed mkdir or copy |
| Facade.CopyFileRecursive | src/utility.cpp:317-339 | after the directories, one copy to baseDir/destination; false on a failed mkdir or copy |
| Facade.SelectOldFiles | src/utility.cpp:455-466 | with more files than numToKeep, exactly the first count − numToKeep in sort order are selected; otherwise none |
| Facade.RemoveOldFiles | src/utility.cpp:455-472 | the selected batch goes to shellDelete only when there is one; a warning is logged exactly when that delete fails |
| Facade.UrlHandlerSetting.SetUrlHandler | src/win32/utility.cpp:351-354 | SetUrlHandler overwrites the stored handler |
| Facade.RouteUrl | src/win32/utility.cpp:427-438 | the default opener is used exactly when no handler is stored; otherwise the custom handler |
| Facade.SetThenRoute | src/linux/utility.cpp:346-370 | after SetUrlHandler(cmd), Open routes to the default opener iff cmd is empty, else to cmd |
| Formatting.UnitIndex | src/utility.cpp:498-527 | the unit is the largest with 1024^k ≤ bytes, bytes below 1024 stay in B, and everything ≥ 1024^4 is in TB |
| Formatting.HundredthsTruncate | src/utility.cpp:505-524 | the hundredths are truncated, not rounded: h·1024^k ≤ 100·bytes < (h+1)·1024^k |
| Formatting.TwoDecimalsRoundTrip | src/utility.cpp:505-524 | the value text reads back to its integer part and two-digit fraction |
| Formatting.LocalizedByteSizeText | src/utility.cpp:498-534 | below 1024 the text is "<bytes> B"; above, "<int>.<2 digits> <unit>" of the truncated hundredths |
| Formatting.IntegerPartBelow1024 | src/utility.cpp:498-527 | below TB the integer part lies in 1..1023 |
| Formatting.SizeText | src/utility.cpp:498-534 | the text of a size whose hundredths are ip·100+fp is "<ip>.<fp padded> <unit>" |
| Formatting.LocalizedByteSizeExamplesB | src/utility.cpp:625-629 | 0, 1, 999, 1000 and 1023 bytes print as "<n> B" |
| Formatting.LocalizedByteSize1024 | src/utility.cpp:631 | 1024 gives "1.00 KB" |
| Formatting.LocalizedByteSize2047 | src/utility.cpp:632 | 2047 gives "1.99 KB" (truncation) |
| Formatting.LocalizedByteSize2048 | src/utility.cpp:633 | 2048 gives "2.00 KB" |
| Formatting.LocalizedByteSize1048575 | src/utility.cpp:634 | 1048575 gives "1023.99 KB" |
| Formatting.LocalizedByteSize1048576 | src/utility.cpp:636 | 1048576 gives "1.00 MB" |
| Formatting.LocalizedByteSize1073741823 | src/utility.cpp:637 | 1073741823 gives "1023.99 MB" |
| Formatting.LocalizedByteSize1073741824 | src/utility.cpp:639 | 1073741824 gives "1.00 GB" |
| Formatting.LocalizedByteSize1099511627775 | src/utility.cpp:640 | 1099511627775 gives "1023.99 GB" |
| Formatting.LocalizedByteSize1099511627776 | src/utility.cpp:642 | 1099511627776 gives "1.00 TB" |
| Formatting.LocalizedByteSize2759774185818 | src/utility.cpp:643 | 2759774185818 gives "2.51 TB" |
| Formatting.LocalizedByteSpeedText | src/utility.cpp:536-541 | below 1024 the text is "<n> B/s"; above, "<int>.<2 digits> <unit>/s" of the truncated hundredths; the speed text is the size text followed by "/s" |
| Formatting.LocalizedByteSpeed2048 | src/utility.cpp:536-541 | 2048 bytes per second give "2.00 KB/s" |
| Formatting.LocalizedTimeRemaining | src/utility.cpp:543-611 | the three subtractions give the text of the whole seconds: zero-padded "hh:mm:ss" and h from one hour on, unpadded minutes with two-digit seconds and m from one minute, unpadded seconds and s below; the milliseconds are dropped |
| Formatting.TimeRemainingReadsBack | src/utility.cpp:543-611 | the text reads back to the whole seconds; the letter is h, m or s by magnitude, with 3, 2 or 1 digit groups; every group after the first has two digits and is below 60; the first group is zero-padded from one hour on and unpadded below |
| Formatting.HoursText | src/utility.cpp:555-603 | from one hour up, "hh:mm:ss" followed by h has three digit groups, the last two of two digits below 60, and a zero-padded first group |
| Formatting.MinutesText | src/utility.cpp:586-606 | from one minute up to an hour, "m:ss" followed by m has an unpadded first group and a two-digit second group below 60 |
| Formatting.SecondsText | src/utility.cpp:594-609 | below a minute, the unpadded seconds followed by s form one digit group |
| Formatting.TimeRemainingHoursExample | src/utility.cpp:543-611 | 3723000 ms give "01:02:03h" |
| Formatting.TimeRemainingMinutesExample | src/utility.cpp:543-611 | 62000 ms give "1:02m" |
| Formatting.TimeRemainingSecondsExample | src/utility.cpp:543-611 | 5000 ms give "5s" |
| Formatting.MillisDecomposition | src/utility.cpp:545-574 | h, m, s by integer division recompose the whole seconds, with m, s < 60 and the milliseconds dropped |
| Formatting.TimingLine | src/utility.cpp:667-685 | the log line starts with "timing: ", followed by the label and a space when there is one, and ends with " ms" |
| Formatting.TimingLineReadsBack | src/utility.cpp:667-685 | the number between that start and " ms" reads back as the elapsed milliseconds |
| Formatting.TimeThis.Stop | src/utility.cpp:667-685 | a running timer logs one line with the elapsed time and stops; a stopped one logs nothing |
| Formatting.TimeThis.Start | src/utility.cpp:658-665 | start first stops (logging if running), then runs with the new label and start time |
| Formatting.TimeThis.Destroy | src/utility.cpp:653-656 | the destructor stops; over a timer's life one line is logged per start |
| Formatting.StopThenDestroyLogsOnce | src/utility.cpp:653-685 | a timer created, stopped and then destroyed logs exactly one line, the one Stop writes with the elapsed time |
| Win32Shell.TranslateErrorByGroup | src/win32/utility.cpp:44-99 | TranslateError equals the grouped table: each private code goes to its standard code, every other value passes through |
| Win32Shell.TranslateErrorNotIdempotent | src/win32/utility.cpp:44-99 | 0x7E translates to ERROR_ALREADY_EXISTS (0xB7), which is itself a key and would translate to ERROR_BUFFER_OVERFLOW |
| Win32Shell.ParseMultiSzRoundTrip | src/win32/utility.cpp:124-141 | splitting a double-NUL-terminated buffer at its NULs gives back the non-empty, NUL-free paths |
| Win32Shell.EmptyPathEndsList | src/win32/utility.cpp:124-141 | an empty path would end the list early, so only non-empty paths round-trip |
| Win32Shell.NativePaths | src/win32/utility.cpp:107-114 | each name becomes its absolute path with native separators |
| Win32Shell.PushPaths | src/win32/utility.cpp:107-114 | the loop appends each native absolute path followed by one NUL |
| Win32Shell.FileOpFlagsBits | src/win32/utility.cpp:154-171 | delete or yesToAll give NOCONFIRMATION, with ALLOWUNDO iff recycling; otherwise NOCOPYSECURITYATTRIBS, SILENT and NOCONFIRMMKDIR, with MULTIDESTFILES iff the counts are equal; silent adds FOF_NO_UI |
| Win32Shell.ShellOp | src/win32/utility.cpp:101-180 | the call is made iff the counts match, or there is one destination, or a delete (recycle included) has none; the buffers and flags are as specified; true iff the call returns 0, else the last error is TranslateError of the result, or ERROR_INVALID_PARAMETER when no call was made |
| Win32Shell.ShellCopy | src/win32/utility.cpp:182-186 | the list copy uses FO_COPY with yesToAll off |
| Win32Shell.ShellCopyOne | src/win32/utility.cpp:188-193 | the single copy wraps one-element lists and forwards yesToAll |
| Win32Shell.ShellMove | src/win32/utility.cpp:195-199 | the list move uses FO_MOVE with yesToAll off |
| Win32Shell.ShellMoveOne | src/win32/utility.cpp:201-206 | the single move wraps one-element lists and forwards yesToAll |
| Win32Shell.ShellRename | src/win32/utility.cpp:208-213 | rename uses FO_RENAME on one-element lists and forwards yesToAll |
| Win32Shell.ShellDelete | src/win32/utility.cpp:215-219 | delete passes no destinations and FO_RECYCLE iff recycle, which becomes a delete with ALLOWUNDO |
| Win32Shell.ProcessHandle.StealProcessHandle | src/win32/utility.cpp:232-237 | stealing returns the held handle and leaves INVALID_HANDLE_VALUE behind |
| Win32Shell.ProcessHandle.Release | include/uibase/win32/utility.h:12-24 | the unique_ptr hands a non-null handle to HandleCloser, which closes it unless it is INVALID_HANDLE_VALUE; a null or invalid handle is not closed |
| Win32Shell.StealBeforeRelease | src/win32/utility.cpp:232-237 | a stolen handle is not closed when the Result goes away; one that is not stolen is closed once, unless it is null or INVALID_HANDLE_VALUE |
| Win32Shell.FormatError | src/win32/utility.cpp:239-286 | an unknown code gives "Unknown error <code>", whose number reads back to the code |
| Win32Shell.FormatErrorDistinguishesUnknown | src/win32/utility.cpp:239-286 | two different unknown codes give different texts |
| Win32Shell.FailureParts | src/win32/utility.cpp:289-307 | the failure log lists the verb if any, the file, then the parameters if any |
| Win32Shell.ShellExecuteWrapper | src/win32/utility.cpp:309-332 | a launch succeeds with the process handle; a failure is logged and carries GetLastError and its system message |
| Win32Shell.ExploreFileSelectsPath | src/win32/utility.cpp:342-349 | exploring a file runs explorer with /select, on its native path |
| Win32Shell.ExploreWindowsRequests | src/win32/utility.cpp:334-349 | the file, directory and parent cases produce the explorer requests named; the not-found case launches nothing and fails with ERROR_FILE_NOT_FOUND |
| Win32Shell.OpenRequest | src/win32/utility.cpp:356-360 | the request has the "open" verb, the file exactly as the caller wrote it (no separator conversion) and the given parameters |
| Win32Shell.Open | src/win32/utility.cpp:356-360 | Open(path) is ShellExecuteWrapper on the "open" verb, the unconverted path and no parameters |
| Win32Shell.Execute | src/win32/utility.cpp:440-446 | Execute(program, params) is ShellExecuteWrapper on the "open" verb, the program and the parameters |
| Win32Shell.OpenFailureLine | src/win32/utility.cpp:289-307 | when Open fails, the line logged is "failed to invoke 'open <path>': " and the system message |
| Win32Shell.ExecuteFailureLine | src/win32/utility.cpp:289-307 | when Execute fails, the line logged is "failed to invoke 'open <program> <params>': " and the system message |
| Win32Shell.OpenCustomURL | src/win32/utility.cpp:362-425 | a formatting failure returns a failure without creating a process; a creation failure returns its error; success returns makeSuccess() with no process handle |
| Win32Shell.OpenUrl | src/win32/utility.cpp:427-438 | with no handler the URL is opened with the "open" verb, otherwise through OpenCustomURL with the stored handler |
| Win32Shell.TrimWString | src/win32/utility.cpp:614-621 | the in-place erase leaves exactly the non-whitespace characters, in order |
| Win32Shell.RemoveSpacesKeepsText | src/win32/utility.cpp:614-621 | trimWString keeps every non-whitespace character the same number of times |
| Win32Shell.TrimWStringJoinsWords | src/win32/utility.cpp:614-621 | as written, a two-word system message loses the space between its words |
| Win32Shell.GetMessageKeepsWords | src/win32/utility.cpp:623-650 | with the ends trimmed, a two-word message keeps its inner space and loses its CR LF |
| LinuxShell.ShellDelete | src/linux/utility.cpp:132-150 | every file is attempted in order, with moveToTrash iff recycling; the result is true iff every attempt succeeded; failures are listed in order |
| LinuxShell.FailedFiles | src/linux/utility.cpp:132-150 | no file failed exactly when all were deleted |
| LinuxShell.ShellDeleteQuietIsRemove | src/linux/utility.cpp:555-561 | on Linux the quiet delete succeeds exactly when QFile::remove does, because the fallback repeats the same remove |
| LinuxShell.RemoveOldFiles | src/linux/utility.cpp:602-620 | the first count − numToKeep files are removed one by one and the failures are those whose remove fails |
| LinuxShell.SpawnArgvDropsArgument | src/linux/utility.cpp:237-258 | as written the child gets no argument; with the program name in front it gets the parameter |
| LinuxShell.FailurePartsShape | src/linux/utility.cpp:215-235 | "spawnp" is listed only for spawnp (enum 1), never for spawn (0); then the file, then the parameters |
| LinuxShell.LogShellFailure | src/linux/utility.cpp:215-235 | the loop collects the parts and joins them with spaces into the logged line |
| LinuxShell.ShellExecuteWrapperAsWritten | src/linux/utility.cpp:237-270 | as written a failed spawn reports errno as its code |
| LinuxShell.SpawnFailureLosesCode | src/linux/utility.cpp:259-266 | a spawn failing with ENOENT while errno is 0 is reported as written with code 0; the corrected wrapper reports ENOENT |
| LinuxShell.ShellExecuteWrapper | src/linux/utility.cpp:237-275 | success iff the spawn status is 0, carrying the pid and logging nothing; otherwise a logged failure with the status as code and no process; the request carries argv [file, params] and a null environment; the child is never waited for |
| LinuxShell.ExploreLinuxRequests | src/linux/utility.cpp:277-307 | (corrected wrapper, see Findings) a file or directory is passed to xdg-open via spawnp; a missing path falls back to an existing parent; otherwise nothing is spawned and the result is ENOENT |
| LinuxShell.OpenCustomURL | src/linux/utility.cpp:325-344 | (corrected wrapper, see Findings) the handler is spawned by path (spawn, not spawnp) with the URL; the result never carries a pid; success iff the spawn succeeded |
| LinuxShell.OpenUrl | src/linux/utility.cpp:346-357 | (corrected wrapper, see Findings) with no handler the URL goes to xdg-open via spawnp, otherwise to OpenCustomURL with the stored handler |
| LinuxShell.OpenPath | src/linux/utility.cpp:319-323 | (corrected wrapper, see Findings) Open(path) spawns xdg-open via spawnp; success iff the spawn succeeds |
| LinuxShell.Execute | src/linux/utility.cpp:359-365 | (corrected wrapper, see Findings) the program is spawned by path (spawn, not spawnp) with argv [program, params], the parameter string kept whole; success iff the spawn status is 0, carrying its pid |
| LinuxShell.CreateDirectories | src/linux/utility.cpp:392-402 | one non-recursive create_directory; success iff its error code is 0, else a failure with that code |
| LinuxShell.DeleteDirectoryNeverFails | src/linux/utility.cpp:404-415 | as written a failing remove_all throws, so no failed Result is ever returned; the corrected call returns the failure |
| LinuxShell.DeleteDirectoryRecursive | src/linux/utility.cpp:404-415 | with the error code passed to remove_all, the result fails exactly when the removal does, with its code |
| LinuxShell.FirstLineWith | src/linux/utility.cpp:531-539 | the index found is the first line starting with the key, or the end |
| LinuxShell.GetDesktopDirectory | src/linux/utility.cpp:523-546 | the rest of the first XDG_DESKTOP_DIR= line, verbatim; $HOME/Desktop when the file is not open or has no such line |
| LinuxShell.DesktopDirectoryReadsPath | src/linux/utility.cpp:523-546 | read as a path, the standard quoted $HOME entry gives <home>/<name> |
| LinuxShell.QuotedDesktopEntry | src/linux/utility.cpp:523-546 | as written the standard entry comes back quoted, with $HOME unexpanded and a trailing newline |
| HeaderUtil.VectorJoin | src/linux/utility.h:269-285 | empty gives ""; otherwise the first max(1, min(size, maximum)) elements joined, then separator + "..." iff maximum < size |
| HeaderUtil.TruncatedJoinParts | src/linux/utility.h:269-285 | on a one-character separator no element holds, the join splits back into the shown elements, then "..." when truncated |
| HeaderUtil.SetJoinAsWritten | src/linux/utility.h:297-316 | as written every element is printed when maximum ≥ 2 and only the first otherwise; "..." still follows when maximum < size |
| HeaderUtil.SetJoin | src/linux/utility.h:297-316 | with the counter advanced, SetJoin gives the same text as VectorJoin |
| HeaderUtil.SetJoinPrintsEverything | src/linux/utility.h:297-316 | for 2 ≤ maximum < size, as written all elements and "..." are printed; corrected, the first maximum and "..." |
| HeaderUtil.Find | src/linux/utility.h:463-467 | std::find returns the first matching index, or the end |
| HeaderUtil.IsOneOf | src/linux/utility.h:463-467 | isOneOf is true iff some element of the list equals the value |
| HeaderUtil.Guard.Destroy | src/linux/utility.h:486-490 | the destructor runs the callable exactly when the guard is armed |
| HeaderUtil.Guard.Kill | src/linux/utility.h:499 | kill disarms the guard |
| HeaderUtil.Guard.MoveAssignAsWritten | src/linux/utility.h:492-497 | as written the callable moves and the source is disarmed, but the target keeps its own flag |
| HeaderUtil.Guard.MoveAssign | src/linux/utility.h:492-497 | corrected, the target takes the source's callable and flag and the source is disarmed |
| HeaderUtil.MoveIntoEmptyGuard | src/linux/utility.h:480-497 | moving an armed guard into a default one runs nothing as written; corrected, the target runs the callable once and the moved-from guard never does |
| HeaderUtil.ForEachLineInFile | src/linux/utility.h:544-576 | an unopened, empty or unreadable file gives false and no callback; otherwise each kept line is passed in order and the result is true |
| HeaderUtil.KeptLinesAreClean | src/linux/utility.h:558-574 | every line passed on is trimmed, non-empty and not a comment |
| HeaderUtil.BlankAndCommentLinesSkipped | src/linux/utility.h:558-574 | a file of blank and comment lines calls the callback never |
| TaskProgress.TaskProgressManager.constructor | src/linux/taskprogressmanager.cpp:89-97 | an empty table, ids from 1, and working iff there is a desktop file name |
| TaskProgress.TaskProgressManager.GetId | src/linux/taskprogressmanager.cpp:44-48 | getId returns the counter and advances it, wrapping as a quint32 |
| TaskProgress.IdsIncrease | src/linux/taskprogressmanager.cpp:44-48 | successive ids from a start are start, start+1, … while the counter does not wrap |
| TaskProgress.NextId | src/linux/taskprogressmanager.cpp:47 | the counter advances by one, wrapping to 0 after the largest quint32 |
| TaskProgress.TaskProgressManager.Prune | src/linux/taskprogressmanager.cpp:65-75 | the loop erases exactly the entries 15 s old or older, and sums and counts the kept ones |
| TaskProgress.PruneStep | src/linux/taskprogressmanager.cpp:65-75 | each visit keeps a fresh entry and adds it to the sum and count, or erases a stale one |
| TaskProgress.Retained | src/linux/taskprogressmanager.cpp:65-75 | an entry survives pruning iff it is younger than 15 s, unchanged |
| TaskProgress.TaskProgressManager.ShowProgress | src/linux/taskprogressmanager.cpp:51-87 | showProgress prunes the table; it returns the corrected progress of what is left (a fraction, hidden when nothing is, see Findings) and the signal as written: not visible for an empty table, a division by zero when every entry was pruned, else the integer quotient total / (count·100) |
| TaskProgress.TaskProgressManager.UpdateProgress | src/linux/taskprogressmanager.cpp:26-42 | nothing when not working; an unfinished update with max == 0 faults with a division by zero and changes nothing; otherwise the task is erased when value == max or stored with value·100/max, then the table is pruned; the outcome carries both the corrected progress (see Findings) and the signal showProgress sends as written |
| TaskProgress.TaskProgressManager.ForgetMe | src/linux/taskprogressmanager.cpp:14-24 | nothing when not working; otherwise the task is erased if present, then the table is pruned; the outcome carries both the corrected progress (see Findings) and the signal showProgress sends as written, which divides by zero when every remaining entry is stale |
| TaskProgress.StaleTableFaults | src/linux/taskprogressmanager.cpp:14-24 | a task updated to 50 % at time 0, then `forgetMe` of another id 20 s later: as written the signal divides by zero, the corrected progress is hidden |
| TaskProgress.Updated | src/linux/taskprogressmanager.cpp:32-39 | no table exactly when an unfinished update has max == 0; otherwise a finished task is erased, another is stored with the current time, and no other entry changes |
| TaskProgress.StoredPercent | src/linux/taskprogressmanager.cpp:38 | the stored percentage has no value exactly when max is 0, where the division faults |
| TaskProgress.UpdateSurvivesPruning | src/linux/taskprogressmanager.cpp:26-42 | the updated task survives the pruning of the same call; another survives iff fresh |
| TaskProgress.FinishedUpdateForgets | src/linux/taskprogressmanager.cpp:32-36 | finishing a task through updateProgress has the same effect as forgetMe |
| TaskProgress.StoredPercentInRange | src/linux/taskprogressmanager.cpp:38 | an unfinished update with 0 ≤ value < max stores a percentage in [0, 100) |
| TaskProgress.TruncDiv | src/linux/taskprogressmanager.cpp:38 | qint64 division truncates toward zero: the remainder is zero or takes the dividend's sign, and is smaller than the divisor in magnitude; on non-negative operands it agrees with floor division |
| TaskProgress.ProgressFrom | src/linux/taskprogressmanager.cpp:58-81 | the progress is hidden exactly when no entry was kept |
| TaskProgress.AllStaleDividesByZero | src/linux/taskprogressmanager.cpp:76-79 | when every entry is stale the value as written divides by zero; corrected, the progress is hidden |
| TaskProgress.IntegerProgressIsZero | src/linux/taskprogressmanager.cpp:76-79 | with percentages below 100 the integer quotient as written is always 0; the fraction lies strictly between 0 and 1 |
| TaskProgress.ProgressBounded | src/linux/taskprogressmanager.cpp:76-79 | with percentages in [0, 100] the corrected progress is a fraction between 0 and 1 |
| TaskProgress.TotalBounds | src/linux/taskprogressmanager.cpp:62-75 | the sum of n percentages in [lo, hi] lies between lo·n and hi·n |

## Left out

- Operating-system calls are oracles. This covers `SHFileOperationW`, `ShellExecuteExW`, `CreateProcessW`, `FormatMessageW`, `strerror`, `posix_spawn(p)`, `QFile`, `QDir` and `std::filesystem`. Their effects on a real file system are not modelled.
- Translations (`QObject::tr`, `QApplication::translate`) are the identity, and the size units are the English ones.
- Logging text is modelled only where the source builds it for a decision: the failure lines of `LogShellFailure`, and the `TimeThis` lines.
- LinuxShell.ShellDelete: the error log line, whose format string puts the message where the file name belongs, is not modelled.
- Formatting.LocalizedSize: it computes the exact truncated hundredths `bytes·100 / 1024^k` in place of the source's double arithmetic. That matches the source's own examples. In TB the double product `n·100` can round up to the next integer from about 2^48 bytes on: 360408916468695 bytes (about 328 TB) print as "327.79 TB" with the doubles, while the exact truncation gives "327.78 TB".
- QTime and the high-resolution clock are integer parameters. Progress times are whole seconds of the clock, and an entry is fresh while `now − time < 15`. This also covers readings taken across midnight, where `secsTo` turns negative.
- TaskProgress.TaskProgressManager.Prune: the sum is exact. The source's `unsigned long long` accumulator also wraps, and casts negative percentages to unsigned, and neither is modelled.
- TaskProgress.StoredPercent: the overflow of `value * 100` in qint64 is not modelled.
- The mutex, the D-Bus message and its sending, and the singleton `instance()` of the progress manager are not modelled. Calls are sequential.
- The move constructor of `Guard` is not modelled. It leaves the new guard's flag uninitialised (src/linux/utility.h:484), which is undefined behaviour.
- `ConvertList` is not modelled, because it has no return statement (undefined behaviour).
- `removeDir`/`copyDir`, `naturalCompare`, `readFileText`/`decodeTextData` and `getStartMenuDirectory` are not modelled. They walk a real directory tree or depend on a library.
- `iconForExecutable`, `getFileVersion`/`getProductVersion`, known folders, `ToString(SYSTEMTIME)` and `deleteChildWidgets` are not modelled. They depend on a library, a resource or the UI.
- The Linux `Delete`/`Rename` and the shared `Delete`/`Rename`/`CreateDirectories`/`DeleteDirectoryRecursive` of src/utility.cpp:226-283 are not modelled. They are thin wrappers over `QFile`/`QDir`/`std::filesystem`.
- `formatNtMessage` and `windowsErrorString` are not modelled. They are the same formatter over another message table.
- Win32Shell.OpenCustomURL: the `FormatMessageW` expansion of `%1` into the command line is an oracle.
- The Windows `Result` class header is not part of this model. Its default process handle is taken to be INVALID_HANDLE_VALUE, the value `stealProcessHandle` leaves behind and `HandleCloser` skips.
- Facade.SelectOldFiles: requires `numToKeep >= 0`. With a negative count the source indexes past the end of the file list.
- Win32Shell.TrimWString: whitespace is ' ' and '\t'…'\r'. `iswspace` also accepts other Unicode spaces.
- LinuxShell.ShellExecuteWrapper: the missing NULL terminator of the argument vector is not modelled.
- LinuxShell.ShellExecuteWrapper: every spawn passes a null environment (`NullEnvironment`), because a local `environ` set to null (src/linux/utility.cpp:240) shadows the process environment; the child therefore starts without PATH, HOME or DISPLAY. The model keeps this as written in both wrappers and in every request built on them; a wrapper handing on the parent's environment is not modelled.
- LinuxShell.ExploreRequest: its requests go to the corrected ShellExecuteWrapper. As written the child gets no argument and a failure reports errno (see Findings).
- LinuxShell.ExploreLinux: built on the corrected ShellExecuteWrapper. As written it inherits the argv and errno findings.
- LinuxShell.ExploreLinuxRequests: states the corrected behaviour. As written it inherits the argv and errno findings.
- LinuxShell.OpenCustomURL: built on the corrected ShellExecuteWrapper. As written the handler gets no URL argument and a failure reports errno.
- LinuxShell.OpenUrl: built on the corrected ShellExecuteWrapper. As written it inherits the argv and errno findings.
- LinuxShell.OpenPath: built on the corrected ShellExecuteWrapper. As written xdg-open gets no path and a failure reports errno.
- LinuxShell.Execute: built on the corrected ShellExecuteWrapper. As written the child's argv is the parameter string alone and a failure reports errno.
- ShellResult.FormatSystemMessage: on Windows it uses the corrected `getMessage`, which trims whitespace only at the ends. As written `trimWString` (src/win32/utility.cpp:614-621, 652-655) removes every whitespace character, so the words run together (see Findings). The messages of ShellResult.NewResult, ShellResult.MakeFailure, Win32Shell.ShellExecuteWrapper, Win32Shell.OpenFailureLine and Win32Shell.ExecuteFailureLine inherit this.
- TaskProgress.TaskProgressManager.UpdateProgress: its reported progress is the corrected fraction; the signal as written (`SignalAsWritten`) is returned beside it, so the division by zero and the integer quotient remain visible.
- TaskProgress.TaskProgressManager.ForgetMe: as for UpdateProgress, the corrected progress is returned beside the signal as written.
- LinuxShell.GetDesktopDirectory: `$XDG_CONFIG_HOME` lookup and `getenv("HOME")` are parameters. A missing `HOME` (a null pointer in the source) is not modelled.

## Findings

| source | as written | input that shows it | evidently intended | confidence | as-written member | corrected member |
|---|---|---|---|---|---|---|
| src/win32/utility.cpp:614-621 | `trimWString` erases every whitespace character, so `getMessage` joins the words of each system message | the message "Access is denied.\r\n" becomes "Accessisdenied." | remove only leading and trailing whitespace | high, not executed | Win32Shell.TrimWStringJoinsWords | Win32Shell.GetMessageKeepsWords |
| src/linux/utility.cpp:237-258 | the parameters alone are the child's argv, with no program name in front | `Open("/tmp")` starts xdg-open with argv ["/tmp"], which has no argument | argv = [file] + params | high, not executed | LinuxShell.SpawnArgvDropsArgument | LinuxShell.ShellExecuteWrapper |
| src/linux/utility.cpp:259-266 | a failed spawn is reported with `errno`, which `posix_spawn` does not set; the error is its return value | a spawn returning ENOENT while errno is 0 gives a failure with code 0 | report the returned status | high, not executed | LinuxShell.SpawnFailureLosesCode | LinuxShell.ShellExecuteWrapper |
| src/linux/utility.cpp:404-415 | `remove_all` is called without the error code, so a failure throws and the `if (e)` branch is dead | removing a directory without permission throws instead of returning a failed Result | pass `e` to `remove_all` | high, not executed | LinuxShell.DeleteDirectoryNeverFails | LinuxShell.DeleteDirectoryRecursive |
| src/linux/utility.cpp:523-546 | the desktop entry is returned verbatim | the standard line `XDG_DESKTOP_DIR="$HOME/Desktop"` gives `"$HOME/Desktop"` with its quotes and a newline | unquote, expand $HOME, drop the newline | medium, not executed | LinuxShell.QuotedDesktopEntry | LinuxShell.DesktopDirectoryReadsPath |
| src/linux/utility.h:297-316 | `pos` is never advanced, so `maximum` only decides between one element and all of them | `SetJoin({a,b,c}, ",", 2)` gives "a,b,c,..." | "a,b,..." as `VectorJoin` gives | high, not executed | HeaderUtil.SetJoinPrintsEverything | HeaderUtil.SetJoin |
| src/linux/utility.h:492-497 | move assignment does not hand over the armed flag | moving `Guard(f)` into a default `Guard()` means f never runs | the target takes the source's flag | medium, not executed | HeaderUtil.MoveIntoEmptyGuard | HeaderUtil.Guard.MoveAssign |
| src/linux/taskprogressmanager.cpp:76-79 | `total / (count * 100)` divides by zero when every entry was pruned | one entry 20 s old, then `forgetMe` of another id | hide the progress when nothing is left | high, not executed | TaskProgress.AllStaleDividesByZero | TaskProgress.TaskProgressManager.ShowProgress |
| src/linux/taskprogressmanager.cpp:76-79 | the quotient is taken in integer arithmetic, so the reported progress is 0 whenever some task is unfinished | one task at 50 % gives 50 / 100 = 0 | the fraction total / (count·100) between 0.0 and 1.0 | high, not executed | TaskProgress.IntegerProgressIsZero | TaskProgress.ProgressBounded |
