# A verified model of the Varnish Agent's own algorithms

The agent is mostly glue around libmicrohttpd, libcurl and libvarnishapi. This project models the
parts that are algorithms or protocols of its own, in Dafny 4.11, and proves what they are for.
`dafny verify dfyconfig.toml` checks all of it.

## How the files fit together

- `Bytes.dfy`, `Decimal.dfy`, `Inodes.dfy`: bytes, C strings, `%u`, `%09d`, `strtol` and `atoi`; inode
  numbers that are not in use.
- `Pidfile.dfy`: the pidfile lock. Any number of processes run `pidfile_open`, `pidfile_write`,
  `pidfile_close` and `pidfile_remove` as interleaved system calls on one path, crash between any
  two of them, and reuse inode numbers. One inductive invariant carries all results; the class
  `Machine` is the code of one process, running while the others interfere before every call.
- `Ipc.dfy`: the calls to one plugin as a transition system over sockets, pieces of messages, poll
  results and the server's position. The class `Plugin` is the server thread's code.
- `Progress.dfy`: nested calls (http to vadmin or curl to logger) and the `push_url` lock.
- `Vcl.dfy`: uploads and deploys on a file system of names, inodes and contents. A call may fail, and
  the process may die at every one of them.
- `Vsb.dfy`, `Quote.dfy`: the string buffer as a class over an array, its growth arithmetic, and the
  quoting printer with its parser.
- `Base64.dfy`: the encoder, its alphabets and its table. `Http.dfy`: registration, dispatch, the
  password check and the state machine that libmicrohttpd drives.
- `Vparams.dfy`, `Params.dfy`, `ParamText.dfy`: the `param.show -l` parser (cursor and description
  buffer; entries; printed text and the way back).
- `Vadmin.dfy`, `StatWindow.dfy`, `Backends.dfy`: the reconnecting connection to Varnish, the sample
  window of the statistics page, and the commas of the backend list.

Clocks and the interference of others are nondeterministic. What system calls, `malloc` and Varnish
return are parameters, so that a contract says both when an operation succeeds and when it does not: a
verdict for each call where there are a fixed number of them, `faulty` (calls may fail) where there is a
loop, `plenty` (`malloc` never fails). A failed assertion of the source ends in an outcome of its own (`Abort`, `Crash`, `None`),
never in a precondition. Where the code's meaning hangs on constant texts and tables, lemmas whose names
begin with `Known` spell them out.

## What the proofs found

These hold of the code as it stands. Each is a theorem or part of one, and each failure that an input
causes is also shown at such an input, in a lemma or method of its own.

- Unquoting does not always undo quoting: an octal escape is unpadded and is read greedily, so the
  round trip holds exactly when no octal-escaped byte is followed by a byte `0`..`7`
  (`Quote.RoundTrip`; bytes 1, 49 in `RoundTripCanFail`). Quoted text is JSON exactly for printable
  ASCII, newline, return and tab (byte 1 in `JsonCanFail`).
- The guard for a paragraph break wants more than 2 bytes and 4 are used. With exactly 3 left the
  count wraps around and the next line is written outside the buffer; in every other case where the
  description does not fit, the agent aborts (`Vparams.DescriptionAtIs`; a text that does it in
  `ParamText.OverrunHappens`).
- A parameter is misread or aborts the agent if its value is the empty string in quotes, or has neither
  quotes nor a unit and ends in `]`, or has neither, is not marked as the default and ends in `)` without
  a space behind its first byte; `ParamText.ValueRoundTripIff` says exactly which values come back (`x)`,
  `x]` and `""` in `ValuesCanFail`). A description that is absent leaves the buffer unwritten and read
  (`Vparams.UnwrittenHappens`).
- `VSB_vprintf` on fixed storage reports an error for an output that fits exactly, while the byte
  appends do not; on a growable buffer a failed malloc cuts its output and is not reported (`Vsb.ExactFit`).
- Deploying again what `boot.vcl` already is makes `rename` do nothing and leaves `boot.vcl.tmp`
  behind (`Vcl.RedeployLeavesTemp`); the next deploy removes it. The comment at
  `src/modules/vcl.c:140-143` fears a crash with no
  active VCL in place; with link and rename, `boot.vcl` never disappears.
- Between the lock and the truncation of a new owner, the file still holds what an earlier one left. A
  process refused in that window reports that pid as the running one (`Pidfile.ProbeFindsTheHolder`; a
  run that does it in `StalePidIsReported`; `src/main.c:309-313` prints it).
- A refused login to Varnish forgets its socket without closing it, and nothing else leaks one
  (`Vadmin.OnlyRefusalsLeak`, `RefusedLoginLeaks`).
- The page compares a new time stamp with one that it never keeps, so a sample is dropped exactly when
  it has no time stamp at all and is not the first (`StatWindow.Page.UpdateArray`; the same answer kept twice in `RepeatIsKept`).
- The backend list counts its header twice; its commas are right only within bounds
  (`Backends.CommasSeparateIff`; a missing one in `CommaCanBeMissing`, a surplus one in
  `CommaCanBeTooMany`).

Where code and documentation disagree the model follows the code. `include/http.h` says that a URL can
have only one listener and that registering returns true: the code takes any number, the latest first,
and returns nothing. It also says that other methods cause a 405: the code answers 500 when no
listener has the method (`Http.UnlistedMethodIs500`). RFC 7617 lets a client spell the scheme in any
case: the code accepts `Basic ` only (`Http.SmallSchemeIsRefused`). `src/ipc.c:185` speaks of a 16-byte length: the header has ten bytes.

## Model

| member | source | states |
|---|---|---|
| Pidfile.MutualExclusion | src/foreign/pidfile.c:94-131 | In every state of every run, a process between the successful comparison and its own unlink or close is the only one there, holds the lock on its file, and the path names that file |
| Pidfile.OwnerUndisturbed | src/foreign/pidfile.c:94-131 | While a process is there, no step of another changes the path, its lock or its bytes, or unlinks anything |
| Pidfile.UnlinkRemovesOwnFile | src/foreign/pidfile.c:339-366 | Every unlink of every run removes the name of the unlinking process's own file, never another owner's |
| Pidfile.OneUnlinkPerAcquisition | src/foreign/pidfile.c:350-360 | A process has never unlinked more often than it has acquired the file |
| Pidfile.OnlyTheOwnerWrites | src/foreign/pidfile.c:91-129 | The bytes of a file in use change only by the process that acquired it; a refused or retrying process never changes them |
| Pidfile.OwnerText | src/foreign/pidfile.c:278-315 | From its first truncation until it closes the descriptor, the removal included, an owner's file is empty or holds exactly that owner's decimal pid |
| Pidfile.RetriesBounded | src/foreign/pidfile.c:105-122 | flopen goes round at most once per unlink by other processes during the call, plus once per stat() that failed for a reason of its own |
| Pidfile.BusyMeansHeldElsewhere | src/foreign/pidfile.c:236-241 | The search for another owner's pid starts only when another process does hold the lock on the opened file |
| Pidfile.RefusalIsRecorded | src/foreign/pidfile.c:94-104 | In every run, when a process counts as refused because of another, that other did hold the lock on the very file when flock() was tried, and no new call has begun since |
| Pidfile.ProbeFindsTheHolder | src/foreign/pidfile.c:181-205 | What a refused process reads in the file of whoever holds the lock: from the holder's first truncation on, that holder's pid or nothing yet; before it, whatever was left there; hence exactly when the pid learnt is the holder's own |
| Pidfile.TextIsFromSomeone | src/foreign/pidfile.c:278-315 | Whatever a file holds at any time is empty, or was there before the run, or is the pid of a process that has written it |
| Pidfile.ProbeIs | src/foreign/pidfile.c:190-202 | The first 15 bytes are a pid exactly if they are white space, a sign or none, and digits to the end; an empty file and anything else are told apart |
| Pidfile.KnownProbes | src/foreign/pidfile.c:200-202 | "42" is the pid 42, "7x" is none |
| Pidfile.MissingMeansGone | src/foreign/pidfile.c:187-189 | The file is reported missing exactly if nothing has its name |
| Pidfile.StalePidIsReported | src/foreign/pidfile.c:236-251 | A run in which a process is refused by a new holder and is told the pid of a third that left the file behind |
| Pidfile.StepKeepsInv | src/foreign/pidfile.c:68-366 | Every system call of every process, crashes and inode reuse included, keeps the protocol's invariant |
| Pidfile.Machine.Flopen | src/foreign/pidfile.c:68-132 | The retry loop comes back however the others interfere, with the locked, matching, truncated file or with -1; unless calls may fail, -1 means that another process had the lock when flock() was tried |
| Pidfile.Machine.PidfileOpen | src/foreign/pidfile.c:207-275 | A handle means: the path names the locked file, which is empty. Unless calls may fail, there is no handle exactly if another process had the lock, and then something was learnt of it |
| Pidfile.Machine.PidfileRead | src/foreign/pidfile.c:181-205 | Reading the pid is tried once to four times, all four if the file is still found empty at the end; the last finding is returned, and unless calls may fail there is one |
| Pidfile.Machine.PidfileVerify | src/foreign/pidfile.c:164-179 | It succeeds exactly if the handle is not broken and fstat() works; then the handle still owns the named, locked file |
| Pidfile.Machine.PidfileWrite | src/foreign/pidfile.c:277-315 | It succeeds exactly if the handle is not broken and fstat(), ftruncate() and pwrite() work, and then the owned file holds exactly the pid; for every way to fail, what becomes of the handle and of the file |
| Pidfile.Machine.GiveUp | src/foreign/pidfile.c:299-312 | After a failed ftruncate or pwrite: if the handle verifies once more it ends broken, with the file gone exactly if unlink() works; if not, it stays, and still owns its file |
| Pidfile.Machine.PidfileRemove | src/foreign/pidfile.c:339-366 | True exactly if the handle is not broken and fstat(), unlink() and close() work; a handle that verifies is freed, with one own unlink exactly if unlink() works |
| Pidfile.Machine.PidfileClose | src/foreign/pidfile.c:317-337 | True exactly if the handle is not broken and fstat() and close() work; a handle that verifies lets go of the lock and leaves the file and its name, whatever close() says; another changes nothing |
| Decimal.HeaderRoundTrip | src/ipc.c:128-129 | For every length below 10^9 the header has exactly ten bytes, ends in a space, and atoi gives the length back |
| Decimal.StrtolOfDigits | src/foreign/pidfile.c:200-202 | strtol of a printed number gives the number and stops at its end |
| Ipc.Linearizable | src/ipc.c:118-252 | In every reachable state each client's calls read call, run on its own bytes and a NUL, return with that run's answer; the runs are one serial execution of the callback |
| Ipc.ReturnedMeansRan | src/ipc.c:118-133 | Every return belongs to the client's last call, whose message the callback was given exactly once between call and return, and carries that run's answer |
| Ipc.CallsAreTheActions | src/ipc.c:118-133 | At every moment of a run, the calls in the history are exactly the ones that the clients have made, in their order and with their messages |
| Ipc.RunIsOfTheCall | src/ipc.c:189-216 | The first callback run for a client after its call is given the very message of that call and a NUL |
| Ipc.AnswerIsOfTheCall | src/ipc.c:118-222 | What a client reads after its call is the answer to that message; in between the callback was run for it exactly once |
| Ipc.AnyMessageCanBeSent | src/ipc.c:122-123 | A client that is not in a call can send any message below 10^9 bytes |
| Ipc.KnownHeaders | src/ipc.c:126-128 | The headers of two lengths, letter by letter |
| Ipc.AssertionsHold | src/ipc.c:198-202 | A slot reported by poll has ten readable header bytes, the last a space, which atoi turns into the length of the one message that follows |
| Ipc.SomeoneCanMove | src/ipc.c:189-252 | While a call is outstanding some thread can take a step other than starting a new call |
| Ipc.StepWorks | src/ipc.c:118-252 | Every step other than a new call, down to single pieces of a message and turns of the poll loop, lessens the work that is left |
| Ipc.EveryCallEnds | src/ipc.c:118-252 | From any reachable state a schedule without new calls has no more steps than there is work left, and one that cannot go on has every client idle |
| Ipc.OvertakenAtMostTwice | src/ipc.c:240-249 | A readable request is overtaken at most twice by any other single handle, and at most once by one with a higher index |
| Ipc.StepKeepsInv | src/ipc.c:118-252 | Every step of every thread keeps the invariant: a stream holds at most one frame or an unread suffix of one |
| Ipc.Plugin.IpcCmd | src/ipc.c:189-222 | For any pieces that read() returns, the callback is run once, on the sent bytes and a NUL, and its answer goes to that slot |
| Ipc.Plugin.Pass | src/ipc.c:240-250 | With the clients going on before every system call, one pass serves every slot that poll saw readable exactly once, in index order, and no other; poll saw at least what was readable before, and blocks as long as that is nothing |
| Ipc.Plugin.Register | src/ipc.c:161-176 | A new handle is the next index and leaves the others alone |
| Progress.HandlersWellFormed | src/modules/vstat.c:230-285 | The handlers that take the push_url lock take it once and give it back, calling only logger and curl in between |
| Progress.PushUrlIsAlone | src/modules/vstat.c:254-285 | While vstat_push_url logs the new URL, its thread holds the lock as writer and no other thread holds it at all |
| Progress.PushStatsReads | src/modules/vstat.c:230-252 | While push_stats asks curl, its thread holds the lock as reader and no other thread is a writer |
| Progress.PushStatsAsks | src/modules/vstat.c:230-252 | curl is asked exactly if there is a URL and the log is open; the logger exactly if there is a URL and one of the two fails |
| Progress.ReadersShare | src/modules/vstat.c:230-252 | A reader does not wait for other readers |
| Progress.MoveKeepsInv | src/modules/vadmin.c:268-287 | Every step keeps: a plugin serves one call at a time, a writer holds the lock alone, only logger is called from a callback |
| Progress.BeginKeepsInv | src/modules/vstat.c:254-285 | A thread may start another handler at any time without breaking what every step keeps |
| Progress.SomethingMoves | src/modules/curl.c:80-149 | While any thread has something left to do, in a call or at the lock, some thread or plugin can move |
| Progress.MoveDoesWork | src/ipc.c:240-249 | Every step brings the end of the pending work exactly one step nearer |
| Progress.EverythingIsAnswered | src/modules/logger.c:58-74 | Under any schedule the pending calls are all answered and all locks granted after exactly the pending number of steps, and never sooner stuck |
| Vcl.NamesDistinct | src/modules/vcl.c:96-99 | No two of the temporary and final names of identifiers, boot.vcl and boot.vcl.tmp coincide |
| Vcl.ValidCIdent | src/modules/vcl.c:189-198 | The loop accepts exactly the strings of letters, digits and underscores |
| Vcl.StoredIsSound | src/modules/vcl.c:201-242 | However far an accepted upload got, final names hold only complete accepted texts, and a text answered 201 is under its name |
| Vcl.ActivatedIsSound | src/modules/vcl.c:132-185 | However far a deploy got, the same |
| Vcl.Agent.Persist | src/modules/vcl.c:89-127 | It succeeds exactly if there is a text and every call works; wherever it stops, only the temporary name and the target changed, the target only to the whole text, no inode with another name was written, and O_EXCL never met an existing name |
| Vcl.Agent.PersistActive | src/modules/vcl.c:132-185 | It succeeds exactly if the target is there, is a regular file, and every call works; wherever it stops, boot.vcl is what it was or the deployed file and has not disappeared; link never meets EEXIST; a leftover stays exactly when the same file is deployed again |
| Vcl.Agent.Push | src/modules/vcl.c:365-393 | 201 exactly if the upload is taken, has a text, and every call works, and then the complete text is on disk under its name; a rejected upload changes nothing; the status codes of all error cases |
| Vcl.NoNameIsRefused | src/modules/vcl.c:380-388 | An upload without a name becomes the name that glibc prints for NULL, which is no identifier |
| Vcl.RedeployLeavesTemp | src/modules/vcl.c:161-182 | An instance: with boot.vcl already a link to the file, link and rename leave boot.vcl.tmp behind |
| Vcl.LastUploadIsSaved | src/modules/vcl.c:200-242 | In every run, the last upload of a name that got to the disk, if answered 201, is what is saved under that name |
| Vcl.LastDeployIsBooted | src/modules/vcl.c:467-492 | In every run, once an upload and then a deploy of its name were answered 201 and 200, boot.vcl holds that text until the next deploy, whatever is uploaded since |
| Vcl.Agent.UseVcl | src/modules/vcl.c:467-492 | 200 exactly if varnishd uses the name, its file is there, and every call works; then boot.vcl holds the text last uploaded under that name if that upload was answered 201; nothing but boot.vcl and its temporary name changes |
| Vcl.Agent.Serve | src/modules/vcl.c:89-242 | Over any run of uploads, deploys, deletions, crashes and restarts the directory stays sound; every answer is good exactly if nothing stands against it; at the end the last upload of each name answered 201 is under its name, boot.vcl equals what the last deploy answered 200 promised, and without a deploy it keeps its bytes |
| Vcl.UploadedIsDeployable | src/modules/vcl.c:467-492 | A name whose upload met no failing call, and that was not discarded since, has all that a deploy needs |
| Vcl.CutIs | src/modules/vcl.c:369-379 | A name of up to 255 characters is kept whole, of a longer one the first 255 |
| Vcl.KnownNames | src/modules/vcl.c:96-99 | The names on disk, spelt out, and the characters of an identifier |
| Vsb.ClearLowRoundsDown | src/foreign/vsb.c:52 | Clearing the low k bits rounds down to the nearest multiple of 2^k |
| Vsb.GrowSizeIsLeast | src/foreign/vsb.c:125-139 | The new size is the least 16*2^k that is enough below a page, and the least multiple of 4096 that is enough above |
| Vsb.ExtendSize | src/foreign/vsb.c:125-139 | The doubling loop and the bit trick compute that size |
| Vsb.FewExtensions | src/foreign/vsb.c:271-287 | Filling a new growable buffer with n bytes one at a time extends it at most 8 + n/4096 times |
| Vsb.Vsb.Extend | src/foreign/vsb.c:144-164 | A bigger buffer with the same bytes, or nothing changed; always the former on a growable buffer if malloc never fails |
| Vsb.Vsb.PutByte | src/foreign/vsb.c:271-287 | Appends one byte, or sets the sticky error when there is no room and none to be had |
| Vsb.Vsb.Bcat | src/foreign/vsb.c:292-309 | Appends all; on fixed storage exactly the prefix that fits, with the error if and only if something did not fit; the number of extensions on a growable one |
| Vsb.Vsb.Vprintf | src/foreign/vsb.c:363-418 | Formats at most twice; appends the whole output unless malloc failed or storage is fixed; when fixed, the error exactly if the output reaches the free space |
| Vsb.ExactFit | src/foreign/vsb.c:397-410 | An instance for every text: into fixed storage that it just fits, printing leaves an error behind and appending does not, with the same contents |
| Vsb.Vsb.Finish | src/foreign/vsb.c:481-493 | The terminating NUL always fits behind the contents, and the sticky error is reported |
| Vsb.Vsb.SetPos | src/foreign/vsb.c:247-258 | Cuts the contents to a first part, and refuses to go beyond them |
| Vsb.Vsb.Trim | src/foreign/vsb.c:451-465 | Leaves the longest first part that does not end in white space |
| Vsb.Vsb.DoAll | src/foreign/vsb.c:232-493 | Any sequence of operations on a growable buffer in which a finished one is cleared before it is used again equals that sequence on a plain byte string as long as malloc succeeds; whenever it is finished, a NUL stands behind its contents |
| Quote.Quote | src/foreign/vsb.c:555-611 | Printing byte by byte into a buffer appends exactly the quoted form of the bytes as long as malloc succeeds; on fixed storage the part of it that fits, with the error if and only if something did not; nothing on a buffer in error |
| Quote.UnquoteInto | src/foreign/vsb.c:613-668 | The loop with strtoul appends exactly what the text stands for, as far as fixed storage allows, or stops at the first malformed escape |
| Quote.RoundTrip | src/foreign/vsb.c:565-668 | Unquoting what is between the quotes gives the bytes back if and only if no octal-escaped byte is directly followed by an octal digit |
| Quote.RoundTripCanFail | src/foreign/vsb.c:603-606 | Bytes 1 and 49 do not come back |
| Quote.IncompleteMeans | src/foreign/vsb.c:634-635 | A text is refused as incomplete only for a backslash at its very end |
| Quote.OutOfRangeMeans | src/foreign/vsb.c:647-658 | A text is refused as out of range only for octal digits behind a backslash that come to more than 255 |
| Quote.KnownRefusals | src/foreign/vsb.c:629-666 | Four escapes and what they come to: too early an end, 400, 377, and a letter that stands for itself |
| Quote.KnownMarks | src/foreign/vsb.c:582-610 | A space, a quote and a backslash, quoted letter by letter |
| Quote.KnownEnds | src/foreign/vsb.c:582-610 | Newline, carriage return and tab |
| Quote.KnownOctals | src/foreign/vsb.c:603-606 | Bytes 1 and 127 |
| Quote.QuotedIsFramed | src/foreign/vsb.c:582-610 | Quoted text is printable ASCII, and a scanner that skips what a backslash protects finds the closing quote exactly at the last byte |
| Quote.JsonStringIff | src/foreign/vsb.c:582-610 | Quoted text is a JSON string (section 7 of RFC 8259) that denotes its argument if and only if every byte is printable ASCII, newline, return or tab |
| Quote.JsonCanFail | src/foreign/vsb.c:603-606 | Byte 1 is not quoted to a JSON string for it |
| Sixths.Index1 | src/foreign/base64.c:105-106 | The shifts and masks of the second symbol are the arithmetic of the sixths of 24 bits |
| Sixths.Index2 | src/foreign/base64.c:107-108 | The same for the third symbol |
| Base64.AlphaInit | src/foreign/base64.c:44-56 | The table gives every symbol its index, a padding character other than NUL zero, and every other byte -1 |
| Base64.KnownAreProper | src/foreign/base64.c:58-77 | The three alphabets have 64 different symbols, and neither padding nor NUL is among them |
| Base64.KnownAlphabets | src/foreign/base64.c:58-77 | The three alphabets, symbol by symbol, and their padding |
| Base64.KnownLine | src/foreign/base64.c:79-133 | The encoding of a line of user and password, symbol by symbol |
| Base64.Base64Encode | src/foreign/base64.c:79-133 | The sliding window of three bytes produces the encoding of the C string and a NUL, as long as there is memory |
| Base64.DecodeEncode | src/foreign/base64.c:44-133 | Decoding through the table gives the input back for every proper alphabet and every input, and the output has 4*ceil(n/3) symbols (sections 4 and 5 of RFC 4648) |
| Base64.EncodeInjective | src/foreign/base64.c:79-133 | Different inputs have different encodings |
| Base64.CView | src/foreign/base64.c:58-77 | As a C string the output is all of it, or with NUL padding the unpadded form of section 3.2 of RFC 4648 |
| Http.FindListener | src/modules/http.c:280-305 | The loop finds the specified choice, and the argument is what stands behind the URL and its slashes, character by character, or NULL if that is nothing |
| Http.ParseMethod | src/modules/http.c:362-376 | Every method goes by its own name, and GET by HEAD as well |
| Http.ChosenIsLatest | src/modules/http.c:280-305 | The choice is the first match of the list: the latest registration whose URL is a whole-segment prefix and whose methods overlap |
| Http.OrderIrrelevantIff | src/modules/http.c:280-305 | The choice never depends on the order of registration if and only if no two different registrations with a common method have nested URLs |
| Http.AgentOrderIrrelevant | include/plugin-list.h:39-54 | The agent's own 32 registrations meet that condition |
| Http.LatestFirstIsNoMatter | src/modules/http.c:546-554 | For such a table the reversed list that registration builds dispatches like the table itself |
| Http.Registry.RegisterAll | src/modules/http.c:537-555 | Registering one after the other leaves the list in reverse order |
| Http.Configure | src/main.c:260-279 | The line is refused exactly when no colon has something behind it; user and password split it at the first colon; the token is the encoding of the whole line; an abort only for lack of memory |
| Http.WellFormedIsAcceptedIff | src/modules/http.c:330-355 | A well-formed Basic header (section 2 of RFC 7617) is accepted if and only if it carries the configured line |
| Http.AcceptedIff | src/modules/http.c:341-349 | Any header is accepted if and only if it is well-formed and its token decodes to the configured line |
| Http.KnownHeader | src/modules/http.c:341-349 | The header that a client sends for a known user and password, letter by letter, is accepted |
| Http.SmallSchemeIsRefused | src/modules/http.c:341-344 | The right token behind a scheme in small letters is refused |
| Http.RequestOutcome | src/modules/http.c:379-457 | For every request and every way its body arrives: exactly one of six ends, with the condition of each; a listener runs only when authorised, never for OPTIONS, in read-only mode only for GET and HEAD, and gets the whole body and a NUL |
| Http.UnlistedMethodIs500 | src/modules/http.c:446-456 | An authorised POST that no listener takes is answered 500 |
| Http.Connection.AnswerToConnection | src/modules/http.c:379-457 | One call does what the specification of a call says, unless malloc fails |
| Http.Serve | src/modules/http.c:379-457 | Call after call until a response is queued comes to the specified outcome of the run, unless malloc fails |
| Vparams.Strbchr | src/modules/vparams.c:124-135 | The backward search finds the last occurrence behind the first byte, or NULL |
| Vparams.ExtractDescription | src/modules/vparams.c:219-260 | The loop over the 2048-byte buffer ends as specified, and on success the buffer holds the rendered description and the cursor stands behind it |
| Vparams.DescriptionFateIs | src/modules/vparams.c:229-254 | A rendered description of at most 2047 bytes is never cut and never written outside; a longer one ends in an abort, or in a write outside exactly if a paragraph break stands at 2045 bytes with a line behind it |
| Vparams.DescriptionAtIs | src/modules/vparams.c:219-260 | For every text at the parser: exactly when the description is done, aborts, is written behind the buffer, or never written |
| Vparams.UnwrittenHappens | src/modules/vparams.c:238-239 | An absent description leaves the buffer unwritten |
| Vparams.LayoutBreaksLead | src/modules/vparams.c:230-236 | Behind a paragraph break there is a line (or the assertion that it is not empty fails) |
| Params.ParamOpt.ParseValue | src/modules/vparams.c:160-217 | The searches from both ends of the line give value, unit and default mark as specified, or a failed assertion |
| Params.ParamOpt.ParseEntry | src/modules/vparams.c:267-300 | Filling the fields in place gives the specified entry, cursor and failures |
| Params.ParseAll | src/modules/vparams.c:325-345 | The loop gives the specified list, built in reverse |
| Params.EntryAt | src/modules/vparams.c:267-300 | Every entry read moves the cursor forward and not past the terminator |
| ParamText.ValueRoundTripIff | src/modules/vparams.c:160-217 | A printed value line is read back as it was meant if and only if the value cannot be taken for something else |
| ParamText.ValuesCanFail | src/modules/vparams.c:160-217 | Three values at which reading ends in a failed assertion |
| ParamText.OverrunHappens | src/modules/vparams.c:230-236 | A description text, 2045 bytes and a second paragraph, that is written behind the buffer |
| ParamText.EntryIsRead | src/modules/vparams.c:267-300 | A printed well-formed parameter is read with the same name, value, unit, default, limits and joined description |
| ParamText.RoundTrip | src/modules/vparams.c:306-345 | Printing any list of well-formed parameters and parsing it gives exactly those entries, backwards |
| ParamText.KnownList | src/modules/vparams.c:306-345 | A text of two entries, with all its fields and without, and the entries read from it, letter by letter |
| ParamText.Titles | src/modules/vparams.c:275-292 | The titles of the fields, letter by letter |
| ParamText.Marks | src/modules/vparams.c:179-185 | The default mark, the two escaped newlines and the blanks, letter by letter |
| Vadmin.WritesAreShaken | src/modules/vadmin.c:154-265 | In every run, whatever is written of a command comes after a complete handshake on the same descriptor with only successful writes since |
| Vadmin.OnlyRefusalsLeak | src/modules/vadmin.c:203-214 | The socket in use is open, and the other open sockets are exactly as many as logins were refused |
| Vadmin.RefusedLoginLeaks | src/modules/vadmin.c:203-208 | One refused login: no connection, and its socket still open |
| Vadmin.Admin.CliSock | src/modules/vadmin.c:154-228 | The connection comes up exactly if there are an address and a socket, the greeting is 200, or 107 with a secret and an accepted login, and a pong comes; then the socket has seen just that; no command is written |
| Vadmin.Admin.Run | src/modules/vadmin.c:230-265 | A blank command writes nothing; otherwise command and newline are written, Varnish is asked exactly if both writes work, and a failed write resets the state |
| Vadmin.KnownBlanks | src/modules/vadmin.c:236-241 | White space alone is blank, one other character is not |
| Vadmin.Admin.ReadCmd | src/modules/vadmin.c:273-287 | After any command the state tells whether the connection is up and shaken hands on; a command that is not blank is answered exactly if the connection is up or comes up and both writes work |
| StatWindow.WindowGrows | html/js/varnishstat.js:85-89 | One splice keeps the array at the newest thousand samples and the first since the reset |
| StatWindow.ArraysAgreeIff | html/js/varnishstat.js:85-102 | The two arrays show the same sample at an index exactly below 1000, or at 1000 while there are 1001 samples or the two samples are equal |
| StatWindow.OldestIsSmallest | html/js/varnishstat.js:93-101 | After any run the oldest uptime kept exceeds none of the others |
| StatWindow.KeptIsSuffix | html/js/varnishstat.js:93-101 | What is kept is the end of what came in, cut exactly where a restart showed |
| StatWindow.RepeatIsKept | html/js/varnishstat.js:118-121 | The same answer twice is kept twice |
| StatWindow.Page.UpdateArray | html/js/varnishstat.js:109-131 | One tick keeps both arrays equal to the window and the list of the samples since the reset; the new sample, and its uptime, come first in them |
| Backends.LengthSplits | src/modules/vbackends.c:93-95 | The length of the text is the lengths of its lines and its newlines |
| Backends.ShowJson | src/modules/vbackends.c:84-113 | The loop prints a row per line after the header, whole and in order, with a comma exactly where the running sum is below the length |
| Backends.RowsAreLines | src/modules/vbackends.c:97-110 | Whatever the commas, the rows are the lines behind the header |
| Backends.CommasSeparateIff | src/modules/vbackends.c:93-110 | With two rows or more, the commas separate the rows if and only if newlines <= header < last row + newlines |
| Backends.CommaCanBeMissing | src/modules/vbackends.c:93-110 | A list of two rows without a comma between them |
| Backends.CommaCanBeTooMany | src/modules/vbackends.c:93-110 | A list of two rows with a comma behind the last |
| Backends.OneRowIff | src/modules/vbackends.c:93-110 | With one row there is no comma if and only if newlines <= header |

## Left out

- libmicrohttpd, libcurl, the shared-memory readers and VCLI_ReadResult/VCLI_WriteResult: atomic messages or nondeterministic inputs.
- Time: an IPC answer is assumed to arrive within the 5.0 seconds of `src/ipc.c:132`; a late one would put the handle out of step. External services are assumed to answer.
- Pidfile.Machine.PidfileOpen: what the calls of its loops return is told apart only as `faulty` or not, since there is no bound on their number.
- Vcl.Agent.Serve: what varnishd answers to vcl.inline, vcl.use and vcl.discard is part of a request.
- Short or failed system calls that the code does not handle: the ten-byte header read, the pwrite of the pid and the VCL write (only asserted to be positive) are all or abort; read in ipc_cmd returns between 1 and the requested count.
- Ipc.Plugin.IpcCmd: the callback is one step there, while nested calls are the subject of Progress; ipc_send's writes block only as the steps of the transition system say.
- One thread per handle, which `src/ipc.c:81-90` asserts, is assumed; whether every module obeys is not claimed (vac_register uses one pair of handles from two threads).
- Pidfile.RetriesBounded: a stat() that fails for another reason than a missing name is counted separately, because the code retries on every error.
- A close() that fails is taken to have let go of the descriptor and its lock, as on Linux; the failure is reported.
- Access rights and other reasons for open() to fail are one kind of failure; the pid is a C int printed with `%u`, taken as a natural number.
- Outside actors: a removed pidfile, files edited in the persistence directory, VCL loaded through `/direct`, deployed names that are no identifiers, paths longer than the buffers, durability of the directory after a power loss. The heredoc that vcl.inline sends is not parsed.
- Vcl.Agent.Push: the name of an upload is cut at 255 characters as in the code; the time-stamped name of a POST is a name like any other. A PUT without a name passes NULL to snprintf, which ISO C leaves undefined; it is taken as what glibc prints.
- C int overflow in lengths; isgraph of bytes above 126 is false, as in the C locale.
- Quote.Quote: on a growable buffer nothing is promised about the contents once malloc has failed.
- Quote.UnquoteInto: the same.
- Vsb.Vsb.DoAll: when malloc fails nothing is promised about later operations beyond the sticky error.
- Http.RequestOutcome: running out of memory ends the agent and is an outcome of its own; what a listener answers, the help text, the response headers, the request log and reading the password file are not part of this model.
- Vparams.ExtractDescription: the text is assumed to be shorter than the address space.
- Params.ParseAll: the linked list is a sequence of entries; the JSON that is printed from it is not part of this model.
- Vadmin.Admin.CliSock: write failures in the middle of a handshake are left out (`src/modules/vadmin.c:60-68` documents them as open), and so is the uninitialised status that goes with a blank command.
- Vadmin.Admin.Run: the branch for a negative socket cannot be reached in state 1 and is not modelled.
- StatWindow.Page.UpdateArray: uptimes are numbers or undefined; NaN and the rest of the page are not part of this model.
- Backends.ShowJson: rows are kept as their lines; format_line's splitting is not part of this model.
- The other modules (vlog, vban, vstatus, vping, echo, html), vcl_list_json and vcl_active, and the rest of the JavaScript: thin, library-bound or easy.
