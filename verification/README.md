# Verified models of speedysvc

speedysvc runs Python services in worker processes and lets clients call them
through shared memory. This project models the parts of it whose correctness
is hard to see from reading one function, and proves what they are relied on for.

Every module is one component. `dafny verify dfyconfig.toml` checks all of them.

**Shared-memory RPC** (`ShmProtocol`, `ShmInvariant`, `ShmTheorems`,
`ShmSafety`, `ShmExecutions`, `ShmProgress`, with `SharedParams`, `Frames`). One
client and any number of worker threads share a mailbox: a state byte (INVALID, SERVER or CLIENT) and a
length-prefixed frame, used under one lock. Either side may replace the mailbox
by a bigger one of the same name; the others find theirs INVALID and open the
new one. The model is a transition system in which every access to the lock,
the state byte, the frame or the name is a step of its own, and steps of
different participants interleave freely. Workers join and leave at any time.
The main result is that this refines a plain function call.

- Assumed: one client object with `use_in_process_lock=True`; nobody is killed
  while it holds the lock, and no lock is destroyed; page size above 2.
  Serialisers and service methods are arbitrary: a run of a method returns
  bytes, raises an error, or raises one that cannot itself be packed.
- A lock call that times out changes nothing and is not a step. `ResendError` is
  never raised by `_send`, so the retry loop of `send` runs once.

**HybridLock** (`HybridLock`). The lock the protocol uses, one atomic access at
a time: spinning on the flag byte, the POSIX semaphore, writing the flag and the
pid, and releasing. It refines the mutex that the protocol assumes. Assumed: only
holders unlock, nobody destroys the lock, and POSIX semaphores behave as specified.

**Cached log** (`MemoryCachedLog`, `LogPolling`, on `BinaryFile`). A circular
buffer with a "spindle" against an unbounded log of entries.

**HTML tags** (`Escape`, `HtmlTags`, `HtmlSpellings`, `HtmlRoundTrip`). The tag
printer, and the hand-written scanner that must invert it and read other spellings. What Python supplies (lower-casing,
the entity table, `isdigit`, `int`, `chr`) is a parameter `Library`, of which
`Library.Sound` states the few facts needed; character references are those of
section 5.3 of HTML 4.01.

**External sort** (`StableSort`, `SortFile`, on `CodecLines`). Sorting in chunk
files and merging them through a heap, against the stable sort. Lines end where
the reader of `codecs.open` ends them, as `str.splitlines` does.

**INI files** (`IniFiles`, `IniRoundTrip`, `IniExact`, `IniSpellings`, on
`TextFiles`). Writer and reader, exactly which contents survive, and what is read
from files written by hand.

**Registry** (`Registry`, on `Lists`). The length-prefixed JSON value in shared
memory that lists workers and clients, the operations on it, and the worker-side
pass that follows it. JSON is an encoding with an inverse that ignores white
space behind a value and accepts nothing else there (`Json.Sound`). An operation
is modelled under the registry's lock, as one call.

**Scaling** (`TimeSeries`, `ScalingController`, `ScalingByCpu`). The samples, their averages and
the controller that starts and stops workers. The clock is read once per tick,
pids of forks and the random choice of a victim are inputs, and removing a
worker is one step.

**Integer arrays** (`IntegerArrays`). The narrowest-width writer and the reader.

**Merging of printed text** (`LogMerging`, `LogOrder`). The logging thread
that joins what is printed piecewise, with sends that may fail.

`Bytes`, `Strings`, `Dicts`, `Lists`, `TextFiles`, `CodecLines` and `BinaryFile`
hold the Python operations the components share, `Wrappers` the option and
result types.

## What turned out not to hold

Each of these is stated as an exact condition.

- A method runs once for each call, and once more for each time it ended in an
  error that cannot be packed (`ShmExecutions.ExactlyOnce`). The worker thread then
  ends with the request still marked for the server: from any such state of any run
  any waiting worker can come to run it again (`ShmExecutions.LostRunRepeats`), and
  there is a run in which a call returns whose method ran twice
  (`ShmExecutions.RunsTwice`).
- `batch_sort` gives the sorted lines if and only if the input is empty, or the
  buffer size is positive, a last line without a line break sorts last, and neither
  in a sorted batch nor in the whole does a line that ends in `\r` come before a
  bare newline, with which it makes one line (`SortFile.BatchSort`,
  `SortFile.SortIsNoFile`, `SortFile.ReturnFuses`).
- `merge` skips the chunk behind an empty one, because it removes the empty one
  from the list it iterates over. All lines come out if and only if the chunks
  skipped are empty too (`SortFile.Merge`, `SortFile.NothingSkippedIff`).
- `unescape` raises exactly if an `&` is followed by a number for which there is no
  character (`Escape.RaisesIff`), and one such value fails a whole tag, even under a
  key that would be dropped (`HtmlSpellings.CleanIs`).
- An INI section called `a#b` or an entry `[x` = `y]` is written and not read
  back (`IniExact.HashNameIsLost`, `IniExact.BracketedEntryIsLost`);
  `IniExact.RoundTripIff` gives the exact condition.
- A comment behind an INI heading does not keep the heading from being recognised,
  but becomes part of the section's name (`IniSpellings.CommentSpoilsHeading`);
  without one the name is read as it stands (`IniSpellings.SpelledIsRead`).
- A command that is not ASCII ends every worker that reads it, so its call never
  returns; every other call under way can return from any state
  (`ShmProgress.CallReturnsIff`).
- A registry value too long for its buffer raises after its length has been
  written. The value held before is lost exactly if something other than white space
  lies behind its text (`Registry.OverflowLosesIff`), as the zeros of a new buffer do
  (`Registry.NewBufferOverflows`).
- A tick of the controller removes from an empty list exactly if a service that
  may have no workers has none while its last sample exceeds the memory limit
  (`ScalingController.RunErrors`). A run in which no worker dies falls below the minimum
  exactly if at some tick memory costs a required worker
  (`ScalingController.FallsShortIff`); while the limit stays exceeded a service at
  its minimum has one too few after every other tick
  (`ScalingController.MemoryPressureFlaps`).
- `NumArray` does not reject a negative index: it fails exactly if the item would
  begin before the file does, and otherwise reads the bytes in front of the array
  (`IntegerArrays.NegativeIndexReadsInFront`).
- Log messages can overtake each other in two ways. An ordinary message overtakes
  text printed before it, unless a turn without an item has come since
  (`LogOrder.OrdinaryInOrderIff`, `LogOrder.OrdinaryOvertakes`); and standard error
  is sent after standard output that was printed later (`LogOrder.StderrComesLast`).
  `LogOrder.OrderIff` says which runs keep the order: exactly those in which
  neither happens.

## Model

| member | source | states |
|---|---|---|
| ShmTheorems.RpcIsFunctionCall | speedysvc/client_server/shared_memory/SHMClient.py:101-175 | In every interleaving of one client and any workers, with any resizes, joins and departures, the i-th completed call returned or raised what the method does on the i-th request |
| ShmTheorems.Refinement | speedysvc/client_server/shared_memory/SHMServer.py:165-246 | Every step of any participant is a step of a plain exchange (ask, run the method with its outcome, return or raise that outcome) or no step of it, so no result is stale or foreign |
| ShmTheorems.RunInv | speedysvc/client_server/shared_memory/SHMClient.py:101-230 | Every state of every run satisfies the invariant over generations, places, histories and the lock |
| ShmTheorems.SilentSteps | speedysvc/client_server/shared_memory/SHMServer.py:165-284 | Locking, resizing and reconnecting leave requests, runs, answers and results alone |
| ShmTheorems.RunAnswers | speedysvc/client_server/shared_memory/SHMServer.py:210-229 | Over a run, every response a worker ever computed says what the method comes to on the request it is filed under |
| ShmInvariant.InitInv | speedysvc/client_server/shared_memory/SHMResourceManager.py:171-183 | What `create_resources` sets up satisfies the invariant |
| ShmInvariant.ApplyKeepsInv | speedysvc/client_server/shared_memory/SHMServer.py:116-246 | The invariant is inductive: every action of the client, of a worker, joining and leaving keeps it |
| ShmInvariant.ResizeKeeps | speedysvc/client_server/shared_memory/SHMClient.py:177-207 | Each of the five steps of replacing a mailbox keeps the generations in order and fires no assertion; the new one takes over the state byte and has room for the frame |
| ShmInvariant.CreateKeeps | speedysvc/client_server/shared_memory/SHMResourceManager.py:227-251 | Creating a mailbox for twice the frame under a free name keeps sizes at least doubling and superseded ones INVALID |
| ShmInvariant.ClientKeepsInv | speedysvc/client_server/shared_memory/SHMClient.py:118-160 | Every step of `_send`, whatever the workers have done meanwhile |
| ShmInvariant.WorkerKeepsInv | speedysvc/client_server/shared_memory/SHMServer.py:176-245 | Every step of `handle_command`, whatever the others have done meanwhile |
| ShmInvariant.ExecuteKeepsInv | speedysvc/client_server/shared_memory/SHMServer.py:210-229 | Running the method, with any of its three outcomes |
| ShmInvariant.WorkerReads | speedysvc/client_server/shared_memory/SHMServer.py:205-208 | A worker that saw SERVER decodes exactly the request last sent |
| ShmInvariant.ClientDecodes | speedysvc/client_server/shared_memory/SHMClient.py:163-175 | A client that saw CLIENT decodes exactly the response computed for its request |
| ShmSafety.NoAssertionFires | speedysvc/client_server/shared_memory/SHMClient.py:121-160 | No assertion of either side fires, neither loop reconnects twice, a reconnected client sees CLIENT, and between calls it holds the lock with the newest mailbox showing CLIENT |
| ShmSafety.MutualExclusion | speedysvc/client_server/shared_memory/SHMServer.py:167-245 | No two participants are between taking and releasing the lock |
| ShmSafety.LockIsMutex | speedysvc/client_server/shared_memory/SHMServer.py:167-245 | The protocol uses its lock as the mutex that HybridLock implements, released by its holder only |
| ShmSafety.SupersededStay | speedysvc/client_server/shared_memory/SHMServer.py:248-270 | From any state of a run to any later one, superseded mailboxes keep every byte, are INVALID, and sizes at least double by generation |
| ShmSafety.NamedMailboxInUse | speedysvc/client_server/shared_memory/SHMServer.py:272-284 | Unless somebody is mid-resize, the name stands for the newest mailbox and it shows CLIENT or SERVER |
| ShmExecutions.ExactlyOnce | speedysvc/client_server/shared_memory/SHMServer.py:178-237 | In every run the method of a completed call was executed once plus once for each execution of it that ended in an error that cannot be packed; so exactly once if and only if there was no such action |
| ShmExecutions.CallOutcome | speedysvc/client_server/shared_memory/SHMServer.py:210-229 | For every completed call there is one execution of the method, on the request that was sent, whose outcome the caller got: status + and the value if it returned, status - and the error behind an extra minus sign if it raised; all other executions came before and were lost |
| ShmProgress.CallReturnsIff | speedysvc/client_server/shared_memory/SHMServer.py:165-246 | From every state of every run with a call under way, whoever has the lock and in the middle of whatever, there is a way for it to return if and only if it is answered or its command is ASCII: no deadlock and no endless loop that cannot be left |
| ShmExecutions.LostRunRepeats | speedysvc/client_server/shared_memory/SHMServer.py:221-245 | In any state that a run reaches, with a worker running the method, the method may end so, and any other waiting worker, whichever mailbox it maps, can come to run the same request |
| ShmExecutions.RunsTwice | speedysvc/client_server/shared_memory/SHMServer.py:210-245 | A run from the start, for any request and value of ordinary size, whose call returns after two executions |
| ShmSafety.ResizesAreLogarithmic | speedysvc/client_server/shared_memory/SHMClient.py:125-129 | A run with k resizes has sent or answered a frame longer than page * 2^k / 4 |
| ShmSafety.RunSize | speedysvc/client_server/shared_memory/SHMServer.py:232-236 | After a resize the mailbox is smaller than four times some frame that was sent or answered |
| SharedParams.MapSize | speedysvc/client_server/shared_memory/shared_params.py:34-37 | The doubling loop, against the function Fit |
| SharedParams.FitIsLeast | speedysvc/client_server/shared_memory/shared_params.py:34-37 | Fit is the least page size times a power of two that reaches the request, and less than twice the request when above a page |
| SharedParams.ResizeFits | speedysvc/client_server/shared_memory/SHMClient.py:198-201 | A resize at least doubles the mailbox, holds state byte and frame, and stays below four times the frame |
| SharedParams.LargerIsDouble | speedysvc/client_server/shared_memory/shared_params.py:34-37 | Of two mailbox sizes the larger is at least twice the smaller |
| SharedParams.ChainDoubles | speedysvc/client_server/shared_memory/shared_params.py:34-37 | n resizes multiply the size by at least 2^n |
| Frames.RequestRoundTrip | speedysvc/client_server/shared_memory/SHMBase.py:5-8 | A packed request is read back from any mailbox that holds it, whatever follows |
| Frames.ResponseRoundTrip | speedysvc/client_server/shared_memory/SHMBase.py:10-13 | The same for a response of either status |
| Frames.RequestLayout | speedysvc/client_server/shared_memory/SHMBase.py:5-8 | Every byte of a request: length of the command in two bytes and of the arguments in four, most significant first, then both |
| Frames.ResponseLayout | speedysvc/client_server/shared_memory/SHMBase.py:10-13 | Every byte of a response: + or -, the length in four bytes, the data |
| Frames.EncodeRequest | speedysvc/client_server/shared_memory/SHMClient.py:115-116 | Packing succeeds exactly when command and arguments fit their length fields, and gives header plus both |
| Frames.EncodeResponse | speedysvc/client_server/shared_memory/SHMServer.py:219 | The same for responses |
| HybridLock.StepRefinesMutex | speedysvc/hybrid_lock/linux/HybridLock.pyx:320-402 | Every atomic step of `lock` and `unlock` is a step of a mutex or leaves it alone |
| HybridLock.UntimedGetsLock | speedysvc/hybrid_lock/linux/HybridLock.pyx:356-365 | In every run a thread that called `lock` without timeout and is outside again has owned the lock in between |
| HybridLock.TimedGivesUp | speedysvc/hybrid_lock/linux/HybridLock.pyx:366-384 | With a timeout it gives up only at a step at which the time was over and another thread owned the lock |
| HybridLock.TriesUntil | speedysvc/hybrid_lock/linux/HybridLock.pyx:320-388 | Until then it keeps trying as it was asked to: it spins only if it was asked to spin, and is timed exactly if it was asked to be |
| HybridLock.SpinEndsIff | speedysvc/hybrid_lock/linux/HybridLock.pyx:335-354 | It spins if asked to, and a look ends that exactly if 6ms are over, the flag is not LOCKED or more than 8192 looks came before |
| HybridLock.FreeIsTaken | speedysvc/hybrid_lock/linux/HybridLock.pyx:356-387 | While nobody owns the lock a thread that tries gets it by three steps of its own, and one more if it spins, leaving LOCKED and its pid |
| HybridLock.HeldIsReleased | speedysvc/hybrid_lock/linux/HybridLock.pyx:389-402 | The owner can unlock, and three steps later nobody owns it and the flag is UNLOCKED |
| HybridLock.SemaphorePlusOwners | speedysvc/hybrid_lock/linux/HybridLock.pyx:320-402 | In every run semaphore value plus owners is 1, the flag is LOCKED exactly between an owner's two writes of it, nobody gets an exception, no unlock is refused, no spin exceeds its bound |
| HybridLock.OneOwner | speedysvc/hybrid_lock/linux/HybridLock.pyx:356-388 | Mutual exclusion |
| HybridLock.PidIsOwners | speedysvc/hybrid_lock/linux/HybridLock.pyx:404-415 | `get_pid_holding_lock`, with its two reads in two states of a run: 0 if nobody owns the lock at the first, the pid of the owner signed at the first unless somebody signs in between, and that of the owner signed at the second |
| HybridLock.RunRefinesMutex | speedysvc/hybrid_lock/linux/HybridLock.pyx:320-402 | Every state of every run stands for a state of the mutex |
| MemoryCachedLog.MemoryCachedLog.WriteLine | speedysvc/logger/std_logging/MemoryCachedLog.py:93-116 | Appends the entry to log and disk, or raises the right error and changes nothing |
| MemoryCachedLog.MemoryCachedLog.PutInCache | speedysvc/logger/std_logging/MemoryCachedLog.py:106-116 | The write with at most one wrap, and the new spindle |
| MemoryCachedLog.MemoryCachedLog.IterFromCache | speedysvc/logger/std_logging/MemoryCachedLog.py:53-91 | The entries read for any offset, without changing the log |
| MemoryCachedLog.MemoryCachedLog.Poll | speedysvc/logger/std_logging/FIFOJSONLog.py:99-106 | Entries and new spindle of the same moment |
| LogPolling.BufferIsRing | speedysvc/logger/std_logging/MemoryCachedLog.py:106-116 | After any writes the buffer is the end of the byte stream of all entries, wrapped at the spindle |
| LogPolling.PollYieldsNews | speedysvc/logger/std_logging/MemoryCachedLog.py:67-81 | If fewer than max_cache bytes were written since, an old spindle yields exactly the entries written since, in order |
| LogPolling.PollIsRightIff | speedysvc/logger/std_logging/MemoryCachedLog.py:67-85 | It does if and only if fewer than max_cache bytes were written since, or exactly that many since the log was empty |
| LogPolling.FullReadYieldsWholeEntries | speedysvc/logger/std_logging/MemoryCachedLog.py:60-65 | Reading without offset yields exactly the entries lying wholly in the last max_cache bytes, with their leading newline |
| LogPolling.PollsConcatenate | speedysvc/logger/std_logging/FIFOJSONLog.py:99-106 | Consecutive polls concatenate to the whole log |
| MemoryCachedLog.SpindleStep | speedysvc/logger/std_logging/MemoryCachedLog.py:110-116 | Writing up to max_cache bytes moves the spindle on or wraps it once |
| Escape.EscQIsMap | speedysvc/toolkit/html_tools/escape.py:13-22 | The chain of replacements is one map over the characters: nothing is escaped twice |
| Escape.EscPIsMap | speedysvc/toolkit/html_tools/escape.py:25-34 | The same for the other kind of quote |
| Escape.EscQIsSafe | speedysvc/toolkit/html_tools/escape.py:13-22 | No double quote and no angle bracket is left |
| Escape.EscPIsSafe | speedysvc/toolkit/html_tools/escape.py:25-34 | No single quote and no angle bracket is left |
| Escape.Unescape | speedysvc/toolkit/html_tools/Unescape.py:31-69 | The loop over the pieces, with the error of the first number that is no character, against the function Unescaped |
| Escape.RaisesIff | speedysvc/toolkit/html_tools/Unescape.py:31-69 | Unescaping raises if and only if some `&` is followed by a decimal or hexadecimal number, up to the next `&` or `;`, for which there is no character |
| Escape.UnescapeClosed | speedysvc/toolkit/html_tools/Unescape.py:36-63 | '&', a text up to ';' and what follows unescape to the meaning of the text, or to themselves, and what follows unescaped |
| Escape.UnescapeOpen | speedysvc/toolkit/html_tools/Unescape.py:36-63 | The same without ';', in front of the next '&' or at the end |
| Escape.HexMeans | speedysvc/toolkit/html_tools/Unescape.py:51-60 | A hexadecimal reference, in either case, means the character of the number whose digits it has |
| Escape.OtherMeansNothing | speedysvc/toolkit/html_tools/Unescape.py:62-63 | What is no entity and no number means nothing |
| Escape.TextStays | speedysvc/toolkit/html_tools/Unescape.py:31-69 | A text in which no & has a reference behind it, such as R&D, stays as it is |
| Escape.IsHex | speedysvc/toolkit/html_tools/Unescape.py:8-16 | True exactly for non-empty strings of hexadecimal digits |
| Escape.UnescapeEscQ | speedysvc/toolkit/html_tools/Unescape.py:31-69 | Unescaping takes back `esc_q` for every string, and does not raise |
| Escape.UnescapeEscP | speedysvc/toolkit/html_tools/Unescape.py:31-69 | Unescaping takes back `esc_p` for every string, and does not raise |
| HtmlTags.GetHtmTag | speedysvc/toolkit/html_tools/HTMLTags.py:43-224 | The three loops of the scanner and the errors of the third, against the function Parse |
| HtmlTags.OutputHtm | speedysvc/toolkit/html_tools/HTMLTags.py:227-262 | The printer without sanitising, with and without the tag itself, against the function Print |
| HtmlSpellings.SpelledTagParses | speedysvc/toolkit/html_tools/HTMLTags.py:43-224 | For attributes spelled in any mixture of bare keys, unquoted values and values in either kind of quotes, with any spaces around them and their equals signs, any end and any text behind, scanning gives the name, the flag, the alphabetic keys in order with their values unescaped, and the index past the tag; and it fails exactly if some value cannot be unescaped |
| HtmlSpellings.AttrsTake | speedysvc/toolkit/html_tools/HTMLTags.py:97-194 | The second loop collects exactly the dict of any spelled attributes, whatever key or value was pending |
| HtmlSpellings.FrontSkipped | speedysvc/toolkit/html_tools/HTMLTags.py:57-79 | Spaces and opening brackets in front of the name are skipped |
| HtmlSpellings.LastWins | speedysvc/toolkit/html_tools/HTMLTags.py:97-202 | Of attributes with the same key the last one counts |
| HtmlSpellings.CleanIs | speedysvc/toolkit/html_tools/HTMLTags.py:204-216 | The third loop keeps exactly the alphabetic keys, in order, with their values unescaped, and raises if and only if some value, under whatever key, cannot be unescaped |
| HtmlSpellings.ParsedKeys | speedysvc/toolkit/html_tools/HTMLTags.py:43-224 | Whatever text is scanned, the keys that come out are alphabetic and different |
| HtmlTags.Find | speedysvc/toolkit/html_tools/HTMLTags.py:115-116 | The first position of the character, or the length |
| HtmlRoundTrip.ParseInvertsPrint | speedysvc/toolkit/html_tools/HTMLTags.py:43-262 | For a valid name, distinct alphabetic keys, any or no values and any text behind the tag, scanning a printed tag returns name, flag, attributes in order and the index past the tag |
| HtmlRoundTrip.CleanedRaw | speedysvc/toolkit/html_tools/HTMLTags.py:204-216 | Unescaping and key filtering of what the scanner collects from a printed tag give the attributes that were printed |
| SortFile.HeapPop | speedysvc/toolkit/io/sort_file.py:28 | The popped entry precedes all others by key, and among equal keys by chunk index |
| SortFile.Merge | speedysvc/toolkit/io/sort_file.py:8-41 | All lines of the chunks that are visited, and if these are sorted the stable sort of their concatenation; all chunks are visited if none is empty |
| SortFile.NothingSkippedIff | speedysvc/toolkit/io/sort_file.py:12-24 | All lines of all chunks come out if and only if every chunk skipped for an empty one is empty itself |
| SortFile.BatchSort | speedysvc/toolkit/io/sort_file.py:44-95 | The output's lines are the stable sort of the input's if and only if the input is empty, or the buffer size is positive and the whole and each batch are sortable: a last line without break sorts last, and no sorted line ending in `\r` stands before a bare newline |
| SortFile.ReturnFuses | speedysvc/toolkit/io/sort_file.py:58-62 | A file of two lines that is not sortable |
| SortFile.SortPiecesFirst | speedysvc/toolkit/io/sort_file.py:54-65 | Sorting batches first does not change the stable sort of the whole |
| SortFile.SortIsNoFile | speedysvc/toolkit/io/sort_file.py:58-63 | Where a last line without break does not sort last, the sorted lines are not the lines of any file |
| StableSort.SortIsPermutation | speedysvc/toolkit/io/sort_file.py:58 | The specification permutes |
| StableSort.SortIsSorted | speedysvc/toolkit/io/sort_file.py:58 | The specification is sorted by key |
| StableSort.SortIsStable | speedysvc/toolkit/io/sort_file.py:58 | The specification keeps the order of equal keys |
| StableSort.SortedIsUnique | speedysvc/toolkit/io/sort_file.py:28-29 | These properties leave one result |
| SortFile.SortIsFileIff | speedysvc/toolkit/io/sort_file.py:58-62 | The sorted lines of a file are the lines of a file if and only if it is sortable |
| CodecLines.LinesIsFile | speedysvc/toolkit/io/sort_file.py:48-50 | Iterating over a file gives lines that end nowhere but at their end, and that are the file |
| CodecLines.EndsAre | speedysvc/toolkit/io/sort_file.py:48-56 | The code points of the characters that end a line |
| CodecLines.LinesOfText | speedysvc/toolkit/io/sort_file.py:60-62 | Lines written to a chunk file are read back as they were if they can be the lines of a file; otherwise fewer are read back |
| IniFiles.WriteD | speedysvc/toolkit/py_ini/write/WriteBase.py:12-28 | The writer's loop and its errors, against WriteFrom |
| IniFiles.WriteSection | speedysvc/toolkit/py_ini/write/WriteIni.py:8-14 | The lines of the entries sorted by key, or an assertion error if a key contains '=' |
| IniFiles.ReadD | speedysvc/toolkit/py_ini/read/ReadBase.py:9-72 | The reader's loop over lines, with its modes and errors, against ReadText |
| IniFiles.ReadSection | speedysvc/toolkit/py_ini/read/ReadIni.py:8-34 | The loop over a section's lines, against Entries |
| IniRoundTrip.KeptIsRead | speedysvc/toolkit/py_ini/read/ReadBase.py:9-97 | What is kept is read back: the same sections in order with the same keys and values |
| IniRoundTrip.WriteFromText | speedysvc/toolkit/py_ini/write/WriteBase.py:12-28 | The text written consists of headings, sorted entries and blank lines, and is written whenever names are stripped |
| IniRoundTrip.DataIsSection | speedysvc/toolkit/py_ini/read/ReadIni.py:23-34 | A section's lines read back as its keys and values |
| IniExact.RoundTripIff | speedysvc/toolkit/py_ini/read/ReadBase.py:9-97 | For contents without line breaks and keys without '=', writing and reading (without `eval`) give the contents back if and only if everything is stripped, no name has a quote, every heading reads as one, and no entry reads as a comment or heading |
| IniSpellings.SpelledIsRead | speedysvc/toolkit/py_ini/read/ReadBase.py:9-97 | Reading a file with any spaces, blank lines, comments and colons gives its sections in order with their keys and values; a section or key that comes again replaces the first |
| IniSpellings.CommentSpoilsHeading | speedysvc/toolkit/py_ini/read/ReadBase.py:29-43 | A heading with a comment behind it never gives its own name |
| IniSpellings.AnyLineEnd | speedysvc/toolkit/py_ini/read/ReadBase.py:5-7 | Every kind of line end is read as a newline |
| IniExact.HashNameIsLost | speedysvc/toolkit/py_ini/read/ReadBase.py:29-32 | A concrete section name with '#' that is written and not read back |
| IniExact.BracketedEntryIsLost | speedysvc/toolkit/py_ini/read/ReadBase.py:34-43 | A concrete entry that is written and not read back, because its line reads as a heading |
| IniExact.PlainIsKept | speedysvc/toolkit/py_ini/read/ReadIni.py:11-20 | Names without quote or '#' and keys that start with neither '#' nor '[' are always kept |
| Registry.EncodeDecodes | speedysvc/ipc/JSONMMapBase.py:29-45 | Whatever the buffer held, and however long that was, it decodes to the value last encoded, if that fits |
| Registry.OverflowDecodes | speedysvc/ipc/JSONMMapBase.py:36-45 | After a value that does not fit, the whole rest of the buffer is decoded |
| Registry.OverflowLosesIff | speedysvc/ipc/JSONMMapBase.py:29-45 | After a value that does not fit the buffer still decodes to the one before if only white space lies behind its text, and otherwise to nothing |
| Registry.NewBufferOverflows | speedysvc/ipc/JSONMMapBase.py:36-45 | A value in an otherwise empty buffer that it does not fill is lost in this way |
| Registry.SHMResourceManager.Decode | speedysvc/ipc/JSONMMapBase.py:29-34 | The value, or an error where the buffer holds none |
| Registry.SHMResourceManager.Encode | speedysvc/ipc/JSONMMapBase.py:36-45 | Succeeds exactly if the value fits; the buffer afterwards in either case |
| Registry.SHMResourceManager.InitValue | speedysvc/client_server/shared_memory/SHMResourceManager.py:119-125 | Leaves a registry alone; makes an empty one where there is no JSON or a falsy value, and raises where the buffer is no text |
| Registry.SHMResourceManager.AddServerPid | speedysvc/client_server/shared_memory/SHMResourceManager.py:272-281 | Enters the pid unless it is there; on success the pid is in the value, the others stay in order, and the clients are the same |
| Registry.SHMResourceManager.DelServerPid | speedysvc/client_server/shared_memory/SHMResourceManager.py:283-292 | Removes every occurrence of the pid and nobody else |
| Registry.SHMResourceManager.ResetAllServerPids | speedysvc/client_server/shared_memory/SHMResourceManager.py:305-334 | Removes all worker pids and no client |
| Registry.SHMResourceManager.AddClientPidQid | speedysvc/client_server/shared_memory/SHMResourceManager.py:355-364 | Enters the client unless it is there; on success the client is in the value, the others stay in order, and the workers are the same |
| Registry.SHMResourceManager.CreateResources | speedysvc/client_server/shared_memory/SHMResourceManager.py:171-183 | Creates the client's names, then registers it: on success it is in the value with everybody who was |
| Registry.SHMResourceManager.DelClientPidQid | speedysvc/client_server/shared_memory/SHMResourceManager.py:366-375 | Removes the client and nobody else, and unlinks its names |
| Registry.SHMResourceManager.ResetAllClientPids | speedysvc/client_server/shared_memory/SHMResourceManager.py:377-385 | Removes all clients and unlinks the names of each |
| Registry.SHMResourceManager.CheckForMissingPids | speedysvc/client_server/shared_memory/SHMResourceManager.py:140-165 | Keeps exactly the living, in order, and unlinks the names of the other clients |
| Registry.SHMResourceManager.GetCreatedExitedClientPids | speedysvc/client_server/shared_memory/SHMResourceManager.py:340-348 | The two differences between living registered clients and a given set |
| Registry.NeverDuplicated | speedysvc/client_server/shared_memory/SHMResourceManager.py:267-385 | Over any run of operations on the buffer, those whose value does not fit and starts of managers included: when the buffer decodes, no worker pid and no client key is in it twice |
| Registry.BufferIsAfterAll | speedysvc/client_server/shared_memory/SHMResourceManager.py:267-385 | As long as all values fit, the buffer decodes to what the operations make of an empty registry |
| Registry.RegisteredIff | speedysvc/client_server/shared_memory/SHMResourceManager.py:140-385 | After any operations a client is registered if and only if it was entered and has not been removed, reset or found dead since |
| Registry.WorkingIff | speedysvc/client_server/shared_memory/SHMResourceManager.py:140-334 | The same for workers |
| Registry.ClientsInOrder | speedysvc/client_server/shared_memory/SHMResourceManager.py:340-364 | Clients are listed in the order in which they were entered |
| Registry.ServedIff | speedysvc/client_server/shared_memory/SHMServer.py:89-114 | As long as all values fit, the clients a pass finds to serve are exactly the living ones that were entered and not removed since |
| Registry.Connect | speedysvc/client_server/shared_memory/SHMResourceManager.py:171-183 | A living client that is created is served after the next pass of any worker, which starts a thread for it exactly if it had none |
| Registry.DroppedAreUnlinked | speedysvc/client_server/shared_memory/SHMResourceManager.py:140-165 | An operation drops a registered client if and only if it unlinks the client's names |
| Registry.SHMServer.MonitorPids | speedysvc/client_server/shared_memory/SHMServer.py:89-114 | Fails and changes nothing exactly where the buffer does not decode; otherwise the worker serves exactly the living registered clients, and started one thread for each new one and no other |
| Lists.RemoveAll | speedysvc/client_server/shared_memory/SHMResourceManager.py:290-291 | The removal loop leaves the list without the element, otherwise in order |
| TimeSeries.TimeSeriesData.GetAverageOver | speedysvc/logger/time_series_data/TimeSeriesData.py:204-233 | Sums over exactly the records within the times, divided by their number; nothing where there are none |
| TimeSeries.TimeSeriesData.AddSample | speedysvc/logger/time_series_data/TimeSeriesData.py:138-149 | The newest record in front, the oldest dropped; records that count a process stay such |
| TimeSeries.ServiceTimeSeriesData.SampleData | speedysvc/logger/time_series_data/ServiceTimeSeriesData.py:60-70 | Counts all processes, adds up those that can be opened, unregisters those that are gone, and fails as the first that fails does; nothing if there are none |
| TimeSeries.ServiceTimeSeriesData.SampleDataLoop | speedysvc/logger/time_series_data/TimeSeriesData.py:118-128 | The record of a sample becomes the newest; an error leaves the records alone, and a denied access ends the collecting |
| TimeSeries.AverageCounts | speedysvc/logger/time_series_data/TimeSeriesData.py:204-233 | An average over times after 0 counts at least one process |
| TimeSeries.AverageBetween | speedysvc/logger/time_series_data/TimeSeriesData.py:204-233 | An average lies between the least and the greatest of its samples, and times their number is their sum |
| TimeSeries.NoAverage | speedysvc/logger/time_series_data/TimeSeriesData.py:204-233 | There is none of nothing, and none of the CPU usage exactly where no sample has one |
| TimeSeries.LeftIff | speedysvc/logger/time_series_data/ServiceTimeSeriesData.py:87-101 | A process is unregistered exactly if it is gone and is looked at before one raises |
| TimeSeries.SampledIs | speedysvc/logger/time_series_data/ServiceTimeSeriesData.py:60-70 | A sample is what the first process that raises raises, or the sums of CPU and memory of those that can be opened |
| ScalingController.MultiProcessManager.RemoveDead | speedysvc/client_server/shared_memory/MultiProcessManager.py:328-344 | Removes exactly the dead, in a loop over a copy, and notes the time if there were any |
| ScalingController.MultiProcessManager.MonitorProcess | speedysvc/client_server/shared_memory/MultiProcessManager.py:316-399 | One tick: pids, time of the last change and error are those of Tick and Decided; no division by zero where each sample counts a process, and a removal from an empty list exactly in the stated case |
| ScalingController.MultiProcessManager.StartService | speedysvc/client_server/shared_memory/MultiProcessManager.py:171-176 | Starts the minimum number of workers |
| ScalingController.NeverTooMany | speedysvc/client_server/shared_memory/MultiProcessManager.py:316-399 | In no run are there more workers than the larger of the limits |
| ScalingController.ShortfallRepaired | speedysvc/client_server/shared_memory/MultiProcessManager.py:346-351 | Without deaths and memory pressure a shortfall of m is repaired in exactly m ticks and does not come back |
| ScalingController.QuietPeriods | speedysvc/client_server/shared_memory/MultiProcessManager.py:377-399 | After any change a CPU-driven start or removal waits for more than its averaging period |
| ScalingByCpu.ChangesIff | speedysvc/client_server/shared_memory/MultiProcessManager.py:377-399 | A worker is started for CPU usage if and only if the quiet period is over, more than the configured share is used for each process, and the maximum is not reached; one is removed if and only if that is not so, the longer period is over, all together use less than the share, and the minimum is exceeded |
| ScalingByCpu.OverloadGrows | speedysvc/client_server/shared_memory/MultiProcessManager.py:377-388 | Under sustained load the number of workers never falls, and each further one comes at most a period and a tick after the one before |
| ScalingByCpu.OverloadReachesMax | speedysvc/client_server/shared_memory/MultiProcessManager.py:377-388 | So it reaches the maximum within that time for each worker missing |
| ScalingByCpu.IdlingShrinks | speedysvc/client_server/shared_memory/MultiProcessManager.py:390-399 | Under sustained idling it never rises and never falls below the minimum, and each worker too many goes within a period and a tick |
| ScalingByCpu.IdlingReachesMin | speedysvc/client_server/shared_memory/MultiProcessManager.py:390-399 | So it comes down to the minimum within that time for each worker too many |
| ScalingController.NewPeriod | speedysvc/client_server/shared_memory/MultiProcessManager.py:353-355 | There is an average for starts exactly if a sample lies within the period for starts, both ends included |
| ScalingController.KillPeriod | speedysvc/client_server/shared_memory/MultiProcessManager.py:356-358 | The same for removals |
| ScalingController.RunErrors | speedysvc/client_server/shared_memory/MultiProcessManager.py:353-399 | Over samples that each count a process no tick of any run divides by zero; a tick removes from an empty list exactly if no worker is left, none is required and the last sample exceeds the memory limit, so never with a positive minimum; no key is missing where all samples have usage |
| ScalingController.TooFewIff | speedysvc/client_server/shared_memory/MultiProcessManager.py:328-375 | After a tick there are too few workers exactly if one start does not make up for the dead, or a required one is removed for memory |
| ScalingController.FallsShortIff | speedysvc/client_server/shared_memory/MultiProcessManager.py:316-399 | A run without deaths falls below the minimum if and only if at some tick memory costs a required worker |
| ScalingController.MemoryPressureFlaps | speedysvc/client_server/shared_memory/MultiProcessManager.py:346-375 | For as many ticks as memory stays exceeded, a service at its minimum has one worker too few after each odd one and its minimum after each even one |
| ScalingController.MemoryPressureReaps | speedysvc/client_server/shared_memory/MultiProcessManager.py:368-375 | Above its minimum it loses one worker at each such tick |
| IntegerArrays.ChooseType | speedysvc/toolkit/arrays/array_write/write_array.py:19-34 | The search succeeds for every array of longs and picks the narrowest type, signed exactly if some integer is negative |
| IntegerArrays.WriteArray | speedysvc/toolkit/arrays/array_write/write_array.py:19-58 | The bytes written at the file's position, and type, offset and number |
| IntegerArrays.TablesAreExact | speedysvc/toolkit/arrays/array_write/consts.py:1-13 | The ranges in the tables are those of two's complement of each width |
| IntegerArrays.UnpackInvertsPack | speedysvc/toolkit/arrays/array_read/NumArray.py:6-16 | An integer comes back from its bytes if and only if the type holds it |
| IntegerArrays.LittleEndian | speedysvc/toolkit/arrays/array_read/NumArray.py:6-16 | Byte k of a packed integer is that of the k-th power of 256 |
| IntegerArrays.NumArray.GetItem | speedysvc/toolkit/arrays/array_read/NumArray.py:57-86 | For any index: IndexError exactly at or past the end, a value exactly if its bytes lie in the buffer, and then the integer they stand for |
| IntegerArrays.ReadsBack | speedysvc/toolkit/arrays/array_read/NumArray.py:57-86 | Every integer of a written array is read back at its index |
| IntegerArrays.ItemIff | speedysvc/toolkit/arrays/array_read/NumArray.py:61-86 | Exactly when an index raises IndexError, when the file refuses the seek, when too few bytes are left, and which bytes are read otherwise |
| IntegerArrays.NegativeIndexReadsInFront | speedysvc/toolkit/arrays/array_read/NumArray.py:61-75 | In a buffer that holds the array an index fails exactly if it is at or past the end or its item begins before the buffer; any other negative index reads the bytes in front of the array |
| LogMerging.LogThread.Turn | speedysvc/logger/std_logging/LoggerClient.py:68-118 | One turn of the thread, with failing sends: for each stream the text sent and pending grows by exactly the text of the chunk taken |
| LogMerging.RunAccounted | speedysvc/logger/std_logging/LoggerClient.py:68-100 | In every run the chunks of a stream are, in order, the runs behind the messages sent and a pending run; each message joins its run and carries its first chunk's metadata |
| LogMerging.TextIsConserved | speedysvc/logger/std_logging/LoggerClient.py:68-100 | Text sent for a stream followed by the pending text is the text of its chunks |
| LogMerging.OrdinaryDelivered | speedysvc/logger/std_logging/LoggerClient.py:86-88 | Ordinary items are delivered as they are and in order, each one once, unless sending them fails |
| LogMerging.EndsIff | speedysvc/logger/std_logging/LoggerClient.py:90-118 | The thread goes on until a send fails in a turn without an item, and does nothing after that |
| LogOrder.OriginsExplain | speedysvc/logger/std_logging/LoggerClient.py:68-118 | In every run each message sent is one ordinary item, or the chunks of a stream, that its origins name, and so is what is pending |
| LogOrder.PendingWaits | speedysvc/logger/std_logging/LoggerClient.py:68-100 | What is pending of a stream are exactly the chunks taken since the last turn without an item |
| LogOrder.OrdinaryInOrderIff | speedysvc/logger/std_logging/LoggerClient.py:87-95 | An ordinary item that is accepted is sent after every chunk taken before it if and only if nothing is pending, that is, a turn without an item has come since the last chunk |
| LogOrder.OrderIff | speedysvc/logger/std_logging/LoggerClient.py:68-118 | A run delivers everything in the order in which it began if and only if ordinary items are accepted only when nothing is pending, and standard output is sent only when it began before what waits of standard error |
| LogOrder.OrdinaryOvertakes | speedysvc/logger/std_logging/LoggerClient.py:87-95 | An ordinary message is sent before text printed earlier |
| LogOrder.StderrComesLast | speedysvc/logger/std_logging/LoggerClient.py:68-86 | Standard error printed first is sent last |

## Left out

- That a call, or a thread that waits for the lock, does get on in the end, for which the scheduler must be fair; that it always can is proved. Shutdown of a server, which waits for a flag that only worker threads set.
- Destruction of locks, unlocking by others than the holder, and recovery of locks held by dead processes.
- A worker that opens its mailbox between unlinking and creating: it ends, and is modelled as not joining.
- Resizes that race with the registry's clean-up of the same client, and `SHMClient.__del__`.
- The protocol's participants are places in a transition system and not objects with methods, because what is proved is about their interleaving; the mailbox contents, sizes and names are kept in full.
- Spurious failures of `sem_wait` and of the clock in HybridLock, the Win32 lock, and the generated C file.
- ShmProtocol does not model two client threads that bypass the in-process lock.
- Forwarding to a parent log, reading the log from disk, and formatting of entries.
- SortFile.BatchSort: does not model removal of temporary files, or the return without output after an exception.
- The C implementations of `list.sort` and `heapq`: `sorted` is its specification, and a pop takes the least entry.
- Positions for `reescape`, the sanitiser, and the other escapes.
- IniFiles.ReadD: headings in list syntax, which are evaluated as Python, end in the error ListHeader here; so do names that need `repr` when writing. Values are strings, and `use_colons` is off.
- Registry: values in the buffer that are JSON, not falsy and no registry, killing of processes, and other threads of the same process changing SPIDThreads during a pass.
- The list operations of JSONMMapList, which decode, change and encode in the same way.
- Registry.SHMResourceManager.ResetAllServerPids: does not model that the processes are killed before they are removed.
- TimeSeries.TimeSeriesData.GetAverageOver: of the properties it averages only the process count and CPU are kept, which are those the controller looks at.
- ScalingController.MultiProcessManager.MonitorProcess: reads the clock and the series once, treats a removal as one step, and does not model exceptions while removing a dead pid.
- Draining the locks before a removal, and the service status kept by the log server.
- IntegerArrays: string and float arrays, and numpy's own conversion on big-endian hosts.
- LogMerging: method statistics are only a send that may fail, and messages still queued at shutdown are not followed.
- TCP servers and clients, compression, file archives, the web monitor and its templates.
