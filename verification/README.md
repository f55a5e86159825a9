# Verification of the ECHOES Alert probe

The probe is a two-stage pipeline. Addon threads append collected items to a first queue. The format
thread prints each item as text and appends it to a second queue, the SD-element queue. The sender thread
adds heartbeats to that queue, numbers its elements with a 16-bit identifier that cycles, and hands one
line per element to the network. A signal sets a flag that ends both threads. The installer fetches a
listing of packages, cuts it with a brace counter and reads the packages from the pieces.

The project has three parts.

**The pipeline.** `PipelineSpec` is the pipeline as four atomic operations (collect, transfer, heartbeat,
send), with the laws they keep. Two models refine it:

- `PipelineMachine` is the interleaved machine: one step per lock, unlock, unlocked peek, test, append,
  unlink and send, for both threads, with addon threads, the clock and overlapping signal handlers as
  further actors. An item whose text does not fit the unchecked buffer of the format thread leads to a
  state of its own, from which no step leads on, because the behaviour of the code is undefined there.
  `PipelineSafety` gives the invariant and the forward simulation. `PipelineTheorems`, `EndToEnd`,
  `Receipt`, `Shutdown`, `HeartbeatLaws`, `HeartbeatOrder` and `Silence` state what holds in every reachable state and over
  every run; `Progress` states what the threads can still reach.
- `Probes` is the same code on the heap: linked queues that only know their head (`LinkedQueue`),
  fixed-size character buffers (`CBuffers`), which report a write that would leave them, and the bodies of
  the thread loops as methods. `ProbeRuns` runs the rounds of both threads in any order, says exactly what
  state every such run reaches, and what it achieves. `SoloRuns` shows
  that an undisturbed turn of the machine is exactly the operation that the methods perform. `Signals` is
  the handler as one call.

**The text.** `Offset` prints the text of one item and defines what it means by a parser. `Message`
assembles, cuts and reads a line, and reads a stream of lines. `UriEscape` holds the contract of the
percent-encoder (sections 2.1 and 2.3 of RFC 3986). The header of a line is that of section 6.2 of
RFC 5424. The bracketed part resembles section 6.3, but its integers stand without quotes, so the parsers
follow the probe's own grammar.

**The installer.** `EncodeUrls` treats the 33 substitutions of `encode_url`. `Splitter` is the brace
counter, `Extraction` the `grep | sed | cut` commands and the loop around them, `Words` what `read` and
`echo` do to blanks. `MockListing` is the printer of the listing, and `ListingRoundTrip` joins both ends.

Results that a reader might not expect:

- `WritesInBoundsIff`, `FittingItemIsShort` and `OverrunIff`: the format thread prints into 10000 bytes
  without a check. No write leaves the buffers exactly when the text of the item fits; such an item has at
  most 1996 values, so the 16-bit counter never wraps. A list of items can lead to undefined behaviour
  exactly when one of them does not fit (`OverrunIff`), and otherwise all of it can be sent
  (`ProgressIff`). With such an item the wait for shutdown can still return: `ShutdownIff` gives the
  exact condition.
- `MessagesRead`, `ReceivedAreSurvivors` and `ReceivedIff`: every message travels alone. A message cut at
  479 characters cannot be read, and of the others the receiver learns exactly the items whose messages
  arrive, in the order of collection. `IdentifiersExposeLosses`: identifiers tell the number of missing
  messages exactly when it is below 65535.
- `FlagIsFinal` and `OverlapLosesFirst`: the recorded signal is final exactly when no other handler stands
  between its test and its write; with overlapping handlers the first signal can be overwritten.
- `FilenameComesBack`, `ContentComesBack` and `NamedLikeAKey`: the installer does not read back every
  well-formed package. A package is read back exactly when no other field is the word `filename` or
  `content`, because the search for the quoted key also finds a quoted value.

## Model

The first 29 rows are the main results; the others lead to them or complete them.

| member | source | states |
|---|---|---|
| PipelineSafety.RunRefines | src/sender.c:242-340 | every interleaving of both threads, addons, clock and handlers behaves like a run of the atomic pipeline |
| PipelineTheorems.Conservation | src/format.c:94-138 | in every reachable state the data elements sent or queued are, in order, the images of exactly the items removed from the first queue, plus the image of its head while the format thread stands between append and unlink |
| PipelineTheorems.Identifiers | src/sender.c:317-330 | in every interleaving the k-th attempt carries identifier (k mod 65535) + 1, and the counter is below 65535 whenever it is incremented |
| PipelineTheorems.DeadlockFreedom | src/format.c:91-142 | nothing can step exactly when both threads have exited and no addon holds the mutex, or a write left its buffer |
| Progress.OverrunIff | src/format.c:84-124 | for every list of items, some interleaving that collects them ends in undefined behaviour if and only if one of them does not fit the buffer |
| Progress.ProgressIff | src/format.c:151-158 | from every reachable state without a recorded signal, the threads alone, and the release of the mutex by an addon, can empty both queues and attempt exactly the images of all collected items in order, if and only if everything that waits fits its buffer |
| Shutdown.ShutdownBound | src/sender.c:314-339 | bound over every run after the flag is set: the threads take no more steps than the measure allows, plus seventeen per item still collected |
| Shutdown.ShutdownIff | src/signals.c:67-72 | from every state that meets the invariants and has the flag set, some run of the threads, and of the release of the mutex by an addon, makes the wait for shutdown return, if and only if no write left its buffer and the format thread is past its last look at the first queue or everything waiting fits |
| Shutdown.FlagIsFinal | src/signals.c:57-59 | the recorded signal can no longer change exactly when no handler for another signal passed its test without having written, or the run has ended in undefined behaviour |
| HeartbeatLaws.HeartbeatIff | src/sender.c:284-308 | in every interleaving a poll pushes a heartbeat exactly when it is the first, or it saw an empty queue and every earlier poll that saw elements or pushed is more than ten seconds old |
| Silence.BoundedSilenceOnWire | src/sender.c:284-333 | with polls at most d seconds apart, consecutive send attempts are in order and at most 10 + 2d seconds apart, in every interleaving |
| Receipt.ReceivedAreSurvivors | src/sender.c:148-239 | for every interleaving and every pattern of losses, what the receiver learns is exactly the contents of the items whose messages arrive uncut, at ascending positions among the collected items |
| Receipt.IdentifiersExposeLosses | src/sender.c:317-330 | the identifiers of two messages differ by their distance modulo 65535, so they tell the number of attempts between them exactly when it is below 65535 |
| Offset.ParsePrintedItem | src/format.c:98-128 | round trip for every item: parsing the printed text returns its numbers, ids and decoded values in order |
| Offset.WritesInBoundsIff | src/format.c:98-124 | every write of the print loop stays inside its two buffers if and only if the whole text fits |
| Message.ParsePrintedLine | src/format.c:40-54 | every field of an assembled line is read back |
| Message.StreamFraming | src/sender.c:129-139 | a reader of any concatenation of emitted lines gets back the full lines exactly when none was cut |
| ProbeRuns.RunOn | src/sender.c:314-333 | every sequence of addon pushes, format rounds and sender rounds on the heap, up to an item that does not fit, performs all of them: queues, attempts and remembered time are those of the same events on the atomic pipeline |
| ProbeRuns.RunSendsEverything | src/format.c:151-158 | any such sequence that ends with a format round and a sender round stays inside the buffers if and only if all its items fit, and then exactly their images have been sent, in order, with both queues empty |
| LinkedQueue.Perform | src/format.c:61-74 | every mixed sequence of calls on the heap list takes out and leaves what the sequence operations do |
| LinkedQueue.ReplayIsFifo | src/sender.c:257-276 | first in, first out: what any sequence of calls takes out, followed by what it leaves, is what was there followed by what was pushed |
| EncodeUrls.SequentialIsSimultaneousIff | install/functions_generic.part.sh:62-64 | for distinct patterns with longer replacements, substitution one after another is the simultaneous one on every text exactly when no rule rewrites an earlier replacement |
| EncodeUrls.DecodeInvertsEncodeUrl | install/functions_generic.part.sh:62-64 | percent-decoding inverts `encode_url` on every text |
| Splitter.Partition | install/execution.part.sh:25-61 | for every input the chunks in order and the pending lines are the input minus the bracket lines at depth 0; each chunk is balanced with no balanced proper prefix |
| Splitter.UniqueDecomposition | install/execution.part.sh:25-61 | that decomposition is the only one |
| ListingRoundTrip.FilenameComesBack | install/execution.part.sh:44-44 | the printed file name is read back exactly when name, version and content are not the word `filename` |
| ListingRoundTrip.ContentComesBack | install/execution.part.sh:47-55 | the printed content is read back exactly when name, version and file name are not the word `content`, and is found missing exactly when it is empty then |
| ListingRoundTrip.InstallsWhatWasPrinted | install/execution.part.sh:28-62 | installer round trip: from every such listing without the words `filename` and `content` in the wrong fields the installer takes file name, type and content of the packages in order, up to the first without content or without a tool |
| ListingRoundTrip.CompletesIff | install/functions.part.sh:110-136 | the installation of such a listing completes if and only if every package has content and a file name that ends in `.deb`, on a host with dpkg and apt-get, or in `.rpm`, on one with yum; a file name that is only `deb` or `rpm` counts as well |
| PipelineSafety.StepRefines | src/format.c:82-165 | forward simulation: each step of the interleaved machine is one atomic operation on the abstract pipeline or none at all; the append counts as the transfer, although the item still stands in the first queue |
| PipelineSafety.StepKeepsInv | src/format.c:91-142 | every step of every actor keeps lock ownership, both stable peeks, the first queue's contents and the identifier counter in step with the program counters |
| PipelineSpec.OpKeepsFlow | src/format.c:94-138 | collect, transfer, heartbeat and send each keep order, origin and numbering of everything that entered the queues |
| PipelineSpec.OpRunKeepsFlow | src/sender.c:257-276 | the same over every run of operations |
| PipelineTheorems.ReachableInv | src/format.c:147-165 | the invariant and the flow law hold in every reachable state |
| PipelineTheorems.ConservationAtRest | src/sender.c:257-276 | outside that window they are exactly the images of the removed items: nothing lost, duplicated or reordered up to the one send attempt |
| PipelineTheorems.IdentifiersRecur | src/sender.c:327-330 | two attempts share an identifier exactly when their distance is a multiple of 65535 |
| PipelineTheorems.PeekIsStable | src/format.c:153-156 | whatever the other actors do, a queue only grows at its end until its own consumer moves |
| PipelineTheorems.LockedTestsSucceed | src/sender.c:254-259 | the test under the mutex never fails after the unlocked test succeeded, so no identifier is spent without a send |
| PipelineTheorems.MutualExclusion | src/format.c:59-77 | no two actors stand between lock and unlock of the same mutex |
| PipelineTheorems.LockOrder | src/format.c:91-136 | the collect mutex is never acquired by the holder of the SD-element mutex |
| PipelineTheorems.BlockedWaitsForRunner | src/sender.c:254-279 | a blocked thread waits for an actor that can step, unless a write left its buffer |
| PipelineTheorems.OverrunAtFirstTooLong | src/format.c:84-124 | in every reachable state all removed items fitted the buffer, and the print step overruns it exactly when the next collected item does not fit |
| Shutdown.FlagStays | src/signals.c:57-59 | the stop flag never returns to zero, however handlers overlap |
| Shutdown.FirstSignalWins | src/signals.c:45-65 | a handler that no other one overlaps records its signal for good |
| Shutdown.OverlapLosesFirst | src/signals.c:57-59 | for any two signals, a run in which their handlers overlap and the second one is left |
| Shutdown.StepMeasure | src/format.c:151-164 | with the flag set each thread step costs at least one unit of a measure over both queues and both program counters, and only a collected item adds any (seventeen units) |
| Shutdown.NoNewPoll | src/sender.c:314-316 | after the flag is set no poll begins, so at most the one under way can push a heartbeat |
| Shutdown.ReachableExit | src/format.c:151-164 | no thread exits before a signal was recorded |
| Shutdown.MaximalRunReturns | src/signals.c:67-72 | a reachable state in which nothing can step, and in which no write left its buffer, is one in which the wait for shutdown returns, with a signal |
| Shutdown.EveryFinishedRun | src/signals.c:67-72 | under that condition every such run returns when it can go no further, and otherwise none does |
| Shutdown.RunsToTheEnd | src/format.c:151-164 | such runs come to an end |
| Shutdown.FittingRunsReturn | src/signals.c:67-72 | when all collected items fit, every reachable state in which nothing can step is one in which the wait for shutdown returns, with a signal |
| Shutdown.NothingAfterReturn | src/signals.c:67-72 | once the wait for shutdown has returned, no run pushes to the second queue, polls or sends any more, and the wait stays returned |
| HeartbeatLaws.HeartbeatSpacing | src/sender.c:290-300 | any two heartbeats are more than ten seconds apart |
| HeartbeatLaws.QuietBeforeHeartbeat | src/sender.c:290-307 | every poll between the last update of the remembered time and a later heartbeat saw an empty queue |
| HeartbeatLaws.ActivePollSends | src/sender.c:314-333 | every such poll is followed by a send attempt before the next poll, the sleep or the exit |
| HeartbeatLaws.BoundedSilence | src/sender.c:284-332 | with polls at most d seconds apart, consecutive polls that saw elements or pushed a heartbeat are at most 10 + d seconds apart |
| HeartbeatOrder.HeartbeatsArePolls | src/sender.c:292-300 | in every interleaving the heartbeats sent or queued carry, in order, the times of exactly the polls that pushed one, the poll under way included |
| Receipt.MessagesRead | src/sender.c:122-139 | in every interleaving, a message on its own is read with stamp, configuration, identifier, age and body when it was not cut, and not at all when it was |
| Receipt.AgeIsRead | src/format.c:132-136 | in every interleaving, the age that is read from an uncut data message is the time from the collection of its item to the send |
| Receipt.ReceivedIff | src/sender.c:261-270 | the item of an attempt is among these if and only if its message arrives and was not cut |
| EndToEnd.AttemptIsLine | src/sender.c:129-139 | the full line of every attempt ends with its only line feed |
| EndToEnd.AttemptRoundTrip | src/sender.c:129-139 | reading the full line gives back time stamp, configuration, identifier, age and body |
| EndToEnd.TraceCarriesCollectedPrefix | src/sender.c:129-146 | the messages among what a debug build prints on its standard output: whatever the interleaving, a reader of them, when none was cut, reconstructs the contents of the first collected items in order, as many as data messages were attempted |
| EndToEnd.TraceIsFramed | src/sender.c:129-146 | these messages, one after another, can be told apart exactly when every one of them fits 479 characters |
| EndToEnd.SomeEnvIsReadable | src/format.c:40-54 | there are configurations and encoders for which the round trips hold |
| Offset.PrintedItemIsInjective | src/format.c:98-128 | two items print alike exactly when numbers and values agree |
| Offset.NoItemPrintsEmpty | src/sender.c:294-298 | no item prints as the empty text of a heartbeat |
| Offset.OffsetTextLength | src/format.c:84-124 | an item with n values of B raw bytes prints to at most 39 + 15n + 3B characters, and when this is below 10000 the buffer is large enough |
| Offset.OffsetTextAtLeast | src/format.c:98-124 | an item with n values of B raw bytes prints to at least 19 + 5n + B characters |
| Offset.FittingItemIsShort | src/format.c:84-105 | an item that fits has at most 1996 values, so the 16-bit counter never wraps |
| Offset.EmptyValuesFitIff | src/format.c:84-124 | that bound is attained: 1996 empty values fit and 1997 do not |
| Offset.FitsBufferIff | src/format.c:98-124 | the printed text is shorter than the buffer exactly when 17, the digits of the two numbers, and 4 plus the digits of the id plus the encoded text for every value add up to less than 10000 |
| Message.FullLineIsLine | src/sender.c:129-139 | without line feeds in hostname, name, token, stamp and body the full line ends with `]` and its only line feed |
| Message.FrameNamesProbe | src/format.c:48-54 | the frame that is read back names the probe: its number is a 32-bit number that agrees with the identifier modulo 2^32, and is the identifier below 2^31 |
| Message.HeadersFit | src/format.c:40-54 | hostname and name of at most 9983 characters, and a token of at most 9933, fit the two header arrays |
| Message.LineLength | src/sender.c:122-139 | a full line is at most 109 characters longer than its stamp, hostname, name, token and body, and 370 of those fit |
| Message.ItemLineFits | src/format.c:98-124 | the line of an item with n values of B raw bytes is not cut when 15n + 3B, stamp, hostname, name and token are at most 331 together |
| Message.CutLineIsUnreadable | src/sender.c:129-139 | a line that was cut is read by no reader of lines |
| UriEscape.DecodeInvertsEscape | src/format.c:107-111 | percent-decoding inverts every encoding that the library's contract allows |
| UriEscape.EscapeAlphabet | src/format.c:107-124 | an encoded value holds only unreserved characters, `%` and bytes above 127 |
| UriEscape.UnreservedAre | src/format.c:107-111 | the unreserved characters are the letters and digits and `-._~` |
| LinkedQueue.Queue.Append | src/format.c:61-74 | the tail walk ends, the list stays acyclic, and the contents grow by the new element at the end |
| LinkedQueue.Queue.RemoveFirst | src/sender.c:257-276 | unlinking the head drops the first element and nothing else; an empty queue stays empty |
| CBuffers.CBuffer.Concat | src/format.c:124-124 | appending copies all characters behind the text and terminates it; it stays inside exactly when text, characters and terminator fit the array |
| CBuffers.CBuffer.PrintBounded | src/sender.c:130-139 | bounded printing keeps the text, cut to one less than the buffer, and terminates it |
| Probes.PrintFields | src/format.c:105-128 | the loop with its 16-bit counter ends for every item; it stays inside the buffers exactly when the whole text fits, and then it has appended the text of every value in order |
| Probes.PrintOffset | src/format.c:84-128 | the local buffers receive exactly the offset text of the item when it fits, and overrun exactly when it does not |
| Probes.AssembleMessage | src/sender.c:122-139 | the line buffer receives the full line, cut at 479 characters |
| Probes.Probe.PushSDElementQueue | src/format.c:28-80 | the element with the probe's header, the given text and time goes to the end of the second queue; everything else is unchanged |
| Probes.Probe.PopCollectQueue | src/format.c:82-145 | on the heap the head of the first queue, if any, is formatted and moved as the transfer operation says, exactly when its text fits |
| Probes.Probe.Drain | src/format.c:153-156 | the drain loop ends with an empty first queue or in front of an item that does not fit, and every law that a transfer keeps still holds |
| Probes.Probe.FormatRound | src/format.c:151-158 | one round appends the images of the waiting items in order, all of them or those before the first one that does not fit |
| Probes.Probe.HeartBeat | src/sender.c:284-308 | result, queue and remembered time after a poll, for every earlier state |
| Probes.Probe.SendMessage | src/sender.c:105-139 | the attempt carries the current identifier and the head element, and its text is the full line cut to size |
| Probes.Probe.PopSDElementQueue | src/sender.c:242-282 | the head, if any, is attempted once with the given identifier and unlinked whatever the result |
| Probes.Probe.SenderTurn | src/sender.c:317-331 | one turn of the drain loop is the send operation with the next identifier, and the counter is again in step |
| Probes.Probe.SendQueued | src/sender.c:317-331 | the drain loop sends everything queued, in order, with consecutive identifiers |
| Probes.Probe.SenderRound | src/sender.c:314-333 | one round of the sender: the poll's decision, then everything queued is sent |
| ProbeRuns.Run | src/sender.c:314-333 | the same from a new probe |
| ProbeRuns.EventsKeepLaw | src/format.c:151-158 | a law that the four atomic operations keep holds after every such sequence |
| ProbeRuns.EventsKeepFlow | src/format.c:151-158 | order, origin and numbering hold after every such sequence |
| ProbeRuns.FormattedIff | src/format.c:151-158 | a sequence that ends with a format round stays inside the buffers if and only if everything waiting or pushed fits, and then all of it has left the first queue |
| ProbeRuns.SenderTurnBeats | src/sender.c:284-308 | a round of the sender empties the second queue, and adds one heartbeat with its own time exactly when none was remembered, or the queue was empty and the remembered time is more than ten seconds old |
| SoloRuns.RepeatIsRun | src/format.c:147-165 | steps of one actor in a row are a run of the interleaved machine |
| SoloRuns.FormatTurnIsTransfer | src/format.c:82-145 | an undisturbed turn of the machine's format thread for an item that fits is one transfer, and ends at the loop test with both mutexes free |
| SoloRuns.SenderTurnIsSend | src/sender.c:317-331 | an undisturbed turn of the machine's sender is one send with the next identifier, and ends at the loop test with the mutex free |
| SoloRuns.PollIsHeartbeat | src/sender.c:284-308 | an undisturbed poll of the machine decides, pushes and remembers as the heap method does |
| Signals.SignalState.SignalHandling | src/signals.c:45-65 | a broken pipe aborts; another signal is recorded and cancels every addon thread if it is the first, and otherwise changes nothing |
| Signals.Deliver | src/signals.c:45-65 | handlers that run one after another leave the first signal |
| EncodeUrls.EncodeUrlIsSimultaneous | install/functions_generic.part.sh:62-64 | the 33 substitutions replace each original character once |
| EncodeUrls.TableEncodesSpecials | install/functions_generic.part.sh:62-64 | the 33 rules encode exactly space and ASCII punctuation |
| EncodeUrls.EncodeUrlAlphabet | install/functions_generic.part.sh:62-64 | the output holds no space or punctuation except `%` followed by two upper-case hexadecimal digits |
| Splitter.AbsorbChunks | install/execution.part.sh:28-61 | reading chunks without balanced proper prefix one after another cuts off exactly these chunks |
| Splitter.LineCounts | install/execution.part.sh:30-40 | a line is skipped or counted by the numbers of its brackets and braces, wherever they stand |
| ListingText.LineMatches | install/execution.part.sh:44-47 | the search finds a quoted key in a line exactly when it is the key or the value of the line |
| ListingText.FieldOfPair | install/execution.part.sh:44-47 | the field commands return the value of a pair, with or without a comma behind it |
| ListingText.GrepLines | install/execution.part.sh:44-47 | search and field commands return the values of exactly the lines where the key is key or value |
| Extraction.ExtensionIs | install/execution.part.sh:45-45 | the package type is what stands behind the last dot of the file name, or the whole name when there is none |
| Extraction.ExtensionIff | install/execution.part.sh:45-45 | the type is `ext` exactly when the name is `ext` or ends with a dot and `ext` |
| Extraction.SecondField | install/execution.part.sh:44-44 | `cut` returns the second of two or more fields, and the whole line when there is one |
| Extraction.SubstitutedIs | install/execution.part.sh:44-47 | command substitution drops the trailing line feeds and nothing else |
| Words.NormaliseIs | install/execution.part.sh:35-35 | echoing an unquoted text keeps its words and their order, with one space between any two and no other blank |
| Extraction.Install | install/execution.part.sh:25-62 | for every listing and every set of package tools the loop installs the packages of the chunks in order up to the first one without content or without a tool for its type, and ends accordingly; the type is cut from the echoed name, in which several found names are joined by blanks |
| MockListing.Get | install/mock/functions.part.sh:17-44 | the loop over the addons and the single prints write exactly the listing of the common package, the probe and the addons |
| ListingRoundTrip.PackageIsChunk | install/mock/functions.part.sh:24-26 | a printed package, with or without identifier and comma, is one chunk that does not begin with a bracket |
| ListingRoundTrip.ListingSplits | install/execution.part.sh:28-61 | splitter round trip: every printed listing whose fields hold no blanks, quotes, colons, commas, braces or backslashes is cut into one chunk per package in order, with nothing left |
| ListingRoundTrip.NamedLikeAKey | install/execution.part.sh:44-44 | a package that is not read back |
| ListingRoundTrip.NameFoundToo | install/execution.part.sh:44-45 | a package that is named `filename` comes back with both words as its file name |
| ListingRoundTrip.NothingWithoutTools | install/functions.part.sh:110-136 | without dpkg or apt-get, and without yum, no package of such a listing is installed |
| ListingRoundTrip.PrintAndInstall | install/mock/functions.part.sh:17-44 | printing the mock listing and running the installer loop on it installs its packages; when it completes, these are the files of the common package, the probe and the addons, in this order |

## Left out

- The transport half of `sendMessage` (sockets, TLS, name resolution) and its error returns: a send attempt is appended to a history together with whether its message arrives, which is arbitrary; the result of the call, which may differ from that, is ignored by the caller (`src/sender.c:261-270`) and not kept. The claims of `PipelineTheorems` are about attempts; those of `Receipt` hold for every pattern of arrivals, and no claim says which messages arrive.
- No claim says that the queues are drained at shutdown; items may remain in both, as in the code. Progress.ProgressIff is about runs that exist, not about every schedule.
- No claim says that a heartbeat is ten seconds away from data messages, or that the queue is still empty when a heartbeat is appended; both are false because the poll reads the queue without its mutex and remembers polls, not sends.
- The code of addon threads: they are environment steps that append under the collect mutex. They are taken not to be cancelled while they hold it.
- Unlocked reads are taken to be atomic and up to date; the weaker guarantees of the C memory model are not modelled.
- The inside of `g_uri_escape_string`: its documented contract is a parameter, and every function that meets it is covered.
- What the code does after a write left the buffers of `src/format.c:84`: the behaviour is undefined, the machine stops there, and the methods report it. Offset.OffsetTextLength gives a condition on the item under which it does not happen.
- CBuffers.CBuffer.Concat: takes C strings; the search for the terminator is a stored length, and a terminator inside the appended text is not modelled.
- Receipt.ReceivedAreSurvivors: messages that arrive are read in the order of their attempts and unchanged; datagrams that overtake one another or arrive twice are not modelled.
- Probes.Probe.SenderRound: runs without interference by other threads, and the class has no mutex fields; the interleaved machine covers both. The same holds for ProbeRuns.RunOn, which interleaves whole rounds.
- The outer polling loops are methods for one round each, because they do not end without a signal; the machine runs them to the end.
- Message.MakeElement: writes the header texts whole; Message.HeadersFit gives a condition on the configuration under which the two 10000-byte arrays of `include/format.h:30`, which the code does not check either, are large enough.
- Time of day, time stamps and results of the network are inputs. Times are integers, and the machine's clock never decreases. The age of a message is printed as it is; ages beyond 32 bits, which the code converts, are not modelled.
- Calls that fail for lack of memory, the checks for null queues, and the freeing of values and elements.
- Handler installation, and the abort on a broken pipe inside the machine, whose handlers are those of the other signals; the abort is in Signals.SignalState.SignalHandling only.
- ListingRoundTrip.ListingSplits: asks that the printed fields hold no blanks, quotes, colons, commas, braces or backslashes; the counter also counts braces inside values, and the field commands cut at every colon and comma.
- Extraction.Install: takes lines ended by line feeds, without what `read` does to backslashes and what the shell does to glob characters in an unquoted variable; decoding the content is not modelled, installing a package is the choice of the tool, whose own failures the code ignores, and a content of several words inside the shell's test is taken as content.
- EncodeUrls.EncodeUrlIsSimultaneous: is about the text of one line without the line feed that `echo` adds and without what some shells' `echo` does to backslashes.
- How the mock server looks up the files of a package and encodes them in base64: file name and content are fields of the printed package.
- `src/conf.c`, `src/log.c`, `main.c` (start, restart, daemon), download helpers, certificates, packaging and init scripts: input and output without hard properties.
