# libcollector: a verified model

libcollector gathers performance data while a program runs and turns it into results afterwards. This project models
the parts of it whose correctness is hardest to see from the code, and proves what they promise:

- **The annotation channel** (`Bytes`, `Leb128`, `Ring`, `Framing`, `Messages`, `Gator`, `Channel`, `Order`,
  `Receiver`, `ThreadList`). A thread writes messages into its own 64 KiB ring while one sender thread drains all rings into
  sockets. The two are processes whose shared loads and stores, byte stores and sends interleave freely; sends may be
  short or fail, and capture may stop and restart at any time. The result is stated from the receiver's side: every
  connection carries whole committed messages from a message boundary on, none of them twice, and each of them decodes
  to the message the thread wrote. The records sit on a lock-free list from which none is lost.
- **The ferret trace** (`StatLine`, `FerretTrace`, `FerretPy`, `FerretCpp`, `FerretEquivalence`, `FerretBan`,
  `FerretLaws`, `FerretPost`, `FerretStatus`). A line of `/proc/<pid>/stat` is cut up in place, written as a row and
  read again; the rows are post-processed by `ferret.py` and by its port to C++, which are proved to agree; a status
  protocol tells a watching process how the run goes.
- **Search, collections, frames and counters** (`Horspool`, `Resample`, `Collections`, `Frames`, `PerfScopes`,
  `PerfSums`, `CpuFreq`). A collection runs its collectors and keeps all columns as long as the timing column; the
  Vulkan layer drives it frame by frame; perf counters are accumulated per scope and summed over threads.

What the source does by changing state is a class or a method with loops, proved against a specification function or
an invariant; the laws are lemmas about that function, or about every state that satisfies the invariant. System calls,
clocks and directory scans are parameters with any value they can have.

What the code does where one might expect something else, and the model keeps:

- The reservation of a counter message leaves out one NUL per activity (`collectors/streamline_annotate.cpp:923-928`
  against 951), so the message keeps within it exactly when the activities are no more than the bytes that its packed
  numbers left unused (`Messages.CounterFits`); five activities can overrun (`Messages.CounterOverrun`).
- A connection with descriptor number 0 counts as open but is not closed when capture stops (lines 543 and 422), so
  the channel delivers whole messages in every run if and only if 0 is not handed out (`Channel.DeliveryExact`).
- A send with a snapshot of exactly 0 asks for nothing in its second call and so fails, after which capture stops
  (lines 448-453); what that call did send are the next bytes of the ring (`Gator.Thread.Send`).

- A thread that changes to a banned name within a sample is left out of that sample, although its earlier row is not
  banned (`FerretBan.SampleExact` says exactly when a ban list is more than taking rows out).
- A counter list that is shorter than one merged before it cuts the summed array, and the values beyond it are lost
  (`PerfSums.SumsExactly`, `collectors/perf.hpp:225-233`).
- A collection with a threaded collector cannot be stopped twice, because the thread is joined again, and the layer does
  stop it on every frame after the last one (`Frames.SecondStopThrows`, `layer/vulkan_layer.cpp:449-456`).
- ferret.py takes a time of 0 for "not yet set", the port does not, so a trace that starts at 0 starts later for the
  script (`FerretEquivalence.StartsAgree`).

The names of the modules follow the components. `dafny verify dfyconfig.toml` checks all of them.

## Model

| member | source | states |
|---|---|---|
| Leb128.RoundTrip | collectors/streamline_annotate.cpp:306-354 | Whatever follows a packed number, the decoder of section 7.6 of the DWARF Version 4 standard returns the number and exactly the bytes after it |
| Leb128.PrefixFree | collectors/streamline_annotate.cpp:306-354 | No packed number is a prefix of another one's packing |
| Leb128.Size | collectors/streamline_annotate.cpp:306-354 | A number packs into at most n bytes if and only if it has 7n bits |
| Leb128.WordSizes | collectors/streamline_annotate.cpp:82-84 | 32-bit numbers take 1 to 5 bytes, 64-bit numbers 1 to 10 |
| Leb128.BoundsAreTight | collectors/streamline_annotate.cpp:82-84 | The smallest 32-bit and 64-bit numbers take exactly 5 and 10 bytes |
| Leb128.Shortest | collectors/streamline_annotate.cpp:306-354 | Of all byte strings that decode to a number, its packing is the one and only shortest |
| Ring.WriteByte | collectors/streamline_annotate.cpp:276-282 | One byte is stored and the position moves on round the ring |
| Ring.WriteFour | collectors/streamline_annotate.cpp:284-304 | Four bytes are stored, each wrapped on its own |
| Ring.WritePacked | collectors/streamline_annotate.cpp:306-354 | The packing loop stores exactly the packed number from any position, across the end of the buffer too |
| Ring.WriteBytes | collectors/streamline_annotate.cpp:361-375 | One or two copies lay the data round the ring, and nothing else changes |
| Ring.StoredAt | collectors/streamline_annotate.cpp:272-375 | What a store leaves at every index of the ring, by its distance from the start |
| Ring.SliceOfStored | collectors/streamline_annotate.cpp:361-375 | Reading back from where data was stored returns the data, across any wrap |
| Ring.BackPatch | collectors/streamline_annotate.cpp:734-753 | A gap left in a message and filled in last gives the same ring as writing in order |
| Ring.WordRoundTrip | collectors/streamline_annotate.cpp:284-293 | The four little-endian bytes give back the word |
| Ring.ColorRoundTrip | collectors/streamline_annotate.cpp:295-304 | The rotated bytes give back the colour |
| Ring.ByteOrder | collectors/streamline_annotate.cpp:284-304 | Each of the four bytes of a word, lowest first, and of a colour, whose lowest byte comes last |
| Framing.StoredFrame | collectors/streamline_annotate.cpp:734-753 | Marker, body and back-patched length lie in the ring as one frame |
| Framing.Layout | collectors/streamline_annotate.cpp:734-753 | Which byte of a frame is the marker, which four are the length of the body, and where the body lies |
| Framing.FrameRoundTrip | collectors/streamline_annotate.cpp:734-753 | A frame followed by anything is taken off the stream as that frame and that rest |
| Framing.CutStream | collectors/streamline_annotate.cpp:734-753 | However a stream of frames is cut, the receiver gets exactly the frames that arrived whole, in order, and a proper prefix of the next |
| Framing.StreamRoundTrip | collectors/streamline_annotate.cpp:734-753 | The stream of a run of frames decodes to that run |
| Messages.MessageRoundTrip | collectors/streamline_annotate.cpp:755-1248 | For all fifteen kinds of message kept in the ring, marker and body decode to the same message with the same fields |
| Messages.BodyRoundTrip | collectors/streamline_annotate.cpp:755-1248 | Any fields of the kinds that a marker asks for are read back one after the other |
| Messages.Markers | collectors/streamline_annotate.cpp:65-80 | The number of the marker of each kind of message |
| Messages.TextFormat | collectors/streamline_annotate.cpp:755-913 | The body of every annotation of a channel, a group or a marker, as the packed numbers, colour and text in the order sent |
| Messages.CounterFormat | collectors/streamline_annotate.cpp:915-963 | The body of a counter: its numbers in order, the cores and the colour, each activity with its NUL and colour, and the texts |
| Messages.ViewFormat | collectors/streamline_annotate.cpp:1040-1248 | The bodies of counter values, activity switches, tracks, view names, job starts and job stops |
| Messages.JobFormat | collectors/streamline_annotate.cpp:1128-1159 | The body of a job: the number of dependencies comes before them, the name is last |
| Messages.SetDepsFormat | collectors/streamline_annotate.cpp:1186-1212 | The body of a message that sets dependencies |
| Messages.ReserveExact | collectors/streamline_annotate.cpp:755-1248 | The reservation of every message is 5 bytes plus 5 per 32-bit number, 10 per 64-bit number, 4 per colour and the length of the texts, less one per activity; it exceeds what is written by exactly the bytes that packing saves, less one per activity |
| Messages.Fits | collectors/streamline_annotate.cpp:755-1248 | A message without activities takes no more than its writer reserved |
| Messages.CounterFits | collectors/streamline_annotate.cpp:915-963 | By how much a counter message exceeds its reservation, and that it fits if and only if its activities' NULs fit in the bytes its numbers left unused |
| Messages.CounterOverrun | collectors/streamline_annotate.cpp:923-951 | A counter message with five activities that is one byte longer than its reservation |
| Messages.EmitBound | collectors/streamline_annotate.cpp:915-963 | No message, an overrunning one included, exceeds its reservation by more than a quarter |
| Gator.UsedPlusFree | collectors/streamline_annotate.cpp:707-715 | Used and free bytes always add up to 65535, and used is 0 exactly for equal positions |
| Gator.Thread.MsgBegin | collectors/streamline_annotate.cpp:734-742 | The marker is stored, the length is stepped over, and nothing is published |
| Gator.Thread.MsgEnd | collectors/streamline_annotate.cpp:744-753 | The length goes where room was left for it, and the position is published |
| Gator.Thread.WriteFrame | collectors/streamline_annotate.cpp:734-753 | From begin to end the ring gains one whole frame at the published position, which moves past it |
| Gator.UnsentGrows | collectors/streamline_annotate.cpp:707-753 | A store of at most the free bytes leaves all unsent bytes as they were and adds its own after them |
| Gator.Thread.Annotate | collectors/streamline_annotate.cpp:717-839 | A message is written if and only if 5 bytes plus 5 per 32-bit number, 10 per 64-bit number, 4 per colour and its texts, less one per activity, come to at most 32768; if not, nothing changes; if so it lies in the ring as its whole frame, and if it keeps within its reservation the unsent bytes are those of before followed by the frame |
| Gator.Thread.Send | collectors/streamline_annotate.cpp:430-469 | The bytes handed to the socket are the next ones of the ring, exactly as many as the two sends took, read_pos moves past exactly those, and when the call fails, for every result of its two sends |
| Channel.RingStep | collectors/streamline_annotate.cpp:408-469 | Every step of writer or sender keeps all unsent bytes in their places and the sender's snapshot within what was committed |
| Channel.WireStep | collectors/streamline_annotate.cpp:408-469 | Every step keeps what each connection carried a stretch of the committed bytes that starts at a message |
| Channel.Delivery | collectors/streamline_annotate.cpp:408-469 | In every run with descriptors other than 0, every connection's bytes are a prefix of whole committed messages from a message boundary on, and the receiver takes out exactly the whole ones |
| Channel.ZeroBreaksDelivery | collectors/streamline_annotate.cpp:414-428 | From every initial state there is a run that hands out descriptor 0 only and whose connection carries bytes that are no such prefix |
| Channel.DeliveryExact | collectors/streamline_annotate.cpp:408-469 | From every initial state and for every set of descriptors that may be handed out, the channel delivers in every run if and only if 0 is not among them |
| Channel.NoOverwrite | collectors/streamline_annotate.cpp:726-753 | In every run, a byte about to be stored goes where no unsent byte is, and every unsent byte is still in place |
| Channel.NoCollision | collectors/streamline_annotate.cpp:744-753 | Publishing a message never makes write_pos equal read_pos, and the used bytes grow by the message's length |
| Channel.SenderOnlyFrees | collectors/streamline_annotate.cpp:539-554 | No step of the sender makes the free room smaller |
| Channel.WriteWhole | collectors/streamline_annotate.cpp:734-753 | A writer with room can take its steps to a committed message, capture on or off, and the buffer is then the one that the writing methods leave |
| Channel.LateWriter | collectors/streamline_annotate.cpp:647-732 | A writer that entered while capture was on may begin its message after capture has stopped |
| Channel.FramesBegun | collectors/streamline_annotate.cpp:726-753 | In every run, the messages committed and the one pending are the messages begun, each once and in order |
| Channel.SendWhole | collectors/streamline_annotate.cpp:430-469 | A gator_send whose sends succeed is a run of the sender's steps, with the bytes and the read_pos of the sending method |
| Channel.OffWhileStopping | collectors/streamline_annotate.cpp:414-428 | In every run, capture is off while the sender is stopping it |
| Channel.FailedSend | collectors/streamline_annotate.cpp:414-551 | From every reachable state in which a send fails, the sender alone gets to a state in which capture is off, read_pos equals write_pos, everything committed counts as skipped, and a positive descriptor is closed with its connection ended as it was |
| Order.ConnectionsInOrder | collectors/streamline_annotate.cpp:408-469 | In every run with descriptors other than 0, the bytes a connection carries come after all bytes that earlier connections carried |
| Order.NotTwice | collectors/streamline_annotate.cpp:408-469 | No message is delivered whole by two connections: those of a later one were committed after those of an earlier one |
| Receiver.WritersMayBegin | collectors/streamline_annotate.cpp:717-732 | Once a writer has waited for its reservation it may write its message, whether capture is still on or not; a counter if and only if it fits |
| Receiver.Received | collectors/streamline_annotate.cpp:408-1248 | In every run of writers of valid messages, the i-th message a connection delivers decodes, field by field, to the i-th annotation made after those committed at the last skip |
| ThreadList.KeptByStep | collectors/streamline_annotate.cpp:539-568 | Every step of registering threads, exits and the sender's walk keeps the list whole, also when a compare-and-swap fails or an address is used again |
| ThreadList.NothingLost | collectors/streamline_annotate.cpp:539-568 | In every run, the list from its head holds, once each, exactly the registrations not unlinked; each is unlinked at most once and only after its thread exited |
| ThreadList.NoDanglingReference | collectors/streamline_annotate.cpp:539-568 | The sender never holds a reference to a freed record |
| ThreadList.LookAtExited | collectors/streamline_annotate.cpp:556-567 | A walk that meets a record marked as exited goes on to unlink it |
| ThreadList.UnlinkSucceeds | collectors/streamline_annotate.cpp:556-567 | In every run, the unlinking succeeds if and only if the record was not the first of the list or still is; then exactly its registration is unlinked and the record freed, otherwise the list stays as it is |
| ThreadList.PushStep | collectors/streamline_annotate.cpp:681-683 | A push that succeeds puts its record in front of the list as it is at that moment |
| StatLine.CutInPlace | collectors/ferret.cpp:460-533 | The in-place loop leaves the buffer, and records the places, that the scan of the line gives |
| StatLine.SplitString | collectors/collector_utility.cpp:17-25 | The tokens are the words between spaces; a space at the end starts no further word |
| StatLine.SplitSpaced | collectors/collector_utility.cpp:17-25 | Splitting words joined by spaces returns the words |
| StatLine.SplitMeans | collectors/collector_utility.cpp:17-25 | For every string, no token holds a space, and the tokens joined by spaces are the string, but for a space at its very end |
| StatLine.ScanLine | collectors/ferret.cpp:460-533 | On a line of at least 40 fields the places recorded are the beginnings of the ten specified fields, and every field is ended by a NUL with the name's spaces replaced |
| StatLine.RecordedPlaces | collectors/ferret.cpp:460-533 | Ten places are recorded, and at the i-th of them the line has the i-th of the fields 0, 1, 3, 13, 14, 15, 16, 19, 21 and 38 |
| StatLine.FieldsRecovered | collectors/ferret.cpp:460-580 | Cutting, writing, splitting and status parsing give back, for every such line, fields 0, 1, 3, 13, 14, 15, 16, 19, 21 and 38 in this order, with only the spaces of the name turned to underscores |
| FerretEquivalence.SameAdd | collectors/ferret.cpp:974-1004 | Adding a sample to a thread keeps the port's process equal to the script's, its running total equal to the sum over processors |
| FerretEquivalence.PortAgrees | collectors/ferret.cpp:1256-1353 | Whenever ferret.py accepts a trace, the port accepts it with a closing time row and has the same threads, jiffies and megacycles per processor, times and running totals; where each of the two has the trace start, and that it ends at the last time stamp before the closing one |
| FerretEquivalence.StartsAgree | ferret.py:232-233 | The two agree on the start of the trace if and only if the first time stamp is not 0 or all are |
| FerretEquivalence.StartsDiffer | ferret.py:232-233 | A trace that the script accepts and for which the two have different starts |
| FerretEquivalence.KeepsTheSame | ferret.py:253-260 | The two then agree on every thread's duration and, with the same start, on whether it is kept or skipped |
| FerretBan.ThreadsExact | collectors/ferret.cpp:1309-1326 | The threads counted in a sample with a ban list are those of the sample without the banned rows if and only if no thread's last row is banned and follows an unbanned row of it |
| FerretBan.SampleExact | collectors/ferret.cpp:1277-1346 | A time stamp counts a sample with the ban list as it does without the banned rows, whatever was counted before and failing assertions included, if and only if nothing is hidden in that way and banned rows are not all that came before the first stamp |
| FerretBan.BanIsRemoval | collectors/ferret.cpp:1277-1346 | If every sample that a time stamp ends meets that condition, a ban list has the effect of taking the banned threads' rows out of the trace, errors included |
| FerretBan.OnePerThreadIsOk | collectors/ferret.cpp:1309-1346 | At most one row per thread, and no banned one before the first time stamp, is enough for a sample to meet it |
| FerretBan.MixedNamesDiffer | collectors/ferret.cpp:1309-1346 | A trace, for any two names, on which banning and removing differ because a thread changes its name within a sample |
| FerretBan.LeadInDiffers | collectors/ferret.cpp:1277-1307 | A trace with a banned row before the first time stamp: it starts the trace at time 0, and without the row the trace has not started |
| FerretBan.FilledFrequencies | collectors/ferret.cpp:1200-1226 | The frequencies of a sample are those of its last row of frequencies |
| FerretTrace.LastFrequency | collectors/ferret.cpp:1207-1225 | Within a row of frequencies the last one given for a processor counts |
| FerretLaws.JiffiesAddUp | collectors/ferret.cpp:974-1016 | Over any samples on listed processors, the jiffies per processor add up to the running total, which is the last counter minus the first |
| FerretLaws.PerProcessor | collectors/ferret.cpp:974-1004 | On each listed processor a thread has the counter differences of its observations there, and for megacycles each difference times the period of a tick times its frequency |
| FerretLaws.CyclesInTicks | collectors/ferret.cpp:952-1004 | Those megacycles times the ticks per second are the sum of the differences times their frequencies |
| FerretLaws.WeighMeans | collectors/ferret.cpp:952-1004 | In the units of the rows: megacycles times 1000 times the ticks per second are the ticks times the frequency in kHz |
| FerretLaws.NeverOn | collectors/ferret.cpp:974-1004 | A processor on which the thread was never observed has no jiffies and no megacycles |
| FerretLaws.OnlyOn | collectors/ferret.cpp:974-1004 | A thread observed on one processor only has all its jiffies there, last counter minus first, and at one frequency the cycles of all of them |
| FerretLaws.MegacyclesWithinTop | collectors/ferret.cpp:974-1004 | With counters that do not fall and frequencies in [0, top], total megacycles lie between 0 and top times the jiffies times the period of a tick |
| FerretLaws.HistoriesAreTotals | collectors/ferret.cpp:1270-1353 | For every accepted trace and ban list, exactly the threads that some sample counts have a history, and it is that of the thread's own observations in the trace |
| FerretLaws.TraceJiffies | collectors/ferret.cpp:1270-1353 | For every accepted trace, a thread's jiffies per processor add up to its last counter minus its first, and its first and last times are those of its observations |
| FerretLaws.TraceProcessors | collectors/ferret.cpp:1270-1353 | For every accepted trace, ban list, thread and processor: the jiffies there are the counter differences of its own observations there, and the megacycles times the ticks per second are the sum of the differences times their frequencies |
| FerretLaws.TraceMegacycles | collectors/ferret.cpp:1270-1353 | For every accepted trace, a thread with counters that do not fall and frequencies in [0, top] has megacycles which, times the ticks per second, lie between 0 and top times its jiffies |
| FerretLaws.TraceHeader | collectors/ferret.cpp:1074-1120 | For every accepted trace, the ticks per second and the processors of the totals are those of the header rows |
| FerretLaws.SeenMeans | collectors/ferret.cpp:1309-1346 | What a sample says of a thread that is not banned, in the units of the rows: its name, counter, processor, time stamp and the frequency of that processor, or 0 if none is given |
| FerretLaws.KeptIf | collectors/ferret.cpp:1381 | A thread is kept if and only if it has jiffies and was there for more than a hundredth of the trace |
| FerretLaws.Summarize | collectors/ferret.cpp:1363-1412 | A thread is in the results, once, if and only if it is kept; the index is that of the first maximum of their megacycles, each of them the sum over all listed processors, and the sum is over all results |
| FerretLaws.FirstMaximumMeans | collectors/ferret.cpp:1381-1395 | Whenever some thread has positive megacycles, the index points at the first of the largest |
| FerretPost.FerretProcess.Add | collectors/ferret.cpp:974-1004 | Each field of the object after a sample, in terms of those before: the counter difference, 0 at the first sample with a time, goes to the total and the processor, and times period and frequency to its megacycles |
| FerretPost.Postprocess | collectors/ferret.cpp:1256-1354 | The row loop over process objects computes what the laws above are about, for every trace and ban list, failing assertions included |
| FerretStatus.Ferret.Collect | collectors/ferret.cpp:623-740 | The pids of all positive polls are watched after those of before, and no others; a name is still sought if and only if its poll was not positive; while a watched pid that was not gone is readable no 0 is in the log; a gone pid stays gone; each collect keeps the log in the form of the protocol, with one more round of 1, 0 exactly if it finds all pids gone; when a timeout is recorded; what is known of every pid afterwards |
| FerretStatus.PolledMeans | collectors/ferret.cpp:646-672 | What a poll leaves: which names are still sought, which pids are watched, and how many of each |
| FerretStatus.FoundInOrder | collectors/ferret.cpp:646-672 | The pid of a positive poll stands after those of the positive polls before it |
| FerretStatus.StillActive | collectors/ferret.cpp:716-737 | With a watched pid that was not gone and can be read, no 0 is in the log after a collect |
| FerretStatus.Ferret.ReadFiles | collectors/ferret.cpp:546-597 | Exactly the pids whose file cannot be read are newly marked as gone |
| FerretStatus.Ferret.Enumerate | collectors/ferret.cpp:790-821 | Files are opened only for pids not yet known, so a gone pid is not opened again |
| FerretStatus.OpenedMeans | collectors/ferret.cpp:790-821 | Afterwards the pids known are those of before, with their entries, and those with a file that opened |
| FerretStatus.FirstOpened | collectors/ferret.cpp:790-821 | A pid that was not known gets the first descriptor opened for it |
| FerretStatus.Ferret.CountActive | collectors/ferret.cpp:716-731 | The count is 0 if and only if every watched pid is known and gone |
| FerretStatus.Monitor | burrow.cpp:100-132 | The watch succeeds exactly when the first status that ends it is 0, fails exactly when it is -1, and otherwise waits |
| FerretStatus.Protocol | collectors/ferret.cpp:608-740 | Between collects the log is an optional -1, then nothing, 1, or repetitions of 1, 0; a 0 is in it if and only if tracing has begun and every watched pid is gone, a -1 if and only if a timeout was recorded; the watcher succeeds if and only if the first holds without the second |
| FerretStatus.LogEntries | collectors/ferret.cpp:608-620 | Such a log entry by entry: after an optional -1, 1 and 0 in turn, and 0 last if there is more than one |
| Horspool.ShiftTable | collectors/collector_utility.cpp:115-123 | Every shift of the table passes no possible match, and is the largest that does so |
| Horspool.NothingSkipped | collectors/collector_utility.cpp:126-135 | No occurrence starts strictly between a window and the window a safe shift further |
| Horspool.Search | collectors/collector_utility.cpp:103-139 | For every keyword of length at least 1 and all data, true if and only if the keyword occurs |
| Resample.Remixed | interface.cpp:77-88 | For non-negative timings, remixing a non-empty list succeeds if and only if the last frame took time, with one value per frame, the sample whose share of the whole covers the elapsed time |
| Resample.InOrder | interface.cpp:80-87 | The first index is 0, all are in range and they do not decrease |
| Resample.Resampled | interface.cpp:77-88 | The loop yields the remix of the list, or nothing when a lookup is out of range |
| Resample.Collector.Postprocess | interface.cpp:62-92 | All lists are remixed or none: an empty list refuses and changes nothing, and so does a lookup out of range |
| Resample.Collector.Restart | interface.cpp:388-404 | Every list is emptied, a thread is started for a threaded collector that starts, and to start one that still runs fails |
| Resample.Collector.Finish | interface.cpp:432-443 | A thread is joined, which throws if there is none, and the lists are post-processed or left alone; when it may throw and when it must |
| Resample.UnmixableExact | interface.cpp:77-88 | For non-negative timings a lookup is out of range if and only if some list has values and the last frame took no time |
| Collections.Collection.Collect | interface.cpp:449-466 | Every custom column and every list of an unthreaded collector grows by its own value, threaded collectors are left alone, the timings add up to the time covered, and the lists stay as long as the timing column if each collector gives a value per list |
| Collections.Collection.Start | interface.cpp:378-418 | All columns and all lists of all collectors are empty and the clock starts over; threads run for the threaded collectors that started |
| Collections.Collection.Stop | interface.cpp:420-447 | It throws only if some threaded collector may, and whenever one must; otherwise which collectors are kept, what their lists hold, that no thread is left running, and that every list of every collector kept has one value per entry of the timing column |
| Collections.StopAgain | interface.cpp:420-447 | When no thread runs, a stop succeeds if and only if no collector is threaded |
| Collections.StopTwice | interface.cpp:420-447 | Of two stops in a row the second succeeds if and only if no collector that the first one kept is threaded |
| Frames.GateClosed | layer/vulkan_layer.cpp:436-462 | After any number of triggers without wrap-around the counters are quotient and remainder, and the calls made are one start, then all collects, then all stops, with their exact numbers |
| Frames.CallsMean | layer/vulkan_layer.cpp:443-460 | The calls one by one: the first frame after the start frame starts, each later one stops if its number is beyond the end frame and collects otherwise |
| Frames.Layer.ProcessFrame | layer/vulkan_layer.cpp:436-462 | A trigger updates the counters as the gate says, keeps the timing column as long as the number of collects, and does to the collectors what the call says; exactly when it survives: collects always, a start unless a thread runs that it would start, a stop after the first if and only if no collector is threaded |
| Frames.TimingLength | layer/vulkan_layer.cpp:436-462 | The timing column has max(0, min(T div N, end) - start - 1) entries, the number of frames reported |
| Frames.Run | layer/vulkan_layer.cpp:436-462 | Any number of triggers of a layer without threaded collectors survives, and leaves a timing column of that length |
| Frames.SecondStopThrows | layer/vulkan_layer.cpp:449-456 | A layer with a threaded collector and a run of three triggers of which the third, a second stop, throws |
| PerfScopes.EventContext.ScopeStart | collectors/perf.cpp:718-748 | A start opens its scope and leaves all vectors alone |
| PerfScopes.EventContext.ScopeStop | collectors/perf.hpp:108-130 | A stop exits exactly on a mismatch; otherwise every counter's value for every id stays the sum modulo 2^64 of stop minus start over completed scopes, both call vectors stay equal and count the scopes that moved, and no vector gets shorter |
| PerfScopes.AddChange | collectors/perf.hpp:112-120 | Each counter's vector gains the difference at the scope's index and nothing elsewhere, with growth to any id below 65534 |
| PerfScopes.NeverUsed | collectors/perf.hpp:108-130 | In every reachable state an id never completed has 0 in every vector |
| PerfScopes.OneMovedCounts | collectors/perf.hpp:112-129 | A scope in which one counter alone moved is counted |
| PerfScopes.FlagValues | collectors/perf.hpp:42-51 | The flags 1 and 2 reach the replay threads, whatever other flags are set, and none of the others does |
| PerfScopes.PerfCollector.CollectScopeStart | collectors/perf.cpp:449-471 | A start reaches exactly the threads that the flags and the thread id select |
| PerfScopes.PerfCollector.CollectScopeStop | collectors/perf.cpp:473-493 | A stop with other flags than the last start is ignored; it exits if and only if a selected thread has another scope open |
| PerfSums.AddLists | collectors/perf.hpp:222-234 | The entrywise sum modulo 2^64, and its total |
| PerfSums.Aggregate.Postprocess | collectors/perf.hpp:215-236 | Every array is merged with the thread's list of that name, and every SUM entry stays the total of its array |
| PerfSums.Combine | collectors/perf.cpp:495-572 | The replay, background and all-thread arrays are those of their groups of threads |
| PerfSums.GroupEntry | collectors/perf.cpp:495-572 | For lists of any lengths, an entry of a group's array is the sum modulo 2^64 over the threads after the last one whose list ends before that entry |
| PerfSums.GroupHas | collectors/perf.cpp:495-572 | A group has an array for a counter if and only if one of its threads has the counter |
| PerfSums.EntryIsTotal | collectors/perf.hpp:215-236 | An entry is the sum modulo 2^64 over all threads if and only if what the threads up to that last one had there adds up to a multiple of 2^64 |
| PerfSums.TotalChanges | collectors/perf.hpp:222-234 | The sum over the threads, which entries are compared with, takes in what each thread has in full |
| PerfSums.SumsExactly | collectors/perf.hpp:215-236 | Every array is the sum over its threads, whatever the values, if and only if the lengths of the counter's lists do not fall in merge order |
| PerfSums.FallingLoses | collectors/perf.hpp:225-233 | For any lengths that fall somewhere, lists of those lengths that add up to 1 in an entry that comes out as 0 |
| PerfSums.AllThreads | collectors/perf.cpp:546-568 | For lists of any lengths, an entry for all threads is the sum modulo 2^64 of the replay and background entries, or the background entry alone where a background list ends earlier; it is the sum if and only if none does or the replay entry is 0 |
| CpuFreq.WeightedBounds | collectors/cpufreq.cpp:78-89 | The weighted sum lies between the lowest and the highest frequency times the time passed |
| CpuFreq.MoreTime | collectors/cpufreq.cpp:78-89 | More time in a state adds as much to the time passed, and that much times the frequency of this state to the weighted sum, and nothing else |
| CpuFreq.OneState | collectors/cpufreq.cpp:78-117 | If time passed in one state only, the value of the core is the frequency of that state |
| CpuFreq.Average | collectors/cpufreq.cpp:72-117 | A core's value is the mean rounded down; when no time passed it is the value before, or else the current frequency, or else the last of the table; without a table it is the last frequency scanned; always within the range of the core's frequencies, and the division is never by zero |
| CpuFreq.Collector.Collect | collectors/cpufreq.cpp:70-123 | Every collect adds one value per core, all values of all collects stay within the core's range, and the highest is one of them and no smaller than any |

## Left out

- Image messages and the out-of-band path (`gator_annotate_visual`): image data can go out before its header when the snapshot predates the commit, so delivery in order does not hold for them.
- Flushing, forking, semaphores and the liveness of waits: only safety over steps is stated.
- The memory model: shared variables are read and written atomically and in program order.
- Channel.Delivery: is about one thread's record; that the sender closes the socket of a record it unlinks is not part of the steps.
- Channel.Delivery: needs descriptors other than 0 (see `Channel.DeliveryExact`).
- Gator.Thread.Annotate: starts once the wait for room is over; that the sender moves read_pos meanwhile is covered by `Channel`.
- Messages.MessageRoundTrip: texts hold no NUL, as C strings do, and sizes kept in 32-bit variables do not wrap there.
- The state that is sent again after a restart (counters, tracks and view names): the same messages, in loops of their own.
- StatLine.FieldsRecovered: fields are compared as text; their conversion to numbers is not modelled. The look-up one past the table of fields counts as no match.
- FerretEquivalence.PortAgrees: rows are values, not text; the option to cut a trace to a time window, several traces in one call, and the order in which a dictionary lists threads are not modelled. The script's generator is a fold over rows.
- FerretEquivalence.PortAgrees: a clock tick of 0, which the script rejects, is not modelled for the port either.
- The list of processors is kept in trace order; the port sorts it, which affects none of the sums.
- Floating point: times, megacycles and shares are real numbers; the geometric means of frequencies, which need logarithms, are not modelled.
- FerretStatus.Ferret.Collect: one run, as `start` begins it, with a status descriptor; pids are numbers, and the directory of processes can be opened.
- Resample.Remixed: a total time of 0 counts as a look-up out of range, where the source converts not-a-number to an index.
- Frames.GateClosed: holds until the 32-bit frame counter wraps.
- Collections.Collection.Stop: a collector with both an empty list and a lookup out of range may refuse or throw, depending on the order of its keys, which is not modelled.
- Collections.Collection.Collect: what a collector reads is a parameter; summaries, and a start after them, are not modelled.
- PerfScopes.EventContext.ScopeStop: ids are below 65534, beyond which the vector is not long enough; call counts are unbounded.
- PerfSums.Combine: the replay group is all lists merged into it, those of the CSPMU and Booker threads too; the entries of single threads and the clock columns are not modelled.
- PerfSums.GroupEntry: counter names are other than "SUM" and "CCthread".
- CpuFreq.Average: needs frequencies within a positive range, a table that keeps its rows and times that do not go back; 64-bit overflow is not modelled.
- The power, hwcpipe, Mali, memory, temperature, rusage, sysfs and procfs collectors, Vulkan dispatch, JSON and CSV output, and the summaries of value lists: thin wrappers, or they would only add easy members.
