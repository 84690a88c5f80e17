# Verified models of ncollectd plugins

This project models the parts of ncollectd's plugins that keep state across events, threads or polls, and proves
what every run of them keeps. There is one Dafny module per mechanism:

- `CurlJson`, `CurlJsonConfig`, `CurlJsonSubmit`: the JSON path matcher of the curl_json plugin. The yajl callbacks
  work on a stack of contexts; the matcher is proved equal to a recursive evaluation of the document, the configuration
  tree to the list of configured paths, and the type instance of a submission to the joined names of its path.
- `ExecLines`, `ExecRunning`: the exec plugin. The read loop with its carry-over buffer is proved to deliver the lines
  of the stream for every way of cutting it into reads; the `PL_RUNNING` flag is proved to allow one reader.
- `CephConn`, `CephCache`, `CephNames`: the ceph plugin. The connection state machine over a non-blocking socket,
  the index-guessed array of last poll values as a map, and the name compaction in a fixed buffer.
- `Aggregation`: the running statistics of the aggregation plugin, with bounds on the reported deviation.
- `Amqp1`, `EmailPool`, `EmailCounters`, `Connectivity`: threads sharing a queue, a pool of collectors, counters, and
  link states. Each critical section is one step; the theorems are about every interleaving of steps.
- `IntelPmu`, `Gmond`, `IntelRdt`, `Network`: group leaders of performance events, staging of multi-source metrics
  with a bit mask, disjointness of process name groups by counting, and the packet decoder of the Python client.
- `Common`: optional values, C strings and tokens.

Code that changes state in place is a class (or a method with loops) whose `ensures` gives the new state as a
function of the old one; the theorems are lemmas about those functions and their runs. Values of foreign code are
parameters: what a read returns, whether an allocation succeeds, what a name resolves to. Rates, scores and
latencies are real numbers.

Where the code misses what one would expect of it, there is an input or a run that shows it and an exact condition:

- exec: all terminated lines arrive if and only if every one is free of NULs and at most 1198 bytes long
  (`ExecLines.DeliversAll`; two streams that lose a line: `ExecLines.LostLines`).
- exec: a read that leaves a newline at the start of the buffer makes the code look one byte in front of it. Some way
  of cutting a stream does so if and only if an empty line follows well-formed lines only (`ExecLines.LooksExactly`;
  a first read that does: `ExecLines.NewlineFirst`).
- exec: the flag of a program stays set with nobody to clear it if and only if a thread creation failed
  (`ExecRunning.OneReader`, a run: `ExecRunning.LostAtOnce`); the program is then never started again.
- ceph: a name in an unexpected position is looked up out of bounds or stored twice. One lookup behaves as the map if
  and only if the position is in step with the name and the average is not the sentinel (`CephCache.CallExact`,
  inputs: `CephCache.OutOfStepExamples`).
- ceph: the 32-bit size of the reply buffer wraps for an announced length of 2^32 - 1, and a transition leaves the
  buffer if and only if that length was announced and something is read (`CephConn.StepInv`, a run:
  `CephConn.OverrunReached`).
- curl_json: the type instance is the joined names, cut to the buffer, if and only if all names but the last leave the
  counted length within it (`CurlJsonSubmit.InstanceExact`, names that do not: `CurlJsonSubmit.TooLong`).
- email: a failed allocation or `fdopen` loses a collector for good; exactly the failed ones are missing
  (`EmailPool.EveryRun`), and a pool of any size can lose all (`EmailPool.LostForGood`).
- collectd_network.py: the decoding loop ends if and only if it meets no part of announced length zero that it can
  read (`Network.TerminatesExactly`); at such a part every number of rounds yields it again (`Network.Repeats`).

## Model

| member | source | states |
|---|---|---|
| `CurlJson.RunValue` | src/curl_json.c:189-339 | One complete JSON value submits its matching scalars in document order, restores depth and lower contexts, leaves higher contexts zeroed and advances only the enclosing array |
| `CurlJson.RunObject` | src/curl_json.c:271-316 | The same for an object: the map key callbacks pick each member's entry from the enclosing context |
| `CurlJson.RunArray` | src/curl_json.c:214-223 | The same for an array: elements are matched under their decimal index |
| `CurlJson.RunMembers` | src/curl_json.c:271-302 | All members of an open object, up to and including the end callback |
| `CurlJson.RunElements` | src/curl_json.c:318-339 | All elements of an open array from any index on, including the end callback |
| `CurlJson.RunScalar` | src/curl_json.c:229-294 | A scalar is offered to the entry of the current context, null never is, and the array index advances |
| `CurlJson.OffersUnder` | src/curl_json.c:189-212 | Descending one name and matching below it is matching the longer path; exact name before wildcard |
| `Common.DecimalReads` | src/curl_json.c:220-221 | The decimal name of an array index stands for that index, without leading zero |
| `CurlJson.Reopen` | src/curl_json.c:296-302 | Ending a container undoes what opening it did to the stack |
| `CurlJson.ReadSubmits` | src/curl_json.c:961-987 | For every document and configuration tree, a poll submits exactly the scalars whose path resolves to a key, and aborts exactly when a container nests too deep |
| `CurlJson.Database.OnKey` | src/curl_json.c:189-212 | Loading a key on the context array; EINVAL at depth zero |
| `CurlJson.Database.Advance` | src/curl_json.c:214-223 | Next array index, its name and its entry, only inside an array |
| `CurlJson.Database.OnScalar` | src/curl_json.c:234-266 | Submission of key, value and names along the stack when the entry is a key and the text parses |
| `CurlJson.Database.OnStart` | src/curl_json.c:304-333 | Opening a map or array, or aborting at the depth limit |
| `CurlJson.Database.OnEnd` | src/curl_json.c:296-302 | Closing a container zeroes its context and advances the enclosing array |
| `CurlJson.Database.Callback` | src/curl_json.c:229-339 | Every callback is one step of the stack machine |
| `CurlJson.Database.Read` | src/curl_json.c:961-987 | A poll over the callbacks of a document appends exactly the submissions of the recursive evaluation and removes the root context |
| `CurlJsonConfig.SplitJoined` | src/curl_json.c:455-485 | Splitting a path undoes joining for every list of plain names, with or without leading slash |
| `CurlJsonConfig.AppendEffect` | src/curl_json.c:449-501 | Appending one path changes the lookup of no other path and keeps an existing entry |
| `CurlJsonConfig.AppendStatus` | src/curl_json.c:480-490 | A key is refused as not a tree exactly when a configured key sits at a proper prefix of its path |
| `CurlJsonConfig.BuildSound` | src/curl_json.c:449-501 | Only configured keys are found, and only at their own path |
| `CurlJsonConfig.BuildComplete` | src/curl_json.c:449-501 | A configuration is accepted with every path leading to its own key if and only if no path repeats or passes through another one |
| `CurlJsonConfig.ResolveExact` | src/curl_json.c:203-209 | Without wildcards the matcher is the exact walk |
| `CurlJsonConfig.ResolvePattern` | src/curl_json.c:203-209 | For every tree and path the matcher is the exact walk along the one pattern that takes the exact name wherever there is such an entry, else the wildcard where there is one |
| `CurlJsonConfig.ExactWins` | src/curl_json.c:203-209 | An entry at exactly the path wins over every wildcard |
| `CurlJsonConfig.OfferByPattern` | src/curl_json.c:234-266 | What one scalar submits, stated by its pattern and the exact walk alone |
| `CurlJsonConfig.ConfiguredExactly` | src/curl_json.c:189-212 | A wildcard-free compatible configuration resolves a path to a key if and only if that path was configured with it |
| `CurlJsonConfig.PollSubmitsConfigured` | src/curl_json.c:449-501 | From the list of split paths to the submissions of a poll: exactly the configured scalars of the document |
| `CurlJsonConfig.PathsTakenApart` | src/curl_json.c:455-485 | Path strings spelled from plain names, with or without leading slash, are taken apart into those names |
| `CurlJsonConfig.PollSubmitsPaths` | src/curl_json.c:449-501 | From the configured path strings to the submissions of a poll, whenever no path repeats or passes through another one |
| `CurlJsonSubmit.InstanceExact` | src/curl_json.c:829-833 | The snprintf loop leaves the names joined by dashes, cut to 127 characters, if and only if all names but the last leave the counted length at most 128 |
| `CurlJsonSubmit.TooLong` | src/curl_json.c:829-833 | Two names of 127 characters and any third one take the loop out of the buffer |
| `CurlJsonSubmit.TypeInstance` | src/curl_json.c:829-835 | The configured instance if there is one, else the joined names; with the exact condition for leaving the buffer |
| `ExecLines.LinesAppend` | src/exec.c:608-640 | Cutting a stream anywhere and carrying the rest over yields the same lines and the same rest |
| `ExecLines.ReadKeeps` | src/exec.c:608-640 | One more read keeps the lines delivered so far and the carry-over |
| `ExecLines.StopsComplete` | src/exec.c:608-640 | When the loop ends, by end of file or a full buffer, everything deliverable was delivered |
| `ExecLines.DeliversAll` | src/exec.c:625-633 | All newline-terminated lines are delivered if and only if none holds a NUL and none is longer than 1198 bytes |
| `ExecLines.SplitSpelled` | src/exec.c:625-633 | What a line is, byte by byte: one carriage return in front of the newline goes, nothing else does |
| `ExecLines.ReadableMeans` | src/exec.c:608-640 | The streams that are read to their end: well-formed lines and an unterminated rest of at most 1198 NUL-free bytes |
| `ExecLines.LostLines` | src/exec.c:625-633 | A stream with a NUL and one with a line of 1199 bytes lose a line |
| `ExecLines.CarryFits` | src/exec.c:608-640 | At every point of a stream of NUL-free lines of at most 1198 bytes the carry-over holds no newline and does not fill the buffer |
| `ExecLines.LooksExactly` | src/exec.c:626-628 | Some cut into reads that fit makes the code look in front of the buffer if and only if an empty line follows well-formed lines only |
| `ExecLines.UnderrunAtEmptyLine` | src/exec.c:626-628 | The byte in front of the buffer is only looked at for an empty line |
| `ExecLines.LineReader.FindNewline` | src/exec.c:625-625 | The newline search stops at a NUL or the end of the data |
| `ExecLines.LineReader.CutLine` | src/exec.c:626-632 | The line is terminated in place; the bytes up to the newline are the line, and one carriage return if they end in one |
| `ExecLines.LineReader.HandOver` | src/exec.c:625-633 | All complete lines of the buffer are handed over in order; the rest stays; exactly when the byte before the buffer is read |
| `ExecLines.LineReader.Feed` | src/exec.c:608-640 | One read: deliver lines of carry-over plus chunk, move the rest to the front |
| `ExecLines.LineReader.Run` | src/exec.c:598-640 | For every stream and every sequence of reads that fit the free space the delivered lines are the deliverable lines; a stream of NUL-free lines of at most 1198 bytes is read to its end with room left; the byte in front is only looked at for an empty line behind well-formed ones |
| `ExecLines.LineReader.FeedAll` | src/exec.c:608-640 | For a given cut the byte in front is looked at exactly when some read leaves a newline at the start |
| `ExecLines.NewlineFirst` | src/exec.c:626-628 | Every first read that starts with a newline looks in front of the buffer |
| `ExecRunning.StepInv` | src/exec.c:827-855 | Claim, thread creation, fork, reaping and clearing each keep: the flag accounts for one claim, reader or failed creation, and the pid is set exactly while the child runs |
| `ExecRunning.OneReader` | src/exec.c:827-855 | At every point of every run: at most one reader, a reader implies the flag, a starting reader finds pid 0, and the flag is stuck exactly after a failed thread creation |
| `ExecRunning.NeverAgain` | src/exec.c:845-851 | After a failed thread creation nothing but refused claims can happen to the program |
| `ExecRunning.LostAtOnce` | src/exec.c:838-851 | A claim and a failed creation are enough to get there |
| `ExecRunning.RunsAgain` | src/exec.c:581-591 | An idle normal program is started by the next poll and gets its child: the pid check in the fork never refuses |
| `ExecRunning.FullCycle` | src/exec.c:571-710 | From claim to clear, with a child or with a failed fork, an idle program ends as it was |
| `ExecRunning.Exec.ReadAll` | src/exec.c:827-855 | One poll claims and starts exactly the idle normal programs |
| `ExecRunning.Exec.ReadOne` | src/exec.c:571-710 | A reader from start to end clears pid and flag, also when the fork fails |
| `Aggregation.OrderIrrelevant` | src/aggregation.c:309-320 | The statistics depend only on the multiset of rates |
| `Aggregation.CollectMeaning` | src/aggregation.c:309-320 | Count, sum and squares are the sums of the rates; minimum and maximum are attained bounds |
| `Aggregation.RadicandMeaning` | src/aggregation.c:405-407 | n times the sum of squares minus the squared sum is n times the sum of squared distances to the mean, hence not negative |
| `Aggregation.Bounds` | src/aggregation.c:394-417 | Minimum <= average <= maximum, and the radicand lies between 0 and (n * (max - min) / 2)^2 |
| `Aggregation.ReportedDeviation` | src/aggregation.c:405-407 | The reported deviation squared is the mean squared distance to the average, and it is at most half the range |
| `Aggregation.ReportTruth` | src/aggregation.c:396-408 | Every figure of a report is what its name says of the rates |
| `Aggregation.Instance.Update` | src/aggregation.c:285-324 | One update adds one known rate; other data sets, missing rates and NaN leave everything unchanged |
| `Aggregation.Instance.Include` | src/aggregation.c:309-320 | The locked part: running sums, minimum and maximum stay those of the collected rates |
| `Aggregation.Instance.Read` | src/aggregation.c:394-417 | Exactly the figures that are switched on are dispatched, the count always and the others if there were rates since the last report; each is stated from those rates alone: their number, sum, mean, attained bounds, and root of the mean squared distance; then everything starts over |
| `Aggregation.Dispatch` | src/aggregation.c:396-408 | The count always, the other figures only when there were rates, each only when switched on |
| `CephCache.CallExact` | src/ceph.c:817-849 | One lookup answers as the map and leaves the map's bindings if and only if position and name are in step and the average is not the sentinel |
| `CephCache.Duplicated` | src/ceph.c:775-797 | A known name behind the remembered positions is stored a second time |
| `CephCache.OutOfStepExamples` | src/ceph.c:817-849 | Concrete out-of-bounds and duplicate cases |
| `CephCache.PollRefines` | src/ceph.c:817-849 | A poll that names the remembered counters first behaves as the map |
| `CephCache.RunRefines` | src/ceph.c:757-849 | If the first poll has distinct counters, later ones rearrange them and sums never decrease, all results of all polls are those of the map, and the array ends with exactly one entry per counter, the binding of the map |
| `CephCache.Daemon.BackupSearch` | src/ceph.c:804-812 | Index of the first entry with the name, or -1 |
| `CephCache.Daemon.Update` | src/ceph.c:757-797 | Replace at the guessed index or append |
| `CephCache.Daemon.Average` | src/ceph.c:817-849 | The imperative lookup computes the modelled average and array, or stops before the access in front of the array |
| `CephConn.StepInv` | src/ceph.c:1145-1252 | Every transition keeps: bytes transferred equal the counter, buffers hold exactly what was received, and amounts stay below their target; out of bounds if and only if the announced length is 2^32 - 1 |
| `CephConn.RequestsMoveOn` | src/ceph.c:1188-1245 | Requests go from version to schema to none, or from data to none; a served one is never taken up again |
| `CephConn.StepProgress` | src/ceph.c:1145-1252 | Every transition that transfers a byte advances a lexicographic measure |
| `CephConn.AheadStrict` | src/ceph.c:1145-1252 | The measure is a strict order, so progress is finite |
| `CephConn.RunSafe` | src/ceph.c:1308-1412 | The invariant holds after every run, and a served connection does not change any more |
| `CephConn.OverrunReached` | src/ceph.c:1206-1235 | Connecting, writing the request and reading the header FF FF FF FF leads to a buffer that no further byte fits |
| `CephConn.HandsOver` | src/ceph.c:1227-1245 | The parser gets the payload exactly when its last byte arrived |
| `CephConn.ReadsHeader` | src/ceph.c:1206-1226 | One read of header bytes: the length is decoded big-endian exactly when four bytes are there |
| `CephConn.SpelledReads` | src/ceph.c:1217-1217 | Reading a length undoes writing it most significant byte first, for every length |
| `CephConn.VersionReply` | src/ceph.c:1188-1203 | A complete version reply leads to the schema request exactly when its bytes are 0 0 0 1 |
| `CephConn.RequestLines` | src/ceph.c:1155-1158 | The request line of each request |
| `CephConn.Framing` | src/ceph.c:1206-1245 | For every payload, framed by its length in four bytes with the most significant first, and every split into reads, the parser is handed exactly the payload |
| `CephConn.Connection.Init` | src/ceph.c:1323-1331 | A connection starts unconnected with its request |
| `CephConn.Connection.Shut` | src/ceph.c:1018-1029 | Closing resets descriptor, amounts and buffer |
| `CephConn.Connection.Prepare` | src/ceph.c:1254-1292 | Connects exactly for unserved requests, for data only with counters; failure leaves the connection as it was |
| `CephConn.Connection.Handle` | src/ceph.c:1145-1252 | Writing the request and reading version, length and payload, or stopping before a write outside the buffer |
| `CephConn.Connection.ReadLength` | src/ceph.c:1206-1226 | The length state: collect four bytes, get a buffer or fail |
| `CephConn.Connection.ReadPayload` | src/ceph.c:1227-1245 | The payload state: collect, hand over, close |
| `CephConn.PrepareAll` | src/ceph.c:1343-1361 | Every connection stays or takes one step of its state machine; exactly the unserved ones are polled, and they are open |
| `CephConn.HandleAll` | src/ceph.c:1375-1400 | Whatever poll and the sockets do, every connection stays or takes one step of its state machine; a fault only with a wrapped buffer size |
| `CephConn.MainLoop` | src/ceph.c:1308-1412 | Every connection is where a run of its state machine leads and its request only moved on; unless a buffer was left every one is closed; if the loop finishes, every daemon is served |
| `CephNames.NameProperties` | src/ceph.c:400-473 | The name fits, has no special character, ends in the whole word for a trailing sign even when cut, and starts with the capitalised tokens |
| `CephNames.Words` | src/ceph.c:418-427 | A trailing plus stands for Plus, a trailing minus for Minus, and no other character for anything |
| `CephNames.Capitals` | src/ceph.c:438-438 | Capitalising takes the 26 small letters to the large ones and leaves the rest alone |
| `CephNames.TokenStep` | src/ceph.c:433-456 | One token of the loop is one capitalised run of the character-by-character form |
| `CephNames.NextToken` | src/ceph.c:433-433 | The next maximal run without special characters |
| `CephNames.WriteTokens` | src/ceph.c:429-456 | The loop writes the compacted name cut to the buffer, or nothing when there is no plain character |
| `CephNames.AppendWord` | src/ceph.c:458-469 | The word goes behind the name, or over its end where there is no room |
| `CephNames.CompactDsName` | src/ceph.c:404-473 | The buffer holds the specified name; small buffers are refused; a source without plain characters leaves the old content; the code looks in front of its copy exactly for an empty source |
| `Amqp1.EnqueueInv` | src/amqp1.c:344-355 | Enqueueing with a limit evicts from the front and keeps the accounting |
| `Amqp1.TakeInv` | src/amqp1.c:131-146 | A batch is the first min(credit, length) messages of the queue; nothing is taken exactly when stopping or without credit |
| `Amqp1.SendInv` | src/amqp1.c:148-162 | Sent messages continue the order and the tags |
| `Amqp1.StepInv` | src/amqp1.c:116-165 | Every action of every thread keeps the invariant |
| `Amqp1.EveryInterleaving` | src/amqp1.c:116-165 | Each message is exactly one of evicted, taken, drained, queued; sending is in enqueue order with consecutive tags from 2; a positive limit is never exceeded |
| `Amqp1.EvictsOnlyWhenFull` | src/amqp1.c:345-353 | In every run as many messages are evicted as enqueues found exactly the limit queued, and none without a limit |
| `Amqp1.KeepsTheLast` | src/amqp1.c:345-354 | Without anyone taking messages the queue is the last messages enqueued, up to the limit |
| `Amqp1.AlwaysAccepts` | src/amqp1.c:344-355 | Producers are never refused |
| `Amqp1.ShutsDown` | src/amqp1.c:293-301 | From every state the event thread can send its batch, stop and drain, and nothing stays queued |
| `Amqp1.Sender.Encqueue` | src/amqp1.c:344-355 | Append and evict down to the limit |
| `Amqp1.Sender.TakeBatch` | src/amqp1.c:131-146 | The moving loop under the lock |
| `Amqp1.Sender.SendOutMessages` | src/amqp1.c:116-165 | The whole batch is sent; the count is its size and at most the credit |
| `Amqp1.Sender.Drain` | src/amqp1.c:293-301 | The final drain empties the queue |
| `EmailPool.StepInv` | src/email.c:430-514 | Every step of connector and collectors keeps the accounting of reservations, queue and busy collectors |
| `EmailPool.EveryRun` | src/email.c:430-514 | In every run the free, reserved, queued and busy collectors sum to the limit minus the failed set-ups; connections are served in arrival order; if all threads could be created, an idle collector exists for every queued connection |
| `EmailPool.AllLeaked` | src/email.c:486-499 | After as many failed set-ups as collectors nothing can happen any more |
| `EmailPool.LostForGood` | src/email.c:457-499 | A pool of any size reaches that state by failed set-ups alone |
| `EmailPool.ConnList.Append` | src/email.c:501-511 | Linked list append at the tail |
| `EmailPool.ConnList.Take` | src/email.c:241-254 | Linked list removal at the head |
| `EmailCounters.TotalIncremented` | src/email.c:204-233 | An increment adds to its own type and to no other |
| `EmailCounters.CopyByName` | src/email.c:613-644 | As long as the copy's names are a prefix of the live ones, copying by position copies by name |
| `EmailCounters.AddInv` | src/email.c:204-233 | Increments keep conservation, distinct names and the prefix relation |
| `EmailCounters.ReportInv` | src/email.c:646-672 | A report shows exactly the live counts, resets them, and keeps the invariant |
| `EmailCounters.ScoredInv` | src/email.c:321-326 | The running score is the mean of the scores since the last report |
| `EmailCounters.ScoresExact` | src/email.c:675-686 | In every run the reported scores are the means of the scores between two reports that had any |
| `EmailCounters.ScoresArrive` | src/email.c:321-326 | However the lines interleave, a score is added once for every line that says so |
| `EmailCounters.LineAdds` | src/email.c:300-337 | What one line adds to every type: one message, its positive size, one per listed check |
| `EmailCounters.RunInv` | src/email.c:646-699 | All invariants hold after every interleaving of increments and reports |
| `EmailCounters.Conservation` | src/email.c:646-699 | However lines of all connections and reports interleave, for every type reported plus still counted is exactly what the lines contribute |
| `EmailCounters.TypeList.Increment` | src/email.c:204-233 | Search and add, or append |
| `EmailCounters.TypeList.CopyTo` | src/email.c:617-644 | The copy loop: positions, names of new entries only, values moved and reset |
| `Connectivity.StepInv` | src/connectivity.c:414-489 | Messages, passes and restarts keep: each entry says what last happened to its interface, every logged event is justified, and a pending change sets the flag |
| `Connectivity.PassInv` | src/connectivity.c:627-643 | After a pass nothing is pending, the flag is clear and every known status was notified |
| `Connectivity.RestartInv` | src/connectivity.c:985-990 | The reset keeps the invariant |
| `Connectivity.RunListed` | src/connectivity.c:414-489 | The listed status is that of the last message since the last restart |
| `Connectivity.NoLostChange` | src/connectivity.c:645-657 | An undelivered change implies the flag on which the dequeue thread does not wait |
| `Connectivity.UpToDate` | src/connectivity.c:627-643 | After every pass an interface with known status was last notified with its current status |
| `Connectivity.NotifiedOnce` | src/connectivity.c:627-643 | Every notification reports the latest transition, old and new differ, and nothing about the interface lies between them |
| `Connectivity.Monitor.HandleMessage` | src/connectivity.c:383-489 | Search, add new interfaces at the front, update, and flag on a change; ignored interfaces change nothing |
| `Connectivity.Monitor.SendInterfaceStatus` | src/connectivity.c:627-643 | The loop notifies every pending entry once and clears the flag |
| `Connectivity.Monitor.ResetAll` | src/connectivity.c:985-990 | The loop forgets every status |
| `IntelPmu.GroupShape` | src/intel_pmu.c:560-612 | A comma entry becomes one run of its resolved names, the first marked as leader |
| `IntelPmu.OriginalsOnce` | src/intel_pmu.c:561-611 | Each resolved name is one event of its own; all others are marked as clones |
| `Common.TokensRebuild` | src/intel_pmu.c:561-561 | Tokens and separators rebuild the entry, with a separator between any two tokens |
| `IntelPmu.BuildAccepts` | src/intel_pmu.c:583-608 | The list is built if and only if no comma entry holds a multi-PMU event and no enumeration of PMUs fails |
| `IntelPmu.Bracketed` | src/intel_pmu.c:666-669 | A run with marked first and last event is opened as a group and leaves no leader behind |
| `IntelPmu.BuildLeaders` | src/intel_pmu.c:548-623 | Set-up after building opens everything as the configuration reads, behind any events without an open group |
| `IntelPmu.Leaders` | src/intel_pmu.c:704-757 | The whole list: each non-first resolved event of a comma entry has that entry's first resolved event as leader, every other event, clones included, has none |
| `IntelPmu.EventList.AddEvents` | src/intel_pmu.c:483-508 | Plain events are appended without flags |
| `IntelPmu.EventList.AddClonedPmus` | src/intel_pmu.c:510-540 | One clone per further PMU |
| `IntelPmu.EventList.AddEntry` | src/intel_pmu.c:552-620 | The token loop of one entry, including both refusals |
| `IntelPmu.EventList.AddHwEvents` | src/intel_pmu.c:548-623 | All entries in order, stopping at the first refusal |
| `IntelPmu.EventList.SetupEvents` | src/intel_pmu.c:633-673 | The loop opens each event with the leader variable of the events before it |
| `Gmond.OrBitSets` | src/gmond.c:483-483 | Setting a bit of the mask marks exactly that source |
| `Gmond.FullMask` | src/gmond.c:485-489 | The comparison with (1 << n) - 1 asks whether all n sources are marked |
| `Gmond.FlagsFit` | src/gmond.c:483-489 | With at most 30 sources the mask fits a C int |
| `Gmond.SetStep` | src/gmond.c:474-504 | One update extends the history of its entry: modular sums, latest gauge, mask of the round, and an output exactly at the end of a round |
| `Gmond.StagingExact` | src/gmond.c:442-508 | After every sequence of messages each entry holds the modular totals or latest values of all it received, and outputs are one per complete round: a dispatch if the interval was known, else a request |
| `Gmond.RoundOpen` | src/gmond.c:485-504 | A round is closed as soon as all sources were updated |
| `Gmond.RoundBegan` | src/gmond.c:485-504 | A round begins right after the update that completed the previous one |
| `Gmond.KeysDistinct` | src/gmond.c:400-401 | Keys under 256 characters, of types and instances without slash, do not collide |
| `Gmond.Plugin.StagingEntryGet` | src/gmond.c:389-440 | The entry of the key, or a new one with zero values |
| `Gmond.Plugin.StagingEntryUpdate` | src/gmond.c:442-508 | Accumulate, mark, and dispatch or request; the error returns |
| `Gmond.Plugin.HandleMetaData` | src/gmond.c:615-666 | A positive tmax sets the interval of the entry |
| `IntelRdt.CompareMeaning` | src/intel_rdt.c:386-411 | On lists without duplicates: 0 if and only if disjoint, 1 if and only if equal and not empty, -1 otherwise |
| `IntelRdt.CompareNeedsDistinct` | src/intel_rdt.c:386-411 | With duplicates the count can claim equal groups that differ |
| `IntelRdt.MatchesDistinct` | src/intel_rdt.c:398-402 | The number of matching pairs is the size of the intersection |
| `IntelRdt.IsDupStr` | src/intel_rdt.c:303-309 | Whether a name agrees with a listed one up to 16 characters |
| `IntelRdt.HeadsCompare` | src/intel_rdt.c:305-305 | Names are equal exactly when their first 16 characters, the terminating NUL included, are |
| `IntelRdt.StripCuts` | src/intel_rdt.c:349-350 | Only white space is cut off in front, and all of it |
| `IntelRdt.EmptyWordSplits` | src/intel_rdt.c:334-340 | A list is refused as having an empty word exactly when it contains two adjacent commas |
| `IntelRdt.StrListToArray` | src/intel_rdt.c:328-368 | Fails exactly on two adjacent commas or a repeated name; else the non-blank tokens without leading space, in order |
| `IntelRdt.NgroupCmp` | src/intel_rdt.c:386-411 | The counting loops |
| `IntelRdt.OconfigToNgroups` | src/intel_rdt.c:431-478 | The first 64 values become groups, or one of them is bad |
| `IntelRdt.CheckNames` | src/intel_rdt.c:551-567 | All names have 1 to 16 characters |
| `IntelRdt.CheckPairs` | src/intel_rdt.c:582-592 | All pairs of groups compare as disjoint |
| `IntelRdt.NoneTwiceMeans` | src/intel_rdt.c:551-592 | For valid names the checks by group are the statement that no name occurs twice anywhere |
| `IntelRdt.RdtConfigNgroups` | src/intel_rdt.c:524-605 | A configuration is accepted if and only if it is not empty, every group parses to valid names and no full name occurs twice |
| `IntelRdt.AcceptedDisjoint` | src/intel_rdt.c:582-592 | Accepted groups are pairwise disjoint and without repetition |
| `Network.PartTrip` | contrib/collectd_network.py:72-129 | Decoding one well-formed part gives it back with its length, whatever follows |
| `Network.WireFormat` | contrib/collectd_network.py:67-112 | The format byte by byte: kind and length, numbers most significant byte first, texts with their NUL, counts, types and values |
| `Network.PrefixTrip` | contrib/collectd_network.py:132-148 | Well-formed parts in front of anything are yielded exactly |
| `Network.RoundTrip` | contrib/collectd_network.py:132-148 | Decoding a concatenation of well-formed parts ends and yields exactly those parts |
| `Network.Repeats` | contrib/collectd_network.py:132-148 | At a part of length zero every number of rounds yields that part every time and stays there |
| `Network.RoundsOf` | contrib/collectd_network.py:132-148 | The closed form of the loop is what its rounds do, for every number of rounds |
| `Network.TerminatesExactly` | contrib/collectd_network.py:132-148 | For every buffer the loop ends if and only if following the lengths meets no readable header of length zero |
| `Network.ZeroLength` | contrib/collectd_network.py:132-148 | Behind any well-formed parts a readable part of length zero is yielded k times in k further rounds, for every k |
| `Network.ZeroText` | contrib/collectd_network.py:109-112 | With the length zero a text reaches to the last byte but one of the buffer |
| `Network.DecodeNetworkValues` | contrib/collectd_network.py:72-100 | The loop over types and values, with its size assertion and unknown types |
| `Network.DecodeNetworkPacket` | contrib/collectd_network.py:132-148 | The loop over the parts for any number of rounds, with every way it can raise |
| `Network.DecodeRound` | contrib/collectd_network.py:138-147 | One round of the loop, with every way it can raise |
| `Network.InterpretOpcodes` | contrib/collectd_network.py:228-258 | Each value list and message comes out with the most recent field values before it |
| `Network.EmittedNext` | contrib/collectd_network.py:250-258 | Values and messages come out with the fields before them; every other part is silent |
| `Network.SeverityMeans` | contrib/collectd_network.py:204-206 | The severity in force is the last one that is 1, 2 or 4, and 0 before there is any |
| `Network.Receive` | contrib/collectd_network.py:330-338 | Decoding and interpreting for any number of rounds; a packet of well-formed parts yields its value lists and messages with the fields in force |

## Left out

- Sockets, poll, fork, files, pthread primitives, clocks and logging: only the lock-delimited steps and their possible results are modelled.
- Foreign libraries (yajl, curl, Proton, libpqos, jevents, libmnl, the AVL tree): replaced by event streams, parameters and maps.
- Configuration parsing except the key paths of curl_json and the name groups of intel_rdt.
- Allocation failures, except for the reply buffer of ceph and the connection set-up of email.
- Floating-point rounding: rates, latencies, scores and times are real numbers, NaN is a separate case where the code tests for it.
- The other plugins and the daemon: mostly reading and dispatching values, which would only add easy members.
- CurlJson.Database.Advance: the index is unbounded, while the code keeps it in an int.
- CurlJson.ReadSubmits: the nesting limit is a parameter, because YAJL_MAX_DEPTH comes from yajl.
- CurlJsonConfig.AppendEffect: the tree is a value that is rebuilt, not nested trees updated in place; sharing of subtrees is not captured.
- ExecLines.LineReader.Run: standard output only; the loop for standard error is the same with a 1024-byte buffer. parse_line is the recorded list of lines.
- ExecRunning.OneReader: programs for notifications, which are not serialized, and the shutdown are not modelled.
- Aggregation.Instance.Read: the conversion of the figures to values of the data set and the dispatch itself are not modelled.
- CephConn.Connection.ReadPayload: buffers are sequences; what happens after a write outside the buffer is not modelled, the loop stops there.
- CephCache.RunRefines: the decoding of JSON latency counters, parse_keys and the type lookup are not modelled.
- Amqp1.Sender.Drain: the code drains without taking send_lock; the model makes each removal one step, so a race with a producer at that point is not captured.
- EmailPool.EveryRun: collector threads that could not be created are a parameter; cancelling them at shutdown is not modelled.
- EmailCounters.TypeList.CopyTo: the linked nodes are a sequence, and counts are unbounded integers.
- EmailCounters.LineAdds: the splitting of the line and the number conversions are done before; each increment is a step of its own.
- Connectivity.NoLostChange: waking up the waiting dequeue thread is not modelled, only the flag it tests; the restart is one step.
- IntelPmu.EventList.SetupEvents: the loops over cores and the failures of opening an event do not touch the leader and are not modelled.
- Gmond.StagingExact: requires that a key is always used with the same data set of at most 30 sources; otherwise the code mixes kinds in one union. DERIVE sums wrap in two's complement.
- IntelRdt.RdtConfigNgroups: setting up the monitoring data of accepted groups is not modelled.
- Network.DecodeNetworkValues: gauges are their eight bytes, not decoded further; bytes are those of Python 2 strings.
- Network.InterpretOpcodes: parts whose data does not have the type of their kind, such as a number as host name, are not modelled; the decoder yields none.
