# StreamMonitor: a verified model

StreamMonitor polls a streaming service every minute, keeps the result in three SQLite tables, serves them
to a desktop client over a line protocol, and draws charts of them. This project models that in Dafny 4.11 and
proves what the pieces promise, alone and together. `dafny verify dfyconfig.toml` checks everything.

The main results:

- **The compressed, purged history never lies.** Over any interleaving of polls and purges, "what was the title
  at T?" is answered with what the full log of every poll says then, or not at all, and not at all exactly when
  a purge found the row stale (`Runs.AnswersSomeEntry`, `Runs.AnswersTheLog`, `Runs.ForgetsExactly`,
  `Queries.AnswersTheObservations`). Never purged, the history is the run-length compression of what was
  observed (`Runs.HistoryIsCompressed`); any run leaves a last part of it (`Runs.RunHistory`); a final purge
  hides whether earlier ones ran (`Runs.PurgeAbsorption`). Which samples are left is known exactly too (`Runs.SampleLives`). The collector's
  loop meets the hypotheses by itself (`Daemon.LoopIncreases`, `Daemon.LoopPolls`), even when polls fail or
  overrun, and what it forgets is older than the retention (`Daemon.DaemonAnswersSomeEntry`,
  `Daemon.LoopRetains`).
- **The windowed answer loses nothing** (`Queries.WindowSeesWhatApplies`), so every tooltip shows what its own
  poll observed unless that was forgotten (`Queries.TooltipTellsItsPoll`), even when a poll names a channel
  twice.
- **The relay is sound over every run** (`Relay.RunHealthy`, `Relay.LifeInOrder`), and **end to end** a client
  handles, unsplit and in order, a beginning of what the server enqueued, the k-th reply answering the k-th
  request (`Protocol.EndToEnd`). `Client.FromDaemonToTooltip` joins the collector's loop, a whole life of the
  relay and the client's sends, with the collector running all the while.
- **Nothing is skipped**: what the collector's loop, the page loop and every event of the relay do is stated exactly,
  without reference to how they do it (`Daemon.LoopExactly`, `Fetch.TopExactly`, `Peers.ReadyExactly`,
  `Peers.TickExactly`, `Relay.EveryLineIsAnswered`).
- **The chart**: label placement (`Labels.LabelIsBest`, `Labels.MarkerMeansFull`), hover, axis and request routing (`Labels`, `Hover`, `Axis`, `Dialog`).

| file | models |
|---|---|
| `Aggregates.dfy`, `Arith.dfy` | greatest and least elements, division |
| `Tables.dfy` | the tables and the meaning of the SQL statements |
| `Runs.dfy` | whole runs of polls and deletions against the log of polls |
| `Stores.dfy` | the C++ and the Python store |
| `Daemon.dfy`, `Fetch.dfy` | the collector's loop and its page loop |
| `Queries.dfy` | the relay's queries and the client's scan over their answers |
| `Lines.dfy`, `Protocol.dfy` | newline framing; messages, answers, connection logs |
| `Peers.dfy`, `Relay.dfy` | one connection; the server |
| `Client.dfy` | the client's socket loops; from poll to tooltip |
| `Axis.dfy`, `Hover.dfy`, `Labels.dfy`, `Chart.dfy`, `Dialog.dfy` | the client's window |

## How to read the model

- Objects whose methods change fields are classes (`Store`, `PyStore`, `Server`, `StreamClient`, `MainDlg`) whose
  methods are proved equal to functions over values; the theorems are about those functions. A `Conn` is a value
  in the server's map: the original holds each by `unique_ptr`, so nothing is shared. A `Log`, the `closed` set
  and the `clock` are not part of the program, they record what it did.
- The outside world is an argument: clock readings, pages, results of `recv` and `send`, epoll events, JSON
  parser and writer, `hypot`, text extents, SQLite's order of ties. Assumed of it: clock readings are not
  negative and do not run backwards; written JSON is not empty and has no raw newline (RFC 8259, section 7);
  TCP delivers to each side a beginning of what the other sent; epoll events belong to the connection of
  their number.
- The collector is another process. It may commit between any two statements of the relay: a samples request reads
  its points and its changes from two states (`Protocol.Env`). Each statement sees one state.
- One `Accept` event covers the connections accepted at one clock reading; an `accept` loop that takes several
  readings is several events.
- Failures are modelled: a poll that fails records nothing (the transaction is rolled back), a purge may stop
  between its two statements.
- Integers are unbounded except in `Axis.dfy`, where 32-bit overflow is the point. Division is C++'s:
  truncating where an operand can be negative.

## Where code and documentation differ

The model follows the code.

- PROTOCOL.md says an unfinished line over 64 KB closes the connection. The code compares the whole buffer before
  taking lines out of it, so complete lines count too, and lines read in a drain that ends in a close are never
  handled (`Peers.ReadOpens`). `Peers.CompleteLinesCount` is an input, `Peers.CalmAgainstTheRule` says exactly when
  code and rule agree.
- schema.sql says the title at T is the newest row not after T. After a purge that row may be gone although T is
  after the cutoff (`Tables.PurgeCanForgetAfterTheCutoff`); the exact law is `Runs.ForgetsExactly`.
- The count of changes `record` returns includes changes whose insert is ignored
  (`Stores.IgnoredChangeIsCounted`); it is the number of rows added exactly when there is none
  (`Stores.ChangesCountRows`).
- After a send that fails the client keeps its socket, so a later line can be glued to the one that was cut off
  (`Client.GluedLine`). `Client.WireExact` says for any calls exactly when the wire still holds a beginning of the
  requests. For lines that open with a byte found nowhere else in them, as the client's objects do unless a channel
  id has a brace, that is when nothing goes out after a cut (`Client.AfterACut`, `Client.SeriesExact`).
- The Python collector, called the same behaviour, tells an absent string from an empty one; the C++ one does not
  (`Stores.EditionsAgree`).
- The server writes viewer counts as 64-bit numbers, the client drops points that do not fit 32 bits
  (`Client.FittingIsAll`). A label can cover a negative one (`Labels.NegativeCanBeCovered`). The axis computation overflows from 2,000,000,000 viewers on (`Axis.StepFits`).

## Model

| member | source | states |
|---|---|---|
| Tables.RowsAtFacts | src/cpp/push/main.cpp:53-54 | a channel's rows listed in time order are strictly ascending and are exactly the stored rows at those times |
| Tables.LastAfterInsert | src/cpp/collector/main.cpp:144-147 | inserting a row changes a channel's newest row only by becoming it; an ignored or back-dated insert does not |
| Tables.LastAfterPurge | src/cpp/collector/main.cpp:181-182 | a purge never moves any channel's newest row, the only row the collector compares with |
| Tables.PurgedAsOf | src/cpp/collector/main.cpp:181-182 | after a purge the row in force at any time is the same or gone, and the same exactly when there was none, it is not older than the cutoff, or it is the channel's newest |
| Tables.PurgeCanForgetAfterTheCutoff | src/cpp/collector/main.cpp:181-182 | a concrete table, cutoff and later time whose answer a purge loses |
| Runs.AgreeRecord | src/cpp/collector/main.cpp:151-175 | a poll keeps two stores indistinguishable to a later purge, whatever its time |
| Runs.AgreePurged | src/cpp/collector/main.cpp:177-182 | stores that a purge at c cannot tell apart become equal by it |
| Runs.PurgeAbsorption | src/cpp/collector/main.cpp:151-185 | for any start, record times and repeated channels: a final purge at c leaves the same three tables with or without every earlier purge whose cutoff is at most c |
| Runs.RunRows | src/cpp/collector/main.cpp:155-185 | over every run of later polls and any deletions the rows are exactly those of the never-purged history that no deletion found stale, with the same newest rows |
| Runs.PollRows | src/cpp/collector/main.cpp:155-168 | a poll changes each channel's history as if it held that channel's entries alone, repeated channels or not |
| Runs.AnswersTheLog | src/cpp/collector/main.cpp:155-185 | for increasing polls that name each channel once, over every interleaving with deletions, at every time: exactly what the log says, or nothing, and nothing exactly when that was forgotten; always from the channel's newest row on |
| Runs.PolledPair | src/cpp/collector/main.cpp:155-185 | at a polled channel and time: exactly the pair that poll observed, unless it was forgotten |
| Runs.ForgetsExactly | src/cpp/collector/main.cpp:177-182 | for every such run, channel and time: the row in force is the one of the never-purged history, or none, and none exactly when some deletion found that row older than its cutoff with a newer one there; never from the channel's newest row on |
| Runs.ForgetsAfterPurge | src/cpp/collector/main.cpp:177-182 | in closed form for any record times, after a final purge at a cutoff that dominates all earlier ones: kept exactly when missing, not older than the cutoff, or the newest |
| Runs.PollEffect | src/cpp/collector/main.cpp:155-168 | a poll not earlier than any row answers for itself with one of its own entries, or with the row already there at its time, and changes no earlier answer |
| Runs.AnswersSomeEntry | src/cpp/collector/main.cpp:155-185 | even if polls name channels repeatedly or fall on one time: the table answers exactly when the log can and the row was not forgotten, with something said at the last time the log says anything |
| Runs.PolledEntry | src/cpp/collector/main.cpp:155-185 | so at a polled channel and time: something said at that very time, by that very poll if it was alone, unless that was forgotten |
| Runs.HistoryIsCompressed | src/cpp/collector/main.cpp:159-167 | never purged, a channel's rows are exactly the run-length compression of everything observed of it, of several changes at one time the first; repeated channels and equal times included |
| Runs.PurgedHistory | src/cpp/collector/main.cpp:181-182 | a purge removes a prefix of a channel's history and nothing else |
| Runs.RunHistory | src/cpp/collector/main.cpp:155-185 | what any run leaves of a channel's history is a last part of that compression: all but the forgotten rows |
| Runs.StaysMinimal | src/cpp/collector/main.cpp:159-182 | with nondecreasing record times no two consecutive rows of a channel are equal, through any purges and repeated channels |
| Runs.PollSamples | src/cpp/collector/main.cpp:156 | a poll keeps every sample and adds one for each channel it names: for every list of entries the first entry at a channel and time wins |
| Runs.SampleLives | src/cpp/collector/main.cpp:156-180 | for every run, any record times: a sample is there exactly if a poll saw it, or it was there at the start, and no later deletion covers its time |
| Runs.SampleOfPoll | src/cpp/collector/main.cpp:156-180 | the sample of a poll alone at its time, with none there before, is there exactly as long as no later deletion covers it, and reads back as polled |
| Runs.SampleHasPoll | src/cpp/collector/main.cpp:156 | every sample that was not there at the start is the number of the first entry for its channel in some poll at its time that found its place free, repeated channels or not |
| Runs.SoundRun | src/cpp/collector/main.cpp:151-182 | nondecreasing record times keep: samples belong to listed channels and are not newer than last_seen, first_seen <= last_seen, and the sample at last_seen exists unless the channel has none left |
| Runs.ChannelsTellTheLog | src/cpp/collector/main.cpp:141-143 | a channels row is the first and last time and the last name in the whole log, whatever was purged; a channel never seen has no row |
| Stores.ChangesCountRows | src/cpp/collector/main.cpp:152-166 | for every store, time and list of entries: the returned count is never less than the rows added, and equal to it exactly when no entry says something new at a taken channel and time when its turn comes |
| Stores.DistinctClashes | src/cpp/collector/main.cpp:159-166 | for a poll that names each channel once that condition is read off the store before the poll |
| Stores.LaterPollCounts | src/cpp/collector/main.cpp:152-166 | so the count is right for such a poll when it is later than every row |
| Stores.IgnoredChangeIsCounted | src/cpp/collector/main.cpp:164-166 | a change at a time that already has a row is counted though the insert is ignored |
| Stores.Store.Record | src/cpp/collector/main.cpp:151-175 | one transaction, entry by entry over three tables, leaves the store the specification gives and returns the number of changes |
| Stores.Store.Purge | src/cpp/collector/main.cpp:177-185 | the two DELETE statements leave the purged store and report how many rows each removed |
| Stores.Store.DeleteSamples | src/cpp/collector/main.cpp:179-180 | exactly the samples older than the cutoff go |
| Stores.Store.DeleteInfo | src/cpp/collector/main.cpp:181-183 | deleting row by row in any order, with MAX(ts) taken from the shrinking table, equals deleting against a snapshot |
| Stores.MaxStays | src/cpp/collector/main.cpp:182 | deleting a row that is not the newest moves no channel's MAX(ts) |
| Stores.PyStore.Record | src/collector/monitor.py:57-85 | the table-by-table edition leaves the same store as entry by entry |
| Stores.PyStore.InsertSamples | src/collector/monitor.py:59-61 | inserts every entry's sample, ignoring taken keys, and touches no other table |
| Stores.PyStore.UpsertChannels | src/collector/monitor.py:63-69 | upserts every entry's channel and touches no other table |
| Stores.PyStore.NoteAll | src/collector/monitor.py:71-81 | notes every entry that differs from its channel's newest row and touches no other table |
| Stores.BatchedIsInterleaved | src/collector/monitor.py:57-85 | three batched folds equal one interleaved fold |
| Stores.EditionsAgree | src/collector/monitor.py:71-81 | C++ and Python leave the same tables, absent read as empty, exactly when no entry differs from the newest row only in absent versus empty at a free time |
| Stores.DistinctConfused | src/collector/monitor.py:71-81 | for a poll that names each channel once that condition is read off the store before the poll |
| Stores.PlainIsNotConfused | src/collector/monitor.py:71-81 | so they always agree when no string is present and empty |
| Stores.EditionsCanDiffer | src/collector/monitor.py:74-80 | a store and a poll on which they differ |
| Daemon.Loop | src/cpp/collector/main.cpp:233-248 | the main loop commits exactly the changes of its specification to the store and stops when told |
| Daemon.LoopExactly | src/cpp/collector/main.cpp:233-248 | exactly what the loop does, whatever fails: it stops exactly if some wait never sees the next period, and commits, in order, every reached poll that succeeded and a purge whenever every completed one is over an hour old |
| Daemon.NothingIsMissing | src/cpp/collector/main.cpp:233-243 | so every successful poll of a reached pass is recorded, and both deletions of a due purge that did not fail |
| Daemon.Pass | src/cpp/collector/main.cpp:235-243 | one pass: a failed poll changes nothing and skips the purge; a due purge follows a successful poll |
| Daemon.RecordTurn | src/cpp/collector/main.cpp:195 | the poll of a pass is recorded as one change |
| Daemon.PurgeIsTwoDrops | src/cpp/collector/main.cpp:177-183 | a purge is its two deletions, one after the other |
| Daemon.PurgeTurn | src/cpp/collector/main.cpp:237-240 | a purge that fails half way keeps what it committed and does not count as done |
| Daemon.Wait | src/cpp/collector/main.cpp:245-247 | the wait ends at the first clock reading at or after the next boundary, or by the stop signal |
| Daemon.ReleasedIs | src/cpp/collector/main.cpp:245-247 | a wait is released exactly if some clock reading falls into a later period than the end of the pass |
| Daemon.WakeIsNext | src/cpp/collector/main.cpp:245 | the boundary waited for is the very next one |
| Daemon.WakeFloor | src/cpp/collector/main.cpp:193-245 | a poll after the boundary is recorded at or after it |
| Daemon.LoopIncreases | src/cpp/collector/main.cpp:192-248 | recorded times strictly increase in every run, whatever polls fail or overrun |
| Daemon.LoopSources | src/cpp/collector/main.cpp:192-195 | recorded times are multiples of the period taken from the clock, records hold what was polled, cutoffs are retention behind the clock |
| Daemon.LoopPolls | src/cpp/collector/main.cpp:192-248 | every run of the loop on a store with no row after the first poll boundary, as after a quick restart, meets the hypotheses of the log theorems; those about polls that name each channel once if its polls do and the rows are older |
| Daemon.DaemonAnswersSomeEntry | src/cpp/collector/main.cpp:192-248 | whatever the API returns, the daemon's store answers with something said at the last time its polls say anything; it says nothing only if they do, or the row was forgotten, and then it is older than the retention and replaced |
| Daemon.DaemonAnswersTheLog | src/cpp/collector/main.cpp:192-248 | if no poll names a channel twice, the daemon's store answers exactly like the log of its own polls, unless that was forgotten |
| Daemon.DaemonKeepsSamples | src/cpp/collector/main.cpp:192-248 | each poll's sample reads back as polled, exactly until a purge covers its time; at least as long as the retention of the last pass does not |
| Daemon.LoopRetains | src/cpp/collector/main.cpp:236-240 | the last completed purge bounds the age of every sample not recorded after it, and is at most an hour old after a successful pass; and every sample polled within the retention of the last pass is there |
| Fetch.FetchTopLives | src/cpp/collector/main.cpp:89-131 | the page loop computes its specification for every pager |
| Fetch.TopExactly | src/cpp/collector/main.cpp:89-131 | for every pager: asks again exactly as long as entries are missing and pages go on, throws exactly if the last request failed, and returns the named entries of all its pages, cut to topN |
| Fetch.NamedIs | src/cpp/collector/main.cpp:109-121 | collecting keeps exactly the entries with an id, in order |
| Fetch.NothingIsCut | src/cpp/collector/main.cpp:93 | no request asks for more than 20 or than is missing: from a pager that keeps to the size nothing is cut off |
| Fetch.TopIsAPrefix | src/cpp/collector/main.cpp:92-129 | at most topN requests and at most topN entries, a prefix of the named entries of the requested pages |
| Fetch.NegativeTopThrows | src/cpp/collector/main.cpp:92-129 | a negative topN, and only that, throws without a request |
| Fetch.OffsetPagerGivesTheTop | src/cpp/collector/main.cpp:89-131 | over a fixed list of named entries: exactly its first topN, in as few requests of 20 as hold them |
| Queries.InfoAscending | src/cpp/push/main.cpp:55-60 | the two halves of the UNION ALL never share a row and the answer is strictly ascending |
| Queries.Scan | src/cpp/push/main.cpp:53-54 | a scan of the table in any order finds one channel's rows of a window and sorts them by time |
| Queries.ScanInForce | src/cpp/push/main.cpp:56-57 | a scan finds the newest row not after a time |
| Queries.Samples | src/cpp/push/main.cpp:85-107 | scanning the two tables gives exactly the channel's points and changes of the window, in order |
| Queries.PointsAreTheWindow | src/cpp/push/main.cpp:53-54 | the points are exactly the channel's samples in the window, strictly ascending |
| Queries.EveryPollIsAPoint | src/cpp/push/main.cpp:85-95 | a poll alone at its time is a point of every window that holds it, with the number of its first entry for the channel, exactly as long as no later deletion covers it |
| Queries.Tooltip | src/mfc/MainDlg.cpp:800-801 | the client's scan finds the last row not after a time |
| Queries.WindowSeesWhatApplies | src/cpp/push/main.cpp:55-60 | for every table, window and time inside it, the scan over the answer finds the row in force in the whole table |
| Queries.TooltipTellsItsPoll | src/cpp/push/main.cpp:85-107 | whatever later polls and purges come before and between the two reads: every point returned is some poll's number, and the tooltip at it shows a pair said at that very time (by that very poll if alone; the one, if it named the channel once), or nothing exactly when that was forgotten |
| Queries.AnswersTheObservations | src/cpp/collector/main.cpp:155-185 | the exact answer of any run, repeated channels and equal times included: at every time the last row, not after it, of the compression of everything observed, unless that was forgotten |
| Queries.InsertRow | src/cpp/push/main.cpp:52 | keeps rows in the query's order and adds exactly one |
| Queries.Channels | src/cpp/push/main.cpp:66-83 | exactly the channels with a sample in seven days, each once, each row as the query computes it, in the query's order |
| Queries.ChannelsAreTheActive | src/cpp/push/main.cpp:48-52 | a row for exactly the channels with a sample since the time, with as many samples as a window from then on has points, in descending order of peak and then of last sighting |
| Queries.AnswersDifferInTies | src/cpp/push/main.cpp:48-52 | the channels query determines its answer: two answers have the same rows and the same order keys at every place |
| Queries.Totals | src/cpp/push/main.cpp:61-62 | one scan counts the samples and finds the least and greatest time |
| Queries.SoundRow | src/cpp/push/main.cpp:48-52 | on a sound store every row has a sample, its last sighting among them, and current <= peak |
| Queries.ChannelsMakeSense | src/cpp/push/main.cpp:66-83 | after any run with nondecreasing record times and any purges, at any query time: samples >= 1, first_seen <= last_seen, the null fallback never fires, current <= peak, and peak is the greatest recent number |
| Queries.ChannelsTellSightings | src/cpp/push/main.cpp:48-52 | a row's name and times are the last name and the first and last time in the whole log, purged polls included |
| Queries.ChannelsMakeSenseExactly | src/cpp/push/main.cpp:47-52 | for any run and any record times: first seen is not after last seen exactly when the first sighting is not after the last, and the current number is the last sighting's sample exactly when a poll saw it and no later deletion covers it, else the fallback |
| Queries.DaemonChannelsMakeSense | src/cpp/push/main.cpp:66-83 | the same for the daemon's own loop from an empty store |
| Queries.BackwardsClockBreaksChannels | src/cpp/push/main.cpp:78 | with decreasing record times a row can have first_seen > last_seen and the fallback 0 |
| Lines.Chunk | src/cpp/push/main.cpp:244-261 | splitting a stream into chunks at any place does not change the lines handled nor the bytes held |
| Lines.FirstLine | src/cpp/push/main.cpp:257-260 | taking the first line off a buffer takes the first line off what is to be handled |
| Lines.LineTaken | src/cpp/push/main.cpp:257-260 | lines handled plus lines to come stay the same when the first is taken |
| Lines.FrameRoundTrip | src/cpp/push/main.cpp:312-322 | a stream of framed messages reads back as the messages |
| Lines.PrefixOfFrames | src/mfc/StreamClient.cpp:283-300 | any beginning of it reads back as the first messages, unsplit and in order |
| Lines.Find | src/cpp/push/main.cpp:257 | finds the first newline, or the length if there is none |
| Protocol.WindowOf | src/cpp/push/main.cpp:292-299 | an accepted window is 0 to 30 days long, keeps the positive bounds given, and is the last day by default |
| Protocol.Respond | src/cpp/push/main.cpp:270-310 | every line gets one answer with its own id, of its own type or an error with its code and text; a window exactly for a well-formed samples request |
| Protocol.Answer | src/cpp/push/main.cpp:270-310 | the handler, default window, checks and queries step by step, each statement on the store it finds, gives that answer |
| Protocol.AnswersAreComplete | src/cpp/push/main.cpp:284-306 | a window answer holds exactly the samples of its window when the points are read, and its changes tell at every time in it what the database tells when the changes are read; a channel list has the rows of the channels query up to ties; statistics count the samples and bound their times tightly |
| Protocol.EndToEnd | src/cpp/push/main.cpp:270-343 | for every splitting of both byte streams the client handles the first enqueued messages, and the k-th that is neither ping nor bye answers its k-th line |
| Peers.ReadOpens | src/cpp/push/main.cpp:245-256 | a drain leaves the connection open exactly when it ends in EAGAIN and buffer plus new bytes, complete lines included, are at most 64 KiB; then all of them are in the buffer |
| Peers.CalmAgainstTheRule | src/cpp/push/main.cpp:245-256 | a drain that ends in EAGAIN closes the connection exactly for an unfinished line over 64 KiB, if and only if all bytes fit in 64 KiB or the unfinished line alone does not |
| Peers.CompleteLinesCount | src/cpp/push/main.cpp:250-252 | an input that breaks the documented rule: two complete lines of 32 KiB and nothing unfinished, closed with both unhandled |
| Peers.ReadGood | src/cpp/push/main.cpp:245-256 | a drain keeps bytes accounted for; a close during it leaves the log in order |
| Peers.AnswerAnswered | src/cpp/push/main.cpp:276-321 | answering a line appends one framed reply that answers it, and sets hello exactly if it says hello |
| Peers.LineAccounted | src/cpp/push/main.cpp:257-260 | handling the first line keeps replies and handled lines one for one |
| Peers.ExtractGood | src/cpp/push/main.cpp:257-261 | handling all lines leaves a buffer without newline and bytes and replies accounted for |
| Peers.ExtractExactly | src/cpp/push/main.cpp:257-261 | handling the buffer answers exactly its complete non-empty lines, in order |
| Peers.FramingIsExact | src/cpp/push/main.cpp:244-262 | between events the handled lines are the non-empty lines received and the buffer is the unfinished line |
| Peers.FlushGood | src/cpp/push/main.cpp:330-343 | a flush keeps sent plus buffered equal to the framed messages, arms EPOLLOUT exactly when something is left, and leaves at most 4 MiB |
| Peers.FlushSends | src/cpp/push/main.cpp:330-343 | it sends all the socket takes, or all there is |
| Peers.FlushCloses | src/cpp/push/main.cpp:330-343 | it gives up exactly when a send fails, takes nothing, or blocks with more than 4 MiB left |
| Peers.FlushExactly | src/cpp/push/main.cpp:330-343 | a flush gives up exactly when a send fails, takes nothing or blocks with too much left; otherwise it sends exactly what the socket takes, or all, and arms EPOLLOUT for the rest |
| Peers.ReadyGood | src/cpp/push/main.cpp:239-267 | a readiness event keeps every invariant of its connection or closes it with its log in order |
| Peers.ReadyExactly | src/cpp/push/main.cpp:239-267 | exactly what a readiness event does: it closes only on hang-up, a failed or too long drain, or a due flush that gives up; otherwise input is drained and handled and as much sent as the socket takes, for input and for output |
| Peers.InputIsAnswered | src/cpp/push/main.cpp:244-261 | all that came in is received, every complete non-empty line of buffer plus input answered in order by one framed reply, the unfinished one kept |
| Peers.TickGood | src/cpp/push/main.cpp:223-237 | a tick keeps every invariant, including 30 x pings <= last_ping - opened_at; a survivor has said hello or is at most 60 s old, and was pinged less than 30 s ago |
| Peers.TickDrops | src/cpp/push/main.cpp:228-236 | a tick drops exactly those that never said hello and are over 60 s old, and those whose due ping cannot be sent |
| Peers.TickExactly | src/cpp/push/main.cpp:223-237 | a survivor of a tick has one more ping, flushed, if and only if it was due, and only then does its last_ping move; others are untouched |
| Relay.Server.AcceptAll | src/cpp/push/main.cpp:190-205 | every accepted descriptor becomes a fresh connection: empty buffers, opened and last pinged now, no hello, EPOLLOUT off |
| Relay.Server.Close | src/cpp/push/main.cpp:207-214 | the connection leaves the map, its log is kept, nothing else changes |
| Relay.Server.Drain | src/cpp/push/main.cpp:245-256 | receives until EAGAIN, appending what comes; false on close, error or more than 64 KiB; other connections untouched |
| Relay.Server.Handle | src/cpp/push/main.cpp:270-310 | one request line appends exactly one framed answer, and sets hello if it says hello |
| Relay.Server.HandleFirst | src/cpp/push/main.cpp:258-260 | takes one line off the buffer and handles it unless it is empty |
| Relay.Server.HandleLines | src/cpp/push/main.cpp:257-261 | takes every complete line off the buffer and handles the non-empty ones in order |
| Relay.Server.FlushOut | src/cpp/push/main.cpp:330-343 | sends until empty or blocked and sets EPOLLOUT accordingly; false if the connection must be closed; returns the unused results of send |
| Relay.Server.OnReadable | src/cpp/push/main.cpp:244-263 | drains, handles every line, then flushes; false if the connection must be closed |
| Relay.Server.OnConn | src/cpp/push/main.cpp:239-267 | hang-up closes; input is drained, handled and flushed; writability flushes; any failure closes; other connections and unknown descriptors are untouched |
| Relay.Server.PingAll | src/cpp/push/main.cpp:226-235 | visits every connection once: marks late ones and those whose ping cannot be sent, pings those due |
| Relay.Server.OnTimer | src/cpp/push/main.cpp:223-237 | pings whom it is due to, then drops exactly the marked connections |
| Relay.Server.Serve | src/cpp/push/main.cpp:173-179 | each kind of event has the effect of its step |
| Relay.Server.ByeTo | src/cpp/push/main.cpp:182 | bye is enqueued for one connection and flushed once |
| Relay.Server.SayBye | src/cpp/push/main.cpp:182 | enqueues bye for every connection and flushes each once |
| Relay.Server.Run | src/cpp/push/main.cpp:168-184 | the event loop serves whole batches until told to stop, then says bye |
| Relay.AcceptExactly | src/cpp/push/main.cpp:190-205 | every accepted descriptor has a fresh connection opened and pinged now, others stay, displaced logs are kept |
| Relay.OthersStay | src/cpp/push/main.cpp:239-267 | a readiness event changes its own connection only |
| Relay.ReadyStep | src/cpp/push/main.cpp:239-267 | and that stays exactly if neither hang-up nor drain nor a due flush ends it |
| Relay.TickStep | src/cpp/push/main.cpp:223-237 | a tick removes exactly the late and those whose due ping cannot be sent, pings exactly the due, and leaves the rest as they are |
| Relay.OnlySignalsStop | src/cpp/push/main.cpp:173-180 | the relay is told to stop exactly by a signal |
| Relay.AllServed | src/cpp/push/main.cpp:168-180 | as long as no signal came every event is served |
| Relay.NoneServedAfterASignal | src/cpp/push/main.cpp:168-180 | with the first signal its batch is served to the end and nothing after it |
| Relay.FarewellSaysBye | src/cpp/push/main.cpp:182 | at shutdown every open connection has bye as its last message, sent as far as the socket takes it, and nothing else of it changes |
| Relay.StepHealthy | src/cpp/push/main.cpp:168-267 | every event keeps every connection good and every closed log in order |
| Relay.TickHealthy | src/cpp/push/main.cpp:223-237 | after every tick every survivor has been attended to in time |
| Relay.RunHealthy | src/cpp/push/main.cpp:168-267 | over every run, between events: key equals fd, EPOLLOUT armed exactly when output is buffered, at most 4 MiB and 64 KiB buffered, bytes, lines, replies and pings accounted for |
| Relay.EveryLineIsAnswered | src/cpp/push/main.cpp:168-267 | over every run from no connections: for each open one exactly the complete non-empty lines of all that came in since it was accepted are handled, each with its reply |
| Relay.ShutdownInOrder | src/cpp/push/main.cpp:182 | shutting down leaves every log in order, bye included |
| Relay.BatchesAreSteps | src/cpp/push/main.cpp:168-180 | serving batches until the stop signal is serving their events one by one |
| Relay.LifeInOrder | src/cpp/push/main.cpp:168-184 | over a whole life of the relay the log of every connection there ever was is in order |
| Client.StreamClient.SendLine | src/mfc/StreamClient.cpp:189-201 | puts on the wire exactly what the sends take of the line and its newline; true exactly when that is all of it; false leaves the socket open |
| Client.OutIs | src/mfc/StreamClient.cpp:194-200 | a send gets out everything, or all that its sends take before one that takes nothing |
| Client.WireIsFramed | src/mfc/StreamClient.cpp:189-201 | as long as nothing goes out after a line that was cut off, the wire holds a beginning of the framed requests |
| Client.WireExact | src/mfc/StreamClient.cpp:189-201 | for every series of calls and results of send: the wire holds a beginning of the framed requests exactly when every call sends what comes next in them |
| Client.AfterACut | src/mfc/StreamClient.cpp:194-200 | after whole lines and one cut off in part, a line whose first byte is not in that part keeps the order exactly when nothing of it goes out |
| Client.SeriesExact | src/mfc/StreamClient.cpp:189-201 | for a series of lines that open with a byte found nowhere else in them: what goes out is a beginning of the framed requests of which anything went out exactly when none that was cut off is followed by another |
| Client.GluedLine | src/mfc/StreamClient.cpp:194-200 | on the wire: a line sent after one cut off at k bytes is glued to it and handled as one line, for k = 0 as itself, the first being lost; the order is kept exactly when it is the missing rest |
| Client.StreamClient.TakeChunk | src/mfc/StreamClient.cpp:294-299 | handles the complete non-empty lines of buffer plus chunk, keeps the unfinished one |
| Client.StreamClient.Receive | src/mfc/StreamClient.cpp:279-302 | however the bytes are chunked, the lines handled are the non-empty lines of all that came in |
| Client.ArrivedIs | src/mfc/StreamClient.cpp:279-302 | what comes in is every chunk up to the first end, timeouts aside, and nothing after it |
| Client.ReadPoints | src/mfc/StreamClient.cpp:239-244 | keeps exactly the points whose number is a 32-bit integer, in order |
| Client.FittingIsAll | src/mfc/StreamClient.cpp:239-244 | the client keeps exactly the points whose number fits 32 bits, so all of them exactly when every number does |
| Client.FittingAscends | src/mfc/StreamClient.cpp:239-244 | points in time order stay so |
| Client.KthReply | src/mfc/StreamClient.cpp:283-300 | the k-th reply a client handles answers its k-th request, with what the server found then |
| Client.WindowTellsItsPolls | src/mfc/StreamClient.cpp:234-258 | every point kept of a window read during a run, points and changes by two reads, is some poll's number, shown with a pair said at its time, or with none exactly when that was forgotten |
| Client.FromPollToTooltip | src/mfc/StreamClient.cpp:234-258 | from poll to screen, over a whole life of the relay with the collector running: the k-th reply answers the k-th request of which anything went out, each of its points is some poll's number, shown with a pair said at its time, or with none exactly when that was forgotten |
| Client.FromDaemonToTooltip | src/mfc/StreamClient.cpp:234-258 | on the collector's own store: each point is the number one of its passes polled, at the poll boundary of its clock, shown with what that pass polled, or with none exactly when that was forgotten |
| Client.ChannelListMakesSense | src/cpp/push/main.cpp:285-286 | every row of a channel list on the wire makes sense |
| Axis.FindStep | src/mfc/MainDlg.cpp:445-447 | the search ends, without 32-bit overflow, at the least step of 1, 2, 5 times a power of ten with vmax/step at most 5 |
| Axis.TryDecade | src/mfc/MainDlg.cpp:447 | the inner loop finds the step among 1, 2 and 5 times the base, or there is none below ten times the base |
| Axis.AxisStep | src/mfc/MainDlg.cpp:443-449 | returns that step and ymax = (vmax/step + 1) * step, every operation within 32 bits |
| Axis.StepFits | src/mfc/MainDlg.cpp:449 | ymax fits 32 bits exactly below 2,000,000,000 viewers |
| Axis.AxisShape | src/mfc/MainDlg.cpp:449 | ymax is a multiple of the step above vmax with at most six lines, and at least three from six viewers on |
| Hover.LowerBound | src/mfc/MainDlg.cpp:877-878 | the first index whose time is not before the given one, by halving |
| Hover.Nearest | src/mfc/MainDlg.cpp:877-885 | the lower bound and its predecessor yield the nearest sample of the span, of two equally near the later |
| Hover.InPlot | src/mfc/MainDlg.cpp:874 | a column inside the plot stands for a time inside it |
| Hover.Pick | src/mfc/MainDlg.cpp:874-888 | the nearest sample if any is within twelve pixels, otherwise none |
| Hover.PickedIsNear | src/mfc/MainDlg.cpp:874-888 | nothing more than twelve pixels away, or outside the week asked for, is picked |
| Hover.RoundTrip | src/mfc/MainDlg.cpp:874-903 | drawing and pointing back loses less than kWeek/width + 1 seconds |
| Hover.DrawnSampleIsPicked | src/mfc/MainDlg.cpp:869-890 | for 1 <= width <= length in seconds, pointing at the column of any drawn sample picks a sample at least as near |
| Hover.DrawnWeekSampleIsPicked | src/mfc/MainDlg.cpp:869-890 | in the view of a week, pointing at the column of any sample drawn in it picks a sample of it |
| Labels.Columns | src/mfc/MainDlg.cpp:578-586 | the highest and lowest sample of every column |
| Labels.BandCovers | src/mfc/MainDlg.cpp:580-586 | every sample of the week is within its column's interval |
| Labels.BandIsTight | src/mfc/MainDlg.cpp:578-586 | a column interval covers its samples, each end is one of them, and without samples it is (INT_MAX, INT_MIN) |
| Labels.CheckLine | src/mfc/MainDlg.cpp:587-596 | whether the line comes within three pixels of a rectangle |
| Labels.CheckLabels | src/mfc/MainDlg.cpp:598-604 | whether a placed label meets the inflated rectangle |
| Labels.CountCrossings | src/mfc/MainDlg.cpp:610-621 | the columns in which a leader crosses the line |
| Labels.CrossingsFrom | src/mfc/MainDlg.cpp:610-621 | the crossings are the number of leader steps from the fourth on that enter a column within a pixel of the line |
| Labels.ScoresAreModest | src/mfc/MainDlg.cpp:639-656 | scores of candidates stay below the sentinel |
| Labels.Evaluate | src/mfc/MainDlg.cpp:643-652 | says exactly whether a candidate is feasible, and its score if so |
| Labels.ScanRow | src/mfc/MainDlg.cpp:642-654 | scans one row of the grid, keeping the first feasible candidate of least score so far |
| Labels.PlaceOne | src/mfc/MainDlg.cpp:637-656 | the first of least score among all feasible candidates of the grid, or none |
| Labels.PlaceEntry | src/mfc/MainDlg.cpp:626-656 | anchors an entry at the first sample not before it and places its label against the labels so far |
| Labels.AnchorIs | src/mfc/MainDlg.cpp:627-632 | a change is anchored at the row of the first sample not before it, if that is of the week |
| Labels.NoAnchor | src/mfc/MainDlg.cpp:627-632 | and at the foot of the band if there is none |
| Labels.PlaceAll | src/mfc/MainDlg.cpp:626-661 | every entry of the week, in order, against the labels before it |
| Labels.DrawnInBand | src/mfc/MainDlg.cpp:572-573 | samples on the axis are drawn inside the band and the plot |
| Labels.DrawnToScale | src/mfc/MainDlg.cpp:572-573 | times and numbers are drawn to scale, to the pixel below |
| Labels.NumberInBand | src/mfc/MainDlg.cpp:573 | numbers on the axis are drawn in the band, whatever their time |
| Labels.NegativeIsBelow | src/mfc/MainDlg.cpp:573 | a negative number is drawn on the lower edge of the band or below it |
| Labels.LabelInside | src/mfc/MainDlg.cpp:640-660 | every label lies inside the plot, is feasible and as large as its text asks |
| Labels.LabelsApart | src/mfc/MainDlg.cpp:597-604 | any two labels are at least three pixels apart on some axis |
| Labels.LabelsClear | src/mfc/MainDlg.cpp:577-596 | a label in the band is more than three pixels from every sample, one outside it has none inside but negative samples drawn below the band |
| Labels.NegativeCanBeCovered | src/mfc/MainDlg.cpp:642-646 | weeks in which a label is put on a negative sample |
| Labels.MarkerOnlyIfFull | src/mfc/MainDlg.cpp:656-659 | a bare marker is drawn exactly when no candidate of the grid is feasible |
| Labels.MarkerMeansFull | src/mfc/MainDlg.cpp:637-659 | in terms of samples and labels: exactly when at every spot an earlier label is less than three pixels away or, in the band, a column within three pixels has a sample not below the label and one not above it |
| Labels.LabelIsBest | src/mfc/MainDlg.cpp:637-656 | a label is on a free spot of least cost, of equals the topmost, then leftmost: distance, 40 for reaching into the band, 25 for each column where the leader crosses the line, 20 for less than six pixels |
| Chart.LabelRows | src/mfc/MainDlg.cpp:474-480 | no, one or two label rows for none, up to six, or more changes in the week |
| Chart.ChangesIs | src/mfc/MainDlg.cpp:474-480 | the changes of a week are counted by their number with a time in it |
| Chart.Band | src/mfc/MainDlg.cpp:485-488 | the plot less its label rows, or the whole plot if less than 40 pixels would be left |
| Chart.PlotWeek | src/mfc/MainDlg.cpp:482-488 | a plot has a band that leaves room for the labels of its own week |
| Chart.Greatest | src/mfc/MainDlg.cpp:443-444 | the greatest number, at least 0 |
| Chart.Layout | src/mfc/MainDlg.cpp:442-461 | two plots, at these coordinates one above the other, exactly when the area is large enough, each with the band of its own week, every number on the axis |
| Chart.PlacedIsAnnotated | src/mfc/MainDlg.cpp:570-676 | a placement has a mark for every entry, and labels inside, apart and clear, but for negative samples below the band |
| Chart.Annotate | src/mfc/MainDlg.cpp:442-562 | for every area, samples in time order drawn within 32 bits, negative ones included, and changes: both weeks are laid out and labelled so |
| Dialog.WeekStartIsSunday | src/mfc/MainDlg.cpp:418-422 | the week start is Sunday 00:00 KST and its week holds the time |
| Dialog.TwoWeeksAccepted | src/mfc/MainDlg.cpp:332-335 | the two-week request is 7 to 14 days long and is echoed unchanged exactly when it starts after the epoch |
| Dialog.DayRequestsAre | src/mfc/MainDlg.cpp:315-318 | both windows of every listed channel are asked for, and nothing else |
| Dialog.DayRequestsAt | src/mfc/MainDlg.cpp:315-318 | in the order of the list, the day before now first |
| Dialog.DayRequestsAccepted | src/mfc/MainDlg.cpp:303-318 | the 24-hour window starts a day ago down to the minute, and the relay echoes each request unchanged |
| Dialog.DayAnswersFindTheirMap | src/mfc/MainDlg.cpp:350-362 | last week's answer goes to last week's map exactly while the window moved less than 300 s; the current one to the current map unless it moved about a week |
| Dialog.TwoWeekAnswerIsSingle | src/mfc/MainDlg.cpp:350-364 | a two-week answer is never taken for a 24-hour one |
| Dialog.UnlistedIsSingle | src/mfc/MainDlg.cpp:350-364 | an answer of a channel that is not listed, or any before the 24-hour view was asked for, counts as one for the two-week view |
| Dialog.MainDlg.RequestMulti | src/mfc/MainDlg.cpp:301-321 | ten channels listed, other answers forgotten, two windows asked for each |
| Dialog.MainDlg.Query | src/mfc/MainDlg.cpp:323-344 | asks for the selected channel from last week's Sunday to now and remembers it if sent; changes nothing otherwise |
| Dialog.MainDlg.OnTimer | src/mfc/MainDlg.cpp:189-201 | asks for the channel list and again for what is shown, with the week or window of now; in the 24-hour view the list and the window move as well |
| Dialog.MainDlg.OnSamples | src/mfc/MainDlg.cpp:346-366 | an answer goes to its place, or nowhere; only listed channels ever have 24-hour answers; the points of every kept answer are in time order |
| Dialog.MainDlg.UpdateHover | src/mfc/MainDlg.cpp:843-896 | what the mouse points at, in either view |
| Dialog.PointMulti | src/mfc/MainDlg.cpp:845-865 | the row under the mouse and the nearest of all its samples within twelve pixels |
| Dialog.PointSingle | src/mfc/MainDlg.cpp:869-891 | the week under the mouse and the nearest of that week's samples within twelve pixels |
| Dialog.FindRow | src/mfc/MainDlg.cpp:847-848 | the first row with the point in it |
| Dialog.Forget | src/mfc/MainDlg.cpp:309-314 | exactly the answers of channels no longer listed are dropped, others kept |
| Dialog.AskAll | src/mfc/MainDlg.cpp:315-318 | two requests per channel |

## Left out

- Runs.AnswersTheLog: is about polls at increasing times that name each channel once, where the log says one thing
  at a time. Without that the log says several; `Queries.AnswersTheObservations`, `Runs.AnswersSomeEntry`,
  `Runs.RunHistory` and `Queries.TooltipTellsItsPoll` cover those runs.
- Client.FromDaemonToTooltip: supposes that the client's calls are seamless, which the code does not enforce
  (`Client.WireExact`).
- Labels.MarkerMeansFull: like `Labels.LabelIsBest` supposes that no sample is drawn at the very last row of a 32-bit
  int, which the code uses as its mark for an empty column.
- Chart.Annotate: negative viewer counts so large that the drawing arithmetic leaves 32 bits are not covered.
- Relay.RunHealthy: does not model late kernel events for a reused descriptor, nor what an event for a closed
  connection would carry; such an event is ignored as in the code.
- Labels.Evaluate: scores are real numbers, the original's are doubles.
- libcurl, SQLite's internals, RapidJSON, sockets, epoll, timerfd, signalfd: only their results are modelled.
- The draw calls, fonts, colours, window placement and message pump of the client; sorting and filling of its list.
- The SSH tunnel, Winsock set-up and UTF-8 conversion of the client; its reconnect delays.
- Token storage, `.env` loading, logging, deployment and service files.
- The Python relay, which serves the same queries and protocol over asyncio, and the Python main loop.
- An exception from `purge` inside one DELETE statement: SQLite undoes a statement that fails.
