# Verification of the multi-client buffer queue and the zero-copy payload path

Pulsevideo hands raw video to many readers at once. One sink element keeps a single queue of buffers, newest first,
and a list of clients, each with a cursor into that queue; sockets are fed as fast as they take data, slow clients are
recovered or removed, and the queue is trimmed behind the slowest one. The frames themselves stay in files: what is
sent is a descriptor and a 24-byte message saying which part of the file is meant.

This project models both in Dafny and proves what they are for. `dafny verify dfyconfig.toml` checks everything.

## How the model is built

- `Sink.dfy` and `Clients.dfy` describe the element as a state machine on values. A step is one of eleven events:
  adding, removing, both halves of an interrupted removal, flushing, clearing, new caps, rendering, a socket event with
  any sequence of replies, starting, stopping. A run is any sequence of them.
- `MultiSocketSink.dfy` and `SocketClient.dfy` are the same element as objects: fields updated in place, loops with
  cookies and restarts, arrays of vectors. Every method is proved to do what the function of the value model does, and
  `Dispatch` keeps the complete invariant on the object.
- Each client carries a trail (bytes on its wire, items queued to it, stream numbers picked, references taken and
  given back, visits, where it was given up), and the sink a history of the stream. No step depends on either. After
  `S` buffers index `p` holds number `S - 1 - p`; a client's next number is `S - 1 - bufpos`.
- `SinkSafety.dfy`, `QueueSafety.dfy`, `WriteSafety.dfy` and `ClientSafety.dfy` prove the invariant step by step;
  `Runs.dfy`, `RunFacts.dfy`, `Restarts.dfy`, `Repeats.dfy`, `Lag.dfy`, `Retention.dfy`, `Bounds.dfy`, `Membership.dfy`,
  `Draining.dfy`, `Outcomes.dfy`, `Events.dfy` and `Streams.dfy` hold the results, most of them about whole runs, and
  `Witnesses.dfy` and `SoloRuns.dfy` the runs that show where a promise fails. `Headers.dfy` is about the order of what
  is queued; `Limits.dfy`, `Positions.dfy` and `Vectors.dfy` are the searches and scans below them.
- `FdMemory.dfy`, `Payload.dfy` and `SocketSrc.dfy` model the counted mapping of file memory, the two payload elements
  with their allocator, and the reconnecting reader. `EndToEnd.dfy` joins the two paths.

The walk of a queueing pass starts over when it has removed a slow client that was not the last one. Positions survive
this (`Runs.CursorsStayInside`); numbers do not always. `Restarts.EverybodyIsVisitedOnceIff` says exactly when
somebody is advanced twice, `RunFacts.NumbersAreAccounted` accounts for it in every run and bounds it by the number of
clients removed as slow, `Witnesses.RestartRepeatsANumber` is a run in which a client receives a buffer twice, and
`RunFacts.EveryGapIsCounted` is the exact account for all other runs.

## Where the code and its documentation disagree

The model follows the code in each case.

- `gst/tcp/gstmultihandlesink.c:89-90` says that the recovery policy latest sends the most recently received buffer
  next. The cursor is set to -1 instead, so the next buffer is the first to arrive later (`Bounds.ResyncLatestWaits`).
- `gst/tcp/gstmultihandlesink.c:92-93` says that the recovery policy keyframe moves to the most recent keyframe. The
  code takes the one closest to what the client has received (`SoloRuns.KeyframeRecoveryTakesTheOldest` is a run,
  `Bounds.ResyncKeyframeIsNewestIff` the exact condition).
- `gst/tcp/gstmultihandlesink.c:61-62` says that at least one keyframe is always kept with the latest-keyframe method.
  A soft limit cuts the search short: `Witnesses.SoftLimitLosesKeyframe` is a run that loses the only keyframe, and
  `Bounds.KeyframeKeptIff`, `Bounds.KeyframeKeptUnderRecoveryIff` and `Bounds.KeyframeKeptAfterWalk` say when one is
  kept. Without a soft limit the promise holds after every run (`Retention.NewestSyncIsQueued`).
- `gst/tcp/gstmultihandlesink.c:71-76` promises a minimum amount of data for bytes and time. For timestamps that do
  not go back it holds once something has been trimmed (`Retention.MinimaAreRetained`). A timestamp that goes back
  makes the unsigned age wrap around (`Witnesses.BackwardTimestampDropsTooMuch`); `Retention.TimeMinIsKeptIff` names the
  timestamps that mislead the test, and says when the age is kept in spite of them.
- `gst/tcp/gstmultihandlesink.c:352-356` calls buffers-min the minimum number of buffers to queue. A queue that has
  reached it is trimmed as if it were not set (`Witnesses.BuffersMinDropsTooMuch` is a run,
  `Retention.BuffersMinIsKeptIff` the exact condition).
- With `resend-streamheader` off a client can hold headers that are out of date: `SoloRuns.HeadersAreHeldBack` is a run,
  `Runs.HeadersInForceIff` says for each buffer of every run whether its headers are in force.
- Asking a file memory for a share of everything from an offset on ignores the memory's own offset
  (`FdMemories.ShareOfRestFitsIff`).
- The depayloader adds offset and size in 64 bits, so a sum that wraps can pass its check
  (`Payload.WrappedWindowIsAccepted`); `Payload.LengthCheckIsExactIff` says for which messages the check is exact.
- Stopping while another thread is between the two halves of a removal leaves that client on the list, without an
  entry in the table (`SoloRuns.StopDuringRemoval` is a run, `Membership.StopEmptiesIff` the exact condition).
- The payloader uses the file memory without a check when the copy has failed; the model calls that outcome `Crash`.

## Model

| member | source | states |
|---|---|---|
| Runs.StepInv | gst/tcp/gstmultihandlesink.c:640-2184 | Every operation of the element, in every state and with every parameter, keeps the whole invariant (cursors, numbers, delivery, references, headers, table, wakeups) if and only if it is not a stop while a removal is under way |
| Runs.CursorsStayInside | gst/tcp/gstmultihandlesink.c:1702-1836 | Index safety over every run, passes that remove slow clients and start over included: each cursor is -1 or an index of the queue, and the queue is the newest end of the stream |
| Runs.DeliveryIsExact | gst/tcp/gstmultisocketsink.c:772-841 | Whatever the sockets accept: the bytes a client (listed or gone) received are a prefix of what was queued to it, with the sending list from its offset they are all of it, `bytes_sent` is their number, and the data buffers queued are those of the stream that its log names |
| Outcomes.ClientLeavesIff | gst/tcp/gstmultisocketsink.c:721-869 | For every sequence of replies: a write event ends a client exactly if its flush ends (removed), or if the first reply that is not an acceptance is asked for while there is something to send and is a reset (closed) or a failure (failed); otherwise the client stays with its status and with all that is unsent |
| Outcomes.WriteUnrefused | gst/tcp/gstmultisocketsink.c:721-869 | While the socket accepts bytes a client stays with its status unless its flush ends; with nothing left to send it waits unwatched |
| Outcomes.WriteConserves | gst/tcp/gstmultisocketsink.c:721-869 | Bytes sent and bytes still ahead of a placed client add up to the same before and after a write event, whatever the replies |
| Outcomes.DrainFlushesIff | gst/tcp/gstmultisocketsink.c:766-771 | A socket that goes on taking bytes ends the flush exactly if as many buffers are ahead as are left to flush; any other client stays |
| Events.WritableSocket | gst/tcp/gstmultisocketsink.c:1002-1010 | A socket event that only allows writing: what the client sent, and that it leaves as removed, closed or failed, or stays, as its flush and the first refusing reply say |
| Events.ReadableSocket | gst/tcp/gstmultisocketsink.c:995-1001 | A readable socket, also if it is writable: the client leaves as closed if the first read finds the connection closed, as failed if a read fails behind reads that got data, and otherwise nothing changes |
| Events.NothingHappens | gst/tcp/gstmultisocketsink.c:963-979 | No condition, an unknown handle, or a client being removed: the event changes nothing |
| Events.ClientsLeaveIff | gst/tcp/gstmultisocketsink.c:954-1015 | Over every run: an event takes a client away exactly for an error, a hangup, a connection found closed, a failed read, an ended flush, a reset or a failed write |
| Events.SocketWindow | gst/tcp/gstmultihandlesink.c:921-1021 | An event whose removal stops in the unlocked window comes, with the second half, to the same as an uninterrupted one |
| Events.FlushCompletes | gst/tcp/gstmultisocketsink.c:766-771 | A flush that has begun ends with the next write event whose socket goes on taking bytes, with nothing left to send |
| Runs.ServedIsSent | gst/tcp/gstmultisocketsink.c:835-838 | The bytes served are those sent, since the last start, to all clients there were since then |
| Streams.StreamIsRendered | gst/tcp/gstmultihandlesink.c:1847-1952 | Over every run the stream is every data buffer rendered between a start and the next stop, in order, and nothing else |
| Streams.LastHeadersAreKept | gst/tcp/gstmultihandlesink.c:1911-1934 | The stream headers kept are the header buffers rendered last without data between them |
| Streams.CapsAreLastSet | gst/tcp/gstmultihandlesink.c:1023-1138 | The caps under which buffers are queued to clients are those last set |
| RunFacts.ToServeIsQueued | gst/tcp/gstmultihandlesink.c:1935-1941 | While the element runs, `bytes_to_serve` is the size of all data buffers queued since it was started |
| Runs.ReferencesBalance | gst/tcp/gstmultihandlesink.c:1826-1836 | At every moment the references taken and not given back are the queue, the stream headers and the sending lists; when the element is stopped none is left |
| Runs.NoLostWakeup | gst/tcp/gstmultihandlesink.c:1761-1766 | A client that can still send but is not watched has an empty sending list and waits at -1 |
| Runs.TableMatchesList | gst/tcp/gstmultihandlesink.c:670-688 | The handle table and the client list hold the same handles, none twice, after every run |
| Runs.HeadersPrecedeData | gst/tcp/gstmultihandlesink.c:1034-1135 | With resend on: every data buffer queued under caps with headers has exactly those headers as the latest header block before it |
| RunFacts.NumbersAreAccounted | gst/tcp/gstmultihandlesink.c:1727-1745 | Over every run and for every client, listed or gone: next number (for a client that was given up, at that moment) = start + picked + dropped - repeated visits, of which there are no more than clients were removed as slow; numbers strictly increase unless there were repeated visits |
| Runs.KeyframeIsFirst | gst/tcp/gstmultihandlesink.c:1456-1480 | A client added with a keyframe method that was given a start position received a sync frame first, also if it has left |
| Runs.FlushPicksWhatWasCounted | gst/tcp/gstmultihandlesink.c:802-808 | A flushing client, listed or gone, picks at most the buffers counted when the flush began, and exactly the first of them in order unless a recovery or a repeated visit moved it; once its flush has ended it picked as many as were counted and everything queued to it is on its wire |
| Restarts.EverybodyIsVisitedOnceIff | gst/tcp/gstmultihandlesink.c:1708-1723 | A queueing pass advances each client at least once, and each exactly once if and only if no client leaves as too slow that is neither the last nor preceded by leaving clients only |
| Restarts.EverybodyIsVisited | gst/tcp/gstmultihandlesink.c:1708-1723 | For each handle: a walk visits the clients it has ahead at least once, whatever restarts it goes through |
| Restarts.DisturbedVisits | gst/tcp/gstmultihandlesink.c:1720-1723 | A removal behind a client that stays makes some listed client be advanced twice |
| Restarts.UndisturbedUsage | gst/tcp/gstmultihandlesink.c:1767-1770 | The usage an undisturbed walk reports is the furthest cursor that its clients, as they were before, are advanced to |
| Restarts.UsageReaches | gst/tcp/gstmultihandlesink.c:1767-1770 | Whatever restarts a walk goes through, it reports at least the furthest cursor a first visit leads to |
| Repeats.PassRepeats | gst/tcp/gstmultihandlesink.c:1708-1771 | A walk repeats no client's visit more often than it removes clients, so that over all passes nobody is advanced again more often than clients were removed as slow |
| Restarts.UndisturbedInStep | gst/tcp/gstmultihandlesink.c:1708-1771 | If each client has been advanced once for every buffer since it was added, an undisturbed pass keeps that, for those it removes as well |
| RunFacts.EveryGapIsCounted | gst/tcp/gstmultihandlesink.c:1727-1745 | Over a run without disturbed passes, for every client, listed or gone: strictly increasing numbers, and next = start + picked + dropped, so each skipped buffer is counted and none repeats |
| RunFacts.NobodyIsKicked | gst/tcp/gstmultihandlesink.c:1731-1771 | With 0 < soft <= hard and resync to latest or keyframe no client is ever removed as slow, and nobody is ever advanced twice |
| RunFacts.NeverKicksIsBrisk | gst/tcp/gstmultihandlesink.c:1609-1655 | Under such a policy a visited cursor lies before the soft limit and is not too slow |
| RunFacts.BriskPass | gst/tcp/gstmultihandlesink.c:1708-1771 | A pass that finds nobody too slow advances each client once, in order, and changes nothing else |
| RunFacts.StepMild | gst/tcp/gstmultihandlesink.c:734-851 | Operations other than queueing, starting and stopping touch neither the queue nor the stream, advance nobody, find nobody slow, and note a client they give up where it was |
| Lag.LagIsBounded | gst/tcp/gstmultihandlesink.c:1696-1757 | After every queued buffer no listed client lags by more than units-max, measured in bytes, time or buffers; nor by more than units-soft-max when resynced to latest or keyframe |
| Lag.VisitMovesOnlyLaggards | gst/tcp/gstmultihandlesink.c:1727-1745 | A visit moves a cursor back by one buffer; it is moved elsewhere only if the data in front exceeds the soft limit, then to where the policy says; drops and the discontinuity flag tell exactly that |
| Lag.TooSlowIff | gst/tcp/gstmultihandlesink.c:1746-1759 | A client is too slow exactly if the data in front of it, after recovery, exceeds the hard limit, in the configured unit |
| Lag.WhoLeavesLagged | gst/tcp/gstmultihandlesink.c:1746-1759 | Whoever an enqueue removes leaves as slow and had more than the hard limit in front of it, restarts included |
| Lag.VisitWatches | gst/tcp/gstmultihandlesink.c:1761-1766 | A visit leaves every client that is served watched, since one that was not waited and now has a buffer to take |
| Lag.PassWithin | gst/tcp/gstmultihandlesink.c:1708-1771 | Every client a pass leaves lies before the hard limit and where its policy puts it, restarts included |
| Bounds.QueueIsBounded | gst/tcp/gstmultihandlesink.c:1773-1836 | Without minima and keyframe methods, and with a limit in bytes, time or buffers: after every run the queue without its oldest buffer does not exceed the limit, or it holds at most two buffers |
| Bounds.QueueHoldsNoMore | gst/tcp/gstmultihandlesink.c:1773-1836 | With a limit of n buffers the queue never holds more than max(n, 2) |
| Bounds.UsageIsCapped | gst/tcp/gstmultihandlesink.c:1767-1770 | The furthest cursor a pass reports lies before the limit, restarts included |
| Bounds.PulseVideoSettings | gst/gstpulsevideosink.c:138-145 | With the shipped settings the queue holds at most two buffers, nobody is removed as slow, and every gap is counted |
| Retention.MinimaAreRetained | gst/tcp/gstmultihandlesink.c:1773-1836 | With timestamps that do not go back: nothing has been trimmed since the start, or the queue holds bytes-min bytes and spans time-min, whatever the clients do |
| Retention.QueueBufferRetains | gst/tcp/gstmultihandlesink.c:1773-1836 | One enqueue keeps that property |
| Retention.TrimmedMeetsMinima | gst/tcp/gstmultihandlesink.c:1773-1790 | What is cut off lies behind the index at which the minima are met |
| Retention.TimeMinIsKeptIff | gst/tcp/gstmultihandlesink.c:1773-1836 | For any timestamps, told from the clients as they are before: an enqueue leaves everything or a real age of time-min if no timestamp later than the first, by an unsigned difference of time-min or more, comes before the buffer in front of the first one that is old enough, or all up to that one is kept for other reasons; and only then if nobody is advanced twice |
| Retention.TimeMinIsKeptAfterWalk | gst/tcp/gstmultihandlesink.c:1773-1836 | The same as an if and only if for every pass, in terms of the usage the walk reports |
| Retention.UsageOfPass | gst/tcp/gstmultihandlesink.c:1767-1770 | That usage is at least the furthest first visit, and exactly that unless somebody is advanced twice |
| Retention.OnlyLaterTimestampsMislead | gst/tcp/gstmultihandlesink.c:1313-1329 | An enqueue that trims to less than time-min has met a timestamp later than the first one |
| Witnesses.BackwardTimestampDropsTooMuch | gst/tcp/gstmultihandlesink.c:1313-1329 | A run: with time-min 100 and timestamps 980, 990, 1000, 950 the oldest buffer is dropped, though all four are not 100 apart |
| Retention.QueueAfter | gst/tcp/gstmultihandlesink.c:1826-1836 | The queue after an enqueue is the new buffer and a prefix of the old queue |
| Retention.BufferIsKeptIff | gst/tcp/gstmultihandlesink.c:1773-1836 | Buffer by buffer: an enqueue keeps a buffer exactly if a client uses it or one behind it, if the minima are not met in front of it or the queue is shorter than buffers-min, or if the first sync frame, within the soft limit, lies there and clients are to start on one; `buffers_queued` is the last index so kept |
| Retention.ShortQueueIsKept | gst/tcp/gstmultihandlesink.c:1274-1278 | A queue shorter than buffers-min is not trimmed |
| Retention.LongQueueIgnoresBuffersMin | gst/tcp/gstmultihandlesink.c:1274-1278 | From buffers-min buffers on that minimum has no effect, so that the queue may be trimmed below it |
| Retention.BuffersMinIsKeptIff | gst/tcp/gstmultihandlesink.c:1773-1836 | An enqueue leaves everything, or buffers-min buffers, exactly if the queue is shorter than that or the last of them is kept for another reason |
| Witnesses.BuffersMinDropsTooMuch | gst/tcp/gstmultihandlesink.c:1274-1278 | A run: with buffers-min 3 and nothing else set the third buffer makes the queue drop the first |
| Retention.QueueBufferKeepsSync | gst/tcp/gstmultihandlesink.c:1792-1820 | With a keyframe default method and no soft limit an enqueue keeps the newest sync frame |
| Retention.NewestSyncIsQueued | gst/tcp/gstmultihandlesink.c:1792-1820 | Then the newest sync frame since the start is queued, at the index its number says, after every run |
| Retention.StartsOnNewestSync | gst/tcp/gstmultihandlesink.c:1456-1480 | Then, after every run, a client about to start with the latest keyframe has nothing queued yet and first picks the newest sync frame |
| Retention.LoadsLatestKeyframe | gst/tcp/gstmultisocketsink.c:745-785 | A new client of that method picks the newest sync frame of the queue |
| Bounds.FlushIsComplete | gst/tcp/gstmultisocketsink.c:766-771 | When a flush ends all queued bytes are on the wire and exactly the counted buffers were picked |
| Bounds.ResyncLatestWaits | gst/tcp/gstmultihandlesink.c:1624-1627 | Resync to latest resumes with the next buffer to arrive, and counts everything before it as dropped |
| Bounds.ResyncKeyframeIsNewestIff | gst/tcp/gstmultihandlesink.c:1632-1647 | Resync to keyframe takes the keyframe closest to what the client received; it is the most recent one if and only if no other lies before the soft limit |
| SoloRuns.KeyframeRecoveryTakesTheOldest | gst/tcp/gstmultihandlesink.c:1632-1647 | A run: four keyframes and a soft limit of three; the client is moved to number 1, though number 3 is the most recent one |
| Bounds.KeyframeKeptIff | gst/tcp/gstmultihandlesink.c:1792-1820 | Told from the clients as they are before the enqueue: the queue keeps a keyframe if the newest one lies before the soft limit, or where a client that stays, or a minimum, reaches; and only then if nobody is advanced twice; a hard limit bounds where clients reach in every pass |
| Bounds.KeyframeKeptUnderRecoveryIff | gst/tcp/gstmultihandlesink.c:1792-1820 | When lagging clients are resynced to latest or keyframe: if and only if the newest one lies before the soft limit or within what the minima keep, whatever the clients are |
| Bounds.KeyframeKeptAfterWalk | gst/tcp/gstmultihandlesink.c:1792-1820 | For every walk, repeated visits included: the same in terms of the usage the walk reports |
| Witnesses.SoftLimitLosesKeyframe | gst/tcp/gstmultihandlesink.c:1800-1806 | A run: with a soft limit of one buffer the only keyframe is lost after two more frames |
| Headers.HeadersStayInForceIff | gst/tcp/gstmultihandlesink.c:1047-1084 | Headers stay in force when a buffer is queued if and only if resend is on or no changed headers were held back |
| Runs.HeadersInForceIff | gst/tcp/gstmultihandlesink.c:1034-1135 | Over every run, resend on or off, for a buffer queued under caps with headers: headers were sent before it, its own are in force if and only if they are those of the first buffer behind the last block, and they are unless changed headers have been held back since |
| Headers.InForceIff | gst/tcp/gstmultihandlesink.c:1034-1084 | That from the order of the items alone |
| Headers.QueueToLaidOut | gst/tcp/gstmultihandlesink.c:1023-1138 | Queueing a buffer keeps this order: a block exactly where headers are due, which is in front of the first buffer under caps with headers, behind one without, or, with resend on, where they change |
| SoloRuns.HeadersAreHeldBack | gst/tcp/gstmultihandlesink.c:1064-1084 | A run with resend off: a buffer is sent under caps whose headers the client never received |
| Witnesses.RestartRepeatsANumber | gst/tcp/gstmultihandlesink.c:1712-1727 | A run with three clients, the middle one too slow: the first is advanced twice and receives number 1 twice (its log is 0, 1, 1, 2) |
| Membership.RemoveTakesOut | gst/tcp/gstmultihandlesink.c:734-772 | Removing a client in order takes out exactly this one, as removed, with its references given back; for any other client it does nothing |
| Membership.RemoveUndoesAdd | gst/tcp/gstmultihandlesink.c:640-722 | Removing a client just added leaves everything else as it was |
| Membership.AddedIff | gst/tcp/gstmultihandlesink.c:640-722 | A client is added in front exactly if the element runs, the handle is free and the burst minimum is not above its maximum in the same unit; its fields are those asked for |
| Membership.AddedWithDefaults | gst/tcp/gstmultihandlesink.c:724-732 | Adding without a method uses the defaults, with no burst maximum |
| Membership.FlushBegins | gst/tcp/gstmultihandlesink.c:775-814 | Exactly a listed client in order begins to flush, with as many buffers to pick as lie up to its cursor; whether it is watched does not change |
| Events.AddLists | gst/tcp/gstmultihandlesink.c:724-732 | Over every run: adding lists the handle exactly if the element runs |
| Events.AddFullLists | gst/tcp/gstmultihandlesink.c:640-722 | The same for adding with a method and a burst, unless the burst is refused |
| Events.RemoveUnlists | gst/tcp/gstmultihandlesink.c:734-772 | Over every run: removing takes a client off exactly if it is not flushing |
| Events.InterruptedRemoval | gst/tcp/gstmultihandlesink.c:921-1021 | Over every run: a removal that stops in the window and is taken up again ends in the same state as one that does not |
| Events.FlushKeepsListed | gst/tcp/gstmultihandlesink.c:775-814 | Over every run: flushing takes nobody off, and the client is then flushing |
| Events.ClearUnlists | gst/tcp/gstmultihandlesink.c:818-851 | Over every run: clearing leaves exactly the clients being removed, and changes nothing else |
| Membership.WindowChangesNothing | gst/tcp/gstmultihandlesink.c:921-1021 | A removal interrupted by the unlocked window comes to the same as an uninterrupted one, and a second removal meanwhile does nothing |
| Membership.BrokenSocketLeaves | gst/tcp/gstmultisocketsink.c:984-995 | An error or hangup removes the client with the status that says so, the error first |
| Membership.ClearEmpties | gst/tcp/gstmultihandlesink.c:818-851 | Clear leaves exactly the clients already being removed, and changes nothing but list, table and departures; list and table are empty if and only if there were none |
| Membership.ClearedAreRemoved | gst/tcp/gstmultihandlesink.c:818-851 | Whom clearing takes off the list leaves as removed |
| Membership.StopEmptiesIff | gst/tcp/gstmultihandlesink.c:2130-2184 | Stopping gives up table and queue at once; the list is empty, and the invariant kept, if and only if no removal is under way |
| SoloRuns.StopDuringRemoval | gst/tcp/gstmultihandlesink.c:2130-2184 | A run: a client whose removal stands in the window is still listed after a stop, without an entry in the table |
| QueueSafety.PassKeeps | gst/tcp/gstmultihandlesink.c:1711-1771 | The restarted walk leaves every client visited, sound, and within the usage it reports |
| QueueSafety.VisitKeeps | gst/tcp/gstmultihandlesink.c:1711-1771 | One visit keeps the invariant of the walk, whether the client stays, is removed, or the walk starts over |
| QueueSafety.TooSlowInside | gst/tcp/gstmultihandlesink.c:1746-1759 | Only a hard limit inside the queue makes anybody too slow, so a repeated visit cannot leave the queue |
| QueueSafety.PassFrame | gst/tcp/gstmultihandlesink.c:1711-1771 | The walk changes nothing but list, table and departures |
| QueueSafety.TrimInv | gst/tcp/gstmultihandlesink.c:1826-1836 | Trimming behind the usage cuts off nothing a client still has to send |
| QueueSafety.QueueBufferInv | gst/tcp/gstmultihandlesink.c:1675-1845 | Enqueueing keeps the invariant |
| QueueSafety.RenderInv | gst/tcp/gstmultihandlesink.c:1847-1952 | Rendering keeps the invariant, header buffers included |
| SinkSafety.AddFullInv | gst/tcp/gstmultihandlesink.c:640-722 | Adding keeps the invariant; a duplicate handle or wrong limits change nothing |
| SinkSafety.RemoveLinkInv | gst/tcp/gstmultihandlesink.c:921-1021 | Removing a client for any reason keeps the invariant, with or without the window |
| SinkSafety.EndRemovalInv | gst/tcp/gstmultihandlesink.c:982-1005 | So does the second half of a removal |
| SinkSafety.RemoveFlushInv | gst/tcp/gstmultihandlesink.c:775-814 | Beginning a flush keeps the invariant |
| SinkSafety.ClearInv | gst/tcp/gstmultihandlesink.c:818-851 | Clearing keeps the invariant through every restart of its walk |
| SinkSafety.ClearLeavesBeingRemoved | gst/tcp/gstmultihandlesink.c:818-851 | The restarted clearing walk leaves exactly the clients whose removal had begun, in order |
| SinkSafety.ClearKeeps | gst/tcp/gstmultihandlesink.c:818-851 | Clearing touches nothing but list, table and departures |
| SinkSafety.SocketConditionInv | gst/tcp/gstmultisocketsink.c:954-1015 | A socket event keeps the invariant for every condition and every sequence of replies |
| SinkSafety.StopInv | gst/tcp/gstmultihandlesink.c:2130-2184 | Stopping keeps the invariant if and only if no removal is under way; then list, table and queue are empty, and every reference the element took has been given back |
| SinkSafety.StartInv | gst/tcp/gstmultihandlesink.c:2097-2128 | Starting keeps the invariant and begins to count anew; an element that runs is left alone |
| SinkSafety.ReadSound | gst/tcp/gstmultisocketsink.c:557-605 | A read never changes a client but for its status, which is closed or error exactly if it does not stay |
| SinkSafety.ReadEndsIff | gst/tcp/gstmultisocketsink.c:573-601 | A client that can be read from is given up if and only if its first read finds the connection closed or a read fails |
| WriteSafety.WriteSound | gst/tcp/gstmultisocketsink.c:721-869 | For every sequence of replies a write event keeps the client's invariant, or ends it with everything recorded; one that flushed has sent all it had |
| WriteSafety.RoundSound | gst/tcp/gstmultisocketsink.c:722-841 | So does one round of the loop |
| WriteSafety.LoadSound | gst/tcp/gstmultisocketsink.c:723-796 | Waiting, placing, picking and the end of a flush keep the invariant |
| WriteSafety.AfterSendDelivers | gst/tcp/gstmultisocketsink.c:822-834 | A partial or complete write moves bytes from the sending list to the wire and loses none |
| WriteSafety.AfterSendRefs | gst/tcp/gstmultisocketsink.c:828-834 | A buffer that was sent completely gives its reference back once |
| WriteSafety.QueueToDelivers | gst/tcp/gstmultihandlesink.c:1088-1135 | Queueing a buffer appends headers and buffer, in this order, to what the client is to receive |
| Headers.QueueToHeaders | gst/tcp/gstmultihandlesink.c:1034-1121 | With resend on, queueing a buffer keeps headers in force for any change of caps |
| WriteSafety.PickNumbers | gst/tcp/gstmultisocketsink.c:772-785 | A pick adds the next number to the log, moves it by one and counts down a flush |
| WriteSafety.PickLog | gst/tcp/gstmultisocketsink.c:772-785 | The buffer picked is the one of the stream that the number in the log names |
| WriteSafety.PlaceSound | gst/tcp/gstmultisocketsink.c:745-765 | Placing a new client, or letting it wait, keeps it watched exactly if it has something to do |
| WriteSafety.FlushEndedLeaves | gst/tcp/gstmultisocketsink.c:766-771 | A client whose flush ends in the middle of a write event can be given up, with all its bytes on the wire |
| WriteSafety.WriteHistory | gst/tcp/gstmultisocketsink.c:721-869 | A write event changes no visits, drops or flush marks |
| Draining.WriteDrains | gst/tcp/gstmultisocketsink.c:721-869 | A socket that goes on taking bytes, however few at a time, is sent everything: the write event ends with nothing on the sending list, and with the cursor at -1 or the flush ended |
| Draining.SendProgresses | gst/tcp/gstmultisocketsink.c:798-839 | Each send the socket takes bytes from shrinks what is left to send before the client has caught up |
| ClientSafety.VisitNumbers | gst/tcp/gstmultihandlesink.c:1727-1745 | One visit keeps the accounts, whether it is the first for this buffer or a repeated one |
| ClientSafety.VisitSound | gst/tcp/gstmultihandlesink.c:1727-1766 | One visit keeps the client's invariant |
| ClientSafety.BeginFlushSound | gst/tcp/gstmultihandlesink.c:802-808 | A flush starts with as many buffers to go as lie up to the cursor |
| ClientSafety.BeginRemovalSettles | gst/tcp/gstmultihandlesink.c:974-981 | Giving back the sending list settles the client: deliveries, numbers, start and flush stay accounted for at the point where it was given up |
| ClientSafety.GivenUpLeaves | gst/tcp/gstmultihandlesink.c:921-1021 | A client can be given up at any time between operations, for any reason but being slow, with its numbers accounted for |
| ClientSafety.EvictedLeaves | gst/tcp/gstmultihandlesink.c:1746-1759 | So can one that a pass finds too slow, on its first visit or a repeated one, up to that visit |
| Clients.Advance | gst/tcp/gstmultihandlesink.c:1727-1745 | A visit never moves a cursor further back than one buffer, and adds to `dropped_buffers` exactly what it moved forward |
| Clients.NewItems | gst/tcp/gstmultihandlesink.c:1034-1135 | The data buffer comes last, behind the headers that are due |
| Positions.FindSyncFrame | gst/tcp/gstmultihandlesink.c:1157-1181 | The nearest sync frame in the given direction, or -1 if there is none |
| Positions.NextSync | gst/tcp/gstmultihandlesink.c:1157-1181 | First sync frame at or behind an index: none is skipped |
| Positions.PrevSync | gst/tcp/gstmultihandlesink.c:1157-1181 | First sync frame at or before an index: none is skipped |
| Positions.CountBurstUnit | gst/tcp/gstmultihandlesink.c:1392-1406 | The indices for the limits of a client's own burst |
| Positions.NewPosition | gst/tcp/gstmultihandlesink.c:1416-1602 | A start position is an index or -1; -1 resets the cursor; the keyframe methods start on a sync frame or go on waiting for one |
| Positions.StartsWhere | gst/tcp/gstmultihandlesink.c:1416-1602 | For each of the six methods: the position it starts at, or when it goes on waiting, and for which keyframe |
| Positions.BurstRangeIs | gst/tcp/gstmultihandlesink.c:1355-1406 | The limits of a burst count in the format they are given in; a maximum in buffers has no effect |
| Positions.LatestKeyframeIsNewest | gst/tcp/gstmultihandlesink.c:1456-1480 | The latest-keyframe method starts on the newest keyframe there is |
| Positions.Recover | gst/tcp/gstmultihandlesink.c:1608-1655 | Recovery never goes to older data, and each policy lands where it says |
| Positions.RecoversTo | gst/tcp/gstmultihandlesink.c:1608-1655 | Where each of the four policies puts a lagging client |
| Positions.RecoveryShrinksBacklog | gst/tcp/gstmultihandlesink.c:1608-1655 | A recovered client does not lag by more than the soft limit |
| Limits.GetBuffersMax | gst/tcp/gstmultihandlesink.c:1187-1238 | The loops over bytes and timestamps compute the first length at which the limit is exceeded, else one past the queue |
| Limits.FirstExcess | gst/tcp/gstmultihandlesink.c:1187-1238 | The least length that exceeds the limit |
| Limits.LagTestIsExact | gst/tcp/gstmultihandlesink.c:1187-1238 | Comparing the cursor with that index is the same as measuring the data in front of the cursor |
| Limits.BuffersMaxMonotone | gst/tcp/gstmultihandlesink.c:1187-1238 | A larger limit is never reached earlier |
| Limits.SpanExceedsMeansOlder | gst/tcp/gstmultihandlesink.c:1195-1222 | On sorted timestamps below 2^63 the signed 64-bit test compares real differences |
| Limits.FindLimits | gst/tcp/gstmultihandlesink.c:1252-1352 | The scan returns the indices of the declarative range, and the last index twice below buffers-min; it is true exactly if a maximum cuts off part of a queue of at least buffers-min buffers |
| Limits.ScanLimits | gst/tcp/gstmultihandlesink.c:1290-1351 | One loop finds both: least index reaching a maximum or the last, least index meeting all minima cut off at it; it is true exactly if the maximum lies before the end and the minima are met there |
| Limits.NoteTimestamp | gst/tcp/gstmultihandlesink.c:1313-1329 | The timestamp part of one iteration of that loop |
| Limits.RangeIsUnique | gst/tcp/gstmultihandlesink.c:1290-1351 | The declarative range has exactly one solution |
| Limits.SpanReachedMeansOlder | gst/tcp/gstmultihandlesink.c:1313-1329 | On sorted timestamps the unsigned test is the real age |
| Limits.SpanReachedIsReal | gst/tcp/gstmultihandlesink.c:1313-1329 | It is so wherever no timestamp is later than the first one |
| Limits.SpanReachedIff | gst/tcp/gstmultihandlesink.c:1313-1329 | For any timestamps: a prefix meets the unsigned test if and only if it holds a buffer that is old enough, or one whose later timestamp wraps around to the limit |
| Limits.PrefixSpansIff | gst/tcp/gstmultihandlesink.c:1313-1329 | A prefix of the queue with the first timestamp spans an age if and only if it reaches the first buffer that is as old |
| Limits.MinMetPrepend | gst/tcp/gstmultihandlesink.c:1773-1790 | Minima that are met stay met when a newer buffer comes in front |
| Vectors.MapMemories | gst/tcp/gstmultisocketsink.c:624-658 | The vectors hold the bytes of the buffer from the offset on, at most eight memories |
| Vectors.Offer | gst/tcp/gstmultisocketsink.c:607-658 | What is offered is a non-empty prefix of the bytes left |
| Vectors.OfferStartsAtSpot | gst/tcp/gstmultisocketsink.c:632-656 | The first vector starts inside the memory that holds the offset, the others are whole |
| SocketClients.SocketClient.constructor | gst/tcp/gstmultihandlesink.c:596-622 | A new client waits at -1, is not flushing and is watched |
| SocketClients.SocketClient.RecoverClient | gst/tcp/gstmultihandlesink.c:1608-1655 | The branches and the keyframe loop compute `Recover` |
| SocketClients.SocketClient.AdvanceCursor | gst/tcp/gstmultihandlesink.c:1727-1745 | The cursor update in place is `Advance` |
| SocketClients.SocketClient.VisitBy | gst/tcp/gstmultihandlesink.c:1727-1766 | The rest of the visit: too slow, woken, or neither |
| SocketClients.SocketClient.NewClientPosition | gst/tcp/gstmultihandlesink.c:1416-1602 | The switch over the sync methods computes `NewPosition`, fields updated in place |
| SocketClients.SocketClient.StartFlush | gst/tcp/gstmultihandlesink.c:802-808 | The flush counter is set in place |
| SocketClients.SocketClient.Release | gst/tcp/gstmultihandlesink.c:934-981 | First half of a removal: unwatched, sending list and caps given up |
| SocketClients.SocketClient.NeedsStreamheader | gst/tcp/gstmultihandlesink.c:1034-1084 | The nested tests decide exactly when headers are due |
| SocketClients.SocketClient.ClientQueueBuffer | gst/tcp/gstmultihandlesink.c:1023-1138 | Appending headers one by one and then the buffer is `QueueTo` |
| SocketClients.SocketClient.PlaceNew | gst/tcp/gstmultisocketsink.c:745-765 | Placing a new client, or unwatching it |
| SocketClients.SocketClient.TakeBuffer | gst/tcp/gstmultisocketsink.c:772-795 | Taking the buffer under the cursor, with the counters and timestamps |
| SocketClients.SocketClient.LoadBuffer | gst/tcp/gstmultisocketsink.c:723-796 | First half of a round of the write loop |
| SocketClients.WriteBuffer | gst/tcp/gstmultisocketsink.c:890-914 | One send call takes bytes of the buffer from the offset on, no more than the vectors hold |
| SocketClients.SocketClient.FinishSend | gst/tcp/gstmultisocketsink.c:822-837 | Partial or complete write |
| SocketClients.SocketClient.SendHead | gst/tcp/gstmultisocketsink.c:798-839 | Second half of a round: would-block, reset, error, or bytes taken |
| SocketClients.SocketClient.HandleWrite | gst/tcp/gstmultisocketsink.c:721-869 | The write loop as a whole is `Write` against the same replies |
| SocketClients.SocketClient.HandleRead | gst/tcp/gstmultisocketsink.c:557-605 | The read loop as a whole is `Read` |
| MultiSocketSinks.MultiSocketSink.constructor | gst/tcp/gstmultihandlesink.c:487-513 | A new element has no clients, no buffers and no references |
| MultiSocketSinks.MultiSocketSink.AddFull | gst/tcp/gstmultihandlesink.c:640-722 | Adding in place, with its refusals |
| MultiSocketSinks.MultiSocketSink.Remove | gst/tcp/gstmultihandlesink.c:734-772 | Removing by handle in place, wholly or up to the unlocked window |
| MultiSocketSinks.MultiSocketSink.RemoveFlush | gst/tcp/gstmultihandlesink.c:775-814 | Flushing by handle in place |
| MultiSocketSinks.MultiSocketSink.RemoveClientLink | gst/tcp/gstmultihandlesink.c:921-1021 | Both halves of a removal, or the first one only; the cookie counts the complete ones |
| MultiSocketSinks.MultiSocketSink.EndRemoval | gst/tcp/gstmultihandlesink.c:982-1005 | The second half of a removal that stopped in the window, in place |
| MultiSocketSinks.MultiSocketSink.Clear | gst/tcp/gstmultihandlesink.c:818-851 | The cookie-restarted loop ends and does what `ClearFrom` says |
| MultiSocketSinks.MultiSocketSink.UpdatePositions | gst/tcp/gstmultihandlesink.c:1708-1771 | The cookie-restarted loop ends and does what `Pass` says |
| MultiSocketSinks.MultiSocketSink.ExtendUsage | gst/tcp/gstmultihandlesink.c:1773-1820 | The minima and the search for a sync frame compute `LastKept` |
| MultiSocketSinks.MultiSocketSink.DropFrom | gst/tcp/gstmultihandlesink.c:1826-1836 | Dropping the tail one buffer at a time gives back exactly its references |
| MultiSocketSinks.MultiSocketSink.QueueBuffer | gst/tcp/gstmultihandlesink.c:1675-1845 | Enqueueing in place |
| MultiSocketSinks.MultiSocketSink.Render | gst/tcp/gstmultihandlesink.c:1847-1952 | Rendering in place: headers are kept, data is queued |
| MultiSocketSinks.MultiSocketSink.HandleClientWrite | gst/tcp/gstmultisocketsink.c:701-869 | A client writes; bytes served grow by what it sent |
| MultiSocketSinks.MultiSocketSink.SocketCondition | gst/tcp/gstmultisocketsink.c:954-1015 | A socket event in place: looked up, handled, kept or removed |
| MultiSocketSinks.MultiSocketSink.Start | gst/tcp/gstmultihandlesink.c:2097-2128 | Starting in place |
| MultiSocketSinks.MultiSocketSink.Stop | gst/tcp/gstmultihandlesink.c:2130-2184 | Stopping in place, in every state: clients, headers, table and queue; the table leads to the list afterwards if and only if no removal was under way |
| MultiSocketSinks.MultiSocketSink.Dispatch | gst/tcp/gstmultihandlesink.c:640-2184 | Every event, in every valid state, is the step of the state machine on the object, and keeps `Valid`, that is the whole invariant, if and only if it is not a stop while a removal is under way |
| FdMemories.UseRunConsistent | gst/gst-plugins-base/gst-libs/gst/allocators/gstfdmemory.c:76-164 | Over every run of maps and balanced unmaps through a root and its shares: mapped exactly while mappings are out and counted by them unless kept mapped, one stable address, protections covering every request |
| FdMemories.EveryMappingIsUnmapped | gst/gst-plugins-base/gst-libs/gst/allocators/gstfdmemory.c:55-164 | Each mmap is undone by exactly one munmap of the same address and length by the time the memory is freed |
| FdMemories.MapConsistent | gst/gst-plugins-base/gst-libs/gst/allocators/gstfdmemory.c:76-141 | One map, first or repeated, widening the protection or refused, keeps that |
| FdMemories.MapGrantedIff | gst/gst-plugins-base/gst-libs/gst/allocators/gstfdmemory.c:76-141 | A map is refused exactly if the memory is not mapped and has no descriptor or cannot be mapped, or if its protection has to be widened and cannot be; a refused map changes nothing |
| FdMemories.GrantedMap | gst/gst-plugins-base/gst-libs/gst/allocators/gstfdmemory.c:92-131 | A granted map is at the address already mapped, if any, and counted; the protection is the join of what there was and the request; the system is called only to map or to widen |
| FdMemories.CoveredMapIsGranted | gst/gst-plugins-base/gst-libs/gst/allocators/gstfdmemory.c:92-109 | While a mapping is out, a request it covers is granted at the same address, whatever the system answers and without asking it |
| FdMemories.UnmapDecides | gst/gst-plugins-base/gst-libs/gst/allocators/gstfdmemory.c:143-164 | An unmap counts down and ends the mapping with the last one; a memory to be kept mapped is left alone |
| FdMemories.KeptMapped | gst/gst-plugins-base/gst-libs/gst/allocators/gstfdmemory.c:152-153 | A memory to be kept mapped stays mapped at one address over every run |
| FdMemories.UnmapConsistent | gst/gst-plugins-base/gst-libs/gst/allocators/gstfdmemory.c:143-164 | One unmap keeps that |
| FdMemories.SharesCompose | gst/gst-plugins-base/gst-libs/gst/allocators/gstfdmemory.c:166-197 | A share of a share shows the part of the part |
| FdMemories.ShareOfRestFitsIff | gst/gst-plugins-base/gst-libs/gst/allocators/gstfdmemory.c:166-186 | A share of everything from an offset on lies inside the memory if and only if the memory's own offset is 0 |
| FdMemories.FdMemory.Alloc | gst/gst-plugins-base/gst-libs/gst/allocators/gstfdmemory.c:261-285 | A new root shows the whole file and is not mapped |
| FdMemories.FdMemory.Share | gst/gst-plugins-base/gst-libs/gst/allocators/gstfdmemory.c:166-197 | A share hangs directly below the root |
| FdMemories.FdMemory.Map | gst/gst-plugins-base/gst-libs/gst/allocators/gstfdmemory.c:76-141 | Mapping in place, through the root |
| FdMemories.FdMemory.Unmap | gst/gst-plugins-base/gst-libs/gst/allocators/gstfdmemory.c:143-164 | Unmapping in place, through the root |
| FdMemories.FdMemory.Free | gst/gst-plugins-base/gst-libs/gst/allocators/gstfdmemory.c:55-74 | Freeing unmaps what is mapped and closes the descriptor of a root only |
| Payload.MessageRoundTrip | gst/tmpfile/wire-protocol.h:23-35 | The 24 bytes of a message decode to the message |
| Payload.Encode | gst/tmpfile/wire-protocol.h:28-35 | A message takes 24 bytes |
| Payload.MessageLayout | gst/tmpfile/wire-protocol.h:28-35 | Timestamp, offset and size, in this order, eight bytes each, low byte first |
| Payload.PadIsLeast | gst/tmpfile/gsttmpfileallocator.c:136-140 | `pad` is the least multiple of align + 1 not below its argument |
| Payload.TmpFileAllocator.Alloc | gst/tmpfile/gsttmpfileallocator.c:142-182 | The window starts at the padded prefix, has the size asked for, and fits the page-rounded file with its padding |
| Payload.TmpFileAllocator.CopyAlloc | gst/tmpfile/gsttmpfileallocator.c:102-134 | However the writes are split or interrupted, the file holds exactly the data; it fails exactly if an error comes first |
| Payload.Payloaded | gst/tmpfile/gstfdpay.c:279-304 | The file memory that stands for a buffer shows the buffer's bytes |
| Payload.FdPay.GetFdMemory | gst/tmpfile/gstfdpay.c:279-304 | A single file memory is used as it is, anything else is copied; nothing comes of it if the buffer cannot be read, the file made, or all bytes written |
| Payload.FdPay.TransformIp | gst/tmpfile/gstfdpay.c:306-379 | The buffer becomes the message and carries the file, behind the control messages it already had |
| Payload.FdDepay.TransformIp | gst/tmpfile/gstfddepay.c:204-310 | Accepted exactly if message, first control message, descriptor and file length are right; then the buffer shows the window and loses that control message, else it is unchanged |
| Payload.AcceptedIffInside | gst/tmpfile/gstfddepay.c:258-265 | The length check is exact when the end of the window does not wrap around |
| Payload.LengthCheckIsExactIff | gst/tmpfile/gstfddepay.c:258-265 | For every message: the length check accepts exactly the windows inside the file if and only if the end does not wrap around, or wraps to more than the file has |
| Payload.WrappedWindowIsAccepted | gst/tmpfile/gstfddepay.c:258-265 | One byte at offset 2^64 - 1 passes the check for every file, and lies in none |
| Payload.WindowRoundTrip | gst/tmpfile/gstfdpay.c:317-356 | The message sent for a buffer is accepted with its file and names the buffer's bytes |
| Payload.RoundTrip | gst/tmpfile/gstfddepay.c:204-276 | Payloading and depayloading gives back the buffer's bytes, for any memories, windows and partial writes, if it carried no control message; if it did, the receiver takes the file of the first one, and the exact outcome is stated |
| EndToEnd.MessagesArrive | gst/tcp/gstmultisocketsink.c:721-869 | Both paths together, over every run: if each buffer of the stream is a 24-byte message, the j-th complete message among the bytes a client received, however they were cut into sends, is that of the buffer its log names |
| EndToEnd.AllPickedArrive | gst/tcp/gstmultisocketsink.c:721-869 | A client that has sent all it picked, or was flushed, received as many messages as its log names; no client more |
| EndToEnd.FramesArrive | gst/tmpfile/gstfddepay.c:204-276 | From frame to frame: each such message is accepted with the file sent for it and shows the bytes of the media buffer the log names |
| SocketSources.ReceivedIsWhatSocketsHeld | gst/gstsocketsrc.c:162-265 | Over every run of calls the bytes received, with what the last socket still holds, are those of the installed sockets in order |
| SocketSources.RunLosesNothing | gst/gstsocketsrc.c:162-265 | The same from any state that has lost nothing |
| SocketSources.FillLosesNothing | gst/gstsocketsrc.c:183-258 | One call, with any number of replacements, loses nothing; an end of stream is returned only when nothing is left to read and the handler left no socket or the same one |
| SocketSources.FlowIff | gst/gstsocketsrc.c:162-265 | Which flow a call returns, from the script and the sockets: data, end of stream, flushing or error, exactly as the last attempt goes; error also without a socket |
| SocketSources.FillYields | gst/gstsocketsrc.c:204-233 | Sockets at their end are passed over as long as the handler installs different ones; the next one that holds bytes gives a non-empty prefix of them |
| SocketSources.EarlyReplacementLoses | gst/gstsocketsrc.c:275-288 | Replacing the socket at another time loses nothing if and only if the old one was read to its end |
| SocketSources.SocketSrc.FillBuffer | gst/gstsocketsrc.c:162-273 | The retry loop over local and stored socket is `Fill` |
| SocketSources.SocketSrc.SetSocket | gst/gstsocketsrc.c:275-288 | The socket property in place |

## Left out

- Wall-clock timeouts: `timeout` is 0 throughout, and the periodic check of `gst/tcp/gstmultisocketsink.c:1017-1044` is not modelled.
- GLib main loop, threads and sources: a source is a boolean, a socket a sequence of replies to send and receive calls; a call beyond the last reply would block.
- Runs.Run: a run does not go on with a stop while a removal is under way; such a stop is stated as a single step (`Runs.StepInv`, `MultiSocketSinks.MultiSocketSink.Dispatch`, `Membership.StopEmptiesIff`).
- Sink.QueueBuffer and Sink.ClearFrom: removals inside a pass, inside clear and inside stop are one step; what other threads do in the unlocked window of those removals is not modelled.
- SocketClients.SocketClient.HandleWrite: buffers without any byte are excluded, because the code aborts on them.
- MultiSocketSinks.MultiSocketSink.HandleClientWrite: `bytes_served` grows once after the loop by what the client sent, not after each send.
- Limits.GetBuffersMax: byte sums are unbounded integers; the `gint` they are kept in, and the conversion of the `gint64` limit, are not modelled. Timestamp differences do wrap at 64 bits.
- Bounds.KeyframeKeptIff and Retention.TimeMinIsKeptIff: in a pass that advances somebody twice only one direction is stated in terms of the clients before it; both directions are in terms of the usage the walk reports (`Bounds.KeyframeKeptAfterWalk`, `Retention.TimeMinIsKeptAfterWalk`).
- Payload.FdPay.TransformIp: the timestamp of the message is a parameter, since clocks and segments are library code; so are the answers of the system to mapping, creating, writing and attaching. Control messages are taken to carry descriptors, and a new one to come behind those already there.
- Payload.FdDepay.TransformIp: the presentation time computed from the message is not modelled.
- Payload.Encode: the structure is sent as it lies in memory; the layout is that of a little-endian machine.
- Payload.TmpFileAllocator.CopyAlloc and Payload.TmpFileAllocator.Alloc: closing the descriptors of files that could not be filled or resized is not modelled.
- Payload.TmpFileAllocator.Alloc: sizes are unbounded integers; overflow of `gsize` in the padding and page rounding is not modelled.
- SocketSources.SocketSrc.FillBuffer: the control messages a receive call brings along, and attaches to the buffer, are not modelled.
- EndToEnd.FramesArrive: speaks of the bytes; that the file sent for a buffer arrives beside its message is taken as given. It covers clients whose buffers were all queued under caps without stream headers.
- FdMemories.FdMemory.Map: the choice between shared and private mappings and the debugging poison on free are not modelled; the content of a mapping is that of its file.
- Properties stay fixed during a run; caps may change at any time.
- Hashing and equality of handles: handles are numbers and the table a map.
- Delivery of control messages: they are attached again on each partial write, so nothing is stated about how often a descriptor is sent.
- Caps negotiation, allocation queries, clocks and segments, DSCP marking, statistics beyond the counters named above, logging, signals other than the end of a socket: plumbing around library calls.
- DBus attachment, element registration, the video source bin, fault injection, the watchdog and the raw video validator: not part of the two data paths.
- Finding and resizing memories, caps comparison and list handling of GStreamer and GLib: modelled by what they do.
