# Control plane: models and proofs

The control plane is the browser side of an agent gateway. This project models its client-side
state machines and text algorithms in Dafny and proves what they promise:

- the chat page, where session switches, loads, streamed replies, aborts and failures interleave
  (`ChatProtocol`, `ChatRuns`, `ChatEffects`, `ChatPage`);
- the framing of event streams, its two readers and what they make of messages (`SseFraming`,
  `SseReaders`, `SseMessages`);
- the live tail of events and the reconnect loop that feeds it (`LiveTail`, `Reconnect`, `EventsPage`);
- the hash router (`HashRoute`, `HashMeaning`);
- `@` mentions and model choices (`Mentions`, `ModelChoices`, with `Sorting`);
- bounded and sanitised views: metadata and summaries (`PublicMeta`, `DropPayload`, `PublicKeys`,
  `TokenShape`, `JsonTree`), link graphs (`VaultGraph`), pages of a list (`Paging`), the cursor stack of the
  activity page (`ActivityCursor`, `ActivityPager`) and the allow list of a channel (`AllowList`).

`Basics` and `Text` hold what they share: sequences, numbers, and JavaScript's trimming, splitting
and joining.

Code that updates variables step by step is a method or a class here; each method is proved
against a function or a predicate, and the results are proved about that. The pages are event
systems: a step of `ChatProtocol.Step`, `Reconnect.Step` or `ActivityCursor.Step` is what the code
does between two awaits, a run is any sequence of enabled steps, and the classes `ChatPage`,
`EventsPage` and `ActivityPager` carry out the same steps on fields.

Where the code keeps less than one would expect, the model follows the code; the exact condition
is proved, and an input is given on which it fails:

- cutting the stream into chunks shows when a CR LF pair is cut in two (`ChunkingShowsIffPairSplit`,
  `SplitPairExample`);
- the data of an event is not always that of section 9.2.6 of the WHATWG HTML Standard: the readers
  forget a leading empty data line, pass over a bare `data` line, and take off all white space in
  front of a value, not one space (`DataMeetsStandard`, `EmptyFirstExample`, `BareLineExample`,
  `SpacesExample`);
- a hash whose head is `constructor` or `__proto__` parses to something that is no tab, since the
  segment table is a plain object (`CanonicalFixedPoint`, `ConstructorExample`);
- a trace link without a slash in front (`#traces/a/b`) does not always lead where the one with the
  slash leads (`ShortLinkMeans`, `ShortLinkExample`);
- unnumbered events can share a key if a trace id or a kind holds a colon (`KeyOfUnnumbered`,
  `ColonExample`);
- two model choices can share one select value if a provider holds U+0001 (`AllOptionsListed`,
  `SharedKeyExample`);
- between the render of another session and its switch effect the chat page shows the send left
  behind as its own, if one was running, and the rows left behind, if there are any and no load of
  the new session commits (`GapStatus`, `GapStream`, `GapExample`, `GapRows`, `GapRowsExample`);
- a load of the visit that commits during a send takes away both rows of the send: what is still
  streamed is not shown, and an abort keeps nothing of it (`RowIffNoCommit`, `LostReplyExample`,
  `AbortKeepsPartialReply`, `LostAbortExample`);
- the end of a save of the agent or the model sets the error of whatever visit is on show
  (`StaleStepsDoNotShow`, `LateSaveExample`);
- a stopped runner whose stream still reports ready makes the events page say live while its own
  runner waits, or while it is paused (`StepConn`, `StaleReadyExample`, `PauseHolds`);
- Next on the activity page follows the page on show, which after a failed load, or when an older
  load ends last, is not the one asked for (`StepKeepsTrail`, `FailureExample`, `RaceExample`);
- taking NULs out of a metadata text can bring about a text that would itself be redacted
  (`TextStable`, `PublicIsStable`, `NulExample`);
- an entry `__proto__` counts as one of the 16 kept entries without being kept
  (`FirstVisibleAreKept`, `ProtoExample`);
- a graph from the server is marked truncated, with nothing left out, when only an unreadable row
  stands behind the 80th link (`LossShows`, `VainFlagExample`).

`dafny verify dfyconfig.toml` checks the project.

## Model

| member | source | states |
|---|---|---|
| ChatProtocol.StepInv | control-plane/src/pages/ChatPage.tsx:87-399 | Every piece of code between two awaits, in any order, keeps the invariant: tokens come from the past, a send awaits its own load only, at most one stream is open and not aborted, at most one send of the current visit runs, its assistant row reads the deltas so far, and once the switch effect has run the rows and the status belong to the selected session. |
| ChatRuns.RunInv | control-plane/src/pages/ChatPage.tsx:87-399 | The invariant holds after every run. |
| ChatRuns.OnlySelectedSession | control-plane/src/pages/ChatPage.tsx:171-206 | In every run, once the switch effect of the rendered session has run, every row shown is of that session and every stream of an earlier visit has been aborted, given that the gateway lists only rows of the session asked for. The gap before the effect is the subject of GapRows. |
| ChatRuns.StatusIsTheTurn | control-plane/src/pages/ChatPage.tsx:304-399 | In every run, once the switch effect has run, the page says it is sending exactly when one send of the current visit runs, the stream status is that of the await it is at, and without one the status is idle or error. The gap before the effect is the subject of GapStatus and GapStream. |
| ChatRuns.GenerationCounts | control-plane/src/pages/ChatPage.tsx:171-173 | The generation counts the switch effects: it rises by one with each and by nothing else. |
| ChatRuns.TokenNeverReturns | control-plane/src/pages/ChatPage.tsx:89-91 | A token of the past is dead after any switch, also when the same session is selected again. |
| ChatRuns.StaleStepsDoNotShow | control-plane/src/pages/ChatPage.tsx:98-128 | A load, delta, abort, failure, timer or probe of another visit changes nothing that the page shows; the end of a save changes the error, and only that, exactly when its outcome is not the error shown already. |
| ChatRuns.LateSaveExample | control-plane/src/pages/ChatPage.tsx:131-147 | A save of one session that fails after another has been selected shows its error there. |
| ChatRuns.CurrentAllAlong | control-plane/src/pages/ChatPage.tsx:89-91 | A send whose token is current at the end of a run was current during all of it. |
| ChatRuns.History | control-plane/src/pages/ChatPage.tsx:342-355 | A send that still awaits its stream after a run without a commit of its visit has been given exactly the deltas of the run, in order. |
| ChatRuns.TurnConservation | control-plane/src/pages/ChatPage.tsx:304-355 | From the start of a send, while its stream is awaited, its visit lasts and no load of the visit commits, the assistant row is on the page once and reads the deltas delivered so far, joined. What a commit does is the subject of RowIffNoCommit. |
| ChatRuns.RowUnlessReplaced | control-plane/src/pages/ChatPage.tsx:98-116 | In every reachable state the assistant row of a send that awaits its stream is on the page if and only if no load of its visit has committed since it began. |
| ChatRuns.RowIffNoCommit | control-plane/src/pages/ChatPage.tsx:98-116 | From the start of a send, while its stream is awaited and its visit lasts, the assistant row is on the page if and only if no load of the visit has committed in the run. |
| ChatRuns.LostReplyExample | control-plane/src/pages/ChatPage.tsx:98-116 | The first load of a session settles during a send: both rows of the send are gone, and a later delta is shown nowhere. |
| ChatRuns.AbortKeepsPartialReply | control-plane/src/pages/ChatPage.tsx:359-366 | An abort by the user keeps the partial reply exactly when something visible has arrived and no load of the visit has committed since the send began; if one has, the rows stay as they are; no other row is touched, and the send ends in the idle status. |
| ChatRuns.LostAbortExample | control-plane/src/pages/ChatPage.tsx:359-366 | A visible partial reply that an abort does not keep: the first load of the session has committed in between. |
| ChatRuns.FailureShowsMessage | control-plane/src/pages/ChatPage.tsx:367-399 | A failed stream replaces the assistant row by the message and goes through reconnect; whatever happens then, if the visit lasts until the probe is over, the page ends in the error status with that message, and with the same rows if nothing happens in between. |
| ChatRuns.RunAwaited | control-plane/src/pages/ChatPage.tsx:356-358 | In every run a send that awaits its load has one under way. |
| ChatRuns.SendCanEnd | control-plane/src/pages/ChatPage.tsx:342-399 | From every reachable page the current send can come to its end. |
| ChatRuns.GapStatus | control-plane/src/pages/ChatPage.tsx:87-91 | Between the render of another session and its switch effect, in any run, the page says truly whether a send of the selected session runs if and only if it was not sending at the render. |
| ChatRuns.GapStream | control-plane/src/pages/ChatPage.tsx:87-91 | In the same gap the stream status fits the running send, or is idle or error without one, if and only if it was idle or error at the render. |
| ChatRuns.GapRows | control-plane/src/pages/ChatPage.tsx:87-91 | In the same gap, in any run, all rows shown are of the selected session if and only if there was no row at the render or a load of that session has committed meanwhile. |
| ChatRuns.GapRowsExample | control-plane/src/pages/ChatPage.tsx:87-91 | The rows of a send of the session left behind are such rows. |
| ChatRuns.GapExample | control-plane/src/pages/ChatPage.tsx:87-91 | Before the switch effect has run, the status may name a send that is over: that the effect has run is a needed hypothesis. |
| ChatRuns.ReplyIsShown | control-plane/src/pages/ChatPage.tsx:342-355 | In any run in which a send has been given the deltas of the reader of its stream, its visit lasts and no load of it commits, the assistant row reads the reply that the reader returns, however the stream was chunked. |
| ChatRuns.ReplyCanBeShown | control-plane/src/pages/ChatPage.tsx:342-355 | Such a run exists for every reply: the one that hands over the deltas one after the other. |
| ChatEffects.RenderShows | control-plane/src/pages/ChatPage.tsx:87-87 | A render selects its session, keeps the rows, and makes the switch effect due exactly if the session is another one. |
| ChatEffects.SwitchShows | control-plane/src/pages/ChatPage.tsx:171-206 | After the switch effect the page is empty, idle and without an error, no stream is open, and one load of the session has begun, with a token that is current, if a session is selected. |
| ChatEffects.LoadShows | control-plane/src/pages/ChatPage.tsx:98-128 | A load whose token is current shows the rows of its reply and no error, or, when it is rejected, keeps the rows and shows the error; either way it is over. |
| ChatEffects.SendShows | control-plane/src/pages/ChatPage.tsx:304-341 | A send goes out if and only if there is a text and a session and neither a send nor a save under way; it then adds the user's text and an empty reply of the assistant behind the rows, under ids that no row had, clears the error, and awaits its stream. |
| ChatEffects.DeltaShows | control-plane/src/pages/ChatPage.tsx:349-353 | A delta of the visit is put to the end of the assistant's row and changes no other row. |
| ChatEffects.DoneShows | control-plane/src/pages/ChatPage.tsx:356-399 | When its stream is done a send loads the session again; after that load, good or bad, it ends in the idle status, and the page shows the rows of a good reply. |
| ChatEffects.StopShows | control-plane/src/pages/ChatPage.tsx:300-302 | After the stop button no stream is open, every stream that was open can end as aborted, and nothing else has changed. |
| ChatEffects.RowsAreTheLastReply | control-plane/src/pages/ChatPage.tsx:98-116 | Over every run the rows on the page that come from the gateway are exactly those of the last reply to a load of the visit, none after a switch: sends, deltas, aborts and failures add, drop and change none of them. |
| ChatEffects.PageShowsTheLastReply | control-plane/src/pages/ChatPage.tsx:98-116 | The same from the opening of the page. |
| ChatPage.ChatPage.constructor | control-plane/src/pages/ChatPage.tsx:61-87 | A new page is the initial state, and keeps the invariant. |
| ChatPage.ChatPage.Render | control-plane/src/pages/ChatPage.tsx:87-87 | A render selects its session at once; the switch effect becomes due if it is another one. |
| ChatPage.ChatPage.AbortStream | control-plane/src/pages/ChatPage.tsx:300-302 | The stream that the page holds is aborted, no other. |
| ChatPage.ChatPage.ClearThread | control-plane/src/pages/ChatPage.tsx:174-197 | Both branches of the effect empty the thread, reset error, sending and status, and abort the old stream. |
| ChatPage.ChatPage.SwitchVisit | control-plane/src/pages/ChatPage.tsx:171-206 | The body of the switch effect. |
| ChatPage.ChatPage.RunSwitchEffect | control-plane/src/pages/ChatPage.tsx:171-206 | The effect of a session switch is the switch step: new generation, empty page, old stream aborted, one load begun if a session is selected. |
| ChatPage.ChatPage.StartLoad | control-plane/src/pages/ChatPage.tsx:98-103 | A load begins with the token of this moment. |
| ChatPage.ChatPage.Wake | control-plane/src/pages/ChatPage.tsx:358-358 | A send that awaits the load can go on, whether the load is current or not. |
| ChatPage.ChatPage.FinishLoad | control-plane/src/pages/ChatPage.tsx:98-128 | A load that has settled does the load step, whose effect is that of LoadShows: nothing to the page unless its token is current, else the rows of the reply and no error, or the error. |
| ChatPage.ChatPage.AddRows | control-plane/src/pages/ChatPage.tsx:312-331 | A send adds a row of the user and an empty row of the assistant, with new ids. |
| ChatPage.ChatPage.BeginTurn | control-plane/src/pages/ChatPage.tsx:307-341 | What a send does between its guards and its first await. |
| ChatPage.ChatPage.StartSend | control-plane/src/pages/ChatPage.tsx:304-341 | Sending does the send step, or nothing for an empty text, a running send, metadata being saved or no session. |
| ChatPage.ChatPage.OnDelta | control-plane/src/pages/ChatPage.tsx:349-353 | A delta grows the row with the assistant's id if the token is current. |
| ChatPage.ChatPage.EndTurn | control-plane/src/pages/ChatPage.tsx:394-399 | The finally clause: a current send stops sending, and a status of a running stream becomes idle. |
| ChatPage.ChatPage.OnStreamDone | control-plane/src/pages/ChatPage.tsx:356-358 | A finished stream leaves the idle status and begins the load that the send awaits. |
| ChatPage.ChatPage.OnStreamAborted | control-plane/src/pages/ChatPage.tsx:359-366 | The handling of an AbortError, with the finally clause. |
| ChatPage.ChatPage.ShowFailure | control-plane/src/pages/ChatPage.tsx:367-383 | The message takes the place of the assistant row, and the wait begins. |
| ChatPage.ChatPage.OnStreamFailed | control-plane/src/pages/ChatPage.tsx:367-383 | The handling of any other error, up to the wait before the probe. |
| ChatPage.ChatPage.OnTimer | control-plane/src/pages/ChatPage.tsx:383-386 | The end of that wait. |
| ChatPage.ChatPage.OnProbe | control-plane/src/pages/ChatPage.tsx:386-399 | The end of the probe, with the finally clause. |
| ChatPage.ChatPage.OnReloaded | control-plane/src/pages/ChatPage.tsx:358-399 | The end of a send whose load is over. |
| ChatPage.ChatPage.StopStream | control-plane/src/pages/ChatPage.tsx:300-302 | The stop button aborts the stream that the page holds, and changes nothing else. |
| ChatPage.ChatPage.OnSaveEnds | control-plane/src/pages/ChatPage.tsx:131-168 | The end of a save sets the error, whatever visit is on show. |
| SseFraming.ChunkedNormalisation | control-plane/src/api/client.ts:189-192 | Normalising line ends chunk by chunk gives the normalised text if and only if no CR LF pair is cut in two, and each pair cut adds one line end. |
| SseFraming.DrainFrames | control-plane/src/api/client.ts:194-198 | The blocks taken out with their separators, and what stays in the buffer, are the buffer; none of them holds a blank line. |
| SseFraming.DrainUnique | control-plane/src/api/client.ts:194-198 | The leftmost cut is the only one: any framing into blocks free of blank lines is the one taken. |
| SseFraming.DrainAppend | control-plane/src/api/client.ts:189-199 | Draining early and going on with the rest takes out the same blocks as draining once. |
| SseFraming.DataMeetsStandard | control-plane/src/api/events-ops.ts:314-329 | The data found in a block is the data buffer of section 9.2.6 of the WHATWG HTML Standard, without its last line feed, if and only if no value begins with white space beyond one space and, with two data lines or more, none is bare and the first one is not empty. |
| SseFraming.EmptyFirstExample | control-plane/src/api/events-ops.ts:323-326 | A first data line that is empty is forgotten. |
| SseFraming.SpacesExample | control-plane/src/api/events-ops.ts:323-323 | All white space in front of a value is taken off. |
| SseFraming.BareLineExample | control-plane/src/api/events-ops.ts:323-326 | A bare data line is passed over. |
| SseFraming.ParseSseBlock | control-plane/src/api/events-ops.ts:314-329 | The last event and id lines, trimmed, and the data lines joined after the leading empty ones. |
| SseReaders.ScanChatBlock | control-plane/src/api/client.ts:152-165 | The inner scan of a block finds the event and the data that parseSseBlock finds, for every block. |
| SseReaders.FlushChat | control-plane/src/api/client.ts:152-187 | A block of a reply stream adds its delta, throws its error, or is ignored. |
| SseReaders.ReadChatSSE | control-plane/src/api/client.ts:147-206 | The reader flushes the blocks of the text up to the first error, and a leftover that is not blank if the stream ends well, and returns the deltas joined; a read that is rejected is thrown after the deltas of the closed blocks have been handed over. What that comes to on texts is the subject of ChatReads and DataBlocksAreHeard. |
| SseReaders.FlushEvent | control-plane/src/api/events.ts:73-97 | A block of the live stream signals readiness, an event, an error, or nothing. |
| SseReaders.ReadEvents | control-plane/src/api/events.ts:98-109 | The live reader flushes the closed blocks of the text up to the first error; a read that is rejected is thrown after their events have been handed over. |
| SseReaders.ReadWhole | control-plane/src/api/client.ts:141-145 | A whole answer is handed over as one delta, unless it is empty. |
| SseReaders.ChatStream | control-plane/src/api/client.ts:209-238 | Whether the gateway streams, answers as a whole or declines to stream, a reply that is returned is the deltas handed over, joined; a failure throws status and text. |
| SseReaders.ChunkIndependence | control-plane/src/api/client.ts:189-201 | Two chunkings of one text that cut no CR LF pair give the same blocks, deltas, reply and error, and the same events. |
| SseReaders.ChunkingShowsIffPairSplit | control-plane/src/api/client.ts:192-192 | A chunking gives the cuts of the whole text if and only if it cuts no CR LF pair. |
| SseReaders.SplitPairExample | control-plane/src/api/client.ts:192-192 | A pair cut in two makes a blank line that the text does not hold. |
| SseReaders.ReadersAgree | control-plane/src/api/events.ts:98-109 | On the same chunks and the same end the live reader flushes the closed blocks that the chat reader flushes and fails where it fails; the chat reader adds at most one block, and none if the leftover is blank or the connection broke. |
| SseMessages.ReadsBack | control-plane/src/api/client.ts:153-166 | A message printed with an event line and a data line reads back, whatever its event and data are, as long as each is one line that trimming leaves alone. |
| SseMessages.OneMoreLine | control-plane/src/api/client.ts:153-165 | One more line at the end of any block: an event line replaces the event, a data line is joined to the data in front of it, and any other line, a comment among them, changes nothing. |
| SseMessages.PrintedBlocks | control-plane/src/api/client.ts:186-198 | However a text is cut into chunks, the framing loop cuts printed messages off its front one by one and goes on with what follows them. |
| SseMessages.ChatReads | control-plane/src/api/client.ts:147-206 | For every list of messages without an error, in any chunks, the chat reader hands over the deltas of the messages in order; a last message left open counts if the stream ends well and not if it breaks. |
| SseMessages.LiveReads | control-plane/src/api/events.ts:73-109 | For every such list, in any chunks, the live reader signals what the messages say in order; a message left open signals nothing. |
| SseMessages.ErrorsThrow | control-plane/src/api/client.ts:167-176 | An error message after other messages, whatever follows it, makes both readers throw its text after what came before it, and only that, has been handed over. |
| SseMessages.DataBlocksAreHeard | control-plane/src/api/client.ts:178-198 | Data blocks laid end to end, in any chunks, give their deltas in order, and the reply is these joined. |
| SseMessages.OneBlockIsHeard | control-plane/src/api/client.ts:178-202 | One data block, or one that is not closed before the stream ends, gives exactly its delta as deltas and as reply. |
| SseMessages.DoneAddsNothing | control-plane/src/api/client.ts:177-177 | The closing mark `[DONE]` behind data blocks adds nothing to their deltas. |
| SseMessages.ErrorBlockThrows | control-plane/src/api/client.ts:167-176 | An error block behind data blocks throws its message, with the deltas of the blocks in front of it and nothing of what follows. |
| SseMessages.EventsAreSignalled | control-plane/src/api/events.ts:91-97 | Unnamed data blocks laid end to end signal their events in order. |
| SseMessages.NamedBlockSignals | control-plane/src/api/events.ts:73-97 | A block named ops signals its event, one named ready signals readiness, and one of any other name but error nothing. |
| LiveTail.KeyOfNumbered | control-plane/src/api/events-ops.ts:215-218 | A numbered event shares its key with exactly the events of the same number. |
| LiveTail.KeyOfUnnumbered | control-plane/src/api/events-ops.ts:215-218 | Unnumbered events of the same trace, kind and time share their key, and without a colon in a trace id or a kind no others do. |
| LiveTail.ColonExample | control-plane/src/api/events-ops.ts:217-217 | With a colon, two events that differ in trace and kind share their key. |
| LiveTail.PublishedKeeps | control-plane/src/api/events-ops.ts:144-163 | An event is published if and only if its row with the public summary shows no secret; it keeps its number, trace, kind and time, and every field that is not empty. |
| LiveTail.PublishedTwice | control-plane/src/api/events-ops.ts:144-163 | Publishing an event keeps its key; publishing it again changes nothing if and only if its summary is stable and it then shows no secret. |
| LiveTail.TakeWithout | control-plane/src/api/events-ops.ts:220-226 | Cutting a list of distinct keys one row longer than needed, before a key is removed, loses none of the rows needed. |
| LiveTail.CutOnceOrEveryTime | control-plane/src/api/events-ops.ts:220-226 | Merging any stream of events with the list cut at every step gives the first rows of the unbounded list, which holds of each key the last published event, the latest first. |
| LiveTail.TailGuarantees | control-plane/src/api/events-ops.ts:220-226 | At most cap rows with distinct keys, all published, the newest first; if the keys fit the cap, every published event is represented. |
| Reconnect.BackoffTable | control-plane/src/api/events-ops.ts:101-105 | The delays are 1, 2, 4, 8 and then always 15 seconds. |
| Reconnect.StepInv | control-plane/src/pages/Events.tsx:201-268 | Every step keeps the invariant (only the newest runner is not stopped, waits follow attempts, cursors are behind lastSeq), never lowers lastSeq and never takes back a connection. |
| Reconnect.CursorIsLargest | control-plane/src/pages/Events.tsx:234-234 | After every run lastSeq is the largest positive number delivered. |
| Reconnect.ResumesAtLargest | control-plane/src/pages/Events.tsx:225-244 | A step opens at most one connection, for a runner that is not stopped, and it resumes after the largest number delivered so far. |
| Reconnect.TailOfDelivered | control-plane/src/pages/Events.tsx:235-235 | The rows shown are the live tail of the events delivered since the view was cleared. |
| Reconnect.AttemptCountsEnds | control-plane/src/pages/Events.tsx:237-260 | The attempt counter of an unstopped runner is the number of its connections that ended since its last ready. |
| Reconnect.WaitFollowsBackoff | control-plane/src/pages/Events.tsx:245-258 | An unstopped runner that waits after k ends since ready waits min(1000 * 2^min(k - 1, 4), 15000) milliseconds. |
| Reconnect.StoppedOpensNothing | control-plane/src/pages/Events.tsx:262-268 | A runner whose cleanup has run opens no further connection, whatever follows. |
| Reconnect.OneRunner | control-plane/src/pages/Events.tsx:201-268 | At most one runner is not stopped. |
| Reconnect.StepConn | control-plane/src/pages/Events.tsx:201-268 | While the status is that of the runner that is not stopped, every step keeps it so but one: a ready that comes from a stopped runner while the newest one waits. |
| Reconnect.StatusFitsRunner | control-plane/src/pages/Events.tsx:201-268 | In every run without such a ready the status is that of the runner that is not stopped. |
| Reconnect.StaleReadyExample | control-plane/src/pages/Events.tsx:237-241 | Such a ready makes the page say live while its own runner waits. |
| Reconnect.RunsIffResumed | control-plane/src/pages/Events.tsx:201-229 | Over every run a runner is running if and only if the last effect found the page live, not paused and not blocked, and the page has not been left since. |
| Reconnect.EffectShows | control-plane/src/pages/Events.tsx:201-229 | An effect stops every runner there was; if it resumes it opens one connection of a new runner, which continues after the largest number; if not it opens none, waits for nothing, and shows paused exactly when live, paused and not blocked, else off. |
| Reconnect.OpensIff | control-plane/src/pages/Events.tsx:201-260 | A step opens a connection if and only if it is an effect that resumes or the end of an unstopped runner's wait. |
| Reconnect.PauseHolds | control-plane/src/pages/Events.tsx:202-213 | After an effect that does not resume, and until the next one, no connection is opened and nothing is waited for, and the page says paused, or off, if and only if no stopped stream has reported ready meanwhile. |
| Reconnect.SecondsShown | control-plane/src/pages/Events.tsx:220-260 | In every run the seconds on show are those that the unstopped runner waits, and none while it streams. |
| EventsPage.EventsPage.constructor | control-plane/src/pages/Events.tsx:143-159 | A new page is the initial state, and keeps the invariant. |
| EventsPage.EventsPage.StopRunner | control-plane/src/pages/Events.tsx:262-267 | The newest runner is stopped. |
| EventsPage.EventsPage.Connect | control-plane/src/pages/Events.tsx:226-244 | The head of the loop opens a connection that resumes after the cursor. |
| EventsPage.EventsPage.OnEffect | control-plane/src/pages/Events.tsx:201-229 | A run of the effect stops the old runner and starts a new one, or shows off or paused: the step of EffectShows. |
| EventsPage.EventsPage.OnLeave | control-plane/src/pages/Events.tsx:262-267 | The cleanup stops the runner, and changes nothing else. |
| EventsPage.EventsPage.OnEvent | control-plane/src/pages/Events.tsx:233-236 | An event moves the cursor if its number is larger and is merged into the tail. |
| EventsPage.EventsPage.OnReady | control-plane/src/pages/Events.tsx:237-241 | Ready resets the attempts and shows live. |
| EventsPage.EventsPage.OnStreamOver | control-plane/src/pages/Events.tsx:245-258 | A stream that is over ends a stopped runner and sends another one into its wait. |
| EventsPage.EventsPage.OnWaitOver | control-plane/src/pages/Events.tsx:226-244 | After the wait a stopped runner ends and another one connects again. |
| EventsPage.EventsPage.OnClear | control-plane/src/pages/Events.tsx:337-337 | Clearing the view empties the tail and keeps the cursor. |
| HashRoute.ReadBack | control-plane/src/api/hash-route.ts:223-296 | The hash of a normal route parses to the route, to itself as canonical hash, with nothing to rewrite. |
| HashRoute.RoundTrip | control-plane/src/api/hash-route.ts:223-296 | Printing and parsing gives a route back if and only if it is normal. |
| HashRoute.PrintingIsInjective | control-plane/src/api/hash-route.ts:223-239 | Different normal routes have different hashes. |
| HashRoute.CanonicalFixedPoint | control-plane/src/api/hash-route.ts:250-296 | For every string, parsing the canonical hash gives the same canonical hash with nothing to rewrite, and the same route if and only if the head of the hash is not a name every object inherits. |
| HashRoute.InheritedParse | control-plane/src/api/hash-route.ts:289-290 | A hash that is an inherited name parses to no tab, and its canonical hash to the overview. |
| HashRoute.ConstructorExample | control-plane/src/api/hash-route.ts:289-290 | The hash of the name constructor is such a hash. |
| HashRoute.HashOutcome | control-plane/src/api/hash-route.ts:250-296 | Every string parses to a normal route with its printed hash, to the overview for an empty hash, or to an inherited name. Which route it is, is the subject of AliasLeadsToTab, NameInAnyCase and UnknownIff. |
| HashRoute.SegmentOfTab | control-plane/src/api/hash-route.ts:77-178 | The two segment tables invert each other on the tabs printed by their segment. |
| HashRoute.TraceLink | control-plane/src/api/traces-ops.ts:74-82 | A trace link leads back to the trimmed id, or to no id if that is not shaped like one. |
| HashMeaning.AliasLeadsToTab | control-plane/src/api/hash-route.ts:124-178 | A hash whose head is one of the ten aliases leads to the tab meant, has the canonical hash of the tab's own name, is rewritten to it, and is not unknown. |
| HashMeaning.AliasInAnyCase | control-plane/src/api/hash-route.ts:262-296 | The same on the text of the hash, for every way to write the alias in capital and small letters. |
| HashMeaning.NameInAnyCase | control-plane/src/api/hash-route.ts:288-296 | A tab's own name in any letter case leads to the tab and is not rewritten. |
| HashMeaning.TableHolds | control-plane/src/api/hash-route.ts:124-178 | The segment table holds the names of the tabs and the aliases and, but for the inherited names, nothing else. |
| HashMeaning.UnknownIff | control-plane/src/api/hash-route.ts:262-291 | A hash is unknown if and only if its head is no segment, or a tab of the demo outside of it, or the overview with more segments behind it; it then leads to the overview. |
| HashMeaning.RewriteIff | control-plane/src/api/hash-route.ts:250-296 | A hash is left as it is typed if and only if it is empty, or its segments are those of its canonical hash up to the letter case of the head and the page and the white space around a trace id; a trace link without the slash is always rewritten. |
| HashMeaning.ShortLinkMeans | control-plane/src/api/hash-route.ts:254-257 | A trace link without the slash leads where the one with the slash leads, if and only if the id holds no slash or does not begin with a part that is shaped like an id. |
| HashMeaning.ShortLinkExample | control-plane/src/api/hash-route.ts:254-257 | For the id a/b the two links lead to different routes. |
| Sorting.SortSorts | control-plane/src/api/chat-turn.ts:59-59 | Sorting by a total order yields an ordered list. |
| Mentions.NextAt | control-plane/src/api/chat-turn.ts:195-196 | The inner loop finds the next "@" or the end. |
| Mentions.HighlightMentions | control-plane/src/api/chat-turn.ts:173-201 | The spans cut the content; a mention span is "@" and the longest listed name that stands there with a boundary behind it, a plain span holds "@" at most at its beginning and begins no listed name. |
| Mentions.HighlightsUnique | control-plane/src/api/chat-turn.ts:173-201 | There is only one such list of spans. |
| Mentions.HighlightsKeepText | control-plane/src/api/chat-turn.ts:173-201 | The spans joined are the content. |
| Mentions.MentionIffItEnds | control-plane/src/api/chat-turn.ts:181-201 | Behind "@" a listed name is a mention if and only if the text ends there or goes on with white space or one of ten punctuation marks. |
| Mentions.QueryIff | control-plane/src/api/chat-turn.ts:125-130 | The query is what stands between an "@" and the caret, if and only if the "@" begins the text or follows white space and neither white space nor another "@" comes in between. |
| Mentions.MentionReplacesToken | control-plane/src/api/chat-turn.ts:125-163 | Inserting a mention replaces the token under the caret and nothing else, keeps the text behind the caret, puts the caret behind the mention, and leaves it in no token. |
| Mentions.InsertedMentionIsHighlighted | control-plane/src/api/chat-turn.ts:151-201 | Among names free of "@" that hold the trimmed name, the scanner marks a mention that begins at the inserted "@" and with the name. |
| Mentions.InsertedMentionIsPresent | control-plane/src/api/chat-turn.ts:165-169 | The text still holds the mention just inserted. |
| ModelChoices.ChoiceRoundTrip | control-plane/src/api/chat-turn.ts:16-44 | A choice comes back trimmed from its select value if and only if it has a model and its trimmed provider holds no U+0001 and does not begin with U+0002. |
| ModelChoices.ModelOptions | control-plane/src/api/chat-turn.ts:46-61 | The menu lists offered choices only, each key once and each offered key, in order if localeCompare is one. |
| ModelChoices.OfferedIff | control-plane/src/api/chat-turn.ts:49-53 | On offer are exactly the trimmed pairs, neither half empty, of the agents that are not switched off. |
| ModelChoices.AllOptionsListed | control-plane/src/api/chat-turn.ts:46-61 | Every choice on offer is listed if and only if different choices on offer have different keys. |
| ModelChoices.PlainProvidersListAll | control-plane/src/api/chat-turn.ts:46-61 | With providers free of U+0001 the menu lists every offered pair exactly once. |
| ModelChoices.SharedKeyExample | control-plane/src/api/chat-turn.ts:16-21 | Two agents whose different choices share a key: one is missing from the menu. |
| ModelChoices.CollapseSwitchRuns | control-plane/src/api/chat-turn.ts:84-98 | Kept are the rows that are no event, and of each run of events the last. |
| ModelChoices.CollapseMeaning | control-plane/src/api/chat-turn.ts:84-98 | No two events stay next to each other, and every other row stays. |
| ModelChoices.CollapseParts | control-plane/src/api/chat-turn.ts:84-98 | Rows collapse part by part wherever no run of events is cut. |
| ModelChoices.CollapseRun | control-plane/src/api/chat-turn.ts:88-95 | A run of events collapses to its last one, and a row that is no event stays. |
| TokenShape.CutShowsNoToken | control-plane/src/api/activity-ops.ts:98-110 | Cutting a text short and marking the cut shows no credential that was not there. |
| PublicKeys.PublicKeysAreShown | control-plane/src/api/activity-ops.ts:45-104 | At every depth of every result no key holds, in any letter case, one of the listed secret names unless it ends in `_set`, and none is one of the listed payload names. |
| PublicKeys.KeyIsShownIff | control-plane/src/api/activity-ops.ts:100-131 | An object of one entry shows it if and only if its key is such a key, not empty and not `__proto__`; otherwise there is no metadata. |
| PublicKeys.SetFlagsAreShown | control-plane/src/api/activity-ops.ts:102-102 | `secret_set` and `key_set` are shown, and `secret` is not. |
| PublicKeys.SummaryKeysAreShown | control-plane/src/api/events-ops.ts:113-130 | At every depth of every summary no key holds, in any letter case, a secret name or a payload name. |
| PublicKeys.SummaryKeepsIff | control-plane/src/api/events-ops.ts:113-127 | An entry of an object is kept in a summary if and only if its key is such a key and not `__proto__`. |
| PublicKeys.TextIsShown | control-plane/src/api/activity-ops.ts:106-114 | A text without a credential and without NULs is shown up to 200 characters, with a mark if it is longer; one with a credential is not shown. |
| PublicKeys.ItemsAreShown | control-plane/src/api/activity-ops.ts:116-116 | Of a list the first 16 items are shown, each in its public form. |
| PublicKeys.KeysAreTokens | control-plane/src/api/activity-ops.ts:98-98 | A word that begins with sk- in any letter case and eight key characters is a credential to both files. |
| PublicKeys.BearersAreTokens | control-plane/src/api/activity-ops.ts:98-98 | So is the word Bearer in any letter case with white space and eight credential characters behind it. |
| PublicKeys.PrefixesAreEventTokens | control-plane/src/api/events-ops.ts:99-99 | A summary also hides a word that begins with one of four provider prefixes. |
| PublicMeta.PublicMetaOf | control-plane/src/api/activity-ops.ts:121-132 | The loop over an object's entries computes the public object, which KeyIsShownIff and FirstVisibleAreKept describe. |
| PublicMeta.PublicValueOf | control-plane/src/api/activity-ops.ts:112-119 | The public form of a value, by its kind. |
| PublicMeta.FirstVisibleAreKept | control-plane/src/api/activity-ops.ts:121-132 | The properties kept are the first 16 visible entries in order, all of them if and only if none of these has the key `__proto__`. |
| PublicMeta.ProtoExample | control-plane/src/api/activity-ops.ts:125-130 | Of two visible entries the one with the key __proto__ is lost, though there is room for both. |
| PublicMeta.PublicIsBounded | control-plane/src/api/activity-ops.ts:112-132 | For every value the result has, at every depth, no hidden key, at most 16 entries and items, and texts of at most META_CAP + 1 characters. Which keys are hidden is the subject of PublicKeysAreShown. |
| PublicMeta.PublicIsStable | control-plane/src/api/activity-ops.ts:112-132 | Making a value public twice is making it public once if and only if no text among the first 16 items and the kept entries, at any depth, turns into a credential when NULs are taken out; the same condition says when the result holds no credential. |
| PublicMeta.NulFreeIsStable | control-plane/src/api/activity-ops.ts:112-132 | Without NULs that condition holds of every value. |
| PublicMeta.UnchangedMeans | control-plane/src/api/activity-ops.ts:112-132 | A value is left as it is if and only if it is within these bounds already. |
| PublicMeta.TextStable | control-plane/src/api/activity-ops.ts:106-114 | What a text becomes stays as it is if and only if the text shows a credential itself, or shows none in its first META_CAP characters when NULs are taken out; always so without NULs. |
| PublicMeta.NulExample | control-plane/src/api/activity-ops.ts:106-114 | A text with a NUL whose public form would itself be redacted. |
| DropPayload.DropPayload | control-plane/src/api/events-ops.ts:118-130 | The recursion over arrays and objects computes the value without its payload. |
| DropPayload.DropsExactlyPayload | control-plane/src/api/events-ops.ts:113-130 | The result holds no hidden key and no credential at any depth; a value is left as it is if and only if that holds of it; dropping twice is dropping once. |
| DropPayload.EntryByEntry | control-plane/src/api/events-ops.ts:118-130 | Entries are judged one by one by their keys and stay in order. |
| VaultGraph.Add | control-plane/src/api/vault-ops.ts:180-188 | Adding a node keeps the list the first distinct nodes wanted, and the flag exact. |
| VaultGraph.AddTargets | control-plane/src/api/vault-ops.ts:193-200 | The loop over the outbound links adds their far ends. |
| VaultGraph.AddSources | control-plane/src/api/vault-ops.ts:201-204 | The loop over the inbound links adds where they begin. |
| VaultGraph.FirstLinks | control-plane/src/api/vault-ops.ts:206-213 | The loop over all links keeps the first 80 and sets the flag if there are more. |
| VaultGraph.BoundNeighborhood | control-plane/src/api/vault-ops.ts:168-215 | The first distinct nodes up to the cap in the order selected, outbound, inbound; the first 80 links; truncated if and only if a distinct node or a link is left out. |
| VaultGraph.FarEndTitle | control-plane/src/api/vault-ops.ts:163-200 | The node at the far end of a link has the trimmed title and the path of the first document with its id; failing that the text of the link, and failing that the id. |
| VaultGraph.NearEndTitle | control-plane/src/api/vault-ops.ts:163-204 | The node that an inbound link comes from has the trimmed title and the path of the first document with its id, or the id. |
| VaultGraph.FirstOfEachMeaning | control-plane/src/api/vault-ops.ts:180-188 | The distinct nodes hold each wanted id once, by the first node that has it, and no other. |
| VaultGraph.FirstOfEachGrows | control-plane/src/api/vault-ops.ts:180-188 | Distinct nodes stand in the order in which they were wanted first. |
| VaultGraph.UntruncatedIsComplete | control-plane/src/api/vault-ops.ts:168-215 | An untruncated neighbourhood holds every link, the node at either end of each, also for link texts that lead nowhere, and the selected document. |
| VaultGraph.ReadDistinct | control-plane/src/api/vault-ops.ts:232-246 | The node loop finds the first distinct readable nodes, and sets the flag if and only if one is left out. |
| VaultGraph.ReadLinks | control-plane/src/api/vault-ops.ts:247-263 | The edge loop finds the first 80 readable links, and sets the flag if and only if an object row follows them. |
| VaultGraph.NormalizeGraph | control-plane/src/api/vault-ops.ts:217-266 | The graph read from a reply: distinct readable nodes up to the cap, the first 80 readable links, and the flag. |
| VaultGraph.LossShows | control-plane/src/api/vault-ops.ts:217-266 | Whatever is left out shows in the flag; and the flag is exact if and only if an object row behind the 80th link implies that a readable link or a distinct node is left out. |
| VaultGraph.VainFlagExample | control-plane/src/api/vault-ops.ts:249-263 | Eighty readable links and an object without a beginning behind them: the flag is set though nothing that can be read is left out. |
| VaultGraph.NormalisedIsNormal | control-plane/src/api/vault-ops.ts:217-266 | Every graph that is read is normal: within the caps, with distinct ids, every node with a title and every link with a beginning. |
| VaultGraph.NormalGraphs | control-plane/src/api/vault-ops.ts:217-266 | A graph comes back unchanged from its written form if and only if it is normal. |
| Paging.ClampFindsThePage | control-plane/src/api/page-state.ts:95-102 | The clamped offset is the one page start whose page holds the row asked for, or the first or last row for an offset out of range. |
| Paging.ClampIdempotent | control-plane/src/api/page-state.ts:95-102 | Clamping yields a page start, and a clamped offset stays. |
| Paging.RowIsOnItsPage | control-plane/src/api/page-state.ts:104-108 | Every row is on the page shown for its index, and a list with rows never shows an empty page. |
| Paging.PagesTile | control-plane/src/api/page-state.ts:104-108 | The pages laid end to end are the list. |
| Paging.PermissionMessages | control-plane/src/api/page-state.ts:3-21 | An error is a permission error if and only if its message begins with 401 or 403 and a word end. |
| Paging.StatesMean | control-plane/src/api/page-state.ts:28-67 | Empty shows only after a finished load of nothing without an error; items never beside a refusal, and after another failure only when stale ones may be kept; each of the six kinds has its exact condition. |
| ActivityCursor.StepKeepsTrail | control-plane/src/pages/ActivityPage.tsx:100-122 | Next keeps the path of reported cursors if and only if the page on show is the one asked for; every other step keeps it. |
| ActivityCursor.RunKeepsTrail | control-plane/src/pages/ActivityPage.tsx:76-122 | Over every run in which Next is pressed only then, the stack and the cursor are that path. |
| ActivityCursor.RunIsRooted | control-plane/src/pages/ActivityPage.tsx:100-122 | Over every run, with any failures and races, the path begins at the newest page and passes it only once. |
| ActivityCursor.OrderlyRuns | control-plane/src/pages/ActivityPage.tsx:76-122 | Provided each load ends well before filters change again, the path is always the one of reported cursors, and the page on show is its end when nothing is loading. |
| ActivityCursor.PrevUndoesNext | control-plane/src/pages/ActivityPage.tsx:107-122 | Prev after Next gives back the cursors and asks for their page, whatever loads end in between, well or badly, and however often the page is refreshed. |
| ActivityCursor.PrevRestoresThePage | control-plane/src/pages/ActivityPage.tsx:107-122 | If both loads end well and the first page is answered as before, the whole state is what it was. |
| ActivityCursor.FiltersRestart | control-plane/src/pages/ActivityPage.tsx:100-105 | A change of filters restarts at the newest page from any state. |
| ActivityCursor.LoadInStep | control-plane/src/pages/ActivityPage.tsx:88-97 | A load that ends well brings the page in step if and only if it was asked for the cursor and the filters that are set. |
| ActivityCursor.FailureShows | control-plane/src/pages/ActivityPage.tsx:93-97 | A load that fails keeps the page and the path and shows its error; Next and Prev are then blocked if and only if nothing was loaded yet, the page shows no records, or the error is a refusal. |
| ActivityCursor.RefreshRepairs | control-plane/src/pages/ActivityPage.tsx:130-130 | A refresh that succeeds brings the page back in step with the cursor, whatever else is in flight. |
| ActivityCursor.FailureExample | control-plane/src/pages/ActivityPage.tsx:93-114 | After a failed load Next takes the same cursor twice: success is a needed hypothesis. |
| ActivityCursor.RaceExample | control-plane/src/pages/ActivityPage.tsx:76-105 | An older load that ends last makes Next follow a cursor of the other list. |
| ActivityPager.ActivityPager.constructor | control-plane/src/pages/ActivityPage.tsx:47-105 | A new page has begun to load the newest page. |
| ActivityPager.ActivityPager.StartLoad | control-plane/src/pages/ActivityPage.tsx:76-87 | A load asks for the given cursor under the filters of this moment. |
| ActivityPager.ActivityPager.OnFilters | control-plane/src/pages/ActivityPage.tsx:100-105 | The effect of changed filters is the filter step. |
| ActivityPager.ActivityPager.OnRefresh | control-plane/src/pages/ActivityPage.tsx:130-130 | Refresh loads the current cursor again. |
| ActivityPager.ActivityPager.GoNext | control-plane/src/pages/ActivityPage.tsx:107-114 | Next does the Next step, or nothing when blocked or without a next cursor. |
| ActivityPager.ActivityPager.GoPrev | control-plane/src/pages/ActivityPage.tsx:116-122 | Prev does the Prev step, or nothing when blocked. |
| ActivityPager.ActivityPager.OnLoaded | control-plane/src/pages/ActivityPage.tsx:88-97 | A load that succeeds shows its page and clears the error. |
| ActivityPager.ActivityPager.OnFailed | control-plane/src/pages/ActivityPage.tsx:93-97 | A load that fails shows the error and keeps the page. |
| AllowList.ParseAllowFrom | control-plane/src/api/channel-ops.ts:111-121 | The parts of the text, trimmed, without empty ones, of equal ones the first. |
| AllowList.ParsedIds | control-plane/src/api/channel-ops.ts:111-121 | The ids are distinct, not empty, free of white space and commas, and are exactly the words of the text. |
| AllowList.IdsHoldNoSeparator | control-plane/src/api/channel-ops.ts:111-121 | No id of any text is empty or holds a comma or white space. |
| AllowList.IdsGrow | control-plane/src/api/channel-ops.ts:111-121 | The ids stand in the order in which they are met first. |
| AllowList.WrittenAndRead | control-plane/src/api/channel-ops.ts:111-125 | A list comes back from its text if and only if its entries are distinct, not empty and free of white space and commas. |
| AllowList.ParseFormatParse | control-plane/src/api/channel-ops.ts:111-125 | Parsing, formatting and parsing again is parsing, for every text. |

## Left out

Taken as inputs or assumed:

- fetch, timers, AbortController, TextDecoder and localStorage: the readers take decoded chunks and the decoder's last output, the pages take events.
- JSON.parse and JSON.stringify: what a data field holds is given by a function; elsewhere JSON is a datatype whose numbers are integers.
- localeCompare is a given comparison; the menu is ordered if it is a total order.
- publicSummary and publicHasSecrets are given functions in the live tail; the recursion inside publicSummary is `DropPayload`.
- Strings are sequences of characters, not of UTF-16 code units, so a cut inside a surrogate pair is not shown.
- Lower case is that of ASCII letters and the Kelvin sign, which is all that a comparison with ASCII names can tell apart.
- Page sizes, offsets, totals, caps, cursors and event numbers are integers; NaN and fractions are not modelled.

Narrowed in the pages:

- The chat page leaves out agents, session metadata, attachments, the composer, onGone and the error texts; whether metadata is being saved is an input of a send, and the handlers read the state of the latest render.
- ChatPage.ChatPage.OnSaveEnds: does not set the agent and the model back after a save that failed, since the page model does not hold them; that a save has begun before it ends is not modelled either.
- React runs a due switch effect before it renders the next session, so a render is enabled only when no effect is due.
- Names of rows that the gateway returns are taken to differ from the local ids of the page.
- `delivered` and `replaced` of a send, `connections` of the events page and `trail` of the activity page are history variables: the code keeps none of them.
- The history list and the filters of the events page, and streamErr, are left out; the transient error status before a retry is not visible between two awaits.
- On the activity page a change of filters and its effect are one step; the records are counted, not kept; the leak check is left out.
- An array in the place of an object is not modelled by `PublicMeta.PublicMetaOf`; its entries would be its indices.
- The keys of an object are taken in the order of Object.entries.

Not modelled, since it would only add easy members:

- classifyStreamConn, applyFilters, uniqueActors, parseDetail and the other classify functions.
- ensureModelChoice, mentionStep, filterMentionAgents, the label and caption helpers.
- parseVaultFrontmatter, classifyDoc and the path helpers of the vault.
- The remaining channel operations, form validators, API wrappers, rendering, styles and translations.
- The MCP server, the Go gateway and the desktop shell: thin code over parts that are not shown.
