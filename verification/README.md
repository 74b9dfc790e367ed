# Paseo protocol and client core: models and proofs

A Dafny model of the parts of Paseo that carry state across messages, with proofs of what they promise.

* **Terminal snapshots.** `TerminalSnapshot` renders a cell grid with scrollback and soft-wrap flags to one
  control stream, in the renderer's own loops. `ReferenceTerminal` is an independent terminal (pen, cursor,
  deferred autowrap, an unbounded list of lines) that reads such a stream by ECMA-48: SGR is section 8.3.117,
  CUP section 8.3.21. `SnapshotOps` and `SnapshotReplay` show that replaying the stream rebuilds the screen, and
  `SnapshotScreen` says what is on that screen in the snapshot's own fields.
  Hypotheses (`SnapshotOps.WellFormed`): at most one printable character per cell, rows no longer than `cols`,
  `cols` and `rows` at least 1, as many grid rows as `rows`, colours in range for their mode, and a fresh terminal
  with autowrap on. With wrap flags the replay is exact if and only if each row that continues another renders a
  column; that condition is part of the theorem.
* **Input modes.** `InputMode` is the tracker class and its regular-expression scan, `InputModeAutomaton` the
  character-by-character recogniser it agrees with, `InputModeLaws` the round trip of the preamble and the
  keyboard stack, `InputModeTable` what every single sequence does. Parameters are natural numbers.
* **Encrypted channel.** `EncryptedChannel` is one end (class and value), `ChannelProtocol` both ends over two
  FIFO queues with retries, sends, flush turns, closing and stray unsealed frames. `ChannelSafety` holds in all
  runs, `ChannelProgress` in those without stray frames; `ChannelTable` has each case by itself. The client's key
  pair is made for the one channel, so a stray hello leads to its key only after the client has sent one. Keys come
  from a symbolic derivation; where both ends must agree it is assumed to commute, and a frame opens only under the
  key that sealed it.
* **Daemon client.** `ClientState` gives each entry point as a step on values, `DaemonClient` the class whose
  methods are proved to be those steps, `ClientRuns` what holds in every run. `ClientFates` says which event sends,
  queues or gives up which message and ends which request, and `ClientTable` what each does to the connection.
  A request, its waiter and its message bear the number of the call.
* **Binary frames.** `BinaryFrames` is the wire format, `FileTransfers` the reassembly of interleaved files,
  `StreamRouter` the slot table of the terminal streams, `FrameTable` their bytes and entries.
* **Smaller cores.** `Highlighter` (tokeniser loops over a given list of spans), `BranchSlug`, and the rolling
  metrics: `RollingMetrics` on values, `MetricsWindow` on which buckets are kept, `RuntimeMetrics` as classes with
  timing objects on the heap. `HighlightedText`, `SlugText` and `MetricsTable` say what they give in plain terms.

Classes follow the source: fields updated in place, each method tied to a function of the old state, and the
properties proved about those functions over all inputs and runs. The main laws of the `...Table`, `...Fates`,
`...Screen` and `...Text` modules do not rest on the functions they pin down: they speak of fields, characters and
numbers.

Where the code does not keep a promise in general, the exact condition is proved: see
`SnapshotReplay.SnapshotReplays` (a continuation row that renders nothing), `InputModeAutomaton.ChunkIndependence`
(a chunk ending in a lone escape), `ClientRuns.InfoFlushes` (re-subscribing that throws),
`ClientRuns.CloseDropsPromise` and
`ClientRuns.RefusalIsRemembered` (connect promises that are dropped, or remembered after a refusal),
`ClientRuns.TimerApartIff` (an attempt started while the reconnect timer of an earlier loss is armed),
`StreamRouter.StepInverse` (the empty terminal id), `FileTransfers.FinishClears` (completed bytes left behind) and
`MetricsWindow.WindowExactIff` (a clock that ran back).

`dafny verify dfyconfig.toml` checks the whole project.

## Model

| member | source | states |
|---|---|---|
| TerminalSnapshot.RenderTerminalSnapshotToAnsi | packages/protocol/src/terminal-snapshot.ts:29-62 | the string the array pushes build is the text whose screen `SnapshotReplay.SnapshotReplays` and `SnapshotScreen.ScreenShows` give |
| TerminalSnapshot.RenderRows | packages/protocol/src/terminal-snapshot.ts:40-49 | the row loop builds the rows' text, with a hard newline after every row but the last and the continuing ones |
| TerminalSnapshot.RenderTerminalRow | packages/protocol/src/terminal-snapshot.ts:82-103 | the column loop with its running `previousStyle` builds the row's text, of which `SnapshotReplay.RowReplays` and `SnapshotScreen.PlainRowIsItsText` speak |
| TerminalSnapshot.GetTerminalRowLength | packages/protocol/src/terminal-snapshot.ts:105-130 | the backward scan finds the number of columns up to the last one that is not a default blank |
| TerminalSnapshot.StyleToAnsi | packages/protocol/src/terminal-snapshot.ts:162-193 | the pushes into `codes` build the style's text |
| ReferenceTerminal.DecodeAll | packages/protocol/src/terminal-snapshot.ts:51-61 | a stream of spelled control sequences and characters (ECMA-48, sections 8.3.21 and 8.3.117) is read back as exactly the operations that spelled it |
| SnapshotOps.PrintedColor | packages/protocol/src/terminal-snapshot.ts:195-218 | the colour codes are the printed numbers of the colour's parameters, in all three modes and out of them |
| SnapshotOps.StyleTextIsSgr | packages/protocol/src/terminal-snapshot.ts:162-193 | the text of every in-range style is one well-formed SGR sequence |
| SnapshotOps.SgrInvertsStyle | packages/protocol/src/terminal-snapshot.ts:162-218 | decoding the parameters of a style, from whatever pen, gives exactly that style: all flags, and 16, 256 and 24-bit colours for both grounds |
| SnapshotOps.SnapshotDecodes | packages/protocol/src/terminal-snapshot.ts:29-62 | the rendered text of a well-formed snapshot is read as the intended operations and nothing else |
| SnapshotReplay.ColumnReplays | packages/protocol/src/terminal-snapshot.ts:88-96 | the invariant of the column loop: if the pen is the previous column's style, drawing one column draws its character in its style and makes its style the pen |
| SnapshotReplay.RowReplays | packages/protocol/src/terminal-snapshot.ts:82-103 | from the default pen a rendered row draws every column with its style, touches nothing else, and gives the default pen back |
| SnapshotReplay.TrimmingLosesBlanks | packages/protocol/src/terminal-snapshot.ts:84-85 | trimming and padding lose default blanks only: drawn columns and blanks together are the whole row |
| SnapshotReplay.WholeRowWraps | packages/protocol/src/terminal-snapshot.ts:43-45 | after a full row, a row that renders something goes to the next line, marked as a continuation |
| SnapshotReplay.RowsReplay | packages/protocol/src/terminal-snapshot.ts:40-49 | after any number of rows the screen is what these rows should look like, marks included |
| SnapshotReplay.MarksStay | packages/protocol/src/terminal-snapshot.ts:40-49 | output without cursor jumps never changes the mark of a line the cursor has reached |
| SnapshotReplay.SnapshotReplays | packages/protocol/src/terminal-snapshot.ts:29-62 | whole-screen replay, for every well-formed snapshot: lines, styles, continuation marks, pen, cursor and autowrap come out as asked if and only if every row that continues another renders a column |
| SnapshotReplay.VerbatimSnapshotReplays | packages/protocol/src/terminal-snapshot.ts:37-61 | without wrap flags the replay needs no condition, and no line is marked |
| SnapshotScreen.ScreenShows | packages/protocol/src/terminal-snapshot.ts:29-62 | the whole screen in the snapshot's own fields: each line's width and mark, each column's character, colours and attributes, cursor place, shape, blinking and visibility, pen and autowrap |
| SnapshotScreen.ContinuationsShowIff | packages/protocol/src/terminal-snapshot.ts:40-49 | the condition of the replay theorem in the rows' own fields |
| SnapshotScreen.RowLengthIs | packages/protocol/src/terminal-snapshot.ts:105-130 | the length of a row is the number up to its last column that has a character other than a space, a colour or an attribute |
| SnapshotScreen.StyleSpelled | packages/protocol/src/terminal-snapshot.ts:162-218 | the exact text of every style: reset, attributes in order, then both grounds, each colour by its mode, in range or not |
| SnapshotScreen.StyleWrittenWhereItChanges | packages/protocol/src/terminal-snapshot.ts:88-96 | a column is its bare character if and only if it looks like the column before it |
| SnapshotScreen.PlainRowIsItsText | packages/protocol/src/terminal-snapshot.ts:82-103 | a row without colours and attributes is its characters, with a space for an empty cell |
| CsiText.ParamsRoundTrip | packages/protocol/src/terminal-snapshot.ts:192 | numbers joined by semicolons are read back as the same numbers |
| Decimal.ParsePrint | packages/protocol/src/terminal-input-mode.ts:24-38 | printing and reading a decimal numeral is the identity on all naturals |
| InputMode.TerminalInputModeTracker.FeedChunk | packages/protocol/src/terminal-input-mode.ts:70-110 | one feed on the fields is the step that the automaton lemmas and `InputModeTable.KeyboardFed` describe: state, `changed`, responses and carried text |
| InputMode.TerminalInputModeTracker.ApplyKittyKeyboardSequence | packages/protocol/src/terminal-input-mode.ts:145-182 | push, set, pop and query on flags and stack in place, as `InputModeTable` tabulates them; nothing else changes |
| InputMode.TerminalInputModeTracker.ApplyPrivateModeSequence | packages/protocol/src/terminal-input-mode.ts:184-193 | mode 9001 among the parameters sets or resets the win32 mode; nothing else changes |
| InputMode.TerminalInputModeTracker.GetPreamble | packages/protocol/src/terminal-input-mode.ts:134-143 | the text that `InputModeLaws.PreambleRoundTrip` speaks about |
| InputMode.TerminalInputModeTracker.Reset | packages/protocol/src/terminal-input-mode.ts:112-117 | the tracker is as new |
| InputMode.ParsePrivateModeParams | packages/protocol/src/terminal-input-mode.ts:40-48 | the loop collects exactly the numerals of the list |
| InputMode.Exec | packages/protocol/src/terminal-input-mode.ts:82-88 | the search returns the leftmost match at or after the position, or none exists; it consumes text |
| InputModeAutomaton.MatchIsSpelling | packages/protocol/src/terminal-input-mode.ts:18-21 | the regular expression matches from p to e exactly when the text between spells a sequence |
| InputModeAutomaton.ScanAgrees | packages/protocol/src/terminal-input-mode.ts:82-98 | the leftmost non-overlapping matches are what a character-by-character automaton emits |
| InputModeAutomaton.KeptIsHeld | packages/protocol/src/terminal-input-mode.ts:100-107 | looking back for the last introducer keeps exactly the text of the automaton's unfinished introducer |
| InputModeAutomaton.FeedRunsAutomaton | packages/protocol/src/terminal-input-mode.ts:70-110 | one feed runs the automaton over carried text and chunk |
| InputModeAutomaton.ApplyAllAppend | packages/protocol/src/terminal-input-mode.ts:78-98 | effects compose: responses concatenated, `changed` or-ed |
| InputModeAutomaton.ChunkIndependence | packages/protocol/src/terminal-input-mode.ts:70-110 | feeding a then any b equals feeding a+b (state, carried text, responses, `changed`) if and only if a does not end in an escape |
| InputModeAutomaton.EscapeIsForgotten | packages/protocol/src/terminal-input-mode.ts:100-107 | after a chunk that ends in an escape, a query that completes it goes unanswered, though unsplit it is answered |
| InputModeLaws.FeedSpelled | packages/protocol/src/terminal-input-mode.ts:70-110 | any run of whole sequences is recognised in order, whatever unfinished text precedes it |
| InputModeLaws.PreambleRoundTrip | packages/protocol/src/terminal-input-mode.ts:119-143 | feeding the preamble of any tracker to a fresh one restores its state, answers nothing and carries nothing |
| InputModeLaws.PopManyExact | packages/protocol/src/terminal-input-mode.ts:162-168 | popping n entries restores the n-th saved flags, or 0 with an empty stack past the bottom |
| InputModeLaws.PopIsSinglePops | packages/protocol/src/terminal-input-mode.ts:162-168 | one pop of n equals n single pops, also past the bottom |
| InputModeLaws.NestedRunRestores | packages/protocol/src/terminal-input-mode.ts:70-182 | output, with any other text in it, whose pushes and pops balance and that sets flags only inside its pushes leaves flags and stack as they were |
| InputModeLaws.NestedSequencesRestore | packages/protocol/src/terminal-input-mode.ts:145-182 | the same for output made of such sequences alone, after which nothing is carried over |
| InputModeTable.PushSets | packages/protocol/src/terminal-input-mode.ts:149-155 | a push puts the flags on the stack and sets those of its first parameter, 1 without one, whatever parameters follow |
| InputModeTable.SetSets | packages/protocol/src/terminal-input-mode.ts:156-161 | a set takes the flags of its first parameter, 0 without one, or 0 when the second is 0, and keeps the stack |
| InputModeTable.PopRestores | packages/protocol/src/terminal-input-mode.ts:162-172 | a pop goes down as many levels as its first parameter says, 1 without one |
| InputModeTable.QueryAnswered | packages/protocol/src/terminal-input-mode.ts:173-181 | a query is answered with the spelled flags; sequences with no prefix do nothing |
| InputModeTable.Win32Switched | packages/protocol/src/terminal-input-mode.ts:184-193 | `h` and `l` switch the win32 mode exactly when 9001 is in the list |
| InputModeTable.KeyboardFed | packages/protocol/src/terminal-input-mode.ts:70-182 | the same for sequences that arrive as text, after anything carried over |
| InputModeTable.Win32Fed | packages/protocol/src/terminal-input-mode.ts:70-193 | the same for the win32 mode |
| InputModeTable.CharacterClasses | packages/protocol/src/terminal-input-mode.ts:18-21 | which characters are parameters and prefixes |
| EncryptedChannel.KeysEqual | packages/relay/src/encrypted-channel.ts:453-460 | the loop that collects byte differences answers true exactly on equal keys |
| EncryptedChannel.Channel.constructor | packages/relay/src/encrypted-channel.ts:274-296 | a new channel is handshaking, with nothing queued |
| EncryptedChannel.Channel.HandleMessage | packages/relay/src/encrypted-channel.ts:302-383 | a frame changes fields and transport as the endpoint function says, for every kind of frame in every state |
| EncryptedChannel.Channel.HandleDaemonRehello | packages/relay/src/encrypted-channel.ts:412-433 | the same key answers ready; another key closes with 1008 and answers nothing |
| EncryptedChannel.Channel.Send | packages/relay/src/encrypted-channel.ts:385-401 | queued while handshaking, sealed and sent when open, refused otherwise |
| EncryptedChannel.Channel.FlushPendingSends | packages/relay/src/encrypted-channel.ts:403-410 | each queued message goes out once, sealed under the shared key, in order (`ChannelTable.FlushFramesAre`) |
| EncryptedChannel.Channel.Close | packages/relay/src/encrypted-channel.ts:435-438 | closed, and the transport is told the code |
| EncryptedChannel.Channel.OnTransportClosed | packages/relay/src/encrypted-channel.ts:287-291 | a closed transport closes the channel |
| EncryptedChannel.PreOpenWindow | packages/relay/src/encrypted-channel.ts:385-392 | after any sends before opening, the queue is exactly the last min(n, 200) of them in order |
| EncryptedChannel.FlushIsFaithful | packages/relay/src/encrypted-channel.ts:403-410 | whatever is sent, received or closed between the turns of the flush loop, queued messages go out in order, none twice and none lost while open; direct sends keep their order too |
| EncryptedChannel.WindowGoesOut | packages/relay/src/encrypted-channel.ts:385-410 | from n sends while handshaking to the end of the flush, with anything in between: of the last min(n, 200) messages a prefix has gone out in order, and all of them once the flush ends with the channel open |
| Base64.EncodedIsNotJson | packages/relay/src/encrypted-channel.ts:322-343 | a frame of base64 text (section 4 of RFC 4648) never looks like JSON handshake text |
| Base64.BraceAfterSpace | packages/relay/src/encrypted-channel.ts:322-330 | text is taken for JSON exactly when a brace follows nothing but white space |
| Base64.DecodeEncode | packages/relay/src/base64.ts:3-5 | decoding by groups of four characters gives the encoded bytes back |
| ChannelTable.HandshakingHears | packages/relay/src/encrypted-channel.ts:302-318 | while handshaking a ready opens the channel and hands over the queue; nothing else changes anything |
| ChannelTable.OpenHears | packages/relay/src/encrypted-channel.ts:319-383 | an open channel, frame by frame: what is delivered, answered and closed, with the codes 1008 and 1011 |
| ChannelTable.SendTable | packages/relay/src/encrypted-channel.ts:385-401 | what a send does in each state, with the bound of 200 |
| ChannelTable.FlushFramesAre | packages/relay/src/encrypted-channel.ts:403-410 | the loop's frames are the queued messages, each sealed, in order |
| ChannelTable.AllTurns | packages/relay/src/encrypted-channel.ts:403-410 | as many turns as messages send exactly these frames and leave none, so the loop and its turns speak of the same frames |
| ChannelTable.TurnAfterClose | packages/relay/src/encrypted-channel.ts:403-410 | a turn on a channel that has closed sends nothing |
| ChannelTable.WaitingDaemonHears | packages/relay/src/encrypted-channel.ts:203-245 | the first usable hello opens the daemon's channel under the key it leads to and is answered; other frames reject |
| ChannelTable.HandshakeStarts | packages/relay/src/encrypted-channel.ts:120-142 | both ends as they are made, under the client's derived key |
| ChannelTable.RetryRepeatsHello | packages/relay/src/encrypted-channel.ts:163-169 | the timer repeats the client's own hello while handshaking, and then stops |
| ChannelTable.ClientSends | packages/relay/src/encrypted-channel.ts:385-401 | what a send does to the client's end and to the wire in each state |
| ChannelTable.DaemonSends | packages/relay/src/encrypted-channel.ts:385-401 | the same for the daemon's end, once it has a channel |
| ChannelTable.ClientFlushes | packages/relay/src/encrypted-channel.ts:403-410 | a turn puts the next waiting message on the wire, or drops all on a closed channel |
| ChannelTable.LogIsWhatIsSent | packages/relay/src/encrypted-channel.ts:385-410 | the log of the flush law records exactly the frames that turns and sends put on the wire |
| ChannelSafety.SafeStep | packages/relay/src/encrypted-channel.ts:302-433 | the invariant of the two ends and both queues is kept by every action, stray frames included |
| ChannelSafety.FaithfulDelivery | packages/relay/src/encrypted-channel.ts:302-401 | in every run, whether or not the first hello could be sent, each side has received a prefix of what the other sealed; no handshake frame is delivered as data, and no message is on the wire unsealed |
| ChannelSafety.KeyIsStable | packages/relay/src/encrypted-channel.ts:412-433 | once derived, the daemon's key never changes, and a closed channel never opens again |
| ChannelSafety.RepeatedHello | packages/relay/src/encrypted-channel.ts:412-433 | a further hello with the key in use only adds one ready; any other key closes the channel, and then nothing is delivered or re-keyed in any continuation |
| ChannelSafety.ClosedDaemonIsInert | packages/relay/src/encrypted-channel.ts:319-319 | no continuation changes a closed daemon channel |
| ChannelProgress.KeyAgreement | packages/relay/src/encrypted-channel.ts:125-129 | when the client is open the daemon has derived the same key, and while neither end is closed everything sealed is delivered or in flight |
| ChannelProgress.AgreeRun | packages/relay/src/encrypted-channel.ts:125-243 | the agreement invariant over all runs of the two ends |
| ChannelProgress.DrainTerminates | packages/relay/src/encrypted-channel.ts:203-243 | deliveries and flush turns lower a measure on frames in flight and queued sends, so draining takes at most that many steps and closes nothing |
| ChannelProgress.DrainGoesOn | packages/relay/src/encrypted-channel.ts:203-243 | a drain that has not reached quiescence can go on |
| ChannelProgress.DrainCompletes | packages/relay/src/encrypted-channel.ts:203-243 | every drain extends to one that reaches quiescence |
| ChannelProgress.HandshakeProgress | packages/relay/src/encrypted-channel.ts:141-169 | from every state with neither end closed, one more hello and any full drain leave both ends open under equal keys with everything sealed delivered |
| DaemonClient.DaemonClient.constructor | packages/client/src/daemon-client.ts:840-886 | a new client is idle with nothing outstanding |
| DaemonClient.DaemonClient.Connect | packages/client/src/daemon-client.ts:936-955 | `connect` on the fields is the step of the run lemmas, with the promise remembered after the attempt |
| DaemonClient.DaemonClient.AttemptConnect | packages/client/src/daemon-client.ts:957-1110 | refused when disposed or not reconnecting, ignored while connecting, otherwise a new transport or the failure path; a live connection is not spared |
| DaemonClient.DaemonClient.SettleConnect | packages/client/src/daemon-client.ts:1112-1128 | the held promise is settled once and forgotten |
| DaemonClient.DaemonClient.Close | packages/client/src/daemon-client.ts:1130-1159 | everything outstanding is rejected, the promise dropped, the status disposed |
| DaemonClient.DaemonClient.EnsureConnected | packages/client/src/daemon-client.ts:1161-1175 | reconnecting is switched on; a connection is started unless one exists |
| DaemonClient.DaemonClient.ScheduleReconnect | packages/client/src/daemon-client.ts:4518-4585 | waiters and queue are cleared, the status falls, and a timer is armed or the promise refused |
| DaemonClient.DaemonClient.ReconnectTimerFires | packages/client/src/daemon-client.ts:4578-4584 | the timer retries unless reconnecting was given up |
| DaemonClient.DaemonClient.ConnectTimerFires | packages/client/src/daemon-client.ts:1020-1031 | a connection still being made is given up |
| DaemonClient.DaemonClient.TransportOpens | packages/client/src/daemon-client.ts:1034-1041 | hello is sent; if that throws the connection is lost |
| DaemonClient.DaemonClient.TransportCloses | packages/client/src/daemon-client.ts:1042-1057 | both timers stop, and the connection is lost |
| DaemonClient.DaemonClient.TransportFails | packages/client/src/daemon-client.ts:1058-1096 | a generic error only arms its timer, any other loses the connection |
| DaemonClient.DaemonClient.ErrorTimerFires | packages/client/src/daemon-client.ts:1068-1081 | loses a connection that is up or being made, and no other |
| DaemonClient.DaemonClient.LivenessLost | packages/client/src/daemon-client.ts:4616-4629 | the transport is dropped and the connection lost |
| DaemonClient.DaemonClient.HandleServerInfo | packages/client/src/daemon-client.ts:4631-4646 | connected, listeners run, then queue flushed and promise resolved, unless re-subscribing throws |
| DaemonClient.DaemonClient.SendRequest | packages/client/src/daemon-client.ts:1366-1398 | waiter and timeout first, then sent, queued or refused by status (`ClientFates.RequestFate`) |
| DaemonClient.DaemonClient.SendSessionMessageOrThrow | packages/client/src/daemon-client.ts:1300-1328 | sent when connected, queued when connecting, refused otherwise (`ClientFates.RequestFate`) |
| DaemonClient.DaemonClient.FlushPendingSendQueue | packages/client/src/daemon-client.ts:1333-1351 | the loop empties the queue in order: each message transmitted, or refused if its send throws or the connection is gone |
| DaemonClient.DaemonClient.RejectPendingSendQueue | packages/client/src/daemon-client.ts:1356-1364 | the loop refuses every queued message and empties the queue |
| DaemonClient.DaemonClient.QueueTimesOut | packages/client/src/daemon-client.ts:1313-1320 | one message leaves the queue, refused; the others keep their order |
| DaemonClient.DaemonClient.ResolveWaiters | packages/client/src/daemon-client.ts:4683-4694 | the loop settles exactly the waiters that the message answers and takes them out |
| DaemonClient.DaemonClient.ClearWaiters | packages/client/src/daemon-client.ts:4696-4704 | every waiter ends with the lost connection |
| DaemonClient.DaemonClient.WaiterTimesOut | packages/client/src/daemon-client.ts:4787-4795 | the waiter leaves and ends by timeout |
| DaemonClient.DaemonClient.Cancel | packages/client/src/daemon-client.ts:4806-4816 | an unsettled request ends as not sent; a settled one is left alone |
| ClientRuns.StepKeeps | packages/client/src/daemon-client.ts:936-1175 | every event keeps the invariant on waiters, messages and connect promises |
| ClientRuns.RequestSettlement | packages/client/src/daemon-client.ts:4762-4832 | over every interleaving, a request has a waiter exactly while it has not ended, and a timeout only with a waiter |
| ClientRuns.EndsOnce | packages/client/src/daemon-client.ts:4774-4784 | an ending, once there, stays in every continuation, and the waiter never returns |
| ClientRuns.ReplySettlesItsOwn | packages/client/src/daemon-client.ts:4683-4694 | with distinct ids a reply settles its own request alone and leaves every other waiter and timeout as it was |
| ClientRuns.LossLeavesNothing | packages/client/src/daemon-client.ts:4534-4537 | after `scheduleReconnect` or `close` no request is outstanding and no message queued, and those outstanding ended with the connection |
| ClientRuns.SendConservation | packages/client/src/daemon-client.ts:1300-1364 | in every run each message is exactly one of waiting, transmitted once, refused once; the queue leaves in the order of the calls |
| ClientRuns.InfoFlushes | packages/client/src/daemon-client.ts:4636-4644 | becoming connected leaves no message behind if and only if re-subscribing does not throw or nothing was queued |
| ClientRuns.QueueLeftConnected | packages/client/src/daemon-client.ts:4636-4644 | a run that ends connected with a message left in the queue |
| ClientRuns.QueueOnlyWhileConnecting | packages/client/src/daemon-client.ts:1311-1324 | if re-subscribing never throws, messages wait only while a connection is being made |
| ClientRuns.ConnectPromises | packages/client/src/daemon-client.ts:943-954 | every connect promise is held, or has ended, or was dropped by `close`: exactly one |
| ClientRuns.CloseDropsPromise | packages/client/src/daemon-client.ts:1134-1137 | `close` settles no promise, and drops one exactly when one is held |
| ClientRuns.RefusalIsRemembered | packages/client/src/daemon-client.ts:947-954 | a first attempt that fails at once, and no other, leaves a refused promise remembered, so that `connect` does nothing afterwards |
| ClientRuns.HeldPromiseSurvivesLoss | packages/client/src/daemon-client.ts:4518-4553 | while reconnecting is on, a loss leaves the held promise alone and the next connection opens it |
| ClientRuns.ConnectionSound | packages/client/src/daemon-client.ts:957-1159 | in every run a connection in use has its handlers, and a closed client has no transport and no timer |
| ClientRuns.ClosingIsFinal | packages/client/src/daemon-client.ts:1130-1159 | after `close` no continuation connects, queues or transmits anything |
| ClientRuns.TimerStep | packages/client/src/daemon-client.ts:936-969 | a step puts an armed reconnect timer beside a connection in use if and only if it is a `connect` or `ensureConnected` that starts an attempt during the back-off |
| ClientRuns.TimerApartIff | packages/client/src/daemon-client.ts:936-969 | over whole runs: a connection in use is at all times safe from the reconnect timer if and only if no such call is made |
| ClientRuns.OldTimerReplacesConnection | packages/client/src/daemon-client.ts:4578-4584 | in every run the timer does nothing to a live connection if it is not armed, and otherwise takes it down for a new attempt, with requests still waiting |
| ClientRuns.OldTimerCanBeArmed | packages/client/src/daemon-client.ts:936-969 | a run with such a call, ending in a live connection with the old timer armed |
| ClientFates.RequestFate | packages/client/src/daemon-client.ts:1300-1398 | a request adds its waiter and goes out exactly when the connection is live and its send does not throw, waits exactly while connecting, and is refused otherwise |
| ClientFates.InfoFate | packages/client/src/daemon-client.ts:1333-1351 | when connecting completes, the listeners' requests and then the queue go out in order, and exactly those that throw are refused; nothing of the queue if re-subscribing throws |
| ClientFates.OtherFate | packages/client/src/daemon-client.ts:1300-1364 | no other event transmits; the queue is refused as a whole by exactly the events that lose the connection, singly by its timeout |
| ClientFates.FatesOfRun | packages/client/src/daemon-client.ts:1300-1364 | over every run: the messages transmitted, at once or from the queue, and those refused are exactly those that an event of the run sends or gives up |
| ClientFates.RequestEnds | packages/client/src/daemon-client.ts:4683-4832 | how each event ends each request: by its own reply or error, its timeout, its refused send, a loss, or not at all |
| ClientFates.EndingOfRun | packages/client/src/daemon-client.ts:4683-4832 | over every run: a request has ended one way if and only if the first event to end it does so that way |
| ClientFates.ListenersWait | packages/client/src/daemon-client.ts:1366-1398 | requests made by listeners have their waiters, kinds and timeouts |
| ClientTable.LostStatus | packages/client/src/daemon-client.ts:4518-4585 | after a loss the client is disconnected, or still disposed, and its timer armed exactly when reconnecting is on |
| ClientTable.LostTransport | packages/client/src/daemon-client.ts:1020-1096 | which losses let the transport go and which timers they leave |
| ClientTable.LostPromise | packages/client/src/daemon-client.ts:4540-4553 | a loss keeps the held promise for the next attempt, and refuses it when there is none |
| ClientTable.FailedPromise | packages/client/src/daemon-client.ts:936-1018 | an attempt that fails at once refuses its promise, and `connect` remembers it |
| ClientTable.ClosedLink | packages/client/src/daemon-client.ts:1130-1159 | everything `close` leaves of the connection |
| ClientTable.AttemptedLink | packages/client/src/daemon-client.ts:936-1018 | a successful attempt by `connect` or `ensureConnected`, field by field; requests and queue are untouched |
| ClientTable.UnattemptedLink | packages/client/src/daemon-client.ts:936-1175 | `connect` and `ensureConnected` on a client that is disposed or connected, and `ensureConnected` whenever it makes no attempt |
| ClientTable.UnattemptedConnect | packages/client/src/daemon-client.ts:936-955 | `connect` while a connection is being made or a promise is held |
| ClientTable.ReconnectedLink | packages/client/src/daemon-client.ts:4578-4584 | the reconnect timer when no attempt fails: it stops, and attempts exactly when reconnecting is on and no connection is being made |
| ClientTable.InfoLink | packages/client/src/daemon-client.ts:4631-4646 | the server-info message opens the connection, and the held promise unless re-subscribing throws |
| ClientTable.QuietLink | packages/client/src/daemon-client.ts:1020-1096 | timers and transport events that take nothing down, and events that leave the connection alone |
| BinaryFrames.FileFrameRoundTrip | packages/protocol/src/binary-frames/file-transfer.ts:54-131 | a frame can be encoded exactly when its id has 1 to 255 bytes and its metadata at most 65535, and decodes to itself |
| BinaryFrames.FileFrameCanonical | packages/protocol/src/binary-frames/file-transfer.ts:85-131 | chunk and end frames have a single spelling: encoding what was decoded gives the same bytes |
| BinaryFrames.TerminalFrameRoundTrip | packages/protocol/src/binary-frames/terminal.ts:65-90 | a terminal frame survives the wire if and only if its slot fits one byte |
| BinaryFrames.FormatsDisjoint | packages/client/src/daemon-client.ts:4400-4411 | no bytes are both a file frame and a terminal frame |
| FrameTable.FileFrameBytes | packages/protocol/src/binary-frames/file-transfer.ts:54-83 | the encoded bytes: opcodes 16 to 18, the id behind its length, the metadata behind its length in two bytes |
| FrameTable.FileFrameRead | packages/protocol/src/binary-frames/file-transfer.ts:85-131 | bytes are read as a given begin, chunk or end if and only if they are laid out as one |
| FrameTable.TerminalFrameBytes | packages/protocol/src/binary-frames/terminal.ts:65-76 | opcodes 1 to 5, the slot's low byte, the payload |
| FrameTable.TerminalFrameRead | packages/protocol/src/binary-frames/terminal.ts:78-90 | bytes are read as a terminal frame if and only if they are laid out as one |
| FileTransfers.ConcatByteChunks | packages/client/src/daemon-client.ts:784-792 | the buffer loop gives the chunks in order followed by zeros, and fails exactly when they exceed the size |
| FileTransfers.FileTransfers.StartRead | packages/client/src/daemon-client.ts:3297-3298 | a read becomes pending |
| FileTransfers.FileTransfers.HandleFileTransferFrame | packages/client/src/daemon-client.ts:4430-4479 | one frame on the three maps is the step of the transfer lemmas (see `FileTransfers.FileHoldsChunks`); a transfer that throws stays active |
| FileTransfers.FileTransfers.FinishRead | packages/client/src/daemon-client.ts:3301-3316 | returns the completed file of a good response, and clears the read |
| FileTransfers.Isolation | packages/client/src/daemon-client.ts:4430-4479 | the state of a request after any interleaving is its state after its own events alone |
| FileTransfers.FileArrives | packages/client/src/daemon-client.ts:4430-4479 | whatever came before and whatever others do meanwhile, begin, chunks and end complete with the chunks' bytes zero-filled to the size, announced once; chunks that do not fit complete nothing (`FileTransfers.FileHoldsChunks` says byte by byte what completes) |
| FileTransfers.FileHoldsChunks | packages/client/src/daemon-client.ts:4430-4479 | the completed file in plain terms: as long as announced, each chunk's bytes at the sum of the lengths before it, zeros behind, and mime, size, path, kind and time of the begin and the read |
| FileTransfers.ReadReturnsFile | packages/client/src/daemon-client.ts:3290-3316 | from `readFile` to its result, with anything of other requests in between: it returns that file and leaves nothing of the request behind |
| FileTransfers.NothingPending | packages/client/src/daemon-client.ts:4431-4450 | frames without a pending read change nothing |
| FileTransfers.FinishClears | packages/client/src/daemon-client.ts:3304-3316 | a finished read leaves nothing behind if and only if its result was taken or none was complete |
| FileTransfers.BytesLeftBehind | packages/client/src/daemon-client.ts:3304-3316 | a run that ends with the completed bytes of a failed read still in the map |
| StreamRouter.TerminalStreamRouter.BindSlot | packages/client/src/terminal-stream-router.ts:27-40 | both maps are updated in place as the router model says |
| StreamRouter.TerminalStreamRouter.DropTerminal | packages/client/src/terminal-stream-router.ts:42-51 | the terminal is gone, and its slot if it still holds it |
| StreamRouter.TerminalStreamRouter.DropAll | packages/client/src/terminal-stream-router.ts:53-56 | both maps are empty |
| StreamRouter.TerminalStreamRouter.OnEvent | packages/client/src/terminal-stream-router.ts:20-25 | a listener is registered once |
| StreamRouter.TerminalStreamRouter.Emit | packages/client/src/terminal-stream-router.ts:123-131 | every listener is called once, in order of registration |
| StreamRouter.TerminalStreamRouter.EncodeInput | packages/client/src/terminal-stream-router.ts:58-84 | the bytes that `StreamRouter.InputCarriesOwnSlot` speaks about, or nothing |
| StreamRouter.TerminalStreamRouter.HandleFrame | packages/client/src/terminal-stream-router.ts:86-121 | a frame reaches the listeners as the event of its slot's terminal, or not at all |
| StreamRouter.StepInverse | packages/client/src/terminal-stream-router.ts:27-56 | a step keeps the maps inverse if and only if it puts no named terminal on a slot of the empty id |
| StreamRouter.RunRefines | packages/client/src/terminal-stream-router.ts:27-56 | for named terminals the maps are, after any run, inverse and equal to a set of bindings |
| StreamRouter.RoutesByBindings | packages/client/src/terminal-stream-router.ts:86-90 | a frame reaches t exactly when the set of bindings pairs t with its slot |
| StreamRouter.RoutesByHistory | packages/client/src/terminal-stream-router.ts:27-90 | the same by history: some `setSlot` gave t the slot and nothing since took it away |
| StreamRouter.InputCarriesOwnSlot | packages/client/src/terminal-stream-router.ts:58-84 | input and resize messages are encoded exactly for bound terminals, and decode to the same payload on a slot that routes back to that terminal, if it fits a byte |
| StreamRouter.EmptyIdStealsSlot | packages/client/src/terminal-stream-router.ts:27-40 | a run with the empty id in which another terminal loses its slot |
| FrameTable.EventTable | packages/client/src/terminal-stream-router.ts:86-121 | which event each opcode becomes, for which terminal, and when there is none |
| FrameTable.EventByHistory | packages/client/src/terminal-stream-router.ts:27-121 | over every run: a frame becomes its opcode's event of t exactly when some `setSlot` gave t its slot and nothing since took it away |
| FrameTable.SetEntry | packages/client/src/terminal-stream-router.ts:27-40 | whatever the maps hold: the entries of both maps after `setSlot` |
| FrameTable.RemoveEntry | packages/client/src/terminal-stream-router.ts:42-56 | the entries of both maps after `removeTerminal` and `clearSlots` |
| FrameTable.InputBytes | packages/client/src/terminal-stream-router.ts:58-84 | the bytes of an input or resize message, and when there are none |
| Highlighter.HighlightCode | packages/highlight/src/highlighter.ts:56-105 | per line exact tokens: each character with the style of its position, no empty token but in an empty line, no equal neighbours; one unstyled token without a parser |
| Highlighter.TokensOfLine | packages/highlight/src/highlighter.ts:87-101 | the run-splitting loop gives the exact tokens of a non-empty line |
| Highlighter.BuildStyleMap | packages/highlight/src/highlighter.ts:71-77 | the painted map holds the style of every position |
| Highlighter.PaintSpan | packages/highlight/src/highlighter.ts:73-77 | a span paints its own positions, as far as there is code |
| Highlighter.LastSpanWins | packages/highlight/src/highlighter.ts:73-77 | the style of a position is that of the last span covering it, and none exactly when none does |
| Highlighter.LineInCode | packages/highlight/src/highlighter.ts:79-103 | the running `pos` is where the line stands in the code |
| Highlighter.Lossless | packages/highlight/src/highlighter.ts:63-104 | token texts per line, joined by newlines, are the code |
| Highlighter.CompactIsUnique | packages/highlight/src/highlighter.ts:87-101 | these properties determine the tokens: no other list has them |
| HighlightedText.LinesHoldNoNewline | packages/highlight/src/highlighter.ts:63-63 | no line holds a newline, and there is one line more than newlines |
| HighlightedText.CharacterOfLine | packages/highlight/src/highlighter.ts:63-103 | each line stands in the code, behind a newline |
| HighlightedText.CharacterOfToken | packages/highlight/src/highlighter.ts:79-101 | each character of each token is the code's own at its place, with the style of the last span there, or none where no span covers it |
| HighlightedText.TokensOfLineAre | packages/highlight/src/highlighter.ts:79-101 | tokens cover each line to its end and are split only where the style changes |
| BranchSlug.KebabIsWordsJoined | packages/protocol/src/branch-slug.ts:45-48 | the replacements amount to joining the words of the lower-cased text by single hyphens |
| BranchSlug.Truncation | packages/protocol/src/branch-slug.ts:50-60 | short slugs are kept; long ones are cut before the last hyphen among characters 26 to 49, or else at 50, and the last trim removes nothing |
| BranchSlug.SlugIsNormal | packages/protocol/src/branch-slug.ts:44-61 | at most 50 characters, only word characters and single inner hyphens |
| BranchSlug.FixedPoints | packages/protocol/src/branch-slug.ts:44-61 | exactly the normal texts of at most 50 characters are left as they are |
| BranchSlug.Idempotent | packages/protocol/src/branch-slug.ts:44-61 | slugifying a slug changes nothing |
| BranchSlug.AcceptedIffSomeWord | packages/protocol/src/branch-slug.ts:5-61 | the slug is accepted if and only if the lower-cased text has a letter or digit, and else it is empty |
| BranchSlug.AcceptedNames | packages/protocol/src/branch-slug.ts:5-37 | accepted are exactly the names of 1 to 100 characters that are segments joined by single hyphens |
| BranchSlug.AsciiLower | packages/protocol/src/branch-slug.ts:46 | for ASCII text those are its own letters and digits, one for one |
| SlugText.AsciiLowerIs | packages/protocol/src/branch-slug.ts:46 | ASCII capitals move up by 32, all other ASCII characters stay |
| SlugText.LowerOne | packages/protocol/src/branch-slug.ts:46 | beyond ASCII, the Kelvin sign and the dotted capital I are the only characters that give letters |
| SlugText.WordsAreRuns | packages/protocol/src/branch-slug.ts:48 | the words of a text are its runs of letters and digits, as long as they can be: with the gaps between them they make up the text |
| SlugText.KebabKeepsLetters | packages/protocol/src/branch-slug.ts:45-49 | the uncut slug has exactly the letters and digits of the lower-cased text, in order |
| SlugText.SlugLooks | packages/protocol/src/branch-slug.ts:44-61 | every slug: at most 50 characters, a to z, 0 to 9 and single inner hyphens |
| SlugText.Verdicts | packages/protocol/src/branch-slug.ts:5-37 | each verdict of the checker, exactly when it is given |
| RuntimeMetrics.DaemonClientRuntimeMetrics.RecordMessage | packages/client/src/daemon-client-runtime-metrics.ts:57-61 | the live counters and timing objects change as recorded; no bucket changes |
| RuntimeMetrics.DaemonClientRuntimeMetrics.RecordAgentStream | packages/client/src/daemon-client-runtime-metrics.ts:63-70 | the two stream counters change, and nothing else |
| RuntimeMetrics.DaemonClientRuntimeMetrics.RecordBinaryFrame | packages/client/src/daemon-client-runtime-metrics.ts:72-76 | the live counters and timing objects change as recorded; no bucket changes |
| RuntimeMetrics.DaemonClientRuntimeMetrics.FlushNow | packages/client/src/daemon-client-runtime-metrics.ts:78-109 | one flush on the heap is one flush of the model: bucket taken, old ones pruned, aggregate reported |
| RuntimeMetrics.DaemonClientRuntimeMetrics.ConsumeCurrentBucket | packages/client/src/daemon-client-runtime-metrics.ts:111-136 | the bucket holds what was live, in objects of its own; the live counters are empty |
| RuntimeMetrics.DaemonClientRuntimeMetrics.PruneBuckets | packages/client/src/daemon-client-runtime-metrics.ts:138-143 | the loop drops the leading buckets that are too old |
| RuntimeMetrics.DaemonClientRuntimeMetrics.AggregateBuckets | packages/client/src/daemon-client-runtime-metrics.ts:145-159 | the aggregate is the merge of all buckets in new objects; no bucket's timing and no live one is changed |
| RuntimeMetrics.CloneHandlerTimingMap | packages/client/src/daemon-client-runtime-metrics.ts:197-206 | equal values in fresh objects, one for each key |
| RuntimeMetrics.IncrementHandlerTiming | packages/client/src/daemon-client-runtime-metrics.ts:178-195 | the key's object changes in place or is made; every other key keeps its value |
| RuntimeMetrics.MergeHandlerTimingMap | packages/client/src/daemon-client-runtime-metrics.ts:214-233 | key-wise merge into the target's objects; the source's are untouched |
| RuntimeMetrics.MergeCountMap | packages/client/src/daemon-client-runtime-metrics.ts:208-212 | key-wise sum |
| RollingMetrics.Conservation | packages/client/src/daemon-client-runtime-metrics.ts:57-143 | for every key and counter, live, kept and pruned counts together are what was recorded |
| RollingMetrics.TimingConservation | packages/client/src/daemon-client-runtime-metrics.ts:57-143 | the same for number, total and maximum of the handler timings |
| MetricsWindow.EndingsAre | packages/client/src/daemon-client-runtime-metrics.ts:111-143 | the buckets of a run, kept or pruned, ended at the readings of the flushes that had something to take |
| MetricsWindow.WindowExactIff | packages/client/src/daemon-client-runtime-metrics.ts:138-143 | in every run, whatever the clock did, the buckets kept after each flush are exactly those inside the window if and only if the clock readings keep their order about every cutoff |
| MetricsWindow.WindowExact | packages/client/src/daemon-client-runtime-metrics.ts:138-143 | with a clock that never runs back, the buckets kept are exactly those that ended inside the window |
| MetricsWindow.PruneExactIff | packages/client/src/daemon-client-runtime-metrics.ts:138-143 | whatever the clock did, pruning keeps exactly the buckets inside the window if and only if no bucket outside it stands behind one inside |
| MetricsWindow.ClockBackwards | packages/client/src/daemon-client-runtime-metrics.ts:138-143 | with a clock that runs back, a run that keeps a bucket from outside the window |
| RollingMetrics.AggregateIsSum | packages/client/src/daemon-client-runtime-metrics.ts:145-159 | the aggregate is, key by key, the sum and the maximum over the kept buckets |
| RollingMetrics.ReportsIff | packages/client/src/daemon-client-runtime-metrics.ts:85-90 | in every run a flush reports if and only if it is final or a bucket is in the window |
| RollingMetrics.StreamsWait | packages/client/src/daemon-client-runtime-metrics.ts:111-116 | a flush leaves live counters behind exactly when only agent streams were recorded |
| MetricsTable.TimingsDescribe | packages/client/src/daemon-client-runtime-metrics.ts:57-143 | over every run: the timings held, kept and pruned together give the number, the sum and the longest of the durations recorded for the key |
| MetricsTable.AggregateSums | packages/client/src/daemon-client-runtime-metrics.ts:145-159 | if each bucket's timing describes its durations, the aggregate's describes all of them |
| MetricsTable.RecordedIsSum | packages/client/src/daemon-client-runtime-metrics.ts:57-76 | what each call adds to each counter, under which key |
| MetricsTable.BucketIffSomething | packages/client/src/daemon-client-runtime-metrics.ts:111-136 | over every run: a flush makes a bucket exactly when a message or a frame came since the flush before |
| MetricsTable.ReportIs | packages/client/src/daemon-client-runtime-metrics.ts:78-109 | over every run: what a flush reports: its flag, the number of buckets, the aggregate, and the shorter of the window and the age |

## Left out

- Wide characters, combining marks and background-colour erase of the terminal: a cell is one column, and a blank line is made of default blanks.
- JavaScript numbers: parameters, sizes and counters are unbounded naturals or integers, durations are reals without rounding; fractional colour values are not modelled.
- Cryptography, lenient base64 decoding and text decoding of the channel: keys are derived symbolically, frames are already classified as hello, ready, sealed or other text.
- Sealed frames that are repeated, reordered or lost while the transports are up, and transports whose send throws after the handshake.
- SnapshotOps.PrintedColor: covers colour values in the range of their mode; what is written for others is in `SnapshotScreen.StyleSpelled`.
- EncryptedChannel.Channel.constructor: does not install handlers on the transport; a frame is handed to the channel by calling its method.
- EncryptedChannel.Channel.HandleMessage: leaves out the event callbacks and the awaits inside the handler.
- EncryptedChannel.Channel.FlushPendingSends: is the loop with nothing between its turns; `EncryptedChannel.FlushIsFaithful` has the turns apart.
- EncryptedChannel.Channel.OnTransportClosed: leaves out the close event and the close callbacks.
- DaemonClient.DaemonClient.AttemptConnect: a throw after the transport is stored, while handlers are registered, is not a modelled failure.
- DaemonClient.DaemonClient.Close: the slot table, liveness probe and metrics that close also clears are not part of its state.
- DaemonClient.DaemonClient.ScheduleReconnect: the slot table, liveness probe and attempt counter are not part of its state.
- DaemonClient.DaemonClient.LivenessLost: is the moment the check gives up; the counting of failures before it is left out.
- DaemonClient.DaemonClient.HandleServerInfo: status listeners may issue requests, but not close or reconnect the client.
- DaemonClient.DaemonClient.ResolveWaiters: waiters are those of correlated requests, matched by id and kind.
- FileTransfers.FileTransfers.FinishRead: leaves out the payload of an older daemon and the errors thrown to the caller.
- RuntimeMetrics.DaemonClientRuntimeMetrics.FlushNow: the report holds the whole aggregate, not the rounded top lists.
- The closures of `createClientChannel` and `createDaemonChannel`: retry timer, first hello and the daemon's handshake are steps on values in `ChannelProtocol`; the daemon's buffer for frames that arrive while it handles the first hello is left out, as that handler does not pause.
- Interleaving inside one `handleMessage` across its awaits: a frame is handled in one step, apart from the flush loop, whose turns are separate steps.
- Callbacks of the channel and the client other than the requests that status listeners issue at once while the client becomes connected.
- `sendRequest` with a selector that refuses a matching response.
- The wall clock behind timers and back-off delays: a timer that is armed may fire at any time.
- The re-subscription messages themselves: only whether sending them throws.
- Round-trip times of the liveness probe.
- The roughly one hundred RPC wrappers of the client and the message schemas: they are instances of one correlated request.
- JSON and schema parsing of binary frame metadata, resize messages and snapshots: given by a codec or a validity predicate.
- Sharing of byte buffers between a received frame and the chunks kept from it.
- StreamRouter.TerminalStreamRouter.OnEvent: does not return the function that unregisters the listener.
- Listeners of the stream router that register while an event is being delivered.
- Colours, fonts and the parsers behind the highlighter: its spans are an input.
- Characters outside the Basic Multilingual Plane count once in a branch name's length, not twice.
- Labels and logging of the metrics reports.
- Electron shell, process spawning, filesystem, CLI, login and installers: foreign calls and I/O.
- The small decisions around the core: origin check, version compare, host and port parsing.
