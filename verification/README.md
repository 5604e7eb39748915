# Verified model of rocketsocket's hard core

rocketsocket is a Rust SDK for Rocket.Chat. This project models its three components with the most
state and branching and proves, for every input and every run, what their code and documentation
promise. Everything is checked by Dafny 4.11 (`dafny verify dfyconfig.toml`).

## The components

**The DDP connection runner** (`crates/rocketsocket-realtime`). One loop owns a socket and
interleaves two write lanes, flushes, inbound frames, commands, timers, socket death and reconnects.

- `RunnerModel.dfy` is the step system: one state value and one total step function. The network, the
  server, the callers, the clock and the random generator are a sequence of ticks, so a theorem over
  all sequences of ticks is a theorem over all environments.
- `RunnerContract.dfy` is an independent monitor. It reads only the log of facts a run leaves behind
  (frames accepted and received, calls registered, resolved and settled, events emitted) and knows
  nothing of queues, tables or phases.
- `RunnerSafety.dfy` proves that every run is lawful for the monitor; `RunnerTheorems.dfy` says what
  that means in terms of the log alone; `RunnerWitness.dfy` shows a run in which a call gets through.
- `RunnerStory.dfy` retells the runner from outside, exactly: which facts each tick leaves behind, from a
  few counts and lists. `RunnerKnowledge.dfy` and `RunnerRetold.dfy` prove that every run is so told.
  `RunnerLog.dfy`, `RunnerPacing.dfy`, `RunnerDelivery.dfy`, `RunnerWire.dfy` and `RunnerEvents.dfy` read
  off what that means for attempts, replies, frames, the watchdog and events, over the log and the ticks.
- `Runner.dfy` is the runner as an object whose methods are the source's methods, with its loops; it
  is proved to do on every environment what the step system does.
- `Correlate.dfy`, `Session.dfy`, `Liveness.dfy` and `Backoff.dfy` are its parts, each a class proved
  against a value-level specification with its own theorems; `Turns.dfy` is the flag that makes reads and
  commands take turns.
- `Subscription.dfy` and `Client.dfy` are the durable subscription registry and its replay after a
  reconnect: two hash tables refine one list of subscriptions.

**The entity cache** (`crates/rocketsocket-cache`). Message rings (`MessageShelf.dfy`), the bounded
user queue (`UserQueue.dfy`) and the name indices (`NameIndex.dfy`) each refine a much simpler form;
`CurrentUser.dfy` is the copy of the logged-in user that is kept beside the users. `Cache.dfy` is the
cache object with its loops, proved against them. `CacheDocuments.dfy` holds the documents and the merge,
and `CacheHistory.dfy` says from the operations alone which document a name leads to and which value each
field has.

**The catalog reader** (`crates/rocketsocket-codegen/src/parse.rs`).

- `Scanner.dfy` has strings and comments, `Splitter.dfy` delimiters and top-level splitting;
  `Generics.dfy` says what the splitter's depths mean in terms of the text alone.
- `CatalogReader.dfy` is the reader as functions, `CatalogParser.dfy` the same reader with its loops.
- `Pieces.dfy` is well-formed type text as a tree, `CatalogLayout.dfy` lists with spaces and blank
  places, `CatalogPrinter.dfy` written interfaces and the round trip, `CatalogComments.dfy` the same
  with comments, `CatalogSamples.dfy` a concrete interface that is one of them.
- `CatalogKeys.dfy` says exactly which text is a key and which element is optional,
  `CatalogRanges.dfy` which lists, entries, args types and tuples are read,
  `CatalogHeading.dfy` whose body is read, and `CatalogCoverage.dfy` exactly which sources are.
- `CatalogOrder.dfy`, `CatalogStray.dfy` and `CatalogLoose.dfy` are about sources the reader should
  reject and does not.

`Protocol.dfy` has the DDP frames, `Prelude.dfy` the two wrapper types and `Sequences.dfy` the lists of ids.

## What the proofs found

- The reader promises an error for every input that is not of the shape it was written for, an
  unbalanced delimiter included, and that nothing is skipped. It breaks that promise at least in the
  following ways. What it does accept is known exactly: a source is read as given streams if and only if
  it stands as `CatalogCoverage.SourceReadsExactly` says, down to lists, entries, keys, args types and tuples
  (`CatalogKeys.KeysReadExactly`, `CatalogRanges.ListReadsExactly`, `EntryReadsExactly`, `ArgsReadExactly`,
  `TupleReadsExactly`).
  - It takes the first mention of the name and then the first `{`, and never looks at the text between
    (`CatalogPrinter.HeadingIsIgnored`). So a heritage clause is dropped with everything it inherits
    (`CatalogLoose.InheritedStreamsAreLost`), and an interface with a longer name is read in place of the
    real one (`CatalogLoose.LongerNameIsTaken`). The body read is that of an interface of exactly this
    name without heritage if and only if the first mention is a word of code and only spaces stand between
    it and the next `{` (`CatalogHeading.OwnHeadingExactly`); and the interface so declared is the one
    read if and only if no `{` stands between the first mention of the name and its own brace
    (`CatalogHeading.DeclarationIsTakenExactly`).
  - It slices backwards, which panics, exactly when a list that reads well closes only after the
    interface's own brace (`CatalogOrder.ParseOverrunsExactly`): matching braces ignores other brackets
    while splitting counts all three kinds together, so a stray `(` inside an entry can end the interface
    early (`CatalogStray.StrayParenthesisOverruns`). It cannot happen when the brackets of the body nest
    properly (`CatalogOrder.NestedNeverOverruns`).
  - An unclosed generic list is accepted and swallows every separator after it, so an arity is misread
    (`CatalogStray.UnclosedGenericIsAccepted`, `Generics.LeftOpenSwallowsTheRest`). The generic depth
    that the code keeps and never tests at the end is zero exactly when no list was left open
    (`Generics.AngleAtTheEnd`).
  - Brackets are counted, not matched by kind: a range is split exactly when the counts balance
    (`Generics.SplitSucceedsExactly`), so brackets that cross are accepted
    (`CatalogStray.CrossedBracketsAreAccepted`). Element types are otherwise not looked at.
  - Separators between streams may be missing, a name may be declared twice, and blank places are
    passed over, so `[A,,B]` is a tuple of two (`CatalogLoose.CrowdedTextIsAccepted`).
  In the body that is taken nothing is skipped (`CatalogCoverage.NothingIsSkipped`), and every written
  interface reads back as itself (`CatalogPrinter.RoundTrip`).
- Rings and messages stay in agreement exactly when a message keeps its room and removals name that
  room (`MessageShelf.AgreementNeedsTheRightRoom`); nothing in the cache enforces it.
- A name that was taken over and then given up resolves to nobody although a cached document still
  bears it (`NameIndex.TakeoverThenRenameLosesTheName`). Unique names now are not enough: the index is
  exact after every operation of a run if and only if names are unique after every operation
  (`NameIndex.RunIsExactExactlyWhileUnique`, `UserQueue.UsernamesExactExactlyWhileUnique`).
- The two copies of the current user can drift, although the source says they cannot: by logging in over
  a cached document (`CurrentUser.LoggingInOverACachedUserDrifts`) and by an update in part after an
  eviction (`CurrentUser.ComingBackInPartDrifts`). When they do not is exact
  (`CurrentUser.CopiesAgreeExactlyWhileWhole`).
- The registry's documented demand for fresh ids is exactly what keeps routing consistent
  (`Subscription.RoutingStaysConsistentExactlyWhileFresh`).
- `Session::handle` accepts a second `connected` on one socket and then asks for another login. The
  model follows the code, so the wire-order theorem speaks of a success reply with no `connected` since.
- The replay forgets an entry on any error, not only on a refusal by the server
  (`crates/rocketsocket-realtime/src/client.rs:215-220`), although the comment there speaks of refusals.

## Model

| member | source | states |
|---|---|---|
| `RunnerSafety.EveryRunObeys` | crates/rocketsocket-realtime/src/connection.rs:553-714 | Main theorem of the runner: for every configuration and every sequence of environment ticks (any server, network, clock, callers), every fact the run leaves behind is legal for a monitor that sees only the log: one socket at a time, wire order, heartbeat order, retry safety, once-only ids, epochs in lockstep, terminality, earned pacing |
| `RunnerRetold.EveryRunIsTold` | crates/rocketsocket-realtime/src/connection.rs:553-1034 | Second main theorem of the runner, exact where the first is only lawful: for every configuration and every sequence of ticks the log is, fact for fact, the one a reader of the ticks tells who keeps a few counts and lists and has no tables, phases, marks or timers; and at any time the queues, the replies handed over, the watchdog, the armed timer and the failure count are what that reader says |
| `RunnerPacing.AttemptsAreCounted` | crates/rocketsocket-realtime/src/backoff.rs:59-79 | At any place of the log of any run, the number an attempt is announced with is how many were announced since the start or the latest loss of a session that stayed ready for `stable_after`, saturating; so it is 0 if and only if none was |
| `RunnerPacing.AttemptsArePacedExactly` | crates/rocketsocket-realtime/src/connection.rs:553-565 | A tick announces an attempt if and only if none is under way and it either draws a delay of nothing or is a wake-up no earlier than the drawing tick plus the delay drawn |
| `RunnerPacing.DelaysAre` | crates/rocketsocket-realtime/src/backoff.rs:59-79 | The delays that can be drawn after `k` announced attempts are exactly the whole milliseconds up to the window: nothing for none, then min(cap, base times two to the `k` less one), doubling 32 times |
| `RunnerPacing.OutageCounts` | crates/rocketsocket-realtime/src/connection.rs:1021-1034 | The count in question is that of the `Connecting` events after the latest loss of a stable session |
| `RunnerDelivery.RepliesFollow` | crates/rocketsocket-realtime/src/connection.rs:870-899 | A waiting call is resolved in the tick that brings a `result` for it, a `nosub`, or a `ready` listing it, and in no other, over every run |
| `RunnerDelivery.CallersHearExactly` | crates/rocketsocket-realtime/src/connection.rs:870-899 | What callers are handed grows, tick by tick, by exactly one entry for each answer whose caller still listens (its error, else its result, else null) and for each settling error, and by nothing else |
| `RunnerWire.FramesGoOutInOrder` | crates/rocketsocket-realtime/src/connection.rs:901-931 | Over every run the application frames accepted since the latest settling are the first of those that the commands taken since then asked for, in order, each with its own name and parameters or the unsubscribed id; and the protocol frames accepted on an open socket are the first of those owed there |
| `RunnerWire.TheNextFrameGoes` | crates/rocketsocket-realtime/src/connection.rs:691-714 | A sink that is ready is given exactly the next frame owed; if none is owed and the session is logged in, the next one asked for; else none |
| `RunnerWire.LoginsCarryTheCredential` | crates/rocketsocket-realtime/src/connection.rs:827-836 | Every frame accepted on the protocol lane is the `connect` for version 1, a ping, a pong, or a `login` with the configured credential |
| `RunnerWire.TheWatchdogIsExact` | crates/rocketsocket-realtime/src/connection.rs:933-968 | The timer gives a socket up if and only if the handshake took too long or nothing came for too long, and the armed timer is due exactly when the handshake, or the silence allowed before or after a probe, is over: neither sooner nor later |
| `RunnerEvents.ReceivedExactly` | crates/rocketsocket-realtime/src/connection.rs:763-788 | A frame counts as received exactly when a tick brings it to an open socket |
| `RunnerEvents.NewsFollows` | crates/rocketsocket-realtime/src/connection.rs:801-821 | The application is told of a frame if and only if it is one of the five collection frames or an error report, and of a session if and only if the server opened it, in the tick that brings it |
| `RunnerEvents.TurningsAreExact` | crates/rocketsocket-realtime/src/connection.rs:654-678 | The session is announced ready, or doomed for the reason given, or the runner returns, if and only if the awaited login is answered so, the version refused, or an end asked for and taken |
| `RunnerEvents.LossesAreExact` | crates/rocketsocket-realtime/src/connection.rs:691-734 | A connection ends if and only if the dial failed, or the socket failed while it had something to take or to flush, was closed, failed to read, or was given up by the watchdog |
| `RunnerSafety.InvariantHolds` | crates/rocketsocket-realtime/src/connection.rs:477-509 | In every reachable state the queues, the two tables, the unflushed marks, the phase, the pending login and the pacing counters agree with what an outside observer of the log knows |
| `RunnerSafety.KeepStep` | crates/rocketsocket-realtime/src/connection.rs:640-714 | One step of the runner, whatever becomes ready, keeps that agreement |
| `RunnerSafety.TimeHolds` | crates/rocketsocket-realtime/src/connection.rs:961-968 | In every reachable state the watchdog has the configured thresholds and has never seen traffic later than the clock |
| `Runner.Runner.Execute` | crates/rocketsocket-realtime/src/connection.rs:553-603 | The imperative runner, with its own queues, tables and loops, ends any environment in exactly the state and log the step system computes, that log obeys the contract and is the one retold, and what its two tables handed to callers is what the story says |
| `Runner.Runner.Attempt` | crates/rocketsocket-realtime/src/connection.rs:567-596 | One attempt: open, drive, and what each way of ending does (closed: reconnect; shutdown or terminal failure: never again) |
| `Runner.Runner.PaceAttempt` | crates/rocketsocket-realtime/src/connection.rs:554-565 | The head of the reconnect loop: the jittered delay, waited out with commands served, then the announcement |
| `Runner.Runner.IdleUntil` | crates/rocketsocket-realtime/src/connection.rs:605-628 | While waiting out a delay only commands are served, up to the outbox capacity; a shutdown or the loss of every handle ends the wait |
| `Runner.Runner.Open` | crates/rocketsocket-realtime/src/connection.rs:630-637 | The connection attempt succeeds or fails; a failure is a lost connection |
| `Runner.Runner.DriveSocket` | crates/rocketsocket-realtime/src/connection.rs:640-680 | One socket from `connect` to its end, turn by turn, equals the step system on the same ticks |
| `Runner.Runner.PollSink` | crates/rocketsocket-realtime/src/connection.rs:691-734 | Writes before flush; protocol frames whenever there are any, application frames only in phase Ready; a refused write or flush ends the socket |
| `Runner.Runner.Poll` | crates/rocketsocket-realtime/src/connection.rs:687-761 | The order of one poll: sink, then reads and commands, then the timer |
| `Turns.Sources.Poll` | crates/rocketsocket-realtime/src/connection.rs:737-760 | The flag flips at every poll and says whether reads or commands go first; the timer goes last |
| `Turns.NobodyStarves` | crates/rocketsocket-realtime/src/connection.rs:736-753 | Over any polls at which a read, or a command with room for it, is always ready, at least every other poll reports it, whatever else is ready |
| `Turns.SharesAreEqual` | crates/rocketsocket-realtime/src/connection.rs:736-753 | While both are always ready they share the polls equally, up to one |
| `Turns.OneOfTwo` | crates/rocketsocket-realtime/src/connection.rs:736-753 | Of two polls in a row at which a read, or a command with room for it, is ready, one reports it |
| `Turns.TimerComesLast` | crates/rocketsocket-realtime/src/connection.rs:755-760 | The timer is reported exactly when it is due and neither of the others is ready |
| `Runner.Runner.PollSources` | crates/rocketsocket-realtime/src/connection.rs:736-760 | Commands are taken only below the outbox capacity, and the timer only when it is due |
| `Runner.Runner.TakeTurn` | crates/rocketsocket-realtime/src/connection.rs:654-678 | A terminal failure outranks a shutdown, which outranks a closure; otherwise the timer is re-armed |
| `Runner.Runner.Write` | crates/rocketsocket-realtime/src/connection.rs:703-713 | The front of the protocol lane goes first, else the front of the application lane; the mark is kept until a flush |
| `Runner.Runner.DrainUnflushed` | crates/rocketsocket-realtime/src/connection.rs:716-730 | A completed flush marks exactly the accepted calls as sent, in both tables |
| `Runner.Runner.SettleAll` | crates/rocketsocket-realtime/src/connection.rs:1002-1019 | Settling drops both queues, counts every accepted frame as sent, and hands each waiter of both tables its own verdict |
| `Runner.Runner.Disconnected` | crates/rocketsocket-realtime/src/connection.rs:1021-1034 | A lost connection resets the backoff only if the session stayed ready for `stable_after`, then settles and reports |
| `Runner.Runner.ApplyAction` | crates/rocketsocket-realtime/src/connection.rs:823-868 | What each lifecycle action does to the queues, the tables, the deadlines and the events |
| `Runner.Runner.StartLogin` | crates/rocketsocket-realtime/src/connection.rs:827-836 | The login call is registered, remembered by the lifecycle and queued on the protocol lane |
| `Runner.Runner.BecomeReady` | crates/rocketsocket-realtime/src/connection.rs:838-855 | Readiness lifts the handshake deadline, starts the stability clock and announces the current epoch twice |
| `Runner.Runner.RouteReply` | crates/rocketsocket-realtime/src/connection.rs:870-899 | A `result` resolves one call, a `ready` every subscription it lists, a `nosub` one subscription |
| `Runner.Runner.HandleText` | crates/rocketsocket-realtime/src/connection.rs:790-821 | A decoded frame: lifecycle actions first, then correlation of the same frame, then the event |
| `Runner.Runner.HandleFrame` | crates/rocketsocket-realtime/src/connection.rs:763-788 | Every inbound frame counts as traffic; a close frame ends the socket; binary and control frames do nothing else |
| `Runner.Runner.RunCommand` | crates/rocketsocket-realtime/src/connection.rs:901-931 | A call or subscription is registered, and forgotten at once if its caller has already gone; otherwise it is queued on the application lane |
| `Runner.Runner.HandleDeadline` | crates/rocketsocket-realtime/src/connection.rs:933-959 | The handshake budget is checked first and only before readiness; then the silence policy |
| `Runner.Runner.Arm` | crates/rocketsocket-realtime/src/connection.rs:961-968 | The timer is the earlier of the silence deadline and the handshake deadline |
| `RunnerTheorems.NothingBeforeLogin` | crates/rocketsocket-realtime/src/connection.rs:640-714 | Wire order in terms of the log: the first frame a socket accepts, and no other, is `connect`; an application frame has before it, on the same socket, an accepted `login` and a success reply to it with no `connected` since |
| `RunnerTheorems.EveryCallSettlesOnce` | crates/rocketsocket-realtime/src/connection.rs:901-931 | Over any run an id is registered at most once, its frame is accepted at most once over all sockets, it leaves its table at most once; after the return it has left exactly if it was registered and both tables are empty; before that, what has not left is exactly what is pending |
| `RunnerTheorems.AtMostOnce` | crates/rocketsocket-realtime/src/correlate.rs:113-183 | In any lawful log the counts of registrations, departures and accepted frames of an id are zero or one, and agree with the observer |
| `RunnerTheorems.NotSentMeansNeverAccepted` | crates/rocketsocket-realtime/src/connection.rs:987-1019 | A waiter hears `NotSent` if and only if no socket ever accepted its frame, `Abandoned` if and only if the socket being closed accepted it, flushed or not, and never anything else |
| `RunnerTheorems.PongsFollowPings` | crates/rocketsocket-realtime/src/session.rs:178-180 | In terms of the log: at any time the pongs accepted since the current socket opened are a prefix of the pings received since then, in order |
| `RunnerTheorems.NoFrameBeforeThePong` | crates/rocketsocket-realtime/src/connection.rs:691-714 | In terms of the log: no application frame is accepted between a ping and its pong; every ping the socket received before the frame has its own pong, same id and same number in the order, after the ping and before the frame |
| `RunnerTheorems.TerminalMeansTerminal` | crates/rocketsocket-realtime/src/connection.rs:668-670 | After a terminal failure no frame is accepted or received, no call registered and no socket opened; nothing is emitted after the fatal event; nothing at all happens after the return |
| `RunnerTheorems.LaterSocketLaterEpoch` | crates/rocketsocket-realtime/src/connection.rs:838-855 | The epoch a readiness carries is the number of connections settled so far (64-bit), so readiness on a later socket carries a strictly larger one until the counter wraps |
| `RunnerTheorems.QuickAttemptsAreEarned` | crates/rocketsocket-realtime/src/connection.rs:1021-1034 | Attempts announced as the first of an outage, the only ones made without a window, number at most one plus the sessions that stayed ready for `stable_after` |
| `RunnerTheorems.TimersNeverSpin` | crates/rocketsocket-realtime/src/connection.rs:933-968 | A timer that fires at or after its armed time closes the socket exactly when the handshake budget is used up before readiness or the allowed silence is, and otherwise re-arms strictly later |
| `RunnerTheorems.ProbesNeedTrafficBetween` | crates/rocketsocket-realtime/src/connection.rs:933-959 | Over any run, between two client pings queued on one socket something has come in |
| `RunnerWitness.CallsGetThrough` | crates/rocketsocket-realtime/src/connection.rs:691-714 | The contract is not kept by doing nothing: in a concrete environment any call is accepted by a socket after a login, with its own name and parameters |
| `Correlate.IdsNeverCollide` | crates/rocketsocket-realtime/src/correlate.rs:113-125 | Ids of the two tables never collide, and one table never mints the same id twice |
| `Correlate.RegisterIssues` | crates/rocketsocket-realtime/src/correlate.rs:113-125 | A registration issues its id and keeps every id issued before issued |
| `Correlate.Correlator.Register` | crates/rocketsocket-realtime/src/correlate.rs:113-125 | A registration takes the next id under the current epoch, unsent |
| `Correlate.Correlator.MarkSent` | crates/rocketsocket-realtime/src/correlate.rs:128-132 | Marks a pending call as handed to the socket and nothing else |
| `Correlate.Correlator.Resolve` | crates/rocketsocket-realtime/src/correlate.rs:135-159 | Unknown, stale, delivered or caller gone; the entry is gone in every case, and a value reaches the caller only when delivered |
| `Correlate.Correlator.Cancel` | crates/rocketsocket-realtime/src/correlate.rs:162-164 | Forgets an entry without a reply, and says whether there was one |
| `Correlate.Correlator.Disconnect` | crates/rocketsocket-realtime/src/correlate.rs:171-183 | Every waiter is handed exactly one error, `Abandoned` if sent and `NotSent` if not; the table is empty and the epoch advances |
| `Correlate.Correlator.SendErrors` | crates/rocketsocket-realtime/src/correlate.rs:171-183 | The drain loop hands each waiter its own verdict exactly once, whatever order the table iterates in |
| `Session.Session.Connect` | crates/rocketsocket-realtime/src/session.rs:135-139 | A new socket starts in Handshaking with no session and no pending login, and sends `connect` for version 1 |
| `Session.Session.ExpectLogin` | crates/rocketsocket-realtime/src/session.rs:143-145 | Remembers the id of the login call |
| `Session.Session.Disconnect` | crates/rocketsocket-realtime/src/session.rs:151-157 | Losing the socket clears session and login; a terminal phase stays terminal |
| `Session.Session.Handle` | crates/rocketsocket-realtime/src/session.rs:163-212 | The lifecycle for every decoded frame: pong with the ping id, login on `connected`, terminal on `failed`, ready or terminal on the reply to the pending login, a violation for a malformed frame, nothing otherwise |
| `Liveness.OneProbePerSilence` | crates/rocketsocket-realtime/src/liveness.rs:86-103 | Over any silent stretch of polls, `Dead` is answered exactly at the polls with `dead_after` of silence behind them, and the one probe is the first poll in the probing window, if none is already in flight |
| `Liveness.DeadlineIsExact` | crates/rocketsocket-realtime/src/liveness.rs:106-110 | The armed deadline is exactly the time from which a poll no longer answers Healthy |
| `Liveness.RearmsInTheFuture` | crates/rocketsocket-realtime/src/liveness.rs:86-110 | After a poll that does not end the connection the next deadline is strictly later than the poll |
| `Liveness.LivenessPolicy.SawTraffic` | crates/rocketsocket-realtime/src/liveness.rs:71-74 | Traffic restarts the silence and forgets a probe in flight |
| `Liveness.LivenessPolicy.Poll` | crates/rocketsocket-realtime/src/liveness.rs:86-103 | Dead outranks a probe; a probe is sent once per silence |
| `Liveness.LivenessPolicy.NextDeadline` | crates/rocketsocket-realtime/src/liveness.rs:106-110 | When the next poll is due, never earlier than the silence already behind |
| `Backoff.Schedule` | crates/rocketsocket-realtime/src/backoff.rs:59-79 | The window is nothing before any failure, min(cap, base times two to the failures less one) for up to 32 failures in a row and level after that; it never shrinks and never exceeds the cap |
| `Backoff.DrawnExactly` | crates/rocketsocket-realtime/src/backoff.rs:74-79 | The delays that can be drawn from a window are exactly the whole milliseconds in it, up to the 64-bit limit |
| `Backoff.OnlyTheFirstRetryIsFree` | crates/rocketsocket-realtime/src/backoff.rs:63-79 | With base and cap of a millisecond or more, an attempt is immediate for every random roll exactly when it is the first of an outage |
| `Backoff.DrawnFits` | crates/rocketsocket-realtime/src/backoff.rs:75-79 | A drawn delay never exceeds its window |
| `Backoff.Backoff.NextDelay` | crates/rocketsocket-realtime/src/backoff.rs:59-79 | Draws from the window of the failures so far, then counts one more, saturating |
| `Subscription.InsertAgrees` | crates/rocketsocket-realtime/src/subscription.rs:103-107 | Inserting under a fresh id appends to the list of subscriptions: entries and every bucket follow |
| `Subscription.RemoveAgrees` | crates/rocketsocket-realtime/src/subscription.rs:136-147 | Removing takes the subscription out of the list: its bucket loses exactly that id, and an empty bucket disappears |
| `Subscription.RekeyAgrees` | crates/rocketsocket-realtime/src/subscription.rs:188-205 | Rekeying moves the subscription to its new id in place: same key, parameters and position in its bucket |
| `Subscription.SetStatesAgrees` | crates/rocketsocket-realtime/src/subscription.rs:152-182 | Losing the connection and having replayed change states only: the list, its keys, parameters and routes stay |
| `Subscription.AcknowledgeAgrees` | crates/rocketsocket-realtime/src/subscription.rs:121-129 | An acknowledgement changes one state only |
| `Subscription.EveryRunRoutes` | crates/rocketsocket-realtime/src/subscription.rs:98-215 | In every run of inserts, removals, rekeys, losses, replays and acknowledgements that brings fresh ids, the subscribers of a key are the list of subscriptions filtered by that key, in order |
| `Subscription.RoutingStaysConsistentExactlyWhileFresh` | crates/rocketsocket-realtime/src/subscription.rs:98-215 | Routing is consistent after every operation of a run if and only if every id brought in was fresh |
| `Subscription.InsertIsSafeExactlyWhenFresh` | crates/rocketsocket-realtime/src/subscription.rs:98-107 | Routing stays consistent after an insert if and only if the id was not already held |
| `Subscription.TheSameIdTwiceBreaksRouting` | crates/rocketsocket-realtime/src/subscription.rs:98-107 | Subscribing twice under one id leaves tables that no list of subscriptions explains |
| `Subscription.RekeyIsSafeExactlyWhenFree` | crates/rocketsocket-realtime/src/subscription.rs:188-205 | Routing stays consistent after a rekey if and only if the old id is unknown, the new id is the old one, or no other subscription holds it |
| `Subscription.RemoveIsSafe` | crates/rocketsocket-realtime/src/subscription.rs:136-147 | Removal never breaks routing |
| `Subscription.ConsistentMeans` | crates/rocketsocket-realtime/src/subscription.rs:208-215 | In consistent tables the subscribers of a key are exactly the ids whose entry has that key, each once, and no bucket is empty |
| `Subscription.ReplayOrderIsUnique` | crates/rocketsocket-realtime/src/subscription.rs:166-175 | Ascending order of id determines the replay list, so it does not depend on how the hash table iterates |
| `Subscription.BeforeIsTotal` | crates/rocketsocket-realtime/src/subscription.rs:173-174 | The order of ids used for replay is a strict total order |
| `Subscription.Registry.Insert` | crates/rocketsocket-realtime/src/subscription.rs:103-107 | Both tables after an insert, whether or not the id was fresh |
| `Subscription.Registry.Remove` | crates/rocketsocket-realtime/src/subscription.rs:136-147 | The retain loop leaves exactly the other ids of the bucket, in order |
| `Subscription.Registry.Rekey` | crates/rocketsocket-realtime/src/subscription.rs:188-205 | The bucket loop renames the old id and nothing else; the entry becomes pending under the new id |
| `Subscription.Registry.SetStates` | crates/rocketsocket-realtime/src/subscription.rs:152-156 | Every entry takes the new state, whatever order the table iterates in; keys, parameters and routing stay |
| `Subscription.Registry.ConnectionLost` | crates/rocketsocket-realtime/src/subscription.rs:152-156 | A disconnect keeps every intent and marks it inactive |
| `Subscription.Registry.MarkReplayed` | crates/rocketsocket-realtime/src/subscription.rs:178-182 | After a replay every entry is pending |
| `Subscription.Registry.MarkReady` | crates/rocketsocket-realtime/src/subscription.rs:121-129 | An acknowledgement marks one entry and says whether it was known |
| `Subscription.Registry.Subscribers` | crates/rocketsocket-realtime/src/subscription.rs:213-215 | The bucket of a key, or nothing |
| `Subscription.Registry.ToReplay` | crates/rocketsocket-realtime/src/subscription.rs:166-175 | All entries, strictly ascending by id |
| `Client.Replay` | crates/rocketsocket-realtime/src/client.rs:203-226 | Whatever the application subscribes to meanwhile and whatever the server answers, given that the connection never hands out an id twice: each entry ends under its new id in its old place with its key and parameters, or gone if its subscribe failed; newcomers follow in order; `restored` is the number of survivors |
| `Client.ReplayOne` | crates/rocketsocket-realtime/src/client.rs:207-222 | One entry: arrivals are admitted, then the answer moves or removes exactly this entry |
| `Client.Admit` | crates/rocketsocket-realtime/src/client.rs:140-142 | Subscriptions made during the replay are appended in order |
| `Client.AnswerSettles` | crates/rocketsocket-realtime/src/client.rs:210-221 | One answer changes the fate of one entry and leaves every other entry and every newcomer untouched |
| `Client.BucketsKeepTheirOrder` | crates/rocketsocket-realtime/src/client.rs:203-226 | In every bucket the survivors keep their relative positions under their new ids and the newcomers follow them |
| `Client.RestoredMeansSurvived` | crates/rocketsocket-realtime/src/client.rs:204-226 | The reported count equals the number of entries that survived, although replay runs in id order and the list is in insertion order |
| `MessageShelf.ShelfIsMessageLists` | crates/rocketsocket-cache/src/cache.rs:515-599 | Through every run in which a message keeps its room, rings and message map together are, per room, the newest-first list of arrivals cut to capacity, with updates in place, tombstones, removals, room cascades and clear included |
| `MessageShelf.AgreementNeedsTheRightRoom` | crates/rocketsocket-cache/src/cache.rs:528-561 | For every operation, rings and messages stay in agreement if and only if the operation names the room the message is cached under |
| `MessageShelf.OneIdInTwoRoomsBreaksAgreement` | crates/rocketsocket-cache/src/cache.rs:556-559 | Storing a cached id under a second room breaks the agreement |
| `MessageShelf.OperationMeans` | crates/rocketsocket-cache/src/cache.rs:515-599 | Every operation means on rings and map what it means on the rooms' message lists |
| `MessageShelf.LinkAgrees` | crates/rocketsocket-cache/src/cache.rs:567-584 | Linking a new message evicts from the back only, keeps ids distinct, and removes exactly the evicted messages |
| `MessageShelf.LinkMeans` | crates/rocketsocket-cache/src/cache.rs:567-584 | A new message goes to the front of its room's list, which is then cut to capacity |
| `MessageShelf.UpdateAgrees` | crates/rocketsocket-cache/src/cache.rs:556-559 | An update in place keeps agreement if and only if the room id did not change |
| `MessageShelf.UpdateMeans` | crates/rocketsocket-cache/src/cache.rs:556-559 | An update does not move a message in its room's list |
| `MessageShelf.RemoveInAgrees` | crates/rocketsocket-cache/src/cache.rs:528-532 | Removing from a given room keeps agreement if and only if the message, if cached, is in that room |
| `MessageShelf.RemoveInMeans` | crates/rocketsocket-cache/src/cache.rs:528-532 | Removal takes the message out of its room's list, and an empty room disappears |
| `MessageShelf.RemoveMeans` | crates/rocketsocket-cache/src/cache.rs:515-521 | Removal by id alone takes the message out of whichever room lists it |
| `MessageShelf.RemoveRoomAgrees` | crates/rocketsocket-cache/src/cache.rs:225-237 | Removing a room removes its whole list and leaves no cached message of that room |
| `MessageShelf.TombstoneStripsTheBody` | crates/rocketsocket-cache/src/cache.rs:539-552 | After a tombstone nothing of the old message is left in the message map but the tombstone itself, under either policy and mode; an evicted id is gone from every ring if and only if the tombstone names the room the message was cached under |
| `NameIndex.IndexStaysSound` | crates/rocketsocket-cache/src/cache.rs:239-250 | Through rename, takeover and removal every index entry points to a cached document that bears exactly that name |
| `NameIndex.ExactWhileNamesAreUnique` | crates/rocketsocket-cache/src/cache.rs:685-698 | From an exact index, storing leaves it exact if and only if no two cached documents then share a name |
| `NameIndex.ExactAfterDrop` | crates/rocketsocket-cache/src/cache.rs:225-230 | Dropping a document keeps an exact index exact |
| `NameIndex.EveryRunIsSound` | crates/rocketsocket-cache/src/cache.rs:225-250 | In every run every indexed room name belongs to a cached room that bears it |
| `NameIndex.RunIsExactExactlyWhileUnique` | crates/rocketsocket-cache/src/cache.rs:225-250 | The index is exact after every operation of a run if and only if names are unique after every operation |
| `NameIndex.TakeoverThenRenameLosesTheName` | crates/rocketsocket-cache/src/cache.rs:685-698 | A concrete run where a name taken over and then given up no longer resolves, though its first bearer is still cached and names are unique again |
| `NameIndex.LookupIsAScan` | crates/rocketsocket-cache/src/cache.rs:164-166 | With an exact index a lookup finds exactly the document a scan by name would |
| `CacheHistory.RoomNamesLeadToTheTaker` | crates/rocketsocket-cache/src/cache.rs:685-698 | Over every run of rooms: a name leads to a room if and only if the latest operation that gave this name to a room not bearing it gave it to this one, which is cached and bears it ever since |
| `CacheHistory.OnlyStoringGives` | crates/rocketsocket-cache/src/cache.rs:239-257 | Only storing a room that carries the name gives it away, and only to that room |
| `CacheHistory.NoNameIsLost` | crates/rocketsocket-cache/src/cache.rs:685-698 | No operation takes a name from a room that still bears it, unless it gives the name to another |
| `CacheHistory.UsernamesLeadToTheTaker` | crates/rocketsocket-cache/src/cache.rs:312-372 | The same for usernames over every run of users, with evictions |
| `CacheHistory.OnlyStoringGivesUsernames` | crates/rocketsocket-cache/src/cache.rs:312-328 | Only storing a user that carries the name gives it away, evictions included |
| `CacheHistory.RoomPartsAreTheLatest` | crates/rocketsocket-cache/src/merge.rs:88-92 | Over every run of rooms: the name and each field of a cached room are those of the latest document that carried them, since the room was last dropped or replaced; and a room is cached from its storing to its drop |
| `CacheHistory.UserPartsAreTheLatest` | crates/rocketsocket-cache/src/merge.rs:88-92 | The same for users, evictions included |
| `CacheHistory.MessagePartsAreTheLatest` | crates/rocketsocket-cache/src/cache.rs:534-562 | The same for messages, where a deletion (kind `rm`, with an edit time) replaces whatever was there |
| `CacheHistory.MembershipFieldsAreTheLatest` | crates/rocketsocket-cache/src/cache.rs:451-466 | The same for the fields of a membership stored again and again |
| `UserQueue.UsersAreABoundedQueue` | crates/rocketsocket-cache/src/cache.rs:303-370 | With a capacity, after every operation of every run the queue holds exactly the cached users once each, and users and queue together are the list of users by first insertion, refreshed in place, cut from the front to capacity |
| `UserQueue.NewcomerEvicts` | crates/rocketsocket-cache/src/cache.rs:344-370 | A newcomer pushes out exactly the oldest user when the cache is full, and nobody otherwise |
| `UserQueue.TheNewcomerStays` | crates/rocketsocket-cache/src/cache.rs:356-362 | In every run, with or without a capacity, a user just stored is cached |
| `UserQueue.UsernamesStaySound` | crates/rocketsocket-cache/src/cache.rs:312-336 | Every operation, evictions included, keeps usernames pointing to cached users who bear them |
| `UserQueue.UsernamesExactWhileUnique` | crates/rocketsocket-cache/src/cache.rs:312-370 | From an exact username index, an operation with all its evictions leaves it exact if and only if no two cached users then share a username |
| `UserQueue.UsernamesResolve` | crates/rocketsocket-cache/src/cache.rs:312-370 | In a run where no two cached users ever share a username, every cached username resolves to its bearer |
| `UserQueue.EveryRunIsSound` | crates/rocketsocket-cache/src/cache.rs:303-370 | In every run, with or without a capacity, every indexed username belongs to a cached user who bears it |
| `UserQueue.UsernamesExactExactlyWhileUnique` | crates/rocketsocket-cache/src/cache.rs:303-370 | The username index is exact after every operation of a run, evictions included, if and only if usernames are unique after every operation |
| `Cache.Cache.StoreMessage` | crates/rocketsocket-cache/src/cache.rs:534-561 | Disabled caching, tombstone policy, merge or replace, linking: the shelf after a store, and the previous document |
| `Cache.Cache.RemoveMessage` | crates/rocketsocket-cache/src/cache.rs:515-521 | Removal by id unlinks from the room the cached document names |
| `Cache.Cache.RemoveMessageIn` | crates/rocketsocket-cache/src/cache.rs:528-532 | Removal in a given room works for messages that were never cached |
| `Cache.Cache.LinkMessage` | crates/rocketsocket-cache/src/cache.rs:567-584 | Front push, then the back is popped down to capacity and the popped messages removed |
| `Cache.Cache.UnlinkMessage` | crates/rocketsocket-cache/src/cache.rs:586-599 | The retain loop, and an emptied ring disappears |
| `Cache.Retain` | crates/rocketsocket-cache/src/cache.rs:589 | What is retained, of a ring or of the eviction queue, is everything but that id, in order |
| `Cache.Cache.RemoveRoom` | crates/rocketsocket-cache/src/cache.rs:225-237 | The cascade: room, name entry, subscription and all its messages go; if the shelf agreed before, no message of that room is left |
| `Cache.Cache.StoreRoom` | crates/rocketsocket-cache/src/cache.rs:239-250 | Insert or update, then the name index follows |
| `Cache.Cache.StoreUser` | crates/rocketsocket-cache/src/cache.rs:312-327 | Insert or update, the username index follows, and a first insertion is queued and may evict |
| `Cache.Cache.DropUser` | crates/rocketsocket-cache/src/cache.rs:330-336 | The user goes, and its username entry unless another user has claimed it |
| `Cache.Cache.RemoveUser` | crates/rocketsocket-cache/src/cache.rs:303-310 | The user also leaves the eviction queue, when there is one |
| `Cache.Cache.EnqueueUser` | crates/rocketsocket-cache/src/cache.rs:344-370 | Queue the newcomer, take the excess off the front, drop those users |
| `Cache.Cache.TakeOldest` | crates/rocketsocket-cache/src/cache.rs:351-365 | The pop loop takes the oldest ids up to the excess and never the newcomer |
| `Cache.Cache.StoreSubscription` | crates/rocketsocket-cache/src/cache.rs:451-465 | One membership per room, merged or replaced |
| `Cache.Cache.SetCurrentUser` | crates/rocketsocket-cache/src/cache.rs:394-399 | The kept copy becomes the given document, if it is wanted, and the map merges it, eviction included |
| `Cache.Cache.RefreshCurrentUser` | crates/rocketsocket-cache/src/cache.rs:402-425 | The kept copy is merged or replaced exactly if it is wanted and of the same user |
| `Cache.Cache.UpdateUser` | crates/rocketsocket-cache/src/update.rs:87-90 | Both copies after a merge |
| `Cache.Cache.ReplaceUser` | crates/rocketsocket-cache/src/cache.rs:293-297 | Both copies after a replacement, and the previous document |
| `Cache.Cache.Clear` | crates/rocketsocket-cache/src/cache.rs:604-614 | Every map, ring, index and queue is empty, and the current user is gone |
| `CurrentUser.CopiesAgreeExactlyWhileWhole` | crates/rocketsocket-cache/src/update.rs:85-90 | The two copies of the current user, of which the source says that they cannot drift, agree after every operation of a run, evictions included, if and only if every document that logs in brings all that is cached of its user and every document that brings the current user back into the map all that is kept |
| `CurrentUser.DriftsExactly` | crates/rocketsocket-cache/src/cache.rs:394-425 | From copies that agree, one operation leaves them in agreement if and only if it meets that condition |
| `CurrentUser.NeverEvicted` | crates/rocketsocket-cache/src/cache.rs:390-399 | Through every run, whoever logged in last and was not cleared since is still answered with, whatever was stored, evicted or removed |
| `CurrentUser.LoggingInOverACachedUserDrifts` | crates/rocketsocket-cache/src/cache.rs:394-399 | Logging in with fewer fields than are cached leaves them in the map and not in the kept copy |
| `CurrentUser.ComingBackInPartDrifts` | crates/rocketsocket-cache/src/update.rs:87-90 | A current user who was evicted and is then updated in part is whole in the kept copy and partial in the map |
| `Cache.Reindex` | crates/rocketsocket-cache/src/cache.rs:685-698 | An index entry moves from the old name to the new, unless another document has claimed the old one |
| `Scanner.StrippingKeepsOffsets` | crates/rocketsocket-codegen/src/parse.rs:375-413 | Comment stripping keeps the length, keeps newlines exactly where they are, changes only comment bytes and those only from ASCII to spaces |
| `Scanner.StrippingTwiceIsStrippingOnce` | crates/rocketsocket-codegen/src/parse.rs:375-405 | Stripping is idempotent |
| `Scanner.StrippingKeepsLines` | crates/rocketsocket-codegen/src/parse.rs:607-610 | Line numbers computed on the stripped text are those of the original |
| `Scanner.StringEndFrame` | crates/rocketsocket-codegen/src/parse.rs:507-525 | Where a string ends depends only on the string's own bytes |
| `Pieces.StringPasses` | crates/rocketsocket-codegen/src/parse.rs:507-525 | A string literal with no unescaped quote in it ends exactly past its closing quote, escapes and multi-byte characters included |
| `Scanner.SkipString` | crates/rocketsocket-codegen/src/parse.rs:507-525 | The scanning loop finds that end, escapes and multi-byte characters included |
| `Scanner.StripComments` | crates/rocketsocket-codegen/src/parse.rs:375-405 | The stripping loop computes the stripped text, region by region |
| `Splitter.Balanced` | crates/rocketsocket-codegen/src/parse.rs:416-438 | The loop finds the matching delimiter or rejects at the opening one |
| `Splitter.MatchingIsTheFirstBalance` | crates/rocketsocket-codegen/src/parse.rs:416-438 | The matching delimiter is the first place outside strings where as many of its kind have closed as opened; it is missing exactly when there is no such place |
| `Splitter.SplitPartitions` | crates/rocketsocket-codegen/src/parse.rs:441-489 | A successful split loses nothing: its ranges, joined by the single bytes between them, rebuild the input range, and those bytes are exactly the separators outside strings, brackets and generic lists |
| `Splitter.CutsAreTheSeparators` | crates/rocketsocket-codegen/src/parse.rs:441-489 | The cut positions are exactly the top-level separators, in ascending order |
| `Splitter.SplitTopLevel` | crates/rocketsocket-codegen/src/parse.rs:441-489 | The loop over depth, angle and previous byte computes that split |
| `Generics.SplitMeans` | crates/rocketsocket-codegen/src/parse.rs:441-489 | Told from the text alone: the ranges of a successful split end exactly at the separators that stand outside strings, with as many brackets closed as opened before them and no generic list open; a list opens at a `<` after a word or a `>`, and a `>` that ends no arrow closes the innermost |
| `Generics.TopLevelMeans` | crates/rocketsocket-codegen/src/parse.rs:458-474 | The same for one place: depths zero, as the scanner counts them, mean exactly balanced brackets and no open generic list |
| `Generics.AngleMeans` | crates/rocketsocket-codegen/src/parse.rs:466-470 | At every place outside strings the counted generic depth is positive if and only if some generic list opened before it is not closed there |
| `Generics.AngleAtTheEnd` | crates/rocketsocket-codegen/src/parse.rs:464-488 | The generic depth at the end of a range, which the code never tests, is zero if and only if no generic list was left open |
| `Generics.LeftOpenSwallowsTheRest` | crates/rocketsocket-codegen/src/parse.rs:464-488 | A generic list that is left open swallows every separator after it: the last range starts at or before it and runs to the end |
| `Generics.SplitSucceedsExactly` | crates/rocketsocket-codegen/src/parse.rs:475-488 | A range is split rather than rejected if and only if no prefix closes more brackets than it opens and as many are closed in the end; the kinds of the brackets and generic lists do not matter |
| `CatalogPrinter.RoundTrip` | crates/rocketsocket-codegen/src/parse.rs:123-363 | Main theorem of the reader: whatever comments a source has and whatever stands before and after the interface, if blanking the comments leaves a written interface, reading gives exactly its streams and entries, in order, with names, key patterns, key sources, args sources word by word and arities. Written interfaces have spaces anywhere between tokens, quoted or bare names, members in either order with `;` or `,`, blank places from trailing commas and leading bars, and element types of any well-formed pieces: objects, nested tuples, generics, arrows, strings with escapes |
| `CatalogPrinter.PrintedTextReads` | crates/rocketsocket-codegen/src/parse.rs:123-174 | A written interface without comments is read back as it stands |
| `CatalogPrinter.ArgsRoundTrip` | crates/rocketsocket-codegen/src/parse.rs:286-350 | A written args type is reported with its words in order, single spaces between them, with arities ascending and equal to the union over its tuples of required to all elements, and as variadic exactly when one alternative is an array |
| `CatalogPrinter.KeyReads` | crates/rocketsocket-codegen/src/parse.rs:245-283 | Each kind of key reads back as itself |
| `CatalogPrinter.ElementReads` | crates/rocketsocket-codegen/src/parse.rs:318-363 | A written tuple element is no rest element, and is found optional exactly when it is marked so, before its colon or at its end |
| `CatalogPrinter.MemberReads` | crates/rocketsocket-codegen/src/parse.rs:205-228 | A written member reads as the key or the args it holds |
| `CatalogPrinter.InterfaceReads` | crates/rocketsocket-codegen/src/parse.rs:123-174 | The interface is found by its name and its braces match, whatever stands around it and whatever without a `{` stands between the name and the brace |
| `CatalogPrinter.HeadingIsIgnored` | crates/rocketsocket-codegen/src/parse.rs:127-135 | For every heading without a `{` between the name and the brace, a longer name or a heritage clause included, a written body inside any commented source reads as its streams and events: the heading changes nothing |
| `CatalogPrinter.SlotsRead` | crates/rocketsocket-codegen/src/parse.rs:302-335 | Reading a tuple counts its elements, blank places left out, and the leading ones up to the last that is not optional |
| `CatalogPrinter.EntryReads` | crates/rocketsocket-codegen/src/parse.rs:201-242 | A written entry reads as its key and its args, whichever comes first |
| `CatalogPrinter.StreamsRead` | crates/rocketsocket-codegen/src/parse.rs:139-168 | A written body reads as its streams, in order, whatever spaces and semicolons separate them |
| `CatalogPrinter.GatheredMeans` | crates/rocketsocket-codegen/src/parse.rs:336-340 | The collected lengths are exactly those some alternative allows, without repeats |
| `CatalogComments.CommentedTextReads` | crates/rocketsocket-codegen/src/parse.rs:365-413 | A written interface with line and block comments in it, and anything at all after it, is read as the interface |
| `CatalogComments.NotesVanish` | crates/rocketsocket-codegen/src/parse.rs:375-405 | Blanking comments blanks the notes and nothing else |
| `CatalogSamples.SampleReads` | crates/rocketsocket-codegen/src/parse.rs:123-174 | A concrete interface with a quoted name, args before key, blank places and a callback type meets the conditions of the round trip and is read back |
| `CatalogSamples.CallbackIsOneSlot` | crates/rocketsocket-codegen/src/parse.rs:816-826 | A tuple of one callback type with a comma in its generic list, `[Foo<() => void, Bar>]`, is a written args type and reports arity one |
| `CatalogReader.AritiesAscend` | crates/rocketsocket-codegen/src/parse.rs:346-350 | Whatever is read, well-formed or not, the reported arities ascend strictly, and there is an arity or the type is variadic |
| `CatalogReader.NormalisedIsSpaced` | crates/rocketsocket-codegen/src/parse.rs:590-605 | Collapsed text is the runs of non-space bytes, in order, with single spaces between them |
| `CatalogReader.AddingKeepsDistinct` | crates/rocketsocket-codegen/src/parse.rs:336-340 | Adding a range of lengths adds exactly that range and no repeats |
| `CatalogReader.SortedIsAscending` | crates/rocketsocket-codegen/src/parse.rs:349 | Sorting distinct lengths gives the same lengths in ascending order |
| `CatalogReader.FoundIsTheFirst` | crates/rocketsocket-codegen/src/parse.rs:492-495 | What is found is the first separator outside strings, brackets and generic lists, and nothing is found only if there is none |
| `CatalogReader.Normalise` | crates/rocketsocket-codegen/src/parse.rs:590-605 | The whitespace loop computes the normalised source |
| `CatalogReader.TrimRange` | crates/rocketsocket-codegen/src/parse.rs:572-580 | The two trimming loops compute the trimmed range |
| `CatalogParser.Parse` | crates/rocketsocket-codegen/src/parse.rs:123-174 | The reader as it runs, loops and early exits included, computes the specified result for every source |
| `CatalogParser.ParseEntries` | crates/rocketsocket-codegen/src/parse.rs:177-198 | The loop over ranges between commas, blank ones skipped, first fault kept |
| `CatalogParser.ParseEntry` | crates/rocketsocket-codegen/src/parse.rs:201-242 | The loop over members with the two optional slots, duplicates and unknown members rejected |
| `CatalogParser.ParseArgs` | crates/rocketsocket-codegen/src/parse.rs:286-350 | The union loop: tuples, arrays, and rejection of anything else |
| `CatalogParser.CountSlots` | crates/rocketsocket-codegen/src/parse.rs:308-335 | The element loop: trailing comma skipped, rest elements rejected, optional elements counted |
| `CatalogParser.IsOptionalElement` | crates/rocketsocket-codegen/src/parse.rs:356-363 | Only a top-level question mark before the colon, or at the end, makes an element optional |
| `CatalogParser.ReadStreams` | crates/rocketsocket-codegen/src/parse.rs:139-168 | The stream loop up to the interface's closing brace |
| `CatalogParser.ReadName` | crates/rocketsocket-codegen/src/parse.rs:540-562 | Quoted or bare stream names |
| `CatalogOrder.ParseOverrunsExactly` | crates/rocketsocket-codegen/src/parse.rs:123-168 | For every source, the reader slices backwards (which panics) if and only if the interface has its two braces and some list that reads well closes only after the closing one |
| `CatalogOrder.NestedNeverOverruns` | crates/rocketsocket-codegen/src/parse.rs:123-168 | What a caller can check beforehand: if the brackets of the interface body nest properly, all three kinds outside strings, the reader never slices backwards |
| `CatalogOrder.ListClosesNested` | crates/rocketsocket-codegen/src/parse.rs:416-438 | In properly nested text the matching of one bracket kind alone finds the bracket that nesting means, before the end |
| `CatalogOrder.EntryListRejects` | crates/rocketsocket-codegen/src/parse.rs:177-350 | Inside a list every fault is a rejection at an offset |
| `CatalogOrder.ListStaysInside` | crates/rocketsocket-codegen/src/parse.rs:163-167 | After a list that closes before the interface does, the scan for the interface's brace passes too |
| `CatalogStray.StrayParenthesisOverruns` | crates/rocketsocket-codegen/src/parse.rs:140-144 | A concrete source, with one stray parenthesis, on which the reader slices backwards instead of rejecting |
| `CatalogStray.UnclosedGenericIsAccepted` | crates/rocketsocket-codegen/src/parse.rs:123-363 | A concrete source with the args type `[A<B,C]`: nothing closes the generic list, and the reader reports a tuple of one |
| `CatalogStray.CrossedBracketsAreAccepted` | crates/rocketsocket-codegen/src/parse.rs:123-363 | A concrete source with the args type `[({A)}]`: brackets of two kinds cross, and the reader reports a tuple of one |
| `CatalogHeading.OwnHeadingExactly` | crates/rocketsocket-codegen/src/parse.rs:127-135 | Whose body is read: for every text, the braces taken are those of an interface of exactly this name, without type parameters or a heritage clause, if and only if the first mention of the name is a word of code and only spaces stand between it and the next `{` |
| `CatalogHeading.DeclarationIsTakenExactly` | crates/rocketsocket-codegen/src/parse.rs:127-136 | For every text and every declaration in it of an interface of exactly this name: its body is the one read if and only if its braces match and no `{` stands between the first mention of the name, wherever that is, and its own brace |
| `CatalogHeading.DeclaresExactly` | crates/rocketsocket-codegen/src/parse.rs:127-135 | A declaration of the name, told by its keyword and its identifier, is where the needle stands as a word of code with only spaces up to a brace |
| `CatalogHeading.BodyIsTaken` | crates/rocketsocket-codegen/src/parse.rs:127-136 | The body that is read lies between the first `{` after the first mention of the name and the `}` that matches it |
| `CatalogLoose.InheritedStreamsAreLost` | crates/rocketsocket-codegen/src/parse.rs:127-135 | A concrete source, `interface StreamerEvents extends Base{a:...}`, that is read as the stream `a` alone |
| `CatalogLoose.LongerNameIsTaken` | crates/rocketsocket-codegen/src/parse.rs:127-135 | A concrete source in which `interface StreamerEventsOld{a:...}` stands before the interface itself: the stream `a` is read and the stream `b` of the interface is not, although it is read when the interface stands alone |
| `CatalogLoose.CrowdedTextIsAccepted` | crates/rocketsocket-codegen/src/parse.rs:139-168 | A concrete body with the same name declared twice, nothing between the declarations and the args type `[A,,B]`: both streams are read, each with a tuple of two |
| `CatalogCoverage.SourceReadsExactly` | crates/rocketsocket-codegen/src/parse.rs:123-174 | For every source and all streams: the source is read as these streams if and only if its comments blank to a text whose first `{` after the first mention of the name has a match, and between the two braces stand these streams, in order, each a name, a colon and a list that reads as its events, with nothing but spaces and semicolons around them |
| `CatalogCoverage.NothingIsSkipped` | crates/rocketsocket-codegen/src/parse.rs:139-174 | For every source that is read: where the name, the two braces and each stream stand, with nothing else between the braces but spaces and semicolons |
| `CatalogKeys.KeysReadExactly` | crates/rocketsocket-codegen/src/parse.rs:245-284 | For every text and pattern: the text is read as that key if and only if it is `string`, or one quote, a plain text without that quote, `$` or a backslash, and the same quote, or back quotes around the hole, the hole, a slash and a hole-free suffix, or a hole-free prefix, a slash and the hole |
| `CatalogKeys.BytesAreTold` | crates/rocketsocket-codegen/src/parse.rs:497-581 | Which bytes are spaces, quotes, parts of a type name and parts of a stream name, by their ASCII codes |
| `CatalogKeys.StripMeans` | crates/rocketsocket-codegen/src/parse.rs:583-587 | A quoted text is one quote, a text without that quote, and the same quote |
| `CatalogKeys.OptionalExactly` | crates/rocketsocket-codegen/src/parse.rs:356-363 | An element is optional if and only if its label up to the first colon, or the whole of an element without one, ends with a question mark before any spaces |
| `CatalogKeys.TrimExactly` | crates/rocketsocket-codegen/src/parse.rs:572-581 | Only spaces are cut off at the ends of a range, and all of them |
| `CatalogKeys.ColonExactly` | crates/rocketsocket-codegen/src/parse.rs:492-495 | The colon found is the first outside strings, brackets and generic lists, in a range whose brackets balance |
| `CatalogRanges.KeyMemberExactly` | crates/rocketsocket-codegen/src/parse.rs:201-242 | A member is a key if and only if it is the word `key`, the first colon and the text of a key, with any spaces around them |
| `CatalogRanges.ArgsMemberExactly` | crates/rocketsocket-codegen/src/parse.rs:201-242 | A member is an args type if and only if it is the word `args`, the first colon and a text read as that type |
| `CatalogRanges.ListReadsExactly` | crates/rocketsocket-codegen/src/parse.rs:177-198 | A list is read as these events if and only if it splits at its commas, its places that are not blank are entries in braces that read as these events, in order, and there is one |
| `CatalogRanges.EntryReadsExactly` | crates/rocketsocket-codegen/src/parse.rs:201-242 | An entry is read as an event if and only if it splits at its separators and exactly two of its places are not blank, one the event's key and one its args, in either order |
| `CatalogRanges.ArgsReadExactly` | crates/rocketsocket-codegen/src/parse.rs:286-350 | An args type is read as this report if and only if it splits at its bars, its alternatives that are not blank are arrays and tuples that read, there is one, and the report holds its words, exactly the lengths some tuple allows, ascending, and the array mark exactly if there is an array |
| `CatalogRanges.TupleReadsExactly` | crates/rocketsocket-codegen/src/parse.rs:302-335 | A tuple is read if and only if its bracket matches at its end, it splits at its commas and no element is a rest element or cannot be searched for a colon; then every element that is not blank is one slot, and the last required slot is the last not optional |

## Left out

- Tokio, tungstenite, TLS, wakeups, and the broadcast, watch and one-shot channels: their effects are
  ticks and logged facts. Slow event consumers and the published connection state do not appear.
- Runner.Runner.Poll: does not fix which of several ready sources goes first, because the model allows
  every order, including ones the alternating `turn` flag rules out, so every safety theorem covers more
  runs than the code has. The flag and its fairness are modelled apart, in `Turns.dfy`.
- A sink that is not ready with an error and a `start_send` that is refused are one tick.
- Each step reads the clock once; the code may read it a few times within one step.
- The login waiter the runner keeps alive: whether it still listens is left open, which changes no
  stated fact.
- Call numbers are unbounded where the source counts in 64 bits; epochs wrap as in the source.
- The polite close handshake, logging, Debug and Display output, and the texts of errors and reasons.
- JSON, serde and frame encoding: frames are values, with a catch-all for frames that do not decode.
- `supervise`'s forwarding of events to the application, and decoding of stream events.
- Freshness of the connection's ids is a hypothesis of `Client.Replay`; it is what
  `Correlate.IdsNeverCollide` and `RunnerTheorems.EveryCallSettlesOnce` give for the connection's side.
- Cache operations are atomic here; interleavings of concurrent writers, shard locks and guards are not
  modelled. `ResourceType` algebra, standby and snapshots of counts are left out.
- Documents are an identity, the fields the cache looks at and a map of the rest; the fallback to
  replacement when a merged document does not decode does not occur.
- CatalogPrinter.RoundTrip: does not cover type parameters of function types, `<T>(x: T) => void`, or a
  `/` outside strings and comments, because no stream uses one; `Generics.dfy` and
  `CatalogRanges.dfy` hold for such text too.
- The reader's errors keep their offset, not their message and context; `trim` around a member name
  removes ASCII whitespace only.
- Rendering of the Rust catalog, the REST client, the proc macros, entity and event models.
