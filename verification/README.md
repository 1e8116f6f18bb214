# Verified models of the skill-lab control plane

Dafny models of the parts of the platform where a mistake would be silent: the protocol
between the control plane and a runner, the life of an attempt and where it is placed,
the resolution and validation of lab content, and the two observers of a running attempt.
`dafny verify dfyconfig.toml` checks all of them.

**The runner protocol.** `StreamFrames` is the binary frame, `Wire` the messages and the
view of one stream in a log. `RunnerServer` and `RunnerClient` are the two halves as step
functions on values with their invariants; `WireProtocol` puts them together over two
ordered channels and states what holds in every run. `ServerConnection` and
`ClientSession` are the objects, each method proved to take exactly one of those steps.
`TerminalBuffer` is the bounded buffer behind a remote terminal, `Outbox` the bounded send
queue.

**Attempts.** `Schedule` is placement. `Lifecycle` is one attempt (its row, its worker,
its sandbox, its routing entry, its pending destroy), `AttemptRuns` all of them over whole
runs, `Deletion` the exact condition under which deleting a row is safe, `AttemptService`
the service object, which keeps the run of `AttemptRuns` it has gone through,
`AttemptWorker` the worker's retry loop, `IdleTracker` the idle timer.

**Lab content.** `Templates` renders, `Placeholders` says what that does to a text, `Ipv4` is prefix arithmetic and text, `Parameters`
the generators, `Resolution` the resolve loop, `Cases` weighted cases and overrides.
`Labs` is the lab record, `LabChecks` its texts and checkpoints, `Requires` the cycle
check, `Topologies` the links of a topology, `Tutorial` the tutorial checks and the order
they guarantee, `Topics` the topic tree and its counts.

**Observers.** `CommandLog` is ingestion of the growing command log by byte offset,
`Sweeps` the checkpoint sweeps, the rows they store and the events they publish.

Concurrency is modelled as interleaved steps. `reserve`, `promote` and `end` are one step
each. The read loop of a connection handles a result in two, for other goroutines run
between its taking the pending call and its filling the reply channel, and output that a
stream's buffer refuses in two. The random generator is an arbitrary stream of draws, each
below its bound; so every statement about resolution holds for all draws. `Wrappers`,
`Lists` and `Names` hold what several modules share.

Four things that the code does, and a caller might not expect, come with a lemma:

- A row deleted while its provisioning worker is still at work can leave the sandbox and
  its routing entry behind for good. `AttemptRuns.DeletionCanLeak` is such a run,
  `Deletion.DeletionIsSafeIff` the exact condition on the worker, and
  `Deletion.RowDecidesDeletion` the one on the row: it must hold a sandbox id.
- A cycle of required checkpoints through an empty id can go unreported.
  `Requires.ExactIffNoEmptyId` shows that an empty id is the only way.
- A tutorial whose checkpoint with an empty id requires itself is accepted
  (`Tutorial.SelfRequiringIsAccepted`); by `Tutorial.RequiredComeEarlier` that is the one
  way a required checkpoint does not come earlier.
- A caller that gives up, or loses its connection's context, between the two steps of the
  handling of its result never looks at its reply, and a stream in it is lost: nobody
  holds it, to read it or to close it. `WireProtocol.StreamCanBeLost` is such a run, with
  the terminal live, and `WireProtocol.StreamsAreOwned` shows that a stream is lost
  exactly so.

## Model

| member | source | states |
|---|---|---|
| StreamFrames.EncodeStreamFrame | internal/runnerproto/message.go:151-156 | the frame is the big-endian id and then the payload, for every 32-bit id |
| StreamFrames.DecodeAfterEncode | internal/runnerproto/message.go:151-163 | decoding an encoded frame gives the id and the payload back |
| StreamFrames.EncodeAfterDecode | internal/runnerproto/message.go:151-163 | a frame that decodes is the encoding of what it decoded to, and only frames shorter than the header do not decode |
| TerminalBuffer.PushKeeps | internal/runnerserver/pty.go:37-49 | a push keeps the buffer within its limit and takes all of the data, behind what was there, or none of it; it refuses exactly when an open buffer would pass the limit |
| TerminalBuffer.ReadKeeps | internal/runnerserver/pty.go:58-71 | a read hands out the next accepted bytes and loses none |
| TerminalBuffer.EofMeansDrained | internal/runnerserver/pty.go:58-71 | a read meets EOF exactly when the stream is closed or everything accepted was delivered |
| TerminalBuffer.Stream.Push | internal/runnerserver/pty.go:37-49 | the object takes the push step and keeps its invariant |
| TerminalBuffer.Stream.End | internal/runnerserver/pty.go:51-56 | the object takes the end step |
| TerminalBuffer.Stream.Read | internal/runnerserver/pty.go:58-71 | the object takes the read step and returns its result |
| TerminalBuffer.Stream.Shut | internal/runnerserver/pty.go:86-96 | the object takes the close step |
| OutboxModel.OutboxIsSafe | internal/runnerserver/outbox.go:42-95 | in every run count and bytes equal the frames queued and in flight and stay within their limits, a send under the lock finds room in the channel, the channel is closed at most once, and written frames are a prefix of accepted ones |
| OutboxModel.FullIsForGood | internal/runnerserver/outbox.go:62-78 | a frame is refused as too much exactly when a limit would be passed, and every later frame is refused as closed |
| OutboxModel.SentIsAccepted | internal/runnerserver/outbox.go:62-78 | send answers as it should: a frame is taken exactly when it says so, and then it is the last of those accepted and queued; it answers closed exactly on a closed queue |
| OutboxModel.WriterGoesOn | internal/runnerserver/outbox.go:42-60 | while the socket takes frames, each turn of the writer writes the next accepted one |
| OutboxModel.DrainedIsWritten | internal/runnerserver/outbox.go:42-60 | nothing is queued or in flight exactly when everything accepted was written |
| OutboxQueue.Queue.Send | internal/runnerserver/outbox.go:62-78 | the object takes the send step |
| OutboxQueue.Queue.Finish | internal/runnerserver/outbox.go:80-88 | the object takes the finish step |
| OutboxQueue.Queue.Take | internal/runnerserver/outbox.go:42-60 | the writer takes the next frame from the channel |
| OutboxQueue.Queue.Written | internal/runnerserver/outbox.go:90-95 | the writer's accounting after a write |
| RunnerServer.LocalKeeps | internal/runnerserver/conn.go:175-241 | every step of a caller or a reader keeps the server's invariant |
| RunnerServer.MessageKeeps | internal/runnerserver/conn.go:243-328 | every message handled by the read loop keeps the server's invariant |
| RunnerServer.TeardownKeeps | internal/runnerserver/conn.go:129-143 | so does the teardown |
| RunnerServer.FillReachesCaller | internal/runnerserver/conn.go:199-258 | once the reply slot is filled the caller can take from it the result of its own call, and owns the stream in it, exactly when it was still waiting |
| WireProtocol.StreamCanBeLost | internal/runnerserver/conn.go:199-258 | a run from the start in which a caller gives up between the two steps: the terminal is live and registered on both sides, nobody holds it and no close was sent |
| RunnerClient.LocalKeeps | internal/runnerclient/session.go:118-362 | every step of the runner's goroutines keeps its invariant |
| RunnerClient.MessageKeeps | internal/runnerclient/session.go:51-153 | every message the runner reads keeps its invariant |
| RunnerClient.LocalKeepsInput | internal/runnerclient/session.go:285-315 | what was typed and what waits in the input queue stay a prefix of what the control plane wrote |
| RunnerClient.MessageKeepsInput | internal/runnerclient/session.go:317-336 | so they do when input arrives, is refused for a full queue or finds the stream gone |
| WireProtocol.ReaderGetsPrefix | internal/runnerserver/conn.go:282-305 | in every run the bytes a reader got are a prefix, in order, of the bytes the runner's PTY gave out |
| WireProtocol.ReaderGetsAll | internal/runnerclient/session.go:285-302 | when the PTY ended, its report was handled and nobody closed the stream, the reader has or will be given all of them and then EOF |
| WireProtocol.PtyGetsPrefix | internal/runnerclient/session.go:304-336 | the bytes written to the PTY are a prefix of those the control plane wrote |
| WireProtocol.PumpGoesOn | internal/runnerclient/session.go:285-302 | in every run a pump that holds output on a working socket writes it in exactly one frame, keeps its stream, and reads on or, at the end of the PTY, is at its end |
| WireProtocol.StreamsEndForCause | internal/runnerclient/session.go:285-362 | in every run a stream of the runner that is gone was ended at some step by its PTY running out, or cut off by a failed write, a close call, a full input queue or the end of the session, and its recorded ending tells the two apart |
| WireProtocol.TerminalsWork | internal/runnerclient/session.go:247-336 | for all bytes typed and shown there is a run from the start in which a terminal is opened, the first arrive at the PTY, and the second and then EOF at the reader |
| WireProtocol.CloseReachesRunner | internal/runnerserver/conn.go:318-328 | there is a run in which a reader closes its stream and the runner has closed it |
| WireProtocol.CallIdsAreUsedOnce | internal/runnerserver/conn.go:175-215 | a call id is sent once and answered at most once |
| WireProtocol.RepliesAreOwn | internal/runnerserver/conn.go:243-258 | a reply is the one computed for the caller's own call, and a pending call's slot is empty, so the read loop never blocks on it |
| WireProtocol.OutcomeIsFinal | internal/runnerserver/conn.go:175-241 | a caller that has its reply or gave up never gets another |
| WireProtocol.NoCallIsLost | internal/runnerserver/conn.go:175-258 | until the connection goes down a waiting caller is still pending, or the read loop has its reply in hand, or the reply is in its slot |
| WireProtocol.StreamsAreOwned | internal/runnerserver/conn.go:199-271 | in every run and at every later state a stream is its caller's to take, taken, or closed as the caller gave up, if and only if the caller was waiting when the slot was filled; otherwise it is lost in a reply nobody takes, and in both cases it has ended once the connection is done |
| WireProtocol.StreamsAreAccountedFor | internal/runnerserver/conn.go:199-271 | at every state of every run a stream is either in the read loop's hands on its way to its slot, or its caller's, or lost, and lost only to a caller that gave up or to an ending connection |
| WireProtocol.ClosedStreamsStayClosed | internal/runnerserver/conn.go:262-328 | no stream is both registered and closed, and a closed one never reopens |
| WireProtocol.OneCloseCall | internal/runnerserver/conn.go:282-328 | the runner is told at most once to close a stream |
| WireProtocol.ForgottenStreams | internal/runnerserver/conn.go:243-305 | an announced stream that was never registered belongs to a call given up before its result was taken, and any output of it has closed it |
| WireProtocol.FirstOutputCloses | internal/runnerserver/conn.go:282-305 | the first output of such a stream queues exactly one close and later output none |
| WireProtocol.RunIsSound | internal/runnerserver/conn.go:83-328 | both halves keep their invariants in every run |
| ServerConnection.Conn.StartCall | internal/runnerserver/conn.go:175-215 | the connection takes the step that numbers, registers and sends a call |
| ServerConnection.Conn.GiveUp | internal/runnerserver/conn.go:226-241 | abandoning a call forgets it, closes a stream already handed over and sends the cancel |
| ServerConnection.Conn.TakeCall | internal/runnerserver/conn.go:243-253 | under the lock a pending call is taken and the stream it opened is registered, before anything else is read |
| ServerConnection.Conn.Fill | internal/runnerserver/conn.go:254-257 | the reply goes into the call's own slot, whether or not its caller still waits |
| ServerConnection.Conn.HandleFrame | internal/runnerserver/conn.go:282-305 | a frame is pushed, dropped, answered with a close or found too much as the stream's state says; a short one changes nothing |
| ServerConnection.Conn.CloseFull | internal/runnerserver/conn.go:298-301 | a stream whose buffer refused a frame is closed, in a later step |
| ServerConnection.Conn.HandleStreamClosed | internal/runnerserver/conn.go:307-316 | a reported close ends and unregisters the stream |
| ServerConnection.Conn.CloseStream | internal/runnerserver/conn.go:318-328 | closing a registered stream leaves a tombstone and sends one close; again it does nothing |
| ServerConnection.Conn.Teardown | internal/runnerserver/conn.go:129-143 | teardown drops every pending call and ends every stream |
| ClientSession.Session.Start | internal/runnerclient/session.go:118-144 | the session registers a call |
| ClientSession.Session.OpenTerminal | internal/runnerclient/session.go:247-276 | a terminal opened on a closed session is closed at once, otherwise it is registered under a new id |
| ClientSession.Session.Answer | internal/runnerclient/session.go:118-144 | the result is written before the output pump starts |
| ClientSession.Session.PumpOnce | internal/runnerclient/session.go:285-302 | on a working socket one chunk goes out as exactly one frame, the stream stays, and the pump reads on or is at its end; a failed write closes the stream |
| ClientSession.Session.PumpEnd | internal/runnerclient/session.go:285-302 | at the end of the PTY the stream is closed and, if this side closed it, reported |
| ClientSession.Session.Input | internal/runnerclient/session.go:317-336 | input is queued, dropped for a stream that is gone, or closes a stream whose queue is full |
| ClientSession.Session.CloseStream | internal/runnerclient/session.go:338-349 | exactly one of several closes wins |
| ClientSession.Session.CloseStreams | internal/runnerclient/session.go:351-362 | the end of the session closes every stream |
| Schedule.Schedule | internal/runner/registry.go:95-125 | the answer is a connected, capable runner with a free slot, of least load ratio and first by name among equals; busy, with every capable runner's load, or no-runner exactly when there is no slot or no capable runner |
| Schedule.NoWorseTransitive | internal/runner/registry.go:95-125 | the cross-multiplied comparison with its tie break is transitive |
| Schedule.OrderDoesNotMatter | internal/runner/registry.go:95-125 | with distinct names the answer does not depend on the order of the members |
| Schedule.Members | internal/runner/registry.go:65-81 | the members are the local runner first and then, by name, the remote ones that do not claim its name, without duplicates |
| Lifecycle.ActionKeepsOk | internal/attempt/service.go:605-910 | every action of the worker, of an ending, of a destroy and of a disconnect keeps the invariant of an attempt |
| AttemptRuns.PlacementIsSafe | internal/attempt/service.go:296-319 | in every run no runner has more active attempts than its capacity and no user has two |
| AttemptRuns.EndedStaysEnded | internal/attempt/service.go:775-844 | an ended attempt keeps its status, user and runner and never becomes active again |
| AttemptRuns.RunningMatchesSandbox | internal/attempt/service.go:643-679 | in every run, whatever destroys failed and whoever dropped out, the seed, case and params of a running attempt are those its sandbox was provisioned from and it is routed to its runner; the sandbox is live unless that runner dropped out since it was placed there |
| AttemptRuns.SeedsAdvance | internal/attempt/service.go:631-679 | the n-th provision uses the first seed plus n - 1 modulo 2^64 and what the lab resolves to there, and n stays within the lab's bound |
| AttemptRuns.PromotionRuns | internal/attempt/service.go:775-805 | in every run a promotion that finds its row provisioning makes the attempt running, with the sandbox and the route it had, from the seed and params of its worker |
| AttemptRuns.AttemptCanRunAndPass | internal/attempt/service.go:643-844 | a run from the start in which an attempt is placed, runs, passes, is destroyed and deleted and leaves nothing behind |
| AttemptRuns.SettledHasSandboxIffRunning | internal/attempt/service.go:738-910 | once the worker is done and no destroy pends, an attempt whose runner did not drop out since, whose destroys worked and whose row was not deleted under its worker has a live sandbox and a routing entry to its runner exactly when it is running |
| AttemptRuns.SettledWorld | internal/attempt/runners.go:98-122 | the live sandboxes are then those of the running attempts, and the routing map is exactly each of these with its runner |
| AttemptRuns.PromotionOfDeletedLeaks | internal/attempt/service.go:775-805 | a promotion that finds its row deleted leaves a live, routed sandbox at every later state of the run, unless its runner drops out |
| AttemptRuns.LeakIsForever | internal/attempt/service.go:775-805 | such a sandbox stays for the rest of the run, unless its runner drops out |
| AttemptRuns.DeletionCanLeak | internal/attempt/service.go:436-447 | a run from the start in which abandon, destroy, delete and a late provision end so |
| Deletion.DeletionIsSafeIff | internal/attempt/service.go:436-447 | for every attempt, every interleaving after the deletion cleans everything up if and only if the worker was not in a phase that still makes, routes or promotes an uncovered sandbox |
| Deletion.RowDecidesDeletion | internal/attempt/service.go:436-447 | deletion is safe for every attempt with a given terminal row if and only if the row holds a sandbox id |
| AttemptService.Service.Reserve | internal/attempt/service.go:296-319 | a second attempt of a user is refused, else placement decides; on success exactly one provisioning row is added |
| AttemptService.Service.End | internal/attempt/service.go:807-844 | an attempt ends at most once, from a wanted status, or the error says why not |
| AttemptService.Service.Promote | internal/attempt/service.go:775-805 | a provisioning row becomes running with its sandbox id; any other row is left as it is and the worker told to destroy; a row that is gone changes nothing; it is the promote step of the run |
| AttemptService.Service.StoreResolved | internal/attempt/service.go:712-720 | the object takes the reseed step of its run; the next seed and its params are stored exactly when the store works and the row is there |
| AttemptService.Service.Bind | internal/attempt/runners.go:98-102 | the object takes the bind step of its run, which moves the worker on, and its routing map follows |
| AttemptService.Service.Unbind | internal/attempt/runners.go:104-108 | the object takes the unroute step of whoever destroys: the worker, a drop or the pending destroy |
| AttemptService.Service.Destroy | internal/attempt/service.go:895-910 | whatever the runner answers, a destroy is its two steps of the run, and the routing entry is gone |
| AttemptService.Service.Delete | internal/attempt/service.go:436-447 | only a terminal row is deleted, by the delete step of the run |
| AttemptService.Service.RunnerDisconnected | internal/attempt/runners.go:35-70 | the run goes on by the disconnect and one ending each: exactly the attempts active on that runner are failed and none stays active on it |
| AttemptService.BusyOf | internal/attempt/service.go:328-335 | the busy error totals the loads of all capable runners |
| AttemptWorker.ProvisionUntilPrechecked | internal/attempt/service.go:643-679 | the loop returns what the specified tries come to: the seed and params of the worker that is ready to promote, or none, and the number of provisions |
| AttemptWorker.TriesLead | internal/attempt/service.go:643-679 | those tries are a sequence of actions of the attempt's life, each possible when it comes |
| AttemptWorker.LoopIs | internal/attempt/service.go:643-679 | at most the bound of provisions are made; success is at the one k at which the run of failed prechecks ends, from the first seed plus k - 1 modulo 2^64, with that try's sandbox live and routed; on failure no k succeeds, there is no route and a sandbox only if the last destroy failed |
| AttemptWorker.SucceedsOnce | internal/attempt/service.go:643-679 | success is at one k only |
| IdleModel.FiringTimerIsIdle | internal/attempt/service.go:486-567 | a timer that fires while armed fires for a tracked attempt nobody watches, and nobody connected since the event that armed it |
| IdleModel.IdleIsArmed | internal/attempt/service.go:497-552 | a tracked attempt nobody watches always has an armed timer |
| IdleTracker.AttemptTracker.Connected | internal/attempt/service.go:486-495 | the object takes the connect step, which disarms the timer |
| IdleTracker.AttemptTracker.Disconnected | internal/attempt/service.go:497-510 | the object takes the disconnect step, which arms it at zero connections |
| IdleTracker.AttemptTracker.Track | internal/attempt/service.go:512-521 | tracking starts with an armed timer |
| IdleTracker.AttemptTracker.Untrack | internal/attempt/service.go:523-530 | the end of tracking disarms it |
| Templates.Render | internal/content/content.go:236-253 | left to right, every bound placeholder is replaced; unbound ones are reported in order |
| Placeholders.PlainIsLeft | internal/content/content.go:236-253 | a text in which no part has the shape of a placeholder comes out as it is, without error |
| Placeholders.FirstIsReplaced | internal/content/content.go:236-253 | for every text before the first placeholder, all white space and every name in it and any text after it: up to it the text is left, there stands the value, then what the rest renders to; an unbound name is reported first |
| Placeholders.PlainOrFirst | internal/content/content.go:236-253 | every text is of one of these two kinds |
| Templates.RenderSucceeds | internal/content/content.go:238-253 | rendering succeeds exactly when every placeholder name is bound, and the error names exactly those that are not |
| Templates.RenderReadsNames | internal/content/content.go:238-253 | the text depends on no parameter but those named |
| Ipv4.ContainsIsInterval | internal/content/params.go:178-202 | a prefix is the aligned interval of its size from its masked address, inside 32 bits |
| Ipv4.OverlapsIffShare | internal/content/params.go:118-123 | two prefixes overlap exactly when some address is in both |
| Ipv4.ParseOfFormat | internal/content/params.go:178-202 | parsing a printed prefix gives it back |
| Ipv4.FormatIsInjective | internal/content/params.go:138-142 | printed prefixes and addresses are equal exactly when the prefixes and addresses are |
| Ipv4.ParsesIffPrinted | internal/content/params.go:178-202 | a text parses to an IPv4 prefix if and only if it is that prefix printed |
| Ipv4.FormatIsDotted | internal/content/params.go:191-202 | an address is printed as its four bytes in decimal, the highest first |
| Parameters.ResolveCidr | internal/content/params.go:106-125 | the result is the block that the first of 64 draws clear of the reserved block stands for, that many blocks of the new length past the base, or the error and the draws used say that none was |
| Parameters.CandidateIsInside | internal/content/params.go:115-119 | the 32-bit and 64-bit address arithmetic never wraps and every candidate is an aligned block of the base |
| Parameters.ResolvedCidrIsOk | internal/content/params.go:106-125 | for all draws a resolved cidr is aligned, of the length asked for, wholly inside its base and shares no address with 172.16.0.0/12, and its text parses back to it |
| Parameters.CidrGivesUp | internal/content/params.go:118-124 | the search gives up exactly when every draw hit the reserved block |
| Parameters.ResolveIpIn | internal/content/params.go:127-176 | an index k gives the subnet address plus k, unless outside 1..size-2 or used; a range gives the first of 64 drawn addresses between its bounds that is not used; each error arises exactly when it should, and exactly the address given is added to those used |
| Parameters.ChosenHostIsFree | internal/content/params.go:145-175 | for all draws an address given is neither the first nor the last of its subnet and was not used in it |
| Parameters.RangeGivesUp | internal/content/params.go:164-172 | a range counts as used up exactly when every draw hit a used address |
| Resolution.Resolve | internal/content/params.go:57-78 | the loop is the fold of single resolutions, each seeing the values before it |
| Resolution.ResolveParam | internal/content/params.go:80-104 | every generator gives what it promises in its own terms and uses as many draws: the rendered value, the drawn choice rendered, the drawn number between the bounds, or the error |
| Resolution.IndexGives | internal/content/params.go:145-158 | in every list a parameter with an index gets exactly the address at that index of its subnet, unless an earlier parameter was given it |
| Resolution.ResolveBinds | internal/content/params.go:65-78 | a name is bound exactly when a parameter of that name resolved; without errors every name is bound and nothing else |
| Resolution.TakenIsGiven | internal/content/params.go:138-142 | the addresses counted as used in a subnet are exactly those earlier parameters gave of it |
| Resolution.AddressesAreDistinct | internal/content/params.go:65-78 | over the whole loop, for all draws, an address is given inside its subnet, not at its ends, and only once per masked subnet |
| Resolution.ResolvedAddressesDiffer | internal/content/params.go:65-78 | with distinct names the resolved values of two such parameters differ |
| Resolution.UsedIsGiven | internal/content/params.go:153-156 | an index is refused as used only when an earlier parameter gave that address of that subnet |
| Resolution.CidrsAreOk | internal/content/params.go:106-125 | in every parameter list and for all draws every resolved cidr is a block as above |
| Resolution.ChoicesAndIntsAreOk | internal/content/params.go:88-100 | a choice is one of its texts rendered, an int lies between its bounds |
| Cases.PickCase | internal/content/params.go:204-224 | no cases give the default, the first non-positive weight is the error, and otherwise the case is the one whose stretch of the total the draw falls on; the last return is never reached |
| Cases.WeightIsChance | internal/content/params.go:216-222 | of all draws exactly as many choose a case as its weight |
| Cases.PickIsFunction | internal/content/params.go:204-224 | a seed picks one case only |
| Cases.MergeParams | internal/content/params.go:247-260 | the loop is the specified merge |
| Cases.MergeOverrides | internal/content/params.go:247-260 | merging keeps the base's order, adds new names behind it and gives every name the last override of it |
| Cases.MergedNames | internal/content/params.go:247-260 | merging loses no name and invents none |
| Cases.ResolveFor | internal/content/params.go:226-236 | the result is that of the picked case's merged parameters, or their errors |
| Cases.ResolveForBinds | internal/content/params.go:226-236 | a successful resolution binds exactly the names of the lab and of its case |
| LabChecks.ParamSets | internal/content/validate.go:82-93 | one set per case, of whatever resolved at the validation seed |
| LabChecks.CheckTicket | internal/content/validate.go:147-157 | the complaints are exactly those due: one for each language and case in which the ticket does not render |
| LabChecks.CheckCheckpoints | internal/content/validate.go:159-181 | the complaints are exactly the repeated ids, unknown nodes and titles that do not render |
| LabChecks.RendersAtEverySeed | internal/content/validate.go:82-93 | a text that renders for every case at the validation seed renders at every seed for which the lab resolves |
| LabChecks.RendersIffDeclared | internal/content/validate.go:82-93 | when every case resolves at the validation seed, a text passes exactly when each case declares all the names it uses |
| LabChecks.TicketRendersAtEverySeed | internal/content/validate.go:147-157 | so a ticket without complaints renders at every such seed |
| LabChecks.TitlesRenderAtEverySeed | internal/content/validate.go:172-178 | and so does every checkpoint title |
| Topologies.CheckLinks | internal/content/validate.go:218-251 | the complaints are exactly those due: unknown or repeated nodes, reserved interfaces, strange or missing addresses, and for every case a subnet or address that does not render, does not parse or lies outside |
| Topologies.CheckAddresses | internal/content/validate.go:253-284 | a bad subnet is the only complaint of its case; otherwise each endpoint's address is judged by itself |
| Topologies.Resolve | internal/content/content.go:211-234 | the result has every subnet and address rendered and nothing else changed, or the errors name exactly the texts with unbound names |
| Topologies.TopologyResolvesAtEverySeed | internal/content/content.go:211-234 | links that draw no complaint at the validation seed resolve at every seed for which the lab's parameters do |
| Topologies.AddressesAreInside | internal/content/validate.go:253-284 | an accepted link on an IPv4 subnet gives both its nodes an address in the interval the subnet stands for, in every case |
| Topologies.AcceptedIffProper | internal/content/validate.go:218-284 | a link draws no complaint if and only if it joins two different known nodes by interfaces of their own, each and nobody else with an address, and in every case its subnet and addresses render, parse and fit |
| Requires.Finder.FindCycle | internal/content/validate_rules.go:157-172 | the recursive search with its shared colours terminates and is the specified one |
| Requires.CheckRequires | internal/content/validate_rules.go:128-155 | the errors are the unknown ids at each checkpoint that requires them, or the first chain found, or none |
| Requires.RequireErrorsAre | internal/content/validate_rules.go:128-155 | an unknown id is reported exactly where a checkpoint requires it; a chain is looked for only when there is none |
| Requires.ReportIsReal | internal/content/validate_rules.go:157-172 | a reported chain is a path from a checkpoint to a node it already went through, so the graph has a cycle |
| Requires.SilenceMeansEmptyId | internal/content/validate_rules.go:157-172 | a cycle that goes unreported goes through the empty id |
| Requires.AcceptedIffAcyclic | internal/content/validate_rules.go:128-155 | without an empty id, checkpoints are accepted if and only if every required id exists and the graph has no cycle |
| Requires.ExactIffNoEmptyId | internal/content/validate_rules.go:149-163 | the search is right for every requires relation over some ids if and only if none of them is empty |
| Requires.EmptyIdMisses | internal/content/validate_rules.go:149-163 | with an empty id, a checkpoint that requires itself goes unreported |
| Tutorial.CheckTutorial | internal/content/validate_rules.go:174-238 | the complaints are exactly those due for visibility, repeated and missing steps, instructions and order |
| Tutorial.StepsArePermutation | internal/content/validate_rules.go:196-224 | the steps of an accepted tutorial are its checkpoints in some order, each once |
| Tutorial.RequiredComeEarlier | internal/content/validate_rules.go:226-236 | every required checkpoint has a step strictly earlier, except a checkpoint with an empty id that requires itself |
| Tutorial.SelfRequiringIsAccepted | internal/content/validate_rules.go:128-238 | a lab of one checkpoint with an empty id that requires itself draws no complaint, whatever the generator |
| Tutorial.AcceptedIffProper | internal/content/validate_rules.go:128-238 | a lab in tutorial mode is accepted if and only if its checkpoints are distinct, visible and on known nodes, its steps are theirs in an order that respects requires, all its texts render for every case, and its requires relation draws no error |
| Tutorial.InstructionsRenderAtEverySeed | internal/content/validate_rules.go:208-218 | its instructions are not empty and render at every seed for which the lab resolves |
| Topics.ValidateTopics | internal/content/topics.go:47-76 | errors, rewritten ids and seen ids are the specified ones |
| Topics.AcceptedIff | internal/content/topics.go:47-76 | a tree is accepted if and only if every topic has an id without a slash and both titles and no path repeats; its ids are then its paths |
| Topics.FindFinds | internal/content/topics.go:20-30 | a topic is found if and only if its id is in the tree, and the one found has that id |
| Topics.CountInTopic | internal/api/view.go:442-454 | the count is that of the labs in the topic or under it |
| Topics.TopicNodesOf | internal/api/view.go:428-440 | the nodes mirror the tree with the counts of labs and docs |
| Topics.CountsAddUp | internal/api/view.go:428-454 | for an accepted tree and labs whose topics it holds, each node's count is its own labs plus its children's counts, and the roots together count every lab once |
| Topics.RootsCountAll | web/src/lib/topicTree.ts:3-5 | the total shown is the number of labs |
| CommandLines.Parse | internal/recorder/recorder.go:284-309 | the entries are, in order and one for each, what the readable lines of the log decode to; the count is that of the lines that are neither blank nor readable |
| CommandLines.LinesAreJoined | internal/recorder/recorder.go:289 | the lines are the log cut at its newlines and nowhere else |
| CommandLines.OneLineCollects | internal/recorder/recorder.go:290-307 | one line gives its entry if it is readable, counts as skipped if it is not, and gives neither if it is blank |
| CommandLines.ParseJoins | internal/recorder/recorder.go:284-309 | a log cut after a newline parses in two parts |
| CommandLines.ParseNeedsWholeLines | internal/recorder/recorder.go:250-254 | cut inside a line it does not whenever the line reads differently from its parts |
| CommandLogModel.RunIsOk | internal/recorder/recorder.go:219-265 | every parser that may be cut after a newline keeps the invariant of the loop in every run |
| CommandLogModel.RecorderStoresCommands | internal/recorder/recorder.go:219-265 | in every run of growth, pulls and failures, with any decoder, the stored rows are in order what the readable lines of the first `offset` bytes of the file decode to, and the offset sits at the end of a line |
| CommandLogModel.NothingIsLost | internal/recorder/recorder.go:235-265 | what is stored and what is still unread are together the commands of the file |
| CommandLogModel.FullPullCatchesUp | internal/recorder/recorder.go:235-265 | a pull that reads to the end has stored every finished line, unless the store refused its rows |
| CommandLogModel.FinalIsLast | internal/recorder/recorder.go:219-233 | after a final round nothing is stored any more |
| CommandLog.RecorderLoop.Pull | internal/recorder/recorder.go:235-274 | the object takes the pull step, on success and on every failure |
| CommandLog.RecorderLoop.PullAll | internal/recorder/recorder.go:219-233 | a round brings every node as far as its own pull does and moves no other; nothing happens before the loop has begun or after a final round |
| SweepModel.StateFollows | internal/checker/checker.go:278-301 | the state holds each checkpoint's last status and the time of its first pass in the whole history |
| SweepModel.EventsAreChanges | internal/checker/checker.go:300-309 | outside real mode the published events are exactly the status history with consecutive repeats removed; in real mode there are none |
| SweepModel.ChangesDiffer | internal/checker/checker.go:300-302 | so neighbouring events differ and the last one shows the last status |
| SweepModel.EventTimes | internal/checker/checker.go:293-307 | each event carries the first-pass time of the history up to it |
| SweepModel.RowsAreOk | internal/store/checkpoint_runs.go:15-31 | a stored first-pass time is the one found before, or the true first pass as soon as any pass was recorded, even if recording the first one failed |
| SweepModel.FirstPassIsStored | internal/store/checkpoint_runs.go:15-31 | with every record succeeding the stored time is that of the first sweep that passed, and no longer history changes it |
| SweepModel.RowsAreLast | internal/store/checkpoint_runs.go:15-31 | a row carries the status and the time of the last check of its checkpoint that was recorded |
| Sweeps.SweepState.Run | internal/checker/checker.go:256-311 | a cancelled sweep changes nothing; any other takes in every result in order and reports whether all passed |
| Sweeps.SweepsAreOneHistory | internal/checker/checker.go:256-311 | sweeps one after the other are one history |
| Sweeps.StatusesAreLast | internal/checker/checker.go:275-280 | a sweep answers with the status kept for each checkpoint swept, and for no other |
| SweepLoop.OneSweepAtATime | internal/checker/checker.go:205-240 | one sweep of the ticker is under way at a time, its end never blocks on the channel, and an attempt is finished at most once and never in real mode |
| SweepLoop.TickSweeps | internal/checker/checker.go:215-226 | a tick starts a sweep exactly when none is under way or waiting to be received |
| SweepLoop.ResultDecides | internal/checker/checker.go:227-238 | a sweep in which everything passed finishes the attempt, outside real mode; after any other the next tick sweeps again |
| SweepLoop.FinishedHasPassed | internal/checker/checker.go:227-238 | an attempt is finished only after a sweep in which everything passed |

## Left out

- AttemptRuns.SettledHasSandboxIffRunning: holds for attempts whose row was not deleted under a working worker, because the code leaks such a sandbox; Deletion.DeletionIsSafeIff has the exact condition.
- ServerConnection.Conn: its maps hold values, so aliasing between the connection's stream map and the pointers readers hold is not captured; every method is proved to reach the same next state.
- ClientSession.Session: the same for the runner's stream map and its pump goroutines.
- Topologies.CheckLinks: the parsing and containment of IPv6 prefixes are parameters; those of IPv4 are the ones of `Ipv4`.
- Topologies.CheckAddresses: the same.
- SweepLoop.OneSweepAtATime: speaks of the ticker's sweeps; one started by SweepNow (internal/checker/checker.go) can run beside them and is not part of this model.
- Topics.ValidateTopics: returns the rewritten tree where the code overwrites ids in place.
- CommandLines.Parse: a line of Unicode white space only is passed over by the code and counted as unreadable here; the rows are the same.
- Resolution.ResolveParam: bounds of an int whose span overflows 64 bits, for which the code's generator panics, are not modelled; neither is a total of case weights that overflows.
- Progress messages, pings and close codes of the runner connection, and the methods of a runner other than opening and closing a terminal, which all look alike to the protocol.
- 32-bit wrap-around of stream ids: ids are taken as fresh.
- The hub handshake, authentication and the replacement of a connection: one connection per run.
- A socket whose write failed is taken to fail for good; messages on a working one arrive in order.
- Store failures other than the guarded ones modelled; the store's unguarded status update, so `reserve`, `promote` and `end` are single steps.
- Restarts and their recovery, garbage collection of sandboxes and the retention sweeper.
- The window between an idle timer's check and the ending it starts.
- Real time, deadlines and shutdown: timers are steps and times are logical.
- Providers (containers, virtual machines, guest agents): a provision, an exec or a destroy succeeds or fails.
- SQL, JSON, YAML and HTTP; the decoding of a log line is an arbitrary function of the line.
- The pseudo-random generator itself and the distribution of its draws.
- Prefixes of IPv6 in parameter resolution, which refuses them.
- The remaining lab checks (ids, levels, roles, scripts, solutions, case and parameter fields, precheck bounds), each a membership or range test over one field.
- Passwords, tokens, sessions and the login rate limiter.
