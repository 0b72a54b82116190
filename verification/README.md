# Listener routing in cumbia-http and cumbia-random

A listener of cumbia is unlinked while its request, its reply or the exit event of its action is still
travelling. This project models the two engines in which that happens, and the framing and packing code
beside them, and proves what their clients rely on.

**The cumbia-http pipeline.** `SrcMan` is the request queue with its timer, the multimap of waiting reads and
the overwriting map of waiting writes (`CuHttpSrcMan`). `HttpEngine` is the engine on top (`CumbiaHttp`): it
gates bundles on a client id, posts them, consumes replies, reposts writes after an authorisation and moves
listeners to the channel; it also has the readers that use it (`CuHttpControlsReader`). `Channel` routes
messages (`CuHttpChannelReceiver`), `EventStream` frames them, `Bundle` packs requests, `Lease` keeps the client
id alive and `SourceArgs` parses `name(args)`. Each of these holds the classes, with their fields and loops,
proved against functions on values; the theorems over whole runs are about those functions, in `QueueRuns`,
`HttpRuns`, `SilenceRuns`, `GateRuns` and `ReaderRuns`. `PipelineRuns` ties them together: in a run of the engine the
queue and the gate go through runs of their own models, and every request is accounted for from its enqueuing on.
`RequestLife` follows one request: what is kept of it, what it looks like on the wire, what each kind of reply does.

**The cumbia-random engine and the plot.** `RndRegistry` is the list of shared actions, in which stopped actions
are meant to stay until their exit event, as a refinement of a plain table from source to set of listeners.
`RndEngine` holds the classes (`CumbiaRandom`, `CuRNDActionFactoryService`, `CuRNDActionReader`), `WorkerThread` the
activity and its thread (`CuRandomGenActivity`, `CuThread` of the base library), `RndRuns` the runs with worker
threads and mailboxes. `PlotPanel`, `Plot` and `PlotRuns` put `CuRNDReader`, `CuContext` and
`QuPlotCommon` on top.

A network reply, a worker result and a timeout are steps of a run; what they carry is arbitrary. Events handled
by the main thread are sequential, a listener's `onUpdate` does not call the engine back, listeners are non-null
where the readers demand it (0 is the null listener), each action owns its activity, and the events of one activity
are taken in order. A thread is modelled as far as one activity is concerned. In `RndRuns` the parameter `cuts` says
whether unregistering an activity drops its listener at once; `CuThread` does (cumbia/src/lib/threads/cuthread.cpp:279),
so the runs of the program are those with `cuts` true, and what is stated for `cuts` false holds under the hypothesis
of a library that goes on delivering. Ghost parameters and fields (`acts`, `live`, `living`, `table`) only name values
that the contracts speak of. Lemmas are proved without automatic induction.

Ten statements one would expect are not true of the code. They are kept with an input or run that breaks each, and
with the condition under which the code does meet it:

- a stopped action is never deleted nor taken off the list: its exit event finds the listener dropped (`NothingIsDeleted`,
  `ZombieStays`); it would be exactly if the library went on delivering (`DeletionIff`, `DeliverDeletesIff`). Its activity
  is deleted, once (`ActivityDeletedOnce`);
- unlinking a listener silences it if and only if nothing else of it is outstanding and its request is not queued and
  waiting at once (`UnlinkSilencesIff`, `ReadTwiceIsMissed`);
- the channel agrees with the readers if subscriptions are answered after the older unsubscriptions of their listener,
  and a listener goes on agreeing after a reply only then; one reply may answer both, in the wrong order (`ChannelAgreement`,
  `InOrderIff`, `ResetLosesReader`). A reader that is already subscribed must be unset before it is set again
  (`SetAgainIff`, `SetAgainLoses`);
- the client-id lease survives bounded delays if and only if the timer's interval is not negative and it, the reply delay
  and the request delay together stay within the ttl. That is 50 ms per second of ttl for both delays, so a round trip of
  50 ms per second is twice too long; and past the range of an int no keep-alive may be sent at all (`LeaseIff`,
  `RoundTripBound`, `WrappedIntervalLoses`);
- all data that is flushed is delivered if and only if no flush that starts with the hello line carries data
  (`DeliveredIffNotSwallowed`, `HelloSwallowsOne`);
- what is extracted from a stream of plain lines is what the standard prescribes if and only if no event has two data
  lines or is left open at the end (`AgreesIff`, `TwoDataLinesDiffer`);
- a write that waits for its authorisation is posted again if and only if no reply, failure or cancellation ended it
  since its dispatch, and any reply that asks for no authorisation ends it, also one for another source (`RepostIff`,
  `AnyReplyEndsWrites`, `WriteIsLost`);
- an item's channel is read back from a bundle unless an option named "channel" hides the bundle channel from it
  (`ChannelReadBack`, `OptionHidesChannel`);
- a plot that shows the empty name loses its listener when any other reader is deleted (`EmptyNameLosesListener`,
  `UnsetExactIff`, `AddExactIff`, `SetExactIff`);
- a write held back with a subscription is overtaken by the next bundle of writes (`WriteOvertaken`,
  `BundleWriteOrderIff`, `WritesInOrderIff`).

Where comments in the repository and the code differ, the code is followed: `setSources` skips the sources already
shown although its comment says it adds every one (cumbia-qtcontrols/src/quplotcommon.cpp:72); a reader action is said
to delete itself on the exit event of its activity (cumbia-random/curndactionreader.cpp:78), which is not delivered
to it; `unregisterAction` removes actions whose `exiting()` is true, not false (cumbia-random/curndactionfactoryservice.cpp:135); the
keep-alive interval is in milliseconds, not seconds (cumbia-http/cuhttpcliidman.cpp:169).

## Model

| member | source | states |
|---|---|---|
| SrcMan.CuHttpSrcMan.EnqueueSrc | cumbia-http/cuhttpsrcman.cpp:57-68 | the request joins the end of the queue, its channel kept for "s" and "u" only, and the timer is active |
| SrcMan.CuHttpSrcMan.CancelSrc | cumbia-http/cuhttpsrcman.cpp:78-82 | the queue is searched first and the waiting maps only if it held no match; everything else stays in order |
| SrcMan.CuHttpSrcMan.QueueRemove | cumbia-http/cuhttpsrcman.cpp:84-94 | every request with that source, method and listener, or with no listener, leaves the queue, and the result says whether any did |
| SrcMan.CuHttpSrcMan.WaitMapRemove | cumbia-http/cuhttpsrcman.cpp:96-115 | the same for waiting reads and waiting writes |
| SrcMan.CancelTakes | cumbia-http/cuhttpsrcman.cpp:78-115 | a cancellation takes from the queue every request with that source, method and listener, and every one nobody listens to, and nothing else; only if there is none, the same from the waiting reads and writes |
| SrcMan.CuHttpSrcMan.TakeSrcs | cumbia-http/cuhttpsrcman.cpp:117-121 | all waiting reads of one source, newest first, are removed and returned |
| SrcMan.CuHttpSrcMan.TakeTgts | cumbia-http/cuhttpsrcman.cpp:140-144 | the whole map of waiting writes is removed and returned |
| SrcMan.CuHttpSrcMan.DequeueItems | cumbia-http/cuhttpsrcman.cpp:123-130 | the queue is emptied into its reads and its writes, in order, and their number is returned |
| SrcMan.CuHttpSrcMan.OnDequeueTimeout | cumbia-http/cuhttpsrcman.cpp:152-170 | one tick: at most a chunk leaves the queue for the waiting maps and the bundle, and an empty queue stops the timer |
| SrcMan.ValuesOf | cumbia-http/cuhttpsrcman.cpp:117-121 | the values of a key are, with multiplicity, the entries that carry it |
| QueueRuns.RunSimulates | cumbia-http/cuhttpsrcman.cpp:57-170 | in every run of enqueue, cancel and tick the queue is a log of all requests with a cursor and cancellation marks |
| QueueRuns.LogIsComplete | cumbia-http/cuhttpsrcman.cpp:57-68 | the log holds exactly the requests enqueued, in order |
| QueueRuns.Conservation | cumbia-http/cuhttpsrcman.cpp:57-170 | in every run the reads handed out followed by those queued are the enqueued reads less the cancelled ones, in order; so are the writes |
| QueueRuns.CancelledExactly | cumbia-http/cuhttpsrcman.cpp:78-94 | a request is marked as cancelled if and only if some cancellation found it, by source, method and listener, while it was queued |
| QueueRuns.BundleFitsChunk | cumbia-http/cuhttpsrcman.cpp:152-160 | no bundle exceeds the chunk size and its reads and writes make up the chunk |
| QueueRuns.QueueKeepsTimer | cumbia-http/cuhttpsrcman.cpp:65-65 | in every reachable state a non-empty queue has an active timer |
| QueueRuns.TimerStopsOnlyWhenEmpty | cumbia-http/cuhttpsrcman.cpp:152-170 | a step that stops the timer finds the queue empty |
| QueueRuns.BoundedDispatch | cumbia-http/cuhttpsrcman.cpp:152-160 | the request at index k is dispatched or cancelled within k / chunk + 1 ticks, whatever is enqueued or cancelled meanwhile |
| EventStream.ExtractData | cumbia-http/cuhttpchannelreceiver.cpp:147-158 | the payloads are what follows the last marker of each line that has one |
| EventStream.BufferingConserves | cumbia-http/cuhttpchannelreceiver.cpp:165-188 | flushed bytes and buffer are the bytes received; the payloads of the flushed bytes are delivered, or dropped with a hello line |
| EventStream.DeliveredIffNotSwallowed | cumbia-http/cuhttpchannelreceiver.cpp:161-178 | the delivered payloads are those of the flushed bytes if and only if no flush that starts with the hello line carries data |
| EventStream.NoHelloNoDrop | cumbia-http/cuhttpchannelreceiver.cpp:161-178 | nothing is dropped when no flushed buffer starts with the hello line |
| EventStream.ChunkingIrrelevant | cumbia-http/cuhttpchannelreceiver.cpp:180-188 | a cut of a stream that ends flushed gives the payloads of the whole stream if and only if no hello flush carries data; two such cuts give the same |
| EventStream.HelloSwallowsData | cumbia-http/cuhttpchannelreceiver.cpp:161-166 | any data that arrives in one flush with the hello line is lost, and would be delivered in a flush of its own |
| EventStream.HelloSwallowsOne | cumbia-http/cuhttpchannelreceiver.cpp:161-166 | a concrete stream for which the cut into chunks matters |
| EventStream.CarriageReturnStays | cumbia-http/cuhttpchannelreceiver.cpp:142-188 | a frame with CR LF line ends is flushed at its end, not before, and its payload keeps the CR |
| EventStream.NoBorder | cumbia-http/cuhttpchannelreceiver.cpp:151-151 | behind the prefix of a line the last marker is the prefix itself, unless the rest contains the marker |
| EventStream.RoundTrip | cumbia-http/cuhttpchannelreceiver.cpp:147-158 | printing messages as events and extracting gives them back if and only if each is one line without the marker |
| EventStream.AgreesWithStandard | cumbia-http/cuhttpchannelreceiver.cpp:142-158 | for events of one data line the extraction is the interpretation of section 9.2.6 of the WHATWG HTML Living Standard |
| EventStream.AgreesIff | cumbia-http/cuhttpchannelreceiver.cpp:142-158 | on lines that are blank, data lines with the marker or without data, extraction is that interpretation if and only if every event has at most one data line and is closed |
| EventStream.TwoDataLinesDiffer | cumbia-http/cuhttpchannelreceiver.cpp:142-158 | an event of two data lines is two payloads here and one joined message there |
| Channel.CuHttpChannelReceiver.AddDataListener | cumbia-http/cuhttpchannelreceiver.cpp:41-43 | one more entry, duplicates kept |
| Channel.CuHttpChannelReceiver.RemoveDataListener | cumbia-http/cuhttpchannelreceiver.cpp:45-53 | every entry of the listener goes, for all sources, and no other |
| Channel.CuHttpChannelReceiver.DecodeMessage | cumbia-http/cuhttpchannelreceiver.cpp:98-111 | a one-element message calls the listeners of its source, newest first; any other calls nobody |
| Channel.CuHttpChannelReceiver.OnBufComplete | cumbia-http/cuhttpchannelreceiver.cpp:165-178 | the payloads of the buffer are routed in order, none of a buffer that starts with the hello line |
| Channel.CuHttpChannelReceiver.OnNewData | cumbia-http/cuhttpchannelreceiver.cpp:180-188 | one chunk changes the buffer and delivers payloads as the framing function says |
| Channel.WithoutListenerCount | cumbia-http/cuhttpchannelreceiver.cpp:45-53 | removal takes all entries of the listener and keeps the multiplicity of all others |
| Channel.CallsForCount | cumbia-http/cuhttpchannelreceiver.cpp:106-108 | a message calls each listener as often as it is registered for the source |
| Channel.CallsForAppend | cumbia-http/cuhttpchannelreceiver.cpp:106-108 | later registrations are called first |
| Channel.RouteAllCalls | cumbia-http/cuhttpchannelreceiver.cpp:98-111 | nobody is called for a source it is not registered for |
| Channel.RouteAllCount | cumbia-http/cuhttpchannelreceiver.cpp:165-178 | each payload that is one message calls every registration for its source: a listener gets the message as often as it is registered times as often as it is among the payloads |
| Channel.RouteAllAppend | cumbia-http/cuhttpchannelreceiver.cpp:169-176 | earlier payloads are routed first |
| Channel.StreamCalls | cumbia-http/cuhttpchannelreceiver.cpp:180-188 | chunk by chunk the calls are those of all the payloads delivered, in order |
| Channel.EveryMessageCalls | cumbia-http/cuhttpchannelreceiver.cpp:165-188 | a stream that swallows nothing makes these calls for all its flushed bytes, however it is cut |
| Bundle.CuHttpBundledSrcReq.JsonPack | cumbia-http/cuhttpbundledsrcreq.cpp:187-230 | the packed object and the channel left in the request, for any channel it starts with |
| Bundle.CuHttpBundledSrcReq.FromItems | cumbia-http/cuhttpbundledsrcreq.cpp:18-21 | the payload of a bundle of requests |
| Bundle.CuHttpBundledSrcReq.FromTargets | cumbia-http/cuhttpbundledsrcreq.cpp:23-34 | the payload of the bundle rebuilt from the pending writes |
| Bundle.RebuildIsExact | cumbia-http/cuhttpbundledsrcreq.cpp:23-34 | the rebuilt bundle has exactly one item a target, with that write's listener, value, method and options |
| Bundle.HeaderChannel | cumbia-http/cuhttpbundledsrcreq.cpp:23-34 | the channel of a rebuilt bundle is that of the first target in key order that has one |
| Bundle.ChannelReadBack | cumbia-http/cuhttpbundledsrcreq.cpp:213-224 | a non-empty item channel is read back, from the item or else the root, if and only if it is not the bundle channel or no option says otherwise |
| Bundle.OptionHidesChannel | cumbia-http/cuhttpbundledsrcreq.cpp:196-224 | an item with an option "channel" of another value does not read its channel back |
| Bundle.FactoringLosesNothing | cumbia-http/cuhttpbundledsrcreq.cpp:213-224 | so every non-empty channel of a bundle is read back if and only if no item has an option "channel" that differs from the bundle channel it relies on |
| Bundle.PackedKeys | cumbia-http/cuhttpbundledsrcreq.cpp:209-212 | source text and method of a packed item are its own, whatever its options are called |
| Bundle.PackedMethod | cumbia-http/cuhttpbundledsrcreq.cpp:209-210 | on the wire the methods are called "read", "s", "S", "u", "write", "conf" and "edit" |
| Bundle.MethodsDiffer | cumbia-http/cuhttpbundledsrcreq.cpp:210-210 | no two methods have one name |
| Bundle.PackedSource | cumbia-http/cuhttpbundledsrcreq.cpp:211-212 | a write is packed as "name(value)", the elements of a vector separated by commas, any other request as its name |
| Bundle.PackedOptions | cumbia-http/cuhttpbundledsrcreq.cpp:194-209 | the names of the options are listed, once each |
| Bundle.PackedOption | cumbia-http/cuhttpbundledsrcreq.cpp:194-208 | an option keeps its value, a vector as an array, unless it is called like a fixed key; nothing else is packed |
| Bundle.DecimalIsNumber | cumbia-http/cuhttpbundledsrcreq.cpp:225-226 | the text of a client id is its decimal digits |
| Bundle.PackedRoot | cumbia-http/cuhttpbundledsrcreq.cpp:187-230 | the object holds each packed request in order, the id exactly if it is positive, and the first channel of the requests exactly if one has a channel |
| Bundle.RequestReverseEng | cumbia-http/cumbiahttpworld.cpp:71-80 | every source text of the parsed request is mapped to the last object that carries it, and nothing else is |
| Bundle.ReverseMapOfPayload | cumbia-http/cumbiahttpworld.cpp:71-80 | for a packed bundle the keys are exactly the packed source texts, each with the last item of that text |
| HttpEngine.CumbiaHttp.ReadEnqueue | cumbia-http/cumbiahttp.cpp:198-200 | a read or subscription joins the queue |
| HttpEngine.CumbiaHttp.UnsubscribeEnqueue | cumbia-http/cumbiahttp.cpp:202-204 | an unsubscription joins the queue |
| HttpEngine.CumbiaHttp.ExecuteWrite | cumbia-http/cumbiahttp.cpp:206-208 | a write joins the queue with its value and without a channel |
| HttpEngine.CumbiaHttp.UnlinkListener | cumbia-http/cumbiahttp.cpp:222-228 | the request is cancelled and the listener leaves the channel, for all sources |
| HttpEngine.CumbiaHttp.NeedsClientId | cumbia-http/cumbiahttp.cpp:369-378 | true exactly if some request subscribes or unsubscribes |
| HttpEngine.CumbiaHttp.OnSrcBundleReqReady | cumbia-http/cumbiahttp.cpp:136-143 | a bundle that needs no id, or has one, is posted; else it is held back and one more id is requested |
| HttpEngine.CumbiaHttp.OnIdReady | cumbia-http/cumbiahttp.cpp:360-383 | the id is taken and all that is held back is posted, in one bundle of reads and one of writes |
| HttpEngine.CumbiaHttp.OnTimer | cumbia-http/cuhttpsrcman.cpp:152-170 | a tick of the queue with its bundle handed to the gate |
| HttpEngine.CumbiaHttp.OnSrcBundleReplyReady | cumbia-http/cumbiahttp.cpp:159-165 | the elements of a reply are handled one by one; authorisation requests update nobody |
| HttpEngine.CumbiaHttp.LisUpdateFor | cumbia-http/cumbiahttp.cpp:330-350 | the waiting reads of the source and all waiting writes are consumed, listeners updated unless "u", and the channel changed in the order of the entries |
| HttpEngine.CumbiaHttp.OnCredsReady | cumbia-http/cumbiahttp.cpp:279-293 | an empty user fails every pending write; any other leaves them |
| HttpEngine.CumbiaHttp.OnAuthReply | cumbia-http/cumbiahttp.cpp:295-312 | an authorisation reposts the pending writes, a refusal fails them |
| HttpEngine.CumbiaHttp.OnAuthError | cumbia-http/cumbiahttp.cpp:314-322 | every pending write fails |
| HttpEngine.CuHttpControlsReader.SetTheSource | cumbia-http/cuhttpcontrolsreader.cpp:120-141 | the source is stored and, if not empty, enqueued as "read" or "s" |
| HttpEngine.CuHttpControlsReader.UnsetTheSource | cumbia-http/cuhttpcontrolsreader.cpp:166-173 | the listener is unlinked first; in subscribe mode a "u" request follows |
| HttpEngine.CuHttpControlsReader.Destroy | cumbia-http/cuhttpcontrolsreader.cpp:92-98 | the destructor unlinks and sends no "u" |
| HttpRuns.UnlinkQuietIff | cumbia-http/cumbiahttp.cpp:222-228 | unlinking leaves nothing queued, waiting, pending or on the channel that could call the listener if and only if this was its only outstanding request and it is not both queued and waiting |
| SilenceRuns.SilentIff | cumbia-http/cumbiahttp.cpp:330-350 | no later run without a new request for a listener calls it if and only if nothing outstanding could: every waiting, pending, queued or subscribed one is called by some run |
| SilenceRuns.UnlinkSilencesIff | cumbia-http/cumbiahttp.cpp:222-228 | in every reachable state, for a positive chunk size, no later run calls an unlinked listener if and only if that guard held |
| SilenceRuns.OverwrittenIsSilent | cumbia-http/cuhttpsrcman.cpp:155-158 | a write that shares its tick with a later write to its target falls silent by that tick, and would be called were the other cancelled first |
| HttpRuns.QuietRun | cumbia-http/cumbiahttp.cpp:330-350 | from then on no reply, message, tick or authorisation of any run calls it until something of it is enqueued |
| HttpRuns.UnlinkSafety | cumbia-http/cumbiahttp.cpp:202-228 | after any run, unlinking and enqueuing "u" is followed by no call of the listener, wherever its request was |
| HttpRuns.UnlinkMissesWaiting | cumbia-http/cuhttpsrcman.cpp:78-82 | a hit in the queue leaves a waiting request of the listener behind, and its reply calls the listener |
| HttpRuns.ReadTwiceIsMissed | cumbia-http/cuhttpsrcman.cpp:78-82 | a run that reaches such a state: the same read requested again before its answer |
| HttpRuns.ReachableTargetsAreWrites | cumbia-http/cuhttpsrcman.cpp:157-158 | in every run the target map holds writes only |
| HttpRuns.WaitingIsAccounted | cumbia-http/cuhttpsrcman.cpp:96-158 | in every run the waiting reads are, as a multiset, those dispatched less those taken by replies and those cancelled |
| HttpRuns.ReplyAnswersOnce | cumbia-http/cumbiahttp.cpp:330-350 | a reply consumes every waiting read of its source and updates each listener once for each of its requests that is not "u" |
| HttpRuns.ReadCallsMatchTaken | cumbia-http/cumbiahttp.cpp:330-350 | over every run the read calls of a listener are as many as its waiting reads, other than "u", that replies have taken |
| HttpRuns.ReplyCalls | cumbia-http/cumbiahttp.cpp:330-350 | a reply makes its read calls, then those of the pending writes, and no other |
| HttpRuns.TargetsAreLastWrites | cumbia-http/cuhttpsrcman.cpp:106-158 | in every run the target map maps a target to the last write dispatched since it was last drained or cancelled |
| HttpRuns.AuthorisedRepostsAll | cumbia-http/cumbiahttp.cpp:297-302 | an authorisation posts exactly one write a pending target, as it was requested, and leaves the map unchanged |
| HttpRuns.RepostIff | cumbia-http/cumbiahttp.cpp:295-302 | in every run an authorisation posts the write to a target again if and only if the last event about the target is a write to it: nothing drained or cancelled it since |
| HttpRuns.RepostIsLast | cumbia-http/cumbiahttp.cpp:295-302 | what it posts for a target is the last write dispatched to it: its listener, value, method and options |
| HttpRuns.AnyReplyEndsWrites | cumbia-http/cumbiahttp.cpp:330-343 | a reply without an authorisation request, whatever its source, updates the listener of every pending write, and an authorisation after it posts an empty bundle |
| HttpRuns.WriteIsLost | cumbia-http/cumbiahttp.cpp:330-343 | a run from the start in which the reply for another source comes first: the write is posted once, before its authorisation, and never again |
| HttpRuns.FailureNotifiesEachTarget | cumbia-http/cumbiahttp.cpp:303-322 | a failure calls the listener of each pending target once, nobody else, and empties the map |
| GateRuns.GateIsSound | cumbia-http/cumbiahttp.cpp:136-157 | a positive id means nothing is held back, held back requests have an id request in flight, and bundles that need an id carry one unless an id report released them |
| GateRuns.GateConserves | cumbia-http/cumbiahttp.cpp:136-157 | every request handed to the gate is posted exactly once or still held back, and reads of bundles that need an id are posted in arrival order |
| GateRuns.BundleWriteOrderIff | cumbia-http/cumbiahttp.cpp:136-157 | a bundle keeps the writes in order if and only if it is held back or its writes commute with those held back |
| GateRuns.WritesInOrderIff | cumbia-http/cumbiahttp.cpp:136-157 | writes are in arrival order at every prefix of a run if and only if each bundle of it is held back or commutes with what is held back |
| GateRuns.WritesInOrder | cumbia-http/cumbiahttp.cpp:136-157 | in every run without a bundle of writes posted past held back ones, writes are posted in arrival order |
| GateRuns.WriteOvertaken | cumbia-http/cumbiahttp.cpp:136-157 | a write held back with a subscription is posted after the write of the next bundle |
| GateRuns.ReleasedWithoutId | cumbia-http/cumbiahttp.cpp:380-383 | what an id report releases carries the reported id, also a failed one |
| GateRuns.PostsCarryLastId | cumbia-http/cumbiahttp.cpp:136-157 | in every run the gate has the id reported last, and whatever is posted for the sources carries it |
| GateRuns.FailureAfterSuccessGatesAgain | cumbia-http/cumbiahttp.cpp:380-383 | a failed report after a good one takes the id away and gates later bundles again |
| PipelineRuns.QueueProjects | cumbia-http/cuhttpsrcman.cpp:57-170 | in every run of the engine queue and timer are those of a run of the queue alone |
| PipelineRuns.GateProjects | cumbia-http/cumbiahttp.cpp:136-157 | and the gate is that of a run of the gate alone, whose posts are the engine's but for the bundles posted again by authorisations |
| PipelineRuns.HandedProjects | cumbia-http/cuhttpsrcman.cpp:160-166 | what the queue hands over in the one is what the gate is handed in the other, in order |
| PipelineRuns.PipelineConserves | cumbia-http/cumbiahttp.cpp:136-208 | in every run the requests made, and the writes posted again, are those queued, held back, posted or cancelled while queued, each once |
| PipelineRuns.ReadsAreAccounted | cumbia-http/cuhttpsrcman.cpp:96-158 | in every run each read posted or held back waits for its reply, was taken by one or was cancelled, once |
| RequestLife.AuthorisationWaits | cumbia-http/cumbiahttp.cpp:159-165 | a reply with "auth_url" and method "write" calls nobody and leaves everything waiting |
| RequestLife.AuthorisationIff | cumbia-http/cumbiahttp.cpp:275-277 | and only such a reply is taken for a request to authorise |
| RequestLife.ReplyTakes | cumbia-http/cumbiahttp.cpp:330-350 | any other reply takes the waiting reads of its source and all pending writes, nothing else, and calls a listener once for each of them that is not "u" |
| RequestLife.RepliesInTurn | cumbia-http/cumbiahttp.cpp:159-165 | the elements of a reply are handled one after the other |
| RequestLife.EmptyUserFails | cumbia-http/cumbiahttp.cpp:279-293 | an empty user name drops every pending write and tells its listener so, with the fields of an error; any other name changes nothing |
| RequestLife.RefusalFails | cumbia-http/cumbiahttp.cpp:303-312 | a refusal does so with its message and the user's name |
| RequestLife.AuthErrorFails | cumbia-http/cumbiahttp.cpp:314-322 | an authentication error does so with its message |
| RequestLife.PendingWasAsked | cumbia-http/cuhttpsrcman.cpp:57-158 | in every run each waiting read has source, listener, method, channel and options of a request made, each pending write also its value |
| RequestLife.RepostsAsMade | cumbia-http/cumbiahttp.cpp:295-302 | in every run an authorisation posts again nothing but requests of the run, just as they were made |
| RequestLife.OneAnswer | cumbia-http/cumbiahttp.cpp:338-349 | the answer to one waiting request calls its listener unless it is "u", puts it at the end of the channel for "s" and "S", and takes it off for "u" |
| RequestLife.ReadEnds | cumbia-http/cumbiahttp.cpp:136-350 | a request that is not a write, from its making to its answer: posted at once or held back for an id, then answered so |
| RequestLife.WriteEnds | cumbia-http/cumbiahttp.cpp:136-350 | a write that must be authorised is posted, posted again with its value after the authorisation, and answered then; the prompt calls nobody |
| RequestLife.OnTheWire | cumbia-http/cuhttpbundledsrcreq.cpp:187-230 | one request packed: its name, its options, and its channel exactly if it is "s" or "u" |
| RequestLife.IdNeededIff | cumbia-http/cumbiahttp.cpp:369-378 | a bundle needs a client id if and only if one of its requests is packed as "s", "u" or "S" |
| ReaderRuns.ChannelAgreement | cumbia-http/cumbiahttp.cpp:330-350 | over whole runs of readers and replies, a listener is on the channel for a source exactly once if its reader is subscribed to it and was answered, and not at all otherwise |
| ReaderRuns.DispatchOrderSuffices | cumbia-http/cumbiahttp.cpp:330-350 | replies in dispatch order, with no source requested again before its answer, satisfy the hypothesis on replies |
| ReaderRuns.DispatchOrderAgrees | cumbia-http/cumbiahttp.cpp:330-350 | so over whole runs with such replies the channel agrees with the readers at every step |
| ReaderRuns.InOrderIff | cumbia-http/cumbiahttp.cpp:338-349 | a listener agrees with the channel after a reply, and after every further reply in order for it, if and only if that reply answers no subscription of it beside an unsubscription of it that waits |
| ReaderRuns.InOrderKeepsIff | cumbia-http/cumbiahttp.cpp:338-349 | and a reply keeps the invariant of channel and requests if and only if it does so for no listener |
| ReaderRuns.OutOfOrderLoses | cumbia-http/cumbiahttp.cpp:338-349 | a reply that breaks the hypothesis leaves a subscribed and answered reader off the channel, at once or after the stale "u" reply |
| ReaderRuns.QuickResetRaces | cumbia-http/cuhttpcontrolsreader.cpp:120-173 | unsetting and setting a reader to the same source within one tick leaves both requests waiting |
| ReaderRuns.ResetLosesReader | cumbia-http/cuhttpcontrolsreader.cpp:120-173 | a run from the start, admissible up to the last reply, after which a subscribed and answered reader is off the channel |
| ReaderRuns.SetAgainIff | cumbia-http/cuhttpcontrolsreader.cpp:120-141 | setting a subscribed reader again, to any source, breaks the agreement at once if and only if the old subscription is answered, and leaves that on the channel |
| ReaderRuns.SetAgainLoses | cumbia-http/cuhttpcontrolsreader.cpp:120-141 | if it still waits, the agreement is broken by its reply |
| ReaderRuns.SetAsks | cumbia-http/cuhttpcontrolsreader.cpp:120-141 | setting a source enqueues one request: a read for a single-shot or manual reader, else a subscription with the channel |
| ReaderRuns.UnsetAsks | cumbia-http/cuhttpcontrolsreader.cpp:166-173 | unsetting cancels the request, takes the listener off the channel and enqueues "u" exactly if the reader subscribed |
| ReaderRuns.SingleStaysOff | cumbia-http/cuhttpcontrolsreader.cpp:128-133 | in every run a listener whose readers are single-shot or manual subscribes nothing and is never on the channel |
| Lease.CuHttpCliIdMan.OnCompleteReply | cumbia-http/cuhttpcliidman.cpp:79-90 | the id is reported, and the keep-alive started or the error notified, as decoding and values say; a missing field counts as 0 |
| Lease.CuHttpCliIdMan.StartTheKeepalive | cumbia-http/cuhttpcliidman.cpp:164-173 | a timer is made once; later starts change nothing |
| Lease.IntervalIsFixed | cumbia-http/cuhttpcliidman.cpp:149-173 | over every run the interval is 950 ms for each second of the ttl of the first good reply, as a 32-bit int, and that reply has a positive id and ttl of its own |
| Lease.TimerIs | cumbia-http/cuhttpcliidman.cpp:149-178 | from the first good reply on there is a timer with that interval, and it runs if and only if the client has not stopped since |
| Lease.TimerIffGood | cumbia-http/cuhttpcliidman.cpp:79-90 | there is a timer if and only if some reply had a positive id and a positive ttl |
| Lease.IdIsLast | cumbia-http/cuhttpcliidman.cpp:149-162 | id and ttl are those of the last reply that could be decoded |
| Lease.ToInt32Wraps | cumbia-http/cuhttpcliidman.cpp:169-169 | the interval differs from the product by a multiple of 2^32 and fits an int |
| Lease.TimerSends | cumbia-http/cuhttpcliidman.cpp:122-173 | the keep-alives of the timed runs are those the client's timer sends, one a period while it runs |
| Lease.StoppedSendsNothing | cumbia-http/cuhttpcliidman.cpp:175-178 | a client that has stopped sends none, whatever it hears next |
| Lease.IntervalIsExact | cumbia-http/cuhttpcliidman.cpp:169-169 | it is that product exactly if the product fits an int |
| Lease.LeaseIff | cumbia-http/cuhttpcliidman.cpp:122-173 | the lease of a constant ttl holds in every timed run with bounded delays if and only if the timer fires and both delays and its period are at most the ttl together; while the interval fits an int that is 50 ms for each second |
| Lease.RoundTripBound | cumbia-http/cuhttpcliidman.cpp:122-173 | a bound on round trips keeps the lease if and only if twice it and the period are at most the ttl: 25 ms for each second while the interval fits; just below 50 ms it can be lost |
| Lease.WrappedIntervalLoses | cumbia-http/cuhttpcliidman.cpp:159-169 | a ttl of 3000000 s makes the interval negative, and the lease is lost without any delay |
| SourceArgs.GetArgs | cumbia-websocket/ws_source.cpp:21-36 | the arguments are the non-empty pieces between commas of the text in parentheses |
| SourceArgs.ParseUndoesPrint | cumbia-websocket/ws_source.cpp:21-45 | parsing the printed call gives the arguments back if and only if each is non-empty and without a comma |
| SourceArgs.ArgsBetween | cumbia-epics/lib/epsource.cpp:22-53 | name and argument text of a printed call are the two parts printed |
| SourceArgs.NoArguments | cumbia-epics/lib/epsource.cpp:22-53 | a source without a parenthesis is all name, with an empty argument text |
| SourceArgs.WrappedLengthRunsToEnd | cumbia-websocket/ws_source.cpp:43-43 | without a closing parenthesis behind the opening one the 64-bit length wraps and the text runs to the end |
| SourceArgs.RebuildIff | cumbia-epics/lib/epsource.cpp:22-53 | name, "(", argument text and ")" rebuild a source with "(" if and only if it ends in ")" |
| RndRegistry.AddRefines | cumbia-random/cumbiarandom.cpp:38-55 | adding an action is subscription in the plain table, and keeps the registry invariant |
| RndRegistry.UnlinkRefines | cumbia-random/cumbiarandom.cpp:57-65 | unlinking, which visits exiting actions too, is unsubscription in the table |
| RndRegistry.ResultRefines | cumbia-random/curndactionreader.cpp:88-111 | no result changes the table, not even the one that deletes its action |
| RndRegistry.ResultReaches | cumbia-random/curndactionreader.cpp:91-98 | a result of an active action reaches exactly the listeners of its source, one of an exiting action nobody |
| RndEngine.CuRNDActionReader.Start | cumbia-random/curndactionreader.cpp:276-310 | the activity is registered |
| RndEngine.CuRNDActionReader.Stop | cumbia-random/curndactionreader.cpp:229-239 | the activity is unregistered by the first stop only |
| RndEngine.CuRNDActionReader.AddDataListener | cumbia-random/curndactionreader.cpp:241-245 | the listener joins the set |
| RndEngine.CuRNDActionReader.RemoveDataListener | cumbia-random/curndactionreader.cpp:247-252 | the listener leaves, and the last one stops the action |
| RndEngine.CuRNDActionReader.OnResult | cumbia-random/curndactionreader.cpp:88-111 | calls the listeners it had; deletes the action exactly on an exit event after stop, with its activity unregistered once, and leaves the table as it was |
| RndEngine.CuRNDActionFactoryService.RegisterAction | cumbia-random/curndactionfactoryservice.cpp:43-61 | null exactly if an active action of the source and type is listed, else a new one at the end |
| RndEngine.CuRNDActionFactoryService.FindActive | cumbia-random/curndactionfactoryservice.cpp:84-92 | the first active action of the source and type, null if there is none |
| RndEngine.CuRNDActionFactoryService.Find | cumbia-random/curndactionfactoryservice.cpp:108-118 | all listed actions of the source and type, exiting ones included, in order |
| RndEngine.CuRNDActionFactoryService.UnregisterAction | cumbia-random/curndactionfactoryservice.cpp:148-164 | every exiting action of the source and type leaves the list, no active one does |
| RndEngine.CumbiaRandom.AddAction | cumbia-random/cumbiarandom.cpp:38-55 | the table gains the listener, through the one active action of the source; the action used is never null |
| RndEngine.CumbiaRandom.UnlinkListener | cumbia-random/cumbiarandom.cpp:57-65 | the table loses the listener for that source and type only |
| RndEngine.CumbiaRandom.FindAction | cumbia-random/cumbiarandom.cpp:67-73 | an action is found exactly if somebody listens, and its listeners are those of the table |
| WorkerThread.CuRandomGenActivity.Init | cumbia-random/curandomgenactivity.cpp:137-164 | posts the configuration to its thread and makes a generator if none was set |
| WorkerThread.CuRandomGenActivity.Execute | cumbia-random/curandomgenactivity.cpp:176-187 | posts one value and counts it; needs the generator that init made |
| WorkerThread.CuRandomGenActivity.OnExit | cumbia-random/curandomgenactivity.cpp:202-211 | posts the exit event |
| WorkerThread.CuThread.RegisterActivity | cumbia/src/lib/threads/cuthread.cpp:250-262 | the activity has its listener and is queued |
| WorkerThread.CuThread.UnregisterActivity | cumbia/src/lib/threads/cuthread.cpp:277-284 | the listener is dropped at once; the activity exits later |
| WorkerThread.CuThread.ActivityRun | cumbia/src/lib/threads/cuthread.cpp:55-63 | the beginning of the worker of the runs: configuration and first value posted, and a timer exactly for a positive period |
| WorkerThread.CuThread.TimerExpired | cumbia/src/lib/threads/cuthread.cpp:475-498 | one more value of a running activity with a timer, as in the runs |
| WorkerThread.CuThread.ExitActivity | cumbia/src/lib/threads/cuthread.cpp:66-75 | the leaving of the worker of the runs: the exit event and the notice are posted, once |
| WorkerThread.CuThread.OnEventPosted | cumbia/src/lib/threads/cuthread.cpp:304-345 | the next event is taken; a result is passed on exactly if the listener is still known, and the notice deletes the activity |
| WorkerThread.SaidInOrder | cumbia-random/curandomgenactivity.cpp:137-211 | whatever thread and main thread do, an activity posts its configuration, a value for each step, then, once unregistered, its exit event and the notice, and the main thread takes these in order |
| RndRuns.ListRefinesTable | cumbia-random/cumbiarandom.cpp:38-65 | in every run of add, unlink, worker steps and deliveries the list of actions simulates the plain table |
| RndRuns.DeliveryReaches | cumbia-random/curndactionreader.cpp:88-98 | in every run a result is passed on exactly if its action is active, reaches the listeners the table has for its source, and its action is not deleted; what a stopped action still has to come is discarded |
| RndRuns.RegistryHolds | cumbia-random/curndactionfactoryservice.cpp:43-164 | in every reachable state one active action a key, exiting exactly if without listeners, listed ones alive, unlisted ones exiting |
| RndRuns.ExitReachesNobody | cumbia-random/curndactionreader.cpp:100-110 | in every run exit events reach no listener, and an action is deleted only by its own exit event |
| RndRuns.ActivityDeletedOnce | cumbia/src/lib/threads/cuthread.cpp:555-562 | in every run an activity is unregistered once if its action was stopped, however many listeners were removed, and deleted at most once, after that, with no event of it left |
| RndRuns.NothingIsDeleted | cumbia/src/lib/threads/cuthread.cpp:277-330 | in every run over the base library no action is deleted: each one ever created stays alive and listed |
| RndRuns.DeliverDeletesIff | cumbia-random/curndactionreader.cpp:100-110 | an event deletes an action if and only if it is the exit event and the action is still connected |
| RndRuns.DeletionIff | cumbia/src/lib/threads/cuthread.cpp:277-330 | every stopped action can come to its deletion if and only if the library goes on delivering after unregistration |
| RndRuns.StoppedIsDrained | cumbia-random/curndactionreader.cpp:229-239 | from every reachable state the activity of a stopped action is deleted by letting it exit and taking its events, and its action too exactly under that hypothesis |
| RndRuns.ZombieStays | cumbia-random/curndactionreader.cpp:229-252 | after one subscription, one unlink and all events taken the action is still listed and stopped |
| RndRuns.DeletedOnce | cumbia-random/curndactionreader.cpp:100-110 | in every run of either library an action that is gone was deleted exactly once |
| Plot.CuRNDReader.SetSource | cumbia-random/curndreader.cpp:77-85 | the source is stored and the listener subscribed to it |
| Plot.CuRNDReader.UnsetSource | cumbia-random/curndreader.cpp:92-96 | the listener is unsubscribed from the source, which becomes empty |
| Plot.CuRNDReader.Destroy | cumbia-random/curndreader.cpp:70-75 | the destructor unsets the source once more |
| Plot.CuContext.DisposeReader | cumbia-qtcontrols/src/cucontext.cpp:172-188 | the readers hit are unset and deleted in order; only the last of them leaves the list, all for the empty name |
| Plot.CuContext.AddReader | cumbia-qtcontrols/src/cucontext.cpp:151-158 | readers of the source are disposed of and a new one is listed, or null without a factory |
| Plot.CuContext.ReplaceReader | cumbia-qtcontrols/src/cucontext.cpp:131-138 | every reader is disposed of and the new one is alone |
| Plot.CuContext.FindReader | cumbia-qtcontrols/src/cucontext.cpp:380-386 | the first reader of the source, null if there is none |
| Plot.QuPlotCommon.Sources | cumbia-qtcontrols/src/quplotcommon.cpp:52-60 | the sources of the readers, in order |
| Plot.QuPlotCommon.SetSources | cumbia-qtcontrols/src/quplotcommon.cpp:75-86 | names shown at the call are skipped, the others added one by one; no reader is deleted while listed, and no two show one source |
| Plot.QuPlotCommon.AddSource | cumbia-qtcontrols/src/quplotcommon.cpp:88-92 | a source added again moves to the end; readers stay distinct and alive |
| Plot.QuPlotCommon.UnsetSource | cumbia-qtcontrols/src/quplotcommon.cpp:67-70 | the name goes, or all of them for the empty name |
| Plot.QuPlotCommon.UnsetSources | cumbia-qtcontrols/src/quplotcommon.cpp:62-65 | nothing is shown and every reader is unlinked |
| PlotPanel.DanglingIffSharedSource | cumbia-qtcontrols/src/cucontext.cpp:172-188 | a deleted reader stays listed if and only if a non-empty name hits more than one reader |
| PlotPanel.LastHitLeaves | cumbia-qtcontrols/src/cucontext.cpp:172-188 | every reader of the name is deleted, and just the last of them leaves the list |
| PlotPanel.DisposedNames | cumbia-qtcontrols/src/cucontext.cpp:172-188 | with distinct sources disposal removes exactly the name and keeps the readers distinct and alive |
| PlotPanel.CallsOfNames | cumbia-qtcontrols/src/cucontext.cpp:175-183 | and its engine calls depend on the names shown only |
| PlotRuns.PlotAgrees | cumbia-qtcontrols/src/quplotcommon.cpp:52-92 | whatever plot, other clients and workers do, the sources shown are distinct and the listener is on the active action of a non-empty name exactly if it is shown |
| PlotRuns.PlotAgreesExactly | cumbia-qtcontrols/src/quplotcommon.cpp:52-92 | if every name given is non-empty the listener is on no other reader action at all |
| PlotRuns.UnsetExactIff | cumbia-random/curndreader.cpp:70-96 | with the empty name shown, unsetting keeps the agreement if and only if it deletes no other reader |
| PlotRuns.AddExactIff | cumbia-random/curndreader.cpp:70-96 | adding keeps it if and only if it replaces no other reader while the empty name is shown |
| PlotRuns.SetExactIff | cumbia-qtcontrols/src/quplotcommon.cpp:75-86 | setSources keeps it if and only if no name that was not shown is given twice while the empty name is shown, which is from the start or behind the last empty name given |
| PlotRuns.EmptyNameLosesListener | cumbia-random/curndreader.cpp:70-96 | three operations after which the empty name is shown and its listener gone |
| PlotRuns.SetAddsTheRest | cumbia-qtcontrols/src/quplotcommon.cpp:75-86 | setSources keeps the sources shown in place and shows exactly those and the names given |

## Left out

- `onSrcBundleReplyError` (cumbia-http/cumbiahttp.cpp:179-196) and `takeSrcs()` without a source: the error path looks targets up in the source map, notifies once a key and ignores the method, so the unlink and exactly-once results do not hold through it.
- Sockets, network access, SSL, cookies, credential prompts, JSON text and its parser: replies are arbitrary steps, a parser is a parameter, JSON is abstract objects.
- `m_json_decode`, timestamps and message texts: a long type switch without a deep property; an error update carries its message, source and flags only.
- A missing write helper in `onCredsReady`, `onAuthReply` and `onAuthError`, and `CuLinkStats`: not part of this model.
- Wildcard replacement and the source helpers behind `prepare`: source names are taken as prepared, and preparing a prepared name is taken to change nothing.
- `%1(%2)` substitution and Latin-1 conversion: `Bundle` joins name and value directly, which is what the code does for names without place markers.
- The queue timer interval of 400 ms and its reset in `enqueueSrc`: a tick is a step, and every bound counts ticks.
- SrcMan.CuHttpSrcMan.OnDequeueTimeout: returns the bundle instead of calling its listener in between; `OnTimer` then hands it to the gate, in the same step.
- Lease.CuHttpCliIdMan.OnCompleteReply: takes the decoded reply; collecting its bytes and the multiplication by 0.95 in floating point are not modelled, the factor is the exact 950.
- SourceArgs.GetArgs: models the websocket parser; the one of cumbia-epics keeps empty pieces and is not modelled.
- HttpEngine.CumbiaHttp.FailPendingTargets: notifies in key order, as the code does, but listeners are not allowed to call back.
- RndEngine.CuRNDActionReader.OnResult: calls its listeners as a set; the order of a std::set of pointers is an address order.
- WorkerThread.CuRandomGenActivity.Init: the configuration, bounds and elapsed time it publishes are left out; a message is its kind.
- WorkerThread.CuRandomGenActivity.Execute: the generated value is left out in the same way.
- WorkerThread.CuRandomGenActivity.OnExit: publishes the exit flag and the activity's token; the token is left out.
- WorkerThread.CuThread.TimerExpired: timers shared by several activities and changes of the period are not modelled; nor is the end of the thread, when its last listener is gone or the application ends, with which its bridge is deleted.
- Activity manager and service provider internals, options and data sent to readers, the source builder with its regular expressions, `cleanup` and the mutex of the action service: not part of this model.
- Bundle.CuHttpBundledSrcReq.JsonPack: lists the option names in key order, where the code has the order of an unordered map; the keys of the packed object are the same.
- Bundle.CuHttpBundledSrcReq.FromItems: inherits that order.
- Bundle.CuHttpBundledSrcReq.FromTargets: inherits that order, and leaves out the cookie sent with the request.
- HttpRuns.ReplyAnswersOnce: is one step; `ReadCallsMatchTaken` and `WaitingIsAccounted` carry it over runs.
- Lease.LeaseIff: takes a pass of the event loop as a millisecond for an interval that wraps to 0, and the ttl as below 2^53, where its product in floating point is exact.
- `CuContext` writers and the factory pool: `add_writer` disposes of nothing, and the argument about distinct sources is one about readers.
- The action classes of cumbia-websocket, cumbia-epics and cumbia-tango: their `stop` and unregistration differ, and the registry results are not theirs.
- Widgets, plots as such, QML and plugins: user interface.
