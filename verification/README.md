# A verified model of the V2X Hub message core

V2X Hub is a hub for connected-vehicle messages. Plugins are separate processes that talk to a core
over sockets; the core routes messages between them, keeps their configuration, and starts and stops
them. This project models the parts of that system in which most can go wrong, and proves what they
do for every input, every run and every interleaving. Each module follows one component, in the form
the component has: objects that are updated in place are classes whose methods are proved against
specification functions, loops are loops with invariants, and threads and processes are state
machines whose steps are the atomic sections of the code.

| file | module | component |
|---|---|---|
| `Router.dfy` | `MessageRouting` | the message router: broadcasts against (un)registrations |
| `Connection.dfy` | `PluginConnections` | the three threads of a connection, their queues, events and messages |
| `MsgFramer.dfy` | `MessageFraming` | message framing on the sockets, in its fixed buffer |
| `Protocol.dfy`, `ProtocolRuns.dfy` | `ClientCoreProtocol`, `ProtocolRuns` | registration, subscription and configuration between a client and the core |
| `ClientNames.dfy` | `ClientNames` | the set of registered plugin names |
| `Supervisor.dfy` | `Supervision` | the process supervisor |
| `PathCheck.dfy` | `PathCheck` | the check on an executable's path, and the tokenizer before it |
| `Profiler.dfy` | `MessageProfiling` | the message profiler and its text-ordered map |
| `Matching.dfy` | `MessageMatching` | the performance analyzer's matching of two logs |
| `JsonWalk.dfy` | `JsonWalk` | the browser's walk over a JSON tree with an explicit stack |
| `Reassembly.dfy` | `StreamReassembly` | the browser's reassembly of messages from chunks |
| `Texts.dfy`, `Queues.dfy`, `Sets.dfy`, `Wrappers.dfy` | `Texts`, `Queues`, `Sets`, `Wrappers` | frames and chunks, drop-oldest queues, least elements, options |
| `Simulator.dfy` | `RouteSimulation` | the simulator's send schedule and kinematics |

`dafny verify dfyconfig.toml` checks everything.

## Assumptions

- A step of a state machine is one critical section, one call on an event, one map access or one
  handler. Handlers return normally. In the client/core protocol a whole handler is one step.
- An auto-reset event stays set until one waiter consumes it. The two socket directions are FIFO.
- Database tables are maps, reads may fail, and what a database or a clock answers is an input.
  Process ids are not reused; installed plugins have distinct plugin ids.
- Great-circle distances are inputs, and lengths, speeds and seconds are exact reals. Times in
  milliseconds are unbounded integers; the profiler's 32-bit counter wraps.
- The case folding of the analyzer is an arbitrary function. Assertions of the C++ code are compiled out.

## What the code does that its documentation does not say

- The router's header (src/tmx/TmxCore/src/MessageRouterBasic.h:43-47) promises that the map does not
  change during a broadcast. Leaving the wait and writing the map are two steps, and a broadcast can
  enter between them. `EveryBroadcastIsExact` proves the promise when none enters over a pending change,
  and `EnteringIsSafeExactlyWhen` that this is the exact condition. The header's exception for
  "the same thread" cannot happen: a callback that registers waits for its own broadcast for ever
  (`CountIsExactAndWritersExclude`).
- src/tmx/TmxApi/tmx/IvpPlugin.h:57 says a fatal error severs the connection. The core's refusal of a
  registration is fatal but carries error number none, so the client ignores it and stays connected
  (`RejectedClientStaysConnected`). An error that another plugin sends is routed and does stop a
  subscribed client (`ARoutedErrorStopsTheClient`).
- A NUL between messages makes the framer drop what came with it, so what is received can depend
  on how the stream was cut (`CutsDoNotMatterExactlyWhen`, `NulBetweenMessages`).
- A client that reconnects keeps its old values while the core sends only those that differ from
  the default, so they can disagree (`ReplyAgreesExactlyWhen`, `ReconnectCanDisagree`). On a first
  connection they can disagree when a global parameter bears a manifest key with another default
  (`ConfigAgreesExactlyWhen`, `ClashingDefaultsDisagree`).
- The tokenizer that removes empty tokens leaves one when the text starts with two separators, and
  the path check counts it as a directory: `//../x` is accepted (`CheckIsRightExactlyWhen`).
- The browser's walk removes the first `undefined->` from a restored path, because it reads one past
  the end of the key list (`WalkIsPlainExactlyWhen`).
- A registered name is never given back after a database failure, nor when the plugin registers
  again under another name (`NamesAreAccountedFor`, `OrphansStay`).
- The profiler counts two kinds of messages of one sender as one when their keys have the same text,
  and lists a message under another type that is already known with its text, whoever sent that
  (`TextIsItsOwnExactlyWhen`, `CountsAgreeExactlyWhen`, `AnotherSenderNamesTheEntry`). An entry made
  while the database refuses its type is listed as type 0 for good (`FirstMessageDecides`).
- While it pauses at a waypoint the simulated vehicle reports a negative speed
  (`NegativeExactlyWhilePausing`).
- The analyzer's result frames start with one blank row whenever they have any (`Frame`).

## Model

| member | source | states |
|---|---|---|
| `MessageRouting.MessageRouterBasic.BroadcastMessage` | src/tmx/TmxCore/src/MessageRouterBasic.cpp:47-119 | a receiver is called if and only if it is not the sender and has an entry of type "*", or of the message's type with subtype "*" or the message's, whose mask is 0 or shares a bit with the flags; once each, in address order; the count is restored |
| `MessageRouting.DeliveredExactlyWhen` | src/tmx/TmxCore/src/MessageRouterBasic.cpp:59-107 | the same of any exact delivery, on the fields of entries and message |
| `MessageRouting.OthersAreNotDelivered` | src/tmx/TmxCore/src/MessageRouterBasic.cpp:69-105 | a receiver whose entries all name another type, another subtype or other flags is not called |
| `MessageRouting.CountIsExactAndWritersExclude` | src/tmx/TmxCore/src/MessageRouterBasic.cpp:53-55 | in every interleaving the count is the number of broadcasts inside the loop, at most one thread is past the map lock, and no writer leaves its wait while a broadcast is active |
| `MessageRouting.PromiseStep` | src/tmx/TmxCore/src/MessageRouterBasic.h:42-48 | every step that does not enter over a pending change of the map keeps the router's invariant |
| `MessageRouting.EveryBroadcastIsExact` | src/tmx/TmxCore/src/MessageRouterBasic.h:42-48 | in every such run the map never changes under a broadcast, and each finished one called, once each, exactly the receivers of the map it entered with whose entries asked for the message, except the sender |
| `MessageRouting.CallsAreLogged` | src/tmx/TmxCore/src/MessageRouterBasic.cpp:77-96 | in every run the log tells exactly the calls of each finished broadcast, in order |
| `MessageRouting.NothingAfterUnregister` | src/tmx/TmxCore/src/MessageRouterBasic.cpp:133-143 | between the return of an unregistration and a delivery to that receiver lies a new registration of it |
| `MessageRouting.EnteringIsSafeExactlyWhen` | src/tmx/TmxCore/src/MessageRouterBasic.cpp:121-143 | in every such run, entering is safe for every continuation that keeps to this if and only if no writer past its wait is about to change the map |
| `MessageRouting.EveryOpenWindowBreaksThePromise` | src/tmx/TmxCore/src/MessageRouterBasic.cpp:126-128 | from every reachable state with a writer about to change the map, in any run, a broadcast can enter and have the map changed under it |
| `MessageRouting.ABroadcastCanMissAReceiver` | src/tmx/TmxCore/src/MessageRouterBasic.cpp:133-143 | a run in which a broadcast ends without reaching a receiver that was registered when it entered |
| `PluginConnections.MessageQueue.Push` | src/tmx/TmxCore/src/PluginConnection.cpp:168-191 | old contents plus the message are what is freed plus what is kept; a full queue frees its oldest |
| `PluginConnections.MessageQueue.Pop` | src/tmx/TmxCore/src/PluginConnection.cpp:221-234 | takes the oldest; the flag says whether more is there, and is untouched when nothing was |
| `PluginConnections.LanesStep` | src/tmx/TmxCore/src/PluginConnection.cpp:106-195 | every step of the three threads keeps the FIFO, wakeup and teardown invariants of both lanes |
| `PluginConnections.NoLostWakeupNoSpinning` | src/tmx/TmxCore/src/PluginConnection.cpp:213-236 | in every interleaving a processor that sleeps or is about to, over a non-empty queue, has its event set or about to be set, one that skips the wait finds a message, and an interrupted one takes at most one more |
| `PluginConnections.EachWakeupNeedsASignal` | src/tmx/TmxCore/src/PluginConnection.cpp:216-217 | a wakeup uses up its signal: over any steps that do not set the event again the processor does not wake again |
| `PluginConnections.LanesAreFifo` | src/tmx/TmxCore/src/PluginConnection.cpp:168-191 | what a lane handles is a subsequence of its arrivals in order, an arrival is dropped only by the 50th after it, and every slow message takes one of the two handlers |
| `PluginConnections.JoinsNeverBlock` | src/tmx/TmxCore/src/PluginConnection.cpp:116-121 | once interrupted and signalled, a processor can move until it has exited |
| `PluginConnections.JoinsReturn` | src/tmx/TmxCore/src/PluginConnection.cpp:116-121 | each of its moves brings it nearer to the exit and no other step takes it back |
| `PluginConnections.CanBeClosed` | src/tmx/TmxCore/src/PluginConnection.cpp:111-138 | from every reachable state a run closes the connection |
| `PluginConnections.BalanceStep` | src/tmx/TmxCore/src/PluginConnection.cpp:116-191 | every step keeps parsed equal to alive plus freed |
| `PluginConnections.MessagesAreConserved` | src/tmx/TmxApi/tmx/IvpMessage.c:216-233 | in every reachable state a parsed message is in hand, queued, held or freed, none is freed twice, the live counter is exact, and after the close everything is freed and the counter is back |
| `MessageFraming.MsgFramer.constructor` | src/tmx/TmxApi/tmx/utils/MsgFramer.c:13 | an empty buffer |
| `MessageFraming.MsgFramer.Receive` | src/tmx/TmxApi/tmx/utils/MsgFramer.c:25-36 | the unread text grows by the received text, whatever is in it, and is terminated |
| `MessageFraming.MsgFramer.Shift` | src/tmx/TmxApi/tmx/utils/MsgFramer.c:43-54 | the copying loop moves text and terminator to the front unchanged, although the ranges overlap |
| `MessageFraming.MsgFramer.Find` | src/tmx/TmxApi/tmx/utils/MsgFramer.c:57 | the first such character before any NUL, or not found |
| `MessageFraming.MsgFramer.GetNextMsg` | src/tmx/TmxApi/tmx/utils/MsgFramer.c:39-89 | for every buffer, NULs included, the array code returns and keeps what the specification on text says |
| `MessageFraming.MsgFramer.Deliver` | src/tmx/TmxCore/src/PluginConnection.cpp:140-144 | taking in a chunk and asking until nothing is left yields all messages of buffer plus chunk and ends |
| `MessageFraming.DrainIsReadExactlyWhen` | src/tmx/TmxApi/tmx/utils/MsgFramer.c:39-89 | for every buffer, draining is reading one character at a time if and only if no message begins behind a NUL that stands between messages; a NUL inside a message hides its end until it fills the buffer |
| `MessageFraming.ChunksAgreeExactlyWhen` | src/tmx/TmxApi/tmx/utils/MsgFramer.c:39-89 | for any chunks, code and reference agree after each of them if and only if each is harmless in that sense where it comes |
| `MessageFraming.CutsDoNotMatterExactlyWhen` | src/tmx/TmxApi/tmx/utils/MsgFramer.c:39-89 | for every stream, what is received never depends on how recv cuts it if and only if a NUL between messages and the next beginning never fit into the buffer together |
| `MessageFraming.FittingFramesComeOut` | src/tmx/TmxApi/tmx/utils/MsgFramer.c:91-109 | of any framed messages in any chunks exactly those of at most 19998 characters come out, once each and in order |
| `MessageFraming.NulBetweenMessages` | src/tmx/TmxApi/tmx/utils/MsgFramer.c:57-61 | after any chunks that leave nothing over, a NUL and a frame lose the message in one chunk and deliver it in two |
| `ClientCoreProtocol.ReadFilterEntries` | src/tmx/TmxCore/src/PluginConnection.cpp:425-446 | entry j of the list has the type, the subtype (or the empty text) and the mask of the j-th raw entry that has a type |
| `ClientCoreProtocol.OneListOnly` | src/tmx/TmxCore/src/PluginConnection.cpp:425-446 | a filter has only one such list |
| `ClientCoreProtocol.RegistrationReply` | src/tmx/TmxCore/src/PluginConnection.cpp:381-388 | exactly the entries that differ from their default are sent, once each |
| `ClientCoreProtocol.ReplyAgreesExactlyWhen` | src/tmx/TmxCore/src/PluginConnection.cpp:381-393 | after the reply client and core agree on a key if and only if it was sent or the client held its value |
| `ClientCoreProtocol.ReconnectCanDisagree` | src/tmx/TmxCore/src/PluginConnection.cpp:385-386 | a reconnecting client that misses the return to a default |
| `ClientCoreProtocol.RegistrationSharesDefaults` | src/tmx/TmxCore/src/database/ConfigContext.cpp:87-181 | after a registration both sides have the same defaults unless a global parameter has a manifest key |
| `ClientCoreProtocol.InitializationKeepsValues` | src/tmx/TmxCore/src/database/ConfigContext.cpp:87-153 | a registration keeps stored values, also over a change of manifest, sets the defaults, gives new keys their default, drops keys the manifest has not, and repeating it changes nothing |
| `ClientCoreProtocol.ConfigMonitor.UpdateKnown` | src/tmx/TmxCore/src/Plugin.cpp:333-349 | exactly the changed cached keys are replaced and announced, once each, and new keys are left over |
| `ClientCoreProtocol.ConfigMonitor.AddNew` | src/tmx/TmxCore/src/Plugin.cpp:351-364 | exactly the new keys are added and announced, once each |
| `ClientCoreProtocol.ConfigMonitor.Poll` | src/tmx/TmxCore/src/Plugin.cpp:331-366 | one poll changes and announces exactly the changed and new keys, once each |
| `ClientCoreProtocol.PollAgrees` | src/tmx/TmxCore/src/Plugin.cpp:331-366 | after a poll the cache equals the database on every database key, and silence means nothing had changed |
| `ProtocolRuns.IvpPlugin.BroadcastMessage` | src/tmx/TmxApi/tmx/IvpPlugin.c:181-210 | nothing is sent unless connected, and a failing send disconnects |
| `ProtocolRuns.IvpPlugin.Subscribe` | src/tmx/TmxApi/tmx/IvpPlugin.c:97-117 | the filter is kept and sent if connected |
| `ProtocolRuns.IvpPlugin.UpdateConfig` | src/tmx/TmxApi/tmx/IvpPlugin.c:383-401 | the loop applies the items in order, passing over unknown keys |
| `ProtocolRuns.IvpPlugin.OnMessageReceived` | src/tmx/TmxApi/tmx/IvpPlugin.c:369-419 | the first configuration message registers the client and repeats its subscription |
| `ProtocolRuns.SubscribedStep` | src/tmx/TmxApi/tmx/IvpPlugin.c:97-117 | every step keeps the router's list, with what is on its way, equal to the latest filter |
| `ProtocolRuns.SubscriptionAgreement` | src/tmx/TmxCore/src/PluginConnection.cpp:423-449 | in every run a registered client with empty channels has in the router exactly the list of its latest filter, whenever it was set, unless a full queue dropped the message that carried it |
| `ProtocolRuns.AnEarlyFilterArrives` | src/tmx/TmxApi/tmx/IvpPlugin.c:408-412 | a run in which a filter set before connecting gets into the router |
| `ProtocolRuns.UnregisteredIsAnswered` | src/tmx/TmxCore/src/PluginConnection.cpp:448-460 | a run in which what an unregistered plugin sends is answered with an error and does not reach the router |
| `ProtocolRuns.AReconnectKeepsTheClient` | src/tmx/TmxApi/tmx/IvpPlugin.c:464-467 | a run in which a client that connects again keeps its filter and configuration and the core starts anew |
| `ProtocolRuns.RejectedClientStaysConnected` | src/tmx/TmxCore/src/PluginConnection.cpp:398-408 | in every run a refused client neither reaches its error state nor becomes registered on that connection; a client in the error state was registered and had its subscription in the router |
| `ProtocolRuns.ARefusalIsIgnored` | src/tmx/TmxCore/src/PluginConnection.cpp:398-420 | runs in which a refusal, or an error after the commit, is sent as fatal without a number and leaves the client connected, and an unreadable manifest is not answered |
| `ProtocolRuns.CanBeAnswered` | src/tmx/TmxCore/src/PluginConnection.cpp:379-397 | every answer the database may give to a first registration is reached by a run |
| `ProtocolRuns.ARoutedErrorStopsTheClient` | src/tmx/TmxApi/tmx/IvpPlugin.c:326-340 | after any answered registration there is a run in which an error routed from another plugin puts the client into its error state |
| `ProtocolRuns.ReplayedNotes` | src/tmx/TmxCore/src/PluginConnection.cpp:42-54 | receiving notifications one by one is receiving their items at once |
| `ProtocolRuns.AcceptedTracks` | src/tmx/TmxCore/src/PluginConnection.cpp:379-397 | the reply brings the client's future view of a key to the cache if and only if it settles the key |
| `ProtocolRuns.PolledTracks` | src/tmx/TmxCore/src/Plugin.cpp:331-366 | a poll's notifications settle the keys they announce and leave the agreement on the others as it is |
| `ProtocolRuns.ConfigAgreesExactlyWhen` | src/tmx/TmxCore/src/PluginConnection.cpp:379-397 | in every run, on a first connection that was answered, receiving what is on its way makes the client agree with the cache on a manifest key if and only if the registration read a value other than its default or the client's own default, or a poll has announced the key since |
| `ProtocolRuns.ConfigAgreement` | src/tmx/TmxCore/src/PluginConnection.cpp:379-397 | starting from the same defaults, it agrees on every manifest key |
| `ProtocolRuns.AChangeReachesTheClient` | src/tmx/TmxCore/src/Plugin.cpp:331-366 | for every answer and every poll, a run in which the changes reach cache and client |
| `ProtocolRuns.ClashingDefaultsDisagree` | src/tmx/TmxCore/src/database/ConfigContext.cpp:155-181 | a run in which a global parameter bears a manifest key with another default and client and core disagree |
| `ClientNames.Plugin.Reserve` | src/tmx/TmxCore/src/Plugin.cpp:67-74 | a name is reserved if and only if it is not in the set |
| `ClientNames.Plugin.RegisterPlugin` | src/tmx/TmxCore/src/Plugin.cpp:59-111 | the five outcomes, the last of them after the commit, and what each leaves in the plugin and in the set |
| `ClientNames.NamesAreAccountedFor` | src/tmx/TmxCore/src/Plugin.cpp:59-108 | over every run the set is exactly the names used by one live plugin each, in one way, and the orphans of failed and repeated registrations |
| `ClientNames.NoTwoPluginsShareAName` | src/tmx/TmxCore/src/Plugin.cpp:67-79 | over every run no two live plugins are registered under one name |
| `ClientNames.RefusedExactlyWhen` | src/tmx/TmxCore/src/Plugin.cpp:61-79 | a reservation is refused if and only if the name is empty, in use or an orphan |
| `ClientNames.NameLeavesWithItsHolder` | src/tmx/TmxCore/src/Plugin.cpp:33-37 | a name that left the set was given back by a plugin that had committed it |
| `ClientNames.AFreeNameCanBeTaken` | src/tmx/TmxCore/src/Plugin.cpp:59-108 | after every run, any new plugin can register under any name that is neither in use nor an orphan, and give it back |
| `ClientNames.OrphansStay` | src/tmx/TmxCore/src/Plugin.cpp:98-101 | an orphaned name stays in the set in every continuation |
| `Supervision.PluginMonitor.OnMessageReceived` | src/tmx/TmxCore/src/PluginMonitor.cpp:104-133 | records the first and the last time of each source |
| `Supervision.PluginMonitor.DrainMessages` | src/tmx/TmxCore/src/PluginMonitor.cpp:193-223 | every running plugin that was heard gets its last time, the others keep theirs, and the map is empty |
| `Supervision.PluginMonitor.EscalateOne` | src/tmx/TmxCore/src/PluginMonitor.cpp:262-309 | the signals sent stay those of the kill state and grow by at most one |
| `Supervision.PluginMonitor.EscalateKills` | src/tmx/TmxCore/src/PluginMonitor.cpp:258-310 | in one pass every running plugin is escalated once and gets at most one signal |
| `Supervision.TendedStep` | src/tmx/TmxCore/src/PluginMonitor.cpp:225-382 | every step of the supervisor and its surroundings keeps running entries and live processes in one-to-one correspondence |
| `Supervision.AtMostOneProcess` | src/tmx/TmxCore/src/PluginMonitor.cpp:313-382 | in every reachable state a plugin has at most one live process, and the signals of each are a prefix of TERM, INT, KILL |
| `Supervision.SignalsOnlyGrow` | src/tmx/TmxCore/src/PluginMonitor.cpp:260-310 | no later step takes a signal back, whatever is enabled or disabled |
| `Supervision.RecordSummarizes` | src/tmx/TmxCore/src/PluginMonitor.cpp:115-132 | the message map stays a summary of the log since the last drain, with the first and the last time of each source |
| `Supervision.ListeningStep` | src/tmx/TmxCore/src/PluginMonitor.cpp:193-223 | every step keeps each last-heard time equal to replaying the log |
| `Supervision.TermNeedsAReason` | src/tmx/TmxCore/src/PluginMonitor.cpp:274-306 | in every run a first signal is TERM and is sent if and only if the plugin is disabled, unheard past the startup limit, or silent past its interval as measured on the whole log; each later visit sends the next one |
| `Supervision.OneSignalPerPass` | src/tmx/TmxCore/src/PluginMonitor.cpp:258-310 | in every run, from the beginning of a pass's escalation to its end, each running plugin is escalated exactly once and its process gets at most one signal |
| `Supervision.OpeningReads` | src/tmx/TmxCore/src/PluginMonitor.cpp:225-258 | when a pass's escalation begins, plugins whose processes had died when the database was read are out of the running map and reaped, the rest is as it was, and the escalation goes by this pass's readings and visits all that run |
| `Supervision.PassRestartsTheDead` | src/tmx/TmxCore/src/PluginMonitor.cpp:225-382 | in every run, over a whole pass: every enabled plugin that had no live process when the database was read was launched in this pass, and unless that was refused it runs in the process then started, with that start time; the dead process is reaped; a plugin still running was escalated once and stays |
| `Supervision.PassesComplete` | src/tmx/TmxCore/src/PluginMonitor.cpp:178-384 | from every reachable state between passes, whatever the database shows, a pass can be completed |
| `Supervision.SkippedPass` | src/tmx/TmxCore/src/PluginMonitor.cpp:225-233 | a pass cut short by the database touches no process and no kill state |
| `Supervision.OnlyAcceptedPathsRun` | src/tmx/TmxCore/src/PluginMonitor.cpp:354-364 | in every run only executables that pass the path check are started |
| `Supervision.RunsUntilItDies` | src/tmx/TmxCore/src/PluginMonitor.cpp:245-250 | in every run a process counts as running exactly until it dies |
| `Supervision.LogIsWhatWasRecorded` | src/tmx/TmxCore/src/PluginMonitor.cpp:104-133 | the log that reasons are measured on is exactly what was recorded, in order |
| `Supervision.PassesGoOn` | src/tmx/TmxCore/src/PluginMonitor.cpp:196-219 | plugin ids stay distinct among running plugins and no pass gets stuck on an entry |
| `PathCheck.CheckExecutable` | src/tmx/TmxCore/src/PluginMonitor.cpp:337-354 | for tokens that are not empty, accepted if and only if lexical resolution never leaves the directory and ends below it |
| `PathCheck.CounterIsResolution` | src/tmx/TmxCore/src/PluginMonitor.cpp:337-354 | the depth counter and its low point decide as stack-based resolution does |
| `PathCheck.RemoveEmpty` | src/tmx/TmxCore/src/utils/StringUtils.cpp:30-40 | what the erasing loop leaves, including the piece it does not look at |
| `PathCheck.Tokenize` | src/tmx/TmxCore/src/utils/StringUtils.cpp:12-43 | the pieces between separators after that loop |
| `PathCheck.PiecesAreTheText` | src/tmx/TmxCore/src/utils/StringUtils.cpp:16-28 | the pieces hold no separator, and with one behind each they are the text, closed by one |
| `PathCheck.EmptyTokenIsLeftExactlyWhen` | src/tmx/TmxCore/src/utils/StringUtils.cpp:30-40 | an empty token is left if and only if the first two pieces are empty, and then it is one, in front; the others that are not empty are all left |
| `PathCheck.PiecesStartEmpty` | src/tmx/TmxCore/src/utils/StringUtils.cpp:16-28 | the first two pieces are empty if and only if the text starts with two separators |
| `PathCheck.CheckIsRightExactlyWhen` | src/tmx/TmxCore/src/PluginMonitor.cpp:317-354 | for every name the check agrees with resolution if and only if the name does not start with two slashes and use the level the empty token is counted for |
| `PathCheck.OneClimbIsMissed` | src/tmx/TmxCore/src/PluginMonitor.cpp:317-354 | a name that is accepted and resolves outside |
| `MessageProfiling.DecimalReadsBack` | src/tmx/TmxCore/src/MessageProfiler.h:50 | the decimal text of an id determines it |
| `MessageProfiling.CleanKeysDiffer` | src/tmx/TmxCore/src/MessageProfiler.h:47-53 | keys whose types have no inner or final separator have the same text only if they are the same |
| `MessageProfiling.NoBarIsClean` | src/tmx/TmxCore/src/MessageProfiler.h:47-53 | a type without the separator's character is one of those |
| `MessageProfiling.TextIsItsOwnExactlyWhen` | src/tmx/TmxCore/src/MessageProfiler.h:47-53 | a key shares its text with no other key at all if and only if its type and its subtype are clean |
| `MessageProfiling.KeysAreOrdered` | src/tmx/TmxCore/src/MessageProfiler.h:47-53 | the map's order is strict and transitive, and separates exactly the distinct keys with clean types |
| `MessageProfiling.LessIsDictionaryOrder` | src/tmx/TmxCore/src/MessageProfiler.h:52 | the order is that of a dictionary |
| `MessageProfiling.KeyIsFrom` | src/tmx/TmxCore/src/MessageProfiler.cpp:92-110 | which messages count for which key, on the message's fields |
| `MessageProfiling.MessageProfiler.constructor` | src/tmx/TmxCore/src/MessageProfiler.cpp:58-66 | the type table starts with what the database holds |
| `MessageProfiling.MessageProfiler.OnMessageReceived` | src/tmx/TmxCore/src/MessageProfiler.cpp:87-162 | heartbeats and messages without a source change nothing; others are recorded under the known type with their text, and a new type enters the table if the database stores it |
| `MessageProfiling.TableIsKnown` | src/tmx/TmxCore/src/MessageProfiler.cpp:110-131 | over every log the table holds for each text its initial entry or the first stored one |
| `MessageProfiling.PurgeTimes` | src/tmx/TmxCore/src/MessageProfiler.cpp:207-213 | the loop that erases as it goes keeps exactly the times t with window + t at least now, in order |
| `MessageProfiling.MessageProfiler.Refresh` | src/tmx/TmxCore/src/MessageProfiler.cpp:189-233 | every entry is purged, nothing else changes, and each is listed with its plugin, its type, or none if that has no id, its count, the last time in whole seconds, and the window shared out over the times in it |
| `MessageProfiling.FirstMessageDecides` | src/tmx/TmxCore/src/MessageProfiler.cpp:110-157 | over every log, an entry is kept for good under the type known with its text when its first message came, or else under its own, and has a type id if and only if it was known then or the database stored it then |
| `MessageProfiling.CountsAgreeWithLog` | src/tmx/TmxCore/src/MessageProfiler.cpp:110-157 | for every initial table and log, an entry is there exactly for logged keys, under that key, with their count (modulo 32 bits) and last time, if the sender sent no other key with that text and it was not known as another type when the key first came |
| `MessageProfiling.CleanHasNoTwin` | src/tmx/TmxCore/src/MessageProfiler.h:47-53 | the condition holds when all types, logged and in the table, are clean, and for a key whose own type and subtype are |
| `MessageProfiling.CountsAgreeExactlyWhen` | src/tmx/TmxCore/src/MessageProfiler.cpp:110-157 | in logs short enough not to wrap the counter, agreement holds if and only if the sender sent no other key with that text, and when the key first came its text was not known as another type, from the table or from any sender |
| `MessageProfiling.TimesAgreeWithLog` | src/tmx/TmxCore/src/MessageProfiler.cpp:203-213 | earlier purges with no later limit are unnoticeable after a purge |
| `MessageProfiling.WindowAgreesWithLog` | src/tmx/TmxCore/src/MessageProfiler.cpp:203-213 | with one window and a clock that does not run back, after a purge exactly the logged times in the window are kept |
| `MessageProfiling.BarsMergeEntries` | src/tmx/TmxCore/src/MessageProfiler.h:50-51 | two keys with one text |
| `MessageProfiling.AnotherSenderNamesTheEntry` | src/tmx/TmxCore/src/MessageProfiler.cpp:128-131 | a message recorded under a type that only another plugin sent |
| `MessageMatching.FindFirst` | tools/v2xhub-messaging-performance-analyzer/v2xhub_messaging_performance_analyzer.py:149-151 | the first remaining row with the same folded text |
| `MessageMatching.CalculateMessagePerformance` | tools/v2xhub-messaging-performance-analyzer/v2xhub_messaging_performance_analyzer.py:130-169 | the verdicts are the greedy ones; after one blank row the latency frame tells, in order, of each matched transmit row its timestamp and kind and the latency that takes it to its receive row, at most 200 and of the same folded text; the drop frame tells timestamp, kind and text of each dropped one |
| `MessageMatching.Exchange` | tools/v2xhub-messaging-performance-analyzer/v2xhub_messaging_performance_analyzer.py:149-158 | when the loop pairs two rows, any pairing can do without both and lose at most one pair |
| `MessageMatching.DroppedHasNoPartner` | tools/v2xhub-messaging-performance-analyzer/v2xhub_messaging_performance_analyzer.py:153-160 | a dropped row could not be paired with anything left |
| `MessageMatching.GreedyIsOptimal` | tools/v2xhub-messaging-performance-analyzer/v2xhub_messaging_performance_analyzer.py:142-160 | one verdict per transmit row, no receive row twice, every match of the same folded text within 200 ms, and on ordered logs no one-to-one pairing of such rows has more pairs |
| `MessageMatching.RowsAreCounted` | tools/v2xhub-messaging-performance-analyzer/v2xhub_messaging_performance_analyzer.py:140-160 | drops and latencies together are the transmit rows, and latencies are the matches |
| `MessageMatching.OrderIsNeeded` | tools/v2xhub-messaging-performance-analyzer/v2xhub_messaging_performance_analyzer.py:142-160 | logs, out of order on either side, on which the loop is not optimal |
| `JsonWalk.ReportLeaves` | web/js/tmx.common.library.js:856-868 | the run of leaves up to the next object, with their paths |
| `JsonWalk.Turn` | web/js/tmx.common.library.js:854-880 | one turn keeps reports made plus reports to come, and leaves less to do |
| `JsonWalk.HandleListMessage` | web/js/tmx.common.library.js:849-880 | the loop ends, and its calls are those of the recursive walk up to the first null |
| `JsonWalk.RestoredTakesOutTheFirst` | web/js/tmx.common.library.js:878 | going up takes the first "undefined->" out of the saved path, and nothing else |
| `JsonWalk.WalkIsPlainExactlyWhen` | web/js/tmx.common.library.js:874-879 | the calls made, up to the first null, are those of the plain traversal if and only if before that null no leaf follows an object under a path with "undefined->" |
| `JsonWalk.OrdinaryTreesAreReported` | web/js/tmx.common.library.js:849-880 | without nulls and without "undefined" in a key, every leaf is reported once, in order, with the keys that lead to it joined by arrows |
| `JsonWalk.UndefinedKeyLosesItsPath` | web/js/tmx.common.library.js:878 | a tree on which a leaf loses part of its path |
| `StreamReassembly.SocketReader.OnMessage` | web/js/tmx.common.library.js:1526-1556 | the non-empty terminated segments of buffer plus chunk are handled and the tail is kept |
| `StreamReassembly.HandlePieces` | web/js/tmx.common.library.js:1537-1554 | the loop handles the non-empty pieces but the last, and keeps the last |
| `StreamReassembly.CutIsTheStream` | web/js/tmx.common.library.js:1532-1536 | the pieces, each with its terminator, and the tail are the stream, and none of them holds a terminator |
| `Texts.NonEmptyIsListed` | web/js/tmx.common.library.js:1539 | exactly the pieces that are not empty, in order |
| `StreamReassembly.StreamAppend` | web/js/tmx.common.library.js:1526-1556 | a longer stream adds what its tail and the new text make together |
| `StreamReassembly.ChunksDoNotMatter` | web/js/tmx.common.library.js:1526-1556 | for every splitting, the messages are the non-empty terminated segments of the whole stream and the buffer is its tail |
| `StreamReassembly.FramesComeBack` | web/js/tmx.common.library.js:1391-1395 | framed commands come back once each, in order, whatever the chunks |
| `RouteSimulation.TravelTime` | tools/v2i-hub-simulator/V2IHubSimulator/MainWindow.xaml.cs:770-778 | the computed time is the leg at the mean of its end speeds, and ends at the second speed |
| `RouteSimulation.ArrivesAtEnd` | tools/v2i-hub-simulator/V2IHubSimulator/MainWindow.xaml.cs:770-778 | at that time the vehicle is exactly at the leg's end |
| `RouteSimulation.DurationIsTravelAndPause` | tools/v2i-hub-simulator/V2IHubSimulator/MainWindow.xaml.cs:774-780 | a leg's duration is its travel time and, after a full stop, the pause, less than two milliseconds short |
| `RouteSimulation.MeanSpeed` | tools/v2i-hub-simulator/V2IHubSimulator/MainWindow.xaml.cs:866 | between two moments it covers the time at the mean of its speeds |
| `RouteSimulation.NegativeExactlyWhilePausing` | tools/v2i-hub-simulator/V2IHubSimulator/MainWindow.xaml.cs:856-861 | within a leg's duration the computed speed is negative if and only if the travel time is over |
| `RouteSimulation.NeverBackwardsOnALeg` | tools/v2i-hub-simulator/V2IHubSimulator/MainWindow.xaml.cs:849-868 | on a leg positions start at 0, never decrease and never pass the end, pause included |
| `RouteSimulation.DriveLeg` | tools/v2i-hub-simulator/V2IHubSimulator/MainWindow.xaml.cs:821-908 | for any durations the loop ends with every message due on the leg sent, and none beyond it |
| `RouteSimulation.Drive` | tools/v2i-hub-simulator/V2IHubSimulator/MainWindow.xaml.cs:755-908 | for any non-negative durations and any positive period: messages at first + k * period for k up to total / period, each once, each on the leg whose left-open interval holds its time, placed by that moment |
| `RouteSimulation.Run` | tools/v2i-hub-simulator/V2IHubSimulator/MainWindow.xaml.cs:755-908 | that schedule for a route, legs without length included, with the offset and speed of each moment; a route of fewer than two waypoints sends nothing |
| `RouteSimulation.RouteIsTold` | tools/v2i-hub-simulator/V2IHubSimulator/MainWindow.xaml.cs:767-868 | the first message reports points[0].speedMph * 0.44704; every other, before a stop, a speed whose square lies between those of its leg's two waypoints as its place lies between them, and the place that follows from it; in a pause it stands at the end |
| `RouteSimulation.LegLasts` | tools/v2i-hub-simulator/V2IHubSimulator/MainWindow.xaml.cs:770-780 | leg i lasts twice its length over the sum of the speeds of its two waypoints, and the pause of points[i] if that speed is 0, up to the milliseconds cut off |
| `RouteSimulation.ScheduleIsUnique` | tools/v2i-hub-simulator/V2IHubSimulator/MainWindow.xaml.cs:849-906 | that leg is unique, so the schedule is |
| `RouteSimulation.PlacesInOrder` | tools/v2i-hub-simulator/V2IHubSimulator/MainWindow.xaml.cs:856-868 | on any leg, without length too, later messages are not further back nor beyond the end |
| `RouteSimulation.NeverBackwards` | tools/v2i-hub-simulator/V2IHubSimulator/MainWindow.xaml.cs:849-906 | over the whole drive reported positions stay on the route and never go back |

## Left out

- Sockets, poll, thread and process creation, user and group set-up, logging: they are steps of the surroundings.
- SQL text, cJSON, and the field-by-field building, copying and printing of a message: they would add only easy members. The live counter of src/tmx/TmxApi/tmx/IvpMessage.c is modelled where messages are parsed and destroyed.
- Handlers that throw out of a processor thread, and races inside one client or core handler.
- Fairness: `JoinsNeverBlock` and `JoinsReturn` show that a processor can always move and only moves forward, not that the scheduler runs it.
- The map cursor of the router is undefined once its node is erased; the model gives such a broadcast no further step.
- The order in which a poll announces keys, which is that of the keys, and the order of the activity list.
- The surroundings of the walk in web/js/tmx.common.library.js: the permission test, the page updates and the list of plugins around the walk.
- `RouteSimulation.Run`: a leg between two standing waypoints, for which the original divides a distance by zero, and negative speeds; the signal request messages sent alongside, the stop flag, the sleeps and the older resolution branch.
- Floating-point rounding and the trigonometry behind the distances.
- The plotting, file loading and user interfaces, the example plugins and generated clients.
