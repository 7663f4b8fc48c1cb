# modbusd, its process manager and its INI parser

A Dafny model of the message broker `modbusd` and proofs about it. Modules connect to the broker on
its local socket, introduce themselves with the functions they provide, and call one another through
it; brokers ("fabrics") tell each other which interfaces they provide and pass calls on. A second
process, the process manager, starts the modules and restarts them on the broker's command.

`dafny verify dfyconfig.toml` checks the whole project.

## How it is laid out

The program changes its tables in place, and so does the model: `Broker.Broker`, `Procman.Manager`,
`ZLists.ZList` and the buffer methods of the INI parser are classes and array methods with the loops
of the source. Each of them is proved to do what a function on plain values says; everything else is
proved about those functions, one event at a time and then over all runs.

| file | what it holds |
|---|---|
| `Wrappers.dfy`, `Text.dfy` | optional values and searching; the C library routines behind interface names: `%ld`, `atoi`, `strtok` |
| `Messages.dfy` | messages as trees of ordered entries: look-ups, builders, interface paths |
| `Tables.dfy`, `Steps.dfy` | the broker's tables, and what each handler does to them |
| `Broker.dfy`, `ZList.dfy` | the broker as an object that is updated in place, and its cursor lists |
| `Registry.dfy` | invariants of the interface registry |
| `Queue.dfy` | queued calls and the interfaces they are bound to |
| `Admission.dfy` | what becomes of a CALL when it arrives, and where a relayed call went |
| `Draining.dfy` | the pass over the queue after a reply, and the walk over candidate modules |
| `Stranded.dfy` | which calls a pass leaves waiting although a module that serves them is idle |
| `Staying.dfy` | exactly which events bring the broker down |
| `InFlight.dfy` | which module works on which call |
| `Ledger.dfy`, `Timing.dfy`, `Replies.dfy`, `Delivery.dfy` | the reply guarantee: how many answers, how soon, saying what, to whom |
| `Timeouts.dfy` | what the timestamps of a call mean, and which calls a sweep answers how |
| `Network.dfy` | any number of brokers that deliver to each other |
| `Heartbeat.dfy` | the poll of the other brokers as a failure detector |
| `Joining.dfy` | how a module joins, function by function |
| `Gossip.dfy` | the interface lists brokers exchange |
| `Procman.dfy`, `System.dfy` | the process manager; broker and manager joined by two FIFO pipes |
| `Restarts.dfy`, `Stale.dfy` | when a dead process is replaced; a history that loses the removal of one |
| `Scenes.dfy` | runs from start-up in which the broker does what was not meant |
| `IniText.dfy`, `IniQuotes.dfy` | what an INI line means; writing a value with quotes and reading it back |
| `IniBuffer.dfy`, `IniBrowse.dfy`, `IniGets.dfy` | the parser's buffer work and its two readers, in place |
| `IniOverlap.dfy` | a copy that quotes a string within the memory the string is in |
| `IniAgree.dfy`, `IniFile.dfy`, `IniRows.dfy` | agreement of the two readers; files that read back as written, in any layout |

## What the proofs assume

A run is any sequence of events with any times: messages with arbitrary contents and identities on
either socket, timer ticks, beacons, messages from the process manager. The order in which czmq
walks a hash table is a parameter of the event. A null dereference sets `up` to false and nothing
happens after that; results about a state say what holds as long as the broker is up, and
`Staying.RunStaysUp` says when that is.

* The registry, the queue invariants, the ledger, the provenance of answers and the failure detector
  hold for arbitrary peers.
* `InFlight.Fair`, used for the busy/in-flight correspondence and for the reply guarantee: action ids
  are unique, replies come from the module or fabric the call was sent to, a connection introduces
  itself once and under a fresh identity, there is one module per process, and the removal of a
  process is reported only after its restart was commanded.
* `Staying.Guarded`, for the reply guarantee: no event of the run meets the guard of a branch that
  brings the broker down. The guards look at the tables and the event only.
* `Network.Delivered`: what a broker receives from another one has been sent to it by that one.
* `Stranded.Visited`: a pass over the queue visits all of it.
* `Timing.Timely`: the clock does not run backwards and sweeps are at most `period` apart.
* `System.FairAct`: additionally a pid is never reused, a walk of the module table visits all of it,
  and the message that is read as the answer to `check_pid` is that answer (see below).

## Where the code is not what was meant

The code is modelled as it is written, and lemmas say where that makes a difference.

* `modbusd.c:250` advances the cursor of the global list inside the loop over local ids, which the
  comment at `modbusd.c:238` says is to visit every local module. `Config.walk` selects the walk as
  written or as intended, and the invariants hold for both. `Draining.WalkAsWritten` says exactly
  when the two agree, and `Staying.MixedProvidersCrash` when a CALL brings the broker down for it;
  `Scenes.CallForBothBringsItDown` is a run in which one does.
* A call is bound to an interface once, on arrival (`modbusd.c:202-206`), and an interface that is left
  without providers leaves the registry for good (`interface.c:109-116`). When the only instance of a
  module is restarted while a call waits for it, its successor is listed in a new interface and never
  gets the call (`Scenes.SuccessorGetsNothing`): the caller is told that all modules are busy
  (`Stranded.StrandedUntilSwept`). With the intended walk these are, of the calls that an idle module
  would serve, exactly the ones that a pass leaves waiting (`Stranded.OnlyStrandedAreLeft`). An
  introduction starts no pass, so a call can also wait while a newcomer is idle; between passes there is
  no other case (`Stranded.IdleWhileWaiting`).
* An interface list from a sender that is not in the fabric table (`modbusd.c:784`) and a provided
  version of 0 under a new name (`modbusd.c:542`) bring it down too (`Staying.StepStaysUp`,
  `Scenes.StrangerBringsItDown`).
* `modbusd.c:644-646` resets the incoming message instead of the stored one, so a call that another
  fabric was too busy for is not placed again (`Replies.BusyFabricIsIgnored`).
* `modbusd.c:503-504` takes the next message from the process manager for the answer to `check_pid`.
  `System.ReadingTheWrongMessage` gives the exact condition under which broker and manager still
  agree afterwards, `Stale.StaleRemovalIsLost` a run from start-up after which they no longer do.
* A process that dies before its module is registered is reported once, the broker ignores the
  report, and the process is never replaced (`Restarts.NeverReplacedUnregistered`).
* A process that the manager learns of by its registration has no configuration (`procman.c:264-268`), and
  a check dereferences it once the process has introduced itself again (`Procman.StrangerBringsManagerDown`).
* The in-timeout goes on running for a call that was handed to a fabric (`modbusd.c:311`), so its
  caller can be told that all modules are busy; `Timeouts.RelayedCallIsToldBusy` says exactly when.
* An interface version is printed with `%ld` and read with `atoi`: it survives below 2^31 or within
  2^31 of 2^64 (`Text.VersionSurvives`).
* A provider of a lower version is merged into an interface of a higher one (`modbusd.c:540`) exactly
  if there is none of its own version (`Registry.ProviderIsListed`), so what is claimed about versions
  is claimed about the interface a call is bound to.
* `m_find_map` compares as many characters as the message's key has (`modbus_helper.c:203`).
  `Messages.FindsTheRightEntry` says exactly when it finds the wanted entry all the same; an entry
  with an empty key hides whatever follows it (`Messages.EmptyKeyHidesBody`).
* `README.md:7` speaks of a FIFO queue. The queue is a hash table, and the order in which it is walked
  decides which of two waiting calls is served (`Draining.HashOrderDecides`).
* A comment after a quoted value that ends in a backslash takes the closing quote with it
  (`IniQuotes.QuotedThenComment`). `ini_gets` does not see a key behind a reopened section or an
  unclosed `[`, while `ini_browse` does (`IniFile.HiddenKey`); `IniAgree.ReadersAgree` says exactly
  when the two agree.
* The assertion at `ini.c:52` allows quoting a string onto itself or onto what stands in front of it.
  With room to spare, that spoils the value unless the closing quote lands before the old end of the string
  (`IniBuffer.SaveStrncpy`, `IniOverlap.QuotingSpoilsItself`). No caller does it.

## Model

| member | source | states |
|---|---|---|
| Timing.EveryCallIsAnswered | modbus/src/modbusd.c:698-872 | the reply guarantee: in a fair run with timely sweeps in which no event meets the guard of a crash, once in-timeout + process-timeout + 2 sweep periods have passed since a CALL under an id its caller used once, exactly one answer was handed over if the caller is a local module; if it is a fabric, at most one, and none only if that fabric was missing from the table at some point since; what was handed over for an identity of at most 10 characters went to the local socket |
| Timing.NoCallWaitsLonger | modbus/src/modbusd.c:305-371 | over any run with timely sweeps in which no event meets the guard of a crash, no queued call is ever older than that bound |
| Timing.AfterSweep | modbus/src/modbusd.c:305-361 | after a sweep no undispatched call is older than in_timeout and no dispatched one older than process_timeout |
| Ledger.QueuedCallWasReceived | modbus/src/modbusd.c:826-872 | every queued call is a CALL received from that caller, on that socket, at its arrival time, and has been queued ever since |
| Ledger.LedgerBalances | modbus/src/modbusd.c:603-872 | over every run, whatever peers send: CALLs received = answers + still queued + discarded, per id and caller |
| Ledger.AtMostOneAnswerPerCall | modbus/src/modbusd.c:603-776 | late, duplicate or wrong replies never produce a second answer |
| Ledger.OnlyVanishedFabricsAreDropped | modbus/src/modbusd.c:674-693 | in a fair run a call is discarded unanswered only if it arrived on the global socket and its fabric was missing from the table when the call had arrived and was still waiting |
| Ledger.StepLedger | modbus/src/modbusd.c:874-1048 | every single event keeps the ledger balanced and at most dispatches queued calls |
| Replies.AnswersAreHonest | modbus/src/modbusd.c:185-301 | over every run, whatever peers send: each call handed on has the body of a CALL received under its id on the socket its flag names, and is sent to a fabric only if that was the local one; each answer has the body of a reply received under its id or of one of the broker's five exceptions (which one, when and to whom is said by Delivery.EveryAnswerIsJustified) |
| Delivery.ReplyIsPassedOn | modbus/src/modbusd.c:603-776 | a RESULT or EXCEPTION for a queued call: its own body goes to the caller of that call, the call leaves the queue, and the module that sent it is idle again, given its next call, or restarted - with every exception to that: an unknown module's exception is ignored, a fabric's busy refusal leaves the call queued, a caller fabric that is gone and a fabric's answer to a fabric's call are told nothing |
| Delivery.StepJustified | modbus/src/modbusd.c:305-872 | every answer an event sends carries the body of that very reply to the caller of the queued call it is for, or refuses that very CALL for the reason it is refused for, or tells the caller of an expired call why it expired |
| Delivery.EveryAnswerIsJustified | modbus/src/modbusd.c:874-1048 | over any run every answer in the log was sent with an event that justifies it so; an exception of the broker's own comes only from refusing that CALL or from a sweep, or was received as a reply |
| Replies.SweepAnswers | modbus/src/modbusd.c:305-361 | a sweep answers every expired call it visits, with its reason, and takes out the module that kept it and asks for its restart |
| Replies.SweepSparesOthers | modbus/src/modbusd.c:336-361 | a sweep takes out only modules that a visited call has been with for longer than process_timeout, and none in debug mode |
| Timeouts.SweepsAreJust | modbus/src/modbusd.c:305-361 | in a fair run a sweep answers, in that sweep, exactly the calls that are due by the times at which the queued call was received, given to a module and given to a fabric, each with the reason those times call for |
| Timeouts.RelayedCallIsToldBusy | modbus/src/modbusd.c:311-334 | a sweep tells the caller of a call that was handed to a fabric that all modules are busy if and only if in_timeout has run out since the call was received and out_timeout has not run out since it was handed on |
| Timeouts.StampsAreTrue | modbus/src/modbusd.c:276-293 | in a fair run the timestamps of a queued call say when it was received, since when it has been queued, and when it was given to a module and to a fabric, each of which happened at most once since |
| Replies.RefusalIsRead | modbus/src/message.c:443-481 | a fabric's refusal parses as an EXCEPTION for that id with the busy code |
| Replies.BusyFabricIsIgnored | modbus/src/modbusd.c:633-651 | a busy fabric's refusal leaves the tables as they were |
| InFlight.OneCallPerBusyModule | modbus/src/modbusd.c:236-293 | a registered module not flagged for restart is BUSY if and only if exactly one queued call is in flight on it |
| InFlight.RunKeepsSound | modbus/src/modbusd.c:603-776 | in every reachable state of a fair run: the module a call in flight is with is registered and busy, two never share one, a flagged module is not idle, pids are distinct, a process told to restart has no call |
| InFlight.StepKeepsSound | modbus/src/modbusd.c:874-1048 | every handler keeps that invariant |
| Queue.RunKeepsCalls | modbus/src/modbusd.c:185-301 | over any run: a queued call is bound to an interface of its module and function of at least its version; one of foreign origin is with a local module; one that is with a fabric is with the second one of its copied list, or the only one; none of foreign origin was sent on to a fabric |
| Queue.PlaceCallOutcome | modbus/src/modbusd.c:185-301 | placing an unrouted call either refuses it for want of an interface, crashes, hands it to the module chosen among the local providers of its interface - the last idle one, or, as the walk is written, the last idle global id or else the first local one - which becomes busy, sends a local call to the second fabric on its copied list, or the only one, or leaves it waiting, which happens only if nobody can be given it and it has no fabric |
| Admission.CallIsHandled | modbus/src/modbusd.c:826-872 | what a CALL does, read off the message and the tables: it is refused as malformed, refused because no interface serves it or no module can take a fabric's call at once, or bound to the interface check_interface finds and given to exactly the module or fabric chosen, or left waiting; queued with the message's own fields, or discarded if its id is taken; and nothing else changes |
| Admission.RelayTargetWasListed | modbus/src/modbusd.c:202-274 | over any run a queued call that is with a fabric came from a module, and that fabric is the second one, or the only one, that the interface it was bound to listed when it arrived |
| Queue.WalkIdsSpec | modbus/src/modbusd.c:236-252 | the walk over candidates finds an idle module if and only if there is one, or meets an unregistered id |
| Queue.PlaceQueuedKeeps | modbus/src/modbusd.c:185-233 | no queued call makes placeCall return -1, so the pass over the queue never stops early |
| Queue.DrainKeeps | modbus/src/modbusd.c:718-722 | the pass over the queue keeps the registry and the queue invariants |
| Network.OneHop | modbus/src/modbusd.c:253-301 | any number of brokers, any interleaving, calls delivered only if sent: if a call is submitted to one broker by its modules, no other broker sends it on, and whoever receives it from a fabric has it from that one, which had sent it before |
| Network.AtMostTwoFabrics | modbus/src/modbusd.c:253-274 | a chain of deliveries of such a call between different brokers has at most two of them |
| Draining.DrainIsComplete | modbus/src/modbusd.c:718-722 | after the pass no unrouted call has an idle candidate in the interface it was bound to, or, if that has no local provider, a fabric to go to |
| Stranded.OnlyStrandedAreLeft | modbus/src/modbusd.c:718-722 | with the intended walk the pass never fails and keeps every call, and of the calls that an idle module would serve afterwards it leaves waiting exactly those whose own interface is not listed any more and that have no fabric to go to |
| Stranded.RunFits | modbus/src/modbusd.c:202-206 | over any run the interface of a queued call, while it is listed, is the one check_interface finds for it |
| Stranded.StrandedUntilSwept | modbus/src/modbusd.c:202-236 | over any fair run such a call stays as it is until a sweep tells its caller that all modules are busy |
| Stranded.StrandedIsToldBusy | modbus/src/modbusd.c:305-334 | with timely sweeps and no crash it is told so when in_timeout and one sweep period are over |
| Stranded.IdleWhileWaiting | modbus/src/modbusd.c:557-565 | in every reachable state with the intended walk an idle module would serve a waiting call if and only if one that has introduced itself since the last pass would, or one would while the interface of the call is not listed any more |
| Scenes.SuccessorGetsNothing | modbus/src/interface.c:109-116 | a fair run of five events in which the only instance of a module is restarted while a call waits for it; its successor is idle and serves the call, which is stranded |
| Draining.WalkAsWritten | modbus/src/modbusd.c:236-252 | the walk as written meets null iff the interface has a global provider, and finds a module as intended iff there is none and the first local provider is idle or none is |
| Staying.MixedProvidersCrash | modbus/src/modbusd.c:236-252 | a CALL brings the broker down if and only if it is well formed and the walk as written meets an interface for it with a local provider and a global one that no module has the identity of |
| Staying.StepStaysUp | modbus/src/modbusd.c:480-872 | an event brings the broker down if and only if it meets its guard: such an interface for the CALL or for an unrouted call the pass comes to; an interface list from an unknown fabric; a provided version of 0 under a name that no interface has |
| Staying.RunStaysUp | modbus/src/modbusd.c:874-1048 | the broker is up after a run if and only if no event of it met its guard |
| Scenes.StrangerBringsItDown | modbus/src/modbusd.c:784 | one interface list from an unknown identity brings a new broker down |
| Scenes.CallForBothBringsItDown | modbus/src/modbusd.c:236-252 | a run of four events after which a module and a fabric provide one interface and a CALL for it has come in: as written the broker is down, as intended the call is with the module |
| Draining.HashOrderDecides | modbus/src/modbusd.c:718-722 | of all calls that wait for one idle module as their only provider, the pass places the one its order comes to first and leaves every other as it is, in whatever order they arrived |
| Scenes.SecondInstanceIsNeverTried | modbus/src/modbusd.c:250 | after two introductions and two calls, fed to a new broker, the second call waits as written although the second instance is idle, and is placed as intended |
| Registry.RunKeepsRegistry | modbus/src/interface.c:51-120 | in every reachable state no registered interface is empty, no provider list has duplicates, every local id is a registered module and every global id a known fabric, and versions rise within one module and function |
| Registry.StepKeepsRegistry | modbus/src/modbusd.c:874-1048 | every handler keeps the registry so |
| Registry.LowestSufficientVersion | modbus/src/modbusd.c:163-183 | check_interface finds the lowest sufficient version, or there is none |
| Registry.CheckFromSpec | modbus/src/modbusd.c:163-183 | the first interface in list order that serves the request |
| Registry.ProvideKeepsRegOk | modbus/src/modbusd.c:538-557 | adding a provider keeps the registry in order and the existing interfaces what they are |
| Registry.ProviderIsListed | modbus/src/modbusd.c:538-557 | a provider ends up in an interface of that name and its own version, or of a higher one if and only if there is such a one and none of its own |
| Registry.IfaceRemoveKeepsRegOk | modbus/src/interface.c:101-120 | removing an identity leaves it in no interface and keeps the registry in order |
| Registry.RemoveSparesOthers | modbus/src/interface.c:101-120 | removing an identity leaves every other provider listed where it was, and an interface listed exactly if it has another provider |
| Registry.WithoutSpec | modbus/src/interface.c:107-108 | removal by value takes out the id and nothing else |
| Heartbeat.DroppedIffSilent | modbus/src/modbusd.c:373-406 | a poll drops a fabric if and only if nothing parsed came from it since the previous poll or its discovery, and a dropped one is in no interface |
| Heartbeat.SilentIsGoneBySecondPoll | modbus/src/modbusd.c:408-423 | a fabric that stays silent is gone, with its interfaces, by the second poll |
| Heartbeat.AliveMeansHeard | modbus/src/modbusd.c:938-942 | the alive flag says whether the fabric was heard since the last poll |
| Heartbeat.OnlyPollsDrop | modbus/src/modbusd.c:373-406 | any other event leaves exactly the fabrics there were, and the one whose beacon it is if that can be reached |
| Heartbeat.PollAsks | modbus/src/modbusd.c:373-406 | a poll sends one request for the list, under the id made for it, to each fabric it visits that was alive, in order, and no other message |
| Heartbeat.AskedIffHeard | modbus/src/modbusd.c:387-406 | over any run a poll asks a fabric if and only if it was heard since the previous poll or its discovery |
| Gossip.ListIsSent | modbus/src/modbusd.c:890-903 | a request for the list from a known fabric is answered with one message to it, under its id, that reads back as the printed paths of the interfaces with a local provider, in order; from an unknown one with nothing |
| Gossip.Exchange | modbus/src/modbusd.c:776-903 | from the request on: the asked broker sends the asker one message, and once that has arrived the asker has, for each printable interface with a local provider there, one of at least that version listing the sender, has gained nothing else, and receiving it again changes nothing |
| Gossip.PollToList | modbus/src/modbusd.c:373-423 | from the poll on: the heartbeat asks every fabric that is alive, and each arrival of that question starts such an exchange |
| Gossip.MergeOnlyGains | modbus/src/modbusd.c:786-815 | merging a list appends the sender to global provider lists and adds interfaces that list it alone, and changes nothing else |
| Gossip.PathsSpec | modbus/src/message.c:301-369 | the paths that are sent are the interfaces with local providers in order, and a path reads back exactly if its interface is announceable |
| Gossip.MergeOffers | modbus/src/modbusd.c:786-815 | merging a list makes everything on it available through the sender and keeps what was |
| Gossip.MergeAgain | modbus/src/modbusd.c:796-806 | merging what is already offered changes nothing |
| Joining.IntroductionIsHandled | modbus/src/modbusd.c:480-581 | an introduction that is taken, and leaves the broker up, registers the module idle under its name and pid unless its identity is taken, tells the manager and the module, and makes every call of every function in its map find an interface that lists it; nothing else changes; any other one only has its pid checked |
| Joining.IntroducedModuleServes | modbus/src/modbusd.c:531-556 | the same for the message a module sends, with any number of functions |
| Joining.TrackedModuleJoins | modbus/src/modbusd.c:501-519 | broker and manager together, from the question about the pid to the end of the introduction: the module has joined if its process is tracked, and otherwise nothing has changed |
| Messages.VersionKeys | modbus/src/modbus_helper.c:79-133 | the keys of an unpacked map of versions are those of its integer entries |
| Messages.FirstVersion | modbus/src/modbus_helper.c:79-133 | the first entry with a key decides its version |
| Messages.ReadIfaceListResponse | modbus/src/message.c:529-552 | an interface list is unpacked as it was packed, under the header and id it was given |
| Messages.UnpackPacked | modbus/src/modbus_helper.c:135-185 | unpacking an array of strings gives back the strings |
| Messages.ReadIfaceListRequest | modbus/src/message.c:371-405 | a request reads back as a REQUEST for the list under its id |
| Messages.ReadException | modbus/src/message.c:443-481 | an exception reads back with its id, text and code |
| Messages.FindsTheRightEntry | modbus/src/modbus_helper.c:196-212 | the look-up takes the entry with the wanted key, or none if there is none, if and only if no entry ahead of it has a key that is a proper prefix of the wanted one |
| Messages.PathRoundTrip | modbus/src/modbusd.c:792-796 | "mod:func:ver" reads back as printed if and only if both names are non-empty and colon-free and the version survives |
| Messages.OtherPaths | modbus/src/modbusd.c:792-796 | of a path with more than three parts the first three count, and one with fewer is no interface |
| Text.VersionSurvives | modbus/src/message.c:316 | a version survives printing and atoi if and only if it is below 2^31 or within 2^31 of 2^64 |
| System.DrainBeforeKill | modbus/src/procman.c:297-317 | when the manager carries out a restart, and ever after, every call in flight is with a registered module of another process, and no module of the restarted one is idle; on each of the three paths to a restart |
| System.BrokerAndManagerAgree | modbus/src/procman.c:242-317 | in every reachable state a registered module's process is tracked or its removal is on the way; no process is killed twice |
| System.RegisterFindsItsProcess | modbus/src/procman.c:257-277 | a registration never creates an entry |
| System.NextKeeps | modbus/src/modbusd.c:986-1048 | every step of broker or manager keeps the joint invariant |
| System.ReadingTheWrongMessage | modbus/src/modbusd.c:501-519 | agreement survives the end of an introduction if and only if the message read was not a registered module's removal and an accepted process is tracked or its removal follows |
| Stale.StaleRemovalIsLost | modbus/src/modbusd.c:501-519 | a run of broker and manager from start-up whose last step takes a removal for the answer and loses agreement |
| Restarts.ReportIsHeeded | modbus/src/modbusd.c:986-1048 | the broker acts on the report of a dead process if and only if a module of that process is registered |
| Restarts.ReportTouchesItsOwn | modbus/src/modbusd.c:986-1048 | a report about a process touches no module of another one; a removal takes its module out of the table and of every interface and leaves every other provider listed |
| Restarts.ReplacedIffRestarted | modbus/src/procman.c:152-209 | a dead process that was reported is out of the table if and only if a restart of it has been carried out since |
| Restarts.NeverReplacedUnregistered | modbus/src/procman.c:152-209 | as long as no module of that process is registered no restart of it is commanded, and it stays in the table |
| Procman.InstancesConserved | modbus/src/procman.c:123-209 | over any run of commands and checks, tracked processes plus start-timeouts of a module stay what they were |
| Procman.InstancesAreAsConfigured | modbus/src/procman.c:123-209 | from start-up on, after the start of all modules and any run of commands and checks, tracked processes plus start-timeouts of a module are its module_instances, or none if its file cannot be accessed |
| Procman.StartAllCounts | modbus/src/procman.c:141-148 | starting a module under fresh pids adds as many instances as there are pids, to that module only |
| Procman.ObeyConserves | modbus/src/procman.c:234-317 | a command never changes the number of instances |
| Procman.CheckReports | modbus/src/procman.c:152-209 | a check asks for the restart of exactly the processes it looks at that are dead, or have introduced themselves and hold more memory than their configured limit, if there is one; it forgets exactly those that did not introduce themselves in time; only dead ones are flagged |
| Procman.CheckStaysUp | modbus/src/procman.c:181-182 | a check meets a null configuration if and only if it visits a live process that has introduced itself without being configured |
| Procman.StrangerBringsManagerDown | modbus/src/procman.c:181-182 | a process that is registered without being known to the manager, as in debug mode, and introduces itself again brings the manager down at the next check that finds it alive |
| Procman.IntroducedIsKept | modbus/src/procman.c:159-170 | once its pid has been asked for a process stays in the table, over any run of commands and checks, until it is restarted |
| Procman.LateIsGivenUp | modbus/src/procman.c:159-170 | a process whose pid nobody asks for is given up by a check if and only if module_start_timeout has run out since it was started |
| Procman.DeadAreReported | modbus/src/procman.c:152-209 | a check of all processes reports each one that died, once, or forgets it if it never started in time |
| Procman.Manager.OnCommand | modbus/src/procman.c:234-329 | the manager in place does what Procman.Obey says |
| Procman.Manager.CheckProcesses | modbus/src/procman.c:224-232 | the check in place does what Procman.CheckAll says |
| Procman.Manager.StartModule | modbus/src/procman.c:141-148 | the start-up loop over the instances of a module in place |
| Procman.Manager.StartModules | modbus/src/procman.c:123-150 | the start-up of all runnable modules in place, each in module_instances instances |
| Broker.Serve | modbus/src/modbusd.c:1160-1335 | a broker that is fed a run of events ends in the state Steps.Run gives |
| Broker.Broker.PlaceCall | modbus/src/modbusd.c:185-301 | placeCall in place computes Steps.PlaceCall, whose outcome Queue.PlaceCallOutcome gives |
| Broker.Broker.Drain | modbus/src/modbusd.c:718-722 | the pass over the queue in place |
| Broker.Broker.ProcessCall | modbus/src/modbusd.c:826-872 | processCall in place computes what Admission.CallIsHandled describes |
| Broker.Broker.ProcessResult | modbus/src/modbusd.c:698-776 | processResult in place computes what Delivery.ReplyIsPassedOn describes, or merges an interface list |
| Broker.Broker.ProcessException | modbus/src/modbusd.c:603-696 | processException in place computes what Delivery.ReplyIsPassedOn describes |
| Broker.Broker.ProcessIfaceList | modbus/src/modbusd.c:776-815 | the loop over a received interface list in place |
| Broker.Broker.ProcessIntroduce | modbus/src/modbusd.c:480-581 | processIntroduce in place, with its loop over the provided functions, computes what Joining.IntroductionIsHandled describes |
| Broker.Broker.IfaceRemove | modbus/src/interface.c:101-120 | the loop that deletes from the list it walks visits every interface and leaves exactly the non-empty ones |
| Broker.Broker.SweepItem | modbus/src/modbusd.c:305-361 | process_queue_item in place |
| Broker.Broker.Poll | modbus/src/modbusd.c:373-423 | the heartbeat poll in place, with an action id made for each fabric |
| Broker.Broker.OnProcman | modbus/src/modbusd.c:986-1048 | the process manager's messages handled in place |
| Broker.Broker.OnMessage | modbus/src/modbusd.c:906-984 | a message on either socket handled in place |
| Broker.PurgedUpToSpec | modbus/src/interface.c:101-120 | purging one interface after the other is purging all of them at once |
| ZLists.ZList.Remove | modbus/src/interface.c:111-116 | removal by value, and what it does to the cursor |
| IniBrowse.Browse | modbus/src/ini.c:361-412 | the callbacks made are a prefix of the settings the file means, cut short only by a callback that says no; every copy stays in the buffer and clobbers nothing unread; the loop ends on every file |
| IniBrowse.SectionsShareTheBuffer | modbus/src/ini.c:373-389 | consecutive sections take at most 510 bytes together, so every line has a window of at least three |
| IniBrowse.SplitPair | modbus/src/ini.c:392-404 | key and cleaned value end up behind the section, in place |
| IniBuffer.SaveStrncpy | modbus/src/ini.c:47-90 | a copy that stays clear of what it still has to read leaves the plain, escaped or decoded text, cut to its size, and changes nothing else; within one array it may be any the assertion admits, and one that is quoted in front of its source or onto it, with room to spare, comes out right if and only if the closing quote lands before the end of the source |
| IniOverlap.QuotingSpoilsItself | modbus/src/ini.c:63-77 | a value that is quoted over the end of its own source does not come out as its quoted form |
| IniBuffer.CleanString | modbus/src/ini.c:92-123 | comment, trailing blanks and outer quotes are cut off in place; where the comment starts is said by IniRows.CommentStarts |
| IniBuffer.SkipLeadingAt | modbus/src/ini.c:22-28 | the string from its first non-blank character |
| IniBuffer.StrChr | modbus/src/ini.c:384-394 | the first occurrence of a character, or none |
| IniGets.Gets | modbus/src/ini.c:208-223 | the buffer gets the value looked up, cut to its size, or else the default, and the result is its length |
| IniGets.FindValue | modbus/src/ini.c:163-196 | the loop over the lines of a section |
| IniGets.FindSection | modbus/src/ini.c:139-158 | the loop to the line that opens the section |
| IniGets.StrNICmp | modbus/src/ini.c:5-20 | strnicmp returns the difference, for a signed and for an unsigned char, of the first two characters that differ up to the case of a to z, among the first n; zero exactly when the first n characters of the two strings are equal so |
| IniAgree.ReadersAgree | modbus/src/ini.c:125-223 | for files whose lines fit the buffers, every section and every key: what ini_gets finds is the first match ini_browse reports, and it finds that match if and only if the first line that sets the key under the section stands before the next `[` line after the section's first opening, and the key is not empty |
| IniFile.HiddenKey | modbus/src/ini.c:163-176 | behind a reopened section or an unclosed `[` that fits the buffer ini_gets finds no key while ini_browse reports them all |
| IniFile.SectionReadsBack | modbus/src/ini.c:361-412 | a section written with quoted values is read back setting by setting, whatever the values hold |
| IniQuotes.UnescapeDoubled | modbus/src/ini.c:79-86 | decoding a text whose quotes were doubled gives it back if and only if none of them stands behind a backslash |
| IniQuotes.SavedIsLongest | modbus/src/ini.c:47-90 | without quoting what is stored is the text, decoded if asked for, or else its longest prefix that leaves room for the NUL |
| IniRows.FileReadsBack | modbus/src/ini.c:361-412 | a file in any layout - sections, comment and blank lines, `=` or `:`, blanks around every part, quoted or unquoted values with or without a comment behind them - is browsed setting by setting as it was meant |
| IniRows.ValueIsFound | modbus/src/ini.c:125-196 | in such a file ini_gets finds the first value of the key below the first title of the section and ahead of the next one, without its comment |
| IniRows.CommentStarts | modbus/src/ini.c:100-112 | for any line, on positions: the comment starts at the first `;` or `#` ahead of which an even number of quotes stand on their own |
| IniRows.UnquotedValue | modbus/src/ini.c:92-123 | an unquoted value is read without the blanks and the comment behind it |
| IniQuotes.QuoteRoundTrip | modbus/src/ini.c:63-84 | enquoting, cleaning and dequoting gives back the longest prefix that fits, and the whole value exactly if its escaped form fits |
| IniQuotes.CleanQuoted | modbus/src/ini.c:92-123 | quotes, comment characters and backslashes inside a quoted value survive the comment stripper |
| IniQuotes.QuotedThenComment | modbus/src/ini.c:100-122 | a comment after a quoted value leaves it unchanged if and only if the value does not end in a backslash |
| IniText.FittingIsLongest | modbus/src/ini.c:63-76 | what enquoting stores is the longest prefix whose escaped form fits |

## Left out

- System.BrokerAndManagerAgree: assumes that the message read as the check_pid answer is that answer; without it the property fails, as System.ReadingTheWrongMessage and Stale.StaleRemovalIsLost say.
- InFlight.OneCallPerBusyModule: holds for peers that follow the protocol; replies from a module that was not given the call make it idle while it works.
- IniGets.Gets: NULL for the buffer or the key, answered with 0, is not modelled; a NULL section is the empty one and a NULL default the empty string.
- IniAgree.ReadersAgree: says nothing about files with lines longer than the buffers, which the two readers split at different places.
- ZeroMQ and czmq sockets, the event loop, UDP beacons and threads: events and FIFO pipes stand for them, and a message to a fabric that is not in the list is recorded as not reached.
- The bytes of MessagePack: a message is a tree of ordered entries. A body that is not a map, map keys containing NUL, and arrays whose items are not strings are not modelled.
- Joining.IntroductionIsHandled: provided versions that are not integers are passed over; the code inserts them and reads their memory as a number.
- Memory: allocation, freeing, dangling identity strings and the 256-byte buffer for interface paths; tables hold values, and interfaces are kept by reference only.
- Modules, calls and interfaces are values in the broker's tables, not objects: two pointers to one record are one entry looked up twice. The tree walks of modbus_helper.c are recursive functions.
- The ping, pong and stop commands, which do nothing, and "message", which is never admitted.
- The process manager's stop_all, kill and killall commands, a fork that fails, and reading /proc, which becomes an input of each check.
- IniBuffer.SaveStrncpy: a copy that runs into its own output asks for the memory it may run through, two lengths of the destination; what lies beyond the array is not modelled. How a decoding copy that starts inside its source goes wrong is computed, not characterised.
- ini_getsection, ini_getkey, ini_getl, ini_getf and ini_getbool, which add conversions or counting to the same loops.
- config.c, logging, pid files, daemonizing, signals, shutdown, the FastCGI module and the sample programs.
