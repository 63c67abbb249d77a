# flextunnel in Dafny

A Dafny model of the parts of flextunnel where a mistake would be hardest to see:
the desktop supervisor and its sessions, the HTTP proxy's head rewriting, the port-forward
manager, the control channel, and the desktop store. Each part is modelled as the code does
it, with the same branches, limits and error cases, and proved against what it is for.

| files | what they model |
|---|---|
| `ServerSession`, `Supervisor`, `SupervisorSafety`, `SupervisorRuns`, `SupervisorPolls`, `SupervisorProgress`, `SupervisorHistory`, `SupervisorCommands` | the desktop supervisor's loop and the server session thread, as a transition system over every interleaving |
| `ProfileSessions`, `ProfileSlots` | the supervisor's profile sessions, their snapshot slots and the duplicate-server guard |
| `Http`, `HttpFraming`, `HttpRewrite`, `HttpRequests`, `HttpOptions`, `Utf8`, `Utf8Encoding` | reading, splitting, rewriting and printing of HTTP proxy request heads, over bytes |
| `Authority`, `HostNames` | host validation, `host:port` printing and authority parsing |
| `ForwardManager`, `ForwardHealth`, `ForwardRelays`, `ForwardFlow`, `ForwardConfig`, `ForwardTicker` | listener reconciliation, the two loopback stacks' health, the relay limit, and the command-line session's ticks |
| `Frames`, `ControlLine`, `ControlPairing`, `ControlClient` | the control channel's frames, lines, and request/response pairing |
| `Names`, `StoreFilters`, `Forms`, `FormFaults`, `FormEdits`, `Merging`, `Ports`, `DesktopStore`, `DesktopRuns`, `DesktopEffects`, `DesktopRefs`, `DesktopApp`, `StoreFile`, `StoreSecrets` | the desktop store: names, load-time filters, forms, imports, local ports, and the sealed file |
| `SplitDns` | selection of the upstream for a host by its most specific suffix |
| `Options`/`Records` (in `Records`), `Text`, `Sequences` | shared datatypes, string operations, sequence lemmas |

Concurrency is modelled by events: a run is a sequence of events each enabled in the world
the earlier ones lead to (`Valid`), and `After` is the world it leads to. `select!` is a free
choice among enabled events, channels are bounded queues, a timeout may fire at any await.
A theorem about `After(run)` for every valid `run` covers every interleaving. State the code
updates in place is a class whose methods are proved against functions on its value.

Text is a sequence of Unicode scalar values; where the code works on bytes, one character
below 256 per byte. Random ids, generated keys, clocks, the operating system's answers and
library calls (key parsing, encryption, DNS server parsing) are parameters or events.

## Where the code falls short of what it says

Each failing case is a lemma that names it, and each condition below is proved in both
directions.

- A restart handled right after the post-receive sweep cleared the handle under a pending
  start is dropped, and a start then leaves the older config behind to come up later
  (`RestartLost`, `MissGoesStale`); in every other run the latest config wins
  (`LatestConfigWins`).
- When a server session's runtime fails to build, its completion fires before its receiver
  drops, and the supervisor can poll the completed receiver again (`WakeThenTop`,
  `DoublePollAfterRuntimeFailure`): whenever the failure finds it neither exiting nor waiting
  to send to that session (`FailureIsPolledTwice`), and only then (`StuckPollsOnce`,
  `NoDoublePoll`).
- A server removed while its session is starting, or has just failed, can be left showing
  the failure (`FailureOutlivesRemoval`); otherwise its snapshot ends as the default
  (`RemovalShows`, `IdleRemovalResets`).
- Two sessions can be open against one server after a profile is removed while its session
  is still ending (`GuardBypassed`); only then (`DoubledExactly`).
- A profile connected again before its removal is done can be left with a live session and
  no snapshot slot (`EarlyReconnectLosesSlot`, `SlotLost`); in every other run live sessions
  have their slots (`LiveSessionsHaveSlots`).
- Two sessions may write one snapshot slot exactly after a profile is connected again while
  its removed session can still write (`SharedExactly`, `TwoWriters`); such a connect is
  always an early one (`RejoinIsEarly`).
- Rewriting a rewritten head changes it exactly when a surviving header is named `close`
  (`RewriteIsFixpoint`, `CloseHeaderIsLost`).
- A later request can receive bytes of an earlier one's answer after a response over the
  line cap (`OverCapBreaksPairing`), and after a read that fails with an I/O error while its
  answer is still to come or partly unread, because only a timeout gives the connection up
  (`FailedReadBreaksPairing`). Without such an event on the connection in use it never does
  (`ResponsesArePaired`); after any such event it can (`HarmShows`).
- Applying one list of forwards twice changes nothing exactly when no id that is not kept
  comes first with one spec and last with another (`ApplyTwice`, `ApplyTwiceRestarts`).
- An import looks at no local port; it keeps ports apart exactly when none is used twice
  among the imported profiles and those they do not replace (`ImportKeepsPortsExactly`,
  `ImportCanClash`).
- A stored profile opens in its form and saves unchanged exactly when its fields have the
  form's shape, its name fits in 64 bytes, its key exists and its proxy ports are its own
  (`EditThenSave`). Loading and importing check only the name, and count 64 characters
  (`LongNameCannotBeSaved`, `CommaUrlIsSplit`).
- A key or profile dropped at load still takes its id, or its name, from a later good one
  (`DroppedKeyShadows`, `DroppedProfileShadows`); which ones are kept is exact
  (`KeyKeptExactly`, `ProfileKeptExactly`). Clients are not shadowed
  (`DroppedClientsShadowNothing`).
- The split-DNS table depends on the iteration order of its map exactly when two different
  entries normalise to one suffix (`OrderIrrelevant`, `SpellingsCollide`).

## Model

| member | source | states |
|---|---|---|
| `ServerSession.ServerSlot.constructor` | crates/flextunnel-desktop/src/server_session.rs:50-59 | a slot starts with the default snapshot |
| `ServerSession.ServerSlot.Begin` | crates/flextunnel-desktop/src/server_session.rs:178-184 | a session's first write replaces whatever was there by a coherent Starting snapshot |
| `ServerSession.ServerSlot.Fail` | crates/flextunnel-desktop/src/server_session.rs:86-95 | a failure replaces the snapshot by Failed with its reason and nothing else |
| `ServerSession.ServerSlot.AbandonBind` | crates/flextunnel-desktop/src/server_session.rs:215-224 | a stop during the bind turns Starting into Stopping, coherently |
| `ServerSession.ServerSlot.Bound` | crates/flextunnel-desktop/src/server_session.rs:227-230 | Running is entered together with its start time |
| `ServerSession.ServerSlot.Poll` | crates/flextunnel-desktop/src/server_session.rs:245-248 | clients are only ever listed while Running |
| `ServerSession.ServerSlot.BeginClose` | crates/flextunnel-desktop/src/server_session.rs:251-255 | leaving Running clears the start time and the clients with it |
| `ServerSession.ServerSlot.Finish` | crates/flextunnel-desktop/src/server_session.rs:267-275 | the final write is the default on removal, Stopped on success, else Failed with the error |
| `ServerSession.ServerSlot.Perform` | crates/flextunnel-desktop/src/server_session.rs:178-275 | every thread step's write, from any coherent snapshot of its stage, is the one the transition system uses and stays coherent |
| `ServerSession.ActKeeps` | crates/flextunnel-desktop/src/server_session.rs:178-275 | every step of the thread keeps the snapshot coherent and in the phase of its stage; a thread without its receiver writes nothing and never gets it back |
| `ServerSession.NextAct` | crates/flextunnel-desktop/src/server_session.rs:178-275 | every open session has a step towards the drop of its receiver, and one that needs no failure once its end is under way |
| `Supervisor.RunLoop.constructor` | crates/flextunnel-desktop/src/tunnel.rs:334-341 | the loop starts without server, pending start or stop |
| `Supervisor.RunLoop.TopOfLoop` | crates/flextunnel-desktop/src/tunnel.rs:342-354 | the top-of-loop sweep, and a pending start is consumed exactly when there is no handle; afterwards a pending start implies a handle |
| `Supervisor.RunLoop.AfterReceive` | crates/flextunnel-desktop/src/tunnel.rs:364-368 | the post-receive sweep drops a closed handle and keeps the pending start |
| `Supervisor.RunLoop.Handle` | crates/flextunnel-desktop/src/tunnel.rs:369-421 | each command's decision on the three variables and what it sends, spawns or resets |
| `SupervisorSafety.RunKeepsInv` | crates/flextunnel-desktop/src/tunnel.rs:329-507 | the loop, session and snapshot invariants hold after every run |
| `SupervisorSafety.OneLiveSession` | crates/flextunnel-desktop/src/tunnel.rs:342-380 | in every run at most one session has its receiver, lock or endpoint, and it is the one the handle names |
| `SupervisorSafety.SpawnOnlyAfterClose` | crates/flextunnel-desktop/src/tunnel.rs:342-380 | a session is spawned only once every earlier one has made its last write and dropped lock and receiver |
| `SupervisorSafety.LiveHandleKept` | crates/flextunnel-desktop/src/tunnel.rs:342-421 | no step drops or replaces the handle of a session that is still open |
| `SupervisorSafety.SnapshotTellsTheTruth` | crates/flextunnel-desktop/src/server_session.rs:178-275 | in every reachable state the snapshot is coherent, and Running exactly while a session serves |
| `SupervisorSafety.OneWriter` | crates/flextunnel-desktop/src/tunnel.rs:405-421 | the snapshot is changed by the one open session, or by the loop while none is open; never by a session whose channel reads closed |
| `SupervisorSafety.StopIsFinal` | crates/flextunnel-desktop/src/tunnel.rs:343-421 | after a stop or removal no session is spawned before the next start, whatever else interleaves |
| `SupervisorSafety.PendingFollowsRequests` | crates/flextunnel-desktop/src/tunnel.rs:335-396 | without a miss the pending config is always the last one asked for |
| `SupervisorSafety.LatestConfigWins` | crates/flextunnel-desktop/src/tunnel.rs:335-396 | without a miss every session spawned has the config of the most recent start or restart |
| `SupervisorHistory.SnapshotTellsHistory` | crates/flextunnel-desktop/src/server_session.rs:178-275 | in every run the snapshot is what the events say: Running since the last bind with the clients last polled, Starting or Stopping with nothing else, otherwise Stopped, or Failed with the reason of the last failure not wiped by a new session or an idle removal |
| `SupervisorHistory.IdleRemovalResets` | crates/flextunnel-desktop/src/tunnel.rs:405-421 | a removal handled with no session open leaves the default snapshot |
| `SupervisorHistory.RemovalShows` | crates/flextunnel-desktop/src/tunnel.rs:405-421 | after the last removal, and until the next start, once every session has ended the snapshot is the default if and only if no failure of the session outlives the removal |
| `SupervisorHistory.FailureOutlivesRemoval` | crates/flextunnel-desktop/src/server_session.rs:178-275 | a run in which a server is removed while its session prepares and then shows its failure |
| `SupervisorHistory.ExitEndsSessions` | crates/flextunnel-desktop/src/tunnel.rs:488-507 | after the loop has exited, every session still open was told to end or is ending |
| `SupervisorCommands.CommandsArriveInOrder` | crates/flextunnel-desktop/src/tunnel.rs:381-421 | in every run a session's channel holds what the handled commands told it, oldest first, less the one it acts on, which is the first |
| `SupervisorCommands.StagesInOrder` | crates/flextunnel-desktop/src/server_session.rs:156-275 | a session passes its stages in order, and its completion fires exactly when it signals |
| `SupervisorRuns.MissGoesStale` | crates/flextunnel-desktop/src/tunnel.rs:364-396 | every miss can be followed by the spawn of a config that is not the last one asked for, so the condition of `LatestConfigWins` is exact |
| `SupervisorRuns.RestartLost` | crates/flextunnel-desktop/src/tunnel.rs:364-396 | a run in which a restart is dropped and the older pending config comes up |
| `SupervisorRuns.DrainSession` | crates/flextunnel-desktop/src/server_session.rs:178-275 | from every world the newest session can reach the drop of its receiver by its own steps |
| `SupervisorRuns.FinishSession` | crates/flextunnel-desktop/src/server_session.rs:156-168 | ... and its completion |
| `SupervisorRuns.PendingCanStart` | crates/flextunnel-desktop/src/tunnel.rs:350-363 | no lost wake-up: from a loop blocked with a pending start there is a continuation without another command that brings it up (`SupervisorProgress.PendingStarts` bounds all of them) |
| `SupervisorRuns.BlockedSendProceeds` | crates/flextunnel-desktop/src/tunnel.rs:381-421 | a send that waits for room waits on an ending session, and some continuation lets it through (`SupervisorProgress.BlockedSendIsBounded` bounds all of them) |
| `SupervisorRuns.WakeThenTop` | crates/flextunnel-desktop/src/tunnel.rs:342-363 | a wake-up is followed by the handle cleared and the pending config consumed, unless and only unless the session's runtime failed with its receiver undropped |
| `SupervisorRuns.NoDoublePoll` | crates/flextunnel-desktop/src/server_session.rs:156-168 | while every runtime builds, no completion is polled twice in any run |
| `SupervisorRuns.DoublePollAfterRuntimeFailure` | crates/flextunnel-desktop/src/server_session.rs:139-168 | one failed runtime build is enough for a completion to be polled twice |
| `SupervisorPolls.RunIsQuiet` | crates/flextunnel-desktop/src/tunnel.rs:369-421 | in every run a session that was not told to stop has nothing in its command channel |
| `SupervisorPolls.FailureIsPolledTwice` | crates/flextunnel-desktop/src/server_session.rs:139-168 | from any sound world, a runtime failure that finds the loop neither exiting nor waiting to send can be followed by a second poll of that session's completion, with no other session spawned |
| `SupervisorPolls.StuckPollsOnce` | crates/flextunnel-desktop/src/tunnel.rs:342-421 | and one that finds it so is followed by none, however the run goes on |
| `SupervisorProgress.SessionsEnd` | crates/flextunnel-desktop/src/server_session.rs:156-258 | in every run a session takes at most eight steps, polls aside, before its receiver drops |
| `SupervisorProgress.StepsRunOut` | crates/flextunnel-desktop/src/server_session.rs:156-258 | any sequence of session steps, polls aside, is bounded by what is left to take |
| `SupervisorProgress.BlockedSendIsBounded` | crates/flextunnel-desktop/src/tunnel.rs:381-421 | whichever way the sessions take those steps, once they are taken a waiting send goes through |
| `SupervisorProgress.PendingStarts` | crates/flextunnel-desktop/src/tunnel.rs:342-363 | in every continuation without a command that is longer than the wait, the next session has the pending config, unless the system refused a thread |
| `ProfileSessions.SessionMap.Sweep` | crates/flextunnel-desktop/src/tunnel.rs:364 | exactly the sessions whose channel reads open stay in the map |
| `ProfileSessions.SessionMap.Admits` | crates/flextunnel-desktop/src/tunnel.rs:422-450 | a connect is refused exactly for its own session or one on its server |
| `ProfileSessions.SessionMap.TakeOut` | crates/flextunnel-desktop/src/tunnel.rs:474-475 | a removal takes out the profile's handle and nothing else |
| `ProfileSessions.SessionMap.Handle` | crates/flextunnel-desktop/src/tunnel.rs:422-487 | a command's effect on the map, and the session a removal waits for, are those of the transition system |
| `ProfileSessions.RunKeepsInv` | crates/flextunnel-desktop/src/tunnel.rs:422-523 | after every run each open session is in the map or was taken out by a removal that waits for it, and the map's sessions are on different servers |
| `ProfileSessions.ClosedWritesNothing` | crates/flextunnel-desktop/src/tunnel.rs:531-774 | a session whose channel reads closed never opens or writes its slot again |
| `ProfileSessions.OneWriterPerSlot` | crates/flextunnel-desktop/src/tunnel.rs:422-487 | two sessions may write one slot only in a run that connected a profile again while its removed session could still write, and one of the two is a removed one |
| `ProfileSessions.RemovedSlotsGo` | crates/flextunnel-desktop/src/tunnel.rs:474-523 | a removed profile, until connected again, has a slot only while a removal waits for its session (what a connect before that does is `EarlyReconnectLosesSlot`) |
| `ProfileSessions.StepDoubles` | crates/flextunnel-desktop/src/tunnel.rs:427-454 | a step brings two open sessions to one server exactly when it accepts a connect for the server of a removed session that is still open |
| `ProfileSessions.DoubledExactly` | crates/flextunnel-desktop/src/tunnel.rs:422-487 | the same over whole runs |
| `ProfileSessions.GuardBypassed` | crates/flextunnel-desktop/src/tunnel.rs:427-487 | for any two profiles of one server, a run with both open |
| `ProfileSessions.LiveSessionsHaveSlots` | crates/flextunnel-desktop/src/tunnel.rs:474-523 | in every run without a connect accepted before the profile's removal is done, every live session has its slot |
| `ProfileSessions.EarlyReconnectLosesSlot` | crates/flextunnel-desktop/src/tunnel.rs:476-484 | after any such connect the waiting removal can delete the slot of the live session |
| `ProfileSessions.SlotLost` | crates/flextunnel-desktop/src/tunnel.rs:474-487 | for any profile, a run that does so |
| `ProfileSessions.StepShares` | crates/flextunnel-desktop/src/tunnel.rs:422-487 | a step gives a slot its second writer exactly when it accepts a connect for a profile whose removed session may still write |
| `ProfileSessions.SharedExactly` | crates/flextunnel-desktop/src/tunnel.rs:422-487 | the same over whole runs |
| `ProfileSessions.RejoinIsEarly` | crates/flextunnel-desktop/src/tunnel.rs:474-487 | such a connect comes before the profile's removal is done |
| `ProfileSessions.TwoWriters` | crates/flextunnel-desktop/src/tunnel.rs:474-487 | for any profile, a run with two sessions that may write its slot |
| `ProfileSlots.SlotsTellHistory` | crates/flextunnel-desktop/src/tunnel.rs:422-523 | in every run a profile has a slot exactly if the last write or deletion of it was a write: by its session, or by a connect refused for want of a thread or for the server of another |
| `ProfileSlots.SessionListed` | crates/flextunnel-desktop/src/tunnel.rs:364-487 | a session is listed from its start until a removal takes it out or a receive finds its channel closed; nothing else changes the list or adds a thread |
| `ProfileSlots.ThreadSteps` | crates/flextunnel-desktop/src/tunnel.rs:531-774 | a session keeps its profile and server, and only its own steps move it |
| `ProfileSlots.RemovedMeansGone` | crates/flextunnel-desktop/src/tunnel.rs:474-523 | a profile removed and not connected since has no slot once no removal waits for its session |
| `ProfileSlots.RemovesOnce` | crates/flextunnel-desktop/src/tunnel.rs:476-484 | a removal deletes its slot once, and other removals still wait |
| `ProfileSlots.StagesInOrder` | crates/flextunnel-desktop/src/tunnel.rs:531-774 | the steps a session can take are exactly along its stages |
| `Http.ReadHead` | crates/flextunnel-core/src/proxy/http.rs:95-108 | the head read is the shortest prefix ending in a blank line within the cap, and nothing past it is consumed |
| `Http.SplitHeaderLines` | crates/flextunnel-core/src/proxy/http.rs:275-311 | the loop over lines accepts and yields exactly the reference splitter's headers |
| `Http.CollectOptions` | crates/flextunnel-core/src/proxy/http.rs:226-240 | the names listed by all Connection and Proxy-Connection headers, lossily decoded, in order |
| `Http.PrintSurvivors` | crates/flextunnel-core/src/proxy/http.rs:249-258 | appends the lines of the surviving headers, in order |
| `Http.WriteOriginHead` | crates/flextunnel-core/src/proxy/http.rs:242-261 | prints request line, Host, survivors and `Connection: close` |
| `Http.ReadRequest` | crates/flextunnel-core/src/proxy/http.rs:92-184 | reads one head and answers as the parser says: a request, a status for the application, or an end of stream |
| `HttpFraming.PrintThenSplit` | crates/flextunnel-core/src/proxy/http.rs:275-311 | printing headers and splitting the text gives them back |
| `HttpFraming.SplitIsGood` | crates/flextunnel-core/src/proxy/http.rs:275-311 | every header the splitter accepts is one that prints and splits back |
| `HttpFraming.ReaderStopsAtHead` | crates/flextunnel-core/src/proxy/http.rs:95-108 | a reader of a head with one blank line stops exactly at its end, whatever follows |
| `HttpFraming.HeadReadsBack` | crates/flextunnel-core/src/proxy/http.rs:242-311 | a printed head has its blank line only at the end and reads back as its request line and headers |
| `HttpFraming.HeadTellsHeaders` | crates/flextunnel-core/src/proxy/http.rs:242-311 | a printed head determines its headers |
| `HttpRewrite.ForwardHasParts` | crates/flextunnel-core/src/proxy/http.rs:110-261 | a head is accepted as a forward exactly when request line, target and headers all parse |
| `HttpRewrite.ForwardIsPrinted` | crates/flextunnel-core/src/proxy/http.rs:188-261 | an accepted head gives the authority's target, port 80 by default, and the printed origin-form head |
| `HttpRewrite.OriginReadsWhatWasMeant` | crates/flextunnel-core/src/proxy/http.rs:123-261 | for every accepted head the bytes sent hold a blank line only at their end and re-parse to method, path, version, then Host, the surviving headers in order with unchanged values, and `Connection: close` |
| `HttpRewrite.SurvivorsExact` | crates/flextunnel-core/src/proxy/http.rs:226-258 | a header survives, as often as it came, exactly when it is neither in the strip list nor named |
| `HttpRewrite.OptionsExact` | crates/flextunnel-core/src/proxy/http.rs:226-240 | a name counts as named exactly when some Connection or Proxy-Connection header lists it |
| `HttpRewrite.RequestLineReparses` | crates/flextunnel-core/src/proxy/http.rs:132-155 | a printed request line parses back to its parts |
| `HttpRewrite.TargetReparses` | crates/flextunnel-core/src/proxy/http.rs:194-223 | an absolute target printed from authority and path parses back to them |
| `HttpRewrite.RewriteIsFixpoint` | crates/flextunnel-core/src/proxy/http.rs:196-260 | sent back in absolute form, a rewritten head is rewritten to the same target and bytes if and only if no surviving header is named `close` |
| `HttpRewrite.CloseHeaderIsLost` | crates/flextunnel-core/src/proxy/http.rs:196-260 | an accepted head with a header named `close` that the second rewrite drops |
| `HttpRequests.RequestLineExact` | crates/flextunnel-core/src/proxy/http.rs:103-155 | a request line is accepted exactly if it is three words with single spaces in UTF-8 without control characters, the last a known version |
| `HttpRequests.ConnectExactly` | crates/flextunnel-core/src/proxy/http.rs:157-171 | a tunnel to a target is opened exactly if the method is CONNECT in any case and the target spells that host and a non-zero port; an address and a name are told apart |
| `HttpRequests.TargetExact` | crates/flextunnel-core/src/proxy/http.rs:196-235 | a forward's target is accepted exactly if it is `http://` in any case and an authority that can be dialled; the path is what follows, with a slash before a query alone |
| `HttpRequests.HeaderLineExact` | crates/flextunnel-core/src/proxy/http.rs:275-311 | a header line is accepted exactly if it is a name, white space if need be, a colon and a value, not folded and without smuggled control bytes |
| `HttpRequests.BlockExact` | crates/flextunnel-core/src/proxy/http.rs:275-311 | a block of lines is accepted exactly if each line is, and gives their headers in order |
| `HttpRequests.StatusExact` | crates/flextunnel-core/src/proxy/http.rs:103-191 | a refused head is answered 505 exactly if only its version is wrong, and 400 otherwise |
| `HttpOptions.NominatedAsText` | crates/flextunnel-core/src/proxy/http.rs:228-243 | a header is nominated exactly if a Connection or Proxy-Connection header lists its name between commas, in any case and with any white space around it, in the lossily decoded text |
| `Utf8.LossyExact` | crates/flextunnel-core/src/proxy/http.rs:234-238 | lossy decoding always gives well-formed text, and leaves a value unchanged exactly if it was |
| `Utf8Encoding.ValidIffEncoding` | crates/flextunnel-core/src/proxy/http.rs:115-121 | the byte-level check accepts exactly the encodings of texts of Unicode scalar values |
| `Utf8Encoding.ReplacedExact` | crates/flextunnel-core/src/proxy/http.rs:236-241 | in lossy decoding one replacement character stands for as many bytes as could begin a scalar value, and for one byte if none could |
| `Utf8Encoding.ReplacementEncodes` | crates/flextunnel-core/src/proxy/http.rs:236-241 | ... and is the encoding of U+FFFD |
| `Authority.SplitAuthorityExact` | crates/flextunnel-core/src/proxy/http.rs:352-379 | the parser accepts exactly the spelled authorities with a host and a non-zero or defaulted port, and gives that host and port |
| `Authority.ParseU16Exact` | crates/flextunnel-core/src/proxy/http.rs:352-379 | a port is digits of a value that fits, perhaps after a plus sign |
| `HostNames.Ipv4Exact` | crates/flextunnel-core/src/proxy/http.rs:323-328 | an IPv4 literal is four numbers up to 255 in decimal with dots between them |
| `HostNames.Ipv6Exact` | crates/flextunnel-core/src/proxy/http.rs:323-328 | an IPv6 literal is eight groups, or at most seven around one double colon, an IPv4 tail counting as two |
| `HostNames.HostExact` | crates/flextunnel-core/src/forwards.rs:129-166 | a host is accepted exactly if it is an IP literal, perhaps in brackets that are taken off, or a name of good labels of up to 253 bytes |
| `HostNames.HostFaultExact` | crates/flextunnel-core/src/forwards.rs:129-166 | a refused host is empty, too long, or has the fault named in its first bad label |
| `Authority.AcceptedHost` | crates/flextunnel-core/src/forwards.rs:129-166 | an accepted host is an IP literal or made of host-name characters |
| `Authority.ValidateIdempotent` | crates/flextunnel-core/src/forwards.rs:129-166 | an accepted host validates to itself |
| `Authority.PrintThenParse` | crates/flextunnel-core/src/forwards.rs:95-101 | for every accepted host and port, parsing the printed endpoint gives both back, bracketed IPv6 included |
| `Authority.PrintInjective` | crates/flextunnel-core/src/forwards.rs:95-101 | a printed endpoint identifies its host and port |
| `ForwardManager.Manager.constructor` | crates/flextunnel-core/src/proxy/forward.rs:159-167 | a new manager has reconciled an empty map |
| `ForwardManager.Manager.ApplyForwards` | crates/flextunnel-core/src/proxy/forward.rs:170-199 | the tasks become the reconciled ones and exactly the tasks not kept are aborted |
| `ForwardManager.Manager.RetainDesired` | crates/flextunnel-core/src/proxy/forward.rs:171-179 | exactly the tasks whose spec is the last listed for their id stay |
| `ForwardManager.Manager.StartMissing` | crates/flextunnel-core/src/proxy/forward.rs:180-198 | one fresh task per id without one, with the first spec listed |
| `ForwardManager.Collect` | crates/flextunnel-core/src/proxy/forward.rs:171-172 | the map holds the last spec listed for each id |
| `ForwardManager.ReconcileExact` | crates/flextunnel-core/src/proxy/forward.rs:170-199 | for unique ids: one task per desired spec, unchanged specs keep their very task, others get a never-used one, and exactly the others are aborted |
| `ForwardManager.ReconciledIsValid` | crates/flextunnel-core/src/proxy/forward.rs:170-199 | task identities stay unique |
| `ForwardManager.ApplyTwice` | crates/flextunnel-core/src/proxy/forward.rs:170-199 | a second apply of any list changes nothing if and only if no id not kept is listed first and last with different specs |
| `ForwardManager.ApplyTwiceRestarts` | crates/flextunnel-core/src/proxy/forward.rs:170-199 | any two different specs of one id: the second apply aborts the task the first started |
| `ForwardHealth.ForwardShared.constructor` | crates/flextunnel-core/src/proxy/forward.rs:84-93 | the initial state is the fold of two unresolved stacks |
| `ForwardHealth.ForwardShared.SetStack` | crates/flextunnel-core/src/proxy/forward.rs:95-117 | the published state always equals the fold of the two records |
| `ForwardHealth.StateOfReports` | crates/flextunnel-core/src/proxy/forward.rs:95-117 | after any reports: listening exactly while a stack is bound, starting exactly until both have resolved, failed otherwise |
| `ForwardHealth.FailureShown` | crates/flextunnel-core/src/proxy/forward.rs:95-117 | a forward whose stacks last reported errors shows the port in use if either says so, else the first stack's message |
| `ForwardHealth.ListeningShown` | crates/flextunnel-core/src/proxy/forward.rs:95-117 | a forward listens as soon as a stack's last report is that it is bound |
| `ForwardRelays.RunKeeps` | crates/flextunnel-core/src/proxy/forward.rs:222-401 | in every run permits and permit holders add up to 128, and the active count is the number of live guards |
| `ForwardRelays.ConnectionsAreBounded` | crates/flextunnel-core/src/proxy/forward.rs:310-401 | in every run the active count is at most the permits held, and at most 132 accepted connections are held anywhere |
| `ForwardRelays.UncountIsSafe` | crates/flextunnel-core/src/proxy/forward.rs:222-235 | the guard's decrement never underflows |
| `ForwardRelays.BoundIsAttained` | crates/flextunnel-core/src/proxy/forward.rs:310-401 | a run reaches 128 active relays and 132 held connections |
| `ForwardFlow.ConnectionsAreConserved` | crates/flextunnel-core/src/proxy/forward.rs:245-420 | in every run the connections accepted are those held, those closed by their relay and those that went with a stack that ended; relays are listed from spawn to join |
| `ForwardFlow.StackLife` | crates/flextunnel-core/src/proxy/forward.rs:245-306 | a stack binds, accepts one connection at a time, hands it over, rebinds or ends, by its own steps only, and can make each of these moves |
| `ForwardFlow.RelayLife` | crates/flextunnel-core/src/proxy/forward.rs:330-420 | in every run an unfinished relay can take its next step and no other, and a finished one is joined while the loop waits |
| `ForwardConfig.FromConfig` | crates/flextunnel-cli/src/client_session.rs:562-594 | accepts exactly the lists whose every entry is in order and has its own port, with forwards that carry their entries' fields; else the error is the first unfit entry's, by position and fault |
| `ForwardConfig.FindPort` | crates/flextunnel-cli/src/client_session.rs:575-581 | finds a forward with the port if there is one |
| `ForwardConfig.AcceptedIsSound` | crates/flextunnel-cli/src/client_session.rs:555-594 | accepted forwards have unique ids, are enabled, and have endpoints that validate and read back |
| `ForwardConfig.OutcomeAnswers` | crates/flextunnel-cli/src/client_session.rs:555-594 | every outcome told from the entries: accepted exactly if all are in order with different local ports, each forward carrying its entry; else the first unfit entry with its first fault, or the forward that has its port |
| `ForwardTicker.DisableFailed` | crates/flextunnel-core/src/forwards.rs:174-190 | switches off the first enabled forward of each failed status, in order, and reports each with its reason |
| `ForwardTicker.Session.constructor` | crates/flextunnel-core/src/forwards.rs:68-73 | a session starts with the enabled forwards reconciled |
| `ForwardTicker.Session.Tick` | crates/flextunnel-cli/src/client_session.rs:339-349 | a tick switches failed forwards off, records reasons, and re-applies only if there were any |
| `ForwardTicker.DisabledExact` | crates/flextunnel-core/src/forwards.rs:174-190 | with unique ids a forward stays on exactly if it was on and no status reports its failure, and nothing else of it changes |
| `ForwardTicker.OneReasonPerForward` | crates/flextunnel-core/src/forwards.rs:174-190 | the enabled count drops by exactly the number of reasons reported |
| `ForwardTicker.ReasonsExact` | crates/flextunnel-core/src/forwards.rs:174-190 | every reason is a failed status's, and every forward switched off has one |
| `ForwardTicker.EnabledSpecsExact` | crates/flextunnel-core/src/forwards.rs:84-90 | the specs applied are exactly those of the enabled forwards, with unique ids |
| `ForwardTicker.OpenedIsSettled` | crates/flextunnel-core/src/forwards.rs:68-73 | a new session's tasks are exactly its forwards |
| `ForwardTicker.TickKeeps` | crates/flextunnel-cli/src/client_session.rs:339-349 | a tick keeps the tasks equal to the enabled forwards and a reason for each disabled one; a forward left on keeps its very task |
| `ForwardTicker.SessionsSettle` | crates/flextunnel-cli/src/client_session.rs:339-349 | the same after any ticks, and each re-apply has switched off at least one more forward for good |
| `ForwardTicker.ConfiguredSessionsSettle` | crates/flextunnel-cli/src/client_session.rs:562-594 | a session from an accepted configuration re-applies at most once per entry, ever |
| `ForwardTicker.RowsTellTheTruth` | crates/flextunnel-cli/src/client_session.rs:517-553 | a status row is off with its recorded reason, or shows the forward's own task's status |
| `Frames.CopyToFrames` | crates/flextunnel-cli/src/ipc.rs:505-522 | however the input arrives, the output is the encoding of some chunking of it |
| `Frames.CopyFromFrames` | crates/flextunnel-cli/src/ipc.rs:524-544 | the loop delivers and stops as the reference decoder does |
| `Frames.RoundTrip` | crates/flextunnel-cli/src/ipc.rs:505-544 | decoding an encoding gives the input back and stops right after the empty frame, whatever follows |
| `Frames.PrefixIsCut` | crates/flextunnel-cli/src/ipc.rs:524-544 | a proper prefix delivers a prefix of the input and never reports the end |
| `Frames.DoneIsEncoded` | crates/flextunnel-cli/src/ipc.rs:524-544 | whatever decodes to its end is the encoding of a chunking of what it delivered |
| `Frames.LengthOnTheWire` | crates/flextunnel-cli/src/ipc.rs:505-544 | a length is written most significant byte first |
| `ControlLine.ReadLineCapped` | crates/flextunnel-cli/src/ipc.rs:615-642 | the loop reads as the reference line reader does, and its remaining capacity never underflows |
| `ControlLine.ReadsOneLine` | crates/flextunnel-cli/src/ipc.rs:615-642 | exactly one line is consumed, none of it left behind unless over the cap, and its text is what was consumed less the line ends after it |
| `ControlClient.IpcClient.Request` | crates/flextunnel-cli/src/ipc.rs:711-739 | a connection is opened only if there is none, and given up on a timeout and only then |
| `ControlClient.CallsFollowRequest` | crates/flextunnel-cli/src/ipc.rs:711-792 | every call in every run of the pairing model, whatever the servers do meanwhile, leaves the connection, the count of connections and the response that `Request` computes from how it ended |
| `ControlClient.ReconnectsAfresh` | crates/flextunnel-cli/src/ipc.rs:731-739 | a reconnect uses a new open connection with nothing asked or unread on it, and leaves the old ones |
| `ControlPairing.ResponsesArePaired` | crates/flextunnel-cli/src/ipc.rs:711-792 | in every run with timeouts, failed writes and server ends at arbitrary points, and no harm on the connection in use (a response over the cap, or a read that fails with its answer unread or to come), every byte a request returns answers that request |
| `ControlPairing.OverCapBreaksPairing` | crates/flextunnel-cli/src/ipc.rs:778-792 | for any response over the cap there is a run in which a later request gets an earlier one's whole answer |
| `ControlPairing.FailedReadBreaksPairing` | crates/flextunnel-cli/src/ipc.rs:716-728 | a run with every response within the cap in which a read fails and a later request gets the whole answer that read was for |
| `ControlPairing.HarmShows` | crates/flextunnel-cli/src/ipc.rs:711-792 | from any sound world, any harmful event can be followed by an unpaired response with no further harm, so the condition is exact |
| `ControlPairing.FittingRunsAreHarmless` | crates/flextunnel-cli/src/ipc.rs:711-792 | a run whose responses fit and whose reads do not fail does no harm |
| `Names.NormalizeExact` | crates/flextunnel-desktop/src/app.rs:594-598 | normalising fixes exactly the well-spaced names and the empty one, and always yields one, so only the length is left to check |
| `Names.NormalizeWords` | crates/flextunnel-desktop/src/app.rs:594-598 | normalising keeps the words in order with one space between them and nothing around |
| `Names.ShortenIsLongest` | crates/flextunnel-desktop/src/app.rs:289-295 | the base of a numbered name is the longest prefix that fits |
| `Names.CandidateIsValid` | crates/flextunnel-desktop/src/app.rs:288-296 | a numbered name is well formed and at most 64 bytes |
| `Names.FirstFree` | crates/flextunnel-desktop/src/app.rs:288-298 | the first free numbered name exists within one more try than there are names taken |
| `Names.UniqueName` | crates/flextunnel-desktop/src/app.rs:281-299 | the desired name if free, else the first free numbered one |
| `Names.Numbered` | crates/flextunnel-desktop/src/app.rs:289-295 | the base is popped until base and suffix fit, then trimmed |
| `Names.FreeNameIsValid` | crates/flextunnel-desktop/src/app.rs:281-299 | the name found is valid, and at most 64 bytes if it was renamed |
| `StoreFilters.DropInvalidKeys` | crates/flextunnel-desktop/src/config.rs:623-666 | the scan keeps what the reference filter keeps |
| `StoreFilters.KeysExact` | crates/flextunnel-desktop/src/config.rs:617-666 | loaded keys are valid and distinct in id, name and public key; a list loads unchanged exactly if it is so already |
| `StoreFilters.DropInvalid` | crates/flextunnel-desktop/src/config.rs:674-708 | the scan keeps what the reference filter keeps |
| `StoreFilters.ProfilesExact` | crates/flextunnel-desktop/src/config.rs:668-708 | loaded profiles have valid names and distinct ids, names and servers; a list loads unchanged exactly if it is so already |
| `StoreFilters.DroppedProfileShadows` | crates/flextunnel-desktop/src/config.rs:674-708 | a profile dropped for its name takes its id from a later good one |
| `StoreFilters.ProfileKeptExactly` | crates/flextunnel-desktop/src/config.rs:674-708 | a profile is kept exactly if it is the first of its id with a valid name, the first of those of its name, and the first of those of its server |
| `StoreFilters.KeyKeptExactly` | crates/flextunnel-desktop/src/config.rs:623-666 | a key is kept exactly if it is the first of its id, not empty or reserved, with a valid name, the first of those of its name, and the first of those of its public key |
| `StoreFilters.DroppedKeyShadows` | crates/flextunnel-desktop/src/config.rs:635-661 | a key dropped for its name takes its id from a later good one |
| `StoreFilters.DropInvalidClients` | crates/flextunnel-desktop/src/config.rs:287-322 | the scan keeps what the reference filter keeps |
| `StoreFilters.ClientsExact` | crates/flextunnel-desktop/src/config.rs:282-322 | loaded clients have valid, distinct names and canonical, distinct keys; a list loads unchanged exactly if it is so already |
| `StoreFilters.DroppedClientsShadowNothing` | crates/flextunnel-desktop/src/config.rs:305-322 | a good client is dropped only for the name or key of one that is kept |
| `Ports.OwnerExact` | crates/flextunnel-desktop/src/app.rs:246-279 | a port has no owner exactly when nothing considered is configured with it |
| `Ports.OwnerHolds` | crates/flextunnel-desktop/src/app.rs:250-279 | the owner named is the first profile that holds the port, by the proxy or forward that holds it |
| `Ports.EditKeepsPorts` | crates/flextunnel-desktop/src/app.rs:453-474 | an edited profile whose ports pass the form's checks keeps all local ports apart |
| `Ports.AddKeepsPorts` | crates/flextunnel-desktop/src/app.rs:453-474 | so does an added one |
| `Ports.ForwardEditKeepsPorts` | crates/flextunnel-desktop/src/app.rs:820-841 | so does an edited forward |
| `Ports.ForwardAddKeepsPorts` | crates/flextunnel-desktop/src/app.rs:820-841 | so does an added forward |
| `Ports.NextFreePort` | crates/flextunnel-desktop/src/app.rs:352-360 | the least free port from 1080 up, or 65535 when all are taken |
| `Forms.ValidatedProfile` | crates/flextunnel-desktop/src/app.rs:417-502 | a profile the form accepts has a valid free name, a free server, an existing key, free distinct ports and its old forwards |
| `Forms.ValidatedKeyName` | crates/flextunnel-desktop/src/app.rs:573-592 | an accepted key name is valid and free |
| `Forms.ValidatedClient` | crates/flextunnel-desktop/src/app.rs:758-777 | an accepted client has the form's name, valid and free, and the canonical form of its key, free |
| `Forms.ValidatedForward` | crates/flextunnel-desktop/src/app.rs:820-841 | an accepted forward has a free local port and a host that validates to itself |
| `FormFaults.ProfileFormExact` | crates/flextunnel-desktop/src/app.rs:417-502 | the profile form is refused with the first of the faults that apply to it, or gives a profile with its fields if none does |
| `FormFaults.KeyFormExact` | crates/flextunnel-desktop/src/app.rs:541-592 | the same for the key form |
| `FormFaults.ClientFormExact` | crates/flextunnel-desktop/src/app.rs:758-777 | the same for the client form |
| `FormFaults.ForwardFormExact` | crates/flextunnel-desktop/src/app.rs:820-841 | the same for the forward form |
| `FormFaults.PortFieldExact` | crates/flextunnel-core/src/forwards.rs:115-127 | a port field is a number from 1 to 65535, perhaps signed, in white space |
| `FormFaults.ListFieldExact` | crates/flextunnel-desktop/src/app.rs:237-243 | a list field is its comma-separated pieces, trimmed, the empty ones left out |
| `Text.TrimCuts` | crates/flextunnel-desktop/src/app.rs:237-243 | trimming takes all white space off both ends and nothing else |
| `FormEdits.SavedIsShaped` | crates/flextunnel-desktop/src/app.rs:417-502 | whatever the profile form saves has trimmed fields and a name of at most 64 bytes |
| `FormEdits.ListReadsBack` | crates/flextunnel-desktop/src/app.rs:236-244 | a list joined with commas for the form splits back to itself |
| `FormEdits.EditThenSave` | crates/flextunnel-desktop/src/app.rs:395-502 | any stored profile opened in its form saves back unchanged if and only if its fields have the form's shape, its name fits in 64 bytes, its key exists and nothing else holds its proxy ports |
| `FormEdits.SaveIsStable` | crates/flextunnel-desktop/src/app.rs:395-502 | what the form saved it saves again unchanged, while its key exists and ports are apart |
| `FormEdits.CommaUrlIsSplit` | crates/flextunnel-desktop/src/app.rs:236-244 | a profile with a comma in a relay URL is kept by the load filter and not by its form |
| `FormEdits.LongNameCannotBeSaved` | crates/flextunnel-desktop/src/app.rs:424-426 | a name that loading keeps and the form refuses |
| `FormEdits.KeyEditThenSave` | crates/flextunnel-desktop/src/app.rs:524-571 | a stored key opened in its form saves back unchanged if and only if its secret is at hand, trimmed and its own; a lost secret is asked for |
| `FormEdits.ForwardEditThenSave` | crates/flextunnel-desktop/src/app.rs:807-841 | a forward opened in its form saves back unchanged if and only if it has the form's shape and nothing else holds its local port |
| `FormEdits.SavedForwardIsShaped` | crates/flextunnel-desktop/src/app.rs:820-841 | whatever the forward form saves has the shape that saves back unchanged |
| `Merging.MergeImported` | crates/flextunnel-desktop/src/app.rs:308-350 | the loop over imported profiles merges, counts and lists as the reference does; added and replaced make up the import |
| `Merging.TakenNamesExact` | crates/flextunnel-desktop/src/app.rs:314-318 | the names taken are exactly those of the other profiles |
| `Merging.MergedOk` | crates/flextunnel-desktop/src/app.rs:301-350 | a merge of valid names keeps ids, names and servers distinct and names valid |
| `Merging.MergeKeeps` | crates/flextunnel-desktop/src/app.rs:301-350 | every profile keeps its place, id, key, token and server; added ones have no key or token; a profile whose server is not imported is untouched |
| `Merging.MergeDelivers` | crates/flextunnel-desktop/src/app.rs:319-346 | after an import every imported profile's settings and forwards, ids aside, are there |
| `Merging.ImportedName` | crates/flextunnel-desktop/src/app.rs:281-346 | an imported profile keeps its name if no other profile has it, else gets the first numbered one that none has |
| `Merging.ReplacedExact` | crates/flextunnel-desktop/src/app.rs:319-346 | the ids listed as replaced are those of the current profiles whose server is imported |
| `Merging.MergedIds` | crates/flextunnel-desktop/src/app.rs:320-322 | forward ids stay unique over all profiles |
| `Merging.MergeConservesPorts` | crates/flextunnel-desktop/src/app.rs:301-350 | each port is used after a merge as often as in the profiles left alone plus the imported ones |
| `Merging.ImportKeepsPortsExactly` | crates/flextunnel-desktop/src/app.rs:301-350 | an import keeps ports apart if and only if no port is used twice among those |
| `Merging.ImportCanClash` | crates/flextunnel-desktop/src/app.rs:301-350 | any two profiles of different servers with one SOCKS port clash on import |
| `DesktopStore.SaveProfileKeeps` | crates/flextunnel-desktop/src/app.rs:2130-2164 | saving the profile form keeps the store sound |
| `DesktopStore.DeleteProfileKeeps` | crates/flextunnel-desktop/src/app.rs:1753-1767 | so does deleting a profile |
| `DesktopStore.SaveKeyKeeps` | crates/flextunnel-desktop/src/app.rs:2196-2213 | so does saving the key form |
| `DesktopStore.SaveKeyExact` | crates/flextunnel-desktop/src/app.rs:2196-2213 | saving the key form keeps the store sound if and only if it puts no key under an empty or reserved id |
| `DesktopStore.CreateKeyKeeps` | crates/flextunnel-desktop/src/app.rs:2172-2194 | so does creating a key from the profile form |
| `DesktopStore.DeleteKeyKeeps` | crates/flextunnel-desktop/src/app.rs:2215-2237 | so does deleting a key |
| `DesktopStore.SaveClientKeeps` | crates/flextunnel-desktop/src/app.rs:1945-1961 | so does authorizing a client |
| `DesktopStore.RemoveClientKeeps` | crates/flextunnel-desktop/src/app.rs:1963-1978 | so does removing one, and its key is then gone |
| `DesktopStore.ImportKeeps` | crates/flextunnel-desktop/src/app.rs:2299-2308 | so does importing any file |
| `DesktopStore.HexIdIsNotReserved` | crates/flextunnel-desktop/src/config.rs:121-200 | a random id is never a reserved secret id |
| `DesktopRuns.RunsKeepStore` | crates/flextunnel-desktop/src/app.rs:1945-2213 | after every sequence of saves, deletions and imports all records are valid and distinct |
| `DesktopRuns.FiltersDropNothing` | crates/flextunnel-desktop/src/config.rs:287-708 | so the load-time filters are the identity on the store |
| `DesktopEffects.SaveProfileEffect` | crates/flextunnel-desktop/src/app.rs:2130-2164 | an accepted profile replaces the one of its id in place or goes to the end, a refused one changes nothing, and keys and server stay |
| `DesktopEffects.DeleteProfileEffect` | crates/flextunnel-desktop/src/app.rs:1753-1767 | exactly the profile with the id is taken out and the others keep their order |
| `DesktopEffects.SaveForwardEffect` | crates/flextunnel-desktop/src/app.rs:2265-2287 | an accepted forward replaces the one of its id in its profile or goes to the end of it; nothing else changes |
| `DesktopEffects.DeleteForwardEffect` | crates/flextunnel-desktop/src/app.rs:1426-1434 | exactly the forward with the id is taken out of its profile |
| `DesktopEffects.SaveKeyEffect` | crates/flextunnel-desktop/src/app.rs:2196-2213 | an accepted key replaces the one of its id or goes to the end |
| `DesktopEffects.CreateKeyEffect` | crates/flextunnel-desktop/src/app.rs:2172-2194 | a generated key goes to the end under its validated name |
| `DesktopEffects.DeleteKeyEffect` | crates/flextunnel-desktop/src/app.rs:2215-2237 | a key is taken out unless a profile uses it |
| `DesktopEffects.ServerEffects` | crates/flextunnel-desktop/src/app.rs:1882-1905 | a server is deleted whole, and one set up has its identity and is enabled and otherwise empty; keys and profiles stay |
| `DesktopEffects.SaveClientEffect` | crates/flextunnel-desktop/src/app.rs:1945-1961 | an accepted client goes to the end of the server's clients |
| `DesktopEffects.RemoveClientEffect` | crates/flextunnel-desktop/src/app.rs:1963-1978 | exactly the clients with the key are taken out |
| `DesktopRefs.RunsKeepRefs` | crates/flextunnel-desktop/src/app.rs:2215-2237 | over every such sequence a profile's key is missing only if it was at the start |
| `DesktopRefs.PerformFollows` | crates/flextunnel-desktop/src/app.rs:1945-2213 | no single save, deletion or import takes a profile's key away |
| `DesktopRuns.RunsKeepPorts` | crates/flextunnel-desktop/src/app.rs:453-474 | after every sequence whose imports bring no port in use, no local port is configured twice |
| `DesktopRuns.ImportPorts` | crates/flextunnel-desktop/src/app.rs:2299-2308 | an import keeps ports and forward ids apart if and only if it brings no port in use |
| `DesktopRuns.SaveForwardPorts` | crates/flextunnel-desktop/src/app.rs:2265-2287 | saving the forward form keeps ports and forward ids apart |
| `DesktopRuns.SaveForwardExact` | crates/flextunnel-desktop/src/app.rs:2265-2287 | ... and for any form exactly when it does not save the edited forward into another profile than the one that has it |
| `DesktopApp.App.SaveProfileForm` | crates/flextunnel-desktop/src/app.rs:2130-2164 | the profile replaces the one of its id or is added; a form that does not validate changes nothing; the store stays sound and local ports apart |
| `DesktopApp.App.DeleteProfile` | crates/flextunnel-desktop/src/app.rs:1753-1767 | the profile of the id is removed, the rest keep their order; the store stays sound and local ports apart |
| `DesktopApp.App.SaveKeyForm` | crates/flextunnel-desktop/src/app.rs:2196-2213 | the key replaces the one of its id or is added; the store stays sound |
| `DesktopApp.App.CreateKeyForProfileForm` | crates/flextunnel-desktop/src/app.rs:2172-2194 | the generated key is added under the validated name; the store stays sound |
| `DesktopApp.App.DeleteKey` | crates/flextunnel-desktop/src/app.rs:2215-2237 | the key is removed unless a profile uses it; the store stays sound |
| `DesktopApp.App.SaveClientForm` | crates/flextunnel-desktop/src/app.rs:1945-1961 | the validated client is added to the server, if there is one; the store stays sound |
| `DesktopApp.App.RemoveClient` | crates/flextunnel-desktop/src/app.rs:1963-1978 | the clients of that key are removed; the store stays sound |
| `DesktopApp.App.SaveForwardForm` | crates/flextunnel-desktop/src/app.rs:2265-2287 | the forward replaces the one of its id in its profile or is added there; the store stays sound, and local ports and forward ids apart exactly if no forward is moved to another profile |
| `DesktopApp.App.ImportProfiles` | crates/flextunnel-desktop/src/app.rs:2299-2314 | the filtered file is merged, and the counts shown add up; the store stays sound, and local ports stay apart exactly if the import brings none in use |
| `StoreFile.SaveStore` | crates/flextunnel-desktop/src/config.rs:809-837 | the file holds the records without secrets and the sealed map, as the reference save does; the keychain is needed only for a secret |
| `StoreFile.CollectSecrets` | crates/flextunnel-desktop/src/config.rs:580-589 | the map sealed holds the non-empty secrets |
| `StoreFile.LoadStore` | crates/flextunnel-desktop/src/config.rs:749-802 | loads, fills and filters as the reference does |
| `StoreFile.SecretIdsApart` | crates/flextunnel-desktop/src/config.rs:182-200 | in a sound store the secret ids of keys, relay tokens and server never collide |
| `StoreFile.LookupEntry` | crates/flextunnel-desktop/src/config.rs:554-615 | so looking an entry up in the sealed map gives its secret, or none if it is empty |
| `StoreFile.SaveThenLoad` | crates/flextunnel-desktop/src/config.rs:715-837 | saving and loading a sound store restores everything but forward switches and empty tokens, and fails only for want of a keychain with a secret to seal |
| `StoreFile.RelaunchRestores` | crates/flextunnel-desktop/src/config.rs:715-837 | the same for the store after any sequence of saves, deletions and imports |
| `StoreFile.LoadIsSound` | crates/flextunnel-desktop/src/config.rs:749-802 | whatever the file holds, what a load gives is sound |
| `StoreFile.LaunchesChain` | crates/flextunnel-desktop/src/config.rs:715-837 | from any loaded store, after any number of launches, the store is sound and each launch loads what the last one saved |
| `StoreFile.SecretsLostWhole` | crates/flextunnel-desktop/src/config.rs:715-742 | a blob of another version or one that does not open loses every secret and nothing else, and the load says which |
| `StoreSecrets.FileHoldsNoSecret` | crates/flextunnel-desktop/src/config.rs:809-837 | every saved file holds the records without a secret, and every other field as it was, forward switches aside |
| `StoreSecrets.OnlySealedDiffers` | crates/flextunnel-desktop/src/config.rs:809-837 | two stores that differ only in secrets save to files that differ only in the sealed text |
| `StoreSecrets.SealedHoldsSecrets` | crates/flextunnel-desktop/src/config.rs:552-600 | the sealed text is the sealing of a map with exactly the secrets there are, empty if there is none; a save fails only for want of a keychain to seal one |
| `StoreSecrets.EntriesExact` | crates/flextunnel-desktop/src/config.rs:552-580 | the secrets are the keys' under their ids and the relay tokens' and the server's under reserved ids |
| `StoreSecrets.SettledExact` | crates/flextunnel-desktop/src/config.rs:749-837 | what a save and a load give back, field by field: all as it was, forwards off, and an empty token as none |
| `StoreSecrets.ReservedIffClashes` | crates/flextunnel-desktop/src/config.rs:183-200 | the ids no key may have are exactly those of the other secrets |
| `SplitDns.MatchesByLabels` | crates/flextunnel-core/src/proxy/dns_forward.rs:162-168 | for all texts the character test holds exactly when the suffix's labels end the host's labels |
| `SplitDns.New` | crates/flextunnel-core/src/proxy/dns_forward.rs:68-116 | no table exactly for an empty configuration; else the sorted normalised entries, or the error of the first faulty pair |
| `SplitDns.ReadEntry` | crates/flextunnel-core/src/proxy/dns_forward.rs:73-106 | one pair becomes its normalised entry, or the fault it has |
| `SplitDns.SuffixSpelling` | crates/flextunnel-core/src/proxy/dns_forward.rs:107-149 | a suffix is the configured text without white space and dots around it, in lower case |
| `SplitDns.GoodSuffixExact` | crates/flextunnel-core/src/proxy/dns_forward.rs:107-149 | a suffix is usable exactly if it has no wildcard, no dot at either end and no two in a row |
| `SplitDns.SortedIsSorting` | crates/flextunnel-core/src/proxy/dns_forward.rs:107-114 | the table is ordered and holds exactly the entries |
| `SplitDns.SortedFindsBest` | crates/flextunnel-core/src/proxy/dns_forward.rs:139-149 | the first match in the sorted table is the longest match of the configuration |
| `SplitDns.BestIsLongest` | crates/flextunnel-core/src/proxy/dns_forward.rs:139-149 | nothing is found exactly when nothing matches; what is found matches, and any other match has fewer labels or is the same suffix |
| `SplitDns.TableAnswers` | crates/flextunnel-core/src/proxy/dns_forward.rs:68-149 | for the table built from a configuration, a host gets no upstream exactly when no configured suffix ends its labels, and otherwise the servers of a most specific pair |
| `SplitDns.OrderIrrelevant` | crates/flextunnel-core/src/proxy/dns_forward.rs:107-149 | the table answers alike for every order of the configuration map if and only if no two different entries have one suffix |
| `SplitDns.OrderDecides` | crates/flextunnel-core/src/proxy/dns_forward.rs:107-149 | two pairs that normalise to one suffix with different servers: the host of that name is answered by whichever comes first |
| `SplitDns.SpellingsCollide` | crates/flextunnel-core/src/proxy/dns_forward.rs:107-149 | a configuration with such pairs |

## Left out

- Names.UniqueName: takes at most 2147483645 names as taken, because the counter is a 32-bit integer; with more the code's counter overflows.
- ForwardConfig.FromConfig: the error texts are datatypes with the position and the reason, not the formatted sentences.
- Http.ReadRequest: the target of an IP literal keeps its text rather than the numeric address, and the error pages' wording is a status code.
- SplitDns.New: whether a server spec parses is a parameter, and building a resolver never fails.
- StoreFile.SaveStore: encryption, base64, JSON and the atomic file write are one abstract invertible sealing; the plaintext development file is not modelled.
- DesktopStore.SaveKeyKeeps: an edited key's id is taken to be neither empty nor reserved, as it was when the form opened; `SaveKeyExact` states both directions.
- DesktopRuns.SaveForwardPorts: an edited forward is taken to be in the profile its form was opened from; `SaveForwardExact` states both directions.
- ForwardRelays.ConnectionsAreBounded: counts connections the process has accepted, not those waiting in the kernel backlog.
- ProfileSessions.RunKeepsInv: sends to a profile session never wait for room, since its commands only choose among its own steps.
- The bounded two-second grace at shutdown, both for sessions and for the server.
- iroh endpoints, relays, TLS, DNS lookups and dialing: their outcomes are free choices.
- Wall-clock values; only the order of events and the constants are modelled. The rebind backoff would add only an easy member.
- The server's settings form and identity form, which touch no list the invariants speak of; forward switches in the app; the windows, tray, notices, log filters and clipboard.
- The routed set, SOCKS5, signaling and status-page modules are not part of this model.
- The command-line and configuration precedence rules, and the platform parts of sockets, pipes and lock files.
