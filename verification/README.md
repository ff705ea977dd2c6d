# MiniMask, verified: a Dafny model of the reverse tunnel

MiniMask exposes services behind a NAT. A client dials the server, is authenticated by a token and
keeps one multiplexed connection (a session); for each of its enabled mappings the server listens on
a public port, and every visitor of that port becomes a stream over the session to the mapping's
local address. This project models the parts whose correctness depends on how many functions and
concurrent tasks work together, and proves what they guarantee in every run.

The project has four layers.

- **Bytes.** `Utf8` is the encoder and the validator of RFC 3629 (sections 3 and 4); `Wire` is the
  frame format as values; `Streams` and `Protocol` are the readers and writers over streams that
  arrive in arbitrary pieces and accept writes piecemeal; `Handshake` is one connection, both ends,
  from its first byte to yamux, and `Connection` has the two ends in imperative form.
- **Relay.** `CopyMachine` is the byte-counting copy loop as a machine that can stop between any two
  steps, and any number of such loops sharing one counter; `Relay` are the loops themselves, each
  proved to be a run of that machine, and the two of them in series.
- **Store.** `Store` is the client list and what each mutation does to it, `StoreFacts` what
  histories of mutations keep and that token lookup is lookup in a map, `Persistence` the store with
  its temporary file and rename, under crashes, and `Tokens` which token is accepted when saves fail.
- **Server.** `Registry` holds the shared tables (session map, accept loops and their handles) and the
  admin handlers, `RegistryFacts` what they keep, `Server` the same as a class updated in place, and
  `Names` the trimming of a request's name.
  `Pipe` is one session's path from accept loop through the bounded channel and the driver to the
  proxy tasks, `SessionDriver` its two loops in imperative form. `Tunnel` puts everything into one
  machine whose events interleave freely, `TunnelFacts` proves that every step keeps its invariant,
  and `Guarantees` states what follows for every configuration, every client list that the server may
  have loaded and every sequence of events. `Scenarios` has concrete runs that show that the exceptions
  named there are real. `LoopEnds` says when an accept loop begins and ends, and `Slots` what a lost
  status reply does to the session map.
- Beside these, `Sampler`, `Broadcast` and `Backoff` are the small loops around the server and client.

In `Tunnel`, `Handshake`, `Pipe`, `CopyMachine` and `Broadcast` a run is any sequence of events; an
event that cannot happen in a state leaves it unchanged, so statements about all sequences are
statements about all reachable states. Methods of classes (`ClientStore`, `TunnelServer`,
`VisitorPath`, `WsBroadcaster`, ...) are proved equal to the steps of these machines.

`dafny verify dfyconfig.toml` checks everything.

## What the proofs show about the code

Some promises hold only under a condition, which is proved with them.

- `jitter` is documented (src/client.rs:228-229) to stay in `[d * 0.9, d * 1.1]`. After truncation to
  whole milliseconds that is so for every draw if and only if `d` is a multiple of 10 ms
  (`Backoff.JitterRangeExact`). Every backoff the loop can reach is one.
- A mutation that changes something and returns Ok has saved it. One that finds nothing to do also
  returns Ok, and then the file equals memory if and only if it did before: after a failed save it need
  not. In every history the file holds memory as of the last saved call (`Persistence.OkMeansSaved`, with
  the concrete case `Persistence.OkWithoutSaving`).
- Regenerating a token replaces the hash in memory before saving. If the save fails, the administrator
  gets an error and no token, but the token handed out before is no longer accepted: it is accepted if
  and only if the client is enabled and no regeneration of its token failed to save since
  (`Tokens.HandedTokenAccepted`, with the concrete case `Tokens.FailedRegeneration`).
- `clients.json` can always be loaded after a crash, except if the crash comes between the two
  file-system actions of the very first start, which creates the file in place
  (`Persistence.UnloadableOnlyAtFirstStart`).
- The admin handlers change the store first and return early if saving fails. The listeners are then
  still sound if and only if the change took away no mapping (or client) that a registered listener
  serves (`RegistryFacts.UnsavedSoundExactly`, over runs `Guarantees.FirstUnsavedExactly`). Such a state
  is reached from an empty store by creating a client and a mapping and connecting
  (`Scenarios.OrphanReachable`).
- The rates on the dashboard add up to the change of the byte counter if and only if the counter did
  not go down in between, as it does when it wraps (`Sampler.WindowTelescopes`); below 2^64 bytes it
  never does (`Sampler.RatesAddUp`).
- The limit on connections per session is checked before a connection is counted.
  `Guarantees.AdmissionBound` states the bound that this gives; `Scenarios.LimitOvershot` is a run with a
  limit of 1 in which two connections are counted at once and the bound holds with equality.
- After a reconnect whose listeners could not bind, the old session's channel has no sender left but the
  handler's own (`Scenarios.OnlyOwnSender`); that one is why its driver never sees the channel end.
- A handler inserts its session before it tells the client so, and returns early if it cannot. The entry
  then stays in the session map until the same client is let in again (`Slots.LostReply`). Since the
  check for room counts the entry that a reconnect would replace, a map full of such entries stays as it
  is forever (`Slots.LockedForever`, reached by `Slots.LockOutReachable`).
- A connection that succeeded resets the backoff only after the sleep that follows it, so that sleep is
  still one for the failures before it; the comment at src/client.rs:205-206 speaks of the next one
  (`Backoff.SleepExact`).
- A visitor has one fate besides those the comments name: its accept loop is aborted while its
  request waits for room in the channel.

## Model

| member | source | states |
|---|---|---|
| Guarantees.Routing | src/tunnel/session.rs:49-63 | In every run, each stream opened for a visitor goes over a session of the client owning the mapping of the visited port and names exactly that mapping's local address, across reconnects and hot reloads |
| Guarantees.OriginsForever | src/state.rs:193-218 | Owner, port and address of a mapping, once created, are the same in every later state, and any mapping stored under its id has them |
| Guarantees.PortDecidesLoop | src/tunnel/listener.rs:187-197 | Two running accept loops never share a public port |
| Guarantees.GlobalCounters | src/tunnel/session.rs:52-63 | Below 2^64 streams the global total and active counters are exact counts of proxy tasks by phase, under every interleaving, and active never exceeds total |
| Guarantees.GlobalNoUnderflow | src/tunnel/session.rs:61 | A proxy task about to decrement the global counter finds at least 1 in it |
| Guarantees.SessionCounter | src/tunnel/session.rs:53-60 | A session's counter is the exact number of its proxy tasks between increment and decrement, and its decrement never underflows |
| Guarantees.QuiescentCounters | src/tunnel/session.rs:52-62 | When every proxy task has ended, all active counters are 0 and the total is the number of streams opened |
| Guarantees.AdmissionBound | src/tunnel/listener.rs:254-263 | For max_conns >= 1, counted plus admitted-but-uncounted connections stay at most max_conns - 1 plus the peak of the latter, of which at most live loops + 256 + 1 are sending, queued or in the driver's hand |
| Guarantees.SessionOwnership | src/tunnel/listener.rs:116-135 | The session map holds, for each client, exactly its newest session not yet cleaned up; only a driver past its loop has cleaned up its own session; the map never exceeds max_clients |
| Guarantees.EntryLeavesOnlyByOwner | src/tunnel/session.rs:80-87 | An entry leaves the map or changes only through that very session's cleanup or a newer accepted handshake of the same client |
| Slots.LostReply | src/tunnel/listener.rs:116-155 | In every run a session whose status reply was lost keeps its entry in the session map from then on exactly until a newer session of the same client takes it over |
| Slots.LockedForever | src/tunnel/listener.rs:116-144 | Once every entry of a full session map is of such a session, the map never changes again: no client is let in, not even one whose entry it is |
| Slots.LockOutReachable | src/tunnel/listener.rs:116-144 | With max_clients 1 and any accepted token, one lost reply leads there |
| Guarantees.SessionsVerified | src/tunnel/listener.rs:96-104 | Every session ever inserted is for a client id for which the store accepted a token at an earlier moment |
| Guarantees.AlwaysSound | src/web/routes.rs:84-123 | Over every run whose changes were saved, each listener of a registered session belongs to an enabled stored mapping of that session's client |
| Guarantees.RunningLoopsJustified | src/tunnel/listener.rs:178-241 | In such runs every running accept loop is filed and serves an enabled mapping, or has its abort requested, or belongs to a deregistered session |
| LoopEnds.LoopEndsExactly | src/tunnel/listener.rs:213-282 | In every run a step asks a running loop to stop exactly if it is a saved handler that takes its listener away; it ends the loop exactly if a requested abort lands, a send is refused or accepting fails; and the public port is free afterwards exactly if the loop ended |
| LoopEnds.LoopBegins | src/tunnel/listener.rs:159-211 | In every run a loop begins only for an enabled stored mapping of a connected client, on a free port, started by the session's own handler or an admin handler about it |
| Guarantees.FirstUnsavedExactly | src/web/routes.rs:90-95 | In every run whose changes were saved so far, the first one that is not leaves the listeners sound exactly if it orphans none |
| Guarantees.InsertOverwritesNoLiveHandle | src/tunnel/listener.rs:199-209 | When a mapping's port can be bound, any handle already filed for it is of a loop that has finished |
| Guarantees.OneHolder | src/tunnel/listener.rs:213-227 | At most one registered session holds a handle for a given mapping, in every run |
| Guarantees.VisitorConserved | src/tunnel/listener.rs:251-280 | Every visitor ever accepted has exactly one request in exactly one session, hence exactly one fate |
| Guarantees.FirstInFirstOut | src/tunnel/session.rs:30-73 | What a session's loops enqueued is, in order, what was opened, at most one failed, the one in hand, what is queued and what was dropped with the channel; no request twice, each where its fate says |
| Guarantees.DriverNeverStarved | src/tunnel/listener.rs:106-155 | In every run, whatever became of the session map's entry and the accept loops, an open channel has a sender left, so the driver's recv never yields None |
| TunnelFacts.AlwaysInv | src/tunnel/listener.rs:50-157 | The invariant of the whole server (tables, pipes, the links between them, cleanup order, counters) holds after every sequence of events from every configuration and loaded client list |
| TunnelFacts.NextInv | src/tunnel/session.rs:20-95 | Every single step of the server keeps that invariant |
| Scenarios.OrphanReachable | src/web/routes.rs:220-234 | A run from the empty store, all changes saved, after which a deletion that fails to save leaves a registered listener without a mapping |
| Scenarios.LimitOvershot | src/tunnel/listener.rs:254-263 | A run with max_conns 1 in which two connections are counted at once, with equality in the admission bound |
| Scenarios.OnlyOwnSender | src/tunnel/listener.rs:106-155 | A run after which a driver is running and neither the session map nor any accept loop holds a sender of its channel |
| RegistryFacts.HolderUnique | src/tunnel/listener.rs:211-227 | Two registered sessions holding a handle for one mapping are the same session, that of the mapping's owner |
| RegistryFacts.RemoveListenerExact | src/tunnel/listener.rs:213-227 | Whatever the visiting order, the early return leaves no registered listener for the mapping, removes no other one, and requests the abort of exactly the loop that served it |
| RegistryFacts.RemoveClientInv | src/tunnel/listener.rs:230-241 | Draining a client's handles empties its session's listeners, touches no other session's, and keeps every invariant |
| RegistryFacts.AddListenerInv | src/tunnel/listener.rs:178-211 | Filing a listener of a created mapping keeps handles, loops, origins, ports and ownership consistent, and soundness if the mapping is enabled |
| RegistryFacts.InsertOwnership | src/tunnel/listener.rs:116-135 | The capped insert keeps the map at the newest sessions and within max_clients; exactly the replaced session is deregistered |
| RegistryFacts.CleanupOwnership | src/tunnel/session.rs:80-87 | Cleanup deregisters its own session and no other, even when a reconnect has replaced it |
| RegistryFacts.AdminInv | src/web/routes.rs:161-234 | Every admin handler, saved or not, keeps the tables' invariant |
| RegistryFacts.AdminSound | src/web/routes.rs:84-123 | A handler whose save succeeded keeps every registered listener backed by an enabled stored mapping of its client |
| RegistryFacts.UnsavedSoundExactly | src/web/routes.rs:90-95 | A handler whose save failed leaves the listeners sound exactly when it took away nothing that one of them serves |
| RegistryFacts.AdminReshapes | src/web/routes.rs:84-234 | A handler changes no owner, port or address given out, and registers, cleans up or finishes nothing |
| RegistryFacts.ReloadStarts | src/web/routes.rs:99-101 | Enabling a client, enabling a mapping or creating one starts, at once, a running listener for each enabled mapping concerned whose owner is connected and whose port can be bound |
| RegistryFacts.ReloadDisturbsNone | src/tunnel/listener.rs:162-211 | ... and leaves every accept loop there was exactly as it was |
| RegistryFacts.ReloadStops | src/tunnel/listener.rs:213-241 | Deleting or disabling a client or mapping takes away exactly the handles concerned and requests the abort of exactly their loops; every other handle and loop is as it was |
| RegistryFacts.AdminLoops | src/web/routes.rs:84-234 | Every handler: the loops that existed are as before, except that exactly those its operation takes away are asked to stop, and only once the change is saved |
| RegistryFacts.AdminStartsOnly | src/web/routes.rs:84-218 | Every loop that a handler starts is for an enabled stored mapping that its operation is about, of a connected owner, on a port that was free |
| Server.TunnelServer.InsertSession | src/tunnel/listener.rs:116-142 | Check and insert under one lock: rejected exactly at max_clients, else the new session is the registered one, with no listeners |
| Server.TunnelServer.StartListener | src/tunnel/listener.rs:178-211 | Starts a loop exactly when the client is registered and the port can be bound, and files its handle under the mapping |
| Server.TunnelServer.StartListeners | src/tunnel/listener.rs:162-173 | Tries a listener for every enabled mapping of the client, in the store's order |
| Server.TunnelServer.StopListener | src/tunnel/listener.rs:215-227 | Aborts and removes the handle in the first session that has it |
| Server.TunnelServer.StopClientListeners | src/tunnel/listener.rs:230-241 | Drains the client's handles and requests the abort of each |
| Server.TunnelServer.CleanupSession | src/tunnel/session.rs:80-87 | Removes the session's entry exactly if it is still this session's |
| Server.TunnelServer.UpdateClient | src/web/routes.rs:84-108 | Flag, save, then start or drain listeners; answers and state for the missing id and the failed save included |
| Server.TunnelServer.DeleteClient | src/web/routes.rs:110-124 | Delete, save, then drain listeners; likewise |
| Server.TunnelServer.CreateMapping | src/web/routes.rs:161-190 | Refuses a name that is blank after trimming, port 0 and an address that does not parse, changing nothing; conflicts on a taken port or unknown client; else add with the trimmed name (which Names.TrimExact determines), save, listen |
| Names.TrimExact | src/web/routes.rs:166-180 | The trimmed name is the one text t with the name equal to white space, t, white space, and no white space at either end of t |
| Names.TrimBlank | src/web/routes.rs:166-168 | Nothing is left exactly if the name is all white space |
| Server.TunnelServer.UpdateMapping | src/web/routes.rs:192-218 | Flag, save, then listen on the stored mapping or stop its listener; likewise |
| Server.TunnelServer.DeleteMapping | src/web/routes.rs:220-234 | Delete, save, then stop the listener; likewise |
| PipeFacts.StepFifo | src/tunnel/session.rs:47-73 | Every step keeps first in, first out through channel, hand and driver, at most 256 queued and one failure |
| PipeFacts.StepPlaced | src/tunnel/listener.rs:251-280 | Every step keeps each request in exactly the one place its fate names |
| PipeFacts.StepCounted | src/tunnel/session.rs:52-63 | Every step keeps the counter equal to the number of tasks between increment and decrement, modulo 2^64 |
| PipeFacts.StepBounded | src/tunnel/listener.rs:254-263 | Every step keeps the bound on counted plus pending connections |
| PipeFacts.EnqueuedOnce | src/tunnel/listener.rs:264-268 | No request is handed to the channel twice |
| SessionDriver.VisitorPath.DriveServer | src/tunnel/session.rs:20-95 | The driver loop, whatever other tasks do between its turns and while a stream is being opened: it leaves its loop exactly if some turn that it gets to finds the connection ended or cannot open a stream for a request, and then this session's own entry is out of the session map and the handler returns |
| SessionDriver.DriverEndsExactly | src/tunnel/session.rs:30-75 | The driver returns if and only if a turn that it gets to finds the connection closed, a yamux error, or no stream for a request at the head of the queue; otherwise it is still running |
| SessionDriver.EndedConnectionEnds | src/tunnel/session.rs:39-46 | Whatever came before, a closed connection or a yamux error ends the driver |
| SessionDriver.HarmlessTurnsGoOn | src/tunnel/session.rs:34-63 | With only unexpected streams and requests whose streams open, it never stops |
| SessionDriver.TurnOpensExactly | src/tunnel/session.rs:47-64 | Each turn of a run opens a stream, or records the failure to, for exactly the request then at the head of the queue, and for no other |
| SessionDriver.VisitorPath.PublicAcceptLoop | src/tunnel/listener.rs:243-282 | Over the limit the next visitor; else send, and give up after 200 ms; the loop stops at the first visitor whose send finds the receiver gone, returns where that was, and its result is the state right after it; it stops nowhere else |
| SessionDriver.RefusedIsLast | src/tunnel/listener.rs:264-268 | After the first refused send no later visitor makes any difference: the final state is the one right after it, and no request is known that was not admitted before it or by others |
| SessionDriver.ServedExactly | src/tunnel/listener.rs:251-276 | The fate of a fresh visitor: over the limit, channel closed, queued, or timed out, each exactly under its condition on the counter, the receiver and the room in time |
| SessionDriver.VisitorPath.AdmitVisitor | src/tunnel/listener.rs:253-257 | The check lets a visitor on exactly if the limit is off or the counter just read is below it |
| SessionDriver.DriverRunInv | src/tunnel/session.rs:30-95 | The driver keeps the session's invariant, and once it returns every request handed to it was opened, failed or discarded |
| SessionDriver.AcceptLoopInv | src/tunnel/listener.rs:251-280 | The accept loop keeps the session's invariant |
| SessionDriver.AcceptLoopServesAll | src/tunnel/listener.rs:251-280 | As long as the session's receiver exists, the loop goes on to every visitor that comes, whatever became of those before: each is admitted or turned away |
| Handshake.ConnectedMeansVerified | src/client.rs:289-321 | A client that reports Connected had its token accepted, at an earlier moment of the run, by the store as it then stood, and a session was inserted for that id |
| Handshake.RejectedNeverConnects | src/client.rs:316-320 | A client the server turned down never reports Connected |
| Handshake.YamuxStartsClean | src/tunnel/listener.rs:144-147 | On both sides yamux starts on exactly the other side's yamux bytes: none of the handshake left over, none swallowed |
| Handshake.Completes | src/tunnel/listener.rs:86-144 | From every moment of every run at which neither side has stopped there is a continuation after which both agree: the client is connected, in a session for the id the store gives, if its token is accepted and there is room, and has given up otherwise |
| Handshake.FreshHandshake | src/client.rs:289-321 | From the start: a run after which the client is connected exactly if the store accepts its token and there is room |
| Handshake.ServerSeesClient | src/tunnel/listener.rs:88-94 | Whatever part has arrived, a handshake the server reads is the client's own, and all of it |
| Handshake.ClientSeesServer | src/client.rs:291-298 | Whatever part has arrived, a status the client reads is the one the server decided on, and all of it |
| Handshake.AlwaysLinked | src/tunnel/listener.rs:86-144 | The invariant tying both ends' states to the bytes in flight holds in every run |
| Connection.HandleTunnel | src/tunnel/listener.rs:86-155 | Reads exactly one announcement; an unknown token changes nothing and is refused; a verified client goes on to the capped insert; the id inserted is the verified one, never the announced one |
| Connection.AdmitClient | src/tunnel/listener.rs:116-155 | Refused exactly at max_clients, with nothing changed; else inserted, told so in full before the listeners start; if the reply is lost the entry stays and no listener starts |
| Connection.Connect | src/client.rs:291-321 | Connected only if the whole announcement went out and an accepting status came back, with nothing after it taken; otherwise the stream broke, or no status or a refusal came |
| Utf8.FromUtf8Exact | src/tunnel/protocol.rs:107-108 | A byte string decodes to a text if and only if it is the RFC 3629 encoding of that text |
| Utf8.AsciiAsItIs | src/tunnel/protocol.rs:85-97 | ASCII text is sent as its own characters |
| Wire.StringExact | src/tunnel/protocol.rs:85-109 | A string is read with a remainder if and only if the input is its frame followed by that remainder |
| Wire.HandshakeExact | src/tunnel/protocol.rs:14-44 | (id, token) is read with a remainder if and only if the input is their handshake frame followed by that remainder |
| Wire.StatusExact | src/tunnel/protocol.rs:46-66 | A status is read if and only if the input is some byte and a string frame; accepted exactly if the byte is STATUS_OK |
| Wire.HandshakePrefixFree | src/tunnel/protocol.rs:14-44 | Handshake encodings are prefix-free |
| Wire.TruncatedHandshake | src/tunnel/protocol.rs:27-44 | A handshake cut short anywhere is never accepted at end of stream |
| Wire.TruncatedStatus | src/tunnel/protocol.rs:58-66 | Nor is a status |
| Wire.OversizedRejected | src/tunnel/protocol.rs:85-97 | Bytes left behind by a handshake writer that met a string over 65535 bytes are never accepted |
| Wire.HandshakeLayout | src/tunnel/protocol.rs:14-24 | A handshake byte by byte: MMSK, 1, then id and token, each behind its length in two bytes, high byte first, and nothing else |
| Wire.StatusLayout | src/tunnel/protocol.rs:47-56 | A status byte by byte: 1 or 0, then the message in the same form |
| Streams.ReadExact | src/tunnel/protocol.rs:99-106 | Under any chunking, read_exact yields the next n bytes if there are that many, else an error, and takes nothing more |
| Streams.Sink.WriteAll | src/tunnel/protocol.rs:85-97 | Under any splitting of writes, everything is written, or a strict prefix and an error; an error means the stream broke or refused to take a byte |
| Protocol.WriteString | src/tunnel/protocol.rs:85-97 | Writes the frame, or a strict prefix with an error, or nothing if too long |
| Protocol.ReadString | src/tunnel/protocol.rs:99-109 | Under any chunking, reads what the parser says of the whole stream, and takes no more |
| Protocol.WriteHandshake | src/tunnel/protocol.rs:14-24 | Writes the frame, or a part of it with an error, or the part before the string that does not fit |
| Protocol.ReadHandshake | src/tunnel/protocol.rs:27-44 | Under any chunking, reads what the parser says, with its error otherwise |
| Protocol.WriteStatus | src/tunnel/protocol.rs:47-56 | Writes the status frame, or a part of it with an error |
| Protocol.ReadStatus | src/tunnel/protocol.rs:58-66 | Under any chunking, reads what the parser says of the whole stream |
| Protocol.WriteTarget | src/tunnel/protocol.rs:69-76 | Writes the target frame, or a part of it with an error |
| CopyMachine.CopyAccounting | src/tunnel/proxy.rs:59-79 | At every step and stopping point counted <= delivered <= read <= counted + 16384, with equality at a clean end |
| CopyMachine.SharedCounterBounds | src/tunnel/proxy.rs:75-76 | Over N copies in any interleaving, counter <= delivered <= counter + 16384 * N, below 2^64 bytes |
| CopyMachine.ReadingsGrow | src/tunnel/proxy.rs:76 | Readings of the shared counter never go down, below 2^64 bytes |
| Relay.CopyCount | src/tunnel/proxy.rs:50-80 | The loop, for every chunking, partial write and stop, is a run of the copy machine: what it wrote is the part delivered of its input, what it added is what it counted |
| Relay.ProxyConnection | src/tunnel/proxy.rs:14-45 | The stream gets the target frame and then a prefix of the visitor's bytes, the visitor a prefix of the stream's; nothing is relayed or counted before the whole target frame is out; each counter goes up by what its own direction delivered, or at most one buffer less; a direction ends only when its input has no more or its output takes no more |
| Relay.CopyBidirectionalIdle | src/client.rs:376-411 | Each side gets a prefix of the other's bytes; every turn before the last moves something; the last comes only from an end, a broken stream or idleness; at an end nothing read is missing and the totals returned are the bytes written |
| Relay.HandleClientStream | src/client.rs:353-371 | Dials exactly the target at the front of the stream; the local service gets a prefix of the bytes after that frame, the stream a prefix of the service's; copying goes on until an end, a broken stream or idleness |
| Relay.Transparent | src/tunnel/protocol.rs:69-83 | Both loops in series, with any part of the bytes in flight arrived: the client dials the server's target, the local service gets a prefix of the visitor's bytes from the first one on, and the visitor a prefix of the service's |
| StoreFacts.ApplyOwns | src/state.rs:145-247 | Each mutation adds, removes or changes exactly the mapping or client it names; all others keep owner, name, port, address and flag |
| StoreFacts.ApplyClients | src/state.rs:145-247 | Each mutation, client by client: adding appends exactly one client with the given name, deleting takes out exactly the one named; every other client keeps every field and its place, and the one named differs in its flag only, its hash only, or its mappings only (one appended, one gone with the others in order, or one flag set) |
| StoreFacts.AppliesExact | src/state.rs:161-247 | A mutation finds what it is about exactly if a client or mapping with the id is stored, and for a new mapping if its port is nobody's |
| StoreFacts.ApplyKeepsGood | src/state.rs:145-247 | Client ids, mapping ids and remote ports stay distinct across all clients |
| StoreFacts.StoreStaysGood | src/state.rs:193-247 | So over every history from the empty store |
| StoreFacts.DeleteUndoesAdd | src/state.rs:220-233 | Deleting a mapping just added gives the list back |
| StoreFacts.DeleteUndoesAddClient | src/state.rs:161-169 | Deleting a client just added gives the list back |
| StoreFacts.StoreRefinesAccounts | src/state.rs:145-191 | Over every history the list represents a map from client id to the token last drawn for it and its flag |
| StoreFacts.TokenLookup | src/state.rs:129-135 | Over every history, verify_token(t) yields id exactly when id exists, is enabled and t is the token last drawn for it, saved or not |
| Tokens.HandedTokenAccepted | src/state.rs:145-191 | Over every history of calls and save outcomes, the token last returned to the administrator for a client is accepted as that client exactly when the client is enabled and no regeneration of it failed to save since |
| Tokens.MemoryIsRun | src/state.rs:145-247 | With fresh draws memory after such a history is the run of its operations, whether or not they were saved |
| Tokens.FailedRegeneration | src/state.rs:181-191 | The two-call history in which the token handed out stops being accepted and one that nobody was given is |
| Store.PositionExact | src/state.rs:115-117 | find yields the client with the id if and only if there is one |
| Store.FindMappingExact | src/state.rs:120-127 | find_mapping yields (owner, m) if and only if m has the id and is stored under that owner |
| Store.PortTakenExact | src/state.rs:137-143 | A port is taken if and only if some stored mapping has it, apart from the one to be ignored |
| Persistence.CrashSafe | src/state.rs:100-113 | At every moment clients.json is whole and holds, so that a restart loads it, what memory was after the last saved call or after the very call being saved |
| Persistence.OkMeansSaved | src/state.rs:161-169 | After any history the file holds memory as of the last saved call; if the last call returned Ok it equals memory when that call changed something or no save failed since the last saved one, and otherwise exactly if it did before that call |
| Persistence.OkWithoutSaving | src/state.rs:161-169 | The concrete history where Ok leaves the file behind memory |
| Persistence.UnloadableOnlyAtFirstStart | src/state.rs:75-93 | From the first start on, a crash leaves a file that cannot be loaded exactly between the two actions that create it |
| Persistence.ClientStore.Load | src/state.rs:75-93 | Loads the stored list, creates an empty one, or fails exactly on a torn file |
| Persistence.ClientStore.Persist | src/state.rs:100-113 | Temporary file, then rename; Ok exactly if both succeed |
| Persistence.ClientStore.AddClient | src/state.rs:145-159 | The list gets the client with the token's hash; the token is returned once saved |
| Persistence.ClientStore.DeleteClient | src/state.rs:161-169 | The retain loop deletes the client, saves if anything changed, and reports which |
| Persistence.ClientStore.SetClientEnabled | src/state.rs:171-179 | Sets the flag and saves, or reports a missing id |
| Persistence.ClientStore.RegenerateToken | src/state.rs:181-191 | Replaces the hash and saves, or reports a missing id |
| Persistence.ClientStore.AddMapping | src/state.rs:193-218 | Adds the enabled mapping and saves, or reports a taken port or unknown client |
| Persistence.ClientStore.DeleteMapping | src/state.rs:220-233 | The loop over all clients deletes the mapping, and saves and reports if it was there |
| Persistence.ClientStore.SetMappingEnabled | src/state.rs:235-247 | The loop over all clients sets the flag, and saves and reports if it was there |
| Sampler.HistoryExact | src/state.rs:328-341 | The history is exactly the newest min(n, 120) samples, in order |
| Sampler.HistoryAt | src/server.rs:171-181 | Entry j of the history, after any number of ticks: the growth of each counter since the tick before, or 0 if it went down, and the connections then active, for the newest min(n, 120) ticks |
| Sampler.RatesTelescope | src/server.rs:174-179 | The rates of either direction add up to the counter's change if and only if it never went down |
| Sampler.WindowTelescopes | src/server.rs:164-181 | So for the 120 samples in the window |
| Sampler.RatesAddUp | src/server.rs:174-179 | While copies add to the counter, in any interleaving and below 2^64 bytes, no rate saturates and the rates add up to the bytes counted between the two ends |
| Sampler.StatsWithinSixTicks | src/server.rs:171-194 | A live subscriber is handed, within six ticks from any state, the stats message of one of these ticks |
| Sampler.TickSends | src/server.rs:183-194 | A tick broadcasts its own stats, once, exactly if it looks for subscribers and finds one, and then the next tick looks again |
| Sampler.StatsEveryTick | src/server.rs:185-194 | Once a subscriber was found, every tick broadcasts its stats as long as one stays |
| Sampler.IdleForFive | src/server.rs:168-190 | With nobody there, the sampler leaves the broadcaster alone for five ticks after it looked |
| Sampler.StatsHistory.RecordSample | src/state.rs:328-341 | Append, and keep the newest 120 |
| Sampler.StatsSampler | src/server.rs:164-196 | The sampler loop, over a broadcaster that others use between ticks, is the run of ticks it should be |
| Broadcast.NoGaps | src/state.rs:551-569 | In every run a live subscriber's channel was handed exactly the broadcasts since it subscribed, in order; a closed one a gapless prefix |
| Broadcast.WsBroadcaster.SubscribeNow | src/state.rs:551-555 | A new subscriber, with nothing sent to it yet |
| Broadcast.WsBroadcaster.SubscriberCount | src/state.rs:559-564 | Prunes and counts the live subscribers |
| Broadcast.WsBroadcaster.BroadcastMessage | src/state.rs:566-569 | Sends to every live subscriber once and drops the others |
| Backoff.RunSupervised | src/client.rs:165-226 | The sleep after an attempt is min(500 * 2^f, 30000) ms jittered, f the failures in a row just before it; the number of sleeps is what cancellation allows |
| Backoff.SleepExact | src/client.rs:171-224 | After exactly n failures in a row just before it, a round sleeps 500, 1000, ..., 16000 or, from n = 6 on, 30000 ms, jittered |
| Backoff.CancelStops | src/client.rs:178-216 | The loop ends in the first round in which the token fires, sleeping in it only if it fires during the sleep |
| Backoff.JitterExact | src/client.rs:230-236 | For every draw the sleep is d * (1 + draw) cut to whole milliseconds, and nothing else |
| Backoff.JitterMonotone | src/client.rs:230-236 | A higher draw never means a shorter sleep |
| Backoff.JitterReaches | src/client.rs:228-236 | Every whole number of milliseconds within ten percent of d, both ends included, is the sleep of some draw |
| Backoff.JitterRangeExact | src/client.rs:228-236 | The documented range holds after truncation, for every draw, if and only if d is a multiple of 10 ms |
| Backoff.ReachableBackoff | src/client.rs:174-176 | Every backoff is a multiple of 10 ms between 500 and 30000, and at the cap exactly from the sixth failure on |
| Backoff.SleepWithinTenPercent | src/client.rs:228-236 | So every sleep of the loop is within 10 percent |

## Left out

Modelling choices, and what they leave out:

- Sockets, TLS and keepalive: a stream is a sequence of bytes in pieces that may end or fail at any point; yamux is an ordered byte channel per stream that may close.
- Time: a timeout is an event that may happen; the jitter factor is a real number in [0.9, 1.1].
- Hashing: the token hash is injective in pepper and token. Passwords (argon2) and web sessions (JWT) are not part of this model.
- Random values: drawn client ids, mapping ids and tokens do not collide with those in use, and a mapping id is never given out twice; `Tokens` takes no token to be drawn twice.
- A client list edited by hand so that ids or ports repeat is not among the lists that the server is taken to load.
- Binding a port: succeeds only if no running accept loop has it, and may fail for any other reason.
- Atomicity: `add_listener`, `start_client_listeners` and each admin handler are one step each; between these everything interleaves.
- Shutting the server down, which aborts everything, is not an event of the model.
- Relay.ProxyConnection: runs its two directions one after the other; since each may stop at any point on its own, this covers every content that either can deliver, but not their timing.
- Relay.CopyCount: shows what this one loop adds to the counter; additions of other connections in between are covered by CopyMachine.SharedCounterBounds.
- Relay.HandleClientStream: does not model the 15 s and 5 s timeouts other than as a failed read or dial.
- Connection.HandleTunnel: verifies and inserts without a break; that other connections and admin changes come in between is covered by the machine in Tunnel. The audit entries and the session_change broadcasts are left out.
- Server.TunnelServer.CreateMapping: takes as given whether the local address parses as IP:port; the parser is the standard library's.
- Persistence.ClientStore.AddClient: leaves out the creation time and the token's display prefix.
- Persistence.CrashSafe: takes file-system actions to reach the disk in order, and serialisation to round-trip; creating the parent directory is left out.
- Tokens.HandedTokenAccepted: is about one run of the server; a restart goes back to the list that was saved last.
- Sampler.StatsSampler: leaves out the samples' time stamps and the content of the stats message.
- The comment that a driver aborts its listeners (src/tunnel/session.rs:18-19) is not what the code does: they stop by themselves at their next visitor, and the model follows the code.

Not modelled, because the code does not promise it:

- That live drivers are at most max_clients, that a disabled client has no listeners, that every enabled mapping of an online client is listening, or that all bytes arrive after a half-close.
- That the id a client announces is the one it is verified as: the server ignores it.

Not modelled, because it would add only easy members:

- The audit log and its rotation, the store of web users, listing views, settings and configuration, the GUI, the command line and the web front end.
