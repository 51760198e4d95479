# The LAN Project host

PeerContext lets devices on one LAN share coding agents. One device hosts a Project: it keeps the Project's tables,
admits members by invitation, and passes a member's question ("ask") to the device that provides the agent, over a
socket that device keeps open. This is a Dafny model of that host, of the client and provider loops that drive it,
and of the Project creation that has to undo itself, with proofs of what holds in every run.

| module | what it holds |
|---|---|
| `Base` | constants, requests, responses, payloads |
| `Signing` | signing bytes and their lines, map keys, `Verify` |
| `Responses` | which messages that the host signs read as the response to an RPC |
| `Replay` | the replay guard (class) and the full history it refines |
| `Tables`, `StoreInvariants` | the five tables as maps, each Store call as a function on them; what every sequence of calls keeps |
| `Store` | the Store (class), with database errors at any statement and rollback |
| `Broker` | the broker (class) and its critical sections as functions on its state |
| `Correlation` | all interleavings of dispatches, connections, frames, timeouts and disconnects at the broker |
| `Server` | the handlers (class), each run alone |
| `Provider` | the provider's request/reply loop |
| `Host`, `HostInvariants`, `HostTheorems` | the host as one concurrent machine, its inductive invariant, and the theorems |
| `Endings` | why asks are turned down, and the order in which the steps of a connection come |
| `Scenarios` | runs of the host, from its start, into the states the exceptions are about |
| `Client`, `EndToEnd` | the endpoint search (class), and search and host composed |
| `Invitations`, `Sizes`, `Daemon` | invitation lifetime and text; wire sizes; local state (class) and `createProject` |

Code that updates state is a class whose methods are proved equal to functions on its abstract value. Code that
interleaves is a machine: one action is one critical section, one Store call, or what a goroutine does between two
of them, and a run is any sequence of enabled actions. `HostTablesAreAStoreRun` and `HostBrokerIsABrokerRun` tie the
machine back to those functions, so what is proved of every sequence of Store calls, and of every interleaving at
the broker, holds of the host. The proofs about runs are inductive; `HostInvariants.Inv` is the invariant.

## Assumptions

- Ed25519 and SHA-256 are not interpreted. A signature verifies only with its signer's key and over its own bytes; a
  digest stands for the bytes it was taken of. The RFC 3339, base64url and hex encoders, the member id taken from a
  key, and the JSON codec are parameters, injective and newline-free where a lemma says so. The machine's messages
  carry the key under which their signature verifies; `Server.VerifyAgrees` ties that to `Signing.Verify`. What the
  client makes of a response is computed from the signed message it reads (`Client.Read`).
- What was signed with the host's key (`HostSigns`): the ok results among it are the signed forms of the replies the
  machine makes, to asks, other operations, identity challenges and joins, each with a nonce of its own.
- No two dispatches share a nonce. For the nonce of a client's message the theorems that need it say so: the host
  accepted no other message with it (`OwnNonce`). Members may otherwise sign whatever they like, nonces included.
- Project ids are not reused: a deleted Project is not created again.
- A join reads the host's clock when its Store call is made (`AdmissionWasFresh`).
- The clock does not step back in the order in which the guard takes its lock. The code reads the time before it
  locks, so this is an assumption; `StepBackReadmits` shows that it is needed.
- Guarantees about replays cover one guard. A restarted host starts with an empty one.
- Store calls are atomic (the database has one connection, and the writes that belong together are in a
  transaction); `RegisterAgentIsNotOneStatement` shows where that matters. `authenticate` is two steps, its lookup of
  the member and the rest.
- A Project's profile is removed before the Project is deleted, as createProject's undo does when its calls succeed;
  the identity of a Project that is not there any more is then not available to the host.
- The runtime behind an agent is any function of the agent and the request. Frames written to a connection are read
  by the provider loop at its other end, in order. Frames to the host may be anything (`Forge`); the end-to-end
  theorems ask that nobody but the provider loops signed a frame with the nonce of a dispatch of that request.
- `method` in the source is `verb` here. Times are integer nanoseconds.

## Where the code does less than one might expect

Each is kept as the code has it, with lemmas that say when it happens.

- An ask is looked up by agent id *or name* but dispatched by id. After a removal, an agent that is online and named
  like the removed agent's id lets an ask through to the removed member's old connection: `RemovedReachedExactly` is
  the exact condition, `RevocationCanFail` a run of the host that gets there.
- A loop is attached for the row that the lookup of its agent returns, by id *or name*. If the member owns another
  agent named like the id the loop connects for, the loop is attached for that one and answers its asks:
  `WelcomedAsItself` is the exact condition, `LoopIsTheAgents` says it of an answer, `AnsweredByAnother` is a run.
- The text that a signed reply echoes, an identity challenge or the nonce of a join or message, is not restricted. If it
  holds newlines, the signed bytes can read as the response to another RPC: `ReadsAsExactly` and `GenuineExactly` are
  the exact conditions, and a newline-free text always meets them (`NewlineFreeMisleadsNobody`).
  `SuccessWithoutTheHost` is a run in which an RPC succeeds that the host never accepted.
- A message whose lookup came before the removal of its sender can be accepted after it:
  `RemovedCannotAuthenticate` says that nothing else can, `LookupMayOutliveRemoval` is a run.
- A frame typed as a failure keeps whatever response it carries, unchecked: `FailuresKeepTheirResponse`.
- Pending requests are keyed by request id alone, which is unique within a Project only. Two Projects can overwrite
  each other's entry, and the first caller then waits for its own timeout when its agent goes: `SharedIdStrands`, with
  a run of the broker in `StrandedRun`. `DetachStrandsExactly` says which callers a detach leaves with nothing.
- The cleanup of a replaced connection marks the agent offline although its successor is attached:
  `LateCleanupMarksOffline`, with a run in `FlagCanBeWrong`. What waits on a replaced connection is not failed:
  `ReplacedConnectionIsSilent`.
- The seconds of an invitation are multiplied in an int64 and can wrap: `TtlAsMeantExactly`, `TtlMayWrap`.
- A failed `createProject` leaves no Project current if it got as far as asking for an invitation, and a key if its
  profile could not be saved: `Daemon.CreateProject`. An invitation that the host stores after the undo stays as a
  row of no Project: `Daemon.CreateProjectOvertaking`, with a run in `InvitationOutlivesProject`; `DeletedLeavesOnly`
  says what can stay of a deleted Project at all.
- A request body of 256 KiB is legal but does not fit the control socket; 216 KiB is the most: `ControlSocketLimit`.

## Model

| member | source | states |
|---|---|---|
| Signing.UnambiguousExactly | pkg/protocol/v2/signing.go:25-27 | a separator-joined format determines its fields if and only if at most one field may contain the separator |
| Signing.CleanJoinIsUnique | pkg/protocol/v2/signing.go:26 | a text joined from separator-free fields is joined from no other list of as many fields, separator-free or not |
| Signing.MessageBytesUnambiguous | pkg/protocol/v2/signing.go:25-27 | the signing bytes of a newline-free message are those of exactly the messages that agree in every signed field and in the payload digest |
| Signing.JoinBytesUnambiguous | pkg/protocol/v2/invitation.go:86-88 | join requests have the same signing bytes exactly when they agree, even if the member name contains newlines |
| Signing.KindsNeverCoincide | pkg/protocol/v2/invitation.go:87 | no message, whatever its fields, has the signing bytes of a join request |
| Signing.VerifiesOnlyWhatWasSigned | pkg/protocol/v2/signing.go:45-59 | a signature made over one clean message verifies another exactly when both agree in what is signed, the key is the signer's and the time is inside the window |
| Signing.VerifyErrors | pkg/protocol/v2/signing.go:45-59 | which error Verify gives, over the fields: incomplete, a key that has not 32 bytes, off by more than the maximum age, a signature by another key or over other bytes; none exactly when all four are in order |
| Signing.VerifyJoinErrors | pkg/protocol/v2/invitation.go:94-108 | the same for a join, where the member name must not be blank and the member key has 32 bytes |
| Signing.MessageFormat | pkg/protocol/v2/signing.go:25-27 | the signing bytes of a message, written out |
| Signing.JoinFormat | pkg/protocol/v2/invitation.go:86-88 | the signing bytes of a join, written out |
| Base.BlankIsTrimmed | pkg/protocol/v2/invitation.go:95 | a text is blank exactly when trimming leaves nothing of it |
| Responses.ReadsAsExactly | pkg/protocol/v2/signing.go:25-27 | a signed message that is clean but for ReplyTo has the bytes of some response to a query exactly when it is a response of that kind whose ReplyTo starts with the query's nonce line, or its ReplyTo holds the four lines of such a response |
| Responses.OwnOrAstray | pkg/protocol/v2/signing.go:39-43 | such a message is the host's own response to the query, or goes astray, and never both |
| Responses.NewlineFreeStays | internal/lanhost/auth.go:45-51 | with a newline-free ReplyTo nothing goes astray, for any query |
| Responses.TakenIsGenuine | internal/lanhost/client.go:214-236 | an ok result that passes the client's checks is the host's own response to that message, with its payload, if nothing signed goes astray |
| Responses.AllGenuineExactly | internal/lanhost/client.go:214-236 | every ok result that passes the client's checks is the host's own response to that message, if and only if no ok result that was signed goes astray for it |
| Signing.ProviderKeyInjective | internal/lanhost/broker.go:42 | broker keys of NUL-free Projects name one Project and one agent |
| Signing.GuardKeyInjective | internal/lanhost/auth.go:30 | guard keys with NUL-free Project and sender name one Project, sender and nonce |
| Signing.KeyFormats | internal/lanhost/auth.go:30 | the keys of broker and guard, written out |
| Replay.ReplayGuard.constructor | internal/lanhost/auth.go:25-27 | a new guard has seen nothing |
| Replay.ReplayGuard.Accept | internal/lanhost/auth.go:29-43 | the loop evicts exactly the keys older than twice the maximum age, then refuses a key that is left and records any other |
| Replay.AcceptRefines | internal/lanhost/auth.go:33-41 | one step: the cache decides as the full history does, and is again exactly the recent part of the history |
| Replay.GuardRefinesHistory | internal/lanhost/auth.go:33-41 | whole runs with a nondecreasing clock: a call succeeds exactly when the key was not accepted within the retention, and the map then holds precisely the keys accepted in that window |
| Replay.StepBackReadmits | internal/lanhost/auth.go:34 | with a clock that steps back an evicted key passes again although the history refuses it |
| Replay.PassesOnce | internal/lanhost/auth.go:38-40 | a key that passed does not pass again within the retention |
| Replay.RetentionFitsExactly | internal/lanhost/auth.go:34 | no message passes twice inside its signature window, in any run, if and only if keys are kept at least twice the maximum age |
| Store.Store.CreateProject | internal/lanhost/store.go:106-119 | both rows or neither, wherever the transaction fails |
| Store.Store.DeleteProject | internal/lanhost/store.go:158-173 | all rows of the Project go from all five tables, or none does |
| Store.Store.AddInvitation | internal/lanhost/store.go:175-178 | a new unused invitation, or a constraint error and no change |
| Store.Store.ConsumeInvitation | internal/lanhost/store.go:180-229 | the member is added and the invitation used up together, with the outcomes of `ConsumeExactly`; any refusal or failure leaves every table as it was |
| StoreInvariants.ConsumeExactly | internal/lanhost/store.go:180-229 | an admission succeeds exactly when the Project is there, the invitation is unused, unexpired and has a 32-byte key, the join is filled in with a 32-byte key and at most two minutes old or ahead, its signer is the invitation, and neither its id nor its key is taken; and the one error of each condition that fails |
| StoreInvariants.ConsumesSigned | internal/lanhost/store.go:210-212 | the same in terms of a signature over the signing bytes of the join |
| StoreInvariants.ConsumeWrites | internal/lanhost/store.go:213-227 | the row of the member, the mark on the invitation, and nothing else |
| Tables.JoinProblemAgrees | pkg/protocol/v2/invitation.go:94-108 | the check on joins in the tables gives the error of Verify on the signed join |
| Store.Store.RemoveMember | internal/lanhost/store.go:278-307 | only an owner removes, never an owner, and the member's agents go with it; otherwise nothing changes |
| StoreInvariants.RemoveMemberExactly | internal/lanhost/store.go:278-307 | a removal succeeds exactly when its actor holds the host key and its target is a member that does not; the rows that go are the target and the agents it owns |
| Store.Store.RegisterAgent | internal/lanhost/store.go:309-326 | inserts or renames for the agent's own owner; refuses strangers, other owners' ids and taken names without a change |
| StoreInvariants.RegisterExactly | internal/lanhost/store.go:309-326 | a registration succeeds exactly for a member, unless the id is another owner's or the name another agent's; the row gets name and manifest, and keeps its flag and times if it was there |
| Store.Store.SetAgentOnline | internal/lanhost/store.go:328-341 | changes the flag for the owning member only |
| Store.Store.Agent | internal/lanhost/store.go:360-367 | some row with that id or that name, and none exactly when there is none |
| Store.Store.RemoveAgent | internal/lanhost/store.go:369-383 | removes the row that was selected, for its owner or the Project's |
| StoreInvariants.RemoveAgentExactly | internal/lanhost/store.go:369-383 | an agent is removed exactly by a member who owns it or holds the host key, for a row that has the selector as id or name |
| Store.Store.CreateRequest | internal/lanhost/store.go:414-418 | a running row once per Project and request id |
| Store.Store.UpdateRequest | internal/lanhost/store.go:420-433 | sets the status and the matching time of an existing row and nothing else |
| StoreInvariants.RunSound | internal/lanhost/store.go:56-84 | every sequence of calls keeps member keys and agent names unique, members in live Projects, an owner in each Project, agents with live owners |
| StoreInvariants.ExactlyOneOwner | internal/lanhost/store.go:247 | in every reachable store each live Project has exactly one owner among its members |
| StoreInvariants.AgentOwnership | internal/lanhost/store.go:296-306 | in every reachable store an agent's owner is a current member and its name is its own in the Project |
| StoreInvariants.OwnerNeverChanges | internal/lanhost/store.go:318-319 | as long as an agent stays registered its owner is the same, whoever registers it again |
| StoreInvariants.MembershipConserved | internal/lanhost/store.go:180-229 | for every live Project: current members + removed members = 1 + consumed invitations |
| StoreInvariants.SingleUse | internal/lanhost/store.go:199-227 | an invitation admits at most once, and has admitted once if it is marked as used, and so one join request, however often posted, adds at most one member |
| StoreInvariants.DeletedIsGone | internal/lanhost/store.go:158-173 | a deleted Project is gone for good, ids not being reused |
| StoreInvariants.JoinerIsNotOwner | internal/lanhost/store.go:213-218 | whoever is admitted becomes a member who is not the owner |
| StoreInvariants.AdmittedBeforeExpiry | internal/lanhost/store.go:202-205 | whoever is admitted comes strictly before the expiry the invitation was created with, and holds its key |
| StoreInvariants.RemovalLasts | internal/lanhost/store.go:278-307 | from a removal until a re-admission the key is no member and owns no agent, whatever calls follow |
| StoreInvariants.RegisterAgentIsNotOneStatement | internal/lanhost/store.go:310-318 | a removal between the member check and the insert would leave an agent without an owner |
| Broker.Broker.constructor | internal/lanhost/broker.go:38-40 | a new broker has no providers and nothing pending |
| Broker.Broker.Attach | internal/lanhost/broker.go:44-51 | the new connection takes the key and the one it replaces is returned |
| Broker.Broker.Detach | internal/lanhost/broker.go:53-69 | if this connection is still the attached one, it goes and every empty waiting channel of its key gets the failure agent_offline for its own request; else nothing changes |
| Broker.Broker.Register | internal/lanhost/broker.go:71-90 | with a connection: a new empty channel under the request id; without: no change |
| Broker.Broker.Unregister | internal/lanhost/broker.go:91-95 | the entry under the request id goes, whoever's it is |
| Broker.Broker.Take | internal/lanhost/broker.go:103-108 | empties the channel and returns what it held |
| Broker.Broker.Lookup | internal/lanhost/broker.go:133-138 | the channel of the entry whose id and nonce the frame names, or none |
| Broker.Broker.Send | internal/lanhost/broker.go:139-144 | fills an empty channel and drops the payload otherwise |
| Correlation.RunInv | internal/lanhost/broker.go:44-146 | the broker's invariant holds after every interleaving |
| Correlation.DispatchCorrelated | internal/lanhost/broker.go:71-146 | what a dispatch returns is the failure agent_offline, with nothing else in it, that detach made under its own key for its own agent and request; or what `PassedOn` makes of a frame that answers its own nonce and no other's, names its request, and whose response names it too and is at most 2 MiB |
| Correlation.FrameFindsItsDispatch | internal/lanhost/broker.go:133-138 | a frame reaches a dispatch exactly when it names its request and nonce and the entry there is that dispatch's |
| Correlation.Exchange | internal/lanhost/broker.go:103-144 | undisturbed, the right frame is received, sent, taken and returned to the dispatch it answers |
| Correlation.RightFrameIsDelivered | internal/lanhost/broker.go:139-144 | then the waiting caller is given exactly that payload |
| Correlation.NoStrandedEntry | internal/lanhost/broker.go:57-67 | an entry whose agent has no connection has its outcome in its channel, or its caller has taken one |
| Correlation.StrandedOnlyBySharing | internal/lanhost/broker.go:89-93 | a dispatch that waits for a gone agent with nothing in its channel has lost its entry, and some dispatch, ever, had the same request id |
| Correlation.DetachStrandsExactly | internal/lanhost/broker.go:57-67 | when the attached connection of its agent ends, a live dispatch is left with an empty channel exactly when it was empty and the entry under its request id was not its own |
| Correlation.SharedIdStrands | internal/lanhost/broker.go:89-93 | with two agents' dispatches under one id, the first one's detach leaves it waiting |
| Correlation.StrandedRun | internal/lanhost/broker.go:89-93 | for any two connected agents and any request id, a run of the broker that leaves a caller waiting with nothing in its channel and no connection |
| Correlation.ReplacedConnectionIsSilent | internal/lanhost/broker.go:57 | the end of a replaced connection changes nothing, exactly when it is another connection |
| Correlation.FailuresKeepTheirResponse | internal/lanhost/broker.go:128-132 | what receive passes on carries no bad response, except exactly a failure that came with one |
| Correlation.OutcomeIsFinal | internal/lanhost/broker.go:103-108 | each caller gets one outcome, and it does not change |
| Correlation.DecidedBy | internal/lanhost/broker.go:96-108 | in every interleaving a dispatch's outcome is what it took from its own channel; it has none only because its frame could not be written, or because its time was up after it had been |
| Correlation.WrittenAtMostOnce | internal/lanhost/broker.go:96-99 | a dispatch writes its frame once at most, and before anything else happens to it |
| Server.Server.constructor | internal/lanhost/server.go:31-37 | a new host has an empty guard with the default age and an idle broker |
| Server.VerifyAgrees | pkg/protocol/v2/signing.go:45-59 | the machine's messages verify exactly as the signed messages they stand for, with the same error |
| Server.Server.Authenticate | internal/lanhost/server.go:113-133 | succeeds exactly when the sender is a stored member, the route is that of the call, `Verify` with the key stored for that member finds nothing wrong within two minutes, and the guard has not seen the message for four; the error of each check, in this order, with the guard unchanged by any but a success |
| HostTheorems.GetsInExactly | internal/lanhost/server.go:113-133 | the machine's lookup followed by its acceptance decides the same about every signed message: stored member, `Verify` with the stored key, a kind and a route that have a handler, not seen for four minutes |
| HostTheorems.AcceptedWasAuthentic | internal/lanhost/server.go:113-133 | in every run each accepted message was looked up as a stored member's, is signed with the key stored at that step, and was complete, routed and at most two minutes from the host's clock when it was accepted |
| Server.KindsExactly | internal/lanhost/server.go:135-186 | which kinds of message go with which contents |
| Server.Server.CreateInvitation | internal/lanhost/server.go:188-210 | only who was the owner at authentication invites, to a Project that is there; the stored expiry is the clamped lifetime from now, an hour at most |
| Server.Server.HandleJoin | internal/lanhost/server.go:74-96 | a join on the right route is decided as in `ConsumeExactly`, adds exactly its own member and reports it; any other changes no table and reports the Store's reason |
| Server.Server.Ask | internal/lanhost/server.go:212-242 | every way an ask ends, with invalid_request exactly for one that a field makes invalid, that names another Project than its message or another requester than its sender; what each end says about the tables before it, and the row it leaves, column by column; running only without a host identity or if the update fails |
| HostTheorems.RowIsTheSenders | internal/lanhost/server.go:212-224 | in every run each request row belongs to an accepted message: requester, Project and agent are the sender's, its and the asked one, size (256 KiB at most) and digest are those of the body in that message |
| HostTheorems.DispatchIsTheSenders | internal/lanhost/server.go:212-231 | in every run a call carries the request of its accepted message, whose requester is the sender and whose Project is the message's |
| Server.Server.Connect | internal/lanhost/server.go:266-294 | only the agent's owner is attached, under the id of the row found, and marked online |
| Server.Server.Hangup | internal/lanhost/server.go:295-299 | detaches if still attached, and marks offline in either case |
| Provider.HonestPayloadUntouched | internal/lanhost/client.go:344-355 | what the provider loop sends is never rewritten by receive, and carries an answer exactly when the handler gave one of at most 2 MiB |
| Provider.PayloadExactly | internal/lanhost/client.go:344-355 | what the loop sends for each result of its handler, with the failures written out |
| Provider.RepliesMatchFrames | internal/lanhost/client.go:326-365 | reply number k echoes the nonce of frame number k and is computed from that frame's request |
| Provider.ServeOneMore | internal/lanhost/client.go:326-343 | one frame more adds one reply, computed from it, exactly when it passes the checks |
| Provider.Serve | internal/lanhost/client.go:326-365 | the loop answers the frames in order until the first that fails a check |
| HostInvariants.RunInv | internal/lanhost/server.go:98-309 | the invariant of the whole host holds after every run |
| HostTheorems.HostTablesAreAStoreRun | internal/lanhost/store.go:106-433 | the host's tables are what its Store calls, in order, make of empty ones, and those calls meet what StoreInvariants asks |
| HostTheorems.InvitationAdmitsOnce | internal/lanhost/store.go:199-227 | in every run of the host an invitation admits at most one member |
| HostTheorems.AdmittedInTime | internal/lanhost/server.go:188-210 | in every run of the host whoever is admitted has an invitation that an owner ordered, made less than an hour before by the host's clock |
| HostTheorems.AdmissionWasFresh | internal/lanhost/server.go:74-96 | in every run of the host whoever is admitted posted a filled-in join on the join route, at most two minutes from the host's clock, signed with the key of an unused, unexpired invitation, and took no id or key that was taken |
| HostTheorems.HostBrokerIsABrokerRun | internal/lanhost/broker.go:44-146 | the host's broker is in a state that an interleaving of its critical sections reaches |
| HostTheorems.IdGuardsNeverBlock | internal/lanhost/server.go:289-291 | the machine's conditions on Project ids and connections hold wherever the code attaches, dispatches or writes |
| HostTheorems.MessageAcceptedOnce | internal/lanhost/server.go:104-129 | no signed message passes authenticate twice in any run |
| HostTheorems.TakenAtMostOnce | internal/lanhost/client.go:136-168 | however often and wherever one message is posted, the host takes it on at most once |
| HostTheorems.ReplyMeansRanOnce | internal/lanhost/server.go:104-110 | a signed ok result belongs to the call or job of the message with its nonce; an order other than an inquiry has then made its Store call |
| HostTheorems.ExecutedAtMostOnce | internal/lanhost/server.go:135-180 | the run makes an operation's Store call once if the operation was carried out and never otherwise, however often its message is posted |
| HostTheorems.ExecutedWhen | internal/lanhost/server.go:135-180 | where in the run an operation made its Store call, and that its result is that call's |
| HostTheorems.RefusedExactly | internal/lanhost/server.go:135-180 | an order that ended without a Store call is an inquiry, or was refused for want of ownership, id, name or meaning; any other made the one call it stands for, with its own arguments |
| HostTheorems.SignedWhileHosted | internal/lanhost/server.go:311-327 | every ok result was signed while the host had the identity of a Project that was there |
| HostTheorems.DeliveredAtMostOnce | internal/lanhost/server.go:224-231 | each (Project, request id) is dispatched at most once in every run, deletions or not, and once exactly when some call has a dispatch for it |
| HostTheorems.OneDispatchPerRow | internal/lanhost/store.go:97 | two dispatches of one request id of a Project are the same dispatch |
| HostTheorems.NeverDeliveredAgain | internal/lanhost/broker.go:96-99 | a request is written to one connection, once, in every run |
| HostTheorems.DeletedIsNotDispatched | internal/lanhost/server.go:227-230 | an ask that creates its row in a deleted Project does not get the host identity, and so is not dispatched |
| HostTheorems.DeletionForgetsRequests | internal/lanhost/store.go:164-168 | a request id is refused the second time, and its row could be created again after the Project was deleted |
| HostTheorems.AnswerBelongsToRequest | internal/lanhost/server.go:212-242 | a signed answer is what the runtime computes from that same request for the agent whose loop is at the connection attached for the addressed agent, delivered for this dispatch's nonce, and its row was succeeded when it was signed |
| HostTheorems.MadeForDispatch | internal/lanhost/client.go:326-361 | a reply of a provider loop echoes the nonce of a dispatch written to its connection and is the runtime's, for the loop's own agent, on that dispatch's request |
| HostTheorems.FrameWasChecked | internal/lanhost/broker.go:111-127 | every frame taken was read on an open connection, and signed with the key and for the Project of the member at its end, on the provider route and within two minutes |
| HostTheorems.DeliveredWasChecked | internal/lanhost/broker.go:111-146 | a frame that decided a dispatch is one of those |
| HostTheorems.GuestWasAccepted | internal/lanhost/server.go:244-266 | whoever connects as a provider sent an accepted message that names the agent, and is known by the key that signed it |
| HostTheorems.OfflineIsReported | internal/lanhost/broker.go:53-69 | when detach decided an ask, the result signed for it is the failure agent_offline for that request, and its row was failed by then |
| HostTheorems.LoopIsTheAgents | internal/lanhost/server.go:266-289 | the loop that answers is the addressed agent's if and only if, when it connected, the addressed row was not another agent of its member named like the one it connected for |
| HostTheorems.WelcomedAsItself | internal/lanhost/server.go:266-270 | whatever row the lookup returns, a loop is attached for its own agent, if and only if no other agent of its member is named like it |
| Scenarios.AnsweredUndisturbed | internal/lanhost/server.go:217-241 | an ask of an online agent whose connection's loop is idle is answered when nothing comes between, with that loop's answer |
| Scenarios.AnsweredByAnother | internal/service/daemon.go:525-531 | a run, all providers honest, in which an ask of one agent is answered from the loop of another |
| HostTheorems.RowChangesOnce | internal/lanhost/server.go:231-241 | a row changes only when its own ask finishes: from running to succeeded exactly when dispatch returned a response, else to failed |
| HostTheorems.LeftRunningExactly | internal/lanhost/server.go:227-230 | while the Project is there, an ask that returned leaves its row running exactly when the host identity was missing |
| Endings.TurnedDownForCause | internal/lanhost/server.go:212-233 | in every run an ask that was never dispatched was refused because no agent had that id or name, the one found was offline or the request id was taken, or ended for want of the host identity or of a connection under its agent's key |
| Endings.MissingAgentIsMissing | internal/lanhost/store.go:360-373 | a removal of an agent reports none exactly when none of the Project has that id or name |
| HostTheorems.DeletedLeavesOnly | internal/lanhost/store.go:158-173 | of a deleted Project no run leaves a member or an agent, and of its invitations only unused ones |
| Scenarios.InvitationOutlivesProject | internal/service/daemon.go:320-325 | a run in which the undo overtakes the invitation it asked for, and exactly that row is left |
| HostTheorems.AttachedBelongsToOwner | internal/lanhost/server.go:256-291 | an attached connection for a stored agent is the owner's, if no agent id was reused |
| HostTheorems.ReachesTheOwner | internal/lanhost/server.go:217-231 | an ask that found its agent by id is written to a connection of that agent's owner |
| HostTheorems.RemovalLasts | internal/lanhost/store.go:278-307 | from a removal until a re-admission the member is out, in every run of the host |
| HostTheorems.RemovedCannotAuthenticate | internal/lanhost/server.go:113-117 | no message of a removed member gets past the lookup, since it is no member; what is accepted after the removal was looked up before it |
| HostTheorems.RemovedIsNotReached | internal/lanhost/server.go:217-231 | an ask looked up after the removal is not written to the removed member, even to a connection still attached, unless the lookup matched another agent by name |
| HostTheorems.RemovedReachedExactly | internal/lanhost/store.go:361 | with the old connection still attached an ask can reach it if and only if another agent that is online is named like the id the ask names |
| Scenarios.RevocationCanFail | internal/lanhost/server.go:217-231 | a run in which a member is removed and an ask is then put to that member's old connection |
| Scenarios.LookupMayOutliveRemoval | internal/lanhost/server.go:114-129 | a run in which a message looked up before its sender's removal is accepted after it |
| HostTheorems.LateCleanupMarksOffline | internal/lanhost/server.go:295-299 | in every run, when a replaced connection ends its cleanup leaves its successor attached and the agent marked offline |
| Endings.OfflineAfterItsEnd | internal/lanhost/server.go:291-299 | in every run a connection's agent is marked offline only after the connection ended, and that only after its agent was marked online |
| Endings.EachOnce | internal/lanhost/server.go:291-299 | each of these three steps happens at most once to a connection |
| Scenarios.FlagCanBeWrong | internal/lanhost/server.go:291-299 | a run in which an attached, open connection's agent is marked offline |
| Client.Client.RPC | internal/lanhost/client.go:127-173 | without cancellation the double loop gives the verdict of the first decisive post over both lists and posts nothing after it; a structured error other than project_host_offline and lan_discovery_unavailable is decisive, and after plain errors and those two is returned as it is; it discovers once at most and posts once per list entry at most |
| Client.Client.Sweep | internal/lanhost/client.go:141-161 | one pass ends at the first post that is neither a plain error nor one of the two codes, with its verdict, or leaves the last error |
| Client.Client.Endpoints | internal/lanhost/client.go:368-375 | the saved endpoints, with the remembered one in front |
| Client.Client.RememberEndpoint | internal/lanhost/client.go:377-385 | the next search starts there, and the profile hears of it only if it did not already start there |
| Client.PrioritizeEndpoint | internal/lanhost/client.go:387-395 | that endpoint first, then the others in their order, none lost |
| Client.Join | internal/lanhost/client.go:63-87 | the join search ends as RPC's does, with the same two codes, and the new profile lists the endpoints of the successful round with the one that answered in front |
| Client.JoinSweep | internal/lanhost/client.go:66-76 | one pass of the join search ends at the first post that is neither a plain error nor one of the two codes |
| Client.SearchByRounds | internal/lanhost/client.go:140-168 | the fold over both lists, one round at a time |
| Client.VerdictOfFirst | internal/lanhost/client.go:141-160 | a post decides exactly when it is decisive and none before it is, and then the verdict is its own |
| Client.FirstDecisiveExactly | internal/lanhost/client.go:175-181 | a post that is neither a plain error nor one of the two codes, after posts that are, is the one that decides; if there is none, none decides |
| Client.DecisiveExactly | internal/lanhost/client.go:175-181 | which posts decide, the codes written out |
| Client.JudgeExactly | internal/lanhost/client.go:150-160 | what a post decides: success exactly for an ok result of the right Project and kind that decodes, and the error of every other |
| Client.ExhaustedSearch | internal/lanhost/client.go:169-172 | an undecided search ends with the last post's error, which is a plain one or one of the two codes, else with what discovery reported, else as an offline host |
| Client.AcceptedPassed | internal/lanhost/client.go:183-236 | a response that the search accepts verifies, has the route, nonce, Project and kind asked for, and its result is what its payload parses to |
| Client.ReadExactly | internal/lanhost/client.go:183-236 | what each response reads as, check by check; a status of 403 turns exactly a plain error into lan_peer_required and leaves the structured ones |
| EndToEnd.GenuineExactly | internal/lanhost/client.go:214-236 | in every run the client's checks are enough for a message if and only if no reply that the host signed, to whatever request, misleads about it |
| EndToEnd.NewlineFreeMisleadsNobody | internal/lanhost/server.go:58-71 | a reply to a newline-free challenge, join nonce or message nonce misleads about no message |
| Scenarios.SuccessWithoutTheHost | internal/lanhost/server.go:58-71 | a run in which the host answers one challenge and accepts nothing, and an RPC succeeds |
| EndToEnd.SuccessWasReplied | internal/lanhost/client.go:141-160 | a successful RPC heard the signed form of a reply that the host made to that message, and returns its payload |
| EndToEnd.RpcRunsAtMostOnce | internal/lanhost/client.go:136-168 | one RPC makes the host do its operation at most once over all retries, whatever it hears |
| EndToEnd.RpcRunsOnce | internal/lanhost/client.go:136-168 | one RPC that succeeds on what it heard has made the host do its operation exactly once, ask or not, if no reply misleads |
| EndToEnd.OrderSucceeds | internal/lanhost/server.go:135-180 | the Store call of a successful operation is the one that the kind of its message stands for, made for its Project and sender, with the arguments ordered and the clock of that step, and it succeeded |
| EndToEnd.AskSucceeds | internal/service/daemon.go:424-455 | from the responses heard: the answer that a successful ask reads is what the runtime computes from that same request, asked by the sender in the Project of its message, for the loop at the addressed agent's connection; it was run once and its row was succeeded when the result was signed |
| EndToEnd.AskDeclinedOffline | internal/service/daemon.go:444-453 | an ask whose agent's connection ended while it waited is told agent_offline for its own request, and its row was failed when that was signed |
| Invitations.TtlAtMostOneHour | internal/lanhost/server.go:197-200 | whatever number is sent the lifetime is an hour at most; it is what was asked for from one second to an hour, and ten minutes for any other number whose product does not wrap |
| Invitations.TtlAsMeantExactly | internal/lanhost/server.go:198 | the lifetime is the one meant exactly when the product does not wrap, or wraps to more than an hour or to ten minutes |
| Invitations.TtlMayWrap | internal/lanhost/server.go:198-199 | a number of seconds that makes an invitation expired when it is made |
| Invitations.AdmittedWithinTheHour | internal/lanhost/server.go:197-206 | whoever is admitted comes within the hour after the invitation was created |
| Invitations.ValidateExactly | pkg/protocol/v2/invitation.go:25-42 | the error of each check, in their order, over the fields; none exactly when all hold |
| Invitations.EncodesExactly | pkg/protocol/v2/invitation.go:44-53 | exactly the valid invitations encode, as the prefix and their text |
| Invitations.DecodesExactly | pkg/protocol/v2/invitation.go:55-71 | exactly what is a prefixed text of a valid invitation decodes, and the error of anything else |
| Invitations.InvitationRoundTrip | pkg/protocol/v2/invitation.go:44-71 | what one device encodes another decodes unchanged until the invitation expires, and rejects as expired from then on |
| Sizes.NestedFitsExactly | pkg/protocol/v2/model.go:17-19 | exactly which sizes fit under a limit for any nesting of base64 fields |
| Sizes.BodyFitsOnTheWire | internal/lanhost/server.go:100 | every legal body fits in 8 MiB to the host and on to the provider |
| Sizes.AnswerFitsOnTheWire | internal/lanhost/client.go:217 | every legal answer fits in 8 MiB to the host and, in three layers, to the requester |
| Sizes.ControlSocketFitsExactly | internal/service/daemon.go:171 | exactly which bodies fit the control socket, given the sizes of the two wrappers |
| Sizes.ControlSocketLimit | internal/service/daemon.go:171 | a body fits under some wrappers if and only if it has at most 221184 bytes |
| Sizes.FullBodyNeverFitsControl | internal/service/daemon.go:171 | the largest legal body never fits the control socket |
| Daemon.Manager.PutProfile | internal/v2state/state.go:148-168 | exactly the state it leaves: unchanged for a bad key or a keyring failure, the key alone for a failed save, else key, profile and current Project |
| Daemon.Manager.Use | internal/v2state/state.go:185-197 | makes a configured Project current and no other |
| Daemon.Manager.RemoveProfile | internal/v2state/state.go:276-296 | profile, its agents and its key go, and it is no longer current |
| Daemon.Manager.UpdateEndpoints | internal/v2state/state.go:309-323 | replaces the endpoints of a configured Project |
| Daemon.Daemon.RequestInvitation | internal/service/daemon.go:320-321 | the first invitation adds its own row, and the profile may get its endpoints reordered |
| Daemon.ReorderedExactly | internal/service/daemon.go:472-480 | the endpoint that answered comes first, the others keep their order, and nothing else of the profile changes |
| Daemon.Daemon.Settle | internal/service/daemon.go:315-333 | once the rows are there: exactly the tables and the local state that each failure leaves |
| Daemon.Daemon.Undo | internal/service/daemon.go:323-324 | the profile is removed and the Project deleted |
| Daemon.Daemon.CreateProject | internal/service/daemon.go:298-334 | when it succeeds, and exactly what it leaves: on failure the five tables as before, and the local state too but for a key that could not be followed by its profile, or a current Project lost after the profile was put |
| Daemon.Daemon.CreateProjectOvertaking | internal/lanhost/server.go:188-210 | with the host's handler overtaken by the undo, a failure leaves the tables as before if and only if it had not asked for an invitation or none was stored late; the one row left is that invitation |
| Daemon.DeleteRestores | internal/lanhost/store.go:158-173 | deleting a fresh Project undoes whatever was added for it and nothing else |
| Daemon.DeleteUndoesCreate | internal/service/daemon.go:316-318 | creating a fresh Project succeeds, and deleting it restores the five tables |
| Daemon.DeleteUndoesInvite | internal/service/daemon.go:322-325 | so does deleting it after its first invitation was stored |
| Daemon.RemoveUndoesPut | internal/v2state/state.go:276-296 | removing a fresh profile restores the local state but for the current Project |
| Daemon.CurrentIsNotRestored | internal/v2state/state.go:289-291 | a failed creation restores the local state exactly when no Project was current |

## Left out

- Cryptography, JSON, SQL text, timestamp formatting: libraries; see the assumptions.
- HTTP, WebSocket, mDNS, network interfaces: a post is an outcome given to the search, a connection is a number.
- The agent runtime behind a provider, the command line, launchd, npm packaging.
- `Members`, `Agents`, `Projects` and the other listings, and the lookup of a Project or member by id: reads only. The
  machine has them as inquiries that change nothing and may or may not succeed.
- The `startProvider` loop and its backoff, `RunProviderWithState`: they repeat the provider loop.
- Failing random source or encoder in `dispatch` and `RPC`: they end the call before anything was sent.
- Signed replies that are no ok result: refusals, connect confirmations, dispatch frames. Their payloads never parse to
  an ok result, and nothing else is said of them.
- Database errors while the host runs concurrently: `Store` and `Server` have them, the `Host` machine does not. A
  failed final update leaves a row running there (`Server.Ask`).
- A profile that could not be removed by an undo: the identity of a deleted Project would stay.
- handleProvider's reading of the host identity before attach: the machine attaches without it, and so has more runs.
- Server.Server.Ask: runs the ask alone, with what dispatch returns as a parameter; interleavings are the machine's.
- Server.Server.HandleJoin: reports the result; its signing is a step of the machine (`AnswerJoin`).
- Daemon.Daemon.CreateProjectOvertaking: appends the late step; the interleaving is `InvitationOutlivesProject`.
- Correlation.StrandedOnlyBySharing: one way; the exact statement at the detach is `DetachStrandsExactly`.
- Broker.Broker.Detach: channels are numbered slots of the broker and not objects of their own, so that aliasing of
  a channel by a stale receive is a number kept in a flight.
- Daemon.Manager.UpdateEndpoints: each call is one atomic load, change and save; only `PutProfile` has faults.
- HostTheorems.LeftRunningExactly: says nothing of a Project that was deleted meanwhile, whose rows are gone.
