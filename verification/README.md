# BSCP: calls, guild permissions, OpenID grants

A Dafny model of the parts of BSCP in which many small steps have to add up: the voice-call
protocol between servers, the guild tables of a channel server, the OpenID provider of a user
server, and three small algorithms. Every operation is modelled as a transition on a value of
the server's state, with the branches, order of checks and error answers of the Rust code.
Where the code changes fields or tables in place there is a class whose methods, with the
program's loops, are proved to perform exactly these transitions. The theorems are about the
transitions, and most of them about every run of them.

| file | about |
|---|---|
| Signal, ManagerSpec, CallManager, CallRuns | frames and the call manager; what every run of it keeps |
| MeshSpec, MeshPairs, MeshFormation, MeshProgress, Engine, AudioBridge | who dials whom in the server mesh; the audio forwarding rule |
| UserCallsSpec, UserCallsIndex, UserCallsEffects, UserCalls, PeerLoop | a user server's index of its users and calls; the peer connection loop |
| GuildDb, Perms, PermLaws, LayeringStory | the guild tables and effective permissions; a run that parts from the documented ones |
| GuildSpec, GuildLaws, GuildEffects, GuildRoutes, GuildServer, ChannelForest | the guild routes and what each demands, authority, invites, the channel tree, voice rooms |
| OAuthSpec, OAuthLaws, OAuthRoutes, OAuth, Scopes | codes, refresh tokens, PKCE, consent and scopes |
| PercentCodec, Calendar, Discovery | percent coding, day counts as dates, the discovery cache |
| Sequences, Accounts | distinct elements, the last segment of a text; the names of local users |

How the world outside enters: a drawn uuid, token, random code or new channel is a parameter
that is required to be new; the clock is a parameter; a hash (client secrets, tokens, the S256
digest of a verifier) is a parameter holding the hash of what was presented; an answer of the
peer-connection library or of the network is a parameter that may be a failure. A channel's
log holds every frame ever sent into it. One handler, or one stretch of it between two awaits
where the call protocol is concerned, is one atomic step. Permission masks are sets of flags:
the program only combines 64-bit masks bit by bit, and `(p & !deny) | allow` is set difference
and union. A table is a map or set keyed by its primary key, and deleting a row takes the rows
that reference it along.

## Where the code and its documentation differ

The model follows the code.

- README.md:46-49 describes each override layer as `@everyone`, then roles, then member. In the
  code `@everyone` is also one of the member's roles, so what it allows survives a denial by an
  assigned role. `PermLaws.LayerExcess` and `PermLaws.DocumentedLayering` give the difference
  bit by bit and say exactly when there is none; `LayeringStory.LayeringDiffers` is a run of the
  routes that ends in one.
- README.md:49-50 says that hiding a category hides every channel nested inside. Only the direct
  parent is consulted: `PermLaws.HidesOneLevel`, `PermLaws.StaffCategory`.
- crates/userserver/src/call/ws.rs:338-346 takes up a link under whatever call id a channel server
  answers, without the check of ws.rs:245 that the call is not one of this server's own. When it
  is, the index and the manager disagree: `UserCallsIndex.ClaimedCallRun`, and exactly when:
  `UserCallsIndex.ReplayExact`, `UserCallsIndex.ClaimedCall`.
- crates/userserver/src/call/engine.rs:9-10 says that the forwarding rule extends to groups. It
  does for clients of at most two servers, and for no call of three: `AudioBridge.BridgeBound`,
  `AudioBridge.Echo`.
- crates/common/src/call/manager.rs:247 has no caller, and a mute frame is handed to `route`,
  which has no target for it: `UserCallsIndex.MuteHasNoEffect`.
- crates/userserver/src/oidc/clients.rs:102 takes closing slashes off the id of a client that publishes
  its own document, and crates/userserver/src/routes/oidc.rs:394 compares the code's client with the
  id as presented: under an id with a closing slash no code is ever redeemed,
  `OAuthRoutes.SlashedClient`.
- crates/common/src/discovery.rs:11-12 names a ceiling of 300 s, but the doubling stops at 240 s:
  `Discoveries.BackoffExact`.
- crates/channelserver/src/webui.rs:344-366 gives a date only for day counts from 0 on; below,
  it yields a day of January 1970 that is less than one: `Calendar.FmtDate`.
- crates/userserver/src/routes/oidc.rs:471-476 slices the text after a percent sign and accepts a
  plus sign in front of a single hex digit. On which texts it panics: `PercentCodec.DecodePanics`,
  `PercentCodec.TextPanics`, `PercentCodec.PercentPanics`; which pairs decode, and to what:
  `PercentCodec.PairDecodes`, `PercentCodec.PlusAsZero`.

## Model

| member | source | states |
|---|---|---|
| `CallRuns.RosterConvergence` | crates/common/src/call/manager.rs:143-189 | in every state any sequence of calls into a fresh manager reaches, the last roster in each attached channel is the call's current roster, exactly if nobody was muted and up to the muted lists otherwise |
| `CallRuns.ServersDistinct` | crates/common/src/call/manager.rs:143-158 | within a call the attached servers are pairwise distinct, and so are their channels |
| `CallRuns.ChannelsPrivate` | crates/common/src/call/manager.rs:143-158 | a channel belongs to one row of one call, in every reachable state |
| `CallRuns.RoomCorrespondence` | crates/common/src/call/manager.rs:102-121 | `rooms` and the room calls are inverse maps in every reachable state; a direct call that was ever joined is live exactly while somebody is attached |
| `CallRuns.RoomStable` | crates/common/src/call/manager.rs:101-121 | until its call is ended, asking for a room yields the same call, whatever else happens in between |
| `CallRuns.RoomsDistinct` | crates/common/src/call/manager.rs:101-121 | two paths never share a room |
| `CallRuns.EndedCallsSilent` | crates/common/src/call/manager.rs:221-230 | after a channel was sent the end of a call, no later frame in it mentions that call, and the call stays gone |
| `CallRuns.DeadSilent` | crates/common/src/call/manager.rs:203-230 | no run whatever sends any channel another frame about a call that is gone, however it went |
| `CallRuns.PointToPointDelivery` | crates/common/src/call/manager.rs:232-245 | over any run, the session descriptions and candidates in a channel are exactly those routed while it belonged to the row, in their call, of the server they are for, in order and unchanged; no other frame is ever routed |
| `CallRuns.RouteDelivers` | crates/common/src/call/manager.rs:232-245 | a session description or candidate for an attached server is appended to that server's channel, and nothing else changes |
| `CallRuns.RouteDrops` | crates/common/src/call/manager.rs:232-245 | one for a server that is not attached goes nowhere |
| `CallRuns.FrameFields` | crates/common/src/call/signal.rs:96-121 | constructor by constructor: which frames name a call, and that exactly session descriptions and candidates name a target, and which |
| `CallRuns.EditsRows` | crates/common/src/call/manager.rs:160-189 | adding, removing or muting a member edits the row of the named server in its place and no other |
| `CallRuns.RowEdits` | crates/common/src/call/manager.rs:180-261 | who is in an edited row and who is muted in it: added once, gone from both lists, muted exactly if asked |
| `CallRuns.StepLog` | crates/common/src/call/manager.rs:49-53 | for every operation, exactly which frames are appended to which channel, in which order |
| `CallRuns.TokenStable` | crates/common/src/call/manager.rs:94-99 | a token that verifies keeps verifying for as long as its call lives |
| `CallRuns.TokensVerify` | crates/common/src/call/manager.rs:78-99 | opening and minting make exactly one more server-token pair verify, and minting never replaces a token |
| `CallRuns.DeadStays` | crates/common/src/call/manager.rs:203-230 | a call that is gone never comes back |
| `CallRuns.NeverMuted` | crates/common/src/call/manager.rs:247-261 | without `set_muted` no muted list and no channel ever mentions a mute |
| `CallManagers.CallManager.Join` | crates/common/src/call/manager.rs:143-158 | replaces the row of the same server, tells the others before the row is added and everybody the new roster after; fails exactly on unknown calls |
| `CallManagers.CallManager.AddMember` | crates/common/src/call/manager.rs:162-176 | adds the member to the first row of the server at most once and announces it to everybody, whether or not the row exists |
| `CallManagers.CallManager.RemoveMember` | crates/common/src/call/manager.rs:180-189 | drops the member and its mute, announces the roster, and returns how many members remain |
| `CallManagers.CallManager.Leave` | crates/common/src/call/manager.rs:203-219 | removes the server's row, says so only if there was one, and drops a direct call that became empty while a room stays |
| `CallManagers.CallManager.End` | crates/common/src/call/manager.rs:222-230 | tells every participant, frees the room's path and forgets the call |
| `CallManagers.CallManager.Route` | crates/common/src/call/manager.rs:233-245 | hands a frame to the target server's channel and to nobody else; frames without a target go nowhere |
| `CallManagers.CallManager.SetMuted` | crates/common/src/call/manager.rs:247-261 | replaces the member's entry in the muted list and tells everybody |
| `CallManagers.CallManager.GetRoom` | crates/common/src/call/manager.rs:102-121 | returns the room of a path and makes one only if there is none |
| `CallManagers.CallManager.MintToken` | crates/common/src/call/manager.rs:95-99 | returns a token that verifies, and none exactly for unknown calls |
| `CallManagers.CallManager.VerifyToken` | crates/common/src/call/manager.rs:123-131 | accepts exactly the token stored for that call and server |
| `MeshFormation.MeshSafety` | crates/userserver/src/call/engine.rs:245-337 | under any interleaving of joins, dials, failures and deliveries with whatever else the manager does for this call's members and for other calls: of two servers at most one offers, at most once, and only the smaller domain; nobody dials itself; every answer follows an offer that was handled |
| `MeshFormation.MeshComplete` | crates/userserver/src/call/engine.rs:245-337 | once every frame is handled and if no connection failed, every two servers hold entries for each other after exactly one offer and one answer |
| `MeshProgress.MeshForms` | crates/userserver/src/call/engine.rs:245-337 | from every state a run without failed connections reaches, handling what is in flight is enough to reach a full mesh: a connection entry at both ends for every two attached servers |
| `MeshProgress.FallsSilent` | crates/userserver/src/call/engine.rs:245-337 | without new joins, roster changes or candidates the servers fall silent: no run of handling, in any order and with any outcomes, is longer than the work that was in flight |
| `MeshProgress.HandlingProgress` | crates/userserver/src/call/engine.rs:245-337 | every frame handled, peer dialled or frame forwarded leaves strictly less to do |
| `MeshFormation.PlayKeeps` | crates/userserver/src/call/engine.rs:288-337 | the invariant behind both, kept by every event |
| `MeshFormation.FrameArrives` | crates/userserver/src/call/ws.rs:122-136 | whatever a server submits, offer, answer or candidate, arrives unchanged in the channel of the server it is for and in no other |
| `MeshFormation.CandidateArrives` | crates/userserver/src/call/engine.rs:255-263 | a candidate found by a server with nothing else to submit is in the other server's channel one step later |
| `MeshSpec.LexTrichotomy` | crates/userserver/src/call/engine.rs:249-251 | of two different domains exactly one is smaller, so exactly one side may dial |
| `MeshSpec.LexFirstDifference` | crates/userserver/src/call/engine.rs:249-251 | the order is decided where the two domains first differ, by the smaller character or the end |
| `Engine.Session.OnRoster` | crates/userserver/src/call/engine.rs:245-286 | the roster loop dials exactly the larger servers without an entry whose connection came up, in roster order |
| `Engine.Session.OnMeshSignal` | crates/userserver/src/call/engine.rs:288-337 | an offer is answered and its sender entered, overwriting nothing else; answers and candidates change no entry |
| `Engine.WalkIsDials` | crates/userserver/src/call/engine.rs:245-286 | the roster loop does what the mesh theorems assume, peer by peer |
| `Engine.LexLessThan` | crates/userserver/src/call/engine.rs:249-251 | string comparison, character by character, is the lexicographic order |
| `Engine.SessionsFormTopology` | crates/userserver/src/call/engine.rs:191-233 | the browser and mesh connections that sessions build, each tagged with the full user id or the peer domain, are a topology as the forwarding theorems ask for: no two peers of a call share an origin key |
| `Engine.OriginsDistinct` | crates/userserver/src/call/engine.rs:191-224 | two browsers carry one origin key only if they are one user's on one server, and no browser carries a server's key |
| `Engine.WalkEffect` | crates/userserver/src/call/engine.rs:245-286 | a roster walk enters exactly the larger servers whose connection came up, and sends one offer to each that had no entry before and to nobody else |
| `Engine.WalkSubmits` | crates/userserver/src/call/engine.rs:262-285 | what a walk submits are the offers as they were built for the larger servers without an entry, behind what was submitted before |
| `Engine.RedialAfterTeardown` | crates/userserver/src/call/engine.rs:341-349 | a session that was torn down dials every larger server of the next roster anew, once, as if it had never been connected |
| `AudioBridge.ExactlyOnce` | crates/userserver/src/call/engine.rs:133-161 | with at most two servers, once the buses are empty every client has heard each packet exactly as often as it was spoken, and never its own |
| `AudioBridge.Conservation` | crates/userserver/src/call/engine.rs:133-161 | at every moment of every interleaving, heard plus still due equals spoken |
| `AudioBridge.Drains` | crates/userserver/src/call/engine.rs:133-161 | with at most two servers the forwarding always comes to an end |
| `AudioBridge.DeliverProgress` | crates/userserver/src/call/engine.rs:133-161 | with at most two servers every handled packet brings the end nearer: one relay at most |
| `AudioBridge.BridgeBound` | crates/userserver/src/call/engine.rs:7-10 | a spoken packet can ever leave the buses if and only if the call has at most two servers |
| `AudioBridge.NeverDrains` | crates/userserver/src/call/engine.rs:133-161 | with three servers or more a packet circulates for ever |
| `AudioBridge.Echo` | crates/userserver/src/call/engine.rs:133-161 | with three servers a client hears its own packet |
| `AudioBridge.WriteOut` | crates/userserver/src/call/engine.rs:133-144 | a peer's track gets, in order, every packet whose origin is not its own |
| `AudioBridge.TrackInOrder` | crates/userserver/src/call/engine.rs:133-144 | a track is the packets of other origins, each once, in the order of the bus |
| `AudioBridge.TracksAgree` | crates/userserver/src/call/engine.rs:133-144 | the tracks, one task each, carry what the counting of heard packets says |
| `UserCallsIndex.IndexAgreement` | crates/userserver/src/call/ws.rs:140-172 | in every run in which nobody else speaks for the calls managed here (links and ends under their ids, peers under this domain): each live call of this server has local members, and the manager's row for this server lists exactly their full ids |
| `UserCallsIndex.ReplayExact` | crates/userserver/src/call/ws.rs:140-300 | that condition is exact, over whole runs: the managed calls and the index agree at every point of a run, without a link to any of these calls, if and only if none of its events is one of the following about a call managed here: a link taken up, an end handled, a join under this domain with other members than the local ones, or a leave under this domain while other servers stay |
| `UserCallsIndex.HandleExact` | crates/userserver/src/call/ws.rs:140-300 | the same for one event |
| `UserCallsIndex.ClaimedCall` | crates/userserver/src/call/ws.rs:290-292 | a link under the id of a call managed here leaves the manager's row and the local members in agreement if and only if the user was in the call before |
| `UserCallsIndex.ClaimedCallRun` | crates/userserver/src/call/ws.rs:338-346 | there is such a run: a channel server answers `join_room` with the id of a call just started here, and the call lists a member the manager's row does not |
| `UserCallsIndex.IndexConsistent` | crates/userserver/src/call/mod.rs:134-173 | in every run, member lists are non-empty and duplicate-free, and a user's current call lists the user |
| `UserCallsIndex.HandleInv` | crates/userserver/src/call/ws.rs:364-383 | every handler keeps the index invariant, while nobody else speaks for the calls managed here |
| `UserCallsIndex.HandleRuns` | crates/userserver/src/call/ws.rs:122-136 | what a handler does to the manager is a legal sequence of manager operations without a mute, so every theorem about manager runs applies |
| `UserCallsIndex.MuteHasNoEffect` | crates/userserver/src/call/ws.rs:101-106 | muting never reaches anybody: in every run no roster and no channel ever shows it |
| `UserCallsEffects.PointerAfter` | crates/userserver/src/call/mod.rs:134-173 | for every event, which call every user is in afterwards: the one started, accepted or dialled last; a drain clears only pointers to the drained call |
| `UserCallsEffects.LocalAfter` | crates/userserver/src/call/mod.rs:134-173 | for every event, who is a local member of which call afterwards |
| `UserCallsEffects.InviteAfter` | crates/userserver/src/call/mod.rs:98-109 | for every event, which invites wait afterwards: accepting, rejecting or the end takes exactly that one away |
| `UserCallsEffects.LinkAfter` | crates/userserver/src/call/ws.rs:364-383 | for every event, which links stand afterwards: the last local member's leave drops the link, an earlier one does not |
| `UserCallsEffects.StartInvites` | crates/userserver/src/call/ws.rs:209-215 | a started call has exactly one token, for the callee's server, and this server's row with the caller's full id |
| `UserCallsEffects.SubmittedEffect` | crates/userserver/src/call/ws.rs:122-136 | a frame for our own manager: a hangup ends the call, a goodbye takes our row away, a signal is delivered, anything else does nothing |
| `UserCalls.CallState.EnsureLocalParticipant` | crates/userserver/src/call/ws.rs:140-172 | attaches this server with the user if it has no row, and otherwise adds the user to its row |
| `UserCalls.CallState.StartDirectCall` | crates/userserver/src/call/ws.rs:198-234 | refuses a caller who is in a call, a callee that is no full id and a caller without a profile, with the error of the first check that fails; otherwise opens, attaches and, if the invite cannot be sent, undoes the call |
| `UserCalls.CallState.AcceptCall` | crates/userserver/src/call/ws.rs:236-253 | takes the invite in any case, then attaches locally, dials out or does nothing |
| `UserCalls.CallState.LeaveCall` | crates/userserver/src/call/ws.rs:364-383 | drops one member while others remain; the last one leaves a room, ends a call, or says goodbye over the link |
| `UserCalls.CallState.OnCallEnd` | crates/userserver/src/call/ws.rs:477-494 | an end notice ends the call here, drops the link and forgets the user's membership |
| `UserCalls.CallState.SubmitToManager` | crates/userserver/src/call/ws.rs:122-136 | a frame for a call with a link goes over it unchanged; otherwise it is performed here |
| `UserCalls.CallState.PumpFrames` | crates/userserver/src/call/ws.rs:165-171 | the pump reads up to and including the end of the call and then clears its members |
| `UserCalls.CallState.DrainLocals` | crates/userserver/src/call/mod.rs:164-173 | clears the members of a call and exactly the pointers that still point to it |
| `UserCalls.CallState.RemoveLocal` | crates/userserver/src/call/mod.rs:142-151 | removes the user, drops an empty list, and returns how many remain |
| `UserCalls.CallState.AddLocal` | crates/userserver/src/call/mod.rs:134-140 | adds the user at most once |
| `UserCalls.RemoteFarewell` | crates/userserver/src/call/ws.rs:374-380 | leaving a remote call always says hang up, also for a room, because its kind is unknown here |
| `UserCalls.EndIsFinal` | crates/userserver/src/call/ws.rs:186-192 | when this server is told its call ended, its manager no longer has it |
| `PeerLoop.PeerSession` | crates/channelserver/src/call_ws.rs:35-76 | a whole connection, interleaved in any way with other users of the manager, performs exactly the operations its own input calls for, in order |
| `PeerLoop.OnFrame` | crates/userserver/src/call/ws.rs:425-441 | what one frame does, and whether the loop stops; the first join frame leaves the peer's row attached to a live call |
| `PeerLoop.ConnectionDoes` | crates/channelserver/src/call_ws.rs:48-76 | in every connection: the first join frame read, and no later one, attaches a row with the members it names under the proved server; exactly the session descriptions, candidates and mutes read are routed, in order; a hangup ends the call exactly on a user server |
| `PeerLoop.StaysAttached` | crates/channelserver/src/call_ws.rs:48-76 | once a join frame was read for a live call, the peer's row is attached for as long as the connection lasts and others leave the call alone |
| `PeerLoop.ConnectionShape` | crates/channelserver/src/call_ws.rs:48-76 | a connection attaches at most once, only under the server and call it proved a token for, never mutes, ends the call only on a user server, and always detaches last |
| `PeerLoop.ClosedDetaches` | crates/channelserver/src/call_ws.rs:73-76 | whatever the peer sent and others did in between, after a connection closed its server is not in the call |
| `PeerLoop.StaleCloseDetaches` | crates/channelserver/src/call_ws.rs:73-76 | closing an older connection also takes away the row of a newer one of the same server |
| `Perms.EffectiveOf` | crates/channelserver/src/perms.rs:28-112 | whatever order the rows are listed in, the result is the same function of the tables |
| `PermLaws.GuildFlag` | crates/channelserver/src/perms.rs:28-76 | flag by flag: the owner has every defined flag, a stranger none, a member those that some role of the member carries, and every one if some role carries ADMINISTRATOR |
| `PermLaws.ChannelFlag` | crates/channelserver/src/perms.rs:72-112 | flag by flag, in a channel: the member's own row decides before the roles' rows, an allowance before a denial, the channel before its parent, both before the roles; and nothing is had where viewing is not |
| `Perms.ApplyScope` | crates/channelserver/src/perms.rs:116-147 | for any order of the override rows, the three passes amount to the union of the member's role rows and then the member's row: the @everyone pass leaves no trace |
| `Perms.Absorb` | crates/channelserver/src/perms.rs:125-140 | whatever an earlier pass did inside the role rows is erased by the role pass |
| `PermLaws.LayerExcess` | crates/channelserver/src/perms.rs:114-147 | one layer is the documented @everyone, roles, member layering plus exactly the bits @everyone allows, an assigned role denies, no assigned role allows and the member row leaves alone |
| `PermLaws.ThroughExcess` | crates/channelserver/src/perms.rs:96-106 | through category and channel, the difference to the documented layering, bit for bit |
| `PermLaws.DocumentedLayering` | crates/channelserver/src/perms.rs:85-112 | nobody gets less than documented, and the result is the documented one if and only if the user is owner, stranger or administrator, the rows add no excess, or viewing is neither documented nor in the excess |
| `LayeringStory.LayeringDiffers` | crates/channelserver/src/perms.rs:114-147 | for every flag there is a run of the routes from empty tables after which a member has the flag on a channel and should not have it as documented |
| `PermLaws.RoleMonotone` | crates/channelserver/src/perms.rs:28-112 | a further role without rows on the channel or its parent never takes an effective bit away |
| `PermLaws.ViewGate` | crates/channelserver/src/perms.rs:108-111 | a channel result is nothing or includes viewing |
| `PermLaws.EffectiveWithinAll` | crates/channelserver/src/perms.rs:17-112 | no result has a bit outside the defined eleven |
| `PermLaws.InheritsParent` | crates/channelserver/src/perms.rs:88-106 | a channel without rows under a top-level parent has exactly its parent's permissions |
| `PermLaws.OneLevelOnly` | crates/channelserver/src/perms.rs:88-97 | only the rows of the channel and of its parent count |
| `PermLaws.HidesOneLevel` | crates/channelserver/src/perms.rs:85-97 | where only a category's rows say anything about viewing to a member, that member sees nothing of exactly the category and its direct children if its rows deny viewing to the member, and of no channel otherwise; never of one nested deeper |
| `PermLaws.StaffCategory` | crates/channelserver/src/perms.rs:85-97 | a category that denies viewing to @everyone and allows it to a staff role hides itself and its direct children from exactly the members without the role |
| `GuildLaws.ReachableGood` | crates/channelserver/src/routes/guilds.rs:29-88 | in every run of the routes the tables stay consistent: references, one @everyone role, masks, channel tree, invite counts |
| `GuildRoutes.RefusedExactly` | crates/channelserver/src/routes/roles.rs:40-138 | route by route, which flag is demanded: a request is refused exactly to callers who are not the owner and have no role with that flag or ADMINISTRATOR |
| `GuildRoutes.ChannelGuard` | crates/channelserver/src/perms.rs:23-25 | who gets through a guard on a channel: also the member whom a row there allows ADMINISTRATOR |
| `GuildRoutes.DoneExactly` | crates/channelserver/src/routes/channels.rs:60-199 | route by route, what else must be right: a request succeeds exactly if it is not refused and in order, and otherwise changes nothing |
| `GuildRoutes.FailureExactly` | crates/channelserver/src/routes/invites.rs:115-139 | when a request answers that something is missing, and when that an invite has run out |
| `GuildRoutes.PeopleTouched` | crates/channelserver/src/routes/members.rs:50-103 | which requests can change guilds, members and role assignments at all |
| `GuildRoutes.ServerStays` | crates/channelserver/src/routes/guilds.rs:29-45 | no request changes the server's name or who may make guilds |
| `GuildRoutes.ChannelsTouched` | crates/channelserver/src/routes/channels.rs:60-199 | which requests can change channels and override rows at all |
| `GuildRoutes.RolesTouched` | crates/channelserver/src/routes/roles.rs:40-138 | which requests can change roles and invites at all |
| `GuildRoutes.PatchedMask` | crates/channelserver/src/routes/roles.rs:82-117 | a changed role carries exactly the wanted, defined flags the caller may hand out; its guild and kind stay |
| `GuildRoutes.DeletedRoleOnly` | crates/channelserver/src/routes/roles.rs:119-138 | the deleted role is nobody's; every other role keeps its holders and its flags |
| `GuildRoutes.NewChannel` | crates/channelserver/src/routes/channels.rs:60-115 | a new channel hangs where it was asked for: its chain is its parent's and its own id, without override rows, and nothing else changes |
| `GuildRoutes.NewChannelBelow` | crates/channelserver/src/routes/channels.rs:75-108 | so it is a child of its parent and goes with every channel above |
| `GuildRoutes.NewGuildTables` | crates/channelserver/src/routes/guilds.rs:46-85 | a new guild: its owner is its one member, @everyone with the five default flags its one role, one text and one voice channel at the top |
| `GuildRoutes.NewInvite` | crates/channelserver/src/routes/invites.rs:36-66 | a new invite lets a stranger in until it expires, if it allows a use at all |
| `GuildRoutes.DeletedInvite` | crates/channelserver/src/routes/invites.rs:101-113 | exactly the named invite of the guild goes |
| `GuildRoutes.JoinedRoles` | crates/channelserver/src/routes/invites.rs:146-190 | who joins finds an @everyone role, repaired if it was missing, and has no other |
| `GuildLaws.OneEveryoneRole` | crates/channelserver/src/routes/roles.rs:119-138 | a live guild has one @everyone role and no second one |
| `GuildLaws.AuthorityClosure` | crates/channelserver/src/routes/roles.rs:40-117 | in a guild where no role carries ADMINISTRATOR, no run of requests by anybody but the owner adds a bit to the union of its role masks, and no member exceeds that union |
| `GuildLaws.ServeAuthority` | crates/channelserver/src/routes/roles.rs:46-48 | no single request of a caller without ADMINISTRATOR adds a bit to the union of the guild's role masks |
| `GuildLaws.OnlyAdministratorsExtend` | crates/channelserver/src/routes/roles.rs:46-48 | the condition is exact: a request for a role with every permission adds a bit if and only if the caller has ADMINISTRATOR, as the owner does |
| `GuildLaws.AcceptCounts` | crates/channelserver/src/routes/invites.rs:115-190 | joining takes exactly one use, works exactly for live, unexpired, unexhausted invites, and accepting again changes nothing |
| `GuildLaws.InviteUsesBounded` | crates/channelserver/src/routes/invites.rs:125-127 | in every run an invite is used at most as often as it allows |
| `GuildServers.GuildServer.CreateGuild` | crates/channelserver/src/routes/guilds.rs:29-88 | an allowed creator gets a guild with one @everyone role, membership and two default channels |
| `GuildServers.GuildServer.DeleteGuild` | crates/channelserver/src/routes/guilds.rs:184-194 | only the owner deletes a guild, and everything in it goes |
| `GuildServers.GuildServer.Detail` | crates/channelserver/src/routes/guilds.rs:109-159 | the listed channels are exactly the guild's channels the caller may view, each with the caller's permissions in it |
| `GuildServers.GuildServer.CreateRole` | crates/channelserver/src/routes/roles.rs:40-72 | a new role carries at most what the caller has, unless the caller is an administrator, and only defined bits |
| `GuildServers.GuildServer.PatchRole` | crates/channelserver/src/routes/roles.rs:82-117 | a changed mask obeys the same limit; the role must be of this guild |
| `GuildServers.GuildServer.DeleteRole` | crates/channelserver/src/routes/roles.rs:119-138 | @everyone cannot be deleted; any other role goes with its assignments |
| `GuildServers.GuildServer.PatchMember` | crates/channelserver/src/routes/members.rs:50-78 | replaces the role set by exactly the requested roles of this guild other than @everyone |
| `GuildServers.GuildServer.RemoveMember` | crates/channelserver/src/routes/members.rs:80-103 | oneself or with the right to kick, never the owner |
| `GuildServers.GuildServer.AcceptInvite` | crates/channelserver/src/routes/invites.rs:146-190 | checks, joins, repairs a missing @everyone role and counts the use, only for those who are not members |
| `GuildServers.GuildServer.CreateChannel` | crates/channelserver/src/routes/channels.rs:60-115 | a channel under a parent of the same guild, its path extending the parent's |
| `GuildServers.GuildServer.DeleteChannel` | crates/channelserver/src/routes/channels.rs:146-158 | removes the channel with everything below it, if it is in the named guild |
| `GuildServers.GuildServer.PutOverride` | crates/channelserver/src/routes/channels.rs:169-199 | stores the masked row, or removes it when nothing is left of it |
| `GuildServers.GuildServer.Cascade` | crates/channelserver/src/routes/channels.rs:152-156 | following child rows to the end finds exactly the channels below the roots |
| `GuildServers.GuildServer.VoiceToken` | crates/channelserver/src/routes/voice.rs:18-42 | only for voice channels one may connect to: the room of the channel's path and a token that verifies for the user's home server |
| `GuildServers.GuildServer.VoiceRoster` | crates/channelserver/src/routes/voice.rs:44-54 | for channels one may view, the current roster of the channel's room |
| `GuildServers.HomeOfFullId` | crates/channelserver/src/routes/voice.rs:30-40 | the token is minted for the domain of the user's full id |
| `GuildServers.RosterShows` | crates/channelserver/src/routes/voice.rs:44-54 | the shown roster is the room's rows, server by server |
| `ChannelForest.ChannelsHang` | crates/channelserver/src/routes/channels.rs:75-108 | in every run a channel's parent exists, is in the same guild, and its path is extended by the channel's id |
| `ChannelForest.PathSpellsChain` | crates/channelserver/src/routes/channels.rs:86-90 | a path is the server and guild followed by the ids from the root down |
| `ChannelForest.ChainDistinct` | crates/channelserver/src/routes/channels.rs:75-90 | the parent relation has no cycle and never leaves the guild |
| `ChannelForest.UnderIsChain` | crates/channelserver/src/routes/channels.rs:146-158 | being below a channel is having it in one's chain |
| `ChannelForest.DeleteExact` | crates/channelserver/src/routes/channels.rs:146-158 | a delete takes exactly the channels whose chain contains the deleted one, with their override rows, and leaves every other as it was |
| `ChannelForest.PathsInjective` | crates/channelserver/src/routes/channels.rs:86-90 | two channels never have the same path |
| `ChannelForest.RoomsNotShared` | crates/channelserver/src/routes/voice.rs:29 | whatever happened to guilds and calls, two live channels never share a call |
| `GuildEffects.NewRoleMask` | crates/channelserver/src/routes/roles.rs:46-67 | a new role carries exactly the wanted, defined flags the caller has, or all wanted ones if the caller is an administrator |
| `GuildEffects.PatchedRoles` | crates/channelserver/src/routes/members.rs:50-78 | afterwards the user holds exactly @everyone and the requested assignable roles, and nobody else's roles in any guild changed |
| `GuildEffects.DeletedRole` | crates/channelserver/src/routes/roles.rs:119-138 | the role is gone from everybody, and no guild permission was gained |
| `GuildEffects.RemovedMember` | crates/channelserver/src/routes/members.rs:80-103 | the removed user has no permission anywhere in the guild, and everybody else exactly what they had |
| `GuildEffects.RejoinStartsOver` | crates/channelserver/src/routes/members.rs:92-101 | who is removed and joins again by an invite has @everyone's permissions and no old role; on a channel, those of @everyone's rows and of the user's own rows, which were kept |
| `GuildEffects.OwnRowReturns` | crates/channelserver/src/perms.rs:141-146 | what a channel's member row allows is part of that channel result again, unless the channel stays hidden |
| `GuildEffects.NewGuildPermissions` | crates/channelserver/src/routes/guilds.rs:46-85 | in a new guild the creator may do everything, a stranger nothing, and a newcomer exactly the default permissions, also in both channels |
| `GuildEffects.DeletedGuild` | crates/channelserver/src/routes/guilds.rs:184-194 | no row of the guild is left and no row of another guild changed |
| `GuildEffects.StoredOverride` | crates/channelserver/src/routes/channels.rs:180-197 | a stored row is what is found afterwards, cut down to the defined flags, none is kept if nothing is left of it, and no other row changed |
| `GuildEffects.MemberDenied` | crates/channelserver/src/routes/channels.rs:169-199 | denying a member the view of a channel hides it from exactly that member, unless the member is the owner or an administrator |
| `OAuthLaws.CodeLifetime` | crates/userserver/src/oidc/tokens.rs:10 | in any run a code yields tokens only before its expiry |
| `OAuthLaws.CodesLiveAMinute` | crates/userserver/src/oidc/tokens.rs:36-54 | both ways of issuing a code give it an expiry 60 s away |
| `OAuthLaws.CodeSingleUse` | crates/userserver/src/oidc/tokens.rs:57-72 | in any run, whoever presents it however often, a code yields at most one token set (section 4.1.2 of RFC 6749) |
| `OAuthLaws.ExchangeBurns` | crates/userserver/src/routes/oidc.rs:385-419 | an authenticated attempt uses the code up also when it fails; tokens come exactly for the code's client and redirect, an existing user and the answered challenge (by digest for S256, literally for any other kind, none only for confidential clients), and carry the code's user and scope |
| `OAuthLaws.RefreshChain` | crates/userserver/src/oidc/tokens.rs:150-181 | the refresh tokens descending from a code have at most one unrevoked among them, speak for one client, user and scope, and stand, if the client is public, on a verifier whose digest, or which itself for any kind but S256, is the challenge (section 6 of RFC 6749, section 4.6 of RFC 7636) |
| `OAuthLaws.RefreshRooted` | crates/userserver/src/oidc/tokens.rs:121-181 | every refresh token descends from exactly one code |
| `OAuthLaws.RevokedStays` | crates/userserver/src/oidc/tokens.rs:156-170 | a spent or revoked refresh token never works again |
| `OAuthLaws.RotationSpends` | crates/userserver/src/oidc/tokens.rs:150-181 | a rotation revokes the presented token, hands out one for the same parties and scope, and touches no other |
| `OAuthRoutes.CodeWorks` | crates/userserver/src/routes/oidc.rs:385-419 | an issued code yields tokens exactly to a client of the name it was issued to, within the minute, with the redirect it was asked for and the answer to its challenge, while the user exists; they are the agreeing user's, for the agreed scope |
| `OAuthRoutes.ExchangeExactly` | crates/userserver/src/routes/oidc.rs:367-419 | which answer an exchange gets: tokens exactly for a known client with the right secret and a live code it earns |
| `OAuthRoutes.RefreshExactly` | crates/userserver/src/oidc/tokens.rs:150-181 | which answer a refresh gets: tokens exactly for a known client with the right secret and a live refresh token of its own whose user exists |
| `OAuthRoutes.RefreshedTokens` | crates/userserver/src/oidc/tokens.rs:121-181 | the token table after a refresh, row for row |
| `OAuthRoutes.GrantRecords` | crates/userserver/src/routes/oidc.rs:385-419 | what the chain theorem calls a grant is what was presented at the exchange |
| `OAuthRoutes.AuthenticatedExactly` | crates/userserver/src/routes/oidc.rs:367-384 | a client gets past the token endpoint exactly if it is registered and not disabled, or publishes a document, and showed its secret if it has one |
| `OAuthRoutes.GetExactly` | crates/userserver/src/routes/oidc.rs:165-226 | which answer the authorization request gets, and exactly when |
| `OAuthRoutes.PostExactly` | crates/userserver/src/routes/oidc.rs:302-353 | the form yields a code exactly if client, redirect, session, form token and decision are right |
| `OAuthRoutes.CodeRow` | crates/userserver/src/oidc/tokens.rs:25-55 | a new code bears the client's name, the user, the redirect, the narrowed scope and the challenge of the request, and no other code changes |
| `OAuthRoutes.SlashedClient` | crates/userserver/src/oidc/clients.rs:101-154 | a client that publishes its document under an id closed by a slash never redeems a code under that id |
| `OAuthRoutes.Trimmed` | crates/userserver/src/oidc/clients.rs:102 | the name is the id without exactly its closing slashes |
| `OAuthRoutes.DisabledClient` | crates/userserver/src/oidc/clients.rs:62-79 | a disabled client gets neither page, code nor tokens; other clients are unchanged |
| `OAuthRoutes.RevokedToken` | crates/userserver/src/oidc/tokens.rs:201-207 | revoking marks exactly the presented token |
| `OAuthRoutes.RemovedClient` | crates/userserver/src/routes/admin.rs:142-157 | exactly the removed client's tokens, codes and consents go with it |
| `OAuthLaws.ServeGood` | crates/userserver/src/oidc/tokens.rs:57-207 | every request keeps the invariant behind the chain theorems |
| `OAuthLaws.ConsentIsLastApproval` | crates/userserver/src/routes/oidc.rs:340-350 | the consents table holds each user's last approval for each client |
| `OAuthLaws.SkippedConsentCovered` | crates/userserver/src/routes/oidc.rs:203-209 | a code issued without the consent page asks for nothing beyond what the user last approved for that client |
| `OAuthLaws.PageScopeIsStored` | crates/userserver/src/routes/oidc.rs:211-226 | the scope on the consent page is the scope the posted form stores |
| `OAuthLaws.PageDemandsChallenge` | crates/userserver/src/routes/oidc.rs:186-191 | whoever gets past the authorization request has an allowed redirect, and a public client an S256 challenge |
| `OAuthLaws.PostTakesAnyChallenge` | crates/userserver/src/routes/oidc.rs:302-352 | the posted form is not checked again for a challenge or its method; a public client still gets no tokens without one |
| `OAuth.OAuthProvider.AuthorizeGet` | crates/userserver/src/routes/oidc.rs:165-226 | the checks in their order, then login, a code, or the consent page |
| `OAuth.OAuthProvider.AuthorizePost` | crates/userserver/src/routes/oidc.rs:302-353 | stores the approval and issues a code, after the redirect, session, form token and decision checks |
| `OAuth.OAuthProvider.HasConsent` | crates/userserver/src/routes/oidc.rs:256-269 | true exactly if every word of the scope was granted before |
| `OAuth.OAuthProvider.ConsumeCode` | crates/userserver/src/oidc/tokens.rs:57-72 | returns a row exactly for a known, unused, unexpired code and marks it used |
| `OAuth.OAuthProvider.ExchangeCode` | crates/userserver/src/routes/oidc.rs:386-419 | client check, consumption, match, proof, user, tokens, in this order |
| `OAuth.OAuthProvider.RotateRefresh` | crates/userserver/src/oidc/tokens.rs:150-181 | revokes before it looks for the user, then issues |
| `OAuth.OAuthProvider.RemoveClient` | crates/userserver/src/routes/admin.rs:142-157 | a removed client takes its tokens, codes and consents along |
| `Scopes.ConsentPageAgrees` | crates/userserver/src/routes/oidc.rs:152-163 | narrowing a scope is idempotent through its text form |
| `Scopes.EffectiveScopeMember` | crates/userserver/src/routes/oidc.rs:152-163 | a narrowed scope grants openid and beyond that exactly the requested words that are known and allowed |
| `Scopes.NarrowedTwice` | crates/userserver/src/routes/oidc.rs:152-163 | the same idempotence on word lists, including the inserted openid and the dropped repeats |
| `Scopes.JoinSplits` | crates/userserver/src/routes/oidc.rs:152-163 | splitting joined words at whitespace gives the words back |
| `Scopes.NarrowScope` | crates/userserver/src/routes/oidc.rs:152-163 | the filter, insert, dedup and join loops compute the narrowed scope |
| `Scopes.SplitWhitespace` | crates/userserver/src/routes/oidc.rs:153-156 | the splitting loop |
| `PercentCodec.TextRoundTrip` | crates/userserver/src/routes/oidc.rs:141-150 | encoding and decoding gives the same text back exactly for byte strings that are UTF-8, as every string is |
| `PercentCodec.RoundTrip` | crates/userserver/src/routes/oidc.rs:141-150 | decoding an encoded byte string gives it back, with '+' and with %20 for spaces |
| `PercentCodec.EncodeShape` | crates/channelserver/src/webui.rs:73-80 | encodings are ASCII, at most three times as long, contain no reserved character but '%' and '+' (sections 2.1 and 2.3 of RFC 3986), and differ for different strings |
| `PercentCodec.DecodePanics` | crates/userserver/src/routes/oidc.rs:465-491 | decoding fails, where the program would panic, if and only if some '%' is followed by two characters that end inside a multi-byte character; never on ASCII |
| `PercentCodec.PercentDecode` | crates/userserver/src/routes/oidc.rs:465-491 | the index loop and the lossy conversion compute the decoded text, which is always UTF-8 |
| `PercentCodec.LossyExact` | crates/userserver/src/routes/oidc.rs:490 | the lossy conversion always yields UTF-8 (section 4 of RFC 3629) and leaves bytes alone exactly if they were UTF-8 |
| `PercentCodec.TextPanics` | crates/userserver/src/routes/oidc.rs:465-491 | any text panics that has a percent sign, an ASCII character and a longer character side by side, wherever it has them |
| `PercentCodec.PercentPanics` | crates/userserver/src/routes/oidc.rs:465-491 | a shortest such text: a percent sign, the letter a, an e with an acute accent |
| `PercentCodec.PairDecodes` | crates/userserver/src/routes/oidc.rs:471-476 | two characters decode to a byte if and only if they are its two hex digits, or a plus sign and the digit of a byte below 16 |
| `PercentCodec.PlusAsZero` | crates/userserver/src/routes/oidc.rs:471-476 | a plus sign before a hex digit decodes as a zero would, wherever it stands |
| `Calendar.FmtDate` | crates/channelserver/src/webui.rs:344-366 | the loops end within the month table and give, for every count from 0 on, the valid date whose closed-form number it is; the result is a valid date if and only if the count is not negative |
| `Calendar.DayNumberOrders` | crates/channelserver/src/webui.rs:344-366 | closed-form day numbers order valid dates as the calendar does, so the conversion is injective and strictly increasing |
| `Calendar.YearStep` | crates/channelserver/src/webui.rs:350-356 | the closed form agrees with the leap rule year by year |
| `Discoveries.RateBound` | crates/common/src/discovery.rs:77-128 | in any sequential run two network lookups of one key are at least 15 s apart, end to start |
| `Discoveries.ExactWait` | crates/common/src/discovery.rs:54-92 | a call reaches the network if and only if the key was never looked up, 60 s after a success, or 15*2^(min(k,5)-1) s after k failures in a row, at most 240 s |
| `Discoveries.AnswersExactly` | crates/common/src/discovery.rs:77-128 | what a call answers: within 60 s of a success that document, nothing while the key backs off, and otherwise what the network says, recorded as one lookup |
| `Discoveries.DocumentsRecent` | crates/common/src/discovery.rs:80-84 | a returned document was fetched by this call or less than 60 s before it |
| `Discoveries.BackoffExact` | crates/common/src/discovery.rs:61-65 | the back-off after k strikes, with no overflowing shift; its ceiling is never reached |
| `Discoveries.Discovery.Discover` | crates/common/src/discovery.rs:78-128 | cache, back-off window, lookup, in this order, with their effects on both maps |
| `Discoveries.Discovery.NoteFailure` | crates/common/src/discovery.rs:55-75 | one more strike, and the doubling loop yields the back-off |

## Left out

- WebRTC: peer connections, session descriptions, candidates, codecs and bus lag are answers of a library; what is modelled is who offers, who answers and which origin key a packet carries.
- WebSocket and HTTP plumbing, cookies, JSON, SQL text, database errors.
- Interleavings inside a handler: two exchanges of one code, or two uses of one invite, that both read before either writes are not modelled; the provider's and the guild's handlers are atomic here.
- Leaving and rejoining during mesh formation: entries of the mesh map are only dropped when the session ends, so the mesh theorems are about runs without leaves.
- A second local user who dials the same remote manager: its join replaces the server's row there, so index agreement is about calls managed here.
- GuildServers.GuildServer.DeleteChannel: requires the channel-tree invariant, which every run of the routes keeps (GuildLaws.ReachableGood); so do DeleteGuild and Cascade.
- UserCallsIndex.IndexAgreement: assumes that nobody else speaks for the calls managed here, which `join_room` does not check of the ids it is given; the condition is exact by UserCallsIndex.ReplayExact.
- UserCallsIndex.HandleInv: the one-event form, under the simpler sufficient condition that no link and no end names such a call and no peer uses this domain; UserCallsIndex.HandleExact has the exact one.
- The browser tab registry and the fan-out of frames to tabs.
- Names, topics, colours, icons, positions and nicknames, and the routes that change nothing else (guild and channel patch); a name only enters as empty or not.
- Whether a redirect, a client document or a URL is well formed: the published redirect URIs of an unregistered client are a parameter.
- ID tokens, userinfo claims, user deletion, client registration details.
- OAuth.OAuthProvider.AuthorizePost: the form token is a parameter that is right or wrong; the hash behind it is not modelled.
- Calendar.FmtDate: starts at the day count and ends at the three numbers; the division of a floating-point instant and the padding of the text are not modelled.
- Discoveries.RateBound: concurrent calls for one key may look it up at the same time; the theorem is about calls that follow one another.
- Endpoint URLs built from a discovery document, messages, webhooks, uploads, notifications, modules, configuration and all pages: input and output, or one branch.
