# Verified model of the book-club backend

This project models the parts of the backend that are state machines or step protocols, and proves what they
keep over every run. Values, query semantics and state transitions are datatypes and functions; what the program
updates in place is a class whose methods are proved to do exactly what those functions say; the promises are
lemmas about the functions, over sequences of requests, frames or events of any length.

| module | what it models |
|---|---|
| `ClubModel`, `ClubService`, `ClubEffects` | one club's membership, join-request and ban rows; the services as whole requests; what each answers and changes |
| `ClubConcurrency` | the same services statement by statement, any number in flight, under the lock on the club row |
| `ChatFlood` | the flood limiter: bounded deque, Redis fixed window, circuit breaker |
| `ChatConnections` | the socket registry and presence |
| `ChatAccess`, `ChatAccessEffects`, `ChatEventAccess` | which users hold sockets of which rooms as rows change, with whole requests as steps |
| `ChatHandshake` | the socket handshake read by read, interleaved with those requests |
| `SocketHandler` | the receive loop of one socket and its cached ban answer |
| `OAuthHandoff`, `OAuthFlows` | start, callback and exchange as steps on Redis keys, with PKCE (sections 4.2 and 4.6 of RFC 7636) |
| `MessagePages` | keyset pagination of a room's messages, on a fixed and on a changing table |
| `EventChatLifecycle` | the daily countdown in event rooms and the deletion of expired ones |
| `BookVoting`, `BookVotingService`, `BookVotingEffects` | voting rounds, options and votes; the services as whole requests; what each answers and changes |
| `BookVotingConcurrency`, `BookVotingLead`, `BookVotingWinner` | the same services statement by statement, any number in flight: rows and results, votes, and who leads |
| `CspRoute`, `CspNames`, `CspReports`, `CspEffects`, `CspReportStore` | normalisation of browser reports, the hourly budget and the counted table |
| `RoomDedup` | the migration that merges rooms of the same club and name |
| `BookCache` | the bounded cache of book lookups |

## Results about the code that a reader may not expect

- An approval and a rejection of one join request can both commit, and leave a member whose request reads
  rejected (`ClubConcurrency.RacingDecisionsDisagree`). Membership and request rows stay in agreement all through an
  interleaving exactly when no rejection commits, and no join makes a request pending, for someone who is a member by
  then (`ClubConcurrency.AgreementOverRuns`).
- With requests run one at a time, exactly those who were members once, are none now and have no active ban are told
  "member" on asking to join and stay out, whether they left, were removed, or were banned and unbanned
  (`ClubModel.ToldMemberWithoutRow`).
- The Redis key of the flood limiter lives for the whole seconds of the window. The bound of 2 * (max - 1) frames in
  any span shorter than the window holds exactly when the window is a whole number of seconds, or max is 1, or max is
  2 and the window is at least one second (`ChatFlood.RedisBoundExactly`).
- Sockets of event rooms can outlive the right to use the room. With whole requests this happens exactly when someone
  holding one is made a plain member without attending, or cancels the attendance while holding one in a second room of
  the event (`ChatEventAccess.AccessOutlivedExactly`). With handshakes interleaved there is one more way, for every room:
  a handshake that connects after what it has read has changed (`ChatHandshake.AdmissionBreaksExactly`).
- With requests run one at a time, the votes of a closed round change only by taking votes back, and a winner that leads
  stops leading exactly when a vote for it is taken back while another option has as many (`BookVoting.ClosedVotesChange`,
  `BookVoting.WinnerStopsLeading`, with a reachable case in `BookVoting.WinnerNeedNotLead`).
- The voting services take no lock, and with requests in flight more happens:
  - a vote that has read the round open commits into the closed round (`BookVotingWinner.VoteLandsInClosed`); a round's
    votes change exactly when a vote of it commits, or a withdrawal whose vote is still there
    (`BookVotingLead.VotesChangeExactly`);
  - a round closes on an option that does not have the most votes (`BookVotingWinner.LateVoteUnseats`); what a close picks
    leads when it has counted, and goes on leading, exactly under the conditions of `BookVotingWinner.PickedExactly` and
    `BookVotingWinner.LeadOverRuns`;
  - of two closes the later commit replaces the winner (`BookVotingConcurrency.CloseRacesClose`), exactly as
    `BookVotingConcurrency.ResultOverRuns` says;
  - a removal deletes the option a close has made winner (`BookVotingConcurrency.RemoveRacesClose`), exactly as
    `BookVotingConcurrency.WinnersOverRuns` says.
- Replacing UUIDs in a path can make a new UUID, because the `d` of `:id` is a hexadecimal digit;
  `CspRoute.LeavesNoUuid` says for which paths. The route is idempotent all the same.
- A call in between refills a used-up report budget exactly when the clock dates it into another hour
  (`CspReports.SteppingClockRefills`).
- The room migration fails as a whole exactly when a room ban points at a room it would delete
  (`RoomDedup.ChatTables.Upgrade`).
- When two lookups miss the same key and the second one stores into a full cache of live entries, the first entry is
  dropped although no room was needed (`BookCache.RefreshDropsOldest`).

## Assumptions

- PostgreSQL under READ COMMITTED: a statement sees the rows committed before it starts, a locked read re-reads the
  row after waiting, and a unique or foreign key that fails rolls its transaction back.
- In `ClubConcurrency` and `BookVotingConcurrency` a statement is atomic, ids handed out are fresh, requests arrive and fail at any moment, and a
  request never has to make progress. An approval's or a join's insert waits while another request holds the lock on
  the club row, because the inserted row references it.
- In `ClubModel` and `BookVoting` requests run one at a time; what holds under interleaving is in `ClubConcurrency`, and
  in `BookVotingConcurrency`, `BookVotingLead` and `BookVotingWinner`.
- In `OAuthHandoff` S256 is an arbitrary function, the provider's answer is an arbitrary session, identifiers handed
  out are fresh, a failing SET stores nothing, and a failing GETDEL of a flow answers like a missing cookie.
- In `ChatFlood` the breaker result assumes that the call timeout ends a Redis call before the backoff has passed and
  that the clock does not run backwards; the counter's keys vanish only by expiry.
- In `ChatAccess` and `ChatEventAccess` each request runs as one step and its kicks do not fail; socket, room and ban ids
  are fresh, and an event belongs to one club. In `ChatHandshake` handshakes are interleaved with such requests.
- In `SocketHandler` the frames' times, as the ban check reads them, do not go back in `SteadyBanDecides`.
- In `EventChatLifecycle` the database stamps a message no earlier than the time the pass started with, and passes
  come at non-decreasing times.
- Sockets are identities, and the user id the code stores on a socket is the registry's `userOf` map.
- In `CspReports` URL splitting, the regular expressions over samples, stripping and lower-casing are arbitrary
  functions; the digits outside ASCII that `\d` matches are an arbitrary set of characters above code point 127.

## Model

| member | source | states |
|---|---|---|
| `ClubModel.GuardMeansAuthorized` | app/services/club_service.py:523-580 | a guarded change that passes its checks is made by an organizer, or is the leaver's own, and touches another organizer only for the owner |
| `ClubModel.WriteKeepsOrganizer` | app/services/club_service.py:541-583 | a change that passes its checks leaves an organizer, without assuming that the owner has a membership row |
| `ClubModel.WriteKeepsConsistent` | app/services/club_service.py:587-652 | removals, bans and role changes keep owner, membership and request rows in agreement |
| `ClubModel.CallKeepsConsistent` | app/services/club_service.py:331-396 | so does every other whole request |
| `ClubModel.SequentialRunsAreConsistent` | app/services/club_service.py:426-484 | in every run of whole requests the owner is an organizer, other members have an approved request, pending or rejected users are no members, and pending means undecided |
| `ClubModel.NewClubRunsAreConsistent` | app/services/club_service.py:283-328 | the same from the rows a new club starts with |
| `ClubModel.ApprovedOnceMember` | app/services/club_service.py:426-463 | in every run of whole requests, the request of anyone but the owner is approved exactly when the user has had a membership row or it was approved before |
| `ClubModel.ToldMemberWithoutRow` | app/services/club_service.py:331-396 | in every run of whole requests, exactly the unbanned former members are answered "member" on asking to join and get no row |
| `ClubEffects.LeaveAnswers` | app/services/club_service.py:264-280 | when leaving is refused, and with which answer: the owner, a non-member, the only organizer |
| `ClubEffects.RemoveAnswers` | app/services/club_service.py:556-584 | when a removal is refused, and with which answer, in both directions |
| `ClubEffects.BanAnswers` | app/services/club_service.py:587-652 | when a club ban is refused, and with which answer, in both directions; an existing ban row of any age is one of the reasons |
| `ClubEffects.RoleAnswers` | app/services/club_service.py:675-705 | when a change of role is refused or does nothing, and with which answer, in both directions |
| `ClubEffects.RefusedChangesNothing` | app/services/club_service.py:541-705 | a guarded request that is not done leaves every row as it was |
| `ClubEffects.LeaveEffect` | app/services/club_service.py:264-280 | leaving takes exactly the leaver's membership and attendance at the club's future events |
| `ClubEffects.RemoveEffect` | app/services/club_service.py:556-584 | a removal takes exactly the target's |
| `ClubEffects.BanEffect` | app/services/club_service.py:610-652 | a club ban does the same and leaves a ban row that says who banned and ends one, three or five days of seconds later, or never |
| `ClubEffects.BanTurnsAway` | app/repositories/club.py:78-89 | the banned user is refused to join for exactly the seconds of the ban |
| `ClubEffects.RoleEffect` | app/services/club_service.py:675-705 | a change of role gives the target exactly that role and changes no other row |
| `ClubEffects.JoinAnswers` | app/services/club_service.py:331-396 | which answer a join request gets, in both directions; only one that becomes pending changes anything |
| `ClubEffects.JoinEffect` | app/services/club_service.py:373-396 | it becomes pending without a decision, from its source, and no other row changes |
| `ClubEffects.DecisionAnswers` | app/services/club_service.py:426-484 | only organizers decide, only pending requests are decided, and refusals change nothing |
| `ClubEffects.DecisionEffect` | app/services/club_service.py:426-484 | what approval and rejection write: status, decider, time and, for approval, a plain membership unless there is one |
| `ClubEffects.UnbanEffect` | app/services/club_service.py:655-672 | an organizer lifts a ban that is there, and from then on the user is not banned |
| `ClubConcurrency.HolderUndisturbed` | app/services/club_service.py:507-547 | what the lock holder has read stays true while join requests are made and decided without the lock |
| `ClubConcurrency.ExecKeepsInv` | app/services/club_service.py:523-547 | in every interleaving at most one request is past the lock, and its local reads agree with the committed rows until it commits |
| `ClubConcurrency.ActionIsAccounted` | app/services/club_service.py:556-652 | any change of committed rows is a deletion by the owner, a guarded change that passes every check against those rows, or a join request made or decided |
| `ClubConcurrency.LastOrganizerKept` | app/services/club_service.py:541-583 | a club with an organizer keeps one until it is deleted, in every interleaving |
| `ClubConcurrency.NoStaleAuthority` | app/services/club_service.py:523-553 | whoever removes, bans or changes a member is authorized by the rows committed just before, even when demoted while waiting |
| `ClubConcurrency.GrowthAndDeletion` | app/routers/clubs.py:179-189 | only the owner deletes a club, and a membership row appears only by approval of that user |
| `ClubConcurrency.CommitStep` | app/services/club_service.py:587-652 | a commit under the lock ends the request, frees the lock, and has exactly the rows and answer of the whole service at that instant |
| `ClubConcurrency.CommitIsAtomic` | app/services/club_service.py:675-705 | the same at every commit of every interleaving: the lock protocol refines the atomic services |
| `ClubConcurrency.SoloMutationIsService` | app/services/club_service.py:264-280 | a request that meets nobody else ends as the whole service, by its own statements |
| `ClubConcurrency.SoloDecisionIsService` | app/services/club_service.py:426-484 | so does an approval or rejection |
| `ClubConcurrency.SoloJoinIsService` | app/services/club_service.py:331-396 | so does a join request |
| `ClubConcurrency.SoloDeletion` | app/routers/clubs.py:179-189 | a deletion that meets nobody deletes the club exactly for its owner |
| `ClubConcurrency.ApprovalSurvivesRace` | app/services/club_service.py:443-461 | an approval whose insert meets a membership row that came meanwhile still approves the request and changes no membership |
| `ClubConcurrency.RacingDecisionsDisagree` | app/services/club_service.py:426-484 | from any pending request there is an interleaving after which the user is a member and the request rejected |
| `ClubConcurrency.AgreementBreaksExactly` | app/services/club_service.py:331-484 | one statement breaks the agreement of membership and request rows exactly when it rejects a member or makes a member's request pending |
| `ClubConcurrency.AgreementOverRuns` | app/services/club_service.py:331-484 | the rows agree all through an interleaving exactly when it has no such statement |
| `ClubService.ClubDatabase.RemoveMember` | app/repositories/club.py:100-109 | the user is no member, all other memberships stay, and attendance stays except the user's own at the club's future events |
| `ClubService.ClubDatabase.Leave` | app/services/club_service.py:264-280 | the owner, non-members and the last organizer are refused with nothing changed; otherwise row and future attendance go; an organizer remains and rows agree |
| `ClubService.ClubDatabase.Remove` | app/services/club_service.py:556-584 | the refusals in the code's order; otherwise exactly the target's row and future attendance go; an organizer remains and rows agree |
| `ClubService.ClubDatabase.BanMember` | app/services/club_service.py:587-652 | as removal, plus the ban row with its expiry; an existing ban row, even an expired one, rolls everything back; an organizer remains and rows agree |
| `ClubService.ClubDatabase.ChangeRole` | app/services/club_service.py:675-705 | only the owner demotes another organizer, the last organizer is never demoted; otherwise exactly that role changes; rows agree |
| `ClubService.ClubDatabase.RequestToJoin` | app/services/club_service.py:331-396 | banned users and members are turned away, an approved request answers "member", a rejected one becomes pending again; rows agree |
| `ClubService.ClubDatabase.ApproveRequest` | app/services/club_service.py:426-463 | only a pending request is approved, by an organizer, and adds a plain member row exactly when there is none; rows agree |
| `ClubService.ClubDatabase.RejectRequest` | app/services/club_service.py:466-484 | only a pending request is rejected, by an organizer, and no membership changes; rows agree |
| `ClubService.ClubDatabase.UnbanUser` | app/services/club_service.py:655-672 | the ban row goes and nothing else; rows agree |
| `ChatFlood.DequeAgreesWithLog` | app/services/chat_flood.py:61-67 | the check on the bounded deque is the check on the unbounded log |
| `ChatFlood.ArrivalChecked` | app/services/chat_flood.py:61-67 | appending a frame keeps the deque the tail of the log and decides the frame as the log does |
| `ChatFlood.RecentCounts` | app/services/chat_flood.py:61-67 | what the log is checked for is the number of its frames younger than the window |
| `ChatFlood.WindowBound` | app/services/chat_flood.py:45-67 | within one connection epoch a span shorter than the window admits at most max - 1 frames |
| `ChatFlood.Incr` | app/services/chat_flood.py:30-34 | after the script the key has an expiry whatever it looked like before; a new key starts at one, and a live key with an expiry keeps it |
| `ChatFlood.RedisBound` | app/services/chat_flood.py:77-82 | a span shorter than the key's lifetime admits at most 2 * (max - 1) frames, from any state of the key |
| `ChatFlood.FractionalWindowExceeds` | app/services/chat_flood.py:77-82 | for every window above one second that is no whole number and every max from 3 on, a run admits more than 2 * (max - 1) frames in a span shorter than the window |
| `ChatFlood.TwoFirsts` | app/services/chat_flood.py:30-34 | with max 2, a span shorter than two lifetimes of the key admits at most two frames |
| `ChatFlood.RedisBoundExactly` | app/services/chat_flood.py:77-82 | for which windows and limits the bound holds for every span shorter than the window, both ways |
| `ChatFlood.EventKeepsBreakerInv` | app/services/chat_flood.py:69-82 | arming before the await keeps the breaker invariant for any caller and any reply |
| `ChatFlood.BreakerHolds` | app/services/chat_flood.py:69-82 | at most one Redis call is in flight, and after a failed call starts the next starts at least 30 seconds later |
| `ChatFlood.FrameCallsExactly` | app/services/chat_flood.py:69-82 | in every state of such a run a frame calls Redis exactly when no call is in flight and the last did not fail less than 30 seconds after its start |
| `ChatFlood.ReplyReopens` | app/services/chat_flood.py:79-82 | after a reply that is no failure the very next frame calls Redis, after a failure it does not |
| `ChatFlood.ChatFloodLimiter.Acquire` | app/services/chat_flood.py:45-49 | one more reference, and an empty log for a first one |
| `ChatFlood.ChatFloodLimiter.Release` | app/services/chat_flood.py:51-59 | one reference fewer, and the last one drops counter and deque |
| `ChatFlood.ChatFloodLimiter.LocalLimited` | app/services/chat_flood.py:61-67 | the frame is logged, and is limited exactly as the window bound counts it on the unbounded log |
| `ChatFlood.ChatFloodLimiter.IsLimited` | app/services/chat_flood.py:84-92 | limited exactly when the deque is full of young frames or a Redis call that was made counts too many; a call that fails leaves the breaker armed for 30 seconds, any other disarms it |
| `ChatConnections.ConnectKeepsInv` | app/services/chat_connections.py:38-41 | connecting keeps lists and presence in agreement |
| `ChatConnections.DisconnectKeepsInv` | app/services/chat_connections.py:43-56 | disconnecting keeps lists and presence in agreement and leaves no empty room |
| `ChatConnections.ConnectEffect` | app/services/chat_connections.py:38-41 | connecting puts the socket at the end of its room's list and its user among those present, and changes nothing else |
| `ChatConnections.DisconnectEffect` | app/services/chat_connections.py:43-56 | disconnecting takes the socket out of its place; its user stays present exactly when another of the user's sockets is there; nothing else changes |
| `ChatConnections.PresenceIsExact` | app/services/chat_connections.py:32-91 | in every run of connects, disconnects, kicks and broadcasts with failing sockets, presence is exactly the users of registered sockets |
| `ChatConnections.NoEmptyRoom` | app/services/chat_connections.py:43-56 | after a disconnect neither map holds an empty room |
| `ChatConnections.DisconnectTwice` | app/services/chat_connections.py:43-56 | a second disconnect of a socket changes nothing |
| `ChatConnections.DisconnectUndoesConnect` | app/services/chat_connections.py:38-56 | disconnecting right after connecting restores the lists, and presence exactly when the user id is not empty |
| `ChatConnections.OfflineNoticeIsExact` | app/routers/chat.py:316-324 | the offline notice is sent exactly when the user is absent from presence after the disconnect |
| `ChatConnections.CloseAllLeaves` | app/services/chat_connections.py:73-87 | closing a room or kicking a user, over a copy of the list, removes exactly the sockets concerned |
| `ChatConnections.KickAllLeaves` | app/services/chat_connections.py:97-111 | closing in several rooms removes exactly the sockets concerned there and touches no other room |
| `ChatConnections.BroadcastLeaves` | app/services/chat_connections.py:62-71 | a broadcast removes exactly the sockets it reached and found gone |
| `ChatConnections.ConnectionManager.Connect` | app/services/chat_connections.py:38-41 | the socket joins the end of the room's list and its user the presence, other rooms stay |
| `ChatConnections.ConnectionManager.Disconnect` | app/services/chat_connections.py:43-56 | the socket goes, its user only with the last socket, empty rooms go; other rooms stay |
| `ChatConnections.ConnectionManager.Broadcast` | app/services/chat_connections.py:62-71 | exactly the failing sockets are disconnected, in list order, over a copy |
| `ChatConnections.ConnectionManager.KickFromRooms` | app/services/chat_connections.py:97-111 | exactly the user's sockets leave the listed rooms |
| `ChatConnections.ConnectionManager.EndOfHandler` | app/routers/chat.py:316-324 | the notice is decided before the disconnect, and the registry is left without the socket |
| `ChatAccess.OpenKeepsInv` | app/routers/chat.py:206-234 | a socket is admitted only to a current member without an active ban |
| `ChatAccess.MemberGoneKeepsInv` | app/services/chat_connections.py:97-104 | leaving, removal and club ban close the user's sockets in every room of the club |
| `ChatAccess.BanKeepsInv` | app/services/chat_service.py:189-217 | a room ban closes the banned user's sockets there; how long it keeps the user out is ChatAccessEffects.BanKeepsOut |
| `ChatAccess.ClubDeletedKeepsInv` | app/services/chat_connections.py:106-111 | deleting a club closes the sockets of its rooms |
| `ChatAccess.StepKeepsInv` | app/services/chat_service.py:293-308 | every request, background clean-up and passing of time keeps sockets of existing rooms with allowed members |
| `ChatAccess.SocketsStayAllowed` | app/services/chat_service.py:43-50 | in every reachable state each socket of an existing room belongs to a current member of its club who has no active ban there |
| `ChatAccessEffects.AdmittedExactly` | app/services/chat_service.py:43-50 | a user is admitted exactly as a member of the room's club, for an event room an organizer or attendee, whom no running ban keeps out |
| `ChatAccessEffects.MembershipEffect` | app/services/club_service.py:556-705 | what each request makes of each membership row |
| `ChatAccessEffects.AttendanceEffect` | app/repositories/club.py:100-109 | what each request makes of each attendance row |
| `ChatAccessEffects.RoomEffect` | app/services/chat_service.py:293-308 | a room goes exactly by an organizer's deletion, with its club, or in a clean-up |
| `ChatAccessEffects.BanEffect` | app/services/chat_service.py:189-217 | a room ban row appears exactly when an organizer bans a member of the club, with its end in seconds, and goes exactly with its room |
| `ChatAccessEffects.SocketEffect` | app/services/chat_connections.py:73-126 | after any request exactly those sockets are open that it opened for an admitted user, or that were open and it does not close |
| `ChatAccessEffects.BanKeepsOut` | app/services/chat_service.py:199-213 | in every run after a room ban, for all its seconds or for ever, its user is not admitted to the room and has no socket in it |
| `ChatAccessEffects.AdmittedAgain` | app/services/chat_service.py:199-203 | as time passes after a room ban its user is admitted exactly from its end on, if access is kept and no other ban runs |
| `ChatEventAccess.AccessOutlivedExactly` | app/services/chat_connections.py:97-126 | one whole request lets a socket of an event room outlive its user's right exactly when it demotes an organizer who holds one without attending, or cancels the attendance of someone who holds one in a second room of the event |
| `ChatEventAccess.AccessOverRuns` | app/services/chat_service.py:43-50 | all through a run of whole requests every socket of an event room belongs to someone who may use the room, exactly when no such request is in it |
| `ChatHandshake.LateConnectBreaksExactly` | app/routers/chat.py:206-234 | connecting leaves only sockets whose users would be admitted exactly when this user still would, or the room is gone |
| `ChatHandshake.AdmissionBreaksExactly` | app/routers/chat.py:206-234 | one action, a whole request or a read of a handshake, leaves only admitted sockets exactly when it is neither a late connect nor a request as above |
| `ChatHandshake.AdmissionOverRuns` | app/routers/chat.py:206-234 | the same all through a run with any number of handshakes interleaved |
| `ChatHandshake.SoloHandshake` | app/routers/chat.py:206-234 | a handshake that meets nobody ends, by its own reads, as the whole request |
| `SocketHandler.DecisionIsRecent` | app/routers/chat.py:257-265 | a text is posted or refused on a ban answer read less than five seconds earlier |
| `SocketHandler.SteadyBanDecides` | app/routers/chat.py:268-301 | while the frames' times do not go back, a ban in force for five seconds stops every text and one lifted for five seconds stops none |
| `SocketHandler.RepliesExactly` | app/routers/chat.py:268-291 | which reply each frame gets: the limiter first, then the frame's shape, and the ban check for texts alone |
| `SocketHandler.OneReadingServes` | app/routers/chat.py:257-265 | one reading of the bans decides every text of the next five seconds; the first text, and the first one after that, read again |
| `SocketHandler.PostedCount` | app/routers/chat.py:268-301 | one text is stored for each frame answered with a post |
| `SocketHandler.PostedPlace` | app/routers/chat.py:268-301 | it is that frame's text, behind those of the frames before |
| `SocketHandler.Handler.OnFrame` | app/routers/chat.py:268-291 | limited, malformed and banned frames store nothing, others append their text; the cache is read or renewed as its age says |
| `SocketHandler.Handler.Serve` | app/routers/chat.py:268-301 | replies, cache and stored texts of the whole receive loop |
| `OAuthHandoff.RunKeepsInv` | app/routers/auth.py:412-438 | every step keeps stored flows, pending callbacks, stored codes and the history in agreement |
| `OAuthHandoff.HandoffIsOneToOne` | app/routers/auth.py:543-579 | exchanges map one to one into callbacks, callbacks into provider calls, provider calls into starts, each with the verifier of its start and the session of its callback |
| `OAuthHandoff.BurntStaysBurnt` | app/routers/auth.py:497-520 | an issued code that is no longer stored is never exchanged again |
| `OAuthHandoff.WrongVerifierBurnsCode` | app/routers/auth.py:596-613 | a code bound to a challenge is refused without a verifier hashing to it and is then spent for good |
| `OAuthFlows.TokenIs` | app/routers/auth.py:59 | challenges, flow ids and codes are 43 letters, digits, hyphens or underscores |
| `OAuthFlows.CallbackGoesOn` | app/routers/auth.py:543-579 | a callback goes on exactly with a code, a stored verifier and, where required, a challenge; with that verifier and the challenge of its cookie; its flow is used up in every case |
| `OAuthFlows.HonestWaySucceeds` | app/routers/auth.py:412-613 | from any state, start, callback, provider answer and exchange with the right verifier deliver the provider's session |
| `OAuthFlows.FailedCallbackEnds` | app/routers/auth.py:543-579 | a callback the provider refuses or that cannot store its code ends with nothing issued |
| `OAuthFlows.CookieBindsCode` | app/routers/auth.py:492-613 | in every run, a code whose callback came with a well-formed challenge cookie is exchanged only with a verifier hashing to that cookie |
| `OAuthFlows.RequiredPkceNeedsVerifier` | app/routers/auth.py:596-613 | where PKCE is required nothing is exchanged without a verifier |
| `OAuthFlows.ExpiredIsRefused` | app/routers/auth.py:478-520 | an expired code is refused and an expired flow ends the callback that brings it |
| `OAuthHandoff.OAuthBackend.StartFlow` | app/routers/auth.py:412-438 | the next callback with this flow's cookie gets exactly this verifier, and other flows theirs as before |
| `OAuthHandoff.OAuthBackend.TakeFlowVerifier` | app/routers/auth.py:478-489 | reads and removes the verifier in one step |
| `OAuthHandoff.OAuthBackend.BeginCallback` | app/routers/auth.py:543-579 | which verifier a callback goes on with, that it carries a well-formed challenge cookie and no other, and the flow it drops |
| `OAuthHandoff.OAuthBackend.StoreHandoffCode` | app/routers/auth.py:497-520 | the next exchange of the code gets the session exactly when the challenge, required or bound, allows it, and other codes answer as before |
| `OAuthHandoff.OAuthBackend.ExchangeCode` | app/routers/auth.py:596-613 | the code goes in every case; the session is given exactly when the challenge allows |
| `MessagePages.ListingDescends` | app/repositories/chat.py:81-100 | the listing is strictly descending by time and id and has exactly the messages of the set |
| `MessagePages.DescendingIsListing` | app/repositories/chat.py:81-100 | it is the only such sequence |
| `MessagePages.PageSplits` | app/repositories/chat.py:81-100 | a page and the listing from its last message on make up the listing from its cursor on |
| `MessagePages.WalkIsListing` | app/repositories/chat.py:81-100 | following the cursor from any message yields everything older, once, in order, and ends |
| `MessagePages.WholeHistory` | app/services/chat_service.py:126-148 | for any limit of at least 1 the pages are the whole history of the room, by descending time and, at one time, descending id |
| `MessagePages.ResponseCursor` | app/services/chat_service.py:126-148 | the first message of the response, which is the oldest, is the cursor of the next page |
| `MessagePages.PageIs` | app/repositories/chat.py:81-100 | a page from a message that is there holds the room's messages just before it, as many as the limit, or all when there are fewer |
| `MessagePages.ReversedAt` | app/services/chat_service.py:147-148 | the response is the page read backwards |
| `MessagePages.ChangingWalkDescends` | app/repositories/chat.py:81-100 | whatever is inserted or deleted between pages, what is delivered stays strictly descending, so nothing comes twice |
| `MessagePages.NoSurvivorLost` | app/repositories/chat.py:81-100 | a message that is there throughout is delivered, if the cursors survive |
| `MessagePages.EmptyPage` | app/repositories/chat.py:81-100 | a page is empty exactly when its cursor is gone or nothing older is left in the room |
| `EventChatLifecycle.RowsAreIndependent` | app/tasks/cleanup.py:44-66 | the loop that commits as it goes acts on each room as if it were alone |
| `EventChatLifecycle.DeletesKeepReferences` | app/tasks/cleanup.py:84-90 | each single delete statement leaves no message, ban or read row without its room |
| `EventChatLifecycle.PassEffect` | app/tasks/cleanup.py:23-90 | a pass deletes exactly the rooms whose event is five days past, and exactly their bans and read marks; rooms without a past event are as before |
| `EventChatLifecycle.DailyMessage` | app/tasks/cleanup.py:44-66 | a room that outlives a pass gains one message, the bot's with the days left, exactly when its event is past and the bot had not spoken that UTC day, so that it has spoken then |
| `EventChatLifecycle.Announcements` | app/tasks/cleanup.py:13-20 | the text for each number of days that can be announced |
| `EventChatLifecycle.CountdownOverRuns` | app/tasks/cleanup.py:13-66 | over any run at most six bot messages a room, at most one a UTC day, announcing days left in 0..4 that never increase |
| `EventChatLifecycle.RestartedPass` | app/tasks/cleanup.py:44-90 | a pass cut off after any of its commits and run again at the same time ends with the rooms and texts of an uninterrupted one |
| `EventChatLifecycle.RepeatedPass` | app/tasks/cleanup.py:44-90 | a second pass at the same time changes no room and no text |
| `EventChatLifecycle.ChatStore.VisitRoom` | app/tasks/cleanup.py:44-66 | a room past its deadline is marked, another gets the day's countdown message exactly once |
| `EventChatLifecycle.ChatStore.RunPass` | app/tasks/cleanup.py:23-90 | the loop's commits followed by the ordered deletes are one pass; exactly the bans and read marks of rooms that stay are left |
| `BookVoting.CallKeepsInv` | app/services/book_vote_service.py:84-179 | every whole service keeps one vote per user and round, votes on options of their round, and winners among the options |
| `BookVoting.RunKeepsInv` | app/services/book_vote_service.py:84-179 | the same over every run of whole requests; under interleaving see BookVotingConcurrency.WinnersOverRuns |
| `BookVoting.ClosedRoundIsFinal` | app/services/book_vote_service.py:161-179 | in every run of whole requests a closed round keeps its status and winner, and the winner stays one of its options; under interleaving see BookVotingConcurrency.ResultOverRuns |
| `BookVoting.TotalIsSum` | app/services/book_vote_service.py:46-70 | the reported total is the sum of the counts of the listed options |
| `BookVoting.WinnerIsFirstMax` | app/services/book_vote_service.py:172-173 | the maximum by count is attained, and by no earlier option |
| `BookVoting.ClosingPicksFirstMaximum` | app/services/book_vote_service.py:161-179 | a whole close stores the option with the most votes, the earliest of several; under interleaving see BookVotingWinner.CloseStoresLeader |
| `BookVoting.CastEffect` | app/services/book_vote_service.py:127-144 | a first vote adds one, the same vote again nothing, a move shifts exactly one between two counts |
| `BookVoting.UnvoteAfterClose` | app/services/book_vote_service.py:147-158 | a vote taken back after closing lowers its option's count and the total by one and leaves the winner |
| `BookVoting.ClosedVotesChange` | app/services/book_vote_service.py:127-158 | with requests one at a time, the votes of a closed round change exactly when a member takes back a vote that is there; under interleaving see BookVotingLead.VotesChangeExactly |
| `BookVoting.WinnerStopsLeading` | app/services/book_vote_service.py:147-158 | with requests one at a time, a closed round's winner that leads stops leading exactly when a vote for it is taken back while another option has as many votes; under interleaving see BookVotingWinner.LeadLostExactly |
| `BookVoting.WinnerNeedNotLead` | app/services/book_vote_service.py:147-179 | a run from no rows to a closed round whose winner has fewer votes than another option |
| `BookVotingEffects.AnswersExactly` | app/services/book_vote_service.py:84-179 | which answer each call gets, in both directions: members vote, organizers do the rest |
| `BookVotingEffects.RefusedChangesNothing` | app/services/book_vote_service.py:84-179 | a refused call changes no row |
| `BookVotingEffects.RoundEffect` | app/services/book_vote_service.py:161-179 | a round appears open and without winner by an organizer's call, and changes exactly when an organizer closes it while open, with a winner exactly if it has options |
| `BookVotingEffects.OptionEffect` | app/services/book_vote_service.py:93-124 | an option is added at the end under its round, a removed one leaves the others in order, and no other call changes options |
| `BookVotingEffects.VoteEffect` | app/services/book_vote_service.py:127-158 | which votes there are after a call: the one cast instead of the user's other votes in the round, all but the one taken back, and otherwise the same |
| `BookVotingConcurrency.VotesStayInOrder` | app/repositories/book_vote.py:65-77 | in every interleaving a user has at most one vote in a round, each for an option of its round |
| `BookVotingConcurrency.TotalIsAlwaysSum` | app/services/book_vote_service.py:46-70 | the total is the sum over the listed options at every moment of every interleaving |
| `BookVotingEffects.ChangesAllowedOverRuns` | app/services/book_vote_service.py:84-179 | in every interleaving rounds and options change only in organizers' requests, a round's status and winner only in a close of it, and a vote only in its own user's request |
| `BookVotingConcurrency.SoloRequestIsService` | app/services/book_vote_service.py:84-179 | a request that meets nobody else ends, by its own statements, as the whole service with its answer |
| `BookVotingConcurrency.WinnerReplacedExactly` | app/services/book_vote_service.py:161-179 | a closed round stays closed, and its winner changes exactly when another close, having read it open, commits a different one |
| `BookVotingConcurrency.ResultOverRuns` | app/services/book_vote_service.py:161-179 | from closing on, the result lasts all through an interleaving exactly when no such close commits in it |
| `BookVotingConcurrency.WinnerLostExactly` | app/services/book_vote_service.py:108-124 | winners stay options of their rounds through a statement exactly when it is not the commit of a removal of a winner without votes, or of a close whose winner has been removed since |
| `BookVotingConcurrency.WinnersOverRuns` | app/services/book_vote_service.py:108-179 | the same all through an interleaving |
| `BookVotingConcurrency.RemoveRacesClose` | app/services/book_vote_service.py:108-179 | whichever open round without votes they meet, a removal and a close in flight can leave a winner that is no option |
| `BookVotingConcurrency.CloseRacesClose` | app/services/book_vote_service.py:161-179 | whichever open round with two options and no votes they meet, two closes and a vote in flight can store one winner and then another |
| `BookVotingLead.VotesMove` | app/services/book_vote_service.py:127-158 | a statement removes at most the vote its request has read and adds at most the one it casts; the one removed was there, the one added was not |
| `BookVotingLead.VotesChangeExactly` | app/services/book_vote_service.py:127-158 | a round's votes change, closed or not, exactly when a vote of it commits or a withdrawal whose vote is still there |
| `BookVotingLead.VotesOverRuns` | app/services/book_vote_service.py:127-158 | from any moment on, such as the closing, a round's votes stay the same all through an interleaving exactly when no such commit is in it |
| `BookVotingLead.CountsMove` | app/services/book_vote_service.py:127-158 | by how much each option's count changes at each statement |
| `BookVotingLead.ApplyKeepsLists` | app/repositories/book_vote.py:37-46 | what a close has listed and the round's options now agree in order: some went, others came behind |
| `BookVotingWinner.ReadyFromStart` | app/services/book_vote_service.py:84-179 | every state reached from no rows meets what the results on votes and leads start from |
| `BookVotingWinner.PickedExactly` | app/services/book_vote_service.py:169-173 | a close picks the first of the most voted options it has listed, which leads the round at its count exactly when it is still there and no option added since has more votes |
| `BookVotingWinner.LeadLostExactly` | app/services/book_vote_service.py:108-179 | a statement takes the lead from an option exactly when it removes it, or moves a vote by which another passes it |
| `BookVotingWinner.LeadOverRuns` | app/services/book_vote_service.py:108-179 | the lead lasts all through an interleaving, across and after the closing, exactly when no such statement is in it |
| `BookVotingWinner.UndisturbedRun` | app/services/book_vote_service.py:108-179 | in particular while no vote of the round moves and none of its options goes |
| `BookVotingWinner.CloseStoresLeader` | app/services/book_vote_service.py:169-177 | a close whose pick led at its count and was never overtaken stores the option that leads at its commit |
| `BookVotingWinner.VoteLandsInClosed` | app/services/book_vote_service.py:127-179 | whichever open round without votes they meet, a vote and a close in flight leave a closed round that gains a vote |
| `BookVotingWinner.LateVoteUnseats` | app/services/book_vote_service.py:127-179 | whichever open round with two options and no votes they meet, a vote in flight can leave the round closed on the first option while the second leads |
| `BookVotingService.VotingDatabase.BuildRoundResponse` | app/services/book_vote_service.py:46-70 | options in order with their counts, a total that is the sum of these, and the member's own vote marked |
| `BookVotingService.VotingDatabase.CreateVotingRound` | app/services/book_vote_service.py:84-90 | an organizer opens a round without winner, others change nothing; the invariant kept |
| `BookVotingService.VotingDatabase.AddBook` | app/services/book_vote_service.py:93-105 | the option joins the end of an open round of the club, else the code's refusals; the invariant kept |
| `BookVotingService.VotingDatabase.RemoveBook` | app/services/book_vote_service.py:108-124 | an option goes only from an open round and only without votes; the invariant kept |
| `BookVotingService.VotingDatabase.VoteFor` | app/services/book_vote_service.py:127-144 | a member's earlier vote in the open round gives way to the new one, all other votes stay; the invariant kept |
| `BookVotingService.VotingDatabase.UnvoteFor` | app/services/book_vote_service.py:147-158 | exactly the member's vote for that option goes, in open and closed rounds; the invariant kept |
| `BookVotingService.VotingDatabase.CloseVoting` | app/services/book_vote_service.py:161-179 | an open round is closed with the first of the most voted options, or none without options; a closed one is left alone; the invariant kept |
| `BookVotingService.VotingDatabase.UserVoteOf` | app/repositories/book_vote.py:65-69 | the user's vote in the round, or none when there is none |
| `CspRoute.LeavesNoUuid` | app/services/csp_report.py:21 | after the substitution a UUID is left exactly when a replaced one was followed by the rest of another |
| `CspRoute.LeavesNoLongNumber` | app/services/csp_report.py:22 | after the substitution no run of five digits is left |
| `CspRoute.JoinUndoesSplit` | app/services/csp_report.py:115 | splitting a path loses nothing and leaves no separator in a segment |
| `CspRoute.SplitUndoesJoin` | app/services/csp_report.py:125 | the segments of a joined route are the joined parts |
| `CspRoute.RouteImage` | app/services/csp_report.py:113-125 | every path has one of the fixed routes, and a text is its own route exactly when it is one of these |
| `CspRoute.RouteIdempotent` | app/services/csp_report.py:113-125 | the route of a route is itself, for every path |
| `CspRoute.IdsShareOneRoute` | app/services/csp_report.py:113-125 | all paths with a UUID or long number behind a known first segment share one route, with one mark for whatever follows |
| `CspRoute.RouteByParts` | app/services/csp_report.py:113-125 | the route of a path of segments without ids: its first segment if known, its second if known, and one mark for the rest |
| `CspRoute.RouteSetSize` | app/services/csp_report.py:45-50 | there are at most 242 routes |
| `CspReports.AcceptedIsInClosedSets` | app/services/csp_report.py:150-183 | whatever is submitted, the key fields of an accepted report lie in sets fixed by constants and settings |
| `CspReports.AcceptedOrigin` | app/services/csp_report.py:101-110 | the environment of an accepted report tells its document's host: local only outside production, preview exactly for hosts not allowed by name; and sinks come with their directive |
| `CspReports.BlockedIsClosed` | app/services/csp_report.py:128-143 | the blocked field is a keyword, a known scheme or host, "self", "other" or empty |
| `CspEffects.FirstSays` | app/services/csp_report.py:93-98 | the text of the first name that has one |
| `CspEffects.AcceptedExactly` | app/services/csp_report.py:150-183 | a report is accepted exactly when it has a body, a web URL with a host that is served, and a directive |
| `CspEffects.KeptExactly` | app/services/csp_report.py:150-183 | what is kept of an accepted report: its page, directive, whether it was enforced, sink, policy and scrubbed sample |
| `CspEffects.BlockedExactly` | app/services/csp_report.py:128-143 | when the blocked field is a keyword, a scheme, the page's own host, a known host, another one or none |
| `CspEffects.ParsedExactly` | app/services/csp_report.py:186-193 | of a list exactly the accepted ones of the first ten items count, in order |
| `CspEffects.ParsedSingle` | app/services/csp_report.py:186-193 | what is no list counts for one item and what is not JSON for none |
| `CspReports.DayIsBounded` | app/services/csp_report.py:196-205 | a day has at most the product of the set sizes of rows, after any run |
| `CspReports.CountIsMultiplicity` | app/services/csp_report.py:202-204 | each key is counted once for each report with it, and rows appear for exactly the reported keys |
| `CspReports.OrderDoesNotMatter` | app/services/csp_report.py:202-204 | reports of a day stored in any order give the same keys and counts |
| `CspReports.FirstSampleIsKept` | app/services/csp_report.py:202-204 | a row keeps the sample it was created with |
| `CspReports.CountsAddUp` | app/services/csp_report.py:196-205 | the counts of the table sum to the reports granted and committed |
| `CspReports.BudgetIsGranted` | app/services/csp_report.py:83-90 | the budget holds what its hour was granted, every other hour that was granted something has passed, and no hour was granted more than 500 |
| `CspReports.HourIs` | app/services/csp_report.py:83-86 | the budget's hours are 3600 seconds long |
| `CspReports.RefusedExactly` | app/services/csp_report.py:83-90 | a request is refused exactly when its reports and what the hour was granted exceed 500 |
| `CspReports.UpsertsAreBounded` | app/services/csp_report.py:73-90 | at most 500 upserts in a clock hour and 1000 in any 3600 seconds, as long as an hour once left does not come back |
| `CspReports.ForwardClockPasses` | app/services/csp_report.py:83-86 | a clock that does not step back brings no hour back |
| `CspReports.SteppingClockRefills` | app/services/csp_report.py:83-90 | a call in between makes a budget that refuses grant again exactly when it is dated into another hour |
| `CspReportStore.ParsePayload` | app/services/csp_report.py:186-193 | the reports of a body, at most ten |
| `CspReportStore.ReportStore.Take` | app/services/csp_report.py:83-90 | a new hour empties the budget, a grant is taken whole or not at all, and never exceeds 500 |
| `CspReportStore.ReportStore.StoreReports` | app/services/csp_report.py:196-205 | the counts grow by exactly the reports stored, by nothing when the database fails |
| `CspReportStore.ReportStore.ReceivePost` | app/services/csp_report.py:186-205 | parsing, budget and upserts of one request together, with all keys in the closed sets |
| `RoomDedup.MergeOneMore` | alembic/versions/n4o5p6q7r8s9_chat_room_dedup_cleanup.py:42-81 | one round of the loop merges one more group and leaves the others |
| `RoomDedup.MergeKeepsMessages` | alembic/versions/n4o5p6q7r8s9_chat_room_dedup_cleanup.py:57-70 | merging keeps every message with its content, in an existing room of the same club and name |
| `RoomDedup.TargetKeepsPromises` | alembic/versions/n4o5p6q7r8s9_chat_room_dedup_cleanup.py:25-95 | afterwards (club, name) is unique, every message is kept with its club and room name, and each room is the oldest of its group, unchanged |
| `RoomDedup.RoomStays` | alembic/versions/n4o5p6q7r8s9_chat_room_dedup_cleanup.py:83-92 | a room stays exactly when it is the oldest of its group and the group has a message or the room is at most 30 days old |
| `RoomDedup.TargetIsStable` | alembic/versions/n4o5p6q7r8s9_chat_room_dedup_cleanup.py:25-95 | run again at the same time the migration would change nothing |
| `RoomDedup.ChatTables.DuplicateGroups` | alembic/versions/n4o5p6q7r8s9_chat_room_dedup_cleanup.py:31-40 | exactly the groups with more than one room, each once |
| `RoomDedup.ChatTables.FindKeeper` | alembic/versions/n4o5p6q7r8s9_chat_room_dedup_cleanup.py:43-55 | the first room of the group by creation time and id |
| `RoomDedup.ChatTables.Upgrade` | alembic/versions/n4o5p6q7r8s9_chat_room_dedup_cleanup.py:25-95 | succeeds exactly when no ban points at a room that goes, then leaves unique (club, name) and the merged, cleaned tables, and otherwise changes nothing |
| `BookCache.KeyTellsRequest` | app/services/google_books_service.py:54-56 | different arguments have different cache keys, whatever the query contains |
| `BookCache.CacheIsBounded` | app/services/google_books_service.py:18-26 | at most 1000 entries, each the last fetch stored for its arguments |
| `BookCache.HitIsFresh` | app/services/google_books_service.py:53-58 | a hit answers with the last fetch stored for the same arguments, asked for less than 3600 seconds ago |
| `BookCache.HitExactly` | app/services/google_books_service.py:86-91 | a lookup is a hit exactly for an entry of the key that has not expired |
| `BookCache.StoredIsHit` | app/services/google_books_service.py:18-26 | what was just stored is a hit until 3600 seconds after it was asked for, whatever the cache held |
| `BookCache.FewFetchesHit` | app/services/google_books_service.py:53-58 | as long as no more than 1000 fetches were stored, each request hits its last fetch for exactly 3600 seconds |
| `BookCache.PutInPlace` | app/services/google_books_service.py:18-26 | writing a key that is there keeps its place in the order |
| `BookCache.PutLast` | app/services/google_books_service.py:18-26 | a new key goes to the end |
| `BookCache.LiveConcat` | app/services/google_books_service.py:21-23 | dropping expired entries keeps the order of the others |
| `BookCache.LiveEntryDropped` | app/services/google_books_service.py:18-26 | a live entry of another key goes exactly when the cache is full, nothing has expired and it is first in the order |
| `BookCache.RefreshDropsOldest` | app/services/google_books_service.py:18-26 | refreshing a key of a full cache drops the first entry and leaves 999 |
| `BookCache.LookupCache.Lookup` | app/services/google_books_service.py:86-91 | a payload exactly for a live entry of the key |
| `BookCache.LookupCache.Remember` | app/services/google_books_service.py:18-26 | expired entries make room first, then the first entry, and only in a full cache; never more than 1000 entries |

## Left out

- HTTP, cookies, JWT, schemas, rate limits by slowapi, logging, mail and the clients of Supabase, Google and the storage: input and output.
- The other migrations, statistics, randomizer, quizzes, support, geocoding and upload: thin queries that would add easy members.
- ClubConcurrency.NoStaleAuthority: does not cover lifting a ban in flight, which takes no lock and rests on an organizer check that may be stale; it is in the runs of whole requests.
- ClubConcurrency.GrowthAndDeletion: the answers of requests that meet a club deleted meanwhile are simplified to one.
- ClubConcurrency.CommitIsAtomic: the time a ban is dated to is taken at its commit, while the code reads the clock a few statements earlier.
- ClubModel.NewClubRunsAreConsistent: does not model the checks made before a club is created, its general room, or the other tables that deletion clears.
- SQLite: it has no row lock, so none of the interleaving results is claimed for it.
- ChatFlood.BreakerHolds: does not cover a request cancelled while it awaits Redis, which leaves the breaker armed.
- ChatFlood.ChatFloodLimiter.constructor: the limit is at least 1; with a limit of 0 the code's check fails on its empty deque.
- ChatConnections.PresenceIsExact: a handler that fails between connecting and its `try` leaves its socket registered (app/routers/chat.py:234-266), and presence counts it; presence is a set of ids, and the order and wording of the messages sent are not modelled.
- ChatAccess.SocketsStayAllowed: says nothing about sockets of rooms that the background clean-ups deleted, which stay open.
- ChatHandshake.AdmissionOverRuns: other requests still run as one step, from their commit to their last kick.
- SocketHandler.Handler.Serve: a failing database or socket ends the sequence of frames; the broadcast of a post is part of ChatConnections only.
- OAuthHandoff.HandoffIsOneToOne: lifetimes are expiry events at arbitrary moments, and what the provider checks about the verifier is not modelled.
- MessagePages.NoSurvivorLost: needs the cursor messages to survive, as a page asked for from a deleted cursor is empty (`MessagePages.EmptyPage`).
- MessagePages.ResponseCursor: the sender's name joined to each message is not modelled.
- EventChatLifecycle.CountdownOverRuns: the event's date is fixed and nobody deletes messages by hand; the hourly scheduling of passes is not modelled.
- BookVoting.TotalIsSum: options created in the same instant are listed in an order the query leaves open; the model takes some fixed one.
- BookVotingConcurrency.SoloRequestIsService: the caller's role is checked on arrival, and the response is read as in the whole service.
- BookVotingService.VotingDatabase.AddBook: stripping the title and author is left to the caller.
- CspReports.AcceptedIsInClosedSets: exceptions raised by URL splitting are not modelled, so it is not claimed that normalising never fails.
- CspReports.UpsertsAreBounded: the budget is one process's; with several processes the bounds hold for each of them.
- RoomDedup.ChatTables.Upgrade: the constraint itself is represented by the uniqueness it demands; the downgrade only drops it.
- BookCache.HitIsFresh: the checks on book ids and the mapping of fetched items to payloads are not modelled.
