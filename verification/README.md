# A verified model of the review tunnel

This project models the logic at the heart of the review tunnel, a relay that
shares a developer's local site through a gateway, and proves what that logic
keeps over whole runs. It covers

- credit-based flow control: the sender's window with its queue of parked
  requests (`FlowWindow`, `OutboundWindow`), the two receivers
  (`GatewayInbound`, `ClientInbound`), the budget for late DATA
  (`RetiredBudget`), and both ends joined by FIFO channels into one protocol
  (`Channel`, `CreditProtocol`, `CreditSafety`, `CreditReturn`) with the exact
  conditions under which its weak spots hold (`CreditLimits`, `CreditOverrun`,
  `CreditCloses`, `ClientCredit`), and the numbering of streams (`StreamIds`);
- the session lifecycle as a state machine (`SessionState`), the gateway's
  registry of sessions, transports and streams driven by it (`GatewaySessions`,
  `GatewaySafety`), and the admission limits over it (`Admission`,
  `GatewayRuntime`, `RateLimiter`);
- the account repository (`AuthStore`, `AuthRepository`) and the review
  repository with its event feed and its pages (`ReviewStore`,
  `ReviewRepository`, `ReviewFeed`, `ReviewPages`);
- the wire envelope with DATA fragmentation (`Wire`) and the client address
  code with its IPv4, IPv6 and CIDR texts (`Ipv4Text`, `Ipv6Text`, `ClientAddress`).

Code that changes objects step by step is modelled twice: a class with the
source's fields, whose methods are proved to perform a step of a value model,
and the value model, about whose runs the properties are proved. What each
operation answers is stated once more without reference to how it is computed:
every refusal with its exact condition, and what an accepted request leaves
behind (`FlowGrants`, `InboundAnswers`, `GatewayAnswers`, `AdmissionAnswers`,
`AuthAnswers`, `ReviewAnswers`). `Sums`, `Sets` and `Options` hold shared
vocabulary. `dafny verify dfyconfig.toml` checks the
whole project.

A promise that the source resolves or rejects becomes an entry of a log. Random
ids, digests and secrets are abstract values; ids that the source draws at
random are taken never to repeat. Times are integers given to each step. Where
the source calls into the platform (address recognition, text trimming, string
order) the model takes a function as a parameter and proves its statements for
every such function, or for every strict total order.

## Where the code falls short of its promise

Four properties that the design suggests are false of the code as it is. Each
has a concrete run and an exact condition.

- Late DATA after a reset. `retireStream` records the smaller of the stream's
  and the connection's credit. When the connection term is the smaller one and
  another stream holds bytes, the sender can get those bytes back by resetting
  that other stream and overrun the recorded allowance.
  `CreditLimits.UnsafeRetirementIsReachable` gives a run;
  `CreditOverrun.RetirementToleratedExactlyWhenEnough` gives the condition for every
  stream of the receiver in every reachable state where no other reset stream has
  DATA in flight or a request parked (its DATA may end the connection first) and the
  budgets have room for what is in flight or asked for and for one byte beyond the
  allowance. `CreditOverrun.RetirementToleratedExactlyWhenSafe` states it in what the
  receiver can see, for a stream that has not ended and that the sender has open or
  will hear of.
- Closing after END with bytes outstanding returns credit the receiver has not
  yet returned. `CreditCloses.EarlyCloseIsReachable` gives a run;
  `CreditCloses.CloseAfterEndSoundExactlyWhenDrained` gives the condition in every
  reachable state where no reset stream has DATA in flight or a request parked, and
  `CreditCloses.CloseAfterEndSoundExactlyWhenClean` in the sender's own terms.
- DATA within its credit can be refused: both ends also bound the number of queued
  frames, which no credit tells the sender.
  `ClientCredit.FrameLimitIsReachable` gives a run for every frame limit;
  `ClientCredit.ClientTakesDataExactlyWithinFrames` and
  `ClientCredit.GatewayTakesDataExactlyWithinQueue` give the condition.
- A resumed session can be past its own idle deadline at birth when the idle
  timeout does not exceed the reconnect grace.
  `SessionState.LateResumeIsBornExpired` gives a run;
  `SessionState.TimelyExactlyWhen` gives the condition.

## Model

| member | source | states |
|---|---|---|
| FlowWindow.ApplyKeepsValid | packages/relay/src/flow-window.ts:33-115 | every operation keeps connection credit plus all outstanding bytes at the initial window, each stream's available plus outstanding at its own window, and leaves no parked request that could be granted a byte or whose stream is gone |
| FlowWindow.ApplyIsBalanced | packages/relay/src/flow-window.ts:42-115 | one operation neither loses nor duplicates a request: what was parked or asked is afterwards parked or answered exactly once |
| FlowWindow.ApplyOrder | packages/relay/src/flow-window.ts:90-115 | grants on one stream follow request order, and a later request passes an earlier one only if the earlier one's stream has no credit |
| FlowWindow.EveryRunIsSound | packages/relay/src/flow-window.ts:20-116 | conservation, no lost wakeup, exactly-once answers and grant order hold after every sequence of operations |
| FlowWindow.StartIsSound | packages/relay/src/flow-window.ts:27-31 | a new window satisfies all of these |
| FlowWindow.UpdateNeverExceedsConnection | packages/relay/src/flow-window.ts:52-66 | the error for a connection window above its maximum is unreachable in every run |
| FlowWindow.OvertakingIsBounded | packages/relay/src/flow-window.ts:90-115 | in every run overtaking happens only past a stream without credit |
| OutboundWindow.OutboundFlowWindow.constructor | packages/relay/src/flow-window.ts:27-31 | a new window holds the whole initial connection credit, no streams and no requests |
| OutboundWindow.OutboundFlowWindow.OpenStream | packages/relay/src/flow-window.ts:33-40 | opening performs the model's step: the refusals in the source's order, else a full stream credit and a drain |
| OutboundWindow.OutboundFlowWindow.Take | packages/relay/src/flow-window.ts:42-50 | a request is refused, or parked behind all earlier ones and the queue drained; `FlowGrants` states the amounts |
| OutboundWindow.OutboundFlowWindow.Update | packages/relay/src/flow-window.ts:52-66 | credit comes back to stream and connection, or the update is refused |
| OutboundWindow.OutboundFlowWindow.CloseStream | packages/relay/src/flow-window.ts:68-80 | the stream's outstanding bytes return to the connection and its requests are rejected, last first |
| OutboundWindow.OutboundFlowWindow.RejectWaiters | packages/relay/src/flow-window.ts:73-78 | the backward splice loop rejects exactly the stream's requests and keeps the others in order |
| OutboundWindow.OutboundFlowWindow.Close | packages/relay/src/flow-window.ts:82-88 | all streams and requests go, each request answered once |
| OutboundWindow.OutboundFlowWindow.DrainWaiters | packages/relay/src/flow-window.ts:90-115 | the index loop with splices computes the model's drain and ends; `FlowGrants` states what it grants |
| FlowGrants.EveryGrantIsLargest | packages/relay/src/flow-window.ts:90-115 | whatever the operation, each request it grants gets the largest amount that its own maximum, its stream and the connection allow at that point, the credit at that point being what is left now and what has gone out since |
| FlowGrants.AnswerIsExact | packages/relay/src/flow-window.ts:33-80 | every refusal is given exactly under its own condition, in the source's order, and changes nothing |
| FlowGrants.CreditIsExact | packages/relay/src/flow-window.ts:33-115 | after every operation each stream's available and outstanding credit and the connection's are what they were, less what was granted, plus what was opened, returned or freed |
| FlowGrants.ClosingIsExact | packages/relay/src/flow-window.ts:82-88 | closing leaves no stream and no request and rejects each request once, in order |
| RetiredBudget.AllowRecords | packages/relay/src/retired-data-budget.ts:24-40 | a new allowance is recorded in full and disturbs no other that is not evicted |
| RetiredBudget.SpentAllowance | packages/relay/src/retired-data-budget.ts:42-63 | an accepted late frame lowers its own stream's allowance by its size and leaves every other one, unless the budget ran out |
| RetiredBudget.LateDataIsBounded | packages/relay/src/retired-data-budget.ts:8-64 | over a connection's life, accepted late bytes and frames plus what remains equal the two budgets, whatever is retired |
| RetiredBudget.RetiredDataBudget.constructor | packages/relay/src/retired-data-budget.ts:15-22 | both budgets start full and nothing is tracked |
| RetiredBudget.RetiredDataBudget.AllowLate | packages/relay/src/retired-data-budget.ts:24-40 | performs the model's step, oldest entry evicted when full |
| RetiredBudget.RetiredDataBudget.ConsumeLate | packages/relay/src/retired-data-budget.ts:42-63 | refuses or spends exactly as the model, the entry moving to the end |
| GatewayInbound.ApplyKeepsValid | apps/gateway/src/inbound-flow.ts:30-96 | every operation keeps receive credit conserved per stream and connection, so the errors for credit above the maximum are unreachable |
| GatewayInbound.EveryRunIsValid | apps/gateway/src/inbound-flow.ts:16-103 | the same in every run |
| GatewayInbound.FreshIsValid | apps/gateway/src/inbound-flow.ts:22-28 | a new receiver satisfies the invariant |
| GatewayInbound.GatewayInboundFlow.OpenStream | apps/gateway/src/inbound-flow.ts:30-41 | performs the model's step |
| GatewayInbound.GatewayInboundFlow.ConsumeData | apps/gateway/src/inbound-flow.ts:43-55 | performs the model's step with the stream check before the connection check |
| GatewayInbound.GatewayInboundFlow.ReleaseData | apps/gateway/src/inbound-flow.ts:57-72 | performs the model's step |
| GatewayInbound.GatewayInboundFlow.Shutdown | apps/gateway/src/inbound-flow.ts:74-82 | closing returns the stream's outstanding bytes to the connection |
| GatewayInbound.GatewayInboundFlow.RetireStream | apps/gateway/src/inbound-flow.ts:84-92 | the smaller of stream and connection credit is allowed late, then the stream is closed |
| GatewayInbound.GatewayInboundFlow.ConsumeRetiredData | apps/gateway/src/inbound-flow.ts:94-96 | late DATA is charged to the retired budget alone |
| ClientInbound.ApplyKeepsCounted | apps/client/src/inbound-flow.ts:32-95 | the connection's consumed bytes and pending frames stay the sums over its streams |
| ClientInbound.SameAnswer | apps/client/src/inbound-flow.ts:32-95 | where no frame guard fires, the client's window answers as the gateway's and stays its mirror image |
| ClientInbound.GuardRefuses | apps/client/src/inbound-flow.ts:54-68 | where one fires, the client refuses with its window untouched although the gateway's would accept |
| ClientInbound.ReceiversAgreeExactlyWhenGuardFree | apps/client/src/inbound-flow.ts:16-104 | from any two states that mirror each other, both receivers give the same answers over a whole operation sequence if and only if no client-only guard fires in it, and then stay each other's mirror image |
| ClientInbound.ReceiversAgree | apps/client/src/inbound-flow.ts:16-104 | no guard fires while each accepted release gives back one consumed frame, in any order, and the frame limit holds; so both receivers then give the same answers and record the same retirement allowances |
| ClientInbound.FreshReceiversAgree | apps/client/src/inbound-flow.ts:24-30 | for two new receivers and every operation sequence: same answers if and only if no guard fires, and then the same retirement allowances |
| ClientInbound.SplitReleaseDiffers | apps/client/src/inbound-flow.ts:63-73 | a frame released in two parts is where the two differ |
| ClientInbound.InboundFlowWindow.OpenStream | apps/client/src/inbound-flow.ts:32-43 | performs the model's step |
| ClientInbound.InboundFlowWindow.ConsumeData | apps/client/src/inbound-flow.ts:45-61 | performs the model's step, counting bytes and a frame on stream and connection |
| ClientInbound.InboundFlowWindow.ReleaseData | apps/client/src/inbound-flow.ts:63-73 | performs the model's step |
| ClientInbound.InboundFlowWindow.Shutdown | apps/client/src/inbound-flow.ts:75-81 | closing takes the stream's bytes and frames off the connection |
| ClientInbound.InboundFlowWindow.RetireStream | apps/client/src/inbound-flow.ts:83-91 | the smaller of the two unused credits is allowed late, then the stream is closed |
| ClientInbound.InboundFlowWindow.ConsumeRetiredData | apps/client/src/inbound-flow.ts:93-95 | late DATA is charged to the retired budget alone |
| InboundAnswers.GatewayAnswers | apps/gateway/src/inbound-flow.ts:30-82 | every refusal of the gateway's window is given exactly under its own condition and changes nothing |
| InboundAnswers.GatewayCredit | apps/gateway/src/inbound-flow.ts:30-92 | where each byte of receive credit is after an accepted operation |
| InboundAnswers.LateAnswers | packages/relay/src/retired-data-budget.ts:42-63 | a late frame is accepted exactly within its stream's allowance and both budgets, and spends them |
| InboundAnswers.AllowanceAnswers | packages/relay/src/retired-data-budget.ts:24-40 | an allowance is recorded exactly for a new stream with credit while both budgets last, in place of the oldest one when the table is full |
| InboundAnswers.ClientAnswers | apps/client/src/inbound-flow.ts:32-73 | the refusals that only the client has, each under its exact condition |
| InboundAnswers.ClientCounts | apps/client/src/inbound-flow.ts:45-73 | an accepted frame and its release count once on the stream and once on the connection |
| CreditSafety.EveryRunIsSafe | packages/relay/src/flow-window.ts:33-115 | with both ends joined by FIFO channels, every run keeps the two-ended invariant: credit in the windows, in flight and announced adds up on every stream and on the connection |
| CreditSafety.HonestDataIsAccepted | apps/gateway/src/inbound-flow.ts:43-55 | in every reachable state the next DATA of a stream still open at the receiver is within stream and connection credit |
| CreditSafety.HonestCreditIsAccepted | packages/relay/src/flow-window.ts:52-66 | in every reachable state the next WINDOW_UPDATE of a stream still open at the sender is accepted |
| CreditSafety.LateDataIsTolerated | apps/gateway/src/inbound-flow.ts:84-96 | DATA for a stream that is gone at the receiver belongs to one it reset, and after a safe reset all of it is accepted while the budgets last and the entry is kept |
| CreditSafety.QuietEndsAgree | apps/gateway/src/gateway-streams.ts:346-363 | with nothing in flight both ends hold the same available and outstanding credit on every shared stream |
| CreditReturn.EveryRunIsSteady | apps/gateway/src/gateway-streams.ts:346-363 | every run keeps the sharper invariant: what the sender has outstanding on a stream that the receiver did not reset is exactly what is in flight, held there or on its way back as credit; a stream that it did reset has its notice on the way; and no parked request could be granted |
| CreditReturn.NothingLeaks | packages/relay/src/flow-window.ts:52-115 | no credit leaks and nothing deadlocks: in every reachable state with nothing in flight and nothing held at the receiver, the sender has its whole connection credit, every stream its whole window, and no request is parked |
| CreditLimits.SafeRetirementIsTolerated | apps/gateway/src/inbound-flow.ts:84-92 | after a safe reset every continuation tolerates the stream's late DATA |
| CreditLimits.UnsafeRetirementIsOverrun | apps/gateway/src/inbound-flow.ts:84-92 | after an unsafe reset on a quiet connection, a continuation of four actions overruns the allowance although the budgets had room |
| CreditOverrun.RetirementToleratedExactlyWhenEnough | apps/gateway/src/inbound-flow.ts:84-96 | from any reachable state, with frames, requests and credit under way, and for any stream of the receiver, ended, announced or abandoned by the sender included: late DATA after its reset is tolerated in all continuations if and only if the allowance covers what is in flight and what the sender may still send; given that no other reset stream has DATA in flight or a request parked, and that the budgets have room for the frames and bytes under way and one byte beyond the allowance |
| CreditOverrun.RetirementToleratedExactlyWhenSafe | apps/gateway/src/inbound-flow.ts:84-92 | the same, for a stream that has not ended and that the sender has open or will hear of, with the condition in the receiver's own terms: the stream's credit is the smaller term or no other stream holds bytes |
| CreditOverrun.QuietRetirementToleratedExactlyWhenSafe | apps/gateway/src/inbound-flow.ts:84-92 | from a quiet connection the same holds with room in the budgets for one frame and one byte beyond the allowance |
| CreditLimits.UnsafeRetirementIsReachable | apps/gateway/src/inbound-flow.ts:87-90 | a concrete run from the start reaches the unsafe case |
| CreditCloses.EarlyCloseOverruns | apps/client/src/client.ts:1318-1333 | on a quiet connection, letting go of a stream with bytes outstanding lets a new stream overrun the receiver |
| CreditCloses.EarlyCloseIsReachable | apps/client/src/client.ts:1318-1333 | a concrete run from the start reaches a quiet connection with an ended stream whose bytes are outstanding, and letting go of it is overrun |
| CreditCloses.CloseAfterEndSoundExactlyWhenDrained | apps/gateway/src/gateway-streams.ts:447-456 | from any reachable state in which no reset stream has DATA in flight or a request parked: closing after END never leads to refused DATA or refused credit if and only if the receiver neither holds nor will hold bytes of the stream |
| CreditCloses.CloseAfterEndSoundExactlyWhenClean | apps/gateway/src/gateway-streams.ts:447-456 | from a quiet connection the condition is that the sender has nothing outstanding on the stream |
| ClientCredit.ClientTakesDataExactlyWithinFrames | apps/client/src/inbound-flow.ts:45-61 | in every run that the client's window has gone along with, it mirrors the receiver and takes the next DATA of an open stream if and only if its pending frames are below the limit; otherwise it answers that there are too many frames |
| ClientCredit.GatewayTakesDataExactlyWithinQueue | apps/gateway/src/gateway-streams.ts:385-402 | in every run the gateway takes the next DATA of an open stream if and only if the stream has fewer than 1,024 frames queued |
| ClientCredit.FrameLimitIsReachable | apps/client/src/inbound-flow.ts:54-56 | for every frame limit a run of one-byte frames within credit is refused for it |
| StreamIds.IssuesInOrder | apps/gateway/src/gateway-stream-ids.ts:11-26 | the ids of a connection are 1, 3, 5, ... to the last odd 32-bit number, and exactly those were issued |
| StreamIds.ClientFollowsGateway | apps/client/src/remote-stream-lifecycle.ts:12-32 | the client opens every id in the order the gateway issues them |
| StreamIds.OnlyTheNextIdOpens | apps/client/src/remote-stream-lifecycle.ts:12-32 | after any run the client opens an id if and only if it is the next one, so no id is used twice |
| StreamIds.GatewayStreamIds.IssueId | apps/gateway/src/gateway-stream-ids.ts:11-19 | issues the next id or reports exhaustion |
| StreamIds.GatewayStreamIds.Restart | apps/gateway/src/gateway-stream-ids.ts:28-30 | a new connection starts again at 1 |
| StreamIds.RemoteStreamLifecycle.OpenRemote | apps/client/src/remote-stream-lifecycle.ts:12-32 | accepts or refuses as the model judges |
| StreamIds.RemoteStreamLifecycle.CloseRemote | apps/client/src/remote-stream-lifecycle.ts:49-52 | only an active stream closes, and is retired from then on |
| SessionState.EveryRunHasLineage | packages/protocol/src/session-state.ts:133-176 | generations only rise over all resume attempts, failed ones included, and the active generation is the last issued |
| SessionState.ResumeGetsFreshGeneration | packages/protocol/src/session-state.ts:134-148 | an accepted resume attempt gets a generation above all earlier ones |
| SessionState.OnlyCurrentAttemptCommits | packages/protocol/src/session-state.ts:157-170 | only the attempt started last commits, with the generation it was issued |
| SessionState.LifetimeIsBounded | packages/protocol/src/session-state.ts:74-209 | the activation time never changes, and a live session ends for its age exactly from it plus the maximum age on |
| SessionState.OpenStreamsPreventIdleExpiry | packages/protocol/src/session-policy.ts:16-35 | a session with open streams expires for its maximum age alone |
| SessionState.ExpiryIsExact | packages/protocol/src/session-state.ts:178-209 | a live session expires for its age, for idleness or for a missed reconnect if and only if that deadline, written out, has passed, in this order of precedence |
| SessionState.ActiveAnswers | packages/protocol/src/session-state.ts:106-132 | what an active session that has not run out answers to each event |
| SessionState.ReconnectingAnswers | packages/protocol/src/session-state.ts:133-176 | what a reconnecting session that has not run out answers to each event, with the generation that an attempt gets |
| SessionState.OtherAnswers | packages/protocol/src/session-state.ts:79-104 | before activation only an activation or a close is heard, after the end nothing |
| SessionState.EveryExpiryIsEarned | packages/protocol/src/session-state.ts:74-209 | no session is cut short: in every run an expired session was live until an event at which it had run out for the reason given |
| SessionState.NeverBornExpired | packages/protocol/src/session-state.ts:157-209 | no transition yields an active state past its own deadline, given an idle timeout above the grace or no shorter than the lifetime |
| SessionState.LateResumeIsBornExpired | packages/protocol/src/session-state.ts:157-170 | the run that shows it can otherwise |
| SessionState.TimelyExactlyWhen | packages/protocol/src/session-policy.ts:16-43 | the policies under which no active state is ever produced past its own deadline are exactly those |
| GatewaySafety.EveryRunIsSound | apps/gateway/src/gateway-carrier.ts:138-657 | every interleaving of HELLOs, activations, stream openings and removals, carrier losses, ticks and terminations keeps registry, transports, streams and attempts consistent |
| GatewaySafety.NoRunBreaks | apps/gateway/src/gateway-session.ts:159-205 | in no run does a handler meet an invalid transition (STREAM_CLOSED included), a generation mismatch at activation, or a resume start that fails to stay reconnecting |
| GatewaySafety.StreamAccounting | apps/gateway/src/gateway-session-lifecycle.ts:64-113 | every registered session in every run: ACTIVE means the stream map has as many entries as are counted, all on the current transport, and the committed generation is the session's; otherwise the map is empty; unregistered sessions hold no streams |
| GatewaySafety.OldTransportNeverReturns | apps/gateway/src/gateway-session.ts:107-126 | a transport captured before a resume attempt started is never current again and carries no stream |
| GatewaySafety.OnlyCurrentCarrierCommits | apps/gateway/src/gateway-carrier.ts:479-506 | a resumed session is activated only by the carrier whose socket it sits on, on the generation named |
| GatewaySafety.ResumeRaisesGeneration | apps/gateway/src/gateway-carrier.ts:252-291 | a resume attempt that starts moves the session to a higher generation |
| GatewayAnswers.CreateAnswers | apps/gateway/src/gateway-carrier.ts:153-216 | a creating HELLO is done exactly for a waiting carrier, a free tunnel and an admitted account; each rejection under its own condition, with nothing changed |
| GatewayAnswers.CreatedSession | apps/gateway/src/gateway-carrier.ts:153-216 | the session it registers, and that nothing else changes |
| GatewayAnswers.ResumeAnswers | apps/gateway/src/gateway-carrier.ts:219-291 | a resuming HELLO is done exactly when it comes from a waiting carrier, for a reconnecting session in its grace period, with proof of its owner, before the session has run out and with no other attempt open; without that proof nothing changes |
| GatewayAnswers.ResumedSession | apps/gateway/src/gateway-carrier.ts:219-291 | the resumed session is on the new socket, on new windows and the candidate generation, and nothing else changes |
| GatewayAnswers.OnlyAuthorizedResumesMove | apps/gateway/src/gateway-carrier.ts:219-291 | over any run, a session that ends on another transport was put on its last socket by an accepted resume that was authorized for its tunnel |
| GatewayAnswers.ActivationAnswers | apps/gateway/src/gateway-carrier.ts:457-506 | a new session is activated exactly if it is admitted |
| GatewayAnswers.CommitmentAnswers | apps/gateway/src/gateway-carrier.ts:457-506 | a resume is committed exactly for the open attempt, over its own carrier, admitted and in time; each rejection under its own condition |
| GatewayAnswers.StrangersDoNotActivate | apps/gateway/src/gateway-carrier.ts:457-506 | a carrier that does not speak for the routed session on its current generation changes nothing |
| GatewayAnswers.ProbeAnswers | apps/gateway/src/gateway-carrier.ts:385-399 | a probe gets the next id exactly for a routed session that is not active and has ids left |
| GatewayAnswers.StreamAnswers | apps/gateway/src/gateway-session.ts:187-205 | a stream opens exactly on a routed, active session that has ids left and has not run out; each rejection under its own condition |
| GatewayAnswers.OpenedStream | apps/gateway/src/gateway-session.ts:187-205 | the new stream is on the session's transport under the id just issued, and counted once |
| GatewayAnswers.RemovalAnswers | apps/gateway/src/gateway-session.ts:159-185 | a stream that is not the session's current one is not removed; one that is goes alone, with one fewer in the count |
| GatewayAnswers.TickAnswers | apps/gateway/src/gateway-operations.ts:114-136 | a tick ends a live session exactly when it has run out or its owner may no longer have it |
| GatewayAnswers.LossAnswers | apps/gateway/src/gateway-carrier.ts:575-636 | what the loss of its socket does to a session in each state of its life |
| GatewayAnswers.OtherLossesChangeNothing | apps/gateway/src/gateway-carrier.ts:575-636 | a socket that no session sits on any more takes nothing with it |
| GatewayAnswers.TerminationAnswers | apps/gateway/src/gateway-session-lifecycle.ts:64-77 | a routed session that is terminated ends without streams and leaves its route; any other is left alone |
| GatewayRuntime.GatewayRegistry.DisposeSession | apps/gateway/src/gateway-session-lifecycle.ts:64-77 | only a registered session is disposed of; it ends terminal, without streams and without a route |
| GatewayRuntime.GatewayRegistry.ApplySessionTransition | apps/gateway/src/gateway-session-lifecycle.ts:107-112 | stores the state, disposing of a session that expired |
| GatewayRuntime.GatewayRegistry.Provision | apps/gateway/src/gateway-carrier.ts:153-216 | a create HELLO registers a new session or changes nothing |
| GatewayRuntime.GatewayRegistry.AdoptSession | apps/gateway/src/gateway-carrier.ts:277-291 | the session moves to the new socket, new windows, fresh stream ids and the candidate generation |
| GatewayRuntime.GatewayRegistry.StartResume | apps/gateway/src/gateway-carrier.ts:219-291 | a resume HELLO performs the model's step, expiry included |
| GatewayRuntime.GatewayRegistry.IssueProbeStream | apps/gateway/src/gateway-carrier.ts:385-399 | a probe takes the next odd stream id of its session's transport, or none when they have run out |
| GatewayRuntime.GatewayRegistry.CommitActivation | apps/gateway/src/gateway-carrier.ts:457-506 | the returned probe activates a created or resumed session or changes nothing |
| GatewayRuntime.GatewayRegistry.BeginGatewayStream | apps/gateway/src/gateway-session.ts:187-205 | a new stream gets an id not in the map, or the expired session is disposed of |
| GatewayRuntime.GatewayRegistry.RemoveGatewayStream | apps/gateway/src/gateway-session.ts:159-185 | only the current stream object is removed, and the lifecycle hears of it once |
| GatewayRuntime.GatewayRegistry.TickSession | apps/gateway/src/gateway-operations.ts:114-136 | an expired or no longer authorized session is disposed of |
| GatewayRuntime.GatewayRegistry.CleanupCarrier | apps/gateway/src/gateway-carrier.ts:575-636 | a lost carrier closes the streams of its session, if it still is the session's, and moves the lifecycle on |
| GatewayRuntime.GatewayRegistry.CountSessions | apps/gateway/src/gateway-admission.ts:94-100 | the counting pass gives the sizes of the creating, live and owned sets |
| Admission.EveryRunIsWithinCapacity | apps/gateway/src/gateway-admission.ts:58-186 | any order of reserving, releasing any number of times, expiry, HELLOs and activations keeps every limit |
| Admission.CapacityOverWholeRuns | apps/gateway/src/gateway-admission.ts:89-174 | pending connections, reservations and creating sessions together stay within the pending limit, active and reconnecting sessions within theirs, and the sessions and reservations of each account within the account's |
| AdmissionAnswers.AdmissionIsExact | apps/gateway/src/gateway-admission.ts:89-110 | a tunnel is admitted if and only if a pending place, a live place and a place of its account are free, counted over connections, unexpired reservations and sessions |
| AdmissionAnswers.ReservationIsExact | apps/gateway/src/gateway-admission.ts:58-87 | a credential is reserved for sixty seconds if and only if a place is free for its tunnel and both credential quotas and the rate allow it |
| AdmissionAnswers.ConnectionIsExact | apps/gateway/src/gateway-admission.ts:154-164 | a connection gets its token if and only if a pending place is free |
| AdmissionAnswers.CreationIsExact | apps/gateway/src/gateway-carrier.ts:153-216 | a creating HELLO gets its session if and only if its carrier waits, the tunnel is free and, with its own pending place given back, it can be admitted |
| AdmissionAnswers.ActivationIsExact | apps/gateway/src/gateway-admission.ts:112-129 | a session is activated if and only if the other sessions leave a live place and a place of its owner's |
| AdmissionAnswers.ConsumptionIsExact | apps/gateway/src/gateway-admission.ts:140-152 | using a reservation takes the first unexpired one that matches and no other |
| GatewayRuntime.GatewayAdmission.CleanupCredentialReservations | apps/gateway/src/gateway-admission.ts:131-138 | exactly the expired reservations go, the rest keep their order |
| GatewayRuntime.GatewayAdmission.HasPendingTunnelCapacity | apps/gateway/src/gateway-admission.ts:166-174 | true exactly when the three kinds of pending slots leave room |
| GatewayRuntime.GatewayAdmission.CanAdmitNewTunnel | apps/gateway/src/gateway-admission.ts:89-110 | decides admission by the three counts after cleaning up |
| GatewayRuntime.GatewayAdmission.CanActivateTunnel | apps/gateway/src/gateway-admission.ts:112-129 | decides activation by the counts over all other sessions |
| GatewayRuntime.GatewayAdmission.ReserveCarrierCredential | apps/gateway/src/gateway-admission.ts:58-87 | performs the model's step; an id is returned if and only if a reservation was added, which lives sixty seconds |
| GatewayRuntime.GatewayAdmission.ConsumeCredentialReservation | apps/gateway/src/gateway-admission.ts:140-152 | the first matching reservation goes, and only that |
| GatewayRuntime.GatewayAdmission.ReservePendingCarrierConnection | apps/gateway/src/gateway-admission.ts:154-164 | a token is handed out exactly when there is room |
| GatewayRuntime.GatewayAdmission.ReleasePendingCarrier | apps/gateway/src/gateway-admission.ts:159-163 | releasing twice is the same as releasing once |
| RateLimiter.MinuteIsBounded | apps/gateway/src/gateway-admission.ts:188-215 | with a clock that does not run backwards, of the calls that the limiter admits one after the other no sixty-second span holds more than twice the limit, in total or for one key |
| RateLimiter.RefusedOnlyAtTheLimit | apps/gateway/src/gateway-admission.ts:199-213 | a call is refused only if as many calls as the limit allows, in total or for its key, were admitted within the last sixty seconds |
| RateLimiter.EveryRunIsBounded | apps/gateway/src/gateway-admission.ts:199-213 | no window of any run admits more than its limits, and windows start a full length apart |
| RateLimiter.FixedWindowRateLimiter.AdmitKey | apps/gateway/src/gateway-admission.ts:199-213 | rolls the window and admits or refuses as the model |
| AuthStore.AdministratorIsNeverLost | packages/auth/src/in-memory-auth-repository.ts:80-212 | from any state with an enabled administrator, every run of operations keeps one |
| AuthStore.BootstrapKeepsAdministrator | packages/auth/src/in-memory-auth-repository.ts:45-52 | the same from the first account on, if that is an enabled administrator |
| AuthStore.LastAdministratorIsExact | packages/auth/src/in-memory-auth-repository.ts:108-146 | LAST_ADMINISTRATOR is answered if and only if carrying the change out would leave no enabled administrator |
| AuthStore.EveryRunIsFresh | packages/auth/src/in-memory-auth-repository.ts:98-240 | every stored session, exchange and credential belongs to an enabled account and carries its current version; accounts never vanish and versions never fall |
| AuthStore.NothingOldIsConsumed | packages/auth/src/in-memory-auth-repository.ts:338-409 | nothing of an account's that was stored before the account was changed can be consumed after, whatever happened in between |
| AuthStore.ConsumedIsCurrent | packages/auth/src/in-memory-auth-repository.ts:360-409 | what is consumed is current, unexpired, proved and gone afterwards |
| AuthStore.EveryRunStaysWithin | packages/auth/src/in-memory-auth-repository.ts:221-240 | with fixed limits no kind of artifact exceeds its total or per-account quota, and the audit log stays below its reserve without repeated ids |
| AuthStore.EmptyIsWithin | packages/auth/src/in-memory-auth-repository.ts:24-37 | the empty repository meets both invariants |
| AuthAnswers.AuthorizationIsExact | packages/auth/src/in-memory-auth-repository.ts:460-467 | an account request is refused for want of authorization if and only if its actor is missing, disabled, at another version, bound to change its password without leave, or without the role required |
| AuthAnswers.AcceptedHasTheRole | packages/auth/src/in-memory-auth-repository.ts:460-467 | every accepted account request has an actor with the role required |
| AuthAnswers.CreateAnswers | packages/auth/src/in-memory-auth-repository.ts:80-96 | a new account is accepted exactly under a free id and name with room in the log; every other answer under its own condition, with nothing changed |
| AuthAnswers.MutationAnswers | packages/auth/src/in-memory-auth-repository.ts:98-127 | the answers to a change of an account, each under its exact condition and in order; the last administrator is counted over the other accounts |
| AuthAnswers.AcceptedMutation | packages/auth/src/in-memory-auth-repository.ts:160-189 | an accepted change stores what it says under the next version, logs its event, and takes every artifact of the account and no other |
| AuthAnswers.SaveAnswers | packages/auth/src/in-memory-auth-repository.ts:221-240 | an artifact is stored exactly for an enabled, current account and below both quotas, counted over the unexpired artifacts |
| AuthAnswers.ConsumeAnswers | packages/auth/src/in-memory-auth-repository.ts:396-409 | an artifact is handed out exactly with its proof and in time, and is then gone, alone |
| AuthAnswers.EveryChangeIsAuthorized | packages/auth/src/in-memory-auth-repository.ts:460-467 | over any run an account that is not what it was, was changed by an accepted request whose actor was enabled, current and had the role required at that moment |
| AuthRepository.DropExpired | packages/auth/src/in-memory-auth-repository.ts:229-231 | deleting while iterating removes exactly what has expired |
| AuthRepository.DropOwned | packages/auth/src/in-memory-auth-repository.ts:477-479 | deleting while iterating removes exactly what the account owns |
| AuthRepository.CountOwned | packages/auth/src/in-memory-auth-repository.ts:234-236 | counts the account's other artifacts |
| AuthRepository.SaveOn | packages/auth/src/in-memory-auth-repository.ts:229-239 | saves exactly when both quotas leave room, expired ones dropped first |
| AuthRepository.InMemoryAuthRepository.CreateFirstAccount | packages/auth/src/in-memory-auth-repository.ts:45-52 | performs the model's step |
| AuthRepository.InMemoryAuthRepository.CreateAccount | packages/auth/src/in-memory-auth-repository.ts:80-96 | performs the model's step |
| AuthRepository.InMemoryAuthRepository.SetAccountEnabled | packages/auth/src/in-memory-auth-repository.ts:98-127 | performs the model's step: new version, artifacts dropped, event logged, or a refusal that changes nothing |
| AuthRepository.InMemoryAuthRepository.SetAccountRoles | packages/auth/src/in-memory-auth-repository.ts:129-158 | the same for roles |
| AuthRepository.InMemoryAuthRepository.ReplaceAccountPassword | packages/auth/src/in-memory-auth-repository.ts:160-189 | the same for passwords, with the version the caller expects |
| AuthRepository.InMemoryAuthRepository.RevokeAccountSessions | packages/auth/src/in-memory-auth-repository.ts:191-212 | the same for revocation |
| AuthRepository.InMemoryAuthRepository.SaveSession | packages/auth/src/in-memory-auth-repository.ts:221-240 | performs the model's step |
| AuthRepository.InMemoryAuthRepository.SaveSessionExchange | packages/auth/src/in-memory-auth-repository.ts:338-358 | performs the model's step |
| AuthRepository.InMemoryAuthRepository.SaveCarrierCredential | packages/auth/src/in-memory-auth-repository.ts:375-394 | performs the model's step |
| AuthRepository.InMemoryAuthRepository.ConsumeSessionExchange | packages/auth/src/in-memory-auth-repository.ts:360-373 | performs the model's step |
| AuthRepository.InMemoryAuthRepository.ConsumeCarrierCredential | packages/auth/src/in-memory-auth-repository.ts:396-409 | performs the model's step |
| AuthRepository.InMemoryAuthRepository.EnabledAdministratorCount | packages/auth/src/in-memory-auth-repository.ts:454-458 | counts the enabled administrators |
| AuthRepository.InMemoryAuthRepository.DeleteAccountAuthArtifacts | packages/auth/src/in-memory-auth-repository.ts:476-486 | drops the account's artifacts of all three kinds and nothing else |
| AuthRepository.InMemoryAuthRepository.DeleteExpiredAuthArtifacts | packages/auth/src/in-memory-auth-repository.ts:411-452 | sessions, login intents, exchanges, credentials and throttles are swept in this order with what the earlier kinds left of the batch; nothing live goes, and a sweep below its batch has removed all that was due |
| ReviewFeed.FeedIsExact | apps/gateway/src/review-http.ts:99-220 | what a subscription has written is always an initial part of the events visible to its actor after the starting cursor: rising, none twice, none skipped, over any interleaving of appends, polls, partial writes, failures and closes |
| ReviewFeed.EveryRunIsExact | apps/gateway/src/review-http.ts:109-150 | while open, what was written and what is still to come make up everything after the start |
| ReviewFeed.AfterIsExact | packages/review/src/in-memory-review-repository.ts:303-318 | a listing holds exactly the visible events after the cursor, in order |
| ReviewFeed.ListingIsExact | packages/review/src/in-memory-review-repository.ts:303-318 | a listing is the oldest of what is visible after the cursor, as much as the limit allows |
| ReviewFeed.NothingPrivateIsSent | apps/gateway/src/review-http.ts:99-220 | in every interleaving nobody is sent an event of another place or one meant for another account |
| ReviewFeed.PollMakesProgress | apps/gateway/src/review-http.ts:121-150 | an undisturbed poll writes the next batch, and one below the limit leaves nothing unwritten |
| ReviewFeed.PageCursorCoversLaterEvents | packages/review/src/in-memory-review-repository.ts:183-188 | a subscription from a page's cursor gets exactly the scope's events recorded after the page was read |
| ReviewFeed.EventSubscription.constructor | apps/gateway/src/review-http.ts:194-204 | a subscription starts at its cursor with its first listing under way |
| ReviewFeed.EventSubscription.CloseSubscription | apps/gateway/src/review-http.ts:88-98 | closing is idempotent and changes nothing else |
| ReviewFeed.EventSubscription.StartPoll | apps/gateway/src/review-http.ts:124-133 | a poll starts only on an open subscription without another poll |
| ReviewFeed.EventSubscription.ReceiveListing | packages/review/src/in-memory-review-repository.ts:303-318 | the listing is taken from the cursor the poll started with |
| ReviewFeed.EventSubscription.WriteEventChunk | apps/gateway/src/review-http.ts:99-108 | a chunk is taken, taken with the subscription closed, or not written |
| ReviewFeed.EventSubscription.WriteBatch | apps/gateway/src/review-http.ts:109-120 | the write loop stops at the first chunk not taken, the cursor on the last one that was |
| ReviewFeed.EventSubscription.FinishPoll | apps/gateway/src/review-http.ts:134-149 | delivering the batch performs the model's step and frees the next poll |
| ReviewPages.PageIsExact | packages/review/src/in-memory-review-repository.ts:598-618 | a page holds the newest items before the cursor, as many as the limit allows, in order, and nextCursor is its oldest when there are more |
| ReviewPages.OlderIsExact | packages/review/src/in-memory-review-repository.ts:598-618 | older is created earlier, or at the same time under the smaller id |
| ReviewPages.WalkDescends | packages/review/src/in-memory-review-repository.ts:598-626 | a walk along nextCursor never repeats a position and never goes back |
| ReviewPages.WalkReadsEverything | packages/review/src/in-memory-review-repository.ts:183-223 | a walk that ends returns every item present at its start exactly once and in order, whatever is added or edited between reads |
| ReviewPages.SortDownSorts | packages/review/src/in-memory-review-repository.ts:603-605 | distinct positions come out strictly descending |
| ReviewStore.EveryRunIsSound | packages/review/src/in-memory-review-repository.ts:157-434 | every run keeps histories chained, resolver data, deletions and pins consistent, and only appends events |
| ReviewStore.HistoryIntegrity | packages/review/src/in-memory-review-repository.ts:258-301 | in every run a thread's history is a connected chain from OPEN to its status with consecutive versions, and RESOLVED holds exactly when resolver data is present |
| ReviewStore.PinsAreConsecutive | packages/review/src/in-memory-review-repository.ts:516-521 | the region pins of a revision and route are 1 to n, each held by exactly one comment |
| ReviewStore.RunCarries | packages/review/src/in-memory-review-repository.ts:258-434 | over any run a thread keeps its place, author and pin, versions and history only grow, and deleted content stays as it is |
| ReviewStore.DeletedIsFinal | packages/review/src/in-memory-review-repository.ts:351-374 | a deleted comment's text, version, workflow and number of replies never change again |
| ReviewStore.OneSuccessPerVersion | packages/review/src/content-mutation-policy.ts:13-28 | of all edits and deletions of one comment or reply, or status changes of one thread, that expect the same version, at most one succeeds in a run |
| ReviewStore.DecideStatusIsSound | packages/review/src/in-memory-review-repository.ts:258-282 | an accepted status change raises the workflow version by one and keeps the thread consistent |
| ReviewStore.DecideCommentIsSound | packages/review/src/in-memory-review-repository.ts:320-374 | an accepted edit or deletion raises the expected version by one and keeps the thread consistent |
| ReviewStore.DecideReplyIsSound | packages/review/src/in-memory-review-repository.ts:376-434 | the same for the reply that an id refers to |
| ReviewStore.EveryChangeIsAnnounced | packages/review/src/in-memory-review-repository.ts:523-540 | every change that succeeds leaves an event that those in its place find after the previous end of the log |
| ReviewAnswers.CommentAnswers | packages/review/src/content-mutation-policy.ts:13-31 | a comment is edited exactly by its author, deleted by its author or a manager, each in the states and at the version that allow it; every refusal under its own condition; the text given is the text stored |
| ReviewAnswers.ReplyAnswers | packages/review/src/content-mutation-policy.ts:13-31 | the same answers for a reply, by its own author, state and version |
| ReviewAnswers.StoredReply | packages/review/src/in-memory-review-repository.ts:376-434 | an accepted change of a reply stores the text given in that reply and changes nothing else |
| ReviewAnswers.StatusAnswers | packages/review/src/in-memory-review-repository.ts:258-301 | a status is changed exactly when it and the workflow version are as expected and the actor manages the project or, as the author, takes the thread out of review; what is then stored |
| ReviewAnswers.OtherAnswers | packages/review/src/in-memory-review-repository.ts:225-256 | a reply is taken exactly while the thread is neither resolved nor deleted, and stored as given |
| ReviewAnswers.CreationAnswers | packages/review/src/in-memory-review-repository.ts:157-181 | a comment is created exactly with access and under a new id, as given |
| ReviewAnswers.AnnouncementIsExact | packages/review/src/in-memory-review-repository.ts:523-540 | an accepted request announces its own kind of event, then one notification for each account it notifies, in order, and nothing more |
| ReviewAnswers.EveryBodyIsItsAuthors | packages/review/src/content-mutation-policy.ts:16-20 | over any run, what a comment says is what it said, what its author last made it say, or nothing by leave of its author or a manager |
| ReviewAnswers.EveryReplyIsItsAuthors | packages/review/src/content-mutation-policy.ts:16-20 | the same for every reply |
| ReviewRepository.InMemoryReviewRepository.TakePinNumber | packages/review/src/in-memory-review-repository.ts:516-521 | hands out the next number of the place and counts it |
| ReviewRepository.InMemoryReviewRepository.RecordChange | packages/review/src/in-memory-review-repository.ts:523-540 | the change's event and then one event per notified account, with consecutive ids |
| ReviewRepository.InMemoryReviewRepository.CreatePageComment | packages/review/src/in-memory-review-repository.ts:157-181 | performs the model's step |
| ReviewRepository.InMemoryReviewRepository.CreateReply | packages/review/src/in-memory-review-repository.ts:225-256 | performs the model's step |
| ReviewRepository.InMemoryReviewRepository.ChangePageCommentStatus | packages/review/src/in-memory-review-repository.ts:258-301 | performs the model's step |
| ReviewRepository.InMemoryReviewRepository.ChangeComment | packages/review/src/in-memory-review-repository.ts:320-374 | an edit, or a deletion when no text is given, performs the model's step |
| ReviewRepository.InMemoryReviewRepository.ChangeReply | packages/review/src/in-memory-review-repository.ts:376-434 | the same for a reply |
| Ipv6Text.FormatIpv6 | apps/gateway/src/client-address.ts:176-199 | the scanning loops find the leftmost longest run of at least two zero groups (section 4.2 of RFC 5952), the text compresses exactly that run, and reads back as the same eight groups |
| Ipv6Text.FormatParses | apps/gateway/src/client-address.ts:140-164 | whatever zero run is compressed, parsing the text gives the groups back |
| Ipv6Text.BestRunIsUnique | apps/gateway/src/client-address.ts:177-191 | there is only one run to compress |
| Ipv6Text.DottedTailIsTwoGroups | apps/gateway/src/client-address.ts:140-148 | a dotted IPv4 tail means the two groups that hold its halves |
| Ipv6Text.HexRoundTrip | apps/gateway/src/client-address.ts:159-163 | a group's hexadecimal text reads back as the group |
| ClientAddress.TrustedIsMembership | apps/gateway/src/client-address.ts:108-114 | an address is trusted if and only if one of the configured blocks, as an interval, contains it |
| ClientAddress.CidrAnswers | apps/gateway/src/client-address.ts:75-106 | a block is accepted exactly with a prefix that its family has, a mapped one as IPv4 |
| ClientAddress.Utf8LengthIsExact | apps/gateway/src/client-address.ts:50 | the header's bytes are one for each character, and one more from 0x80, 0x800 and 0x10000 on |
| ClientAddress.PrefixMaskClears | apps/gateway/src/client-address.ts:116-119 | masking with a prefix clears exactly the low bits |
| ClientAddress.ParsedCidrMatches | apps/gateway/src/client-address.ts:76-106 | a parsed block matches exactly the addresses of its interval |
| ClientAddress.MappedCidrIsIpv4 | apps/gateway/src/client-address.ts:90-98 | a mapped /(96+p) block parses into the same network as the IPv4 /p block (section 2.5.5.2 of RFC 4291) |
| ClientAddress.MappedBlockIsIpv4Block | apps/gateway/src/client-address.ts:90-98 | as sets of addresses the two blocks correspond |
| ClientAddress.MappedGroups | apps/gateway/src/client-address.ts:166-168 | the mapped addresses are those with five zero groups and ffff, and their low half is the IPv4 address |
| ClientAddress.ValueIsInRange | apps/gateway/src/client-address.ts:132-137 | eight groups denote a number of 128 bits |
| Ipv4Text.DottedRoundTrip | apps/gateway/src/client-address.ts:123-128 | four octets in dotted decimal read back as themselves |
| Ipv4Text.DottedIsInjective | apps/gateway/src/client-address.ts:170-174 | different octets have different texts |
| ClientAddress.ParseAddress | apps/gateway/src/client-address.ts:121-138 | a text gives the address it denotes, mapped IPv4 read as IPv4, with that address's canonical text, or nothing exactly when it denotes none |
| ClientAddress.CanonicalTextIsExact | apps/gateway/src/client-address.ts:121-138 | two addresses, of either family, have the same canonical text if and only if they are the same address |
| ClientAddress.CanonicalTextReadsBack | apps/gateway/src/client-address.ts:121-138 | a canonical text denotes the address it stands for |
| ClientAddress.ResolveClientAddress | apps/gateway/src/client-address.ts:41-73 | the header counts only from a trusted peer and within the limits; then the client is the nearest untrusted entry, or the farthest one if all are trusted, otherwise the peer; the answer is that client's canonical text, or "unknown" for a peer without address |
| ClientAddress.ClientIsUnique | apps/gateway/src/client-address.ts:41-73 | the trust rules name one client |
| ClientAddress.ResolvedIdentity | apps/gateway/src/client-address.ts:41-73 | whatever the resolver answers identifies that one client |
| ClientAddress.SameIdentityExactlyForSameClient | apps/gateway/src/client-address.ts:41-73 | two requests get the same answer if and only if they have the same client |
| Wire.TypeCodes | packages/protocol/src/envelope.ts:7-24 | the number of every frame type |
| Wire.ValidIsExact | packages/protocol/src/envelope.ts:82-98 | which envelopes can travel |
| Wire.FrameLayout | packages/protocol/src/envelope.ts:100-111 | where every field of a frame lies, in which byte order, and what the fixed bytes are |
| Wire.DecodeAnswers | packages/protocol/src/envelope.ts:114-160 | a frame is refused for the first header check that it fails |
| Wire.DecodeEncoded | packages/protocol/src/envelope.ts:83-185 | every envelope the encoder accepts decodes to itself |
| Wire.EncodeDecoded | packages/protocol/src/envelope.ts:114-185 | every frame the decoder accepts is the encoding of what it decoded |
| Wire.DecoderAcceptsTheImage | packages/protocol/src/envelope.ts:114-195 | the decoder accepts exactly the encodings of valid envelopes, and no two share one |
| Wire.EncodeEnvelope | packages/protocol/src/envelope.ts:83-112 | encoding succeeds exactly on valid envelopes and fills the buffer with the specified bytes |
| Wire.FromCode | packages/protocol/src/envelope.ts:7-24 | a byte names a frame type exactly when some type has that code |
| Wire.SendFlowControlledData | packages/relay/src/carrier.ts:52-75 | under any positive grants the frames sent decode to DATA of the stream, each within its grant and 32 KiB, whose payloads together are the chunk, or its beginning if the grants give out |

## Left out

- Sockets, HTTP handling, timers, buffering limits and promise scheduling: granting credit and sending the DATA frame is one step, and so is sending a WINDOW_UPDATE and releasing.
- The protocol model is of one direction of a connection, with the gateway's receive window at its end; towards the client the receive window is the client's, whose runs `ClientCredit` ties to it. The two directions of a stream ending together are not modelled.
- CreditSafety.LateDataIsTolerated: states tolerance for safe resets only, because it is false for the others; the exact condition is proved beside it.
- The activation probe's payload, the configuration handshake and the resume secret: whether they match is an input of the step.
- The flow windows a transport refers to are identities in the session registry; their contents are the subject of the flow-control part.
- One clock reading is used for a whole admission call, where the source may read the clock more than once.
- The authorization-attempt counter of admission, and login throttles and login intents beyond their sweep: the same pattern of bounded counters.
- Mention parsing and the choice of whom to notify: the notified accounts are an input of each change.
- Tunnel bindings, projects and revisions of the review repository: whether a request has access is an input.
- Page filters by status and author, and base64 cursors.
- Which texts the platform takes for IPv4 or IPv6 addresses, and the trimming of header entries: parameters of the address model. The texts taken for IPv4 are assumed to be four decimal octets.
- Non-integer numbers, which the source's argument checks refuse.
- Cryptography, JSON metadata, PostgreSQL adapters, web pages, metrics, canaries and deployment scripts.
