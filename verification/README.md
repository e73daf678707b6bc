# Sluice, modelled and proved in Dafny

Sluice is an L4/L7 proxy. Its hard parts are small stateful algorithms behind mutexes, and this
project models those: the load balancers, the circuit breaker, the pooled connection protocol with
the L4 relay on top of it, the token bucket, the service registry, the JWT codec, the router, the
traffic splitters and the latency histogram.

Code that updates fields in place is a class here, and each method is proved equal to a function of
the old state. Everything else is proved about those functions, over whole runs. Each mutex-protected
section is one atomic step. Where calls really interleave (the connection pool, the relay), a call is
a program counter and the runs are all interleavings of its steps; the registry's two locks are kept
apart in the same way. Time, randomness, dial results
and liveness checks are parameters.

`dafny verify dfyconfig.toml` checks everything.

| file | what it holds |
|---|---|
| `Wrappers.dfy` | optional values and results |
| `Counting.dfy` | sums and tallies over sequences, counts over windows of call numbers |
| `SmoothWeighted.dfy` | the arithmetic of smooth weighted round robin: conservation, bounds, exact cycles |
| `LoadBalancer.dfy` | the weighted and plain round robin balancers, and runs with health flips and reconfiguration |
| `WeightRange.dfy` | how far the running weights drift when health changes from call to call |
| `CircuitBreaker.dfy` | the breaker, and runs of concurrent callers with late, repeated and unsolicited reports |
| `ConnPool.dfy` | the pool as a step system: ownership invariant and bookkeeping |
| `ConnAge.dfy` | the age of a connection over whole runs: checkouts, returns, expiry |
| `ConnClosings.dfy` | how often a socket is closed, and when the active count moves |
| `Backend.dfy` | get, put, Close, CloseWrite and Dial as methods, and their refinement to the steps of ConnPool |
| `Relay.dfy` | two copy directions over two shared sockets, with half-close: safety, independence, completion |
| `Layer4.dfy` | many handlers over one pool: whose connection is whose |
| `TokenBucket.dfy` | lazy refill, its min-plus closed form, and the admission theorem |
| `Registry.dfy` | the event-emitting service map and its subscribers |
| `Base64Url.dfy`, `Jwt.dfy` | the codec, and signing, parsing and verifying tokens |
| `Router.dfy` | the ranked route table |
| `Splitter.dfy` | counter-driven and random traffic splitting |
| `Histogram.dfy` | recording, labelled snapshot and cumulative export |

## Where the prose and the code differ

The model follows the code.

- The comment beside the weighted balancer gives A A B A A C A for weights 5, 1, 1
  (`internal/loadbalancer/loadbalancer.go:247-248`). The code selects A A B A C A A (`FiveOneOne`).
- The balancer's zero-sum law survives health flips, additions and updates (`BalancedWithoutRemovals`)
  but not every removal (`RemovalCanBreakBalance`): it survives exactly the removals of a backend
  whose running weight is zero (`RemovalKeepsZeroSumIff`); in general the sum is minus what removals
  took away (`RunConservation`).
- The breaker's window is called rolling (`docs/DESIGN-DECISIONS.md:118`), but it tumbles: it restarts
  only on a failure that falls outside it. Consecutive failures within one window length trip it if
  and only if those that fall into the current window complete it or those after it are enough by
  themselves (`TripIff`). So 2 * FailureThreshold - 1 are always enough (`TripIsCompleteOnRuns`), and
  one fewer is not (`TwoThresholdsMinusTwoMayNotTrip`).
- A success of a request admitted before the half-open state also frees a probe slot, so more probes
  than the cap can be outstanding (`StrangerFreesSlot`). The in-flight counter is the number of
  unreported probes throughout an episode if and only if no such success arrives while a slot is
  taken (`EpisodeCountsIff`). The bound on a whole episode needs no hypothesis
  (`EpisodeAdmissionBound`), and callers that each report once attain it (`EpisodeBoundIsTight`).
- IdleTimeout is described as closing a connection that was idle for longer
  (`internal/backend/backend.go:213`). Its age runs from the last checkout, not from the return
  (`TimesAreRecorded`), and get and put discard a live connection if and only if it is too old by that
  count (`GetDiscardsIff`, `PutRefusesIff`). So a connection is dropped although it was idle for less
  exactly between LastCheckout + IdleTimeout and LastReturn + IdleTimeout (`DiscardsEarlyIff`); one that
  was idle for 2 under a timeout of 10 is (`DroppedAfterTwo`).
- `Close` closes the socket again after a `put` that already closed it. A socket is closed at most
  twice, and twice exactly when a put rejected its connection (`ClosedAtMostTwice`).
- An abandoned probe is said to be unable to wedge the breaker shut
  (`docs/DESIGN-DECISIONS.md:104-105`). It can: without a report or a reset, Allow calls at any times are
  admitted if and only if a slot is free (`WedgedIff`, `OnlyReportsFreeSlots`), and probes that never
  report take all of them (`AbandonedProbesWedge`).
- Stripping the port cuts at the last colon of the host, so an IPv6 literal without a port loses its
  last group (`StripPortCutsLiteral`); a host is left alone if and only if it has no colon
  (`StripPortMeans`).
- The comment on `Dial` says the active count goes up before dialling. The code raises it only in the
  last step, when the connection exists, so a Dial that fails never moves it (`ActiveMovesIff`).
- `SignHS256` accepts an empty key that `verifyHS256` refuses, so a signed token verifies with its own
  key if and only if the key is not empty (`SignedTokenVerifies`). Accepted texts are not unique: one
  is what signing its parts yields if and only if all its parts are canonical (`VerifiedIsSignedIff`).
- `formatMs` prints one character of whole seconds. The exported histogram agrees with the recordings
  if and only if every boundary is below one second or a whole number of seconds from 1 to 9
  (`ExportAgreesIff`); the built-in boundaries all are (`DefaultBoundsAreProper`).

## Model

| member | source | states |
|---|---|---|
| `SmoothWeighted.ScanFindsLeader` | internal/loadbalancer/loadbalancer.go:294-313 | the scan finds the first healthy backend of largest weight, and none exactly when none is healthy |
| `SmoothWeighted.LeaderIsUnique` | internal/loadbalancer/loadbalancer.go:294-313 | that description determines the selected backend |
| `SmoothWeighted.AdvanceKeepsSum` | internal/loadbalancer/loadbalancer.go:294-318 | a call with any health flags leaves the sum of all running weights unchanged |
| `SmoothWeighted.NothingUpNothingMoves` | internal/loadbalancer/loadbalancer.go:311-313 | a call that finds nothing healthy moves no weight |
| `SmoothWeighted.RunBounds` | internal/loadbalancer/loadbalancer.go:286-319 | under fixed health, after any number of calls the healthy weights sum to zero, each is above -W, and unhealthy backends are neither moved nor selected |
| `SmoothWeighted.Ledger` | internal/loadbalancer/loadbalancer.go:294-318 | a running weight is what it was plus t shares minus W per selection |
| `SmoothWeighted.RunningWeightRange` | internal/loadbalancer/loadbalancer.go:286-319 | under fixed health every running weight stays within [1 - W, (N - 1)(W - 1)] for ever |
| `SmoothWeighted.Quota` | internal/loadbalancer/loadbalancer.go:286-319 | at every call number a backend is less than one selection ahead of its share and at most (N - 1)(W - 1)/W behind it |
| `SmoothWeighted.CycleIsExact` | internal/loadbalancer/loadbalancer.go:286-319 | after k * W calls each healthy backend was selected exactly k * w times, the others never, and all weights are back |
| `SmoothWeighted.SelectionIsPeriodic` | internal/loadbalancer/loadbalancer.go:286-319 | the sequence of selections has period W |
| `WeightRange.CallKeepsEven` | internal/loadbalancer/loadbalancer.go:286-319 | a call with any health flags keeps, for every subset of k backends, their running weights at or below W * k * (N - k), and the sum of all at zero |
| `WeightRange.AddKeepsEven` | internal/loadbalancer/loadbalancer.go:333-341 | adding a backend keeps that too |
| `WeightRange.EvenIsBounded` | internal/loadbalancer/loadbalancer.go:286-341 | so each running weight is within (N - 1) * W of zero |
| `SmoothWeighted.FiveOneOne` | internal/loadbalancer/loadbalancer.go:247-248 | weights 5, 1, 1 give A A B A C A A, unlike the comment |
| `LoadBalancer.NewBackendWithWeight` | internal/backend/backend.go:58-68 | keeps the address and a weight of at least 1; any other weight becomes 1 |
| `LoadBalancer.WeightedRoundRobin.constructor` | internal/loadbalancer/loadbalancer.go:273-283 | every backend enters with its own weight and a running weight of zero |
| `LoadBalancer.WeightedRoundRobin.CreditHealthy` | internal/loadbalancer/loadbalancer.go:294-309 | the loop credits exactly the healthy backends and finds the leader and the total |
| `LoadBalancer.WeightedRoundRobin.Next` | internal/loadbalancer/loadbalancer.go:286-319 | selects the leader, moves the weights by Advance, and errs exactly when there is no backend or none is healthy |
| `LoadBalancer.WeightedRoundRobin.AddBackend` | internal/loadbalancer/loadbalancer.go:333-341 | a new backend joins at the end with a running weight of zero |
| `LoadBalancer.WeightedRoundRobin.RemoveBackend` | internal/loadbalancer/loadbalancer.go:344-356 | removes the first backend at the address, reports whether there was one |
| `LoadBalancer.WeightedRoundRobin.UpdateBackends` | internal/loadbalancer/loadbalancer.go:359-372 | replaces the table and forgets all running weights |
| `LoadBalancer.WithoutIsPermutation` | internal/loadbalancer/loadbalancer.go:348-353 | the swap-with-last removal loses exactly the one entry, puts the last in its place and leaves every other where it was |
| `LoadBalancer.ApplyKeepsBalance` | internal/loadbalancer/loadbalancer.go:286-372 | what each operation does to the sum of the running weights |
| `LoadBalancer.RunConservation` | internal/loadbalancer/loadbalancer.go:273-372 | in every run of calls, health flips, additions, removals and updates, the running weights plus what removals took away sum to zero |
| `LoadBalancer.BalancedWithoutRemovals` | internal/loadbalancer/loadbalancer.go:273-372 | in every run without removals, whatever the health flips, additions and updates, the running weights sum to zero |
| `WeightRange.RunWeightRange` | internal/loadbalancer/loadbalancer.go:273-372 | in every run without removals, with health flags that differ from call to call, additions and updates, every running weight stays within (N - 1) * W of zero |
| `LoadBalancer.RemovalKeepsZeroSumIff` | internal/loadbalancer/loadbalancer.go:344-356 | a removal keeps the zero sum exactly when the removed running weight is zero or nothing is removed |
| `LoadBalancer.RemovalCanBreakBalance` | internal/loadbalancer/loadbalancer.go:344-356 | two backends of weight 1, one call, the selected one removed: the sum is 1 |
| `LoadBalancer.RepeatFollowsWeights` | internal/loadbalancer/loadbalancer.go:286-319 | repeated Next on the table is the weight arithmetic and changes nothing else |
| `LoadBalancer.SelectionsArePicks` | internal/loadbalancer/loadbalancer.go:286-319 | selections counted on the table are those counted on the weights |
| `LoadBalancer.FullCycles` | internal/loadbalancer/loadbalancer.go:273-319 | a new balancer over healthy backends, called k * W times, is back in its initial state having selected each backend k times its weight |
| `LoadBalancer.RoundRobin.constructor` | internal/loadbalancer/loadbalancer.go:68-72 | starts with the counter at zero |
| `LoadBalancer.RoundRobin.Next` | internal/loadbalancer/loadbalancer.go:75-95 | selects the first healthy position at or after the new counter modulo n; errs exactly when there is no backend or none is healthy |
| `LoadBalancer.SelectsWithinGap` | internal/loadbalancer/loadbalancer.go:84-92 | a call starting e positions before a healthy backend lands on it exactly when e is below its distance to the previous healthy one |
| `LoadBalancer.RoundRobinShare` | internal/loadbalancer/loadbalancer.go:75-95 | in any n consecutive calls under fixed health a healthy backend is selected exactly as often as that distance |
| `LoadBalancer.RoundRobinEven` | internal/loadbalancer/loadbalancer.go:75-95 | with all healthy each is selected exactly once in any n consecutive calls |
| `CircuitBreaker.Normalize` | internal/circuitbreaker/circuitbreaker.go:122-137 | non-negative configurations become usable ones, usable ones are kept, and zero fields get the defaults: 5 failures, 1 success, as many probes as successes, 30 s, 60 s |
| `CircuitBreaker.CircuitBreaker.constructor` | internal/circuitbreaker/circuitbreaker.go:122-144 | starts closed, with the window starting now and all counters zero |
| `CircuitBreaker.CircuitBreaker.Allow` | internal/circuitbreaker/circuitbreaker.go:157-194 | one Allow step of the state machine; requests and rejections are counted |
| `CircuitBreaker.CircuitBreaker.RecordResult` | internal/circuitbreaker/circuitbreaker.go:200-255 | one report step of the state machine; successes and failures are counted |
| `CircuitBreaker.CircuitBreaker.ReleaseProbe` | internal/circuitbreaker/circuitbreaker.go:259-263 | frees one slot, never below zero |
| `CircuitBreaker.CircuitBreaker.Reset` | internal/circuitbreaker/circuitbreaker.go:297-305 | back to closed with a new window, keeping the time of the last failure |
| `CircuitBreaker.StepKeepsInv` | internal/circuitbreaker/circuitbreaker.go:157-305 | the invariant tying counters, history and probes survives every call in every state |
| `CircuitBreaker.PlayKeepsInv` | internal/circuitbreaker/circuitbreaker.go:157-305 | so it holds in every run |
| `CircuitBreaker.HistoryOf` | internal/circuitbreaker/circuitbreaker.go:157-305 | every run has a history |
| `CircuitBreaker.HistoryIsPlay` | internal/circuitbreaker/circuitbreaker.go:157-305 | and its states are those of the run |
| `CircuitBreaker.HistoryKeepsInv` | internal/circuitbreaker/circuitbreaker.go:157-305 | and all of them satisfy the invariant |
| `CircuitBreaker.EpisodeAdmissionBound` | internal/circuitbreaker/circuitbreaker.go:168-221 | under every interleaving one half-open episode admits at most MaxHalfOpenRequests + SuccessThreshold - 1 requests |
| `CircuitBreaker.EpisodeBoundIsTight` | internal/circuitbreaker/circuitbreaker.go:168-221 | for every configuration callers that each report once, in their turn, attain that bound |
| `CircuitBreaker.ProbesInFlight` | internal/circuitbreaker/circuitbreaker.go:168-221 | the unreported probes exceed the cap by at most one per success of a request that is not one of them |
| `CircuitBreaker.StepCountsIff` | internal/circuitbreaker/circuitbreaker.go:168-221 | from a half-open state in which halfOpenInFlight is the number of unreported probes, a step that stays half-open keeps it so exactly when it is not a foreign success that finds a slot taken |
| `CircuitBreaker.EpisodeCountsIff` | internal/circuitbreaker/circuitbreaker.go:168-221 | halfOpenInFlight is the number of unreported probes throughout an episode if and only if no such success occurs in it |
| `CircuitBreaker.StrangerFreesSlot` | internal/circuitbreaker/circuitbreaker.go:211-213 | a run in which a stale success lets a second probe out under a cap of one |
| `CircuitBreaker.TripIsSound` | internal/circuitbreaker/circuitbreaker.go:239-253 | closed becomes open only when the last FailureThreshold recorded results are failures spanning at most Window |
| `CircuitBreaker.WindowFillsIff` | internal/circuitbreaker/circuitbreaker.go:239-253 | inside one window failures open the circuit exactly when they reach the threshold |
| `CircuitBreaker.TripIff` | internal/circuitbreaker/circuitbreaker.go:239-253 | from any closed state, consecutive failures in order within a span of Window open the circuit if and only if those up to windowStart + Window complete the count or those after it alone reach the threshold |
| `CircuitBreaker.TripIffOnRuns` | internal/circuitbreaker/circuitbreaker.go:222-253 | the same after any run that ends closed |
| `CircuitBreaker.TripIsComplete` | internal/circuitbreaker/circuitbreaker.go:239-253 | from any closed state, 2 * FailureThreshold - 1 failures less those already counted, within a span of Window, open it |
| `CircuitBreaker.TripIsCompleteOnRuns` | internal/circuitbreaker/circuitbreaker.go:222-253 | so do 2 * FailureThreshold - 1 consecutive failures after any run that ends closed |
| `CircuitBreaker.TwoThresholdsMinusTwoMayNotTrip` | internal/circuitbreaker/circuitbreaker.go:242-245 | for every configuration one failure fewer, within one time unit, can leave it closed |
| `CircuitBreaker.OpenIsQuiet` | internal/circuitbreaker/circuitbreaker.go:168-194 | before the timeout nothing but Reset moves an open breaker and nobody is admitted |
| `CircuitBreaker.QuietAfterTrip` | internal/circuitbreaker/circuitbreaker.go:168-253 | after any trip at T no Allow before T + Timeout is admitted, whatever stale results arrive |
| `CircuitBreaker.OpenRecovers` | internal/circuitbreaker/circuitbreaker.go:168-221 | past the timeout SuccessThreshold sequential successes are all admitted and close the circuit with no failures counted |
| `CircuitBreaker.FailedProbeReopens` | internal/circuitbreaker/circuitbreaker.go:230-238 | a failure reported in half-open opens the circuit again, and nobody passes before its time plus Timeout |
| `CircuitBreaker.EpisodeEndsIff` | internal/circuitbreaker/circuitbreaker.go:210-238 | a half-open episode ends closed if and only if the event is a Reset or the success that makes SuccessThreshold of them since the episode began, and the circuit then starts over with no failures and a new window; it ends open if and only if the event is a failure |
| `CircuitBreaker.ClosedAdmits` | internal/circuitbreaker/circuitbreaker.go:164-166 | in every run a closed breaker admits every caller and is not moved by it |
| `CircuitBreaker.ResetCloses` | internal/circuitbreaker/circuitbreaker.go:297-305 | in every run a Reset closes the circuit and clears everything counted, with a new window |
| `CircuitBreaker.OnlyReportsFreeSlots` | internal/circuitbreaker/circuitbreaker.go:181-191 | until somebody reports or resets, a half-open breaker admits exactly as many of the Allow calls, at whatever times, as it has slots left |
| `CircuitBreaker.WedgedIff` | internal/circuitbreaker/circuitbreaker.go:181-191 | so Allow calls alone are all refused, and change nothing, if and only if no slot is free |
| `CircuitBreaker.AbandonedProbesWedge` | internal/circuitbreaker/circuitbreaker.go:168-191 | callers of one episode that never report are admitted MaxHalfOpenRequests times in all |
| `ConnPool.CloseStepKeepsInv` | internal/backend/backend.go:313-335 | every step of Close and put keeps the ownership invariant |
| `ConnPool.GetStepKeepsInv` | internal/backend/backend.go:273-307 | every step of get keeps it |
| `ConnPool.StepKeepsInv` | internal/backend/backend.go:177-208 | and every step of any call in progress |
| `ConnPool.CloseKeepsInv` | internal/backend/backend.go:472-485 | the locked section of Close keeps it, also when called late or twice |
| `ConnPool.CloseWriteKeepsInv` | internal/backend/backend.go:510-522 | CloseWrite keeps it, also when called after Close |
| `ConnPool.RunKeepsInv` | internal/backend/backend.go:177-522 | it holds in every interleaving of all calls |
| `ConnPool.IdleIsClean` | internal/backend/backend.go:273-335 | in every interleaving an idle connection is marked returned, never sent a FIN, is open, belongs to no call and is idle only once; at most MaxIdle are idle |
| `ConnPool.EveryConnectionIsPlaced` | internal/backend/backend.go:177-522 | every dialled connection is checked out, idle, held by exactly one call, or closed, and these exclude one another as stated |
| `ConnPool.CloseSettles` | internal/backend/backend.go:313-335 | every step of Close and put moves both sides of each account alike |
| `ConnPool.GetSettles` | internal/backend/backend.go:273-307 | so does every step of get |
| `ConnPool.DialSettles` | internal/backend/backend.go:187-207 | and every step of dialling |
| `ConnPool.RunKeepsBooks` | internal/backend/backend.go:177-358 | in every reachable state the counters account for every connection and every call |
| `ConnPool.QuiescentBooks` | internal/backend/backend.go:177-358 | with no call mid-step: returned = hits + idle + drops by get, hits + misses = Dial calls, every miss dialled, and activeConns is the number of connections not handed back |
| `ConnClosings.ActiveMovesIff` | internal/backend/backend.go:177-208 | activeConns moves in exactly two steps: down after the locked section of Close, up in the last step of a Dial that has its connection |
| `ConnAge.TimesAreRecorded` | internal/backend/backend.go:401-413 | in every interleaving lastUsed is the time of the last dial or reuse of the connection and createdAt that of its dial |
| `ConnAge.GetDiscardsIff` | internal/backend/backend.go:285-300 | get discards a live connection if and only if the time since its last checkout exceeds IdleTimeout or the time since its dial MaxLifetime, however recently it came back |
| `ConnAge.PutRefusesIff` | internal/backend/backend.go:313-335 | put refuses one if and only if the same holds, so one in use for longer than IdleTimeout is never pooled |
| `ConnAge.OfferPoolsIff` | internal/backend/backend.go:322-334 | in every interleaving put sends the connection to the channel if and only if that has room |
| `ConnAge.BackAfterCheckout` | internal/backend/backend.go:313-335 | while a connection is back, its last return is not before its last checkout |
| `ConnAge.DiscardsEarlyIff` | internal/backend/backend.go:459-470 | a connection idle for longer than IdleTimeout is discarded, and one that was not is discarded exactly between LastCheckout + IdleTimeout and LastReturn + IdleTimeout |
| `Backend.DroppedAfterTwo` | internal/backend/backend.go:459-470 | IdleTimeout 10: checked out at 0, returned at 9, dropped by a get at 11 |
| `ConnClosings.ClosedAtMostTwice` | internal/backend/backend.go:329-333 | in every interleaving a socket is closed at most twice, and, once nobody holds the connection, twice exactly when a put rejected it |
| `Backend.PooledBackend.Get` | internal/backend/backend.go:273-307 | the draining loop computes GetAll |
| `Backend.PooledBackend.Discard` | internal/backend/backend.go:285-296 | counts a drop and closes the socket |
| `Backend.PooledBackend.Reuse` | internal/backend/backend.go:297-300 | counts a hit and marks the connection checked out now |
| `Backend.GetTakesFirstGood` | internal/backend/backend.go:273-307 | get hands out the first connection that is neither expired nor dead, drops, counts and closes exactly those before it and keeps those after; with none it empties the channel and counts a miss; nothing else changes |
| `Backend.PooledBackend.Put` | internal/backend/backend.go:313-335 | pools the connection or drops and closes it, and says which |
| `Backend.PooledBackend.Close` | internal/backend/backend.go:472-497 | the first Close hands back or closes, a later one does nothing |
| `Backend.PooledBackend.CloseWrite` | internal/backend/backend.go:510-522 | is the CloseWrite step of the pool |
| `Backend.PooledBackend.Reach` | internal/backend/backend.go:187-207 | counts the attempt, and a failure or a new checked-out connection |
| `Backend.PooledBackend.Dial` | internal/backend/backend.go:177-208 | a pooled connection if get has one, else the network |
| `Backend.DialledIsCheckedOut` | internal/backend/backend.go:177-208 | what Dial hands out is never marked returned |
| `Backend.ClosePoolsIff` | internal/backend/backend.go:472-497 | the first Close makes the connection idle if and only if pooling is on, it is not half-closed, not older than either limit and the channel has room, and otherwise closes the socket; the counters follow; a later Close changes nothing |
| `Backend.DialMeans` | internal/backend/backend.go:177-208 | Dial hands out the first good idle connection without the network, else tries it once and hands out a new connection exactly when that succeeds; the counters follow |
| `Backend.GetIsSteps` | internal/backend/backend.go:273-307 | get without interference is a run of its own steps in the step system, to the same state |
| `Backend.CloseIsSteps` | internal/backend/backend.go:472-497 | Close together with put, without interference, is its locked section followed by steps of its own call, to the same state |
| `Backend.DialIsSteps` | internal/backend/backend.go:177-208 | so is Dial, whether it hits, misses or is refused by the network |
| `Relay.StepKeepsInv` | internal/proxy/tcp.go:482-506 | every step of either direction keeps the relay invariant |
| `Relay.ShutSocketCuts` | internal/proxy/tcp.go:491-499 | a copy over a socket that the proxy had closed or shut would end with nothing delivered |
| `Relay.StepCopyIsStepDir` | internal/proxy/tcp.go:482-506 | where no socket is in the way, a step on the shared sockets is the step of a direction by itself and touches nothing else |
| `Relay.NeverInTheWay` | internal/proxy/tcp.go:423-457 | in every run neither copy is cut off, and while a direction copies both sockets are open and the half it writes to is not shut |
| `Relay.RelayIsSafe` | internal/proxy/tcp.go:423-457 | in every run delivered bytes are a prefix of sent bytes, a FIN goes out only after its copy ended, and a socket closes only after both FINs |
| `Relay.FinIsFinal` | internal/proxy/tcp.go:491-499 | nothing is delivered after the FIN, however the run goes on |
| `Relay.ErrorFreeRunDeliversAll` | internal/proxy/tcp.go:423-457 | a closed run without errors delivered both streams whole and both FINs |
| `Relay.DirectionsAreIndependent` | internal/proxy/tcp.go:432-450 | although they share both sockets, each direction is where its own steps alone would bring it, so an early half-close takes nothing from the other |
| `Relay.NeverStuck` | internal/proxy/tcp.go:432-453 | with both peers done some step is possible until the sockets are closed |
| `Relay.RelayCompletes` | internal/proxy/tcp.go:423-457 | then every run of normal steps is bounded, and one that cannot go on has closed the sockets with both streams whole |
| `Layer4.RunKeepsInv` | internal/proxy/tcp.go:414-457 | any number of handlers over one pool: the pool is unused, and every connection is with one handler or one call and in the state that one left it in |
| `Layer4.PoolNeverHits` | internal/proxy/tcp.go:414-457 | in every run of L4 handlers the idle channel is empty, hits and returned stay 0 and every Dial goes to the network |
| `Layer4.ConnectionIsExclusive` | internal/backend/backend.go:472-522 | in every run a handler's connection is with no other handler or call; until the handler leaves it is open, not handed back and has a FIN exactly when this handler half-closed it; afterwards it is handed back with its FIN sent |
| `Layer4.EveryRelayIsSafe` | internal/proxy/tcp.go:423-457 | so a connection's FIN, return or close comes only after the client's copy is over, and with no error the backend had the whole stream before the FIN and the client the whole stream before the return |
| `TokenBucket.Limiter.constructor` | internal/ratelimiter/ratelimiter.go:65-79 | starts full, with rate and burst made positive |
| `TokenBucket.Limiter.RefillNow` | internal/ratelimiter/ratelimiter.go:143-151 | tokens become the least of capacity and tokens + rate * elapsed, keeping 0 <= tokens <= capacity |
| `TokenBucket.Limiter.AllowN` | internal/ratelimiter/ratelimiter.go:98-114 | grants n if and only if n is at most capacity and at most tokens + rate * elapsed, and takes n then; decisions are counted |
| `TokenBucket.Limiter.Stats` | internal/ratelimiter/ratelimiter.go:125-139 | refills and reports |
| `TokenBucket.Limiter.SetRate` | internal/ratelimiter/ratelimiter.go:154-162 | refills at the old rate before changing it; ignores rates that are not positive |
| `TokenBucket.Limiter.Reset` | internal/ratelimiter/ratelimiter.go:165-170 | full again from now |
| `TokenBucket.AdmitsIff` | internal/ratelimiter/ratelimiter.go:98-151 | a bucket admits n if and only if n is at most its capacity and at most its tokens plus rate times elapsed time; what it holds after |
| `TokenBucket.RateIsInForce` | internal/ratelimiter/ratelimiter.go:154-162 | the rate in force is that of the last SetRate |
| `TokenBucket.ClosedForm` | internal/ratelimiter/ratelimiter.go:98-170 | tokens found by a call are the minimum, over the calls j since the last Reset, of capacity + accrual since j - grants since j, where the accrual is the rate last set times the elapsed time, piece by piece |
| `TokenBucket.FixedRateClosedForm` | internal/ratelimiter/ratelimiter.go:98-170 | at a fixed rate that is the minimum of capacity + rate * (t - t_j) - grants since j |
| `TokenBucket.WindowBound` | internal/ratelimiter/ratelimiter.go:98-170 | no window grants more than a capacity, one more for every Reset in it, plus accrual |
| `TokenBucket.RateLimit` | internal/ratelimiter/ratelimiter.go:98-151 | at a fixed rate no window grants more than capacity + rate * (end - begin), with one more capacity for every Reset |
| `TokenBucket.AdmittedIffFits` | internal/ratelimiter/ratelimiter.go:98-170 | a trace is admitted in full if and only if the demand of every window between Resets fits its bound |
| `TokenBucket.RefillComposes` | internal/ratelimiter/ratelimiter.go:143-151 | refilling twice is refilling once |
| `TokenBucket.StatsAreInvisible` | internal/ratelimiter/ratelimiter.go:125-139 | interleaved Stats calls change no decision and nothing a later call finds |
| `Registry.Registry.Announcing` | internal/registry/registry.go:363-378 | every subscriber with room gets the event, the others miss it |
| `Registry.Registry.Register` | internal/registry/registry.go:161-211 | stores the entry with its first registration time and announces Registered or Updated; refused exactly when full and new |
| `Registry.Registry.Deregister` | internal/registry/registry.go:215-239 | removes and announces, or reports that there is no such service |
| `Registry.Registry.Heartbeat` | internal/registry/registry.go:243-254 | moves the heartbeat time and nothing else |
| `Registry.Registry.RemoveOverdue` | internal/registry/registry.go:398-410 | takes out exactly the overdue services, each listed once, in whatever order |
| `Registry.Registry.CleanupExpired` | internal/registry/registry.go:398-427 | then announces each of them once |
| `Registry.RegisterMeans` | internal/registry/registry.go:161-211 | an accepted registration stores name, address, tags, metadata, ttl and weight (1 if not positive) as given and announces exactly that; it is refused, and changes nothing, exactly when full and new; no other id is touched |
| `Registry.StoredIsLastRegistered` | internal/registry/registry.go:161-211 | in every run what is stored under an id is what its last accepted registration said |
| `Registry.DeregisterMeans` | internal/registry/registry.go:215-239 | the id is gone, what was there is announced, and no other id is touched |
| `Registry.Registry.Subscribe` | internal/registry/registry.go:325-334 | opens an empty channel at the current point of the trace |
| `Registry.Registry.Unsubscribe` | internal/registry/registry.go:337-344 | removes the channel |
| `Registry.TraceExplainsRegistry` | internal/registry/registry.go:161-427 | in every run, and between any two announcements, the trace of the events announced and about to be folds to the map up to heartbeat times, has per id the shape (Registered Updated* (Deregistered or Expired))*, and dates each life |
| `Registry.RunStaysWithinLimit` | internal/registry/registry.go:170-176 | a positive MaxServices is never exceeded |
| `Registry.CleanupIsExact` | internal/registry/registry.go:398-410 | cleanup keeps a service, unchanged, exactly when it is not past its effective TTL, and announces exactly the others |
| `Registry.HeartbeatIsLastTouch` | internal/registry/registry.go:243-254 | the stored heartbeat is the time of the last registration or heartbeat of that id in the run |
| `Registry.ExpiresIffSilent` | internal/registry/registry.go:86-92 | over whole runs cleanup removes a service exactly when it has been silent for more than its effective TTL |
| `Registry.SubscribersHear` | internal/registry/registry.go:325-378 | what a subscriber got or will get is the trace since it subscribed with only counted losses, in order |
| `Registry.LostIffFull` | internal/registry/registry.go:363-378 | an announcement is lost on a subscriber if and only if 16 events are waiting for it |
| `Registry.SubscriberRebuildsRegistry` | internal/registry/registry.go:325-378 | one there from the start that missed nothing can rebuild the map once nothing is left to announce |
| `Base64Url.EncodeIsRaw` | internal/auth/jwt.go:218-220 | the output is the unpadded digits, all in the URL alphabet, without '=' or '.' |
| `Base64Url.AlphabetRuns` | internal/auth/jwt.go:204-220 | the 64 digits are A to Z, a to z, 0 to 9, - and _ in that order |
| `Base64Url.ValuesAreDigits` | internal/auth/jwt.go:204-220 | and exactly these have a value |
| `Base64Url.VectorOfOne` | internal/auth/jwt.go:218-220 | "f" encodes to "Zg" (section 10 of RFC 4648) |
| `Base64Url.VectorOfTwo` | internal/auth/jwt.go:218-220 | "fo" encodes to "Zm8" |
| `Base64Url.VectorOfThree` | internal/auth/jwt.go:218-220 | "foo" encodes to "Zm9v" |
| `Base64Url.RoundTrip` | internal/auth/jwt.go:204-220 | decode(encode(b)) = b for every byte sequence |
| `Base64Url.DecodesIff` | internal/auth/jwt.go:204-215 | a text decodes if and only if, padded by its length and without line breaks, it is whole groups of alphabet characters with at most two = at the end |
| `Base64Url.BreakIsSkipped` | internal/auth/jwt.go:204-215 | a line break anywhere in the text makes no difference |
| `Base64Url.ReencodesIff` | internal/auth/jwt.go:204-220 | a text decodes and encodes back to itself exactly when it is canonical: alphabet only, possible length, no stray bits |
| `Jwt.JoinSplit` | internal/auth/jwt.go:121-126 | joining what splitting gave restores any text |
| `Jwt.SplitJoin` | internal/auth/jwt.go:121-126 | parts without dots come back exactly |
| `Jwt.Parse` | internal/auth/jwt.go:121-172 | a token parses exactly if it has three parts that decode with an algorithm and an acceptable payload; the first check that fails names the error; the parts are kept decoded, the text whole |
| `Jwt.VerifiesIff` | internal/auth/jwt.go:305-372 | every parsed text is accepted if and only if it names HS256 or RS256, the key for that is there and the signature is true of the text before its last dot; otherwise UnsupportedAlg, MissingKey or InvalidSignature, each exactly in its case |
| `Jwt.SignedTokenSplits` | internal/auth/jwt.go:457-468 | a signed token splits into exactly its three parts |
| `Jwt.SignedTokenVerifies` | internal/auth/jwt.go:305-344 | what was signed is what is parsed, byte for byte, and it verifies with the same key exactly when the key is not empty |
| `Jwt.VerifiedTextIsWhole` | internal/auth/jwt.go:305-344 | for any parsed text, acceptance means the signature part is the MAC of all that precedes it |
| `Jwt.VerifiedIsSignedIff` | internal/auth/jwt.go:305-344 | a text that verifies is the one that signing its header and payload yields if and only if its three parts are canonical |
| `Histogram.BucketOf` | internal/metrics/metrics.go:111-117 | the first bucket whose boundary is not exceeded, the overflow bucket when all are |
| `Histogram.MillisecondsAtMost` | internal/metrics/metrics.go:108-109 | a latency counts as at most b ms exactly when it is below b + 1 ms |
| `Histogram.Collector.constructor` | internal/metrics/metrics.go:57-67 | one zero count per boundary and one for overflow |
| `Histogram.Collector.RecordLatency` | internal/metrics/metrics.go:108-120 | the buckets remain the exact tally of everything recorded |
| `Histogram.Collector.Snapshot` | internal/metrics/metrics.go:174-180 | the labelled map of that tally |
| `Histogram.Collector.Reset` | internal/metrics/metrics.go:223-237 | as if nothing had been recorded |
| `Histogram.LabelReadsBackIff` | internal/metrics/metrics.go:195-200 | the exporter reads a boundary back from its label exactly when it is below one second or 1 to 9 whole seconds |
| `Histogram.LabelsCanCollide` | internal/metrics/metrics.go:195-200 | boundaries 1000 and 1500 share the label <=1s; others read <=025ms and >5s |
| `Histogram.StoredMeans` | internal/metrics/metrics.go:174-180 | under different labels no bucket overwrites another |
| `Histogram.SortBuckets` | internal/metrics/prometheus.go:286-295 | an ordered permutation, +Inf last |
| `Histogram.ParseBuckets` | internal/metrics/prometheus.go:263-284 | limits and counts read from the labels, and the total |
| `Histogram.Accumulate` | internal/metrics/prometheus.go:297-307 | running totals in order |
| `Histogram.WriteHistogram` | internal/metrics/prometheus.go:252-312 | the rows are the running totals of an ordered permutation of the parsed buckets |
| `Histogram.SortedWalkIsWanted` | internal/metrics/prometheus.go:252-312 | the result does not depend on the order in which the map is walked nor on how the sort breaks ties |
| `Histogram.ExportAgrees` | internal/metrics/prometheus.go:252-312 | row b counts the recordings of at most b milliseconds, +Inf and the total count all of them |
| `Histogram.ExportAgreesIff` | internal/metrics/prometheus.go:252-312 | for increasing boundaries that agreement holds if and only if every boundary is representable by its label |
| `Histogram.DefaultBoundsAreProper` | internal/metrics/metrics.go:58-59 | the built-in boundaries are |
| `Router.StripPortMeans` | internal/router/router.go:128-136 | a host that ends in a colon and a port loses exactly those; a host is left alone if and only if it has no colon |
| `Router.StripPortCutsLiteral` | internal/router/router.go:131-133 | "[::1]" becomes "[:" |
| `Router.CheckMatch` | internal/router/router.go:126-161 | true exactly when every criterion the route names holds |
| `Router.MatchesIff` | internal/router/router.go:126-161 | a route matches if and only if the request asks for its host, if it names one, with or without a port, for a path that begins with its prefix, and with one of its methods, if it lists any, up to case |
| `Router.InsertKeepsRank` | internal/router/router.go:61-94 | insertion keeps the table in the order in which the most specific match comes first |
| `Router.InsertAddsOne` | internal/router/router.go:61-78 | and adds exactly the new route |
| `Router.RemoveKeepsRank` | internal/router/router.go:97-108 | removal keeps the order |
| `Router.RemoveTakesOne` | internal/router/router.go:97-108 | and takes exactly the first route of that name |
| `Router.Router.AddRoute` | internal/router/router.go:61-78 | the loop inserts at that place |
| `Router.Router.RemoveRoute` | internal/router/router.go:97-108 | the loop removes that route and reports whether there was one |
| `Router.Router.Match` | internal/router/router.go:113-123 | returns a match such that, if any match names a host, it does; among those alike none has a longer prefix; among those none was added earlier; and none exactly when none matches |
| `Router.RunIsRanked` | internal/router/router.go:61-108 | the table is ranked after any sequence of additions and removals |
| `Router.MatchIsBest` | internal/router/router.go:61-161 | in every run first match is exactly the match that is most specific in these terms: host named, prefix length, order of addition |
| `Splitter.WalkFindsOwner` | internal/splitter/splitter.go:259-270 | the walk stops at the pool that owns the position, before the fallback |
| `Splitter.OwnerIsUnique` | internal/splitter/splitter.go:259-270 | every position has one owner |
| `Splitter.SimpleSplitter.AddPool` | internal/splitter/splitter.go:236-242 | the total stays the sum of the weights |
| `Splitter.SimpleSplitter.Route` | internal/splitter/splitter.go:246-271 | routes to the owner of the new counter modulo the total, nothing exactly when the total is zero; the fallback is unreachable |
| `Splitter.RouteIsExact` | internal/splitter/splitter.go:246-271 | any totalWeight consecutive calls route to each pool exactly weight times |
| `Splitter.CheckTargets` | internal/splitter/splitter.go:86-106 | accepts exactly non-empty lists of positive weights and sums them |
| `Splitter.NewSplitter` | internal/splitter/splitter.go:86-106 | a splitter over those targets with all selections at zero, or the error |
| `Splitter.WeightedSplitter.UpdateTargets` | internal/splitter/splitter.go:164-189 | replaces the targets, or changes nothing and says why |
| `Splitter.WeightedSplitter.Select` | internal/splitter/splitter.go:119-146 | returns the target that owns the draw and counts it; the fallback is unreachable |
| `Splitter.DrawsAreExact` | internal/splitter/splitter.go:119-146 | exactly weight(i) of the totalWeight draws select target i |

## Left out

- Integer width: counters and weights are unbounded; uint64, int64 and int wrap-around is not modelled (RunWeightRange bounds the weighted balancer's running weights in every run without removals).
- Floating point: the token bucket computes over real; float64 rounding is not modelled.
- Assumed of callers: positive breaker thresholds and times after defaulting, non-negative SimpleSplitter weights, n >= 0 in AllowN, a clock that does not run backwards.
- `ConnPool.RunKeepsInv`: the interleavings are a step system on values, because a Dafny method runs without interruption; the class PooledBackend is the uninterrupted form, and GetIsSteps, CloseIsSteps and DialIsSteps connect the two.
- `Relay.RelayIsSafe`: goroutines, sockets and io.CopyBuffer are a step system on byte sequences; byte counts, buffer pooling, logging and the normalised error values are not modelled, and neither is CloseWrite itself failing.
- `Layer4.PoolNeverHits`: covers backends reached only through handleConnection; rate limiting, backend choice, the breaker calls around Dial and proxy shutdown are not part of those runs.
- `LoadBalancer.WeightedRoundRobin.Next`: the entries are values in a sequence and the selected backend is an index, where the source keeps pointers; sharing one backend between balancers is not captured.
- `WeightRange.RunWeightRange`: after a removal the sum is no longer zero and no bound is stated.
- LeastConnections, and RoundRobin's add, remove and update: one argmin loop and plain list edits.
- `Histogram.SortBuckets`: an insertion sort stands for sort.Slice; SortedWalkIsWanted and ExportAgreesIff hold for any ordered permutation.
- `Histogram.Collector.Snapshot`: the histogram part only, taken with no recording in between; per-backend and connection metrics are not modelled.
- `Histogram.ParseBuckets`: Sscanf is a reading of the leading digits; the text of the exported lines is not modelled.
- `Router.CheckMatch`: the case folding table behind strings.EqualFold is a parameter, and ill-formed UTF-8 in a method name is not modelled.
- `Jwt.Parse`: JSON, HMAC and RSA are parameters; extractCustomClaims, the claim checks (exp, nbf, iss, aud) and the configured algorithm list are not modelled.
- `Base64Url.RoundTrip`: texts are sequences of characters; the library codec is modelled from sections 4 and 5 of RFC 4648 with line breaks skipped, as the Go library does.
- Registry: New's defaults, Get and the listing functions, Stop, and a second Unsubscribe of one channel; sending one event to all subscribers is one step.
- Pool configuration: EnablePooling during a run, newConnPool's defaults, Stats as a non-atomic read, and context deadlines in Dial.
- Health checking, the HTTP proxy, middleware, observability, configuration loading and the command line: wrappers and field checks without an algorithm of their own.
