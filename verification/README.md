# A time and space sharing runtime for accelerators: model and proofs

The runtime shares one accelerator among tenants with small schedulers and ledgers that several threads or
processes drive at once. This project models the six that are hard to get right and proves what they keep.

- **Killer gate and rounds** (`KillerGate`, `KillerAlone`, `KillerLooks`, `KillerOverdraft`, `KillerOverlap`,
  `KillerRounds`, `KillerProgress`, `KillerWitness`, `KillerExact`, `Slices`). Every tenant process spends a time
  slice, waits when it is used up, and the last one to wait recharges everybody. One model step is one load, store
  or compare-and-swap on the shared block, and the steps of different tenants interleave freely. Registration state,
  the trigger lock, the two stores of a recharge and every turn of every loop are separate.
- **Time-credit gate** (`TimeGate`, `TimeAlone`, `TimeCommands`, `TimeRides`, `TimeLedger`, `TimeLoan`,
  `TimeLoanRace`). Threads of one process charge measured batches to one balance, may borrow when urgent, and may
  ride when the peer is idle. Every load and store of the gate and of the charge is a step; commands come in
  anywhere.
- **Kernel-credit gate** (`KernelGate`, `KernelAlone`). Threads take chunks of a counter by compare-and-swap.
- **NPU request gate and proxy** (`GateCore`, `GateCommands`, `GateContract`, `GateFairness`, `GateRiding`,
  `GateTrace`, `Framing`, `Replies`, `Answering`). `GateCore.Gate` is the scheduler object, one method per critical
  section; `GateCore.Apply` is what those methods are proved to do, and the theorems are about its runs, with
  commands between pick and charge. `Framing.Connection` reads a socket that delivers bytes in chunks of any size.
  `Replies` puts readers, gate and reply loop together.
- **TPC mask** (`TpcMask`, `MaskRead`). Building the words of disable bits, and reading them while they are
  rewritten. The callback writes one word more than the mask has, and always zero: TPCs 96 to 127, which this card
  lacks.
- **Memory quota** (`MemQuota`, `QuotaExact`, `SlotTable`). The lock-free counter with its map, and the fixed-size
  slot table.

Protocols are step functions (`Apply`) over a value that holds the shared memory, the program counters and the
thread-local variables, with `Run` folding a list of actions; a theorem about all action lists is a theorem about
all interleavings. The modules named `...Alone` say what one call comes to when nobody else moves (`Iteration`
repeats its steps): when it gets through, and the exact state it leaves. `KillerLooks` and `TimeRides` say what a
thread has seen when everybody else does move. History fields (slices stored, times of marks and scans, windows
closed and so on) are read by no step. Sequential code that works in place is a method over an array or an object.

## Where the code does not do what one would expect

- The loan limit is not a bound on borrowing as such. A thread that is not urgent loads the credit, charges its
  open batch, and then reads the priority a second time; if the priority became URGENT in between, the credit
  value from before its own charge is compared with the limit and one more batch passes. `TimeLoanRace` shows that
  all N threads can do so at once, for every limit of at least 1; it proves for every N exactly when the intended
  bound survives, and a weaker bound that always holds and that this run reaches. `TimeLoan.LoanBound` is the
  intended bound, for runs in which the priority is not raised while a thread carries such a value.
- Fallback runs leave the contract books alone but still move `last_run_t`, which breaks ties between tenants
  with the same contract ratio. `GateTrace.RideDecidesPick` is a run in which that changes a later pick; in one
  state `GateTrace.TraceOnlyInTies` says exactly when times of last run matter, and by
  `GateTrace.ClearRunsLeaveNoTrace` runs without such ties have no trace at all.
- `virtual_mem.cpp` counts an allocation that the full table cannot record, and a later free cannot take it back.
  `SlotTable.AllocFreeRestoresIff` says exactly when, and `SlotTable.LeakReached` gets there from an empty table.
- Killers of two tenants can run together in two ways. The scan of the peers and the mark are separate, so both may
  scan before either marks. And the second store of a recharge on a stale trigger writes RUNNING over the mark of a
  tenant in mid-killer, so that a peer that looks only afterwards, long after the mark, passes all the same. Both
  happen (`KillerWitness`), and there is no third way: `KillerOverlap.OverlapOnlyByCrossing`. A look after the mark
  excludes a running killer exactly as long as no recharge has stored over the mark
  (`KillerOverlap.LateScanExcludes`, `KillerOverlap.LookPassesIff`). With a single tenant only is there no overlap
  at all (`KillerExact.ExcludesIff`).
- A slice can go down to minus twice the longest killer, because a stale trigger recharges a tenant in mid-killer.
  The expected bound of one killer's length holds on at most one tenant or when killers take no time, and on no other
  number (`KillerExact.KeepsKIff`).
- The memory quota of libbless is kept exactly on one thread (`QuotaExact.QuotaHoldsIff`); on N threads the overshoot of
  (N - 1) times the largest size that passes is reached.
- Without the fallback a tenant with work and no credit blocks the drain until it is refilled; with it everything
  queued is answered (`Answering`).
- The header of `gate_core.py` (line 15) and `npu_proxy/README.md` (lines 58-64) describe a strict gate without a
  fallback; the code is work-conserving by default (line 72). The model follows the code, with both settings.

## Model

| member | source | states |
|---|---|---|
| KillerGate.LockStep | runtime/timeslice/round_manager.cpp:45-52 | being in the recharge region is the same as holding the lock, for every tenant after every step, so at most one is in it |
| KillerOverdraft.SolventOwn | runtime/gating/stream_gate.cpp:34-52 | a tenant's own step keeps the three-level bound on its balance: -2K always, -K while admitted or with a half-done recharge, 0 with both |
| KillerOverdraft.InvStep | runtime/timeslice/time_slice.cpp:49-57 | every step of every tenant keeps that bound for all tenants, the two stores of a recharge being separate |
| KillerOverdraft.LedgerStep | runtime/timeslice/time_slice.cpp:9-16 | one step moves time between balance and books or replaces the balance, so time run stays within what was stored plus the debt a recharge forgives |
| KillerOverdraft.OverdraftBound | runtime/gating/stream_gate.cpp:34-97 | for every interleaving with killers of at most K: no balance falls below -2K, and execution time is at most the start, the slices stored, 2K per recharge and 2K |
| KillerOverdraft.OverdraftBoundAtOnce | runtime/timeslice/round_manager.cpp:80-87 | if check-and-trigger were one step, no balance would fall below -K |
| KillerWitness.OverdraftIsTight | runtime/timeslice/round_manager.cpp:84-85 | for every K of at least 1 and every number of tenants from two, a run of legal steps from a fresh start brings a balance to exactly -2K through a stale trigger |
| KillerExact.KeepsKIff | runtime/timeslice/round_manager.cpp:80-87 | over all runs on n tenants from balances of at least -K, no balance falls below -K if and only if n is at most 1 or K is 0 |
| KillerOverlap.OwnPasses | runtime/gating/stream_gate.cpp:55-70 | a tenant gets past a registered peer only by a look, at that moment, that does not show KILLER_ACTIVE |
| KillerOverlap.OverlapOnlyByCrossing | runtime/gating/stream_gate.cpp:55-97 | whenever two tenants are inside a killer, marked or not, each one's last look at the other came before the other's mark or after a recharge had stored over that mark; with both marks standing, before |
| KillerOverlap.LateScanExcludes | runtime/gating/stream_gate.cpp:55-74 | an entry whose last look at a peer came after the peer's mark meets it still inside its killer if and only if a recharge had stored over the mark before that look; while the mark stands, it excludes the mark and the killer |
| KillerOverlap.LookPassesIff | runtime/gating/stream_gate.cpp:58-66 | an entry that looks at a peer inside its killer goes past it if and only if a recharge has stored over the peer's mark |
| KillerOverlap.KeptMarksExclude | runtime/timeslice/time_slice.cpp:53-56 | in every run in which no recharge stores over a standing mark, killers that run together have each looked before the other's mark |
| KillerWitness.LateOverlapHappens | runtime/timeslice/time_slice.cpp:55-56 | for every K of at least 1, from a fresh start, killers run together although the whole scan of one came after the other's mark, which a stale trigger had overwritten |
| KillerWitness.OverlapHappens | runtime/gating/stream_gate.cpp:55-74 | on any number of tenants from two, two reach KILLER_ACTIVE together |
| KillerExact.ExcludesIff | runtime/gating/stream_gate.cpp:54-74 | over all runs on n tenants at most one is in KILLER_ACTIVE if and only if n is at most 1 |
| KillerRounds.RoundAgreement | runtime/timeslice/round_manager.cpp:42-76 | in every reachable state at most one tenant is in the recharge region, and with the lock free all round ids agree and equal the start plus the completed rounds |
| KillerProgress.FinishRound | runtime/timeslice/round_manager.cpp:59-75 | whatever slices are stored, the lock holder alone can finish the round: it frees the lock and recharges every active tenant it has not yet served, and moves no other program counter |
| KillerProgress.CheckLoop | runtime/timeslice/round_manager.cpp:13-22 | alone, the all_waiting loop ends at the lock if and only if every registered tenant from where it stands on waits, and otherwise back at the spin |
| KillerAlone.CheckEndsIff | runtime/timeslice/round_manager.cpp:13-22 | the whole loop, alone, reaches the lock exactly if every active tenant is WAITING; KILLER_ACTIVE does not count |
| KillerAlone.RoundAlone | runtime/timeslice/round_manager.cpp:42-76 | a round that nobody disturbs: every registered tenant has its new slice and is released, all round ids are one above that of the trigger, the lock is free, and nothing else moved |
| KillerAlone.EntersIff | runtime/gating/stream_gate.cpp:34-75 | an undisturbed entry gets into its killer if and only if it has budget and no active peer is in one, or it has none, the lock is free and all active peers wait; and then with exactly that outcome |
| KillerAlone.SpinEndsIff | runtime/gating/stream_gate.cpp:63-66 | the spin on a peer ends, alone, if and only if the gate of that peer does not show KILLER_ACTIVE, registered or not |
| KillerAlone.LeaverIsSkipped | runtime/timeslice/round_manager.cpp:14-16 | a tenant that leaves is no longer waited for, and one inside the gate cannot leave |
| KillerAlone.AtOnceIsAlone | runtime/timeslice/round_manager.cpp:80-87 | check-and-trigger as one step leaves the records, the lock and the count of rounds exactly as the tenant alone would, and completes a round if and only if everybody waits |
| KillerAlone.ExitAlone | runtime/gating/stream_gate.cpp:77-98 | the exit takes the measured time off the balance, books it and releases the gate |
| KillerLooks.TriggerSawAll | runtime/timeslice/round_manager.cpp:13-52 | in every interleaving, a tenant at the lock has come there by one pass of all_waiting, and since that pass began every tenant was at some moment waiting or not registered |
| KillerLooks.LockTakenAfterPass | runtime/timeslice/round_manager.cpp:45-52 | the lock is only ever taken from there |
| KillerProgress.UseUp | runtime/gating/stream_gate.cpp:34-48 | with no killer around, an idle tenant can use up its slice and come to wait, whatever the slice is |
| KillerProgress.Progress | runtime/gating/stream_gate.cpp:34-98 | from every reachable state whatever, some finite continuation recharges every active tenant, for every function of the state and the tenant that says what a recharge stores |
| KillerProgress.WeightedProgress | runtime/timeslice/round_manager.cpp:59-64 | in particular when every recharge stores the weighted share of the moment, with non-negative weights and a duration that may change at any time |
| Slices.ComputeAllWaiting | runtime/timeslice/round_manager.cpp:13-22 | on unchanging memory: true exactly if every active tenant waits |
| Slices.ComputeSlice | runtime/timeslice/round_manager.cpp:25-39 | the loop computes the truncated share of the round by weight over active weights, with both defaults |
| Slices.SliceDivision | runtime/timeslice/round_manager.cpp:25-64 | the slices of one round sum to at most its duration, 100 ms unless set to a positive value, and fall short by less than one microsecond per active tenant |
| Slices.SliceIsShare | runtime/timeslice/round_manager.cpp:25-39 | a slice is the duration times the weight over the total of the active weights, rounded toward zero, with 100 ms for a duration and 1 for a total that is not positive |
| Slices.SliceMonotone | runtime/timeslice/round_manager.cpp:33-38 | raising one active tenant's weight never lowers its slice, though it raises the divisor too |
| Slices.SliceNonNegative | runtime/timeslice/round_manager.cpp:33-38 | slices are never negative, which the overdraft bound relies on |
| KernelGate.StepConserves | runtime/libbless/libbless.cpp:1398-1408 | every access keeps the sum of passes, cached bursts, remaining and overwritten credit minus sets, also when the compare-and-swap fails |
| KernelGate.Conservation | runtime/libbless/libbless.cpp:1369-1414 | for every interleaving and every sequence of non-negative sets, without boost, that sum is constant, the counter never goes negative, and nothing passes unmetered |
| KernelGate.PassesPerSet | runtime/libbless/libbless.cpp:1081-1084 | after a set of q and before the next at most q + 15 N kernels pass |
| KernelGate.PassesPerSetIsTight | runtime/libbless/libbless.cpp:1384-1408 | for every N of at least 1 and every q, from a fresh process, a set of q is followed by exactly q + 15 N passes on some run |
| KernelAlone.UnmeteredExactly | runtime/libbless/libbless.cpp:1369-1375 | over every run, with boost and the switch thrown at will, exactly the calls that see boost or a negative counter pass for free, and each leaves the counter and all bursts as they were |
| KernelAlone.CallAlone | runtime/libbless/libbless.cpp:1369-1414 | an undisturbed call with boost, off, in a burst or with credit leaves exactly this state after so many accesses |
| KernelAlone.ThroughIff | runtime/libbless/libbless.cpp:1384-1414 | alone, from any point of a call, a thread gets its kernel through, and within four accesses, if and only if boost is on at the start, the counter is not 0, or it has a burst to spend |
| KernelAlone.OffAndSet | runtime/libbless/libbless.cpp:1081-1088 | credit_off lets every next kernel pass for free, and credit_set makes exactly that much available again |
| TimeGate.ThreadsOkRun | runtime/libbless/libbless.cpp:556-578 | on every run, a thread's riding flag is set exactly if a kernel of its open batch came through by the ride, and a waiting thread has no open batch |
| TimeAlone.SyncAlone | runtime/libbless/libbless.cpp:387-425 | an undisturbed synchronisation closes the batch and books it exactly once, as riding or as billed, and deducts a billed one unless the gate is unlimited |
| TimeAlone.WaitEndsIff | runtime/libbless/libbless.cpp:569-593 | on unchanging memory a thread in the waiting loop gets out if and only if the peer idles, the gate is unlimited or credit is above its wake value, and rides exactly if wc_on and peer_idle hold and the stamp is less than 20000 old |
| TimeAlone.LaunchIff | runtime/libbless/libbless.cpp:533-594 | an undisturbed launch gets through if and only if boost is on, the gate is unlimited, there is credit, an urgent thread is within its limit, or the peer idles; with the exact outcome of each way |
| TimeCommands.BalanceDecides | runtime/libbless/libbless.cpp:1098-1135 | with the gate limited, time_credit of v lets the next launch pass if and only if v is positive, and time_add adds to balance and grants alike |
| TimeCommands.PriorityDecides | runtime/libbless/libbless.cpp:533-552 | raised priority lets a launch pass if and only if the balance is above minus the limit, normal priority if and only if it is positive |
| TimeCommands.PeerDecides | runtime/libbless/libbless.cpp:1148-1152 | a peer that declares itself idle can be ridden upon for 20 ms, one that declares itself busy not at all |
| TimeRides.LetOnGrounds | runtime/libbless/libbless.cpp:533-594 | in every interleaving: a ride only after wc_on, then peer_idle, then a clock value less than 20000 past the stamp were loaded in this turn of the loop; boost and unlimited only on a load of the flag; credit and loan only on a balance, priority and limit loaded in this launch |
| TimeLedger.CreditLedger | runtime/libbless/libbless.cpp:387-425 | between resetting commands in limited mode, credit plus billed time minus grants is constant up to charges in progress |
| TimeLedger.CountersStep | runtime/libbless/libbless.cpp:395-404 | a step raises total_time_us, wc_extra_us or the blocked total by exactly the window of its kind that it books |
| TimeLedger.BookedOnce | runtime/libbless/libbless.cpp:387-425 | over every run, each of the three totals grows by exactly the closed windows of its own kind, so a batch is booked to one of total_time_us and wc_extra_us |
| TimeLedger.RidingSeparated | runtime/libbless/libbless.cpp:395-402 | a batch is booked as riding exactly if it holds a kernel admitted by the ride, and a thread about to deduct credit holds none |
| TimeLedger.WaitingNeverBilled | runtime/libbless/libbless.cpp:553-593 | on each thread billed, riding and measured waiting intervals are pairwise disjoint, and with any open window they sum to at most the time that passed |
| TimeLoan.SlackStep | runtime/libbless/libbless.cpp:542-568 | in one step a thread either gives up as much slack as credit falls or has just seen enough credit |
| TimeLoan.LoanBound | runtime/libbless/libbless.cpp:533-594 | for N threads, limit L and batches of at most B, with careful raises of priority: credit stays above -L - (N - open) B, and billed time below credit + grants + L + N B, L being 0 if URGENT never occurs |
| TimeLoanRace.RaceBound | runtime/libbless/libbless.cpp:533-594 | with priority changed at any moment credit stays above -L - 2 N B, and billed time below starting credit + grants + L + 2 N B |
| TimeLoanRace.StalePass | runtime/libbless/libbless.cpp:564-568 | a thread that was not urgent, has charged its batch and finds priority raised passes on the credit value from before that charge |
| TimeLoanRace.RaceHappens | runtime/libbless/libbless.cpp:536-568 | for every L of at least 1, every B and every N all threads do this at once and bring credit to 1 - L - 2 N B, the least value RaceBound admits |
| TimeLoanRace.LoanHoldsIff | runtime/libbless/libbless.cpp:542-568 | for every N, with priority changed at will, the loan bound holds if and only if the limit is 0, URGENT never occurs, or N B is 0 |
| GateCore.EligibleIsLeast | runtime/npu_proxy/gate_core.py:146-179 | nobody is picked only if nothing may run; a contract pick is a candidate with the least key; a fallback pick happens only with no candidate and has the least key of those with work |
| GateCore.MinIndex | runtime/npu_proxy/gate_core.py:163-179 | of several least keys the first in dictionary order wins, as min does |
| GateCore.ValidKept | runtime/npu_proxy/gate_core.py:82-91 | every operation keeps one dictionary entry per tenant and names distinct, also with a job in flight |
| GateCore.ApplyEffect | runtime/npu_proxy/gate_core.py:98-205 | what each operation does to each registered tenant, and to no other |
| GateCommands.CommandMeans | runtime/npu_proxy/gate_core.py:98-132 | field by field: time_mode arms exactly on 1 and then limits; time_credit sets the balance, at most the cap, or lifts the limit; time_add adds up to the cap and grants what was added; nobody else is touched |
| GateCommands.RegisterMeans | runtime/npu_proxy/gate_core.py:82-86 | a new tenant comes last, not armed, not limited, with empty books; a known name changes nothing |
| GateCommands.UnregisterMeans | runtime/npu_proxy/gate_core.py:88-91 | the tenant of that name goes and the others keep their order and contents |
| GateCommands.SubmitMeans | runtime/npu_proxy/gate_core.py:141-143 | the request joins the end of the queue it is for |
| GateCommands.PickMeans | runtime/npu_proxy/gate_core.py:153-187 | a pick takes the oldest request of the tenant furthest behind, by charged over granted and then time of last run, among those that are not armed, not limited or in credit; among all with work, as a fallback, exactly if there is none of these and the gate is work-conserving |
| GateCommands.TiesGoToTheFirst | runtime/npu_proxy/gate_core.py:153-179 | between tenants equally far behind, the one that comes first in the dictionary is taken, in contract and fallback picks alike |
| GateCommands.FinishMeans | runtime/npu_proxy/gate_core.py:191-204 | a run goes to the contract books and the balance, or to the fallback books, and to nothing else |
| GateCommands.ArmedNeedsCredit | runtime/npu_proxy/gate_core.py:104-161 | over every run from a time_mode 1, without another mode or a negative credit since, the tenant is started as a contract run only with credit above 0, and under the strict policy not otherwise |
| GateCommands.NewcomerFulfilment | runtime/npu_proxy/gate_core.py:82-205 | a tenant registered, armed and set to 0 is from then on always charged between granted - CAP and granted + D |
| GateCore.Gate.constructor | runtime/npu_proxy/gate_core.py:72-79 | a new gate has no tenants and nothing running |
| GateCore.Gate.Register | runtime/npu_proxy/gate_core.py:82-86 | adds a tenant only if the name is new and returns the tenant of that name |
| GateCore.Gate.Unregister | runtime/npu_proxy/gate_core.py:88-91 | removes the tenant and returns the requests it still had |
| GateCore.Gate.Cmd | runtime/npu_proxy/gate_core.py:98-132 | time_mode, time_credit and time_add on the new state, with the cap, the reset and the two kinds of grant; nothing for an unknown name |
| GateCore.Gate.Submit | runtime/npu_proxy/gate_core.py:141-143 | appends to the queue of the tenant, or fails for an unknown name and changes nothing |
| GateCore.Gate.Pick | runtime/npu_proxy/gate_core.py:181-187 | dequeues the selected tenant's oldest request and remembers whether it is a fallback; no job exactly if nobody may run |
| GateCore.Gate.Finish | runtime/npu_proxy/gate_core.py:191-204 | books the measured time as contract or fallback, deducts credit only for armed limited contract runs, and tolerates a tenant gone meanwhile |
| GateContract.FulfilledStep | runtime/npu_proxy/gate_core.py:118-132 | every operation keeps credit equal to granted minus charged since the reset, between -D and the cap |
| GateContract.Fulfilment | runtime/npu_proxy/gate_core.py:118-205 | since a credit of 0, for a tenant kept armed and limited: granted - CAP <= charged <= granted + D at every moment, with commands between pick and charge |
| GateContract.ProportionalService | runtime/npu_proxy/gate_core.py:153-205 | two such tenants are served in proportion to their grants up to D over one grant plus CAP over the other |
| GateContract.LegacyUnbounded | runtime/npu_proxy/gate_core.py:128-131 | under LEGACY_REPAY charged exceeds granted, and granted exceeds charged, by any amount on some run |
| GateFairness.GapStep | runtime/npu_proxy/gate_core.py:146-163 | an operation keeps the ratio gap below its bound, a contract run of the leading tenant starting only while it does not lead |
| GateFairness.GapBound | runtime/npu_proxy/gate_core.py:146-204 | while i and j are candidates at every pick with fixed grants and runs of i last at most D, r_i - r_j stays below any bound that holds at the start and is at least D over granted_i, whatever other tenants do |
| GateFairness.DeficitGap | runtime/npu_proxy/gate_core.py:181-205 | from a state with nothing in flight: r_i - r_j never exceeds the larger of its starting value and D over granted_i |
| GateFairness.FinishUsesUp | runtime/npu_proxy/gate_core.py:199-204 | a contract run of another tenant takes at least one from the waiting bound |
| GateFairness.BoundedWaiting | runtime/npu_proxy/gate_core.py:146-205 | a candidate at every pick waits for at most the sum over tenants j with r_j <= r_i of floor((r_i - r_j) g_j / d) + 1 picks |
| GateRiding.RidingLeavesNoTrace | runtime/npu_proxy/gate_core.py:192-204 | erasing every fallback charge from any run leaves all charged, credit and granted values unchanged |
| GateRiding.RunsBookedOnce | runtime/npu_proxy/gate_core.py:191-205 | over every run the time a tenant is run goes whole to exactly one of charged and charged_extra, and the counters follow |
| GateRiding.RoundRobin | runtime/npu_proxy/gate_core.py:164-179 | in a stretch of fallback steps with an advancing clock the k tenants tied at the least ratio are each served exactly once in every k consecutive services |
| GateTrace.RideDecidesPick | runtime/npu_proxy/gate_core.py:192-204 | two runs from one start: after equal budgets a is picked; with a fallback run of a before them b is, and with the time of that run erased a again |
| GateTrace.TraceOnlyInTies | runtime/npu_proxy/gate_core.py:146-179 | in every state, other times of last run can change a pick, contract or fallback, if and only if two of the tenants it chooses from tie at the least ratio |
| GateTrace.ClearRunsLeaveNoTrace | runtime/npu_proxy/gate_core.py:146-204 | in every run in which no pick breaks a tie, erasing the times that fallback runs leave behind changes no pick and nothing of the final state but those times |
| TpcMask.ClearBitBits | runtime/libbless/libbless.cpp:502-502 | clearing a bit clears that bit and no other |
| TpcMask.ClearTpc | runtime/libbless/libbless.cpp:497-502 | the word update enables that TPC and leaves all others as they were |
| TpcMask.Stride | runtime/libbless/libbless.cpp:494-498 | the strided pass alone reaches the requested number, at multiples of the stride |
| TpcMask.FillUp | runtime/libbless/libbless.cpp:499-500 | enables only further TPCs, counts exactly those, stops short only with all enabled, and adds none if enough are given |
| TpcMask.Contiguous | runtime/libbless/libbless.cpp:501-503 | enables exactly the first TPCs |
| TpcMask.BuildMask | runtime/libbless/libbless.cpp:482-509 | for every total and 1 <= n <= total exactly n TPCs are enabled, for n < 1 one and for n > total all; in front the first n, spread out the first n multiples of total / n |
| TpcMask.PlacementSize | runtime/libbless/libbless.cpp:482-504 | both placements have exactly that many TPCs, only existing ones, and always TPC 0 |
| TpcMask.SpreadApart | runtime/libbless/libbless.cpp:493-498 | spread out, neighbouring enabled TPCs are total / n apart |
| TpcMask.PctIsCeiling | runtime/libbless/libbless.cpp:516-519 | from 1 to 100 the conversion is the ceiling of the share, below it that of 1 percent, above it the whole card; always within the card, and monotone |
| MaskRead.TornReadEnablesFirst | runtime/libbless/libbless.cpp:452-455 | once a mask has been set, for every interleaving of reconfigurations and word loads, in either placement, the mask a callback writes enables TPC 0 |
| MaskRead.TornReadBetween | runtime/libbless/libbless.cpp:443-457 | once a contiguous mask has been set, the mask a callback writes lies between the smallest and the largest prefix current during the read, plus exactly the 32 TPCs of the last word, which is always zero |
| MaskRead.BuiltMasks | runtime/libbless/libbless.cpp:492-508 | what the builder makes meets what the two torn-read theorems ask of a stored mask |
| MaskRead.ReadBack | runtime/libbless/libbless.cpp:443-508 | a reconfiguration stored to the end, and then an undisturbed callback: it writes the new mask |
| MemQuota.QuotaOvershoot | runtime/libbless/libbless.cpp:344-349 | with quota Q, sizes at most M and N threads, counted bytes plus checked but uncounted sizes never exceed Q + (N - 1) M |
| QuotaExact.ExactOvershoot | runtime/libbless/libbless.cpp:344-349 | nor do they exceed Q + (N - 1) min(M, Q), and the counter is never negative |
| QuotaExact.OvershootReached | runtime/libbless/libbless.cpp:1595-1614 | for all N and M of at least 1 and every Q, the counter itself reaches Q + (N - 1) min(M, Q) on some run |
| QuotaExact.QuotaHoldsIff | runtime/libbless/libbless.cpp:344-349 | the counter stays within the quota over all runs if and only if N is at most 1 or M or Q is 0 |
| MemQuota.MapStep | runtime/libbless/libbless.cpp:1622-1635 | every step keeps addresses in hand, in the map and free apart, because untracking precedes the real free |
| MemQuota.CounterFollowsMap | runtime/libbless/libbless.cpp:306-341 | an insertion never finds its key in the map, and the counter equals the map's total up to updates in progress |
| MemQuota.RefusedIff | runtime/libbless/libbless.cpp:344-349 | a request is refused exactly if the quota is not negative and would be exceeded, and then leaves no trace |
| MemQuota.MallocAlone | runtime/libbless/libbless.cpp:1595-1614 | an undisturbed request that passes is handed out, mapped and counted; if the driver fails, nothing is left of it |
| MemQuota.FreeAlone | runtime/libbless/libbless.cpp:1622-1635 | an undisturbed free takes the block off the map, the counter and the driver |
| SlotTable.VirtualMemory.constructor | runtime/resource/virtual_mem.cpp:19-26 | an empty table of 4096 slots |
| SlotTable.VirtualMemory.CheckAlloc | runtime/resource/virtual_mem.cpp:29-44 | allowed if and only if tracking the block, at whatever address the driver puts it, keeps the counter within the quota |
| SlotTable.VirtualMemory.TrackAlloc | runtime/resource/virtual_mem.cpp:47-65 | reuses the first free slot, else appends, else only counts; ignores null and empty requests |
| SlotTable.VirtualMemory.TrackFree | runtime/resource/virtual_mem.cpp:76-95 | clears the first slot of the pointer and gives back its size; unknown pointers change nothing |
| SlotTable.VirtualMemory.Allocate | runtime/hooks/cuda_hooks.cpp:361-366 | the hook tracks what the driver returns, and refuses exactly the requests whose tracking would break the quota |
| SlotTable.FreeMeans | runtime/resource/virtual_mem.cpp:76-95 | freeing a recorded pointer empties its first slot and lowers the counter by the size recorded there, anything else does nothing |
| SlotTable.AllocMeans | runtime/resource/virtual_mem.cpp:47-65 | a block goes to the first free slot, or to the end if there is none and room, and is counted in any case |
| SlotTable.FitsIsAdmits | runtime/resource/virtual_mem.cpp:38-44 | the test on used plus request says exactly what tracking at any address would do to the quota |
| SlotTable.QuotaKept | runtime/hooks/cuda_hooks.cpp:361-376 | over every run of requests that pass the test, and of frees, by one thread, the counter and the blocks recorded stay within the quota |
| SlotTable.CounterLeaksOnlyWhenFull | runtime/resource/virtual_mem.cpp:47-95 | over every run the counter is the recorded total plus exactly the allocations made while the table was full |
| SlotTable.AllocFreeRestoresIff | runtime/resource/virtual_mem.cpp:58-65 | freeing a fresh allocation restores the counter if and only if the table had room |
| SlotTable.LeakReached | runtime/resource/virtual_mem.cpp:47-65 | for every table size, from the empty table, that many live allocations fill it, and allocating and freeing one more block leaves its bytes in the counter |
| Framing.HeaderRoundTrip | runtime/npu_proxy/npu_proxy.py:182-185 | the four-byte header is a bijection with the lengths below 2^32 |
| Framing.RequestsOfFrames | runtime/npu_proxy/client.py:116-116 | a stream of frames is read back as exactly the bodies framed, followed by what the rest of the stream holds |
| Framing.ResponsesOfFrames | runtime/npu_proxy/npu_proxy.py:205-206 | the same for responses, whose lengths vary and may be 0 |
| Framing.ResponsesPrefix | runtime/npu_proxy/client.py:133-153 | more of the stream never changes the responses already read |
| Framing.Connection.RecvExact | runtime/npu_proxy/npu_proxy.py:40-47 | for every chunking: the next n bytes and not one more, or nothing if the stream ends first |
| Framing.Connection.ReadLine | runtime/npu_proxy/npu_proxy.py:171-177 | takes the bytes up to the first newline and leaves the rest; nothing exactly if there is no newline |
| Framing.Connection.FrameLoop | runtime/npu_proxy/npu_proxy.py:181-190 | for every chunking submits exactly the requests of the stream up to the first frame that is cut short or has the wrong length |
| Framing.Connection.ReceiveAll | runtime/npu_proxy/client.py:133-153 | for every chunking reads exactly the complete responses of the stream |
| Framing.Connection.Serve | runtime/npu_proxy/npu_proxy.py:168-190 | handshake and frame loop together submit exactly the bodies the client framed |
| Replies.ReceiveServes | runtime/npu_proxy/npu_proxy.py:190-190 | a submission of any connection keeps the order of every connection, two connections of one tenant included |
| Replies.PickServes | runtime/npu_proxy/gate_core.py:181-187 | a pick, of whatever tenant, keeps the order of every connection |
| Replies.ReplyServes | runtime/npu_proxy/npu_proxy.py:203-206 | a reply appends the frame of the request in flight to its own connection and keeps the order of every connection |
| Replies.RepliesInOrder | runtime/npu_proxy/npu_proxy.py:193-208 | after every run from an empty proxy the k-th response frame of each connection is the output of its k-th request, and responses plus pending requests are exactly the submitted ones |
| Replies.EndToEnd | runtime/npu_proxy/client.py:116-153 | from any part of the client's stream and any part of the answer stream: the k-th response the client reads is the output of the k-th input it framed |
| Answering.EverythingAnswered | runtime/npu_proxy/npu_proxy.py:193-208 | with the fallback, from every reachable state, as many turns of the scheduler loop as there are requests queued and in flight answer every request of every connection, however long each takes |
| Answering.ServiceComplete | runtime/npu_proxy/npu_proxy.py:168-208 | with the fallback, a client that connects at any time and whose requests are all read gets the outputs of exactly these requests, in order, after as many turns as there are requests in the proxy |
| Answering.DrainsIff | runtime/npu_proxy/gate_core.py:153-168 | the scheduler loop alone can answer everything if and only if there is a fallback or every tenant with work is entitled |

## Left out

- TimeLoan.LoanBound: needs priority to be raised carefully, because the bound fails otherwise (see above); `open` does not count threads whose batch is riding, since such a batch is never deducted.
- KillerOverdraft.OverdraftBound: assumes killers of at most K and non-negative slices, which the code does not enforce; `Slices.SliceNonNegative` gives the second for non-negative weights.
- Threads and processes are modelled on values, as step functions over a state that holds shared memory and program counters, instead of as classes updated in place: one method call cannot show the steps of others in between. Steps are sequentially consistent; weak memory ordering is not modelled.
- Floats are reals and machine integers are unbounded: rounding, the 32-bit count of `credit_set` and 64-bit wrap-around are not modelled. Mask words are numbers below 2^32.
- FREE and PROFILING modes of the killer gate, which skip the checks or wait for the profiler; `tenant_count` is fixed. `shm/kraken_shm.h` is not part of this model, so gate states are a datatype.
- Killer policy reload inside the trigger lock, `killer_count` and `total_wait_us`: the first reads a file, the others are plain counters.
- Slot registration in `shm_client.cpp`: `Join` sets `active` for a tenant outside the gate, `Leave` clears it there; a process that dies inside the gate is not modelled.
- Statistics of libbless: the moving average of kernel times, borrow and pass counters, peak and total bytes. `gate_metrics_on` and `wc_on` do not change during a run, as they are set at start-up only.
- Switching `credit_mode` during a run, the priority queue gate, preemption, boost in the loan theorem, and `sample_kernel_start` and `do_sample_measurement`, which nothing calls.
- Control over whether tracking is on, and `mem_reset`: the quota theorems keep tracking on. `cudaMallocManaged` repeats `cudaMalloc`.
- The copy of the usage counter in shared memory kept by `virtual_mem.cpp`: it changes with the process counter.
- Command text: parsing of numbers, unknown commands, `time_stats` and `stats` output.
- In `Replies`: unregistering, disconnects, runner exceptions and failed sends, all of which drop responses; the numpy conversion is part of the runner, which is any total function with outputs below 2^32 bytes.
- The client's window of outstanding requests, its latency bookkeeping and reconnection.
- CUDA, CUPTI and Furiosa calls, context switching, ioctl interception, environment and JSON parsing, logs: foreign calls and I/O. The QMD version check and the valid bit of the callback are part of these.
