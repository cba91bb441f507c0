# Proofs about a DRAM simulator

This project models the memory simulator in this repository and proves what its parts are for: a DRAMsim3-style memory
controller with PRAC, MOAT and MOPAC activation counting, its address decoder, the HMC crossbar, the last-level cache,
the page allocator and the native address mapping. `dafny verify dfyconfig.toml` checks everything.

## How it is built

The memory controller is a step machine. Each source class has a value type and functions for its steps
(`bankstate.dfy`, `channel_state.dfy`, `command_queue.dfy`, `controller.dfy`), and an object with the source's fields and
loops (`bank_object.dfy`, `channel_object.dfy`, `queue_object.dfy`, `controller_object.dfy`, `controller_clock.dfy`)
whose methods are proved to take exactly those steps. A function cannot exit, so every step that may reach an exit of the
source returns an option or a flag, and `Theorems.NeverExits` shows that only one is reached, and exactly when. Assertions
are not such exits.

A run starts at power-up and is any sequence of accepted transactions, clock ticks and callbacks. What a tick does not
decide itself is an input: the refreshes that fall due (any legal ones, in any order), the PAC draw (one static cached
value in the source, so one per tick) and the MOPAC draw. The invariant is built in layers: channel history
(`channel_runs.dfy`, `moat_bound.dfy`, `mopac.dfy`), scheduler (`command_queue.dfy`, `fr_fcfs.dfy`, `tick_core.dfy`), bookkeeping of
transactions (`bookkeeping.dfy`, `data_refinement.dfy`, `latency.dfy`), one tick (`controller_runs.dfy`), drain before a refresh
(`refresh_drain.dfy`), and the results over whole runs (`theorems.dfy`, `drain_assertions.dfy`,
`activation_bound.dfy`, `livelock.dfy`); `dram_system.dfy` lifts them to several channels.

The simulator moves no data. The model adds an observer that influences no decision: a transaction's name is its position
among the accepted ones, a write's datum is its name, and the array and the pending writes carry data. The log of issued
commands and the list of callbacks are observers too.

The other parts follow the same pattern: values with functions, an object with loops proved against them, results over
runs. `last_level_cache.dfy`, `cache_runs.dfy` and `lru_refinement.dfy` are the cache; `os_frames.dfy` the page
allocator; `hmc_crossbar.dfy` and `hmc_system.dfy` the crossbar; `dram_geometry.dfy` the native mapping;
`address_mapping.dfy` and `mixed_radix.dfy` the decoder and the number notation that both mappings share;
`timing_tables.dfy` the copying of constraints to the PRAC commands.

## Where code and documentation differ

- Two assertions exclude a refresh and an RFM draining at once. The one in FinishRFM (DRAMsim3/src/command_queue.cc:90)
  never fails. The one in FinishRefresh (line 71) fails exactly if a refresh is pending while an RFM drains, and a run
  gets there (`drain_assertions.dfy`, `refresh_during_rfm.dfy`). DRAMsim3/Makefile:12 leaves assertions on; the steps of
  the model go on as the code does without them.
- The alert blocks REFRESH_BANK like any command to a single bank (DRAMsim3/src/channel_state.cc:264-268), and a pending
  refresh keeps FinishRFM from being reached (DRAMsim3/src/controller.cc:70-73): a bank refresh behind the alert stops the
  channel for good (`livelock.dfy`, `moat_runs.dfy`).
- Under SOFT_CLOSE_PAGE rows are closed by commands that are not counted (DRAMsim3/src/controller.cc:328-331), so the
  bound on the row counters does not bound activations there (`activation_bound.dfy`, `moat_runs.dfy`).
- `SafeDecrement` works on a copy (DRAMsim3/src/bankstate.cc:463), so the number of critical MOPAC rows never falls.
- The entry written at DRAMsim3/src/bankstate.cc:558 has three initialisers for two fields; it is read as {row, 1}.
- The epoch test at src/sim.cpp:136 never holds, so nothing resets the write-back budget.
- The MOAT tracked-row and MOPAC buffer tests of a refresh do not wrap around the end of the bank
  (DRAMsim3/src/bankstate.cc:420-427, 507-510) while the clearing loop does; both are modelled as they are.
- The HMC arbiter compares an age with an index (DRAMsim3/src/hmc.cc:601); only the permutation is a result.

## Model

| member | source | states |
|---|---|---|
| `Theorems.ReadsSeeLatestWrite` | DRAMsim3/src/controller.cc:166-288 | In every run (split or unified queues) a read that was called back carries the latest write to its address accepted before it, whether it was forwarded from a pending write, merged with other reads, or served by the array. |
| `DramSystems.SystemReadsSeeLatestWrite` | DRAMsim3/src/dram_system.cc:135-175 | The same for the whole multi-channel system: the read's datum is the latest write among all requests the system had accepted before it, although each controller only sees its own channel's requests. |
| `Theorems.ExactlyOnce` | DRAMsim3/src/controller.cc:44-62 | In every run each accepted transaction is in exactly one of pending reads, return queue and callbacks; it is called back at most once and never before its completion cycle. |
| `Theorems.OneEntryPerPending` | DRAMsim3/src/controller.cc:166-288 | Per address, queued transactions plus queued commands number 1 if a read (a write) of it is pending and 0 otherwise; the drain count stays between 0 and the size of the write buffer. |
| `Theorems.NeverExits` | DRAMsim3/src/controller.cc:64-145 | From every reachable state, whatever refreshes fall due: a tick is completed iff the oldest pending refresh is not a REFsb with per-rank queues, where the source throws (command_queue.cc:193). No other exit is reachable: neither those of the bank state machine nor 'not in read queue', 'not in write queue' or 'cannot find cmd!'. The two assertions of the queue are a separate result (DrainAssertions.HoldsIff). |
| `DrainAssertions.HoldsIff` | DRAMsim3/src/command_queue.cc:64-91 | In every reachable state, whatever falls due: the assertion of FinishRFM never fails, and that of FinishRefresh fails exactly if a refresh is pending while an RFM drains. |
| `DrainAssertions.RfmDrainsIff` | DRAMsim3/src/command_queue.cc:64-105 | When that is: an RFM drains after a tick exactly if it drained behind a pending refresh, or no refresh is pending and the RFM first in line is not ready in the state the tick starts from. |
| `RefreshDuringRfm.FirstAssertionFails` | DRAMsim3/src/command_queue.cc:71 | A concrete run of one bank from power-up (a read, then four ticks) after which the assertion "In FinishRefresh() is_in_rfm_ == True" fails as soon as a refresh falls due. |
| `Theorems.TimingSound` | DRAMsim3/src/channel_state.cc:396-595 | In every reachable state each bank's earliest-start entry is exactly the maximum (from 0) of issue cycle plus tabled delay over the whole command history, and every two commands of the log are spaced as the tables demand on every bank the later one acts on. |
| `Theorems.ActivationsSpread` | DRAMsim3/src/channel_state.cc:610-662 | Any five consecutive activations of a rank span tFAW and, on GDDR, any 33 span t32AW. |
| `Theorems.NoCounterPassesThreshold` | DRAMsim3/src/bankstate.cc:419-458 | With the shipped MOAT settings (config_dramsim3/prac/make_ini.py:149-153) no row counter ever passes ATH; a row at ATH is its bank's tracked row, the bank is closed and the alert is up. |
| `ActivationBound.ActivationsCounted` | DRAMsim3/src/bankstate.cc:214-458 | MOAT over the history, any row-buffer policy: since the last reset of a row (a refresh that covers it, the mitigation of a fifth refresh or of an RFM) its ACTIVATEs are exactly its counter plus the closings that were not counted plus the open row, so at most ATH plus those closings. |
| `ActivationBound.ActivationsBounded` | DRAMsim3/src/controller.cc:290-334 | Under OPEN_PAGE or CLOSE_PAGE with MOAT every closing counts, so in every run a row is activated at most ATH times between two resets. |
| `MoatRuns.SoftCloseEscapes` | DRAMsim3/src/controller.cc:312-334 | Under SOFT_CLOSE_PAGE that bound fails: a concrete run of one bank activates a row twice without a reset although ATH is one. |
| `ActivationBound.BankBalance` | DRAMsim3/src/bankstate.cc:214-458 | Every legal command keeps that balance for every row of its bank. |
| `Livelock.SilentIffAlert` | DRAMsim3/src/channel_state.cc:258-268 | The livelock exactly, with the shipped tABO of 0: from a reachable state no run whatsoever issues another command iff a REFRESH_BANK is first in line while the alert is up, or the next tick throws. |
| `Livelock.SilentIff` | DRAMsim3/src/channel_state.cc:258-268 | The same for any tABO, outside a grace period that still runs behind a REFRESH_BANK. |
| `Livelock.NothingIssuedAfter` | DRAMsim3/src/controller.cc:64-84 | In every run the log never grows after a tick that finds a REFRESH_BANK first in line behind the alert, the tick it falls due included. |
| `MoatRuns.LivelockReached` | DRAMsim3/src/channel_state.cc:258-268 | A concrete run from power-up (a read and three ticks under CLOSE_PAGE) after which a REFRESH_BANK that falls due is such a livelock. |
| `Theorems.ActivationCountersBounded` | DRAMsim3/src/bankstate.cc:281-306 | With RFM mode 1 or 2, 0 <= RAA <= RAAMMT for every bank in every reachable state, and the RFM queue holds at most one entry per (rank, bank) key. |
| `Theorems.RfmsComeFromQueue` | DRAMsim3/src/channel_state.cc:263-283 | In every run whatever RFM a tick adds to the log was the oldest entry of the RFM queue; a bank's own request for one is never issued directly. |
| `Theorems.DrainRun` | DRAMsim3/src/command_queue.cc:64-86 | In every run, from the tick that makes a REFab the oldest pending refresh (the tick it falls due included) to the tick that issues it: it stays first in line, every command to its rank is a precharge that strictly shrinks the set of open banks, none is opened, and all are closed when it issues. |
| `Theorems.DrainTick` | DRAMsim3/src/controller.cc:64-84 | One tick of that drain, from the moment its due refreshes are queued: either the refresh issues with every bank of the rank closed, or the open banks do not grow, strictly fewer after every command to the rank, which is a precharge. |
| `Theorems.BuffersStayDistinct` | DRAMsim3/src/bankstate.cc:546-573 | MOPAC: in every reachable state the buffered rows of a bank are distinct and the sampling window is in range. |
| `Theorems.RunAccounted` | DRAMsim3/src/bankstate.cc:465-573 | MOPAC: in every run a tick changes a row's counter plus its buffered count only as the command it adds to the log accounts for: plus one for an activation sampled for the row, plus one for a counting precharge of it, counter cleared and buffered count dropped, flushed or kept by a refresh of it, counter cleared by its mitigation, otherwise conserved (modulo 2^16). |
| `Theorems.SamplingRate` | DRAMsim3/src/bankstate.cc:546-573 | MOPAC: in every run, of the n activations a bank has had, exactly n / pac_prob were sampled, plus one if the current window is past its chosen position. |
| `Theorems.CompletionsTimely` | DRAMsim3/src/controller.cc:166-288 | In every run a transaction that was called back completed one cycle after it arrived if it is a write or a read that found a pending write of its address on arrival; any other read completed exactly the read delay after a READ of its address issued since it arrived. |
| `Theorems.RunInv` | DRAMsim3/src/controller.cc:64-288 | One inductive invariant over queues, pending maps, history, timing, windows, MOAT and RAA holds in every state of every run. |
| `BankStates.UpdateState` | DRAMsim3/src/bankstate.cc:214-356 | Fails exactly on the commands that are illegal in the bank's state; a bank is open exactly after ACTIVATE, READ or WRITE and iff it has an open row. |
| `ChannelStates.BankReadyLegal` | DRAMsim3/src/bankstate.cc:80-192 | What the bank asks for is legal in its own UpdateState, in time, and for a refresh or RFM request is the request itself or a precharge. |
| `BankObjects.BankState.Update` | DRAMsim3/src/bankstate.cc:214-356 | The object's UpdateState on fields and the counter array goes exactly where the value function says, and reports failure exactly where the source exits. |
| `BankObjects.BankState.ClearRows` | DRAMsim3/src/bankstate.cc:264-268 | The wrap-around clearing loop zeroes exactly the rows at distance less than rows_refreshed from the refresh pointer. |
| `BankObjects.BankState.Flush` | DRAMsim3/src/bankstate.cc:474-487 | The flush loop moves the oldest entries into their counters, one by one. |
| `BankObjects.BankState.MopacHandleCriticalRow` | DRAMsim3/src/bankstate.cc:489-501 | The loop takes the first entry at or above the threshold out of the buffer and adds it to its counter. |
| `BankObjects.EraseRange` | DRAMsim3/src/bankstate.cc:507-518 | The erase-while-iterating loop leaves exactly the entries outside the refreshed range, in order. |
| `BankObjects.BankState.MopacCtrUpdate` | DRAMsim3/src/bankstate.cc:546-573 | Find-or-append sampling of the open row and the window step. |
| `BankObjects.BankState.MopacHandleRef` | DRAMsim3/src/bankstate.cc:503-529 | The MOPAC part of a refresh, including the 64-bit wrap of the drain countdown. |
| `BankObjects.BankState.MopacMitigate` | DRAMsim3/src/bankstate.cc:531-544 | The choice between critical row, full buffer, mitigation and flush. |
| `BankObjects.BankState.MoatHandleRef` | DRAMsim3/src/bankstate.cc:448-458 | Every fifth refresh mitigates; a tracked row in the refreshed range is dropped. |
| `BankObjects.BankState.ApplyConstraints` | DRAMsim3/src/channel_state.cc:466-477 | Applying a list of constraints to the bank one by one is the specified Constrain, whose entries ConstrainMax characterises. |
| `BankObjects.BankState.constructor` | DRAMsim3/src/bankstate.cc:17-57 | The bank starts closed, with all counters and bounds at zero. |
| `MoatBound.MoatStep` | DRAMsim3/src/channel_state.cc:305-461 | Every issued command keeps the MOAT invariant, including a REFab that clears the alert and must raise it again for a bank still at ATH. |
| `MoatBound.BankEffect` | DRAMsim3/src/bankstate.cc:214-458 | A bank becomes hot only by closing a row that counted to ATH or by staying hot; an RFM cools it; all counters stay bounded and a row at ATH is the tracked one. |
| `MoatBound.RefreshEffect` | DRAMsim3/src/bankstate.cc:257-280 | A refresh, with its wrap-around clearing and its non-wrapping tracked-row test, keeps the bound and the tracked row. |
| `MopacCounting.OneSamplePerBlock` | DRAMsim3/src/bankstate.cc:556-572 | Every block of pac_prob activations samples exactly one, for any random draws and any number of blocks. |
| `MopacCounting.RestOfWindow` | DRAMsim3/src/bankstate.cc:556-572 | From any position inside a window the rest of it holds one sample if the chosen position is still ahead, else none. |
| `MopacCounting.BankAccounted` | DRAMsim3/src/bankstate.cc:214-356 | Every legal command accounts for what it does to each row's counter plus buffered count, and keeps the buffered rows distinct. |
| `MopacCounting.RefreshConserves` | DRAMsim3/src/bankstate.cc:503-529 | A refresh conserves the total of every row it does not refresh. Of a row it does, the counter is cleared and the buffered count is gone, or kept whole if the row lies where the unwrapped buffer test does not reach. |
| `MopacCounting.RfmConserves` | DRAMsim3/src/bankstate.cc:531-544 | An RFM conserves every total, except the tracked row's counter when it mitigates. |
| `MopacCounting.FlushConserves` | DRAMsim3/src/bankstate.cc:465-487 | Flushing any number of entries conserves every row's total modulo 2^16. |
| `MopacCounting.ActivateConserves` | DRAMsim3/src/bankstate.cc:546-573 | An activation adds one to a row's total exactly if it is sampled for that row. |
| `MopacCounting.WindowMoves` | DRAMsim3/src/bankstate.cc:569-572 | Only an activation moves the sampling window. |
| `ChannelStates.ReadyIsIssuable` | DRAMsim3/src/channel_state.cc:208-294 | FSM agreement: what GetReadyCommand returns for a read, write, refresh or RFM is legal, in time, within the activation windows and not blocked by the alert, for every bank it acts on; a rank or bankset command comes back only if all its banks are closed. |
| `ChannelStates.ScanRankSound` | DRAMsim3/src/channel_state.cc:210-233 | The rank scan returns the request only if every bank is ready for it, otherwise a precharge that some bank of the rank needs, or nothing. |
| `ChannelStates.ScanBanksetSound` | DRAMsim3/src/channel_state.cc:234-257 | The same for one bank of every bankgroup. |
| `ChannelRuns.TimingStep` | DRAMsim3/src/channel_state.cc:396-595 | Each issued command keeps every bound equal to the exact maximum over the history and the whole log spaced. |
| `ChannelRuns.ConstrainMax` | DRAMsim3/src/bankstate.cc:361-365 | After a list of constraints an entry is the exact maximum of its old value and the bounds listed for it. |
| `ChannelRuns.WindowStep` | DRAMsim3/src/channel_state.cc:624-640 | Although an activation erases at most one expired entry, the list never exceeds its capacity, holds every unexpired activation, and activations `cap` apart stay a span apart. |
| `ChannelRuns.WindowsStep` | DRAMsim3/src/channel_state.cc:624-662 | Both windows of every rank keep that invariant across every issued command. |
| `ChannelRuns.RaaStep` | DRAMsim3/src/bankstate.cc:93-101 | Every issued command keeps 0 <= RAA <= RAAMMT. |
| `ChannelRuns.IssuedBank` | DRAMsim3/src/channel_state.cc:600-605 | What issuing does to each single bank: its state update if touched, then the constraints of its relation to the command. |
| `ChannelObjects.ChannelState.GetReadyCommand` | DRAMsim3/src/channel_state.cc:208-294 | The object's scans over banks return the specified command and append to the RFM queue exactly as specified. |
| `ChannelObjects.ChannelState.UpdateStates` | DRAMsim3/src/channel_state.cc:305-345 | The nested loops update exactly the touched banks and the served queue entry, and fail exactly where a bank exits. |
| `ChannelObjects.ChannelState.SpreadTiming` | DRAMsim3/src/channel_state.cc:466-595 | The fan-out loops constrain every bank exactly once, by the table of its relation to the command. |
| `ChannelObjects.ChannelState.UpdateTiming` | DRAMsim3/src/channel_state.cc:396-461 | Counters, windows, alert and fan-out together are the specified step. |
| `ChannelObjects.ChannelState.UpdateTimingAndStates` | DRAMsim3/src/channel_state.cc:600-605 | Issuing on the object is issuing on its value. |
| `ChannelObjects.ChannelState.TriggerAlert` | DRAMsim3/src/channel_state.cc:350-391 | The alert rises exactly if it was down, enough activations have passed, alerts are on and a bank the trigger looks at asks for it. |
| `ChannelObjects.ChannelState.UpdateActivationTimes` | DRAMsim3/src/channel_state.cc:624-640 | The window lists slide as specified. |
| `ChannelObjects.ChannelState.RankNeedRfm` | DRAMsim3/src/channel_state.cc:175-203 | Adds a rank's RFM once, or removes the first entry of the rank. |
| `ChannelObjects.ChannelState.BanksetNeedRfm` | DRAMsim3/src/channel_state.cc:142-170 | Adds a bankset's RFM once, or removes its first entry. |
| `ChannelObjects.ChannelState.FanOut` | DRAMsim3/src/channel_state.cc:466-595 | The loop nest changes exactly the selected banks. |
| `TimingTables.PracFormsAlike` | DRAMsim3/src/timing.cc:15-43 | After copy_all a PRAC precharge waits for everything exactly as long as its plain form, constrains everything exactly as its plain form, and no other constraint changes. |
| `TimingTables.OverwriteChangesOne` | DRAMsim3/src/timing.cc:45-54 | find_and_set changes at most the first delay of one command in one row. |
| `TimingTables.TimingTable.CopyAll` | DRAMsim3/src/timing.cc:37-43 | The copying loops in place are the specified copy. |
| `TimingTables.TimingTable.FindAndSet` | DRAMsim3/src/timing.cc:45-54 | The search loop overwrites the first entry for the command, or nothing. |
| `CommandQueues.QueueIndexInjective` | DRAMsim3/src/command_queue.cc:226-233 | With per-bank queues different banks have different queues. |
| `CommandQueues.QueueIndexBounds` | DRAMsim3/src/command_queue.cc:226-233 | The index is in range and belongs to exactly the bank's rank. |
| `CommandQueues.HeldCovers` | DRAMsim3/src/command_queue.cc:175-224 | The held-back queues cover every bank the refresh or RFM acts on, and for a whole rank hold no queue of another rank's bank. |
| `CommandQueues.HeldOnly` | DRAMsim3/src/command_queue.cc:175-224 | Conversely every held-back queue is that of some bank the command acts on, so the held queues are exactly the image of its banks. |
| `CommandQueues.CommandToIssueSound` | DRAMsim3/src/command_queue.cc:37-62 | The round-robin pick comes from a queue that is not held back, may be issued now, a read or write is the queued command itself and is erased, a write has no older read of its location in front of it; the erase never fails. |
| `CommandQueues.FirstReadySound` | DRAMsim3/src/command_queue.cc:240-258 | The same for the first ready command of one queue. |
| `CommandQueues.RfmAfterOk` | DRAMsim3/src/channel_state.cc:142-203 | Asking for a command keeps the RFM queue to one entry per key and only appends to it. |
| `FrFcfs.FirstReadyIsFirst` | DRAMsim3/src/command_queue.cc:240-258 | First-ready, first-come: the scan answers for the first entry of the queue that is ready and not barred, and with nothing only if there is none. |
| `FrFcfs.NothingLeftBehind` | DRAMsim3/src/command_queue.cc:37-62 | Work conserving round robin: GetCommandToIssue returns nothing iff every queue is held back or has nothing to give, and otherwise serves the first queue after the last served that has. |
| `QueueObjects.CommandQueue.GetCommandToIssue` | DRAMsim3/src/command_queue.cc:37-62 | The object's loop over the queues returns the specified command and leaves the specified queues, position and RFM queue. |
| `QueueObjects.CommandQueue.GetFirstReady` | DRAMsim3/src/command_queue.cc:240-258 | The object's scan of one queue, with its calls into the channel. |
| `QueueObjects.CommandQueue.EraseRWCommand` | DRAMsim3/src/command_queue.cc:260-270 | Erases the first queued command of the address and direction, or reports that there is none. |
| `QueueObjects.CommandQueue.FinishPendingRefresh` | DRAMsim3/src/command_queue.cc:64-86 | Holds the refresh's queues (or throws), asks the channel, and lets go when the refresh issues. |
| `QueueObjects.CommandQueue.FinishPendingRfm` | DRAMsim3/src/command_queue.cc:89-105 | The same for an RFM. |
| `QueueObjects.CommandQueue.QueueIndices` | DRAMsim3/src/command_queue.cc:175-224 | The loops collect exactly the queues of a rank, a bankset or a bank. |
| `QueueObjects.ArbitratePrecharge` | DRAMsim3/src/command_queue.cc:107-139 | True iff the command is the oldest of its bank and no row hit waits or the hit limit is reached. |
| `QueueObjects.HasRWDependency` | DRAMsim3/src/command_queue.cc:280-292 | True iff an older read of the same location is in the queue. |
| `QueueObjects.CommandQueue.AddCommand` | DRAMsim3/src/command_queue.cc:156-165 | Appends to the command's own queue iff it has room. |
| `ControllerRuns.TickKeeps` | DRAMsim3/src/controller.cc:64-145 | A tick from any state satisfying the invariant does not exit unless the oldest pending refresh cannot be drained for, keeps the invariant, and changes the channel exactly as the selected command does. |
| `TickCore.SelectSound` | DRAMsim3/src/controller.cc:69-79 | Unless draining for the oldest refresh throws, the selected command is issuable and has a known origin: the oldest refresh, the oldest RFM, a queued request not held back, or a precharge or activation for one. |
| `TickCore.IssueCore` | DRAMsim3/src/controller.cc:81-83 | After issuing, the channel is well-formed and the held queues are those of the oldest pending refresh or RFM. |
| `Bookkeeping.AddKeepsBook` | DRAMsim3/src/controller.cc:166-200 | Accepting a transaction keeps one waiting entry per pending address. |
| `Bookkeeping.ScheduleKeepsBook` | DRAMsim3/src/controller.cc:202-249 | Scheduling keeps that and lets no write pass a read of its address, with split and with unified queues. |
| `Bookkeeping.WriteHasNoPendingRead` | DRAMsim3/src/controller.cc:236-241 | A write command is issued only while no read of its address is pending. |
| `Bookkeeping.TakenIsPending` | DRAMsim3/src/controller.cc:260-283 | The 'not in read queue' and 'not in write queue' exits are unreachable. |
| `Bookkeeping.RetireKeepsBook` | DRAMsim3/src/controller.cc:259-284 | Issuing a read or write keeps one waiting entry per pending address. |
| `DataRefinement.AddKeepsData` | DRAMsim3/src/controller.cc:166-200 | Merging and forwarding keep the pending writes over the array equal to the reference memory, and owe every transaction its own past. |
| `DataRefinement.RetireKeepsData` | DRAMsim3/src/controller.cc:259-284 | Serving merged reads or retiring a write keeps it, provided no read of a retired write's address is pending. |
| `Latency.RetireKeepsLatency` | DRAMsim3/src/controller.cc:259-284 | Every read taken out of the pending ones is served by the READ that is issued and completes the read delay later; none of them was forwarded. |
| `DataRefinement.AddKeepsOnce` | DRAMsim3/src/controller.cc:166-200 | A new transaction is put in exactly one place. |
| `DataRefinement.ReturnKeeps` | DRAMsim3/src/dram_system.cc:154-167 | Calling back everything that is complete loses nothing and returns nothing twice. |
| `RefreshDrain.DrainStep` | DRAMsim3/src/channel_state.cc:210-233 | While a rank's refresh is pending either it issues with all banks closed, or only precharges reach the rank and each strictly shrinks its set of open banks. |
| `RefreshDrain.OnlyPrecharges` | DRAMsim3/src/command_queue.cc:37-54 | Because its queues are held back, the only commands that reach the rank are precharges. |
| `ControllerObjects.MemoryController.AddTransaction` | DRAMsim3/src/controller.cc:166-200 | The object merges, forwards or queues the transaction as specified. |
| `ControllerObjects.MemoryController.ScheduleTransaction` | DRAMsim3/src/controller.cc:202-249 | The drain decision and the scan of the served queue are the specified step. |
| `ControllerObjects.MemoryController.IssueCommand` | DRAMsim3/src/controller.cc:251-288 | Retires the requests, updates the channel, and fails exactly where the source exits. |
| `ControllerObjects.MoveReads` | DRAMsim3/src/controller.cc:267-273 | The find-and-erase loop moves all pending reads of the address to the return queue, in order, and no other. |
| `ControllerObjects.MemoryController.SelectCommand` | DRAMsim3/src/controller.cc:69-79 | A pending refresh first, then a pending RFM, then the queues. |
| `ControllerObjects.MemoryController.ReturnDoneTrans` | DRAMsim3/src/controller.cc:44-62 | Takes out the first completed transaction, or reports that there is none. |
| `ControllerObjects.MemoryController.DrainCompletions` | DRAMsim3/src/dram_system.cc:156-167 | The callback loop ends and returns exactly everything that is complete. |
| `ControllerObjects.MemoryController.constructor` | DRAMsim3/src/controller.cc:9-38 | The controller starts empty. |
| `ControllerClock.ClockTick` | DRAMsim3/src/controller.cc:64-145 | From any state satisfying the invariant the object goes through exactly the tick of its value and keeps the invariant; it fails exactly on a REFsb first in line with per-rank queues. |
| `DramSystems.SysRunInv` | DRAMsim3/src/dram_system.cc:135-175 | In every run of the system each controller satisfies its invariant and has accepted exactly the requests of its channel, in order. |
| `DramSystems.LatestRouted` | DRAMsim3/src/dram_system.cc:31-34 | The last write to an address in the whole history is the last one in its channel's share. |
| `AddressMapping.SetAddressMapping` | DRAMsim3/src/configuration.cc:402-490 | Accepts a string iff it lists the 6 (or, with a split column, 7) required fields, each once; the fields are then stacked, disjoint and covering. Only an accepted split needs the mop size to fit the column. |
| `AddressMapping.RequiredFill` | DRAMsim3/src/configuration.cc:460-473 | The position lookups force the tokens to be a permutation of the required fields. |
| `AddressMapping.EncodeDecode` | DRAMsim3/src/configuration.cc:37-56 | Encoding undoes decoding on every request-aligned address of the mapped space, including the split column. |
| `AddressMapping.DecodeEncode` | DRAMsim3/src/configuration.cc:37-56 | Decoding undoes encoding: fitting coordinates have an address of their own. |
| `AddressMapping.DecodeInRange` | DRAMsim3/src/configuration.cc:37-56 | For all sizes >= 1, powers of two or not, a decoded coordinate is in range. |
| `AddressMapping.LogBase2` | DRAMsim3/src/common.cc:57-64 | The shift loop computes the rounded-down logarithm. |
| `Configuration.MappingDecodes` | DRAMsim3/src/configuration.cc:402-490 | The decoder of every accepted mapping string is one the controller results apply to. |
| `HmcSystems.RunOk` | DRAMsim3/src/hmc.cc:397-542 | Over every interleaving of insertions, drains and callbacks: per address the lookup table counts the requests in links, quads and vaults, and an age is positive iff its queue is not empty. |
| `HmcSystems.ResponsesMatch` | DRAMsim3/src/hmc.cc:494-542 | Per address, accepted requests equal callbacks plus what is still in the crossbar and the vaults. |
| `HmcSystems.InsertIffRoom` | DRAMsim3/src/hmc.cc:330-341 | InsertHMCReq succeeds iff WillAcceptTransaction holds. |
| `HmcCrossbar.CallbackKeeps` | DRAMsim3/src/hmc.cc:621-635 | VaultCallback always finds its entry, and keeps the books. |
| `HmcCrossbar.AgeQueueExact` | DRAMsim3/src/hmc.cc:589-613 | BuildAgeQueue lists each index with a positive age exactly once, and nothing else. |
| `HmcCrossbar.DrainRequestsKeeps` | DRAMsim3/src/hmc.cc:444-492 | Draining requests to quads and vaults keeps the books. |
| `HmcCrossbar.DrainResponsesKeeps` | DRAMsim3/src/hmc.cc:494-542 | Draining responses to links and the processor keeps the books. |
| `HmcSystems.HmcSystem.InsertHmcReq` | DRAMsim3/src/hmc.cc:419-442 | The loop around the links puts the request on the first link with room, or changes nothing. |
| `HmcSystems.HmcSystem.BuildAgeQueue` | DRAMsim3/src/hmc.cc:589-613 | The insertion loops build the specified queue. |
| `HmcSystems.HmcSystem.DrainRequests` | DRAMsim3/src/hmc.cc:444-492 | The object's loops are the specified drain. |
| `HmcSystems.HmcSystem.DrainResponses` | DRAMsim3/src/hmc.cc:494-542 | The object's loops are the specified drain. |
| `HmcSystems.HmcSystem.VaultCallback` | DRAMsim3/src/hmc.cc:621-635 | The object's callback is the specified one; the lookup cannot fail. |
| `HmcSystems.HmcSystem.WillAccept` | DRAMsim3/src/hmc.cc:330-341 | True iff some link has room. |
| `LruRefinement.RunSimulates` | src/mcache.cpp:38-268 | After every run of reads, writes and invalidations under LRU the timestamp cache simulates per-set recency lists. |
| `LruRefinement.ReadAnswers` | src/mcache.cpp:149-203 | After every run a read hits iff its set's recency list holds the line; otherwise the reported dirty eviction is exactly the dirty last line of a full list. |
| `LruRefinement.OldestIsLast` | src/mcache.cpp:250-268 | In a full set the LRU victim is the last line of the recency list. |
| `LruRefinement.FullIffAllValid` | src/mcache.cpp:213-226 | The list is full iff no way is invalid. |
| `CacheRuns.RunKeepsOk` | src/mcache.cpp:38-203 | Over every run and policy: lines sit in their indexed set, tags and timestamps are unique, SRRIP counters stay in 0..7, write-backs in the epoch are at most the limit plus the forced ones, and no install finds its line present. |
| `CacheRuns.WbtBudget` | src/mcache.cpp:321-354 | The throttled victim is the least recently used eligible way; plain LRU is used exactly when every way is dirty and the budget is spent, and only then is a write-back forced. |
| `CacheRuns.ApplyKeepsOk` | src/mcore.cpp:106-127 | One read (access, then install on a miss), write-back mark or invalidation keeps the cache invariant. |
| `LastLevelCache.MCache.FindVictimSrrip` | src/mcache.cpp:287-316 | The aging loop terminates, returns the first way with the minimal counter, and lowers every counter of the set by exactly that minimum. |
| `LastLevelCache.MCache.FindVictimLru` | src/mcache.cpp:250-268 | Returns the first way with the smallest timestamp. |
| `LastLevelCache.MCache.FindVictimLruWbt` | src/mcache.cpp:321-354 | The object's scan and counters are the specified throttled choice. |
| `LastLevelCache.MCache.FindVictim` | src/mcache.cpp:213-245 | An invalid way if there is one, else the policy's choice. |
| `LastLevelCache.MCache.Access` | src/mcache.cpp:38-70 | Hit or miss, and the stamp and counter of the way that hit. |
| `LastLevelCache.MCache.Install` | src/mcache.cpp:149-203 | Fails exactly if the line is present; otherwise the victim is replaced and a valid dirty victim is reported. |
| `LastLevelCache.MCache.Probe` | src/mcache.cpp:76-94 | True iff a valid way of the indexed set holds the line. |
| `LastLevelCache.MCache.Invalidate` | src/mcache.cpp:101-120 | Clears the valid bit of the line's way, if any. |
| `LastLevelCache.MCache.MarkDirty` | src/mcache.cpp:126-143 | Sets the dirty bit of the line's way, if any, without touching recency. |
| `LastLevelCache.MCache.constructor` | src/mcache.cpp:15-30 | The cache starts empty. |
| `OsFrames.TranslationInjective` | src/os.cpp:34-94 | Over every run two requests get the same physical line iff they are for the same line of the same thread (thread ids modulo 2^28, where the 64-bit key wraps), and no request gets a line of frame 0. |
| `OsFrames.RunOk` | src/os.cpp:13-72 | In every reachable state the marked frames are exactly frame 0 and those of the page table, no two pages share one, and the miss count is the size of the table. |
| `OsFrames.AnswerStays` | src/os.cpp:34-46 | A translation once given is still what the table says in any later state. |
| `OsFrames.FrameAllocator.GetVictim` | src/os.cpp:52-72 | The retry loop takes the first drawn free frame within 1000 tries, or fails; it fails at once without headroom. |
| `OsFrames.FrameAllocator.VpnToPfn` | src/os.cpp:34-46 | Looks the page up or gives it a new frame; fails exactly where an assertion stops the source. |
| `OsFrames.FrameAllocator.LineAddr` | src/os.cpp:87-94 | The line's frame and its offset in the page. |
| `OsFrames.FrameAllocator.constructor` | src/os.cpp:13-30 | Only frame 0 is marked. |
| `DramGeometry.SameRow` | src/dram.cpp:88-153 | All four mapping policies give the row line / (lines per row buffer * channels * banks per channel). |
| `DramGeometry.ParseInRange` | src/drambank.cpp:126-127 | Every line of the memory maps to an existing channel, bank and row, so the insert assertion cannot fire. |
| `DramGeometry.ParseLineAt` | src/dram.cpp:88-153 | Each (channel, bank, row) receives a line for every column: the parser undoes the explicit inverse and the column comes back. |
| `DramGeometry.LineAtParse` | src/dram.cpp:88-153 | Conversely every line is the line of its own place and column, so each (channel, bank, row) holds exactly as many lines as a row buffer. |
| `DramGeometry.MemLines` | src/dram.cpp:23-43 | The derived counts multiply up to the lines of the memory. |

## Left out

- Self-refresh: the bank has no ready command for leaving it, so runs never enter it; SREF commands are in the types only.
- HBM dual issue and ROWPRESS: build options that are off.
- Timing table contents (DRAMsim3/src/timing.cc:56-381): the tables are a parameter of the channel, any lists of non-negative delays.
- The refresh generator (DRAMsim3/src/refresh.cc): refreshes arrive as arbitrary appends.
- Machine integers: unbounded, except the 16-bit row counters, the 64-bit drain countdown and the 64-bit page key.
- Objects: the channel object holds its banks as values and calls the functions that the methods of the bank object are proved against; the two layers are refined separately, so aliasing of banks is not modelled.
- Queue capacity: fixed at the reserved size; a vector that outgrows it is not modelled, since callers ask before they insert.
- JedecDRAMSystem as an object: its loops over controllers are a relation per controller; the callback loop is MemoryController.DrainCompletions.
- HMCMemorySystem::ClockTick: the clock ratio is left out; the results hold for every interleaving of the drains and callbacks.
- HMC vaults: a bag of accepted addresses and an acceptance input instead of full controllers; equal keys of the lookup table are served oldest first.
- HMC request kinds: only direction and flit counts are kept.
- Cache `touched_*` fields and hit statistics, the ROB and trace handling in src/mcore.cpp and src/memsys.cpp.
- Native bank and channel timing in src/drambank.cpp and src/dramchannel.cpp.
- IdealDRAMSystem, statistics, power, thermal model, INI parsing, trace drivers and scripts.
- Theorems.RunAccounted: totals are conserved modulo 2^16, because the row counters wrap.
