/** The main results, for every run of the controller from power-up. */
module Theorems {
  import opened Commands
  import opened Configuration
  import opened BankStates
  import opened ChannelStates
  import opened ChannelRuns
  import opened CommandQueues
  import opened Controllers
  import opened TickCore
  import opened Bookkeeping
  import opened DataRefinement
  import opened ControllerRuns
  import opened MoatBound
  import opened MopacCounting
  import opened Latency
  import opened RefreshDrain

  datatype Step = Arrive(addr: nat, isWrite: bool) | Clock(input: TickInput) | Return

  /** Nothing falls due, and a REFab of the first rank does. */
  const Idle := TickInput([], false, 0)
  const RefreshDue := TickInput([RankCmd(RefAb, 0)], false, 0)

  ghost predicate StepsTo(cfg: Config, s: Controller, step: Step, s': Controller)
    requires cfg.Valid()
  {
    match step
    case Arrive(a, w) => WillAccept(cfg, s, w) && s' == AddTransaction(cfg, s, a, w)
    case Clock(e) => InputOk(cfg, e) && s.ch.Valid(cfg) && s.cq.Usable(cfg) && Tick(cfg, s, e) == Some(s')
    case Return => s' == ReturnAll(s)
  }

  ghost predicate Run(cfg: Config, sel: BankId -> nat, states: seq<Controller>, steps: seq<Step>)
    requires cfg.Valid()
  {
    && |states| == |steps| + 1 && states[0] == InitController(cfg, sel)
    && forall i :: 0 <= i < |steps| ==> StepsTo(cfg, states[i], steps[i], states[i + 1])
  }

  /** The command that a step added to the log. */
  function Added(s: Controller, s': Controller): Option<Command> {
    if |s'.log| == |s.log| + 1 then Some(s'.log[|s.log|].cmd) else None
  }

  // ----- The invariant along a run -----

  lemma InitChannelValid(cfg: Config, sel: BankId -> nat)
    requires cfg.Valid()
    ensures InitChannel(cfg, sel).Valid(cfg)
  {
    var ch := InitChannel(cfg, sel);
    forall id ensures id in ch.banks <==> cfg.HasBank(id) {
      if cfg.HasBank(id) { assert id == BankId(id.rank, id.bankgroup, id.bank); }
    }
  }

  lemma {:induction false} EmptyCounts(qs: seq<seq<Command>>, a: int, w: bool)
    requires forall k :: 0 <= k < |qs| ==> qs[k] == []
    ensures AllCmdCount(qs, a, w) == 0
  {
    if qs != [] { EmptyCounts(qs[1..], a, w); }
  }

  lemma InitInv(cfg: Config, sel: BankId -> nat)
    requires cfg.Valid()
    ensures Inv(cfg, InitController(cfg, sel))
  {
    var s := InitController(cfg, sel);
    InitChannelValid(cfg, sel);
    BanksPositive(cfg);
    InitLocal(cfg, sel);
    assert NumQueues(cfg) >= 1 by {
      assert cfg.Banks() * cfg.sizes.ranks >= 1;
    }
    assert CoreInv(cfg, s);
    InitHistory(cfg, sel);
  }

  lemma InitHistory(cfg: Config, sel: BankId -> nat)
    requires cfg.Valid()
    ensures InitChannel(cfg, sel).Valid(cfg) && HistoryInv(cfg, InitChannel(cfg, sel), [], 0)
  {
    InitChannelValid(cfg, sel);
  }

  lemma InitLocal(cfg: Config, sel: BankId -> nat)
    requires cfg.Valid()
    ensures LocalInv(cfg, InitController(cfg, sel))
  {
    var s := InitController(cfg, sel);
    forall a: int, w: bool ensures Waiting(s, a, w) == 0 { EmptyCounts(s.cq.queues, a, w); }
    assert CountsOk(s);
  }

  lemma ArriveKeeps(cfg: Config, s: Controller, addr: nat, isWrite: bool)
    requires cfg.Valid() && Inv(cfg, s)
    ensures Inv(cfg, AddTransaction(cfg, s, addr, isWrite))
  {
    AddKeepsBook(cfg, s, addr, isWrite);
    AddKeepsOrder(cfg, s, addr, isWrite);
    AddKeepsData(cfg, s, addr, isWrite);
    AddKeepsOnce(cfg, s, addr, isWrite);
    AddKeepsRest(cfg, s, addr, isWrite);
  }

  lemma AddKeepsRest(cfg: Config, s: Controller, addr: nat, isWrite: bool)
    ensures var s' := AddTransaction(cfg, s, addr, isWrite);
      s'.ch == s.ch && s'.cq == s.cq && s'.log == s.log && s'.clk == s.clk
  {}

  lemma ReturnKeepsInv(cfg: Config, s: Controller)
    requires cfg.Valid() && Inv(cfg, s)
    ensures Inv(cfg, ReturnAll(s))
  {
    ReturnKeeps(s);
    var s' := ReturnAll(s);
    assert forall a: int, w :: Waiting(s', a, w) == Waiting(s, a, w);
  }

  lemma StepKeeps(cfg: Config, s: Controller, step: Step, s': Controller)
    requires cfg.Valid() && Inv(cfg, s) && StepsTo(cfg, s, step, s')
    ensures Inv(cfg, s')
  {
    match step
    case Arrive(a, w) => ArriveKeeps(cfg, s, a, w);
    case Clock(e) => var p, k, j := TickTaken(cfg, s, e, s');
    case Return => ReturnKeepsInv(cfg, s);
  }

  lemma {:induction false} RunInv(cfg: Config, sel: BankId -> nat, states: seq<Controller>, steps: seq<Step>, i: nat)
    requires cfg.Valid() && Run(cfg, sel, states, steps) && i < |states|
    ensures Inv(cfg, states[i])
  {
    if i == 0 {
      InitInv(cfg, sel);
    } else {
      RunInv(cfg, sel, states, steps, i - 1);
      StepKeeps(cfg, states[i - 1], steps[i - 1], states[i]);
    }
  }

  // ----- Main results -----

  /** No tick of any run reaches an exit of the source (every issued command is legal for every bank it acts on, every
      retired command has its pending transactions, every erased command is queued), but one: the tick throws exactly if
      the oldest pending refresh, once those that fall due are queued, is a REFsb and there is one queue per rank. */
  lemma NeverExits(cfg: Config, sel: BankId -> nat, states: seq<Controller>, steps: seq<Step>, i: nat, e: TickInput)
    requires cfg.Valid() && Run(cfg, sel, states, steps) && i < |states| && InputOk(cfg, e)
    ensures states[i].ch.Valid(cfg) && states[i].cq.Usable(cfg)
    ensures Tick(cfg, states[i], e).Some? <==> Servable(cfg, Due(states[i], e).ch)
  {
    RunInv(cfg, sel, states, steps, i);
    if Servable(cfg, Due(states[i], e).ch) {
      var s', p, k, j := TickKeeps(cfg, states[i], e);
    } else {
      TickThrows(cfg, states[i], e);
    }
  }

  /** Memory refinement: every read that has been called back returned the latest write to its address
      accepted before it, whether it was forwarded, merged or served by the array. */
  lemma ReadsSeeLatestWrite(cfg: Config, sel: BankId -> nat, states: seq<Controller>, steps: seq<Step>, i: nat,
                            t: Transaction)
    requires cfg.Valid() && Run(cfg, sel, states, steps) && i < |states| && t in states[i].done && !t.isWrite
    ensures t.name < |states[i].accepted| && states[i].accepted[t.name] == Request(t.addr, false)
    ensures t.data == LatestWrite(states[i].accepted[..t.name], t.addr)
  {
    RunInv(cfg, sel, states, steps, i);
  }

  /** Exactly-once: every accepted transaction is in exactly one of the pending reads, the return queue and
      the list of callbacks, and no callback comes before its completion cycle. */
  lemma ExactlyOnce(cfg: Config, sel: BankId -> nat, states: seq<Controller>, steps: seq<Step>, i: nat, n: nat)
    requires cfg.Valid() && Run(cfg, sel, states, steps) && i < |states|
    ensures var s := states[i];
      && Places(s, n) == Bit(n < |s.accepted|) && NameCount(s.done, n) <= 1
      && forall t <- s.done :: t.complete <= s.clk
  {
    RunInv(cfg, sel, states, steps, i);
    assert Places(states[i], n) == Bit(n < |states[i].accepted|);
  }

  /** An address waits in the queues exactly once while it is pending, and the drain count stays within the buffer. */
  lemma OneEntryPerPending(cfg: Config, sel: BankId -> nat, states: seq<Controller>, steps: seq<Step>, i: nat, a: int)
    requires cfg.Valid() && Run(cfg, sel, states, steps) && i < |states|
    ensures var s := states[i];
      && Waiting(s, a, false) == Bit(a in Keys(s.pendingRd)) && Waiting(s, a, true) == Bit(a in s.pendingWr.Keys)
      && 0 <= s.draining <= |s.writeBuf|
  {
    RunInv(cfg, sel, states, steps, i);
  }

  /** Timing: the bound kept per bank and command is exactly the one the history demands, and every issued
      command respects every table entry of every earlier command. */
  lemma TimingSound(cfg: Config, sel: BankId -> nat, states: seq<Controller>, steps: seq<Step>, i: nat)
    requires cfg.Valid() && Run(cfg, sel, states, steps) && i < |states|
    ensures states[i].ch.Valid(cfg) && TimingExact(cfg, states[i].ch, states[i].log) && Spaced(cfg, states[i].log)
  {
    RunInv(cfg, sel, states, steps, i);
  }

  /** Any five consecutive activations of a rank span tFAW and, on GDDR, any 33 span t32AW. */
  lemma ActivationsSpread(cfg: Config, sel: BankId -> nat, states: seq<Controller>, steps: seq<Step>, i: nat,
                          rank: int, k: nat)
    requires cfg.Valid() && Run(cfg, sel, states, steps) && i < |states| && cfg.HasRank(rank)
    ensures var ts := ActTimes(states[i].log, rank);
      && (k + 4 < |ts| ==> ts[k] + cfg.tFAW <= ts[k + 4])
      && (cfg.isGddr && k + 32 < |ts| ==> ts[k] + cfg.t32AW <= ts[k + 32])
  {
    RunInv(cfg, sel, states, steps, i);
    assert WindowInv(ActTimes(states[i].log, rank), states[i].ch.fourAw[rank], 4, cfg.tFAW);
  }

  /** MOAT: over every run with the shipped settings no row counter passes the alert threshold; a row at the
      threshold is its bank's tracked row, the bank is closed and the alert is up. */
  lemma NoCounterPassesThreshold(cfg: Config, sel: BankId -> nat, states: seq<Controller>, steps: seq<Step>, i: nat,
                                 id: BankId, r: nat)
    requires MoatConfig(cfg) && Run(cfg, sel, states, steps) && i < |states| && cfg.HasBank(id) && cfg.HasRow(r)
    ensures states[i].ch.Valid(cfg)
    ensures var ch, b := states[i].ch, states[i].ch.banks[id];
      && b.prac[r] <= cfg.moatAth
      && (b.prac[r] == cfg.moatAth ==> ch.alert && b.state == Closed && b.moatValid && b.moatRow == r)
  {
    RunInv(cfg, sel, states, steps, i);
    CountersBounded(cfg, states[i].ch, states[i].clk, id, r);
  }

  /** RFM: no activation counter passes RAAMMT, and the RFM queue has one entry per (rank, bank) key. */
  lemma ActivationCountersBounded(cfg: Config, sel: BankId -> nat, states: seq<Controller>, steps: seq<Step>, i: nat)
    requires cfg.Valid() && Run(cfg, sel, states, steps) && i < |states| && RfmConfig(cfg)
    ensures RaaBounded(cfg, states[i].ch) && RfmQueueOk(cfg, states[i].ch.rfmQ)
  {
    RunInv(cfg, sel, states, steps, i);
  }

  /** An RFM is issued only as the oldest entry of the RFM queue; a bank's own request for one is never issued. */
  lemma RfmOnlyFromQueue(cfg: Config, s: Controller, e: TickInput, s': Controller) returns (c: Option<Command>)
    requires cfg.Valid() && Inv(cfg, s) && InputOk(cfg, e) && Tick(cfg, s, e) == Some(s')
    ensures s'.log == s.log + (match c case None => [] case Some(d) => [Event(s.clk, d)])
    ensures c.Some? && c.value.ty.IsRfm() ==> s.ch.rfmQ != [] && c.value == s.ch.rfmQ[0]
  {
    var p, k, j := TickTaken(cfg, s, e, s');
    c := if p.ready.Issue? then Some(p.ready.cmd) else None;
    RfmOrigin(cfg, s, e, p, k, j, s');
  }

  /** The same along a run: whatever RFM a tick adds to the log was the oldest entry of the RFM queue. */
  lemma RfmsComeFromQueue(cfg: Config, sel: BankId -> nat, states: seq<Controller>, steps: seq<Step>, i: nat,
                          e: Event)
    requires cfg.Valid() && Run(cfg, sel, states, steps) && i < |steps| && steps[i].Clock?
    requires states[i + 1].log == states[i].log + [e] && e.cmd.ty.IsRfm()
    ensures states[i].ch.rfmQ != [] && e.cmd == states[i].ch.rfmQ[0] && e.clk == states[i].clk
  {
    RunInv(cfg, sel, states, steps, i);
    assert StepsTo(cfg, states[i], steps[i], states[i + 1]);
    var c := RfmOnlyFromQueue(cfg, states[i], steps[i].input, states[i + 1]);
    LastEvent(states[i].log, e, match c case None => [] case Some(d) => [Event(states[i].clk, d)]);
  }

  lemma LastEvent(log: seq<Event>, e: Event, tail: seq<Event>)
    requires log + [e] == log + tail
    ensures tail == [e]
  {
    assert (log + tail)[|log|..] == tail && (log + [e])[|log|..] == [e];
  }

  lemma RfmOrigin(cfg: Config, s: Controller, e: TickInput, p: Pick, k: nat, j: nat, s': Controller)
    requires cfg.Valid() && Due(s, e).ch.Valid(cfg) && Selected(cfg, Due(s, e), p, k, j)
    requires ChannelStep(cfg, Due(s, e), p, e.rnd, s'.ch, s'.log)
    ensures s'.log == s.log + (if p.ready.Issue? then [Event(s.clk, p.ready.cmd)] else [])
    ensures p.ready.Issue? && p.ready.cmd.ty.IsRfm() ==> s.ch.rfmQ != [] && p.ready.cmd == s.ch.rfmQ[0]
  {}

  // ----- Latency -----

  /** The name of a read that a step forwards from a pending write of its address, if it does. */
  ghost function ForwardedBy(s: Controller, step: Step): set<nat> {
    if step.Arrive? && Forwards(s, step.addr, step.isWrite) then {|s.accepted|} else {}
  }

  /** The names of all reads forwarded in the first i steps. */
  ghost function Forwarded(states: seq<Controller>, steps: seq<Step>, i: nat): set<nat>
    requires i <= |steps| < |states|
  {
    if i == 0 then {} else Forwarded(states, steps, i - 1) + ForwardedBy(states[i - 1], steps[i - 1])
  }

  /** A step keeps the invariant, with the reads it forwards added. */
  ghost predicate LatencyLink(cfg: Config, s: Controller, s': Controller, more: set<nat>) {
    forall before :: LatencyInv(cfg, s, before) ==> LatencyInv(cfg, s', before + more)
  }

  lemma StepKeepsLatency(cfg: Config, s: Controller, step: Step, s': Controller)
    requires cfg.Valid() && StepsTo(cfg, s, step, s')
    ensures LatencyLink(cfg, s, s', ForwardedBy(s, step))
  {
    forall before | LatencyInv(cfg, s, before) ensures LatencyInv(cfg, s', before + ForwardedBy(s, step)) {
      assert before + {} == before;
      match step
      case Arrive(a, w) => AddKeepsLatency(cfg, s, a, w, before);
      case Clock(e) => TickKeepsLatency(cfg, s, e, s', before);
      case Return => ReturnKeepsLatency(cfg, s, before);
    }
  }

  lemma {:induction false} LatencyChain(cfg: Config, states: seq<Controller>, steps: seq<Step>, i: nat)
    requires i <= |steps| < |states| && LatencyInv(cfg, states[0], {})
    requires forall m :: 0 <= m < i ==> LatencyLink(cfg, states[m], states[m + 1], ForwardedBy(states[m], steps[m]))
    ensures LatencyInv(cfg, states[i], Forwarded(states, steps, i))
  {
    if i > 0 {
      LatencyChain(cfg, states, steps, i - 1);
      assert LatencyLink(cfg, states[i - 1], states[i - 1 + 1], ForwardedBy(states[i - 1], steps[i - 1]));
    }
  }

  lemma RunLatency(cfg: Config, sel: BankId -> nat, states: seq<Controller>, steps: seq<Step>, i: nat)
    requires cfg.Valid() && Run(cfg, sel, states, steps) && i < |states|
    ensures LatencyInv(cfg, states[i], Forwarded(states, steps, i))
  {
    InitLatency(cfg, sel);
    forall m | 0 <= m < i
      ensures LatencyLink(cfg, states[m], states[m + 1], ForwardedBy(states[m], steps[m]))
    {
      StepKeepsLatency(cfg, states[m], steps[m], states[m + 1]);
    }
    LatencyChain(cfg, states, steps, i);
  }

  lemma InitLatency(cfg: Config, sel: BankId -> nat)
    requires cfg.Valid()
    ensures LatencyInv(cfg, InitController(cfg, sel), {})
  {}

  /** A transaction that was called back completed one cycle after it arrived if it is a write or found a pending write
      of its address when it arrived; otherwise it completed the read delay after a READ of its address that was issued
      since it arrived. */
  lemma CompletionsTimely(cfg: Config, sel: BankId -> nat, states: seq<Controller>, steps: seq<Step>, i: nat,
                          t: Transaction)
    requires cfg.Valid() && Run(cfg, sel, states, steps) && i < |states| && t in states[i].done
    ensures Timely(cfg, states[i].log, Forwarded(states, steps, i), t)
  {
    RunLatency(cfg, sel, states, steps, i);
  }

  // ----- MOPAC -----

  /** A tick keeps the buffered rows of a bank distinct and its window in range. */
  lemma TickKeepsMopac(cfg: Config, s: Controller, e: TickInput, s': Controller, id: BankId)
    requires cfg.Valid() && cfg.impl == Mopac && Inv(cfg, s) && InputOk(cfg, e) && Tick(cfg, s, e) == Some(s')
    requires cfg.HasBank(id) && MopacOk(cfg, s.ch.banks[id])
    ensures s'.ch.Valid(cfg) && MopacOk(cfg, s'.ch.banks[id])
  {
    var p, k, j := TickTaken(cfg, s, e, s');
    if p.ready.Issue? { IssueKeepsWindow(cfg, Due(s, e).ch.(rfmQ := p.rfmQ), p.ready.cmd, s.clk, e.rnd, id); }
  }

  lemma StepKeepsMopac(cfg: Config, s: Controller, step: Step, s': Controller, id: BankId)
    requires cfg.Valid() && cfg.impl == Mopac && Inv(cfg, s) && StepsTo(cfg, s, step, s')
    requires cfg.HasBank(id) && MopacOk(cfg, s.ch.banks[id])
    ensures s'.ch.Valid(cfg) && MopacOk(cfg, s'.ch.banks[id])
  {
    match step
    case Arrive(a, w) => AddKeepsRest(cfg, s, a, w);
    case Clock(e) => TickKeepsMopac(cfg, s, e, s', id);
    case Return =>
  }

  lemma RunStepKeepsMopac(cfg: Config, sel: BankId -> nat, states: seq<Controller>, steps: seq<Step>, i: nat,
                          id: BankId)
    requires cfg.Valid() && cfg.impl == Mopac && Run(cfg, sel, states, steps) && i < |steps| && cfg.HasBank(id)
    requires states[i].ch.Valid(cfg) && MopacOk(cfg, states[i].ch.banks[id])
    ensures states[i + 1].ch.Valid(cfg) && MopacOk(cfg, states[i + 1].ch.banks[id])
  {
    RunInv(cfg, sel, states, steps, i);
    StepKeepsMopac(cfg, states[i], steps[i], states[i + 1], id);
  }

  lemma InitMopac(cfg: Config, sel: BankId -> nat, id: BankId)
    requires cfg.Valid() && cfg.HasBank(id)
    ensures InitChannel(cfg, sel).Valid(cfg) && MopacOk(cfg, InitChannel(cfg, sel).banks[id])
  {
    InitChannelValid(cfg, sel);
  }

  /** MOPAC: in every reachable state the buffered rows of a bank are distinct and its sampling window is in range. */
  lemma {:induction false} BuffersStayDistinct(cfg: Config, sel: BankId -> nat, states: seq<Controller>,
                                               steps: seq<Step>, i: nat, id: BankId)
    requires cfg.Valid() && cfg.impl == Mopac && Run(cfg, sel, states, steps) && i < |states| && cfg.HasBank(id)
    ensures states[i].ch.Valid(cfg) && MopacOk(cfg, states[i].ch.banks[id])
  {
    if i == 0 {
      InitMopac(cfg, sel, id);
    } else {
      BuffersStayDistinct(cfg, sel, states, steps, i - 1, id);
      RunStepKeepsMopac(cfg, sel, states, steps, i - 1, id);
    }
  }

  /** MOPAC conservation: a tick from a reachable state (Inv and MopacOk hold there) changes a row's counter plus
      its buffered count only as the issued command accounts for. */
  lemma TickAccounted(cfg: Config, s: Controller, e: TickInput, s': Controller, id: BankId, r: nat)
    returns (c: Option<Command>)
    requires cfg.Valid() && cfg.impl == Mopac && Inv(cfg, s) && InputOk(cfg, e) && Tick(cfg, s, e) == Some(s')
    requires cfg.HasBank(id) && cfg.HasRow(r) && MopacOk(cfg, s.ch.banks[id])
    ensures s'.ch.Valid(cfg)
    ensures s'.log == s.log + (match c case None => [] case Some(d) => [Event(s.clk, d)])
    ensures RowAccounted(cfg, s.ch, c, s'.ch, id, r)
  {
    var p, k, j := TickTaken(cfg, s, e, s');
    c := if p.ready.Issue? then Some(p.ready.cmd) else None;
    AccountedFrom(cfg, Due(s, e), p, e.rnd, s', c, id, r);
  }

  /** The same along a run: each tick accounts for every row of every bank by the command it adds to the log. */
  lemma RunAccounted(cfg: Config, sel: BankId -> nat, states: seq<Controller>, steps: seq<Step>, i: nat, id: BankId,
                     r: nat)
    returns (c: Option<Command>)
    requires cfg.Valid() && cfg.impl == Mopac && Run(cfg, sel, states, steps) && i < |steps| && steps[i].Clock?
    requires cfg.HasBank(id) && cfg.HasRow(r)
    ensures states[i].ch.Valid(cfg) && states[i + 1].ch.Valid(cfg)
    ensures states[i + 1].log == states[i].log + (match c case None => [] case Some(d) => [Event(states[i].clk, d)])
    ensures RowAccounted(cfg, states[i].ch, c, states[i + 1].ch, id, r)
  {
    RunInv(cfg, sel, states, steps, i);
    BuffersStayDistinct(cfg, sel, states, steps, i, id);
    assert StepsTo(cfg, states[i], steps[i], states[i + 1]);
    c := TickAccounted(cfg, states[i], steps[i].input, states[i + 1], id, r);
  }

  ghost predicate RowAccounted(cfg: Config, ch: Channel, c: Option<Command>, ch': Channel, id: BankId, r: nat)
    requires ch.Valid(cfg) && ch'.Valid(cfg) && cfg.HasBank(id) && cfg.HasRow(r)
  {
    if c.Some? && c.value.Touches(id) then Accounted(cfg, ch.banks[id], c.value, ch'.banks[id], r)
    else Total(ch'.banks[id], r) == Total(ch.banks[id], r)
  }

  lemma AccountedFrom(cfg: Config, s: Controller, p: Pick, rnd: nat, s': Controller, c: Option<Command>, id: BankId,
                      r: nat)
    requires cfg.Valid() && cfg.impl == Mopac && s.ch.Valid(cfg) && s'.ch.Valid(cfg)
    requires ChannelStep(cfg, s, p, rnd, s'.ch, s'.log) && c == (if p.ready.Issue? then Some(p.ready.cmd) else None)
    requires cfg.HasBank(id) && cfg.HasRow(r) && MopacOk(cfg, s.ch.banks[id])
    ensures RowAccounted(cfg, s.ch, c, s'.ch, id, r)
    ensures s'.log == s.log + (match c case None => [] case Some(d) => [Event(s.clk, d)])
  {
    if p.ready.Issue? { IssueAccounted(cfg, s.ch.(rfmQ := p.rfmQ), p.ready.cmd, s.clk, rnd, id, r); }
  }

  // ----- The MOPAC sampling rate -----

  predicate Activates(c: Option<Command>, id: BankId) { c.Some? && c.value.ty == Activate && c.value.Id() == id }

  /** Activations of a bank in the log. */
  function ActCount(log: seq<Event>, id: BankId): nat {
    if log == [] then 0
    else ActCount(log[..|log| - 1], id) + if Activates(Some(log[|log| - 1].cmd), id) then 1 else 0
  }

  /** Those of them, in the first i steps, that found the bank's window at its chosen position. */
  ghost function SampledCount(states: seq<Controller>, i: nat, id: BankId): nat
    requires i < |states|
  {
    if i == 0 then 0
    else
      var s := states[i - 1];
      SampledCount(states, i - 1, id)
      + if Activates(Added(s, states[i]), id) && id in s.ch.banks && Samples(WindowOf(s.ch.banks[id])) then 1 else 0
  }

  lemma TickMovesWindow(cfg: Config, s: Controller, e: TickInput, s': Controller, id: BankId)
    requires cfg.Valid() && cfg.impl == Mopac && Inv(cfg, s) && InputOk(cfg, e) && Tick(cfg, s, e) == Some(s')
    requires cfg.HasBank(id)
    ensures WindowMoved(cfg, s, s', id, e.rnd)
  {
    var p, k, j := TickTaken(cfg, s, e, s');
    WindowMovedFrom(cfg, Due(s, e), p, e.rnd, s', id);
  }

  /** The window of a bank after a step, and the activations counted. */
  ghost predicate WindowMoved(cfg: Config, s: Controller, s': Controller, id: BankId, rnd: nat)
    requires cfg.pacProb >= 1
  {
    var act := Activates(Added(s, s'), id);
    && id in s.ch.banks && id in s'.ch.banks
    && WindowOf(s'.ch.banks[id]) == (if act then NextWindow(cfg.pacProb, WindowOf(s.ch.banks[id]), rnd)
                                     else WindowOf(s.ch.banks[id]))
    && ActCount(s'.log, id) == ActCount(s.log, id) + if act then 1 else 0
  }

  lemma WindowMovedFrom(cfg: Config, s: Controller, p: Pick, rnd: nat, s': Controller, id: BankId)
    requires cfg.Valid() && cfg.impl == Mopac && s.ch.Valid(cfg) && cfg.HasBank(id)
    requires ChannelStep(cfg, s, p, rnd, s'.ch, s'.log)
    ensures WindowMoved(cfg, s, s', id, rnd)
  {
    if p.ready.Issue? {
      IssueMovesWindow(cfg, s.ch.(rfmQ := p.rfmQ), p.ready.cmd, s.clk, rnd, id);
      CountsLast(s, s', p.ready.cmd, id);
    }
  }

  lemma CountsLast(s: Controller, s': Controller, c: Command, id: BankId)
    requires s'.log == s.log + [Event(s.clk, c)]
    ensures Added(s, s') == Some(c)
    ensures ActCount(s'.log, id) == ActCount(s.log, id) + if Activates(Some(c), id) then 1 else 0
  {
    assert s'.log[..|s'.log| - 1] == s.log;
  }

  lemma StepMovesWindow(cfg: Config, s: Controller, step: Step, s': Controller, id: BankId)
    returns (rnd: nat)
    requires cfg.Valid() && cfg.impl == Mopac && Inv(cfg, s) && StepsTo(cfg, s, step, s') && cfg.HasBank(id)
    ensures WindowMoved(cfg, s, s', id, rnd)
  {
    rnd := 0;
    match step
    case Arrive(a, w) => AddKeepsRest(cfg, s, a, w);
    case Clock(e) => rnd := e.rnd; TickMovesWindow(cfg, s, e, s', id);
    case Return =>
  }

  /** MOPAC: in every run, of the n activations a bank has had, exactly n / pacProb were sampled, and one more if the
      current window is past its chosen position. */
  lemma {:induction false} SamplingRate(cfg: Config, sel: BankId -> nat, states: seq<Controller>, steps: seq<Step>,
                                        i: nat, id: BankId)
    requires cfg.Valid() && cfg.impl == Mopac && Run(cfg, sel, states, steps) && i < |states| && cfg.HasBank(id)
    ensures id in states[i].ch.banks
    ensures Tally(cfg.pacProb, ActCount(states[i].log, id), SampledCount(states, i, id),
                  WindowOf(states[i].ch.banks[id]))
  {
    if i == 0 {
      InitTally(cfg, sel, id);
    } else {
      SamplingRate(cfg, sel, states, steps, i - 1, id);
      var rnd := RunStepMovesWindow(cfg, sel, states, steps, i - 1, id);
      TallyMoved(cfg, states[i - 1], states[i], id, rnd, SampledCount(states, i - 1, id));
    }
  }

  lemma TallyMoved(cfg: Config, s: Controller, s': Controller, id: BankId, rnd: nat, k: nat)
    requires cfg.pacProb >= 1 && WindowMoved(cfg, s, s', id, rnd)
    requires Tally(cfg.pacProb, ActCount(s.log, id), k, WindowOf(s.ch.banks[id]))
    ensures Tally(cfg.pacProb, ActCount(s'.log, id),
                  k + if Activates(Added(s, s'), id) && Samples(WindowOf(s.ch.banks[id])) then 1 else 0,
                  WindowOf(s'.ch.banks[id]))
  {
    NextTally(cfg.pacProb, ActCount(s.log, id), k, WindowOf(s.ch.banks[id]), rnd);
  }

  lemma InitTally(cfg: Config, sel: BankId -> nat, id: BankId)
    requires cfg.Valid() && cfg.HasBank(id)
    ensures id in InitChannel(cfg, sel).banks
    ensures Tally(cfg.pacProb, 0, 0, WindowOf(InitChannel(cfg, sel).banks[id]))
  {
    InitChannelValid(cfg, sel);
  }

  lemma RunStepMovesWindow(cfg: Config, sel: BankId -> nat, states: seq<Controller>, steps: seq<Step>, i: nat,
                           id: BankId)
    returns (rnd: nat)
    requires cfg.Valid() && cfg.impl == Mopac && Run(cfg, sel, states, steps) && i < |steps| && cfg.HasBank(id)
    ensures WindowMoved(cfg, states[i], states[i + 1], id, rnd)
  {
    RunInv(cfg, sel, states, steps, i);
    rnd := StepMovesWindow(cfg, states[i], steps[i], states[i + 1], id);
  }

  // ----- Refresh drain -----

  /** What a step from s to s' does to the rank while its REFab is the oldest pending refresh: either the REFab issues,
      with every bank of the rank closed, or the set of open banks shrinks, strictly with every command to the rank. */
  ghost predicate Drained(s: Controller, s': Controller, c: Option<Command>, rank: int)
    requires s.ch.refreshQ != []
  {
    && s'.log == s.log + (match c case None => [] case Some(d) => [Event(s.clk, d)])
    && if c == Some(s.ch.refreshQ[0]) then OpenBanks(s.ch, rank) == {}
       else
         && RankRefreshPending(s'.ch, rank) && s'.ch.refreshQ[0] == s.ch.refreshQ[0]
         && OpenBanks(s'.ch, rank) <= OpenBanks(s.ch, rank)
         && (c.Some? && c.value.addr.rank == rank ==>
               c.value.ty.IsPrecharge() && OpenBanks(s'.ch, rank) < OpenBanks(s.ch, rank))
  }

  /** A tick drains the rank from the moment its due refreshes are queued. */
  lemma DrainTick(cfg: Config, s: Controller, e: TickInput, rank: int)
    returns (s': Controller, c: Option<Command>)
    requires cfg.Valid() && Inv(cfg, s) && InputOk(cfg, e) && RankRefreshPending(Due(s, e).ch, rank)
    ensures Tick(cfg, s, e) == Some(s') && Drained(Due(s, e), s', c, rank)
  {
    var s1, p, k, j := TickKeeps(cfg, s, e);
    s', c := s1, if p.ready.Issue? then Some(p.ready.cmd) else None;
    var due := Due(s, e);
    if p.ready.Issue? && p.ready.cmd != due.ch.refreshQ[0] { OnlyPrecharges(cfg, due, p, k, j, rank); }
    DrainedFrom(cfg, due, p, e.rnd, s', rank);
  }

  lemma DrainedFrom(cfg: Config, s: Controller, p: Pick, rnd: nat, s': Controller, rank: int)
    requires cfg.Valid() && s.ch.Valid(cfg) && ChannelStep(cfg, s, p, rnd, s'.ch, s'.log)
    requires RankRefreshPending(s.ch, rank)
    requires p.ready.Issue? && p.ready.cmd != s.ch.refreshQ[0] ==> DrainCommand(cfg, p.ready.cmd, rank)
    ensures Drained(s, s', if p.ready.Issue? then Some(p.ready.cmd) else None, rank)
  {
    DrainStep(cfg, s, p, rnd, s'.ch, s'.log, rank);
  }

  /** The state a step works on: a tick first queues the refreshes that fall due. */
  function Opened(s: Controller, step: Step): Controller { if step.Clock? then Due(s, step.input) else s }

  lemma StepDrains(cfg: Config, s: Controller, step: Step, s': Controller, rank: int)
    requires cfg.Valid() && Inv(cfg, s) && StepsTo(cfg, s, step, s') && RankRefreshPending(Opened(s, step).ch, rank)
    ensures Drained(Opened(s, step), s', Added(s, s'), rank)
  {
    match step
    case Arrive(a, w) => AddKeepsRest(cfg, s, a, w);
    case Clock(e) => var s1, c := DrainTick(cfg, s, e, rank);
    case Return =>
  }

  lemma RunStepDrains(cfg: Config, sel: BankId -> nat, states: seq<Controller>, steps: seq<Step>, j: nat, rank: int)
    requires cfg.Valid() && Run(cfg, sel, states, steps) && j < |steps|
    requires RankRefreshPending(Opened(states[j], steps[j]).ch, rank)
    ensures Drained(Opened(states[j], steps[j]), states[j + 1], Added(states[j], states[j + 1]), rank)
  {
    RunInv(cfg, sel, states, steps, j);
    StepDrains(cfg, states[j], steps[j], states[j + 1], rank);
  }

  /** Being first in line does not change when more refreshes fall due. */
  lemma StaysFirst(s: Controller, step: Step, rank: int)
    ensures OpenBanks(Opened(s, step).ch, rank) == OpenBanks(s.ch, rank)
    ensures RankRefreshPending(s.ch, rank) ==>
      RankRefreshPending(Opened(s, step).ch, rank) && Opened(s, step).ch.refreshQ[0] == s.ch.refreshQ[0]
  {}

  /** From the step that makes a REFab the oldest pending refresh, the tick it falls due included, to the step that
      issues it: it stays first in line, every command to its rank is a precharge that strictly shrinks the set of open
      banks, no bank of the rank is opened, and when the REFab issues all of them are closed. */
  lemma {:induction false} DrainRun(cfg: Config, sel: BankId -> nat, states: seq<Controller>, steps: seq<Step>,
                                    i: nat, j: nat, rank: int)
    requires cfg.Valid() && Run(cfg, sel, states, steps) && i <= j < |steps|
    requires RankRefreshPending(Opened(states[i], steps[i]).ch, rank)
    requires forall m :: i <= m < j ==>
      Added(states[m], states[m + 1]) != Some(Opened(states[i], steps[i]).ch.refreshQ[0])
    ensures var s := Opened(states[j], steps[j]);
      && RankRefreshPending(s.ch, rank) && s.ch.refreshQ[0] == Opened(states[i], steps[i]).ch.refreshQ[0]
      && OpenBanks(s.ch, rank) <= OpenBanks(states[i].ch, rank)
      && Drained(s, states[j + 1], Added(states[j], states[j + 1]), rank)
    decreases j
  {
    if i < j { DrainRun(cfg, sel, states, steps, i, j - 1, rank); }
    StaysFirst(states[j], steps[j], rank);
    RunStepDrains(cfg, sel, states, steps, j, rank);
  }
}
