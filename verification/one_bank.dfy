/** Runs of a memory of one bank with one row, step by step: what the concrete runs of the counterexamples share. */
module OneBankRuns {
  import opened Commands
  import opened Configuration
  import opened BankStates
  import opened ChannelStates
  import opened ChannelRuns
  import opened CommandQueues
  import opened Controllers
  import opened TickCore
  import opened Theorems

  const Bank0 := BankId(0, 0, 0)
  const Addr0 := Address(0, 0, 0, 0, 0, 0)

  function Free(ty: CommandType): seq<Constraint> { [] }

  /** One bank, one row, one queue. */
  ghost predicate OneQueue(cfg: Config) {
    && cfg.Valid() && cfg.sizes == Geometry(1, 1, 1, 1, 1) && cfg.decode(0) == Addr0
    && cfg.unifiedQueue && cfg.transQueueSize == 1 && !cfg.perBankQueues && cfg.cmdQueueSize == 1
  }

  /** The command that a lone read becomes. */
  function LoneRead(cfg: Config): Command {
    var ty :=
      match cfg.rowBufPolicy
      case OpenPage => Read
      case ClosePage => if cfg.impl != NoPrac then ReadPrecharge2 else ReadPrecharge
      case SoftClosePage => ReadPrecharge;
    Command(ty, Addr0, 0)
  }

  function Queue(q: seq<Command>): CmdQueue { CmdQueue([q], false, {}, false, {}, 0) }

  lemma QueueUsable(cfg: Config, cq: CmdQueue)
    requires OneQueue(cfg) && |cq.queues| == 1 && cq.idx == 0 && (cq.queues[0] == [] || cq.queues[0] == [LoneRead(cfg)])
    ensures cq.Usable(cfg) && Abs(NumQueues(cfg)) == 1 && NextIdx(cfg, 0) == 0 && Addressable(cfg, LoneRead(cfg))
  {}

  /** A round over a queue that is empty or held back. */
  lemma NothingToTake(cfg: Config, ch: Channel, cq: CmdQueue, clk: nat)
    requires OneQueue(cfg) && ch.Valid(cfg) && cq.Usable(cfg) && NextIdx(cfg, 0) == 0
    requires cq.idx == 0 && (cq.queues == [[]] || cq.Skips(0))
    ensures CommandToIssue(cfg, ch, cq, 1, clk, false) == Pick(NotReady, cq, ch.rfmQ)
  {
    assert cq.(idx := 0) == cq && ch.(rfmQ := ch.rfmQ) == ch;
    assert Visit(cfg, ch, cq, clk, false) == Pick(NotReady, cq, ch.rfmQ);
    assert CommandToIssue(cfg, ch, cq, 0, clk, false) == Pick(NotReady, cq, ch.rfmQ);
  }

  /** A tick, put together from its parts. */
  lemma TickOf(cfg: Config, s: Controller, e: TickInput, p: Pick, s2: Controller, s': Controller)
    requires cfg.Valid() && s.ch.Valid(cfg) && s.cq.Usable(cfg) && InputOk(cfg, e) && Due(s, e).ch.Valid(cfg)
    requires Select(cfg, Due(s, e), e.coin) == p && Act(cfg, Due(s, e), p, e.rnd) == Some(s2)
    requires s' == NextCycle(Schedule(cfg, s2))
    ensures StepsTo(cfg, s, Clock(e), s')
  {
    assert Tick(cfg, s, e) == Finish(cfg, Some(s2));
  }

  lemma NothingDue(s: Controller)
    ensures Due(s, Idle) == s
  {
    assert s.ch.refreshQ + [] == s.ch.refreshQ;
  }

  /** A tick that issues nothing. */
  lemma IdleTick(cfg: Config, s: Controller, cq: CmdQueue, rfmQ: seq<Command>, s': Controller)
    requires cfg.Valid() && s.ch.Valid(cfg) && s.cq.Usable(cfg) && InputOk(cfg, Idle)
    requires Select(cfg, s, false) == Pick(NotReady, cq, rfmQ)
    requires s' == NextCycle(Schedule(cfg, s.(cq := cq, ch := s.ch.(rfmQ := rfmQ))))
    ensures StepsTo(cfg, s, Clock(Idle), s')
  {
    NothingDue(s);
    IdleAct(cfg, s, cq, rfmQ);
    TickOf(cfg, s, Idle, Pick(NotReady, cq, rfmQ), s.(cq := cq, ch := s.ch.(rfmQ := rfmQ)), s');
  }

  lemma IdleAct(cfg: Config, s: Controller, cq: CmdQueue, rfmQ: seq<Command>)
    requires cfg.Valid()
    ensures Act(cfg, s, Pick(NotReady, cq, rfmQ), 0) == Some(s.(cq := cq, ch := s.ch.(rfmQ := rfmQ)))
  {}

  /** Issuing a command that retires to s1. */
  lemma IssueAct(cfg: Config, s: Controller, c: Command, cq: CmdQueue, s1: Controller, ch': Channel)
    requires cfg.Valid() && s.ch.Valid(cfg) && Addressable(cfg, c) && c.ty != SrefEnter
    requires Retire(cfg, s.(cq := cq), c) == Some(s1) && Issued(cfg, s.ch, c, s.clk, 0) == Some(ch')
    ensures Act(cfg, s, Pick(Issue(c), cq, s.ch.rfmQ), 0) == Some(s1.(ch := ch', log := s.log + [Event(s.clk, c)]))
  {
    assert s.(cq := cq, ch := s.ch.(rfmQ := s.ch.rfmQ)) == s.(cq := cq);
  }

  lemma NothingScheduled(cfg: Config, s: Controller)
    requires OneQueue(cfg) && s.unifiedQ == []
    ensures Schedule(cfg, s) == s
  {}

  /** One read waits in the transaction queue. */
  predicate OneWaits(s: Controller) {
    |s.unifiedQ| == 1 && s.unifiedQ[0].addr == 0 && !s.unifiedQ[0].isWrite && s.draining == 0
  }

  lemma Dispatched(cfg: Config, s: Controller)
    requires OneQueue(cfg) && s.cq == Queue([]) && OneWaits(s)
    ensures Schedule(cfg, s) == s.(unifiedQ := [], cq := Queue([LoneRead(cfg)]))
  {
    assert TransToCommand(cfg, s.unifiedQ, 0) == LoneRead(cfg);
    assert QueueIndex(cfg, LoneRead(cfg).Id()) == 0;
    assert Schedule(cfg, s) == Dispatch(cfg, s, 0);
    assert s.unifiedQ[..0] + s.unifiedQ[1..] == [];
    assert s.cq.queues[0] + [LoneRead(cfg)] == [LoneRead(cfg)];
    assert s.cq.queues[0 := s.cq.queues[0] + [LoneRead(cfg)]] == [[LoneRead(cfg)]];
  }

  /** The tick in which the read becomes a command. */
  lemma DispatchTick(cfg: Config, s: Controller, s': Controller)
    requires OneQueue(cfg) && s.ch.Valid(cfg) && s.ch.refreshQ == [] && s.ch.rfmQ == [] && s.cq == Queue([])
    requires OneWaits(s) && s' == NextCycle(s.(unifiedQ := [], cq := Queue([LoneRead(cfg)])))
    ensures StepsTo(cfg, s, Clock(Idle), s')
  {
    QueueUsable(cfg, s.cq);
    NothingToTake(cfg, s.ch, s.cq, s.clk);
    assert s.ch.(rfmQ := []) == s.ch && s.(cq := s.cq, ch := s.ch) == s;
    Dispatched(cfg, s);
    IdleTick(cfg, s, s.cq, [], s');
  }

  /** A read arrives while nothing is pending. */
  lemma ReadArrives(cfg: Config, s: Controller, s': Controller)
    requires OneQueue(cfg) && s.unifiedQ == [] && s.pendingRd == [] && 0 !in s.pendingWr && s.draining == 0
    requires s' == AddTransaction(cfg, s, 0, false)
    ensures StepsTo(cfg, s, Arrive(0, false), s') && OneWaits(s') && s'.ch == s.ch && s'.cq == s.cq
    ensures s'.pendingRd == s'.unifiedQ && s'.pendingWr == s.pendingWr && s'.log == s.log && s'.clk == s.clk
  {
    var t := Transaction(0, false, s.clk, 0, |s.accepted|, None);
    assert s.pendingRd + [t] == [t] && s.unifiedQ + [t] == [t];
    assert [t][1..] == [] && At([t], 0) == [t] + At([], 0);
  }

  lemma PowerUp(cfg: Config, sel: BankId -> nat)
    requires OneQueue(cfg)
    ensures var s := InitController(cfg, sel);
      && s.ch.Valid(cfg) && s.cq == Queue([]) && Bank0 in s.ch.banks && s.ch.banks[Bank0] == InitBank(cfg, sel(Bank0))
  {
    InitChannelValid(cfg, sel);
    assert InitController(cfg, sel).cq.queues == [[]];
  }

  lemma Longer(cfg: Config, sel: BankId -> nat, states: seq<Controller>, steps: seq<Step>, step: Step, s': Controller)
    returns (states': seq<Controller>, steps': seq<Step>)
    requires cfg.Valid() && Run(cfg, sel, states, steps) && StepsTo(cfg, states[|steps|], step, s')
    ensures Run(cfg, sel, states', steps') && states' == states + [s'] && steps' == steps + [step]
  {
    states', steps' := states + [s'], steps + [step];
    forall i | 0 <= i < |steps'| ensures StepsTo(cfg, states'[i], steps'[i], states'[i + 1]) {
      if i < |steps| { assert StepsTo(cfg, states[i], steps[i], states[i + 1]); }
    }
  }
}
