/** Whole runs of the controller: one invariant that every step keeps, and what follows from it. */
module ControllerRuns {
  import opened Commands
  import opened Configuration
  import opened BankStates
  import opened ChannelStates
  import opened ChannelRuns
  import opened CommandQueues
  import opened Controllers
  import opened TickCore
  import opened Bookkeeping
  import opened DataRefinement
  import opened MoatBound

  /** What concerns transactions. */
  ghost predicate LocalInv(cfg: Config, s: Controller) {
    BookInv(cfg, s) && OrderInv(cfg, s) && DataInv(s) && OnceInv(s)
  }

  /** What concerns the channel and its history; commands are issued at most once per cycle. */
  ghost predicate HistoryInv(cfg: Config, ch: Channel, log: seq<Event>, clk: nat)
    requires ch.Valid(cfg)
  {
    && (forall i, j :: 0 <= i < j < |log| ==> log[i].clk < log[j].clk)
    && (forall i :: 0 <= i < |log| ==> log[i].clk < clk)
    && TimingExact(cfg, ch, log) && Spaced(cfg, log) && WindowsInv(cfg, ch, log)
    && (MoatConfig(cfg) ==> MoatInv(cfg, ch, clk))
    && (RfmConfig(cfg) ==> RaaBounded(cfg, ch))
  }

  ghost predicate Inv(cfg: Config, s: Controller)
    requires cfg.Valid()
  {
    CoreInv(cfg, s) && LocalInv(cfg, s) && HistoryInv(cfg, s.ch, s.log, s.clk)
  }

  /** The two states agree on all transactions and queued commands. */
  ghost predicate SameBook(s: Controller, s': Controller) {
    && s'.unifiedQ == s.unifiedQ && s'.readQ == s.readQ && s'.writeBuf == s.writeBuf
    && s'.cq.queues == s.cq.queues && s'.pendingRd == s.pendingRd && s'.pendingWr == s.pendingWr
    && s'.returnQ == s.returnQ && s'.draining == s.draining
    && s'.accepted == s.accepted && s'.wrData == s.wrData && s'.dram == s.dram && s'.done == s.done
    && s.clk <= s'.clk
  }

  lemma Frame(cfg: Config, s: Controller, s': Controller)
    requires LocalInv(cfg, s) && SameBook(s, s')
    ensures LocalInv(cfg, s')
  {
    assert forall a: int, w :: Waiting(s', a, w) == Waiting(s, a, w);
    assert forall n: nat :: Places(s', n) == Places(s, n);
  }

  lemma DueKeepsCore(cfg: Config, s: Controller, e: TickInput)
    requires cfg.Valid() && CoreInv(cfg, s) && InputOk(cfg, e)
    ensures CoreInv(cfg, Due(s, e))
  {}

  lemma ScheduleKeepsLocal(cfg: Config, s: Controller)
    requires cfg.Valid() && s.cq.Valid(cfg) && LocalInv(cfg, s)
    ensures LocalInv(cfg, Schedule(cfg, s))
  {
    ScheduleKeepsBook(cfg, s);
    ScheduleKeepsQueues(cfg, s);
    var s' := Schedule(cfg, s);
    assert forall n: nat :: Places(s', n) == Places(s, n);
    assert DataInv(s');
  }

  /** A read or write leaves its queue and retires its requests. */
  lemma TakeKeepsLocal(cfg: Config, s: Controller, c: Command, k: nat, j: nat, cq: CmdQueue)
    requires cfg.Valid() && s.cq.Valid(cfg) && LocalInv(cfg, s) && Takes(s, c, k, j) && c.hex >= 0
    requires cq.queues == Without(s, c, k).queues
    ensures Retire(cfg, s.(cq := cq), c).Some? && LocalInv(cfg, Retire(cfg, s.(cq := cq), c).value)
  {
    var s1 := s.(cq := cq);
    RetireKeepsBook(cfg, s, c, k, j, cq);
    RetireKeepsOrder(cfg, s, c, k, j, cq);
    if c.ty.IsWrite() { WriteHasNoPendingRead(cfg, s, c, k, j); }
    assert forall n: nat :: Places(s1, n) == Places(s, n);
    RetireKeepsData(cfg, s1, c);
    RetireKeepsOnce(cfg, s1, c);
  }

  lemma RetireKeepsLocal(cfg: Config, s: Controller, p: Pick, k: nat, j: nat) returns (s2: Controller)
    requires cfg.Valid() && CoreInv(cfg, s) && LocalInv(cfg, s) && Selected(cfg, s, p, k, j) && p.ready.Issue?
    ensures Retire(cfg, s.(cq := p.cq), p.ready.cmd) == Some(s2) && LocalInv(cfg, s2)
  {
    var c := p.ready.cmd;
    if c.ty.IsReadWrite() {
      QueuedHex(cfg, s, p, k, j);
      TakeKeepsLocal(cfg, s, c, k, j, p.cq);
      s2 := Retire(cfg, s.(cq := p.cq), c).value;
    } else {
      s2 := s.(cq := p.cq);
      Frame(cfg, s, s2);
    }
  }

  lemma QueuedHex(cfg: Config, s: Controller, p: Pick, k: nat, j: nat)
    requires cfg.Valid() && CoreInv(cfg, s) && Selected(cfg, s, p, k, j)
    requires p.ready.Issue? && p.ready.cmd.ty.IsReadWrite()
    ensures var c := p.ready.cmd; c.hex >= 0 && Takes(s, c, k, j) && p.cq.queues == Without(s, c, k).queues
  {
    assert Queued(cfg, s.cq.queues[k][j], k);
  }

  /** The channel history after issuing. */
  lemma IssueKeepsHistory(cfg: Config, ch: Channel, log: seq<Event>, c: Command, clk: nat, rnd: nat)
    requires cfg.Valid() && ch.Valid(cfg) && Issuable(cfg, ch, c, clk) && HistoryInv(cfg, ch, log, clk)
    ensures Issued(cfg, ch, c, clk, rnd).Some? && Issued(cfg, ch, c, clk, rnd).value.Valid(cfg)
    ensures HistoryInv(cfg, Issued(cfg, ch, c, clk, rnd).value, log + [Event(clk, c)], clk + 1)
  {
    TimingStep(cfg, ch, log, c, clk, rnd);
    WindowsStep(cfg, ch, log, c, clk, rnd);
    if MoatConfig(cfg) { MoatStep(cfg, ch, c, clk, rnd); }
    if RfmConfig(cfg) { RaaStep(cfg, ch, c, clk, rnd); }
  }

  /** The bounds do not depend on the refresh and RFM queues, and time may pass. */
  lemma QueuesKeepHistory(cfg: Config, ch: Channel, log: seq<Event>, clk: nat, ch': Channel, clk': nat)
    requires ch.Valid(cfg) && ch'.Valid(cfg) && HistoryInv(cfg, ch, log, clk) && clk <= clk'
    requires ch' == ch.(refreshQ := ch'.refreshQ, rfmQ := ch'.rfmQ)
    ensures HistoryInv(cfg, ch', log, clk')
  {
    forall id, ty | cfg.HasBank(id) ensures ExactStart(cfg, log, id, ty, ch'.banks[id].EarliestStart(ty)) {
      assert ExactStart(cfg, log, id, ty, ch.banks[id].EarliestStart(ty));
    }
  }

  // ----- One tick -----

  /** The state between issuing and scheduling: the history already belongs to the next cycle. */
  ghost predicate MidInv(cfg: Config, s: Controller)
    requires cfg.Valid()
  {
    CoreInv(cfg, s) && LocalInv(cfg, s) && HistoryInv(cfg, s.ch, s.log, s.clk + 1)
  }

  /** The channel and log that the selection leads to. */
  ghost predicate ChannelStep(cfg: Config, s: Controller, p: Pick, rnd: nat, ch': Channel, log': seq<Event>)
    requires cfg.Valid()
  {
    var ch := s.ch.(rfmQ := p.rfmQ);
    match p.ready
    case Exit => false
    case NotReady => ch' == ch && log' == s.log
    case Issue(c) =>
      && ch.Valid(cfg) && Issuable(cfg, ch, c, s.clk) && Issued(cfg, ch, c, s.clk, rnd) == Some(ch')
      && log' == s.log + [Event(s.clk, c)]
  }

  lemma IdleKeeps(cfg: Config, s: Controller, p: Pick, k: nat, j: nat, rnd: nat)
    returns (s': Controller)
    requires cfg.Valid() && Inv(cfg, s) && Selected(cfg, s, p, k, j) && p.ready.NotReady?
    ensures Act(cfg, s, p, rnd) == Some(s') && MidInv(cfg, s')
    ensures s'.clk == s.clk && s'.cq == p.cq && ChannelStep(cfg, s, p, rnd, s'.ch, s'.log)
  {
    s' := s.(cq := p.cq, ch := s.ch.(rfmQ := p.rfmQ));
    WithRfmValid(cfg, s.ch, p.rfmQ);
    ValidIsUsable(cfg, p.cq);
    Frame(cfg, s, s');
    QueuesKeepHistory(cfg, s.ch, s.log, s.clk, s'.ch, s.clk + 1);
  }

  lemma RetireIgnoresChannel(cfg: Config, s: Controller, c: Command, ch: Channel)
    requires Retire(cfg, s, c).Some?
    ensures Retire(cfg, s.(ch := ch), c) == Some(Retire(cfg, s, c).value.(ch := ch))
    ensures Retire(cfg, s, c).value.clk == s.clk && Retire(cfg, s, c).value.cq == s.cq
  {}

  lemma IssueIs(cfg: Config, s: Controller, c: Command, rnd: nat, s2: Controller, ch: Channel, ch': Channel)
    requires cfg.Valid() && ch.Valid(cfg) && Addressable(cfg, c) && c.ty != SrefEnter
    requires s.ch == ch && Retire(cfg, s, c) == Some(s2) && Issued(cfg, ch, c, s.clk, rnd) == Some(ch')
    ensures IssueCommand(cfg, s, c, rnd) == Some(s2.(ch := ch', log := s.log + [Event(s.clk, c)]))
  {}

  lemma ActIs(cfg: Config, s: Controller, p: Pick, rnd: nat, s1: Controller, s3: Controller)
    requires cfg.Valid() && p.ready.Issue? && s1 == s.(cq := p.cq, ch := s.ch.(rfmQ := p.rfmQ)) && s1.ch.Valid(cfg)
    requires Addressable(cfg, p.ready.cmd) && p.ready.cmd.ty != SrefEnter
    requires IssueCommand(cfg, s1, p.ready.cmd, rnd) == Some(s3)
    ensures Act(cfg, s, p, rnd) == Some(s3)
  {}

  lemma ActIssues(cfg: Config, s: Controller, p: Pick, rnd: nat, s2: Controller, ch': Channel)
    requires cfg.Valid() && p.ready.Issue? && s.ch.(rfmQ := p.rfmQ).Valid(cfg)
    requires Addressable(cfg, p.ready.cmd) && p.ready.cmd.ty != SrefEnter
    requires Retire(cfg, s.(cq := p.cq), p.ready.cmd) == Some(s2)
    requires Issued(cfg, s.ch.(rfmQ := p.rfmQ), p.ready.cmd, s.clk, rnd) == Some(ch')
    ensures Act(cfg, s, p, rnd) == Some(s2.(ch := ch', log := s.log + [Event(s.clk, p.ready.cmd)]))
    ensures s2.clk == s.clk && s2.cq == p.cq
  {
    var ch, c := s.ch.(rfmQ := p.rfmQ), p.ready.cmd;
    RetireIgnoresChannel(cfg, s.(cq := p.cq), c, ch);
    var s1 := s.(cq := p.cq, ch := ch);
    assert s1 == s.(cq := p.cq).(ch := ch);
    IssueIs(cfg, s1, c, rnd, s2.(ch := ch), ch, ch');
    var s3 := s2.(ch := ch', log := s.log + [Event(s.clk, c)]);
    assert s2.(ch := ch).(ch := ch', log := s1.log + [Event(s1.clk, c)]) == s3;
    ActIs(cfg, s, p, rnd, s1, s3);
  }

  /** After retiring, with the new channel and log. */
  lemma IssuedMid(cfg: Config, s: Controller, cq: CmdQueue, clk: nat, ch': Channel, log': seq<Event>, s': Controller)
    requires cfg.Valid() && s.cq == cq && s.clk == clk && s' == s.(ch := ch', log := log') && ch'.Valid(cfg)
    ensures (cq.Valid(cfg) && LocalInv(cfg, s) && RfmQueueOk(cfg, ch'.rfmQ) && HoldsOk(cfg, ch', cq) &&
             HistoryInv(cfg, ch', log', clk + 1)) ==> MidInv(cfg, s')
  {
    if cq.Valid(cfg) && LocalInv(cfg, s) {
      ValidIsUsable(cfg, s.cq);
      Frame(cfg, s, s');
    }
  }

  /** The channel's part of issuing. */
  lemma IssueChannel(cfg: Config, s: Controller, p: Pick, k: nat, j: nat, rnd: nat) returns (ch': Channel)
    requires cfg.Valid() && CoreInv(cfg, s) && HistoryInv(cfg, s.ch, s.log, s.clk)
    requires Selected(cfg, s, p, k, j) && p.ready.Issue?
    ensures var ch, c := s.ch.(rfmQ := p.rfmQ), p.ready.cmd;
      ch.Valid(cfg) && Issuable(cfg, ch, c, s.clk) && Issued(cfg, ch, c, s.clk, rnd) == Some(ch')
    ensures ch'.Valid(cfg) && RfmQueueOk(cfg, ch'.rfmQ) && HoldsOk(cfg, ch', p.cq)
    ensures HistoryInv(cfg, ch', s.log + [Event(s.clk, p.ready.cmd)], s.clk + 1)
  {
    var c, ch := p.ready.cmd, s.ch.(rfmQ := p.rfmQ);
    IssueCore(cfg, s, p, k, j, rnd);
    QueuesKeepHistory(cfg, s.ch, s.log, s.clk, ch, s.clk);
    IssueKeepsHistory(cfg, ch, s.log, c, s.clk, rnd);
    ch' := Issued(cfg, ch, c, s.clk, rnd).value;
  }

  lemma IssueKeeps(cfg: Config, s: Controller, p: Pick, k: nat, j: nat, rnd: nat)
    returns (s': Controller)
    requires cfg.Valid() && Inv(cfg, s) && Selected(cfg, s, p, k, j) && p.ready.Issue?
    ensures Act(cfg, s, p, rnd) == Some(s') && MidInv(cfg, s')
    ensures s'.clk == s.clk && s'.cq == p.cq && ChannelStep(cfg, s, p, rnd, s'.ch, s'.log)
  {
    var ch' := IssueChannel(cfg, s, p, k, j, rnd);
    var s2 := RetireKeepsLocal(cfg, s, p, k, j);
    s' := Assemble(cfg, s, p, rnd, s2, ch');
  }

  /** Both parts together. */
  lemma Assemble(cfg: Config, s: Controller, p: Pick, rnd: nat, s2: Controller, ch': Channel) returns (s': Controller)
    requires cfg.Valid() && p.ready.Issue? && p.cq.Valid(cfg)
    requires var ch, c := s.ch.(rfmQ := p.rfmQ), p.ready.cmd;
      ch.Valid(cfg) && Issuable(cfg, ch, c, s.clk) && Issued(cfg, ch, c, s.clk, rnd) == Some(ch')
    requires ch'.Valid(cfg) && RfmQueueOk(cfg, ch'.rfmQ) && HoldsOk(cfg, ch', p.cq)
    requires HistoryInv(cfg, ch', s.log + [Event(s.clk, p.ready.cmd)], s.clk + 1)
    requires Retire(cfg, s.(cq := p.cq), p.ready.cmd) == Some(s2) && LocalInv(cfg, s2)
    ensures Act(cfg, s, p, rnd) == Some(s') && MidInv(cfg, s')
    ensures s'.clk == s.clk && s'.cq == p.cq && ChannelStep(cfg, s, p, rnd, s'.ch, s'.log)
  {
    s' := ActStep(cfg, s, p, rnd, s2, ch');
    IssuedMid(cfg, s2, p.cq, s.clk, ch', s.log + [Event(s.clk, p.ready.cmd)], s');
  }

  lemma ActStep(cfg: Config, s: Controller, p: Pick, rnd: nat, s2: Controller, ch': Channel) returns (s': Controller)
    requires cfg.Valid() && p.ready.Issue?
    requires var ch, c := s.ch.(rfmQ := p.rfmQ), p.ready.cmd;
      ch.Valid(cfg) && Issuable(cfg, ch, c, s.clk) && Issued(cfg, ch, c, s.clk, rnd) == Some(ch')
    requires Retire(cfg, s.(cq := p.cq), p.ready.cmd) == Some(s2)
    ensures Act(cfg, s, p, rnd) == Some(s') && s' == s2.(ch := ch', log := s.log + [Event(s.clk, p.ready.cmd)])
    ensures s2.clk == s.clk && s2.cq == p.cq && ChannelStep(cfg, s, p, rnd, s'.ch, s'.log)
  {
    ActIssues(cfg, s, p, rnd, s2, ch');
    s' := s2.(ch := ch', log := s.log + [Event(s.clk, p.ready.cmd)]);
  }

  lemma NextCycleKeeps(cfg: Config, s: Controller)
    requires cfg.Valid() && MidInv(cfg, s)
    ensures Inv(cfg, NextCycle(s))
  {
    Frame(cfg, s, NextCycle(s));
  }

  lemma ScheduleKeepsMid(cfg: Config, s: Controller)
    requires cfg.Valid() && MidInv(cfg, s)
    ensures MidInv(cfg, Schedule(cfg, s))
  {
    ScheduleKeepsLocal(cfg, s);
    ScheduleKeepsQueues(cfg, s);
    ValidIsUsable(cfg, Schedule(cfg, s).cq);
  }

  lemma DueKeeps(cfg: Config, s: Controller, e: TickInput)
    requires cfg.Valid() && Inv(cfg, s) && InputOk(cfg, e)
    ensures Inv(cfg, Due(s, e))
  {
    DueKeepsCore(cfg, s, e);
    Frame(cfg, s, Due(s, e));
    QueuesKeepHistory(cfg, s.ch, s.log, s.clk, Due(s, e).ch, s.clk);
  }

  lemma FinishKeeps(cfg: Config, s: Controller) returns (s': Controller)
    requires cfg.Valid() && MidInv(cfg, s)
    ensures Finish(cfg, Some(s)) == Some(s') && Inv(cfg, s')
    ensures s'.ch == s.ch && s'.log == s.log && s'.clk == s.clk + 1 && s'.cq.inRef == s.cq.inRef
  {
    ScheduleKeepsMid(cfg, s);
    ScheduleKeepsQueues(cfg, s);
    var s1 := Schedule(cfg, s);
    NextCycleKeeps(cfg, s1);
    s' := NextCycle(s1);
  }

  /** A tick keeps the invariant and changes the channel as the selected command does; it never exits unless the oldest
      pending refresh is one it cannot drain for. */
  lemma TickKeeps(cfg: Config, s: Controller, e: TickInput)
    returns (s': Controller, p: Pick, k: nat, j: nat)
    requires cfg.Valid() && Inv(cfg, s) && InputOk(cfg, e) && Servable(cfg, Due(s, e).ch)
    ensures Tick(cfg, s, e) == Some(s') && Inv(cfg, s') && s'.clk == s.clk + 1
    ensures Inv(cfg, Due(s, e)) && p == Select(cfg, Due(s, e), e.coin) && Selected(cfg, Due(s, e), p, k, j)
    ensures s'.cq.inRef == p.cq.inRef && ChannelStep(cfg, Due(s, e), p, e.rnd, s'.ch, s'.log)
  {
    var s1 := Due(s, e);
    DueKeeps(cfg, s, e);
    p := Select(cfg, s1, e.coin);
    k, j := SelectSound(cfg, s1, e.coin);
    var s2;
    if p.ready.NotReady? {
      s2 := IdleKeeps(cfg, s1, p, k, j, e.rnd);
    } else {
      s2 := IssueKeeps(cfg, s1, p, k, j, e.rnd);
    }
    s' := FinishKeeps(cfg, s2);
  }

  lemma TickThrows(cfg: Config, s: Controller, e: TickInput)
    requires cfg.Valid() && Inv(cfg, s) && InputOk(cfg, e) && !Servable(cfg, Due(s, e).ch)
    ensures Tick(cfg, s, e) == None
  {
    DueKeepsCore(cfg, s, e);
    SelectThrows(cfg, Due(s, e), e.coin);
  }

  /** The same for a tick that takes place. */
  lemma TickTaken(cfg: Config, s: Controller, e: TickInput, s': Controller) returns (p: Pick, k: nat, j: nat)
    requires cfg.Valid() && Inv(cfg, s) && InputOk(cfg, e) && Tick(cfg, s, e) == Some(s')
    ensures Inv(cfg, s') && s'.clk == s.clk + 1 && Servable(cfg, Due(s, e).ch)
    ensures Inv(cfg, Due(s, e)) && p == Select(cfg, Due(s, e), e.coin) && Selected(cfg, Due(s, e), p, k, j)
    ensures s'.cq.inRef == p.cq.inRef && ChannelStep(cfg, Due(s, e), p, e.rnd, s'.ch, s'.log)
  {
    if !Servable(cfg, Due(s, e).ch) { TickThrows(cfg, s, e); }
    var s1;
    s1, p, k, j := TickKeeps(cfg, s, e);
  }
}
