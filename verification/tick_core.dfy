/** What a controller tick selects, where it comes from, and what issuing it keeps: well-formed queues, and holds that
    belong to the oldest pending refresh or RFM (DRAMsim3/src/controller.cc:64-90). */
module TickCore {
  import opened Commands
  import opened Configuration
  import opened BankStates
  import opened ChannelStates
  import opened ChannelRuns
  import opened CommandQueues
  import opened Controllers

  /** The oldest pending refresh, if any, is one that the queue structure can drain for. */
  predicate Servable(cfg: Config, ch: Channel) {
    ch.refreshQ != [] && ch.refreshQ[0].ty == RefSb ==> cfg.perBankQueues
  }

  /** Refresh and RFM in progress: the held queues are those of the oldest pending command. */
  ghost predicate HoldsOk(cfg: Config, ch: Channel, cq: CmdQueue)
    requires cfg.Valid()
  {
    && (if cq.inRef then ch.refreshQ != [] && Servable(cfg, ch) && cq.refIdx == HeldIndices(cfg, ch.refreshQ[0])
        else cq.refIdx == {})
    && (if cq.inRfm then ch.rfmQ != [] && cq.rfmIdx == HeldIndices(cfg, ch.rfmQ[0]) else cq.rfmIdx == {})
  }

  ghost predicate CoreInv(cfg: Config, s: Controller)
    requires cfg.Valid()
  {
    && s.ch.Valid(cfg) && s.cq.Valid(cfg) && s.cq.Usable(cfg) && RfmQueueOk(cfg, s.ch.rfmQ)
    && HoldsOk(cfg, s.ch, s.cq)
  }

  /** Where the selected command comes from. */
  ghost predicate Origin(cfg: Config, s: Controller, c: Command, p: Pick, k: nat, j: nat)
    requires cfg.Valid()
  {
    if c.ty.IsRefresh() then
      s.ch.refreshQ != [] && c == s.ch.refreshQ[0] && !p.cq.inRef && p.cq.queues == s.cq.queues
    else if c.ty.IsRfm() then
      s.ch.refreshQ == [] && s.ch.rfmQ != [] && c == s.ch.rfmQ[0] && !p.cq.inRfm && p.cq.queues == s.cq.queues
    else if c.ty.IsReadWrite() then
      && k < |s.cq.queues| && j < |s.cq.queues[k]| && !p.cq.Skips(k)
      && c == s.cq.queues[k][j] && (c.ty.IsWrite() ==> !HasRwDependency(s.cq.queues[k], j))
      && EraseFrom(s.cq.queues[k], c).Some?
      && p.cq.queues == s.cq.queues[k := EraseFrom(s.cq.queues[k], c).value]
    else
      && p.cq.queues == s.cq.queues
      && (!c.ty.IsPrecharge() ==> !p.cq.Skips(QueueIndex(cfg, c.Id())))
      && (c.ty.IsPrecharge() && p.cq.Skips(QueueIndex(cfg, c.Id())) ==>
            (s.ch.refreshQ != [] && s.ch.refreshQ[0].Touches(c.Id())) ||
            (s.ch.refreshQ == [] && s.ch.rfmQ != [] && s.ch.rfmQ[0].Touches(c.Id())))
  }

  ghost predicate Selected(cfg: Config, s: Controller, p: Pick, k: nat, j: nat)
    requires cfg.Valid() && s.ch.Valid(cfg)
  {
    && p.ready != Exit
    && RfmQueueOk(cfg, p.rfmQ) && s.ch.rfmQ <= p.rfmQ
    && p.cq.Valid(cfg) && HoldsOk(cfg, s.ch.(rfmQ := p.rfmQ), p.cq)
    && (s.ch.refreshQ != [] && !(p.ready.Issue? && p.ready.cmd.ty.IsRefresh()) ==> p.cq.inRef)
    && (p.ready.NotReady? ==> p.cq.queues == s.cq.queues)
    && (p.ready.Issue? ==> Issuable(cfg, s.ch, p.ready.cmd, s.clk) && Origin(cfg, s, p.ready.cmd, p, k, j))
  }

  /** FinishRefresh: the pending refresh itself, or a precharge of a bank it needs closed. */
  lemma RefreshPickSound(cfg: Config, s: Controller, r: Ready, rfmQ: seq<Command>)
    requires cfg.Valid() && CoreInv(cfg, s) && s.ch.refreshQ != [] && Servable(cfg, s.ch)
    requires Sound(cfg, s.ch, s.ch.refreshQ[0], s.clk, r) && RfmQueueOk(cfg, rfmQ) && s.ch.rfmQ <= rfmQ
    ensures Selected(cfg, s, RefreshPick(cfg, s.cq, s.ch.refreshQ[0], r, rfmQ), 0, 0)
  {
    assert s.ch.refreshQ[0] in s.ch.refreshQ;
  }

  lemma RfmPickSound(cfg: Config, s: Controller, r: Ready, rfmQ: seq<Command>)
    requires cfg.Valid() && CoreInv(cfg, s) && s.ch.refreshQ == [] && s.ch.rfmQ != []
    requires Sound(cfg, s.ch, s.ch.rfmQ[0], s.clk, r) && RfmQueueOk(cfg, rfmQ) && s.ch.rfmQ <= rfmQ
    ensures Selected(cfg, s, RfmPick(cfg, s.cq, s.ch.rfmQ[0], r, rfmQ), 0, 0)
  {
    assert s.ch.rfmQ[0] in s.ch.rfmQ;
  }

  lemma FirstStageSound(cfg: Config, s: Controller, coin: bool)
    requires cfg.Valid() && CoreInv(cfg, s) && Servable(cfg, s.ch)
    ensures Selected(cfg, s, FirstStage(cfg, s, coin), 0, 0)
    ensures FirstStage(cfg, s, coin).cq.Usable(cfg)
  {
    if s.ch.refreshQ != [] {
      var head := s.ch.refreshQ[0];
      assert head in s.ch.refreshQ;
      ReadyIsIssuable(cfg, s.ch, head, s.clk, coin);
      RfmAfterOk(cfg, s.ch, head, s.clk, coin);
      RefreshPickSound(cfg, s, GetReady(cfg, s.ch, head, s.clk, coin), RfmAfter(cfg, s.ch, head, s.clk, coin));
    } else if s.ch.rfmQ != [] {
      var head := s.ch.rfmQ[0];
      assert head in s.ch.rfmQ;
      ReadyIsIssuable(cfg, s.ch, head, s.clk, coin);
      RfmAfterOk(cfg, s.ch, head, s.clk, coin);
      RfmPickSound(cfg, s, GetReady(cfg, s.ch, head, s.clk, coin), RfmAfter(cfg, s.ch, head, s.clk, coin));
    }
  }

  /** A command from the queues, chosen after the first stage had nothing to issue. */
  lemma QueueStageSound(cfg: Config, s: Controller, first: Pick, p: Pick, k: nat, j: nat)
    requires cfg.Valid() && CoreInv(cfg, s) && Selected(cfg, s, first, 0, 0) && first.ready.NotReady?
    requires s.ch.(rfmQ := first.rfmQ).Valid(cfg)
    requires PickSound(cfg, s.ch.(rfmQ := first.rfmQ), first.cq, s.clk, p, k, j)
    ensures Selected(cfg, s, p, k, j)
  {
    if p.ready.Issue? {
      var c := p.ready.cmd;
      assert Issuable(cfg, s.ch, c, s.clk);
      assert Queued(cfg, s.cq.queues[k][j], k);
      assert QueueIndex(cfg, c.Id()) == k;
    }
  }

  lemma SelectSound(cfg: Config, s: Controller, coin: bool) returns (k: nat, j: nat)
    requires cfg.Valid() && CoreInv(cfg, s) && Servable(cfg, s.ch)
    ensures Selected(cfg, s, Select(cfg, s, coin), k, j)
  {
    k, j := 0, 0;
    FirstStageSound(cfg, s, coin);
    var first := FirstStage(cfg, s, coin);
    if first.ready.NotReady? {
      var ch1 := s.ch.(rfmQ := first.rfmQ);
      WithRfmValid(cfg, s.ch, first.rfmQ);
      var n := Abs(NumQueues(cfg));
      k, j := CommandToIssueSound(cfg, ch1, first.cq, n, s.clk, coin);
      QueueStageSound(cfg, s, first, CommandToIssue(cfg, ch1, first.cq, n, s.clk, coin), k, j);
    }
  }

  /** A refresh that the queue structure cannot drain for makes the tick throw. */
  lemma SelectThrows(cfg: Config, s: Controller, coin: bool)
    requires cfg.Valid() && CoreInv(cfg, s) && !Servable(cfg, s.ch)
    ensures Select(cfg, s, coin).ready == Exit
  {}

  /** Issuing takes exactly the issued refresh or RFM off its queue. */
  lemma QueuesAfterIssue(cfg: Config, ch: Channel, c: Command, clk: nat, rnd: nat)
    requires cfg.Valid() && ch.Valid(cfg) && Issuable(cfg, ch, c, clk)
    requires c.ty.IsRefresh() ==> ch.refreshQ != [] && ch.refreshQ[0] == c
    requires c.ty.IsRfm() ==> ch.rfmQ != [] && ch.rfmQ[0] == c
    ensures Issued(cfg, ch, c, clk, rnd).Some?
    ensures var ch' := Issued(cfg, ch, c, clk, rnd).value;
      && ch'.refreshQ == (if c.ty.IsRefresh() then ch.refreshQ[1..] else ch.refreshQ)
      && ch'.rfmQ == (if c.ty.IsRfm() then ch.rfmQ[1..] else ch.rfmQ)
  {
    assert LegalEverywhere(cfg, ch, c);
  }

  /** The channel and the holds after the selected command is issued. */
  lemma IssueCore(cfg: Config, s: Controller, p: Pick, k: nat, j: nat, rnd: nat)
    requires cfg.Valid() && CoreInv(cfg, s) && Selected(cfg, s, p, k, j) && p.ready.Issue?
    ensures var ch, c := s.ch.(rfmQ := p.rfmQ), p.ready.cmd;
      && ch.Valid(cfg) && Issuable(cfg, ch, c, s.clk)
      && Issued(cfg, ch, c, s.clk, rnd).Some?
      && var ch' := Issued(cfg, ch, c, s.clk, rnd).value;
         ch'.Valid(cfg) && RfmQueueOk(cfg, ch'.rfmQ) && HoldsOk(cfg, ch', p.cq)
  {
    var ch, c := s.ch.(rfmQ := p.rfmQ), p.ready.cmd;
    WithRfmValid(cfg, s.ch, p.rfmQ);
    assert Issuable(cfg, ch, c, s.clk);
    IssuedValid(cfg, ch, c, s.clk, rnd);
    QueuesAfterIssue(cfg, ch, c, s.clk, rnd);
  }
}
