/** The two assertions of the command queue that a refresh and an RFM never drain at once
    (DRAMsim3/src/command_queue.cc:71, 90): exactly when they hold. */
module DrainAssertions {
  import opened Commands
  import opened Configuration
  import opened BankStates
  import opened ChannelStates
  import opened ChannelRuns
  import opened CommandQueues
  import opened Controllers
  import opened TickCore
  import opened ControllerRuns
  import opened Theorems

  /** A tick that finds a refresh pending asserts that no RFM drains; one that finds only an RFM pending, that no
      refresh does. `s` is the state after the due refreshes were queued. */
  predicate AssertionsHold(s: Controller) {
    if s.ch.refreshQ != [] then !s.cq.inRfm else s.ch.rfmQ != [] ==> !s.cq.inRef
  }

  /** The second assertion never fails; the first one fails exactly if a refresh is pending while an RFM drains. */
  lemma HoldsIff(cfg: Config, sel: BankId -> nat, states: seq<Controller>, steps: seq<Step>, i: nat, e: TickInput)
    requires cfg.Valid() && Run(cfg, sel, states, steps) && i < |states| && InputOk(cfg, e)
    ensures Due(states[i], e).ch.refreshQ == [] ==> !states[i].cq.inRef
    ensures AssertionsHold(Due(states[i], e)) <==> !(states[i].cq.inRfm && Due(states[i], e).ch.refreshQ != [])
  {
    RunInv(cfg, sel, states, steps, i);
  }

  /** An RFM drains after a tick exactly if it drained behind a pending refresh, or the tick finds an RFM first in line
      that is not ready. */
  lemma RfmDrainsIff(cfg: Config, sel: BankId -> nat, states: seq<Controller>, steps: seq<Step>, i: nat)
    requires cfg.Valid() && Run(cfg, sel, states, steps) && i < |steps| && steps[i].Clock?
    ensures Due(states[i], steps[i].input).ch.Valid(cfg)
    ensures states[i + 1].cq.inRfm <==> RfmWaits(cfg, Due(states[i], steps[i].input), steps[i].input.coin)
  {
    RunInv(cfg, sel, states, steps, i);
    assert StepsTo(cfg, states[i], steps[i], states[i + 1]);
    TickDrains(cfg, states[i], steps[i].input, states[i + 1]);
  }

  predicate RfmWaits(cfg: Config, s: Controller, coin: bool)
    requires Populated(cfg, s.ch.banks) && |s.ch.fourAw| == |s.ch.thirtyTwoAw| == cfg.sizes.ranks
    requires forall c <- s.ch.rfmQ :: Addressable(cfg, c)
  {
    if s.ch.refreshQ != [] then s.cq.inRfm
    else s.ch.rfmQ != [] && GetReady(cfg, s.ch, s.ch.rfmQ[0], s.clk, coin) != Issue(s.ch.rfmQ[0])
  }

  lemma TickDrains(cfg: Config, s: Controller, e: TickInput, s': Controller)
    requires cfg.Valid() && Inv(cfg, s) && InputOk(cfg, e) && Tick(cfg, s, e) == Some(s')
    ensures Due(s, e).ch.Valid(cfg)
    ensures s'.cq.inRfm <==> RfmWaits(cfg, Due(s, e), e.coin)
  {
    var p, k, j := TickTaken(cfg, s, e, s');
    var due := Due(s, e);
    SelectDrains(cfg, due, e.coin);
    ActKeepsHolds(cfg, due, p, e.rnd, Act(cfg, due, p, e.rnd).value, s');
  }

  lemma SelectDrains(cfg: Config, s: Controller, coin: bool)
    requires cfg.Valid() && CoreInv(cfg, s) && Servable(cfg, s.ch)
    ensures Select(cfg, s, coin).cq.inRfm <==> RfmWaits(cfg, s, coin)
  {
    FirstStageDrains(cfg, s, coin);
    FirstStageSound(cfg, s, coin);
    var first := FirstStage(cfg, s, coin);
    if first.ready.NotReady? {
      var ch1 := s.ch.(rfmQ := first.rfmQ);
      WithRfmValid(cfg, s.ch, first.rfmQ);
      var k, j := CommandToIssueSound(cfg, ch1, first.cq, Abs(NumQueues(cfg)), s.clk, coin);
    }
  }

  lemma FirstStageDrains(cfg: Config, s: Controller, coin: bool)
    requires cfg.Valid() && CoreInv(cfg, s) && Servable(cfg, s.ch)
    ensures FirstStage(cfg, s, coin).cq.inRfm <==> RfmWaits(cfg, s, coin)
  {
    if s.ch.refreshQ == [] && s.ch.rfmQ != [] {
      var rfm := s.ch.rfmQ[0];
      assert rfm in s.ch.rfmQ;
      ReadyIsIssuable(cfg, s.ch, rfm, s.clk, coin);
    }
  }

  lemma ActKeepsHolds(cfg: Config, s: Controller, p: Pick, rnd: nat, s2: Controller, s': Controller)
    requires cfg.Valid() && Act(cfg, s, p, rnd) == Some(s2) && s' == NextCycle(Schedule(cfg, s2))
    ensures s'.cq.inRfm == p.cq.inRfm
    ensures Added(s, s') == if p.ready.Issue? then Some(p.ready.cmd) else None
  {
    if p.ready.Issue? { IssueKeepsHolds(cfg, s.(cq := p.cq, ch := s.ch.(rfmQ := p.rfmQ)), p.ready.cmd, rnd, s2); }
    ScheduleKeepsHolds(cfg, s2);
  }

  lemma IssueKeepsHolds(cfg: Config, s: Controller, c: Command, rnd: nat, s2: Controller)
    requires cfg.Valid() && s.ch.Valid(cfg) && Addressable(cfg, c) && c.ty != SrefEnter
    requires IssueCommand(cfg, s, c, rnd) == Some(s2)
    ensures s2.cq == s.cq && s2.log == s.log + [Event(s.clk, c)]
  {
    RetireKeepsHolds(cfg, s, c);
  }

  lemma RetireKeepsHolds(cfg: Config, s: Controller, c: Command)
    ensures Retire(cfg, s, c).Some? ==> Retire(cfg, s, c).value.cq == s.cq
  {}

  lemma ScheduleKeepsHolds(cfg: Config, s: Controller)
    requires cfg.Valid()
    ensures Schedule(cfg, s).cq.inRfm == s.cq.inRfm && Schedule(cfg, s).log == s.log
  {}
}
