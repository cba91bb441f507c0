/** A run in which a refresh falls due while an RFM drains, so that the assertion at DRAMsim3/src/command_queue.cc:71
    fails. */
module RefreshDuringRfm {
  import opened Commands
  import opened Configuration
  import opened BankStates
  import opened ChannelStates
  import opened ChannelRuns
  import opened CommandQueues
  import opened Controllers
  import opened TickCore
  import opened Theorems
  import opened DrainAssertions
  import opened OneBankRuns

  /** One bank, one row, an RFM wanted before every activation, and ten cycles from a REFab to an RFM. */
  function OneBank(): Config {
    Config(Geometry(1, 1, 1, 1, 1), (_: nat) => Address(0, 0, 0, 0, 0, 0),
           Timing(Free, Free, Free, Free, AfterRefresh, Free, Free),
           false, 0, 0, 0, NoPrac, OpenPage, true, false, 1, false, 1, 2, 0, 0, 0, 0, 0, 0, 0, 0, 1, 0, 0, 0, 0, 0)
  }

  function AfterRefresh(ty: CommandType): seq<Constraint> { if ty == RefAb then [Constraint(RfmAb, 10)] else [] }

  const Rfm0 := RankCmd(RfmAb, 0)
  const Read0 := Command(Read, Addr0, 0)

  const Ref0 := RankCmd(RefAb, 0)

  /** What the run needs of the configuration. */
  ghost predicate Small(cfg: Config) {
    && OneQueue(cfg) && cfg.impl == NoPrac && cfg.rowBufPolicy == OpenPage
    && cfg.timing.sameRank(RefAb) == [Constraint(RfmAb, 10)]
    && cfg.rfmMode == 2 && cfg.raammt == 0 && cfg.alertMode == 0
  }

  lemma OneBankSmall()
    ensures Small(OneBank()) && InputOk(OneBank(), Idle) && InputOk(OneBank(), RefreshDue)
  {}

  /** A closed bank without activations. */
  ghost predicate BankQuiet(b: Bank, rfmStart: nat) {
    b.state == Closed && b.raa == 0 && b.EarliestStart(RefAb) == 0 && b.EarliestStart(RfmAb) == rfmStart
  }

  ghost predicate Quiet(cfg: Config, ch: Channel, rfmQ: seq<Command>, rfmStart: nat) {
    && ch.Valid(cfg) && ch.refreshQ == [] && ch.rfmQ == rfmQ && !ch.alert
    && Bank0 in ch.banks && BankQuiet(ch.banks[Bank0], rfmStart)
  }

  /** A round in which the queued read cannot be served. */
  lemma ReadWaits(cfg: Config, ch: Channel, cq: CmdQueue, clk: nat, rfmQ: seq<Command>)
    requires Small(cfg) && ch.Valid(cfg) && cq.Usable(cfg) && NextIdx(cfg, 0) == 0
    requires cq.idx == 0 && cq.queues == [[Read0]] && !cq.Skips(0) && Addressable(cfg, Read0)
    requires GetReady(cfg, ch, Read0, clk, false) == NotReady && RfmAfter(cfg, ch, Read0, clk, false) == rfmQ
    ensures CommandToIssue(cfg, ch, cq, 1, clk, false) == Pick(NotReady, cq, rfmQ)
  {
    var ch1 := ch.(rfmQ := rfmQ);
    assert cq.(idx := 0) == cq;
    assert FirstReady(cfg, ch1, [Read0], 1, clk, false) == Scan(NotReady, rfmQ, 1);
    assert FirstReady(cfg, ch, [Read0], 0, clk, false) == Scan(NotReady, rfmQ, 1);
    assert CommandToIssue(cfg, ch1, cq, 0, clk, false) == Pick(NotReady, cq, rfmQ);
  }

  // ----- The run -----

  /** The read asks for an RFM. */
  lemma SecondTick(cfg: Config, s: Controller, s': Controller)
    requires Small(cfg) && InputOk(cfg, Idle) && Quiet(cfg, s.ch, [], 0) && s.cq == Queue([Read0]) && s.unifiedQ == []
    requires s' == NextCycle(s.(ch := s.ch.(rfmQ := [Rfm0])))
    ensures StepsTo(cfg, s, Clock(Idle), s')
  {
    QueueUsable(cfg, s.cq);
    AsksForRfm(cfg, s.ch, s.clk);
    ReadWaits(cfg, s.ch, s.cq, s.clk, [Rfm0]);
    assert s.ch.(rfmQ := []) == s.ch && s.(cq := s.cq) == s;
    NothingScheduled(cfg, s.(ch := s.ch.(rfmQ := [Rfm0])));
    IdleTick(cfg, s, s.cq, [Rfm0], s');
  }

  lemma AsksForRfm(cfg: Config, ch: Channel, clk: nat)
    requires Small(cfg) && Quiet(cfg, ch, [], 0)
    ensures Addressable(cfg, Read0) && GetReady(cfg, ch, Read0, clk, false) == NotReady
    ensures RfmAfter(cfg, ch, Read0, clk, false) == [Rfm0]
  {
    assert Read0.Id() == Bank0;
    assert BankReady(cfg, ch.banks[Bank0], Read0, clk, false) == Issue(Command(RfmAb, Read0.addr, 0));
  }

  /** The scan of a rank of one bank answers as the bank does. */
  lemma ScanOneBank(cfg: Config, ch: Channel, c: Command, clk: nat)
    requires Small(cfg) && ch.Valid(cfg) && Bank0 in ch.banks && ch.banks[Bank0].state == Closed
    requires c == Ref0 || c == Rfm0
    ensures Addressable(cfg, c) && RfmAfter(cfg, ch, c, clk, false) == ch.rfmQ
    ensures GetReady(cfg, ch, c, clk, false)
         == if clk >= ch.banks[Bank0].EarliestStart(c.ty) then Issue(c) else NotReady
  {
    var r := BankReady(cfg, ch.banks[Bank0], c, clk, false);
    assert r == if clk >= ch.banks[Bank0].EarliestStart(c.ty) then Issue(c) else NotReady;
    var n := if r.Issue? then 1 else 0;
    assert ScanRank(cfg, ch.banks, c, clk, false, 1, 0, n) == r;
    assert ScanRank(cfg, ch.banks, c, clk, false, 0, 1, n) == r;
  }

  /** A refresh falls due and issues at once, which puts the RFM off. */
  lemma ThirdTick(cfg: Config, s: Controller) returns (ch': Channel, s': Controller)
    requires Small(cfg) && InputOk(cfg, RefreshDue) && s.unifiedQ == []
    requires Quiet(cfg, s.ch, [Rfm0], 0) && s.cq == Queue([Read0])
    ensures StepsTo(cfg, s, Clock(RefreshDue), s') && Quiet(cfg, ch', [Rfm0], s.clk + 10)
    ensures s' == NextCycle(s.(ch := ch', log := s.log + [Event(s.clk, Ref0)]))
  {
    QueueUsable(cfg, s.cq);
    var ch := s.ch.(refreshQ := [Ref0]);
    assert s.ch.refreshQ + [Ref0] == [Ref0] && Due(s, RefreshDue) == s.(ch := ch);
    ScanOneBank(cfg, ch, Ref0, s.clk);
    ch' := RefreshIssued(cfg, ch, s.clk);
    s' := NextCycle(s.(ch := ch', log := s.log + [Event(s.clk, Ref0)]));
    LetGo(cfg, s.cq, Ref0, s.ch.rfmQ);
    FirstIs(cfg, s.(ch := ch), Pick(Issue(Ref0), s.cq, s.ch.rfmQ));
    NothingScheduled(cfg, s.(ch := ch', log := s.log + [Event(s.clk, Ref0)]));
    RefreshTick(cfg, s, ch, ch', s');
  }

  lemma LetGo(cfg: Config, cq: CmdQueue, c: Command, rfmQ: seq<Command>)
    requires cfg.Valid() && !cq.inRef && cq.refIdx == {} && c.ty.IsRefresh()
    ensures RefreshPick(cfg, cq, c, Issue(c), rfmQ) == Pick(Issue(c), cq, rfmQ)
  {}

  lemma FirstIs(cfg: Config, s: Controller, p: Pick)
    requires cfg.Valid() && s.ch.Valid(cfg) && s.cq.Usable(cfg) && FirstStage(cfg, s, false) == p && p.ready.Issue?
    ensures Select(cfg, s, false) == p
  {}

  lemma RefreshIssued(cfg: Config, ch: Channel, clk: nat) returns (ch': Channel)
    requires Small(cfg) && ch.refreshQ == [Ref0] && ch.Valid(cfg) && Quiet(cfg, ch.(refreshQ := []), ch.rfmQ, 0)
    ensures Addressable(cfg, Ref0) && Issued(cfg, ch, Ref0, clk, 0) == Some(ch')
    ensures Quiet(cfg, ch', ch.rfmQ, clk + 10)
  {
    assert forall id :: cfg.HasBank(id) ==> id == Bank0;
    assert Issuable(cfg, ch, Ref0, clk);
    IssuedValid(cfg, ch, Ref0, clk, 0);
    IssuedBank(cfg, ch, Ref0, clk, 0, Bank0);
    QueuesAfterIssue(cfg, ch, Ref0, clk, 0);
    NoAlert(cfg, ch, clk);
    ch' := Issued(cfg, ch, Ref0, clk, 0).value;
    RefreshedBank(cfg, ch.banks[Bank0], clk, ch'.banks[Bank0]);
  }

  lemma NoAlert(cfg: Config, ch: Channel, clk: nat)
    requires Small(cfg) && ch.Valid(cfg) && Addressable(cfg, Ref0) && !ch.alert && Issued(cfg, ch, Ref0, clk, 0).Some?
    ensures !Issued(cfg, ch, Ref0, clk, 0).value.alert
  {}

  lemma RefreshedBank(cfg: Config, b: Bank, clk: nat, b': Bank)
    requires Small(cfg) && b.Valid(cfg) && BankQuiet(b, 0) && UpdateState(cfg, b, Ref0, 0).Some?
    requires b' == Constrain(UpdateState(cfg, b, Ref0, 0).value, Constraints(cfg, Ref0, Bank0), clk)
    ensures BankQuiet(b', clk + 10)
  {
    assert Constraints(cfg, Ref0, Bank0) == [Constraint(RfmAb, 10)];
    ConstrainOne(Refreshed(cfg, b), Constraint(RfmAb, 10), clk);
  }

  lemma ConstrainOne(b: Bank, c: Constraint, clk: nat)
    ensures Constrain(b, [c], clk) == b.(timing := b.timing[c.ty := Max(b.EarliestStart(c.ty), clk + c.delay)])
  {
    assert [c][1..] == [];
    var b' := b.(timing := b.timing[c.ty := Max(b.EarliestStart(c.ty), clk + c.delay)]);
    assert Constrain(b', [], clk) == b';
  }

  /** A tick that issues the refresh. */
  lemma RefreshTick(cfg: Config, s: Controller, ch: Channel, ch': Channel, s': Controller)
    requires cfg.Valid() && s.ch.Valid(cfg) && s.cq.Usable(cfg) && InputOk(cfg, RefreshDue) && ch.Valid(cfg)
    requires Due(s, RefreshDue) == s.(ch := ch) && ch.rfmQ == s.ch.rfmQ
    requires Addressable(cfg, Ref0) && Select(cfg, s.(ch := ch), false) == Pick(Issue(Ref0), s.cq, s.ch.rfmQ)
    requires Issued(cfg, ch, Ref0, s.clk, 0) == Some(ch')
    requires s' == NextCycle(Schedule(cfg, s.(ch := ch', log := s.log + [Event(s.clk, Ref0)])))
    ensures StepsTo(cfg, s, Clock(RefreshDue), s')
  {
    var due, s2 := s.(ch := ch), s.(ch := ch', log := s.log + [Event(s.clk, Ref0)]);
    assert due.(cq := s.cq) == due;
    IssueAct(cfg, due, Ref0, s.cq, due, ch');
    assert due.(ch := ch', log := due.log + [Event(due.clk, Ref0)]) == s2;
    TickOf(cfg, s, RefreshDue, Pick(Issue(Ref0), s.cq, s.ch.rfmQ), s2, s');
  }

  /** The RFM begins to drain and has to wait. */
  lemma FourthTick(cfg: Config, s: Controller, start: nat, s': Controller)
    requires Small(cfg) && InputOk(cfg, Idle) && s.unifiedQ == [] && s.clk < start
    requires Quiet(cfg, s.ch, [Rfm0], start) && s.cq == Queue([Read0])
    requires s' == NextCycle(s.(cq := s.cq.(inRfm := true, rfmIdx := {0})))
    ensures StepsTo(cfg, s, Clock(Idle), s')
  {
    var cq := s.cq.(inRfm := true, rfmIdx := {0});
    QueueUsable(cfg, s.cq);
    QueueUsable(cfg, cq);
    ScanOneBank(cfg, s.ch, Rfm0, s.clk);
    assert HeldIndices(cfg, Rfm0) == {0};
    NothingToTake(cfg, s.ch, cq, s.clk);
    assert s.ch.(rfmQ := [Rfm0]) == s.ch;
    NothingScheduled(cfg, s.(cq := cq));
    IdleTick(cfg, s, cq, [Rfm0], s');
  }

  /** A run of OneBank that ends in a state where the first assertion fails as soon as a refresh falls due. */
  lemma FirstAssertionFails() returns (sel: BankId -> nat, states: seq<Controller>, steps: seq<Step>)
    ensures OneBank().Valid() && Run(OneBank(), sel, states, steps) && InputOk(OneBank(), RefreshDue)
    ensures !AssertionsHold(Due(states[|steps|], RefreshDue))
  {
    OneBankSmall();
    sel := (_: BankId) => 0;
    states, steps := SmallRun(OneBank(), sel);
  }

  lemma SmallRun(cfg: Config, sel: BankId -> nat) returns (states: seq<Controller>, steps: seq<Step>)
    requires Small(cfg) && InputOk(cfg, Idle) && InputOk(cfg, RefreshDue)
    ensures Run(cfg, sel, states, steps) && !AssertionsHold(Due(states[|steps|], RefreshDue))
  {
    var s0 := InitController(cfg, sel);
    var s1 := AddTransaction(cfg, s0, 0, false);
    PowerUp(cfg, sel);
    ReadArrives(cfg, s0, s1);
    var s2, s3 := UntilAsked(cfg, s1);
    var s4, s5 := UntilDraining(cfg, s3);
    states, steps := FiveSteps(cfg, sel, s0, s1, s2, s3, s4, s5);
    assert Due(s5, RefreshDue).ch.refreshQ == s5.ch.refreshQ + [Ref0];
  }

  lemma UntilAsked(cfg: Config, s1: Controller) returns (s2: Controller, s3: Controller)
    requires Small(cfg) && InputOk(cfg, Idle) && Quiet(cfg, s1.ch, [], 0) && s1.cq == Queue([]) && OneWaits(s1)
    ensures StepsTo(cfg, s1, Clock(Idle), s2) && StepsTo(cfg, s2, Clock(Idle), s3)
    ensures Quiet(cfg, s3.ch, [Rfm0], 0) && s3.cq == Queue([Read0]) && s3.unifiedQ == []
  {
    s2 := NextCycle(s1.(unifiedQ := [], cq := Queue([Read0])));
    DispatchTick(cfg, s1, s2);
    s3 := NextCycle(s2.(ch := s2.ch.(rfmQ := [Rfm0])));
    SecondTick(cfg, s2, s3);
    RfmQueued(cfg, s2.ch);
  }

  lemma RfmQueued(cfg: Config, ch: Channel)
    requires Small(cfg) && Quiet(cfg, ch, [], 0)
    ensures Quiet(cfg, ch.(rfmQ := [Rfm0]), [Rfm0], 0)
  {}

  lemma UntilDraining(cfg: Config, s3: Controller) returns (s4: Controller, s5: Controller)
    requires Small(cfg) && InputOk(cfg, Idle) && InputOk(cfg, RefreshDue)
    requires Quiet(cfg, s3.ch, [Rfm0], 0) && s3.cq == Queue([Read0]) && s3.unifiedQ == []
    ensures StepsTo(cfg, s3, Clock(RefreshDue), s4) && StepsTo(cfg, s4, Clock(Idle), s5) && s5.cq.inRfm
  {
    var ch4;
    ch4, s4 := ThirdTick(cfg, s3);
    s5 := NextCycle(s4.(cq := s4.cq.(inRfm := true, rfmIdx := {0})));
    FourthTick(cfg, s4, s3.clk + 10, s5);
  }

  lemma FiveSteps(cfg: Config, sel: BankId -> nat, s0: Controller, s1: Controller, s2: Controller, s3: Controller,
                  s4: Controller, s5: Controller)
    returns (states: seq<Controller>, steps: seq<Step>)
    requires cfg.Valid() && s0 == InitController(cfg, sel) && StepsTo(cfg, s0, Arrive(0, false), s1)
    requires StepsTo(cfg, s1, Clock(Idle), s2) && StepsTo(cfg, s2, Clock(Idle), s3)
    requires StepsTo(cfg, s3, Clock(RefreshDue), s4) && StepsTo(cfg, s4, Clock(Idle), s5)
    ensures Run(cfg, sel, states, steps) && states[|steps|] == s5
  {
    states, steps := [s0], [];
    states, steps := Longer(cfg, sel, states, steps, Arrive(0, false), s1);
    states, steps := Longer(cfg, sel, states, steps, Clock(Idle), s2);
    states, steps := Longer(cfg, sel, states, steps, Clock(Idle), s3);
    states, steps := Longer(cfg, sel, states, steps, Clock(RefreshDue), s4);
    states, steps := Longer(cfg, sel, states, steps, Clock(Idle), s5);
  }
}
