/** Runs of one bank under MOAT with a threshold of one: under SOFT_CLOSE_PAGE a row is activated more often than the
    threshold without a reset, and under CLOSE_PAGE a bank refresh behind the alert stops the channel for good. */
module MoatRuns {
  import opened Commands
  import opened Configuration
  import opened BankStates
  import opened ChannelStates
  import opened ChannelRuns
  import opened CommandQueues
  import opened Controllers
  import opened TickCore
  import opened MoatBound
  import opened Theorems
  import opened OneBankRuns
  import AB = ActivationBound
  import LL = Livelock

  /** The shipped alert settings, a threshold of one activation, and no timing constraints. */
  function OneBankMoat(policy: RowBufPolicy): Config {
    Config(Geometry(1, 1, 1, 1, 1), (_: nat) => Addr0, Timing(Free, Free, Free, Free, Free, Free, Free),
           false, 0, 0, 0, Moat, policy, true, false, 1, false, 1, 0, 0, 0, 0, 1, 1, 0, 1, 1, 1, 5, 5, 2, 1, 4)
  }

  /** What the runs need of the configuration. */
  ghost predicate Setup(cfg: Config) {
    && OneQueue(cfg) && AB.Counts(cfg) && cfg.moatAth == 1 && cfg.aboDelayActs == 1 && !cfg.isGddr
    && cfg.impl == Moat && cfg.rowBufPolicy != OpenPage && cfg.rfmMode == 0 && cfg.mopacBufSize >= 1
    && forall c, id :: Constraints(cfg, c, id) == []
  }

  lemma OneBankMoatSetup(policy: RowBufPolicy)
    requires policy != OpenPage
    ensures Setup(OneBankMoat(policy)) && OneBankMoat(policy).rowBufPolicy == policy
  {}

  const Act0 := Command(Activate, Addr0, 0)

  /** A bank without counts. */
  predicate BankAt(b: Bank, phase: Phase) {
    && b.state == phase && b.openRow == (if phase == Open then 0 else -1) && b.Count(0) == 0 && !b.moatValid
    && b.mopacBuf == [] && b.mopacCritical == 0 && b.timing == map[]
  }

  /** A channel with such a bank, after at most n activations. */
  ghost predicate ChannelAt(cfg: Config, ch: Channel, phase: Phase, n: nat) {
    && ch.Valid(cfg) && ch.refreshQ == [] && ch.rfmQ == [] && !ch.alert && Bank0 in ch.banks
    && BankAt(ch.banks[Bank0], phase) && |ch.fourAw| == 1 && |ch.fourAw[0]| <= n && (phase == Open ==> ch.actsAbo >= 1)
  }

  /** Nothing is pending. */
  ghost predicate Calm(cfg: Config, s: Controller, n: nat) {
    && ChannelAt(cfg, s.ch, Closed, n) && s.cq == Queue([]) && s.unifiedQ == [] && s.pendingRd == []
    && 0 !in s.pendingWr && s.draining == 0
  }

  // ----- The channel -----

  lemma AsksActivate(cfg: Config, ch: Channel, clk: nat, n: nat)
    requires Setup(cfg) && ChannelAt(cfg, ch, Closed, n) && n < 4
    ensures Addressable(cfg, LoneRead(cfg)) && GetReady(cfg, ch, LoneRead(cfg), clk, false) == Issue(Act0)
    ensures RfmAfter(cfg, ch, LoneRead(cfg), clk, false) == [] && Issuable(cfg, ch, Act0, clk)
  {
    assert LoneRead(cfg).Id() == Bank0 && Act0.Id() == Bank0;
    assert BankReady(cfg, ch.banks[Bank0], LoneRead(cfg), clk, false) == Issue(Act0);
    assert forall id :: Act0.Touches(id) ==> id == Bank0;
  }

  lemma AsksRead(cfg: Config, ch: Channel, clk: nat, n: nat)
    requires Setup(cfg) && ChannelAt(cfg, ch, Open, n)
    ensures Addressable(cfg, LoneRead(cfg)) && GetReady(cfg, ch, LoneRead(cfg), clk, false) == Issue(LoneRead(cfg))
    ensures RfmAfter(cfg, ch, LoneRead(cfg), clk, false) == [] && Issuable(cfg, ch, LoneRead(cfg), clk)
    ensures LoneRead(cfg).Id() == Bank0 && ActsAfter(ch, LoneRead(cfg).ty) >= 1
  {
    assert LoneRead(cfg).Id() == Bank0;
    assert BankReady(cfg, ch.banks[Bank0], LoneRead(cfg), clk, false) == Issue(LoneRead(cfg));
    assert forall id :: LoneRead(cfg).Touches(id) ==> id == Bank0;
  }

  lemma IssuedOne(cfg: Config, ch: Channel, c: Command, clk: nat) returns (ch': Channel)
    requires Setup(cfg) && ch.Valid(cfg) && Bank0 in ch.banks && Issuable(cfg, ch, c, clk) && c.Touches(Bank0)
    requires !c.ty.IsRefresh() && !c.ty.IsRfm()
    ensures Issued(cfg, ch, c, clk, 0) == Some(ch') && ch'.Valid(cfg) && Bank0 in ch'.banks
    ensures ch.banks[Bank0].Valid(cfg) && UpdateState(cfg, ch.banks[Bank0], c, 0) == Some(ch'.banks[Bank0])
    ensures ch'.refreshQ == ch.refreshQ && ch'.rfmQ == ch.rfmQ && ch'.actsAbo == ActsAfter(ch, c.ty)
    ensures c.ty != Activate ==> ch'.fourAw == ch.fourAw
    ensures |ch.fourAw| == |ch'.fourAw| == 1 && |ch'.fourAw[0]| <= |ch.fourAw[0]| + 1
  {
    assert cfg.HasBank(Bank0);
    IssuedValid(cfg, ch, c, clk, 0);
    IssuedBank(cfg, ch, c, clk, 0, Bank0);
    QueuesAfterIssue(cfg, ch, c, clk, 0);
    ch' := Issued(cfg, ch, c, clk, 0).value;
    assert Constraints(cfg, c, Bank0) == [];
  }

  /** The alert after an issue: raised exactly if the bank asks for it. */
  lemma AlertOne(cfg: Config, ch: Channel, c: Command, clk: nat, ch': Channel)
    requires Setup(cfg) && ch.Valid(cfg) && Addressable(cfg, c) && c.ty != SrefEnter && !ch.alert
    requires Issued(cfg, ch, c, clk, 0) == Some(ch') && Bank0 in ch'.banks
    requires (c.ty == Activate || c.ty == ReadPrecharge || c.ty == ReadPrecharge2) && c.Id() == Bank0
    requires ActsAfter(ch, c.ty) >= 1
    ensures ch'.alert <==> CheckAlert(cfg, ch'.banks[Bank0])
    ensures ch'.alert ==> ch'.lastAlertClk == clk
  {
    assert Constraints(cfg, c, Bank0) == [];
  }

  lemma IssuesActivate(cfg: Config, ch: Channel, clk: nat, n: nat) returns (ch': Channel)
    requires Setup(cfg) && ChannelAt(cfg, ch, Closed, n) && n < 4
    ensures Addressable(cfg, Act0) && Issued(cfg, ch, Act0, clk, 0) == Some(ch') && ChannelAt(cfg, ch', Open, n + 1)
  {
    AsksActivate(cfg, ch, clk, n);
    ch' := IssuedOne(cfg, ch, Act0, clk);
    assert ch'.banks[Bank0] == Activated(cfg, ch.banks[Bank0], 0, 0);
    AlertOne(cfg, ch, Act0, clk, ch');
  }

  /** Under SOFT_CLOSE_PAGE the read closes the row without a count; under CLOSE_PAGE its count raises the alert. */
  lemma IssuesRead(cfg: Config, ch: Channel, clk: nat, n: nat) returns (ch': Channel)
    requires Setup(cfg) && ChannelAt(cfg, ch, Open, n)
    ensures Addressable(cfg, LoneRead(cfg)) && Issued(cfg, ch, LoneRead(cfg), clk, 0) == Some(ch')
    ensures cfg.rowBufPolicy == SoftClosePage ==> ChannelAt(cfg, ch', Closed, n)
    ensures cfg.rowBufPolicy == ClosePage ==>
      ch'.Valid(cfg) && ch'.refreshQ == [] && ch'.alert && ch'.lastAlertClk == clk
  {
    AsksRead(cfg, ch, clk, n);
    ch' := IssuedOne(cfg, ch, LoneRead(cfg), clk);
    ReadCloses(cfg, ch.banks[Bank0], ch'.banks[Bank0]);
    AlertOne(cfg, ch, LoneRead(cfg), clk, ch');
  }

  lemma ReadCloses(cfg: Config, b: Bank, b': Bank)
    requires Setup(cfg) && b.Valid(cfg) && BankAt(b, Open) && UpdateState(cfg, b, LoneRead(cfg), 0) == Some(b')
    ensures cfg.rowBufPolicy == SoftClosePage ==> BankAt(b', Closed)
    ensures CheckAlert(cfg, b') == (cfg.rowBufPolicy == ClosePage)
  {
    assert b' == ClosedBy(cfg, b, LoneRead(cfg).ty);
  }

  // ----- The ticks -----

  /** The scheduler's choice from a queue of one read. */
  lemma SelectActivate(cfg: Config, s: Controller, n: nat)
    requires Setup(cfg) && ChannelAt(cfg, s.ch, Closed, n) && n < 4 && s.cq == Queue([LoneRead(cfg)])
    ensures s.cq.Usable(cfg) && Select(cfg, s, false) == Pick(Issue(Act0), s.cq, [])
  {
    QueueUsable(cfg, s.cq);
    AsksActivate(cfg, s.ch, s.clk, n);
    assert FirstReady(cfg, s.ch, [LoneRead(cfg)], 0, s.clk, false) == Scan(Issue(Act0), [], 0);
    assert s.cq.(idx := 0) == s.cq && s.ch.(rfmQ := []) == s.ch;
    assert Visit(cfg, s.ch, s.cq, s.clk, false) == Pick(Issue(Act0), s.cq, []);
  }

  lemma SelectRead(cfg: Config, s: Controller, n: nat)
    requires Setup(cfg) && ChannelAt(cfg, s.ch, Open, n) && s.cq == Queue([LoneRead(cfg)])
    ensures s.cq.Usable(cfg) && Select(cfg, s, false) == Pick(Issue(LoneRead(cfg)), Queue([]), [])
  {
    var c := LoneRead(cfg);
    QueueUsable(cfg, s.cq);
    AsksRead(cfg, s.ch, s.clk, n);
    assert FirstReady(cfg, s.ch, [c], 0, s.clk, false) == Scan(Issue(c), [], 0);
    assert s.cq.(idx := 0) == s.cq && s.ch.(rfmQ := []) == s.ch;
    assert EraseFrom([c], c) == Some([]) by { assert [c][1..] == []; }
    assert s.cq.queues[0 := []] == [[]];
    assert Erase(cfg, s.cq, c) == Some(Queue([]));
    assert Visit(cfg, s.ch, s.cq, s.clk, false) == Pick(Issue(c), Queue([]), []);
  }

  lemma ActivateTick(cfg: Config, s: Controller, n: nat) returns (s': Controller)
    requires Setup(cfg) && ChannelAt(cfg, s.ch, Closed, n) && n < 4
    requires s.cq == Queue([LoneRead(cfg)]) && s.unifiedQ == []
    ensures StepsTo(cfg, s, Clock(Idle), s') && ChannelAt(cfg, s'.ch, Open, n + 1)
    ensures s' == NextCycle(s.(ch := s'.ch, log := s.log + [Event(s.clk, Act0)]))
  {
    SelectActivate(cfg, s, n);
    var ch' := IssuesActivate(cfg, s.ch, s.clk, n);
    var s2 := s.(ch := ch', log := s.log + [Event(s.clk, Act0)]);
    s' := NextCycle(s2);
    assert s.(cq := s.cq) == s;
    IssueAct(cfg, s, Act0, s.cq, s, ch');
    NothingDue(s);
    NothingScheduled(cfg, s2);
    TickOf(cfg, s, Idle, Pick(Issue(Act0), s.cq, []), s2, s');
  }

  /** Exactly one read is pending. */
  predicate OnePending(s: Controller) { |s.pendingRd| == 1 && s.pendingRd[0].addr == 0 }

  lemma RetiresRead(cfg: Config, s: Controller) returns (s1: Controller)
    requires OnePending(s)
    ensures Retire(cfg, s, LoneRead(cfg)) == Some(s1)
    ensures s1 == s.(returnQ := s1.returnQ, pendingRd := [])
  {
    var t := s.pendingRd[0];
    assert s.pendingRd == [t] && [t][1..] == [];
    assert At([t], 0) == [t] + At([], 0) && NotAt([t], 0) == [] + NotAt([], 0);
    s1 := Retire(cfg, s, LoneRead(cfg)).value;
  }

  lemma ReadTick(cfg: Config, s: Controller, n: nat) returns (s': Controller)
    requires Setup(cfg) && ChannelAt(cfg, s.ch, Open, n) && s.cq == Queue([LoneRead(cfg)]) && s.unifiedQ == []
    requires OnePending(s)
    ensures StepsTo(cfg, s, Clock(Idle), s') && s'.log == s.log + [Event(s.clk, LoneRead(cfg))] && s'.clk == s.clk + 1
    ensures cfg.rowBufPolicy == SoftClosePage && 0 !in s.pendingWr && s.draining == 0 ==> Calm(cfg, s', n)
    ensures cfg.rowBufPolicy == ClosePage ==>
      s'.ch.Valid(cfg) && s'.ch.refreshQ == [] && s'.ch.alert && s'.ch.lastAlertClk == s.clk
  {
    var c := LoneRead(cfg);
    SelectRead(cfg, s, n);
    var ch' := IssuesRead(cfg, s.ch, s.clk, n);
    var s1 := RetiresRead(cfg, s.(cq := Queue([])));
    var s2 := s1.(ch := ch', log := s.log + [Event(s.clk, c)]);
    s' := NextCycle(s2);
    assert s.ch.rfmQ == [];
    IssueAct(cfg, s, c, Queue([]), s1, ch');
    NothingDue(s);
    NothingScheduled(cfg, s2);
    TickOf(cfg, s, Idle, Pick(Issue(c), Queue([]), []), s2, s');
  }

  /** A read arrives, becomes a command, has its row activated, and is served. */
  lemma Served(cfg: Config, s: Controller, n: nat)
    returns (s1: Controller, s2: Controller, s3: Controller, s4: Controller)
    requires Setup(cfg) && Calm(cfg, s, n) && n < 4
    ensures StepsTo(cfg, s, Arrive(0, false), s1) && StepsTo(cfg, s1, Clock(Idle), s2)
    ensures StepsTo(cfg, s2, Clock(Idle), s3) && StepsTo(cfg, s3, Clock(Idle), s4)
    ensures s1.log == s.log && s2.log == s.log && s3.log == s.log + [Event(s2.clk, Act0)]
    ensures s4.log == s3.log + [Event(s3.clk, LoneRead(cfg))]
    ensures ChannelAt(cfg, s2.ch, Closed, n) && ChannelAt(cfg, s3.ch, Open, n + 1)
    ensures cfg.rowBufPolicy == SoftClosePage ==> Calm(cfg, s4, n + 1)
    ensures cfg.rowBufPolicy == ClosePage ==>
      s4.ch.Valid(cfg) && s4.ch.refreshQ == [] && s4.ch.alert && s4.ch.lastAlertClk < s4.clk
  {
    s1 := AddTransaction(cfg, s, 0, false);
    ReadArrives(cfg, s, s1);
    s2 := NextCycle(s1.(unifiedQ := [], cq := Queue([LoneRead(cfg)])));
    DispatchTick(cfg, s1, s2);
    s3 := ActivateTick(cfg, s2, n);
    s4 := ReadTick(cfg, s3, n + 1);
  }

  lemma CalmAtPowerUp(cfg: Config, sel: BankId -> nat)
    requires Setup(cfg)
    ensures Calm(cfg, InitController(cfg, sel), 0)
  {
    PowerUp(cfg, sel);
  }

  // ----- The bound on activations needs a policy that counts -----

  /** Under SOFT_CLOSE_PAGE a row is activated twice without a reset although the threshold is one. */
  lemma SoftCloseEscapes() returns (cfg: Config, sel: BankId -> nat, states: seq<Controller>, steps: seq<Step>)
    ensures AB.Counts(cfg) && cfg.impl == Moat && cfg.rowBufPolicy == SoftClosePage && Run(cfg, sel, states, steps)
    ensures cfg.HasBank(Bank0) && cfg.HasRow(0)
    ensures AB.SinceReset(cfg, states, |steps|, Bank0, 0).acts > cfg.moatAth
  {
    cfg, sel := OneBankMoat(SoftClosePage), (_: BankId) => 0;
    OneBankMoatSetup(SoftClosePage);
    states, steps := TwoActivations(cfg, sel);
  }

  lemma TwoActivations(cfg: Config, sel: BankId -> nat) returns (states: seq<Controller>, steps: seq<Step>)
    requires Setup(cfg) && cfg.rowBufPolicy == SoftClosePage
    ensures Run(cfg, sel, states, steps) && AB.SinceReset(cfg, states, |steps|, Bank0, 0).acts == 2
  {
    CalmAtPowerUp(cfg, sel);
    states, steps := [InitController(cfg, sel)], [];
    var n;
    states, steps, n := OneMore(cfg, sel, states, steps, 0, AB.Since(0, 0));
    states, steps, n := OneMore(cfg, sel, states, steps, 1, n);
  }

  /** One more activation of the row, the last step of which closes it uncounted. */
  lemma OneMore(cfg: Config, sel: BankId -> nat, states: seq<Controller>, steps: seq<Step>, n: nat, since: AB.Since)
    returns (states': seq<Controller>, steps': seq<Step>, since': AB.Since)
    requires Setup(cfg) && cfg.rowBufPolicy == SoftClosePage && n < 4 && Run(cfg, sel, states, steps)
    requires Calm(cfg, states[|steps|], n) && AB.SinceReset(cfg, states, |steps|, Bank0, 0) == since
    ensures Run(cfg, sel, states', steps') && Calm(cfg, states'[|steps'|], n + 1)
    ensures AB.SinceReset(cfg, states', |steps'|, Bank0, 0) == since' && since'.acts == since.acts + 1
  {
    var s := states[|steps|];
    var s1, s2, s3, s4 := Served(cfg, s, n);
    states', steps' := Extended(cfg, sel, states, steps, Arrive(0, false), s1);
    states', steps' := Extended(cfg, sel, states', steps', Clock(Idle), s2);
    states', steps' := Extended(cfg, sel, states', steps', Clock(Idle), s3);
    states', steps' := Extended(cfg, sel, states', steps', Clock(Idle), s4);
    since' := CountsOne(cfg, s, s1, s2, s3, s4, since);
  }

  lemma Extended(cfg: Config, sel: BankId -> nat, states: seq<Controller>, steps: seq<Step>, step: Step, s': Controller)
    returns (states': seq<Controller>, steps': seq<Step>)
    requires cfg.Valid() && Run(cfg, sel, states, steps) && StepsTo(cfg, states[|steps|], step, s')
    ensures Run(cfg, sel, states', steps') && states'[|steps'|] == s'
    ensures AB.SinceReset(cfg, states', |steps'|, Bank0, 0)
         == AB.StepSince(cfg, states[|steps|], s', Bank0, 0, AB.SinceReset(cfg, states, |steps|, Bank0, 0))
  {
    states', steps' := Longer(cfg, sel, states, steps, step, s');
    SamePrefix(cfg, states, states', |steps|);
  }

  lemma {:induction false} SamePrefix(cfg: Config, states: seq<Controller>, longer: seq<Controller>, i: nat)
    requires states <= longer && i < |states|
    ensures AB.SinceReset(cfg, longer, i, Bank0, 0) == AB.SinceReset(cfg, states, i, Bank0, 0)
  {
    if i > 0 { SamePrefix(cfg, states, longer, i - 1); }
  }

  lemma CountsOne(cfg: Config, s: Controller, s1: Controller, s2: Controller, s3: Controller, s4: Controller,
                  since: AB.Since) returns (since': AB.Since)
    requires Setup(cfg) && cfg.rowBufPolicy == SoftClosePage
    requires s1.log == s.log && s2.log == s.log && Bank0 in s2.ch.banks && Bank0 in s3.ch.banks
    requires s3.log == s.log + [Event(s2.clk, Act0)] && s4.log == s3.log + [Event(s3.clk, LoneRead(cfg))]
    requires s2.ch.banks[Bank0].Valid(cfg) && s3.ch.banks[Bank0].Valid(cfg)
    ensures since' == AB.StepSince(cfg, s3, s4, Bank0, 0, AB.StepSince(cfg, s2, s3, Bank0, 0,
      AB.StepSince(cfg, s1, s2, Bank0, 0, AB.StepSince(cfg, s, s1, Bank0, 0, since))))
    ensures since'.acts == since.acts + 1
  {
    var n2 := AB.StepSince(cfg, s1, s2, Bank0, 0, AB.StepSince(cfg, s, s1, Bank0, 0, since));
    assert n2 == since;
    var n3 := AB.StepSince(cfg, s2, s3, Bank0, 0, n2);
    assert Added(s2, s3) == Some(Act0) && n3.acts == since.acts + 1;
    since' := AB.StepSince(cfg, s3, s4, Bank0, 0, n3);
    assert Added(s3, s4) == Some(LoneRead(cfg)) && since'.acts == n3.acts;
  }

  // ----- A reachable livelock -----

  const BankRefreshDue := TickInput([Command(RefreshBank, Addr0, -1)], false, 0)

  /** A run after which a bank refresh that falls due stops the channel for good. */
  lemma LivelockReached() returns (cfg: Config, sel: BankId -> nat, states: seq<Controller>, steps: seq<Step>)
    ensures MoatConfig(cfg) && cfg.impl == Moat && Run(cfg, sel, states, steps) && InputOk(cfg, BankRefreshDue)
    ensures LL.Stuck(cfg, Due(states[|steps|], BankRefreshDue))
  {
    cfg, sel := OneBankMoat(ClosePage), (_: BankId) => 0;
    OneBankMoatSetup(ClosePage);
    states, steps := StuckRun(cfg, sel);
  }

  lemma StuckRun(cfg: Config, sel: BankId -> nat) returns (states: seq<Controller>, steps: seq<Step>)
    requires Setup(cfg) && cfg.rowBufPolicy == ClosePage
    ensures Run(cfg, sel, states, steps) && InputOk(cfg, BankRefreshDue)
    ensures LL.Stuck(cfg, Due(states[|steps|], BankRefreshDue))
  {
    CalmAtPowerUp(cfg, sel);
    var s1, s2, s3, s4 := Served(cfg, InitController(cfg, sel), 0);
    states, steps := [InitController(cfg, sel)], [];
    states, steps := Extended(cfg, sel, states, steps, Arrive(0, false), s1);
    states, steps := Extended(cfg, sel, states, steps, Clock(Idle), s2);
    states, steps := Extended(cfg, sel, states, steps, Clock(Idle), s3);
    states, steps := Extended(cfg, sel, states, steps, Clock(Idle), s4);
    BecomesStuck(cfg, s4);
  }

  lemma BecomesStuck(cfg: Config, s: Controller)
    requires Setup(cfg) && s.ch.refreshQ == [] && s.ch.alert && s.ch.lastAlertClk < s.clk
    ensures InputOk(cfg, BankRefreshDue) && LL.Stuck(cfg, Due(s, BankRefreshDue))
  {
    assert Due(s, BankRefreshDue).ch.refreshQ == BankRefreshDue.due;
  }
}
