/** A bank refresh behind an alert: the alert blocks every command to a single bank, the bank refresh among them, and
    the RFM that would lower the alert waits behind the refresh, so nothing is issued any more
    (DRAMsim3/src/channel_state.cc:258-268, DRAMsim3/src/controller.cc:69-79). */
module Livelock {
  import opened Commands
  import opened Configuration
  import opened BankStates
  import opened ChannelStates
  import opened CommandQueues
  import opened FrFcfs
  import opened Controllers
  import opened TickCore
  import opened ControllerRuns
  import opened Theorems

  /** A REFRESH_BANK is the oldest pending refresh, and the alert is up past its grace period. */
  predicate Stuck(cfg: Config, s: Controller) {
    s.ch.refreshQ != [] && s.ch.refreshQ[0].ty == RefreshBank && AlertBlocks(cfg, s.ch, s.clk)
  }

  /** From here on no command is issued: a tick finds nothing to issue, or throws. */
  predicate Dead(cfg: Config, s: Controller) { Stuck(cfg, s) || !Servable(cfg, s.ch) }

  // ----- Nothing is issued -----

  lemma AlertSilences(cfg: Config, ch: Channel, c: Command, clk: nat, coin: bool)
    requires ch.Valid(cfg) && Addressable(cfg, c) && (c.ty.IsReadWrite() || c.ty == RefreshBank)
    requires AlertBlocks(cfg, ch, clk)
    ensures GetReady(cfg, ch, c, clk, coin) == NotReady
  {
    BankReadyLegal(cfg, ch.banks[c.Id()], c, clk, coin);
  }

  lemma QueuesSilent(cfg: Config, ch: Channel, cq: CmdQueue, clk: nat, coin: bool)
    requires cfg.Valid() && ch.Valid(cfg) && cq.Usable(cfg) && AlertBlocks(cfg, ch, clk)
    ensures CommandToIssue(cfg, ch, cq, |cq.queues|, clk, coin).ready == NotReady
  {
    forall k | 0 <= k < |cq.queues| ensures k in Barren(cfg, ch, cq, clk, coin) {
      var q := cq.queues[k];
      var rs := Answers(cfg, ch, q, clk, coin);
      forall j | 0 <= j < |q| ensures !Gives(ch.banks, q, rs, j) { AlertSilences(cfg, ch, q[j], clk, coin); }
      assert NothingIn(cfg, ch, q, clk, coin);
    }
    NothingLeftBehind(cfg, ch, cq, clk, coin);
  }

  lemma SelectSilent(cfg: Config, s: Controller, coin: bool)
    requires cfg.Valid() && CoreInv(cfg, s) && Stuck(cfg, s)
    ensures Select(cfg, s, coin).ready == NotReady
  {
    var ref := s.ch.refreshQ[0];
    assert ref in s.ch.refreshQ;
    AlertSilences(cfg, s.ch, ref, s.clk, coin);
    FirstStageSound(cfg, s, coin);
    var first := FirstStage(cfg, s, coin);
    var ch1 := s.ch.(rfmQ := first.rfmQ);
    WithRfmValid(cfg, s.ch, first.rfmQ);
    QueuesSilent(cfg, ch1, first.cq, s.clk, coin);
  }

  lemma StepSilent(cfg: Config, s: Controller, step: Step, s': Controller)
    requires cfg.Valid() && Inv(cfg, s) && StepsTo(cfg, s, step, s') && Dead(cfg, Opened(s, step))
    ensures s'.log == s.log && Dead(cfg, s')
  {
    match step
    case Arrive(a, w) => AddKeepsRest(cfg, s, a, w);
    case Clock(e) =>
      var p, k, j := TickTaken(cfg, s, e, s');
      SelectSilent(cfg, Due(s, e), e.coin);
    case Return =>
  }

  /** A step from a dead state issues nothing and leads to a dead state. */
  ghost predicate DeadLink(cfg: Config, s: Controller, step: Step, s': Controller) {
    Dead(cfg, Opened(s, step)) ==> s'.log == s.log && Dead(cfg, s')
  }

  lemma {:induction false} DeadChain(cfg: Config, states: seq<Controller>, steps: seq<Step>, i: nat, j: nat)
    requires i < j <= |steps| < |states| && Dead(cfg, Opened(states[i], steps[i]))
    requires forall m :: i <= m < j ==> DeadLink(cfg, states[m], steps[m], states[m + 1])
    ensures states[j].log == states[i].log && Dead(cfg, states[j])
    decreases j
  {
    var m := j - 1;
    if i < m { DeadChain(cfg, states, steps, i, m); }
    assert DeadLink(cfg, states[m], steps[m], states[m + 1]);
  }

  lemma RunLink(cfg: Config, sel: BankId -> nat, states: seq<Controller>, steps: seq<Step>, m: nat)
    requires cfg.Valid() && Run(cfg, sel, states, steps) && m < |steps|
    ensures DeadLink(cfg, states[m], steps[m], states[m + 1])
  {
    RunInv(cfg, sel, states, steps, m);
    if Dead(cfg, Opened(states[m], steps[m])) { StepSilent(cfg, states[m], steps[m], states[m + 1]); }
  }

  /** Once a tick finds a bank refresh first in line behind the alert, no later state of the run has a longer log. */
  lemma NothingIssuedAfter(cfg: Config, sel: BankId -> nat, states: seq<Controller>, steps: seq<Step>, i: nat, j: nat)
    requires cfg.Valid() && Run(cfg, sel, states, steps) && i < j < |states|
    requires Dead(cfg, Opened(states[i], steps[i]))
    ensures states[j].log == states[i].log && Dead(cfg, states[j])
  {
    forall m | i <= m < j ensures DeadLink(cfg, states[m], steps[m], states[m + 1]) {
      RunLink(cfg, sel, states, steps, m);
    }
    DeadChain(cfg, states, steps, i, j);
  }

  // ----- Otherwise something can be issued -----

  /** What can follow a state. */
  ghost predicate Continues(cfg: Config, s: Controller, states: seq<Controller>, steps: seq<Step>)
    requires cfg.Valid()
  {
    && |states| == |steps| + 1 && states[0] == s
    && forall i :: 0 <= i < |steps| ==> StepsTo(cfg, states[i], steps[i], states[i + 1])
  }

  /** Whatever follows, no command is issued any more. */
  ghost predicate Silent(cfg: Config, s: Controller)
    requires cfg.Valid()
  {
    forall states: seq<Controller>, steps: seq<Step> ::
      Continues(cfg, s, states, steps) ==> states[|steps|].log == s.log
  }

  ghost predicate InvLink(cfg: Config, s: Controller, s': Controller)
    requires cfg.Valid()
  {
    Inv(cfg, s) ==> Inv(cfg, s')
  }

  lemma StepInv(cfg: Config, s: Controller, step: Step, s': Controller)
    requires cfg.Valid() && StepsTo(cfg, s, step, s')
    ensures InvLink(cfg, s, s')
  {
    if Inv(cfg, s) { StepKeeps(cfg, s, step, s'); }
  }

  lemma {:induction false} InvChain(cfg: Config, states: seq<Controller>, i: nat)
    requires cfg.Valid() && i < |states| && Inv(cfg, states[0])
    requires forall m :: 0 <= m < i ==> InvLink(cfg, states[m], states[m + 1])
    ensures Inv(cfg, states[i])
  {
    if i > 0 {
      InvChain(cfg, states, i - 1);
      assert InvLink(cfg, states[i - 1], states[i - 1 + 1]);
    }
  }

  lemma ContinuesInv(cfg: Config, s: Controller, states: seq<Controller>, steps: seq<Step>, i: nat)
    requires cfg.Valid() && Inv(cfg, s) && Continues(cfg, s, states, steps) && i < |states|
    ensures Inv(cfg, states[i])
  {
    forall m | 0 <= m < i ensures InvLink(cfg, states[m], states[m + 1]) {
      StepInv(cfg, states[m], steps[m], states[m + 1]);
    }
    InvChain(cfg, states, i);
  }

  lemma ContinuesLink(cfg: Config, s: Controller, states: seq<Controller>, steps: seq<Step>, m: nat)
    requires cfg.Valid() && Inv(cfg, s) && Continues(cfg, s, states, steps) && m < |steps|
    ensures DeadLink(cfg, states[m], steps[m], states[m + 1])
  {
    ContinuesInv(cfg, s, states, steps, m);
    if Dead(cfg, Opened(states[m], steps[m])) { StepSilent(cfg, states[m], steps[m], states[m + 1]); }
  }

  lemma DeadIsSilent(cfg: Config, s: Controller)
    requires cfg.Valid() && Inv(cfg, s) && Dead(cfg, s)
    ensures Silent(cfg, s)
  {
    forall states: seq<Controller>, steps: seq<Step> | Continues(cfg, s, states, steps)
      ensures states[|steps|].log == s.log
    {
      if steps != [] {
        forall m | 0 <= m < |steps| ensures DeadLink(cfg, states[m], steps[m], states[m + 1]) {
          ContinuesLink(cfg, s, states, steps, m);
        }
        DeadChain(cfg, states, steps, 0, |steps|);
      }
    }
  }

  /** A cycle from which on nothing is too early for any bank. */
  predicate Late(banks: map<BankId, Bank>, clk: nat) { forall id <- banks, ty :: banks[id].EarliestStart(ty) <= clk }

  lemma {:induction false} TimingBound(timing: map<CommandType, nat>) returns (t: nat)
    ensures forall ty <- timing :: timing[ty] <= t
    decreases |timing|
  {
    t := 0;
    if timing != map[] {
      var ty :| ty in timing;
      var rest := timing - {ty};
      assert |rest| < |timing| by { assert rest.Keys == timing.Keys - {ty}; }
      t := TimingBound(rest);
      forall u <- timing | u != ty ensures timing[u] <= t { assert u in rest; }
      t := Max(t, timing[ty]);
    }
  }

  lemma {:induction false} LateBound(banks: map<BankId, Bank>) returns (t: nat)
    ensures Late(banks, t)
    decreases |banks|
  {
    t := 0;
    if banks != map[] {
      var id :| id in banks;
      var rest := banks - {id};
      assert |rest| < |banks| by { assert rest.Keys == banks.Keys - {id}; }
      var t0 := LateBound(rest);
      var t1 := TimingBound(banks[id].timing);
      t := Max(t0, t1);
      forall i <- banks, ty ensures banks[i].EarliestStart(ty) <= t {
        if i != id { assert i in rest && rest[i] == banks[i]; }
      }
    }
  }

  lemma BankGives(cfg: Config, b: Bank, c: Command, clk: nat, coin: bool)
    requires b.Valid(cfg) && ChannelStates.Request(c) && forall ty :: b.EarliestStart(ty) <= clk
    ensures BankReady(cfg, b, c, clk, coin).Issue?
  {}

  lemma {:induction false} RankGives(cfg: Config, ch: Channel, c: Command, clk: nat, coin: bool, j: nat, k: nat, n: nat)
    requires ch.Valid(cfg) && cfg.HasRank(c.addr.rank) && (c.ty == RefAb || c.ty == RfmAb) && Late(ch.banks, clk)
    requires j <= cfg.sizes.bankgroups && k <= cfg.sizes.banksPerGroup && (j == cfg.sizes.bankgroups ==> k == 0)
    requires n == j * cfg.sizes.banksPerGroup + k
    ensures ScanRank(cfg, ch.banks, c, clk, coin, j, k, n).Issue?
    decreases cfg.sizes.bankgroups - j, cfg.sizes.banksPerGroup - k
  {
    if j < cfg.sizes.bankgroups {
      if k == cfg.sizes.banksPerGroup {
        assert (j + 1) * k == j * k + k;
        RankGives(cfg, ch, c, clk, coin, j + 1, 0, n);
      } else {
        BankGives(cfg, ch.banks[BankId(c.addr.rank, j, k)], c, clk, coin);
        RankGives(cfg, ch, c, clk, coin, j, k + 1, n + 1);
      }
    }
  }

  lemma {:induction false} BanksetGives(cfg: Config, ch: Channel, c: Command, clk: nat, coin: bool, j: nat)
    requires ch.Valid(cfg) && Addressable(cfg, c) && c.ty.IsSbCmd() && Late(ch.banks, clk) && j <= cfg.sizes.bankgroups
    ensures ScanBankset(cfg, ch.banks, c, clk, coin, j, j).Issue?
    decreases cfg.sizes.bankgroups - j
  {
    if j < cfg.sizes.bankgroups {
      BankGives(cfg, ch.banks[BankId(c.addr.rank, j, c.addr.bank)], c, clk, coin);
      BanksetGives(cfg, ch, c, clk, coin, j + 1);
    }
  }

  /** Late enough, asking for a refresh gives a command, unless it is a bank refresh behind the alert. */
  lemma RefreshGives(cfg: Config, ch: Channel, c: Command, clk: nat, coin: bool)
    requires ch.Valid(cfg) && Addressable(cfg, c) && c.ty.IsRefresh() && Late(ch.banks, clk)
    requires c.ty == RefreshBank ==> !AlertBlocks(cfg, ch, clk)
    ensures GetReady(cfg, ch, c, clk, coin).Issue?
  {
    if c.ty == RefAb {
      RankGives(cfg, ch, c, clk, coin, 0, 0, 0);
    } else if c.ty == RefSb {
      BanksetGives(cfg, ch, c, clk, coin, 0);
    } else {
      BankGives(cfg, ch.banks[c.Id()], c, clk, coin);
      BankReadyLegal(cfg, ch.banks[c.Id()], c, clk, coin);
    }
  }

  /** A refresh that can be served, and no alert in the way of a bank refresh. */
  predicate Hopeful(cfg: Config, ch: Channel) {
    ch.refreshQ != [] && Servable(cfg, ch) && (ch.refreshQ[0].ty == RefreshBank ==> !ch.alert)
  }

  lemma SelectGives(cfg: Config, s: Controller, coin: bool)
    requires cfg.Valid() && CoreInv(cfg, s) && Hopeful(cfg, s.ch) && Late(s.ch.banks, s.clk)
    ensures Select(cfg, s, coin).ready.Issue?
  {
    var ref := s.ch.refreshQ[0];
    assert ref in s.ch.refreshQ;
    RefreshGives(cfg, s.ch, ref, s.clk, coin);
  }

  /** An idle tick issues something, or leaves everything the wait depends on as it was. */
  lemma WaitTick(cfg: Config, s: Controller, t: nat) returns (s': Controller)
    requires cfg.Valid() && Inv(cfg, s) && Hopeful(cfg, s.ch) && Late(s.ch.banks, t)
    ensures StepsTo(cfg, s, Clock(Idle), s') && Inv(cfg, s') && s'.clk == s.clk + 1
    ensures s'.log == s.log ==> s.clk < t && Hopeful(cfg, s'.ch) && Late(s'.ch.banks, t)
  {
    assert Due(s, Idle) == s by { assert s.ch.refreshQ + [] == s.ch.refreshQ; }
    var p, k, j;
    s', p, k, j := TickKeeps(cfg, s, Idle);
    if s.clk >= t { SelectGives(cfg, s, false); }
    ChannelWaits(cfg, s, p, s', t);
  }

  lemma ChannelWaits(cfg: Config, s: Controller, p: Pick, s': Controller, t: nat)
    requires cfg.Valid() && ChannelStep(cfg, s, p, 0, s'.ch, s'.log) && Hopeful(cfg, s.ch) && Late(s.ch.banks, t)
    ensures p.ready.Issue? ==> s'.log != s.log
    ensures s'.log == s.log ==> Hopeful(cfg, s'.ch) && Late(s'.ch.banks, t)
  {}

  lemma OneStep(cfg: Config, s: Controller, step: Step, s': Controller, states: seq<Controller>, steps: seq<Step>)
    returns (more: seq<Controller>, all: seq<Step>)
    requires cfg.Valid() && StepsTo(cfg, s, step, s') && Continues(cfg, s', states, steps)
    ensures Continues(cfg, s, more, all) && more[|all|] == states[|steps|]
  {
    more, all := [s] + states, [step] + steps;
    forall i | 0 <= i < |all| ensures StepsTo(cfg, more[i], all[i], more[i + 1]) {
      if i > 0 { assert StepsTo(cfg, states[i - 1], steps[i - 1], states[i - 1 + 1]); }
    }
  }

  /** Idle ticks lead to one that issues something. */
  lemma {:induction false} IdleUntil(cfg: Config, s: Controller, t: nat)
    returns (states: seq<Controller>, steps: seq<Step>)
    requires cfg.Valid() && Inv(cfg, s) && Hopeful(cfg, s.ch) && Late(s.ch.banks, t)
    ensures Continues(cfg, s, states, steps) && states[|steps|].log != s.log
    decreases if s.clk < t then t - s.clk else 0
  {
    var s' := WaitTick(cfg, s, t);
    states, steps := [s'], [];
    if s'.log == s.log { states, steps := IdleUntil(cfg, s', t); }
    states, steps := OneStep(cfg, s, Clock(Idle), s', states, steps);
  }

  /** A tick in which a REFab falls due while no refresh is pending issues something, or leaves the REFab to wait
      for. */
  lemma DueTick(cfg: Config, s: Controller) returns (s': Controller)
    requires cfg.Valid() && Inv(cfg, s) && s.ch.refreshQ == []
    ensures StepsTo(cfg, s, Clock(RefreshDue), s') && Inv(cfg, s') && (s'.log == s.log ==> Hopeful(cfg, s'.ch))
  {
    RefreshIsDue(cfg, s);
    var t := LateBound(Due(s, RefreshDue).ch.banks);
    var p;
    s', p := TickIs(cfg, s, RefreshDue);
    ChannelWaits(cfg, Due(s, RefreshDue), p, s', t);
  }

  lemma RefreshIsDue(cfg: Config, s: Controller)
    requires cfg.Valid() && s.ch.refreshQ == []
    ensures InputOk(cfg, RefreshDue) && Hopeful(cfg, Due(s, RefreshDue).ch)
  {
    assert Due(s, RefreshDue).ch.refreshQ == [RankCmd(RefAb, 0)];
  }

  lemma TickIs(cfg: Config, s: Controller, e: TickInput) returns (s': Controller, p: Pick)
    requires cfg.Valid() && Inv(cfg, s) && InputOk(cfg, e) && Hopeful(cfg, Due(s, e).ch)
    ensures StepsTo(cfg, s, Clock(e), s') && Inv(cfg, s') && ChannelStep(cfg, Due(s, e), p, e.rnd, s'.ch, s'.log)
  {
    var k, j;
    s', p, k, j := TickKeeps(cfg, s, e);
  }

  lemma SomethingFollows(cfg: Config, s: Controller) returns (states: seq<Controller>, steps: seq<Step>)
    requires cfg.Valid() && Inv(cfg, s) && (s.ch.refreshQ == [] || Hopeful(cfg, s.ch))
    ensures Continues(cfg, s, states, steps) && states[|steps|].log != s.log
  {
    if s.ch.refreshQ != [] {
      var t := LateBound(s.ch.banks);
      states, steps := IdleUntil(cfg, s, t);
    } else {
      var s' := DueTick(cfg, s);
      states, steps := [s'], [];
      if s'.log == s.log {
        var t := LateBound(s'.ch.banks);
        states, steps := IdleUntil(cfg, s', t);
      }
      states, steps := OneStep(cfg, s, Clock(RefreshDue), s', states, steps);
    }
  }

  /** A bank refresh is first in line, and the grace period of the alert is running. */
  predicate InGrace(cfg: Config, s: Controller) {
    s.ch.refreshQ != [] && s.ch.refreshQ[0].ty == RefreshBank && s.ch.alert && !AlertBlocks(cfg, s.ch, s.clk)
  }

  /** The livelock exactly: in every reachable state outside such a grace period, no command can ever be issued again if
      and only if a bank refresh is first in line behind the alert, or the next tick throws. */
  lemma SilentIff(cfg: Config, sel: BankId -> nat, states: seq<Controller>, steps: seq<Step>, i: nat)
    requires cfg.Valid() && Run(cfg, sel, states, steps) && i < |states| && !InGrace(cfg, states[i])
    ensures Silent(cfg, states[i]) <==> Dead(cfg, states[i])
  {
    RunInv(cfg, sel, states, steps, i);
    if Dead(cfg, states[i]) {
      DeadIsSilent(cfg, states[i]);
    } else {
      var more, all := SomethingFollows(cfg, states[i]);
    }
  }

  /** The alert was raised before the current cycle. */
  predicate AlertPast(ch: Channel, clk: nat) { ch.alert ==> ch.lastAlertClk < clk }

  lemma IssueKeepsPast(cfg: Config, ch: Channel, c: Command, clk: nat, rnd: nat)
    requires cfg.Valid() && ch.Valid(cfg) && Issuable(cfg, ch, c, clk) && AlertPast(ch, clk)
    ensures Issued(cfg, ch, c, clk, rnd).Some? ==> AlertPast(Issued(cfg, ch, c, clk, rnd).value, clk + 1)
  {}

  lemma StepKeepsPast(cfg: Config, s: Controller, step: Step, s': Controller)
    requires cfg.Valid() && Inv(cfg, s) && StepsTo(cfg, s, step, s') && AlertPast(s.ch, s.clk)
    ensures AlertPast(s'.ch, s'.clk)
  {
    match step
    case Arrive(a, w) => AddKeepsRest(cfg, s, a, w);
    case Clock(e) =>
      var p, k, j := TickTaken(cfg, s, e, s');
      if p.ready.Issue? { IssueKeepsPast(cfg, Due(s, e).ch.(rfmQ := p.rfmQ), p.ready.cmd, s.clk, e.rnd); }
    case Return =>
  }

  lemma {:induction false} RunPast(cfg: Config, sel: BankId -> nat, states: seq<Controller>, steps: seq<Step>, i: nat)
    requires cfg.Valid() && Run(cfg, sel, states, steps) && i < |states|
    ensures AlertPast(states[i].ch, states[i].clk)
  {
    if i > 0 {
      RunPast(cfg, sel, states, steps, i - 1);
      RunInv(cfg, sel, states, steps, i - 1);
      StepKeepsPast(cfg, states[i - 1], steps[i - 1], states[i]);
    }
  }

  /** With the shipped tABO of 0 there is no grace period: no command can ever be issued again exactly if a bank refresh
      is first in line while the alert is up, or the next tick throws. */
  lemma SilentIffAlert(cfg: Config, sel: BankId -> nat, states: seq<Controller>, steps: seq<Step>, i: nat)
    requires cfg.Valid() && cfg.tABO == 0 && Run(cfg, sel, states, steps) && i < |states|
    ensures var ch := states[i].ch;
      Silent(cfg, states[i]) <==>
        (ch.refreshQ != [] && ch.refreshQ[0].ty == RefreshBank && ch.alert) || !Servable(cfg, ch)
  {
    RunPast(cfg, sel, states, steps, i);
    SilentIff(cfg, sel, states, steps, i);
  }
}
