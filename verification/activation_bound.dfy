/** MOAT over the history: how often a row is activated between two resets of its counter
    (DRAMsim3/src/bankstate.cc, DRAMsim3/src/controller.cc:290-340). */
module ActivationBound {
  import opened Commands
  import opened Configuration
  import opened BankStates
  import opened ChannelStates
  import opened ChannelRuns
  import opened CommandQueues
  import opened Controllers
  import opened TickCore
  import opened ControllerRuns
  import opened MoatBound
  import opened Theorems
  import opened DrainAssertions

  /** A command resets the row's counter: a refresh that covers it, the mitigation of every fifth refresh, or an RFM. */
  predicate Resets(cfg: Config, b: Bank, c: Command, r: nat)
    requires b.refIdx < |b.prac| && r < |b.prac|
  {
    || (c.ty.IsRefresh() && (InRefreshWindow(cfg, b, r) || (b.moatRefs == 4 && b.moatValid && b.moatRow == r)))
    || (c.ty.IsRfm() && b.moatValid && b.moatRow == r)
  }

  /** The forms that close a row without counting it. */
  predicate ClosesUncounted(ty: CommandType) { ty == ReadPrecharge || ty == WritePrecharge || ty == Precharge }

  /** Activations of a row, and closings of it that were not counted, since its last reset. */
  datatype Since = Since(acts: nat, uncounted: nat)

  function NextSince(cfg: Config, b: Bank, c: Command, r: nat, n: Since): Since
    requires b.refIdx < |b.prac| && r < |b.prac|
  {
    if Resets(cfg, b, c, r) then Since(0, 0)
    else Since(n.acts + if c.ty == Activate && c.addr.row == r then 1 else 0,
               n.uncounted + if ClosesUncounted(c.ty) && b.openRow == r then 1 else 0)
  }

  /** Every activation since the reset is in the counter, was closed uncounted, or is the one that is still open. */
  ghost predicate Balanced(cfg: Config, b: Bank, r: nat, n: Since)
    requires r < |b.prac|
  {
    n.acts == b.prac[r] + n.uncounted + if b.openRow == r then 1 else 0
  }

  /** MOAT with a threshold that fits the 16-bit counters. */
  ghost predicate Counts(cfg: Config) { MoatConfig(cfg) && cfg.moatAth <= 65535 }

  lemma CloseBalance(cfg: Config, b: Bank, c: Command, r: nat, n: Since)
    requires Counts(cfg) && b.Valid(cfg) && MoatOk(cfg, b) && b.state == Open && cfg.HasRow(r) && Balanced(cfg, b, r, n)
    requires c.ty.IsPrecharge() || (c.ty.IsReadWrite() && c.ty != Read && c.ty != Write)
    ensures Balanced(cfg, ClosedBy(cfg, b, c.ty), r, NextSince(cfg, b, c, r, n))
  {
    assert b.prac[b.openRow] < cfg.moatAth;
    assert !Resets(cfg, b, c, r);
  }

  lemma RefreshBalance(cfg: Config, b: Bank, c: Command, r: nat, n: Since)
    requires Counts(cfg) && b.Valid(cfg) && b.state == Closed && cfg.HasRow(r) && Balanced(cfg, b, r, n)
    requires c.ty.IsRefresh()
    ensures Balanced(cfg, Refreshed(cfg, b), r, NextSince(cfg, b, c, r, n))
  {
    var b1 := RefreshedCounters(cfg, b);
    assert b1.prac[r] == if InRefreshWindow(cfg, b, r) then 0 else b.prac[r];
    assert Refreshed(cfg, b).prac[r] == if Resets(cfg, b, c, r) then 0 else b.prac[r];
  }

  lemma RfmBalance(cfg: Config, b: Bank, c: Command, r: nat, n: Since)
    requires Counts(cfg) && b.Valid(cfg) && b.state == Closed && cfg.HasRow(r) && Balanced(cfg, b, r, n)
    requires c.ty.IsRfm()
    ensures Balanced(cfg, Managed(cfg, b), r, NextSince(cfg, b, c, r, n))
  {
    assert Managed(cfg, b).prac[r] == if Resets(cfg, b, c, r) then 0 else b.prac[r];
  }

  /** Every legal command keeps the balance of every row. */
  lemma BankBalance(cfg: Config, b: Bank, c: Command, rnd: nat, r: nat, n: Since)
    requires Counts(cfg) && b.Valid(cfg) && MoatOk(cfg, b) && cfg.HasRow(r) && Balanced(cfg, b, r, n)
    requires b.Legal(c.ty) && c.ty != SrefEnter && (c.ty == Activate ==> cfg.HasRow(c.addr.row))
    ensures var b' := UpdateState(cfg, b, c, rnd);
      b'.Some? && b'.value.Valid(cfg) && Balanced(cfg, b'.value, r, NextSince(cfg, b, c, r, n))
  {
    if b.state == Open {
      if c.ty != Read && c.ty != Write { CloseBalance(cfg, b, c, r, n); }
    } else if c.ty.IsRefresh() {
      RefreshBalance(cfg, b, c, r, n);
    } else if c.ty.IsRfm() {
      RfmBalance(cfg, b, c, r, n);
    }
  }

  // ----- Along a run -----

  /** The counts after a step, from the command it adds to the log. */
  function StepSince(cfg: Config, s: Controller, s': Controller, id: BankId, r: nat, n: Since): Since {
    var c := Added(s, s');
    if c.Some? && c.value.Touches(id) && id in s.ch.banks &&
       s.ch.banks[id].refIdx < |s.ch.banks[id].prac| && r < |s.ch.banks[id].prac|
    then NextSince(cfg, s.ch.banks[id], c.value, r, n)
    else n
  }

  /** Activations of a row in the first i steps after its last reset, and those closed uncounted. */
  ghost function SinceReset(cfg: Config, states: seq<Controller>, i: nat, id: BankId, r: nat): Since
    requires i < |states|
  {
    if i == 0 then Since(0, 0)
    else StepSince(cfg, states[i - 1], states[i], id, r, SinceReset(cfg, states, i - 1, id, r))
  }

  lemma IssueBalance(cfg: Config, ch: Channel, c: Command, clk: nat, rnd: nat, ch': Channel, id: BankId, r: nat,
                     n: Since)
    requires Counts(cfg) && ch.Valid(cfg) && Issuable(cfg, ch, c, clk) && Issued(cfg, ch, c, clk, rnd) == Some(ch')
    requires cfg.HasBank(id) && cfg.HasRow(r) && MoatOk(cfg, ch.banks[id]) && Balanced(cfg, ch.banks[id], r, n)
    ensures id in ch'.banks && r < |ch'.banks[id].prac|
    ensures Balanced(cfg, ch'.banks[id], r, if c.Touches(id) then NextSince(cfg, ch.banks[id], c, r, n) else n)
  {
    IssuedBank(cfg, ch, c, clk, rnd, id);
    if c.Touches(id) { BankBalance(cfg, ch.banks[id], c, rnd, r, n); }
  }

  /** A step keeps the balance of a row. */
  ghost predicate BalanceLink(cfg: Config, s: Controller, s': Controller, id: BankId, r: nat) {
    forall n :: BalancedAt(cfg, s, id, r, n) ==> BalancedAt(cfg, s', id, r, StepSince(cfg, s, s', id, r, n))
  }

  ghost predicate BalancedAt(cfg: Config, s: Controller, id: BankId, r: nat, n: Since) {
    id in s.ch.banks && r < |s.ch.banks[id].prac| && Balanced(cfg, s.ch.banks[id], r, n)
  }

  lemma TickBalance(cfg: Config, s: Controller, e: TickInput, s': Controller, id: BankId, r: nat)
    requires Counts(cfg) && Inv(cfg, s) && InputOk(cfg, e) && Tick(cfg, s, e) == Some(s')
    requires cfg.HasBank(id) && cfg.HasRow(r)
    ensures BalanceLink(cfg, s, s', id, r)
  {
    var p, k, j := TickTaken(cfg, s, e, s');
    assert MoatOk(cfg, s.ch.banks[id]);
    ChannelBalance(cfg, Due(s, e), p, e.rnd, s', id, r);
    SameBanksLink(cfg, s, Due(s, e), s', id, r);
  }

  lemma SameBanksLink(cfg: Config, s: Controller, due: Controller, s': Controller, id: BankId, r: nat)
    requires due.ch.banks == s.ch.banks && due.log == s.log && BalanceLink(cfg, due, s', id, r)
    ensures BalanceLink(cfg, s, s', id, r)
  {
    forall n | BalancedAt(cfg, s, id, r, n)
      ensures BalancedAt(cfg, s', id, r, StepSince(cfg, s, s', id, r, n))
    {
      assert BalancedAt(cfg, due, id, r, n);
    }
  }

  lemma ChannelBalance(cfg: Config, s: Controller, p: Pick, rnd: nat, s': Controller, id: BankId, r: nat)
    requires Counts(cfg) && s.ch.Valid(cfg) && ChannelStep(cfg, s, p, rnd, s'.ch, s'.log)
    requires cfg.HasBank(id) && cfg.HasRow(r) && MoatOk(cfg, s.ch.banks[id])
    ensures BalanceLink(cfg, s, s', id, r)
  {
    if p.ready.Issue? {
      forall n | BalancedAt(cfg, s, id, r, n)
        ensures BalancedAt(cfg, s', id, r, StepSince(cfg, s, s', id, r, n))
      {
        IssuedBalance(cfg, s, s.ch.(rfmQ := p.rfmQ), p.ready.cmd, rnd, s', id, r, n);
      }
    } else {
      IdleLink(cfg, s, s', id, r);
    }
  }

  lemma IssuedBalance(cfg: Config, s: Controller, ch: Channel, c: Command, rnd: nat, s': Controller, id: BankId,
                      r: nat, n: Since)
    requires Counts(cfg) && ch.Valid(cfg) && Issuable(cfg, ch, c, s.clk) && ch.banks == s.ch.banks
    requires cfg.HasBank(id) && cfg.HasRow(r) && MoatOk(cfg, ch.banks[id]) && BalancedAt(cfg, s, id, r, n)
    requires Issued(cfg, ch, c, s.clk, rnd) == Some(s'.ch) && s'.log == s.log + [Event(s.clk, c)]
    ensures BalancedAt(cfg, s', id, r, StepSince(cfg, s, s', id, r, n))
  {
    assert Added(s, s') == Some(c);
    IssueBalance(cfg, ch, c, s.clk, rnd, s'.ch, id, r, n);
  }

  lemma IdleLink(cfg: Config, s: Controller, s': Controller, id: BankId, r: nat)
    requires s'.ch.banks == s.ch.banks && s'.log == s.log
    ensures BalanceLink(cfg, s, s', id, r)
  {}

  lemma StepBalance(cfg: Config, s: Controller, step: Step, s': Controller, id: BankId, r: nat)
    requires Counts(cfg) && Inv(cfg, s) && StepsTo(cfg, s, step, s') && cfg.HasBank(id) && cfg.HasRow(r)
    ensures BalanceLink(cfg, s, s', id, r)
  {
    if step.Clock? {
      TickBalance(cfg, s, step.input, s', id, r);
    } else {
      if step.Arrive? { AddKeepsRest(cfg, s, step.addr, step.isWrite); }
      IdleLink(cfg, s, s', id, r);
    }
  }

  lemma {:induction false} BalanceChain(cfg: Config, states: seq<Controller>, i: nat, id: BankId, r: nat)
    requires i < |states| && BalancedAt(cfg, states[0], id, r, Since(0, 0))
    requires forall m :: 0 <= m < i ==> BalanceLink(cfg, states[m], states[m + 1], id, r)
    ensures BalancedAt(cfg, states[i], id, r, SinceReset(cfg, states, i, id, r))
  {
    if i > 0 {
      BalanceChain(cfg, states, i - 1, id, r);
      assert BalanceLink(cfg, states[i - 1], states[i - 1 + 1], id, r);
    }
  }

  lemma InitBalance(cfg: Config, sel: BankId -> nat, id: BankId, r: nat)
    requires cfg.Valid() && cfg.HasBank(id) && cfg.HasRow(r)
    ensures BalancedAt(cfg, InitController(cfg, sel), id, r, Since(0, 0))
  {
    InitChannelValid(cfg, sel);
  }

  lemma RunBalance(cfg: Config, sel: BankId -> nat, states: seq<Controller>, steps: seq<Step>, i: nat, id: BankId,
                   r: nat)
    requires Counts(cfg) && Run(cfg, sel, states, steps) && i < |states| && cfg.HasBank(id) && cfg.HasRow(r)
    ensures BalancedAt(cfg, states[i], id, r, SinceReset(cfg, states, i, id, r))
  {
    InitBalance(cfg, sel, id, r);
    forall m | 0 <= m < i ensures BalanceLink(cfg, states[m], states[m + 1], id, r) {
      RunInv(cfg, sel, states, steps, m);
      StepBalance(cfg, states[m], steps[m], states[m + 1], id, r);
    }
    BalanceChain(cfg, states, i, id, r);
  }

  /** Whatever the row-buffer policy: between two resets a row is activated at most ATH times, plus once for every time
      it was closed uncounted; its counter is exactly the activations that were closed and counted. */
  lemma ActivationsCounted(cfg: Config, sel: BankId -> nat, states: seq<Controller>, steps: seq<Step>, i: nat,
                           id: BankId, r: nat)
    requires Counts(cfg) && Run(cfg, sel, states, steps) && i < |states| && cfg.HasBank(id) && cfg.HasRow(r)
    ensures states[i].ch.Valid(cfg)
    ensures var b, n := states[i].ch.banks[id], SinceReset(cfg, states, i, id, r);
      && n.acts == b.prac[r] + n.uncounted + (if b.openRow == r then 1 else 0)
      && n.acts <= cfg.moatAth + n.uncounted
  {
    RunInv(cfg, sel, states, steps, i);
    RunBalance(cfg, sel, states, steps, i, id, r);
    assert MoatOk(cfg, states[i].ch.banks[id]);
  }

  // ----- When every closing counts -----

  /** MOAT under OPEN_PAGE or CLOSE_PAGE: SOFT_CLOSE_PAGE and PAC's draws close rows uncounted. */
  predicate AlwaysCounts(cfg: Config) { cfg.impl == Moat && cfg.rowBufPolicy != SoftClosePage }

  predicate QueuesCount(qs: seq<seq<Command>>) {
    forall k, j :: 0 <= k < |qs| && 0 <= j < |qs[k]| ==> !ClosesUncounted(qs[k][j].ty)
  }

  lemma RequestCounts(cfg: Config, q: seq<Transaction>, i: nat)
    requires cfg.Valid() && i < |q| && AlwaysCounts(cfg)
    ensures !ClosesUncounted(TransToCommand(cfg, q, i).ty)
  {}

  lemma ScheduleCounts(cfg: Config, s: Controller)
    requires cfg.Valid() && AlwaysCounts(cfg) && QueuesCount(s.cq.queues)
    ensures QueuesCount(Schedule(cfg, s).cq.queues)
  {
    var s1 := s.(draining := StartDraining(cfg, s));
    var q := Served(cfg, s1);
    var i := FirstAccepted(cfg, s1.cq, q, 0);
    if i < |q| { RequestCounts(cfg, q, i); }
  }

  lemma SelectedCounts(cfg: Config, s: Controller, p: Pick, k: nat, j: nat)
    requires cfg.Valid() && AlwaysCounts(cfg) && s.ch.Valid(cfg) && s.cq.Valid(cfg) && Selected(cfg, s, p, k, j)
    requires QueuesCount(s.cq.queues)
    ensures QueuesCount(p.cq.queues)
    ensures p.ready.Issue? ==> !ClosesUncounted(p.ready.cmd.ty)
  {
    if p.ready.Issue? && p.ready.cmd.ty.IsReadWrite() { EraseCounts(s.cq.queues, k, p.ready.cmd); }
  }

  lemma EraseCounts(qs: seq<seq<Command>>, k: nat, c: Command)
    requires k < |qs| && QueuesCount(qs) && EraseFrom(qs[k], c).Some?
    ensures QueuesCount(qs[k := EraseFrom(qs[k], c).value])
  {
    EraseSubset(qs[k], c);
    var rest := EraseFrom(qs[k], c).value;
    forall j | 0 <= j < |rest| ensures !ClosesUncounted(rest[j].ty) {
      assert rest[j] in rest;
      var i :| 0 <= i < |qs[k]| && qs[k][i] == rest[j];
    }
  }

  lemma ActKeepsQueues(cfg: Config, s: Controller, p: Pick, rnd: nat, s2: Controller)
    requires cfg.Valid() && Act(cfg, s, p, rnd) == Some(s2)
    ensures s2.cq == p.cq
  {
    if p.ready.Issue? { IssueKeepsHolds(cfg, s.(cq := p.cq, ch := s.ch.(rfmQ := p.rfmQ)), p.ready.cmd, rnd, s2); }
  }

  /** A step keeps requests that count queued, and issues nothing that closes a row uncounted. */
  ghost predicate CountLink(s: Controller, s': Controller) {
    QueuesCount(s.cq.queues) ==>
      QueuesCount(s'.cq.queues) && (Added(s, s').Some? ==> !ClosesUncounted(Added(s, s').value.ty))
  }

  lemma TickCounts(cfg: Config, s: Controller, e: TickInput, s': Controller)
    requires cfg.Valid() && AlwaysCounts(cfg) && Inv(cfg, s) && InputOk(cfg, e) && Tick(cfg, s, e) == Some(s')
    ensures CountLink(s, s')
  {
    var p, k, j := TickTaken(cfg, s, e, s');
    if QueuesCount(s.cq.queues) {
      SelectedCounts(cfg, Due(s, e), p, k, j);
      var s2 := Act(cfg, Due(s, e), p, e.rnd).value;
      ActKeepsQueues(cfg, Due(s, e), p, e.rnd, s2);
      ScheduleCounts(cfg, s2);
    }
  }

  lemma StepCounts(cfg: Config, s: Controller, step: Step, s': Controller)
    requires cfg.Valid() && AlwaysCounts(cfg) && Inv(cfg, s) && StepsTo(cfg, s, step, s')
    ensures CountLink(s, s')
  {
    match step
    case Arrive(a, w) => AddKeepsRest(cfg, s, a, w);
    case Clock(e) => TickCounts(cfg, s, e, s');
    case Return =>
  }

  lemma {:induction false} CountChain(cfg: Config, states: seq<Controller>, i: nat, id: BankId, r: nat)
    requires i < |states| && QueuesCount(states[0].cq.queues)
    requires forall m :: 0 <= m < i ==> CountLink(states[m], states[m + 1])
    ensures QueuesCount(states[i].cq.queues) && SinceReset(cfg, states, i, id, r).uncounted == 0
  {
    if i > 0 {
      CountChain(cfg, states, i - 1, id, r);
      assert CountLink(states[i - 1], states[i - 1 + 1]);
    }
  }

  /** MOAT under OPEN_PAGE or CLOSE_PAGE: in every run, between two resets of its counter a row is activated at most ATH
      times. */
  lemma ActivationsBounded(cfg: Config, sel: BankId -> nat, states: seq<Controller>, steps: seq<Step>, i: nat,
                           id: BankId, r: nat)
    requires Counts(cfg) && AlwaysCounts(cfg) && Run(cfg, sel, states, steps) && i < |states|
    requires cfg.HasBank(id) && cfg.HasRow(r)
    ensures SinceReset(cfg, states, i, id, r).acts <= cfg.moatAth
  {
    forall m | 0 <= m < i ensures CountLink(states[m], states[m + 1]) {
      RunInv(cfg, sel, states, steps, m);
      StepCounts(cfg, states[m], steps[m], states[m + 1]);
    }
    CountChain(cfg, states, i, id, r);
    ActivationsCounted(cfg, sel, states, steps, i, id, r);
  }
}
