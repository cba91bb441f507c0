/** MOAT with alert back-off: no row counter ever passes the alert threshold
    (DRAMsim3/src/bankstate.cc, DRAMsim3/src/channel_state.cc). */
module MoatBound {
  import opened Commands
  import opened Configuration
  import opened BankStates
  import opened ChannelStates
  import opened ChannelRuns

  /** The shipped settings: one rank, alerts on, no grace period and at most one activation of delay. */
  ghost predicate MoatConfig(cfg: Config) {
    && cfg.Valid() && (cfg.impl == Moat || cfg.impl == Pac)
    && cfg.sizes.ranks == 1 && cfg.alertMode == 1 && cfg.tABO == 0 && cfg.aboDelayActs <= 1
    && cfg.moatAth >= 1
  }

  /** The bank's tracked row is at the threshold: the condition that raises the alert. */
  predicate Hot(cfg: Config, b: Bank) { b.moatValid && b.Count(b.moatRow) >= cfg.moatAth }

  /** Counters are bounded, and a row at the threshold is the tracked row of a closed bank. */
  ghost predicate MoatOk(cfg: Config, b: Bank) {
    forall r :: 0 <= r < |b.prac| ==>
      b.prac[r] <= cfg.moatAth &&
      (b.prac[r] == cfg.moatAth ==> b.moatValid && b.moatRow == r && b.state == Closed)
  }

  /** The protocol invariant before the tick at `clk`. */
  ghost predicate MoatInv(cfg: Config, ch: Channel, clk: nat) {
    && (forall id <- ch.banks ::
          var b := ch.banks[id];
          && MoatOk(cfg, b)
          && (Hot(cfg, b) ==> ch.alert)
          && (Hot(cfg, b) || b.state == Open ==> ch.actsAbo >= cfg.aboDelayActs))
    && (ch.alert ==> ch.lastAlertClk < clk)
  }

  /** Effect of a command on one bank: it becomes hot only by closing an open row or by staying hot,
      and an RFM cools it. */
  ghost predicate Effect(cfg: Config, b: Bank, c: Command, b': Bank) {
    && MoatOk(cfg, b')
    && (Hot(cfg, b') ==> Hot(cfg, b) || (b.state == Open && c.ty != Read && c.ty != Write))
    && (c.ty.IsRfm() ==> !Hot(cfg, b'))
  }

  lemma PrechargeEffect(cfg: Config, b: Bank, c: Command)
    requires MoatConfig(cfg) && b.Valid(cfg) && MoatOk(cfg, b) && b.state == Open
    requires c.ty.IsPrecharge() || (c.ty.IsReadWrite() && c.ty != Read && c.ty != Write)
    ensures Effect(cfg, b, c, ClosedBy(cfg, b, c.ty))
  {
    var row := b.openRow;
    assert b.prac[row] < cfg.moatAth;
    assert Wrap16(b.prac[row] + 1) <= b.prac[row] + 1;
  }

  lemma RefreshEffect(cfg: Config, b: Bank, c: Command)
    requires MoatConfig(cfg) && b.Valid(cfg) && MoatOk(cfg, b) && b.state == Closed && c.ty.IsRefresh()
    ensures Effect(cfg, b, c, Refreshed(cfg, b))
  {
    var b' := Refreshed(cfg, b);
    forall r | 0 <= r < |b'.prac|
      ensures b'.prac[r] == 0 || b'.prac[r] == b.prac[r]
      ensures b'.prac[r] != 0 && b.moatValid && b.moatRow == r ==> b'.moatValid && b'.moatRow == r
    {
      assert InRefreshWindow(cfg, b, r) <==> ClearRefreshed(cfg, b).prac[r] != b.prac[r] || InRefreshWindow(cfg, b, r);
    }
  }

  lemma BankEffect(cfg: Config, b: Bank, c: Command, rnd: nat)
    requires MoatConfig(cfg) && b.Valid(cfg) && MoatOk(cfg, b) && b.Legal(c.ty) && c.ty != SrefEnter
    requires c.ty == Activate ==> cfg.HasRow(c.addr.row) && !Hot(cfg, b)
    ensures Effect(cfg, b, c, UpdateState(cfg, b, c, rnd).value)
  {
    if b.state == Open && c.ty != Read && c.ty != Write {
      PrechargeEffect(cfg, b, c);
    } else if c.ty.IsRefresh() {
      RefreshEffect(cfg, b, c);
    }
  }

  /** What the step does to the alert: only a rank-wide refresh or RFM lowers it, and a hot bank
      that the command acted on raises it. */
  ghost predicate AlertStep(cfg: Config, ch: Channel, c: Command, clk: nat, ch': Channel) {
    && (ch.alert && c.ty != RfmAb && c.ty != RefAb ==> ch'.alert)
    && ch'.actsAbo == ActsAfter(ch, c.ty)
    && (ch'.alert ==> (ch.alert && ch'.lastAlertClk == ch.lastAlertClk) || ch'.lastAlertClk == clk)
    && (Triggers(c.ty) && ch'.actsAbo >= cfg.aboDelayActs ==>
          forall id <- ch'.banks :: c.Touches(id) && Hot(cfg, ch'.banks[id]) ==> ch'.alert)
  }

  lemma AlertAfterTiming(cfg: Config, ch: Channel, c: Command, clk: nat)
    requires MoatConfig(cfg) && ch.Valid(cfg) && Addressable(cfg, c)
    ensures var ch' := TimingAfter(cfg, ch, c, clk);
      && (ch.alert ==> ch'.alert)
      && ch'.actsAbo == ActsAfter(ch, c.ty)
      && (ch'.alert ==> (ch.alert && ch'.lastAlertClk == ch.lastAlertClk) || ch'.lastAlertClk == clk)
      && (Triggers(c.ty) && ch'.actsAbo >= cfg.aboDelayActs ==>
            forall id <- ch'.banks :: c.Touches(id) && Hot(cfg, ch'.banks[id]) ==> ch'.alert)
  {
    var ch' := TimingAfter(cfg, ch, c, clk);
    forall id <- ch'.banks | c.Touches(id) && Hot(cfg, ch'.banks[id])
      ensures Triggers(c.ty) && ch'.actsAbo >= cfg.aboDelayActs ==> ch'.alert
    {
      assert CheckAlert(cfg, ch.banks[id]);
    }
  }

  lemma AlertAfter(cfg: Config, ch: Channel, c: Command, clk: nat, rnd: nat)
    requires MoatConfig(cfg) && ch.Valid(cfg) && Issuable(cfg, ch, c, clk)
    ensures Issued(cfg, ch, c, clk, rnd).Some? && AlertStep(cfg, ch, c, clk, Issued(cfg, ch, c, clk, rnd).value)
  {
    assert LegalEverywhere(cfg, ch, c);
    StateAfterValid(cfg, ch, c, rnd);
    AlertAfterTiming(cfg, StateAfter(cfg, ch, c, rnd).value, c, clk);
  }

  /** What the step does to one bank. */
  ghost predicate BankStep(cfg: Config, b: Bank, c: Command, touched: bool, b': Bank) {
    if touched then
      && Effect(cfg, b, c, b') && b.Legal(c.ty)
      && (b'.state == Open <==> c.ty == Activate || c.ty == Read || c.ty == Write)
    else Hot(cfg, b') == Hot(cfg, b) && b'.state == b.state && MoatOk(cfg, b')
  }

  lemma BankAfter(cfg: Config, ch: Channel, c: Command, clk: nat, rnd: nat, id: BankId)
    requires MoatConfig(cfg) && ch.Valid(cfg) && Issuable(cfg, ch, c, clk) && MoatInv(cfg, ch, clk) && cfg.HasBank(id)
    ensures Issued(cfg, ch, c, clk, rnd).Some? && id in Issued(cfg, ch, c, clk, rnd).value.banks
    ensures BankStep(cfg, ch.banks[id], c, c.Touches(id), Issued(cfg, ch, c, clk, rnd).value.banks[id])
  {
    IssuedBank(cfg, ch, c, clk, rnd, id);
    if c.Touches(id) {
      assert c.ty == Activate ==> !Hot(cfg, ch.banks[id]);
      BankEffect(cfg, ch.banks[id], c, rnd);
    }
  }

  /** The inductive step in terms of those effects. */
  lemma MoatStepFromEffects(cfg: Config, ch: Channel, c: Command, clk: nat, ch': Channel)
    requires cfg.aboDelayActs <= 1 && MoatInv(cfg, ch, clk) && AlertStep(cfg, ch, c, clk, ch')
    requires ch'.banks.Keys == ch.banks.Keys
    requires c.ty == RfmAb || c.ty == RefAb ==> forall id <- ch.banks :: c.Touches(id)
    requires forall id <- ch.banks :: BankStep(cfg, ch.banks[id], c, c.Touches(id), ch'.banks[id])
    ensures MoatInv(cfg, ch', clk + 1)
  {
    forall id <- ch'.banks
      ensures MoatOk(cfg, ch'.banks[id])
      ensures Hot(cfg, ch'.banks[id]) ==> ch'.alert
      ensures Hot(cfg, ch'.banks[id]) || ch'.banks[id].state == Open ==> ch'.actsAbo >= cfg.aboDelayActs
    {
      assert BankStep(cfg, ch.banks[id], c, c.Touches(id), ch'.banks[id]);
      assert MoatOk(cfg, ch.banks[id]);
    }
  }

  /** Every issued command keeps the invariant, including a REFab that clears the alert and must raise it again. */
  lemma MoatStep(cfg: Config, ch: Channel, c: Command, clk: nat, rnd: nat)
    requires MoatConfig(cfg) && ch.Valid(cfg) && Issuable(cfg, ch, c, clk) && MoatInv(cfg, ch, clk)
    ensures Issued(cfg, ch, c, clk, rnd).Some? && MoatInv(cfg, Issued(cfg, ch, c, clk, rnd).value, clk + 1)
  {
    AlertAfter(cfg, ch, c, clk, rnd);
    IssuedValid(cfg, ch, c, clk, rnd);
    var ch' := Issued(cfg, ch, c, clk, rnd).value;
    forall id <- ch.banks ensures BankStep(cfg, ch.banks[id], c, c.Touches(id), ch'.banks[id]) {
      BankAfter(cfg, ch, c, clk, rnd, id);
    }
    MoatStepFromEffects(cfg, ch, c, clk, ch');
  }

  /** The bound itself. */
  lemma CountersBounded(cfg: Config, ch: Channel, clk: nat, id: BankId, r: nat)
    requires ch.Valid(cfg) && MoatInv(cfg, ch, clk) && cfg.HasBank(id) && cfg.HasRow(r)
    ensures ch.banks[id].prac[r] <= cfg.moatAth
    ensures ch.banks[id].prac[r] == cfg.moatAth ==>
      ch.alert && ch.banks[id].state == Closed && ch.banks[id].moatValid && ch.banks[id].moatRow == r
  {
    assert MoatOk(cfg, ch.banks[id]);
  }
}
