/** What every issued command keeps: a well-formed channel, exact timing bounds, the activation
    windows and the RAA bound. `log` is the history of all commands issued on the channel. */
module ChannelRuns {
  import opened Commands
  import opened Configuration
  import opened BankStates
  import opened ChannelStates

  datatype Event = Event(clk: nat, cmd: Command)

  /** The log is in time order and ends no later than `clk`. */
  predicate Ordered(log: seq<Event>, clk: nat) {
    && (forall i, j :: 0 <= i <= j < |log| ==> log[i].clk <= log[j].clk)
    && forall i :: 0 <= i < |log| ==> log[i].clk <= clk
  }

  // ----- Well-formedness -----

  lemma IssuedValid(cfg: Config, ch: Channel, c: Command, clk: nat, rnd: nat)
    requires cfg.Valid() && ch.Valid(cfg) && Issuable(cfg, ch, c, clk)
    ensures Issued(cfg, ch, c, clk, rnd).Some? && Issued(cfg, ch, c, clk, rnd).value.Valid(cfg)
  {
    assert LegalEverywhere(cfg, ch, c);
    StateAfterValid(cfg, ch, c, rnd);
    TimingAfterValid(cfg, StateAfter(cfg, ch, c, rnd).value, c, clk);
  }

  lemma StateAfterValid(cfg: Config, ch: Channel, c: Command, rnd: nat)
    requires cfg.Valid() && ch.Valid(cfg) && Addressable(cfg, c) && c.ty != SrefEnter && LegalEverywhere(cfg, ch, c)
    ensures StateAfter(cfg, ch, c, rnd).value.Valid(cfg)
  {}

  lemma TimingAfterValid(cfg: Config, ch: Channel, c: Command, clk: nat)
    requires ch.Valid(cfg) && Addressable(cfg, c)
    ensures TimingAfter(cfg, ch, c, clk).Valid(cfg)
  {
    var ch' := TimingAfter(cfg, ch, c, clk);
    forall id <- ch'.banks ensures ch'.banks[id].Valid(cfg) {}
  }

  /** Each bank after an issue: the state update if the command acts on it, then the new constraints. */
  lemma IssuedBank(cfg: Config, ch: Channel, c: Command, clk: nat, rnd: nat, id: BankId)
    requires cfg.Valid() && ch.Valid(cfg) && Issuable(cfg, ch, c, clk) && cfg.HasBank(id)
    ensures Issued(cfg, ch, c, clk, rnd).Some? && id in Issued(cfg, ch, c, clk, rnd).value.banks
    ensures c.Touches(id) ==> UpdateState(cfg, ch.banks[id], c, rnd).Some?
    ensures
      var b := ch.banks[id];
      var b1 := if c.Touches(id) then UpdateState(cfg, b, c, rnd).value else b;
      Issued(cfg, ch, c, clk, rnd).value.banks[id] == Constrain(b1, Constraints(cfg, c, id), clk)
  {
    assert LegalEverywhere(cfg, ch, c);
  }

  // ----- Timing -----

  /** `start` is exactly the largest bound that the history puts on issuing `ty` to the bank (0 if none). */
  ghost predicate ExactStart(cfg: Config, log: seq<Event>, id: BankId, ty: CommandType, start: nat) {
    && (forall i, k | 0 <= i < |log| && 0 <= k < |Constraints(cfg, log[i].cmd, id)| &&
                      Constraints(cfg, log[i].cmd, id)[k].ty == ty ::
          log[i].clk + Constraints(cfg, log[i].cmd, id)[k].delay <= start)
    && (start == 0 ||
        exists i, k :: 0 <= i < |log| && 0 <= k < |Constraints(cfg, log[i].cmd, id)| &&
          Constraints(cfg, log[i].cmd, id)[k].ty == ty &&
          log[i].clk + Constraints(cfg, log[i].cmd, id)[k].delay == start)
  }

  ghost predicate TimingExact(cfg: Config, ch: Channel, log: seq<Event>)
    requires ch.Valid(cfg)
  {
    forall id, ty :: cfg.HasBank(id) ==> ExactStart(cfg, log, id, ty, ch.banks[id].EarliestStart(ty))
  }

  /** Every command came at least the tabled delay after every earlier command that constrains it,
      on every bank it acts on. */
  ghost predicate Spaced(cfg: Config, log: seq<Event>) {
    forall i, j, id, k | 0 <= i < j < |log| && cfg.HasBank(id) && log[j].cmd.Touches(id) &&
      0 <= k < |Constraints(cfg, log[i].cmd, id)| && Constraints(cfg, log[i].cmd, id)[k].ty == log[j].cmd.ty ::
        log[i].clk + Constraints(cfg, log[i].cmd, id)[k].delay <= log[j].clk
  }

  lemma {:induction false} ConstrainMax(b: Bank, cs: seq<Constraint>, clk: nat, ty: CommandType)
    ensures var b' := Constrain(b, cs, clk);
      && b'.EarliestStart(ty) >= b.EarliestStart(ty)
      && (forall k :: 0 <= k < |cs| && cs[k].ty == ty ==> clk + cs[k].delay <= b'.EarliestStart(ty))
      && (b'.EarliestStart(ty) == b.EarliestStart(ty) ||
          exists k :: 0 <= k < |cs| && cs[k].ty == ty && clk + cs[k].delay == b'.EarliestStart(ty))
    decreases |cs|
  {
    if cs != [] {
      var c := cs[0];
      var b1 := b.(timing := b.timing[c.ty := Max(b.EarliestStart(c.ty), clk + c.delay)]);
      ConstrainMax(b1, cs[1..], clk, ty);
      var e := Constrain(b1, cs[1..], clk).EarliestStart(ty);
      forall k | 0 <= k < |cs| && cs[k].ty == ty ensures clk + cs[k].delay <= e {
        if k > 0 { assert cs[1..][k - 1] == cs[k]; }
      }
      if e != b1.EarliestStart(ty) {
        var k :| 0 <= k < |cs[1..]| && cs[1..][k].ty == ty && clk + cs[1..][k].delay == e;
        assert cs[k + 1].ty == ty;
      } else if e != b.EarliestStart(ty) {
        assert cs[0].ty == ty;
      }
    }
  }

  lemma StartAfterIssue(cfg: Config, log: seq<Event>, id: BankId, ty: CommandType, b: Bank, c: Command, clk: nat)
    requires ExactStart(cfg, log, id, ty, b.EarliestStart(ty))
    ensures ExactStart(cfg, log + [Event(clk, c)], id, ty,
                       Constrain(b, Constraints(cfg, c, id), clk).EarliestStart(ty))
  {
    var log' := log + [Event(clk, c)];
    var cs := Constraints(cfg, c, id);
    var e, e' := b.EarliestStart(ty), Constrain(b, cs, clk).EarliestStart(ty);
    ConstrainMax(b, cs, clk, ty);
    forall i, k | 0 <= i < |log'| && 0 <= k < |Constraints(cfg, log'[i].cmd, id)| &&
        Constraints(cfg, log'[i].cmd, id)[k].ty == ty
      ensures log'[i].clk + Constraints(cfg, log'[i].cmd, id)[k].delay <= e'
    {
      if i < |log| { assert log'[i] == log[i]; }
    }
    if e' != e {
      var k :| 0 <= k < |cs| && cs[k].ty == ty && clk + cs[k].delay == e';
      assert log'[|log|].cmd == c;
    } else if e != 0 {
      var i, k :| 0 <= i < |log| && 0 <= k < |Constraints(cfg, log[i].cmd, id)| &&
        Constraints(cfg, log[i].cmd, id)[k].ty == ty && log[i].clk + Constraints(cfg, log[i].cmd, id)[k].delay == e;
      assert log'[i] == log[i];
    }
  }

  /** Timing soundness: each issue keeps the bounds exact and the whole log spaced. */
  lemma TimingStep(cfg: Config, ch: Channel, log: seq<Event>, c: Command, clk: nat, rnd: nat)
    requires cfg.Valid() && ch.Valid(cfg) && Issuable(cfg, ch, c, clk)
    requires TimingExact(cfg, ch, log) && Spaced(cfg, log)
    ensures Issued(cfg, ch, c, clk, rnd).Some? && Issued(cfg, ch, c, clk, rnd).value.Valid(cfg)
    ensures TimingExact(cfg, Issued(cfg, ch, c, clk, rnd).value, log + [Event(clk, c)])
    ensures Spaced(cfg, log + [Event(clk, c)])
  {
    IssuedValid(cfg, ch, c, clk, rnd);
    var ch', log' := Issued(cfg, ch, c, clk, rnd).value, log + [Event(clk, c)];
    forall id, ty | cfg.HasBank(id) ensures ExactStart(cfg, log', id, ty, ch'.banks[id].EarliestStart(ty)) {
      IssuedBank(cfg, ch, c, clk, rnd, id);
      var b := ch.banks[id];
      var b1 := if c.Touches(id) then UpdateState(cfg, b, c, rnd).value else b;
      assert b1.EarliestStart(ty) == b.EarliestStart(ty);
      StartAfterIssue(cfg, log, id, ty, b1, c, clk);
    }
    SpacingStep(cfg, ch, log, c, clk);
  }

  lemma SpacingStep(cfg: Config, ch: Channel, log: seq<Event>, c: Command, clk: nat)
    requires ch.Valid(cfg) && Issuable(cfg, ch, c, clk) && TimingExact(cfg, ch, log) && Spaced(cfg, log)
    ensures Spaced(cfg, log + [Event(clk, c)])
  {
    var log' := log + [Event(clk, c)];
    forall i, j, id, k | 0 <= i < j < |log'| && cfg.HasBank(id) && log'[j].cmd.Touches(id) &&
        0 <= k < |Constraints(cfg, log'[i].cmd, id)| && Constraints(cfg, log'[i].cmd, id)[k].ty == log'[j].cmd.ty
      ensures log'[i].clk + Constraints(cfg, log'[i].cmd, id)[k].delay <= log'[j].clk
    {
      assert log'[i] == log[i];
      if j == |log| {
        assert ExactStart(cfg, log, id, c.ty, ch.banks[id].EarliestStart(c.ty));
      } else {
        assert log'[j] == log[j];
      }
    }
  }

  // ----- Activation windows -----

  /** Cycles of the ACTIVATEs of a rank. */
  function ActTimes(log: seq<Event>, rank: int): (ts: seq<nat>)
    ensures |ts| <= |log|
  {
    if log == [] then []
    else
      var n := |log| - 1;
      ActTimes(log[..n], rank) +
      if log[n].cmd.ty == Activate && log[n].cmd.addr.rank == rank then [log[n].clk] else []
  }

  /** The window list holds the last activations, and every activation it dropped has expired. */
  ghost predicate WindowInv(ts: seq<nat>, win: seq<nat>, cap: nat, span: nat) {
    && |win| <= cap && |win| <= |ts|
    && (forall i :: 0 <= i < |win| ==> win[i] == ts[|ts| - |win| + i] + span)
    && (forall i :: 0 <= i < |ts| - |win| ==> ts[i] + span <= ts[|ts| - 1])
    && (forall i, j :: 0 <= i <= j < |ts| ==> ts[i] <= ts[j])
    && forall i :: 0 <= i && i + cap < |ts| ==> ts[i] + span <= ts[i + cap]
  }

  /** One activation: although at most one expired entry is erased, the list stays within its
      capacity and cap + 1 consecutive activations span the window. */
  lemma WindowStep(ts: seq<nat>, win: seq<nat>, cap: nat, span: nat, clk: nat)
    requires cap >= 1 && WindowInv(ts, win, cap, span) && WindowOpen(win, cap, clk)
    requires forall i :: 0 <= i < |ts| ==> ts[i] <= clk
    ensures WindowInv(ts + [clk], SlideWindow(win, span, clk), cap, span)
  {
    var ts', win' := ts + [clk], SlideWindow(win, span, clk);
    forall i | 0 <= i && i + cap < |ts'| ensures ts'[i] + span <= ts'[i + cap] {
      if i + cap == |ts| {
        if i >= |ts| - |win| { assert win[i - (|ts| - |win|)] == ts[i] + span; }
      }
    }
    forall i | 0 <= i < |ts'| - |win'| ensures ts'[i] + span <= clk {
      if i == |ts| - |win| { assert win[0] == ts[i] + span; }
    }
  }

  ghost predicate WindowsInv(cfg: Config, ch: Channel, log: seq<Event>)
    requires ch.Valid(cfg)
  {
    forall rank :: cfg.HasRank(rank) ==>
      && WindowInv(ActTimes(log, rank), ch.fourAw[rank], 4, cfg.tFAW)
      && (cfg.isGddr ==> WindowInv(ActTimes(log, rank), ch.thirtyTwoAw[rank], 32, cfg.t32AW))
  }

  lemma {:induction false} ActTimesBound(log: seq<Event>, rank: int, clk: nat)
    requires forall i :: 0 <= i < |log| ==> log[i].clk <= clk
    ensures forall i :: 0 <= i < |ActTimes(log, rank)| ==> ActTimes(log, rank)[i] <= clk
  {
    if log != [] { ActTimesBound(log[..|log| - 1], rank, clk); }
  }

  lemma WindowsStep(cfg: Config, ch: Channel, log: seq<Event>, c: Command, clk: nat, rnd: nat)
    requires cfg.Valid() && ch.Valid(cfg) && Issuable(cfg, ch, c, clk)
    requires Ordered(log, clk) && WindowsInv(cfg, ch, log)
    ensures Issued(cfg, ch, c, clk, rnd).Some? && Issued(cfg, ch, c, clk, rnd).value.Valid(cfg)
    ensures WindowsInv(cfg, Issued(cfg, ch, c, clk, rnd).value, log + [Event(clk, c)])
  {
    IssuedValid(cfg, ch, c, clk, rnd);
    var ch', log' := Issued(cfg, ch, c, clk, rnd).value, log + [Event(clk, c)];
    forall rank | cfg.HasRank(rank)
      ensures WindowInv(ActTimes(log', rank), ch'.fourAw[rank], 4, cfg.tFAW)
      ensures cfg.isGddr ==> WindowInv(ActTimes(log', rank), ch'.thirtyTwoAw[rank], 32, cfg.t32AW)
    {
      assert log'[..|log|] == log;
      var ts := ActTimes(log, rank);
      if c.ty == Activate && c.addr.rank == rank {
        ActTimesBound(log, rank, clk);
        WindowStep(ts, ch.fourAw[rank], 4, cfg.tFAW, clk);
        if cfg.isGddr { WindowStep(ts, ch.thirtyTwoAw[rank], 32, cfg.t32AW, clk); }
      } else {
        assert ActTimes(log', rank) == ts;
      }
    }
  }

  // ----- RAA counters -----

  /** RFM is enabled and its threshold is sensible. */
  predicate RfmConfig(cfg: Config) { (cfg.rfmMode == 1 || cfg.rfmMode == 2) && cfg.raammt >= 0 }

  ghost predicate RaaBounded(cfg: Config, ch: Channel) {
    forall id <- ch.banks :: 0 <= ch.banks[id].raa <= cfg.raammt
  }

  lemma RaaOfUpdate(cfg: Config, b: Bank, c: Command, rnd: nat)
    requires cfg.Valid() && b.Valid(cfg) && b.Legal(c.ty) && (c.ty == Activate ==> cfg.HasRow(c.addr.row))
    requires 0 <= b.raa
    ensures var b' := UpdateState(cfg, b, c, rnd).value;
      0 <= b'.raa <= if c.ty == Activate then b.raa + 1 else b.raa
  {}

  /** With RFM enabled no activation counter passes RAAMMT. */
  lemma RaaStep(cfg: Config, ch: Channel, c: Command, clk: nat, rnd: nat)
    requires cfg.Valid() && ch.Valid(cfg) && Issuable(cfg, ch, c, clk)
    requires RfmConfig(cfg) && RaaBounded(cfg, ch)
    ensures Issued(cfg, ch, c, clk, rnd).Some? && RaaBounded(cfg, Issued(cfg, ch, c, clk, rnd).value)
  {
    IssuedValid(cfg, ch, c, clk, rnd);
    var ch' := Issued(cfg, ch, c, clk, rnd).value;
    forall id <- ch'.banks ensures 0 <= ch'.banks[id].raa <= cfg.raammt {
      IssuedBank(cfg, ch, c, clk, rnd, id);
      if c.Touches(id) { RaaOfUpdate(cfg, ch.banks[id], c, rnd); }
    }
  }
}
