/** The channel as an object: the scans, fan-outs and queue updates of ChannelState as loops over its fields, each
    proved against the function of the same step on values (DRAMsim3/src/channel_state.cc).

    The banks are stored by value, as in the source; BankObjects has their own methods. */
module ChannelObjects {
  import opened Commands
  import opened Configuration
  import opened BankStates
  import opened ChannelStates

  /** One pass of BankState::UpdateTiming over a list of constraints. */
  method ConstrainBank(b: Bank, cs: seq<Constraint>, clk: nat) returns (r: Bank)
    ensures r == Constrain(b, cs, clk)
  {
    r := b;
    var i := 0;
    while i < |cs|
      invariant i <= |cs| && Constrain(r, cs[i..], clk) == Constrain(b, cs, clk)
    {
      assert cs[i..][1..] == cs[i + 1..];
      r := r.(timing := r.timing[cs[i].ty := Max(r.EarliestStart(cs[i].ty), clk + cs[i].delay)]);
      i := i + 1;
    }
  }

  lemma {:induction false} DropFirstAt(q: seq<Command>, p: Command -> bool, i: nat)
    requires i <= |q| && (forall j :: 0 <= j < i ==> !p(q[j])) && (i < |q| ==> p(q[i]))
    ensures DropFirst(q, p) == if i < |q| then q[..i] + q[i + 1..] else q
  {
    if i > 0 {
      DropFirstAt(q[1..], p, i - 1);
      assert q == [q[0]] + q[1..];
      if i < |q| {
        assert [q[0]] + (q[1..][..i - 1] + q[1..][i..]) == q[..i] + q[i + 1..];
      }
    }
  }

  /** Erase the first entry that matches. */
  method EraseFirst(q: seq<Command>, p: Command -> bool) returns (r: seq<Command>)
    ensures r == DropFirst(q, p)
  {
    var i := 0;
    while i < |q| && !p(q[i])
      invariant i <= |q| && forall j :: 0 <= j < i ==> !p(q[j])
    {
      i := i + 1;
    }
    DropFirstAt(q, p, i);
    return if i < |q| then q[..i] + q[i + 1..] else q;
  }

  /** The bank comes before (i, j, k) in loop order. */
  predicate Before(id: BankId, i: int, j: int, k: int) {
    id.rank < i || (id.rank == i && (id.bankgroup < j || (id.bankgroup == j && id.bank < k)))
  }

  /** What a command makes of a bank it acts on. */
  function Stepped(cfg: Config, b: Bank, cmd: Command, rnd: nat): Bank
    requires cfg.Valid() && b.Valid(cfg) && (cmd.ty == Activate ==> cfg.HasRow(cmd.addr.row))
  {
    match UpdateState(cfg, b, cmd, rnd)
    case Some(b1) => b1
    case None => b
  }

  class ChannelState {
    const cfg: Config
    var banks: map<BankId, Bank>
    var refreshQ: seq<Command>
    var rfmQ: seq<Command>
    var fourAw: seq<seq<nat>>
    var thirtyTwoAw: seq<seq<nat>>
    var alert: bool
    var lastAlertClk: nat
    var actsAbo: nat

    ghost function View(): (ch: Channel)
      reads this
    {
      Channel(banks, refreshQ, rfmQ, fourAw, thirtyTwoAw, alert, lastAlertClk, actsAbo)
    }

    ghost predicate Sized()
      reads this
    {
      Populated(cfg, banks) && |fourAw| == |thirtyTwoAw| == cfg.sizes.ranks
    }

    constructor (cfg: Config, sel: BankId -> nat)
      requires cfg.Valid()
      ensures this.cfg == cfg && View() == InitChannel(cfg, sel) && Sized()
    {
      this.cfg := cfg;
      var ids := set r, g, b | 0 <= r < cfg.sizes.ranks && 0 <= g < cfg.sizes.bankgroups
                               && 0 <= b < cfg.sizes.banksPerGroup :: BankId(r, g, b);
      banks := map id | id in ids :: InitBank(cfg, sel(id));
      refreshQ, rfmQ := [], [];
      fourAw, thirtyTwoAw := seq(cfg.sizes.ranks, _ => []), seq(cfg.sizes.ranks, _ => []);
      alert, lastAlertClk, actsAbo := false, 0, 0;
      new;
      forall id ensures id in banks <==> cfg.HasBank(id) {
        if cfg.HasBank(id) { assert id == BankId(id.rank, id.bankgroup, id.bank); }
      }
    }

    // ----- The RFM queue -----

    method RankNeedRfm(rank: int, need: bool)
      modifies this`rfmQ
      ensures rfmQ == if need then ChannelStates.RankNeedRfm(old(rfmQ), rank)
                      else DropFirst(old(rfmQ), (d: Command) => d.addr.rank == rank)
    {
      if !need {
        rfmQ := EraseFirst(rfmQ, (d: Command) => d.addr.rank == rank);
        return;
      }
      var i := 0;
      while i < |rfmQ|
        invariant i <= |rfmQ| && forall j :: 0 <= j < i ==> rfmQ[j].addr.rank != rank
      {
        if rfmQ[i].addr.rank == rank { return; }
        i := i + 1;
      }
      rfmQ := rfmQ + [RankCmd(RfmAb, rank)];
    }

    method BanksetNeedRfm(rank: int, bank: int, need: bool)
      modifies this`rfmQ
      ensures rfmQ == if need then ChannelStates.BanksetNeedRfm(old(rfmQ), rank, bank)
                      else DropFirst(old(rfmQ), (d: Command) => d.addr.rank == rank && d.addr.bank == bank)
    {
      if !need {
        rfmQ := EraseFirst(rfmQ, (d: Command) => d.addr.rank == rank && d.addr.bank == bank);
        return;
      }
      var i := 0;
      while i < |rfmQ|
        invariant i <= |rfmQ| && forall j :: 0 <= j < i ==> !(rfmQ[j].addr.rank == rank && rfmQ[j].addr.bank == bank)
      {
        if rfmQ[i].addr.rank == rank && rfmQ[i].addr.bank == bank { return; }
        i := i + 1;
      }
      rfmQ := rfmQ + [BanksetCmd(RfmSb, rank, bank)];
    }

    // ----- GetReadyCommand -----

    method ScanAllBanks(cmd: Command, clk: nat, coin: bool) returns (r: Ready)
      requires Sized() && cfg.HasRank(cmd.addr.rank)
      ensures r == ScanRank(cfg, banks, cmd, clk, coin, 0, 0, 0)
    {
      var ready, j := 0, 0;
      while j < cfg.sizes.bankgroups
        invariant j <= cfg.sizes.bankgroups
        invariant ScanRank(cfg, banks, cmd, clk, coin, 0, 0, 0) == ScanRank(cfg, banks, cmd, clk, coin, j, 0, ready)
      {
        var k := 0;
        while k < cfg.sizes.banksPerGroup
          invariant k <= cfg.sizes.banksPerGroup
          invariant ScanRank(cfg, banks, cmd, clk, coin, 0, 0, 0) == ScanRank(cfg, banks, cmd, clk, coin, j, k, ready)
        {
          match BankReady(cfg, banks[BankId(cmd.addr.rank, j, k)], cmd, clk, coin) {
            case Exit => return Exit;
            case NotReady =>
            case Issue(c) =>
              if c.ty != cmd.ty { return Issue(Command(c.ty, Address(-1, cmd.addr.rank, j, k, -1, -1), c.hex)); }
              ready := ready + 1;
          }
          k := k + 1;
        }
        j := j + 1;
      }
      return if ready == cfg.Banks() then Issue(cmd) else NotReady;
    }

    method ScanOneBankPerGroup(cmd: Command, clk: nat, coin: bool) returns (r: Ready)
      requires Sized() && cfg.HasRank(cmd.addr.rank) && 0 <= cmd.addr.bank < cfg.sizes.banksPerGroup
      ensures r == ScanBankset(cfg, banks, cmd, clk, coin, 0, 0)
    {
      var ready, j := 0, 0;
      while j < cfg.sizes.bankgroups
        invariant j <= cfg.sizes.bankgroups
        invariant ScanBankset(cfg, banks, cmd, clk, coin, 0, 0) == ScanBankset(cfg, banks, cmd, clk, coin, j, ready)
      {
        match BankReady(cfg, banks[BankId(cmd.addr.rank, j, cmd.addr.bank)], cmd, clk, coin) {
          case Exit => return Exit;
          case NotReady =>
          case Issue(c) =>
            if c.ty != cmd.ty {
              return Issue(Command(c.ty, Address(-1, cmd.addr.rank, j, cmd.addr.bank, -1, -1), c.hex));
            }
            ready := ready + 1;
        }
        j := j + 1;
      }
      return if ready == cfg.sizes.bankgroups then Issue(cmd) else NotReady;
    }

    /** GetReadyCommand, with its write to the RFM queue. */
    method GetReadyCommand(cmd: Command, clk: nat, coin: bool) returns (r: Ready)
      requires Sized() && Addressable(cfg, cmd)
      modifies this`rfmQ
      ensures r == GetReady(cfg, old(View()), cmd, clk, coin)
      ensures View() == old(View()).(rfmQ := RfmAfter(cfg, old(View()), cmd, clk, coin))
    {
      if cmd.ty.IsRankCmd() {
        r := ScanAllBanks(cmd, clk, coin);
      } else if cmd.ty.IsSbCmd() {
        r := ScanOneBankPerGroup(cmd, clk, coin);
      } else {
        r := BankReady(cfg, banks[cmd.Id()], cmd, clk, coin);
        if !r.Issue? { return; }
        var c := r.cmd;
        if alert && clk > cfg.tABO + lastAlertClk {
          RankNeedRfm(c.addr.rank, true);
          return NotReady;
        }
        if c.ty == RfmSb {
          BanksetNeedRfm(c.addr.rank, c.addr.bank, true);
          return NotReady;
        }
        if c.ty == RfmAb {
          RankNeedRfm(c.addr.rank, true);
          return NotReady;
        }
        if c.ty == Activate {
          var rank := c.addr.rank;
          if !WindowOpen(fourAw[rank], 4, clk) { return NotReady; }
          if cfg.isGddr && !WindowOpen(thirtyTwoAw[rank], 32, clk) { return NotReady; }
        }
      }
    }

    // ----- UpdateState -----

    /** BankState::UpdateState on the banks b0..b1 of one bankgroup; false where one exits. */
    method StepRow(ghost was: map<BankId, Bank>, cmd: Command, rnd: nat, j: nat, box: Box) returns (ok: bool)
      requires cfg.Valid() && Stepping(cfg, was, cmd) && box.Fits(cfg, cmd.addr.rank) && box.g0 <= j < box.g1
      requires SteppedUpTo(was, Target(cfg, was, cmd, rnd), banks, cmd.ty, box, j, box.b0)
      modifies this`banks
      ensures ok <==> forall id <- was :: box.Upto(id, j, box.b1) ==> was[id].Legal(cmd.ty)
      ensures ok ==> SteppedUpTo(was, Target(cfg, was, cmd, rnd), banks, cmd.ty, box, j, box.b1)
    {
      ghost var target := Target(cfg, was, cmd, rnd);
      var k := box.b0;
      while k < box.b1
        invariant box.b0 <= k <= box.b1 && SteppedUpTo(was, target, banks, cmd.ty, box, j, k)
      {
        var id := BankId(box.rank, j, k);
        assert id in was && !box.Upto(id, j, k) && box.Upto(id, j, box.b1);
        match UpdateState(cfg, banks[id], cmd, rnd) {
          case None => return false;
          case Some(b) =>
            StepOne(was, target, banks, cmd.ty, box, j, k);
            banks := banks[id := b];
        }
        k := k + 1;
      }
      return true;
    }

    /** The same on every bankgroup of a box of banks. */
    method StepBanks(cmd: Command, rnd: nat, box: Box) returns (ok: bool)
      requires cfg.Valid() && Stepping(cfg, banks, cmd) && box.Fits(cfg, cmd.addr.rank)
      modifies this`banks
      ensures ok <==> forall id <- old(banks) :: box.Has(id) ==> old(banks)[id].Legal(cmd.ty)
      ensures ok ==> SteppedUpTo(old(banks), Target(cfg, old(banks), cmd, rnd), banks, cmd.ty, box, box.g1, box.b0)
    {
      ghost var was, target := banks, Target(cfg, banks, cmd, rnd);
      var j := box.g0;
      while j < box.g1
        invariant box.g0 <= j <= box.g1 && SteppedUpTo(was, target, banks, cmd.ty, box, j, box.b0)
      {
        ok := StepRow(was, cmd, rnd, j, box);
        if !ok { return; }
        StepNextRow(was, target, banks, cmd.ty, box, j);
        j := j + 1;
      }
      return true;
    }

    /** The banks a command acts on. */
    method TouchedBox(cmd: Command) returns (box: Box)
      requires Addressable(cfg, cmd)
      ensures box.Fits(cfg, cmd.addr.rank) && forall id :: cfg.HasBank(id) ==> (box.Has(id) <==> cmd.Touches(id))
    {
      var a := cmd.addr;
      if cmd.ty.IsRankCmd() {
        box := Box(a.rank, 0, cfg.sizes.bankgroups, 0, cfg.sizes.banksPerGroup);
      } else if cmd.ty.IsSbCmd() {
        box := Box(a.rank, 0, cfg.sizes.bankgroups, a.bank, a.bank + 1);
      } else {
        box := Box(a.rank, a.bankgroup, a.bankgroup + 1, a.bank, a.bank + 1);
      }
    }

    method StepTouched(cmd: Command, rnd: nat) returns (ok: bool)
      requires cfg.Valid() && View().Valid(cfg) && Addressable(cfg, cmd) && cmd.ty != SrefEnter
      modifies this`banks
      ensures ok <==> LegalEverywhere(cfg, old(View()), cmd)
      ensures ok ==> banks == BanksAfter(cfg, old(View()), cmd, rnd)
    {
      var box := TouchedBox(cmd);
      ok := StepBanks(cmd, rnd, box);
      if ok { AllStepped(cfg, old(View()), banks, cmd, rnd, box); }
    }

    /** The queue entry that a refresh or RFM serves goes; the rank-wide ones clear the alert. */
    method ServeQueues(cmd: Command)
      modifies this`refreshQ, this`rfmQ, this`alert
      ensures refreshQ == RefreshQAfter(old(refreshQ), cmd) && rfmQ == RfmQAfter(old(rfmQ), cmd)
      ensures alert == (old(alert) && cmd.ty != RfmAb && cmd.ty != RefAb)
    {
      var a := cmd.addr;
      match cmd.ty
      case RfmAb =>
        RankNeedRfm(a.rank, false);
        alert := false;
      case RefAb =>
        refreshQ := EraseFirst(refreshQ, (d: Command) => d.addr.rank == cmd.addr.rank);
        alert := false;
      case RfmSb => BanksetNeedRfm(a.rank, a.bank, false);
      case RefSb =>
        refreshQ := EraseFirst(refreshQ, (d: Command) => d.addr.rank == cmd.addr.rank && d.addr.bank == cmd.addr.bank);
      case RefreshBank => refreshQ := EraseFirst(refreshQ, (d: Command) => d.Id() == cmd.Id());
      case _ =>
    }

    /** ChannelState::UpdateState; false where a bank exits. */
    method UpdateStates(cmd: Command, rnd: nat) returns (ok: bool)
      requires cfg.Valid() && View().Valid(cfg) && Addressable(cfg, cmd) && cmd.ty != SrefEnter
      modifies this`banks, this`refreshQ, this`rfmQ, this`alert
      ensures ok <==> StateAfter(cfg, old(View()), cmd, rnd).Some?
      ensures ok ==> StateAfter(cfg, old(View()), cmd, rnd) == Some(View())
    {
      ok := StepTouched(cmd, rnd);
      if ok { ServeQueues(cmd); }
    }

    // ----- UpdateTiming -----

    /** The innermost fan-out loop, over the banks of a bankgroup. */
    method FanRow(ghost was: map<BankId, Bank>, selected: BankId -> bool, cs: seq<Constraint>, clk: nat, i: nat, j: nat)
      requires Populated(cfg, was) && i < cfg.sizes.ranks && j < cfg.sizes.bankgroups
      requires FannedUpTo(was, banks, selected, cs, clk, i, j, 0)
      modifies this`banks
      ensures FannedUpTo(was, banks, selected, cs, clk, i, j + 1, 0)
    {
      var k := 0;
      while k < cfg.sizes.banksPerGroup
        invariant k <= cfg.sizes.banksPerGroup && FannedUpTo(was, banks, selected, cs, clk, i, j, k)
      {
        var id := BankId(i, j, k);
        assert id in was;
        if selected(id) {
          var b := ConstrainBank(banks[id], cs, clk);
          FanStep(was, banks, selected, cs, clk, i, j, k, banks[id := b]);
          banks := banks[id := b];
        } else {
          FanStep(was, banks, selected, cs, clk, i, j, k, banks);
        }
        k := k + 1;
      }
      NextRow(cfg, was, banks, selected, cs, clk, i, j);
    }

    /** The fan-out loops: every selected bank takes over a list of constraints. */
    method FanOut(selected: BankId -> bool, cs: seq<Constraint>, clk: nat)
      requires Populated(cfg, banks)
      modifies this`banks
      ensures banks == Fanned(old(banks), selected, cs, clk)
    {
      ghost var was := banks;
      var i := 0;
      while i < cfg.sizes.ranks
        invariant i <= cfg.sizes.ranks && FannedUpTo(was, banks, selected, cs, clk, i, 0, 0)
      {
        var j := 0;
        while j < cfg.sizes.bankgroups
          invariant j <= cfg.sizes.bankgroups && FannedUpTo(was, banks, selected, cs, clk, i, j, 0)
        {
          FanRow(was, selected, cs, clk, i, j);
          j := j + 1;
        }
        NextRank(cfg, was, banks, selected, cs, clk, i);
        i := i + 1;
      }
      AllFanned(cfg, was, banks, selected, cs, clk);
    }

    method UpdateActivationTimes(rank: int, clk: nat)
      requires 0 <= rank < |fourAw| == |thirtyTwoAw|
      modifies this`fourAw, this`thirtyTwoAw
      ensures fourAw == old(fourAw)[rank := SlideWindow(old(fourAw)[rank], cfg.tFAW, clk)]
      ensures thirtyTwoAw == if cfg.isGddr
        then old(thirtyTwoAw)[rank := SlideWindow(old(thirtyTwoAw)[rank], cfg.t32AW, clk)] else old(thirtyTwoAw)
    {
      if fourAw[rank] != [] && clk >= fourAw[rank][0] { fourAw := fourAw[rank := fourAw[rank][1..]]; }
      fourAw := fourAw[rank := fourAw[rank] + [clk + cfg.tFAW]];
      if cfg.isGddr {
        if thirtyTwoAw[rank] != [] && clk >= thirtyTwoAw[rank][0] {
          thirtyTwoAw := thirtyTwoAw[rank := thirtyTwoAw[rank][1..]];
        }
        thirtyTwoAw := thirtyTwoAw[rank := thirtyTwoAw[rank] + [clk + cfg.t32AW]];
      }
    }

    /** TriggerSameRankAlert, or TriggerSameBankAlert with a range of one bank. */
    method TriggerAlert(cmd: Command, clk: nat)
      requires Sized() && Addressable(cfg, cmd)
      modifies this`alert, this`lastAlertClk
      ensures var wanted := AlertWanted(cfg, old(View()), cmd);
        alert == (old(alert) || wanted) && lastAlertClk == if wanted then clk else old(lastAlertClk)
    {
      if alert || actsAbo < cfg.aboDelayActs || cfg.alertMode != 1 { return; }
      var wanted;
      if cmd.ty.IsRankCmd() || cmd.ty.IsSbCmd() {
        wanted := SomeBankAlerts(cmd.addr.rank);
      } else {
        wanted := CheckAlert(cfg, banks[cmd.Id()]);
      }
      if wanted { alert, lastAlertClk := true, clk; }
    }

    method SomeBankAlerts(rank: int) returns (b: bool)
      requires Sized() && cfg.HasRank(rank)
      ensures b <==> exists id <- banks :: id.rank == rank && CheckAlert(cfg, banks[id])
    {
      var j := 0;
      while j < cfg.sizes.bankgroups
        invariant j <= cfg.sizes.bankgroups
        invariant forall id <- banks :: id.rank == rank && id.bankgroup < j ==> !CheckAlert(cfg, banks[id])
      {
        var k := 0;
        while k < cfg.sizes.banksPerGroup
          invariant k <= cfg.sizes.banksPerGroup
          invariant forall id <- banks ::
            id.rank == rank && (id.bankgroup < j || (id.bankgroup == j && id.bank < k)) ==> !CheckAlert(cfg, banks[id])
        {
          var id := BankId(rank, j, k);
          assert id in banks;
          if CheckAlert(cfg, banks[id]) { return true; }
          k := k + 1;
        }
        j := j + 1;
      }
      return false;
    }

    /** The fan-out of UpdateTiming: each relation to the issued command has its own table. */
    method SpreadTiming(cmd: Command, clk: nat)
      requires Populated(cfg, banks) && Addressable(cfg, cmd)
      modifies this`banks
      ensures banks == SpreadTo(cfg, old(banks), cmd, clk)
    {
      var a, t, ty := cmd.addr, cfg.timing, cmd.ty;
      ghost var w := banks;
      if ty.IsRankCmd() {
        var s1 := (id: BankId) => id.rank == a.rank;
        FanOut(s1, t.sameRank(ty), clk);
        forall id | id in w ensures banks[id] == SpreadTo(cfg, w, cmd, clk)[id] {
          FannedAt(w, s1, t.sameRank(ty), clk, id);
        }
      } else if ty.IsSbCmd() {
        SpreadBanksetTiming(cmd, clk);
      } else {
        SpreadBankTiming(cmd, clk);
      }
    }

    method SpreadBanksetTiming(cmd: Command, clk: nat)
      requires Populated(cfg, banks) && Addressable(cfg, cmd) && cmd.ty.IsSbCmd()
      modifies this`banks
      ensures banks == SpreadTo(cfg, old(banks), cmd, clk)
    {
      var a, t, ty := cmd.addr, cfg.timing, cmd.ty;
      var s1, s2 := (id: BankId) => id.rank == a.rank && id.bank == a.bank, (id: BankId) => id.bank != a.bank;
      ghost var w := banks;
      FanOut(s1, t.sameBankset(ty), clk);
      ghost var w1 := banks;
      FanOut(s2, t.otherBanksets(ty), clk);
      forall id | id in w ensures banks[id] == SpreadTo(cfg, w, cmd, clk)[id] {
        FannedAt(w, s1, t.sameBankset(ty), clk, id);
        FannedAt(w1, s2, t.otherBanksets(ty), clk, id);
      }
    }

    method SpreadBankTiming(cmd: Command, clk: nat)
      requires Populated(cfg, banks) && Addressable(cfg, cmd) && !cmd.ty.IsRankCmd() && !cmd.ty.IsSbCmd()
      modifies this`banks
      ensures banks == SpreadTo(cfg, old(banks), cmd, clk)
    {
      var a, t, ty := cmd.addr, cfg.timing, cmd.ty;
      ghost var w := banks;
      var s1 := (id: BankId) => id == BankId(a.rank, a.bankgroup, a.bank);
      var s2 := (id: BankId) => id.rank == a.rank && id.bankgroup == a.bankgroup && id.bank != a.bank;
      var s3 := (id: BankId) => id.rank == a.rank && id.bankgroup != a.bankgroup;
      var s4 := (id: BankId) => id.rank != a.rank;
      FanOut(s1, t.sameBank(ty), clk);
      ghost var w1 := banks;
      FanOut(s2, t.otherBanksSameBankgroup(ty), clk);
      ghost var w2 := banks;
      FanOut(s3, t.otherBankgroupsSameRank(ty), clk);
      ghost var w3 := banks;
      FanOut(s4, t.otherRanks(ty), clk);
      BankFans(cfg, cmd, clk, w, w1, w2, w3, banks, s1, s2, s3, s4);
    }

    /** The counters, windows and alert of UpdateTiming, before the fan-out. */
    method UpdateWindows(cmd: Command, clk: nat)
      requires Sized() && Addressable(cfg, cmd) && cmd.ty != SrefEnter
      modifies this`fourAw, this`thirtyTwoAw, this`actsAbo
      ensures actsAbo == ActsAfter(old(View()), cmd.ty)
      ensures fourAw == if cmd.ty == Activate
        then old(fourAw)[cmd.addr.rank := SlideWindow(old(fourAw)[cmd.addr.rank], cfg.tFAW, clk)] else old(fourAw)
      ensures thirtyTwoAw == if cmd.ty == Activate && cfg.isGddr
        then old(thirtyTwoAw)[cmd.addr.rank := SlideWindow(old(thirtyTwoAw)[cmd.addr.rank], cfg.t32AW, clk)]
        else old(thirtyTwoAw)
    {
      if cmd.ty == Activate {
        actsAbo := actsAbo + 1;
        UpdateActivationTimes(cmd.addr.rank, clk);
      } else if cmd.ty == RfmAb {
        actsAbo := 0;
      }
    }

    method UpdateTiming(cmd: Command, clk: nat)
      requires Sized() && Addressable(cfg, cmd) && cmd.ty != SrefEnter
      modifies this`banks, this`fourAw, this`thirtyTwoAw, this`alert, this`lastAlertClk, this`actsAbo
      ensures View() == TimingAfter(cfg, old(View()), cmd, clk)
    {
      UpdateWindows(cmd, clk);
      ghost var ch := View();
      if Triggers(cmd.ty) { TriggerAlert(cmd, clk); }
      SpreadTiming(cmd, clk);
      TimingParts(cfg, old(View()), ch, View(), cmd, clk);
    }

    /** UpdateTimingAndStates; false where the source exits. */
    method UpdateTimingAndStates(cmd: Command, clk: nat, rnd: nat) returns (ok: bool)
      requires cfg.Valid() && View().Valid(cfg) && Addressable(cfg, cmd) && cmd.ty != SrefEnter
      modifies this`banks, this`refreshQ, this`rfmQ, this`fourAw, this`thirtyTwoAw
      modifies this`alert, this`lastAlertClk, this`actsAbo
      ensures ok <==> Issued(cfg, old(View()), cmd, clk, rnd).Some?
      ensures ok ==> Issued(cfg, old(View()), cmd, clk, rnd) == Some(View())
    {
      ok := UpdateStates(cmd, rnd);
      if ok { UpdateTiming(cmd, clk); }
    }
  }

  // ----- The loops' invariants -----

  /** A block of banks of one rank. */
  datatype Box = Box(rank: int, g0: nat, g1: nat, b0: nat, b1: nat)
  {
    predicate Fits(cfg: Config, r: int) {
      rank == r && cfg.HasRank(rank) && g0 <= g1 <= cfg.sizes.bankgroups && b0 <= b1 <= cfg.sizes.banksPerGroup
    }

    predicate Has(id: BankId) { id.rank == rank && g0 <= id.bankgroup < g1 && b0 <= id.bank < b1 }

    /** The banks of the block before (j, k) in loop order. */
    predicate Upto(id: BankId, j: int, k: int) {
      Has(id) && (id.bankgroup < j || (id.bankgroup == j && id.bank < k))
    }
  }

  /** What the loops over banks rely on. */
  ghost predicate Stepping(cfg: Config, was: map<BankId, Bank>, cmd: Command) {
    && Populated(cfg, was) && (forall id <- was :: was[id].Valid(cfg)) && cmd.ty != SrefEnter
    && (cmd.ty == Activate ==> cfg.HasRow(cmd.addr.row))
  }

  /** Every bank as the command would leave it. */
  ghost function Target(cfg: Config, was: map<BankId, Bank>, cmd: Command, rnd: nat): map<BankId, Bank>
    requires cfg.Valid() && Stepping(cfg, was, cmd)
  {
    map id | id in was :: Stepped(cfg, was[id], cmd, rnd)
  }

  ghost predicate SteppedUpTo(was: map<BankId, Bank>, target: map<BankId, Bank>, now: map<BankId, Bank>,
                              ty: CommandType, box: Box, j: int, k: int) {
    && now.Keys == was.Keys == target.Keys
    && (forall id <- was :: box.Upto(id, j, k) ==> was[id].Legal(ty))
    && forall id <- was :: now[id] == if box.Upto(id, j, k) then target[id] else was[id]
  }

  lemma StepOne(was: map<BankId, Bank>, target: map<BankId, Bank>, now: map<BankId, Bank>, ty: CommandType, box: Box,
                j: nat, k: nat)
    requires SteppedUpTo(was, target, now, ty, box, j, k) && box.g0 <= j < box.g1 && box.b0 <= k < box.b1
    requires BankId(box.rank, j, k) in was && was[BankId(box.rank, j, k)].Legal(ty)
    ensures SteppedUpTo(was, target, now[BankId(box.rank, j, k) := target[BankId(box.rank, j, k)]], ty, box, j, k + 1)
  {
    var at := BankId(box.rank, j, k);
    forall id <- was ensures box.Upto(id, j, k + 1) <==> box.Upto(id, j, k) || id == at {}
  }

  lemma StepNextRow(was: map<BankId, Bank>, target: map<BankId, Bank>, now: map<BankId, Bank>, ty: CommandType,
                    box: Box, j: nat)
    requires SteppedUpTo(was, target, now, ty, box, j, box.b1)
    ensures SteppedUpTo(was, target, now, ty, box, j + 1, box.b0)
  {
    forall id <- was ensures box.Upto(id, j + 1, box.b0) <==> box.Upto(id, j, box.b1) {}
  }

  lemma AllStepped(cfg: Config, ch: Channel, now: map<BankId, Bank>, cmd: Command, rnd: nat, box: Box)
    requires cfg.Valid() && ch.Valid(cfg) && Addressable(cfg, cmd) && cmd.ty != SrefEnter
    requires LegalEverywhere(cfg, ch, cmd)
    requires SteppedUpTo(ch.banks, Target(cfg, ch.banks, cmd, rnd), now, cmd.ty, box, box.g1, box.b0)
    requires forall id :: cfg.HasBank(id) ==> (box.Has(id) <==> cmd.Touches(id))
    ensures now == BanksAfter(cfg, ch, cmd, rnd)
  {
    var after := BanksAfter(cfg, ch, cmd, rnd);
    forall id | id in ch.banks ensures now[id] == after[id] {
      assert box.Upto(id, box.g1, box.b0) <==> cmd.Touches(id);
    }
  }

  /** The four relations of a single-bank command, one after the other, give each bank its own table once. */
  lemma BankFans(cfg: Config, cmd: Command, clk: nat, w: map<BankId, Bank>, w1: map<BankId, Bank>,
                 w2: map<BankId, Bank>, w3: map<BankId, Bank>, w4: map<BankId, Bank>, s1: BankId -> bool,
                 s2: BankId -> bool, s3: BankId -> bool, s4: BankId -> bool)
    requires !cmd.ty.IsRankCmd() && !cmd.ty.IsSbCmd()
    requires w1 == Fanned(w, s1, cfg.timing.sameBank(cmd.ty), clk)
    requires w2 == Fanned(w1, s2, cfg.timing.otherBanksSameBankgroup(cmd.ty), clk)
    requires w3 == Fanned(w2, s3, cfg.timing.otherBankgroupsSameRank(cmd.ty), clk)
    requires w4 == Fanned(w3, s4, cfg.timing.otherRanks(cmd.ty), clk)
    requires forall id :: s1(id) <==> id == cmd.Id()
    requires forall id :: s2(id) <==>
      id.rank == cmd.addr.rank && id.bankgroup == cmd.addr.bankgroup && id.bank != cmd.addr.bank
    requires forall id :: s3(id) <==> id.rank == cmd.addr.rank && id.bankgroup != cmd.addr.bankgroup
    requires forall id :: s4(id) <==> id.rank != cmd.addr.rank
    ensures w4 == SpreadTo(cfg, w, cmd, clk)
  {
    var after := SpreadTo(cfg, w, cmd, clk);
    forall id | id in w ensures w4[id] == after[id] {
      FannedAt(w, s1, cfg.timing.sameBank(cmd.ty), clk, id);
      FannedAt(w1, s2, cfg.timing.otherBanksSameBankgroup(cmd.ty), clk, id);
      FannedAt(w2, s3, cfg.timing.otherBankgroupsSameRank(cmd.ty), clk, id);
      FannedAt(w3, s4, cfg.timing.otherRanks(cmd.ty), clk, id);
    }
  }

  lemma FannedAt(w: map<BankId, Bank>, s: BankId -> bool, cs: seq<Constraint>, clk: nat, id: BankId)
    requires id in w
    ensures id in Fanned(w, s, cs, clk)
    ensures Fanned(w, s, cs, clk)[id] == if s(id) then Constrain(w[id], cs, clk) else w[id]
  {}

  /** Every bank constrained by the table of its relation to the command. */
  ghost function SpreadTo(cfg: Config, was: map<BankId, Bank>, cmd: Command, clk: nat): map<BankId, Bank> {
    map id | id in was :: Constrain(was[id], Constraints(cfg, cmd, id), clk)
  }

  ghost function Fanned(was: map<BankId, Bank>, selected: BankId -> bool, cs: seq<Constraint>, clk: nat)
    : map<BankId, Bank> {
    map id | id in was :: if selected(id) then Constrain(was[id], cs, clk) else was[id]
  }

  ghost predicate FannedUpTo(was: map<BankId, Bank>, now: map<BankId, Bank>, selected: BankId -> bool,
                             cs: seq<Constraint>, clk: nat, i: int, j: int, k: int) {
    && now.Keys == was.Keys
    && forall id <- was ::
         now[id] == if selected(id) && Before(id, i, j, k) then Constrain(was[id], cs, clk) else was[id]
  }

  lemma NextRow(cfg: Config, was: map<BankId, Bank>, now: map<BankId, Bank>, selected: BankId -> bool,
                cs: seq<Constraint>, clk: nat, i: int, j: int)
    requires Populated(cfg, was) && FannedUpTo(was, now, selected, cs, clk, i, j, cfg.sizes.banksPerGroup)
    ensures FannedUpTo(was, now, selected, cs, clk, i, j + 1, 0)
  {}

  lemma NextRank(cfg: Config, was: map<BankId, Bank>, now: map<BankId, Bank>, selected: BankId -> bool,
                 cs: seq<Constraint>, clk: nat, i: int)
    requires Populated(cfg, was) && FannedUpTo(was, now, selected, cs, clk, i, cfg.sizes.bankgroups, 0)
    ensures FannedUpTo(was, now, selected, cs, clk, i + 1, 0, 0)
  {}

  lemma FanStep(was: map<BankId, Bank>, now: map<BankId, Bank>, selected: BankId -> bool, cs: seq<Constraint>,
                clk: nat, i: int, j: int, k: int, next: map<BankId, Bank>)
    requires FannedUpTo(was, now, selected, cs, clk, i, j, k) && BankId(i, j, k) in was
    requires var at := BankId(i, j, k); next == if selected(at) then now[at := Constrain(now[at], cs, clk)] else now
    ensures FannedUpTo(was, next, selected, cs, clk, i, j, k + 1)
  {
    var at := BankId(i, j, k);
    forall id <- was ensures Before(id, i, j, k + 1) <==> Before(id, i, j, k) || id == at {}
  }

  lemma AllFanned(cfg: Config, was: map<BankId, Bank>, now: map<BankId, Bank>, selected: BankId -> bool,
                  cs: seq<Constraint>, clk: nat)
    requires Populated(cfg, was) && FannedUpTo(was, now, selected, cs, clk, cfg.sizes.ranks, 0, 0)
    ensures now == Fanned(was, selected, cs, clk)
  {
    var after := Fanned(was, selected, cs, clk);
    forall id | id in was ensures now[id] == after[id] { assert Before(id, cfg.sizes.ranks, 0, 0); }
  }

  /** The alert does not look at the windows. */
  lemma WantedSame(cfg: Config, ch: Channel, ch1: Channel, cmd: Command)
    requires ch1.banks == ch.banks && ch1.alert == ch.alert && ch1.actsAbo == ch.actsAbo
    ensures AlertWanted(cfg, ch1, cmd) == AlertWanted(cfg, ch, cmd)
  {}

  /** TimingAfter, field by field. */
  lemma TimingParts(cfg: Config, ch: Channel, ch1: Channel, ch': Channel, cmd: Command, clk: nat)
    requires |ch.fourAw| == |ch.thirtyTwoAw| == cfg.sizes.ranks && Addressable(cfg, cmd)
    requires ch1 == ch.(actsAbo := ActsAfter(ch, cmd.ty), fourAw := ch1.fourAw, thirtyTwoAw := ch1.thirtyTwoAw)
    requires ch1.fourAw == if cmd.ty == Activate
      then ch.fourAw[cmd.addr.rank := SlideWindow(ch.fourAw[cmd.addr.rank], cfg.tFAW, clk)] else ch.fourAw
    requires ch1.thirtyTwoAw == if cmd.ty == Activate && cfg.isGddr
      then ch.thirtyTwoAw[cmd.addr.rank := SlideWindow(ch.thirtyTwoAw[cmd.addr.rank], cfg.t32AW, clk)]
      else ch.thirtyTwoAw
    requires var raise := Triggers(cmd.ty) && AlertWanted(cfg, ch1, cmd);
      ch' == ch1.(alert := ch.alert || raise, lastAlertClk := if raise then clk else ch.lastAlertClk,
                  banks := SpreadTo(cfg, ch.banks, cmd, clk))
    ensures ch' == TimingAfter(cfg, ch, cmd, clk)
  {
    WantedSame(cfg, ch.(actsAbo := ActsAfter(ch, cmd.ty)), ch1, cmd);
  }
}
