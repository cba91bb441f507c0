/** A pending rank refresh drains its rank: until it issues, no bank of the rank is activated, and every
    command the rank receives is a precharge that lowers its number of open banks
    (DRAMsim3/src/command_queue.cc, DRAMsim3/src/channel_state.cc). */
module RefreshDrain {
  import opened Commands
  import opened Configuration
  import opened BankStates
  import opened ChannelStates
  import opened ChannelRuns
  import opened CommandQueues
  import opened Controllers
  import opened TickCore
  import opened ControllerRuns

  ghost function OpenBanks(ch: Channel, rank: int): set<BankId> {
    set id | id in ch.banks && id.rank == rank && ch.banks[id].state == Open
  }

  /** The oldest pending refresh is a REFab of the rank. */
  ghost predicate RankRefreshPending(ch: Channel, rank: int) {
    ch.refreshQ != [] && ch.refreshQ[0].ty == RefAb && ch.refreshQ[0].addr.rank == rank
  }

  /** A command that may issue ahead of a pending refresh of the rank: to the rank, only a precharge. */
  predicate DrainCommand(cfg: Config, c: Command, rank: int) {
    && (c.ty.IsReadWrite() || c.ty == Activate || c.ty.IsPrecharge())
    && (c.addr.rank == rank ==> c.ty.IsPrecharge())
    && cfg.HasBank(c.Id())
  }

  /** While the rank's refresh is pending, only precharges reach the rank. */
  lemma OnlyPrecharges(cfg: Config, s: Controller, p: Pick, k: nat, j: nat, rank: int)
    requires cfg.Valid() && CoreInv(cfg, s) && Selected(cfg, s, p, k, j) && p.ready.Issue?
    requires RankRefreshPending(s.ch, rank) && p.ready.cmd != s.ch.refreshQ[0]
    ensures DrainCommand(cfg, p.ready.cmd, rank)
  {
    var c := p.ready.cmd;
    assert !c.ty.IsRefresh() && !c.ty.IsRfm();
    HeldCovers(cfg, s.ch.refreshQ[0], c.Id());
    if c.ty.IsReadWrite() { assert Queued(cfg, s.cq.queues[k][j], k); }
  }

  /** One bank of the rank across the issue of such a command. */
  lemma BankAcross(cfg: Config, ch: Channel, c: Command, clk: nat, rnd: nat, id: BankId)
    requires cfg.Valid() && ch.Valid(cfg) && Issuable(cfg, ch, c, clk) && cfg.HasBank(id)
    requires c.ty.IsReadWrite() || c.ty == Activate || c.ty.IsPrecharge()
    ensures Issued(cfg, ch, c, clk, rnd).Some? && id in Issued(cfg, ch, c, clk, rnd).value.banks
    ensures var b' := Issued(cfg, ch, c, clk, rnd).value.banks[id];
      && (id != c.Id() ==> b'.state == ch.banks[id].state)
      && (id == c.Id() && c.ty.IsPrecharge() ==> ch.banks[id].state == Open && b'.state == Closed)
  {
    IssuedBank(cfg, ch, c, clk, rnd, id);
  }

  lemma OpenBanksShrink(cfg: Config, ch: Channel, c: Command, clk: nat, rnd: nat, rank: int)
    requires cfg.Valid() && ch.Valid(cfg) && Issuable(cfg, ch, c, clk) && DrainCommand(cfg, c, rank)
    ensures Issued(cfg, ch, c, clk, rnd).Some?
    ensures var ch' := Issued(cfg, ch, c, clk, rnd).value;
      && OpenBanks(ch', rank) <= OpenBanks(ch, rank)
      && (c.addr.rank == rank ==> OpenBanks(ch', rank) < OpenBanks(ch, rank))
      && ch'.refreshQ == ch.refreshQ
  {
    IssuedValid(cfg, ch, c, clk, rnd);
    QueuesAfterIssue(cfg, ch, c, clk, rnd);
    var ch' := Issued(cfg, ch, c, clk, rnd).value;
    forall id | id in OpenBanks(ch', rank) ensures id in OpenBanks(ch, rank) && id != c.Id() {
      BankAcross(cfg, ch, c, clk, rnd, id);
    }
    if c.addr.rank == rank {
      BankAcross(cfg, ch, c, clk, rnd, c.Id());
      assert c.Id() in OpenBanks(ch, rank);
    }
  }

  lemma RefreshNeedsClosed(cfg: Config, ch: Channel, c: Command, clk: nat)
    requires ch.Valid(cfg) && Issuable(cfg, ch, c, clk) && c.ty == RefAb
    ensures OpenBanks(ch, c.addr.rank) == {}
  {
    forall id | id in ch.banks && id.rank == c.addr.rank ensures ch.banks[id].state == Closed {
      assert cfg.HasBank(id) && c.Touches(id);
    }
  }

  /** Drain step: either the refresh issues, with every bank of the rank closed, or it stays first in line
      and the set of open banks shrinks, strictly if the rank received a command. */
  lemma DrainStep(cfg: Config, s: Controller, p: Pick, rnd: nat, ch': Channel, log': seq<Event>, rank: int)
    requires cfg.Valid() && s.ch.Valid(cfg) && ChannelStep(cfg, s, p, rnd, ch', log') && RankRefreshPending(s.ch, rank)
    requires p.ready.Issue? && p.ready.cmd != s.ch.refreshQ[0] ==> DrainCommand(cfg, p.ready.cmd, rank)
    ensures p.ready == Issue(s.ch.refreshQ[0]) ==> OpenBanks(s.ch, rank) == {}
    ensures p.ready != Issue(s.ch.refreshQ[0]) ==>
      ch'.refreshQ == s.ch.refreshQ && OpenBanks(ch', rank) <= OpenBanks(s.ch, rank)
    ensures p.ready != Issue(s.ch.refreshQ[0]) && p.ready.Issue? && p.ready.cmd.addr.rank == rank ==>
      p.ready.cmd.ty.IsPrecharge() && OpenBanks(ch', rank) < OpenBanks(s.ch, rank)
  {
    var ch := s.ch.(rfmQ := p.rfmQ);
    assert OpenBanks(ch, rank) == OpenBanks(s.ch, rank);
    if p.ready.Issue? {
      if p.ready.cmd == s.ch.refreshQ[0] {
        RefreshNeedsClosed(cfg, ch, p.ready.cmd, s.clk);
      } else {
        OpenBanksShrink(cfg, ch, p.ready.cmd, s.clk, rnd, rank);
      }
    }
  }
}
