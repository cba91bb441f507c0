/** One clock tick of the controller object (DRAMsim3/src/controller.cc:64-145). */
module ControllerClock {
  import opened Commands
  import opened Configuration
  import opened BankStates
  import opened ChannelStates
  import opened CommandQueues
  import opened Controllers
  import opened TickCore
  import opened ControllerRuns
  import opened ControllerObjects

  /** The controller after the selection, before the selected command is issued. */
  function AfterSelect(s: Controller, p: Pick): Controller { s.(cq := p.cq, ch := s.ch.(rfmQ := p.rfmQ)) }

  /** A tick from a reachable state, step by step: the selection has a command that may be issued, or none. */
  lemma TickParts(cfg: Config, s: Controller, e: TickInput) returns (p: Pick, mid: Controller, s2: Controller)
    requires cfg.Valid() && Inv(cfg, s) && InputOk(cfg, e) && Servable(cfg, Due(s, e).ch)
    ensures Due(s, e).ch.Valid(cfg) && Due(s, e).cq.Usable(cfg)
    ensures p == Select(cfg, Due(s, e), e.coin) && mid == AfterSelect(Due(s, e), p)
    ensures Tick(cfg, s, e) == Some(NextCycle(Schedule(cfg, s2))) && Inv(cfg, NextCycle(Schedule(cfg, s2)))
    ensures MayIssue(cfg, p, mid, s2, e.rnd)
  {
    var s1 := Due(s, e);
    var s', p0, k0, j0 := TickKeeps(cfg, s, e);
    p := Select(cfg, s1, e.coin);
    mid := AfterSelect(s1, p);
    s2 := Act(cfg, s1, p, e.rnd).value;
    ActParts(cfg, s1, p, mid, s2, e.rnd);
  }

  ghost predicate MayIssue(cfg: Config, p: Pick, mid: Controller, s2: Controller, rnd: nat)
    requires cfg.Valid()
  {
    match p.ready
    case Exit => false
    case NotReady => s2 == mid
    case Issue(c) =>
      && mid.ch.Valid(cfg) && Addressable(cfg, c) && c.ty != SrefEnter
      && Controllers.IssueCommand(cfg, mid, c, rnd) == Some(s2)
  }

  lemma ActParts(cfg: Config, s1: Controller, p: Pick, mid: Controller, s2: Controller, rnd: nat)
    requires cfg.Valid() && mid == AfterSelect(s1, p) && Act(cfg, s1, p, rnd) == Some(s2)
    ensures MayIssue(cfg, p, mid, s2, rnd)
  {}

  /** A tick that throws while it selects. */
  lemma TickStops(cfg: Config, s: Controller, e: TickInput) returns (p: Pick)
    requires cfg.Valid() && Inv(cfg, s) && InputOk(cfg, e) && !Servable(cfg, Due(s, e).ch)
    ensures Due(s, e).ch.Valid(cfg) && Due(s, e).cq.Usable(cfg)
    ensures p == Select(cfg, Due(s, e), e.coin) && p.ready == Exit && Tick(cfg, s, e) == None
  {
    DueKeepsCore(cfg, s, e);
    SelectThrows(cfg, Due(s, e), e.coin);
    TickThrows(cfg, s, e);
    p := Select(cfg, Due(s, e), e.coin);
  }

  /** ClockTick: the object goes through exactly the tick of its value and keeps the invariant; it fails exactly where
      the source throws. */
  method ClockTick(m: MemoryController, e: TickInput) returns (ok: bool)
    requires m.Linked() && Inv(m.cfg, m.View()) && InputOk(m.cfg, e)
    modifies m, m.ch, m.cq
    ensures ok <==> Servable(m.cfg, old(Due(m.View(), e).ch))
    ensures Tick(m.cfg, old(m.View()), e) == if ok then Some(m.View()) else None
    ensures ok ==> m.Linked() && Inv(m.cfg, m.View())
  {
    ghost var p, mid, s2;
    if Servable(m.cfg, Due(m.View(), e).ch) {
      p, mid, s2 := TickParts(m.cfg, m.View(), e);
    } else {
      p := TickStops(m.cfg, m.View(), e);
      mid, s2 := AfterSelect(Due(m.View(), e), p), m.View();
    }
    ok := Advance(m, e, m.View(), p, mid, s2);
  }

  /** The statements of a tick. */
  method Advance(m: MemoryController, e: TickInput, ghost s: Controller, ghost p: Pick, ghost mid: Controller,
                 ghost s2: Controller)
    returns (ok: bool)
    requires m.Linked() && m.View() == s && Due(s, e).ch.Valid(m.cfg) && Due(s, e).cq.Usable(m.cfg)
    requires p == Select(m.cfg, Due(s, e), e.coin) && mid == AfterSelect(Due(s, e), p)
    requires p.ready.Exit? || MayIssue(m.cfg, p, mid, s2, e.rnd)
    modifies m, m.ch, m.cq
    ensures ok <==> !p.ready.Exit?
    ensures ok ==> m.Linked() && m.View() == NextCycle(Schedule(m.cfg, s2))
  {
    m.ch.refreshQ := m.ch.refreshQ + e.due;
    assert m.View() == Due(s, e);
    ok := Issue(m, e, p, mid, s2);
    if !ok { return; }
    m.ScheduleTransaction();
    m.clk := m.clk + 1;
  }

  /** Select a command and issue it. */
  method Issue(m: MemoryController, e: TickInput, ghost p: Pick, ghost mid: Controller, ghost s2: Controller)
    returns (ok: bool)
    requires m.Linked() && m.ch.View().Valid(m.cfg) && m.cq.View().Usable(m.cfg)
    requires p == Select(m.cfg, m.View(), e.coin) && mid == AfterSelect(m.View(), p)
    requires p.ready.Exit? || MayIssue(m.cfg, p, mid, s2, e.rnd)
    modifies m, m.ch, m.cq
    ensures ok <==> !p.ready.Exit?
    ensures ok ==> m.Linked() && m.View() == s2
  {
    var r := m.SelectCommand(e.coin);
    assert m.View() == mid;
    if r.Exit? { return false; }
    ok := true;
    if r.Issue? {
      ok := m.IssueCommand(r.cmd, e.rnd);
    }
  }
}
