/** The multi-channel memory system: requests go to the controller their address decodes to, and a cycle calls back
    everything that is complete and then ticks every controller (DRAMsim3/src/dram_system.cc:128-175). */
module DramSystems {
  import opened Commands
  import opened Configuration
  import opened CommandQueues
  import opened Controllers
  import opened DataRefinement
  import opened ControllerRuns
  import T = Theorems

  /** `sent` observes the accepted requests of all channels in order. */
  datatype System = System(ctrls: seq<Controller>, sent: seq<Request>)

  function ChannelOf(cfg: Config, addr: nat): int { cfg.decode(addr).channel }

  /** JedecDRAMSystem::AddTransaction: the controller is asked first; a refused request changes nothing. */
  function Send(cfg: Config, m: System, addr: nat, isWrite: bool): (r: (System, bool))
    requires cfg.Valid() && |m.ctrls| == cfg.sizes.channels
  {
    assert cfg.Hits(cfg.decode(addr));
    var c := ChannelOf(cfg, addr);
    if !WillAccept(cfg, m.ctrls[c], isWrite) then (m, false)
    else (System(m.ctrls[c := AddTransaction(cfg, m.ctrls[c], addr, isWrite)], m.sent + [Request(addr, isWrite)]), true)
  }

  datatype SysStep = Arrive(addr: nat, isWrite: bool) | Cycle(inputs: seq<TickInput>)

  /** A controller's share of JedecDRAMSystem::ClockTick. */
  ghost predicate Cycled(cfg: Config, s: Controller, e: TickInput, s': Controller)
    requires cfg.Valid()
  {
    InputOk(cfg, e) && s.ch.Valid(cfg) && s.cq.Usable(cfg) && Tick(cfg, ReturnAll(s), e) == Some(s')
  }

  ghost predicate SysStepsTo(cfg: Config, m: System, step: SysStep, m': System)
    requires cfg.Valid()
  {
    |m.ctrls| == cfg.sizes.channels &&
    match step
    case Arrive(a, w) => m' == Send(cfg, m, a, w).0
    case Cycle(es) =>
      && |es| == |m'.ctrls| == |m.ctrls| && m'.sent == m.sent
      && forall c :: 0 <= c < |m.ctrls| ==> Cycled(cfg, m.ctrls[c], es[c], m'.ctrls[c])
  }

  function PowerUp(cfg: Config, sel: nat -> (BankId -> nat)): System
    requires cfg.Valid()
  {
    System(seq(cfg.sizes.channels, c requires 0 <= c && cfg.Valid() => InitController(cfg, sel(c))), [])
  }

  /** A run of the system: every bank of every channel starts with a MOPAC draw of its own. */
  ghost predicate SysRun(cfg: Config, sel: nat -> (BankId -> nat), states: seq<System>, steps: seq<SysStep>)
    requires cfg.Valid()
  {
    && |states| == |steps| + 1
    && states[0] == PowerUp(cfg, sel)
    && forall i :: 0 <= i < |steps| ==> SysStepsTo(cfg, states[i], steps[i], states[i + 1])
  }

  // ----- Routing -----

  /** The requests of one channel, in order. */
  function Routed(cfg: Config, h: seq<Request>, c: int): seq<Request> {
    if h == [] then []
    else
      var front, last := Routed(cfg, h[..|h| - 1], c), h[|h| - 1];
      if ChannelOf(cfg, last.addr) == c then front + [last] else front
  }

  /** Position in the whole history of the n-th request of a channel. */
  function Place(cfg: Config, h: seq<Request>, c: int, n: nat): (g: nat)
    requires n < |Routed(cfg, h, c)|
    ensures g < |h| && h[g] == Routed(cfg, h, c)[n]
  {
    var last := |h| - 1;
    if n < |Routed(cfg, h[..last], c)| then Place(cfg, h[..last], c, n) else last
  }

  function Lift(cfg: Config, h: seq<Request>, c: int, n: Option<nat>): Option<nat>
    requires n.Some? ==> n.value < |Routed(cfg, h, c)|
  {
    match n case None => None case Some(k) => Some(Place(cfg, h, c, k))
  }

  lemma {:induction false} LatestInHistory(h: seq<Request>, a: nat)
    ensures LatestWrite(h, a).Some? ==> LatestWrite(h, a).value < |h|
  {
    if h != [] && h[|h| - 1] != Request(a, true) { LatestInHistory(h[..|h| - 1], a); }
  }

  /** The requests of a channel before its n-th are those of the history before that one's place. */
  lemma {:induction false} RoutedPrefix(cfg: Config, h: seq<Request>, c: int, n: nat)
    requires n < |Routed(cfg, h, c)|
    ensures Routed(cfg, h[..Place(cfg, h, c, n)], c) == Routed(cfg, h, c)[..n]
  {
    var last := |h| - 1;
    var front := Routed(cfg, h[..last], c);
    if n < |front| {
      RoutedPrefix(cfg, h[..last], c, n);
      assert h[..last][..Place(cfg, h[..last], c, n)] == h[..Place(cfg, h, c, n)];
    }
  }

  /** The last write of the whole history is the last write of the address's channel. */
  lemma {:induction false} LatestRouted(cfg: Config, h: seq<Request>, a: nat)
    ensures var r := Routed(cfg, h, ChannelOf(cfg, a));
      && (LatestWrite(r, a).Some? ==> LatestWrite(r, a).value < |r|)
      && LatestWrite(h, a) == Lift(cfg, h, ChannelOf(cfg, a), LatestWrite(r, a))
  {
    var c := ChannelOf(cfg, a);
    var r := Routed(cfg, h, c);
    LatestInHistory(r, a);
    if h != [] {
      var front, last := h[..|h| - 1], h[|h| - 1];
      LatestRouted(cfg, front, a);
      if ChannelOf(cfg, last.addr) == c {
        assert r[..|r| - 1] == Routed(cfg, front, c);
      }
    }
  }

  /** The n-th request of a channel keeps its place as the history grows. */
  lemma {:induction false} PlaceInPrefix(cfg: Config, h: seq<Request>, c: int, n: nat, k: nat)
    requires n < |Routed(cfg, h, c)| && k < n
    ensures k < |Routed(cfg, h[..Place(cfg, h, c, n)], c)|
    ensures Place(cfg, h[..Place(cfg, h, c, n)], c, k) == Place(cfg, h, c, k)
  {
    RoutedPrefix(cfg, h, c, n);
    var last := |h| - 1;
    var front := h[..last];
    if n < |Routed(cfg, front, c)| {
      PlaceInPrefix(cfg, front, c, n, k);
      assert front[..Place(cfg, front, c, n)] == h[..Place(cfg, h, c, n)];
    }
  }

  // ----- The invariant of the system -----

  ghost predicate SysInv(cfg: Config, m: System)
    requires cfg.Valid()
  {
    |m.ctrls| == cfg.sizes.channels && AllInv(cfg, m.ctrls) && Split(cfg, m.ctrls, m.sent)
  }

  ghost predicate AllInv(cfg: Config, ctrls: seq<Controller>)
    requires cfg.Valid()
  {
    forall c :: 0 <= c < |ctrls| ==> Inv(cfg, ctrls[c])
  }

  /** Each controller has accepted exactly the requests of its channel. */
  ghost predicate Split(cfg: Config, ctrls: seq<Controller>, sent: seq<Request>) {
    forall c :: 0 <= c < |ctrls| ==> ctrls[c].accepted == Routed(cfg, sent, c)
  }

  lemma AllInvUpdate(cfg: Config, ctrls: seq<Controller>, c: nat, s: Controller)
    requires cfg.Valid() && AllInv(cfg, ctrls) && c < |ctrls| && Inv(cfg, s)
    ensures AllInv(cfg, ctrls[c := s])
  {
    var ctrls' := ctrls[c := s];
    forall k | 0 <= k < |ctrls'| ensures Inv(cfg, ctrls'[k]) {
      assert ctrls'[k] == if k == c then s else ctrls[k];
    }
  }

  lemma SplitUpdate(cfg: Config, ctrls: seq<Controller>, sent: seq<Request>, c: nat, s: Controller, r: Request)
    requires Split(cfg, ctrls, sent) && c < |ctrls|
    requires ChannelOf(cfg, r.addr) == c && s.accepted == ctrls[c].accepted + [r]
    ensures Split(cfg, ctrls[c := s], sent + [r])
  {
    var h := sent + [r];
    assert h[..|h| - 1] == sent && h[|h| - 1] == r;
  }

  lemma CycleKeeps(cfg: Config, s: Controller, e: TickInput, s': Controller)
    requires cfg.Valid() && Inv(cfg, s) && Cycled(cfg, s, e, s')
    ensures Inv(cfg, s') && s'.accepted == s.accepted
  {
    T.ReturnKeepsInv(cfg, s);
    var s1, p, k, j := TickKeeps(cfg, ReturnAll(s), e);
    TickKeepsAccepted(cfg, ReturnAll(s), e, s');
  }

  lemma RetireKeepsAccepted(cfg: Config, s: Controller, c: Command)
    ensures Retire(cfg, s, c).Some? ==> Retire(cfg, s, c).value.accepted == s.accepted
  {}

  lemma ScheduleKeepsAccepted(cfg: Config, s: Controller)
    requires cfg.Valid()
    ensures Schedule(cfg, s).accepted == s.accepted
  {}

  lemma ActKeepsAccepted(cfg: Config, s: Controller, p: Pick, rnd: nat)
    requires cfg.Valid()
    ensures Act(cfg, s, p, rnd).Some? ==> Act(cfg, s, p, rnd).value.accepted == s.accepted
  {
    if p.ready.Issue? { RetireKeepsAccepted(cfg, s.(cq := p.cq, ch := s.ch.(rfmQ := p.rfmQ)), p.ready.cmd); }
  }

  lemma TickKeepsAccepted(cfg: Config, s: Controller, e: TickInput, s': Controller)
    requires cfg.Valid() && s.ch.Valid(cfg) && s.cq.Usable(cfg) && InputOk(cfg, e) && Tick(cfg, s, e) == Some(s')
    ensures s'.accepted == s.accepted
  {
    var p := Select(cfg, Due(s, e), e.coin);
    ActKeepsAccepted(cfg, Due(s, e), p, e.rnd);
    ScheduleKeepsAccepted(cfg, Act(cfg, Due(s, e), p, e.rnd).value);
  }

  lemma SendKeeps(cfg: Config, m: System, addr: nat, isWrite: bool)
    requires cfg.Valid() && SysInv(cfg, m)
    ensures SysInv(cfg, Send(cfg, m, addr, isWrite).0)
  {
    assert cfg.Hits(cfg.decode(addr));
    var c := ChannelOf(cfg, addr);
    if WillAccept(cfg, m.ctrls[c], isWrite) {
      var s' := AddTransaction(cfg, m.ctrls[c], addr, isWrite);
      T.ArriveKeeps(cfg, m.ctrls[c], addr, isWrite);
      AddAppends(cfg, m.ctrls[c], addr, isWrite);
      AllInvUpdate(cfg, m.ctrls, c, s');
      SplitUpdate(cfg, m.ctrls, m.sent, c, s', Request(addr, isWrite));
    }
  }

  lemma AddAppends(cfg: Config, s: Controller, addr: nat, isWrite: bool)
    ensures AddTransaction(cfg, s, addr, isWrite).accepted == s.accepted + [Request(addr, isWrite)]
  {}

  lemma SysStepKeeps(cfg: Config, m: System, step: SysStep, m': System)
    requires cfg.Valid() && SysInv(cfg, m) && SysStepsTo(cfg, m, step, m')
    ensures SysInv(cfg, m')
  {
    match step
    case Arrive(a, w) => SendKeeps(cfg, m, a, w);
    case Cycle(es) =>
      forall c | 0 <= c < |m.ctrls| ensures Inv(cfg, m'.ctrls[c]) && m'.ctrls[c].accepted == m.ctrls[c].accepted {
        CycleKeeps(cfg, m.ctrls[c], es[c], m'.ctrls[c]);
      }
  }

  lemma SysInitInv(cfg: Config, sel: nat -> (BankId -> nat), m: System)
    requires cfg.Valid() && m == PowerUp(cfg, sel)
    ensures SysInv(cfg, m)
  {
    forall c: nat ensures Inv(cfg, InitController(cfg, sel(c))) { T.InitInv(cfg, sel(c)); }
  }

  lemma {:induction false} SysRunInv(cfg: Config, sel: nat -> (BankId -> nat), states: seq<System>,
                                     steps: seq<SysStep>, i: nat)
    requires cfg.Valid() && SysRun(cfg, sel, states, steps) && i < |states|
    ensures SysInv(cfg, states[i])
  {
    if i == 0 {
      SysInitInv(cfg, sel, states[0]);
    } else {
      SysRunInv(cfg, sel, states, steps, i - 1);
      SysStepKeeps(cfg, states[i - 1], steps[i - 1], states[i]);
    }
  }

  /** Over every run of the whole system, a read that was called back returned the write that is the latest one to
      its address among all requests the system had accepted before it. */
  lemma SystemReadsSeeLatestWrite(cfg: Config, sel: nat -> (BankId -> nat), states: seq<System>, steps: seq<SysStep>,
                                  i: nat, c: nat, t: Transaction)
    requires cfg.Valid() && SysRun(cfg, sel, states, steps) && i < |states|
    requires c < |states[i].ctrls| && t in states[i].ctrls[c].done && !t.isWrite
    ensures var m := states[i];
      && t.name < |Routed(cfg, m.sent, c)| && ChannelOf(cfg, t.addr) == c
      && (t.data.Some? ==> t.data.value < t.name)
      && Lift(cfg, m.sent, c, t.data) == LatestWrite(m.sent[..Place(cfg, m.sent, c, t.name)], t.addr)
  {
    SysRunInv(cfg, sel, states, steps, i);
    AnswerLifts(cfg, states[i], c, t);
  }

  lemma {:induction false} RoutedChannel(cfg: Config, h: seq<Request>, c: int, n: nat)
    requires n < |Routed(cfg, h, c)|
    ensures ChannelOf(cfg, Routed(cfg, h, c)[n].addr) == c
  {
    if n < |Routed(cfg, h[..|h| - 1], c)| { RoutedChannel(cfg, h[..|h| - 1], c, n); }
  }

  lemma AnswerLifts(cfg: Config, m: System, c: nat, t: Transaction)
    requires cfg.Valid() && SysInv(cfg, m) && c < |m.ctrls| && t in m.ctrls[c].done && !t.isWrite
    ensures t.name < |Routed(cfg, m.sent, c)| && ChannelOf(cfg, t.addr) == c
    ensures t.data.Some? ==> t.data.value < t.name
    ensures Lift(cfg, m.sent, c, t.data) == LatestWrite(m.sent[..Place(cfg, m.sent, c, t.name)], t.addr)
  {
    var r := Routed(cfg, m.sent, c);
    assert Answered(m.ctrls[c].accepted, t);
    RoutedChannel(cfg, m.sent, c, t.name);
    RoutedPrefix(cfg, m.sent, c, t.name);
    var h := m.sent[..Place(cfg, m.sent, c, t.name)];
    LatestRouted(cfg, h, t.addr);
    if t.data.Some? { PlaceInPrefix(cfg, m.sent, c, t.name, t.data.value); }
  }
}
