/** When a transaction completes: writes and forwarded reads one cycle after they arrive, every other read exactly the
    read delay after a READ of its address that was issued since it arrived
    (DRAMsim3/src/controller.cc:166-200, 251-288). */
module Latency {
  import opened Commands
  import opened Configuration
  import opened BankStates
  import opened ChannelStates
  import opened ChannelRuns
  import opened CommandQueues
  import opened Controllers
  import B = Bookkeeping

  /** A READ of the transaction's address, issued no earlier than it arrived, read delay before its completion. */
  predicate ServedBy(cfg: Config, e: Event, t: Transaction) {
    e.cmd.ty.IsRead() && e.cmd.hex == t.addr && t.added <= e.clk && t.complete == e.clk + cfg.readDelay
  }

  /** A write, or a read whose name is among the forwarded ones, completes one cycle after it arrived; any other read is
      served by a READ. */
  predicate Timely(cfg: Config, log: seq<Event>, forwarded: set<nat>, t: Transaction) {
    if t.isWrite || t.name in forwarded then t.complete == t.added + 1
    else exists i :: 0 <= i < |log| && ServedBy(cfg, log[i], t)
  }

  ghost predicate AllTimely(cfg: Config, log: seq<Event>, forwarded: set<nat>, q: seq<Transaction>) {
    forall t <- q :: Timely(cfg, log, forwarded, t)
  }

  predicate Older(q: seq<Transaction>, n: nat) { forall t <- q :: t.name < n }

  ghost predicate LatencyInv(cfg: Config, s: Controller, forwarded: set<nat>) {
    && AllTimely(cfg, s.log, forwarded, s.returnQ) && AllTimely(cfg, s.log, forwarded, s.done)
    && (forall t <- s.pendingRd :: t.added <= s.clk && !t.isWrite && t.name !in forwarded)
    && Older(s.returnQ, |s.accepted|) && Older(s.done, |s.accepted|) && Older(s.pendingRd, |s.accepted|)
    && forall n <- forwarded :: n < |s.accepted|
  }

  /** A request finds a pending write of its address. */
  predicate Forwards(s: Controller, addr: nat, isWrite: bool) { !isWrite && addr in s.pendingWr }

  lemma LogGrows(cfg: Config, log: seq<Event>, e: Event, forwarded: set<nat>, q: seq<Transaction>)
    requires AllTimely(cfg, log, forwarded, q)
    ensures AllTimely(cfg, log + [e], forwarded, q)
  {
    forall t <- q ensures Timely(cfg, log + [e], forwarded, t) {
      if !(t.isWrite || t.name in forwarded) {
        var i :| 0 <= i < |log| && ServedBy(cfg, log[i], t);
        assert ServedBy(cfg, (log + [e])[i], t);
      }
    }
  }

  /** A new name changes nothing for the older transactions. */
  lemma NameGrows(cfg: Config, log: seq<Event>, forwarded: set<nat>, n: nat, q: seq<Transaction>)
    requires AllTimely(cfg, log, forwarded, q) && Older(q, n)
    ensures AllTimely(cfg, log, forwarded + {n}, q)
  {
    forall t <- q ensures Timely(cfg, log, forwarded + {n}, t) {
      assert Timely(cfg, log, forwarded, t);
    }
  }

  lemma AddKeepsLatency(cfg: Config, s: Controller, addr: nat, isWrite: bool, forwarded: set<nat>)
    requires LatencyInv(cfg, s, forwarded)
    ensures LatencyInv(cfg, AddTransaction(cfg, s, addr, isWrite),
                       forwarded + if Forwards(s, addr, isWrite) then {|s.accepted|} else {})
  {
    var s', n := AddTransaction(cfg, s, addr, isWrite), |s.accepted|;
    if Forwards(s, addr, isWrite) {
      NameGrows(cfg, s.log, forwarded, n, s.returnQ);
      NameGrows(cfg, s.log, forwarded, n, s.done);
      assert forall t <- s.pendingRd :: t.name < n;
    } else {
      assert forwarded + {} == forwarded;
    }
  }

  /** Reads that a READ takes out of the pending ones are served by it. */
  lemma ReadsServed(cfg: Config, log: seq<Event>, e: Event, forwarded: set<nat>, pending: seq<Transaction>,
                    data: Option<nat>, n: nat)
    requires e.cmd.ty.IsRead() && e.cmd.hex >= 0 && Older(pending, n)
    requires forall t <- pending :: t.added <= e.clk && !t.isWrite && t.name !in forwarded
    ensures AllTimely(cfg, log + [e], forwarded, Completed(At(pending, e.cmd.hex), e.clk + cfg.readDelay, data))
    ensures Older(Completed(At(pending, e.cmd.hex), e.clk + cfg.readDelay, data), n)
  {
    var taken := At(pending, e.cmd.hex);
    var q := Completed(taken, e.clk + cfg.readDelay, data);
    forall t <- q ensures Timely(cfg, log + [e], forwarded, t) && t.name < n {
      var k :| 0 <= k < |q| && q[k] == t;
      B.AtMembers(pending, e.cmd.hex, taken[k]);
      assert ServedBy(cfg, (log + [e])[|log|], t);
    }
  }

  lemma RetireKeepsLatency(cfg: Config, s: Controller, c: Command, s1: Controller, forwarded: set<nat>)
    requires LatencyInv(cfg, s, forwarded) && Retire(cfg, s, c) == Some(s1)
    ensures LatencyInv(cfg, s1.(log := s.log + [Event(s.clk, c)]), forwarded) && s1.clk == s.clk
  {
    var e := Event(s.clk, c);
    LogGrows(cfg, s.log, e, forwarded, s.returnQ);
    LogGrows(cfg, s.log, e, forwarded, s.done);
    if c.ty.IsRead() {
      ReadsServed(cfg, s.log, e, forwarded, s.pendingRd, Lookup(s.dram, c.hex), |s.accepted|);
      NotAtMembers(s.pendingRd, c.hex);
    }
  }

  lemma {:induction false} NotAtMembers(q: seq<Transaction>, a: nat)
    ensures forall t <- NotAt(q, a) :: t in q
  {
    if q != [] { NotAtMembers(q[1..], a); }
  }

  lemma ActKeepsLatency(cfg: Config, s: Controller, p: Pick, rnd: nat, s2: Controller, forwarded: set<nat>)
    requires cfg.Valid() && LatencyInv(cfg, s, forwarded) && Act(cfg, s, p, rnd) == Some(s2)
    ensures LatencyInv(cfg, s2, forwarded)
  {
    var mid := s.(cq := p.cq, ch := s.ch.(rfmQ := p.rfmQ));
    if p.ready.Issue? {
      var s1 := Retire(cfg, mid, p.ready.cmd).value;
      RetireKeepsLatency(cfg, mid, p.ready.cmd, s1, forwarded);
      SameLatency(cfg, s1.(log := s.log + [Event(s.clk, p.ready.cmd)]), s2, forwarded);
    }
  }

  lemma SameLatency(cfg: Config, s: Controller, s': Controller, forwarded: set<nat>)
    requires LatencyInv(cfg, s, forwarded) && s'.log == s.log && s'.returnQ == s.returnQ && s'.done == s.done
    requires s'.pendingRd == s.pendingRd && s'.clk >= s.clk && s'.accepted == s.accepted
    ensures LatencyInv(cfg, s', forwarded)
  {}

  lemma ScheduleKeepsRest(cfg: Config, s: Controller)
    requires cfg.Valid()
    ensures var s' := Schedule(cfg, s);
      s'.log == s.log && s'.returnQ == s.returnQ && s'.done == s.done && s'.pendingRd == s.pendingRd && s'.clk == s.clk
      && s'.accepted == s.accepted
  {}

  lemma TickKeepsLatency(cfg: Config, s: Controller, e: TickInput, s': Controller, forwarded: set<nat>)
    requires cfg.Valid() && s.ch.Valid(cfg) && s.cq.Usable(cfg) && InputOk(cfg, e) && Tick(cfg, s, e) == Some(s')
    requires LatencyInv(cfg, s, forwarded)
    ensures LatencyInv(cfg, s', forwarded)
  {
    var p := Select(cfg, Due(s, e), e.coin);
    var s2 := Act(cfg, Due(s, e), p, e.rnd).value;
    SameLatency(cfg, s, Due(s, e), forwarded);
    ActKeepsLatency(cfg, Due(s, e), p, e.rnd, s2, forwarded);
    ScheduleKeepsRest(cfg, s2);
    SameLatency(cfg, s2, s', forwarded);
  }

  lemma {:induction false} ReturnKeepsLatency(cfg: Config, s: Controller, forwarded: set<nat>)
    requires LatencyInv(cfg, s, forwarded)
    ensures LatencyInv(cfg, ReturnAll(s), forwarded)
    decreases |s.returnQ|
  {
    var k := FirstDone(s.returnQ, 0, s.clk);
    if k < |s.returnQ| {
      var rest := s.returnQ[..k] + s.returnQ[k + 1..];
      ReturnKeepsLatency(cfg, s.(returnQ := rest, done := s.done + [s.returnQ[k]]), forwarded);
    }
  }
}
