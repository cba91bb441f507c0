/** The controller as an object: transactions arrive, are scheduled, issued and returned by loops over its queues,
    each proved against the function of the same step on values (DRAMsim3/src/controller.cc). */
module ControllerObjects {
  import opened Commands
  import opened Configuration
  import opened BankStates
  import opened ChannelStates
  import opened ChannelRuns
  import opened CommandQueues
  import C = Controllers
  import opened ChannelObjects
  import opened QueueObjects
  import opened Sequences

  // ----- Facts about the pending reads -----

  lemma {:induction false} NoneAt(q: seq<C.Transaction>, a: nat)
    requires forall j :: 0 <= j < |q| ==> q[j].addr != a
    ensures C.At(q, a) == [] && C.NotAt(q, a) == q
  {
    if q != [] {
      NoneAt(q[1..], a);
      assert [q[0]] + q[1..] == q;
    }
  }

  /** Taking out the first transaction of an address. */
  lemma {:induction false} TakeFirst(q: seq<C.Transaction>, a: nat, k: nat)
    requires k < |q| && q[k].addr == a && forall j :: 0 <= j < k ==> q[j].addr != a
    ensures C.At(q, a) == [q[k]] + C.At(Cut(q, k), a) && C.NotAt(q, a) == C.NotAt(Cut(q, k), a)
  {
    if k == 0 {
      assert Cut(q, 0) == q[1..];
    } else {
      TakeFirst(q[1..], a, k - 1);
      assert Cut(q, k) == [q[0]] + Cut(q[1..], k - 1);
      assert Cut(q, k)[1..] == Cut(q[1..], k - 1);
    }
  }

  lemma {:induction false} AtSnoc(q: seq<C.Transaction>, t: C.Transaction, a: nat)
    ensures |C.At(q + [t], a)| == |C.At(q, a)| + if t.addr == a then 1 else 0
  {
    if q == [] {
      assert q + [t] == [t] && [t][1..] == [];
    } else {
      assert (q + [t])[1..] == q[1..] + [t];
      AtSnoc(q[1..], t, a);
    }
  }

  method CountAt(q: seq<C.Transaction>, a: nat) returns (n: nat)
    ensures n == |C.At(q, a)|
  {
    n := 0;
    var i := 0;
    assert q[..0] == [];
    while i < |q|
      invariant i <= |q| && n == |C.At(q[..i], a)|
    {
      assert q[..i + 1] == q[..i] + [q[i]];
      AtSnoc(q[..i], q[i], a);
      if q[i].addr == a { n := n + 1; }
      i := i + 1;
    }
    assert q[..i] == q;
  }

  method FindAt(q: seq<C.Transaction>, a: nat) returns (k: nat)
    ensures k <= |q| && (k < |q| ==> q[k].addr == a) && forall j :: 0 <= j < k ==> q[j].addr != a
  {
    k := 0;
    while k < |q| && q[k].addr != a
      invariant k <= |q| && forall j :: 0 <= j < k ==> q[j].addr != a
    {
      k := k + 1;
    }
  }

  /** The loop of IssueCommand: all pending reads of an address move to the return queue, in order. */
  method MoveReads(pending: seq<C.Transaction>, returned: seq<C.Transaction>, a: nat, at: nat, data: Option<nat>)
    returns (p: seq<C.Transaction>, r: seq<C.Transaction>)
    ensures p == C.NotAt(pending, a) && r == returned + C.Completed(C.At(pending, a), at, data)
  {
    p, r := pending, returned;
    var n := CountAt(pending, a);
    while n > 0
      invariant n == |C.At(p, a)| && C.NotAt(p, a) == C.NotAt(pending, a)
      invariant r + C.Completed(C.At(p, a), at, data) == returned + C.Completed(C.At(pending, a), at, data)
    {
      var k := FindAt(p, a);
      if k == |p| { NoneAt(p, a); }
      TakeFirst(p, a, k);
      ghost var rest := C.At(Cut(p, k), a);
      assert C.Completed([p[k]] + rest, at, data)
          == [p[k].(complete := at, data := data)] + C.Completed(rest, at, data);
      assert r + ([p[k].(complete := at, data := data)] + C.Completed(rest, at, data))
          == (r + [p[k].(complete := at, data := data)]) + C.Completed(rest, at, data);
      r := r + [p[k].(complete := at, data := data)];
      p := Cut(p, k);
      n := n - 1;
    }
    var k := FindAt(p, a);
    if k < |p| { TakeFirst(p, a, k); }
    NoneAt(p, a);
    assert C.Completed([], at, data) == [];
  }

  lemma QueuesExist(cfg: Config)
    requires cfg.Valid()
    ensures NumQueues(cfg) >= 1
  {
    BanksPositive(cfg);
    assert cfg.Banks() * cfg.sizes.ranks >= 1;
  }

  // ----- The controller -----

  class MemoryController {
    const cfg: Config
    const ch: ChannelState
    const cq: CommandQueue
    var clk: nat
    var unifiedQ: seq<C.Transaction>
    var readQ: seq<C.Transaction>
    var writeBuf: seq<C.Transaction>
    var pendingRd: seq<C.Transaction>
    var pendingWr: map<nat, C.Transaction>
    var returnQ: seq<C.Transaction>
    var draining: int
    // the observer
    var accepted: seq<C.Request>
    var wrData: map<nat, nat>
    var dram: map<nat, nat>
    var done: seq<C.Transaction>
    var log: seq<Event>

    ghost function View(): (s: C.Controller)
      reads this, ch, cq
    {
      C.Controller(clk, ch.View(), cq.View(), unifiedQ, readQ, writeBuf, pendingRd, pendingWr, returnQ, draining,
                   accepted, wrData, dram, done, log)
    }

    /** The parts belong together. */
    ghost predicate Linked()
      reads this
    {
      cfg.Valid() && ch.cfg == cfg && cq.cfg == cfg && cq.ch == ch
    }

    constructor (cfg: Config, sel: BankId -> nat)
      requires cfg.Valid()
      ensures this.cfg == cfg && Linked() && fresh(ch) && fresh(cq) && View() == C.InitController(cfg, sel)
    {
      QueuesExist(cfg);
      var c := new ChannelState(cfg, sel);
      var q := new CommandQueue(cfg, c);
      this.cfg, ch, cq, clk := cfg, c, q, 0;
      unifiedQ, readQ, writeBuf, pendingRd, pendingWr, returnQ, draining := [], [], [], [], map[], [], 0;
      accepted, wrData, dram, done, log := [], map[], map[], [], [];
    }

    // ----- AddTransaction -----

    method AddTransaction(addr: nat, isWrite: bool)
      requires Linked()
      modifies this
      ensures View() == C.AddTransaction(cfg, old(View()), addr, isWrite)
    {
      if isWrite { AddWrite(addr); } else { AddRead(addr); }
    }

    method AddWrite(addr: nat)
      requires Linked()
      modifies this
      ensures View() == C.AddTransaction(cfg, old(View()), addr, true)
    {
      var t := C.Transaction(addr, true, clk, 0, |accepted|, None);
      if addr !in pendingWr { BufferWrite(t); }
      ghost var s := View();
      accepted, wrData := accepted + [C.Request(addr, true)], wrData[addr := t.name];
      returnQ := returnQ + [t.(complete := clk + 1)];
      assert View() == s.(accepted := accepted, wrData := wrData, returnQ := returnQ);
    }

    /** A write that cannot be merged becomes pending and is queued. */
    method BufferWrite(t: C.Transaction)
      modifies this
      ensures View() == if cfg.unifiedQueue
        then old(View()).(pendingWr := old(pendingWr)[t.addr := t], unifiedQ := old(unifiedQ) + [t])
        else old(View()).(pendingWr := old(pendingWr)[t.addr := t], writeBuf := old(writeBuf) + [t])
    {
      pendingWr := pendingWr[t.addr := t];
      if cfg.unifiedQueue { unifiedQ := unifiedQ + [t]; } else { writeBuf := writeBuf + [t]; }
    }

    method AddRead(addr: nat)
      requires Linked()
      modifies this
      ensures View() == C.AddTransaction(cfg, old(View()), addr, false)
    {
      var t := C.Transaction(addr, false, clk, 0, |accepted|, None);
      accepted := accepted + [C.Request(addr, false)];
      ghost var s := View();
      assert s == old(View()).(accepted := old(accepted) + [C.Request(addr, false)]);
      if addr in pendingWr {
        returnQ := returnQ + [t.(complete := clk + 1, data := C.Lookup(wrData, addr))];
        assert View() == s.(returnQ := returnQ);
        return;
      }
      pendingRd := pendingRd + [t];
      var n := CountAt(pendingRd, addr);
      if n == 1 { QueueRead(t); }
    }

    /** The first pending read of an address is queued. */
    method QueueRead(t: C.Transaction)
      modifies this
      ensures View() == if cfg.unifiedQueue then old(View()).(unifiedQ := old(unifiedQ) + [t])
                        else old(View()).(readQ := old(readQ) + [t])
    {
      if cfg.unifiedQueue { unifiedQ := unifiedQ + [t]; } else { readQ := readQ + [t]; }
    }

    // ----- ScheduleTransaction -----

    method QueuesEmpty() returns (b: bool)
      requires Linked()
      ensures b == !C.AnyQueued(cq.View())
    {
      var k := 0;
      while k < |cq.queues|
        invariant k <= |cq.queues| && forall j :: 0 <= j < k ==> cq.queues[j] == []
      {
        if cq.queues[k] != [] { return false; }
        k := k + 1;
      }
      return true;
    }

    method StartDraining()
      requires Linked()
      modifies this`draining
      ensures draining == C.StartDraining(cfg, old(View()))
    {
      if draining == 0 && !cfg.unifiedQueue {
        var n := |writeBuf|;
        if !cfg.infiniteWriteBuffer && n >= cfg.transQueueSize {
          draining := n;
        } else if n > 8 {
          var empty := QueuesEmpty();
          if empty { draining := n; }
        }
      }
    }

    /** The first transaction whose command queue has room. */
    method FindAccepted(q: seq<C.Transaction>) returns (k: nat)
      requires Linked()
      ensures k == C.FirstAccepted(cfg, cq.View(), q, 0)
    {
      k := 0;
      while k < |q|
        invariant k <= |q| && C.FirstAccepted(cfg, cq.View(), q, 0) == C.FirstAccepted(cfg, cq.View(), q, k)
      {
        var c := C.TransToCommand(cfg, q, k);
        var i := QueueIndex(cfg, c.Id());
        if 0 <= i < |cq.queues| && |cq.queues[i]| < cfg.cmdQueueSize { return; }
        k := k + 1;
      }
    }

    method ScheduleTransaction()
      requires Linked()
      modifies this, cq`queues
      ensures View() == C.Schedule(cfg, old(View()))
    {
      StartDraining();
      var q := if cfg.unifiedQueue then unifiedQ else if draining > 0 then writeBuf else readQ;
      var k := FindAccepted(q);
      if k == |q| { return; }
      if !cfg.unifiedQueue && q[k].isWrite {
        var n := CountAt(pendingRd, q[k].addr);
        if n > 0 {
          draining := 0;
          return;
        }
      }
      Dispatch(k);
    }

    method Dispatch(k: nat)
      requires Linked() && k < |C.Served(cfg, View())|
      requires C.WillAcceptCommand(cfg, cq.View(), C.TransToCommand(cfg, C.Served(cfg, View()), k))
      modifies this, cq`queues
      ensures View() == C.Dispatch(cfg, old(View()), k)
    {
      var q := if cfg.unifiedQueue then unifiedQ else if draining > 0 then writeBuf else readQ;
      var c := C.TransToCommand(cfg, q, k);
      var ok := cq.AddCommand(c);
      var rest := Cut(q, k);
      if cfg.unifiedQueue { unifiedQ := rest; } else if draining > 0 { writeBuf := rest; } else { readQ := rest; }
      if !cfg.unifiedQueue && q[k].isWrite { draining := draining - 1; }
    }

    // ----- IssueCommand -----

    /** The queues' part of IssueCommand; false where the source exits. */
    method RetireRequests(c: Command) returns (ok: bool)
      requires Linked()
      modifies this
      ensures C.Retire(cfg, old(View()), c) == if ok then Some(View()) else None
    {
      if c.ty.IsRead() {
        if c.hex < 0 { return false; }
        var n := CountAt(pendingRd, c.hex);
        if n == 0 { return false; }
        pendingRd, returnQ := MoveReads(pendingRd, returnQ, c.hex, clk + cfg.readDelay, C.Lookup(dram, c.hex));
      } else if c.ty.IsWrite() {
        if c.hex < 0 || c.hex !in pendingWr { return false; }
        pendingWr := pendingWr - {c.hex};
        if c.hex in wrData { dram := dram[c.hex := wrData[c.hex]]; }
        wrData := wrData - {c.hex};
      }
      return true;
    }

    method IssueCommand(c: Command, rnd: nat) returns (ok: bool)
      requires Linked() && ch.View().Valid(cfg) && Addressable(cfg, c) && c.ty != SrefEnter
      modifies this, ch
      ensures C.IssueCommand(cfg, old(View()), c, rnd) == if ok then Some(View()) else None
    {
      ghost var s := View();
      ok := RetireRequests(c);
      if ok { ok := IssueRetired(c, rnd, s); }
    }

    /** The channel's part, once the requests of the command have been retired. */
    method IssueRetired(c: Command, rnd: nat, ghost s: C.Controller) returns (ok: bool)
      requires Linked() && ch.View().Valid(cfg) && Addressable(cfg, c) && c.ty != SrefEnter
      requires C.Retire(cfg, s, c) == Some(View()) && s.ch == ch.View() && s.log == log && s.clk == clk
      modifies this`log, ch
      ensures C.IssueCommand(cfg, s, c, rnd) == if ok then Some(View()) else None
    {
      ghost var s1 := View();
      var now := clk;
      ok := UpdateChannel(c, now, rnd, s.ch);
      IssueParts(cfg, s, c, now, rnd, s1, s.ch, ok, ch.View());
      if ok { log := log + [Event(now, c)]; }
    }

    method UpdateChannel(c: Command, now: nat, rnd: nat, ghost ch0: Channel) returns (ok: bool)
      requires Linked() && ch.View() == ch0 && ch0.Valid(cfg) && Addressable(cfg, c) && c.ty != SrefEnter
      modifies ch
      ensures ok <==> Issued(cfg, ch0, c, now, rnd).Some?
      ensures ok ==> Issued(cfg, ch0, c, now, rnd) == Some(ch.View())
    {
      ok := ch.UpdateTimingAndStates(c, now, rnd);
    }

    // ----- Choosing a command -----

    /** The command a tick selects: a pending refresh first, then a pending RFM, and if neither has one, the queues. */
    method SelectCommand(coin: bool) returns (r: Ready)
      requires Linked() && ch.View().Valid(cfg) && cq.View().Usable(cfg)
      modifies ch`rfmQ, cq
      ensures Pick(r, cq.View(), ch.rfmQ) == C.Select(cfg, old(View()), coin)
    {
      ghost var s := View();
      r := FirstStage(coin);
      ghost var first := C.FirstStage(cfg, s, coin);
      assert ch.View() == s.ch.(rfmQ := first.rfmQ) && cq.View() == first.cq;
      if r.NotReady? {
        QueuesExist(cfg);
        r := cq.GetCommandToIssue(clk, coin);
      }
    }

    method FirstStage(coin: bool) returns (r: Ready)
      requires Linked() && ch.View().Valid(cfg)
      modifies ch`rfmQ, cq
      ensures Pick(r, cq.View(), ch.rfmQ) == C.FirstStage(cfg, old(View()), coin)
    {
      if ch.refreshQ != [] {
        r := cq.FinishPendingRefresh(clk, coin);
      } else if ch.rfmQ != [] {
        r := cq.FinishPendingRfm(clk, coin);
      } else {
        r := NotReady;
      }
    }

    // ----- ReturnDoneTrans -----

    method ReturnDoneTrans(now: nat) returns (r: Option<C.Transaction>)
      modifies this`returnQ
      ensures var k := C.FirstDone(old(returnQ), 0, now);
        if k == |old(returnQ)| then r == None && returnQ == old(returnQ)
        else r == Some(old(returnQ)[k]) && returnQ == Cut(old(returnQ), k)
    {
      var k := 0;
      while k < |returnQ|
        invariant k <= |returnQ| && returnQ == old(returnQ)
        invariant C.FirstDone(returnQ, 0, now) == C.FirstDone(returnQ, k, now)
      {
        if now >= returnQ[k].complete {
          r := Some(returnQ[k]);
          returnQ := Cut(returnQ, k);
          return;
        }
        k := k + 1;
      }
      return None;
    }

    /** The caller's loop (DRAMsim3/src/dram_system.cc:154-167): take completions until there is none. */
    method DrainCompletions()
      requires Linked()
      modifies this`returnQ, this`done
      ensures View() == C.ReturnAll(old(View()))
    {
      while true
        invariant C.ReturnAll(View()) == C.ReturnAll(old(View()))
        decreases |returnQ|
      {
        ReturnStep(View());
        var r := ReturnDoneTrans(clk);
        if r == None { return; }
        done := done + [r.value];
      }
    }
  }

  lemma IssueParts(cfg: Config, s: C.Controller, c: Command, now: nat, rnd: nat, s1: C.Controller, ch0: Channel,
                   ok: bool, ch: Channel)
    requires cfg.Valid() && ch0.Valid(cfg) && Addressable(cfg, c) && c.ty != SrefEnter
    requires s.ch == ch0 && s.clk == now && C.Retire(cfg, s, c) == Some(s1)
    requires ok <==> Issued(cfg, ch0, c, now, rnd).Some?
    requires ok ==> Issued(cfg, ch0, c, now, rnd) == Some(ch)
    ensures C.IssueCommand(cfg, s, c, rnd) == if ok then Some(s1.(ch := ch, log := s.log + [Event(now, c)])) else None
  {}

  /** One call of ReturnDoneTrans in the caller's loop. */
  lemma {:induction false} ReturnStep(s: C.Controller)
    ensures var k := C.FirstDone(s.returnQ, 0, s.clk);
      C.ReturnAll(s) == if k == |s.returnQ| then s
                        else C.ReturnAll(s.(returnQ := Cut(s.returnQ, k), done := s.done + [s.returnQ[k]]))
  {
    var k := C.FirstDone(s.returnQ, 0, s.clk);
    if k < |s.returnQ| {
      var s1 := s.(returnQ := s.returnQ[..k] + s.returnQ[k + 1..], done := s.done + [s.returnQ[k]]);
      assert s.(returnQ := Cut(s.returnQ, k), done := s.done + [s.returnQ[k]]) == s1;
      assert C.ReturnAll(s) == C.ReturnAll(s1);
    }
  }
}
