/** Where every pending address waits: exactly one queued transaction or command per pending address,
    and no write overtakes a read of its address. */
module Bookkeeping {
  import opened Commands
  import opened Configuration
  import opened ChannelStates
  import opened CommandQueues
  import opened Controllers

  // ----- How often an address waits in a queue: as a read (w = false) or as a write (w = true) -----

  function Bit(b: bool): nat { if b then 1 else 0 }

  predicate Is(t: Transaction, a: int, w: bool) { t.addr == a && t.isWrite == w }

  predicate CmdIs(c: Command, a: int, w: bool) { c.hex == a && c.ty.IsRead() == !w }

  function TransCount(q: seq<Transaction>, a: int, w: bool): nat {
    if q == [] then 0 else Bit(Is(q[0], a, w)) + TransCount(q[1..], a, w)
  }

  function CmdCount(q: seq<Command>, a: int, w: bool): nat {
    if q == [] then 0 else Bit(CmdIs(q[0], a, w)) + CmdCount(q[1..], a, w)
  }

  function AllCmdCount(qs: seq<seq<Command>>, a: int, w: bool): nat {
    if qs == [] then 0 else CmdCount(qs[0], a, w) + AllCmdCount(qs[1..], a, w)
  }

  lemma {:induction false} TransConcat(p: seq<Transaction>, q: seq<Transaction>, a: int, w: bool)
    ensures TransCount(p + q, a, w) == TransCount(p, a, w) + TransCount(q, a, w)
  {
    if p == [] {
      assert p + q == q;
    } else {
      assert (p + q)[1..] == p[1..] + q;
      TransConcat(p[1..], q, a, w);
    }
  }

  lemma TransAppend(q: seq<Transaction>, t: Transaction, a: int, w: bool)
    ensures TransCount(q + [t], a, w) == TransCount(q, a, w) + Bit(Is(t, a, w))
  {
    TransConcat(q, [t], a, w);
    assert [t][1..] == [];
  }

  lemma TransRemove(q: seq<Transaction>, i: nat, a: int, w: bool)
    requires i < |q|
    ensures TransCount(q, a, w) == TransCount(q[..i] + q[i + 1..], a, w) + Bit(Is(q[i], a, w))
  {
    TransConcat(q[..i], q[i + 1..], a, w);
    TransConcat(q[..i], q[i..], a, w);
    assert q == q[..i] + q[i..] && q[i..][1..] == q[i + 1..];
  }

  lemma {:induction false} CmdAppend(q: seq<Command>, c: Command, a: int, w: bool)
    ensures CmdCount(q + [c], a, w) == CmdCount(q, a, w) + Bit(CmdIs(c, a, w))
  {
    if q == [] {
      assert q + [c] == [c] && [c][1..] == [];
    } else {
      assert (q + [c])[1..] == q[1..] + [c];
      CmdAppend(q[1..], c, a, w);
    }
  }

  lemma {:induction false} CmdErase(q: seq<Command>, c: Command, a: int, w: bool)
    requires EraseFrom(q, c).Some?
    ensures CmdCount(q, a, w) == CmdCount(EraseFrom(q, c).value, a, w) + Bit(CmdIs(c, a, w))
  {
    if !(q[0].hex == c.hex && q[0].ty.IsRead() == c.ty.IsRead()) {
      CmdErase(q[1..], c, a, w);
      assert ([q[0]] + EraseFrom(q[1..], c).value)[1..] == EraseFrom(q[1..], c).value;
    }
  }

  lemma {:induction false} AllCmdUpdate(qs: seq<seq<Command>>, k: nat, q: seq<Command>, a: int, w: bool)
    requires k < |qs|
    ensures AllCmdCount(qs[k := q], a, w) + CmdCount(qs[k], a, w) == AllCmdCount(qs, a, w) + CmdCount(q, a, w)
  {
    if k == 0 {
      assert qs[k := q][1..] == qs[1..];
    } else {
      assert qs[k := q][1..] == qs[1..][k - 1 := q];
      AllCmdUpdate(qs[1..], k - 1, q, a, w);
    }
  }

  lemma {:induction false} TransMember(q: seq<Transaction>, a: int, w: bool)
    ensures TransCount(q, a, w) == 0 <==> forall i :: 0 <= i < |q| ==> !Is(q[i], a, w)
  {
    if q != [] {
      TransMember(q[1..], a, w);
      assert q == [q[0]] + q[1..];
    }
  }

  lemma {:induction false} CmdMember(q: seq<Command>, a: int, w: bool)
    ensures CmdCount(q, a, w) == 0 <==> forall i :: 0 <= i < |q| ==> !CmdIs(q[i], a, w)
  {
    if q != [] {
      CmdMember(q[1..], a, w);
      assert q == [q[0]] + q[1..];
    }
  }

  lemma {:induction false} AllCmdMember(qs: seq<seq<Command>>, a: int, w: bool)
    ensures AllCmdCount(qs, a, w) == 0 <==> forall k :: 0 <= k < |qs| ==> CmdCount(qs[k], a, w) == 0
  {
    if qs != [] {
      AllCmdMember(qs[1..], a, w);
      assert qs == [qs[0]] + qs[1..];
    }
  }

  // ----- The pending maps -----

  function Keys(q: seq<Transaction>): set<int> { set t | t in q :: t.addr }

  lemma {:induction false} AtMembers(q: seq<Transaction>, a: nat, t: Transaction)
    ensures t in At(q, a) <==> t in q && t.addr == a
    ensures t in NotAt(q, a) <==> t in q && t.addr != a
  {
    if q != [] {
      AtMembers(q[1..], a, t);
      assert t in q <==> t == q[0] || t in q[1..];
    }
  }

  lemma {:induction false} AtEmpty(q: seq<Transaction>, a: nat)
    ensures At(q, a) == [] <==> a !in Keys(q)
    ensures Keys(NotAt(q, a)) == Keys(q) - {a}
    ensures forall t :: t in At(q, a) <==> t in q && t.addr == a
    ensures forall t :: t in NotAt(q, a) <==> t in q && t.addr != a
  {
    forall t
      ensures t in At(q, a) <==> t in q && t.addr == a
      ensures t in NotAt(q, a) <==> t in q && t.addr != a
    {
      AtMembers(q, a, t);
    }
    if At(q, a) != [] { assert At(q, a)[0] in At(q, a); }
  }

  lemma {:induction false} AtAppend(q: seq<Transaction>, t: Transaction, a: nat)
    ensures At(q + [t], a) == At(q, a) + if t.addr == a then [t] else []
  {
    if q == [] {
      assert q + [t] == [t] && [t][1..] == [];
    } else {
      var r := q + [t];
      assert r[1..] == q[1..] + [t] && r[0] == q[0];
      AtAppend(q[1..], t, a);
      assert At(r, a) == (if r[0].addr == a then [r[0]] else []) + At(r[1..], a);
    }
  }

  // ----- The invariant -----

  /** How often an address waits in all queues together. */
  function Waiting(s: Controller, a: int, w: bool): nat {
    TransCount(s.unifiedQ, a, w) + TransCount(s.readQ, a, w) + TransCount(s.writeBuf, a, w)
    + AllCmdCount(s.cq.queues, a, w)
  }

  /** Every pending address waits exactly once; an address that is not pending waits nowhere. */
  ghost predicate CountsOk(s: Controller) {
    && (forall a: int :: Waiting(s, a, false) == Bit(a in Keys(s.pendingRd)))
    && (forall a: int :: Waiting(s, a, true) == Bit(a in s.pendingWr.Keys))
  }

  /** Which queues are in use, and the drain counter. */
  ghost predicate ShapeOk(cfg: Config, s: Controller) {
    && (if cfg.unifiedQueue then s.readQ == [] && s.writeBuf == [] && s.draining == 0
        else s.unifiedQ == [] && (forall t <- s.readQ :: !t.isWrite) && (forall t <- s.writeBuf :: t.isWrite))
    && 0 <= s.draining <= |s.writeBuf|
  }

  ghost predicate BookInv(cfg: Config, s: Controller) { CountsOk(s) && ShapeOk(cfg, s) }

  /** Split queues: a write is queued as a command only while no read of its address is pending.
      Unified queue: a read never waits behind a write of its address. */
  ghost predicate OrderInv(cfg: Config, s: Controller) {
    if cfg.unifiedQueue then
      && UnifiedOrdered(s.unifiedQ)
      && (forall k :: 0 <= k < |s.cq.queues| ==> QueueOrdered(s.cq.queues[k]))
      && (forall k, j | 0 <= k < |s.cq.queues| && 0 <= j < |s.unifiedQ| && !s.unifiedQ[j].isWrite ::
            NoWriteTo(s.cq.queues[k], s.unifiedQ[j].addr))
    else forall k, a :: 0 <= k < |s.cq.queues| && a in Keys(s.pendingRd) ==> NoWriteTo(s.cq.queues[k], a)
  }

  predicate NoWriteTo(q: seq<Command>, a: int) { forall c <- q :: c.ty.IsWrite() ==> c.hex != a }

  predicate UnifiedOrdered(q: seq<Transaction>) {
    forall i, j | 0 <= i < j < |q| && q[i].isWrite && !q[j].isWrite :: q[i].addr != q[j].addr
  }

  predicate QueueOrdered(q: seq<Command>) {
    forall i, j | 0 <= i < j < |q| && q[i].ty.IsWrite() && q[j].ty.IsRead() :: q[i].hex != q[j].hex
  }

  // ----- AddTransaction -----

  /** A transaction is queued unless it merges with, or is forwarded from, a pending one. */
  predicate Enqueues(s: Controller, addr: nat, isWrite: bool) {
    addr !in s.pendingWr && (isWrite || addr !in Keys(s.pendingRd))
  }

  lemma AddWaiting(cfg: Config, s: Controller, addr: nat, isWrite: bool, a: int, w: bool)
    ensures Waiting(AddTransaction(cfg, s, addr, isWrite), a, w)
         == Waiting(s, a, w) + Bit(Enqueues(s, addr, isWrite) && isWrite == w && addr == a)
  {
    var t := Transaction(addr, isWrite, s.clk, 0, |s.accepted|, None);
    AtAppend(s.pendingRd, t, addr);
    AtEmpty(s.pendingRd, addr);
    if cfg.unifiedQueue {
      TransAppend(s.unifiedQ, t, a, w);
    } else if isWrite {
      TransAppend(s.writeBuf, t, a, w);
    } else {
      TransAppend(s.readQ, t, a, w);
    }
  }

  lemma AddKeys(cfg: Config, s: Controller, addr: nat, isWrite: bool)
    ensures var s' := AddTransaction(cfg, s, addr, isWrite);
      && Keys(s'.pendingRd) == Keys(s.pendingRd) + (if !isWrite && addr !in s.pendingWr then {addr} else {})
      && s'.pendingWr.Keys == s.pendingWr.Keys + (if isWrite then {addr} else {})
  {
    var t := Transaction(addr, isWrite, s.clk, 0, |s.accepted|, None);
    assert Keys(s.pendingRd + [t]) == Keys(s.pendingRd) + {addr};
  }

  lemma AddKeepsCounts(cfg: Config, s: Controller, addr: nat, isWrite: bool, s': Controller)
    requires CountsOk(s)
    requires Keys(s'.pendingRd) == Keys(s.pendingRd) + (if !isWrite && addr !in s.pendingWr then {addr} else {})
    requires s'.pendingWr.Keys == s.pendingWr.Keys + (if isWrite then {addr} else {})
    requires forall a: int, w ::
      Waiting(s', a, w) == Waiting(s, a, w) + Bit(Enqueues(s, addr, isWrite) && isWrite == w && addr == a)
    ensures CountsOk(s')
  {}

  lemma AddKeepsBook(cfg: Config, s: Controller, addr: nat, isWrite: bool)
    requires BookInv(cfg, s)
    ensures BookInv(cfg, AddTransaction(cfg, s, addr, isWrite))
  {
    var s' := AddTransaction(cfg, s, addr, isWrite);
    assert ShapeOk(cfg, s');
    AddKeys(cfg, s, addr, isWrite);
    forall a: int, w: bool
      ensures Waiting(s', a, w) == Waiting(s, a, w) + Bit(Enqueues(s, addr, isWrite) && isWrite == w && addr == a)
    {
      AddWaiting(cfg, s, addr, isWrite, a, w);
    }
    AddKeepsCounts(cfg, s, addr, isWrite, s');
  }

  /** A write pending nowhere is in no queue. */
  lemma NoWriteWaiting(s: Controller, a: int)
    requires Waiting(s, a, true) == 0
    ensures forall k :: 0 <= k < |s.cq.queues| ==> NoWriteTo(s.cq.queues[k], a)
    ensures forall i :: 0 <= i < |s.unifiedQ| ==> !Is(s.unifiedQ[i], a, true)
  {
    AllCmdMember(s.cq.queues, a, true);
    TransMember(s.unifiedQ, a, true);
    forall k | 0 <= k < |s.cq.queues| ensures NoWriteTo(s.cq.queues[k], a) {
      CmdMember(s.cq.queues[k], a, true);
    }
  }

  lemma AddKeepsOrder(cfg: Config, s: Controller, addr: nat, isWrite: bool)
    requires BookInv(cfg, s) && OrderInv(cfg, s)
    ensures OrderInv(cfg, AddTransaction(cfg, s, addr, isWrite))
  {
    AddKeys(cfg, s, addr, isWrite);
    if !isWrite && addr !in s.pendingWr {
      NoWriteWaiting(s, addr);
    }
  }

  // ----- ScheduleTransaction -----

  ghost predicate Dispatchable(cfg: Config, s: Controller, i: nat)
    requires cfg.Valid()
  {
    i < |Served(cfg, s)| && WillAcceptCommand(cfg, s.cq, TransToCommand(cfg, Served(cfg, s), i))
  }

  lemma ServedWaiting(cfg: Config, s: Controller, q: seq<Transaction>, a: int, w: bool)
    ensures Waiting(WithServed(cfg, s, q), a, w) + TransCount(Served(cfg, s), a, w)
         == Waiting(s, a, w) + TransCount(q, a, w)
  {
    if cfg.unifiedQueue {
    } else if s.draining > 0 {
    } else {
    }
  }

  lemma DispatchWaiting(cfg: Config, s: Controller, i: nat, a: int, w: bool)
    requires cfg.Valid() && Dispatchable(cfg, s, i)
    ensures Waiting(Dispatch(cfg, s, i), a, w) == Waiting(s, a, w)
  {
    var q := Served(cfg, s);
    var c := TransToCommand(cfg, q, i);
    var k := QueueIndex(cfg, c.Id());
    var q' := q[..i] + q[i + 1..];
    TransRemove(q, i, a, w);
    ServedWaiting(cfg, s, q', a, w);
    QueuedWaiting(WithServed(cfg, s, q'), c, k, a, w);
    assert CmdIs(c, a, w) == Is(q[i], a, w);
    var s1 := WithServed(cfg, s, q');
    assert Dispatch(cfg, s, i)
        == s1.(draining := Dispatch(cfg, s, i).draining, cq := s.cq.(queues := s.cq.queues[k := s.cq.queues[k] + [c]]));
  }

  lemma QueuedWaiting(s: Controller, c: Command, k: nat, a: int, w: bool)
    requires k < |s.cq.queues|
    ensures forall cq: CmdQueue, d: int :: cq.queues == s.cq.queues[k := s.cq.queues[k] + [c]] ==>
      Waiting(s.(cq := cq, draining := d), a, w) == Waiting(s, a, w) + Bit(CmdIs(c, a, w))
  {
    CmdAppend(s.cq.queues[k], c, a, w);
    AllCmdUpdate(s.cq.queues, k, s.cq.queues[k] + [c], a, w);
  }

  lemma DispatchKeepsBook(cfg: Config, s: Controller, i: nat)
    requires cfg.Valid() && Dispatchable(cfg, s, i) && BookInv(cfg, s)
    ensures BookInv(cfg, Dispatch(cfg, s, i))
  {
    var s' := Dispatch(cfg, s, i);
    forall a: int
      ensures Waiting(s', a, false) == Waiting(s, a, false) && Waiting(s', a, true) == Waiting(s, a, true)
    {
      DispatchWaiting(cfg, s, i, a, false);
      DispatchWaiting(cfg, s, i, a, true);
    }
    DispatchShape(cfg, s, i);
  }

  lemma DispatchShape(cfg: Config, s: Controller, i: nat)
    requires cfg.Valid() && Dispatchable(cfg, s, i) && ShapeOk(cfg, s)
    ensures ShapeOk(cfg, Dispatch(cfg, s, i))
  {
    var q := Served(cfg, s);
    assert q[i] in q;
    assert forall t <- q[..i] + q[i + 1..] :: t in q;
  }

  lemma OrderedWithout(q: seq<Transaction>, i: nat)
    requires i < |q| && UnifiedOrdered(q)
    ensures UnifiedOrdered(q[..i] + q[i + 1..])
  {}

  lemma OrderedAppend(q: seq<Command>, c: Command)
    requires QueueOrdered(q) && (c.ty.IsRead() ==> NoWriteTo(q, c.hex))
    ensures QueueOrdered(q + [c])
  {
    assert forall d <- q :: d in q;
  }

  /** In the unified queue a read that could be sent is sent before a later write of its address. */
  lemma NoReadLeftBehind(cfg: Config, s: Controller, i: nat)
    requires cfg.Valid() && cfg.unifiedQueue && i < |s.unifiedQ| && s.unifiedQ[i].isWrite && UnifiedOrdered(s.unifiedQ)
    requires i == FirstAccepted(cfg, s.cq, s.unifiedQ, 0)
    ensures forall j :: 0 <= j < |s.unifiedQ| ==> !Is(s.unifiedQ[j], s.unifiedQ[i].addr, false)
  {
    var q := s.unifiedQ;
    assert WillAcceptCommand(cfg, s.cq, TransToCommand(cfg, q, i));
    forall j | 0 <= j < |q| ensures !Is(q[j], q[i].addr, false) {
      if j < i { assert !WillAcceptCommand(cfg, s.cq, TransToCommand(cfg, q, j)); }
    }
  }

  lemma DispatchUnifiedOrder(cfg: Config, s: Controller, i: nat)
    requires cfg.Valid() && Dispatchable(cfg, s, i) && OrderInv(cfg, s) && cfg.unifiedQueue
    requires i == FirstAccepted(cfg, s.cq, s.unifiedQ, 0)
    ensures OrderInv(cfg, Dispatch(cfg, s, i))
  {
    var q, s' := s.unifiedQ, Dispatch(cfg, s, i);
    var c := TransToCommand(cfg, q, i);
    OrderedWithout(q, i);
    OrderedAppend(s.cq.queues[QueueIndex(cfg, c.Id())], c);
    if q[i].isWrite { NoReadLeftBehind(cfg, s, i); }
    forall k, j | 0 <= k < |s'.cq.queues| && 0 <= j < |s'.unifiedQ| && !s'.unifiedQ[j].isWrite
      ensures NoWriteTo(s'.cq.queues[k], s'.unifiedQ[j].addr)
    {
      var j' := if j < i then j else j + 1;
      assert s'.unifiedQ[j] == q[j'];
      assert NoWriteTo(s.cq.queues[k], q[j'].addr);
    }
  }

  lemma DispatchSplitOrder(cfg: Config, s: Controller, i: nat)
    requires cfg.Valid() && Dispatchable(cfg, s, i) && OrderInv(cfg, s) && !cfg.unifiedQueue
    requires !Served(cfg, s)[i].isWrite || At(s.pendingRd, Served(cfg, s)[i].addr) == []
    ensures OrderInv(cfg, Dispatch(cfg, s, i))
  {
    AtEmpty(s.pendingRd, Served(cfg, s)[i].addr);
    var s' := Dispatch(cfg, s, i);
    forall k, a | 0 <= k < |s'.cq.queues| && a in Keys(s'.pendingRd) ensures NoWriteTo(s'.cq.queues[k], a) {
      assert NoWriteTo(s.cq.queues[k], a);
    }
  }

  /** ScheduleTransaction keeps the bookkeeping and lets no write pass a read of its address. */
  lemma ScheduleKeepsBook(cfg: Config, s: Controller)
    requires cfg.Valid() && BookInv(cfg, s) && OrderInv(cfg, s)
    ensures BookInv(cfg, Schedule(cfg, s)) && OrderInv(cfg, Schedule(cfg, s))
  {
    var s1 := s.(draining := StartDraining(cfg, s));
    assert BookInv(cfg, s1) && OrderInv(cfg, s1) by {
      assert forall a: int, w :: Waiting(s1, a, w) == Waiting(s, a, w);
    }
    var q := Served(cfg, s1);
    var i := FirstAccepted(cfg, s1.cq, q, 0);
    if i < |q| {
      if !cfg.unifiedQueue && q[i].isWrite && At(s1.pendingRd, q[i].addr) != [] {
        assert forall a: int, w :: Waiting(s1.(draining := 0), a, w) == Waiting(s, a, w);
      } else {
        DispatchKeepsBook(cfg, s1, i);
        if cfg.unifiedQueue { DispatchUnifiedOrder(cfg, s1, i); } else { DispatchSplitOrder(cfg, s1, i); }
      }
    }
  }

  lemma DispatchKeepsQueues(cfg: Config, s: Controller, i: nat)
    requires cfg.Valid() && s.cq.Valid(cfg) && Dispatchable(cfg, s, i)
    ensures Dispatch(cfg, s, i).cq.Valid(cfg)
  {
    var cq := Dispatch(cfg, s, i).cq;
    var c := TransToCommand(cfg, Served(cfg, s), i);
    forall k, j | 0 <= k < |cq.queues| && 0 <= j < |cq.queues[k]| ensures Queued(cfg, cq.queues[k][j], k) {
      if j < |s.cq.queues[k]| { assert Queued(cfg, s.cq.queues[k][j], k); } else { assert cq.queues[k][j] == c; }
    }
  }

  /** The command queues stay well-formed and keep their holds; nothing outside the queues changes. */
  lemma ScheduleKeepsQueues(cfg: Config, s: Controller)
    requires cfg.Valid() && s.cq.Valid(cfg)
    ensures var s' := Schedule(cfg, s);
      && s'.cq.Valid(cfg) && s'.cq == s.cq.(queues := s'.cq.queues)
      && s' == s.(cq := s'.cq, unifiedQ := s'.unifiedQ, readQ := s'.readQ, writeBuf := s'.writeBuf,
                  draining := s'.draining)
  {
    var s1 := s.(draining := StartDraining(cfg, s));
    var q := Served(cfg, s1);
    var i := FirstAccepted(cfg, s1.cq, q, 0);
    if i < |q| { DispatchKeepsQueues(cfg, s1, i); }
  }

  // ----- IssueCommand -----

  /** The selected read or write, taken out of its queue. */
  ghost predicate Takes(s: Controller, c: Command, k: nat, j: nat) {
    && c.ty.IsReadWrite() && k < |s.cq.queues| && j < |s.cq.queues[k]| && c == s.cq.queues[k][j]
    && (c.ty.IsWrite() ==> !HasRwDependency(s.cq.queues[k], j))
    && EraseFrom(s.cq.queues[k], c).Some?
  }

  function Without(s: Controller, c: Command, k: nat): CmdQueue
    requires k < |s.cq.queues| && EraseFrom(s.cq.queues[k], c).Some?
  {
    s.cq.(queues := s.cq.queues[k := EraseFrom(s.cq.queues[k], c).value])
  }

  lemma TakenWaiting(s: Controller, c: Command, k: nat, j: nat, cq: CmdQueue, a: int, w: bool)
    requires Takes(s, c, k, j) && cq.queues == Without(s, c, k).queues
    ensures Waiting(s, a, w) == Waiting(s.(cq := cq), a, w) + Bit(CmdIs(c, a, w))
  {
    CmdErase(s.cq.queues[k], c, a, w);
    AllCmdUpdate(s.cq.queues, k, EraseFrom(s.cq.queues[k], c).value, a, w);
  }

  /** The "not in read queue" and "not in write queue" exits are unreachable. */
  lemma TakenIsPending(cfg: Config, s: Controller, c: Command, k: nat, j: nat)
    requires BookInv(cfg, s) && Takes(s, c, k, j)
    ensures c.ty.IsRead() ==> c.hex in Keys(s.pendingRd)
    ensures c.ty.IsWrite() ==> c.hex in s.pendingWr.Keys
  {
    TakenWaiting(s, c, k, j, Without(s, c, k), c.hex, c.ty.IsWrite());
  }

  /** A write is issued only when no read of its address is pending. */
  lemma WriteHasNoPendingRead(cfg: Config, s: Controller, c: Command, k: nat, j: nat)
    requires cfg.Valid() && s.cq.Valid(cfg) && BookInv(cfg, s) && OrderInv(cfg, s)
    requires Takes(s, c, k, j) && c.ty.IsWrite()
    ensures c.hex !in Keys(s.pendingRd)
  {
    assert c in s.cq.queues[k];
    if cfg.unifiedQueue {
      forall l | 0 <= l < |s.cq.queues| ensures CmdCount(s.cq.queues[l], c.hex, false) == 0 {
        forall i | 0 <= i < |s.cq.queues[l]| ensures !CmdIs(s.cq.queues[l][i], c.hex, false) {
          assert Queued(cfg, s.cq.queues[l][i], l) && Queued(cfg, c, k);
          assert QueueOrdered(s.cq.queues[k]);
        }
        CmdMember(s.cq.queues[l], c.hex, false);
      }
      AllCmdMember(s.cq.queues, c.hex, false);
      forall i | 0 <= i < |s.unifiedQ| ensures !Is(s.unifiedQ[i], c.hex, false) {
        if !s.unifiedQ[i].isWrite { assert NoWriteTo(s.cq.queues[k], s.unifiedQ[i].addr); }
      }
      TransMember(s.unifiedQ, c.hex, false);
      assert Waiting(s, c.hex, false) == 0;
    } else {
      assert c.hex in Keys(s.pendingRd) ==> NoWriteTo(s.cq.queues[k], c.hex);
    }
  }

  lemma RetireKeys(cfg: Config, s: Controller, c: Command)
    requires Retire(cfg, s, c).Some?
    ensures var s' := Retire(cfg, s, c).value;
      && Keys(s'.pendingRd) == Keys(s.pendingRd) - (if c.ty.IsRead() then {c.hex} else {})
      && s'.pendingWr.Keys == s.pendingWr.Keys - (if c.ty.IsWrite() then {c.hex} else {})
  {
    if c.ty.IsRead() { AtEmpty(s.pendingRd, c.hex); }
  }

  lemma RetireKeepsBook(cfg: Config, s: Controller, c: Command, k: nat, j: nat, cq: CmdQueue)
    requires BookInv(cfg, s) && Takes(s, c, k, j) && cq.queues == Without(s, c, k).queues && c.hex >= 0
    ensures Retire(cfg, s.(cq := cq), c).Some?
    ensures BookInv(cfg, Retire(cfg, s.(cq := cq), c).value)
  {
    TakenIsPending(cfg, s, c, k, j);
    if c.ty.IsRead() { AtEmpty(s.pendingRd, c.hex); }
    var s1 := s.(cq := cq);
    var s' := Retire(cfg, s1, c).value;
    RetireKeys(cfg, s1, c);
    forall a: int
      ensures Waiting(s', a, false) == Bit(a in Keys(s'.pendingRd))
      ensures Waiting(s', a, true) == Bit(a in s'.pendingWr.Keys)
    {
      TakenWaiting(s, c, k, j, cq, a, false);
      TakenWaiting(s, c, k, j, cq, a, true);
      assert Waiting(s', a, false) == Waiting(s1, a, false) && Waiting(s', a, true) == Waiting(s1, a, true);
    }
    assert ShapeOk(cfg, s');
  }

  lemma {:induction false} EraseOrdered(q: seq<Command>, c: Command)
    requires EraseFrom(q, c).Some? && QueueOrdered(q)
    ensures QueueOrdered(EraseFrom(q, c).value)
  {
    if !(q[0].hex == c.hex && q[0].ty.IsRead() == c.ty.IsRead()) {
      EraseOrdered(q[1..], c);
      EraseSubset(q[1..], c);
      var rest := EraseFrom(q[1..], c).value;
      forall i | 0 <= i < |rest| ensures rest[i] in q[1..] {}
    }
  }

  lemma RetireKeepsOrder(cfg: Config, s: Controller, c: Command, k: nat, j: nat, cq: CmdQueue)
    requires OrderInv(cfg, s) && Takes(s, c, k, j) && cq.queues == Without(s, c, k).queues
    requires Retire(cfg, s.(cq := cq), c).Some?
    ensures OrderInv(cfg, Retire(cfg, s.(cq := cq), c).value)
  {
    RetireKeys(cfg, s.(cq := cq), c);
    EraseSubset(s.cq.queues[k], c);
    if cfg.unifiedQueue { EraseOrdered(s.cq.queues[k], c); }
    forall l, a | 0 <= l < |s.cq.queues| && NoWriteTo(s.cq.queues[l], a) ensures NoWriteTo(cq.queues[l], a) {}
  }
}
