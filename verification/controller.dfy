/** The memory controller: transactions arrive, are merged or forwarded, become commands, issue and
    complete (DRAMsim3/src/controller.cc).

    The simulator carries no data. The model adds an observer that does not influence any decision:
    a transaction is named by its position in `accepted`, a write's datum is its name, `wrData` is the
    content of the pending writes, `dram` the content of the array, `data` what a read returns. */
module Controllers {
  import opened Commands
  import opened Configuration
  import opened BankStates
  import opened ChannelStates
  import opened ChannelRuns
  import opened CommandQueues

  datatype Request = Request(addr: nat, isWrite: bool)

  datatype Transaction = Transaction(
    addr: nat, isWrite: bool, added: nat, complete: nat, // as in the source
    name: nat, data: Option<nat>)                         // observer

  datatype Controller = Controller(
    clk: nat, ch: Channel, cq: CmdQueue,
    unifiedQ: seq<Transaction>, readQ: seq<Transaction>, writeBuf: seq<Transaction>,
    pendingRd: seq<Transaction>, pendingWr: map<nat, Transaction>,
    returnQ: seq<Transaction>, draining: int,
    // observer:
    accepted: seq<Request>, wrData: map<nat, nat>, dram: map<nat, nat>, done: seq<Transaction>, log: seq<Event>)

  function InitController(cfg: Config, sel: BankId -> nat): Controller
    requires cfg.Valid()
  {
    Controller(0, InitChannel(cfg, sel), CmdQueue(seq(Abs(NumQueues(cfg)), _ => []), false, {}, false, {}, 0),
               [], [], [], [], map[], [], 0, [], map[], map[], [], [])
  }

  function Abs(x: int): nat { if x < 0 then -x else x }

  function Lookup(m: map<nat, nat>, a: nat): Option<nat> { if a in m then Some(m[a]) else None }

  /** The transactions with a given address, in order, and the others. */
  function At(q: seq<Transaction>, a: nat): seq<Transaction> {
    if q == [] then [] else (if q[0].addr == a then [q[0]] else []) + At(q[1..], a)
  }

  function NotAt(q: seq<Transaction>, a: nat): seq<Transaction> {
    if q == [] then [] else (if q[0].addr != a then [q[0]] else []) + NotAt(q[1..], a)
  }

  // ----- AddTransaction -----

  /** Capacity is fixed by reserve(): callers check WillAcceptTransaction first, so it never grows. */
  predicate WillAccept(cfg: Config, s: Controller, isWrite: bool) {
    if cfg.unifiedQueue then |s.unifiedQ| < cfg.transQueueSize
    else if !isWrite then |s.readQ| < cfg.transQueueSize
    else cfg.infiniteWriteBuffer || |s.writeBuf| < cfg.transQueueSize
  }

  function AddTransaction(cfg: Config, s: Controller, addr: nat, isWrite: bool): Controller {
    var t := Transaction(addr, isWrite, s.clk, 0, |s.accepted|, None);
    var s1 := s.(accepted := s.accepted + [Request(addr, isWrite)]);
    if isWrite then
      var s2 :=
        if addr in s.pendingWr then s1
        else if cfg.unifiedQueue then s1.(pendingWr := s.pendingWr[addr := t], unifiedQ := s.unifiedQ + [t])
        else s1.(pendingWr := s.pendingWr[addr := t], writeBuf := s.writeBuf + [t]);
      s2.(wrData := s.wrData[addr := t.name], returnQ := s.returnQ + [t.(complete := s.clk + 1)])
    else if addr in s.pendingWr then
      s1.(returnQ := s.returnQ + [t.(complete := s.clk + 1, data := Lookup(s.wrData, addr))])
    else
      var s2 := s1.(pendingRd := s.pendingRd + [t]);
      if |At(s2.pendingRd, addr)| != 1 then s2
      else if cfg.unifiedQueue then s2.(unifiedQ := s.unifiedQ + [t])
      else s2.(readQ := s.readQ + [t])
  }

  // ----- ScheduleTransaction -----

  predicate AnyQueued(cq: CmdQueue) { exists k :: 0 <= k < |cq.queues| && cq.queues[k] != [] }

  predicate WillAcceptCommand(cfg: Config, cq: CmdQueue, c: Command) {
    var k := QueueIndex(cfg, c.Id());
    0 <= k < |cq.queues| && |cq.queues[k]| < cfg.cmdQueueSize
  }

  /** A later transaction of the queue goes to the same row. */
  predicate SameRowFollows(cfg: Config, q: seq<Transaction>, i: nat)
    requires cfg.Valid() && i < |q|
  {
    var a := cfg.decode(q[i].addr);
    exists j :: i < j < |q| &&
      var b := cfg.decode(q[j].addr);
      b.row == a.row && b.rank == a.rank && b.bankgroup == a.bankgroup && b.bank == a.bank
  }

  function TransToCommand(cfg: Config, q: seq<Transaction>, i: nat): (c: Command)
    requires cfg.Valid() && i < |q|
    ensures c.hex == q[i].addr && c.addr == cfg.decode(q[i].addr)
    ensures c.ty.IsWrite() == q[i].isWrite && c.ty.IsRead() == !q[i].isWrite
  {
    var w := q[i].isWrite;
    var ty :=
      match cfg.rowBufPolicy
      case OpenPage => if w then Write else Read
      case ClosePage =>
        if cfg.impl != NoPrac then (if w then WritePrecharge2 else ReadPrecharge2)
        else (if w then WritePrecharge else ReadPrecharge)
      case SoftClosePage =>
        if SameRowFollows(cfg, q, i) then (if w then Write else Read)
        else (if w then WritePrecharge else ReadPrecharge);
    Command(ty, cfg.decode(q[i].addr), q[i].addr)
  }

  /** The first transaction from i on whose command queue has room. */
  function FirstAccepted(cfg: Config, cq: CmdQueue, q: seq<Transaction>, i: nat): (k: nat)
    requires cfg.Valid() && i <= |q|
    ensures i <= k <= |q|
    ensures k < |q| ==> WillAcceptCommand(cfg, cq, TransToCommand(cfg, q, k))
    ensures forall j :: i <= j < k ==> !WillAcceptCommand(cfg, cq, TransToCommand(cfg, q, j))
    decreases |q| - i
  {
    if i == |q| || WillAcceptCommand(cfg, cq, TransToCommand(cfg, q, i)) then i else FirstAccepted(cfg, cq, q, i + 1)
  }

  function StartDraining(cfg: Config, s: Controller): int {
    var n := |s.writeBuf|;
    if s.draining == 0 && !cfg.unifiedQueue &&
       ((!cfg.infiniteWriteBuffer && n >= cfg.transQueueSize) || (n > 8 && !AnyQueued(s.cq)))
    then n else s.draining
  }

  /** The queue that is served: the unified one, or the write buffer while draining, or the read queue. */
  function Served(cfg: Config, s: Controller): seq<Transaction> {
    if cfg.unifiedQueue then s.unifiedQ else if s.draining > 0 then s.writeBuf else s.readQ
  }

  function WithServed(cfg: Config, s: Controller, q: seq<Transaction>): Controller {
    if cfg.unifiedQueue then s.(unifiedQ := q) else if s.draining > 0 then s.(writeBuf := q) else s.(readQ := q)
  }

  /** Transaction i of the served queue becomes a command. */
  function Dispatch(cfg: Config, s: Controller, i: nat): Controller
    requires cfg.Valid() && i < |Served(cfg, s)| && WillAcceptCommand(cfg, s.cq, TransToCommand(cfg, Served(cfg, s), i))
  {
    var q := Served(cfg, s);
    var c := TransToCommand(cfg, q, i);
    var k := QueueIndex(cfg, c.Id());
    WithServed(cfg, s, q[..i] + q[i + 1..]).(
      draining := s.draining - (if !cfg.unifiedQueue && q[i].isWrite then 1 else 0),
      cq := s.cq.(queues := s.cq.queues[k := s.cq.queues[k] + [c]]))
  }

  function Schedule(cfg: Config, s: Controller): Controller
    requires cfg.Valid()
  {
    var s1 := s.(draining := StartDraining(cfg, s));
    var q := Served(cfg, s1);
    var i := FirstAccepted(cfg, s1.cq, q, 0);
    if i == |q| then s1
    else if !cfg.unifiedQueue && q[i].isWrite && At(s1.pendingRd, q[i].addr) != [] then s1.(draining := 0)
    else Dispatch(cfg, s1, i)
  }

  // ----- IssueCommand -----

  function Completed(q: seq<Transaction>, at: nat, data: Option<nat>): (r: seq<Transaction>)
    ensures |r| == |q| && forall i :: 0 <= i < |q| ==> r[i] == q[i].(complete := at, data := data)
  {
    seq(|q|, i requires 0 <= i < |q| => q[i].(complete := at, data := data))
  }

  /** IssueCommand up to the channel update; None where the source exits. */
  function Retire(cfg: Config, s: Controller, c: Command): Option<Controller> {
    if c.ty.IsRead() then
      if c.hex < 0 || At(s.pendingRd, c.hex) == [] then None
      else
        Some(s.(
          returnQ := s.returnQ + Completed(At(s.pendingRd, c.hex), s.clk + cfg.readDelay, Lookup(s.dram, c.hex)),
          pendingRd := NotAt(s.pendingRd, c.hex)))
    else if c.ty.IsWrite() then
      if c.hex < 0 || c.hex !in s.pendingWr then None
      else Some(s.(pendingWr := s.pendingWr - {c.hex},
                   dram := if c.hex in s.wrData then s.dram[c.hex := s.wrData[c.hex]] else s.dram,
                   wrData := s.wrData - {c.hex}))
    else Some(s)
  }

  function IssueCommand(cfg: Config, s: Controller, c: Command, rnd: nat): Option<Controller>
    requires cfg.Valid() && s.ch.Valid(cfg) && Addressable(cfg, c) && c.ty != SrefEnter
  {
    match Retire(cfg, s, c)
    case None => None
    case Some(s1) =>
      match Issued(cfg, s.ch, c, s.clk, rnd)
      case None => None
      case Some(ch) => Some(s1.(ch := ch, log := s.log + [Event(s.clk, c)]))
  }

  // ----- ClockTick -----

  /** What a tick does not decide itself: refreshes that fall due, the PAC draw and the MOPAC draw. */
  datatype TickInput = TickInput(due: seq<Command>, coin: bool, rnd: nat)

  predicate InputOk(cfg: Config, e: TickInput) {
    forall c <- e.due :: c.ty.IsRefresh() && Addressable(cfg, c)
  }

  /** What a pending refresh, else a pending RFM, wants. */
  function FirstStage(cfg: Config, s: Controller, coin: bool): Pick
    requires cfg.Valid() && s.ch.Valid(cfg)
  {
    if s.ch.refreshQ != [] then FinishRefresh(cfg, s.ch, s.cq, s.clk, coin)
    else if s.ch.rfmQ != [] then FinishRfm(cfg, s.ch, s.cq, s.clk, coin)
    else Pick(NotReady, s.cq, s.ch.rfmQ)
  }

  /** The command the tick selects: if the first stage has none, the queues are asked. */
  function Select(cfg: Config, s: Controller, coin: bool): Pick
    requires cfg.Valid() && s.ch.Valid(cfg) && s.cq.Usable(cfg)
  {
    var first := FirstStage(cfg, s, coin);
    if first.ready.NotReady?
    then CommandToIssue(cfg, s.ch.(rfmQ := first.rfmQ), first.cq, Abs(NumQueues(cfg)), s.clk, coin)
    else first
  }

  function Due(s: Controller, e: TickInput): Controller { s.(ch := s.ch.(refreshQ := s.ch.refreshQ + e.due)) }

  /** Take over the scan's effects and issue the selected command, if any; None where the source exits. */
  ghost function Act(cfg: Config, s: Controller, p: Pick, rnd: nat): Option<Controller>
    requires cfg.Valid()
  {
    var s1 := s.(cq := p.cq, ch := s.ch.(rfmQ := p.rfmQ));
    match p.ready
    case Exit => None
    case NotReady => Some(s1)
    case Issue(c) =>
      if !s1.ch.Valid(cfg) || !Addressable(cfg, c) || c.ty == SrefEnter then None
      else IssueCommand(cfg, s1, c, rnd)
  }

  function NextCycle(s: Controller): Controller { s.(clk := s.clk + 1) }

  /** The end of a tick: schedule a transaction and advance the clock. */
  ghost function Finish(cfg: Config, r: Option<Controller>): Option<Controller>
    requires cfg.Valid()
  {
    match r
    case None => None
    case Some(s) => Some(NextCycle(Schedule(cfg, s)))
  }

  /** Controller::ClockTick; None where any part of it exits. */
  ghost function Tick(cfg: Config, s: Controller, e: TickInput): Option<Controller>
    requires cfg.Valid() && s.ch.Valid(cfg) && s.cq.Usable(cfg) && InputOk(cfg, e)
  {
    Finish(cfg, Act(cfg, Due(s, e), Select(cfg, Due(s, e), e.coin), e.rnd))
  }

  // ----- ReturnDoneTrans -----

  /** The first completed transaction of the return queue. */
  function FirstDone(q: seq<Transaction>, i: nat, clk: nat): (k: nat)
    requires i <= |q|
    ensures i <= k <= |q| && (k < |q| ==> clk >= q[k].complete) && forall j :: i <= j < k ==> clk < q[j].complete
    decreases |q| - i
  {
    if i == |q| || clk >= q[i].complete then i else FirstDone(q, i + 1, clk)
  }

  /** ReturnDoneTrans called until it has nothing to return; every returned transaction is called back. */
  function ReturnAll(s: Controller): (s': Controller)
    ensures forall t <- s'.returnQ :: s.clk < t.complete
    ensures s' == s.(returnQ := s'.returnQ, done := s'.done)
    decreases |s.returnQ|
  {
    var k := FirstDone(s.returnQ, 0, s.clk);
    if k == |s.returnQ| then s
    else ReturnAll(s.(returnQ := s.returnQ[..k] + s.returnQ[k + 1..], done := s.done + [s.returnQ[k]]))
  }
}
