/** The command queue as an object: the scheduler's loops over queues and commands, proved against the functions of
    the same steps on values (DRAMsim3/src/command_queue.cc). */
module QueueObjects {
  import opened Commands
  import opened Configuration
  import opened BankStates
  import opened ChannelStates
  import opened CommandQueues
  import opened FrFcfs
  import opened ChannelObjects

  method ArbitratePrecharge(q: seq<Command>, i: nat, b: Bank) returns (ok: bool)
    requires i < |q|
    ensures ok == PrechargeAllowed(q, i, b)
  {
    var j := 0;
    while j < i
      invariant j <= i && forall m :: 0 <= m < j ==> !SameBank(q[m], q[i])
    {
      if SameBank(q[j], q[i]) { return false; }
      j := j + 1;
    }
    var hits := false;
    j := i;
    while j < |q| && !hits
      invariant i <= j <= |q|
      invariant hits <==> exists m :: i <= m < j && SameBank(q[m], q[i]) && q[m].addr.row == b.openRow
    {
      if q[j].addr.row == b.openRow && SameBank(q[j], q[i]) { hits := true; }
      j := j + 1;
    }
    return !hits || b.rowHits >= 4;
  }

  method HasRWDependency(q: seq<Command>, i: nat) returns (found: bool)
    requires i < |q|
    ensures found == HasRwDependency(q, i)
  {
    var j := 0;
    while j < i
      invariant j <= i && forall m :: 0 <= m < j ==> !ReadsLocationOf(q[m], q[i])
    {
      if ReadsLocationOf(q[j], q[i]) { return true; }
      j := j + 1;
    }
    return false;
  }

  lemma {:induction false} EraseFromAt(q: seq<Command>, c: Command, i: nat)
    requires i <= |q| && forall j :: 0 <= j < i ==> !SameRequest(q[j], c)
    requires i < |q| ==> SameRequest(q[i], c)
    ensures EraseFrom(q, c) == if i < |q| then Some(q[..i] + q[i + 1..]) else None
  {
    if i > 0 {
      EraseFromAt(q[1..], c, i - 1);
      if i < |q| { assert [q[0]] + (q[1..][..i - 1] + q[1..][i..]) == q[..i] + q[i + 1..]; }
    } else if q != [] {
      assert q[..0] + q[1..] == q[1..];
    }
  }

  /** With n queues still to visit, the loop ends with the result `goal`. */
  ghost predicate LeadsTo(cfg: Config, ch: Channel, cq: CmdQueue, n: nat, clk: nat, coin: bool, goal: Pick)
    decreases n, 0
  {
    && Populated(cfg, ch.banks) && |ch.fourAw| == |ch.thirtyTwoAw| == cfg.sizes.ranks && cq.Usable(cfg)
    && if n == 0 then goal == Pick(NotReady, cq, ch.rfmQ)
       else
         var p := Visit(cfg, ch, cq, clk, coin);
         Outcome(cfg, ch.(rfmQ := p.rfmQ), p.cq, n - 1, clk, coin, goal, p.ready)
  }

  lemma {:induction false} LeadsToResult(cfg: Config, ch: Channel, cq: CmdQueue, n: nat, clk: nat, coin: bool)
    requires Populated(cfg, ch.banks) && |ch.fourAw| == |ch.thirtyTwoAw| == cfg.sizes.ranks && cq.Usable(cfg)
    ensures Outcome(cfg, ch, cq, n, clk, coin, CommandToIssue(cfg, ch, cq, n, clk, coin), NotReady)
    decreases n
  {
    if n > 0 {
      var p := Visit(cfg, ch, cq, clk, coin);
      if p.ready.NotReady? { LeadsToResult(cfg, ch.(rfmQ := p.rfmQ), p.cq, n - 1, clk, coin); }
    }
  }

  lemma LeadsOn(cfg: Config, ch: Channel, cq: CmdQueue, n: nat, clk: nat, coin: bool, goal: Pick)
    returns (p: Pick)
    requires n > 0 && Outcome(cfg, ch, cq, n, clk, coin, goal, NotReady)
    ensures Populated(cfg, ch.banks) && |ch.fourAw| == |ch.thirtyTwoAw| == cfg.sizes.ranks && cq.Usable(cfg)
    ensures p == Visit(cfg, ch, cq, clk, coin)
    ensures Outcome(cfg, ch.(rfmQ := p.rfmQ), p.cq, n - 1, clk, coin, goal, p.ready)
  {
    p := Visit(cfg, ch, cq, clk, coin);
  }

  /** The answer r so far: nothing yet and the goal still ahead, or the goal reached. */
  ghost predicate Outcome(cfg: Config, ch: Channel, cq: CmdQueue, n: nat, clk: nat, coin: bool, goal: Pick, r: Ready)
    decreases n, 1
  {
    if r.NotReady? then LeadsTo(cfg, ch, cq, n, clk, coin, goal) else Pick(r, cq, ch.rfmQ) == goal
  }

  lemma LeadsNowhere(cfg: Config, ch: Channel, cq: CmdQueue, n: nat, clk: nat, coin: bool, goal: Pick, r: Ready)
    requires Outcome(cfg, ch, cq, n, clk, coin, goal, r) && (r.NotReady? ==> n == 0)
    ensures goal == Pick(r, cq, ch.rfmQ)
  {}

  class CommandQueue {
    const cfg: Config
    const ch: ChannelState
    var queues: seq<seq<Command>>
    var inRef: bool
    var refIdx: set<int>
    var inRfm: bool
    var rfmIdx: set<int>
    var idx: int

    ghost function View(): (cq: CmdQueue)
      reads this
    {
      CmdQueue(queues, inRef, refIdx, inRfm, rfmIdx, idx)
    }

    ghost predicate Usable()
      reads this, ch
    {
      ch.cfg == cfg && ch.Sized() && View().Usable(cfg)
    }

    constructor (cfg: Config, ch: ChannelState)
      requires cfg.Valid() && NumQueues(cfg) >= 1
      ensures this.cfg == cfg && this.ch == ch
      ensures View() == CmdQueue(seq(NumQueues(cfg), _ => []), false, {}, false, {}, 0)
    {
      this.cfg, this.ch := cfg, ch;
      queues := seq(NumQueues(cfg), _ => []);
      inRef, refIdx, inRfm, rfmIdx, idx := false, {}, false, {}, 0;
    }

    method AddCommand(c: Command) returns (ok: bool)
      requires 0 <= QueueIndex(cfg, c.Id()) < |queues|
      modifies this`queues
      ensures ok <==> |old(queues)[QueueIndex(cfg, c.Id())]| < cfg.cmdQueueSize
      ensures var k := QueueIndex(cfg, c.Id());
        queues == if ok then old(queues)[k := old(queues)[k] + [c]] else old(queues)
    {
      var k := QueueIndex(cfg, c.Id());
      ok := |queues[k]| < cfg.cmdQueueSize;
      if ok { queues := queues[k := queues[k] + [c]]; }
    }

    /** Ask for entry i of a queue, and decide whether the scan stops there. */
    method Consider(q: seq<Command>, i: nat, clk: nat, coin: bool) returns (r: Ready, stop: bool)
      requires ch.cfg == cfg && ch.Sized() && i < |q| && Requests(cfg, q)
      modifies ch`rfmQ
      ensures r == GetReady(cfg, old(ch.View()), q[i], clk, coin) && stop == Stops(q, i, r, ch.banks[q[i].Id()])
      ensures ch.View() == old(ch.View()).(rfmQ := RfmAfter(cfg, old(ch.View()), q[i], clk, coin))
    {
      r := ch.GetReadyCommand(q[i], clk, coin);
      stop := !r.NotReady?;
      if r.Issue? {
        if r.cmd.ty.IsPrecharge() {
          stop := ArbitratePrecharge(q, i, ch.banks[q[i].Id()]);
        } else if r.cmd.ty.IsWrite() {
          var dependent := HasRWDependency(q, i);
          stop := !dependent;
        }
      }
    }

    /** GetFirstReadyInQueue on queue k. */
    method GetFirstReady(k: nat, clk: nat, coin: bool) returns (s: Scan)
      requires Usable() && k < |queues|
      modifies ch`rfmQ
      ensures s == FirstReady(cfg, old(ch.View()), queues[k], 0, clk, coin)
      ensures ch.View() == old(ch.View()).(rfmQ := s.rfmQ)
    {
      var q := queues[k];
      var i := 0;
      while i < |q|
        invariant i <= |q| && ch.View() == old(ch.View()).(rfmQ := ch.rfmQ)
        invariant FirstReady(cfg, ch.View(), q, i, clk, coin) == FirstReady(cfg, old(ch.View()), q, 0, clk, coin)
      {
        FirstReadyStep(cfg, ch.View(), q, i, clk, coin);
        var r, stop := Consider(q, i, clk, coin);
        if stop { return Scan(r, ch.rfmQ, i); }
        i := i + 1;
      }
      return Scan(NotReady, ch.rfmQ, i);
    }

    /** EraseRWCommand; false where the source exits. */
    method EraseRWCommand(c: Command) returns (ok: bool)
      modifies this`queues
      ensures match Erase(cfg, old(View()), c)
              case None => !ok && queues == old(queues)
              case Some(cq) => ok && View() == cq
    {
      var k := QueueIndex(cfg, c.Id());
      if !(0 <= k < |queues|) { return false; }
      var q, i := queues[k], 0;
      while i < |q| && !SameRequest(q[i], c)
        invariant i <= |q| && forall j :: 0 <= j < i ==> !SameRequest(q[j], c)
      {
        i := i + 1;
      }
      EraseFromAt(q, c, i);
      if i == |q| { return false; }
      queues := queues[k := q[..i] + q[i + 1..]];
      return true;
    }

    /** One round of GetCommandToIssue. */
    method VisitNext(clk: nat, coin: bool) returns (r: Ready)
      requires Usable()
      modifies this`queues, this`idx, ch`rfmQ
      ensures Pick(r, View(), ch.rfmQ) == Visit(cfg, old(ch.View()), old(View()), clk, coin)
    {
      idx := if idx + 1 == NumQueues(cfg) then 0 else idx + 1;
      if inRef && idx in refIdx { return NotReady; }
      if inRfm && idx in rfmIdx { return NotReady; }
      var s := GetFirstReady(idx, clk, coin);
      r := s.ready;
      if r.Issue? && r.cmd.ty.IsReadWrite() {
        var ok := EraseRWCommand(r.cmd);
        if !ok { return Exit; }
      }
    }

    method GetCommandToIssue(clk: nat, coin: bool) returns (r: Ready)
      requires Usable() && NumQueues(cfg) >= 0
      modifies this`queues, this`idx, ch`rfmQ
      ensures Pick(r, View(), ch.rfmQ) == CommandToIssue(cfg, old(ch.View()), old(View()), NumQueues(cfg), clk, coin)
    {
      LeadsToResult(cfg, ch.View(), View(), NumQueues(cfg), clk, coin);
      r := VisitQueues(NumQueues(cfg), clk, coin, CommandToIssue(cfg, ch.View(), View(), NumQueues(cfg), clk, coin));
    }

    /** The loop over the queues, which ends with the result `goal`. */
    method VisitQueues(m: nat, clk: nat, coin: bool, ghost goal: Pick) returns (r: Ready)
      requires ch.cfg == cfg && Outcome(cfg, ch.View(), View(), m, clk, coin, goal, NotReady)
      modifies this`queues, this`idx, ch`rfmQ
      ensures Pick(r, View(), ch.rfmQ) == goal
    {
      var n := m;
      r := NotReady;
      while n > 0 && r.NotReady?
        invariant Outcome(cfg, ch.View(), View(), n, clk, coin, goal, r)
      {
        r := Round(n, clk, coin, goal);
        n := n - 1;
      }
      LeadsNowhere(cfg, ch.View(), View(), n, clk, coin, goal, r);
    }

    method Round(ghost n: nat, clk: nat, coin: bool, ghost goal: Pick) returns (r: Ready)
      requires n > 0 && ch.cfg == cfg && Outcome(cfg, ch.View(), View(), n, clk, coin, goal, NotReady)
      modifies this`queues, this`idx, ch`rfmQ
      ensures Outcome(cfg, ch.View(), View(), n - 1, clk, coin, goal, r)
    {
      ghost var c := ch.View();
      ghost var p := LeadsOn(cfg, c, View(), n, clk, coin, goal);
      r := VisitNext(clk, coin);
      assert ch.View() == c.(rfmQ := p.rfmQ);
    }

    // ----- Refresh and RFM -----

    /** GetRefQIndices and GetRFMQIndices. */
    method QueueIndices(c: Command) returns (s: set<int>)
      requires cfg.Valid() && (c.ty.IsRankCmd() ==> cfg.HasRank(c.addr.rank))
      ensures s == HeldIndices(cfg, c)
    {
      if c.ty.IsRankCmd() {
        s := RankIndices(c.addr.rank);
      } else if c.ty.IsSbCmd() {
        s := BanksetIndices(c.addr.rank, c.addr.bank);
      } else {
        s := {QueueIndex(cfg, c.Id())};
      }
    }

    method BanksetIndices(rank: int, bank: int) returns (s: set<int>)
      ensures s == if cfg.perBankQueues
        then set g | 0 <= g < cfg.sizes.bankgroups :: QueueIndex(cfg, BankId(rank, g, bank)) else {rank}
    {
      if !cfg.perBankQueues { return {rank}; }
      s := {};
      var g := 0;
      while g < cfg.sizes.bankgroups
        invariant g <= cfg.sizes.bankgroups && s == set h | 0 <= h < g :: QueueIndex(cfg, BankId(rank, h, bank))
      {
        s := s + {QueueIndex(cfg, BankId(rank, g, bank))};
        g := g + 1;
      }
    }

    method RankIndices(rank: int) returns (s: set<int>)
      requires cfg.Valid() && cfg.HasRank(rank)
      ensures s == set i | 0 <= i < NumQueues(cfg) && IndexOfRank(cfg, i, rank)
    {
      if cfg.perBankQueues {
        s := RankRange(rank);
      } else {
        s := {rank};
        assert s == set i | 0 <= i < NumQueues(cfg) && IndexOfRank(cfg, i, rank);
      }
    }

    method RankRange(rank: int) returns (s: set<int>)
      requires cfg.Valid() && cfg.perBankQueues
      ensures s == set i | 0 <= i < NumQueues(cfg) && IndexOfRank(cfg, i, rank)
    {
      BanksPositive(cfg);
      s := {};
      var i := 0;
      while i < NumQueues(cfg)
        invariant 0 <= i && (i <= NumQueues(cfg) || i == 0)
        invariant s == set j | 0 <= j < i && j < NumQueues(cfg) && IndexOfRank(cfg, j, rank)
      {
        if i / cfg.Banks() == rank { s := s + {i}; }
        i := i + 1;
      }
    }

    method FinishPendingRefresh(clk: nat, coin: bool) returns (r: Ready)
      requires cfg.Valid() && ch.cfg == cfg && ch.View().Valid(cfg) && ch.refreshQ != []
      modifies this`inRef, this`refIdx, ch`rfmQ
      ensures Pick(r, View(), ch.rfmQ) == FinishRefresh(cfg, old(ch.View()), old(View()), clk, coin)
    {
      var ref := ch.refreshQ[0];
      if !inRef {
        if ref.ty == RefSb && !cfg.perBankQueues { return Exit; }
        var held := QueueIndices(ref);
        refIdx := refIdx + held;
        inRef := true;
      }
      r := AskFor(ref, clk, coin);
      if r.Issue? && r.cmd.ty.IsRefresh() { refIdx, inRef := {}, false; }
    }

    /** GetReadyCommand for the head of a queue, in a valid channel. */
    method AskFor(c: Command, clk: nat, coin: bool) returns (r: Ready)
      requires ch.cfg == cfg && ch.Sized() && Addressable(cfg, c)
      modifies ch`rfmQ
      ensures r == GetReady(cfg, old(ch.View()), c, clk, coin)
      ensures ch.rfmQ == RfmAfter(cfg, old(ch.View()), c, clk, coin)
    {
      r := ch.GetReadyCommand(c, clk, coin);
    }

    method FinishPendingRfm(clk: nat, coin: bool) returns (r: Ready)
      requires cfg.Valid() && ch.cfg == cfg && ch.View().Valid(cfg) && ch.rfmQ != []
      modifies this`inRfm, this`rfmIdx, ch`rfmQ
      ensures Pick(r, View(), ch.rfmQ) == FinishRfm(cfg, old(ch.View()), old(View()), clk, coin)
    {
      var rfm := ch.rfmQ[0];
      if !inRfm {
        var held := QueueIndices(rfm);
        rfmIdx := rfmIdx + held;
        inRfm := true;
      }
      r := AskFor(rfm, clk, coin);
      if r.Issue? && r.cmd.ty.IsRfm() { rfmIdx, inRfm := {}, false; }
    }
  }
}
