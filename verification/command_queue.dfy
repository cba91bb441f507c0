/** The per-bank or per-rank command queues and their first-ready, first-come scheduler
    (DRAMsim3/src/command_queue.cc). */
module CommandQueues {
  import opened Commands
  import opened Configuration
  import opened BankStates
  import opened ChannelStates
  import MR = MixedRadix

  datatype CmdQueue = CmdQueue(
    queues: seq<seq<Command>>, inRef: bool, refIdx: set<int>, inRfm: bool, rfmIdx: set<int>, idx: int)
  {
    /** Queued commands are reads and writes, decoded from their address, in the queue of their bank. */
    ghost predicate Valid(cfg: Config)
      requires cfg.Valid()
    {
      && |queues| == NumQueues(cfg) && 0 <= idx < |queues|
      && forall k, j :: 0 <= k < |queues| && 0 <= j < |queues[k]| ==> Queued(cfg, queues[k][j], k)
    }

    /** What the scheduler itself relies on. */
    predicate Usable(cfg: Config) {
      && |queues| == NumQueues(cfg) && 0 <= idx < |queues|
      && forall k :: 0 <= k < |queues| ==> Requests(cfg, queues[k])
    }

    /** A refresh or RFM in progress keeps its queues from being served. */
    predicate Skips(k: int) { (inRef && k in refIdx) || (inRfm && k in rfmIdx) }
  }

  predicate Requests(cfg: Config, q: seq<Command>) {
    forall j :: 0 <= j < |q| ==> Addressable(cfg, q[j]) && q[j].ty.IsReadWrite()
  }

  predicate Queued(cfg: Config, c: Command, k: int)
    requires cfg.Valid()
  {
    c.ty.IsReadWrite() && c.hex >= 0 && c.addr == cfg.decode(c.hex) && QueueIndex(cfg, c.Id()) == k
  }

  // ----- Queue indexing -----

  function NumQueues(cfg: Config): int {
    if cfg.perBankQueues then cfg.Banks() * cfg.sizes.ranks else cfg.sizes.ranks
  }

  function QueueIndex(cfg: Config, id: BankId): int {
    if cfg.perBankQueues then id.rank * cfg.Banks() + id.bankgroup * cfg.sizes.banksPerGroup + id.bank
    else id.rank
  }

  /** An index belongs to a rank: integer division by the banks of a rank, or the rank itself. */
  predicate IndexOfRank(cfg: Config, i: int, rank: int)
    requires cfg.Valid()
  {
    if cfg.perBankQueues then (BanksPositive(cfg); i / cfg.Banks() == rank) else i == rank
  }

  lemma BanksPositive(cfg: Config)
    requires cfg.Valid()
    ensures cfg.Banks() >= 1
  {}

  lemma WithinRank(cfg: Config, id: BankId)
    requires cfg.Valid() && cfg.HasBank(id)
    ensures 0 <= id.bankgroup * cfg.sizes.banksPerGroup + id.bank < cfg.Banks()
  {
    var n := cfg.sizes.banksPerGroup;
    MR.MulMono(0, id.bankgroup, n);
    MR.MulMono(id.bankgroup + 1, cfg.sizes.bankgroups, n);
    MR.MulDistrib(id.bankgroup, 1, n);
  }

  /** The queue index lies in range and its quotient is the rank. */
  lemma QueueIndexBounds(cfg: Config, id: BankId)
    requires cfg.Valid() && cfg.HasBank(id)
    ensures 0 <= QueueIndex(cfg, id) < NumQueues(cfg)
    ensures IndexOfRank(cfg, QueueIndex(cfg, id), id.rank)
    ensures forall rank :: IndexOfRank(cfg, QueueIndex(cfg, id), rank) ==> rank == id.rank
  {
    if cfg.perBankQueues {
      WithinRank(cfg, id);
      BanksPositive(cfg);
      RowMajor(id.rank, cfg.Banks(), id.bankgroup * cfg.sizes.banksPerGroup + id.bank, cfg.sizes.ranks);
    }
  }

  lemma RowMajor(q: nat, n: nat, r: nat, m: nat)
    requires r < n && q < m
    ensures 0 <= q * n + r < n * m && (q * n + r) / n == q
  {
    MR.MulMono(q + 1, m, n);
    MR.MulDistrib(q, 1, n);
    MR.MulMono(0, q, n);
    MR.DivisionUnique(q, n, r);
    MR.IsDivMod(q * n + r, n);
  }

  /** With a queue per bank, different banks have different queues. */
  lemma QueueIndexInjective(cfg: Config, a: BankId, b: BankId)
    requires cfg.Valid() && cfg.perBankQueues && cfg.HasBank(a) && cfg.HasBank(b)
    requires QueueIndex(cfg, a) == QueueIndex(cfg, b)
    ensures a == b
  {
    QueueIndexBounds(cfg, a);
    QueueIndexBounds(cfg, b);
    assert a.rank == b.rank;
    RowMajor(a.bankgroup, cfg.sizes.banksPerGroup, a.bank, cfg.sizes.bankgroups);
    RowMajor(b.bankgroup, cfg.sizes.banksPerGroup, b.bank, cfg.sizes.bankgroups);
  }

  // ----- Queues held back by a refresh or an RFM -----

  /** GetRefQIndices and GetRFMQIndices: the queues of a rank, of a bankset, or of a bank.
      A REFsb with per-rank queues has none in the source (Throws). */
  function HeldIndices(cfg: Config, c: Command): set<int>
    requires cfg.Valid()
  {
    if c.ty.IsRankCmd() then set i | 0 <= i < NumQueues(cfg) && IndexOfRank(cfg, i, c.addr.rank)
    else if c.ty.IsSbCmd() then
      if cfg.perBankQueues
      then set g | 0 <= g < cfg.sizes.bankgroups :: QueueIndex(cfg, BankId(c.addr.rank, g, c.addr.bank))
      else {c.addr.rank}
    else {QueueIndex(cfg, c.Id())}
  }

  /** The held queues cover every bank the command acts on; a whole rank's are the queues of no other rank. */
  lemma HeldCovers(cfg: Config, c: Command, id: BankId)
    requires cfg.Valid() && cfg.HasBank(id)
    ensures c.Touches(id) ==> QueueIndex(cfg, id) in HeldIndices(cfg, c)
    ensures c.ty.IsRankCmd() ==> (QueueIndex(cfg, id) in HeldIndices(cfg, c) <==> id.rank == c.addr.rank)
  {
    QueueIndexBounds(cfg, id);
  }

  /** Conversely, every held queue is that of some bank the command acts on. */
  lemma HeldOnly(cfg: Config, c: Command, i: int) returns (id: BankId)
    requires cfg.Valid() && Addressable(cfg, c) && i in HeldIndices(cfg, c)
    ensures cfg.HasBank(id) && c.Touches(id) && QueueIndex(cfg, id) == i
  {
    if c.ty.IsRankCmd() {
      id := BankOfQueue(cfg, c.addr.rank, i);
    } else if c.ty.IsSbCmd() {
      var g := 0;
      if cfg.perBankQueues {
        g :| 0 <= g < cfg.sizes.bankgroups && QueueIndex(cfg, BankId(c.addr.rank, g, c.addr.bank)) == i;
      }
      id := BankId(c.addr.rank, g, c.addr.bank);
    } else {
      id := c.Id();
    }
  }

  /** Every queue of a rank is that of one of its banks. */
  lemma BankOfQueue(cfg: Config, rank: nat, i: nat) returns (id: BankId)
    requires cfg.Valid() && cfg.HasRank(rank) && IndexOfRank(cfg, i, rank)
    ensures cfg.HasBank(id) && id.rank == rank && QueueIndex(cfg, id) == i
  {
    id := BankId(rank, 0, 0);
    if cfg.perBankQueues {
      var n, m := cfg.sizes.banksPerGroup, cfg.sizes.bankgroups;
      BanksPositive(cfg);
      var r := MR.Rem(i, cfg.Banks());
      MR.Division(i, cfg.Banks());
      MR.IsDivMod(i, cfg.Banks());
      var g := MR.Quot(r, n);
      MR.Division(r, n);
      if g >= m { MR.MulMono(m, g, n); }
      id := BankId(rank, g, MR.Rem(r, n));
    }
  }

  // ----- GetFirstReadyInQueue -----

  predicate SameBank(a: Command, b: Command) { a.Id() == b.Id() }

  /** ArbitratePrecharge: the oldest request of its bank, and no row hit waits or the hit limit is reached. */
  predicate PrechargeAllowed(q: seq<Command>, i: nat, b: Bank)
    requires i < |q|
  {
    && (forall j :: 0 <= j < i ==> !SameBank(q[j], q[i]))
    && ((forall j :: i <= j < |q| && SameBank(q[j], q[i]) ==> q[j].addr.row != b.openRow) || b.rowHits >= 4)
  }

  /** HasRWDependency: an older read of the same location (the rank is not compared). */
  predicate HasRwDependency(q: seq<Command>, i: nat)
    requires i < |q|
  {
    exists j :: 0 <= j < i && ReadsLocationOf(q[j], q[i])
  }

  predicate ReadsLocationOf(d: Command, c: Command) {
    && d.ty.IsRead() && d.addr.row == c.addr.row && d.addr.column == c.addr.column
    && d.addr.bank == c.addr.bank && d.addr.bankgroup == c.addr.bankgroup
  }

  /** Same address and direction. */
  predicate SameRequest(d: Command, c: Command) { d.hex == c.hex && d.ty.IsRead() == c.ty.IsRead() }

  /** The scan's answer, the RFM queue it leaves and the position it stopped at. */
  datatype Scan = Scan(ready: Ready, rfmQ: seq<Command>, at: nat)

  lemma QueuedAddressable(cfg: Config, c: Command, k: int)
    requires cfg.Valid() && Queued(cfg, c, k)
    ensures Addressable(cfg, c)
  {
    assert cfg.Hits(cfg.decode(c.hex));
  }

  function FirstReady(cfg: Config, ch: Channel, q: seq<Command>, i: nat, clk: nat, coin: bool): (s: Scan)
    requires Populated(cfg, ch.banks) && |ch.fourAw| == |ch.thirtyTwoAw| == cfg.sizes.ranks
    requires i <= |q| && Requests(cfg, q)
    ensures s.ready.Issue? ==> i <= s.at < |q|
    decreases |q| - i
  {
    if i == |q| then Scan(NotReady, ch.rfmQ, i)
    else
      var r := GetReady(cfg, ch, q[i], clk, coin);
      var ch1 := ch.(rfmQ := RfmAfter(cfg, ch, q[i], clk, coin));
      match r
      case Exit => Scan(Exit, ch1.rfmQ, i)
      case NotReady => FirstReady(cfg, ch1, q, i + 1, clk, coin)
      case Issue(c) =>
        if c.ty.IsPrecharge() && !PrechargeAllowed(q, i, ch.banks[q[i].Id()])
        then FirstReady(cfg, ch1, q, i + 1, clk, coin)
        else if c.ty.IsWrite() && HasRwDependency(q, i) then FirstReady(cfg, ch1, q, i + 1, clk, coin)
        else Scan(r, ch1.rfmQ, i)
  }

  // ----- GetCommandToIssue -----

  /** EraseRWCommand: the first queued command of that address and direction; None where the source exits. */
  function EraseFrom(q: seq<Command>, c: Command): (r: Option<seq<Command>>)
    ensures r.Some? <==> exists d <- q :: SameRequest(d, c)
  {
    if q == [] then None
    else if SameRequest(q[0], c) then Some(q[1..])
    else
      match EraseFrom(q[1..], c)
      case None => None
      case Some(rest) => Some([q[0]] + rest)
  }

  function Erase(cfg: Config, cq: CmdQueue, c: Command): Option<CmdQueue> {
    var k := QueueIndex(cfg, c.Id());
    if !(0 <= k < |cq.queues|) then None
    else
      match EraseFrom(cq.queues[k], c)
      case None => None
      case Some(rest) => Some(cq.(queues := cq.queues[k := rest]))
  }

  datatype Pick = Pick(ready: Ready, cq: CmdQueue, rfmQ: seq<Command>)

  function NextIdx(cfg: Config, idx: int): int { if idx + 1 == NumQueues(cfg) then 0 else idx + 1 }

  /** One round of the loop: the next queue, skipped if it is held back. */
  function Visit(cfg: Config, ch: Channel, cq: CmdQueue, clk: nat, coin: bool): (p: Pick)
    requires Populated(cfg, ch.banks) && |ch.fourAw| == |ch.thirtyTwoAw| == cfg.sizes.ranks && cq.Usable(cfg)
    ensures p.ready.NotReady? ==> p.cq == cq.(idx := NextIdx(cfg, cq.idx))
  {
    var k := NextIdx(cfg, cq.idx);
    var cq1 := cq.(idx := k);
    if cq.Skips(k) then Pick(NotReady, cq1, ch.rfmQ)
    else
      var s := FirstReady(cfg, ch, cq.queues[k], 0, clk, coin);
      if s.ready.Issue? && s.ready.cmd.ty.IsReadWrite() then
        match Erase(cfg, cq1, s.ready.cmd)
        case None => Pick(Exit, cq1, s.rfmQ)
        case Some(cq2) => Pick(s.ready, cq2, s.rfmQ)
      else Pick(s.ready, cq1, s.rfmQ)
  }

  /** The round-robin loop with n queues still to visit. */
  function CommandToIssue(cfg: Config, ch: Channel, cq: CmdQueue, n: nat, clk: nat, coin: bool): Pick
    requires Populated(cfg, ch.banks) && |ch.fourAw| == |ch.thirtyTwoAw| == cfg.sizes.ranks && cq.Usable(cfg)
    decreases n
  {
    if n == 0 then Pick(NotReady, cq, ch.rfmQ)
    else
      var p := Visit(cfg, ch, cq, clk, coin);
      if p.ready.NotReady? then CommandToIssue(cfg, ch.(rfmQ := p.rfmQ), p.cq, n - 1, clk, coin) else p
  }

  // ----- FinishRefresh and FinishRFM -----

  /** FinishRefresh for the oldest pending refresh, given the answer r to asking for it. */
  function RefreshPick(cfg: Config, cq: CmdQueue, ref: Command, r: Ready, rfmQ: seq<Command>): Pick
    requires cfg.Valid()
  {
    var cq1 := if cq.inRef then cq else cq.(inRef := true, refIdx := cq.refIdx + HeldIndices(cfg, ref));
    var cq2 := if r.Issue? && r.cmd.ty.IsRefresh() then cq1.(inRef := false, refIdx := {}) else cq1;
    Pick(r, cq2, rfmQ)
  }

  /** With a queue per rank a REFsb has no queues of its own, and beginning to drain for one throws. */
  predicate Throws(cfg: Config, cq: CmdQueue, ref: Command) { ref.ty == RefSb && !cfg.perBankQueues && !cq.inRef }

  /** FinishRefresh: drain the banks of the oldest pending refresh, then issue it. */
  function FinishRefresh(cfg: Config, ch: Channel, cq: CmdQueue, clk: nat, coin: bool): Pick
    requires cfg.Valid() && ch.Valid(cfg) && ch.refreshQ != []
  {
    var ref := ch.refreshQ[0];
    if Throws(cfg, cq, ref) then Pick(Exit, cq, ch.rfmQ)
    else RefreshPick(cfg, cq, ref, GetReady(cfg, ch, ref, clk, coin), RfmAfter(cfg, ch, ref, clk, coin))
  }

  function RfmPick(cfg: Config, cq: CmdQueue, rfm: Command, r: Ready, rfmQ: seq<Command>): Pick
    requires cfg.Valid()
  {
    var cq1 := if cq.inRfm then cq else cq.(inRfm := true, rfmIdx := cq.rfmIdx + HeldIndices(cfg, rfm));
    var cq2 := if r.Issue? && r.cmd.ty.IsRfm() then cq1.(inRfm := false, rfmIdx := {}) else cq1;
    Pick(r, cq2, rfmQ)
  }

  function FinishRfm(cfg: Config, ch: Channel, cq: CmdQueue, clk: nat, coin: bool): Pick
    requires cfg.Valid() && ch.Valid(cfg) && ch.rfmQ != []
  {
    var rfm := ch.rfmQ[0];
    RfmPick(cfg, cq, rfm, GetReady(cfg, ch, rfm, clk, coin), RfmAfter(cfg, ch, rfm, clk, coin))
  }

  // ----- What the scheduler guarantees -----

  lemma ValidIsUsable(cfg: Config, cq: CmdQueue)
    requires cfg.Valid() && cq.Valid(cfg)
    ensures cq.Usable(cfg)
  {
    forall k | 0 <= k < |cq.queues| ensures Requests(cfg, cq.queues[k]) {
      forall j | 0 <= j < |cq.queues[k]| ensures Addressable(cfg, cq.queues[k][j]) {
        QueuedAddressable(cfg, cq.queues[k][j], k);
      }
    }
  }

  /** An RFM queue made of existing ranks and banksets, with at most one entry per key. */
  ghost predicate RfmQueueOk(cfg: Config, q: seq<Command>) {
    && (forall c <- q :: c.ty.IsRfm() && Addressable(cfg, c) && (c.ty == RfmAb ==> c.addr.bank == -1))
    && forall i, j :: 0 <= i < j < |q| ==> (q[i].addr.rank, q[i].addr.bank) != (q[j].addr.rank, q[j].addr.bank)
  }

  lemma RfmAfterOk(cfg: Config, ch: Channel, cmd: Command, clk: nat, coin: bool)
    requires Populated(cfg, ch.banks) && Addressable(cfg, cmd) && RfmQueueOk(cfg, ch.rfmQ)
    ensures RfmQueueOk(cfg, RfmAfter(cfg, ch, cmd, clk, coin))
    ensures ch.rfmQ <= RfmAfter(cfg, ch, cmd, clk, coin)
  {}

  /** The first ready command of a queue may be issued; a read or write is the queued one itself, and a
      write has no older read of its location in front of it. */
  ghost predicate ScanSound(cfg: Config, ch: Channel, q: seq<Command>, clk: nat, s: Scan)
    requires ch.Valid(cfg)
  {
    && s.ready != Exit
    && RfmQueueOk(cfg, s.rfmQ) && ch.rfmQ <= s.rfmQ
    && (s.ready.Issue? ==>
          var c := s.ready.cmd;
          && s.at < |q| && Issuable(cfg, ch, c, clk) && c.Id() == q[s.at].Id()
          && (c.ty.IsReadWrite() ==> c == q[s.at]) && !c.ty.IsRefresh() && !c.ty.IsRfm()
          && (c.ty.IsWrite() ==> !HasRwDependency(q, s.at)))
  }

  lemma WithRfmValid(cfg: Config, ch: Channel, q: seq<Command>)
    requires ch.Valid(cfg) && RfmQueueOk(cfg, q)
    ensures ch.(rfmQ := q).Valid(cfg)
  {}

  lemma ScanSoundFrom(cfg: Config, ch: Channel, ch1: Channel, q: seq<Command>, clk: nat, s: Scan)
    requires ch.Valid(cfg) && ch1.Valid(cfg) && ch1 == ch.(rfmQ := ch1.rfmQ) && ch.rfmQ <= ch1.rfmQ
    requires ScanSound(cfg, ch1, q, clk, s)
    ensures ScanSound(cfg, ch, q, clk, s)
  {
    if s.ready.Issue? { assert Issuable(cfg, ch, s.ready.cmd, clk); }
  }

  lemma {:induction false} FirstReadySound(cfg: Config, ch: Channel, q: seq<Command>, i: nat, clk: nat, coin: bool)
    requires ch.Valid(cfg) && RfmQueueOk(cfg, ch.rfmQ) && i <= |q| && Requests(cfg, q)
    ensures ScanSound(cfg, ch, q, clk, FirstReady(cfg, ch, q, i, clk, coin))
    decreases |q| - i
  {
    if i < |q| {
      ReadyIsIssuable(cfg, ch, q[i], clk, coin);
      RfmAfterOk(cfg, ch, q[i], clk, coin);
      var ch1 := ch.(rfmQ := RfmAfter(cfg, ch, q[i], clk, coin));
      WithRfmValid(cfg, ch, ch1.rfmQ);
      FirstReadySound(cfg, ch1, q, i + 1, clk, coin);
      ScanSoundFrom(cfg, ch, ch1, q, clk, FirstReady(cfg, ch1, q, i + 1, clk, coin));
    }
  }

  lemma {:induction false} EraseSubset(q: seq<Command>, c: Command)
    requires EraseFrom(q, c).Some?
    ensures forall d <- EraseFrom(q, c).value :: d in q
  {
    if !SameRequest(q[0], c) { EraseSubset(q[1..], c); }
  }

  lemma EraseValid(cfg: Config, cq: CmdQueue, k: nat, c: Command)
    requires cfg.Valid() && cq.Valid(cfg) && k < |cq.queues| && c in cq.queues[k]
    ensures EraseFrom(cq.queues[k], c).Some?
    ensures Erase(cfg, cq, c) == Some(cq.(queues := cq.queues[k := EraseFrom(cq.queues[k], c).value]))
    ensures Erase(cfg, cq, c).value.Valid(cfg)
  {
    var q := cq.queues[k];
    assert Queued(cfg, c, k);
    EraseSubset(q, c);
    var rest := EraseFrom(q, c).value;
    forall j | 0 <= j < |rest| ensures Queued(cfg, rest[j], k) {
      assert rest[j] in q;
      var i :| 0 <= i < |q| && q[i] == rest[j];
    }
  }

  /** What GetCommandToIssue returns: a command of a queue that is not held back, issuable now. */
  ghost predicate PickSound(cfg: Config, ch: Channel, cq: CmdQueue, clk: nat, p: Pick, k: nat, j: nat)
    requires cfg.Valid() && ch.Valid(cfg)
  {
    && p.ready != Exit
    && RfmQueueOk(cfg, p.rfmQ) && ch.rfmQ <= p.rfmQ
    && p.cq.Valid(cfg) && p.cq == cq.(queues := p.cq.queues, idx := p.cq.idx)
    && (p.ready.NotReady? ==> p.cq.queues == cq.queues)
    && (p.ready.Issue? ==>
          var c := p.ready.cmd;
          && k < |cq.queues| && j < |cq.queues[k]| && !cq.Skips(k)
          && Issuable(cfg, ch, c, clk) && c.Id() == cq.queues[k][j].Id() && !c.ty.IsRefresh() && !c.ty.IsRfm()
          && (if c.ty.IsReadWrite() then
                && c == cq.queues[k][j]
                && (c.ty.IsWrite() ==> !HasRwDependency(cq.queues[k], j))
                && EraseFrom(cq.queues[k], c).Some?
                && p.cq.queues == cq.queues[k := EraseFrom(cq.queues[k], c).value]
              else p.cq.queues == cq.queues))
  }

  /** The RFM queue and the round-robin position do not matter to what is sound. */
  lemma PickSoundFrom(cfg: Config, ch: Channel, ch1: Channel, cq: CmdQueue, cq1: CmdQueue, clk: nat, p: Pick, k: nat,
                      j: nat)
    requires cfg.Valid() && ch.Valid(cfg) && ch1.Valid(cfg)
    requires ch1 == ch.(rfmQ := ch1.rfmQ) && ch.rfmQ <= ch1.rfmQ && cq1 == cq.(idx := cq1.idx)
    requires PickSound(cfg, ch1, cq1, clk, p, k, j)
    ensures PickSound(cfg, ch, cq, clk, p, k, j)
  {
    if p.ready.Issue? { assert Issuable(cfg, ch, p.ready.cmd, clk); }
  }

  lemma NextQueue(cfg: Config, cq: CmdQueue) returns (i: nat)
    requires cfg.Valid() && cq.Valid(cfg) && cq.Usable(cfg)
    ensures i == NextIdx(cfg, cq.idx) && i < |cq.queues|
    ensures cq.(idx := i).Valid(cfg) && cq.(idx := i).Usable(cfg)
  {
    i := NextIdx(cfg, cq.idx);
  }

  lemma VisitSound(cfg: Config, ch: Channel, cq: CmdQueue, clk: nat, coin: bool)
    returns (k: nat, j: nat)
    requires cfg.Valid() && ch.Valid(cfg) && RfmQueueOk(cfg, ch.rfmQ) && cq.Valid(cfg) && cq.Usable(cfg)
    ensures PickSound(cfg, ch, cq, clk, Visit(cfg, ch, cq, clk, coin), k, j)
  {
    k := NextQueue(cfg, cq);
    j := 0;
    if !cq.Skips(k) {
      var s := FirstReady(cfg, ch, cq.queues[k], 0, clk, coin);
      FirstReadySound(cfg, ch, cq.queues[k], 0, clk, coin);
      if s.ready.Issue? {
        j := s.at;
        if s.ready.cmd.ty.IsReadWrite() { EraseValid(cfg, cq.(idx := k), k, s.ready.cmd); }
      }
    }
  }

  lemma {:induction false} CommandToIssueSound(cfg: Config, ch: Channel, cq: CmdQueue, n: nat, clk: nat, coin: bool)
    returns (k: nat, j: nat)
    requires cfg.Valid() && ch.Valid(cfg) && RfmQueueOk(cfg, ch.rfmQ) && cq.Valid(cfg) && cq.Usable(cfg)
    ensures PickSound(cfg, ch, cq, clk, CommandToIssue(cfg, ch, cq, n, clk, coin), k, j)
    decreases n
  {
    k, j := 0, 0;
    if n > 0 {
      var p := Visit(cfg, ch, cq, clk, coin);
      k, j := VisitSound(cfg, ch, cq, clk, coin);
      if p.ready.NotReady? {
        var i := NextQueue(cfg, cq);
        var ch1 := ch.(rfmQ := p.rfmQ);
        WithRfmValid(cfg, ch, p.rfmQ);
        k, j := CommandToIssueSound(cfg, ch1, p.cq, n - 1, clk, coin);
        PickSoundFrom(cfg, ch, ch1, cq, p.cq, clk, CommandToIssue(cfg, ch1, p.cq, n - 1, clk, coin), k, j);
      }
    }
  }
}
