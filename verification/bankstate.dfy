/** One DRAM bank: its row-buffer state machine, timing bounds, activation counters and the
    MOAT and MOPAC mitigation logic (DRAMsim3/src/bankstate.cc). */
module BankStates {
  import opened Commands
  import opened Configuration

  datatype Phase = Open | Closed | Sref

  datatype MopacEntry = MopacEntry(row: nat, sctr: nat)

  datatype Bank = Bank(
    state: Phase, openRow: int, rowHits: nat,
    timing: map<CommandType, nat>,
    raa: int, prac: seq<nat>,
    moatValid: bool, moatRow: nat, moatRefs: nat,
    mopacActs: nat, mopacSel: nat, mopacDrain: nat, mopacBuf: seq<MopacEntry>, mopacCritical: nat,
    refIdx: nat)
  {
    ghost predicate Valid(cfg: Config) {
      && state != Sref
      && (state == Open <==> openRow != -1)
      && (openRow == -1 || cfg.HasRow(openRow))
      && |prac| == cfg.sizes.rows
      && refIdx < |prac|
    }

    /** The PRAC counter of a row. */
    function Count(r: int): nat {
      if 0 <= r < |prac| then prac[r] else 0
    }

    function WithCount(r: int, v: nat): Bank {
      if 0 <= r < |prac| then this.(prac := prac[r := v]) else this
    }

    /** cmd_timing_: the earliest cycle a command may issue; every entry starts at 0. */
    function EarliestStart(ty: CommandType): nat {
      if ty in timing then timing[ty] else 0
    }

    /** The cases of UpdateState that do not exit. */
    predicate Legal(ty: CommandType) {
      match state
      case Open => ty.IsReadWrite() || ty.IsPrecharge()
      case Closed => ty.IsRefresh() || ty.IsRfm() || ty == Activate || ty == SrefEnter
      case Sref => ty == SrefExit
    }
  }

  function InitBank(cfg: Config, sel: nat): Bank
    requires cfg.Valid()
  {
    Bank(Closed, -1, 0, map[], 0, seq(cfg.sizes.rows, _ => 0), false, 0, 0, 0, sel % cfg.pacProb, 0, [], 0, 0)
  }

  // ----- GetReadyCommand -----

  /** GetPrechargeCmd; `coin` is the draw that PAC caches until the next precharge. */
  function PrechargeType(impl: PracImpl, coin: bool): CommandType {
    match impl
    case Mopac => Precharge
    case Pac => if coin then Precharge2 else Precharge
    case NoPrac => Precharge
    case _ => Precharge2
  }

  /** The command a bank needs next to serve a request; None where the source exits. */
  function RequiredType(cfg: Config, b: Bank, cmd: Command, coin: bool): Option<CommandType> {
    var ty := cmd.ty;
    match b.state
    case Closed =>
      if ty.IsReadWrite() then
        if cfg.rfmMode == 1 && b.raa >= cfg.raammt then Some(RfmSb)
        else if cfg.rfmMode == 2 && b.raa >= cfg.raammt then Some(RfmAb)
        else Some(Activate)
      else if ty.IsRefresh() || ty == SrefEnter || ty.IsRfm() then Some(ty)
      else None
    case Open =>
      if ty.IsReadWrite() then
        if cmd.addr.row == b.openRow then Some(ty) else Some(PrechargeType(cfg.impl, coin))
      else if ty.IsRefresh() || ty == SrefEnter || ty.IsRfm() then Some(PrechargeType(cfg.impl, coin))
      else None
    case Sref =>
      if ty.IsReadWrite() then Some(SrefExit) else None
  }

  function BankReady(cfg: Config, b: Bank, cmd: Command, clk: nat, coin: bool): Ready {
    match RequiredType(cfg, b, cmd, coin)
    case None => Exit
    case Some(ty) => if clk >= b.EarliestStart(ty) then Issue(Command(ty, cmd.addr, cmd.hex)) else NotReady
  }

  // ----- Counters: MOAT -----

  /** A 16-bit counter: the remainder by 2^16 (MopacCounting.WrapIsMod), by repeated subtraction. */
  function Wrap16(x: nat): (r: nat)
    ensures r <= x && r < 65536
  {
    if x < 65536 then x else Wrap16(x - 65536)
  }

  /** Row r is among the rowsRefreshed rows from refIdx on, counted around the end of the bank. */
  predicate InRefreshWindow(cfg: Config, b: Bank, r: nat)
    requires b.refIdx < |b.prac| && r < |b.prac|
  {
    (if r >= b.refIdx then r - b.refIdx else r + |b.prac| - b.refIdx) < cfg.rowsRefreshed
  }

  function ClearRefreshed(cfg: Config, b: Bank): Bank
    requires b.refIdx < |b.prac|
  {
    b.(prac := seq(|b.prac|, r requires 0 <= r < |b.prac| => if InRefreshWindow(cfg, b, r) then 0 else b.prac[r]))
  }

  function MoatUpdate(cfg: Config, b: Bank): Bank
    requires 0 <= b.openRow
  {
    var c := b.Count(b.openRow);
    if c >= cfg.moatAth / 2 && (!b.moatValid || c > b.Count(b.moatRow)) then
      b.(moatRow := b.openRow, moatValid := true)
    else b
  }

  function MoatMitigate(b: Bank): Bank {
    if b.moatValid then b.WithCount(b.moatRow, 0).(moatValid := false) else b
  }

  /** The tracked row is dropped when it lies in the refreshed range; here the range does not wrap. */
  function MoatCheckTracked(cfg: Config, b: Bank): Bank {
    if b.moatValid && b.refIdx <= b.moatRow < b.refIdx + cfg.rowsRefreshed then b.(moatValid := false) else b
  }

  function MoatHandleRef(cfg: Config, b: Bank): Bank {
    var b1 := b.(moatRefs := b.moatRefs + 1);
    var b2 := if b1.moatRefs == 5 then MoatMitigate(b1).(moatRefs := 0) else b1;
    MoatCheckTracked(cfg, b2)
  }

  // ----- Counters: MOPAC -----

  function MopacUpdatePrac(cfg: Config, b: Bank, r: nat, n: nat): (b': Bank)
    ensures b' == b.(prac := b'.prac, moatValid := b'.moatValid, moatRow := b'.moatRow) && |b'.prac| == |b.prac|
  {
    var c := Wrap16(b.Count(r) + n);
    var b1 := b.WithCount(r, c);
    if c >= cfg.moatAth / 2 && (!b1.moatValid || c > b1.Count(b1.moatRow)) then b1.(moatRow := r, moatValid := true)
    else b1
  }

  function MopacFlush(cfg: Config, b: Bank, n: nat): (b': Bank)
    ensures |b'.prac| == |b.prac|
    ensures b' == b.(prac := b'.prac, moatValid := b'.moatValid, moatRow := b'.moatRow, mopacBuf := b'.mopacBuf)
    decreases n
  {
    if n == 0 || b.mopacBuf == [] then b
    else
      var e := b.mopacBuf[0];
      MopacFlush(cfg, MopacUpdatePrac(cfg, b.(mopacBuf := b.mopacBuf[1..]), e.row, e.sctr), n - 1)
  }

  /** The first buffered entry from i on that satisfies the test, or the buffer's length. */
  function FirstEntry(buf: seq<MopacEntry>, i: nat, p: MopacEntry -> bool): (k: nat)
    requires i <= |buf|
    ensures i <= k <= |buf| && (k < |buf| ==> p(buf[k])) && forall j :: i <= j < k ==> !p(buf[j])
    decreases |buf| - i
  {
    if i == |buf| || p(buf[i]) then i else FirstEntry(buf, i + 1, p)
  }

  /** SafeDecrement works on a copy, so the count of critical rows stays as it is. */
  function MopacHandleCriticalRow(cfg: Config, b: Bank): (b': Bank)
    ensures |b'.prac| == |b.prac|
    ensures b' == b.(prac := b'.prac, moatValid := b'.moatValid, moatRow := b'.moatRow, mopacBuf := b'.mopacBuf)
  {
    var k := FirstEntry(b.mopacBuf, 0, (e: MopacEntry) => e.sctr >= cfg.mopacQueueTh);
    if k == |b.mopacBuf| then b
    else
      var e := b.mopacBuf[k];
      MopacUpdatePrac(cfg, b, e.row, e.sctr).(mopacBuf := b.mopacBuf[..k] + b.mopacBuf[k + 1..])
  }

  /** Entries of rows about to be refreshed leave the buffer. */
  function MopacKept(buf: seq<MopacEntry>, lwr: nat, upp: nat): (kept: seq<MopacEntry>)
    ensures forall e :: e in kept <==> e in buf && !(lwr <= e.row < upp)
  {
    if buf == [] then []
    else (if lwr <= buf[0].row < upp then [] else [buf[0]]) + MopacKept(buf[1..], lwr, upp)
  }

  const SIZE_MAX: nat := 0xFFFF_FFFF_FFFF_FFFF

  /** The drain countdown of a refresh: at zero some entries are flushed, and it starts again. */
  function MopacDrained(cfg: Config, b: Bank): (b': Bank)
    ensures |b'.prac| == |b.prac|
    ensures b' == b.(prac := b'.prac, moatValid := b'.moatValid, moatRow := b'.moatRow, mopacBuf := b'.mopacBuf,
                     mopacDrain := b'.mopacDrain)
  {
    var b1 := if b.mopacDrain == 0
              then MopacFlush(cfg, b, cfg.mopacRefUpdates).(mopacDrain := cfg.mopacDrainFreq) else b;
    b1.(mopacDrain := if b1.mopacDrain == 0 then SIZE_MAX else b1.mopacDrain - 1)
  }

  function MopacHandleRef(cfg: Config, b: Bank): (b': Bank)
    ensures |b'.prac| == |b.prac|
    ensures b' == b.(prac := b'.prac, moatValid := b'.moatValid, moatRow := b'.moatRow, mopacBuf := b'.mopacBuf,
                     mopacDrain := b'.mopacDrain)
  {
    var b1 := b.(mopacBuf := MopacKept(b.mopacBuf, b.refIdx, b.refIdx + cfg.rowsRefreshed));
    MoatCheckTracked(cfg, MopacDrained(cfg, b1))
  }

  function MopacMitigate(cfg: Config, b: Bank): (b': Bank)
    ensures |b'.prac| == |b.prac|
    ensures b' == b.(prac := b'.prac, moatValid := b'.moatValid, moatRow := b'.moatRow, mopacBuf := b'.mopacBuf)
  {
    if b.mopacCritical > 0 then MopacHandleCriticalRow(cfg, b)
    else if |b.mopacBuf| >= cfg.mopacBufSize then MopacFlush(cfg, b, cfg.mopacAboUpdates)
    else if b.moatValid && b.Count(b.moatRow) >= cfg.moatAth then MoatMitigate(b)
    else MopacFlush(cfg, b, cfg.mopacAboUpdates)
  }

  /** MopacCtrUpdate: one activation in every window of pacProb is sampled into the buffer. */
  function MopacCtrUpdate(cfg: Config, b: Bank, rnd: nat): (b': Bank)
    requires cfg.pacProb >= 1 && 0 <= b.openRow
    ensures b' == b.(mopacBuf := b'.mopacBuf, mopacCritical := b'.mopacCritical, mopacActs := b'.mopacActs,
                     mopacSel := b'.mopacSel)
  {
    var b1 := if b.mopacActs == b.mopacSel then MopacSample(cfg, b) else b;
    if b1.mopacActs + 1 == cfg.pacProb then b1.(mopacActs := 0, mopacSel := rnd % cfg.pacProb)
    else b1.(mopacActs := b1.mopacActs + 1)
  }

  function MopacSample(cfg: Config, b: Bank): (b': Bank)
    requires 0 <= b.openRow
    ensures b' == b.(mopacBuf := b'.mopacBuf, mopacCritical := b'.mopacCritical)
  {
    var k := FirstEntry(b.mopacBuf, 0, (e: MopacEntry) => e.row == b.openRow);
    if k == |b.mopacBuf| then b.(mopacBuf := b.mopacBuf + [MopacEntry(b.openRow, 1)])
    else
      var sctr := b.mopacBuf[k].sctr + 1;
      b.(mopacBuf := b.mopacBuf[k := MopacEntry(b.mopacBuf[k].row, sctr)],
         mopacCritical := b.mopacCritical + if sctr == cfg.mopacQueueTh then 1 else 0)
  }

  // ----- UpdateState -----

  /** The PRAC forms of a precharge count the open row. */
  function Counted(cfg: Config, b: Bank, ty: CommandType): (b': Bank)
    requires b.Valid(cfg) && b.state == Open
    ensures b'.Valid(cfg) && b' == b.(prac := b'.prac, moatRow := b'.moatRow, moatValid := b'.moatValid)
  {
    if !(ty == ReadPrecharge2 || ty == WritePrecharge2 || ty == Precharge2) then b
    else
      var b1 := b.WithCount(b.openRow, Wrap16(b.Count(b.openRow) + 1));
      if cfg.impl == Moat || cfg.impl == Pac then MoatUpdate(cfg, b1) else b1
  }

  /** The precharge arm. */
  function ClosedBy(cfg: Config, b: Bank, ty: CommandType): (b': Bank)
    requires b.Valid(cfg) && b.state == Open
    ensures b'.Valid(cfg) && b'.state == Closed && b'.timing == b.timing && b'.raa == b.raa
  {
    Counted(cfg, b, ty).(state := Closed, openRow := -1, rowHits := 0)
  }

  function Advance(idx: nat, n: nat, rows: nat): (r: nat)
    requires rows >= 1
    ensures r < rows
  {
    (idx + n) % rows
  }

  /** The counters and the buffer after the MOPAC part and the clearing loop of a refresh. */
  function RefreshedCounters(cfg: Config, b: Bank): (b': Bank)
    requires b.refIdx < |b.prac|
    ensures |b'.prac| == |b.prac|
    ensures b' == b.(prac := b'.prac, moatValid := b'.moatValid, moatRow := b'.moatRow, mopacBuf := b'.mopacBuf,
                     mopacDrain := b'.mopacDrain)
  {
    ClearRefreshed(cfg, if cfg.impl == Mopac then MopacHandleRef(cfg, b) else b)
  }

  function Refreshed(cfg: Config, b: Bank): (b': Bank)
    requires b.Valid(cfg) && b.state == Closed
    ensures b'.Valid(cfg) && b'.state == Closed && b'.timing == b.timing
    ensures b.raa >= 0 ==> 0 <= b'.raa <= b.raa
  {
    var b1 := RefreshedCounters(cfg, b);
    var b2 := b1.(raa := b1.raa - Min(b1.raa, cfg.refRaaDecrement));
    var b3 := if cfg.impl == Moat || cfg.impl == Pac then MoatHandleRef(cfg, b2) else b2;
    b3.(refIdx := Advance(b3.refIdx, cfg.rowsRefreshed, |b3.prac|))
  }

  function Managed(cfg: Config, b: Bank): (b': Bank)
    requires b.Valid(cfg) && b.state == Closed
    ensures b'.Valid(cfg) && b'.state == Closed && b'.timing == b.timing
    ensures b.raa >= 0 ==> 0 <= b'.raa <= b.raa
  {
    var b1 := b.(raa := b.raa - Min(b.raa, cfg.rfmRaaDecrement));
    if cfg.impl == Mopac then MopacMitigate(cfg, b1)
    else if cfg.impl == Moat || cfg.impl == Pac then MoatMitigate(b1)
    else b1
  }

  function Activated(cfg: Config, b: Bank, row: int, rnd: nat): (b': Bank)
    requires cfg.pacProb >= 1 && b.Valid(cfg) && b.state == Closed && cfg.HasRow(row)
    ensures b'.Valid(cfg) && b'.state == Open && b'.timing == b.timing && b'.raa == b.raa + 1
  {
    var b1 := b.(state := Open, openRow := row, raa := b.raa + 1);
    if cfg.impl == Mopac then MopacCtrUpdate(cfg, b1, rnd) else b1
  }

  /** BankState::UpdateState; None where the source exits. */
  function UpdateState(cfg: Config, b: Bank, cmd: Command, rnd: nat): (r: Option<Bank>)
    requires cfg.Valid() && b.Valid(cfg)
    requires cmd.ty == Activate ==> cfg.HasRow(cmd.addr.row)
    ensures r.Some? <==> b.Legal(cmd.ty)
    ensures r.Some? && cmd.ty != SrefEnter ==> r.value.Valid(cfg)
    ensures r.Some? ==> r.value.timing == b.timing
    ensures r.Some? && cmd.ty != SrefEnter ==>
      (r.value.state == Open <==> cmd.ty == Activate || cmd.ty == Read || cmd.ty == Write)
  {
    match b.state
    case Open =>
      if cmd.ty == Read || cmd.ty == Write then Some(b.(rowHits := b.rowHits + 1))
      else if cmd.ty.IsReadWrite() || cmd.ty.IsPrecharge() then Some(ClosedBy(cfg, b, cmd.ty))
      else None
    case Closed =>
      if cmd.ty.IsRefresh() then Some(Refreshed(cfg, b))
      else if cmd.ty.IsRfm() then Some(Managed(cfg, b))
      else if cmd.ty == Activate then Some(Activated(cfg, b, cmd.addr.row, rnd))
      else if cmd.ty == SrefEnter then Some(b.(state := Sref))
      else None
    case Sref => None // not reached: Valid rules the state out
  }

  /** BankState::CheckAlert. */
  predicate CheckAlert(cfg: Config, b: Bank) {
    b.mopacCritical > 0 || |b.mopacBuf| >= cfg.mopacBufSize || (b.moatValid && b.Count(b.moatRow) >= cfg.moatAth)
  }
}
