/** All banks of a channel, the refresh and RFM queues, the activation windows and the alert
    (DRAMsim3/src/channel_state.cc). */
module ChannelStates {
  import opened Commands
  import opened Configuration
  import opened BankStates

  datatype Channel = Channel(
    banks: map<BankId, Bank>,
    refreshQ: seq<Command>, rfmQ: seq<Command>,
    fourAw: seq<seq<nat>>, thirtyTwoAw: seq<seq<nat>>,
    alert: bool, lastAlertClk: nat, actsAbo: nat)
  {
    ghost predicate Valid(cfg: Config) {
      && (forall id :: id in banks <==> cfg.HasBank(id))
      && (forall id <- banks :: banks[id].Valid(cfg))
      && |fourAw| == |thirtyTwoAw| == cfg.sizes.ranks
      && (forall c <- refreshQ :: c.ty.IsRefresh() && Addressable(cfg, c))
      && (forall c <- rfmQ :: c.ty.IsRfm() && Addressable(cfg, c))
    }
  }

  /** The coordinates a command of its kind needs are those of existing banks and rows. */
  predicate Addressable(cfg: Config, c: Command) {
    && cfg.HasRank(c.addr.rank)
    && (!c.ty.IsRankCmd() ==> 0 <= c.addr.bank < cfg.sizes.banksPerGroup)
    && (!c.ty.IsRankCmd() && !c.ty.IsSbCmd() ==> cfg.HasBank(c.Id()))
    && (c.ty.IsReadWrite() || c.ty == Activate ==> cfg.HasRow(c.addr.row))
  }

  function InitChannel(cfg: Config, sel: BankId -> nat): Channel
    requires cfg.Valid()
  {
    var ids := set r, g, b | 0 <= r < cfg.sizes.ranks && 0 <= g < cfg.sizes.bankgroups
                             && 0 <= b < cfg.sizes.banksPerGroup :: BankId(r, g, b);
    var none := seq(cfg.sizes.ranks, _ => []);
    Channel(map id | id in ids :: InitBank(cfg, sel(id)), [], [], none, none, false, 0, 0)
  }

  // ----- Refresh and RFM queues -----

  function RankCmd(ty: CommandType, rank: int): Command { Command(ty, Address(-1, rank, -1, -1, -1, -1), -1) }

  function BanksetCmd(ty: CommandType, rank: int, bank: int): Command {
    Command(ty, Address(-1, rank, -1, bank, -1, -1), -1)
  }

  /** Erase the first entry that matches. */
  function DropFirst(q: seq<Command>, p: Command -> bool): (r: seq<Command>)
    ensures forall c <- r :: c in q
    ensures q != [] && p(q[0]) ==> r == q[1..]
  {
    if q == [] then []
    else if p(q[0]) then q[1..]
    else [q[0]] + DropFirst(q[1..], p)
  }

  function RankNeedRfm(q: seq<Command>, rank: int): seq<Command> {
    if exists c <- q :: c.addr.rank == rank then q else q + [RankCmd(RfmAb, rank)]
  }

  function BanksetNeedRfm(q: seq<Command>, rank: int, bank: int): seq<Command> {
    if exists c <- q :: c.addr.rank == rank && c.addr.bank == bank then q else q + [BanksetCmd(RfmSb, rank, bank)]
  }

  // ----- GetReadyCommand -----

  predicate WindowOpen(win: seq<nat>, cap: nat, clk: nat) { !(win != [] && clk < win[0] && |win| >= cap) }

  predicate ActivationWindowOk(cfg: Config, ch: Channel, rank: int, clk: nat)
    requires 0 <= rank < |ch.fourAw| && |ch.fourAw| == |ch.thirtyTwoAw|
  {
    WindowOpen(ch.fourAw[rank], 4, clk) && (cfg.isGddr ==> WindowOpen(ch.thirtyTwoAw[rank], 32, clk))
  }

  /** The alert is up and its grace period is over. */
  predicate AlertBlocks(cfg: Config, ch: Channel, clk: nat) { ch.alert && clk > cfg.tABO + ch.lastAlertClk }

  ghost predicate Populated(cfg: Config, banks: map<BankId, Bank>) { forall id :: id in banks <==> cfg.HasBank(id) }

  /** The loop over all banks of a rank from (j, k) on, with `ready` banks found ready so far. */
  function ScanRank(cfg: Config, banks: map<BankId, Bank>, cmd: Command, clk: nat, coin: bool, j: nat, k: nat,
                    ready: nat): Ready
    requires Populated(cfg, banks) && cfg.HasRank(cmd.addr.rank)
    requires j <= cfg.sizes.bankgroups && k <= cfg.sizes.banksPerGroup
    decreases cfg.sizes.bankgroups - j, cfg.sizes.banksPerGroup - k
  {
    if j == cfg.sizes.bankgroups then (if ready == cfg.Banks() then Issue(cmd) else NotReady)
    else if k == cfg.sizes.banksPerGroup then ScanRank(cfg, banks, cmd, clk, coin, j + 1, 0, ready)
    else
      match BankReady(cfg, banks[BankId(cmd.addr.rank, j, k)], cmd, clk, coin)
      case Exit => Exit
      case NotReady => ScanRank(cfg, banks, cmd, clk, coin, j, k + 1, ready)
      case Issue(c) =>
        if c.ty != cmd.ty then Issue(Command(c.ty, Address(-1, cmd.addr.rank, j, k, -1, -1), c.hex))
        else ScanRank(cfg, banks, cmd, clk, coin, j, k + 1, ready + 1)
  }

  /** The loop over one bank of every bankgroup. */
  function ScanBankset(cfg: Config, banks: map<BankId, Bank>, cmd: Command, clk: nat, coin: bool, j: nat, ready: nat)
    : Ready
    requires Populated(cfg, banks) && cfg.HasRank(cmd.addr.rank) && 0 <= cmd.addr.bank < cfg.sizes.banksPerGroup
    requires j <= cfg.sizes.bankgroups
    decreases cfg.sizes.bankgroups - j
  {
    if j == cfg.sizes.bankgroups then (if ready == cfg.sizes.bankgroups then Issue(cmd) else NotReady)
    else
      match BankReady(cfg, banks[BankId(cmd.addr.rank, j, cmd.addr.bank)], cmd, clk, coin)
      case Exit => Exit
      case NotReady => ScanBankset(cfg, banks, cmd, clk, coin, j + 1, ready)
      case Issue(c) =>
        if c.ty != cmd.ty then Issue(Command(c.ty, Address(-1, cmd.addr.rank, j, cmd.addr.bank, -1, -1), c.hex))
        else ScanBankset(cfg, banks, cmd, clk, coin, j + 1, ready + 1)
  }

  /** ChannelState::GetReadyCommand. */
  function GetReady(cfg: Config, ch: Channel, cmd: Command, clk: nat, coin: bool): Ready
    requires Populated(cfg, ch.banks) && Addressable(cfg, cmd)
    requires |ch.fourAw| == |ch.thirtyTwoAw| == cfg.sizes.ranks
  {
    if cmd.ty.IsRankCmd() then ScanRank(cfg, ch.banks, cmd, clk, coin, 0, 0, 0)
    else if cmd.ty.IsSbCmd() then ScanBankset(cfg, ch.banks, cmd, clk, coin, 0, 0)
    else
      match BankReady(cfg, ch.banks[cmd.Id()], cmd, clk, coin)
      case Exit => Exit
      case NotReady => NotReady
      case Issue(c) =>
        if AlertBlocks(cfg, ch, clk) || c.ty.IsRfm() then NotReady
        else if c.ty == Activate && !ActivationWindowOk(cfg, ch, c.addr.rank, clk) then NotReady
        else Issue(c)
  }

  /** The side effect of GetReadyCommand: an alert or a full RAA counter asks for an RFM. */
  function RfmAfter(cfg: Config, ch: Channel, cmd: Command, clk: nat, coin: bool): seq<Command>
    requires Populated(cfg, ch.banks) && Addressable(cfg, cmd)
  {
    if cmd.ty.IsRankCmd() || cmd.ty.IsSbCmd() then ch.rfmQ
    else
      match BankReady(cfg, ch.banks[cmd.Id()], cmd, clk, coin)
      case Issue(c) =>
        if AlertBlocks(cfg, ch, clk) || c.ty == RfmAb then RankNeedRfm(ch.rfmQ, c.addr.rank)
        else if c.ty == RfmSb then BanksetNeedRfm(ch.rfmQ, c.addr.rank, c.addr.bank)
        else ch.rfmQ
      case _ => ch.rfmQ
  }

  // ----- UpdateState -----

  predicate LegalEverywhere(cfg: Config, ch: Channel, cmd: Command) {
    forall id <- ch.banks :: cmd.Touches(id) ==> ch.banks[id].Legal(cmd.ty)
  }

  function BanksAfter(cfg: Config, ch: Channel, cmd: Command, rnd: nat): (banks: map<BankId, Bank>)
    requires cfg.Valid() && ch.Valid(cfg) && Addressable(cfg, cmd) && LegalEverywhere(cfg, ch, cmd)
    requires cmd.ty != SrefEnter
    ensures banks.Keys == ch.banks.Keys
    ensures forall id <- banks :: banks[id].Valid(cfg) && banks[id].timing == ch.banks[id].timing
  {
    map id | id in ch.banks ::
      if cmd.Touches(id) then UpdateState(cfg, ch.banks[id], cmd, rnd).value else ch.banks[id]
  }

  /** The refresh queue after a command: the first entry that a refresh of the issued kind matches goes. */
  function RefreshQAfter(q: seq<Command>, c: Command): (r: seq<Command>)
    ensures forall d <- r :: d in q
    ensures !c.ty.IsRefresh() ==> r == q
    ensures c.ty.IsRefresh() && q != [] && q[0] == c ==> r == q[1..]
  {
    match c.ty
    case RefAb => DropFirst(q, (d: Command) => d.addr.rank == c.addr.rank)
    case RefSb => DropFirst(q, (d: Command) => d.addr.rank == c.addr.rank && d.addr.bank == c.addr.bank)
    case RefreshBank => DropFirst(q, (d: Command) => d.Id() == c.Id())
    case _ => q
  }

  function RfmQAfter(q: seq<Command>, c: Command): (r: seq<Command>)
    ensures forall d <- r :: d in q
    ensures !c.ty.IsRfm() ==> r == q
    ensures c.ty.IsRfm() && q != [] && q[0] == c ==> r == q[1..]
  {
    match c.ty
    case RfmAb => DropFirst(q, (d: Command) => d.addr.rank == c.addr.rank)
    case RfmSb => DropFirst(q, (d: Command) => d.addr.rank == c.addr.rank && d.addr.bank == c.addr.bank)
    case _ => q
  }

  /** ChannelState::UpdateState; None where a bank exits. */
  function StateAfter(cfg: Config, ch: Channel, cmd: Command, rnd: nat): (r: Option<Channel>)
    requires cfg.Valid() && ch.Valid(cfg) && Addressable(cfg, cmd) && cmd.ty != SrefEnter
    ensures r.Some? <==> LegalEverywhere(cfg, ch, cmd)
  {
    if !LegalEverywhere(cfg, ch, cmd) then None
    else
      Some(ch.(banks := BanksAfter(cfg, ch, cmd, rnd),
               refreshQ := RefreshQAfter(ch.refreshQ, cmd),
               rfmQ := RfmQAfter(ch.rfmQ, cmd),
               alert := ch.alert && cmd.ty != RfmAb && cmd.ty != RefAb))
  }

  // ----- UpdateTiming -----

  /** The constraints that issuing a command puts on a bank: its relation to the bank selects the table. */
  function Constraints(cfg: Config, cmd: Command, id: BankId): seq<Constraint> {
    var t, a := cfg.timing, cmd.addr;
    if cmd.ty.IsRankCmd() then
      if id.rank == a.rank then t.sameRank(cmd.ty) else []
    else if cmd.ty.IsSbCmd() then
      if id.bank != a.bank then t.otherBanksets(cmd.ty)
      else if id.rank == a.rank then t.sameBankset(cmd.ty)
      else []
    else if id.rank != a.rank then t.otherRanks(cmd.ty)
    else if id.bankgroup != a.bankgroup then t.otherBankgroupsSameRank(cmd.ty)
    else if id.bank != a.bank then t.otherBanksSameBankgroup(cmd.ty)
    else t.sameBank(cmd.ty)
  }

  /** BankState::UpdateTiming for a list of constraints. */
  function Constrain(b: Bank, cs: seq<Constraint>, clk: nat): (b': Bank)
    ensures b' == b.(timing := b'.timing)
    decreases |cs|
  {
    if cs == [] then b
    else
      var c := cs[0];
      Constrain(b.(timing := b.timing[c.ty := Max(b.EarliestStart(c.ty), clk + c.delay)]), cs[1..], clk)
  }

  function SlideWindow(win: seq<nat>, span: nat, clk: nat): seq<nat> {
    (if win != [] && clk >= win[0] then win[1..] else win) + [clk + span]
  }

  /** TriggerSameBankAlert and TriggerSameRankAlert: some bank the trigger looks at asks for mitigation. */
  predicate AlertWanted(cfg: Config, ch: Channel, cmd: Command)
  {
    && !ch.alert && ch.actsAbo >= cfg.aboDelayActs && cfg.alertMode == 1
    && if cmd.ty.IsRankCmd() || cmd.ty.IsSbCmd()
       then exists id <- ch.banks :: id.rank == cmd.addr.rank && CheckAlert(cfg, ch.banks[id])
       else cmd.Id() in ch.banks && CheckAlert(cfg, ch.banks[cmd.Id()])
  }

  /** The commands after which the alert condition is looked at. */
  predicate Triggers(ty: CommandType) {
    ty != Read && ty != Write && ty != RefreshBank && ty != SrefEnter && ty != SrefExit
  }

  function ActsAfter(ch: Channel, ty: CommandType): nat {
    if ty == Activate then ch.actsAbo + 1 else if ty == RfmAb then 0 else ch.actsAbo
  }

  /** ChannelState::UpdateTiming. */
  function TimingAfter(cfg: Config, ch: Channel, cmd: Command, clk: nat): Channel
    requires |ch.fourAw| == |ch.thirtyTwoAw| == cfg.sizes.ranks && Addressable(cfg, cmd)
  {
    var ch1 := ch.(actsAbo := ActsAfter(ch, cmd.ty));
    var raise := Triggers(cmd.ty) && AlertWanted(cfg, ch1, cmd);
    var rank := cmd.addr.rank;
    ch1.(
      fourAw := if cmd.ty == Activate then ch.fourAw[rank := SlideWindow(ch.fourAw[rank], cfg.tFAW, clk)]
                else ch.fourAw,
      thirtyTwoAw := if cmd.ty == Activate && cfg.isGddr
                     then ch.thirtyTwoAw[rank := SlideWindow(ch.thirtyTwoAw[rank], cfg.t32AW, clk)]
                     else ch.thirtyTwoAw,
      alert := ch.alert || raise,
      lastAlertClk := if raise then clk else ch.lastAlertClk,
      banks := map id | id in ch.banks :: Constrain(ch.banks[id], Constraints(cfg, cmd, id), clk))
  }

  /** ChannelState::UpdateTimingAndStates. */
  function Issued(cfg: Config, ch: Channel, cmd: Command, clk: nat, rnd: nat): (r: Option<Channel>)
    requires cfg.Valid() && ch.Valid(cfg) && Addressable(cfg, cmd) && cmd.ty != SrefEnter
    ensures r.Some? <==> LegalEverywhere(cfg, ch, cmd)
  {
    match StateAfter(cfg, ch, cmd, rnd)
    case None => None
    case Some(ch1) => Some(TimingAfter(cfg, ch1, cmd, clk))
  }

  // ----- What may be issued -----

  /** Everything the later invariants need to know about a command that GetReadyCommand lets through. */
  ghost predicate Issuable(cfg: Config, ch: Channel, c: Command, clk: nat)
    requires ch.Valid(cfg)
  {
    && Addressable(cfg, c) && c.ty != SrefEnter && c.ty != SrefExit
    && (forall id | cfg.HasBank(id) && c.Touches(id) ::
          ch.banks[id].Legal(c.ty) && clk >= ch.banks[id].EarliestStart(c.ty))
    && (c.ty == Activate ==>
          && ActivationWindowOk(cfg, ch, c.addr.rank, clk)
          && ((cfg.rfmMode == 1 || cfg.rfmMode == 2) ==> ch.banks[c.Id()].raa < cfg.raammt))
    && (c.ty == Activate || c.ty.IsReadWrite() || c.ty == RefreshBank ==> !AlertBlocks(cfg, ch, clk))
    && (c.ty.IsReadWrite() ==> ch.banks[c.Id()].openRow == c.addr.row)
    && (c.ty.IsPrecharge() ==> PrechargeKind(cfg, c.ty))
  }

  /** A precharge that the PRAC variant chooses, for some draw. */
  predicate PrechargeKind(cfg: Config, ty: CommandType) {
    ty == PrechargeType(cfg.impl, true) || ty == PrechargeType(cfg.impl, false)
  }

  /** A request as the queues hold them. */
  predicate Request(c: Command) { c.ty.IsReadWrite() || c.ty.IsRefresh() || c.ty.IsRfm() }

  /** The bank is at or after (j, k) in scan order. */
  predicate Ahead(id: BankId, j: nat, k: nat) { id.bankgroup > j || (id.bankgroup == j && id.bank >= k) }

  /** What a rank scan returns: the request itself only if every bank is ready for it,
      otherwise a precharge that some bank of the rank needs first. */
  ghost predicate RankVerdict(cfg: Config, ch: Channel, cmd: Command, clk: nat, coin: bool, r: Ready, j: nat, k: nat)
    requires ch.Valid(cfg)
  {
    && r != Exit
    && (r.Issue? && r.cmd.ty == cmd.ty ==>
          r.cmd == cmd &&
          forall id | cfg.HasBank(id) && id.rank == cmd.addr.rank && Ahead(id, j, k) ::
            BankReady(cfg, ch.banks[id], cmd, clk, coin) == Issue(cmd))
    && (r.Issue? && r.cmd.ty != cmd.ty ==>
          && cfg.HasBank(r.cmd.Id()) && r.cmd.addr.rank == cmd.addr.rank
          && BankReady(cfg, ch.banks[r.cmd.Id()], cmd, clk, coin) == Issue(Command(r.cmd.ty, cmd.addr, cmd.hex)))
  }

  lemma {:induction false} ScanRankSound(cfg: Config, ch: Channel, cmd: Command, clk: nat, coin: bool, j: nat, k: nat,
                                         ready: nat)
    requires ch.Valid(cfg) && cfg.HasRank(cmd.addr.rank) && (cmd.ty == RefAb || cmd.ty == RfmAb)
    requires j <= cfg.sizes.bankgroups && k <= cfg.sizes.banksPerGroup && (j == cfg.sizes.bankgroups ==> k == 0)
    requires ready <= j * cfg.sizes.banksPerGroup + k
    ensures RankVerdict(cfg, ch, cmd, clk, coin, ScanRank(cfg, ch.banks, cmd, clk, coin, j, k, ready), j, k)
    ensures ready < j * cfg.sizes.banksPerGroup + k ==>
      ScanRank(cfg, ch.banks, cmd, clk, coin, j, k, ready) != Issue(cmd)
    decreases cfg.sizes.bankgroups - j, cfg.sizes.banksPerGroup - k
  {
    if j < cfg.sizes.bankgroups {
      if k == cfg.sizes.banksPerGroup {
        assert (j + 1) * k == j * k + k;
        ScanRankSound(cfg, ch, cmd, clk, coin, j + 1, 0, ready);
      } else {
        var id := BankId(cmd.addr.rank, j, k);
        match BankReady(cfg, ch.banks[id], cmd, clk, coin)
        case Exit =>
        case NotReady => ScanRankSound(cfg, ch, cmd, clk, coin, j, k + 1, ready);
        case Issue(c) => if c.ty == cmd.ty { ScanRankSound(cfg, ch, cmd, clk, coin, j, k + 1, ready + 1); }
      }
    }
  }

  ghost predicate BanksetVerdict(cfg: Config, ch: Channel, cmd: Command, clk: nat, coin: bool, r: Ready, j: nat)
    requires ch.Valid(cfg)
  {
    && r != Exit
    && (r.Issue? && r.cmd.ty == cmd.ty ==>
          r.cmd == cmd &&
          forall id | cfg.HasBank(id) && cmd.Touches(id) && id.bankgroup >= j ::
            BankReady(cfg, ch.banks[id], cmd, clk, coin) == Issue(cmd))
    && (r.Issue? && r.cmd.ty != cmd.ty ==>
          && cfg.HasBank(r.cmd.Id()) && cmd.Touches(r.cmd.Id())
          && BankReady(cfg, ch.banks[r.cmd.Id()], cmd, clk, coin) == Issue(Command(r.cmd.ty, cmd.addr, cmd.hex)))
  }

  lemma {:induction false} ScanBanksetSound(cfg: Config, ch: Channel, cmd: Command, clk: nat, coin: bool, j: nat,
                                            ready: nat)
    requires ch.Valid(cfg) && Addressable(cfg, cmd) && cmd.ty.IsSbCmd()
    requires ready <= j <= cfg.sizes.bankgroups
    ensures BanksetVerdict(cfg, ch, cmd, clk, coin, ScanBankset(cfg, ch.banks, cmd, clk, coin, j, ready), j)
    ensures ready < j ==> ScanBankset(cfg, ch.banks, cmd, clk, coin, j, ready) != Issue(cmd)
    decreases cfg.sizes.bankgroups - j
  {
    if j < cfg.sizes.bankgroups {
      var id := BankId(cmd.addr.rank, j, cmd.addr.bank);
      match BankReady(cfg, ch.banks[id], cmd, clk, coin)
      case Exit =>
      case NotReady => ScanBanksetSound(cfg, ch, cmd, clk, coin, j + 1, ready);
      case Issue(c) => if c.ty == cmd.ty { ScanBanksetSound(cfg, ch, cmd, clk, coin, j + 1, ready + 1); }
    }
  }

  /** A bank's own answer is always a legal command for it, at a permitted time. */
  lemma BankReadyLegal(cfg: Config, b: Bank, cmd: Command, clk: nat, coin: bool)
    requires b.Valid(cfg) && Request(cmd)
    ensures var r := BankReady(cfg, b, cmd, clk, coin);
      && r != Exit
      && (r.Issue? ==>
            && b.Legal(r.cmd.ty) && clk >= b.EarliestStart(r.cmd.ty)
            && r.cmd == Command(r.cmd.ty, cmd.addr, cmd.hex)
            && (r.cmd.ty == cmd.ty || r.cmd.ty.IsPrecharge() || r.cmd.ty == Activate || r.cmd.ty.IsRfm())
            && (r.cmd.ty.IsReadWrite() ==> r.cmd == cmd && b.openRow == cmd.addr.row)
            && (!cmd.ty.IsReadWrite() ==> r.cmd.ty == cmd.ty || r.cmd.ty.IsPrecharge())
            && (r.cmd.ty.IsPrecharge() ==> PrechargeKind(cfg, r.cmd.ty)))
  {}

  /** What the later layers use of GetReadyCommand's answer. */
  ghost predicate Sound(cfg: Config, ch: Channel, cmd: Command, clk: nat, r: Ready)
    requires ch.Valid(cfg)
  {
    && r != Exit
    && (r.Issue? ==>
          && Issuable(cfg, ch, r.cmd, clk)
          && (Request(r.cmd) ==> r.cmd == cmd)
          && (!cmd.ty.IsReadWrite() && r.cmd != cmd ==> r.cmd.ty.IsPrecharge() && cmd.Touches(r.cmd.Id()))
          && (cmd.ty.IsReadWrite() ==> r.cmd.Id() == cmd.Id()))
  }

  lemma PrechargeIssuable(cfg: Config, ch: Channel, c: Command, clk: nat)
    requires ch.Valid(cfg) && c.ty.IsPrecharge() && PrechargeKind(cfg, c.ty) && cfg.HasBank(c.Id())
    requires ch.banks[c.Id()].Legal(c.ty) && clk >= ch.banks[c.Id()].EarliestStart(c.ty)
    ensures Issuable(cfg, ch, c, clk)
  {}

  lemma GroupIssuable(cfg: Config, ch: Channel, c: Command, clk: nat)
    requires ch.Valid(cfg) && Addressable(cfg, c) && (c.ty == RefAb || c.ty == RfmAb || c.ty.IsSbCmd())
    requires forall id | cfg.HasBank(id) && c.Touches(id) ::
      ch.banks[id].Legal(c.ty) && clk >= ch.banks[id].EarliestStart(c.ty)
    ensures Issuable(cfg, ch, c, clk)
  {}

  lemma RankReadySound(cfg: Config, ch: Channel, cmd: Command, clk: nat, coin: bool)
    requires ch.Valid(cfg) && Addressable(cfg, cmd) && (cmd.ty == RefAb || cmd.ty == RfmAb)
    ensures Sound(cfg, ch, cmd, clk, GetReady(cfg, ch, cmd, clk, coin))
  {
    var r := ScanRank(cfg, ch.banks, cmd, clk, coin, 0, 0, 0);
    ScanRankSound(cfg, ch, cmd, clk, coin, 0, 0, 0);
    if r.Issue? {
      if r.cmd.ty == cmd.ty {
        forall id | cfg.HasBank(id) && id.rank == cmd.addr.rank
          ensures ch.banks[id].Legal(cmd.ty) && clk >= ch.banks[id].EarliestStart(cmd.ty)
        {
          assert BankReady(cfg, ch.banks[id], cmd, clk, coin) == Issue(cmd);
          BankReadyLegal(cfg, ch.banks[id], cmd, clk, coin);
        }
        GroupIssuable(cfg, ch, cmd, clk);
      } else {
        BankReadyLegal(cfg, ch.banks[r.cmd.Id()], cmd, clk, coin);
        PrechargeIssuable(cfg, ch, r.cmd, clk);
      }
    }
  }

  lemma BanksetReadySound(cfg: Config, ch: Channel, cmd: Command, clk: nat, coin: bool)
    requires ch.Valid(cfg) && Addressable(cfg, cmd) && cmd.ty.IsSbCmd()
    ensures Sound(cfg, ch, cmd, clk, GetReady(cfg, ch, cmd, clk, coin))
  {
    var r := ScanBankset(cfg, ch.banks, cmd, clk, coin, 0, 0);
    ScanBanksetSound(cfg, ch, cmd, clk, coin, 0, 0);
    if r.Issue? {
      if r.cmd.ty == cmd.ty {
        forall id | cfg.HasBank(id) && cmd.Touches(id)
          ensures ch.banks[id].Legal(cmd.ty) && clk >= ch.banks[id].EarliestStart(cmd.ty)
        {
          assert BankReady(cfg, ch.banks[id], cmd, clk, coin) == Issue(cmd);
          BankReadyLegal(cfg, ch.banks[id], cmd, clk, coin);
        }
        GroupIssuable(cfg, ch, cmd, clk);
      } else {
        BankReadyLegal(cfg, ch.banks[r.cmd.Id()], cmd, clk, coin);
        PrechargeIssuable(cfg, ch, r.cmd, clk);
      }
    }
  }

  /** FSM agreement: what GetReadyCommand returns is legal and in time for every bank it acts on,
      and neither of the two state machines ever exits. */
  lemma ReadyIsIssuable(cfg: Config, ch: Channel, cmd: Command, clk: nat, coin: bool)
    requires ch.Valid(cfg) && Addressable(cfg, cmd) && Request(cmd)
    ensures Sound(cfg, ch, cmd, clk, GetReady(cfg, ch, cmd, clk, coin))
  {
    if cmd.ty.IsRankCmd() {
      RankReadySound(cfg, ch, cmd, clk, coin);
    } else if cmd.ty.IsSbCmd() {
      BanksetReadySound(cfg, ch, cmd, clk, coin);
    } else {
      BankReadyLegal(cfg, ch.banks[cmd.Id()], cmd, clk, coin);
    }
  }
}
