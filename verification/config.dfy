/** Simulator configuration: geometry, timing tables and mitigation parameters (DRAMsim3/src/configuration.h). */
module Configuration {
  import opened Commands
  import AM = AddressMapping

  /** The PRAC variants a build selects with USE_PRAC (0 to 4). */
  datatype PracImpl = NoPrac | OnlyDelay | Moat | Pac | Mopac

  datatype RowBufPolicy = OpenPage | ClosePage | SoftClosePage

  /** After the command that carries it, `ty` must wait `delay` cycles. */
  datatype Constraint = Constraint(ty: CommandType, delay: nat)

  /** The tables of DRAMsim3/src/timing.h, one list of constraints per issued command. */
  datatype Timing = Timing(
    sameBank: CommandType -> seq<Constraint>,
    otherBanksSameBankgroup: CommandType -> seq<Constraint>,
    otherBankgroupsSameRank: CommandType -> seq<Constraint>,
    otherRanks: CommandType -> seq<Constraint>,
    sameRank: CommandType -> seq<Constraint>,
    sameBankset: CommandType -> seq<Constraint>,
    otherBanksets: CommandType -> seq<Constraint>)

  datatype Geometry = Geometry(channels: nat, ranks: nat, bankgroups: nat, banksPerGroup: nat, rows: nat)

  /** `decode` is Config::AddressMapping; MappingDecodes shows that every accepted mapping string gives one. */
  datatype Config = Config(
    sizes: Geometry, decode: nat -> Address, timing: Timing,
    isGddr: bool, tFAW: nat, t32AW: nat, readDelay: nat,
    impl: PracImpl, rowBufPolicy: RowBufPolicy,
    unifiedQueue: bool, infiniteWriteBuffer: bool, transQueueSize: nat,
    perBankQueues: bool, cmdQueueSize: nat,
    rfmMode: int, raammt: int, rfmRaaDecrement: nat, refRaaDecrement: nat,
    rowsRefreshed: nat, alertMode: int, tABO: nat, aboDelayActs: int,
    moatAth: nat, pacProb: nat,
    mopacBufSize: nat, mopacAboUpdates: nat, mopacRefUpdates: nat, mopacDrainFreq: nat, mopacQueueTh: nat)
  {
    ghost predicate Valid() {
      && sizes.channels >= 1 && sizes.ranks >= 1 && sizes.bankgroups >= 1 && sizes.banksPerGroup >= 1
      && sizes.rows >= 1 && pacProb >= 1
      && forall hex :: Hits(decode(hex))
    }

    /** The address lies in an existing bank and row. */
    predicate Hits(a: Address) {
      0 <= a.channel < sizes.channels && HasBank(BankId(a.rank, a.bankgroup, a.bank)) && HasRow(a.row)
    }

    /** Banks of one rank. */
    function Banks(): int { sizes.bankgroups * sizes.banksPerGroup }

    predicate HasRank(rank: int) { 0 <= rank < sizes.ranks }

    predicate HasBank(id: BankId) {
      HasRank(id.rank) && 0 <= id.bankgroup < sizes.bankgroups && 0 <= id.bank < sizes.banksPerGroup
    }

    predicate HasRow(row: int) { 0 <= row < sizes.rows }
  }

  /** The decoder of an accepted mapping string serves as `decode`. */
  lemma MappingDecodes(z: AM.Sizes, fs: seq<AM.Field>, l: AM.Layout, cfg: Config)
    requires z.Valid() && AM.LayoutOf(fs, l) && l.width == AM.WidthsOf(z) && (l.mop ==> z.Splits())
    requires cfg.sizes == Geometry(z.channels, z.ranks, z.bankgroups, z.banksPerGroup, z.rows) && cfg.pacProb >= 1
    requires forall hex :: cfg.decode(hex) == l.Decode(hex)
    ensures cfg.Valid()
  {
    forall hex ensures cfg.Hits(cfg.decode(hex)) {
      AM.DecodeInRange(z, fs, l, hex);
    }
  }
}
