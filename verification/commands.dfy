/** DRAM commands, addresses and requests (DRAMsim3/src/common.h). */
module Commands {

  datatype Option<+T> = None | Some(value: T)

  /** The command kinds, without the SIZE sentinel: "no command" is a separate outcome. */
  datatype CommandType =
    | Read | ReadPrecharge | Write | WritePrecharge
    | Activate | Precharge
    | ReadPrecharge2 | WritePrecharge2 | Precharge2 // PRAC forms: the row counter is updated
    | RefreshBank | RefSb | RefAb
    | SrefEnter | SrefExit
    | RfmSb | RfmAb
  {
    predicate IsRefresh() { RefAb? || RefSb? || RefreshBank? }
    predicate IsRfm() { RfmAb? || RfmSb? }
    predicate IsRead() { Read? || ReadPrecharge? || ReadPrecharge2? }
    predicate IsWrite() { Write? || WritePrecharge? || WritePrecharge2? }
    predicate IsReadWrite() { IsRead() || IsWrite() }
    predicate IsSbCmd() { RfmSb? || RefSb? }
    predicate IsRankCmd() { RefAb? || SrefEnter? || SrefExit? || RfmAb? }
    predicate IsPrecharge() { Precharge? || Precharge2? }
  }

  /** A field that does not apply to a command holds -1, as in the source. */
  datatype Address = Address(channel: int, rank: int, bankgroup: int, bank: int, row: int, column: int)

  datatype BankId = BankId(rank: int, bankgroup: int, bank: int)

  datatype Command = Command(ty: CommandType, addr: Address, hex: int)
  {
    function Id(): BankId { BankId(addr.rank, addr.bankgroup, addr.bank) }

    /** The banks a command acts on: a whole rank, one bank of every bankgroup, or a single bank. */
    predicate Touches(id: BankId) {
      if ty.IsRankCmd() then id.rank == addr.rank
      else if ty.IsSbCmd() then id.rank == addr.rank && id.bank == addr.bank
      else id == Id()
    }
  }

  /** What asking for a command yields: the source aborts, nothing may issue now, or this issues. */
  datatype Ready = Exit | NotReady | Issue(cmd: Command)

  function Max(a: nat, b: nat): (m: nat)
    ensures m >= a && m >= b && (m == a || m == b)
  {
    if a < b then b else a
  }

  function Min(a: int, b: int): (m: int)
    ensures m <= a && m <= b && (m == a || m == b)
  {
    if b < a then b else a
  }
}
