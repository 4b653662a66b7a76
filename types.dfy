/** Basic values of the vesting program: account keys, the Rust integer
    widths it uses, one vesting item, and the error codes its handlers return. */
module VestingTypes {

  const TWO_TO_THE_64: int := 0x1_0000_0000_0000_0000
  const U64_MAX: int := TWO_TO_THE_64 - 1

  /** Rust `u64`: token amounts. */
  type U64 = x: int | 0 <= x < TWO_TO_THE_64

  /** Rust `i64`: unix timestamps (unlock dates and the clock). */
  type I64 = x: int | -0x8000_0000_0000_0000 <= x < 0x8000_0000_0000_0000

  type Byte = b: int | 0 <= b < 256

  /** A 32-byte account address. Keys are only ever compared for equality. */
  type Pubkey = b: seq<Byte> | |b| == 32 witness ZeroBytes()

  /** Thirty-two zero bytes. */
  function ZeroBytes(): seq<Byte> {
    seq(32, _ => 0)
  }

  /** `Pubkey::default()`, the all-zero key of a freshly initialised record
      (it is also the system program's address). */
  const DefaultKey: Pubkey := ZeroBytes()

  /** Whether a transaction can carry a signature for `key`. The all-zero key
      is the system program's address: no one holds a private key for it, so
      it never signs. */
  predicate Signable(key: Pubkey) {
    key != DefaultKey
  }

  /** One release of the schedule: `amount` unlocks strictly after `unlockDate`.
      `claimed` is set once the amount has been paid out. */
  datatype Vest = Vest(amount: U64, unlockDate: I64, claimed: bool)

  /** The program's own error codes, in declaration order. */
  datatype ErrorCode =
    | SignerMustBeUpdateAuthority
    | CannotChangeAmount
    | NewDateMustBeInTheFuture
    | NewDateMustBeLaterThanCurrent
    | DestinationMustMatchVestingContract
    | TokenVaultNotEmpty
    | TokenVaultIsWrong
    | DestinationMintMismatch

  /** Why a handler fails: one of the program's codes, a failed token transfer
      reported by the token program, or an out-of-bounds index (a Rust panic). */
  datatype Failure =
    | Program(code: ErrorCode)
    | TokenTransferFailed
    | IndexOutOfBounds

  /** `ProgramResult`: success or the failure that aborted the transaction. */
  datatype Outcome = Ok | Err(failure: Failure)
}
