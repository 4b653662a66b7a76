# psy-vesting in Dafny

A model of the on-chain token-vesting program `psy_vesting`. A `VestingContract`
record holds the issuer, the destination token account, the optional update
authority, the mint, the vault that holds the tokens still to vest, and a
schedule of `Vest` items `{amount, unlock_date, claimed}`. Four instruction
handlers act on it:

- **create** copies the supplied keys into a freshly initialised record,
  sorts the schedule by unlock date (a stable sort), takes the update
  authority from the first remaining account if one is given (the all-zero
  default key otherwise) and moves the sum of all amounts from the source
  token account into the new vault;
- **update** checks that the signer is the stored update authority, sorts the
  replacement, checks it index by index against the stored schedule (same
  amount, date not before now, date not before the stored date; the first
  failing check of the first failing index decides) and stores it wholesale;
- **transfer_vested** (the claim) checks only that the destination equals the
  stored destination, pays out every unclaimed item whose date has passed
  strictly, from the vault the caller supplies, and marks those items claimed;
- **close** checks that the supplied vault is the stored one, then that it is
  empty, and closes the vault and the record.

Files: `types.dfy` (keys, `u64`/`i64`, `Vest`, error codes), `schedule.dfy`
(the in-place insertion sort, the sums, claim marking, and their lemmas),
`update_rules.dfy` (the update loop and what it accepts), `ledger.dfy` (token
balances), `vesting.dfy` (the record class, the four handlers, and client methods
that drive one record from creation to closing and show that a record
without an update authority refuses updates).

Modelling choices:

- Keys are 32-byte values compared only for equality; `DefaultKey` is
  `Pubkey::default()`.
- Amounts are `U64` (below 2^64) and dates are `I64`. The two `u64` sums are
  computed in `U64`: create requires the schedule total to fit, and the record
  invariant `Valid()` keeps the stored total within `u64`, so the claim sum
  cannot overflow.
- The clock is the parameter `now`; the signer of an update is the parameter
  `signer`, the key whose signature the transaction carries. That key is never
  the all-zero default key (`Signable`), which is the system program's address
  and has no private key, so a record created without an update authority
  refuses every update.
- Token balances live in a `TokenLedger` class: a map from open accounts to
  balances. A transfer fails, and changes nothing, when either account is not
  open or the source holds too little.
- Every handler is one transaction: a failing handler leaves the record and
  the ledger as they were. The source writes the claimed flags before the
  token transfer of the claim; the model writes them after it, which is
  equivalent under the rollback.
- A replacement longer than the stored schedule makes the update loop index
  past the stored schedule once every index the stored schedule has passes its
  checks (an earlier failing check returns first), a panic; the model returns
  `Err(IndexOutOfBounds)` with nothing changed.
- A failed token transfer is `Err(TokenTransferFailed)`. `DestinationMintMismatch`
  is declared but no handler returns it.
- The record's account ceasing to exist on close is the `closed` flag; every
  handler requires a record that is not closed, as the runtime never hands a
  closed account back.

Where the code and its documentation disagree, the model follows the code:

- A claim pays an item only when `now > unlock_date`, strictly.
- An update rejects only `now > new date` and `stored date > new date`, so a
  date equal to now or to the stored date passes.
- An update does not keep the number of items: a shorter replacement is
  accepted and drops the stored items past its end, with their amounts
  (`UpdateRules.ShorterReplacementAccepted`). The vault then holds more than
  the schedule's unclaimed total; only an update that reopens claimed items,
  or a claim that names this vault for another record, pays any of it out;
  close refuses a non-empty vault.
- Update does not compare `claimed` flags, so an update can replace a claimed
  item by an unclaimed one dated in the future, which a later claim pays again
  (`UpdateRules.ClaimedItemCanBeReopened`). The comment at
  `tests/updateVestingSchedule.ts` lines 204-206 says this cannot happen.
- Create moves the sum of all amounts, including items submitted as already
  claimed.
- Claim compares only the destination; it pays from whatever vault the caller
  supplies.
- Close checks only the vault; it does not compare the issuer account with
  `issuer_address` and does not ask for a signer.

## Model

| member | source | states |
|---|---|---|
| `Schedule.SortByUnlockDate` | programs/psy-vesting/src/lib.rs:18-19 | sorting in place leaves the array equal to the stable sort by unlock date of its old contents |
| `Schedule.InsertIntoPrefix` | programs/psy-vesting/src/lib.rs:19 | one insertion pass places the next item after every earlier item with a date not later than its own, and leaves the rest of the array alone |
| `Schedule.SortedCopy` | programs/psy-vesting/src/lib.rs:52-53 | the clone-then-sort of the submitted schedule yields its stable sort by date |
| `Schedule.SortByDateSorted` | programs/psy-vesting/src/lib.rs:19 | the sorted schedule is non-decreasing by unlock date |
| `Schedule.SortByDatePermutation` | programs/psy-vesting/src/lib.rs:18-19 | the sorted schedule has the same items with the same multiplicities as the input |
| `Schedule.SortByDateStable` | programs/psy-vesting/src/lib.rs:19 | items with equal dates keep their input order |
| `Schedule.StableSortUnique` | programs/psy-vesting/src/lib.rs:19 | two sorted sequences with the same items per date, in the same order, are equal, so any stable sort by date stores the same schedule |
| `Schedule.SortsOutOfOrderInput` | tests/createVestingContract.ts:91-113 | the submitted `[item2, item1]` is stored as `[item1, item2]` |
| `Schedule.SortByDateKeepsUnclaimed` | programs/psy-vesting/src/lib.rs:18-19 | sorting a schedule with no claimed item yields one with no claimed item |
| `Schedule.NothingClaimedYet` | programs/psy-vesting/src/lib.rs:28-32 | with no item claimed, the unclaimed total equals the sum create transfers |
| `Schedule.SortByDateTotal` | programs/psy-vesting/src/lib.rs:28-32 | summing the sorted schedule gives the sum of the submitted one |
| `Schedule.ScheduleTotal` | programs/psy-vesting/src/lib.rs:29-32 | the u64 accumulation loop returns the sum of all amounts, whatever the claimed flags, without overflow when that sum fits in u64 |
| `Schedule.MarkClaimed` | programs/psy-vesting/src/lib.rs:86-95 | after a claim, exactly the unclaimed items dated strictly before now are claimed; amounts, dates and order are unchanged |
| `Schedule.CollectVested` | programs/psy-vesting/src/lib.rs:84-93 | the claim loop returns the sum over unclaimed items with now > unlock date, and the schedule with exactly those marked claimed |
| `Schedule.ClaimableBounded` | programs/psy-vesting/src/lib.rs:84-93 | a claim pays at most the unclaimed total, which is at most the committed total |
| `Schedule.ClaimConserves` | programs/psy-vesting/src/lib.rs:87-95 | the unclaimed total after a claim plus what the claim pays equals the unclaimed total before |
| `Schedule.ClaimAgainPaysNothing` | programs/psy-vesting/src/lib.rs:88 | a second claim at the same time pays 0 |
| `Schedule.ClaimLater` | programs/psy-vesting/src/lib.rs:88-91 | a claim at t1 followed by one at t2 >= t1 pays, in all, what one claim at t2 pays, and leaves the same schedule |
| `Schedule.ClaimRunConserves` | programs/psy-vesting/src/lib.rs:80-114 | any run of claims at non-decreasing times pays in all exactly the items matured by the last time, each once |
| `UpdateRules.CheckReplacement` | programs/psy-vesting/src/lib.rs:59-73 | the update loop returns the verdict of the first failing index, in the order amount, future date, later date, or Ok |
| `UpdateRules.UpdateAcceptedIff` | programs/psy-vesting/src/lib.rs:59-73 | the loop accepts exactly replacements no longer than the stored schedule with equal amounts and dates not before now nor before the stored dates, index by index |
| `UpdateRules.UpdateRejectedIff` | programs/psy-vesting/src/lib.rs:59-73 | the loop fails with f exactly when some index fails with f and every earlier index passes all checks |
| `UpdateRules.AcceptedUpdateOnlyDelays` | programs/psy-vesting/src/lib.rs:59-75 | an accepted replacement only delays dates, never into the past, and its total equals that of the stored prefix it covers, so never exceeds the stored total |
| `UpdateRules.ShorterReplacementAccepted` | programs/psy-vesting/src/lib.rs:59-61 | a one-item replacement of a two-item schedule is accepted and drops 2 of the 3 committed tokens |
| `UpdateRules.ClaimedItemCanBeReopened` | tests/updateVestingSchedule.ts:204-206 | a claimed item can be replaced by an unclaimed later one, which a claim then pays again |
| `Ledger.Moved` | programs/psy-vesting/src/lib.rs:35-42 | a transfer debits the source and credits the destination by the amount, leaves every other balance, and is a no-op from an account to itself |
| `Ledger.TokenLedger.Transfer` | programs/psy-vesting/src/lib.rs:112 | a transfer succeeds exactly when both accounts are open and the source covers the amount, and otherwise changes nothing |
| `Ledger.TokenLedger.OpenAndFund` | programs/psy-vesting/src/lib.rs:155-163 | the vault is created and funded together, or not created at all; when funded it holds exactly the amount |
| `Ledger.TokenLedger.CloseAccount` | programs/psy-vesting/src/lib.rs:126-140 | closing an empty account removes it and nothing else |
| `VestingProgram.VestingContract.constructor` | programs/psy-vesting/src/lib.rs:232-247 | a new record has default keys, an empty schedule and satisfies the record invariant |
| `VestingProgram.VestingContract.CreateVestingContract` | programs/psy-vesting/src/lib.rs:11-47 | create stores the supplied keys, the update authority or the default key, the stable sort of the schedule, and funds the vault with the sum of all amounts; when no submitted item is claimed the vault then holds exactly the unclaimed total; a failed transfer changes nothing |
| `VestingProgram.VestingContract.CheckUpdateAccounts` | programs/psy-vesting/src/lib.rs:186-193 | the update guard passes exactly when the signer is the stored update authority and otherwise fails with `SignerMustBeUpdateAuthority` |
| `VestingProgram.VestingContract.CheckTransferAccounts` | programs/psy-vesting/src/lib.rs:209-216 | the claim guard passes exactly when the supplied destination is the stored one and otherwise fails with `DestinationMustMatchVestingContract` |
| `VestingProgram.VestingContract.UpdateVestingSchedule` | programs/psy-vesting/src/lib.rs:49-78 | a signer other than the update authority is refused before any schedule check, so a record without an update authority is never updated; otherwise the update loop's verdict decides, an accepted replacement is stored sorted and only delays, and a rejection leaves the schedule as it was |
| `VestingProgram.VestingContract.TransferVested` | programs/psy-vesting/src/lib.rs:80-114 | a wrong destination is refused with nothing changed; otherwise the matured unclaimed total moves from the supplied vault to the destination and exactly those items become claimed, or a failed transfer changes nothing; a vault holding the unclaimed total still does afterwards |
| `VestingProgram.VestingContract.CloseVestingContract` | programs/psy-vesting/src/lib.rs:116-142 | a wrong vault is refused first, a non-empty vault next; only the record's empty vault closes, together with the record |

## Left out

- Token program internals: transfers and closing are the balance map of
  `TokenLedger`; account owners, the authority that signs for the vault, and
  `u64` limits on balances are not modelled.
- Address derivation: the vault and the vault authority are opaque keys; the
  seeds and the bump arguments of claim and close are not modelled, and
  neither is the failure of a transfer or close signed with a wrong bump.
- Lamports: the rent paid at create for the record and the vault, and paid
  out on close to whatever account the caller supplies as `issuer`.
- Account constraints of the framework: `init` (modelled as the requirement
  that the record is freshly zeroed and the vault does not yet exist), typed
  account deserialisation (close requires the supplied vault to exist), the
  account size formula and the binary layout. The size formula reserves
  `8 + 32 * 5 + 24 * n` bytes for `n` items, 168 for an empty schedule, while
  the serialised record needs 4 more for the length prefix, so the source's
  create of an empty schedule would fail where `CreateVestingContract`
  returns `Ok`; an empty schedule still arises through update, which accepts
  an empty replacement of any schedule.
- The log line of the update loop and the clock account; the time is the
  parameter `now`.
- Signature checks: the update signer is trusted to have signed; the only
  consequence of signing that is modelled is that no one signs as the default
  key.
