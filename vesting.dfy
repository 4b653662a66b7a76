/** The vesting record and the four instruction handlers of the program.
    Each handler runs as one transaction: when it fails, the runtime discards
    every write it made, so a failing handler leaves the record and the token
    balances as they were. The handlers below therefore commit their writes
    only once nothing can fail any more. */
module VestingProgram {
  import opened VestingTypes
  import opened Schedule
  import opened UpdateRules
  import opened Ledger

  class VestingContract {
    /** Who created and funded the record. */
    var issuerAddress: Pubkey
    /** The token account that receives vested tokens. */
    var destinationAddress: Pubkey
    /** The signer allowed to change the dates; the default key when none was given. */
    var updateAuthority: Pubkey
    /** The mint of the vested token. */
    var mintAddress: Pubkey
    /** The token account that holds the tokens still to vest. */
    var tokenVault: Pubkey
    var schedule: seq<Vest>
    /** Set once the record's account has been closed. */
    var closed: bool

    /** The record invariant: the schedule is ordered by date and its amounts
        sum to a u64. */
    ghost predicate Valid()
      reads this
    {
      SortedByDate(schedule) && Total(schedule) <= U64_MAX
    }

    /** The zeroed record that `init` allocates before the create handler runs. */
    predicate Pristine()
      reads this
    {
      issuerAddress == DefaultKey && destinationAddress == DefaultKey &&
      updateAuthority == DefaultKey && mintAddress == DefaultKey &&
      tokenVault == DefaultKey && schedule == [] && !closed
    }

    /** The guard `UpdateVestingSchedule::accounts`: only the stored update
        authority may sign an update. */
    function CheckUpdateAccounts(signer: Pubkey): (r: Outcome)
      reads this
      ensures r == Ok <==> signer == updateAuthority
      ensures r != Ok ==> r == Err(Program(SignerMustBeUpdateAuthority))
    {
      if signer != updateAuthority then Err(Program(SignerMustBeUpdateAuthority)) else Ok
    }

    /** The guard `TransferVested::accounts`: only the destination is compared. */
    function CheckTransferAccounts(destination: Pubkey): (r: Outcome)
      reads this
      ensures r == Ok <==> destination == destinationAddress
      ensures r != Ok ==> r == Err(Program(DestinationMustMatchVestingContract))
    {
      if destination != destinationAddress then Err(Program(DestinationMustMatchVestingContract)) else Ok
    }

    /** The vault holds exactly what the schedule has yet to pay. */
    ghost predicate VaultBacksSchedule(balances: map<Pubkey, nat>)
      reads this
    {
      tokenVault in balances && balances[tokenVault] == UnclaimedTotal(schedule)
    }

    constructor ()
      ensures Pristine() && Valid()
    {
      issuerAddress, destinationAddress, updateAuthority := DefaultKey, DefaultKey, DefaultKey;
      mintAddress, tokenVault := DefaultKey, DefaultKey;
      schedule := [];
      closed := false;
    }

    /** `create_vesting_contract`: records the accounts, stores the schedule
        sorted by date, takes the update authority from the first remaining
        account if there is one, and moves the sum of all amounts (claimed
        flags notwithstanding) from the source account into the new vault. */
    method CreateVestingContract(ledger: TokenLedger, authority: Pubkey, tokenSrc: Pubkey,
                                 destination: Pubkey, mint: Pubkey, vault: Pubkey,
                                 remainingAccounts: seq<Pubkey>, vestingSchedule: seq<Vest>)
      returns (res: Outcome)
      requires Pristine()
      requires vault !in ledger.balances
      requires Total(vestingSchedule) <= U64_MAX
      modifies this, ledger
      ensures Valid() && !closed
      ensures res == if CanTransfer(old(ledger.balances)[vault := 0], tokenSrc, vault, Total(vestingSchedule))
                     then Ok else Err(TokenTransferFailed)
      ensures res == Ok ==>
        && issuerAddress == authority
        && destinationAddress == destination
        && mintAddress == mint
        && tokenVault == vault
        && updateAuthority == (if |remainingAccounts| > 0 then remainingAccounts[0] else DefaultKey)
        && schedule == SortByDate(vestingSchedule)
        && ledger.balances == Moved(old(ledger.balances)[vault := 0], tokenSrc, vault, Total(vestingSchedule))
        && ledger.balances[vault] == Total(vestingSchedule)
      ensures res == Ok && (forall k :: 0 <= k < |vestingSchedule| ==> !vestingSchedule[k].claimed) ==>
        VaultBacksSchedule(ledger.balances)
      ensures res != Ok ==> Pristine() && ledger.balances == old(ledger.balances)
    {
      var sorted := SortedCopy(vestingSchedule);
      SortByDateTotal(vestingSchedule);
      SortByDateSorted(vestingSchedule);

      var total := ScheduleTotal(sorted);

      // `init` creates the vault; the handler then funds it
      assert Pristine();
      var ok := ledger.OpenAndFund(vault, tokenSrc, total);
      if !ok {
        assert Pristine();
        return Err(TokenTransferFailed);
      }

      Store(authority, destination, mint, vault, remainingAccounts, sorted);
      if forall k :: 0 <= k < |vestingSchedule| ==> !vestingSchedule[k].claimed {
        SortByDateKeepsUnclaimed(vestingSchedule);
        NothingClaimedYet(sorted);
      }
      return Ok;
    }

    /** The writes of `create_vesting_contract` into the record. */
    method Store(authority: Pubkey, destination: Pubkey, mint: Pubkey, vault: Pubkey,
                 remainingAccounts: seq<Pubkey>, sorted: seq<Vest>)
      requires updateAuthority == DefaultKey
      modifies this
      ensures issuerAddress == authority && destinationAddress == destination
      ensures mintAddress == mint && tokenVault == vault && schedule == sorted
      ensures updateAuthority == if |remainingAccounts| > 0 then remainingAccounts[0] else DefaultKey
      ensures closed == old(closed)
    {
      issuerAddress := authority;
      destinationAddress := destination;
      mintAddress := mint;
      tokenVault := vault;
      if |remainingAccounts| > 0 {
        updateAuthority := remainingAccounts[0];
      }
      schedule := sorted;
    }

    /** `update_vesting_schedule`: after the authority guard, sorts the
        replacement, checks it index by index against the stored schedule and
        then stores it in place of the old one. `signer` is the key whose
        signature the transaction carries, so it is never the all-zero key:
        a record created without an update authority refuses every update. */
    method UpdateVestingSchedule(signer: Pubkey, vestingSchedule: seq<Vest>, now: I64)
      returns (res: Outcome)
      requires Valid() && !closed
      requires Signable(signer)
      modifies this`schedule
      ensures Valid()
      ensures updateAuthority == DefaultKey ==>
        res == Err(Program(SignerMustBeUpdateAuthority)) && schedule == old(schedule)
      ensures res == if signer != updateAuthority then Err(Program(SignerMustBeUpdateAuthority))
                     else UpdateCheck(old(schedule), SortByDate(vestingSchedule), now)
      ensures schedule == if res == Ok then SortByDate(vestingSchedule) else old(schedule)
      ensures res == Ok ==> DelaysOnly(old(schedule), schedule, now)
    {
      var guard := CheckUpdateAccounts(signer);
      if guard != Ok {
        return guard;
      }
      var sorted := SortedCopy(vestingSchedule);
      res := CheckReplacement(schedule, sorted, now);
      if res == Ok {
        SortByDateSorted(vestingSchedule);
        AcceptedUpdateOnlyDelays(schedule, sorted, now);
        UpdateAcceptedIff(schedule, sorted, now);
        schedule := sorted;
      }
    }

    /** `transfer_vested`: after the destination guard, pays out every unclaimed
        item whose date has passed strictly, from the vault the caller supplies,
        and marks those items claimed. */
    method TransferVested(ledger: TokenLedger, destination: Pubkey, vault: Pubkey, now: I64)
      returns (res: Outcome)
      requires Valid() && !closed
      modifies this`schedule, ledger
      ensures Valid()
      ensures res == if destination != destinationAddress then Err(Program(DestinationMustMatchVestingContract))
                     else if CanTransfer(old(ledger.balances), vault, destination, ClaimableTotal(old(schedule), now))
                     then Ok else Err(TokenTransferFailed)
      ensures res == Ok ==>
        && schedule == MarkClaimed(old(schedule), now)
        && ledger.balances == Moved(old(ledger.balances), vault, destination, ClaimableTotal(old(schedule), now))
      ensures res != Ok ==> schedule == old(schedule) && ledger.balances == old(ledger.balances)
      ensures vault == tokenVault && destination != tokenVault && old(VaultBacksSchedule(ledger.balances)) ==>
        VaultBacksSchedule(ledger.balances)
    {
      var guard := CheckTransferAccounts(destination);
      if guard != Ok {
        return guard;
      }
      ClaimableBounded(schedule, now);
      var totalVested, settled := CollectVested(schedule, now);

      // the source stores `settled` before the transfer; a failed transfer
      // rolls that write back, so it is made here once the transfer succeeded
      var ok := ledger.Transfer(vault, destination, totalVested);
      if !ok {
        return Err(TokenTransferFailed);
      }
      SameAmountsSameTotal(settled, schedule);
      ClaimConserves(schedule, now);
      schedule := settled;
      return Ok;
    }

    /** `close_vesting_contract`: checks that the vault is the record's, then
        that it is empty, then closes the vault and the record. */
    method CloseVestingContract(ledger: TokenLedger, vault: Pubkey) returns (res: Outcome)
      requires !closed
      requires vault in ledger.balances
      modifies this`closed, ledger
      ensures res == if vault != tokenVault then Err(Program(TokenVaultIsWrong))
                     else if old(ledger.balances)[vault] > 0 then Err(Program(TokenVaultNotEmpty))
                     else Ok
      ensures res == Ok ==> closed && ledger.balances == old(ledger.balances) - {vault}
      ensures res != Ok ==> !closed && ledger.balances == old(ledger.balances)
    {
      if tokenVault != vault {
        return Err(Program(TokenVaultIsWrong));
      }
      if ledger.balances[vault] > 0 {
        return Err(Program(TokenVaultNotEmpty));
      }
      ledger.CloseAccount(vault);
      closed := true;
      return Ok;
    }
  }

  /** The create step of the close test: a schedule of two items submitted
      out of order, with the issuer as update authority. */
  method CreateOutOfOrder(issuer: Pubkey, src: Pubkey, destination: Pubkey, mint: Pubkey, vault: Pubkey)
    returns (ledger: TokenLedger, contract: VestingContract)
    requires src != vault && destination != vault && src != destination
    ensures fresh(ledger) && fresh(contract)
    ensures contract.Valid() && !contract.closed
    ensures contract.schedule == [Vest(1, 3, false), Vest(2, 300, false)]
    ensures contract.updateAuthority == issuer
    ensures contract.destinationAddress == destination && contract.tokenVault == vault
    ensures vault in ledger.balances && ledger.balances[vault] == 3
    ensures destination in ledger.balances && ledger.balances[destination] == 0
  {
    ledger := new TokenLedger(map[src := 10, destination := 0]);
    contract := new VestingContract();
    var items := [Vest(2, 300, false), Vest(1, 3, false)];
    assert Total(items) == 3 by {
      assert items[..1][..0] == [] && items[..1] == [items[0]];
    }
    SortsOutOfOrderInput();
    var res := contract.CreateVestingContract(ledger, issuer, src, destination, mint, vault, [issuer], items);
    assert res == Ok;
  }

  /** A whole life, as the close test drives it: the created record refuses
      an update signed by someone else and a close while tokens remain, is
      claimed once both dates have passed, claimed again for nothing, and
      the emptied vault and the record are closed. */
  method ClaimAllThenClose(issuer: Pubkey, src: Pubkey, destination: Pubkey, mint: Pubkey, vault: Pubkey)
    requires src != vault && destination != vault && src != destination
    requires Signable(src) && src != issuer
  {
    var ledger, contract := CreateOutOfOrder(issuer, src, destination, mint, vault);
    ghost var stored := [Vest(1, 3, false), Vest(2, 300, false)];

    var res := contract.UpdateVestingSchedule(src, [Vest(2, 300, false), Vest(1, 3, false)], 100);
    assert res == Err(Program(SignerMustBeUpdateAuthority));

    res := contract.CloseVestingContract(ledger, vault);
    assert res == Err(Program(TokenVaultNotEmpty));

    assert ClaimableTotal(stored, 1000) == 3 by {
      assert stored[..1][..0] == [] && stored[..1] == [stored[0]];
    }
    res := contract.TransferVested(ledger, destination, vault, 1000);
    assert res == Ok;
    assert ledger.balances[destination] == 3 && ledger.balances[vault] == 0;

    ClaimAgainPaysNothing(stored, 1000);
    res := contract.TransferVested(ledger, destination, vault, 1000);
    assert res == Ok;
    assert ledger.balances[destination] == 3 && ledger.balances[vault] == 0;

    res := contract.CloseVestingContract(ledger, vault);
    assert res == Ok && contract.closed && vault !in ledger.balances;
  }

  /** A record created without an update authority, whatever its schedule and
      whether or not its funding succeeded, refuses an update from any signer. */
  method NoAuthorityNoUpdate(ledger: TokenLedger, issuer: Pubkey, src: Pubkey, destination: Pubkey,
                             mint: Pubkey, vault: Pubkey, items: seq<Vest>,
                             signer: Pubkey, replacement: seq<Vest>, now: I64)
    requires vault !in ledger.balances && Total(items) <= U64_MAX
    requires Signable(signer)
    modifies ledger
  {
    var contract := new VestingContract();
    var res := contract.CreateVestingContract(ledger, issuer, src, destination, mint, vault, [], items);
    assert contract.updateAuthority == DefaultKey;
    res := contract.UpdateVestingSchedule(signer, replacement, now);
    assert res == Err(Program(SignerMustBeUpdateAuthority));
  }
}
