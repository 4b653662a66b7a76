/** The index-wise checks `update_vesting_schedule` runs between the stored
    schedule and the sorted replacement, and what an accepted replacement is. */
module UpdateRules {
  import opened VestingTypes
  import opened Schedule

  /** The checks at index `i` of the replacement, in the order the handler
      makes them. A replacement longer than the stored schedule reaches an
      index the stored schedule lacks, which aborts the program. */
  function IndexCheck(stored: seq<Vest>, repl: seq<Vest>, now: int, i: nat): Outcome
    requires i < |repl|
  {
    if i >= |stored| then Err(IndexOutOfBounds)
    else if stored[i].amount != repl[i].amount then Err(Program(CannotChangeAmount))
    else if now > repl[i].unlockDate then Err(Program(NewDateMustBeInTheFuture))
    else if stored[i].unlockDate > repl[i].unlockDate then Err(Program(NewDateMustBeLaterThanCurrent))
    else Ok
  }

  /** The checks from index `i` on; the first failing index decides. */
  function CheckFrom(stored: seq<Vest>, repl: seq<Vest>, now: int, i: nat): Outcome
    requires i <= |repl|
    decreases |repl| - i
  {
    if i == |repl| then Ok
    else if IndexCheck(stored, repl, now, i).Err? then IndexCheck(stored, repl, now, i)
    else CheckFrom(stored, repl, now, i + 1)
  }

  /** The verdict of the update loop on the whole (sorted) replacement. */
  function UpdateCheck(stored: seq<Vest>, repl: seq<Vest>, now: int): Outcome {
    CheckFrom(stored, repl, now, 0)
  }

  /** The reference definition of an acceptable replacement: no longer than
      the stored schedule and, index by index, the same amount and a date that
      is neither before `now` nor before the stored date. Equal dates pass;
      the `claimed` flags are not compared. */
  predicate DelaysOnly(stored: seq<Vest>, repl: seq<Vest>, now: int) {
    |repl| <= |stored| &&
    forall i :: 0 <= i < |repl| ==>
      repl[i].amount == stored[i].amount &&
      now <= repl[i].unlockDate &&
      stored[i].unlockDate <= repl[i].unlockDate
  }

  lemma {:induction false} CheckFromOk(stored: seq<Vest>, repl: seq<Vest>, now: int, i: nat)
    requires i <= |repl|
    ensures CheckFrom(stored, repl, now, i) == Ok <==>
      forall j :: i <= j < |repl| ==> IndexCheck(stored, repl, now, j) == Ok
    decreases |repl| - i
  {
    if i < |repl| {
      CheckFromOk(stored, repl, now, i + 1);
    }
  }

  /** The update loop accepts exactly the replacements that only delay. */
  lemma UpdateAcceptedIff(stored: seq<Vest>, repl: seq<Vest>, now: int)
    ensures UpdateCheck(stored, repl, now) == Ok <==> DelaysOnly(stored, repl, now)
  {
    CheckFromOk(stored, repl, now, 0);
    if |repl| > |stored| {
      assert IndexCheck(stored, repl, now, |stored|) != Ok;
      assert UpdateCheck(stored, repl, now) != Ok;
    } else {
      forall j | 0 <= j < |repl|
        ensures IndexCheck(stored, repl, now, j) == Ok <==>
          repl[j].amount == stored[j].amount && now <= repl[j].unlockDate &&
          stored[j].unlockDate <= repl[j].unlockDate
      {
      }
    }
  }

  /** A rejection is the failure of the first index that fails: every earlier
      index passes all three checks. */
  lemma {:induction false} CheckFromErr(stored: seq<Vest>, repl: seq<Vest>, now: int, i: nat)
    requires i <= |repl|
    requires CheckFrom(stored, repl, now, i).Err?
    ensures exists k ::
      && i <= k < |repl|
      && IndexCheck(stored, repl, now, k) == CheckFrom(stored, repl, now, i)
      && forall j :: i <= j < k ==> IndexCheck(stored, repl, now, j) == Ok
    decreases |repl| - i
  {
    if IndexCheck(stored, repl, now, i).Err? {
      assert IndexCheck(stored, repl, now, i) == CheckFrom(stored, repl, now, i);
    } else {
      CheckFromErr(stored, repl, now, i + 1);
      var k :| i + 1 <= k < |repl| &&
        IndexCheck(stored, repl, now, k) == CheckFrom(stored, repl, now, i + 1) &&
        forall j :: i + 1 <= j < k ==> IndexCheck(stored, repl, now, j) == Ok;
      assert forall j :: i <= j < k ==> IndexCheck(stored, repl, now, j) == Ok;
    }
  }

  /** If index `k` is the first to fail, its failure is the verdict. */
  lemma {:induction false} FirstFailureDecides(stored: seq<Vest>, repl: seq<Vest>, now: int, i: nat, k: nat)
    requires i <= k < |repl|
    requires forall j :: i <= j < k ==> IndexCheck(stored, repl, now, j) == Ok
    requires IndexCheck(stored, repl, now, k).Err?
    ensures CheckFrom(stored, repl, now, i) == IndexCheck(stored, repl, now, k)
    decreases k - i
  {
    if i < k {
      FirstFailureDecides(stored, repl, now, i + 1, k);
    }
  }

  /** Rejection, both ways: the update loop fails with `f` exactly when some
      index fails with `f` after every earlier index passed. */
  lemma UpdateRejectedIff(stored: seq<Vest>, repl: seq<Vest>, now: int, f: Failure)
    ensures UpdateCheck(stored, repl, now) == Err(f) <==>
      exists k :: 0 <= k < |repl| && IndexCheck(stored, repl, now, k) == Err(f) &&
        forall j :: 0 <= j < k ==> IndexCheck(stored, repl, now, j) == Ok
  {
    if UpdateCheck(stored, repl, now) == Err(f) {
      CheckFromErr(stored, repl, now, 0);
    }
    if exists k :: 0 <= k < |repl| && IndexCheck(stored, repl, now, k) == Err(f) &&
        forall j :: 0 <= j < k ==> IndexCheck(stored, repl, now, j) == Ok {
      var k :| 0 <= k < |repl| && IndexCheck(stored, repl, now, k) == Err(f) &&
        forall j :: 0 <= j < k ==> IndexCheck(stored, repl, now, j) == Ok;
      FirstFailureDecides(stored, repl, now, 0, k);
    }
  }

  lemma {:induction false} SameAmountsSameTotal(s: seq<Vest>, t: seq<Vest>)
    requires |s| == |t|
    requires forall i :: 0 <= i < |s| ==> s[i].amount == t[i].amount
    ensures Total(s) == Total(t)
    decreases |s|
  {
    if s != [] {
      SameAmountsSameTotal(s[..|s| - 1], t[..|t| - 1]);
    }
  }

  /** An accepted replacement never moves a date earlier or into the past,
      and never raises the committed total: it keeps the amounts of the stored
      prefix it covers, and any stored items past its end are dropped. */
  lemma AcceptedUpdateOnlyDelays(stored: seq<Vest>, repl: seq<Vest>, now: int)
    requires UpdateCheck(stored, repl, now) == Ok
    ensures |repl| <= |stored|
    ensures forall i :: 0 <= i < |repl| ==>
      stored[i].unlockDate <= repl[i].unlockDate && now <= repl[i].unlockDate
    ensures Total(repl) == Total(stored[..|repl|]) <= Total(stored)
  {
    UpdateAcceptedIff(stored, repl, now);
    SameAmountsSameTotal(repl, stored[..|repl|]);
    TotalPrefix(stored, |repl|);
  }

  /** The update loop of `update_vesting_schedule`, returning at the first
      failing check. */
  method CheckReplacement(stored: seq<Vest>, repl: seq<Vest>, now: I64) returns (res: Outcome)
    ensures res == UpdateCheck(stored, repl, now)
  {
    var i := 0;
    while i < |repl|
      invariant 0 <= i <= |repl|
      invariant CheckFrom(stored, repl, now, i) == UpdateCheck(stored, repl, now)
    {
      var vest := repl[i];
      if i >= |stored| {
        return Err(IndexOutOfBounds);
      }
      if stored[i].amount != vest.amount {
        return Err(Program(CannotChangeAmount));
      }
      if now > vest.unlockDate {
        return Err(Program(NewDateMustBeInTheFuture));
      }
      if stored[i].unlockDate > vest.unlockDate {
        return Err(Program(NewDateMustBeLaterThanCurrent));
      }
      i := i + 1;
    }
    return Ok;
  }

  /** A replacement shorter than the stored schedule is accepted and drops the
      stored items past its end, with their amounts. */
  lemma ShorterReplacementAccepted()
    ensures var stored := [Vest(1, 400, false), Vest(2, 4000, false)];
            var repl := [Vest(1, 500, false)];
            UpdateCheck(stored, repl, 0) == Ok && Total(repl) == 1 && Total(stored) == 3
  {
  }

  /** An accepted replacement can turn an item that was already paid out back
      into an unclaimed one, which a later claim pays again. */
  lemma ClaimedItemCanBeReopened()
    ensures var stored := [Vest(1, 10, true)];
            var repl := [Vest(1, 30, false)];
            UpdateCheck(stored, repl, 20) == Ok &&
            ClaimableTotal(stored, 31) == 0 && ClaimableTotal(repl, 31) == 1
  {
  }
}
