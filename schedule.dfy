/** The vesting schedule: ordering by unlock date, the sums the handlers
    compute over it, and the marking of matured items as claimed. */
module Schedule {
  import opened VestingTypes

  // ---------------------------------------------------------------------------
  // Ordering
  // ---------------------------------------------------------------------------

  /** Non-decreasing by unlock date (ties allowed). */
  predicate SortedByDate(s: seq<Vest>) {
    forall i, j :: 0 <= i < j < |s| ==> s[i].unlockDate <= s[j].unlockDate
  }

  /** Inserts `x` into `t` after every trailing item whose date is not later
      than `x`'s: one step of a stable insertion sort. */
  function InsertByDate(t: seq<Vest>, x: Vest): seq<Vest>
    decreases |t|
  {
    if t == [] || t[|t| - 1].unlockDate <= x.unlockDate then t + [x]
    else InsertByDate(t[..|t| - 1], x) + [t[|t| - 1]]
  }

  /** `sort_by_key(|x| x.unlock_date)`: a stable sort by unlock date. */
  function SortByDate(s: seq<Vest>): seq<Vest>
    decreases |s|
  {
    if s == [] then [] else InsertByDate(SortByDate(s[..|s| - 1]), s[|s| - 1])
  }

  /** The items of `s` dated `d`, in their order in `s`. A sort is stable when
      it keeps every such subsequence. */
  function DatedAs(s: seq<Vest>, d: int): seq<Vest>
    decreases |s|
  {
    if s == [] then []
    else DatedAs(s[..|s| - 1], d) + (if s[|s| - 1].unlockDate == d then [s[|s| - 1]] else [])
  }

  lemma {:induction false} InsertByDateMultiset(t: seq<Vest>, x: Vest)
    ensures |InsertByDate(t, x)| == |t| + 1
    ensures multiset(InsertByDate(t, x)) == multiset(t) + multiset{x}
    decreases |t|
  {
    if t == [] || t[|t| - 1].unlockDate <= x.unlockDate {
    } else {
      var init, last := t[..|t| - 1], t[|t| - 1];
      InsertByDateMultiset(init, x);
      assert t == init + [last];
    }
  }

  lemma {:induction false} InsertByDateSorted(t: seq<Vest>, x: Vest)
    requires SortedByDate(t)
    ensures SortedByDate(InsertByDate(t, x))
    decreases |t|
  {
    if t == [] || t[|t| - 1].unlockDate <= x.unlockDate {
    } else {
      var init, last := t[..|t| - 1], t[|t| - 1];
      InsertByDateSorted(init, x);
      InsertByDateMultiset(init, x);
      var r := InsertByDate(init, x);
      forall k | 0 <= k < |r| ensures r[k].unlockDate <= last.unlockDate {
        assert r[k] in multiset(r);
        assert r[k] in multiset(init) || r[k] == x;
      }
    }
  }

  lemma {:induction false} InsertByDateStable(t: seq<Vest>, x: Vest, d: int)
    ensures DatedAs(InsertByDate(t, x), d) == DatedAs(t, d) + (if x.unlockDate == d then [x] else [])
    decreases |t|
  {
    if t == [] || t[|t| - 1].unlockDate <= x.unlockDate {
      assert (t + [x])[..|t|] == t;
    } else {
      var init, last := t[..|t| - 1], t[|t| - 1];
      InsertByDateStable(init, x, d);
      var r := InsertByDate(init, x);
      assert (r + [last])[..|r|] == r;
    }
  }

  lemma {:induction false} InsertByDateTotal(t: seq<Vest>, x: Vest)
    ensures Total(InsertByDate(t, x)) == Total(t) + x.amount
    decreases |t|
  {
    if t == [] || t[|t| - 1].unlockDate <= x.unlockDate {
      assert (t + [x])[..|t|] == t;
    } else {
      var init, last := t[..|t| - 1], t[|t| - 1];
      InsertByDateTotal(init, x);
      var r := InsertByDate(init, x);
      assert (r + [last])[..|r|] == r;
    }
  }

  /** Inserting by date places `x` at the first position `j` whose successors
      are all dated strictly later: the state the insertion loop leaves behind. */
  lemma {:induction false} InsertByDateAt(p: seq<Vest>, x: Vest, j: nat)
    requires j <= |p|
    requires j == 0 || p[j - 1].unlockDate <= x.unlockDate
    requires forall k :: j <= k < |p| ==> p[k].unlockDate > x.unlockDate
    ensures InsertByDate(p, x) == p[..j] + [x] + p[j..]
    decreases |p| - j
  {
    if j == |p| {
      assert p[..j] == p;
    } else {
      var init := p[..|p| - 1];
      InsertByDateAt(init, x, j);
      assert init[..j] == p[..j];
      assert p[j..] == init[j..] + [p[|p| - 1]];
    }
  }

  /** Create and update store a schedule ordered by unlock date. */
  lemma {:induction false} SortByDateSorted(s: seq<Vest>)
    ensures SortedByDate(SortByDate(s))
    decreases |s|
  {
    if s != [] {
      SortByDateSorted(s[..|s| - 1]);
      InsertByDateSorted(SortByDate(s[..|s| - 1]), s[|s| - 1]);
    }
  }

  /** Sorting neither drops nor duplicates an item. */
  lemma {:induction false} SortByDatePermutation(s: seq<Vest>)
    ensures |SortByDate(s)| == |s|
    ensures multiset(SortByDate(s)) == multiset(s)
    decreases |s|
  {
    if s != [] {
      var init, last := s[..|s| - 1], s[|s| - 1];
      SortByDatePermutation(init);
      InsertByDateMultiset(SortByDate(init), last);
      assert s == init + [last];
    }
  }

  /** Items with equal unlock dates keep their input order. */
  lemma {:induction false} SortByDateStable(s: seq<Vest>, d: int)
    ensures DatedAs(SortByDate(s), d) == DatedAs(s, d)
    decreases |s|
  {
    if s != [] {
      var init, last := s[..|s| - 1], s[|s| - 1];
      SortByDateStable(init, d);
      InsertByDateStable(SortByDate(init), last, d);
    }
  }

  /** Sorting keeps the sum of the amounts. */
  lemma {:induction false} SortByDateTotal(s: seq<Vest>)
    ensures Total(SortByDate(s)) == Total(s)
    decreases |s|
  {
    if s != [] {
      var init, last := s[..|s| - 1], s[|s| - 1];
      SortByDateTotal(init);
      InsertByDateTotal(SortByDate(init), last);
    }
  }

  /** A sorted sequence is determined by its date-classes: any two stable sorts
      of one input agree, so the insertion sort above gives exactly what the
      library's stable sort gives. */
  lemma {:induction false} StableSortUnique(t1: seq<Vest>, t2: seq<Vest>)
    requires SortedByDate(t1) && SortedByDate(t2)
    requires forall d :: DatedAs(t1, d) == DatedAs(t2, d)
    ensures t1 == t2
    decreases |t1|
  {
    if t1 == [] {
      if t2 != [] {
        DatedAsLast(t2);
        assert false;
      }
    } else if t2 == [] {
      DatedAsLast(t1);
      assert false;
    } else {
      var i1, l1 := t1[..|t1| - 1], t1[|t1| - 1];
      var i2, l2 := t2[..|t2| - 1], t2[|t2| - 1];
      var d1, d2 := l1.unlockDate, l2.unlockDate;
      DatedAsDated(t2, d1);
      DatedAsDated(t1, d2);
      assert DatedAs(t1, d1) == DatedAs(i1, d1) + [l1];
      assert DatedAs(t2, d2) == DatedAs(i2, d2) + [l2];
      assert d1 <= d2 && d2 <= d1;
      assert DatedAs(t1, d1) == DatedAs(t2, d1);
      assert l1 == DatedAs(t1, d1)[|DatedAs(t1, d1)| - 1];
      assert l2 == DatedAs(t2, d2)[|DatedAs(t2, d2)| - 1];
      assert l1 == l2;
      forall d ensures DatedAs(i1, d) == DatedAs(i2, d) {
        var a1 := DatedAs(t1, d);
        var a2 := DatedAs(t2, d);
        assert a1 == a2;
        if d == d1 {
          assert a1 == DatedAs(i1, d) + [l1];
          assert a2 == DatedAs(i2, d) + [l2];
          assert a1[..|a1| - 1] == DatedAs(i1, d);
          assert a2[..|a2| - 1] == DatedAs(i2, d);
        } else {
          assert a1 == DatedAs(i1, d);
          assert a2 == DatedAs(i2, d);
        }
      }
      assert SortedByDate(i1) && SortedByDate(i2);
      StableSortUnique(i1, i2);
    }
  }

  lemma DatedAsLast(s: seq<Vest>)
    requires s != []
    ensures DatedAs(s, s[|s| - 1].unlockDate) != []
  {
  }

  /** The submitted `[item2, item1]` of the creation test is stored as
      `[item1, item2]`. */
  lemma SortsOutOfOrderInput()
    ensures SortByDate([Vest(2, 300, false), Vest(1, 3, false)]) == [Vest(1, 3, false), Vest(2, 300, false)]
  {
    var item1, item2 := Vest(1, 3, false), Vest(2, 300, false);
    assert [item2, item1][..1] == [item2];
    assert [item2][..0] == [];
    assert SortByDate([item2]) == [item2];
    assert InsertByDate([item2], item1) == InsertByDate([], item1) + [item2];
  }

  /** Every item in the date-class of `d` is dated `d`, and the class is
      non-empty exactly when some item of `s` has date `d`. */
  lemma {:induction false} DatedAsDated(s: seq<Vest>, d: int)
    ensures forall k :: 0 <= k < |DatedAs(s, d)| ==> DatedAs(s, d)[k].unlockDate == d
    ensures DatedAs(s, d) != [] <==> exists k :: 0 <= k < |s| && s[k].unlockDate == d
    decreases |s|
  {
    if s != [] {
      var init := s[..|s| - 1];
      DatedAsDated(init, d);
      if s[|s| - 1].unlockDate != d {
        forall k | 0 <= k < |s| && s[k].unlockDate == d ensures k < |init| && init[k].unlockDate == d {
        }
      } else {
        assert s[|s| - 1].unlockDate == d;
      }
      forall k | 0 <= k < |init| && init[k].unlockDate == d ensures s[k].unlockDate == d { }
    }
  }

  /** One pass of the insertion sort: shifts the items of the sorted prefix
      `a[..i]` dated later than `a[i]` one place right and drops `a[i]` into
      the gap. */
  method InsertIntoPrefix(a: array<Vest>, i: nat)
    requires i < a.Length
    modifies a
    ensures a[..i + 1] == InsertByDate(old(a[..i]), old(a[i]))
    ensures a[i + 1..] == old(a[i + 1..])
  {
    ghost var p := a[..i];
    var x := a[i];
    var j := i;
    while j > 0 && a[j - 1].unlockDate > x.unlockDate
      invariant 0 <= j <= i
      invariant forall k :: 0 <= k < j ==> a[k] == p[k]
      invariant forall k :: j < k <= i ==> a[k] == p[k - 1]
      invariant forall k :: j <= k < i ==> p[k].unlockDate > x.unlockDate
      invariant forall k :: i < k < a.Length ==> a[k] == old(a[k])
    {
      a[j] := a[j - 1];
      j := j - 1;
    }
    a[j] := x;
    InsertByDateAt(p, x, j);
    ghost var inserted := p[..j] + [x] + p[j..];
    assert |inserted| == i + 1;
    forall k | 0 <= k <= i ensures a[k] == inserted[k] {
      if k < j { assert inserted[k] == p[k]; }
      else if k > j { assert inserted[k] == p[k - 1]; }
    }
    assert a[..i + 1] == inserted;
  }

  /** Insertion sort in place, the ordering `create_vesting_contract` and
      `update_vesting_schedule` apply to the submitted schedule. */
  method SortByUnlockDate(a: array<Vest>)
    modifies a
    ensures a[..] == SortByDate(old(a[..]))
  {
    ghost var input := a[..];
    var i := 0;
    while i < a.Length
      invariant 0 <= i <= a.Length
      invariant a[..i] == SortByDate(input[..i])
      invariant a[i..] == input[i..]
    {
      assert a[i] == input[i];
      assert input[..i + 1][..i] == input[..i];
      InsertIntoPrefix(a, i);
      i := i + 1;
    }
    assert input[..a.Length] == input;
    assert a[..] == a[..a.Length];
  }

  /** `let mut schedule = vesting_schedule.clone(); schedule.sort_by_key(...)`:
      a sorted copy, the submitted schedule itself left as it was. */
  method SortedCopy(s: seq<Vest>) returns (sorted: seq<Vest>)
    ensures sorted == SortByDate(s)
  {
    var a := new Vest[|s|](i requires 0 <= i < |s| => s[i]);
    assert a[..] == s;
    SortByUnlockDate(a);
    sorted := a[..];
  }

  // ---------------------------------------------------------------------------
  // Sums over the schedule
  // ---------------------------------------------------------------------------

  /** Sum of all amounts, whatever their `claimed` flags. */
  function Total(s: seq<Vest>): nat
    decreases |s|
  {
    if s == [] then 0 else Total(s[..|s| - 1]) + s[|s| - 1].amount
  }

  /** An item pays out at `now` when it is unclaimed and its date has passed
      strictly. */
  predicate Matured(v: Vest, now: int) {
    !v.claimed && now > v.unlockDate
  }

  /** Sum of the amounts that pay out at `now`. */
  function ClaimableTotal(s: seq<Vest>, now: int): nat
    decreases |s|
  {
    if s == [] then 0
    else ClaimableTotal(s[..|s| - 1], now) + (if Matured(s[|s| - 1], now) then s[|s| - 1].amount else 0)
  }

  /** Sum of the amounts not yet paid out. */
  function UnclaimedTotal(s: seq<Vest>): nat
    decreases |s|
  {
    if s == [] then 0
    else UnclaimedTotal(s[..|s| - 1]) + (if s[|s| - 1].claimed then 0 else s[|s| - 1].amount)
  }

  /** The schedule after a claim at `now`: exactly the matured items become
      claimed; amounts, dates and order stay. */
  function MarkClaimed(s: seq<Vest>, now: int): (r: seq<Vest>)
    ensures |r| == |s|
    ensures forall k :: 0 <= k < |s| ==>
      r[k].amount == s[k].amount && r[k].unlockDate == s[k].unlockDate &&
      (r[k].claimed <==> s[k].claimed || Matured(s[k], now))
  {
    seq(|s|, k requires 0 <= k < |s| => if Matured(s[k], now) then s[k].(claimed := true) else s[k])
  }

  lemma {:induction false} TotalPrefix(s: seq<Vest>, i: nat)
    requires i <= |s|
    ensures Total(s[..i]) <= Total(s)
    decreases |s| - i
  {
    if i < |s| {
      TotalPrefix(s, i + 1);
      assert s[..i + 1][..i] == s[..i];
    } else {
      assert s[..i] == s;
    }
  }

  lemma {:induction false} ClaimablePrefix(s: seq<Vest>, now: int, i: nat)
    requires i <= |s|
    ensures ClaimableTotal(s[..i], now) <= ClaimableTotal(s, now)
    decreases |s| - i
  {
    if i < |s| {
      ClaimablePrefix(s, now, i + 1);
      assert s[..i + 1][..i] == s[..i];
    } else {
      assert s[..i] == s;
    }
  }

  /** What a claim pays never exceeds what is unclaimed, which never exceeds
      what was committed. */
  lemma {:induction false} ClaimableBounded(s: seq<Vest>, now: int)
    ensures ClaimableTotal(s, now) <= UnclaimedTotal(s) <= Total(s)
    decreases |s|
  {
    if s != [] {
      ClaimableBounded(s[..|s| - 1], now);
    }
  }

  /** With no item claimed yet, the unclaimed total is the whole total. */
  lemma {:induction false} NothingClaimedYet(s: seq<Vest>)
    requires forall k :: 0 <= k < |s| ==> !s[k].claimed
    ensures UnclaimedTotal(s) == Total(s)
    decreases |s|
  {
    if s != [] {
      NothingClaimedYet(s[..|s| - 1]);
    }
  }

  /** Sorting neither claims nor unclaims an item. */
  lemma SortByDateKeepsUnclaimed(s: seq<Vest>)
    requires forall k :: 0 <= k < |s| ==> !s[k].claimed
    ensures forall k :: 0 <= k < |SortByDate(s)| ==> !SortByDate(s)[k].claimed
  {
    SortByDatePermutation(s);
    var r := SortByDate(s);
    forall k | 0 <= k < |r| ensures !r[k].claimed {
      assert r[k] in multiset(r);
      assert r[k] in s;
    }
  }

  lemma MarkClaimedInit(s: seq<Vest>, now: int)
    requires s != []
    ensures MarkClaimed(s, now)[..|s| - 1] == MarkClaimed(s[..|s| - 1], now)
  {
  }

  /** A claim moves exactly the paid amount from "unclaimed" to "claimed":
      a vault holding the unclaimed total still does after paying. */
  lemma {:induction false} ClaimConserves(s: seq<Vest>, now: int)
    ensures UnclaimedTotal(MarkClaimed(s, now)) + ClaimableTotal(s, now) == UnclaimedTotal(s)
    decreases |s|
  {
    if s != [] {
      ClaimConserves(s[..|s| - 1], now);
      MarkClaimedInit(s, now);
    }
  }

  /** A second claim at the same time pays nothing. */
  lemma {:induction false} ClaimAgainPaysNothing(s: seq<Vest>, now: int)
    ensures ClaimableTotal(MarkClaimed(s, now), now) == 0
    decreases |s|
  {
    if s != [] {
      ClaimAgainPaysNothing(s[..|s| - 1], now);
      MarkClaimedInit(s, now);
    }
  }

  /** Claiming at `t1` and then at a later `t2` pays, in all, what one claim
      at `t2` would have paid. */
  lemma {:induction false} ClaimLater(s: seq<Vest>, t1: int, t2: int)
    requires t1 <= t2
    ensures ClaimableTotal(s, t1) + ClaimableTotal(MarkClaimed(s, t1), t2) == ClaimableTotal(s, t2)
    ensures MarkClaimed(MarkClaimed(s, t1), t2) == MarkClaimed(s, t2)
    decreases |s|
  {
    if s != [] {
      ClaimLater(s[..|s| - 1], t1, t2);
      MarkClaimedInit(s, t1);
    }
  }

  /** Claims at the times `times`, one after the other: the sum paid and the
      final schedule. */
  function ClaimRun(s: seq<Vest>, times: seq<int>): (nat, seq<Vest>)
    decreases |times|
  {
    if times == [] then (0, s)
    else
      var rest := ClaimRun(MarkClaimed(s, times[0]), times[1..]);
      (ClaimableTotal(s, times[0]) + rest.0, rest.1)
  }

  /** Conservation over any run of claims at non-decreasing times: in all they
      pay exactly what matured by the last time, each item at most once. */
  lemma {:induction false} ClaimRunConserves(s: seq<Vest>, times: seq<int>)
    requires times != []
    requires forall i, j :: 0 <= i < j < |times| ==> times[i] <= times[j]
    ensures ClaimRun(s, times) == (ClaimableTotal(s, times[|times| - 1]), MarkClaimed(s, times[|times| - 1]))
    decreases |times|
  {
    if |times| > 1 {
      var t0, last := times[0], times[|times| - 1];
      ClaimRunConserves(MarkClaimed(s, t0), times[1..]);
      ClaimLater(s, t0, last);
    }
  }

  // ---------------------------------------------------------------------------
  // The loops of the handlers
  // ---------------------------------------------------------------------------

  /** The `total += vest.amount` loop of `create_vesting_contract`, in u64:
      the caller guarantees that the sum fits. */
  method ScheduleTotal(s: seq<Vest>) returns (total: U64)
    requires Total(s) <= U64_MAX
    ensures total == Total(s)
  {
    total := 0;
    var i := 0;
    while i < |s|
      invariant 0 <= i <= |s|
      invariant total == Total(s[..i])
    {
      assert s[..i + 1][..i] == s[..i];
      TotalPrefix(s, i + 1);
      total := total + s[i].amount;
      i := i + 1;
    }
    assert s[..i] == s;
  }

  /** The loop of `transfer_vested`: sums the matured items in u64 and marks
      them claimed in a copy of the schedule. */
  method CollectVested(s: seq<Vest>, now: I64) returns (total: U64, settled: seq<Vest>)
    requires ClaimableTotal(s, now) <= U64_MAX
    ensures total == ClaimableTotal(s, now)
    ensures settled == MarkClaimed(s, now)
  {
    total := 0;
    settled := s;
    var i := 0;
    while i < |s|
      invariant 0 <= i <= |s|
      invariant total == ClaimableTotal(s[..i], now)
      invariant |settled| == |s|
      invariant forall k :: 0 <= k < i ==> settled[k] == MarkClaimed(s, now)[k]
      invariant forall k :: i <= k < |s| ==> settled[k] == s[k]
    {
      assert s[..i + 1][..i] == s[..i];
      ClaimablePrefix(s, now, i + 1);
      if !s[i].claimed && now > s[i].unlockDate {
        total := total + s[i].amount;
        settled := settled[i := s[i].(claimed := true)];
      }
      i := i + 1;
    }
    assert s[..i] == s;
  }
}
