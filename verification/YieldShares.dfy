/** How the yield of an account is split over the goals that hold money in it. */
module YieldShares {
  import opened Common

  /** What a goal holds in the account, or gets of the yield. */
  datatype Share = Share(goal: Id, amount: int)

  function Total(shares: seq<Share>): int {
    if shares == [] then 0 else Total(shares[..|shares| - 1]) + shares[|shares| - 1].amount
  }

  /** The goals with money in the account. */
  function Funded(held: seq<Share>): seq<Share> {
    if held == [] then []
    else Funded(held[..|held| - 1]) + (if held[|held| - 1].amount > 0 then [held[|held| - 1]] else [])
  }

  /** The proportional share of an amount, rounded down. */
  function Cents(gain: nat, denominator: int, amount: int): int
    requires denominator > 0
  {
    gain * amount / denominator
  }

  /** Proportional shares; a share of nothing is left out. */
  function Split(gain: nat, denominator: int, funded: seq<Share>): seq<Share>
    requires denominator > 0
  {
    if funded == [] then []
    else
      var last := funded[|funded| - 1];
      var amount := Cents(gain, denominator, last.amount);
      Split(gain, denominator, funded[..|funded| - 1]) + (if amount > 0 then [Share(last.goal, amount)] else [])
  }

  /** Unallocated money keeps its share as free balance: the yield is split over the larger of the balance and all
      that is allocated. */
  function Denominator(balance: int, held: seq<Share>): int {
    if Total(Funded(held)) > balance then Total(Funded(held)) else balance
  }

  function SharesOf(gain: int, balance: int, held: seq<Share>): seq<Share> {
    if gain <= 0 || held == [] || Denominator(balance, held) <= 0 then []
    else Split(gain, Denominator(balance, held), Funded(held))
  }

  // ---------------------------------------------------------------- rounding

  predicate Positive(shares: seq<Share>) {
    forall i :: 0 <= i < |shares| ==> shares[i].amount > 0
  }

  lemma {:induction false} FundedIsPositive(held: seq<Share>)
    ensures Positive(Funded(held)) && |Funded(held)| <= |held|
  {
    if held != [] {
      FundedIsPositive(held[..|held| - 1]);
    }
  }

  lemma {:induction false} PositiveTotal(shares: seq<Share>)
    requires Positive(shares)
    ensures Total(shares) >= |shares|
  {
    if shares != [] {
      PositiveTotal(shares[..|shares| - 1]);
    }
  }

  /** Rounding down loses less than one cent. */
  lemma RoundedDown(gain: nat, denominator: int, amount: int)
    requires denominator > 0 && amount > 0
    ensures var cents := Cents(gain, denominator, amount);
            0 <= cents && denominator * cents <= gain * amount < denominator * cents + denominator
  {
    var product := gain * amount;
    assert product >= 0;
  }

  lemma TotalOfOneMore(shares: seq<Share>, s: Share)
    ensures Total(shares + [s]) == Total(shares) + s.amount
  {
    assert (shares + [s])[..|shares|] == shares;
  }

  lemma SplitMore(gain: nat, denominator: int, init: seq<Share>, last: Share)
    requires denominator > 0 && Cents(gain, denominator, last.amount) >= 0
    ensures Total(Split(gain, denominator, init + [last])) == Total(Split(gain, denominator, init)) + Cents(gain, denominator, last.amount)
    ensures |Split(gain, denominator, init + [last])| <= |Split(gain, denominator, init)| + 1
  {
    hide Cents;
    assert (init + [last])[..|init|] == init;
    if Cents(gain, denominator, last.amount) <= 0 {
      assert Split(gain, denominator, init + [last]) == Split(gain, denominator, init);
    }
    TotalOfOneMore(Split(gain, denominator, init), Share(last.goal, Cents(gain, denominator, last.amount)));
  }

  /** A rounded total lies at most one cent per goal below the exact one. */
  predicate WithinOneCentEach(gain: nat, denominator: int, shared: int, total: int, n: nat) {
    0 <= denominator * shared <= gain * total <= denominator * shared + (denominator - 1) * n
  }

  lemma AddUp(gain: nat, denominator: int, shared: int, total: int, amount: int, n: nat)
    requires denominator > 0 && amount > 0 && WithinOneCentEach(gain, denominator, shared, total, n)
    ensures WithinOneCentEach(gain, denominator, shared + Cents(gain, denominator, amount), total + amount, n + 1)
  {
    RoundedDown(gain, denominator, amount);
    var cents := Cents(gain, denominator, amount);
    hide Cents;
    NonNegative(denominator, cents);
    Distributes(denominator, shared, cents);
    Distributes(gain, total, amount);
    Distributes(denominator - 1, n, 1);
  }

  lemma Distributes(factor: int, a: int, b: int)
    ensures factor * (a + b) == factor * a + factor * b
  {
  }

  /** All shares together are within one cent per goal of the exact proportion. */
  lemma {:induction false} SplitTotal(gain: nat, denominator: int, funded: seq<Share>)
    requires denominator > 0 && Positive(funded)
    ensures WithinOneCentEach(gain, denominator, Total(Split(gain, denominator, funded)), Total(funded), |funded|)
    ensures |Split(gain, denominator, funded)| <= |funded|
  {
    hide Cents, WithinOneCentEach, Total, Split;
    if funded == [] {
      NothingShared(gain, denominator);
    } else {
      var init, last := funded[..|funded| - 1], funded[|funded| - 1];
      assert init + [last] == funded;
      SplitTotal(gain, denominator, init);
      CentsAreNotNegative(gain, denominator, last.amount);
      SplitMore(gain, denominator, init, last);
      TotalOfOneMore(init, last);
      AddUp(gain, denominator, Total(Split(gain, denominator, init)), Total(init), last.amount, |init|);
    }
  }

  lemma CentsAreNotNegative(gain: nat, denominator: int, amount: int)
    requires denominator > 0 && amount > 0
    ensures Cents(gain, denominator, amount) >= 0
  {
    RoundedDown(gain, denominator, amount);
  }

  lemma NothingShared(gain: nat, denominator: int)
    requires denominator > 0
    ensures Split(gain, denominator, []) == [] && Total([]) == 0
    ensures WithinOneCentEach(gain, denominator, 0, 0, 0)
  {
  }

  lemma NonNegative(a: int, b: int)
    requires a >= 0 && b >= 0
    ensures a * b >= 0
  {
  }

  lemma CancelFactor(factor: int, low: int, high: int)
    requires factor > 0 && factor * low <= factor * high
    ensures low <= high
  {
  }

  lemma SmallerFactor(factor: int, low: int, high: int)
    requires factor >= 0 && low <= high
    ensures factor * low <= factor * high
  {
  }

  /** The shares never exceed the yield; and when the funded goals hold at least the balance, less than one cent
      per goal is left over. */
  lemma SharesNeverExceedYield(gain: int, balance: int, held: seq<Share>)
    requires gain >= 0
    ensures 0 <= Total(SharesOf(gain, balance, held)) <= gain
    ensures gain > 0 && Funded(held) != [] && balance <= Total(Funded(held)) ==>
              gain - Total(SharesOf(gain, balance, held)) < |Funded(held)|
  {
    hide Split, Total, Funded;
    var funded, denominator := Funded(held), Denominator(balance, held);
    FundedIsPositive(held);
    PositiveTotal(funded);
    if SharesOf(gain, balance, held) == [] {
      EmptyTotal();
    }
    if gain > 0 && held != [] && denominator > 0 {
      SplitTotal(gain, denominator, funded);
      var total := Total(Split(gain, denominator, funded));
      SmallerFactor(gain, Total(funded), denominator);
      CancelFactor(denominator, total, gain);
      CancelFactor(denominator, 0, total);
      if balance <= Total(funded) && funded != [] {
        assert denominator * (gain - total) == denominator * gain - denominator * total;
        LessThanOneEach(denominator, gain - total, |funded|);
      }
    }
  }

  lemma EmptyTotal()
    ensures Total([]) == 0
  {
  }

  lemma LessThanOneEach(denominator: int, left: int, n: nat)
    requires denominator > 0 && n > 0 && denominator * left <= (denominator - 1) * n
    ensures left < n
  {
    assert (denominator - 1) * n == denominator * n - n;
    if left >= n {
      SmallerFactor(denominator, n, left);
    }
  }

  /** The shares are exactly the rounded proportions that are not nothing, one for each funded goal that has one. */
  lemma {:induction false} EachShareIsProportional(gain: nat, denominator: int, funded: seq<Share>)
    requires denominator > 0 && Positive(funded)
    ensures forall s <- Split(gain, denominator, funded) ::
              s.amount > 0 && exists f <- funded :: s == Share(f.goal, Cents(gain, denominator, f.amount))
    ensures forall f <- funded :: Cents(gain, denominator, f.amount) > 0 ==>
              Share(f.goal, Cents(gain, denominator, f.amount)) in Split(gain, denominator, funded)
  {
    hide Cents;
    if funded != [] {
      var init, last := funded[..|funded| - 1], funded[|funded| - 1];
      EachShareIsProportional(gain, denominator, init);
      assert funded == init + [last];
      forall s | s in Split(gain, denominator, funded)
        ensures s.amount > 0 && exists f <- funded :: s == Share(f.goal, Cents(gain, denominator, f.amount))
      {
        if s in Split(gain, denominator, init) {
          var f :| f in init && s == Share(f.goal, Cents(gain, denominator, f.amount));
          assert f in funded;
        } else {
          assert last in funded && s == Share(last.goal, Cents(gain, denominator, last.amount));
        }
      }
    }
  }

  // ---------------------------------------------------------------- the loop

  /** Splits a yield; the goals come in ascending order of id. */
  method YieldShares(gain: int, balance: int, held: seq<Share>) returns (shares: seq<Share>)
    ensures shares == SharesOf(gain, balance, held)
  {
    shares := [];
    if gain <= 0 || held == [] {
      return;
    }
    var total, goals := 0, [];
    for i := 0 to |held|
      invariant goals == Funded(held[..i]) && total == Total(goals)
    {
      assert held[..i + 1][..i] == held[..i];
      if held[i].amount > 0 {
        TotalOfOneMore(goals, held[i]);
        total, goals := total + held[i].amount, goals + [held[i]];
      }
    }
    assert held[..|held|] == held;
    var denominator := balance;
    if total > denominator {
      denominator := total;
    }
    if denominator <= 0 {
      return;
    }
    for i := 0 to |goals|
      invariant shares == Split(gain, denominator, goals[..i])
    {
      assert goals[..i + 1][..i] == goals[..i];
      var share := Cents(gain, denominator, goals[i].amount);
      if share > 0 {
        shares := shares + [Share(goals[i].goal, share)];
      }
    }
    assert goals[..|goals|] == goals;
  }
}
