/**
 * Debts and their recorded total drift apart: the total is truncated at every accrual, each debt grows by the truncated
 * index. How far either can run ahead of the other, over every run, and what that does to a full repayment.
 */
module VTokenDrift {
  import opened Evm
  import opened ExponentialNoError
  import opened Sums
  import opened VTokenLedger
  import opened VTokenRuns

  ghost function Times(x: real, y: real): real {
    x * y
  }

  /** A debt per unit of the borrow index; it does not change while interest accrues. */
  ghost function Share(snapshot: BorrowSnapshot): real {
    if snapshot.principal == 0 || snapshot.interestIndex == 0 then 0.0
    else snapshot.principal as real / snapshot.interestIndex as real
  }

  ghost function Shares(s: Market): map<Address, real> {
    map a | a in s.accountBorrows :: Share(s.accountBorrows[a])
  }

  /** All debts together, before truncation: each is its principal times the index over its own index. */
  ghost function TotalOwed(s: Market): real {
    Times(s.borrowIndex as real, RealSum(Shares(s)))
  }

  // ---------------------------------------------- how much a run accrues

  predicate Accrues(s: Market, op: Op) {
    op.Accrue? && op.now != s.accrualSlot && Step(s, op).Ok?
  }

  /** One plus a simple interest factor. */
  ghost function Growth(factor: nat): (g: real)
    ensures g >= 1.0
  {
    1.0 + factor as real / EXP_SCALE as real
  }

  /** The growth of the step, if it accrues. */
  ghost function StepGrowth(s: Market, op: Op): (gs: seq<real>)
    ensures forall i :: 0 <= i < |gs| ==> gs[i] >= 1.0
  {
    if Accrues(s, op) then [Growth(op.borrowRate * (op.now - s.accrualSlot))] else []
  }

  /** The growth of every accrual of the run, in order. */
  ghost function Growths(s: Market, ops: seq<Op>): (gs: seq<real>)
    ensures forall i :: 0 <= i < |gs| ==> gs[i] >= 1.0
    decreases |ops|
  {
    if ops == [] then [] else StepGrowth(s, ops[0]) + Growths(Apply(s, ops[0]), ops[1..])
  }

  /** One unit lost at each growth, all of it compounding through the later ones. */
  ghost function Compounded(gs: seq<real>): real {
    if gs == [] then 0.0 else Times(gs[|gs| - 1], Compounded(gs[..|gs| - 1])) + 1.0
  }

  ghost function Product(gs: seq<real>): real {
    if gs == [] then 1.0 else Times(gs[|gs| - 1], Product(gs[..|gs| - 1]))
  }

  lemma {:induction false} CompoundedBelowProduct(gs: seq<real>)
    requires forall i :: 0 <= i < |gs| ==> gs[i] >= 1.0
    ensures 1.0 <= Product(gs) && 0.0 <= Compounded(gs) <= Times(|gs| as real, Product(gs))
  {
    if gs != [] {
      var last := |gs| - 1;
      CompoundedBelowProduct(gs[..last]);
      OneMoreGrowth(gs[last], last, Product(gs[..last]), Compounded(gs[..last]));
    }
  }

  lemma OneMoreGrowth(g: real, n: nat, product: real, compounded: real)
    requires 1.0 <= g && 1.0 <= product && 0.0 <= compounded <= Times(n as real, product)
    ensures 1.0 <= Times(g, product) && 0.0 <= Times(g, compounded)
    ensures Times(g, compounded) + 1.0 <= Times((n + 1) as real, Times(g, product))
  {
    assert g * compounded <= g * (n as real * product);
    assert (n + 1) as real * (g * product) == g * (n as real * product) + g * product;
  }

  // ------------------------------------------------------------- one step

  /** Interest and index growth are both a product rounded down. */
  lemma GrowsAtMost(x: nat, factor: nat, cut: nat)
    requires Floors(cut, factor * x, EXP_SCALE)
    ensures (x + cut) as real <= Growth(factor) * x as real <= (x + cut) as real + 1.0
  {
    var e := EXP_SCALE as real;
    assert (factor * x) as real == factor as real * x as real;
    assert cut as real * e <= factor as real * x as real <= cut as real * e + e;
    assert Growth(factor) * x as real * e == x as real * e + factor as real * x as real;
  }

  /** An accrual multiplies the drift by its growth and adds at most one. */
  lemma AccrualDrift(index: real, index': real, growth: real, shares: real, total: real, total': real, drift: real)
    requires growth >= 1.0 && shares >= 0.0
    requires index' <= growth * index && growth * total <= total' + 1.0
    requires Times(index, shares) <= total + drift
    ensures Times(index', shares) <= total' + Times(growth, drift) + 1.0
  {
    assert index' * shares <= growth * index * shares;
    assert growth * (index * shares) <= growth * (total + drift);
  }

  lemma SharesNonNegative(s: Market)
    ensures 0.0 <= RealSum(Shares(s))
  {
    RealSumNonNegative(Shares(s));
  }

  lemma SharesFollow(s: Market, borrower: Address, snapshot: BorrowSnapshot, t: Market)
    requires t.accountBorrows == s.accountBorrows[borrower := snapshot]
    ensures Shares(t) == Shares(s)[borrower := Share(snapshot)]
  {
  }

  lemma ReplaceShare(s: Market, borrower: Address, snapshot: BorrowSnapshot, t: Market)
    requires t.accountBorrows == s.accountBorrows[borrower := snapshot]
    ensures RealSum(Shares(t)) == RealSum(Shares(s)) + Share(snapshot) - Share(Snapshot(s, borrower))
  {
    var share, before := Share(snapshot), Share(Snapshot(s, borrower));
    assert Shares(t) == Shares(s)[borrower := share] by { SharesFollow(s, borrower, snapshot, t); }
    assert before == if borrower in Shares(s) then Shares(s)[borrower] else 0.0;
    RealSumUpdate(Shares(s), borrower, share);
  }

  /** Replacing one debt by its truncation plus a change that the total follows never adds drift. */
  lemma DebtChange(s: Market, borrower: Address, principal: nat, t: Market, balance: nat)
    requires Inv(s) && BorrowBalanceStored(s, borrower) == Ok(balance)
    requires t.borrowIndex == s.borrowIndex && t.accountBorrows == WithBorrow(s, borrower, principal)
    ensures TotalOwed(t) <= TotalOwed(s) + principal as real - balance as real
  {
    var snapshot := BorrowSnapshot(principal, s.borrowIndex);
    var index, shares := s.borrowIndex as real, RealSum(Shares(s));
    var before, after := Share(Snapshot(s, borrower)), Share(snapshot);
    assert RealSum(Shares(t)) == shares + after - before by { ReplaceShare(s, borrower, snapshot, t); }
    assert Times(index, shares + after - before) <= Times(index, shares) + principal as real - balance as real by {
      ShareTimesIndex(principal, s.borrowIndex);
      BalanceBelowOwed(s, borrower, balance);
      Exchange(index, shares, before, after, balance as real, principal as real);
    }
  }

  lemma ShareTimesIndex(principal: nat, index: nat)
    requires index != 0
    ensures Times(index as real, Share(BorrowSnapshot(principal, index))) == principal as real
  {
  }

  lemma Exchange(index: real, shares: real, before: real, after: real, balance: real, principal: real)
    requires balance <= Times(index, before) && Times(index, after) == principal
    ensures Times(index, shares + after - before) <= Times(index, shares) + principal - balance
  {
  }

  /** The stored balance is the debt rounded down. */
  lemma BalanceBelowOwed(s: Market, borrower: Address, balance: nat)
    requires Inv(s) && BorrowBalanceStored(s, borrower) == Ok(balance)
    ensures balance as real <= Times(s.borrowIndex as real, Share(Snapshot(s, borrower)))
  {
    var snapshot := Snapshot(s, borrower);
    if snapshot.principal != 0 {
      Quotient(balance, snapshot.principal, s.borrowIndex, snapshot.interestIndex);
    }
  }

  lemma Quotient(q: nat, x: nat, y: nat, d: nat)
    requires Floors(q, x * y, d)
    ensures q as real <= Times(y as real, x as real / d as real)
  {
    assert (x * y) as real == x as real * y as real;
    assert q as real * d as real <= x as real * y as real;
    assert y as real * (x as real / d as real) * d as real == x as real * y as real;
  }

  lemma BorrowDrift(s: Market, borrower: Address, amount: nat, t: Market)
    requires Inv(s) && BorrowFresh(s, borrower, amount) == Ok(t)
    ensures TotalOwed(t) - t.totalBorrows as real <= TotalOwed(s) - s.totalBorrows as real
  {
    var balance := BorrowBalanceStored(s, borrower).value;
    DebtChange(s, borrower, balance + amount, t, balance);
  }

  lemma RepayDrift(s: Market, borrower: Address, amount: nat, lost: nat, t: Market)
    requires Inv(s) && RepayBorrowFresh(s, borrower, amount, lost) == Ok(t)
    ensures TotalOwed(t) - t.totalBorrows as real <= TotalOwed(s) - s.totalBorrows as real
  {
    var balance := BorrowBalanceStored(s, borrower).value;
    DebtChange(s, borrower, t.accountBorrows[borrower].principal, t, balance);
  }

  lemma HealDrift(s: Market, borrower: Address, amount: nat, lost: nat, t: Market)
    requires Inv(s) && HealBorrow(s, borrower, amount, lost) == Ok(t)
    ensures TotalOwed(t) - t.totalBorrows as real <= TotalOwed(s) - s.totalBorrows as real
  {
    var balance := BorrowBalanceStored(s, borrower).value;
    DebtChange(s, borrower, 0, t, balance);
  }

  lemma OtherDrift(s: Market, op: Op, t: Market)
    requires Inv(s) && Step(s, op) == Ok(t) && !Accrues(s, op)
    ensures TotalOwed(t) - t.totalBorrows as real <= TotalOwed(s) - s.totalBorrows as real
  {
    match op
    case Accrue(_, _) =>
    case Borrow(borrower, amount) => BorrowDrift(s, borrower, amount, t);
    case RepayBorrow(borrower, amount, lost) => RepayDrift(s, borrower, amount, lost, t);
    case Heal(borrower, amount, lost) => HealDrift(s, borrower, amount, lost, t);
    case _ => OthersKeepDebts(s, op, t);
  }

  lemma AccrueStepDrift(s: Market, op: Op, t: Market, drift: real)
    requires Inv(s) && Step(s, op) == Ok(t) && Accrues(s, op)
    requires TotalOwed(s) <= s.totalBorrows as real + drift
    ensures TotalOwed(t) <=
            t.totalBorrows as real + Times(Growth(op.borrowRate * (op.now - s.accrualSlot)), drift) + 1.0
  {
    var factor := op.borrowRate * (op.now - s.accrualSlot);
    AccrualFacts(s, op.now, op.borrowRate, t);
    GrowsAtMost(s.totalBorrows, factor, t.totalBorrows - s.totalBorrows);
    GrowsAtMost(s.borrowIndex, factor, t.borrowIndex - s.borrowIndex);
    SharesNonNegative(s);
    assert Shares(t) == Shares(s);
    AccrualDrift(s.borrowIndex as real, t.borrowIndex as real, Growth(factor), RealSum(Shares(s)),
                 s.totalBorrows as real, t.totalBorrows as real, drift);
  }

  // ----------------------------------------------------------- whole runs

  /** The debts exceed the total by at most what the growths up to now compound to. */
  ghost predicate Drifted(s: Market, past: seq<real>) {
    TotalOwed(s) <= s.totalBorrows as real + Compounded(past)
  }

  lemma ApplyDrift(s: Market, op: Op, past: seq<real>)
    requires Inv(s) && Drifted(s, past)
    ensures Inv(Apply(s, op)) && Drifted(Apply(s, op), past + StepGrowth(s, op))
  {
    if Accrues(s, op) {
      StepKeepsInv(s, op, Step(s, op).value);
      AccrueStepDrift(s, op, Step(s, op).value, Compounded(past));
      assert (past + StepGrowth(s, op))[..|past|] == past;
    } else {
      assert past + StepGrowth(s, op) == past;
      if Step(s, op).Ok? {
        StepKeepsInv(s, op, Step(s, op).value);
        OtherDrift(s, op, Step(s, op).value);
      }
    }
  }

  lemma FirstGrowth(s: Market, ops: seq<Op>, past: seq<real>)
    requires ops != []
    ensures past + Growths(s, ops) == past + StepGrowth(s, ops[0]) + Growths(Apply(s, ops[0]), ops[1..])
    ensures Run(s, ops) == Run(Apply(s, ops[0]), ops[1..])
  {
  }

  lemma {:induction false} RunDrift(s: Market, ops: seq<Op>, past: seq<real>)
    requires Inv(s) && Drifted(s, past)
    ensures Drifted(Run(s, ops), past + Growths(s, ops))
    decreases |ops|
  {
    if ops == [] {
      assert past + Growths(s, ops) == past;
    } else {
      ApplyDrift(s, ops[0], past);
      FirstGrowth(s, ops, past);
      RunDrift(Apply(s, ops[0]), ops[1..], past + StepGrowth(s, ops[0]));
    }
  }

  /**
   * From a new market, over every run of any number of borrowers: all debts together exceed the recorded total by at
   * most the number of accruals times the product of their growth factors.
   */
  lemma DriftIsBounded(now: nat, initialExchangeRate: nat, reserveFactor: nat, maxBorrowRate: nat, ops: seq<Op>)
    requires reserveFactor <= MAX_RESERVE_FACTOR
    ensures var s := Initial(now, initialExchangeRate, reserveFactor, maxBorrowRate);
            var gs := Growths(s, ops);
            TotalOwed(Run(s, ops)) <= Run(s, ops).totalBorrows as real + Times(|gs| as real, Product(gs))
  {
    var s := Initial(now, initialExchangeRate, reserveFactor, maxBorrowRate);
    InitialInv(now, initialExchangeRate, reserveFactor, maxBorrowRate);
    assert Shares(s) == map[];
    RunDrift(s, ops, []);
    assert [] + Growths(s, ops) == Growths(s, ops);
    CompoundedBelowProduct(Growths(s, ops));
  }

  // ---------------------------------------------------- what is reported

  /** What each account is reported to owe, were words unbounded. */
  ghost function Balances(s: Market): map<Address, int> {
    map a | a in s.accountBorrows :: Reported(s.accountBorrows[a], s.borrowIndex)
  }

  function Reported(snapshot: BorrowSnapshot, index: nat): nat {
    if snapshot.principal == 0 || snapshot.interestIndex == 0 then 0
    else
      DivFloors(snapshot.principal * index, snapshot.interestIndex);
      snapshot.principal * index / snapshot.interestIndex
  }

  lemma ReportedIsStored(s: Market, a: Address)
    requires BorrowBalanceStored(s, a).Ok?
    ensures BorrowBalanceStored(s, a).value == if a in s.accountBorrows then Balances(s)[a] else 0
  {
    var debt := Snapshot(s, a);
    if debt.principal != 0 {
      DivFloors(debt.principal * s.borrowIndex, debt.interestIndex);
      FloorsUnique(BorrowBalanceStored(s, a).value, Reported(debt, s.borrowIndex), debt.principal * s.borrowIndex,
                   debt.interestIndex);
    }
  }

  lemma ReportedBelowShare(snapshot: BorrowSnapshot, index: nat)
    ensures Reported(snapshot, index) as real <= Times(index as real, Share(snapshot))
  {
    if snapshot.principal != 0 && snapshot.interestIndex != 0 {
      DivFloors(snapshot.principal * index, snapshot.interestIndex);
      Quotient(Reported(snapshot, index), snapshot.principal, index, snapshot.interestIndex);
    }
  }

  lemma {:induction false} SumBelow(m: map<Address, int>, shares: map<Address, real>, index: real)
    requires m.Keys == shares.Keys && forall a :: a in m ==> m[a] as real <= Times(index, shares[a])
    ensures Sum(m) as real <= Times(index, RealSum(shares))
    decreases |m|
  {
    assert |m.Keys| == |shares.Keys|;
    if |m| != 0 {
      var a := Pick(m);
      RealSumSplit(shares, a);
      assert forall b :: b in m - {a} ==> b in m && (m - {a})[b] == m[b] && (shares - {a})[b] == shares[b];
      SumBelow(m - {a}, shares - {a}, index);
      OneMoreBelow(index, m[a] as real, shares[a], Sum(m - {a}) as real, RealSum(shares - {a}));
    }
  }

  lemma OneMoreBelow(index: real, x: real, share: real, rest: real, shares: real)
    requires x <= Times(index, share) && rest <= Times(index, shares)
    ensures x + rest <= Times(index, share + shares)
  {
  }

  /** The reported balances together are at most the debts before truncation. */
  lemma BalancesBelowOwed(s: Market)
    ensures Sum(Balances(s)) as real <= TotalOwed(s)
  {
    forall a | a in Balances(s) ensures Balances(s)[a] as real <= Times(s.borrowIndex as real, Shares(s)[a]) {
      ReportedBelowShare(s.accountBorrows[a], s.borrowIndex);
    }
    SumBelow(Balances(s), Shares(s), s.borrowIndex as real);
  }

  /** So the balances that the market reports exceed its recorded total by no more than the same bound. */
  lemma ReportedDriftIsBounded(now: nat, initialExchangeRate: nat, reserveFactor: nat, maxBorrowRate: nat, ops: seq<Op>)
    requires reserveFactor <= MAX_RESERVE_FACTOR
    ensures var s := Run(Initial(now, initialExchangeRate, reserveFactor, maxBorrowRate), ops);
            var gs := Growths(Initial(now, initialExchangeRate, reserveFactor, maxBorrowRate), ops);
            Sum(Balances(s)) as real <= s.totalBorrows as real + Times(|gs| as real, Product(gs))
  {
    DriftIsBounded(now, initialExchangeRate, reserveFactor, maxBorrowRate, ops);
    BalancesBelowOwed(Run(Initial(now, initialExchangeRate, reserveFactor, maxBorrowRate), ops));
  }

  // ---------------------------------------------------- the other side

  /** Truncation costs a debt less than one unit. */
  lemma BalanceNearOwed(s: Market, borrower: Address, balance: nat)
    requires Inv(s) && BorrowBalanceStored(s, borrower) == Ok(balance)
    ensures Times(s.borrowIndex as real, Share(Snapshot(s, borrower))) <= balance as real + 1.0
  {
    var snapshot := Snapshot(s, borrower);
    if snapshot.principal != 0 {
      QuotientAbove(balance, snapshot.principal, s.borrowIndex, snapshot.interestIndex);
    }
  }

  lemma QuotientAbove(q: nat, x: nat, y: nat, d: nat)
    requires Floors(q, x * y, d)
    ensures Times(y as real, x as real / d as real) <= q as real + 1.0
  {
    var exact := Times(y as real, x as real / d as real);
    TimesQuotient(x as real, y as real, d as real);
    assert (x * y) as real == x as real * y as real;
    assert (x * y) as real <= (q * d + d) as real;
    assert (q * d + d) as real == Times(q as real + 1.0, d as real);
    Cancel(exact, q as real + 1.0, d as real);
  }

  lemma TimesQuotient(x: real, y: real, d: real)
    requires d != 0.0
    ensures Times(Times(y, x / d), d) == x * y
  {
    assert x / d * d == x;
    assert y * (x / d) * d == y * (x / d * d);
  }

  lemma Cancel(x: real, y: real, d: real)
    requires 0.0 < d && Times(x, d) <= Times(y, d)
    ensures x <= y
  {
    if y < x { Stretch(y, x, d); }
  }

  lemma Stretch(x: real, y: real, d: real)
    requires 0.0 < d && x < y
    ensures Times(x, d) < Times(y, d)
  {
    assert 0.0 < (y - x) * d;
  }

  lemma DebtChangeAbove(s: Market, borrower: Address, principal: nat, t: Market, balance: nat)
    requires Inv(s) && BorrowBalanceStored(s, borrower) == Ok(balance)
    requires t.borrowIndex == s.borrowIndex && t.accountBorrows == WithBorrow(s, borrower, principal)
    ensures TotalOwed(s) + principal as real - balance as real <= TotalOwed(t) + 1.0
  {
    var snapshot := BorrowSnapshot(principal, s.borrowIndex);
    var index, shares := s.borrowIndex as real, RealSum(Shares(s));
    var before, after := Share(Snapshot(s, borrower)), Share(snapshot);
    assert RealSum(Shares(t)) == shares + after - before by { ReplaceShare(s, borrower, snapshot, t); }
    assert Times(index, shares) + principal as real - balance as real <=
           Times(index, shares + after - before) + 1.0 by {
      ShareTimesIndex(principal, s.borrowIndex);
      BalanceNearOwed(s, borrower, balance);
      ExchangeAbove(index, shares, before, after, balance as real, principal as real);
    }
  }

  lemma ExchangeAbove(index: real, shares: real, before: real, after: real, balance: real, principal: real)
    requires Times(index, before) <= balance + 1.0 && Times(index, after) == principal
    ensures Times(index, shares) + principal - balance <= Times(index, shares + after - before) + 1.0
  {
  }

  /** A step that does not accrue lets the total run ahead of the debts by at most one more unit. */
  lemma OtherLag(s: Market, op: Op, t: Market)
    requires Inv(s) && Step(s, op) == Ok(t) && !Accrues(s, op)
    ensures t.totalBorrows as real - TotalOwed(t) <= s.totalBorrows as real - TotalOwed(s) + 1.0
  {
    match op
    case Accrue(_, _) =>
    case Borrow(borrower, amount) => BorrowLag(s, borrower, amount, t);
    case RepayBorrow(borrower, amount, lost) => RepayLag(s, borrower, amount, lost, t);
    case Heal(borrower, amount, lost) => HealLag(s, borrower, amount, lost, t);
    case _ => OthersKeepDebts(s, op, t);
  }

  lemma BorrowLag(s: Market, borrower: Address, amount: nat, t: Market)
    requires Inv(s) && BorrowFresh(s, borrower, amount) == Ok(t)
    ensures t.totalBorrows as real - TotalOwed(t) <= s.totalBorrows as real - TotalOwed(s) + 1.0
  {
    var balance := BorrowBalanceStored(s, borrower).value;
    DebtChangeAbove(s, borrower, balance + amount, t, balance);
  }

  lemma RepayLag(s: Market, borrower: Address, amount: nat, lost: nat, t: Market)
    requires Inv(s) && RepayBorrowFresh(s, borrower, amount, lost) == Ok(t)
    ensures t.totalBorrows as real - TotalOwed(t) <= s.totalBorrows as real - TotalOwed(s) + 1.0
  {
    var balance := BorrowBalanceStored(s, borrower).value;
    DebtChangeAbove(s, borrower, t.accountBorrows[borrower].principal, t, balance);
  }

  lemma HealLag(s: Market, borrower: Address, amount: nat, lost: nat, t: Market)
    requires Inv(s) && HealBorrow(s, borrower, amount, lost) == Ok(t)
    ensures t.totalBorrows as real - TotalOwed(t) <= s.totalBorrows as real - TotalOwed(s) + 1.0
  {
    var balance := BorrowBalanceStored(s, borrower).value;
    DebtChangeAbove(s, borrower, 0, t, balance);
  }

  lemma Scale(k: real, x: real, y: real)
    requires 0.0 <= k && x <= y
    ensures Times(k, x) <= Times(k, y)
  {
  }

  /** The growth of a step: one if it does not accrue. */
  ghost function OpGrowth(s: Market, op: Op): (g: real)
    ensures g >= 1.0
  {
    if Accrues(s, op) then Growth(op.borrowRate * (op.now - s.accrualSlot)) else 1.0
  }

  lemma AccrualLag(index: real, index': real, growth: real, shares: real, total: real, total': real, lag: real)
    requires growth >= 1.0 && shares >= 0.0
    requires Times(growth, index) <= index' + 1.0 && total' <= Times(growth, total)
    requires total <= Times(index, shares) + lag
    ensures total' <= Times(index', shares) + Times(growth, lag) + shares
  {
    Scale(growth, total, Times(index, shares) + lag);
    Scale(shares, Times(growth, index), index' + 1.0);
    assert growth * (index * shares) == shares * (growth * index);
    assert shares * (index' + 1.0) == index' * shares + shares;
  }

  lemma AccrualGrows(s: Market, op: Op, t: Market)
    requires Inv(s) && Step(s, op) == Ok(t) && Accrues(s, op)
    ensures Times(OpGrowth(s, op), s.borrowIndex as real) <= t.borrowIndex as real + 1.0
    ensures t.totalBorrows as real <= Times(OpGrowth(s, op), s.totalBorrows as real)
    ensures t.accountBorrows == s.accountBorrows
  {
    var factor := op.borrowRate * (op.now - s.accrualSlot);
    AccrualFacts(s, op.now, op.borrowRate, t);
    GrowsAtMost(s.totalBorrows, factor, t.totalBorrows - s.totalBorrows);
    GrowsAtMost(s.borrowIndex, factor, t.borrowIndex - s.borrowIndex);
  }

  /** An accrual truncates the index, at the cost of one unit for each unit of debt per index. */
  lemma AccrueStepLag(s: Market, op: Op, t: Market, lag: real)
    requires Inv(s) && Step(s, op) == Ok(t) && Accrues(s, op)
    requires s.totalBorrows as real <= TotalOwed(s) + lag
    ensures t.totalBorrows as real <= TotalOwed(t) + Times(OpGrowth(s, op), lag) + RealSum(Shares(s))
  {
    AccrualGrows(s, op, t);
    SharesNonNegative(s);
    assert Shares(t) == Shares(s);
    AccrualLag(s.borrowIndex as real, t.borrowIndex as real, OpGrowth(s, op), RealSum(Shares(s)),
               s.totalBorrows as real, t.totalBorrows as real, lag);
  }

  ghost function OpGrowths(s: Market, ops: seq<Op>): (gs: seq<real>)
    ensures |gs| == |ops| && forall i :: 0 <= i < |gs| ==> gs[i] >= 1.0
    decreases |ops|
  {
    if ops == [] then [] else [OpGrowth(s, ops[0])] + OpGrowths(Apply(s, ops[0]), ops[1..])
  }

  /** At every state of the run the debts per unit of the index come to at most `most`. */
  ghost predicate SharesWithin(s: Market, ops: seq<Op>, most: real)
    decreases |ops|
  {
    RealSum(Shares(s)) <= most && (ops == [] || SharesWithin(Apply(s, ops[0]), ops[1..], most))
  }

  lemma StepLag(s: Market, op: Op, lag: real, most: real)
    requires Inv(s) && 1.0 <= most && RealSum(Shares(s)) <= most
    requires s.totalBorrows as real <= TotalOwed(s) + lag
    ensures Inv(Apply(s, op))
    ensures Apply(s, op).totalBorrows as real <= TotalOwed(Apply(s, op)) + Times(OpGrowth(s, op), lag) + most
  {
    var r := Step(s, op);
    if r.Ok? { StepKeepsInv(s, op, r.value); }
    if Accrues(s, op) {
      AccrueStepLag(s, op, r.value, lag);
    } else {
      assert Times(OpGrowth(s, op), lag) == lag;
      if r.Ok? { OtherLag(s, op, r.value); }
    }
  }

  /** One `most` at each growth, all of it compounding through the later ones. */
  ghost function Lag(gs: seq<real>, most: real): real {
    if gs == [] then 0.0 else Times(gs[|gs| - 1], Lag(gs[..|gs| - 1], most)) + most
  }

  lemma {:induction false} LagIsScaled(gs: seq<real>, most: real)
    ensures Lag(gs, most) == Times(most, Compounded(gs))
  {
    if gs != [] {
      LagIsScaled(gs[..|gs| - 1], most);
      Rescale(gs[|gs| - 1], most, Compounded(gs[..|gs| - 1]));
    }
  }

  lemma Rescale(g: real, most: real, compounded: real)
    ensures Times(g, Times(most, compounded)) + most == Times(most, Times(g, compounded) + 1.0)
  {
    assert g * (most * compounded) == most * (g * compounded);
  }

  lemma OneMoreLag(past: seq<real>, g: real, most: real)
    ensures Lag(past + [g], most) == Times(g, Lag(past, most)) + most
  {
    assert (past + [g])[..|past|] == past;
  }

  /** The total exceeds the debts by at most what the growths up to now compound to. */
  ghost predicate Lagging(s: Market, past: seq<real>, most: real) {
    s.totalBorrows as real <= TotalOwed(s) + Lag(past, most)
  }

  lemma ApplyLag(s: Market, op: Op, past: seq<real>, most: real)
    requires Inv(s) && 1.0 <= most && RealSum(Shares(s)) <= most && Lagging(s, past, most)
    ensures Inv(Apply(s, op)) && Lagging(Apply(s, op), past + [OpGrowth(s, op)], most)
  {
    StepLag(s, op, Lag(past, most), most);
    OneMoreLag(past, OpGrowth(s, op), most);
  }

  lemma FirstOpGrowth(s: Market, ops: seq<Op>, past: seq<real>)
    requires ops != []
    ensures past + OpGrowths(s, ops) == past + [OpGrowth(s, ops[0])] + OpGrowths(Apply(s, ops[0]), ops[1..])
    ensures Run(s, ops) == Run(Apply(s, ops[0]), ops[1..])
  {
  }

  lemma {:induction false} RunLag(s: Market, ops: seq<Op>, past: seq<real>, most: real)
    requires Inv(s) && 1.0 <= most && SharesWithin(s, ops, most)
    requires Lagging(s, past, most)
    ensures Lagging(Run(s, ops), past + OpGrowths(s, ops), most)
    decreases |ops|
  {
    if ops == [] {
      assert past + OpGrowths(s, ops) == past;
    } else {
      ApplyLag(s, ops[0], past, most);
      FirstOpGrowth(s, ops, past);
      RunLag(Apply(s, ops[0]), ops[1..], past + [OpGrowth(s, ops[0])], most);
    }
  }

  lemma ReportedNearShare(snapshot: BorrowSnapshot, index: nat)
    ensures Times(index as real, Share(snapshot)) <= Reported(snapshot, index) as real + 1.0
  {
    if snapshot.principal != 0 && snapshot.interestIndex != 0 {
      DivFloors(snapshot.principal * index, snapshot.interestIndex);
      QuotientAbove(Reported(snapshot, index), snapshot.principal, index, snapshot.interestIndex);
    }
  }

  lemma {:induction false} SumAbove(m: map<Address, int>, shares: map<Address, real>, index: real)
    requires m.Keys == shares.Keys && forall a :: a in m ==> Times(index, shares[a]) <= m[a] as real + 1.0
    ensures Times(index, RealSum(shares)) <= Sum(m) as real + |m| as real
    decreases |m|
  {
    assert |m.Keys| == |shares.Keys|;
    if |m| != 0 {
      var a := Pick(m);
      RealSumSplit(shares, a);
      assert forall b :: b in m - {a} ==> b in m && (m - {a})[b] == m[b] && (shares - {a})[b] == shares[b];
      SumAbove(m - {a}, shares - {a}, index);
      OneMoreAbove(index, m[a] as real, shares[a], Sum(m - {a}) as real, |m - {a}| as real, RealSum(shares - {a}));
    }
  }

  lemma OneMoreAbove(index: real, x: real, share: real, rest: real, n: real, shares: real)
    requires Times(index, share) <= x + 1.0 && Times(index, shares) <= rest + n
    ensures Times(index, share + shares) <= x + rest + n + 1.0
  {
  }

  lemma OwedNearBalances(s: Market)
    ensures TotalOwed(s) <= Sum(Balances(s)) as real + |s.accountBorrows| as real
  {
    forall a | a in Balances(s) ensures Times(s.borrowIndex as real, Shares(s)[a]) <= Balances(s)[a] as real + 1.0 {
      ReportedNearShare(s.accountBorrows[a], s.borrowIndex);
    }
    assert Balances(s).Keys == s.accountBorrows.Keys;
    SumAbove(Balances(s), Shares(s), s.borrowIndex as real);
  }

  /**
   * The other way round the recorded total exceeds the reported balances by at most one unit for each account, and for
   * each operation one unit or the debts per unit of the index, whichever is more, compounding with what accrues.
   */
  lemma ReportedLagIsBounded(now: nat, initialExchangeRate: nat, reserveFactor: nat, maxBorrowRate: nat, ops: seq<Op>,
                             most: real)
    requires reserveFactor <= MAX_RESERVE_FACTOR && 1.0 <= most
    requires SharesWithin(Initial(now, initialExchangeRate, reserveFactor, maxBorrowRate), ops, most)
    ensures var s0 := Initial(now, initialExchangeRate, reserveFactor, maxBorrowRate);
            var s := Run(s0, ops);
            s.totalBorrows as real <= Sum(Balances(s)) as real + |s.accountBorrows| as real +
                                      Times(most, Times(|ops| as real, Product(OpGrowths(s0, ops))))
  {
    var s0 := Initial(now, initialExchangeRate, reserveFactor, maxBorrowRate);
    var gs := OpGrowths(s0, ops);
    InitialInv(now, initialExchangeRate, reserveFactor, maxBorrowRate);
    assert Shares(s0) == map[];
    RunLag(s0, ops, [], most);
    assert [] + gs == gs;
    LagIsScaled(gs, most);
    CompoundedBelowProduct(gs);
    Scale(most, Compounded(gs), Times(|ops| as real, Product(gs)));
    OwedNearBalances(Run(s0, ops));
  }

  // ------------------------------------------------------ full repayment

  /**
   * A borrower who offers everything can be turned away: the subtraction from the recorded total underflows exactly
   * when the balance has drifted above it.
   */
  lemma FullRepaymentExactly(s: Market, borrower: Address, balance: nat)
    requires BorrowBalanceStored(s, borrower) == Ok(balance) && s.cash + balance <= MAX_UINT256
    ensures RepayBorrowFresh(s, borrower, MAX_UINT256, 0).Ok? <==> balance <= s.totalBorrows
    ensures balance <= s.totalBorrows ==>
              var t := RepayBorrowFresh(s, borrower, MAX_UINT256, 0).value;
              BorrowBalanceStored(t, borrower) == Ok(0) && t.totalBorrows == s.totalBorrows - balance
  {
  }

  /** Two accruals on a debt of one unit, each earning half a unit, are enough to reach such a state. */
  lemma FullRepaymentCanRevert()
    ensures var lender, borrower, half := Address(1), Address(2), EXP_SCALE / 2;
            var ops := [Mint(lender, 10, 0), Borrow(borrower, 1), Accrue(1, half), Accrue(2, half)];
            var s := Run(Initial(0, EXP_SCALE, 0, EXP_SCALE), ops);
            RepayBorrowFresh(s, borrower, MAX_UINT256, 0) == Revert(ArithmeticPanic)
  {
    var lender, borrower, half := Address(1), Address(2), EXP_SCALE / 2;
    var s0 := Initial(0, EXP_SCALE, 0, EXP_SCALE);
    var s1 := Apply(s0, Mint(lender, 10, 0));
    assert s1.cash == 10 && s1.totalReserves == 0;
    var s2 := Apply(s1, Borrow(borrower, 1));
    assert s2.totalBorrows == 1 && Snapshot(s2, borrower) == BorrowSnapshot(1, EXP_SCALE);
    var s3 := Apply(s2, Accrue(1, half));
    assert s3.totalBorrows == 1 && s3.borrowIndex == 3 * half;
    var s4 := Apply(s3, Accrue(2, half));
    assert s4.totalBorrows == 1 && 2 * s4.borrowIndex == 9 * half;
    assert BorrowBalanceStored(s4, borrower) == Ok(2);
    RunOfFour(s0, Mint(lender, 10, 0), Borrow(borrower, 1), Accrue(1, half), Accrue(2, half));
  }

  lemma RunOfFour(s: Market, a: Op, b: Op, c: Op, d: Op)
    ensures Run(s, [a, b, c, d]) == Apply(Apply(Apply(Apply(s, a), b), c), d)
  {
    assert [a, b, c, d][1..] == [b, c, d] && [b, c, d][1..] == [c, d] && [c, d][1..] == [d];
    assert Run(s, [a, b, c, d]) == Run(Apply(Apply(s, a), b), [c, d]);
    var t := Apply(Apply(s, a), b);
    assert Run(Apply(t, c), [d]) == Apply(Apply(t, c), d);
  }
}
