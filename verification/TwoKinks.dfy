/**
 * The interest rate model with two kinks: a borrow rate in three linear pieces over utilization, computed with signed
 * words whose division truncates toward zero, and the supply rate it leaves after the reserve cut.
 */
module TwoKinks {
  import opened Evm
  import opened ExponentialNoError
  import L = VTokenLedger

  const MAX_INT256: int := 0x80000000_00000000_00000000_00000000_00000000_00000000_00000000_00000000 - 1

  // -------------------------------------------------- signed arithmetic

  predicate FitsInt256(x: int) {
    -MAX_INT256 - 1 <= x <= MAX_INT256
  }

  function Signed(x: int): Result<int> {
    if FitsInt256(x) then Ok(x) else Revert(ArithmeticPanic)
  }

  /** The quotient rounded toward zero. */
  function TruncDiv(a: int, b: int): (q: int)
    requires b > 0
    ensures a >= 0 ==> 0 <= q && Floors(q, a, b)
    ensures a < 0 ==> q <= 0 && Floors(-q, -a, b)
  {
    if a >= 0 then
      DivFloors(a, b);
      a / b
    else
      DivFloors(-a, b);
      -(-a / b)
  }

  lemma TruncDivMonotone(a: int, b: int, d: int)
    requires d > 0 && a <= b
    ensures TruncDiv(a, d) <= TruncDiv(b, d)
  {
    if a >= 0 {
      FloorsMonotone(TruncDiv(a, d), a, TruncDiv(b, d), b, d);
    } else if b < 0 {
      FloorsMonotone(-TruncDiv(b, d), -b, -TruncDiv(a, d), -a, d);
    }
  }

  // --------------------------------------------------------------- model

  datatype Model = Model(
    base: int, multiplier: int, kink1: int, rate1: int,
    base2: int, multiplier2: int, kink2: int, rate2: int,
    jump: int)

  /** The deployer's arguments: rates a year, which the constructor spreads over the year's slots. */
  datatype Yearly = Yearly(base: int, multiplier: int, kink1: int, multiplier2: int, base2: int, kink2: int, jump: int)

  function Construct(y: Yearly, slotsPerYear: nat): Result<Model> {
    var _ :- Require(0 < slotsPerYear <= MAX_INT256, InvalidBlocksPerYear);
    var _ :- Require(y.base >= 0 && y.base2 >= 0, NegativeValueNotAllowed);
    var _ :- Require(y.kink1 < y.kink2 && 0 < y.kink1, InvalidKink);
    var base, multiplier := TruncDiv(y.base, slotsPerYear), TruncDiv(y.multiplier, slotsPerYear);
    var base2, multiplier2 := TruncDiv(y.base2, slotsPerYear), TruncDiv(y.multiplier2, slotsPerYear);
    var rise1 :- Signed(y.kink1 * multiplier);
    var rate1 :- Signed(TruncDiv(rise1, EXP_SCALE) + base);
    var rise2 :- Signed((y.kink2 - y.kink1) * multiplier2);
    var rate2 :- Signed(TruncDiv(rise2, EXP_SCALE) + base2);
    Ok(Model(base, multiplier, y.kink1, rate1, base2, multiplier2, y.kink2, rate2, TruncDiv(y.jump, slotsPerYear)))
  }

  /** What suppliers have in the market, lent out or not. */
  function SupplyOf(cash: nat, borrows: nat, reserves: nat, badDebt: nat): Result<nat> {
    var cashPlusBorrows :- Add(cash, borrows);
    var gross :- Add(cashPlusBorrows, badDebt);
    Sub(gross, reserves)
  }

  function UtilizationRate(cash: nat, borrows: nat, reserves: nat, badDebt: nat): (r: Result<nat>)
    ensures r.Ok? ==> r.value <= EXP_SCALE
  {
    var lent :- Add(borrows, badDebt);
    if lent == 0 then Ok(0)
    else
      var supply :- SupplyOf(cash, borrows, reserves, badDebt);
      var rate :- MulDiv(lent, EXP_SCALE, supply);
      Ok(if rate > EXP_SCALE then EXP_SCALE else rate)
  }

  /**
   * The lent part of the supply, rounded down; the whole when reserves take up all the cash, nothing when none is lent.
   */
  lemma UtilizationIsLentPart(cash: nat, borrows: nat, reserves: nat, badDebt: nat, rate: nat)
    requires UtilizationRate(cash, borrows, reserves, badDebt) == Ok(rate)
    ensures var lent, supply := borrows + badDebt, cash + borrows + badDebt - reserves;
            if lent == 0 then rate == 0
            else supply > 0 && if cash <= reserves then rate == EXP_SCALE else Floors(rate, lent * EXP_SCALE, supply)
  {
    var lent, supply := borrows + badDebt, cash + borrows + badDebt - reserves;
    if lent != 0 {
      var share := MulDiv(lent, EXP_SCALE, supply).value;
      if supply <= lent {
        Grow(supply, lent, EXP_SCALE);
        FloorsAtLeast(EXP_SCALE, share, lent * EXP_SCALE, supply);
      } else if EXP_SCALE < share {
        Grow(EXP_SCALE, share, supply);
      }
    }
  }

  function MinCap(number: int): nat {
    if number > 0 then number else 0
  }

  /** The borrow rate at a utilization: below the first kink, between the kinks, or above both. */
  function BorrowRateAt(m: Model, util: nat): Result<nat> {
    if util < m.kink1 then
      var rise :- Signed(util * m.multiplier);
      var rate :- Signed(TruncDiv(rise, EXP_SCALE) + m.base);
      Ok(MinCap(rate))
    else if util < m.kink2 then
      var rise :- Signed((util - m.kink1) * m.multiplier2);
      var rate2 :- Signed(TruncDiv(rise, EXP_SCALE) + m.base2);
      var rate :- Signed(m.rate1 + rate2);
      Ok(MinCap(rate))
    else
      var rise :- Signed((util - m.kink2) * m.jump);
      var rate12 :- Signed(m.rate1 + m.rate2);
      var rate :- Signed(rate12 + TruncDiv(rise, EXP_SCALE));
      Ok(MinCap(rate))
  }

  function BorrowRate(m: Model, cash: nat, borrows: nat, reserves: nat, badDebt: nat): Result<nat> {
    var util :- UtilizationRate(cash, borrows, reserves, badDebt);
    BorrowRateAt(m, util)
  }

  function SupplyRate(m: Model, cash: nat, borrows: nat, reserves: nat, reserveFactor: nat, badDebt: nat): Result<nat> {
    var oneMinusReserveFactor :- Sub(EXP_SCALE, reserveFactor);
    var borrowRate :- BorrowRate(m, cash, borrows, reserves, badDebt);
    var rateToPool :- MulDiv(borrowRate, oneMinusReserveFactor, EXP_SCALE);
    var incomeToDistribute :- Mul(borrows, rateToPool);
    var supply :- SupplyOf(cash, borrows, reserves, badDebt);
    Div(incomeToDistribute, supply)
  }

  // ------------------------------------------------------- interest split

  /** Suppliers' interest and the reserve cut come out of the borrowers' interest, which loses only rounding. */
  lemma InterestIsSplit(m: Model, cash: nat, borrows: nat, reserves: nat, reserveFactor: nat, badDebt: nat,
                        supplyRate: nat)
    requires SupplyRate(m, cash, borrows, reserves, reserveFactor, badDebt) == Ok(supplyRate)
    ensures BorrowRate(m, cash, borrows, reserves, badDebt).Ok?
    ensures var borrowRate := BorrowRate(m, cash, borrows, reserves, badDebt).value;
            var supply := cash + borrows + badDebt - reserves;
            var paid := borrowRate * borrows * EXP_SCALE;
            var shared := supplyRate * supply * EXP_SCALE + reserveFactor * (borrowRate * borrows);
            0 < supply && shared <= paid <= shared + (supply + borrows) * EXP_SCALE
  {
    var borrowRate := BorrowRate(m, cash, borrows, reserves, badDebt).value;
    var rateToPool := MulDiv(borrowRate, EXP_SCALE - reserveFactor, EXP_SCALE).value;
    SplitArithmetic(borrowRate, borrows, reserveFactor, rateToPool, cash + borrows + badDebt - reserves, supplyRate);
  }

  lemma SplitArithmetic(borrowRate: nat, borrows: nat, reserveFactor: nat, rateToPool: nat, supply: nat,
                        supplyRate: nat)
    requires reserveFactor <= EXP_SCALE && Floors(rateToPool, borrowRate * (EXP_SCALE - reserveFactor), EXP_SCALE)
    requires Floors(supplyRate, borrows * rateToPool, supply)
    ensures var paid := borrowRate * borrows * EXP_SCALE;
            var shared := supplyRate * supply * EXP_SCALE + reserveFactor * (borrowRate * borrows);
            shared <= paid <= shared + (supply + borrows) * EXP_SCALE
  {
    var pool := borrowRate * (EXP_SCALE - reserveFactor);
    var distributed := borrows * rateToPool * EXP_SCALE;
    assert distributed <= borrows * pool <= distributed + borrows * EXP_SCALE by {
      Grow(rateToPool * EXP_SCALE, pool, borrows);
      Grow(pool, rateToPool * EXP_SCALE + EXP_SCALE, borrows);
    }
    assert borrows * pool == borrowRate * borrows * EXP_SCALE - reserveFactor * (borrowRate * borrows);
  }

  // --------------------------------------------------------- monotonicity

  /** Where the constructor puts the pieces, whatever their slopes. */
  predicate Pieced(m: Model) {
    && 0 <= m.base && 0 <= m.base2 && 0 < m.kink1 < m.kink2
    && m.rate1 == TruncDiv(m.kink1 * m.multiplier, EXP_SCALE) + m.base
    && m.rate2 == TruncDiv((m.kink2 - m.kink1) * m.multiplier2, EXP_SCALE) + m.base2
  }

  /** Each piece starts at least as high as the one before it ends. */
  predicate Rising(m: Model) {
    Pieced(m) && 0 <= m.multiplier && 0 <= m.multiplier2 && 0 <= m.jump
  }

  lemma ConstructedPieces(y: Yearly, slotsPerYear: nat, m: Model)
    requires Construct(y, slotsPerYear) == Ok(m)
    ensures Pieced(m) && (0 <= y.multiplier && 0 <= y.multiplier2 && 0 <= y.jump ==> Rising(m))
  {
  }

  /** What is accepted, and that each yearly figure is spread over the slots, rounded toward zero. */
  lemma ConstructsExactly(y: Yearly, slotsPerYear: nat)
    ensures var r := Construct(y, slotsPerYear);
            && (r.Ok? ==>
                  && 0 < slotsPerYear <= MAX_INT256
                  && r.value.base == TruncDiv(y.base, slotsPerYear)
                  && r.value.multiplier == TruncDiv(y.multiplier, slotsPerYear)
                  && r.value.base2 == TruncDiv(y.base2, slotsPerYear)
                  && r.value.multiplier2 == TruncDiv(y.multiplier2, slotsPerYear)
                  && r.value.jump == TruncDiv(y.jump, slotsPerYear)
                  && r.value.kink1 == y.kink1 && r.value.kink2 == y.kink2)
            && (r.Ok? || r == Revert(ArithmeticPanic) <==>
                  && 0 < slotsPerYear <= MAX_INT256 && 0 <= y.base && 0 <= y.base2 && 0 < y.kink1 < y.kink2)
  {
  }

  /**
   * The three lines without rounding, scaled by 1e18: a step of the second base rate at the first kink, none at the
   * second.
   */
  function Lines(m: Model, util: nat): int {
    if util < m.kink1 then m.base * EXP_SCALE + util * m.multiplier
    else if util < m.kink2 then
      (m.base + m.base2) * EXP_SCALE + m.kink1 * m.multiplier + (util - m.kink1) * m.multiplier2
    else
      (m.base + m.base2) * EXP_SCALE + m.kink1 * m.multiplier + (m.kink2 - m.kink1) * m.multiplier2 +
          (util - m.kink2) * m.jump
  }

  function Climbed(m: Model, util: nat): int {
    if util < m.kink1 then 1 else if util < m.kink2 then 2 else 3
  }

  /**
   * Rising or falling, the borrow rate is that of the three lines where they are positive and zero elsewhere, off by
   * less than one unit for each line it followed; with no falling slope it never exceeds them.
   */
  lemma BorrowRateFollowsLines(y: Yearly, slotsPerYear: nat, m: Model, util: nat)
    requires Construct(y, slotsPerYear) == Ok(m) && BorrowRateAt(m, util).Ok?
    ensures var lines := if Lines(m, util) > 0 then Lines(m, util) else 0;
            var off := BorrowRateAt(m, util).value * EXP_SCALE - lines;
            && -Climbed(m, util) * EXP_SCALE < off < Climbed(m, util) * EXP_SCALE
            && (0 <= y.multiplier && 0 <= y.multiplier2 && 0 <= y.jump ==> off <= 0)
  {
    ConstructedPieces(y, slotsPerYear, m);
    assert BorrowRateAt(m, util).value == MinCap(Signless(m, util));
    if util < m.kink1 {
      FirstLine(m, util);
    } else if util < m.kink2 {
      SecondLine(m, util);
    } else {
      ThirdLine(m, util);
    }
  }

  /** What a climb of a whole line adds, rounded toward zero. */
  lemma Climb(run: nat, slope: int)
    ensures var off := TruncDiv(run * slope, EXP_SCALE) * EXP_SCALE - run * slope;
            0 - EXP_SCALE < off < EXP_SCALE && (0 <= slope ==> off <= 0)
  {
    if 0 <= slope { assert 0 <= run * slope; }
  }

  /** The rate before it is cut off at zero. */
  function Signless(m: Model, util: nat): int {
    if util < m.kink1 then TruncDiv(util * m.multiplier, EXP_SCALE) + m.base
    else if util < m.kink2 then m.rate1 + (TruncDiv((util - m.kink1) * m.multiplier2, EXP_SCALE) + m.base2)
    else m.rate1 + m.rate2 + TruncDiv((util - m.kink2) * m.jump, EXP_SCALE)
  }

  ghost predicate Near(m: Model, util: nat) {
    var off := Signless(m, util) * EXP_SCALE - Lines(m, util);
    && -Climbed(m, util) * EXP_SCALE < off < Climbed(m, util) * EXP_SCALE
    && (0 <= m.multiplier && 0 <= m.multiplier2 && 0 <= m.jump ==> off <= 0)
  }

  lemma FirstLine(m: Model, util: nat)
    requires Pieced(m) && util < m.kink1
    ensures Near(m, util)
  {
    Climb(util, m.multiplier);
  }

  lemma SecondLine(m: Model, util: nat)
    requires Pieced(m) && m.kink1 <= util < m.kink2
    ensures Near(m, util)
  {
    Climb(m.kink1, m.multiplier);
    Climb(util - m.kink1, m.multiplier2);
  }

  lemma ThirdLine(m: Model, util: nat)
    requires Pieced(m) && m.kink2 <= util
    ensures Near(m, util)
  {
    Climb(m.kink1, m.multiplier);
    Climb(m.kink2 - m.kink1, m.multiplier2);
    Climb(util - m.kink2, m.jump);
  }

  /** What a piece adds grows with utilization and is never negative. */
  lemma PieceRises(from: nat, to: nat, slope: int)
    requires from <= to && 0 <= slope
    ensures 0 <= TruncDiv(from * slope, EXP_SCALE) <= TruncDiv(to * slope, EXP_SCALE)
  {
    Grow(from, to, slope);
    assert 0 <= from * slope;
    TruncDivMonotone(from * slope, to * slope, EXP_SCALE);
  }

  /** The rate charged at a utilization, were words unbounded. */
  function Charged(m: Model, util: nat): nat {
    MinCap(Signless(m, util))
  }

  lemma WithinOnePiece(m: Model, u: nat, v: nat)
    requires Rising(m) && u <= v
    requires v < m.kink1 || (m.kink1 <= u && v < m.kink2) || m.kink2 <= u
    ensures Charged(m, u) <= Charged(m, v)
  {
    if v < m.kink1 {
      PieceRises(u, v, m.multiplier);
    } else if v < m.kink2 {
      PieceRises(u - m.kink1, v - m.kink1, m.multiplier2);
    } else {
      PieceRises(u - m.kink2, v - m.kink2, m.jump);
    }
  }

  /** The first piece ends below the first kink's rate, which the other two start from. */
  lemma AcrossFirstKink(m: Model, u: nat, v: nat)
    requires Rising(m) && u < m.kink1 <= v
    ensures Charged(m, u) <= Charged(m, v)
  {
    PieceRises(u, m.kink1, m.multiplier);
    if v < m.kink2 {
      PieceRises(0, v - m.kink1, m.multiplier2);
    } else {
      PieceRises(0, m.kink2 - m.kink1, m.multiplier2);
      PieceRises(0, v - m.kink2, m.jump);
    }
  }

  lemma AcrossSecondKink(m: Model, u: nat, v: nat)
    requires Rising(m) && m.kink1 <= u < m.kink2 <= v
    ensures Charged(m, u) <= Charged(m, v)
  {
    PieceRises(0, m.kink1, m.multiplier);
    PieceRises(u - m.kink1, m.kink2 - m.kink1, m.multiplier2);
    PieceRises(0, v - m.kink2, m.jump);
  }

  /** With no falling slope, more utilization never means a lower borrow rate, kinks and truncation included. */
  lemma BorrowRateRises(y: Yearly, slotsPerYear: nat, m: Model, u: nat, v: nat)
    requires Construct(y, slotsPerYear) == Ok(m) && 0 <= y.multiplier && 0 <= y.multiplier2 && 0 <= y.jump
    requires u <= v
    ensures Charged(m, u) <= Charged(m, v)
    ensures BorrowRateAt(m, u).Ok? && BorrowRateAt(m, v).Ok? ==> BorrowRateAt(m, u).value <= BorrowRateAt(m, v).value
  {
    ConstructedPieces(y, slotsPerYear, m);
    if u < m.kink1 <= v {
      AcrossFirstKink(m, u, v);
    } else if u < m.kink2 <= v {
      AcrossSecondKink(m, u, v);
    } else {
      WithinOnePiece(m, u, v);
    }
  }

  // ---------------------------------------------- monotone models, exactly

  /** The last utilization before a kink; none is above one. */
  function LastBefore(kink: int): nat
    requires 0 < kink
  {
    if kink <= EXP_SCALE then kink - 1 else EXP_SCALE
  }

  /** No piece ends lower than it starts, and none starts lower than the one before it ends. */
  predicate EndsRise(m: Model)
    requires Pieced(m)
  {
    && Charged(m, 0) <= Charged(m, LastBefore(m.kink1))
    && (m.kink1 <= EXP_SCALE ==>
          Charged(m, m.kink1 - 1) <= Charged(m, m.kink1) <= Charged(m, LastBefore(m.kink2)))
    && (m.kink2 <= EXP_SCALE ==> Charged(m, m.kink2 - 1) <= Charged(m, m.kink2) <= Charged(m, EXP_SCALE))
  }

  ghost predicate Monotone(m: Model) {
    forall u, v :: 0 <= u <= v <= EXP_SCALE ==> Charged(m, u) <= Charged(m, v)
  }

  /** What a piece adds goes one way, truncated or not. */
  lemma OneWay(from: nat, to: nat, slope: int)
    requires from <= to
    ensures if 0 <= slope then TruncDiv(from * slope, EXP_SCALE) <= TruncDiv(to * slope, EXP_SCALE)
            else TruncDiv(to * slope, EXP_SCALE) <= TruncDiv(from * slope, EXP_SCALE)
  {
    if 0 <= slope {
      PieceRises(from, to, slope);
    } else {
      Grow(from, to, -slope);
      TruncDivMonotone(to * slope, from * slope, EXP_SCALE);
    }
  }

  predicate InOnePiece(m: Model, u: nat, v: nat) {
    u <= v && (v < m.kink1 || (m.kink1 <= u && v < m.kink2) || m.kink2 <= u)
  }

  lemma PieceIsOneWay(m: Model, u: nat, v: nat, w: nat)
    requires Pieced(m) && u <= v <= w && InOnePiece(m, u, w)
    ensures (Charged(m, u) <= Charged(m, v) <= Charged(m, w)) || (Charged(m, u) >= Charged(m, v) >= Charged(m, w))
  {
    if w < m.kink1 {
      OneWay(u, v, m.multiplier);
      OneWay(v, w, m.multiplier);
    } else if w < m.kink2 {
      OneWay(u - m.kink1, v - m.kink1, m.multiplier2);
      OneWay(v - m.kink1, w - m.kink1, m.multiplier2);
    } else {
      OneWay(u - m.kink2, v - m.kink2, m.jump);
      OneWay(v - m.kink2, w - m.kink2, m.jump);
    }
  }

  /** A piece that does not end lower than it starts rises all the way. */
  lemma PieceRisesBetween(m: Model, first: nat, u: nat, v: nat, last: nat)
    requires Pieced(m) && first <= u <= v <= last && InOnePiece(m, first, last)
    requires Charged(m, first) <= Charged(m, last)
    ensures Charged(m, first) <= Charged(m, u) <= Charged(m, v) <= Charged(m, last)
  {
    PieceIsOneWay(m, first, u, last);
    PieceIsOneWay(m, first, v, last);
    PieceIsOneWay(m, u, v, last);
  }

  /** The first and last utilization of the piece a utilization falls into. */
  function PieceStart(m: Model, util: nat): nat
    requires Pieced(m)
  {
    if util < m.kink1 then 0 else if util < m.kink2 then m.kink1 else m.kink2
  }

  function PieceEnd(m: Model, util: nat): nat
    requires Pieced(m)
  {
    if util < m.kink1 then LastBefore(m.kink1) else if util < m.kink2 then LastBefore(m.kink2) else EXP_SCALE
  }

  lemma EndsRiseSuffices(m: Model, u: nat, v: nat)
    requires Pieced(m) && EndsRise(m) && u <= v <= EXP_SCALE
    ensures Charged(m, u) <= Charged(m, v)
  {
    if PieceStart(m, u) == PieceStart(m, v) {
      PieceRisesBetween(m, PieceStart(m, u), u, v, PieceEnd(m, u));
    } else {
      PieceRisesBetween(m, PieceStart(m, u), u, u, PieceEnd(m, u));
      PieceRisesBetween(m, PieceStart(m, v), v, v, PieceEnd(m, v));
    }
  }

  /** A signed word holds what is at least minus two to the 255th and below two to the 255th. */
  lemma SignedExactly(x: int)
    ensures Signed(x) == if -(MAX_INT256 + 1) <= x < MAX_INT256 + 1 then Ok(x) else Revert(ArithmeticPanic)
  {
  }

  /** The rate can be read exactly when the climb in its piece and each partial sum fit a signed word. */
  lemma RateReadsExactly(m: Model, util: nat)
    ensures BorrowRateAt(m, util).Ok? <==>
            if util < m.kink1 then
              var climb := util * m.multiplier;
              Signed(climb).Ok? && Signed(TruncDiv(climb, EXP_SCALE) + m.base).Ok?
            else if util < m.kink2 then
              var climb := (util - m.kink1) * m.multiplier2;
              Signed(climb).Ok? && Signed(TruncDiv(climb, EXP_SCALE) + m.base2).Ok? && Signed(Signless(m, util)).Ok?
            else
              var climb := (util - m.kink2) * m.jump;
              Signed(climb).Ok? && Signed(m.rate1 + m.rate2).Ok? && Signed(Signless(m, util)).Ok?
  {
  }

  lemma ChargedIsRead(m: Model, util: nat)
    requires BorrowRateAt(m, util).Ok?
    ensures BorrowRateAt(m, util).value == Charged(m, util)
  {
  }

  lemma PiecedMonotoneExactly(m: Model)
    requires Pieced(m)
    ensures Monotone(m) <==> EndsRise(m)
  {
    if EndsRise(m) {
      forall u, v | 0 <= u <= v <= EXP_SCALE ensures Charged(m, u) <= Charged(m, v) { EndsRiseSuffices(m, u, v); }
    } else if Monotone(m) {
      MonotoneEnds(m);
    }
  }

  lemma MonotoneEnds(m: Model)
    requires Pieced(m) && Monotone(m)
    ensures EndsRise(m)
  {
    var last1, last2 := LastBefore(m.kink1), LastBefore(m.kink2);
    assert Charged(m, 0) <= Charged(m, last1);
    if m.kink1 <= EXP_SCALE { assert Charged(m, last1) <= Charged(m, m.kink1) <= Charged(m, last2); }
    if m.kink2 <= EXP_SCALE { assert Charged(m, last2) <= Charged(m, m.kink2) <= Charged(m, EXP_SCALE); }
  }

  /**
   * A model the constructor accepts charges no less for more utilization exactly when no piece ends lower than it
   * starts and no piece starts lower than the one before ended: at most six rates to compare, whatever the slopes.
   */
  lemma MonotoneExactly(y: Yearly, slotsPerYear: nat, m: Model)
    requires Construct(y, slotsPerYear) == Ok(m)
    ensures Pieced(m) && (Monotone(m) <==> EndsRise(m))
    ensures forall util: nat :: BorrowRateAt(m, util).Ok? ==> BorrowRateAt(m, util).value == Charged(m, util)
  {
    ConstructedPieces(y, slotsPerYear, m);
    PiecedMonotoneExactly(m);
    forall util: nat | BorrowRateAt(m, util).Ok? ensures BorrowRateAt(m, util).value == Charged(m, util) {
      ChargedIsRead(m, util);
    }
  }

  /** A falling slope is accepted, and then more utilization can mean a lower rate. */
  lemma FallingSlopeLowersRate()
    ensures var y := Yearly(EXP_SCALE, -(EXP_SCALE as int), EXP_SCALE, 0, 0, EXP_SCALE + 1, 0);
            && Construct(y, 1).Ok?
            && Pieced(Construct(y, 1).value) && !EndsRise(Construct(y, 1).value)
            && BorrowRateAt(Construct(y, 1).value, 0) == Ok(EXP_SCALE)
            && BorrowRateAt(Construct(y, 1).value, EXP_SCALE / 2) == Ok(EXP_SCALE / 2)
  {
  }

  // --------------------------------------------------- market operations

  /** Lending more out of the same supply never lowers utilization. */
  lemma UtilizationRises(cash: nat, borrows: nat, reserves: nat, badDebt: nat, amount: nat, u: nat, v: nat)
    requires amount <= cash
    requires UtilizationRate(cash, borrows, reserves, badDebt) == Ok(u)
    requires UtilizationRate(cash - amount, borrows + amount, reserves, badDebt) == Ok(v)
    ensures u <= v
  {
    if borrows + badDebt > 0 {
      var supply := cash + borrows + badDebt - reserves;
      var before := MulDiv(borrows + badDebt, EXP_SCALE, supply).value;
      var after := MulDiv(borrows + amount + badDebt, EXP_SCALE, supply).value;
      FloorsMonotone(before, (borrows + badDebt) * EXP_SCALE, after, (borrows + amount + badDebt) * EXP_SCALE, supply);
    }
  }

  function MarketBorrowRate(m: Model, s: L.Market): Result<nat> {
    BorrowRate(m, s.cash, s.totalBorrows, s.totalReserves, s.badDebt)
  }

  /** More lent out of the same supply, at a monotone model. */
  lemma MoreLentRaisesRate(m: Model, s: L.Market, t: L.Market)
    requires Pieced(m) && EndsRise(m)
    requires t.cash <= s.cash && t.cash + t.totalBorrows == s.cash + s.totalBorrows
    requires t.totalReserves == s.totalReserves && t.badDebt == s.badDebt
    requires MarketBorrowRate(m, s).Ok? && MarketBorrowRate(m, t).Ok?
    ensures MarketBorrowRate(m, s).value <= MarketBorrowRate(m, t).value
  {
    var u := UtilizationRate(s.cash, s.totalBorrows, s.totalReserves, s.badDebt).value;
    var v := UtilizationRate(t.cash, t.totalBorrows, t.totalReserves, t.badDebt).value;
    UtilizationRises(s.cash, s.totalBorrows, s.totalReserves, s.badDebt, s.cash - t.cash, u, v);
    ChargedIsRead(m, u);
    ChargedIsRead(m, v);
    EndsRiseSuffices(m, u, v);
  }

  /** What a borrow or a repayment moves between cash and loans. */
  lemma CashMeetsLoans(s: L.Market, op: L.Op, t: L.Market)
    requires (op.Borrow? || op.RepayBorrow?) && L.Step(s, op) == Ok(t)
    ensures t.cash + t.totalBorrows == s.cash + s.totalBorrows && t.totalReserves == s.totalReserves &&
            t.badDebt == s.badDebt
    ensures if op.Borrow? then t.cash <= s.cash else s.cash <= t.cash
  {
  }

  /** At a monotone model, borrowing never lowers the rate the next borrower pays, and repaying never raises it. */
  lemma BorrowRateFollowsLoans(y: Yearly, slotsPerYear: nat, m: Model, s: L.Market, op: L.Op, t: L.Market)
    requires Construct(y, slotsPerYear) == Ok(m) && Monotone(m)
    requires (op.Borrow? || op.RepayBorrow?) && L.Step(s, op) == Ok(t)
    requires MarketBorrowRate(m, s).Ok? && MarketBorrowRate(m, t).Ok?
    ensures op.Borrow? ==> MarketBorrowRate(m, s).value <= MarketBorrowRate(m, t).value
    ensures op.RepayBorrow? ==> MarketBorrowRate(m, t).value <= MarketBorrowRate(m, s).value
  {
    MonotoneExactly(y, slotsPerYear, m);
    CashMeetsLoans(s, op, t);
    if op.Borrow? {
      MoreLentRaisesRate(m, s, t);
    } else {
      MoreLentRaisesRate(m, t, s);
    }
  }
}
