/** The arithmetic of quote lines and their totals, in minor units:
    scripts/render-quote-pdf-fixture.ts. */
module QuoteTotals {
  import opened JsText

  datatype Seed = Seed(quantityMilliunits: nat, unitPriceMinor: nat, discountBasisPoints: nat)

  datatype Line = Line(discountMinor: nat, taxableMinor: int, taxMinor: int, totalMinor: int)

  function Gross(s: Seed): nat {
    s.quantityMilliunits * s.unitPriceMinor / 1000
  }

  function TaxOf(taxable: int): int {
    TruncatedDiv(taxable * 16, 100)
  }

  function LineOf(s: Seed): Line {
    var discount := Gross(s) * s.discountBasisPoints / 10000;
    var taxable := Gross(s) - discount;
    Line(discount, taxable, TaxOf(taxable), taxable + TaxOf(taxable))
  }

  // ---- The totals, each a sum of its own ----

  function Sum(amounts: seq<int>): int {
    if amounts == [] then 0 else Sum(amounts[..|amounts| - 1]) + amounts[|amounts| - 1]
  }

  function Grosses(seeds: seq<Seed>): seq<int> {
    seq(|seeds|, i requires 0 <= i < |seeds| => Gross(seeds[i]))
  }

  function Discounts(seeds: seq<Seed>): seq<int> {
    seq(|seeds|, i requires 0 <= i < |seeds| => LineOf(seeds[i]).discountMinor)
  }

  function Taxables(seeds: seq<Seed>): seq<int> {
    seq(|seeds|, i requires 0 <= i < |seeds| => LineOf(seeds[i]).taxableMinor)
  }

  function Taxes(seeds: seq<Seed>): seq<int> {
    seq(|seeds|, i requires 0 <= i < |seeds| => LineOf(seeds[i]).taxMinor)
  }

  function LineTotals(seeds: seq<Seed>): seq<int> {
    seq(|seeds|, i requires 0 <= i < |seeds| => LineOf(seeds[i]).totalMinor)
  }

  function GrandTotal(seeds: seq<Seed>): int {
    Sum(Taxables(seeds)) + Sum(Taxes(seeds))
  }

  lemma {:induction false} SumAdds(a: seq<int>, b: seq<int>, c: seq<int>)
    requires |a| == |b| == |c| && forall i | 0 <= i < |a| :: a[i] == b[i] + c[i]
    ensures Sum(a) == Sum(b) + Sum(c)
  {
    if a != [] {
      SumAdds(a[..|a| - 1], b[..|b| - 1], c[..|c| - 1]);
    }
  }

  lemma {:induction false} SumScales(a: seq<int>, b: seq<int>, k: int)
    requires |a| == |b| && forall i | 0 <= i < |a| :: a[i] == k * b[i]
    ensures Sum(a) == k * Sum(b)
  {
    if a != [] {
      SumScales(a[..|a| - 1], b[..|b| - 1], k);
    }
  }

  lemma {:induction false} SumBetween(a: seq<int>, low: int, high: int)
    requires forall i | 0 <= i < |a| :: low <= a[i] <= high
    ensures low * |a| <= Sum(a) <= high * |a|
  {
    if a != [] {
      SumBetween(a[..|a| - 1], low, high);
    }
  }

  /** Whatever the lines, what is discounted and what is taxed add up to the subtotal, and the
      totals of the lines to the grand total. */
  lemma {:induction false} TotalsConserve(seeds: seq<Seed>)
    ensures Sum(Grosses(seeds)) - Sum(Discounts(seeds)) == Sum(Taxables(seeds))
    ensures Sum(LineTotals(seeds)) == GrandTotal(seeds)
  {
    SumAdds(Grosses(seeds), Discounts(seeds), Taxables(seeds));
    SumAdds(LineTotals(seeds), Taxables(seeds), Taxes(seeds));
  }

  // ---- Discounts of at most 100% ----

  predicate Discounted(seeds: seq<Seed>) {
    forall i | 0 <= i < |seeds| :: seeds[i].discountBasisPoints <= 10000
  }

  lemma DiscountBound(gross: nat, basisPoints: nat)
    requires basisPoints <= 10000
    ensures 0 <= gross * basisPoints / 10000 <= gross
  {
    assert gross * basisPoints <= gross * 10000;
  }

  lemma {:induction false} LineNonNegative(s: Seed)
    requires s.discountBasisPoints <= 10000
    ensures LineOf(s).taxableMinor >= 0 && LineOf(s).taxMinor >= 0 && LineOf(s).totalMinor >= 0
  {
    DiscountBound(Gross(s), s.discountBasisPoints);
  }

  // ---- What a line charges ----

  /** Every amount of a line is the exact one, floored; nothing is discounted at 0%, and nothing is
      left at 100%. */
  lemma {:induction false} LineIs(s: Seed)
    ensures 1000 * Gross(s) <= s.quantityMilliunits * s.unitPriceMinor < 1000 * Gross(s) + 1000
    ensures var discount := LineOf(s).discountMinor;
            10000 * discount <= Gross(s) * s.discountBasisPoints < 10000 * discount + 10000
    ensures LineOf(s).taxableMinor + LineOf(s).discountMinor == Gross(s)
    ensures LineOf(s).taxableMinor >= 0 ==> 0 <= Dropped(LineOf(s).taxableMinor) <= 24
    ensures LineOf(s).totalMinor == LineOf(s).taxableMinor + LineOf(s).taxMinor
    ensures s.discountBasisPoints == 0 ==> LineOf(s).taxableMinor == Gross(s)
    ensures s.discountBasisPoints == 10000 ==> LineOf(s).taxableMinor == 0
  {
    Floored(s.quantityMilliunits * s.unitPriceMinor, 1000);
    Floored(Gross(s) * s.discountBasisPoints, 10000);
    if LineOf(s).taxableMinor >= 0 {
      DroppedBound(LineOf(s).taxableMinor);
    }
  }

  lemma Floored(n: nat, unit: nat)
    requires unit > 0
    ensures unit * (n / unit) <= n < unit * (n / unit) + unit
  {
  }

  /** What is taxed is less than one minor unit away from the exact price less the exact discount,
      both floorings together. */
  lemma {:induction false} TaxableIsClose(s: Seed, exact: int)
    requires s.discountBasisPoints <= 10000
    requires exact == s.quantityMilliunits * s.unitPriceMinor * (10000 - s.discountBasisPoints)
    ensures exact - 10_000_000 < 10_000_000 * LineOf(s).taxableMinor < exact + 10_000_000
  {
    LineIs(s);
    var gross, kept, price := Gross(s), 10000 - s.discountBasisPoints, s.quantityMilliunits * s.unitPriceMinor;
    Kept(gross, s.discountBasisPoints, kept, LineOf(s).discountMinor, LineOf(s).taxableMinor);
    KeptOf(gross, price, kept);
  }

  lemma Kept(gross: nat, basisPoints: nat, kept: nat, discount: nat, taxable: int)
    requires kept == 10000 - basisPoints && taxable == gross - discount
    requires 10000 * discount <= gross * basisPoints < 10000 * discount + 10000
    ensures gross * kept <= 10000 * taxable < gross * kept + 10000
  {
    assert gross * kept + gross * basisPoints == gross * 10000;
  }

  lemma KeptOf(gross: nat, price: nat, kept: nat)
    requires 1000 * gross <= price < 1000 * gross + 1000 && kept <= 10000
    ensures price * kept - 10_000_000 <= 1000 * (gross * kept) <= price * kept
    ensures kept > 0 ==> price * kept - 10_000_000 < 1000 * (gross * kept)
  {
    var part := price - 1000 * gross;
    assert price * kept == 1000 * (gross * kept) + part * kept;
    PartKept(part, kept);
  }

  lemma PartKept(part: nat, kept: nat)
    requires part < 1000 && kept <= 10000
    ensures 0 <= part * kept <= 9_990_000
  {
    assert part * kept <= part * 10000;
  }

  /** Four times an amount, in 25ths of a minor unit, is its tax and what flooring it drops. */
  function Dropped(taxable: int): int {
    4 * taxable - 25 * TaxOf(taxable)
  }

  lemma DroppedBound(taxable: nat)
    ensures 0 <= Dropped(taxable) <= 24
  {
    assert taxable * 16 / 100 == taxable * 4 / 25;
  }

  function AllDropped(seeds: seq<Seed>): seq<int> {
    seq(|seeds|, i requires 0 <= i < |seeds| => Dropped(LineOf(seeds[i]).taxableMinor))
  }

  /** The tax floored on the total exceeds the sum of the taxes floored line by line by exactly
      the whole units among what flooring the lines dropped. */
  lemma {:induction false} TaxGapExactly(seeds: seq<Seed>)
    requires Discounted(seeds)
    ensures Sum(AllDropped(seeds)) >= 0
    ensures TaxOf(Sum(Taxables(seeds))) - Sum(Taxes(seeds)) == Sum(AllDropped(seeds)) / 25
  {
    var quadruple := seq(|seeds|, i requires 0 <= i < |seeds| => 4 * LineOf(seeds[i]).taxableMinor);
    var taxed := seq(|seeds|, i requires 0 <= i < |seeds| => 25 * LineOf(seeds[i]).taxMinor);
    SumScales(quadruple, Taxables(seeds), 4);
    SumScales(taxed, Taxes(seeds), 25);
    SumAdds(quadruple, taxed, AllDropped(seeds));
    DroppedBetween(seeds);
    DroppedBound(Sum(Taxables(seeds)));
  }

  lemma DroppedBetween(seeds: seq<Seed>)
    requires Discounted(seeds)
    ensures 0 <= Sum(AllDropped(seeds)) <= 24 * |seeds|
    ensures Sum(Taxables(seeds)) >= 0
  {
    forall i | 0 <= i < |seeds| ensures 0 <= AllDropped(seeds)[i] <= 24 && Taxables(seeds)[i] >= 0 {
      LineNonNegative(seeds[i]);
      DroppedBound(LineOf(seeds[i]).taxableMinor);
    }
    SumBetween(AllDropped(seeds), 0, 24);
    SumNonNegative(Taxables(seeds));
  }

  lemma {:induction false} SumNonNegative(a: seq<int>)
    requires forall i | 0 <= i < |a| :: a[i] >= 0
    ensures Sum(a) >= 0
  {
    if a != [] {
      SumNonNegative(a[..|a| - 1]);
    }
  }

  /** Flooring line by line never charges more tax than flooring the total, and less by at most
      24 units for every 25 lines, so by fewer units than there are lines. */
  lemma {:induction false} TaxGapBound(seeds: seq<Seed>)
    requires Discounted(seeds)
    ensures 0 <= TaxOf(Sum(Taxables(seeds))) - Sum(Taxes(seeds)) <= 24 * |seeds| / 25
    ensures seeds != [] ==> TaxOf(Sum(Taxables(seeds))) - Sum(Taxes(seeds)) <= |seeds| - 1
  {
    TaxGapExactly(seeds);
    DroppedBetween(seeds);
  }

  /** The bound is sharp for every number of lines: six minor units each reach it. */
  lemma {:induction false} TaxGapAttained(seeds: seq<Seed>)
    requires forall i | 0 <= i < |seeds| :: seeds[i] == Seed(1000, 6, 0)
    ensures TaxOf(Sum(Taxables(seeds))) - Sum(Taxes(seeds)) == 24 * |seeds| / 25
  {
    TaxGapExactly(seeds);
    assert LineOf(Seed(1000, 6, 0)).taxableMinor == 6 && Dropped(6) == 24;
    SumBetween(AllDropped(seeds), 24, 24);
  }
}
