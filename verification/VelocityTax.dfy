/**
 * The order items sent to Velocity: stored tax amounts become percentages with four decimals,
 * and the question is for which items the receiver can get the stored amount back.
 */
module VelocityTax {
  import opened Prelude
  import opened Rounding

  datatype OrderItem = OrderItem(name: string, sku: string, quantity: Option<real>,
                                 sellingPrice: Option<real>, discount: Option<real>, tax: Option<real>)

  datatype ForwardItem = ForwardItem(name: string, sku: string, units: real, sellingPrice: real, discount: real, tax: real)

  function InPaise(value: Option<real>): int {
    MathRound(value.GetOr(0.0) * 100.0)
  }

  function RoundMoney(value: Option<real>): real {
    Paise(InPaise(value))
  }

  /** A missing quantity and a zero one both count as one unit. */
  function Units(item: OrderItem): real {
    if item.quantity.GetOr(0.0) == 0.0 then 1.0 else item.quantity.value
  }

  function TaxableOf(sellingPrice: real, units: real, discount: real): int {
    InPaise(Some(sellingPrice * units - discount))
  }

  function TaxablePaise(item: OrderItem): int {
    TaxableOf(RoundMoney(item.sellingPrice), Units(item), RoundMoney(item.discount))
  }

  /** The percentage in ten-thousandths of a percent. */
  function PercentTenThousandths(tax: real, taxable: real): int
    requires taxable > 0.0
  {
    MathRound(tax / taxable * 100.0 * 10000.0)
  }

  function TaxPercent(tax: real, taxable: real): real {
    if taxable > 0.0 then PercentTenThousandths(tax, taxable) as real / 10000.0 else 0.0
  }

  function BuildItem(item: OrderItem): ForwardItem {
    ForwardItem(item.name, item.sku, Units(item), RoundMoney(item.sellingPrice), RoundMoney(item.discount),
                TaxPercent(RoundMoney(item.tax), Paise(TaxablePaise(item))))
  }

  function BuildForwardOrderItems(items: seq<OrderItem>): (built: seq<ForwardItem>)
    ensures |built| == |items|
    ensures forall i | 0 <= i < |items| :: built[i] == BuildItem(items[i]) && IsPaise(built[i].discount)
  {
    if items == [] then [] else [BuildItem(items[0])] + BuildForwardOrderItems(items[1..])
  }

  /** The tax a receiver computes from the percentage: taxable x percent / 100, rounded to paise. */
  function RecoveredTaxPaise(taxable: real, percent: real): int {
    MathRound(taxable * percent / 100.0 * 100.0)
  }

  /** x / y rounded to the nearest integer, the larger on a tie. */
  function RoundRatio(x: int, y: int): (k: int)
    requires y > 0
    ensures -y <= 2 * x - 2 * (k * y) < y
  {
    var k := (2 * x + y) / (2 * y);
    assert 2 * x + y == 2 * y * k + (2 * x + y) % (2 * y);
    k
  }

  lemma ScaleUp(x: int, y: int, a: int)
    requires a > 0 && x <= y
    ensures x * a <= y * a
  {
  }

  /** Only one integer is that close. */
  lemma {:induction false} RoundRatioIs(x: int, y: int, k: int)
    requires y > 0
    ensures RoundRatio(x, y) == k <==> -y <= 2 * x - 2 * (k * y) < y
  {
    var r := RoundRatio(x, y);
    if r < k { ScaleUp(r + 1, k, y); }
    if k < r { ScaleUp(k + 1, r, y); }
  }

  /** With amounts in paise: the percentage for the tax t on a taxable amount a, and the tax back from it. */
  function Percentage(t: int, a: int): int
    requires a > 0
  {
    RoundRatio(1000000 * t, a)
  }

  function Recovered(k: int, a: int): int {
    RoundRatio(a * k, 1000000)
  }

  /** Up to 10000.00 rupees, the receiver gets every stored tax back. */
  lemma {:induction false} TaxSurvives(t: int, a: int)
    requires 0 < a <= 1000000
    ensures Recovered(Percentage(t, a), a) == t
  {
    if a == 1000000 {
      RoundRatioIs(1000000 * t, 1000000, t);
      RoundRatioIs(a * t, 1000000, t);
    } else {
      var k := Percentage(t, a);
      RoundRatioIs(a * k, 1000000, t);
    }
  }

  lemma {:induction false} PercentageGrows(s: int, t: int, a: int)
    requires a > 0 && s <= t
    ensures Percentage(s, a) <= Percentage(t, a)
  {
    var k, l := Percentage(s, a), Percentage(t, a);
    if l < k { ScaleUp(l + 1, k, a); }
  }

  /** If every tax up to n survived, the percentages of 0, 1, ..., n would all be different. */
  lemma {:induction false} SurvivingPercentagesGrow(n: nat, a: int)
    requires a > 0
    requires forall t :: 0 <= t <= n ==> Recovered(Percentage(t, a), a) == t
    ensures Percentage(n, a) >= n
  {
    if n == 0 {
      RoundRatioIs(0, a, 0);
    } else {
      SurvivingPercentagesGrow(n - 1, a);
      PercentageGrows(n - 1, n, a);
      assert Recovered(Percentage(n - 1, a), a) == n - 1;
      assert Recovered(Percentage(n, a), a) == n;
    }
  }

  /** Above 10000.00 rupees there are more taxes than percentages, so some tax is lost. */
  lemma SomeTaxIsLost(a: int)
    requires a > 1000000
    ensures exists t :: 0 <= t <= a && Recovered(Percentage(t, a), a) != t
  {
    RoundRatioIs(1000000 * a, a, 1000000);
    if forall t :: 0 <= t <= a ==> Recovered(Percentage(t, a), a) == t {
      SurvivingPercentagesGrow(a, a);
      assert false;
    }
  }

  lemma MathRoundOfRatio(x: int, y: int)
    requires y > 0
    ensures MathRound(x as real / y as real) == RoundRatio(x, y)
  {
    var k := RoundRatio(x, y);
    RatioBounds(k, x, y, k * y);
  }

  lemma {:induction false} RatioBounds(k: int, x: int, y: int, ky: int)
    requires y > 0 && ky == k * y && -y <= 2 * x - 2 * ky < y
    ensures k as real - 0.5 <= x as real / y as real < k as real + 0.5
  {
    var q := x as real / y as real;
    assert q * y as real == x as real;
    assert ky as real == k as real * y as real;
    Unscale(k as real, q, y as real, ky as real, x as real);
  }

  lemma Unscale(k: real, q: real, y: real, ky: real, qy: real)
    requires y > 0.0 && ky == k * y && qy == q * y && -y <= 2.0 * qy - 2.0 * ky < y
    ensures k - 0.5 <= q < k + 0.5
  {
    var d := 2.0 * q - 2.0 * k;
    assert d * y == 2.0 * qy - 2.0 * ky;
    assert (d - 1.0) * y < 0.0;
    assert (d + 1.0) * y >= 0.0;
  }

  /** The code's amounts in rupees are the same computation in paise. */
  lemma {:induction false} InRupees(t: int, a: int)
    requires a > 0
    ensures PercentTenThousandths(Paise(t), Paise(a)) == Percentage(t, a)
    ensures RecoveredTaxPaise(Paise(a), TaxPercent(Paise(t), Paise(a))) == Recovered(Percentage(t, a), a)
  {
    PercentInPaise(t, a);
    TaxBackInPaise(Percentage(t, a), a);
  }

  lemma {:induction false} PercentInPaise(t: int, a: int)
    requires a > 0
    ensures PercentTenThousandths(Paise(t), Paise(a)) == Percentage(t, a)
  {
    RatioInPaise(t as real, a as real);
    assert (1000000 * t) as real == 1000000.0 * t as real;
    MathRoundOfRatio(1000000 * t, a);
  }

  lemma {:induction false} TaxBackInPaise(k: int, a: int)
    ensures RecoveredTaxPaise(Paise(a), k as real / 10000.0) == Recovered(k, a)
  {
    MathRoundOfRatio(a * k, 1000000);
  }

  lemma {:induction false} RatioInPaise(t: real, a: real)
    requires a > 0.0
    ensures t / 100.0 / (a / 100.0) * 100.0 * 10000.0 == 1000000.0 * t / a
  {
    var q := t / 100.0 / (a / 100.0);
    assert q * (a / 100.0) == t / 100.0;
    assert q * a == t;
    assert 1000000.0 * t / a == 1000000.0 * q;
  }

  // ----- whole items -----

  /** An item of n units at s, less a discount of d, with tax t, all in paise */
  function StoredItem(name: string, sku: string, n: int, s: int, d: int, t: int): OrderItem {
    OrderItem(name, sku, Some(n as real), Some(Paise(s)), Some(Paise(d)), Some(Paise(t)))
  }

  /** Its taxable amount is that of its units, one at least, less the discount; and each of its figures goes into its own field. */
  lemma {:induction false} BuiltFromStored(name: string, sku: string, n: int, s: int, d: int, t: int)
    ensures var item, units := StoredItem(name, sku, n, s, d, t), if n == 0 then 1 else n;
      && TaxablePaise(item) == s * units - d
      && BuildItem(item) == ForwardItem(name, sku, units as real, Paise(s), Paise(d), TaxPercent(Paise(t), Paise(s * units - d)))
  {
    var item, units := StoredItem(name, sku, n, s, d, t), if n == 0 then 1 else n;
    assert InPaise(item.sellingPrice) == s && InPaise(item.discount) == d && InPaise(item.tax) == t && Units(item) == units as real;
    PaiseTimes(s, units);
    assert RoundMoney(item.sellingPrice) * Units(item) - RoundMoney(item.discount) == Paise(s * units - d);
    assert InPaise(Some(Paise(s * units - d))) == s * units - d;
  }

  lemma PaiseTimes(s: int, n: int)
    ensures Paise(s) * n as real == Paise(s * n)
  {
  }

  /** What is missing counts as one unit, or as nothing. */
  lemma {:induction false} BuiltFromMissing(item: OrderItem)
    ensures item.quantity.None? ==> BuildItem(item) == BuildItem(item.(quantity := Some(1.0)))
    ensures item.sellingPrice.None? ==> BuildItem(item) == BuildItem(item.(sellingPrice := Some(0.0)))
    ensures item.discount.None? ==> BuildItem(item) == BuildItem(item.(discount := Some(0.0)))
    ensures item.tax.None? ==> BuildItem(item) == BuildItem(item.(tax := Some(0.0)))
  {
    assert RoundMoney(None) == RoundMoney(Some(0.0));
  }

  /** The percentage sent is nothing on no taxable amount, and otherwise within half a ten-thousandth of 100 times tax over taxable. */
  lemma {:induction false} PercentIs(tax: real, taxable: real, ratio: real)
    requires taxable > 0.0 ==> ratio == tax / taxable
    ensures taxable <= 0.0 ==> TaxPercent(tax, taxable) == 0.0
    ensures taxable > 0.0 ==> Within(TaxPercent(tax, taxable), 100.0 * ratio, 0.00005)
  {
  }

  /** The receiver's tax for a built item is the stored tax. */
  predicate TaxComesBack(item: OrderItem) {
    RecoveredTaxPaise(Paise(TaxablePaise(item)), BuildItem(item).tax) == InPaise(item.tax)
  }

  /** Nothing is lost on a taxable amount up to 10000.00; on none at all, every tax but zero is. */
  lemma ItemTaxComesBack(item: OrderItem)
    ensures 0 < TaxablePaise(item) <= 1000000 ==> TaxComesBack(item)
    ensures TaxablePaise(item) <= 0 ==> (TaxComesBack(item) <==> InPaise(item.tax) == 0)
  {
    var a, t := TaxablePaise(item), InPaise(item.tax);
    if a > 0 {
      InRupees(t, a);
      if a <= 1000000 { TaxSurvives(t, a); }
    }
  }

  /** One unit at a rupees with tax t and no discount. */
  function PlainItem(a: int, t: int): OrderItem {
    OrderItem("", "", Some(1.0), Some(Paise(a)), None, Some(Paise(t)))
  }

  lemma {:induction false} PlainItemAmounts(a: int, t: int)
    ensures TaxablePaise(PlainItem(a, t)) == a && InPaise(PlainItem(a, t).tax) == t
  {
    var item := PlainItem(a, t);
    assert InPaise(item.sellingPrice) == a && InPaise(item.discount) == 0 && Units(item) == 1.0;
    assert RoundMoney(item.sellingPrice) * Units(item) - RoundMoney(item.discount) == Paise(a);
  }

  /** A taxable amount loses no tax of any item exactly when it is at most 10000.00. */
  lemma TaxRoundTrip(a: int)
    requires a > 0
    ensures (forall item :: TaxablePaise(item) == a ==> TaxComesBack(item)) <==> a <= 1000000
  {
    if a <= 1000000 {
      forall item | TaxablePaise(item) == a ensures TaxComesBack(item) { ItemTaxComesBack(item); }
    } else {
      SomeTaxIsLost(a);
      var t :| 0 <= t <= a && Recovered(Percentage(t, a), a) != t;
      var item := PlainItem(a, t);
      PlainItemAmounts(a, t);
      InRupees(t, a);
      assert !TaxComesBack(item);
    }
  }

  // ----- sumItemField -----

  function Total(items: seq<ForwardItem>): real {
    if items == [] then 0.0 else Total(items[..|items| - 1]) + items[|items| - 1].discount
  }

  function SumDiscounts(items: seq<ForwardItem>): real {
    RoundMoney(Some(Total(items)))
  }

  /** The last rounding of the discount total changes nothing: built discounts are already paise. */
  lemma {:induction false} DiscountTotalIsExact(items: seq<OrderItem>)
    ensures SumDiscounts(BuildForwardOrderItems(items)) == Total(BuildForwardOrderItems(items))
  {
    var built := BuildForwardOrderItems(items);
    TotalIsPaise(built);
    var n: int :| Total(built) == Paise(n);
    assert InPaise(Some(Paise(n))) == n;
  }

  lemma {:induction false} TotalIsPaise(items: seq<ForwardItem>)
    requires forall i | 0 <= i < |items| :: IsPaise(items[i].discount)
    ensures IsPaise(Total(items))
  {
    if items == [] {
      assert 0.0 == Paise(0);
    } else {
      TotalIsPaise(items[..|items| - 1]);
      var m: int, n: int :| Total(items[..|items| - 1]) == Paise(m) && items[|items| - 1].discount == Paise(n);
      assert Total(items) == Paise(m + n);
    }
  }
}
