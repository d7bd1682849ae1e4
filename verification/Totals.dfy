/**
 Checkout's arithmetic: VAT inside each line, the coupon's discount, delivery and the total. Money is whole
 pennies; percentages are whole hundredths of a percent.
 */
module Totals {
  import opened Prelude
  import Rules = ReturnRules
  import Flow = ReturnFlow
  import Back = MoneyBack

  datatype CartLine = CartLine(price: nat, salePrice: Option<nat>, quantity: nat, vatRate: nat)

  datatype DiscountType = Percent | Fixed | FreeShipping

  /** `live` is an active coupon that has not been deleted; `targetsAll` is a coupon for the whole cart. */
  datatype Coupon = Coupon(
    live: bool, startsAt: Option<int>, endsAt: Option<int>, targetsAll: bool,
    maxTotalUsage: Option<nat>, usageCount: nat, maxUsagePerUser: Option<nat>, minOrderTotal: Option<nat>,
    discountType: DiscountType, discountAmount: nat, maxDiscountValue: Option<nat>, excludeSaleItems: bool)

  datatype CouponResult = Valid(discount: nat, freeShipping: bool) | BadRequest

  const HUNDRED_PERCENT := 10000

  // ---------- what the admin service stores ----------

  /** Dto bounds give an amount of at least 0.01; the service bounds a percentage and orders the dates. */
  predicate Storable(c: Coupon) {
    && c.discountAmount >= 1
    && (c.discountType == Percent ==> c.discountAmount <= HUNDRED_PERCENT)
    && (c.startsAt.Some? && c.endsAt.Some? ==> c.startsAt.value < c.endsAt.value)
  }

  datatype CouponPatch = CouponPatch(
    discountType: Option<DiscountType>, discountAmount: Option<nat>, startsAt: Option<int>, endsAt: Option<int>,
    maxDiscountValue: Option<nat>)

  predicate AdminAccepts(discountType: DiscountType, amount: nat, startsAt: Option<int>, endsAt: Option<int>) {
    && !(discountType == Percent && amount > HUNDRED_PERCENT)
    && !(startsAt.Some? && endsAt.Some? && startsAt.value >= endsAt.value)
  }

  function Or<T>(patch: Option<T>, current: Option<T>): Option<T> { if patch.Some? then patch else current }

  /** An update is checked against the row it will leave, not against the patch alone. */
  function UpdateCoupon(current: Coupon, patch: CouponPatch): Option<Coupon> {
    if AdminAccepts(
         GetOr(patch.discountType, current.discountType), GetOr(patch.discountAmount, current.discountAmount),
         Or(patch.startsAt, current.startsAt), Or(patch.endsAt, current.endsAt))
    then Some(current.(
      discountType := GetOr(patch.discountType, current.discountType),
      discountAmount := GetOr(patch.discountAmount, current.discountAmount),
      startsAt := Or(patch.startsAt, current.startsAt), endsAt := Or(patch.endsAt, current.endsAt),
      maxDiscountValue := Or(patch.maxDiscountValue, current.maxDiscountValue)))
    else None
  }

  predicate Takes<T(==)>(patch: Option<T>, current: T, stored: T) {
    stored == match patch case Some(value) => value case None => current
  }

  predicate TakesOption<T(==)>(patch: Option<T>, current: Option<T>, stored: Option<T>) {
    stored == match patch case Some(value) => Some(value) case None => current
  }

  /** An update is accepted exactly when the row it leaves, with every field it mentions and the others as they were,
      has a percentage of at most a hundred and its dates in order. */
  lemma UpdateIff(current: Coupon, patch: CouponPatch)
    ensures UpdateCoupon(current, patch).Some? ==>
              var next := UpdateCoupon(current, patch).value;
              && next == current.(discountType := next.discountType, discountAmount := next.discountAmount,
                                  startsAt := next.startsAt, endsAt := next.endsAt,
                                  maxDiscountValue := next.maxDiscountValue)
              && Takes(patch.discountType, current.discountType, next.discountType)
              && Takes(patch.discountAmount, current.discountAmount, next.discountAmount)
              && TakesOption(patch.startsAt, current.startsAt, next.startsAt)
              && TakesOption(patch.endsAt, current.endsAt, next.endsAt)
              && TakesOption(patch.maxDiscountValue, current.maxDiscountValue, next.maxDiscountValue)
    ensures UpdateCoupon(current, patch).Some? <==>
              forall next: Coupon ::
                (&& Takes(patch.discountType, current.discountType, next.discountType)
                 && Takes(patch.discountAmount, current.discountAmount, next.discountAmount)
                 && TakesOption(patch.startsAt, current.startsAt, next.startsAt)
                 && TakesOption(patch.endsAt, current.endsAt, next.endsAt)) ==>
                  && (next.discountType == Percent ==> next.discountAmount <= 10000)
                  && (next.startsAt.Some? && next.endsAt.Some? ==> next.startsAt.value < next.endsAt.value)
  {
    var left := current.(
      discountType := GetOr(patch.discountType, current.discountType),
      discountAmount := GetOr(patch.discountAmount, current.discountAmount),
      startsAt := Or(patch.startsAt, current.startsAt), endsAt := Or(patch.endsAt, current.endsAt));
    assert Takes(patch.discountType, current.discountType, left.discountType);
  }

  /** A row stays one that create would have accepted after any series of updates, accepted or refused. */
  function UpdateAll(c: Coupon, patches: seq<CouponPatch>): Coupon
    decreases |patches|
  {
    if patches == [] then c else UpdateAll(GetOr(UpdateCoupon(c, patches[0]), c), patches[1..])
  }

  lemma {:induction false} StaysStorable(c: Coupon, patches: seq<CouponPatch>)
    requires Storable(c)
    requires forall i :: 0 <= i < |patches| && patches[i].discountAmount.Some? ==> patches[i].discountAmount.value >= 1
    ensures Storable(UpdateAll(c, patches))
    decreases |patches|
  {
    if patches != [] { StaysStorable(GetOr(UpdateCoupon(c, patches[0]), c), patches[1..]); }
  }

  // ---------- the lines ----------

  function UnitPrice(l: CartLine): nat { GetOr(l.salePrice, l.price) }

  function LineSubtotal(l: CartLine): nat { UnitPrice(l) * l.quantity }

  function Subtotal(l: CartLine): int { LineSubtotal(l) }

  /** The VAT already inside a VAT-inclusive line, to the fraction of a penny. */
  function ExactVat(l: CartLine): real {
    LineSubtotal(l) as real - LineSubtotal(l) as real / (1.0 + l.vatRate as real / HUNDRED_PERCENT as real)
  }

  function Vat(l: CartLine): int { Rules.Round(ExactVat(l)) }

  lemma PartOf(x: real, k: real)
    requires x >= 0.0 && k >= 1.0
    ensures 0.0 <= x / k <= x
  {
    assert x / k * k == x;
  }

  /** VAT is never negative, never more than the line, and nothing at a zero rate. */
  lemma VatWithinLine(l: CartLine)
    ensures 0 <= Vat(l) <= LineSubtotal(l)
    ensures l.vatRate == 0 ==> Vat(l) == 0
    ensures Vat(l) as real - 0.5 <= ExactVat(l) <= Vat(l) as real + 0.5
  {
    PartOf(LineSubtotal(l) as real, 1.0 + l.vatRate as real / HUNDRED_PERCENT as real);
    Rules.RoundClose(ExactVat(l));
  }

  /** The VAT in a line: what is left of the price, with VAT added back at the line's rate, is the price to the nearest
      penny of VAT, half a penny rounding up. */
  predicate IsVat(l: CartLine, vat: int) {
    var price := (if l.salePrice.Some? then l.salePrice.value else l.price) * l.quantity;
    -(10000 + l.vatRate) <= 2 * ((price - vat) * (10000 + l.vatRate) - price * 10000) < 10000 + l.vatRate
  }

  lemma NetPart(price: nat, rate: nat, net: real)
    requires net == price as real / (1.0 + rate as real / 10000.0)
    ensures net * (10000 + rate) as real == (price * 10000) as real
  {
    var k := 1.0 + rate as real / 10000.0;
    assert net * k == price as real;
    assert net * (k * 10000.0) == net * k * 10000.0;
  }

  lemma {:induction false} VatIsVat(l: CartLine)
    ensures IsVat(l, Vat(l))
  {
    var price, k := LineSubtotal(l), 10000 + l.vatRate;
    var net := price as real / (1.0 + l.vatRate as real / HUNDRED_PERCENT as real);
    NetPart(price, l.vatRate, net);
    Rules.RealProduct(price, k);
    assert (price as real - net) * k as real == price as real * k as real - net * k as real;
    Rules.RoundTimes(price as real - net, k, price * k - price * 10000);
    assert (price - Vat(l)) * k == price * k - Vat(l) * k;
  }

  /** And no other amount is. */
  lemma VatUnique(l: CartLine, a: int, b: int)
    requires IsVat(l, a) && IsVat(l, b)
    ensures a == b
  {
    var price, k := (if l.salePrice.Some? then l.salePrice.value else l.price) * l.quantity, 10000 + l.vatRate;
    assert (price - a) * k - (price - b) * k == (b - a) * k;
    OneMultiple(b - a, k);
  }

  lemma OneMultiple(n: int, k: int)
    requires k > 0 && -k < n * k < k
    ensures n == 0
  {}

  /** Rounding line by line, the VAT total is within half a penny per line of the exact VAT of the cart. */
  lemma {:induction false} VatTotalClose(lines: seq<CartLine>)
    ensures 0 <= Sum(lines, Vat) <= Sum(lines, Subtotal)
    ensures Sum(lines, Vat) as real - 0.5 * |lines| as real <= SumR(lines, ExactVat)
    ensures SumR(lines, ExactVat) <= Sum(lines, Vat) as real + 0.5 * |lines| as real
  {
    if lines != [] {
      VatTotalClose(lines[..|lines| - 1]);
      VatWithinLine(lines[|lines| - 1]);
    }
  }

  function Itself(x: int): int { x }

  /** A VAT for every line, each to the nearest penny. */
  predicate VatsOf(lines: seq<CartLine>, vats: seq<int>) {
    |vats| == |lines| && forall i :: 0 <= i < |lines| ==> IsVat(lines[i], vats[i])
  }

  ghost predicate IsVatTotal(lines: seq<CartLine>, total: int) {
    exists vats: seq<int> :: VatsOf(lines, vats) && Sum(vats, Itself) == total
  }

  function Vats(lines: seq<CartLine>): (r: seq<int>)
    ensures |r| == |lines| && forall i :: 0 <= i < |lines| ==> r[i] == Vat(lines[i])
  {
    if lines == [] then [] else var n := |lines| - 1; Vats(lines[..n]) + [Vat(lines[n])]
  }

  lemma {:induction false} SumOfVats(lines: seq<CartLine>)
    ensures Sum(Vats(lines), Itself) == Sum(lines, Vat)
  {
    if lines != [] {
      var n := |lines| - 1;
      SumOfVats(lines[..n]);
      SumAppend(Vats(lines[..n]), Vat(lines[n]), Itself);
    }
  }

  lemma VatTotalIsVats(lines: seq<CartLine>)
    ensures IsVatTotal(lines, Sum(lines, Vat))
  {
    forall i | 0 <= i < |lines| ensures IsVat(lines[i], Vats(lines)[i]) { VatIsVat(lines[i]); }
    SumOfVats(lines);
    assert VatsOf(lines, Vats(lines));
  }

  lemma {:induction false} VatsUnique(lines: seq<CartLine>, a: seq<int>, b: seq<int>)
    requires VatsOf(lines, a) && VatsOf(lines, b)
    ensures a == b
  {
    forall i | 0 <= i < |lines| ensures a[i] == b[i] { VatUnique(lines[i], a[i], b[i]); }
  }

  predicate AtRate(lines: seq<CartLine>, rate: nat) { forall i :: 0 <= i < |lines| ==> lines[i].vatRate == rate }

  /** Where every line has one rate, the cart's VAT is that rate's within half a penny per line. */
  lemma {:induction false} VatOfOneRate(lines: seq<CartLine>, vats: seq<int>, rate: nat)
    requires VatsOf(lines, vats) && AtRate(lines, rate)
    ensures Abs(2 * ((Sum(lines, Subtotal) - Sum(vats, Itself)) * (10000 + rate) - Sum(lines, Subtotal) * 10000))
            <= |lines| * (10000 + rate)
    decreases |lines|
  {
    if lines != [] {
      var n, k := |lines| - 1, 10000 + rate;
      assert forall i :: 0 <= i < n ==> lines[..n][i] == lines[i] && vats[..n][i] == vats[i];
      VatOfOneRate(lines[..n], vats[..n], rate);
      OneMoreLine(Sum(lines[..n], Subtotal), Sum(vats[..n], Itself), Subtotal(lines[n]), vats[n], n, k);
    }
  }

  lemma OneMoreLine(subtotal: int, vat: int, price: int, lineVat: int, n: nat, k: int)
    requires Abs(2 * ((subtotal - vat) * k - subtotal * 10000)) <= n * k
    requires Abs(2 * ((price - lineVat) * k - price * 10000)) <= k
    ensures var s, v := subtotal + price, vat + lineVat; Abs(2 * ((s - v) * k - s * 10000)) <= (n + 1) * k
  {
    assert (subtotal + price - (vat + lineVat)) * k == (subtotal - vat) * k + (price - lineVat) * k;
    assert (n + 1) * k == n * k + k;
  }

  // ---------- sale prices ----------

  /** The lines at a sale price, or those without one, in order. */
  function Lines(lines: seq<CartLine>, onSale: bool): (r: seq<CartLine>)
    ensures forall l :: l in r ==> l.salePrice.Some? == onSale
  {
    if lines == [] then []
    else
      var n := |lines| - 1;
      Lines(lines[..n], onSale) + if lines[n].salePrice.Some? == onSale then [lines[n]] else []
  }

  function AtSalePrice(l: CartLine): int { GetOr(l.salePrice, 0) * l.quantity }

  function AtFullPrice(l: CartLine): int { l.price * l.quantity }

  /** Lines on sale cost their sale price and the others their full price; a coupon that leaves out sale items applies
      to the cart as if they were not in it, and any other to the whole cart. */
  lemma {:induction false} SaleItems(c: Coupon, lines: seq<CartLine>)
    ensures Sum(lines, Subtotal) == Sum(Lines(lines, true), AtSalePrice) + Sum(Lines(lines, false), AtFullPrice)
    ensures Base(c, lines) == if c.excludeSaleItems then Sum(Lines(lines, false), AtFullPrice) else Sum(lines, Subtotal)
    ensures c.excludeSaleItems ==> Base(c, lines) == Base(c, Lines(lines, false))
    decreases |lines|
  {
    if lines != [] {
      var n := |lines| - 1;
      var l := lines[n];
      SaleItems(c, lines[..n]);
      if l.salePrice.Some? {
        SumAppend(Lines(lines[..n], true), l, AtSalePrice);
        assert Lines(lines, true) == Lines(lines[..n], true) + [l] && Lines(lines, false) == Lines(lines[..n], false);
      } else {
        SumAppend(Lines(lines[..n], false), l, AtFullPrice);
        SumAppend(Lines(lines[..n], false), l, DiscountableIn(c));
        assert Lines(lines, true) == Lines(lines[..n], true) && Lines(lines, false) == Lines(lines[..n], false) + [l];
      }
    }
  }

  // ---------- the coupon ----------

  function DiscountableIn(c: Coupon): CartLine -> int {
    (l: CartLine) => if c.excludeSaleItems && l.salePrice.Some? then 0 else LineSubtotal(l)
  }

  function Base(c: Coupon, lines: seq<CartLine>): int { Sum(lines, DiscountableIn(c)) }

  lemma BaseWithinSubtotal(c: Coupon, lines: seq<CartLine>)
    ensures 0 <= Base(c, lines) <= Sum(lines, Subtotal)
  {
    SumNonNegative(lines, DiscountableIn(c));
    SumLe(lines, lines, DiscountableIn(c), Subtotal);
  }

  predicate Usable(c: Coupon, subtotal: int, user: Option<nat>, usedByUser: nat, now: int) {
    && c.live && c.targetsAll
    && (c.startsAt.Some? ==> c.startsAt.value <= now)
    && (c.endsAt.Some? ==> now <= c.endsAt.value)
    && (c.maxTotalUsage.Some? ==> c.usageCount < c.maxTotalUsage.value)
    && (c.minOrderTotal.Some? ==> subtotal >= c.minOrderTotal.value)
    && (user.Some? && c.maxUsagePerUser.Some? ==> usedByUser < c.maxUsagePerUser.value)
  }

  /** The most a coupon takes off a base: its own amount, its cap and the base are all upper bounds, and one
      of them is reached; a percentage is reached to the nearest penny, half a penny rounding up. */
  predicate IsDiscount(c: Coupon, base: int, discount: int) {
    && 0 <= discount <= base
    && (c.maxDiscountValue.Some? ==> discount <= c.maxDiscountValue.value)
    && (c.discountType == Fixed ==> discount <= c.discountAmount)
    && (c.discountType == Percent ==> 2 * HUNDRED_PERCENT * discount <= 2 * base * c.discountAmount + HUNDRED_PERCENT)
    && (|| (c.maxDiscountValue.Some? && discount == c.maxDiscountValue.value)
        || (c.discountType == Fixed && (discount == c.discountAmount || discount == base))
        || (c.discountType == Percent
           && 2 * base * c.discountAmount < 2 * HUNDRED_PERCENT * discount + HUNDRED_PERCENT))
  }

  /** These conditions leave room for one amount only. */
  lemma DiscountUnique(c: Coupon, base: int, a: int, b: int)
    requires IsDiscount(c, base, a) && IsDiscount(c, base, b)
    ensures a == b
  {}

  function CapOf(c: Coupon, amount: int): int {
    if c.maxDiscountValue.Some? && c.maxDiscountValue.value < amount then c.maxDiscountValue.value else amount
  }

  /** A fixed amount never exceeds what it applies to; a percentage is taken to the nearest penny, half a penny rounding
      up; a cap cuts off what is beyond it. */
  lemma DiscountIs(c: Coupon, base: nat, discount: int, share: int)
    requires Storable(c) && IsDiscount(c, base, discount)
    requires c.discountType == Percent ==> -10000 < 2 * (share * 10000 - base * c.discountAmount) <= 10000
    ensures c.discountType == Fixed ==> discount == CapOf(c, if c.discountAmount < base then c.discountAmount else base)
    ensures c.discountType == Percent ==> discount == CapOf(c, share)
  {}

  /** Every reason to refuse a coupon; at its first and last instant, and for its last use, it is still good. */
  lemma RefusedIff(c: Coupon, subtotal: int, user: Option<nat>, usedByUser: nat, now: int)
    ensures !Usable(c, subtotal, user, usedByUser, now) <==>
              || !c.live || !c.targetsAll
              || (c.startsAt.Some? && now < c.startsAt.value)
              || (c.endsAt.Some? && c.endsAt.value < now)
              || (c.maxTotalUsage.Some? && c.maxTotalUsage.value <= c.usageCount)
              || (c.minOrderTotal.Some? && subtotal < c.minOrderTotal.value)
              || (user.Some? && c.maxUsagePerUser.Some? && c.maxUsagePerUser.value <= usedByUser)
  {}

  function MinR(a: real, b: real): real { if a <= b then a else b }

  lemma PercentOf(base: nat, amount: nat)
    requires amount <= HUNDRED_PERCENT
    ensures base * amount <= base * HUNDRED_PERCENT
    ensures var share := base as real * (amount as real / HUNDRED_PERCENT as real);
            share * HUNDRED_PERCENT as real == (base * amount) as real
  {}

  lemma RoundedShare(base: nat, scaled: nat, share: real)
    requires scaled <= base * HUNDRED_PERCENT && share * HUNDRED_PERCENT as real == scaled as real
    ensures 0 <= Rules.Round(share) <= base
    ensures 2 * HUNDRED_PERCENT * Rules.Round(share) <= 2 * scaled + HUNDRED_PERCENT
    ensures 2 * scaled < 2 * HUNDRED_PERCENT * Rules.Round(share) + HUNDRED_PERCENT
  {
    Rules.RoundClose(share);
  }

  /** The discount before it is capped and rounded. */
  function Uncapped(c: Coupon, base: nat): real {
    if c.discountType == Percent then base as real * (c.discountAmount as real / HUNDRED_PERCENT as real)
    else Min(c.discountAmount, base) as real
  }

  lemma CapRounds(amount: real, cap: nat)
    ensures Rules.Round(MinR(amount, cap as real)) == Min(Rules.Round(amount), cap)
  {}

  lemma {:induction false} UncappedRounds(c: Coupon, base: nat)
    requires Storable(c) && c.discountType != FreeShipping
    ensures IsDiscount(c.(maxDiscountValue := None), base, Rules.Round(Uncapped(c, base)))
  {
    if c.discountType == Percent {
      PercentOf(base, c.discountAmount);
      RoundedShare(base, base * c.discountAmount, Uncapped(c, base));
    }
  }

  lemma {:induction false} CappedRounds(c: Coupon, base: nat, uncapped: int)
    requires c.maxDiscountValue.Some? && IsDiscount(c.(maxDiscountValue := None), base, uncapped)
    ensures IsDiscount(c, base, Min(uncapped, c.maxDiscountValue.value))
  {}

  function Capped(c: Coupon, base: nat): real {
    if c.maxDiscountValue.Some? then MinR(Uncapped(c, base), c.maxDiscountValue.value as real) else Uncapped(c, base)
  }

  lemma {:induction false} DiscountRounds(c: Coupon, base: nat)
    requires Storable(c) && c.discountType != FreeShipping
    ensures IsDiscount(c, base, Rules.Round(Capped(c, base)))
  {
    UncappedRounds(c, base);
    if c.maxDiscountValue.Some? {
      CapRounds(Uncapped(c, base), c.maxDiscountValue.value);
      CappedRounds(c, base, Rules.Round(Uncapped(c, base)));
    } else {
      assert c == c.(maxDiscountValue := None);
    }
  }

  /** The discount of a usable coupon for a base, as it is computed. */
  method DiscountAmount(coupon: Coupon, base: nat) returns (discount: nat)
    requires Storable(coupon) && coupon.discountType != FreeShipping
    ensures IsDiscount(coupon, base, discount)
  {
    var amount :=
      if coupon.discountType == Percent then base as real * (coupon.discountAmount as real / HUNDRED_PERCENT as real)
      else Min(coupon.discountAmount, base) as real;
    if coupon.maxDiscountValue.Some? { amount := MinR(amount, coupon.maxDiscountValue.value as real); }
    assert amount == Capped(coupon, base);
    DiscountRounds(coupon, base);
    discount := Rules.Round(amount);
  }

  /** Validates a coupon for a cart: refused, free delivery, or the discount for the lines it applies to. */
  method ValidateCoupon(found: Option<Coupon>, lines: seq<CartLine>, user: Option<nat>, usedByUser: nat, now: int)
    returns (r: CouponResult)
    requires found.Some? ==> Storable(found.value)
    ensures r.Valid? <==> found.Some? && Usable(found.value, Sum(lines, Subtotal), user, usedByUser, now)
    ensures r.Valid? ==> r.freeShipping == (found.value.discountType == FreeShipping)
    ensures r.Valid? && r.freeShipping ==> r.discount == 0
    ensures r.Valid? && !r.freeShipping ==> IsDiscount(found.value, Base(found.value, lines), r.discount)
  {
    if found.None? || !found.value.live { return BadRequest; }
    var coupon := found.value;
    if coupon.startsAt.Some? && coupon.startsAt.value > now { return BadRequest; }
    if coupon.endsAt.Some? && coupon.endsAt.value < now { return BadRequest; }
    if !coupon.targetsAll { return BadRequest; }
    if coupon.maxTotalUsage.Some? && coupon.usageCount >= coupon.maxTotalUsage.value { return BadRequest; }
    if coupon.minOrderTotal.Some? && Sum(lines, Subtotal) < coupon.minOrderTotal.value { return BadRequest; }
    if user.Some? && coupon.maxUsagePerUser.Some? && usedByUser >= coupon.maxUsagePerUser.value { return BadRequest; }
    if coupon.discountType == FreeShipping { return Valid(0, true); }
    var base := Base(coupon, lines);
    BaseWithinSubtotal(coupon, lines);
    var discount := DiscountAmount(coupon, base);
    r := Valid(discount, false);
  }

  // ---------- the order ----------

  datatype Money = Money(
      subtotal: nat, discountTotal: nat, shippingCharge: nat, vatTotal: nat, total: int, couponLine: nat)

  datatype Priced = Ok(money: Money) | Refused

  /** Prices a cart for checkout. `quoted` is the delivery rate of the chosen method; `code` says whether the
      customer gave a coupon code, and `found` is the coupon that has it. */
  method PriceOrder(
    lines: seq<CartLine>, quoted: nat, code: bool, found: Option<Coupon>, user: Option<nat>, usedByUser: nat, now: int)
    returns (r: Priced)
    requires found.Some? ==> Storable(found.value)
    ensures r.Ok? <==>
              lines != [] && (code ==> found.Some? && Usable(found.value, Sum(lines, Subtotal), user, usedByUser, now))
    ensures r.Ok? ==> Sound(lines, r.money)
    ensures r.Ok? ==> forall rate: nat :: AtRate(lines, rate) ==>
              Abs(2 * ((r.money.subtotal - r.money.vatTotal) * (10000 + rate) - r.money.subtotal * 10000))
              <= |lines| * (10000 + rate)
    ensures r.Ok? && !code ==> r.money.discountTotal == 0 && r.money.shippingCharge == quoted
    ensures r.Ok? && code ==>
              r.money.shippingCharge == if found.value.discountType == FreeShipping then 0 else quoted
    ensures r.Ok? && code ==>
              if found.value.discountType == FreeShipping then r.money.discountTotal == 0
              else IsDiscount(found.value, Base(found.value, lines), r.money.discountTotal)
    ensures r.Ok? ==> r.money.total + r.money.couponLine == r.money.subtotal + quoted
  {
    if lines == [] { return Refused; }
    VatTotalClose(lines);
    VatTotalIsVats(lines);
    var subtotal := Sum(lines, Subtotal);
    forall rate: nat | AtRate(lines, rate)
      ensures Abs(2 * ((subtotal - Sum(lines, Vat)) * (10000 + rate) - subtotal * 10000)) <= |lines| * (10000 + rate)
    {
      var vats :| VatsOf(lines, vats) && Sum(vats, Itself) == Sum(lines, Vat);
      VatOfOneRate(lines, vats, rate);
    }
    var vatTotal := Sum(lines, Vat);
    var shippingCharge, discountTotal, couponLine := quoted, 0, 0;
    if code {
      var result := ValidateCoupon(found, lines, user, usedByUser, now);
      if result.BadRequest? { return Refused; }
      if result.freeShipping {
        couponLine, shippingCharge := shippingCharge, 0;
      } else {
        BaseWithinSubtotal(found.value, lines);
        discountTotal, couponLine := result.discount, result.discount;
      }
    }
    r := Ok(Money(
        subtotal, discountTotal, shippingCharge, vatTotal, subtotal - discountTotal + shippingCharge, couponLine));
  }

  /** What every priced order satisfies: the discount within the subtotal, the delivery charge within the
      total, and the VAT within the subtotal and the sum of the lines' VAT, each to the nearest penny. */
  ghost predicate Sound(lines: seq<CartLine>, m: Money) {
    && m.subtotal == Sum(lines, Subtotal)
    && m.discountTotal <= m.subtotal
    && m.total == m.subtotal - m.discountTotal + m.shippingCharge
    && 0 <= m.shippingCharge <= m.total
    && m.vatTotal <= m.subtotal
    && IsVatTotal(lines, m.vatTotal)
  }

  // ---------- what returns hand back ----------

  function OrderLineOf(l: CartLine, returnEligible: bool, deadline: Option<int>): Rules.OrderLine {
    Rules.OrderLine(l.quantity, LineSubtotal(l), 0, false, returnEligible, deadline)
  }

  function OrderLines(lines: seq<CartLine>, returnEligible: bool, deadline: Option<int>): (r: seq<Rules.OrderLine>)
    ensures |r| == |lines| && forall i :: 0 <= i < |lines| ==> r[i] == OrderLineOf(lines[i], returnEligible, deadline)
  {
    if lines == [] then []
    else
      var n := |lines| - 1;
      OrderLines(lines[..n], returnEligible, deadline) + [OrderLineOf(lines[n], returnEligible, deadline)]
  }

  /** An order that checkout priced is one whose full return pays back its total. */
  lemma PricedOrdersPayBack(
      lines: seq<CartLine>, m: Money, returnEligible: bool, deadline: Option<int>, captured: Option<nat>)
    requires Sound(lines, m)
    ensures Back.CheckoutTotals(Flow.Order(
              OrderLines(lines, returnEligible, deadline),
              Rules.OrderMoney(m.subtotal, m.discountTotal, m.shippingCharge), captured))
  {
    SubtotalsKept(lines, returnEligible, deadline);
  }

  lemma {:induction false} SubtotalsKept(lines: seq<CartLine>, returnEligible: bool, deadline: Option<int>)
    ensures Sum(OrderLines(lines, returnEligible, deadline), Back.LineSubtotal) == Sum(lines, Subtotal)
  {
    if lines != [] {
      var n := |lines| - 1;
      SubtotalsKept(lines[..n], returnEligible, deadline);
      SumAppend(OrderLines(lines[..n], returnEligible, deadline), OrderLineOf(lines[n], returnEligible, deadline),
          Back.LineSubtotal);
    }
  }
}
