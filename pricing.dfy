/** The price arithmetic of purchaseCourse: the Purchase amount is the
    discounted price rounded with `toFixed(2)`, and the amount charged
    through the payment provider is `Math.floor(amount) * 100` minor units.
    Prices are exact reals here, not IEEE doubles. */
module Pricing {

  /** `x` is a whole number of cents. */
  predicate IsCents(x: real) {
    (x * 100.0).Floor as real == x * 100.0
  }

  /** A non-negative `y` rounded to cents, a tie going to the larger value. */
  function RoundCentsHalfUp(y: real): (r: real)
    requires y >= 0.0
    ensures IsCents(r) && r >= 0.0
    ensures -0.005 < r - y <= 0.005
    ensures IsCents(y) ==> r == y
  {
    var n := (y * 100.0 + 0.5).Floor;
    var r := n as real / 100.0;
    assert r * 100.0 == n as real;
    assert n as real <= y * 100.0 + 0.5 < n as real + 1.0;
    assert IsCents(y) ==> n == (y * 100.0).Floor;
    r
  }

  /** Negation keeps a whole number of cents whole. */
  lemma NegatedCents(x: real)
    ensures IsCents(x) ==> IsCents(-x)
  {
    if IsCents(x) {
      var k := (x * 100.0).Floor;
      assert (-x) * 100.0 == (-k) as real;
      assert ((-k) as real).Floor == -k;
    }
  }

  /** `Number(x.toFixed(2))`: JavaScript rounds the magnitude to the nearest
      cent, ties away from zero, and restores the sign. The result is a whole
      number of cents, at most half a cent from `x` and on an exact half cent
      the one of larger magnitude; it keeps a non-negative input non-negative
      and leaves a value already in cents alone. */
  function ToFixed2(x: real): (r: real)
    ensures IsCents(r)
    ensures -0.005 <= r - x <= 0.005
    ensures x >= 0.0 ==> -0.005 < r - x <= 0.005
    ensures x < 0.0 ==> -0.005 <= r - x < 0.005
    ensures x >= 0.0 ==> r >= 0.0
    ensures IsCents(x) ==> r == x
  {
    if x < 0.0 then
      var m := RoundCentsHalfUp(-x);
      NegatedCents(m);
      NegatedCents(x);
      -m
    else
      RoundCentsHalfUp(x)
  }

  /** `coursePrice - discount * coursePrice / 100`, before rounding. */
  function Discounted(price: real, discount: real): real {
    price - discount * price / 100.0
  }

  /** The discounted price rounded by toFixed(2). For a price in cents and a
      discount between 0 and 100 percent the amount lies between zero and the
      price; a discounted price on an exact half cent is rounded away from
      zero. */
  function PurchaseAmount(price: real, discount: real): (r: real)
    ensures IsCents(r)
    ensures -0.005 <= r - Discounted(price, discount) <= 0.005
    ensures Discounted(price, discount) >= 0.0 ==> -0.005 < r - Discounted(price, discount) <= 0.005
    ensures Discounted(price, discount) < 0.0 ==> -0.005 <= r - Discounted(price, discount) < 0.005
    ensures price >= 0.0 && 0.0 <= discount <= 100.0 ==> 0.0 <= r
    ensures price >= 0.0 && 0.0 <= discount <= 100.0 && IsCents(price) ==> r <= price
  {
    var r := ToFixed2(Discounted(price, discount));
    DiscountedWithinPrice(price, discount);
    CentsAtMost(r, price);
    r
  }

  /** A discount between 0 and 100 percent keeps a non-negative price
      between zero and itself. */
  lemma DiscountedWithinPrice(price: real, discount: real)
    ensures price >= 0.0 && 0.0 <= discount <= 100.0 ==>
      0.0 <= Discounted(price, discount) <= price
  {
    if price >= 0.0 && 0.0 <= discount <= 100.0 {
      assert discount * price >= 0.0;
      assert (100.0 - discount) * price >= 0.0;
    }
  }

  /** Two whole-cent values less than a cent apart are ordered. */
  lemma CentsAtMost(r: real, p: real)
    ensures IsCents(r) && IsCents(p) && r <= p + 0.005 ==> r <= p
  {
    if IsCents(r) && IsCents(p) && r <= p + 0.005 {
      var a, b := (r * 100.0).Floor, (p * 100.0).Floor;
      assert a as real <= b as real + 0.5;
    }
  }

  /** `Math.floor(amount) * 100`: a multiple of 100, the largest one not
      above `amount * 100`. It equals `amount * 100` exactly when the amount
      has no cents. */
  function UnitAmount(amount: real): (c: int)
    ensures c % 100 == 0
    ensures c as real <= amount * 100.0 < c as real + 100.0
    ensures c as real == amount * 100.0 <==> amount.Floor as real == amount
  {
    amount.Floor * 100
  }

  /** A course priced 100 with a 20 percent discount costs 80.00 and is
      charged 8000 minor units. */
  lemma DiscountedPriceExample()
    ensures PurchaseAmount(100.0, 20.0) == 80.0
    ensures UnitAmount(PurchaseAmount(100.0, 20.0)) == 8000
  {
    assert 100.0 - 20.0 * 100.0 / 100.0 == 80.0;
    assert IsCents(80.0);
  }

  /** The charge drops the cents of the amount: a course priced 99.99 with a
      10 percent discount has amount 89.99 but is charged 8900, not 8999. */
  lemma UnitAmountDropsCents()
    ensures PurchaseAmount(99.99, 10.0) == 89.99
    ensures UnitAmount(PurchaseAmount(99.99, 10.0)) == 8900
  {
    assert 99.99 - 10.0 * 99.99 / 100.0 == 89.991;
    assert (89.991 * 100.0 + 0.5).Floor == 8999;
    assert 89.99.Floor == 89;
  }

  /** Price 12.5 with a 1 percent discount is exactly 12.375; toFixed(2)
      rounds that tie up, so the Purchase stores 12.38 and not 12.37. */
  lemma HalfCentRoundsUpExample()
    ensures PurchaseAmount(12.5, 1.0) == 12.38
  {
    var r := PurchaseAmount(12.5, 1.0);
    assert Discounted(12.5, 1.0) == 12.375;
    assert IsCents(r) && 12.37 < r <= 12.38;
    var k := (r * 100.0).Floor;
    assert 1237.0 < k as real <= 1238.0;
  }
}
