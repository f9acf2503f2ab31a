/** What the service reads from Stripe, and the two decisions it takes on a subscription record. */
module Gateway {
  import opened Prelude

  datatype Status = Active | Canceled | OtherStatus

  /** The fields of a Stripe subscription that the service reads; planAmount is None without a plan. */
  datatype Subscription = Subscription(
    status: Status, cancelAt: int, periodStart: int, periodEnd: int, planAmount: Option<int>, quantity: int)

  /** A snapshot of Stripe: asking for an id that is absent is an error. now is the clock, in Unix seconds. */
  datatype Stripe = Stripe(subscriptions: map<string, Subscription>, customers: map<string, string>, now: int)

  predicate IsCancelled(sub: Subscription, now: int) {
    (sub.cancelAt != 0 && now > sub.cancelAt) || sub.status == Canceled
  }

  /** The units a subscription allows in a period, in int64 arithmetic. */
  function Limit(planAmount: int, quantity: int, unitsPerDollar: int): int {
    var dollars := TruncDiv(planAmount, 100);
    ToInt64(ToInt64(dollars * quantity) * unitsPerDollar)
  }

  /**
   Two wrapping multiplications in a row give the exact product precisely when that product is an
   int64, whatever the first product did.
   */
  lemma LimitExact(planAmount: int, quantity: int, unitsPerDollar: int)
    ensures var exact := TruncDiv(planAmount, 100) * quantity * unitsPerDollar;
      Limit(planAmount, quantity, unitsPerDollar) == exact <==> IsInt64(exact)
  {
    var a, u := TruncDiv(planAmount, 100) * quantity, unitsPerDollar;
    var w := ToInt64(a);
    var k := (a - w) / TWO_64;
    Product(a, w, k, u);
    var r := ToInt64(w * u);
    if IsInt64(a * u) {
      var j := (w * u - r) / TWO_64;
      assert a * u - r == (k * u + j) * TWO_64;
    }
  }

  /** Whole dollars: the cents are dropped toward zero, on either side of it. */
  lemma DropsCentsTowardZero(cents: int)
    ensures var rest := cents - 100 * TruncDiv(cents, 100);
      (cents >= 0 ==> 0 <= rest < 100) && (cents <= 0 ==> -100 < rest <= 0)
  {
  }

  lemma Product(a: int, w: int, k: int, u: int)
    requires a == w + k * TWO_64
    ensures a * u == w * u + (k * u) * TWO_64
  {
    assert (k * TWO_64) * u == (k * u) * TWO_64;
  }

  /**
   The limit bills whole dollars only. The cents that are dropped are worth exactly
   (planAmount % 100) * quantity * unitsPerDollar / 100 units, always less than quantity * unitsPerDollar.
   */
  lemma LimitShortfall(planAmount: int, quantity: int, unitsPerDollar: int)
    requires planAmount >= 0 && quantity > 0 && unitsPerDollar > 0
    requires IsInt64(planAmount / 100 * quantity * unitsPerDollar)
    ensures var limit, perDollar := Limit(planAmount, quantity, unitsPerDollar), quantity * unitsPerDollar;
      var exact := planAmount * perDollar / 100;
      && limit == (planAmount / 100) * perDollar
      && exact - limit == (planAmount % 100) * perDollar / 100
      && limit <= exact < limit + perDollar
  {
    LimitExact(planAmount, quantity, unitsPerDollar);
    Associate(planAmount / 100, quantity, unitsPerDollar);
    DroppedCents(planAmount, quantity * unitsPerDollar);
  }

  lemma Associate(a: int, b: int, c: int)
    requires b > 0 && c > 0
    ensures a * b * c == a * (b * c)
    ensures b * c > 0
  {
  }

  lemma DroppedCents(cents: int, p: int)
    requires cents >= 0 && p > 0
    ensures cents * p / 100 - (cents / 100) * p == (cents % 100) * p / 100
    ensures 0 <= (cents % 100) * p / 100 < p
  {
    var d, r := cents / 100, cents % 100;
    Expand(d, r, p);
    DivHundred(d * p, r * p);
    Bound(r, p);
  }

  lemma Expand(d: int, r: int, p: int)
    ensures (100 * d + r) * p == 100 * (d * p) + r * p
  {
    assert (100 * d) * p == 100 * (d * p);
  }

  lemma DivHundred(x: int, y: int)
    ensures (100 * x + y) / 100 == x + y / 100
  {
  }

  lemma Bound(r: int, p: int)
    requires 0 <= r < 100 && p > 0
    ensures 0 <= r * p / 100 < p
  {
    assert 0 <= r * p <= 99 * p;
  }
}
