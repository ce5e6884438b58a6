/** Exact money arithmetic (backend/opaca/domain/money.py).

    `Decimal` values are exact reals; the three quantizing functions are explicit.
    ROUND_DOWN truncates toward zero and ROUND_HALF_UP sends ties away from zero,
    so both are defined on magnitudes. */
module Money {

  const CENT := 0.01

  function Magnitude(x: real): real {
    if x < 0.0 then -x else x
  }

  predicate WholeCents(x: real) {
    (x * 100.0) == (x * 100.0).Floor as real
  }

  /** Truncation of a non-negative amount to whole cents. */
  function TruncateCents(x: real): (r: real)
    requires x >= 0.0
    ensures 0.0 <= r <= x < r + CENT
    ensures WholeCents(r)
  {
    var r := (x * 100.0).Floor as real / 100.0;
    assert r * 100.0 == (x * 100.0).Floor as real;
    r
  }

  lemma NegatedCents(x: real)
    requires WholeCents(x)
    ensures WholeCents(-x)
  {
    var k := (x * 100.0).Floor;
    assert -x * 100.0 == (-k) as real;
  }

  /** `round_budget`: rounding never increases a budget. */
  function RoundBudget(x: real): (r: real)
    ensures Magnitude(r) <= Magnitude(x) < Magnitude(r) + CENT
    ensures x >= 0.0 ==> 0.0 <= r <= x
    ensures x <= 0.0 ==> x <= r <= 0.0
    ensures WholeCents(r)
  {
    if x >= 0.0 then TruncateCents(x)
    else
      NegatedCents(TruncateCents(-x));
      -TruncateCents(-x)
  }

  /** `round_money`: nearest cent, ties away from zero. */
  function RoundMoney(x: real): (r: real)
    ensures -CENT / 2.0 < Magnitude(r) - Magnitude(x) <= CENT / 2.0
    ensures x >= 0.0 ==> r >= 0.0
    ensures x <= 0.0 ==> r <= 0.0
    ensures WholeCents(r)
  {
    if x >= 0.0 then TruncateCents(x + CENT / 2.0)
    else
      NegatedCents(TruncateCents(-x + CENT / 2.0));
      -TruncateCents(-x + CENT / 2.0)
  }

  lemma TruncateCentsMonotone(x: real, y: real)
    requires 0.0 <= x <= y
    ensures TruncateCents(x) <= TruncateCents(y)
  {
    assert (x * 100.0).Floor <= (y * 100.0).Floor;
  }

  /** A cent-exact amount survives truncation unchanged. */
  lemma TruncateCentsExact(x: real)
    requires x >= 0.0 && WholeCents(x)
    ensures TruncateCents(x) == x
  {
  }

  /** Truncation is the largest cent-exact amount not above its argument. */
  lemma TruncateCentsGreatest(x: real, c: real)
    requires x >= 0.0 && 0.0 <= c <= x && WholeCents(c)
    ensures c <= TruncateCents(x)
  {
    TruncateCentsMonotone(c, x);
    TruncateCentsExact(c);
  }

  lemma RoundMoneyNearZero(x: real)
    requires 0.0 <= x < CENT / 2.0
    ensures RoundMoney(x) == 0.0
  {
    var y := (x + CENT / 2.0) * 100.0;
    assert 0.0 <= y < 1.0;
    assert y.Floor == 0;
  }

  lemma RoundMoneyMonotone(x: real, y: real)
    requires x <= y
    ensures RoundMoney(x) <= RoundMoney(y)
  {
    if 0.0 <= x {
      TruncateCentsMonotone(x + CENT / 2.0, y + CENT / 2.0);
    } else if y < 0.0 {
      TruncateCentsMonotone(-y + CENT / 2.0, -x + CENT / 2.0);
    }
  }

  lemma ProductMonotone(a: real, b: real, p: real)
    requires a <= b && p >= 0.0
    ensures a * p <= b * p
  {
    assert (b - a) * p >= 0.0;
  }

  lemma ProductNonNegative(a: real, p: real)
    requires a >= 0.0 && p >= 0.0
    ensures a * p >= 0.0
  {
  }
}
