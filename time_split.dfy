/** C++ integer arithmetic on `int` as both players use it to split a number of
    seconds into hours, minutes and seconds for display. C++ `/` truncates toward
    zero and `%` takes the sign of the dividend; Dafny's `/` and `%` are Euclidean,
    so the two agree only on non-negative operands and are written out here. */
module TimeSplit {

  /** C++ `a / b` for a positive divisor: the quotient truncated toward zero. */
  function TruncDiv(a: int, b: int): (q: int)
    requires b > 0
    ensures a >= 0 ==> 0 <= b * q <= a < b * q + b
    ensures a < 0 ==> b * q - b < a <= b * q <= 0
  {
    if a >= 0 then
      DivBounds(a, b);
      a / b
    else
      DivBounds(-a, b);
      -((-a) / b)
  }

  /** Euclidean division of a non-negative number: the quotient's multiple is the
      largest multiple of the divisor not above it. */
  lemma DivBounds(n: int, b: int)
    requires n >= 0 && b > 0
    ensures 0 <= b * (n / b) <= n < b * (n / b) + b
    ensures b * -(n / b) == -(b * (n / b))
  {
    var q := n / b;
    assert n == b * q + n % b;
    assert q >= 0;
  }

  /** C++ `a % b` for a positive divisor: the remainder that goes with `TruncDiv`,
      carrying the sign of `a`. */
  function TruncMod(a: int, b: int): (r: int)
    requires b > 0
    ensures a == b * TruncDiv(a, b) + r
    ensures a >= 0 ==> 0 <= r < b
    ensures a < 0 ==> -b < r <= 0
  {
    if a >= 0 then a % b else -((-a) % b)
  }

  /** Hours, minutes and seconds as the display shows them. */
  datatype Clock = Clock(h: int, m: int, s: int)

  /** The display split of a number of seconds, with C++ integer semantics: the
      hours are the total divided by 3600, the minutes are the remainder modulo
      3600 divided by 60, and the seconds are the total modulo 60. */
  function Hms(total: int): (c: Clock)
    ensures c.h * 3600 + c.m * 60 + c.s == total
    ensures total >= 0 ==> c.h >= 0 && 0 <= c.m < 60 && 0 <= c.s < 60
    ensures total < 0 ==> c.h <= 0 && -60 < c.m <= 0 && -60 < c.s <= 0
  {
    var r := TruncMod(total, 3600);
    SecondsOfRemainder(total);
    Clock(TruncDiv(total, 3600), TruncDiv(r, 60), TruncMod(total, 60))
  }

  /** The seconds field can be taken from `total` or from `total % 3600`: both
      remainders modulo 60 agree, because 3600 is a multiple of 60. */
  lemma SecondsOfRemainder(total: int)
    ensures TruncMod(TruncMod(total, 3600), 60) == TruncMod(total, 60)
  {
    var q := TruncDiv(total, 3600);
    var r := TruncMod(total, 3600);
    assert total == 60 * (60 * q) + r;
    if total >= 0 {
      assert 60 * q >= 0 && r >= 0;
      ModShift(r, 60 * q);
    } else {
      assert 60 * q <= 0 && r <= 0;
      ModShift(-r, -(60 * q));
      assert -total == 60 * (-(60 * q)) + -r;
    }
  }

  /** Adding whole minutes to a non-negative count of seconds leaves its seconds part alone. */
  lemma ModShift(r: int, k: int)
    requires r >= 0 && k >= 0
    ensures (60 * k + r) % 60 == r % 60
  {
    var q := r / 60;
    assert r == 60 * q + r % 60;
    assert 60 * k + r == 60 * (k + q) + r % 60;
  }

  /** Splitting is the inverse of composing for values already in range: the
      display of `h*3600 + m*60 + s` shows exactly `h`, `m` and `s`. */
  lemma HmsOfCompose(h: nat, m: nat, s: nat)
    requires m < 60 && s < 60
    ensures Hms(h * 3600 + m * 60 + s) == Clock(h, m, s)
  {
    var c := Hms(h * 3600 + m * 60 + s);
    DigitsUnique(c.h, c.m * 60 + c.s, h, m * 60 + s, 3600);
    DigitsUnique(c.m, c.s, m, s, 60);
  }

  /** A number has one quotient and remainder for a given base. */
  lemma DigitsUnique(q1: int, r1: int, q2: int, r2: int, b: int)
    requires b > 0 && 0 <= r1 < b && 0 <= r2 < b
    requires q1 * b + r1 == q2 * b + r2
    ensures q1 == q2 && r1 == r2
  {
    var d := q1 - q2;
    assert d * b == r2 - r1 by {
      assert d * b == q1 * b - q2 * b;
    }
    if d >= 1 {
      AtLeastOneMultiple(d, b);
    } else if d <= -1 {
      AtLeastOneMultiple(-d, b);
    }
  }

  lemma AtLeastOneMultiple(d: int, b: int)
    requires d >= 1 && b > 0
    ensures d * b >= b
  {
    assert d * b == b + (d - 1) * b;
  }

  /** The minutes and seconds a song's duration is shown as, with C++ integer
      semantics: the duration divided by 60, and the duration modulo 60. */
  function MinSec(duration: int): (ms: (int, int))
    ensures ms.0 * 60 + ms.1 == duration
    ensures duration >= 0 ==> ms.0 >= 0 && 0 <= ms.1 < 60
    ensures duration < 0 ==> ms.0 <= 0 && -60 < ms.1 <= 0
  {
    (TruncDiv(duration, 60), TruncMod(duration, 60))
  }

  /** Minutes and seconds already in range are shown back unchanged. */
  lemma MinSecOfCompose(m: nat, s: nat)
    requires s < 60
    ensures MinSec(m * 60 + s) == (m, s)
  {
    var ms := MinSec(m * 60 + s);
    DigitsUnique(ms.0, ms.1, m, s, 60);
  }
}
