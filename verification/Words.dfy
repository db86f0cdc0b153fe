/** 32-bit words as JavaScript's bitwise operators see them, and their bits as sequences. */
module Words {

  const WORD_SIZE: nat := 0x1_0000_0000

  type Word = x: int | 0 <= x < 0x1_0000_0000

  function Pow2(n: nat): (p: nat)
    ensures p > 0
  {
    if n == 0 then 1 else 2 * Pow2(n - 1)
  }

  lemma {:induction false} Pow2Add(a: nat, b: nat)
    ensures Pow2(a + b) == Pow2(a) * Pow2(b)
  {
    if a > 0 {
      Pow2Add(a - 1, b);
      assert Pow2(a + b) == 2 * Pow2(a - 1 + b);
    }
  }

  lemma Pow2Is32()
    ensures Pow2(5) == 32 && Pow2(8) == 256 && Pow2(32) == WORD_SIZE
  {
    assert Pow2(8) == 256;
    Pow2Add(8, 8);
    Pow2Add(16, 16);
  }

  // ----- the operators -----

  /** x << k: the bits above the 32nd are lost. */
  function Shl(x: Word, k: nat): Word {
    (x * Pow2(k)) % WORD_SIZE
  }

  /** x >>> k */
  function Shr(x: nat, k: nat): nat {
    Quotient(x, Pow2(k));
    x / Pow2(k)
  }

  lemma Quotient(x: nat, m: nat)
    requires m > 0
    ensures x / m >= 0 && x == (x / m) * m + x % m
  {
  }

  /** The k low bits of x, as a number. */
  function Low(x: nat, k: nat): nat {
    x % Pow2(k)
  }

  /** x | y, bit by bit. */
  function Or(x: nat, y: nat): nat {
    if x == 0 && y == 0 then 0
    else 2 * Or(x / 2, y / 2) + if x % 2 == 1 || y % 2 == 1 then 1 else 0
  }

  /** x & y, bit by bit. */
  function And(x: nat, y: nat): nat {
    if x == 0 || y == 0 then 0
    else 2 * And(x / 2, y / 2) + if x % 2 == 1 && y % 2 == 1 then 1 else 0
  }

  // ----- division -----

  lemma MulAtLeast(d: int, m: int)
    requires m > 0
    ensures d >= 1 ==> d * m >= m
    ensures d <= -1 ==> d * m <= -m
  {
  }

  lemma DivUnique(q: nat, r: nat, m: nat)
    requires r < m
    ensures (q * m + r) / m == q && (q * m + r) % m == r
  {
    var x := q * m + r;
    var q2, r2 := x / m, x % m;
    assert q2 * m + r2 == q * m + r;
    assert (q2 - q) * m == r - r2;
    MulAtLeast(q2 - q, m);
  }

  lemma MulAtMost(a: nat, b: nat, c: nat)
    requires a <= b
    ensures a * c <= b * c
  {
  }

  /** Two digits, the low one below c and the high one below d. */
  lemma TwoDigits(high: nat, d: nat, low: nat, c: nat)
    requires high < d && low < c
    ensures high * c + low < d * c
  {
    MulAtMost(high, d - 1, c);
    assert (d - 1) * c == d * c - c;
  }

  lemma ThreeDigits(high: int, d: int, middle: int, c: int)
    ensures (high * d + middle) * c == high * (d * c) + middle * c
  {
    assert (high * d + middle) * c == (high * d) * c + middle * c;
    assert (high * d) * c == high * (d * c);
  }

  /** A number of three digits, the low one below c and the middle one below d. */
  lemma Digits(x: nat, high: nat, middle: nat, low: nat, c: nat, d: nat)
    requires middle < d && low < c && x == (high * d + middle) * c + low
    ensures d * c > 0 && x / (d * c) == high && x % (d * c) == middle * c + low
    ensures (middle * c + low) / c == middle && (middle * c + low) % c == low
  {
    TwoDigits(middle, d, low, c);
    ThreeDigits(high, d, middle, c);
    DivUnique(high, middle * c + low, d * c);
    DivUnique(middle, low, c);
  }

  /** Dividing by c and then by d is dividing by d * c. */
  lemma DivTwice(x: nat, c: nat, d: nat)
    requires c > 0 && d > 0
    ensures d * c > 0
    ensures (x / c) / d == x / (d * c) && (x / c) % d == (x % (d * c)) / c && (x % (d * c)) % c == x % c
  {
    var q := x / c;
    Quotient(x, c);
    Quotient(q, d);
    Digits(x, q / d, q % d, x % c, c, d);
  }

  /** Scaling a value and its modulus by c, with something below c added. */
  lemma ModScale(x: nat, m: nat, c: nat, y: nat)
    requires m > 0 && y < c
    ensures m * c > 0 && (x * c + y) % (m * c) == (x % m) * c + y
  {
    Quotient(x, m);
    Digits(x * c + y, x / m, x % m, y, c, m);
  }

  lemma {:induction false} OrZero(x: nat)
    ensures Or(x, 0) == x
  {
    if x > 0 {
      OrZero(x / 2);
    }
  }

  lemma OrDouble(h: nat, y: nat)
    ensures Or(2 * h, y) == 2 * Or(h, y / 2) + y % 2
  {
    assert (2 * h) / 2 == h && (2 * h) % 2 == 0;
  }

  /** Or with something that fits in the k low zero bits is addition. */
  lemma {:induction false} OrAdds(x: nat, y: nat, k: nat)
    requires y < Pow2(k)
    ensures Or(x * Pow2(k), y) == x * Pow2(k) + y
    decreases k
  {
    if k == 0 {
      OrZero(x);
    } else {
      var h := x * Pow2(k - 1);
      assert x * Pow2(k) == 2 * h;
      OrDouble(h, y);
      OrAdds(x, y / 2, k - 1);
    }
  }

  lemma AndDouble(x: nat, m: nat)
    requires m > 0
    ensures And(x, 2 * m - 1) == 2 * And(x / 2, m - 1) + x % 2
  {
    assert (2 * m - 1) / 2 == m - 1 && (2 * m - 1) % 2 == 1;
  }

  lemma ModDouble(x: nat, m: nat)
    requires m > 0
    ensures x % (2 * m) == 2 * ((x / 2) % m) + x % 2
  {
    DivTwice(x, 2, m);
    Quotient(x % (m * 2), 2);
  }

  /** And with k ones keeps the k low bits. */
  lemma {:induction false} AndMask(x: nat, k: nat)
    ensures And(x, Pow2(k) - 1) == x % Pow2(k)
    decreases k
  {
    if k > 0 {
      AndMask(x / 2, k - 1);
      AndDouble(x, Pow2(k - 1));
      ModDouble(x, Pow2(k - 1));
    }
  }

  // ----- bits -----

  /** The w low bits of x, most significant first. */
  function ToBits(w: nat, x: nat): (bits: seq<bool>)
    ensures |bits| == w
  {
    if w == 0 then [] else ToBits(w - 1, x / 2) + [x % 2 == 1]
  }

  function FromBits(bits: seq<bool>): (x: nat)
    ensures x < Pow2(|bits|)
  {
    if bits == [] then 0
    else 2 * FromBits(bits[..|bits| - 1]) + if bits[|bits| - 1] then 1 else 0
  }

  lemma {:induction false} FromToBits(w: nat, x: nat)
    requires x < Pow2(w)
    ensures FromBits(ToBits(w, x)) == x
  {
    if w > 0 {
      FromToBits(w - 1, x / 2);
      assert ToBits(w, x)[..w - 1] == ToBits(w - 1, x / 2);
    }
  }

  lemma {:induction false} ToFromBits(bits: seq<bool>)
    ensures ToBits(|bits|, FromBits(bits)) == bits
  {
    if bits != [] {
      ToFromBits(bits[..|bits| - 1]);
    }
  }

  /** The bits of a value, most significant first: each says whether its power of two is in the value. */
  lemma {:induction false} BitAt(w: nat, x: nat, k: nat)
    requires k < w
    ensures ToBits(w, x)[k] <==> (x / Pow2(w - 1 - k)) % 2 == 1
    decreases w
  {
    if k < w - 1 {
      BitAt(w - 1, x / 2, k);
      DivTwice(x, 2, Pow2(w - 2 - k));
      assert Pow2(w - 1 - k) == Pow2(w - 2 - k) * 2;
    }
  }

  lemma Halve(x: nat, b: nat)
    requires b > 0
    ensures Shr(x / 2, b - 1) == Shr(x, b)
    ensures Low(x / 2, b - 1) == Low(x, b) / 2 && Low(x, b) % 2 == x % 2
  {
    assert Pow2(b) == Pow2(b - 1) * 2;
    DivTwice(x, 2, Pow2(b - 1));
  }

  /** The a + b low bits of x are the a low bits of x >> b, then the b low bits of x. */
  lemma {:induction false} ToBitsSplit(a: nat, b: nat, x: nat)
    ensures ToBits(a + b, x) == ToBits(a, Shr(x, b)) + ToBits(b, Low(x, b))
  {
    if b > 0 {
      Halve(x, b);
      ToBitsSplit(a, b - 1, x / 2);
      assert a + b - 1 == a + (b - 1);
    }
  }

  /** Only the w low bits of x show in ToBits(w, x). */
  lemma ToBitsLow(w: nat, x: nat)
    ensures ToBits(w, Low(x, w)) == ToBits(w, x)
  {
    ToBitsSplit(0, w, x);
  }

  // ----- an accumulator word, of which only the low bits count -----

  /** Shifting w fresh bits into the accumulator appends them to its low bits, whatever the high bits were. */
  lemma ShiftIn(value: Word, bits: nat, w: nat, x: nat)
    requires bits + w <= 32 && x < Pow2(w)
    ensures Or(Shl(value, w), x) < WORD_SIZE
    ensures ToBits(bits + w, Or(Shl(value, w), x)) == ToBits(bits, value) + ToBits(w, x)
  {
    OrOfShift(value, w, x);
    TwoFields(Low(value, 32 - w), bits, x, w);
    ToBitsOfLow(value, bits, 32 - w);
  }

  lemma TwoFields(high: nat, bits: nat, low: nat, w: nat)
    requires low < Pow2(w)
    ensures ToBits(bits + w, high * Pow2(w) + low) == ToBits(bits, high) + ToBits(w, low)
  {
    DivUnique(high, low, Pow2(w));
    ToBitsSplit(bits, w, high * Pow2(w) + low);
  }

  lemma ToBitsOfLow(value: nat, bits: nat, n: nat)
    requires bits <= n
    ensures ToBits(bits, Low(value, n)) == ToBits(bits, value)
  {
    LowOfLow(value, bits, n);
    ToBitsLow(bits, value);
    ToBitsLow(bits, Low(value, n));
  }

  lemma OrOfShift(value: Word, w: nat, x: nat)
    requires w <= 32 && x < Pow2(w)
    ensures Or(Shl(value, w), x) == Low(value, 32 - w) * Pow2(w) + x < WORD_SIZE
  {
    var c, m := Pow2(w), Pow2(32 - w);
    Pow2Is32();
    Pow2Add(32 - w, w);
    ModScale(value, m, c, 0);
    OrAdds(value % m, x, w);
    TwoDigits(value % m, m, x, c);
  }

  lemma LowOfLow(value: nat, bits: nat, n: nat)
    requires bits <= n
    ensures Low(Low(value, n), bits) == Low(value, bits)
  {
    Pow2Add(n - bits, bits);
    DivTwice(value, Pow2(bits), Pow2(n - bits));
  }

  /** The top w of the low bits, and what remains below them. */
  lemma TakeTop(value: Word, bits: nat, w: nat)
    requires w <= bits
    ensures And(Shr(value, bits - w), Pow2(w) - 1) < Pow2(w)
    ensures ToBits(bits, value) == ToBits(w, And(Shr(value, bits - w), Pow2(w) - 1)) + ToBits(bits - w, value)
  {
    AndMask(Shr(value, bits - w), w);
    ToBitsSplit(w, bits - w, value);
    ToBitsLow(w, Shr(value, bits - w));
    ToBitsLow(bits - w, value);
  }

  /** The last group, filled up with zeros on the right. */
  lemma TakeLast(value: Word, bits: nat, w: nat)
    requires 0 < bits < w <= 32
    ensures And(Shl(value, w - bits), Pow2(w) - 1) < Pow2(w)
    ensures ToBits(w, And(Shl(value, w - bits), Pow2(w) - 1)) == ToBits(bits, value) + ToBits(w - bits, 0)
  {
    var shifted := Shl(value, w - bits);
    AndMask(shifted, w);
    ToBitsLow(w, shifted);
    OrZero(shifted);
    ShiftIn(value, bits, w - bits, 0);
  }
}
