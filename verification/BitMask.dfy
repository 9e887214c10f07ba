/** Bit masks on unsigned machine words, and why masking with a power of two less one is a remainder. */
module BitMask {
  const WORD: nat := 0x1_0000_0000_0000_0000    // 2^64: how many values a std::size_t has

  function Pow2(k: nat): (r: nat)
    ensures r > 0
  {
    if k == 0 then 1 else 2 * Pow2(k - 1)
  }

  /** Bitwise `&` of two non-negative numbers. */
  function And(x: nat, y: nat): nat {
    if x == 0 || y == 0 then 0 else 2 * And(x / 2, y / 2) + (if x % 2 == 1 && y % 2 == 1 then 1 else 0)
  }

  /** A whole number of d's is nothing, or at least one d either way. */
  lemma Multiples(e: int, d: nat)
    requires d > 0
    ensures e >= 1 ==> e * d >= d
    ensures e >= 2 ==> e * d >= 2 * d
    ensures e <= -1 ==> e * d <= -(d as int)
  {
  }

  lemma RemainderIs(x: int, q: int, d: nat, r: nat)
    requires x == q * d + r && r < d
    ensures x % d == r
  {
    var e := x / d - q;
    assert x == (x / d) * d + x % d;
    assert e * d == (x / d) * d - q * d;
    assert e * d == r - x % d;
    Multiples(e, d);
  }

  function Remainder(x: nat, d: nat): (r: nat)
    requires d > 0
    ensures r < d
  {
    x % d
  }

  /** One bit of the remainder at a time. */
  lemma HalfRemainder(x: nat, half: nat)
    requires half > 0
    ensures Remainder(x, 2 * half) == 2 * Remainder(x / 2, half) + x % 2
  {
    var q, r := (x / 2) / half, (x / 2) % half;
    assert x / 2 == q * half + r;
    assert q * (2 * half) == 2 * (q * half);
    RemainderIs(x, q, 2 * half, 2 * r + x % 2);
  }

  lemma AndOdd(x: nat, half: nat)
    requires half > 0
    ensures And(x, 2 * half - 1) == 2 * And(x / 2, half - 1) + x % 2
  {
    var mask := 2 * half - 1;
    assert mask / 2 == half - 1 && mask % 2 == 1;
  }

  lemma NothingLeft(x: nat)
    ensures And(x, 0) == 0 == Remainder(x, 1)
  {
  }

  lemma {:induction false} AndRemainder(x: nat, k: nat)
    ensures And(x, Pow2(k) - 1) == Remainder(x, Pow2(k))
  {
    if k == 0 {
      NothingLeft(x);
      Pow2Zero();
      hide And, Remainder, Pow2;
    } else {
      AndRemainder(x / 2, k - 1);
      AndOdd(x, Pow2(k - 1));
      HalfRemainder(x, Pow2(k - 1));
      Pow2Double(k);
      hide And, Remainder, Pow2;
    }
  }

  /** `x & (2^k - 1)` keeps the remainder of x by 2^k. */
  lemma AndMask(x: nat, k: nat)
    ensures And(x, Pow2(k) - 1) == x % Pow2(k)
  {
    AndRemainder(x, k);
  }

  /** Counts less than one lap of the ring apart have different remainders. */
  lemma SameSlot(a: nat, b: nat, cap: nat)
    requires cap > 0 && a <= b < a + cap && a % cap == b % cap
    ensures a == b
  {
    var q, r := a / cap, a % cap;
    assert a == q * cap + r && b == (b / cap) * cap + r;
    var e := b / cap - q;
    assert e * cap == b - a;
    Multiples(e, cap);
  }

  /** Stepping an index and masking it follows the count. */
  lemma NextSlot(n: nat, cap: nat)
    requires cap > 0
    ensures (n % cap + 1) % cap == (n + 1) % cap
  {
    var q, r := n / cap, n % cap;
    assert n == q * cap + r;
    if r + 1 < cap {
      RemainderIs(r + 1, 0, cap, r + 1);
      RemainderIs(n + 1, q, cap, r + 1);
    } else {
      NextMultiple(q, cap);
      RemainderIs(r + 1, 1, cap, 0);
      RemainderIs(n + 1, q + 1, cap, 0);
    }
  }

  lemma NextMultiple(q: nat, cap: nat)
    ensures (q + 1) * cap == q * cap + cap
  {
  }

  /** Unsigned subtraction wraps modulo 2^64; the mask undoes it because the capacity divides 2^64. */
  function SubWord(a: nat, b: nat): nat
    requires a < WORD && b < WORD
  {
    (a - b) % WORD
  }

  lemma DoubleProduct(a: nat, b: nat)
    ensures (2 * a) * b == 2 * (a * b)
  {
  }

  lemma {:induction false} Pow2Add(i: nat, j: nat)
    ensures Pow2(i + j) == Pow2(i) * Pow2(j)
  {
    if i > 0 {
      Pow2Add(i - 1, j);
      DoubleProduct(Pow2(i - 1), Pow2(j));
      Pow2Double(i);
      Pow2Double(i + j);
      hide Pow2;
      assert i - 1 + j == i + j - 1;
    } else {
      Pow2Zero();
      hide Pow2;
    }
  }

  lemma Pow2Double(k: nat)
    requires k > 0
    ensures Pow2(k) == 2 * Pow2(k - 1)
  {
  }

  lemma Pow2Zero()
    ensures Pow2(0) == 1
  {
  }

  lemma Word64()
    ensures Pow2(64) == WORD
  {
    var eight := Pow2(8);
    assert eight == 256;
    Pow2Add(8, 8);
    Pow2Add(16, 16);
    Pow2Add(32, 32);
    assert Pow2(16) == 65536;
  }

  /** How far apart two slots are, in terms of the counts behind them. */
  lemma SlotDistance(i: nat, j: nat, cap: nat)
    requires cap > 0
    ensures var t, h := i % cap, j % cap;
      (i - j) % cap == if t >= h then t - h else cap + t - h
  {
    var t, h := i % cap, j % cap;
    var a, b := i / cap, j / cap;
    assert i == a * cap + t && j == b * cap + h;
    assert (a - b) * cap == a * cap - b * cap;
    if t >= h {
      RemainderIs(i - j, a - b, cap, t - h);
    } else {
      assert (a - b - 1) * cap == (a - b) * cap - cap;
      RemainderIs(i - j, a - b - 1, cap, cap + t - h);
    }
  }

  /** Wrapping at a multiple of the capacity does not change the remainder by the capacity. */
  lemma WrappedRemainder(t: nat, h: nat, cap: nat, m: nat)
    requires WORD == cap * m && m > 0 && t < cap && h < cap && cap <= WORD
    ensures SubWord(t, h) % cap == if t >= h then t - h else cap + t - h
  {
    if t >= h {
      RemainderIs(t - h, 0, WORD, t - h);
      RemainderIs(t - h, 0, cap, t - h);
    } else {
      RemainderIs(t - h, -1, WORD, WORD + t - h);
      assert (m - 1) * cap == cap * m - cap;
      RemainderIs(WORD + t - h, m - 1, cap, cap + t - h);
    }
  }

  /** A capacity of at most 2^63 divides the number of values of a word. */
  lemma WordDivides(k: nat)
    requires k <= 63
    ensures WORD == Pow2(k) * Pow2(64 - k) && Pow2(k) <= WORD
  {
    Word64();
    Pow2Add(k, 64 - k);
    var cap, m := Pow2(k), Pow2(64 - k);
    assert cap * m >= cap;
  }

  /** The occupancy expression of the ring: `(t - h) & MASK` is the difference of the counts behind the two indices,
      modulo the capacity; so it is exact for counts less than one lap of the ring apart. */
  lemma MaskedDistance(i: nat, j: nat, k: nat)
    requires 1 <= k <= 63
    ensures Pow2(k) <= WORD
    ensures And(SubWord(i % Pow2(k), j % Pow2(k)), Pow2(k) - 1) == (i - j) % Pow2(k)
    ensures j <= i < j + Pow2(k) ==> (i - j) % Pow2(k) == i - j
  {
    WordDivides(k);
    var cap := Pow2(k);
    var t, h := Remainder(i, cap), Remainder(j, cap);
    MaskedDifference(t, h, k);
    SlotDistance(i, j, cap);
    SmallDistance(i, j, cap);
    hide And, Pow2, SubWord;
  }

  lemma SmallDistance(i: nat, j: nat, cap: nat)
    requires cap > 0
    ensures j <= i < j + cap ==> (i - j) % cap == i - j
  {
    if j <= i < j + cap {
      RemainderIs(i - j, 0, cap, i - j);
    }
  }

  lemma MaskedDifference(t: nat, h: nat, k: nat)
    requires 1 <= k <= 63 && t < Pow2(k) && h < Pow2(k) <= WORD
    ensures And(SubWord(t, h), Pow2(k) - 1) == if t >= h then t - h else Pow2(k) + t - h
  {
    WordDivides(k);
    hide And, Pow2, SubWord;
    WrappedRemainder(t, h, Pow2(k), Pow2(64 - k));
    AndMask(SubWord(t, h), k);
  }
}
