/** The fixed choice of a worker for a key. */
module Schedule {

  const U63: nat := 0x8000_0000_0000_0000
  const U64: nat := 0x1_0000_0000_0000_0000

  /** The value of an unsigned 64-bit key once converted to a signed one. */
  function ToSigned(key: nat): int
    requires key < U64
  {
    if key < U63 then key else key - U64
  }

  /** `doSchedule(int64_t)` */
  function BySigned(key: int, threads: nat): nat
    requires threads > 0
  {
    (if key < 0 then -key else key) % threads
  }

  /** `doSchedule(uint64_t)` */
  function ByUnsigned(key: nat, threads: nat): nat
    requires threads > 0
  {
    key % threads
  }

  lemma {:induction false} ModShift(a: int, q: int, n: nat)
    requires n > 0
    ensures (a + q * n) % n == a % n
    decreases if q < 0 then -q else q
  {
    if q > 0 {
      ModShift(a, q - 1, n);
      assert a + q * n == (a + (q - 1) * n) + n;
      ModAddN(a + (q - 1) * n, n);
    } else if q < 0 {
      ModShift(a, q + 1, n);
      assert a + (q + 1) * n == (a + q * n) + n;
      ModAddN(a + q * n, n);
    }
  }

  lemma ModAddN(a: int, n: nat)
    requires n > 0
    ensures (a + n) % n == a % n
  {
    var q, r, q', r' := a / n, a % n, (a + n) / n, (a + n) % n;
    assert a == q * n + r && a + n == q' * n + r';
    var k := q + 1 - q';
    assert k * n == r' - r;
    MultipleIsFar(k, n);
    MultipleIsFar(-k, n);
  }

  lemma {:induction false} MultipleIsFar(k: int, n: nat)
    ensures k >= 1 ==> k * n >= n
    decreases k
  {
    if k > 1 {
      MultipleIsFar(k - 1, n);
      assert k * n == (k - 1) * n + n;
    }
  }

  lemma SameRemainder(a: int, b: int, n: nat)
    requires n > 0
    ensures a % n == b % n <==> (a - b) % n == 0
  {
    if a % n == b % n {
      assert a - b == (a / n - b / n) * n;
      ModShift(0, a / n - b / n, n);
    }
    if (a - b) % n == 0 {
      var q := (a - b) / n;
      assert a == b + q * n;
      ModShift(b, q, n);
    }
  }

  /** Adding a service uses the unsigned key; changing, deleting and finding it use the signed
      one.  They choose the same worker if and only if the key is below 2^63 or twice the key is
      congruent to 2^64 modulo the number of workers.  For 2^63 itself the source takes the absolute
      value of the least signed integer, which is undefined. */
  lemma SameWorkerIff(key: nat, threads: nat)
    requires key < U64 && key != U63 && threads > 0
    ensures BySigned(ToSigned(key), threads) == ByUnsigned(key, threads)
       <==> (key < U63 || (U64 - 2 * key) % threads == 0)
  {
    if key >= U63 {
      SameRemainder(U64 - key, key, threads);
    }
  }

  /** A key and a number of workers for which they differ. */
  lemma LargeKeyCanMiss()
    ensures ByUnsigned(U64 - 1, 3) == 0 && BySigned(ToSigned(U64 - 1), 3) == 1
  {
  }
}
