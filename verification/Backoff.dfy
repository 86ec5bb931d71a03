/** The backoff of a pod that keeps failing: the scheduler decides on the time the request
    carries, the retry service waits for it and squares it (general_purpose_scheduler/processes.go,
    retry/main.go, coordinator/handler.go). */
module Backoff {
  const FIRST_BACKOFF := 2

  const TWO_TO_32 := 4294967296
  const TWO_TO_63 := 9223372036854775808
  const TWO_TO_64 := 18446744073709551616

  /** Go's int arithmetic on a 64-bit machine. */
  function Wrap64(x: int): (r: int)
    ensures -TWO_TO_63 <= r < TWO_TO_63 && (r - x) % TWO_TO_64 == 0
  {
    (x + TWO_TO_63) % TWO_TO_64 - TWO_TO_63
  }

  /** The time carried by attempt number k, counted from 0. */
  function Carried(k: nat): int {
    if k == 0 then FIRST_BACKOFF else Wrap64(Carried(k - 1) * Carried(k - 1))
  }

  /** The time waited before attempt number k. */
  function Waited(k: nat): int {
    if k == 0 then 0 else Waited(k - 1) + Carried(k - 1)
  }

  /** Attempt number k, when it fails, is the last one. */
  predicate GivenUpAt(max: int, k: nat) {
    Carried(k) > max && forall j :: 0 <= j < k ==> Carried(j) <= max
  }

  datatype Verdict = Retrying | GivenUp(attempt: nat, waited: int)

  /** The path of a request whose pod fails at every one of up to `limit` attempts. */
  method KeepFailing(max: int, limit: nat) returns (v: Verdict)
    ensures v.Retrying? ==> forall k :: 0 <= k < limit ==> Carried(k) <= max
    ensures v.GivenUp? ==> v.attempt < limit && GivenUpAt(max, v.attempt) && v.waited == Waited(v.attempt)
  {
    var nextBackOffTime, waited := FIRST_BACKOFF, 0;
    for k := 0 to limit
      invariant nextBackOffTime == Carried(k) && waited == Waited(k)
      invariant forall j :: 0 <= j < k ==> Carried(j) <= max
    {
      if nextBackOffTime > max {
        return GivenUp(k, waited);
      }
      waited := waited + nextBackOffTime;
      nextBackOffTime := Wrap64(nextBackOffTime * nextBackOffTime);
    }
    v := Retrying;
  }

  // ---- the values ----

  function Pow2(n: nat): nat { if n == 0 then 1 else 2 * Pow2(n - 1) }

  lemma {:induction false} Pow2Adds(a: nat, b: nat)
    ensures Pow2(a + b) == Pow2(a) * Pow2(b)
  {
    if b > 0 {
      Pow2Adds(a, b - 1);
      assert Pow2(a) * (2 * Pow2(b - 1)) == 2 * (Pow2(a) * Pow2(b - 1));
    }
  }

  lemma {:induction false} Pow2Grows(a: nat, b: nat)
    requires a <= b
    ensures Pow2(a) <= Pow2(b)
  {
    if a < b {
      Pow2Grows(a, b - 1);
    }
  }

  lemma Pow2Sixteen()
    ensures Pow2(16) == 65536 && Pow2(32) == TWO_TO_32
  {
    assert Pow2(4) == 16;
    Pow2Adds(4, 4);
    Pow2Adds(8, 8);
    Pow2Adds(16, 16);
  }

  lemma SmallSquare(x: int)
    requires 0 <= x < TWO_TO_63
    ensures Wrap64(x) == x
  {
  }

  /** Up to attempt 5 the squares do not wrap: attempt k carries 2^(2^k). */
  lemma {:induction false} CarriedIsTower(k: nat)
    requires k <= 5
    ensures Carried(k) == Pow2(Pow2(k))
  {
    if k > 0 {
      CarriedIsTower(k - 1);
      Pow2Adds(Pow2(k - 1), Pow2(k - 1));
      Pow2Sixteen();
      Pow2Grows(k, 5);
      assert Pow2(5) == 32;
      Pow2Grows(Pow2(k), 32);
      SmallSquare(Pow2(Pow2(k)));
    }
  }

  lemma CarriedFive()
    ensures Carried(5) == TWO_TO_32
  {
    CarriedIsTower(5);
    Pow2Sixteen();
    assert Pow2(5) == 32;
  }

  /** From attempt 6 on the square has wrapped to zero. */
  lemma {:induction false} CarriedVanishes(k: nat)
    requires k >= 6
    ensures Carried(k) == 0
  {
    if k == 6 {
      CarriedFive();
      WrapsToZero();
    } else {
      CarriedVanishes(k - 1);
    }
  }

  lemma WrapsToZero()
    ensures Wrap64(TWO_TO_32 * TWO_TO_32) == 0
  {
    assert TWO_TO_32 * TWO_TO_32 == TWO_TO_64;
  }

  /** Attempt k carries 2^(2^k) exactly until that leaves 64 bits. */
  lemma TowerIff(k: nat)
    ensures Carried(k) == Pow2(Pow2(k)) <==> k <= 5
  {
    if k <= 5 {
      CarriedIsTower(k);
    } else {
      CarriedVanishes(k);
      Pow2Grows(0, Pow2(k));
    }
  }

  lemma CarriedBelow(k: nat)
    ensures 0 <= Carried(k) <= TWO_TO_32
  {
    if k <= 5 {
      CarriedIsTower(k);
      CarriedIsTower(5);
      CarriedFive();
      Pow2Grows(k, 5);
      Pow2Grows(Pow2(k), Pow2(5));
    } else {
      CarriedVanishes(k);
    }
  }

  // ---- the end of the retries ----

  lemma {:induction false} FirstOver(max: int, k: nat) returns (first: nat)
    requires Carried(k) > max
    ensures first <= k && GivenUpAt(max, first)
  {
    if j: nat :| j < k && Carried(j) > max {
      first := FirstOver(max, j);
    } else {
      first := k;
    }
  }

  /** A pod that keeps failing is given up after finitely many attempts, and then after six
      at the most, if and only if the maximum is below 2^32; otherwise it is tried forever. */
  lemma RetriesEndIff(max: int)
    ensures (exists k: nat :: GivenUpAt(max, k)) <==> max < TWO_TO_32
    ensures forall k: nat :: GivenUpAt(max, k) ==> k <= 5
  {
    if max < TWO_TO_32 {
      CarriedFive();
      var k := FirstOver(max, 5);
    }
    forall k: nat | GivenUpAt(max, k)
      ensures max < TWO_TO_32 && k <= 5
    {
      CarriedBelow(k);
      CarriedFive();
    }
  }

  /** Each wait is more than all before it together. */
  lemma {:induction false} WaitedBelow(k: nat)
    requires k <= 5
    ensures Waited(k) < Carried(k)
  {
    if k > 0 {
      WaitedBelow(k - 1);
      CarriedSquares(k);
      DoubleBelowSquare(Carried(k - 1));
    }
  }

  lemma CarriedSquares(k: nat)
    requires 0 < k <= 5
    ensures Carried(k - 1) >= 2 && Carried(k) == Carried(k - 1) * Carried(k - 1)
  {
    CarriedIsTower(k);
    CarriedIsTower(k - 1);
    var e := Pow2(k - 1);
    assert Pow2(k) == e + e;
    Pow2Adds(e, e);
    Pow2Grows(1, e);
    assert Pow2(1) == 2;
  }

  lemma DoubleBelowSquare(x: int)
    requires x >= 2
    ensures x + x <= x * x
  {
  }

  /** The sum of the first k of the times 2^(2^j). */
  function Towers(k: nat): nat { if k == 0 then 0 else Towers(k - 1) + Pow2(Pow2(k - 1)) }

  /** What a pod has waited before attempt k: 2, 4, 16 and so on, one after the other, and
      nothing more once the time has left 64 bits. */
  lemma {:induction false} WaitedIs(k: nat)
    ensures Waited(k) == Towers(if k <= 6 then k else 6)
  {
    if k > 0 {
      WaitedIs(k - 1);
      if k <= 6 {
        CarriedIsTower(k - 1);
      } else {
        CarriedVanishes(k - 1);
      }
    }
  }

  /** The waits of a pod that is given up stay below twice the maximum. */
  lemma TotalWaitBound(max: int, k: nat)
    requires max >= FIRST_BACKOFF && GivenUpAt(max, k)
    ensures Waited(k) < 2 * max
  {
    RetriesEndIff(max);
    if k > 0 {
      WaitedBelow(k - 1);
      assert Carried(k - 1) <= max;
    }
  }
}
