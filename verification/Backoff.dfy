/** The delay before a failed job is tried again (queue/dbqueue/dbqueue.go). */
module Backoff {
  import opened UnixTime

  function Pow2(n: nat): nat {
    if n == 0 then 1 else 2 * Pow2(n - 1)
  }

  // MINUTE * Pow2(attempt) is the shift `time.Minute << attempt`.
  function DefaultBackoff(attempt: nat): (d: int) {
    if attempt >= 6 then HOUR
    else
      var d := MINUTE * Pow2(attempt);
      if d > HOUR then HOUR else d
  }

  lemma {:induction false} Pow2Grows(m: nat, n: nat)
    requires m <= n
    ensures Pow2(m) <= Pow2(n)
  {
    if m == n {
    } else {
      Pow2Grows(m, n - 1);
    }
  }

  // For every attempt count it is two to that power minutes, capped at one hour and never
  // below one minute; where the shift is taken at all it stays far inside 64 bits.
  lemma BackoffIsCappedDoubling(attempt: nat)
    ensures DefaultBackoff(attempt) ==
      if 60_000_000_000 * Pow2(attempt) <= 3_600_000_000_000 then 60_000_000_000 * Pow2(attempt) else 3_600_000_000_000
    ensures 60_000_000_000 <= DefaultBackoff(attempt) <= DefaultBackoff(attempt + 1) <= 3_600_000_000_000
    ensures DefaultBackoff(0) == 60_000_000_000 && DefaultBackoff(1) == 120_000_000_000
    ensures attempt < 6 ==> MINUTE * Pow2(attempt) < 0x8000_0000_0000_0000
  {
    assert Pow2(1) == 2 && Pow2(2) == 4 && Pow2(3) == 8;
    assert Pow2(4) == 16 && Pow2(5) == 32 && Pow2(6) == 64;
    Pow2Grows(0, attempt);
    if attempt >= 6 {
      Pow2Grows(6, attempt);
    } else {
      Pow2Grows(attempt, 5);
    }
  }
}
