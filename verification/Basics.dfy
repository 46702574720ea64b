/** Types shared by every component: optional columns, time stamps and health states. */
module Basics {

  /** A nullable column or pointer. */
  datatype Option<+T> = None | Some(value: T)

  /** Database time stamps: whole microseconds. */
  type Time = int

  datatype HealthState = Healthy | Warning | Critical | Unknown | Stale | Maintenance | Disabled

  function Max(a: int, b: int): int {
    if a >= b then a else b
  }

  function Min(a: int, b: int): int {
    if a <= b then a else b
  }

  /** Truncation of a time in nanoseconds to the microseconds a database column keeps. */
  function Micro(t: Time): (r: Time)
    ensures r <= t < r + 1000 && r % 1000 == 0
  {
    t - t % 1000
  }

  function Pow2(n: nat): (r: nat)
    ensures r >= 1
  {
    if n == 0 then 1 else 2 * Pow2(n - 1)
  }

  lemma {:induction false} Pow2Grows(m: nat, n: nat)
    requires m <= n
    ensures Pow2(m) <= Pow2(n)
  {
    if m < n {
      Pow2Grows(m, n - 1);
    }
  }
}
