/** The reconnect backoff of a camera stream, in milliseconds. */
module Reconnect {
  function Power2(n: nat): (p: nat)
    ensures p >= 1
  {
    if n == 0 then 1 else 2 * Power2(n - 1)
  }

  function Min(a: int, b: int): int {
    if a < b then a else b
  }

  /** The nominal backoff: doubled with every further attempt, capped. */
  function Nominal(initial: int, max: int, attempts: nat): int
    requires attempts >= 1
  {
    Min(initial * Power2(attempts - 1), max)
  }

  /** `doublings` rounds of the loop from `delay` on: give up at half the maximum, else double. */
  function Doubled(delay: int, max: int, doublings: nat): int
    decreases doublings
  {
    if doublings == 0 then Min(delay, max)
    else if delay >= max / 2 then max
    else Doubled(delay * 2, max, doublings - 1)
  }

  /** `CameraStream::reconnect_delay`. */
  function Delay(initial: int, max: int, attempts: nat): int {
    if attempts == 0 then 0 else Doubled(initial, max, attempts - 1)
  }

  /** The loop itself; no intermediate value exceeds the maximum. */
  method ReconnectDelay(initial: int, max: int, attempts: nat) returns (delay: int)
    requires 0 < initial <= max
    ensures delay == Delay(initial, max, attempts)
    ensures 0 <= delay <= max
  {
    if attempts == 0 { return 0; }
    delay := initial;
    var attempt := 1;
    while attempt < attempts
      invariant 1 <= attempt <= attempts && 0 < delay <= max
      invariant Doubled(delay, max, attempts - attempt) == Doubled(initial, max, attempts - 1)
    {
      if delay >= max / 2 { return max; }
      delay := delay * 2;
      attempt := attempt + 1;
    }
    delay := Min(delay, max);
  }

  lemma {:induction false} PowerGrows(m: nat, n: nat)
    requires m <= n
    ensures Power2(m) <= Power2(n)
  {
    if m < n { PowerGrows(m, n - 1); }
  }

  lemma Scaled(delay: int, a: int, b: int)
    requires delay >= 0 && a <= b
    ensures delay * a <= delay * b
  {
  }

  /** The delay is one above the nominal one: an odd maximum just above a doubling of the initial delay. */
  predicate RoundsUp(initial: int, max: int, doublings: nat) {
    doublings >= 1 && max % 2 == 1 && initial * Power2(doublings) == max - 1
  }

  /** The loop in closed form. */
  lemma {:induction false} DoubledIsClosed(delay: int, max: int, doublings: nat)
    requires 0 < delay <= max
    ensures Doubled(delay, max, doublings) ==
            Min(delay * Power2(doublings), max) + if RoundsUp(delay, max, doublings) then 1 else 0
    decreases doublings
  {
    if doublings > 0 {
      var rest := doublings - 1;
      assert delay * Power2(doublings) == delay * 2 * Power2(rest);
      if delay >= max / 2 {
        PowerGrows(0, rest);
        Scaled(delay * 2, Power2(0), Power2(rest));
        if rest > 0 {
          PowerGrows(1, rest);
          Scaled(delay * 2, Power2(1), Power2(rest));
        }
      } else {
        DoubledIsClosed(delay * 2, max, rest);
        assert rest == 0 && max % 2 == 1 ==> delay * 2 != max - 1;
      }
    }
  }

  /** Exact for an even maximum and at most one millisecond over for an odd one; over exactly when the
      maximum is odd and one above the doubling of that attempt. */
  lemma DelayIsNominal(initial: int, max: int, attempts: nat)
    requires 0 < initial <= max && attempts >= 1
    ensures max % 2 == 0 ==> Delay(initial, max, attempts) == Nominal(initial, max, attempts)
    ensures Nominal(initial, max, attempts) <= Delay(initial, max, attempts) <= Nominal(initial, max, attempts) + 1
    ensures Delay(initial, max, attempts) != Nominal(initial, max, attempts) <==>
            attempts >= 2 && max % 2 == 1 && initial * Power2(attempts - 1) == max - 1
  {
    DoubledIsClosed(initial, max, attempts - 1);
  }

  /** From one millisecond with a maximum of three, the second attempt waits three instead of two. */
  lemma DelayRoundedUp()
    ensures Delay(1, 3, 2) == 3 && Nominal(1, 3, 2) == 2
  {
    assert Doubled(1, 3, 1) == 3;
    assert Power2(1) == 2 * Power2(0);
  }

  /** More attempts never wait less, and none waits longer than the maximum. */
  lemma DelayGrows(initial: int, max: int, m: nat, n: nat)
    requires 0 < initial <= max && m <= n
    ensures 0 <= Delay(initial, max, m) <= Delay(initial, max, n) <= max
  {
    if n >= 1 { DoubledIsClosed(initial, max, n - 1); }
    if 1 <= m < n {
      DoubledIsClosed(initial, max, m - 1);
      PowerGrows(m, n - 1);
      Scaled(initial, Power2(m), Power2(n - 1));
      assert initial * Power2(m) == 2 * (initial * Power2(m - 1));
    }
  }

  /** Once a doubling reaches half the maximum, every later delay is the maximum. */
  lemma CapReached(initial: int, max: int, attempt: nat, attempts: nat)
    requires 0 < initial <= max && 1 <= attempt < attempts && initial * Power2(attempt - 1) >= max / 2
    ensures Delay(initial, max, attempts) == max
  {
    DoubledIsClosed(initial, max, attempts - 1);
    PowerGrows(attempt, attempts - 1);
    Scaled(initial, Power2(attempt), Power2(attempts - 1));
    assert initial * Power2(attempt) == 2 * (initial * Power2(attempt - 1));
    if attempt < attempts - 1 {
      PowerGrows(attempt + 1, attempts - 1);
      Scaled(initial, Power2(attempt + 1), Power2(attempts - 1));
      assert initial * Power2(attempt + 1) == 2 * (initial * Power2(attempt));
    }
  }
}
