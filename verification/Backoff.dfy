/** What both stream adapters share: socket states and the reconnect delay. */
module Backoff {

  /** `readyState`. A socket fires one close event and then stays closed. */
  datatype Socket = Connecting | Open | Closing | Closed

  function Pow2(n: nat): (p: nat)
    ensures p > 0
  {
    if n == 0 then 1 else 2 * Pow2(n - 1)
  }

  /** `Math.min(30_000, 1000 * 2 ** (attempt - 1))` */
  function Delay(attempt: nat): nat
    requires attempt > 0
  {
    var d := 1000 * Pow2(attempt - 1);
    if d <= 30000 then d else 30000
  }

  /** The waiting that `n` consecutive failures add up to. */
  function TotalDelay(n: nat): nat {
    if n == 0 then 0 else TotalDelay(n - 1) + Delay(n)
  }

  lemma {:induction false} PowIsLarge(n: nat)
    requires n >= 5
    ensures Pow2(n) >= 32
  {
    if n == 5 {
      assert Pow2(0) == 1 && Pow2(1) == 2 && Pow2(2) == 4 && Pow2(3) == 8 && Pow2(4) == 16;
    } else {
      PowIsLarge(n - 1);
    }
  }

  /** 1000 * (2^n - 1) ms up to five failures, then 30 seconds more for each. */
  lemma {:induction false} TotalDelayIs(n: nat)
    ensures n <= 5 ==> TotalDelay(n) == 1000 * (Pow2(n) - 1)
    ensures n >= 5 ==> TotalDelay(n) == 31000 + 30000 * (n - 5)
  {
    if n > 0 {
      TotalDelayIs(n - 1);
      if n > 5 {
        PowIsLarge(n - 1);
      } else {
        assert Pow2(0) == 1 && Pow2(1) == 2 && Pow2(2) == 4 && Pow2(3) == 8 && Pow2(4) == 16;
      }
    }
  }
}
