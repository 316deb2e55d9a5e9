/**
 The retry helper around a readiness probe. Its counter is an unsigned machine word
 tested for being at least zero, so it wraps around instead of running out.
 */
module ProbeRetry {
  import opened Wrappers

  const UINT_RANGE := 0x1_0000_0000_0000_0000

  function Decrement(count: nat): (r: nat)
    requires count < UINT_RANGE
    ensures r < UINT_RANGE
  {
    if count == 0 then UINT_RANGE - 1 else count - 1
  }

  /** The counter after some failed attempts. */
  function CounterAfter(retry: nat, failures: nat): (r: nat)
    requires retry < UINT_RANGE
    ensures r < UINT_RANGE
  {
    if failures == 0 then retry else Decrement(CounterAfter(retry, failures - 1))
  }

  /** The counter is the retry bound minus the failures, as a machine word. */
  lemma {:induction false} CounterWraps(retry: nat, failures: nat)
    requires retry < UINT_RANGE
    ensures CounterAfter(retry, failures) == (retry - failures) % 0x1_0000_0000_0000_0000
  {
    if failures > 0 {
      CounterWraps(retry, failures - 1);
    }
  }

  /**
   The loop over the attempts observed so far. It has ended exactly when one of them
   succeeded, and then without an error: no number of failures makes it give up.
   */
  method CheckWithRetry(retry: nat, attempts: seq<Error>) returns (ended: bool, err: Error, used: nat, count: nat)
    requires retry < UINT_RANGE
    ensures ended <==> Nil in attempts
    ensures ended ==> err == Nil && 0 < used <= |attempts| && attempts[used - 1] == Nil && Nil !in attempts[..used - 1]
    ensures !ended ==> used == |attempts| && count == (retry - |attempts|) % UINT_RANGE
  {
    count, err, used, ended := retry, Nil, 0, false;
    while count >= 0 && used < |attempts|
      invariant used <= |attempts| && !ended && Nil !in attempts[..used]
      invariant count == CounterAfter(retry, used)
      decreases |attempts| - used
    {
      err := attempts[used];
      used := used + 1;
      if err == Failed {
        count := Decrement(count);
        continue;
      }
      ended := true;
      break;
    }
    if !ended {
      CounterWraps(retry, used);
    }
  }
}
