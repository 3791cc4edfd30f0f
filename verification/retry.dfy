/**
 * `retryWithDelay`: run an action up to `retries` times, moving on to the next
 * attempt only when the current one throws, with a fixed wait between attempts.
 * The action is given as the outcome of its i-th invocation.
 */
module Retry {

  /** Outcome of one invocation of the retried action. */
  datatype Attempt<T> = Threw | Returned(value: T)

  /**
   * What `retryWithDelay` resolves to: the value of the first invocation that did
   * not throw; `null` (Exhausted) once the last permitted attempt has thrown; and
   * `undefined` (FellThrough) when the loop body never runs because `retries <= 0`.
   */
  datatype RetryResult<T> = Value(value: T) | Exhausted | FellThrough

  /** The default attempt budget and wait used by the retry coordinator. */
  const MaxRetries: int := 3
  const DelayMs: nat := 300000

  /** The loop from attempt `i` on, once attempts `0..i-1` have thrown. */
  function RetryFrom<T>(action: nat -> Attempt<T>, retries: int, i: nat): (r: RetryResult<T>)
    requires i < retries
    ensures !r.FellThrough?
    decreases retries - i
  {
    match action(i)
    case Returned(v) => Value(v)
    case Threw => if i == retries - 1 then Exhausted else RetryFrom(action, retries, i + 1)
  }

  /** The value `retryWithDelay(action, retries)` resolves to. */
  function RetryValue<T>(action: nat -> Attempt<T>, retries: int): (r: RetryResult<T>)
    ensures r.FellThrough? <==> retries <= 0
  {
    if retries <= 0 then FellThrough else RetryFrom(action, retries, 0)
  }

  /**
   * The loop of `retryWithDelay`. `calls` counts invocations of the action and
   * `waited` the milliseconds spent in the `setTimeout` wait between attempts.
   */
  method RetryWithDelay<T>(action: nat -> Attempt<T>, retries: int, delayMs: nat)
    returns (r: RetryResult<T>, calls: nat, waited: nat)
    ensures r == RetryValue(action, retries)
    ensures retries <= 0 ==> calls == 0 && waited == 0
    ensures retries > 0 ==> 1 <= calls <= retries && waited == (calls - 1) * delayMs
    ensures forall j :: 0 <= j < calls - 1 ==> action(j).Threw?
    ensures r.Value? ==> action(calls - 1) == Returned(r.value)
    ensures r.Exhausted? ==> calls == retries && action(calls - 1).Threw?
  {
    var i: nat := 0;
    calls, waited := 0, 0;
    while i < retries
      invariant retries <= 0 ==> i == 0
      invariant retries > 0 ==> i < retries
      invariant calls == i && waited == i * delayMs
      invariant forall j :: 0 <= j < i ==> action(j).Threw?
      invariant retries > 0 ==> RetryValue(action, retries) == RetryFrom(action, retries, i)
      decreases retries - i
    {
      calls := calls + 1;
      match action(i) {
        case Returned(v) =>
          r := Value(v);
          return;
        case Threw =>
          if i == retries - 1 {
            r := Exhausted;
            return;
          }
          waited := waited + delayMs;
      }
      i := i + 1;
    }
    r := FellThrough;
  }

  lemma {:induction false} RetryFromFirstValue<T>(action: nat -> Attempt<T>, retries: int, i: nat, k: nat)
    requires i <= k < retries
    requires forall j :: i <= j < k ==> action(j).Threw?
    requires action(k).Returned?
    ensures RetryFrom(action, retries, i) == Value(action(k).value)
    decreases k - i
  {
    if i < k {
      RetryFromFirstValue(action, retries, i + 1, k);
    }
  }

  lemma {:induction false} RetryFromExhausted<T>(action: nat -> Attempt<T>, retries: int, i: nat)
    requires i < retries
    ensures RetryFrom(action, retries, i) == Exhausted <==> forall j :: i <= j < retries ==> action(j).Threw?
    decreases retries - i
  {
    if action(i).Threw? && i < retries - 1 {
      RetryFromExhausted(action, retries, i + 1);
    }
  }

  lemma {:induction false} RetryFromValueWitness<T>(action: nat -> Attempt<T>, retries: int, i: nat)
    requires i < retries
    requires RetryFrom(action, retries, i).Value?
    ensures exists k :: i <= k < retries && action(k) == Returned(RetryFrom(action, retries, i).value)
                        && forall j :: i <= j < k ==> action(j).Threw?
    decreases retries - i
  {
    if action(i).Threw? {
      RetryFromValueWitness(action, retries, i + 1);
    }
  }

  /**
   * Retrying stops at the first attempt that does not throw and resolves to its
   * value, whatever the later attempts would have done.
   */
  lemma {:induction false} RetryReturnsFirstValue<T>(action: nat -> Attempt<T>, retries: int, k: nat)
    requires k < retries
    requires forall j :: 0 <= j < k ==> action(j).Threw?
    requires action(k).Returned?
    ensures RetryValue(action, retries) == Value(action(k).value)
  {
    RetryFromFirstValue(action, retries, 0, k);
  }

  /** With a positive budget, the result is `null` exactly when every attempt threw. */
  lemma {:induction false} RetryExhaustedIff<T>(action: nat -> Attempt<T>, retries: int)
    requires retries > 0
    ensures RetryValue(action, retries) == Exhausted <==> forall j :: 0 <= j < retries ==> action(j).Threw?
  {
    RetryFromExhausted(action, retries, 0);
  }

  /** A value is only ever the value of some attempt within the budget, all earlier ones having thrown. */
  lemma {:induction false} RetryValueWitness<T>(action: nat -> Attempt<T>, retries: int)
    requires RetryValue(action, retries).Value?
    ensures exists k :: 0 <= k < retries && action(k) == Returned(RetryValue(action, retries).value)
                        && forall j :: 0 <= j < k ==> action(j).Threw?
  {
    RetryFromValueWitness(action, retries, 0);
  }
}
