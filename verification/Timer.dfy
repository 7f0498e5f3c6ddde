/** TimerSpec: how often a timer can fire. */
module Timer {

  class TimerSpec {
    const triggerAfterSeconds: int
    var triggerCount: nat
    var lastTriggerTime: int

    constructor (after: int, last: int)
      ensures triggerAfterSeconds == after && triggerCount == 0 && lastTriggerTime == last
    {
      triggerAfterSeconds, triggerCount, lastTriggerTime := after, 0, last;
    }

    /** `trigger`: the timer's function runs only when the time has come, and if it raises, neither
        field changes. */
    method Trigger(currentTime: int, raises: bool) returns (ok: bool)
      modifies this
      ensures (triggerCount, lastTriggerTime)
           == After(triggerAfterSeconds, old(triggerCount), old(lastTriggerTime), Call(currentTime, raises))
      ensures !ok <==> raises && currentTime > old(lastTriggerTime) + triggerAfterSeconds
      ensures triggerCount in {old(triggerCount), old(triggerCount) + 1}
      ensures triggerCount > old(triggerCount) <==> ok && currentTime - old(lastTriggerTime) > triggerAfterSeconds
      ensures lastTriggerTime == if triggerCount > old(triggerCount) then currentTime else old(lastTriggerTime)
    {
      if lastTriggerTime + triggerAfterSeconds < currentTime {
        if raises {
          return false;
        }
        triggerCount := triggerCount + 1;
        lastTriggerTime := currentTime;
      }
      return true;
    }
  }

  /** A call of `trigger`, and whether the timer's function would raise in it. */
  datatype Call = Call(time: int, raises: bool)

  function After(after: int, count: nat, last: int, c: Call): (nat, int) {
    if last + after < c.time && !c.raises then (count + 1, c.time) else (count, last)
  }

  function AfterAll(after: int, count: nat, last: int, calls: seq<Call>): (nat, int)
    decreases |calls|
  {
    if calls == [] then (count, last)
    else
      var (count', last') := After(after, count, last, calls[0]);
      AfterAll(after, count', last', calls[1..])
  }

  /** Firings are more than `after` seconds apart, whatever times the timer is called with and
      whichever calls raise: the number of firings is bounded by the time that has passed between
      the first and the last. */
  lemma {:induction false} RateBound(after: int, count: nat, last: int, calls: seq<Call>)
    ensures var (count', last') := AfterAll(after, count, last, calls);
            count' >= count && (count' - count) * (after + 1) <= last' - last
    decreases |calls|
  {
    if calls != [] {
      var (c, l) := After(after, count, last, calls[0]);
      RateBound(after, c, l, calls[1..]);
      var (count', last') := AfterAll(after, count, last, calls);
      assert (count' - count) * (after + 1) == (count' - c) * (after + 1) + (c - count) * (after + 1);
    }
  }

  /** The bound is reached by a client that calls exactly when the timer is ready. */
  function Eager(after: int, last: int, n: nat): seq<Call>
    decreases n
  {
    if n == 0 then [] else [Call(last + after + 1, false)] + Eager(after, last + after + 1, n - 1)
  }

  lemma {:induction false} RateBoundReached(after: int, count: nat, last: int, n: nat)
    ensures AfterAll(after, count, last, Eager(after, last, n)) == (count + n, last + n * (after + 1))
    decreases n
  {
    if n > 0 {
      var calls := Eager(after, last, n);
      assert calls[1..] == Eager(after, last + after + 1, n - 1);
      RateBoundReached(after, count + 1, last + after + 1, n - 1);
      assert n * (after + 1) == (after + 1) + (n - 1) * (after + 1);
    }
  }
}
