/** Retry delays: bounded exponential backoff in 64-bit nanoseconds, jitter, and the choice of a
    retry tier. */
module Backoff {
  const MAX_DURATION := 0x7fff_ffff_ffff_ffff
  const MIN_DURATION := -0x8000_0000_0000_0000

  /** time.Duration: every arithmetic result below is checked against the 64-bit range. */
  newtype Duration = x: int | MIN_DURATION <= x <= MAX_DURATION

  newtype Count = x: int | 0 <= x <= 0xffff_ffff_ffff_ffff

  function Pow2(k: nat): (r: nat)
    ensures r > 0
  {
    if k == 0 then 1 else 2 * Pow2(k - 1)
  }

  /** The delay before jitter, over unbounded integers; attempt numbers start at one. */
  function Exponential(base: nat, maximum: nat, attempt: nat): nat {
    var full := base * Pow2(if attempt == 0 then 0 else attempt - 1);
    if full <= maximum then full else maximum
  }

  lemma {:induction false} Pow2Monotone(j: nat, k: nat)
    requires j <= k
    ensures Pow2(j) <= Pow2(k)
  {
    if j < k {
      Pow2Monotone(j, k - 1);
    }
  }

  lemma MoreTimes(x: nat, a: nat, b: nat)
    requires a <= b
    ensures x * a <= x * b
  {
  }

  /** Once the bound is reached every later attempt stays there. */
  lemma Saturates(base: nat, maximum: nat, j: nat, attempt: nat)
    requires 1 <= j <= attempt && base * Pow2(j - 1) >= maximum
    ensures Exponential(base, maximum, attempt) == maximum
  {
    Pow2Monotone(j - 1, attempt - 1);
    MoreTimes(base, Pow2(j - 1), Pow2(attempt - 1));
    hide Pow2;
  }

  /** The doubling loop computes min(maximum, base * 2^(attempt - 1)) without overflow. */
  method Delay(base: Duration, maximum: Duration, attempt: Count) returns (delay: Duration)
    requires 0 < base <= maximum
    ensures delay as int == Exponential(base as int, maximum as int, attempt as int)
    ensures 0 < delay <= maximum
  {
    delay := base;
    var current: Count := 1;
    ghost var b, m, a := base as int, maximum as int, attempt as int;
    while current < attempt && delay < maximum
      invariant 1 <= current && (if attempt == 0 then current == 1 else current <= attempt)
      invariant 0 < delay <= maximum
      invariant delay as int == b * Pow2(current as int - 1)
      decreases attempt as int - current as int
    {
      if delay > maximum / 2 {
        DoublesPast(b, m, current as int, a);
        delay := maximum;
        return;
      }
      delay := delay * 2;
      current := current + 1;
    }
    if current < attempt {
      Saturates(b, m, current as int, a);
    }
  }

  lemma DoublesPast(base: nat, maximum: nat, current: nat, attempt: nat)
    requires 1 <= current < attempt && base * Pow2(current - 1) > maximum / 2
    ensures Exponential(base, maximum, attempt) == maximum
  {
    assert base * Pow2(current) == 2 * (base * Pow2(current - 1));
    Saturates(base, maximum, current + 1, attempt);
  }

  /** The random source either fails or yields a value below the bound it is given; a bound that is
      not positive makes it panic. */
  datatype Draw = Failed | Drawn(value: nat)

  datatype Jittered = Jittered(delay: Duration) | Panics

  /** Kafka: uniform in [1, delay]. */
  method KafkaDelay(base: Duration, maximum: Duration, attempt: Count, draw: Draw) returns (r: Duration)
    requires 0 < base <= maximum
    requires draw.Drawn? ==> draw.value < Exponential(base as int, maximum as int, attempt as int)
    ensures var full := Exponential(base as int, maximum as int, attempt as int);
            1 <= r as int <= full && (draw.Failed? ==> r as int == full)
    ensures draw.Drawn? && Exponential(base as int, maximum as int, attempt as int) > 1 ==> r as int == draw.value + 1
  {
    var delay := Delay(base, maximum, attempt);
    if delay <= 1 {
      return delay;
    }
    match draw
    case Failed => r := delay;
    case Drawn(value) => r := value as Duration + 1;
  }

  /** int64 addition as the machine does it. */
  function WrappingSucc(d: Duration): Duration {
    if d as int == MAX_DURATION then MIN_DURATION as Duration else d + 1
  }

  function Full(base: Duration, maximum: Duration, attempt: Count): (r: Duration)
    requires 0 < base <= maximum
    ensures 0 < r <= maximum
  {
    Positive(base as int, maximum as int, attempt as int);
    Exponential(base as int, maximum as int, attempt as int) as Duration
  }

  lemma Positive(base: nat, maximum: nat, attempt: nat)
    requires 0 < base <= maximum
    ensures 0 < Exponential(base, maximum, attempt) <= maximum
  {
    var p := Pow2(if attempt == 0 then 0 else attempt - 1);
    assert base * p >= base;
  }

  /** NATS: uniform in [0, delay], except that the bound delay + 1 wraps around at the very top. */
  function NatsJitter(delay: Duration, draw: Draw): Jittered
    requires 0 < delay && (draw.Drawn? ==> draw.value <= delay as int)
  {
    if delay <= 1 then Jittered(delay)
    else if WrappingSucc(delay) <= 0 then Panics
    else if draw.Failed? then Jittered(delay)
    else Jittered(draw.value as Duration)
  }

  method NatsDelay(base: Duration, maximum: Duration, attempt: Count, draw: Draw) returns (r: Jittered)
    requires 0 < base <= maximum
    requires draw.Drawn? ==> draw.value <= Full(base, maximum, attempt) as int
    ensures r == NatsJitter(Full(base, maximum, attempt), draw)
    ensures r.Jittered? ==> 0 <= r.delay <= Full(base, maximum, attempt)
  {
    var delay := Delay(base, maximum, attempt);
    if delay <= 1 {
      return Jittered(delay);
    }
    if WrappingSucc(delay) <= 0 {
      return Panics;
    }
    match draw
    case Failed => r := Jittered(delay);
    case Drawn(value) => r := Jittered(value as Duration);
  }

  /** The NATS jitter panics, whatever is drawn, for exactly the configurations whose maximum is the largest
      duration, and there from the attempt on at which doubling reaches it. */
  lemma NatsPanicsExactly(base: Duration, maximum: Duration, attempt: Count, draw: Draw)
    requires 0 < base <= maximum
    requires draw.Drawn? ==> draw.value <= Full(base, maximum, attempt) as int
    ensures NatsJitter(Full(base, maximum, attempt), draw).Panics? <==>
              && maximum as int == MAX_DURATION
              && base as int * Pow2(if attempt == 0 then 0 else attempt as int - 1) >= MAX_DURATION
  {
    hide Pow2;
  }

  /** With the largest maximum every base reaches the panic, at attempt 64 at the latest. */
  lemma NatsPanicsAtLast(base: Duration, maximum: Duration, attempt: Count, draw: Draw)
    requires 0 < base <= maximum && maximum as int == MAX_DURATION && attempt >= 64
    requires draw.Drawn? ==> draw.value <= Full(base, maximum, attempt) as int
    ensures NatsJitter(Full(base, maximum, attempt), draw).Panics?
  {
    NatsPanicsExactly(base, maximum, attempt, draw);
    Pow2Values();
    Pow2Monotone(63, attempt as int - 1);
    var p := Pow2(attempt as int - 1);
    assert base as int * p >= p;
  }

  lemma Pow2Values()
    ensures Pow2(63) == 0x8000_0000_0000_0000
  {
    assert Pow2(8) == 256;
    assert Pow2(16) == 65536;
    assert Pow2(24) == 0x100_0000;
    assert Pow2(32) == 0x1_0000_0000;
    assert Pow2(40) == 0x100_0000_0000;
    assert Pow2(48) == 0x1_0000_0000_0000;
    assert Pow2(56) == 0x100_0000_0000_0000;
  }

  /** A configuration that validation accepts and that panics at its first retry. */
  lemma NatsPanicExample(draw: Draw)
    requires draw.Drawn? ==> draw.value <= MAX_DURATION
    ensures Full(MAX_DURATION as Duration, MAX_DURATION as Duration, 1) as int == MAX_DURATION
    ensures NatsJitter(Full(MAX_DURATION as Duration, MAX_DURATION as Duration, 1), draw).Panics?
  {
    assert Pow2(0) == 1;
  }

  // ---------------------------------------------------------------- tiers

  /** The first tier that covers the delay, or the last tier. */
  method RetryTier(tiers: seq<nat>, delay: nat) returns (index: nat)
    requires tiers != []
    ensures index < |tiers| && forall i | 0 <= i < index :: tiers[i] < delay
    ensures delay <= tiers[index] || index == |tiers| - 1
  {
    for i := 0 to |tiers|
      invariant forall j | 0 <= j < i :: tiers[j] < delay
    {
      if delay <= tiers[i] {
        return i;
      }
    }
    return |tiers| - 1;
  }
}
