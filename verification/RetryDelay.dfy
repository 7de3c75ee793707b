/** The back-off between attempts: doubling, with jitter taken from a hash, capped at 300 seconds. */
module RetryDelay {
  import opened Prelude

  const MAX_DELAY_SECS: nat := 300

  function Exponent(attempt: nat): nat {
    if attempt <= 1 then 0 else if attempt - 1 <= 8 then attempt - 1 else 8
  }

  /** `bounded_retry_delay`, in seconds; `hash` is the hash of the job and the attempt. */
  function Delay(attempt: nat, hash: nat): nat {
    var base := PowerOfTwo(Exponent(attempt));
    if base == 1 then 1
    else
      var window := if base / 5 >= 1 then base / 5 else 1;
      var delay := base + hash % (window + 1);
      if delay <= MAX_DELAY_SECS then delay else MAX_DELAY_SECS
  }

  lemma {:induction false} Powers()
    ensures PowerOfTwo(0) == 1 && PowerOfTwo(1) == 2 && PowerOfTwo(2) == 4 && PowerOfTwo(3) == 8 && PowerOfTwo(4) == 16
    ensures PowerOfTwo(5) == 32 && PowerOfTwo(6) == 64 && PowerOfTwo(7) == 128 && PowerOfTwo(8) == 256
  {
    assert PowerOfTwo(2) == 4;
    assert PowerOfTwo(4) == 16;
    assert PowerOfTwo(6) == 64;
  }

  /** Whatever the hash, the delay lies between the power of two and a fifth more, and under the cap. */
  lemma {:induction false} DelayBounds(attempt: nat, hash: nat)
    ensures var base, delay := PowerOfTwo(Exponent(attempt)), Delay(attempt, hash);
            && 1 <= delay <= MAX_DELAY_SECS && base <= delay
            && 5 * delay <= 6 * base + (if 2 <= base <= 4 then 5 else 0)
  {
    Powers();
    var base := PowerOfTwo(Exponent(attempt));
    assert Exponent(attempt) == 0 || Exponent(attempt) == 1 || Exponent(attempt) == 2 || Exponent(attempt) == 3
        || Exponent(attempt) == 4 || Exponent(attempt) == 5 || Exponent(attempt) == 6 || Exponent(attempt) == 7
        || Exponent(attempt) == 8;
    var window := if base / 5 >= 1 then base / 5 else 1;
    assert 0 <= hash % (window + 1) <= window;
  }

  /** Some hash gives this delay. */
  ghost predicate Possible(attempt: nat, delay: nat) {
    exists hash: nat :: Delay(attempt, hash) == delay
  }

  /** A delay the attempt may have: from the power of two to a fifth more, or one second more if that is nothing. */
  predicate InRange(attempt: nat, delay: nat) {
    var base := PowerOfTwo(if attempt <= 1 then 0 else if attempt <= 9 then attempt - 1 else 8);
    if base == 1 then delay == 1
    else base <= delay <= 300 && (delay <= base + base / 5 || delay <= base + 1)
  }

  lemma {:induction false} SmallRemainder(h: nat, m: nat)
    requires h < m
    ensures h % m == h
  {
  }

  lemma {:induction false} DelayInRange(attempt: nat, hash: nat)
    ensures InRange(attempt, Delay(attempt, hash))
  {
    DelayBounds(attempt, hash);
    var base := PowerOfTwo(Exponent(attempt));
    var window := if base / 5 >= 1 then base / 5 else 1;
    assert hash % (window + 1) <= window;
  }

  lemma {:induction false} RangeReached(attempt: nat, delay: nat)
    requires InRange(attempt, delay)
    ensures Possible(attempt, delay)
  {
    var base := PowerOfTwo(Exponent(attempt));
    if base == 1 {
      assert Delay(attempt, 0) == delay;
    } else {
      var window := if base / 5 >= 1 then base / 5 else 1;
      var hash := delay - base;
      SmallRemainder(hash, window + 1);
      assert Delay(attempt, hash) == delay;
    }
  }

  /** The delays of an attempt are exactly those. */
  lemma {:induction false} DelaysExactly(attempt: nat, delay: nat)
    ensures Possible(attempt, delay) <==> InRange(attempt, delay)
  {
    if InRange(attempt, delay) {
      RangeReached(attempt, delay);
    }
    forall hash: nat
      ensures InRange(attempt, Delay(attempt, hash))
    {
      DelayInRange(attempt, hash);
    }
  }

  predicate Grows(attempt: nat, h: nat, g: nat) {
    Delay(attempt, h) < Delay(attempt + 1, g)
  }

  ghost predicate AlwaysGrows(attempt: nat) {
    forall h: nat, g: nat :: Grows(attempt, h, g)
  }

  lemma {:induction false} GrowsAt(attempt: nat, h: nat, g: nat)
    requires 1 <= attempt <= 8
    ensures Delay(attempt, h) < Delay(attempt + 1, g)
  {
    Powers();
    DelayBounds(attempt, h);
    DelayBounds(attempt + 1, g);
    assert attempt == 1 || attempt == 2 || attempt == 3 || attempt == 4
        || attempt == 5 || attempt == 6 || attempt == 7 || attempt == 8;
  }

  /** The delay is sure to grow from one attempt to the next exactly for attempts 1 to 8. */
  lemma {:induction false} GrowsExactly(attempt: nat)
    ensures AlwaysGrows(attempt) <==> 1 <= attempt <= 8
  {
    if 1 <= attempt <= 8 {
      forall h: nat, g: nat ensures Grows(attempt, h, g) {
        GrowsAt(attempt, h, g);
      }
    } else {
      Powers();
      assert !Grows(attempt, 0, 0);
    }
  }

  /** Later delays are longer, up to attempt 9. */
  lemma {:induction false} GrowsThrough(a: nat, b: nat, h: nat, g: nat)
    requires 1 <= a < b <= 9
    ensures Delay(a, h) < Delay(b, g)
    decreases b - a
  {
    if b == a + 1 {
      GrowsAt(a, h, g);
    } else {
      GrowsThrough(a, b - 1, h, 0);
      GrowsAt(b - 1, 0, g);
    }
  }
}
