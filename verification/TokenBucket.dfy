/** The upload shaper of agent/worker.py, over real time. */
module TokenBuckets {
  /** The bucket holds one second's worth, so its capacity is its rate. */
  datatype Bucket = Bucket(rate: real, tokens: real, updated: real)

  /** One round of `consume`: at `now`, `want` bytes are still to be sent. */
  datatype Ask = Ask(now: real, want: real)

  predicate Sane(b: Bucket) {
    b.rate > 0.0 && 0.0 <= b.tokens <= b.rate
  }

  function Min(x: real, y: real): real {
    if x <= y then x else y
  }

  function Filled(b: Bucket, now: real): real {
    Min(b.rate, b.tokens + (now - b.updated) * b.rate)
  }

  function Granted(b: Bucket, a: Ask): real {
    Min(a.want, Filled(b, a.now))
  }

  function Serve(b: Bucket, a: Ask): Bucket {
    b.(tokens := Filled(b, a.now) - Granted(b, a), updated := a.now)
  }

  predicate InOrder(b: Bucket, asks: seq<Ask>)
    decreases |asks|
  {
    asks == [] || (asks[0].now >= b.updated && asks[0].want > 0.0 && InOrder(Serve(b, asks[0]), asks[1..]))
  }

  function After(b: Bucket, asks: seq<Ask>): Bucket
    decreases |asks|
  {
    if asks == [] then b else After(Serve(b, asks[0]), asks[1..])
  }

  function Taken(b: Bucket, asks: seq<Ask>): real
    decreases |asks|
  {
    if asks == [] then 0.0 else Granted(b, asks[0]) + Taken(Serve(b, asks[0]), asks[1..])
  }

  lemma RefillIsNotNegative(rate: real, dt: real)
    requires rate > 0.0 && dt >= 0.0
    ensures dt * rate >= 0.0
  {
  }

  lemma ServeKeepsSane(b: Bucket, a: Ask)
    requires Sane(b) && a.now >= b.updated && a.want > 0.0
    ensures Sane(Serve(b, a)) && 0.0 <= Granted(b, a) <= a.want
  {
    RefillIsNotNegative(b.rate, a.now - b.updated);
  }

  /** Whatever is asked for, no more goes out than was there plus what the time since brought in. */
  lemma {:induction false} TakenIsBounded(b: Bucket, asks: seq<Ask>)
    requires Sane(b) && InOrder(b, asks)
    ensures Sane(After(b, asks)) && After(b, asks).updated >= b.updated
    ensures Taken(b, asks) <= b.tokens + (After(b, asks).updated - b.updated) * b.rate
    decreases |asks|
  {
    if asks != [] {
      var b' := Serve(b, asks[0]);
      ServeKeepsSane(b, asks[0]);
      TakenIsBounded(b', asks[1..]);
      var end := After(b, asks).updated;
      assert (end - b'.updated) * b.rate + (b'.updated - b.updated) * b.rate == (end - b.updated) * b.rate;
    }
  }

  lemma {:induction false} UpdatedLast(b: Bucket, asks: seq<Ask>)
    requires asks != []
    ensures After(b, asks).updated == asks[|asks| - 1].now
    decreases |asks|
  {
    if |asks| > 1 {
      UpdatedLast(Serve(b, asks[0]), asks[1..]);
    } else {
      assert asks[1..] == [];
    }
  }

  lemma {:induction false} SplitAsks(b: Bucket, asks: seq<Ask>, k: nat)
    requires InOrder(b, asks) && k <= |asks|
    ensures InOrder(b, asks[..k]) && InOrder(After(b, asks[..k]), asks[k..])
    decreases k
  {
    if k > 0 {
      assert asks[..k][1..] == asks[1..][..k - 1] && asks[1..][k - 1..] == asks[k..];
      SplitAsks(Serve(b, asks[0]), asks[1..], k - 1);
    } else {
      assert asks[0..] == asks;
    }
  }

  lemma WindowFrom(c: Bucket, window: seq<Ask>)
    requires Sane(c) && InOrder(c, window) && window != []
    ensures Taken(c, window) <= c.rate + (window[|window| - 1].now - window[0].now) * c.rate
  {
    hide Filled, Granted, InOrder;
    var c', rest := Serve(c, window[0]), window[1..];
    var last := window[|window| - 1].now;
    FirstAsk(c, window);
    TakenIsBounded(c', rest);
    assert After(c', rest).updated == last by {
      if rest != [] {
        UpdatedLast(c', rest);
      }
    }
    assert Taken(c, window) == Granted(c, window[0]) + Taken(c', rest);
  }

  lemma FirstAsk(c: Bucket, window: seq<Ask>)
    requires Sane(c) && InOrder(c, window) && window != []
    ensures var c' := Serve(c, window[0]);
            && Sane(c') && InOrder(c', window[1..]) && c'.rate == c.rate && c'.updated == window[0].now
            && Granted(c, window[0]) + c'.tokens <= c.rate
  {
    ServeKeepsSane(c, window[0]);
  }

  /**
   The bound over any window: of a whole history of rounds, those from the `k`-th to
   before the `m`-th take at most one bucketful plus the rate times the time between
   the first and the last of them.
   */
  lemma WindowBound(b: Bucket, asks: seq<Ask>, k: nat, m: nat)
    requires Sane(b) && InOrder(b, asks) && k < m <= |asks|
    ensures Taken(After(b, asks[..k]), asks[k..m]) <= b.rate + (asks[m - 1].now - asks[k].now) * b.rate
  {
    hide Taken, InOrder, After, Serve, Sane;
    SplitAsks(b, asks, k);
    TakenIsBounded(b, asks[..k]);
    RateStays(b, asks[..k]);
    SplitAsks(After(b, asks[..k]), asks[k..], m - k);
    assert asks[k..][..m - k] == asks[k..m];
    WindowFrom(After(b, asks[..k]), asks[k..m]);
  }

  lemma {:induction false} RateStays(b: Bucket, asks: seq<Ask>)
    ensures After(b, asks).rate == b.rate
    decreases |asks|
  {
    if asks != [] {
      RateStays(Serve(b, asks[0]), asks[1..]);
    }
  }

  lemma {:induction false} AppendAsk(b: Bucket, asks: seq<Ask>, a: Ask)
    requires InOrder(b, asks) && a.now >= After(b, asks).updated && a.want > 0.0
    ensures InOrder(b, asks + [a]) && After(b, asks + [a]) == Serve(After(b, asks), a)
    ensures Taken(b, asks + [a]) == Taken(b, asks) + Granted(After(b, asks), a)
    decreases |asks|
  {
    if asks == [] {
      assert asks + [a] == [a] && [a][1..] == [];
    } else {
      assert (asks + [a])[1..] == asks[1..] + [a];
      AppendAsk(Serve(b, asks[0]), asks[1..], a);
    }
  }

  /******* The object *******/

  /** A slept-for instalment refills what is still wanted, up to a bucketful. */
  lemma SleepIsEnough(b: Bucket, want: real, now: real)
    requires Sane(b) && want > 0.0 && now >= b.updated + Min(want, b.rate) / b.rate
    ensures now >= b.updated && Filled(b, now) >= Min(want, b.rate)
  {
    var d := Min(want, b.rate) / b.rate;
    assert d * b.rate == Min(want, b.rate);
    assert d >= 0.0;
    RefillIsNotNegative(b.rate, now - b.updated - d);
    assert (now - b.updated - d) * b.rate + d * b.rate == (now - b.updated) * b.rate;
  }

  /** How long `consume` sleeps for what it still wants. */
  function Instalment(want: real, rate: real): real
    requires rate > 0.0
  {
    Min(want, rate) / rate
  }

  /** The most rounds `consume` needs. */
  function RoundLimit(count: real, rate: real): int
    requires rate > 0.0
  {
    (count / rate).Floor + 2
  }

  /** What the rounds after the first have taken at least. */
  function Paid(rounds: nat, rate: real): real {
    (rounds as real - 1.0) * rate
  }

  lemma PaidByRounds(rounds: nat, rate: real)
    ensures Paid(rounds + 1, rate) == Paid(rounds, rate) + rate && Paid(1, rate) == 0.0
  {
  }

  lemma RoundsBound(rounds: nat, rate: real, count: real)
    requires rate > 0.0 && Paid(rounds + 1, rate) <= count
    ensures rounds + 2 <= RoundLimit(count, rate)
  {
    assert rounds as real * rate / rate == rounds as real;
    assert count / rate - rounds as real * rate / rate == (count - rounds as real * rate) / rate;
  }

  lemma AfterSleep(b: Bucket, want: real, now: real)
    requires Sane(b) && want > 0.0 && now >= b.updated + Instalment(want, b.rate)
    ensures Granted(b, Ask(now, want)) >= want || Granted(b, Ask(now, want)) >= b.rate
  {
    SleepIsEnough(b, want, now);
  }

  lemma MinIsEither(x: real, y: real)
    ensures Min(x, y) <= x && Min(x, y) <= y && (Min(x, y) == x || Min(x, y) == y)
  {
  }

  /** What the bucket earns over a time. */
  function Bought(asleep: real, rate: real): real {
    asleep * rate
  }

  lemma BoughtIs(asleep: real, rate: real)
    ensures Bought(asleep, rate) == asleep * rate && Bought(0.0, rate) == 0.0
  {
  }

  lemma SleepBuys(asleep: real, want: real, rate: real)
    requires rate > 0.0
    ensures Bought(asleep + Instalment(want, rate), rate) == Bought(asleep, rate) + Min(want, rate)
  {
    assert Instalment(want, rate) * rate == Min(want, rate);
  }

  class TokenBucket {
    var bucket: Bucket
    var clock: real
    ghost const first: Bucket
    ghost var asks: seq<Ask>

    predicate Enabled()
      reads this
    {
      bucket.rate > 0.0
    }

    ghost predicate Valid()
      reads this
    {
      && bucket.rate == first.rate && bucket == After(first, asks) && InOrder(first, asks)
      && clock >= bucket.updated && bucket.rate >= 0.0 && (Enabled() ==> Sane(bucket))
    }

    constructor (kbps: real, now: real)
      ensures Valid() && asks == [] && bucket.tokens == bucket.rate && (Enabled() <==> kbps > 0.0)
      ensures bucket.rate == (if kbps > 0.0 then kbps * 1024.0 else 0.0) && bucket.updated == clock == now
    {
      var rate := if kbps > 0.0 then kbps * 1024.0 else 0.0;
      bucket, first := Bucket(rate, rate, now), Bucket(rate, rate, now);
      clock, asks := now, [];
    }

    /** Time passes on its own between two lines. */
    method Tick()
      modifies `clock
      ensures clock >= old(clock)
    {
      var drift: real := *;
      clock := clock + if drift < 0.0 then -drift else drift;
    }

    /** `sleep` takes at least what it is asked for. */
    method Sleep(seconds: real)
      modifies `clock
      ensures clock >= old(clock) && clock >= old(clock) + seconds
    {
      clock := clock + if seconds < 0.0 then 0.0 else seconds;
      Tick();
    }

    /** One turn of the loop in `consume`, up to the sleep. */
    method Round(remaining: real) returns (taken: real)
      requires Valid() && Enabled() && remaining > 0.0
      modifies this
      ensures Valid() && bucket.rate == old(bucket).rate && clock >= old(clock) && clock == bucket.updated
      ensures asks == old(asks) + [Ask(clock, remaining)]
      ensures taken == Granted(old(bucket), Ask(clock, remaining)) && 0.0 <= taken <= remaining
      ensures Taken(first, asks) == Taken(first, old(asks)) + taken
    {
      hide Taken, InOrder, After;
      Tick();
      var now := clock;
      var filled := Min(bucket.rate, bucket.tokens + (now - bucket.updated) * bucket.rate);
      taken := Min(remaining, filled);
      AppendAsk(first, asks, Ask(now, remaining));
      ServeKeepsSane(bucket, Ask(now, remaining));
      bucket := bucket.(tokens := filled - taken, updated := now);
      asks := asks + [Ask(now, remaining)];
    }

    /**
     `consume`: returns once exactly `count` bytes were taken, however much larger than
     the bucket that is, after at most `count / rate + 2` rounds, having asked to sleep for
     no longer than the rate takes for them.
     */
    method Consume(count: int) returns (ghost rounds: nat, ghost asleep: real)
      requires Valid()
      modifies this
      ensures Valid() && |asks| == |old(asks)| + rounds && old(asks) <= asks && Enabled() == old(Enabled())
      ensures !Enabled() || count <= 0 ==> rounds == 0 && bucket == old(bucket)
      ensures Enabled() && count > 0 ==>
                && Taken(first, asks) == Taken(first, old(asks)) + count as real
                && rounds <= RoundLimit(count as real, bucket.rate)
                && asleep * bucket.rate <= count as real
    {
      hide Taken, InOrder, After, Granted, Filled, Sane, Min, Instalment, RoundLimit, Paid, Bought;
      rounds, asleep := 0, 0.0;
      if !Enabled() || count <= 0 {
        return;
      }
      var remaining := count as real;
      ghost var rate := bucket.rate;
      PaidByRounds(0, rate);
      BoughtIs(asleep, rate);
      RoundsBound(0, rate, count as real);
      while remaining > 0.0
        invariant Valid() && bucket.rate == rate && 0.0 <= remaining
        invariant |asks| == |old(asks)| + rounds && old(asks) <= asks
        invariant Taken(first, asks) + remaining == Taken(first, old(asks)) + count as real
        invariant rounds <= RoundLimit(count as real, rate)
                  && (remaining > 0.0 ==> rounds < RoundLimit(count as real, rate))
        invariant rounds == 0 ==> remaining == count as real && asleep == 0.0
        invariant Bought(asleep, rate) <= if rounds == 0 then 0.0 else count as real - remaining + Min(remaining, rate)
        invariant rounds > 0 && remaining > 0.0 ==>
                    && clock >= bucket.updated + Instalment(remaining, rate)
                    && remaining + Paid(rounds, rate) <= count as real
        decreases RoundLimit(count as real, rate) - rounds
      {
        ghost var before := bucket;
        var taken := Round(remaining);
        MinIsEither(remaining, rate);
        if rounds > 0 {
          AfterSleep(before, remaining, clock);
        }
        remaining := remaining - taken;
        PaidByRounds(rounds, rate);
        rounds := rounds + 1;
        if remaining <= 0.0 {
          BoughtIs(asleep, rate);
          return;
        }
        RoundsBound(rounds - 1, rate, count as real);
        SleepBuys(asleep, remaining, rate);
        asleep := asleep + Instalment(remaining, rate);
        Sleep(Instalment(remaining, bucket.rate));
      }
      MinIsEither(remaining, rate);
      BoughtIs(asleep, rate);
    }
  }
}
