/** The rate limits kept in memory: the backoff of failed sign-ins and the
    refilling allowance per key, in the 64-bit arithmetic of the source. The
    clock is in milliseconds since 1970, so it is never negative. */
module RateLimit {
  import opened Wrappers
  import Sequences

  const I64_MAX: int := 0x7FFF_FFFF_FFFF_FFFF
  const I64_MIN: int := -0x8000_0000_0000_0000
  const U32_MAX: nat := 0xFFFF_FFFF
  const SWEEP_THRESHOLD: nat := 10_000
  const MS_PER_MINUTE: nat := 60_000

  function Saturated(n: int): int {
    if n > I64_MAX then I64_MAX else if n < I64_MIN then I64_MIN else n
  }

  function Max(a: int, b: int): int {
    if a < b then b else a
  }

  function Min(a: int, b: int): int {
    if a < b then a else b
  }

  predicate IsClock(now: int) {
    0 <= now <= I64_MAX
  }

  // ---------------------------------------------------------------------
  // The refilling allowance
  // ---------------------------------------------------------------------

  datatype Rate = Rate(burst: nat, perMinute: nat)

  /** The types of the source hold 32 bits each. */
  predicate ValidRate(rate: Rate) {
    rate.burst <= U32_MAX && rate.perMinute <= U32_MAX
  }

  function MsPerToken(rate: Rate): (ms: nat)
    ensures 1 <= ms <= MS_PER_MINUTE
  {
    Max(MS_PER_MINUTE / Max(rate.perMinute, 1), 1)
  }

  /** A minute shared out among the tokens of one: the longest whole period
      that fits as often; a minute for none, a millisecond for too many. */
  lemma PeriodSharesMinute(rate: Rate)
    ensures var ms := MsPerToken(rate);
      && (rate.perMinute == 0 ==> ms == 60_000)
      && (1 <= rate.perMinute <= 60_000 ==> ms * rate.perMinute <= 60_000 < (ms + 1) * rate.perMinute)
      && (rate.perMinute > 60_000 ==> ms == 1)
  {
    var per := rate.perMinute;
    if 1 <= per <= 60_000 {
      var ms := 60_000 / per;
      assert ms * per <= 60_000 < ms * per + per;
      if ms == 0 {
        assert false;
      }
    }
  }

  datatype Bucket = Bucket(tokens: int, refilledAt: int)

  datatype Answer = Taken | Wait(ms: int)

  function Gained(b: Bucket, ms: nat, now: int): int
    requires ms >= 1
  {
    Max(Saturated(now - b.refilledAt), 0) / ms
  }

  function Refilled(b: Bucket, burst: nat, ms: nat, now: int): Bucket
    requires ms >= 1
  {
    var gained := Gained(b, ms, now);
    if gained > 0 then
      Bucket(Min(Saturated(b.tokens + gained), burst), Saturated(b.refilledAt + Saturated(gained * ms)))
    else b
  }

  /** One token from a bucket; the wait when it is empty. */
  function Spent(b: Bucket, rate: Rate, now: int): (Bucket, Answer) {
    var ms := MsPerToken(rate);
    var full := Refilled(b, rate.burst, ms, now);
    if full.tokens <= 0 then
      (full, Wait(Max(Saturated(Saturated(full.refilledAt + ms) - now), 1)))
    else (full.(tokens := full.tokens - 1), Taken)
  }

  predicate Refills(b: Bucket, rate: Rate, now: int) {
    Saturated(b.tokens + Gained(b, MsPerToken(rate), now)) < rate.burst
  }

  function Swept(entries: map<string, Bucket>, rate: Rate, now: int): map<string, Bucket> {
    if |entries| >= SWEEP_THRESHOLD then map key | key in entries && Refills(entries[key], rate, now) :: entries[key]
    else entries
  }

  /** The bucket a take finds, a full one for a key not held. */
  function Found(entries: map<string, Bucket>, rate: Rate, key: string, now: int): Bucket {
    if key in entries then entries[key] else Bucket(rate.burst, now)
  }

  function TakeFrom(entries: map<string, Bucket>, rate: Rate, key: string, now: int): (map<string, Bucket>, Answer) {
    var (bucket, answer) := Spent(Found(entries, rate, key, now), rate, now);
    (entries[key := bucket], answer)
  }

  class Buckets {
    const rate: Rate
    var entries: map<string, Bucket>

    constructor (rate: Rate)
      ensures this.rate == rate && entries == map[]
    {
      this.rate := rate;
      entries := map[];
    }

    method Take(key: string, now: int) returns (answer: Answer)
      modifies this
      ensures (entries, answer) == TakeFrom(Swept(old(entries), rate, now), rate, key, now)
      ensures forall other :: other != key ==>
        (other in entries <==>
          other in old(entries) && (|old(entries)| < 10_000 || Refills(old(entries)[other], rate, now)))
      ensures forall other :: other != key && other in entries ==> entries[other] == old(entries)[other]
    {
      var ms := MsPerToken(rate);
      if |entries| >= SWEEP_THRESHOLD {
        entries := map k | k in entries && Refills(entries[k], rate, now) :: entries[k];
      }
      var bucket := Found(entries, rate, key, now);
      bucket := Refilled(bucket, rate.burst, ms, now);
      if bucket.tokens <= 0 {
        entries := entries[key := bucket];
        return Wait(Max(Saturated(Saturated(bucket.refilledAt + ms) - now), 1));
      }
      bucket := bucket.(tokens := bucket.tokens - 1);
      entries := entries[key := bucket];
      answer := Taken;
    }
  }

  // Runs of takes over a clock that never goes back.

  datatype Call = Call(key: string, now: int)

  predicate Ordered(calls: seq<Call>, from: int) {
    calls == [] || (from <= calls[0].now <= I64_MAX && Ordered(calls[1..], calls[0].now))
  }

  function Last(calls: seq<Call>, from: int): int {
    if calls == [] then from else Last(calls[1..], calls[0].now)
  }

  /** `sweeps` runs the source; without it nothing is ever swept. */
  function Next(entries: map<string, Bucket>, rate: Rate, call: Call, sweeps: bool): (map<string, Bucket>, Answer) {
    TakeFrom(if sweeps then Swept(entries, rate, call.now) else entries, rate, call.key, call.now)
  }

  function After(entries: map<string, Bucket>, rate: Rate, calls: seq<Call>, sweeps: bool): map<string, Bucket>
    decreases |calls|
  {
    if calls == [] then entries else After(Next(entries, rate, calls[0], sweeps).0, rate, calls[1..], sweeps)
  }

  function Takes(entries: map<string, Bucket>, rate: Rate, calls: seq<Call>, key: string): nat
    decreases |calls|
  {
    if calls == [] then 0
    else
      var (next, answer) := Next(entries, rate, calls[0], true);
      (if calls[0].key == key && answer.Taken? then 1 else 0) + Takes(next, rate, calls[1..], key)
  }

  // What every bucket keeps.

  predicate Sound(b: Bucket, rate: Rate, now: int) {
    0 <= b.tokens <= rate.burst && 0 <= b.refilledAt <= now
  }

  predicate AllSound(entries: map<string, Bucket>, rate: Rate, now: int) {
    forall key :: key in entries ==> Sound(entries[key], rate, now)
  }

  /** In its sound range a refill is exact arithmetic: whole periods become
      tokens up to the burst, and the remainder stays. */
  lemma RefillExact(b: Bucket, rate: Rate, now: int)
    requires ValidRate(rate) && IsClock(now) && Sound(b, rate, now)
    ensures var ms := MsPerToken(rate);
      var elapsed := now - b.refilledAt;
      && Gained(b, ms, now) == elapsed / ms
      && Refilled(b, rate.burst, ms, now)
         == Bucket(Min(b.tokens + elapsed / ms, rate.burst), now - elapsed % ms)
      && Sound(Refilled(b, rate.burst, ms, now), rate, now)
  {
    var ms := MsPerToken(rate);
    var elapsed := now - b.refilledAt;
    assert Saturated(elapsed) == elapsed && Max(elapsed, 0) == elapsed;
    var gained := elapsed / ms;
    DivMod(elapsed, ms);
    assert gained * ms == elapsed - elapsed % ms;
    assert 0 <= gained <= elapsed;
  }

  lemma DivMod(n: nat, ms: nat)
    requires ms >= 1
    ensures n / ms * ms == n - n % ms && 0 <= n % ms < ms && 0 <= n / ms <= n
  {
    Grows(n / ms, ms);
  }

  lemma Grows(q: nat, ms: nat)
    requires ms >= 1
    ensures q <= q * ms
  {
  }

  /** A multiple no larger than `n` has no more periods than `n` holds. */
  lemma Quotient(x: int, n: nat, ms: nat)
    requires ms >= 1 && x * ms <= n
    ensures x <= n / ms
  {
    DivMod(n, ms);
    Less(n / ms, x, ms);
  }

  lemma Less(a: int, b: int, ms: nat)
    requires ms >= 1
    ensures a < b ==> a * ms + ms <= b * ms
  {
    if a < b {
      Distributes(a, b - a, ms);
      Grows(b - a - 1, ms);
      Distributes(b - a - 1, 1, ms);
    }
  }

  lemma Distributes(a: int, b: int, ms: nat)
    ensures (a + b) * ms == a * ms + b * ms
  {
  }

  /** Milliseconds of allowance: the tokens and the time toward the next. */
  function Potential(b: Bucket, ms: nat, now: int): int {
    b.tokens * ms + (now - b.refilledAt)
  }

  function Ceiling(rate: Rate): int {
    rate.burst * MsPerToken(rate) + MsPerToken(rate) - 1
  }

  /** The allowance of a key: no more than a burst and a token about to come;
      a burst for a key not held. */
  function Allowance(entries: map<string, Bucket>, rate: Rate, key: string, now: int): int {
    if key in entries then Min(Potential(entries[key], MsPerToken(rate), now), Ceiling(rate))
    else rate.burst * MsPerToken(rate)
  }

  lemma Products(a: int, b: int, ms: nat)
    requires ms >= 1
    ensures (a + b) * ms == a * ms + b * ms
    ensures a <= b ==> a * ms <= b * ms
    ensures a < b ==> a * ms + ms <= b * ms
  {
    Distributes(a, b, ms);
    Less(a, b, ms);
  }

  /** Refilling keeps the allowance, and the bucket's own is within it. */
  lemma RefillPotential(b: Bucket, rate: Rate, now: int)
    requires ValidRate(rate) && IsClock(now) && Sound(b, rate, now)
    ensures var ms := MsPerToken(rate);
      var full := Refilled(b, rate.burst, ms, now);
      && 0 <= Potential(full, ms, now) <= Min(Potential(b, ms, now), Ceiling(rate))
      && Min(Potential(b, ms, now), rate.burst * ms) <= Potential(full, ms, now)
      && 0 <= now - full.refilledAt < ms
  {
    var ms := MsPerToken(rate);
    var elapsed := now - b.refilledAt;
    RefillExact(b, rate, now);
    DivMod(elapsed, ms);
    var tokens := Min(b.tokens + elapsed / ms, rate.burst);
    Products(b.tokens, elapsed / ms, ms);
    Products(tokens, rate.burst, ms);
    Products(tokens, b.tokens + elapsed / ms, ms);
    Products(0, tokens, ms);
    Products(rate.burst, b.tokens + elapsed / ms, ms);
  }

  lemma SpentPotential(b: Bucket, rate: Rate, now: int)
    requires ValidRate(rate) && IsClock(now) && Sound(b, rate, now)
    ensures var ms := MsPerToken(rate);
      var (left, answer) := Spent(b, rate, now);
      && Sound(left, rate, now)
      && 0 <= Potential(left, ms, now)
      && Potential(left, ms, now) + (if answer.Taken? then ms else 0)
         <= Min(Potential(b, ms, now), Ceiling(rate))
  {
    var ms := MsPerToken(rate);
    RefillExact(b, rate, now);
    RefillPotential(b, rate, now);
    var full := Refilled(b, rate.burst, ms, now);
    Products(full.tokens, -1, ms);
    Products(0, full.tokens - 1, ms);
    hide Refilled, Gained, MsPerToken;
  }

  lemma FullPotential(rate: Rate, now: int)
    ensures Potential(Bucket(rate.burst, now), MsPerToken(rate), now) == rate.burst * MsPerToken(rate)
    ensures rate.burst * MsPerToken(rate) <= Ceiling(rate)
  {
  }

  /** A sweep past 10 000 buckets takes out exactly those that are full by now:
      the tokens they lacked took one period each to come back. */
  lemma SweptAreFull(entries: map<string, Bucket>, rate: Rate, now: int, key: string)
    requires ValidRate(rate) && IsClock(now) && AllSound(entries, rate, now)
    ensures var swept := Swept(entries, rate, now);
      && (key in swept ==> key in entries && swept[key] == entries[key])
      && (key in entries && key !in swept <==>
            key in entries && |entries| >= 10_000
            && entries[key].refilledAt + (rate.burst - entries[key].tokens) * MsPerToken(rate) <= now)
  {
    if key in entries {
      assert Sound(entries[key], rate, now);
      FullByNow(entries[key], rate, now);
    }
  }

  lemma FullByNow(b: Bucket, rate: Rate, now: int)
    requires ValidRate(rate) && IsClock(now) && Sound(b, rate, now)
    ensures Refills(b, rate, now) <==> now < b.refilledAt + (rate.burst - b.tokens) * MsPerToken(rate)
  {
    var ms := MsPerToken(rate);
    var elapsed, lacks := now - b.refilledAt, rate.burst - b.tokens;
    RefillExact(b, rate, now);
    DivMod(elapsed, ms);
    assert Saturated(b.tokens + elapsed / ms) < rate.burst <==> elapsed / ms < lacks;
    if elapsed / ms < lacks {
      Less(elapsed / ms, lacks, ms);
    } else if lacks < elapsed / ms {
      Less(lacks, elapsed / ms, ms);
    }
  }

  /** A swept bucket held a burst at least. */
  lemma SweepPotential(b: Bucket, rate: Rate, now: int)
    requires ValidRate(rate) && IsClock(now) && Sound(b, rate, now) && !Refills(b, rate, now)
    ensures Potential(b, MsPerToken(rate), now) >= rate.burst * MsPerToken(rate)
  {
    var ms := MsPerToken(rate);
    RefillExact(b, rate, now);
    var elapsed := now - b.refilledAt;
    DivMod(elapsed, ms);
    Products(b.tokens, elapsed / ms, ms);
    Products(rate.burst, b.tokens + elapsed / ms, ms);
  }

  /** One call: the key's allowance pays one period per token taken and grows
      by no more than the time passed. */
  lemma CallSpends(entries: map<string, Bucket>, rate: Rate, call: Call, key: string, from: int)
    requires ValidRate(rate) && 0 <= from <= call.now <= I64_MAX && AllSound(entries, rate, from)
    ensures var (next, answer) := Next(entries, rate, call, true);
      && AllSound(next, rate, call.now)
      && 0 <= Allowance(next, rate, key, call.now)
      && Allowance(next, rate, key, call.now)
         + (if call.key == key && answer.Taken? then MsPerToken(rate) else 0)
         <= Allowance(entries, rate, key, from) + call.now - from
  {
    var swept := Swept(entries, rate, call.now);
    assert AllSound(swept, rate, call.now);
    FullPotential(rate, call.now);
    SweepSpends(entries, rate, key, from, call.now);
    var found := Found(swept, rate, call.key, call.now);
    assert Sound(found, rate, call.now);
    SpentPotential(found, rate, call.now);
    Products(0, rate.burst, MsPerToken(rate));
    if key != call.key && key in swept {
      Products(0, swept[key].tokens, MsPerToken(rate));
    }
    hide Swept, Spent, MsPerToken, Ceiling, Potential;
  }

  lemma SweepSpends(entries: map<string, Bucket>, rate: Rate, key: string, from: int, now: int)
    requires ValidRate(rate) && 0 <= from <= now <= I64_MAX && AllSound(entries, rate, from)
    ensures Allowance(Swept(entries, rate, now), rate, key, now) <= Allowance(entries, rate, key, from) + now - from
  {
    FullPotential(rate, now);
    if key in entries && !Refills(entries[key], rate, now) {
      SweepPotential(entries[key], rate, now);
    }
    hide Refills, MsPerToken;
  }

  lemma {:induction false} RunSpends(entries: map<string, Bucket>, rate: Rate, calls: seq<Call>, key: string, from: int)
    requires ValidRate(rate) && 0 <= from && AllSound(entries, rate, from) && Ordered(calls, from)
    ensures AllSound(After(entries, rate, calls, true), rate, Last(calls, from))
    ensures from <= Last(calls, from) && (calls != [] ==> Last(calls, from) <= I64_MAX)
    ensures Takes(entries, rate, calls, key) * MsPerToken(rate)
         <= Max(Allowance(entries, rate, key, from), 0) + Last(calls, from) - from
    decreases |calls|
  {
    if calls != [] {
      var (next, answer) := Next(entries, rate, calls[0], true);
      CallSpends(entries, rate, calls[0], key, from);
      RunSpends(next, rate, calls[1..], key, calls[0].now);
      var one := if calls[0].key == key && answer.Taken? then 1 else 0;
      Products(one, Takes(next, rate, calls[1..], key), MsPerToken(rate));
      hide Next, MsPerToken, Allowance;
    }
  }

  lemma AllowanceBounds(entries: map<string, Bucket>, rate: Rate, key: string, now: int)
    ensures Allowance(entries, rate, key, now) <= Ceiling(rate) && 0 <= Ceiling(rate)
  {
    FullPotential(rate, now);
    Products(0, rate.burst, MsPerToken(rate));
  }

  /** The takes of a window are paid from a burst and the time of the window. */
  lemma WindowPays(entries: map<string, Bucket>, rate: Rate, window: seq<Call>, key: string, start: int, width: nat)
    requires ValidRate(rate) && IsClock(start) && AllSound(entries, rate, start)
    requires Ordered(window, start) && Last(window, start) <= start + width
    ensures Takes(entries, rate, window, key) * MsPerToken(rate) <= Ceiling(rate) + width
  {
    RunSpends(entries, rate, window, key, start);
    AllowanceBounds(entries, rate, key, start);
    hide MsPerToken, Takes, Last, Ordered, AllSound, Ceiling, Allowance;
  }

  lemma WindowFrom(entries: map<string, Bucket>, rate: Rate, window: seq<Call>, key: string, start: int, width: nat)
    requires ValidRate(rate) && IsClock(start) && AllSound(entries, rate, start)
    requires Ordered(window, start) && Last(window, start) <= start + width
    ensures Takes(entries, rate, window, key)
         <= rate.burst + (width + MsPerToken(rate) - 1) / MsPerToken(rate)
  {
    WindowPays(entries, rate, window, key, start, width);
    hide MsPerToken, Takes, Last, Ordered, AllSound;
    WithinBurst(Takes(entries, rate, window, key), rate.burst, width + MsPerToken(rate) - 1, MsPerToken(rate));
  }

  /** The bound: in any window of length W of any run from empty buckets, one
      key takes at most a burst and the tokens W brings back, rounded up. */
  lemma WindowBound(rate: Rate, before: seq<Call>, window: seq<Call>, key: string, start: int, width: nat)
    requires ValidRate(rate) && Ordered(before, 0) && Last(before, 0) <= start <= I64_MAX && Ordered(window, start)
    requires Last(window, start) <= start + width
    ensures Takes(After(map[], rate, before, true), rate, window, key)
         <= rate.burst + (width + MsPerToken(rate) - 1) / MsPerToken(rate)
  {
    RunSpends(map[], rate, before, key, 0);
    var entries := After(map[], rate, before, true);
    assert AllSound(entries, rate, start);
    hide MsPerToken, Takes, After, Last, Ordered, AllSound;
    WindowFrom(entries, rate, window, key, start, width);
  }

  lemma WithinBurst(takes: int, burst: nat, n: nat, ms: nat)
    requires ms >= 1 && takes * ms <= burst * ms + n
    ensures takes <= burst + n / ms
  {
    Distributes(takes - burst, burst, ms);
    Quotient(takes - burst, n, ms);
  }

  // The wait an empty bucket names.

  predicate Other(calls: seq<Call>, key: string) {
    forall i :: 0 <= i < |calls| ==> calls[i].key != key
  }

  /** Calls on other keys leave a bucket as it is, or sweep it once full. */
  lemma {:induction false} OthersKeep(
      entries: map<string, Bucket>, rate: Rate, calls: seq<Call>, key: string, from: int)
    requires ValidRate(rate) && 0 <= from && AllSound(entries, rate, from)
    requires Ordered(calls, from) && Other(calls, key) && key in entries
    ensures var after := After(entries, rate, calls, true);
      || (key in after && after[key] == entries[key])
      || (Last(calls, from) <= I64_MAX && key !in after && !Refills(entries[key], rate, Last(calls, from)))
    decreases |calls|
  {
    if calls != [] {
      var next := Next(entries, rate, calls[0], true).0;
      CallSpends(entries, rate, calls[0], key, from);
      RunSpends(next, rate, calls[1..], key, calls[0].now);
      if key in next {
        OthersKeep(next, rate, calls[1..], key, calls[0].now);
      } else {
        AbsentStays(next, rate, calls[1..], key);
        FullStays(entries[key], rate, calls[0].now, Last(calls[1..], calls[0].now));
      }
      hide Spent, Refills;
    }
  }

  lemma {:induction false} AbsentStays(entries: map<string, Bucket>, rate: Rate, calls: seq<Call>, key: string)
    requires Other(calls, key) && key !in entries
    ensures key !in After(entries, rate, calls, true)
    decreases |calls|
  {
    if calls != [] {
      AbsentStays(Next(entries, rate, calls[0], true).0, rate, calls[1..], key);
    }
  }

  /** A bucket back to full stays so while nobody takes. */
  lemma FullStays(b: Bucket, rate: Rate, now: int, later: int)
    requires ValidRate(rate) && IsClock(now) && now <= later <= I64_MAX && Sound(b, rate, now)
    requires !Refills(b, rate, now)
    ensures !Refills(b, rate, later)
  {
    var ms := MsPerToken(rate);
    RefillExact(b, rate, now);
    RefillExact(b, rate, later);
    DivMonotone(now - b.refilledAt, later - b.refilledAt, ms);
  }

  lemma DivMonotone(a: nat, b: nat, ms: nat)
    requires a <= b && ms >= 1
    ensures a / ms <= b / ms
  {
    DivMod(a, ms);
    Quotient(a / ms, b, ms);
  }

  /** After a refusal that names a wait, with no other take of the key, a take
      succeeds exactly from the named moment on, whatever other keys do. */
  lemma ExactWait(entries: map<string, Bucket>, rate: Rate, key: string, now: int, between: seq<Call>, at: int)
    requires ValidRate(rate) && rate.burst >= 1
    requires 0 <= now && now + MsPerToken(rate) <= I64_MAX && AllSound(entries, rate, now)
    requires Next(entries, rate, Call(key, now), true).1.Wait?
    requires Ordered(between, now) && Other(between, key) && Last(between, now) <= at <= I64_MAX
    ensures var (refused, answer) := Next(entries, rate, Call(key, now), true);
      Next(After(refused, rate, between, true), rate, Call(key, at), true).1.Taken? <==> at >= now + answer.ms
  {
    var ms := MsPerToken(rate);
    var (refused, answer) := Next(entries, rate, Call(key, now), true);
    CallSpends(entries, rate, Call(key, now), key, now);
    RefusedBucket(Found(Swept(entries, rate, now), rate, key, now), rate, now);
    var b := refused[key];
    assert b.tokens == 0 && 0 <= now - b.refilledAt < ms && answer.ms == b.refilledAt + ms - now;
    OthersKeep(refused, rate, between, key, now);
    RunSpends(refused, rate, between, key, now);
    var after := After(refused, rate, between, true);
    EmptyUntil(b, rate, at);
    if key !in after {
      FullStays(b, rate, Last(between, now), at);
      FullTakes(rate, at);
    } else if key !in Swept(after, rate, at) {
      FullTakes(rate, at);
    }
    hide Refills, Spent, MsPerToken, Refilled;
  }

  lemma RefusedBucket(b: Bucket, rate: Rate, now: int)
    requires ValidRate(rate) && IsClock(now) && Sound(b, rate, now) && now + MsPerToken(rate) <= I64_MAX
    requires Spent(b, rate, now).1.Wait?
    ensures var left, ms := Spent(b, rate, now).0, MsPerToken(rate);
      && left.tokens == 0 && 0 <= now - left.refilledAt < ms
      && Spent(b, rate, now).1.ms == left.refilledAt + ms - now
  {
    RefillExact(b, rate, now);
    RefillPotential(b, rate, now);
    hide Refilled, Gained, MsPerToken;
  }

  /** An empty bucket with no takes refuses before its period is over, takes
      from then on, and is swept only from then on. */
  lemma EmptyUntil(b: Bucket, rate: Rate, at: int)
    requires ValidRate(rate) && rate.burst >= 1 && b.tokens == 0 && 0 <= b.refilledAt <= at <= I64_MAX
    ensures Spent(b, rate, at).1.Taken? <==> at >= b.refilledAt + MsPerToken(rate)
    ensures !Refills(b, rate, at) ==> at >= b.refilledAt + MsPerToken(rate)
  {
    var ms := MsPerToken(rate);
    RefillExact(b, rate, at);
    var elapsed := at - b.refilledAt;
    DivMod(elapsed, ms);
    Quotient(1, Max(elapsed, ms), ms);
    hide Refilled, Gained, MsPerToken;
    if elapsed < ms {
      Less(0, elapsed / ms, ms);
    }
  }

  lemma FullTakes(rate: Rate, at: int)
    requires ValidRate(rate) && rate.burst >= 1 && IsClock(at)
    ensures Spent(Bucket(rate.burst, at), rate, at).1.Taken?
  {
    RefillExact(Bucket(rate.burst, at), rate, at);
  }

  // What sweeping changes.

  /** The least a key has left: its potential up to a burst. */
  function Floor(entries: map<string, Bucket>, rate: Rate, key: string, now: int): int {
    if key in entries then Min(Potential(entries[key], MsPerToken(rate), now), rate.burst * MsPerToken(rate))
    else rate.burst * MsPerToken(rate)
  }

  /** Buckets that sweep lead ones that never sweep by less than a token. */
  ghost predicate LeadsByLess(swept: map<string, Bucket>, kept: map<string, Bucket>, rate: Rate, now: int) {
    forall key :: Allowance(swept, rate, key, now) <= Floor(kept, rate, key, now) + MsPerToken(rate) - 1
  }

  lemma SpentFloor(b: Bucket, rate: Rate, now: int)
    requires ValidRate(rate) && IsClock(now) && Sound(b, rate, now)
    ensures var ms := MsPerToken(rate);
      var (left, answer) := Spent(b, rate, now);
      && Sound(left, rate, now)
      && 0 <= Potential(left, ms, now)
      && (answer.Wait? ==> Potential(left, ms, now) < ms)
      && Min(Potential(b, ms, now), rate.burst * ms) <= Potential(left, ms, now) + (if answer.Taken? then ms else 0)
      && (answer.Taken? ==> rate.burst >= 1 && Potential(left, ms, now) < rate.burst * ms)
  {
    var ms := MsPerToken(rate);
    RefillExact(b, rate, now);
    RefillPotential(b, rate, now);
    SpentPotential(b, rate, now);
    var full := Refilled(b, rate.burst, ms, now);
    Products(full.tokens, -1, ms);
    Products(full.tokens, rate.burst, ms);
    hide Refilled, Gained, MsPerToken;
  }

  /** One take of the same key on both sides. */
  lemma TakeLeads(s: Bucket, u: Bucket, rate: Rate, now: int)
    requires ValidRate(rate) && IsClock(now) && Sound(s, rate, now) && Sound(u, rate, now)
    requires var ms := MsPerToken(rate);
      Min(Potential(s, ms, now), Ceiling(rate)) <= Min(Potential(u, ms, now), rate.burst * ms) + ms - 1
    ensures var ms := MsPerToken(rate);
      var s', u' := Spent(s, rate, now).0, Spent(u, rate, now).0;
      Min(Potential(s', ms, now), Ceiling(rate)) <= Min(Potential(u', ms, now), rate.burst * ms) + ms - 1
  {
    SpentPotential(s, rate, now);
    SpentFloor(s, rate, now);
    SpentFloor(u, rate, now);
    Products(0, rate.burst, MsPerToken(rate));
    Products(1, rate.burst, MsPerToken(rate));
    hide Spent, MsPerToken, Potential;
  }

  lemma CallLeads(swept: map<string, Bucket>, kept: map<string, Bucket>, rate: Rate, call: Call, from: int)
    requires ValidRate(rate) && 0 <= from <= call.now <= I64_MAX
    requires AllSound(swept, rate, from) && AllSound(kept, rate, from) && LeadsByLess(swept, kept, rate, from)
    ensures var swept', kept' := Next(swept, rate, call, true).0, Next(kept, rate, call, false).0;
      AllSound(swept', rate, call.now) && AllSound(kept', rate, call.now) && LeadsByLess(swept', kept', rate, call.now)
  {
    var held := Swept(swept, rate, call.now);
    var ms := MsPerToken(rate);
    FullPotential(rate, call.now);
    forall key
      ensures Allowance(held, rate, key, call.now) <= Floor(kept, rate, key, call.now) + ms - 1
    {
      assert Allowance(swept, rate, key, from) <= Floor(kept, rate, key, from) + ms - 1;
      SweepSpends(swept, rate, key, from, call.now);
      Products(0, rate.burst, ms);
    }
    var s, u := Found(held, rate, call.key, call.now), Found(kept, rate, call.key, call.now);
    assert Allowance(held, rate, call.key, call.now) <= Floor(kept, rate, call.key, call.now) + ms - 1;
    assert AllSound(held, rate, call.now) && AllSound(kept, rate, call.now);
    hide Swept, Refills, MsPerToken, Potential, Ceiling;
    assert Sound(s, rate, call.now) && Sound(u, rate, call.now);
    TakeLeads(s, u, rate, call.now);
    SpentFloor(s, rate, call.now);
    SpentFloor(u, rate, call.now);
    hide Spent;
    var swept', kept' := Next(swept, rate, call, true).0, Next(kept, rate, call, false).0;
    forall key
      ensures Allowance(swept', rate, key, call.now) <= Floor(kept', rate, key, call.now) + ms - 1
    {
      assert Allowance(held, rate, key, call.now) <= Floor(kept, rate, key, call.now) + ms - 1;
    }
  }

  /** Over every run, sweeping lets a key hold at most one token more than
      never sweeping would. */
  lemma {:induction false} SweepLeadsByLess(
      swept: map<string, Bucket>, kept: map<string, Bucket>, rate: Rate, calls: seq<Call>, from: int)
    requires ValidRate(rate) && 0 <= from && Ordered(calls, from)
    requires AllSound(swept, rate, from) && AllSound(kept, rate, from) && LeadsByLess(swept, kept, rate, from)
    ensures var swept', kept' := After(swept, rate, calls, true), After(kept, rate, calls, false);
      LeadsByLess(swept', kept', rate, Last(calls, from))
    decreases |calls|
  {
    if calls != [] {
      CallLeads(swept, kept, rate, calls[0], from);
      SweepLeadsByLess(Next(swept, rate, calls[0], true).0, Next(kept, rate, calls[0], false).0, rate, calls[1..],
        calls[0].now);
      hide Next, LeadsByLess;
    }
  }

  // A swept key comes back full at its next take, with that moment's phase in
  // place of its own, so the two can part for good.

  predicate Times(times: seq<int>, from: int, to: int) {
    if times == [] then from <= to <= I64_MAX else from <= times[0] && Times(times[1..], times[0], to)
  }

  function Left(b: Bucket, rate: Rate, times: seq<int>): Bucket
    decreases |times|
  {
    if times == [] then b else Left(Spent(b, rate, times[0]).0, rate, times[1..])
  }

  /** After any takes at the same moments, a take the one bucket grants the
      other grants too. */
  ghost predicate NeverMore(one: Bucket, other: Bucket, rate: Rate, now: int) {
    forall times: seq<int>, at: int :: Times(times, now, at) ==>
      (Spent(Left(one, rate, times), rate, at).1.Taken? ==> Spent(Left(other, rate, times), rate, at).1.Taken?)
  }

  /** A whole number of periods passed since the bucket's refill. */
  predicate InPhase(b: Bucket, rate: Rate, now: int) {
    (now - b.refilledAt) % MsPerToken(rate) == 0
  }

  /** The end of the period a bucket is in at `now`. */
  function PeriodEnd(b: Bucket, rate: Rate, now: int): int {
    now + MsPerToken(rate) - (now - b.refilledAt) % MsPerToken(rate)
  }

  /** The first take of a key that was swept, beside the one of the bucket it
      had: both leave a burst less one, each in its own phase. */
  lemma FirstTakes(b: Bucket, rate: Rate, now: int)
    requires ValidRate(rate) && rate.burst >= 1 && IsClock(now) && Sound(b, rate, now) && !Refills(b, rate, now)
    ensures Spent(Bucket(rate.burst, now), rate, now) == (Bucket(rate.burst - 1, now), Taken)
    ensures Spent(b, rate, now)
      == (Bucket(rate.burst - 1, PeriodEnd(b, rate, now) - MsPerToken(rate)), Taken)
  {
    var ms := MsPerToken(rate);
    FullStays(b, rate, now, now);
    RefillExact(b, rate, now);
    RefillExact(Bucket(rate.burst, now), rate, now);
    ModOf(0, 0, ms);
    hide Refilled;
  }

  lemma ModOf(q: nat, r: nat, ms: nat)
    requires r < ms
    ensures (q * ms + r) % ms == r
  {
    var n := q * ms + r;
    DivMod(n, ms);
    Less(n / ms, q, ms);
    Less(q, n / ms, ms);
  }

  /** So many takes at one moment: each a token, and refusals past the last. */
  lemma {:induction false} DrainAt(b: Bucket, rate: Rate, at: int, n: nat)
    requires ValidRate(rate) && IsClock(at) && Sound(b, rate, at) && n > 0
    ensures var full := Refilled(b, rate.burst, MsPerToken(rate), at);
      Left(b, rate, seq(n, i => at)) == full.(tokens := Max(full.tokens - n, 0))
    decreases n
  {
    var ms := MsPerToken(rate);
    var full := Refilled(b, rate.burst, ms, at);
    var next := Spent(b, rate, at).0;
    RefillExact(b, rate, at);
    DivMod(at - b.refilledAt, ms);
    assert next == full.(tokens := Max(full.tokens - 1, 0));
    RefillExact(next, rate, at);
    DivMod(at - next.refilledAt, ms);
    Less(0, (at - next.refilledAt) / ms, ms);
    assert Refilled(next, rate.burst, ms, at) == next;
    assert seq(n, i => at)[1..] == seq(n - 1, i => at);
    hide Spent, Refilled;
    if n > 1 {
      DrainAt(next, rate, at, n - 1);
    }
  }

  /** A key swept while full and first taken from again at `now`: from that
      take on it never grants what its own bucket would have refused exactly
      when a whole number of periods had passed since that bucket's refill. */
  lemma SweepNeverMoreExactly(b: Bucket, rate: Rate, now: int)
    requires ValidRate(rate) && rate.burst >= 1 && IsClock(now) && now + MsPerToken(rate) <= I64_MAX
    requires Sound(b, rate, now) && !Refills(b, rate, now)
    ensures NeverMore(Spent(Bucket(rate.burst, now), rate, now).0, Spent(b, rate, now).0, rate, now)
       <==> InPhase(b, rate, now)
  {
    FirstTakes(b, rate, now);
    if !InPhase(b, rate, now) {
      PhasesPart(b, rate, now);
    }
  }

  /** Division at the end of a period and short of it. */
  lemma PeriodParts(r: nat, ms: nat)
    requires 0 < r < ms
    ensures ms / ms == 1 && ms % ms == 0 && (ms - r) / ms == 0 && (ms - r) % ms == ms - r
  {
    ModOf(1, 0, ms);
    DivMod(ms, ms);
    ModOf(0, ms - r, ms);
    DivMod(ms - r, ms);
    Less(0, (ms - r) / ms, ms);
    Less(1, ms / ms, ms);
  }

  /** At the end of the kept bucket's period it is full, and the swept one,
      which was first taken from at `now`, is still one short. */
  lemma NextPeriod(b: Bucket, rate: Rate, now: int)
    requires ValidRate(rate) && rate.burst >= 1 && IsClock(now) && now + MsPerToken(rate) <= I64_MAX
    requires Sound(b, rate, now) && !InPhase(b, rate, now)
    ensures var ms, at := MsPerToken(rate), PeriodEnd(b, rate, now);
      && 0 <= at - ms < now < at < now + ms
      && Refilled(Bucket(rate.burst - 1, at - ms), rate.burst, ms, at) == Bucket(rate.burst, at)
      && Refilled(Bucket(rate.burst - 1, now), rate.burst, ms, at) == Bucket(rate.burst - 1, now)
  {
    var ms := MsPerToken(rate);
    var r := (now - b.refilledAt) % ms;
    DivMod(now - b.refilledAt, ms);
    var at := now + ms - r;
    hide Refilled, Gained, MsPerToken;
    PeriodParts(r, ms);
    RefillExact(Bucket(rate.burst - 1, now - r), rate, at);
    RefillExact(Bucket(rate.burst - 1, now), rate, at);
  }

  /** The moments that tell the two apart: a burst at the kept bucket's next
      period, and one more take a period after the first. */
  function Apart(b: Bucket, rate: Rate, now: int): seq<int> {
    seq(rate.burst, i => PeriodEnd(b, rate, now))
  }

  /** What the moments of `Apart` leave: nothing on either side, but the swept
      one is in a period since its first take, the kept one begins its own. */
  lemma ApartLeaves(b: Bucket, rate: Rate, now: int)
    requires ValidRate(rate) && rate.burst >= 1 && IsClock(now) && now + MsPerToken(rate) <= I64_MAX
    requires Sound(b, rate, now) && !Refills(b, rate, now) && !InPhase(b, rate, now)
    ensures now < PeriodEnd(b, rate, now) < now + MsPerToken(rate)
    ensures Left(Spent(Bucket(rate.burst, now), rate, now).0, rate, Apart(b, rate, now)) == Bucket(0, now)
    ensures Left(Spent(b, rate, now).0, rate, Apart(b, rate, now)) == Bucket(0, PeriodEnd(b, rate, now))
    ensures Times(Apart(b, rate, now), now, now + MsPerToken(rate))
  {
    hide Spent, Refilled, Refills, Left, Times, MsPerToken, PeriodEnd, InPhase;
    var ms, at := MsPerToken(rate), PeriodEnd(b, rate, now);
    FirstTakes(b, rate, now);
    NextPeriod(b, rate, now);
    assert Apart(b, rate, now) == seq(rate.burst, i => at);
    DrainAt(Bucket(rate.burst - 1, at - ms), rate, at, rate.burst);
    DrainAt(Bucket(rate.burst - 1, now), rate, at, rate.burst);
    TimesThen(Apart(b, rate, now), at, now, now + ms);
  }

  /** Out of phase the two do part: past the moments of `Apart` the swept bucket
      grants a take that the kept one refuses. */
  lemma PhasesPart(b: Bucket, rate: Rate, now: int)
    requires ValidRate(rate) && rate.burst >= 1 && IsClock(now) && now + MsPerToken(rate) <= I64_MAX
    requires Sound(b, rate, now) && !Refills(b, rate, now) && !InPhase(b, rate, now)
    ensures var swept, kept := Spent(Bucket(rate.burst, now), rate, now).0, Spent(b, rate, now).0;
      var times, at := Apart(b, rate, now), now + MsPerToken(rate);
      && Times(times, now, at)
      && Spent(Left(swept, rate, times), rate, at).1.Taken?
      && Spent(Left(kept, rate, times), rate, at).1.Wait?
      && !NeverMore(swept, kept, rate, now)
  {
    ApartLeaves(b, rate, now);
    hide InPhase, Spent, Refills, Left, Times, MsPerToken, Apart, PeriodEnd;
    EmptyUntil(Bucket(0, PeriodEnd(b, rate, now)), rate, now + MsPerToken(rate));
    EmptyUntil(Bucket(0, now), rate, now + MsPerToken(rate));
  }

  lemma {:induction false} TimesThen(times: seq<int>, at: int, from: int, to: int)
    requires from <= at <= to <= I64_MAX && forall i :: 0 <= i < |times| ==> times[i] == at
    ensures Times(times, from, to)
  {
    if times != [] {
      TimesThen(times[1..], at, at, to);
    }
  }

  function CallsAt(key: string, times: seq<int>): seq<Call>
    decreases |times|
  {
    if times == [] then [] else [Call(key, times[0])] + CallsAt(key, times[1..])
  }

  /** No sweep finds the bucket full at any of its takes. */
  predicate Stands(b: Bucket, rate: Rate, times: seq<int>)
    decreases |times|
  {
    times == [] || (Refills(b, rate, times[0]) && Stands(Spent(b, rate, times[0]).0, rate, times[1..]))
  }

  /** Takes of one key alone move its bucket alone. */
  lemma {:induction false} KeyRun(
      entries: map<string, Bucket>, rate: Rate, key: string, times: seq<int>, sweeps: bool)
    requires key in entries && (sweeps ==> Stands(entries[key], rate, times))
    ensures var after := After(entries, rate, CallsAt(key, times), sweeps);
      key in after && after[key] == Left(entries[key], rate, times)
    decreases |times|
  {
    if times != [] {
      Sequences.Behind(Call(key, times[0]), CallsAt(key, times[1..]));
      hide Spent, Refills;
      KeyRun(Next(entries, rate, Call(key, times[0]), sweeps).0, rate, key, times[1..], sweeps);
    }
  }

  /** Short of a burst and of a period, a bucket gains nothing and is not swept. */
  lemma {:induction false} ShortStands(b: Bucket, rate: Rate, at: int, n: nat)
    requires ValidRate(rate) && IsClock(at) && Sound(b, rate, at)
    requires b.tokens < rate.burst && at - b.refilledAt < MsPerToken(rate)
    ensures Stands(b, rate, seq(n, i => at))
    decreases n
  {
    if n > 0 {
      var ms := MsPerToken(rate);
      RefillExact(b, rate, at);
      DivMod(at - b.refilledAt, ms);
      Less(0, (at - b.refilledAt) / ms, ms);
      assert seq(n, i => at)[1..] == seq(n - 1, i => at);
      ShortStands(Spent(b, rate, at).0, rate, at, n - 1);
    }
  }

  lemma FirstCall(entries: map<string, Bucket>, rate: Rate, call: Call, calls: seq<Call>, sweeps: bool)
    ensures After(entries, rate, [call] + calls, sweeps)
      == After(Next(entries, rate, call, sweeps).0, rate, calls, sweeps)
  {
    Sequences.Behind(call, calls);
  }

  /** A key not held takes a whole burst at once, and then waits for a period. */
  lemma BurstThenWait(entries: map<string, Bucket>, rate: Rate, key: string, now: int, n: nat)
    requires ValidRate(rate) && rate.burst >= 1 && IsClock(now) && now + MsPerToken(rate) <= I64_MAX && key !in entries
    ensures var after := After(entries, rate, CallsAt(key, seq(n, i => now)), true);
      Next(after, rate, Call(key, now), true).1 == if n < rate.burst then Taken else Wait(MsPerToken(rate))
  {
    var full := Bucket(rate.burst, now);
    FullTakes(rate, now);
    if n > 0 {
      var rest := seq(n - 1, i => now);
      BurstLeaves(rate, now, n);
      hide Spent, Refills, Stands, Left, After, Next, MsPerToken;
      FoundBy(entries, rate, key, now, true);
      var next := Next(entries, rate, Call(key, now), true).0;
      assert seq(n, i => now)[1..] == rest && seq(n, i => now)[0] == now;
      FirstCall(entries, rate, Call(key, now), CallsAt(key, rest), true);
      assert Found(entries, rate, key, now) == full;
      KeyRun(next, rate, key, rest, true);
      LastCall(After(next, rate, CallsAt(key, rest), true), rate, key, now);
    } else {
      NoneAfter(entries, rate);
      FullCall(entries, rate, key, now);
    }
  }

  lemma NoneAfter(entries: map<string, Bucket>, rate: Rate)
    ensures After(entries, rate, [], true) == entries
  {
  }

  lemma FullCall(entries: map<string, Bucket>, rate: Rate, key: string, now: int)
    requires ValidRate(rate) && rate.burst >= 1 && IsClock(now) && key !in entries
    ensures Next(entries, rate, Call(key, now), true).1.Taken?
  {
    FullTakes(rate, now);
    hide Spent;
  }

  lemma LastCall(entries: map<string, Bucket>, rate: Rate, key: string, now: int)
    requires key in entries && Refills(entries[key], rate, now)
    ensures Next(entries, rate, Call(key, now), true).1 == Spent(entries[key], rate, now).1
  {
    hide Spent, Refills;
  }

  /** What takes at one moment leave of a full bucket. */
  lemma BurstLeaves(rate: Rate, now: int, n: nat)
    requires ValidRate(rate) && rate.burst >= 1 && IsClock(now) && now + MsPerToken(rate) <= I64_MAX && n > 0
    ensures var first, rest := Spent(Bucket(rate.burst, now), rate, now).0, seq(n - 1, i => now);
      && Stands(first, rate, rest)
      && Left(first, rate, rest) == Bucket(Max(rate.burst - n, 0), now)
      && Refills(Left(first, rate, rest), rate, now)
      && Spent(Left(first, rate, rest), rate, now).1 == if n < rate.burst then Taken else Wait(MsPerToken(rate))
  {
    var first := Bucket(rate.burst - 1, now);
    RefillExact(Bucket(rate.burst, now), rate, now);
    ModOf(0, 0, MsPerToken(rate));
    assert Spent(Bucket(rate.burst, now), rate, now).0 == first;
    ShortStands(first, rate, now, n - 1);
    RefillExact(first, rate, now);
    hide Spent, Refills, Stands, MsPerToken;
    if n > 1 {
      DrainAt(first, rate, now, n - 1);
    }
    SpentShort(Bucket(Max(rate.burst - n, 0), now), rate, now);
  }

  /** Within its period a bucket short of a burst keeps what it has, and an
      empty one waits for the end of it. */
  lemma SpentShort(b: Bucket, rate: Rate, now: int)
    requires ValidRate(rate) && IsClock(now) && now + MsPerToken(rate) <= I64_MAX
    requires 0 <= b.tokens < rate.burst && b.refilledAt == now
    ensures Refills(b, rate, now)
    ensures Spent(b, rate, now).1 == if b.tokens > 0 then Taken else Wait(MsPerToken(rate))
  {
    RefillExact(b, rate, now);
    ModOf(0, 0, MsPerToken(rate));
  }

  /** Another key's call sweeps a full bucket, or leaves it where none is swept. */
  lemma OthersCall(entries: map<string, Bucket>, rate: Rate, key: string, call: Call, sweeps: bool)
    requires key in entries && call.key != key && !Refills(entries[key], rate, call.now)
    requires sweeps ==> |entries| >= SWEEP_THRESHOLD
    ensures var next := Next(entries, rate, call, sweeps).0;
      if sweeps then key !in next else key in next && next[key] == entries[key]
  {
    hide Spent;
  }

  /** A take of a key that a sweep removed, or one no sweep ever looks at. */
  lemma FoundBy(entries: map<string, Bucket>, rate: Rate, key: string, now: int, sweeps: bool)
    requires sweeps ==> key !in entries
    ensures var next := Next(entries, rate, Call(key, now), sweeps).0;
      key in next && next[key] == Spent(Found(entries, rate, key, now), rate, now).0
  {
    hide Spent;
  }

  /** The other key's call, the key's first take, and takes at some moments. */
  function Parting(key: string, other: string, swept: int, now: int, times: seq<int>): seq<Call> {
    [Call(other, swept)] + ([Call(key, now)] + CallsAt(key, times))
  }

  lemma PartingEnds(
      entries: map<string, Bucket>, rate: Rate, key: string, other: string, swept: int, now: int, times: seq<int>,
      sweeps: bool)
    requires key in entries && other != key && !Refills(entries[key], rate, swept)
    requires sweeps ==> |entries| >= SWEEP_THRESHOLD
    requires sweeps ==> Stands(Spent(Bucket(rate.burst, now), rate, now).0, rate, times)
    ensures var after := After(entries, rate, Parting(key, other, swept, now, times), sweeps);
      var found := if sweeps then Bucket(rate.burst, now) else entries[key];
      key in after && after[key] == Left(Spent(found, rate, now).0, rate, times)
  {
    hide Spent, Refills, Stands, Left, After, Next, CallsAt;
    var met := Next(entries, rate, Call(other, swept), sweeps).0;
    var taken := Next(met, rate, Call(key, now), sweeps).0;
    OthersCall(entries, rate, key, Call(other, swept), sweeps);
    FoundBy(met, rate, key, now, sweeps);
    KeyRun(taken, rate, key, times, sweeps);
    FirstCall(met, rate, Call(key, now), CallsAt(key, times), sweeps);
    FirstCall(entries, rate, Call(other, swept), [Call(key, now)] + CallsAt(key, times), sweeps);
  }

  /** A key's bucket decides its next take, or a full one where it was swept. */
  lemma Decides(entries: map<string, Bucket>, rate: Rate, key: string, at: int, sweeps: bool)
    requires ValidRate(rate) && rate.burst >= 1 && IsClock(at) && key in entries
    ensures sweeps && Spent(entries[key], rate, at).1.Taken? ==> Next(entries, rate, Call(key, at), sweeps).1.Taken?
    ensures !sweeps ==> Next(entries, rate, Call(key, at), sweeps).1 == Spent(entries[key], rate, at).1
  {
    FullTakes(rate, at);
    hide Spent;
  }

  /** The answer to one more take past such a run, from the key's own bucket. */
  lemma PartingAnswers(
      entries: map<string, Bucket>, rate: Rate, key: string, other: string, swept: int, now: int, times: seq<int>,
      last: int, sweeps: bool)
    requires ValidRate(rate) && rate.burst >= 1 && IsClock(last)
    requires key in entries && other != key && !Refills(entries[key], rate, swept)
    requires sweeps ==> |entries| >= SWEEP_THRESHOLD
    requires sweeps ==> Stands(Spent(Bucket(rate.burst, now), rate, now).0, rate, times)
    ensures var after := After(entries, rate, Parting(key, other, swept, now, times), sweeps);
      var found := if sweeps then Bucket(rate.burst, now) else entries[key];
      var own := Spent(Left(Spent(found, rate, now).0, rate, times), rate, last).1;
      var answer := Next(after, rate, Call(key, last), sweeps).1;
      if sweeps then own.Taken? ==> answer.Taken? else answer == own
  {
    hide *;
    PartingEnds(entries, rate, key, other, swept, now, times, sweeps);
    Decides(After(entries, rate, Parting(key, other, swept, now, times), sweeps), rate, key, last, sweeps);
  }

  lemma SweepingGrants(
      entries: map<string, Bucket>, rate: Rate, key: string, other: string, swept: int, now: int, last: int)
    requires ValidRate(rate) && rate.burst >= 1 && IsClock(now) && IsClock(last) && last == now + MsPerToken(rate)
    requires |entries| >= SWEEP_THRESHOLD && key in entries && other != key && Sound(entries[key], rate, now)
    requires !Refills(entries[key], rate, swept) && !Refills(entries[key], rate, now)
    requires !InPhase(entries[key], rate, now)
    ensures var calls := Parting(key, other, swept, now, Apart(entries[key], rate, now));
      Next(After(entries, rate, calls, true), rate, Call(key, last), true).1.Taken?
  {
    hide Spent, Refills, Stands, Left, After, Next, Parting, Apart, MsPerToken, InPhase, Times, NeverMore, Found;
    PartsStands(entries[key], rate, now);
    PhasesPart(entries[key], rate, now);
    PartingAnswers(entries, rate, key, other, swept, now, Apart(entries[key], rate, now), last, true);
  }

  lemma KeepingRefuses(
      entries: map<string, Bucket>, rate: Rate, key: string, other: string, swept: int, now: int, last: int)
    requires ValidRate(rate) && rate.burst >= 1 && IsClock(now) && IsClock(last) && last == now + MsPerToken(rate)
    requires key in entries && other != key && Sound(entries[key], rate, now)
    requires !Refills(entries[key], rate, swept) && !Refills(entries[key], rate, now)
    requires !InPhase(entries[key], rate, now)
    ensures var calls := Parting(key, other, swept, now, Apart(entries[key], rate, now));
      Next(After(entries, rate, calls, false), rate, Call(key, last), false).1.Wait?
  {
    hide Spent, Refills, Stands, Left, After, Next, Parting, Apart, MsPerToken, InPhase, Times, NeverMore, Found;
    PhasesPart(entries[key], rate, now);
    PartingAnswers(entries, rate, key, other, swept, now, Apart(entries[key], rate, now), last, false);
  }

  /** A run of the buckets in which sweeping grants more: another key's call
      sweeps the full bucket, the key is taken from out of its phase, and past
      the moments of `Apart` the map that sweeps grants a take that the map
      that never sweeps refuses. */
  lemma SweepingRunGrantsMore(
      entries: map<string, Bucket>, rate: Rate, key: string, other: string, swept: int, now: int)
    requires ValidRate(rate) && rate.burst >= 1 && IsClock(swept) && swept <= now && now + MsPerToken(rate) <= I64_MAX
    requires |entries| >= SWEEP_THRESHOLD && key in entries && other != key && Sound(entries[key], rate, swept)
    requires !Refills(entries[key], rate, swept) && !InPhase(entries[key], rate, now)
    ensures var calls := Parting(key, other, swept, now, Apart(entries[key], rate, now));
      var last := Call(key, now + MsPerToken(rate));
      && Next(After(entries, rate, calls, true), rate, last, true).1.Taken?
      && Next(After(entries, rate, calls, false), rate, last, false).1.Wait?
  {
    hide Spent, Refills, After, Next, Parting, Apart, MsPerToken, InPhase;
    FullStays(entries[key], rate, swept, now);
    SweepingGrants(entries, rate, key, other, swept, now, now + MsPerToken(rate));
    KeepingRefuses(entries, rate, key, other, swept, now, now + MsPerToken(rate));
  }

  /** At the moments of `Apart` no sweep finds the swept bucket full again. */
  lemma PartsStands(b: Bucket, rate: Rate, now: int)
    requires ValidRate(rate) && rate.burst >= 1 && IsClock(now) && now + MsPerToken(rate) <= I64_MAX
    requires Sound(b, rate, now) && !Refills(b, rate, now) && !InPhase(b, rate, now)
    ensures Stands(Spent(Bucket(rate.burst, now), rate, now).0, rate, Apart(b, rate, now))
  {
    hide Spent, Refills, Stands, PeriodEnd, InPhase, Refilled;
    var at := PeriodEnd(b, rate, now);
    FirstTakes(b, rate, now);
    NextPeriod(b, rate, now);
    ShortStands(Bucket(rate.burst - 1, now), rate, at, rate.burst);
    assert Apart(b, rate, now) == seq(rate.burst, i => at);
  }

  // ---------------------------------------------------------------------
  // The backoff of failed attempts
  // ---------------------------------------------------------------------

  const FREE_FAILURES: nat := 3
  const INITIAL_DELAY_MS: int := 2_000
  const MAX_DELAY_MS: int := 900_000
  const FORGET_AFTER_MS: int := 3_600_000

  function Pow2(n: nat): nat {
    if n == 0 then 1 else 2 * Pow2(n - 1)
  }

  /** The signed 64-bit value of the low 64 bits. */
  function Wrapped(n: int): int {
    var low := n % 0x1_0000_0000_0000_0000;
    if low > I64_MAX then low - 0x1_0000_0000_0000_0000 else low
  }

  /** A left shift that checks its width alone: bits shifted out are lost. */
  function CheckedShl(n: int, width: nat): Option<int> {
    if width >= 64 then None else Some(Wrapped(n * Pow2(width)))
  }

  function DelayAfter(failures: nat): int {
    if failures < FREE_FAILURES + 1 then 0
    else
      match CheckedShl(INITIAL_DELAY_MS, failures - (FREE_FAILURES + 1))
      case None => MAX_DELAY_MS
      case Some(delay) => Min(delay, MAX_DELAY_MS)
  }

  /** What the delays are meant to be: doubled from the first up to the cap. */
  function IntendedDelay(failures: nat): int {
    if failures <= FREE_FAILURES then 0
    else Min(INITIAL_DELAY_MS * Pow2(failures - FREE_FAILURES - 1), MAX_DELAY_MS)
  }

  lemma {:induction false} Pow2Grows(a: nat, b: nat)
    requires a <= b
    ensures 1 <= Pow2(a) <= Pow2(b)
    decreases b
  {
    if a < b {
      Pow2Grows(a, b - 1);
    } else if b > 0 {
      Pow2Grows(b - 1, b - 1);
    }
  }

  predicate Overflows(failures: nat) {
    57 <= failures <= 67 && failures != 62
  }

  /** The delay is the intended one for every count of failures but ten, whose
      shift loses the bits that held it; those delay nothing at all. */
  lemma DelayIsIntendedExactly(failures: nat)
    ensures DelayAfter(failures) == IntendedDelay(failures) <==> !Overflows(failures)
    ensures Overflows(failures) ==> DelayAfter(failures) <= 0
    ensures DelayAfter(failures) <= MAX_DELAY_MS
  {
    if failures >= FREE_FAILURES + 1 {
      var width := failures - 4;
      if width <= 52 {
        Pow2Grows(width, 52);
        Pow2At(52, 0x10_0000_0000_0000);
      } else {
        Pow2Grows(53, width);
        Pow2At(53, 0x20_0000_0000_0000);
        if width < 64 {
          WideShift(width);
        }
      }
    }
  }

  lemma Doubles(n: nat)
    ensures Pow2(n + 1) == 2 * Pow2(n)
  {
  }

  lemma FourMore(n: nat)
    ensures Pow2(n + 4) == 0x10 * Pow2(n)
  {
    Doubles(n);
    Doubles(n + 1);
    Doubles(n + 2);
    Doubles(n + 3);
    hide Pow2;
  }

  lemma SixteenMore(n: nat)
    ensures Pow2(n + 16) == 0x1_0000 * Pow2(n)
  {
    hide Pow2;
    FourMore(n);
    FourMore(n + 4);
    FourMore(n + 8);
    FourMore(n + 12);
  }

  lemma FortyEightMore(n: nat)
    ensures Pow2(n + 48) == 0x1_0000_0000_0000 * Pow2(n)
  {
    hide Pow2;
    SixteenMore(n);
    SixteenMore(n + 16);
    SixteenMore(n + 32);
  }

  lemma FirstPowers(n: nat)
    requires n == 4 || n == 5
    ensures Pow2(n) == if n == 4 then 0x10 else 0x20
  {
    assert Pow2(n - 1) == 2 * Pow2(n - 2) && Pow2(n - 2) == 2 * Pow2(n - 3) && Pow2(n - 3) == 2 * Pow2(n - 4);
  }

  lemma Pow2At(n: nat, value: nat)
    requires (n == 52 && value == 0x10_0000_0000_0000) || (n == 53 && value == 0x20_0000_0000_0000)
    ensures Pow2(n) == value
  {
    hide Pow2;
    FirstPowers(n - 48);
    FortyEightMore(n - 48);
  }

  /** 2000 is 125 times 16, so past 52 places the sign bit and then every bit
      of 125 is shifted out in turn. */
  lemma WideShift(width: nat)
    requires 53 <= width < 64
    ensures Wrapped(INITIAL_DELAY_MS * Pow2(width)) <= 0 <==> width != 58
    ensures width == 58 ==> Wrapped(INITIAL_DELAY_MS * Pow2(width)) >= MAX_DELAY_MS
  {
    Pow2At(53, 0x20_0000_0000_0000);
    var k := width - 53;
    assert Pow2(width) == 0x20_0000_0000_0000 * Small(k) by { SmallPow(k); }
    hide Pow2;
  }

  function Small(k: nat): nat
    requires k < 11
  {
    [1, 2, 4, 8, 16, 32, 64, 128, 256, 512, 1024][k]
  }

  lemma SmallPow(k: nat)
    requires k < 11
    ensures Pow2(53 + k) == Pow2(53) * Small(k)
  {
    hide Pow2;
    Doubles(53);
    Doubles(54);
    Doubles(55);
    Doubles(56);
    Doubles(57);
    Doubles(58);
    Doubles(59);
    Doubles(60);
    Doubles(61);
    Doubles(62);
  }

  /** Up to 56 failures the delays never shrink. */
  lemma DelaysGrow(a: nat, b: nat)
    requires a <= b <= 56
    ensures 0 <= DelayAfter(a) <= DelayAfter(b)
  {
    DelayIsIntendedExactly(a);
    DelayIsIntendedExactly(b);
    if a > FREE_FAILURES {
      Pow2Grows(a - 4, b - 4);
    }
    if b > FREE_FAILURES {
      Pow2Grows(0, b - 4);
    }
  }

  datatype Entry = Entry(failures: nat, lastFailureAt: int, blockedUntil: int)

  predicate Stale(e: Entry, now: int) {
    Saturated(now - e.lastFailureAt) >= FORGET_AFTER_MS
  }

  function Forgotten(entries: map<string, Entry>, now: int): map<string, Entry> {
    if |entries| >= SWEEP_THRESHOLD then map key | key in entries && !Stale(entries[key], now) :: entries[key]
    else entries
  }

  function Failed(entries: map<string, Entry>, key: string, now: int): map<string, Entry> {
    var entry := if key in entries then entries[key] else Entry(0, now, 0);
    var before := if Stale(entry, now) then 0 else entry.failures;
    var failures := Min(before + 1, U32_MAX);
    entries[key := Entry(failures, now, Saturated(now + DelayAfter(failures)))]
  }

  function FailedAll(entries: map<string, Entry>, keys: seq<string>, now: int): map<string, Entry>
    decreases |keys|
  {
    if keys == [] then entries else FailedAll(Failed(entries, keys[0], now), keys[1..], now)
  }

  function Cleared(entries: map<string, Entry>, keys: seq<string>): map<string, Entry> {
    map key | key in entries && key !in keys :: entries[key]
  }

  /** How long a key is held at a moment. */
  function Remaining(entries: map<string, Entry>, key: string, now: int): int {
    if key in entries then Max(Saturated(entries[key].blockedUntil - now), 0) else 0
  }

  /** The longest remaining block of the keys; nothing when none is held. */
  function BlockedFor(entries: map<string, Entry>, keys: seq<string>, now: int): Option<int> {
    if keys == [] then None
    else
      var rest := BlockedFor(entries, keys[1..], now);
      var remaining := Remaining(entries, keys[0], now);
      if remaining <= 0 then rest
      else if rest.Some? && rest.value >= remaining then rest
      else Some(remaining)
  }

  lemma {:induction false} OthersUnfailed(entries: map<string, Entry>, keys: seq<string>, now: int)
    ensures forall other :: other !in keys ==> (other in FailedAll(entries, keys, now) <==> other in entries)
    ensures forall other :: other !in keys && other in entries ==>
      FailedAll(entries, keys, now)[other] == entries[other]
    decreases |keys|
  {
    if keys != [] {
      OthersUnfailed(Failed(entries, keys[0], now), keys[1..], now);
      assert forall other :: other !in keys ==> other != keys[0] && other !in keys[1..];
    }
  }

  /** A failure forgets the keys quiet for an hour once ten thousand are held,
      and changes no other key. */
  lemma OthersKept(entries: map<string, Entry>, keys: seq<string>, now: int, other: string)
    requires other !in keys && IsClock(now) && forall key :: key in entries ==> 0 <= entries[key].lastFailureAt <= now
    ensures var next := FailedAll(Forgotten(entries, now), keys, now);
      && (other in next <==>
            other in entries && (|entries| < 10_000 || now - entries[other].lastFailureAt < 3_600_000))
      && (other in next ==> next[other] == entries[other])
  {
    OthersUnfailed(Forgotten(entries, now), keys, now);
    hide FailedAll;
  }

  /** The longest of the blocks that still run, or none runs. */
  lemma {:induction false} LongestBlock(entries: map<string, Entry>, keys: seq<string>, now: int)
    requires IsClock(now) && forall key :: key in entries ==> 0 <= entries[key].blockedUntil <= I64_MAX
    ensures var blocked := BlockedFor(entries, keys, now);
      && (blocked.None? <==> forall key :: key in keys && key in entries ==> entries[key].blockedUntil <= now)
      && (blocked.Some? ==>
            && blocked.value > 0
            && (exists key :: key in keys && key in entries && entries[key].blockedUntil == now + blocked.value)
            && forall key :: key in keys && key in entries ==> entries[key].blockedUntil <= now + blocked.value)
  {
    if keys != [] {
      LongestBlock(entries, keys[1..], now);
      Sequences.Cons(keys);
      assert forall key :: key in keys <==> key == keys[0] || key in keys[1..];
    }
  }

  class RateLimiter {
    var entries: map<string, Entry>

    constructor ()
      ensures entries == map[]
    {
      entries := map[];
    }

    method RecordFailure(keys: seq<string>, now: int)
      modifies this
      ensures entries == FailedAll(Forgotten(old(entries), now), keys, now)
    {
      if |entries| >= SWEEP_THRESHOLD {
        entries := map key | key in entries && !Stale(entries[key], now) :: entries[key];
      }
      assert keys[0..] == keys;
      for i := 0 to |keys|
        invariant FailedAll(entries, keys[i..], now) == FailedAll(Forgotten(old(entries), now), keys, now)
      {
        var key := keys[i];
        assert keys[i..][0] == key && keys[i..][1..] == keys[i + 1..];
        var entry := if key in entries then entries[key] else Entry(0, now, 0);
        if Stale(entry, now) {
          entry := entry.(failures := 0);
        }
        entry := entry.(failures := Min(entry.failures + 1, U32_MAX));
        entry := entry.(lastFailureAt := now);
        entry := entry.(blockedUntil := Saturated(now + DelayAfter(entry.failures)));
        entries := entries[key := entry];
      }
    }

    method RecordSuccess(keys: seq<string>)
      modifies this
      ensures entries == Cleared(old(entries), keys)
      ensures forall other :: other in entries <==> other in old(entries) && other !in keys
      ensures forall other :: other in entries ==> entries[other] == old(entries)[other]
    {
      for i := 0 to |keys|
        invariant entries == Cleared(old(entries), keys[..i])
      {
        assert keys[..i + 1] == keys[..i] + [keys[i]];
        entries := entries - {keys[i]};
      }
      assert keys[..|keys|] == keys;
    }
  }

  // Sweeping against never sweeping.

  datatype Attempt = Failure(keys: seq<string>, now: int) | Success(keys: seq<string>)

  function Recorded(entries: map<string, Entry>, attempt: Attempt, sweeps: bool): map<string, Entry> {
    match attempt
    case Failure(keys, now) => FailedAll(if sweeps then Forgotten(entries, now) else entries, keys, now)
    case Success(keys) => Cleared(entries, keys)
  }

  function History(entries: map<string, Entry>, attempts: seq<Attempt>, sweeps: bool): map<string, Entry>
    decreases |attempts|
  {
    if attempts == [] then entries else History(Recorded(entries, attempts[0], sweeps), attempts[1..], sweeps)
  }

  function Moment(attempt: Attempt, before: int): int {
    if attempt.Failure? then attempt.now else before
  }

  predicate Forward(attempts: seq<Attempt>, from: int, to: int) {
    if attempts == [] then from <= to
    else from <= Moment(attempts[0], from) && Forward(attempts[1..], Moment(attempts[0], from), to)
  }

  /** The tracker that sweeps differs by stale entries alone, and an entry
      holds no longer than the longest delay. */
  ghost predicate Forgets(swept: map<string, Entry>, kept: map<string, Entry>, now: int) {
    && (forall key :: key in swept ==> key in kept && swept[key] == kept[key])
    && (forall key :: key in kept && key !in swept ==> Stale(kept[key], now))
    && (forall key :: key in kept ==> kept[key].blockedUntil <= kept[key].lastFailureAt + MAX_DELAY_MS)
  }

  predicate Is64(n: int) {
    I64_MIN <= n <= I64_MAX
  }

  lemma FailureForgets(swept: map<string, Entry>, kept: map<string, Entry>, key: string, now: int)
    requires Forgets(swept, kept, now) && Is64(now)
    ensures Forgets(Failed(swept, key, now), Failed(kept, key, now), now)
  {
    var entry := Failed(kept, key, now)[key];
    DelayIsIntendedExactly(entry.failures);
    assert Failed(swept, key, now)[key] == entry;
    hide DelayAfter;
  }

  lemma {:induction false} FailuresForget(
      swept: map<string, Entry>, kept: map<string, Entry>, keys: seq<string>, now: int)
    requires Forgets(swept, kept, now) && Is64(now)
    ensures Forgets(FailedAll(swept, keys, now), FailedAll(kept, keys, now), now)
    decreases |keys|
  {
    if keys != [] {
      FailureForgets(swept, kept, keys[0], now);
      hide Forgets, Failed;
      FailuresForget(Failed(swept, keys[0], now), Failed(kept, keys[0], now), keys[1..], now);
    }
  }

  lemma SweepForgets(swept: map<string, Entry>, kept: map<string, Entry>, before: int, now: int)
    requires Forgets(swept, kept, before) && before <= now
    ensures Forgets(Forgotten(swept, now), kept, now)
  {
  }

  lemma {:induction false} SameRemaining(
      swept: map<string, Entry>, kept: map<string, Entry>, keys: seq<string>, now: int)
    requires Forgets(swept, kept, now)
    ensures BlockedFor(swept, keys, now) == BlockedFor(kept, keys, now)
  {
    if keys != [] {
      SameRemaining(swept, kept, keys[1..], now);
      assert Remaining(swept, keys[0], now) == Remaining(kept, keys[0], now);
    }
  }

  /** A limiter that sweeps answers every question as one that never does,
      over every run whose clock never goes back. */
  lemma {:induction false} SweepIsInvisible(
      swept: map<string, Entry>, kept: map<string, Entry>, attempts: seq<Attempt>, from: int,
      keys: seq<string>, at: int)
    requires Forgets(swept, kept, from) && Forward(attempts, from, at)
    requires forall attempt :: attempt in attempts && attempt.Failure? ==> Is64(attempt.now)
    ensures BlockedFor(History(swept, attempts, true), keys, at) == BlockedFor(History(kept, attempts, false), keys, at)
    decreases |attempts|
  {
    if attempts == [] {
      SweepForgets(swept, kept, from, at);
      assert Forgets(swept, kept, at);
      SameRemaining(swept, kept, keys, at);
    } else {
      var now := Moment(attempts[0], from);
      match attempts[0] {
        case Failure(failed, _) =>
          SweepForgets(swept, kept, from, now);
          FailuresForget(Forgotten(swept, now), kept, failed, now);
        case Success(cleared) =>
      }
      assert Forgets(Recorded(swept, attempts[0], true), Recorded(kept, attempts[0], false), now);
      hide Forgets, Recorded;
      SweepIsInvisible(Recorded(swept, attempts[0], true), Recorded(kept, attempts[0], false), attempts[1..], now,
        keys, at);
    }
  }

  // Failures of one key counted over a history.

  /** The failures of a key in a row, and the moment of the last. */
  datatype Streak = Streak(count: nat, last: int)

  /** One more failure; behind a quiet hour it is the first again. */
  function Struck(streak: Streak, keys: seq<string>, key: string, now: int): Streak
    decreases |keys|
  {
    if keys == [] then streak
    else if keys[0] != key then Struck(streak, keys[1..], key, now)
    else
      var quiet := streak.count > 0 && now - streak.last >= 3_600_000;
      Struck(Streak(if quiet then 1 else streak.count + 1, now), keys[1..], key, now)
  }

  /** A success ends it. */
  function StreakOf(streak: Streak, attempts: seq<Attempt>, key: string): Streak
    decreases |attempts|
  {
    if attempts == [] then streak
    else
      match attempts[0]
      case Failure(keys, now) => StreakOf(Struck(streak, keys, key, now), attempts[1..], key)
      case Success(keys) =>
        StreakOf(if key in keys then Streak(0, streak.last) else streak, attempts[1..], key)
  }

  predicate Tracks(entries: map<string, Entry>, key: string, streak: Streak) {
    && (key in entries <==> streak.count > 0)
    && (key in entries ==>
          var failures := Min(streak.count, U32_MAX);
          entries[key] == Entry(failures, streak.last, streak.last + DelayAfter(failures)))
  }

  lemma FailedTracks(entries: map<string, Entry>, failed: string, key: string, streak: Streak, now: int)
    requires Tracks(entries, key, streak)
    requires 0 <= now && now + MAX_DELAY_MS <= I64_MAX && (streak.count > 0 ==> 0 <= streak.last <= now)
    ensures var next := Struck(streak, [failed], key, now);
      && Tracks(Failed(entries, failed, now), key, next)
      && (next.count > 0 ==> 0 <= next.last <= now)
  {
    assert [failed][1..] == [];
    if failed == key {
      var entry := Failed(entries, key, now)[key];
      DelayIsIntendedExactly(entry.failures);
      DelayNotNegative(entry.failures);
    }
    hide DelayAfter;
  }

  /** A lost shift may come out below zero, yet never far. */
  lemma DelayNotNegative(failures: nat)
    ensures DelayAfter(failures) >= I64_MIN
  {
    hide Pow2;
  }

  lemma {:induction false} FailuresTrack(
      entries: map<string, Entry>, keys: seq<string>, key: string, streak: Streak, now: int)
    requires Tracks(entries, key, streak)
    requires 0 <= now && now + MAX_DELAY_MS <= I64_MAX && (streak.count > 0 ==> 0 <= streak.last <= now)
    ensures var next := Struck(streak, keys, key, now);
      && Tracks(FailedAll(entries, keys, now), key, next)
      && (next.count > 0 ==> 0 <= next.last <= now)
    decreases |keys|
  {
    if keys != [] {
      FailedTracks(entries, keys[0], key, streak, now);
      assert [keys[0]][1..] == [];
      hide Tracks, Failed;
      FailuresTrack(Failed(entries, keys[0], now), keys[1..], key, Struck(streak, [keys[0]], key, now), now);
    }
  }

  lemma {:induction false} HistoryTracks(
      entries: map<string, Entry>, attempts: seq<Attempt>, key: string, streak: Streak, from: int, at: int)
    requires Tracks(entries, key, streak) && (streak.count > 0 ==> 0 <= streak.last <= from)
    requires 0 <= from && Forward(attempts, from, at)
    requires forall attempt :: attempt in attempts && attempt.Failure? ==> attempt.now + MAX_DELAY_MS <= I64_MAX
    ensures var end := StreakOf(streak, attempts, key);
      Tracks(History(entries, attempts, false), key, end) && (end.count > 0 ==> 0 <= end.last <= at)
    decreases |attempts|
  {
    if attempts != [] {
      match attempts[0] {
        case Failure(keys, now) =>
          FailuresTrack(entries, keys, key, streak, now);
          hide Tracks;
          HistoryTracks(FailedAll(entries, keys, now), attempts[1..], key, Struck(streak, keys, key, now), now, at);
        case Success(keys) =>
          HistoryTracks(Cleared(entries, keys), attempts[1..], key,
            if key in keys then Streak(0, streak.last) else streak, from, at);
      }
    }
  }

  /** What a key is held for after any history, sweeps and all: nothing up to
      three failures in a row, then two seconds doubled by each more up to a
      quarter of an hour, from the last failure on; and nothing at the ten
      counts whose shift loses its bits. */
  lemma StreakHolds(attempts: seq<Attempt>, key: string, from: int, at: int)
    requires 0 <= from && Forward(attempts, from, at) && at <= I64_MAX
    requires forall attempt :: attempt in attempts && attempt.Failure? ==> attempt.now + 900_000 <= I64_MAX
    ensures var streak := StreakOf(Streak(0, from), attempts, key);
      var n := streak.count;
      BlockedFor(History(map[], attempts, true), [key], at) ==
        if n <= 3 || (57 <= n <= 67 && n != 62) then None
        else
          var until := streak.last + Min(2_000 * Pow2(n - 4), 900_000);
          if until > at then Some(until - at) else None
  {
    hide Tracks, History, StreakOf, Forward, Min, Pow2, BlockedFor;
    var streak := StreakOf(Streak(0, from), attempts, key);
    SweptSame(attempts, key, from, at);
    TracksNone(key, Streak(0, from));
    HistoryTracks(map[], attempts, key, Streak(0, from), from, at);
    HeldFor(History(map[], attempts, false), key, streak, at);
  }

  lemma SweptSame(attempts: seq<Attempt>, key: string, from: int, at: int)
    requires 0 <= from && Forward(attempts, from, at) && at <= I64_MAX
    requires forall attempt :: attempt in attempts && attempt.Failure? ==> attempt.now + 900_000 <= I64_MAX
    ensures BlockedFor(History(map[], attempts, true), [key], at) ==
            BlockedFor(History(map[], attempts, false), [key], at)
  {
    hide History, Forward, BlockedFor;
    Ordered64(attempts, from, at);
    SweepIsInvisible(map[], map[], attempts, from, [key], at);
  }

  lemma TracksNone(key: string, streak: Streak)
    requires streak.count == 0
    ensures Tracks(map[], key, streak)
  {
  }

  lemma HeldFor(entries: map<string, Entry>, key: string, streak: Streak, at: int)
    requires Tracks(entries, key, streak) && (streak.count > 0 ==> 0 <= streak.last <= at) && at <= I64_MAX
    ensures var n := streak.count;
      BlockedFor(entries, [key], at) ==
        if n <= 3 || (57 <= n <= 67 && n != 62) then None
        else
          var until := streak.last + Min(2_000 * Pow2(n - 4), 900_000);
          if until > at then Some(until - at) else None
  {
    assert BlockedFor(entries, [key][1..], at).None?;
    if streak.count > 0 {
      DelayOf(streak.count);
      DelayNotNegative(Min(streak.count, U32_MAX));
    }
    hide DelayAfter, Pow2;
  }

  lemma {:induction false} Ordered64(attempts: seq<Attempt>, from: int, at: int)
    requires 0 <= from && Forward(attempts, from, at) && at <= I64_MAX
    ensures forall attempt :: attempt in attempts && attempt.Failure? ==> from <= attempt.now
    decreases |attempts|
  {
    if attempts != [] {
      Ordered64(attempts[1..], Moment(attempts[0], from), at);
      Sequences.Cons(attempts);
      assert forall attempt :: attempt in attempts <==> attempt == attempts[0] || attempt in attempts[1..];
    }
  }

  /** The delay of a count, the counts past 32 bits too. */
  lemma DelayOf(n: nat)
    ensures var delay := DelayAfter(Min(n, U32_MAX));
      if n <= 3 || (57 <= n <= 67 && n != 62) then delay <= 0 else delay == Min(2_000 * Pow2(n - 4), 900_000)
  {
    DelayIsIntendedExactly(n);
    DelayIsIntendedExactly(Min(n, U32_MAX));
    if n > U32_MAX {
      assert CheckedShl(INITIAL_DELAY_MS, n - 4) == None;
      assert CheckedShl(INITIAL_DELAY_MS, U32_MAX - 4) == None;
    }
    hide Pow2;
  }

  function FailuresAt(key: string, times: seq<int>): seq<Attempt>
    decreases |times|
  {
    if times == [] then [] else [Failure([key], times[0])] + FailuresAt(key, times[1..])
  }

  /** Moments in order, each less than an hour behind the one before. */
  predicate Close(last: int, times: seq<int>)
    decreases |times|
  {
    times == [] || (last <= times[0] < last + 3_600_000 && Close(times[0], times[1..]))
  }

  lemma OneFailure(streak: Streak, key: string, now: int, rest: seq<Attempt>)
    ensures var quiet := streak.count > 0 && now - streak.last >= 3_600_000;
      StreakOf(streak, [Failure([key], now)] + rest, key)
      == StreakOf(Streak(if quiet then 1 else streak.count + 1, now), rest, key)
  {
    Sequences.Behind(Failure([key], now), rest);
    assert [key][1..] == [];
    var quiet := streak.count > 0 && now - streak.last >= 3_600_000;
    assert Struck(streak, [key], key, now) == Struck(Streak(if quiet then 1 else streak.count + 1, now), [], key, now);
  }

  function EndOf(last: int, times: seq<int>): int
    decreases |times|
  {
    if times == [] then last else EndOf(times[0], times[1..])
  }

  lemma {:induction false} RowGoesOn(streak: Streak, key: string, times: seq<int>)
    requires streak.count > 0 && Close(streak.last, times)
    ensures StreakOf(streak, FailuresAt(key, times), key)
      == Streak(streak.count + |times|, EndOf(streak.last, times))
    decreases |times|
  {
    if times != [] {
      OneFailure(streak, key, times[0], FailuresAt(key, times[1..]));
      hide StreakOf;
      RowGoesOn(Streak(streak.count + 1, times[0]), key, times[1..]);
    }
  }

  /** Failures in a row count each, and nothing ahead of them counts once a
      success or a quiet hour stands between. */
  lemma RowCounts(streak: Streak, key: string, times: seq<int>)
    requires times != [] && Close(times[0], times[1..])
    requires streak.count == 0 || times[0] - streak.last >= 3_600_000
    ensures StreakOf(streak, FailuresAt(key, times), key) == Streak(|times|, EndOf(times[0], times[1..]))
  {
    OneFailure(streak, key, times[0], FailuresAt(key, times[1..]));
    hide StreakOf;
    RowGoesOn(Streak(1, times[0]), key, times[1..]);
  }

  /** What a block lets through: a key just failed is held for its delay and
      no longer, whatever else was recorded before. */
  lemma FailureHolds(entries: map<string, Entry>, key: string, now: int, at: int)
    requires Is64(now) && now + MAX_DELAY_MS <= I64_MAX && now <= at <= I64_MAX
    ensures var entry := Failed(entries, key, now)[key];
      entry.failures == if key !in entries || entries[key].lastFailureAt <= now - 3_600_000 then 1
                        else if entries[key].failures < 4_294_967_295 then entries[key].failures + 1
                        else 4_294_967_295
    ensures var entry := Failed(entries, key, now)[key];
      BlockedFor(Failed(entries, key, now), [key], at).Some? <==> at < now + DelayAfter(entry.failures)
  {
    var failed := Failed(entries, key, now);
    DelayIsIntendedExactly(failed[key].failures);
    hide DelayAfter;
    assert BlockedFor(failed, [key][1..], at).None?;
  }
}
