/** rate_limiter.cpp: token buckets, open-connection counts and bans per address. Times and rates are exact. */
module RateLimiter {
  import Numerals
  import opened Options

  type rate = r: real | r >= 0.0 witness 0.0

  datatype Config = Config(maxOpen: nat, burst: nat, refill: rate, banThreshold: nat, window: real, banFor: real)

  /** A zero time means never, as a default-constructed time point. */
  datatype Bucket = Bucket(tokens: real, last: real, open: nat, invalid: nat, windowStart: real)

  const NEW_BUCKET := Bucket(0.0, 0.0, 0, 0, 0.0)

  /** What is kept for one address: its bucket and the end of its ban. */
  datatype Entry = Entry(bucket: Option<Bucket>, banned: Option<real>)

  datatype Call =
    | Allow(now: real)
    | Disconnect
    | Invalid(now: real)
    | Clear
    | Ban(now: real, duration: real)

  // ---------- the calls, for one address ----------

  function Refilled(c: Config, b: Bucket, now: real): Bucket
  {
    var elapsed := now - b.last;
    if elapsed > 0.0 then
      var full := b.tokens + elapsed * c.refill;
      b.(tokens := if full < c.burst as real then full else c.burst as real, last := now)
    else b
  }

  function Started(c: Config, b: Bucket, now: real): Bucket
  {
    if b.last == 0.0 then b.(tokens := c.burst as real, last := now) else b
  }

  function Taken(c: Config, b: Bucket): (r: (Bucket, bool))
  {
    if b.tokens < 1.0 || b.open >= c.maxOpen then (b, false)
    else (b.(tokens := b.tokens - 1.0, open := b.open + 1), true)
  }

  function BucketOf(e: Entry): Bucket
  {
    if e.bucket.Some? then e.bucket.value else NEW_BUCKET
  }

  function Counted(c: Config, b: Bucket, now: real): Bucket
  {
    var restart := b.windowStart == 0.0 || now - b.windowStart > c.window;
    b.(windowStart := if restart then now else b.windowStart, invalid := (if restart then 0 else b.invalid) + 1)
  }

  /** The entry after a call and the value returned; a call without a result returns false. */
  function After(c: Config, e: Entry, call: Call): (r: (Entry, bool))
  {
    match call
    case Allow(now) =>
      if e.banned.Some? && now < e.banned.value then (e, false)
      else
        var (b, ok) := Taken(c, Refilled(c, Started(c, BucketOf(e), now), now));
        (Entry(Some(b), None), ok)
    case Disconnect =>
      if e.bucket.None? || e.bucket.value.open == 0 then (e, false)
      else (e.(bucket := Some(e.bucket.value.(open := e.bucket.value.open - 1))), false)
    case Invalid(now) =>
      var b := Counted(c, BucketOf(e), now);
      if b.invalid >= c.banThreshold then (Entry(Some(b.(invalid := 0)), Some(now + c.banFor)), true)
      else (e.(bucket := Some(b)), false)
    case Clear =>
      if e.bucket.None? then (e, false) else (e.(bucket := Some(e.bucket.value.(invalid := 0))), false)
    case Ban(now, duration) => (e.(banned := Some(now + duration)), false)
  }

  function Run(c: Config, e: Entry, calls: seq<Call>): Entry
  {
    if calls == [] then e else After(c, Run(c, e, calls[..|calls| - 1]), calls[|calls| - 1]).0
  }

  /** Connections accepted during a run. */
  function Accepted(c: Config, e: Entry, calls: seq<Call>): (n: nat)
  {
    if calls == [] then 0
    else
      var before, call := Run(c, e, calls[..|calls| - 1]), calls[|calls| - 1];
      Accepted(c, e, calls[..|calls| - 1]) + if call.Allow? && After(c, before, call).1 then 1 else 0
  }

  /** Disconnects during a run that found a connection open. */
  function Closed(c: Config, e: Entry, calls: seq<Call>): (n: nat)
  {
    if calls == [] then 0
    else
      var before, call := Run(c, e, calls[..|calls| - 1]), calls[|calls| - 1];
      Closed(c, e, calls[..|calls| - 1]) + if call.Disconnect? && BucketOf(before).open > 0 then 1 else 0
  }

  // ---------- what every call keeps ----------

  predicate Sound(c: Config, b: Bucket)
  {
    0.0 <= b.tokens <= c.burst as real && b.open <= c.maxOpen
  }

  lemma CountedKeeps(c: Config, b: Bucket, now: real)
    ensures var r := Counted(c, b, now); r.tokens == b.tokens && r.last == b.last && r.open == b.open
  {
  }

  /** Tokens the clock earns from x to y. */
  function Earned(c: Config, x: real, y: real): real
  {
    (y - x) * c.refill
  }

  lemma EarnedSum(c: Config, x: real, y: real, z: real)
    ensures Earned(c, x, x) == 0.0 && Earned(c, x, y) + Earned(c, y, z) == Earned(c, x, z)
  {
  }

  lemma RefilledSound(c: Config, b: Bucket, now: real)
    requires Sound(c, b)
    ensures Sound(c, Refilled(c, b, now)) && Refilled(c, b, now).open == b.open
    ensures now != 0.0 || b.last != 0.0 ==> Refilled(c, b, now).last >= b.last
    ensures var r := Refilled(c, b, now); r.tokens <= b.tokens + Earned(c, b.last, r.last)
  {
    if now > b.last {
      assert (now - b.last) * c.refill >= 0.0;
    } else {
      assert (b.last - b.last) * c.refill == 0.0;
    }
  }

  lemma AfterSound(c: Config, e: Entry, call: Call)
    requires Sound(c, BucketOf(e))
    ensures Sound(c, BucketOf(After(c, e, call).0))
  {
    hide Refilled;
    if call.Allow? {
      RefilledSound(c, Started(c, BucketOf(e), call.now), call.now);
    } else if call.Invalid? {
    }
  }

  /** Tokens stay between zero and the burst, and open connections never exceed the maximum. */
  lemma {:induction false} AlwaysSound(c: Config, e: Entry, calls: seq<Call>)
    requires Sound(c, BucketOf(e))
    ensures Sound(c, BucketOf(Run(c, e, calls)))
  {
    if calls != [] {
      hide Sound, After, BucketOf;
      AlwaysSound(c, e, calls[..|calls| - 1]);
      AfterSound(c, Run(c, e, calls[..|calls| - 1]), calls[|calls| - 1]);
    }
  }

  /** Open connections are those accepted less those closed. */
  lemma {:induction false} OpenCount(c: Config, e: Entry, calls: seq<Call>)
    requires Sound(c, BucketOf(e))
    ensures BucketOf(Run(c, e, calls)).open == BucketOf(e).open + Accepted(c, e, calls) - Closed(c, e, calls)
  {
    if calls != [] {
      hide Refilled, Sound;
      var before, call := Run(c, e, calls[..|calls| - 1]), calls[|calls| - 1];
      OpenCount(c, e, calls[..|calls| - 1]);
      AlwaysSound(c, e, calls[..|calls| - 1]);
      if call.Allow? {
        RefilledSound(c, Started(c, BucketOf(before), call.now), call.now);
      } else if call.Invalid? {
      }
    }
  }

  // ---------- the rate ----------

  predicate Sampled(calls: seq<Call>)
  {
    forall i | 0 <= i < |calls| && calls[i].Allow? :: calls[i].now != 0.0
  }

  lemma OneCall(c: Config, e: Entry, call: Call)
    requires Sound(c, BucketOf(e)) && BucketOf(e).last != 0.0 && (call.Allow? ==> call.now != 0.0)
    ensures var (f, ok) := After(c, e, call);
      var a, b := BucketOf(e), BucketOf(f);
      && b.last >= a.last && (b.last != 0.0)
      && b.tokens + (if call.Allow? && ok then 1.0 else 0.0) <= a.tokens + Earned(c, a.last, b.last)
  {
    hide Refilled, Counted, Earned, Sound;
    var a := BucketOf(e);
    if call.Allow? {
      RefilledSound(c, a, call.now);
      NotZero(c, a, call.now);
    } else if call.Invalid? {
      CountedKeeps(c, a, call.now);
    }
    EarnedSum(c, a.last, a.last, a.last);
  }

  lemma NotZero(c: Config, b: Bucket, now: real)
    requires b.last != 0.0 && now != 0.0
    ensures Refilled(c, b, now).last != 0.0
  {
  }

  /**
    * In any consecutive stretch of calls, whatever the order of their clock samples, the tokens left and the
    * connections accepted are at most the tokens at the start and what the bucket's own clock has earned.
    */
  lemma {:induction false} Budget(c: Config, e: Entry, calls: seq<Call>)
    requires Sound(c, BucketOf(e)) && BucketOf(e).last != 0.0 && Sampled(calls)
    ensures var a, b := BucketOf(e), BucketOf(Run(c, e, calls));
      && b.last >= a.last && b.last != 0.0
      && b.tokens + Accepted(c, e, calls) as real <= a.tokens + Earned(c, a.last, b.last)
  {
    var a := BucketOf(e);
    hide After, Sound, BucketOf, Earned;
    if calls == [] {
      EarnedSum(c, a.last, a.last, a.last);
    } else {
      var m := |calls| - 1;
      var before := Run(c, e, calls[..m]);
      assert Sampled(calls[..m]);
      Budget(c, e, calls[..m]);
      AlwaysSound(c, e, calls[..m]);
      OneCall(c, before, calls[m]);
      var b, d := BucketOf(before), BucketOf(Run(c, e, calls));
      EarnedSum(c, a.last, b.last, d.last);
    }
  }

  /** Accepted connections are at most the burst and the rate times the advance of the bucket's clock. */
  lemma AcceptedWithinRate(c: Config, e: Entry, calls: seq<Call>)
    requires Sound(c, BucketOf(e)) && BucketOf(e).last != 0.0 && Sampled(calls)
    ensures Accepted(c, e, calls) as real
         <= c.burst as real + (BucketOf(Run(c, e, calls)).last - BucketOf(e).last) * c.refill
  {
    hide Run, Accepted, BucketOf;
    Budget(c, e, calls);
    AlwaysSound(c, e, calls);
  }

  /** A first call starts the clock and fills the bucket, so the bound holds from there on. */
  lemma FirstCall(c: Config, now: real)
    requires now != 0.0
    ensures var (e, ok) := After(c, Entry(None, None), Allow(now));
      BucketOf(e).last == now && Sound(c, BucketOf(e)) && (ok <==> c.burst >= 1 && c.maxOpen >= 1)
      && BucketOf(e).tokens == c.burst as real - if ok then 1.0 else 0.0
  {
  }

  /** A connection is accepted exactly when no ban holds, a slot is free, and a whole token is there after what the clock earned. */
  lemma AllowExactly(c: Config, e: Entry, now: real)
    requires Sound(c, BucketOf(e)) && e.bucket.Some? && e.bucket.value.last != 0.0
    ensures var (f, ok) := After(c, e, Allow(now));
      var b, banned := e.bucket.value, e.banned.Some? && now < e.banned.value;
      var level := b.tokens + if now > b.last then (now - b.last) * c.refill else 0.0;
      var tokens := if level < c.burst as real then level else c.burst as real;
      && (ok <==> !banned && b.open < c.maxOpen && tokens >= 1.0)
      && (banned ==> f == e)
      && (!banned ==> f.banned == None && f.bucket.Some? && f.bucket.value.open == b.open + (if ok then 1 else 0)
                      && f.bucket.value.tokens == tokens - if ok then 1.0 else 0.0)
  {
  }

  // ---------- bans ----------

  function Invalids(times: seq<real>): (calls: seq<Call>)
    ensures |calls| == |times|
  {
    seq(|times|, i requires 0 <= i < |times| => Invalid(times[i]))
  }

  /**
    * Invalid shares inside one window: an address is banned at every share that completes the threshold and at no other,
    * until the configured time after that share.
    */
  lemma {:induction false} BannedAtThreshold(c: Config, times: seq<real>)
    requires c.banThreshold > 0 && times != [] && times[0] != 0.0
    requires forall i | 0 <= i < |times| :: times[i] - times[0] <= c.window
    ensures var n, e := |times|, Run(c, Entry(None, None), Invalids(times));
      && e.bucket.Some? && e.bucket.value.windowStart == times[0] && e.bucket.value.invalid == n % c.banThreshold
      && (e.banned.Some? <==> n >= c.banThreshold)
      && (n % c.banThreshold == 0 ==> e.banned == Some(times[n - 1] + c.banFor))
      && (n % c.banThreshold != 0 ==> e.banned == Run(c, Entry(None, None), Invalids(times[..n - 1])).banned)
    decreases |times|
  {
    hide Run;
    var m := |times| - 1;
    var before := Run(c, Entry(None, None), Invalids(times[..m]));
    assert Invalids(times)[..m] == Invalids(times[..m]);
    LastCall(c, Entry(None, None), Invalids(times));
    if m == 0 {
      NoCalls(c, Entry(None, None), Invalids(times[..0]));
      OneMore(0, c.banThreshold);
    } else {
      BannedAtThreshold(c, times[..m]);
      OneMore(m, c.banThreshold);
    }
  }

  lemma NoCalls(c: Config, e: Entry, calls: seq<Call>)
    requires calls == []
    ensures Run(c, e, calls) == e
  {
  }

  lemma LastCall(c: Config, e: Entry, calls: seq<Call>)
    requires calls != []
    ensures Run(c, e, calls) == After(c, Run(c, e, calls[..|calls| - 1]), calls[|calls| - 1]).0
  {
  }

  lemma OneMore(m: nat, d: nat)
    requires d > 0
    ensures (m + 1) % d == if m % d + 1 >= d then 0 else m % d + 1
    ensures m + 1 >= d <==> m >= d || (m + 1) % d == 0
  {
    var q, r := m / d, m % d;
    assert m == q * d + r;
    if r + 1 >= d {
      Numerals.DivModUnique(m + 1, d, q + 1, 0);
    } else {
      Numerals.DivModUnique(m + 1, d, q, r + 1);
    }
    if m < d {
      Numerals.DivModUnique(m, d, 0, m);
    }
  }

  ghost predicate WithinRate(c: Config, e: Entry, calls: seq<Call>)
  {
    Accepted(c, e, calls) as real <= c.burst as real + (BucketOf(Run(c, e, calls)).last - BucketOf(e).last) * c.refill
  }

  /** The clock of the bucket and of every call was sampled from the set. */
  ghost predicate Drawn(samples: iset<real>, e: Entry, calls: seq<Call>)
  {
    BucketOf(e).last in samples && forall i | 0 <= i < |calls| && calls[i].Allow? :: calls[i].now in samples
  }

  /** The rate bound holds in every state and over all calls on a clock with the given samples. */
  ghost predicate Limits(c: Config, samples: iset<real>)
  {
    forall e, calls :: Sound(c, BucketOf(e)) && Drawn(samples, e, calls) ==> WithinRate(c, e, calls)
  }

  /** When connections are accepted at all, the bound holds exactly on clocks that never show zero. */
  lemma LimitsExactly(c: Config, samples: iset<real>)
    requires c.burst >= 1 && c.maxOpen >= 1
    ensures Limits(c, samples) <==> 0.0 !in samples
  {
    hide Sound, WithinRate, BucketOf, Run, Accepted;
    if 0.0 in samples {
      ZeroSamples(c, samples);
    } else {
      forall e, calls | Sound(c, BucketOf(e)) && Drawn(samples, e, calls)
        ensures WithinRate(c, e, calls)
      {
        NeverZero(c, samples, e, calls);
      }
    }
  }

  lemma NeverZero(c: Config, samples: iset<real>, e: Entry, calls: seq<Call>)
    requires 0.0 !in samples && Sound(c, BucketOf(e)) && Drawn(samples, e, calls)
    ensures WithinRate(c, e, calls)
  {
    hide Sound, Run, Accepted, BucketOf;
    AcceptedWithinRate(c, e, calls);
  }

  /** Connecting and disconnecting at time zero */
  function AtZero(n: nat): (calls: seq<Call>)
    ensures forall i | 0 <= i < |calls| && calls[i].Allow? :: calls[i].now == 0.0
  {
    if n == 0 then [] else AtZero(n - 1) + [Allow(0.0)] + [Disconnect]
  }

  /** On a new address any number of connections at time zero is accepted. */
  lemma {:induction false} ZeroCalls(c: Config, n: nat)
    requires c.burst >= 1 && c.maxOpen >= 1
    ensures var e := Entry(None, None); var f := Run(c, e, AtZero(n));
      Accepted(c, e, AtZero(n)) == n && BucketOf(f).last == 0.0 && BucketOf(f).open == 0 && f.banned == None
  {
    hide After, BucketOf;
    if n == 0 {
      NewAddress();
    } else {
      var e, calls, one := Entry(None, None), AtZero(n - 1), AtZero(n - 1) + [Allow(0.0)];
      ZeroCalls(c, n - 1);
      assert one[..|one| - 1] == calls && AtZero(n)[..|AtZero(n)| - 1] == one;
      ZeroCall(c, Run(c, e, calls));
      ZeroClose(c, Run(c, e, one));
    }
  }

  lemma NewAddress()
    ensures BucketOf(Entry(None, None)) == NEW_BUCKET
  {
  }

  lemma ZeroCall(c: Config, e: Entry)
    requires c.burst >= 1 && e.banned.None? && BucketOf(e).last == 0.0 && BucketOf(e).open < c.maxOpen
    ensures var (f, ok) := After(c, e, Allow(0.0));
      ok && f.banned.None? && BucketOf(f).last == 0.0 && BucketOf(f).open == BucketOf(e).open + 1
  {
  }

  lemma ZeroClose(c: Config, e: Entry)
    requires e.banned.None? && BucketOf(e).open > 0
    ensures var f := After(c, e, Disconnect).0;
      f.banned.None? && BucketOf(f).last == BucketOf(e).last && BucketOf(f).open == BucketOf(e).open - 1
  {
  }

  lemma ZeroSamples(c: Config, samples: iset<real>)
    requires c.burst >= 1 && c.maxOpen >= 1 && 0.0 in samples
    ensures !Limits(c, samples)
  {
    hide Run, Accepted, AtZero;
    var e, calls := Entry(None, None), AtZero(c.burst + 1);
    ZeroCalls(c, c.burst + 1);
    assert Sound(c, BucketOf(e)) && Drawn(samples, e, calls);
    assert !WithinRate(c, e, calls);
  }

  /** A clock sample of zero is taken for a new bucket: two calls at time zero pass a burst of one. */
  lemma ZeroSampleRefills()
    ensures var c, e := Config(10, 1, 0.0, 10, 0.0, 0.0), Entry(None, None);
      var (f, first) := After(c, e, Allow(0.0));
      var (g, second) := After(c, f, Allow(0.0));
      first && second && BucketOf(g).last == 0.0
  {
  }

  // ---------- the limiter ----------

  class Limiter {
    const config: Config
    var buckets: map<string, Bucket>
    var bans: map<string, real>

    function At(ip: string): Entry
      reads this
    {
      Entry(if ip in buckets then Some(buckets[ip]) else None, if ip in bans then Some(bans[ip]) else None)
    }

    ghost predicate Valid()
      reads this
    {
      forall ip | ip in buckets :: Sound(config, buckets[ip])
    }

    constructor (config: Config)
      ensures Valid() && buckets == map[] && bans == map[] && this.config == config
    {
      this.config := config;
      buckets, bans := map[], map[];
    }

    method AllowConnection(ip: string, now: real) returns (ok: bool)
      requires Valid()
      modifies this
      ensures Valid() && (At(ip), ok) == After(config, old(At(ip)), Allow(now))
      ensures forall other | other != ip :: At(other) == old(At(other))
    {
      hide Refilled, Counted, Sound;
      AfterSound(config, At(ip), Allow(now)) by { NewIsSound(config); }
      if ip in bans {
        if now < bans[ip] {
          return false;
        }
        bans := bans - {ip};
      }
      var b := if ip in buckets then buckets[ip] else NEW_BUCKET;
      if b.last == 0.0 {
        b := b.(tokens := config.burst as real, last := now);
      }
      b := Refilled(config, b, now);
      ok := !(b.tokens < 1.0 || b.open >= config.maxOpen);
      if ok {
        b := b.(tokens := b.tokens - 1.0, open := b.open + 1);
      }
      buckets := buckets[ip := b];
    }

    method OnDisconnect(ip: string)
      requires Valid()
      modifies this`buckets
      ensures Valid() && At(ip) == After(config, old(At(ip)), Disconnect).0
      ensures forall other | other != ip :: At(other) == old(At(other))
    {
      if ip !in buckets {
        return;
      }
      if buckets[ip].open > 0 {
        buckets := buckets[ip := buckets[ip].(open := buckets[ip].open - 1)];
      }
    }

    method BanAddress(ip: string, now: real, duration: real)
      requires Valid()
      modifies this`bans
      ensures Valid() && At(ip) == After(config, old(At(ip)), Ban(now, duration)).0
      ensures forall other | other != ip :: At(other) == old(At(other))
    {
      bans := bans[ip := now + duration];
    }

    method RecordInvalidShare(ip: string, now: real) returns (banned: bool)
      requires Valid()
      modifies this
      ensures Valid() && (At(ip), banned) == After(config, old(At(ip)), Invalid(now))
      ensures forall other | other != ip :: At(other) == old(At(other))
    {
      hide Refilled, Sound;
      AfterSound(config, At(ip), Invalid(now)) by { NewIsSound(config); }
      var b := if ip in buckets then buckets[ip] else NEW_BUCKET;
      if b.windowStart == 0.0 || now - b.windowStart > config.window {
        b := b.(windowStart := now, invalid := 0);
      }
      b := b.(invalid := b.invalid + 1);
      banned := b.invalid >= config.banThreshold;
      if banned {
        bans := bans[ip := now + config.banFor];
        b := b.(invalid := 0);
      }
      buckets := buckets[ip := b];
    }

    method ClearInvalid(ip: string)
      requires Valid()
      modifies this`buckets
      ensures Valid() && At(ip) == After(config, old(At(ip)), Clear).0
      ensures forall other | other != ip :: At(other) == old(At(other))
    {
      if ip in buckets {
        buckets := buckets[ip := buckets[ip].(invalid := 0)];
      }
    }
  }

  lemma NewIsSound(c: Config)
    ensures Sound(c, NEW_BUCKET)
  {
  }
}
