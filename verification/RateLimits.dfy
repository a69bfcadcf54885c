/** The request limiter (rate_limit.rs): one token bucket per client, refilled lazily from the
    time since its last use, created on first use and evicted when stale.  Tokens and seconds
    are reals and the clock never runs backwards. */
module RateLimits {
  /** At most `max` tokens, refilled at `max / window` per second. */
  datatype Limits = Limits(max: nat, window: nat) {
    ghost predicate Valid() {
      max >= 1 && window > 0
    }

    function Rate(): (r: real)
      requires window > 0
      ensures max >= 1 ==> r > 0.0
      ensures r * window as real == max as real
    {
      max as real / window as real
    }
  }

  datatype Bucket = Bucket(tokens: real, lastRefill: real)

  /** Whether the request passes, how many more would, and the seconds to report: when it passes,
      until the bucket as it was before the request took its token is full; when it does not,
      until one token is there. */
  datatype Answer = Answer(allowed: bool, remaining: nat, seconds: nat)

  type Store = map<string, Bucket>

  function Min(a: real, b: real): real {
    if a <= b then a else b
  }

  /** Rounding up, and the cast to an unsigned integer, which turns negative values into zero. */
  function CeilSeconds(x: real): nat {
    if x <= 0.0 then 0 else -((-x).Floor)
  }

  /** The tokens refilled in `seconds`. */
  function Gain(l: Limits, seconds: real): real
    requires l.window > 0
  {
    seconds * l.Rate()
  }

  /** The time in which `tokens` are refilled. */
  function TimeFor(l: Limits, tokens: real): real
    requires l.max >= 1 && l.window > 0
  {
    tokens / l.Rate()
  }

  function Refilled(l: Limits, b: Bucket, now: real): real
    requires l.window > 0
  {
    Min(b.tokens + Gain(l, now - b.lastRefill), l.max as real)
  }

  /** The tokens a client has at `now`; a client without a bucket has them all. */
  function Level(l: Limits, m: Store, key: string, now: real): real
    requires l.window > 0
  {
    if key in m then Refilled(l, m[key], now) else l.max as real
  }

  function AnswerAt(l: Limits, level: real): Answer
    requires l.max >= 1 && l.window > 0
  {
    if level >= 1.0 then
      Answer(true, (level - 1.0).Floor, if level < l.max as real
          then CeilSeconds(TimeFor(l, l.max as real - level)) else 0)
    else
      Answer(false, 0, CeilSeconds(TimeFor(l, 1.0 - level)))
  }

  // ---- Laws of refilling ----

  lemma GainLaws(l: Limits, a: real, b: real)
    requires l.Valid()
    ensures Gain(l, a + b) == Gain(l, a) + Gain(l, b)
    ensures a >= 0.0 ==> Gain(l, a) >= 0.0
    ensures a > 0.0 ==> Gain(l, a) > 0.0
    ensures Gain(l, l.window as real) == l.max as real
  {
    Positive(a, l.Rate());
    Distribute(a, b, l.Rate());
  }

  lemma Distribute(a: real, b: real, r: real)
    ensures (a + b) * r == a * r + b * r
  {
  }

  lemma Positive(a: real, r: real)
    requires r > 0.0
    ensures a >= 0.0 ==> a * r >= 0.0
    ensures a > 0.0 ==> a * r > 0.0
  {
  }

  /** A time is long enough for the missing tokens exactly when it is at least `TimeFor` them. */
  lemma TimeForIsRight(l: Limits, missing: real, seconds: real)
    requires l.Valid()
    ensures seconds >= TimeFor(l, missing) <==> Gain(l, seconds) >= missing
    ensures missing > 0.0 ==> TimeFor(l, missing) > 0.0
  {
    var q := TimeFor(l, missing);
    Quotient(missing, l.Rate());
    assert Gain(l, q) == missing;
    GainLaws(l, seconds - q, q);
    GainLaws(l, q - seconds, seconds);
    GainLaws(l, -q, q);
    GainLaws(l, 0.0 - q, 0.0);
  }

  lemma Quotient(x: real, r: real)
    requires r > 0.0
    ensures (x / r) * r == x
  {
  }

  // ---- The buckets in memory ----

  class TokenBucket {
    var tokens: real
    var lastRefill: real

    constructor (maxTokens: real, now: real)
      ensures State() == Bucket(maxTokens, now)
    {
      tokens, lastRefill := maxTokens, now;
    }

    function State(): Bucket
      reads this
    {
      Bucket(tokens, lastRefill)
    }

    /** Refills for the time since the last use, then takes one token if there is one. */
    method TryConsume(l: Limits, now: real) returns (answer: Answer)
      requires l.Valid()
      modifies this
      ensures var level := Refilled(l, old(State()), now);
              answer == AnswerAt(l, level) && State() == Bucket(if answer.allowed then level - 1.0 else level, now)
    {
      tokens := Min(tokens + Gain(l, now - lastRefill), l.max as real);
      lastRefill := now;
      var resetSeconds := if tokens < l.max as real then CeilSeconds(TimeFor(l, l.max as real - tokens)) else 0;
      if tokens >= 1.0 {
        tokens := tokens - 1.0;
        answer := Answer(true, tokens.Floor, resetSeconds);
      } else {
        answer := Answer(false, 0, CeilSeconds(TimeFor(l, 1.0 - tokens)));
      }
    }
  }

  lemma NewBucketIsFull(l: Limits, now: real)
    requires l.Valid()
    ensures Refilled(l, Bucket(l.max as real, now), now) == l.max as real
  {
  }

  class RateLimiter {
    const limits: Limits
    var buckets: map<string, TokenBucket>

    constructor (maxRequests: nat, windowSeconds: nat)
      requires windowSeconds > 0
      ensures limits == Limits(maxRequests, windowSeconds) && buckets == map[] && Valid()
    {
      limits, buckets := Limits(maxRequests, windowSeconds), map[];
    }

    ghost predicate Valid()
      reads this
    {
      && limits.window > 0
      && forall j, k :: j in buckets && k in buckets && j != k ==> buckets[j] != buckets[k]
    }

    ghost function Objects(): set<TokenBucket>
      reads this
    {
      set k | k in buckets :: buckets[k]
    }

    ghost function Contents(): Store
      reads this, Objects()
    {
      map k | k in buckets :: buckets[k].State()
    }

    /** One request.  With a capacity of zero the limiter is off: it answers yes and keeps no state. */
    method Check(key: string, now: real) returns (answer: Answer)
      requires Valid()
      modifies this, Objects()
      ensures Valid()
      ensures limits.max == 0 ==> answer == Answer(true, 0, 0) && Contents() == old(Contents())
      ensures limits.max >= 1 ==> answer == AnswerAt(limits, Level(limits, old(Contents()), key, now))
      ensures limits.max >= 1 ==> Contents() == Requested(limits, old(Contents()), key, now)
    {
      if limits.max == 0 {
        return Answer(true, 0, 0);
      }
      NewBucketIsFull(limits, now);
      hide AnswerAt, Refilled;
      if key !in buckets {
        var bucket := new TokenBucket(limits.max as real, now);
        buckets := buckets[key := bucket];
      }
      answer := buckets[key].TryConsume(limits, now);
    }

    /** The cleanup task: forgets buckets unused for two windows or more. */
    method Evict(now: real)
      requires Valid()
      modifies this
      ensures Valid()
      ensures Contents() == Evicted(limits, old(Contents()), now)
      ensures forall k :: k in Contents() <==>
                k in old(Contents()) && now < old(Contents())[k].lastRefill + 2.0 * limits.window as real
      ensures forall k <- Contents() :: Contents()[k] == old(Contents())[k]
    {
      buckets := map k | k in buckets && now - buckets[k].lastRefill < 2.0 * limits.window as real :: buckets[k];
    }
  }

  // ---- The limiter as a function of its history ----

  ghost predicate ValidStore(l: Limits, m: Store, now: real) {
    forall k <- m :: 0.0 <= m[k].tokens <= l.max as real && m[k].lastRefill <= now
  }

  function Requested(l: Limits, m: Store, key: string, now: real): Store
    requires l.max >= 1 && l.window > 0
  {
    var level := Level(l, m, key, now);
    m[key := Bucket(if level >= 1.0 then level - 1.0 else level, now)]
  }

  function Evicted(l: Limits, m: Store, now: real): Store {
    map k | k in m && now - m[k].lastRefill < 2.0 * l.window as real :: m[k]
  }

  datatype Op = Request(key: string, now: real) | Cleanup(now: real)

  function Step(l: Limits, m: Store, op: Op): Store
    requires l.max >= 1 && l.window > 0
  {
    match op
    case Request(key, now) => Requested(l, m, key, now)
    case Cleanup(now) => Evicted(l, m, now)
  }

  /** The operations happen in order, none before `start`. */
  ghost predicate InOrder(ops: seq<Op>, start: real) {
    ops == [] || (start <= ops[0].now && InOrder(ops[1..], ops[0].now))
  }

  lemma LevelBounds(l: Limits, m: Store, key: string, now: real)
    requires l.Valid() && ValidStore(l, m, now)
    ensures 0.0 <= Level(l, m, key, now) <= l.max as real
  {
    hide Gain;
    if key in m {
      GainLaws(l, now - m[key].lastRefill, 0.0);
    }
  }

  /** Refilling in pieces equals refilling at once. */
  lemma RefillInPieces(l: Limits, m: Store, key: string, t: real, now: real)
    requires l.Valid() && ValidStore(l, m, t) && t <= now
    ensures Level(l, m, key, now) == Min(Level(l, m, key, t) + Gain(l, now - t), l.max as real)
  {
    hide Gain;
    GainLaws(l, now - t, 0.0);
    if key in m {
      GainLaws(l, t - m[key].lastRefill, now - t);
      assert (t - m[key].lastRefill) + (now - t) == now - m[key].lastRefill;
    }
  }

  /** A request takes exactly one token from its own client when it passes, and nothing otherwise. */
  lemma RequestLevels(l: Limits, m: Store, key: string, now: real, k: string)
    requires l.Valid() && ValidStore(l, m, now)
    ensures ValidStore(l, Requested(l, m, key, now), now)
    ensures Level(l, Requested(l, m, key, now), k, now) ==
            Level(l, m, k, now) - if k == key && Level(l, m, key, now) >= 1.0 then 1.0 else 0.0
  {
    hide Gain;
    LevelBounds(l, m, key, now);
    GainLaws(l, 0.0, 0.0);
  }

  /** Two windows refill a bucket completely, so eviction changes no client's tokens. */
  lemma EvictLevels(l: Limits, m: Store, now: real, k: string)
    requires l.Valid() && ValidStore(l, m, now)
    ensures ValidStore(l, Evicted(l, m, now), now)
    ensures Level(l, Evicted(l, m, now), k, now) == Level(l, m, k, now)
  {
    hide Gain;
    if k in m && k !in Evicted(l, m, now) {
      var idle := now - m[k].lastRefill;
      GainLaws(l, idle - l.window as real, l.window as real);
      assert (idle - l.window as real) + l.window as real == idle;
    }
  }

  /** Tokens stay between zero and the capacity over every run. */
  lemma {:induction false} TokensInRange(l: Limits, m: Store, ops: seq<Op>, start: real)
    requires l.Valid() && ValidStore(l, m, start) && InOrder(ops, start)
    ensures ValidStore(l, AfterOps(l, m, ops), LastTime(ops, start))
    decreases |ops|
  {
    if ops != [] {
      StepValid(l, m, ops[0], start);
      TokensInRange(l, Step(l, m, ops[0]), ops[1..], ops[0].now);
    }
  }

  function AfterOps(l: Limits, m: Store, ops: seq<Op>): Store
    requires l.max >= 1 && l.window > 0
    decreases |ops|
  {
    if ops == [] then m else AfterOps(l, Step(l, m, ops[0]), ops[1..])
  }

  function LastTime(ops: seq<Op>, start: real): real {
    if ops == [] then start else LastTime(ops[1..], ops[0].now)
  }

  lemma StepValid(l: Limits, m: Store, op: Op, start: real)
    requires l.Valid() && ValidStore(l, m, start) && start <= op.now
    ensures ValidStore(l, m, op.now)
    ensures ValidStore(l, Step(l, m, op), op.now)
  {
    match op
    case Request(key, now) => RequestLevels(l, m, key, now, key);
    case Cleanup(now) =>
  }

  // ---- The rate bound ----

  /** How many requests of `key` with times in `[from, to]` the run allows. */
  ghost function AllowedIn(l: Limits, m: Store, ops: seq<Op>, key: string, from: real, to: real): nat
    requires l.Valid()
    decreases |ops|
  {
    if ops == [] then 0
    else
      (if ops[0].Request? && ops[0].key == key && from <= ops[0].now <= to
          && AnswerAt(l, Level(l, m, key, ops[0].now)).allowed
       then 1 else 0)
      + AllowedIn(l, Step(l, m, ops[0]), ops[1..], key, from, to)
  }

  lemma StepLevel(l: Limits, m: Store, op: Op, key: string)
    requires l.Valid() && ValidStore(l, m, op.now)
    ensures Level(l, Step(l, m, op), key, op.now) ==
            Level(l, m, key, op.now) - if op.Request? && op.key == key && Level(l, m, key, op.now) >= 1.0
                then 1.0 else 0.0
  {
    match op
    case Request(k, now) => RequestLevels(l, m, k, now, key);
    case Cleanup(now) => EvictLevels(l, m, now, key);
  }

  /** Inside the interval, what is allowed is paid for by the tokens at hand and those refilled. */
  lemma {:induction false} PaidInside(l: Limits, m: Store, ops: seq<Op>, key: string, from: real, to: real, start: real)
    requires l.Valid() && ValidStore(l, m, start) && InOrder(ops, start)
    requires start <= to
    ensures AllowedIn(l, m, ops, key, from, to) as real <= Level(l, m, key, start) + Gain(l, to - start)
    decreases |ops|
  {
    hide Gain, Level, Step;
    LevelBounds(l, m, key, start);
    GainLaws(l, to - start, 0.0);
    if ops != [] {
      var op := ops[0];
      StepValid(l, m, op, start);
      if op.now <= to {
        RefillInPieces(l, m, key, start, op.now);
        StepLevel(l, m, op, key);
        PaidInside(l, Step(l, m, op), ops[1..], key, from, to, op.now);
        GainLaws(l, op.now - start, to - op.now);
        assert (op.now - start) + (to - op.now) == to - start;
      } else {
        NothingAfter(l, m, ops, key, from, to, start);
      }
    }
  }

  lemma {:induction false} NothingAfter(l: Limits, m: Store, ops: seq<Op>, key: string, from: real, to: real,
      start: real)
    requires l.Valid() && InOrder(ops, start)
    requires ops == [] || ops[0].now > to
    ensures AllowedIn(l, m, ops, key, from, to) == 0
    decreases |ops|
  {
    if ops != [] {
      NothingAfter(l, Step(l, m, ops[0]), ops[1..], key, from, to, ops[0].now);
    }
  }

  /** In any run and any interval of length T, at most max + T * max / window requests of one
      client are allowed, wherever buckets are created and evicted. */
  lemma {:induction false} RateBound(l: Limits, m: Store, ops: seq<Op>, key: string, from: real, length: real,
      start: real)
    requires l.Valid() && ValidStore(l, m, start) && InOrder(ops, start)
    requires length >= 0.0
    ensures AllowedIn(l, m, ops, key, from, from + length) as real <= l.max as real + Gain(l, length)
    decreases |ops|
  {
    hide Gain, Level, Step;
    GainLaws(l, length, 0.0);
    if ops != [] {
      var op := ops[0];
      StepValid(l, m, op, start);
      if op.now < from {
        RateBound(l, Step(l, m, op), ops[1..], key, from, length, op.now);
      } else if op.now <= from + length {
        PaidInside(l, m, ops, key, from, from + length, op.now);
        LevelBounds(l, m, key, op.now);
        GainLaws(l, op.now - from, from + length - op.now);
        assert (op.now - from) + (from + length - op.now) == length;
      } else {
        NothingAfter(l, m, ops, key, from, from + length, start);
      }
    }
  }

  // ---- Evictions and denied probes are invisible ----

  ghost predicate SameLevels(l: Limits, m: Store, n: Store, now: real)
    requires l.window > 0
  {
    forall k :: Level(l, m, k, now) == Level(l, n, k, now)
  }

  /** The answers a run gives, in order. */
  ghost function Answers(l: Limits, m: Store, ops: seq<Op>, start: real): seq<Answer>
    requires l.Valid() && ValidStore(l, m, start) && InOrder(ops, start)
    decreases |ops|
  {
    if ops == [] then []
    else
      var op := ops[0];
      StepValid(l, m, op, start);
      (if op.Request? then LevelBounds(l, m, op.key, op.now); [AnswerAt(l, Level(l, m, op.key, op.now))] else [])
      + Answers(l, Step(l, m, op), ops[1..], op.now)
  }

  lemma LevelsAgreeLater(l: Limits, m: Store, n: Store, t: real, now: real)
    requires l.Valid() && ValidStore(l, m, t) && ValidStore(l, n, t) && t <= now
    requires SameLevels(l, m, n, t)
    ensures SameLevels(l, m, n, now)
  {
    forall k ensures Level(l, m, k, now) == Level(l, n, k, now) {
      RefillInPieces(l, m, k, t, now);
      RefillInPieces(l, n, k, t, now);
    }
  }

  lemma StepKeepsAgreement(l: Limits, m: Store, n: Store, op: Op)
    requires l.Valid() && ValidStore(l, m, op.now) && ValidStore(l, n, op.now)
    requires SameLevels(l, m, n, op.now)
    ensures SameLevels(l, Step(l, m, op), Step(l, n, op), op.now)
  {
    forall k ensures Level(l, Step(l, m, op), k, op.now) == Level(l, Step(l, n, op), k, op.now) {
      StepLevel(l, m, op, k);
      StepLevel(l, n, op, k);
      assert Level(l, m, k, op.now) == Level(l, n, k, op.now);
    }
  }

  lemma {:induction false} SameAnswers(l: Limits, m: Store, n: Store, ops: seq<Op>, start: real)
    requires l.Valid() && ValidStore(l, m, start) && ValidStore(l, n, start) && InOrder(ops, start)
    requires SameLevels(l, m, n, start)
    ensures Answers(l, m, ops, start) == Answers(l, n, ops, start)
    decreases |ops|
  {
    if ops != [] {
      var op := ops[0];
      StepValid(l, m, op, start);
      StepValid(l, n, op, start);
      LevelsAgreeLater(l, m, n, start, op.now);
      StepKeepsAgreement(l, m, n, op);
      SameAnswers(l, Step(l, m, op), Step(l, n, op), ops[1..], op.now);
    }
  }

  /** The same run on a limiter that never evicts. */
  ghost function WithoutCleanups(ops: seq<Op>): seq<Op> {
    if ops == [] then []
    else (if ops[0].Request? then [ops[0]] else []) + WithoutCleanups(ops[1..])
  }

  lemma {:induction false} StillInOrder(ops: seq<Op>, start: real, earlier: real)
    requires InOrder(ops, start) && earlier <= start
    ensures InOrder(WithoutCleanups(ops), earlier)
  {
    if ops != [] {
      if ops[0].Request? {
        StillInOrder(ops[1..], ops[0].now, ops[0].now);
        assert WithoutCleanups(ops)[1..] == WithoutCleanups(ops[1..]);
      } else {
        StillInOrder(ops[1..], ops[0].now, earlier);
        assert WithoutCleanups(ops) == WithoutCleanups(ops[1..]);
      }
    }
  }

  /** A limiter that evicts stale buckets answers every request as one that never does. */
  lemma {:induction false} EvictionIsInvisible(l: Limits, m: Store, ops: seq<Op>, start: real)
    requires l.Valid() && ValidStore(l, m, start) && InOrder(ops, start)
    ensures InOrder(WithoutCleanups(ops), start)
    ensures Answers(l, m, ops, start) == Answers(l, m, WithoutCleanups(ops), start)
    decreases |ops|
  {
    StillInOrder(ops, start, start);
    if ops != [] {
      var op, rest := ops[0], ops[1..];
      StepValid(l, m, op, start);
      EvictionIsInvisible(l, Step(l, m, op), rest, op.now);
      if op.Request? {
        assert WithoutCleanups(ops)[1..] == WithoutCleanups(rest);
      } else {
        assert WithoutCleanups(ops) == WithoutCleanups(rest);
        EvictedSameLevels(l, m, op.now);
        SameAnswers(l, Step(l, m, op), m, WithoutCleanups(rest), op.now);
        StartEarlier(l, m, WithoutCleanups(rest), start, op.now);
      }
    }
  }

  lemma EvictedSameLevels(l: Limits, m: Store, now: real)
    requires l.Valid() && ValidStore(l, m, now)
    ensures SameLevels(l, Evicted(l, m, now), m, now)
  {
    forall k ensures Level(l, Evicted(l, m, now), k, now) == Level(l, m, k, now) {
      EvictLevels(l, m, now, k);
    }
  }

  lemma StartEarlier(l: Limits, m: Store, ops: seq<Op>, start: real, later: real)
    requires l.Valid() && ValidStore(l, m, start) && ValidStore(l, m, later) && start <= later
    requires InOrder(ops, start) && InOrder(ops, later)
    ensures Answers(l, m, ops, start) == Answers(l, m, ops, later)
  {
  }

  /** A denied request changes no later answer, its own client's included. */
  lemma DeniedIsInvisible(l: Limits, m: Store, key: string, now: real, ops: seq<Op>)
    requires l.Valid() && ValidStore(l, m, now) && InOrder(ops, now)
    requires !AnswerAt(l, Level(l, m, key, now)).allowed
    ensures ValidStore(l, Requested(l, m, key, now), now)
    ensures Answers(l, Requested(l, m, key, now), ops, now) == Answers(l, m, ops, now)
  {
    forall k ensures Level(l, Requested(l, m, key, now), k, now) == Level(l, m, k, now) {
      RequestLevels(l, m, key, now, k);
    }
    RequestLevels(l, m, key, now, key);
    SameAnswers(l, Requested(l, m, key, now), m, ops, now);
  }

  // ---- Retry-After ----

  /** No request of `key` passes during the run. */
  ghost predicate NoneAllowed(l: Limits, m: Store, ops: seq<Op>, key: string)
    requires l.Valid()
    decreases |ops|
  {
    ops == [] ||
    ((ops[0].Request? && ops[0].key == key ==> !AnswerAt(l, Level(l, m, key, ops[0].now)).allowed)
        && NoneAllowed(l, Step(l, m, ops[0]), ops[1..], key))
  }

  /** While nothing passes, a client's tokens only refill, whatever else happens. */
  lemma {:induction false} OnlyRefills(l: Limits, m: Store, ops: seq<Op>, key: string, start: real, now: real)
    requires l.Valid() && ValidStore(l, m, start) && InOrder(ops, start)
    requires NoneAllowed(l, m, ops, key) && LastTime(ops, start) <= now
    ensures ValidStore(l, AfterOps(l, m, ops), now)
    ensures start <= now
    ensures Level(l, AfterOps(l, m, ops), key, now) == Level(l, m, key, now)
    decreases |ops|
  {
    if ops != [] {
      var op := ops[0];
      StepValid(l, m, op, start);
      OnlyRefills(l, Step(l, m, op), ops[1..], key, op.now, now);
      StepLevel(l, m, op, key);
      RefillInPieces(l, m, key, op.now, now);
      RefillInPieces(l, Step(l, m, op), key, op.now, now);
    }
  }

  /** After a denial at `denied` with nothing allowed in between, a request is allowed exactly
      from (1 - tokens) / rate seconds on; the reported number of seconds is enough, and it is the
      least whole number that is: one second less is not. */
  lemma RetryAfterIsRight(l: Limits, m: Store, key: string, denied: real, ops: seq<Op>, now: real)
    requires l.Valid() && ValidStore(l, m, denied) && InOrder(ops, denied)
    requires !AnswerAt(l, Level(l, m, key, denied)).allowed
    requires NoneAllowed(l, Requested(l, m, key, denied), ops, key) && LastTime(ops, denied) <= now
    ensures var later := AfterOps(l, Requested(l, m, key, denied), ops);
            && (AnswerAt(l, Level(l, later, key, now)).allowed <==>
                now - denied >= TimeFor(l, 1.0 - Level(l, m, key, denied)))
            && (now - denied >= AnswerAt(l, Level(l, m, key, denied)).seconds as real ==>
                AnswerAt(l, Level(l, later, key, now)).allowed)
            && (now - denied <= AnswerAt(l, Level(l, m, key, denied)).seconds as real - 1.0 ==>
                !AnswerAt(l, Level(l, later, key, now)).allowed)
  {
    hide Gain, Level, TimeFor, Requested, AfterOps;
    var n := Requested(l, m, key, denied);
    RequestLevels(l, m, key, denied, key);
    OnlyRefills(l, n, ops, key, denied, now);
    RefillInPieces(l, n, key, denied, now);
    var missing := 1.0 - Level(l, m, key, denied);
    TimeForIsRight(l, missing, now - denied);
    CeilIsAbove(TimeFor(l, missing));
  }

  lemma CeilIsAbove(x: real)
    ensures x <= CeilSeconds(x) as real
    ensures x > 0.0 ==> CeilSeconds(x) as real < x + 1.0
  {
  }

  // ---- X-RateLimit-Reset ----

  /** After a request allowed at `passed` with nothing allowed in between, the bucket is full again
      exactly from the time on in which the tokens missing before it and its own are refilled. */
  lemma FullAgainIff(l: Limits, m: Store, key: string, passed: real, ops: seq<Op>, now: real)
    requires l.Valid() && ValidStore(l, m, passed) && InOrder(ops, passed)
    requires AnswerAt(l, Level(l, m, key, passed)).allowed
    requires NoneAllowed(l, Requested(l, m, key, passed), ops, key) && LastTime(ops, passed) <= now
    ensures var later := AfterOps(l, Requested(l, m, key, passed), ops);
            Level(l, later, key, now) == l.max as real <==>
            now - passed >= TimeFor(l, l.max as real - Level(l, m, key, passed) + 1.0)
  {
    hide Gain, Level, TimeFor, Requested, AfterOps;
    var n := Requested(l, m, key, passed);
    RequestLevels(l, m, key, passed, key);
    OnlyRefills(l, n, ops, key, passed, now);
    RefillInPieces(l, n, key, passed, now);
    TimeForIsRight(l, l.max as real - Level(l, m, key, passed) + 1.0, now - passed);
  }

  /** The reset seconds reported to a request that passes at `level` are long enough for the bucket
      to be full again. */
  ghost predicate ResetIsEnough(l: Limits, level: real)
    requires l.Valid()
  {
    CeilSeconds(TimeFor(l, l.max as real - level)) as real >= TimeFor(l, l.max as real - level + 1.0)
  }

  /** Once the reported seconds have passed with nothing allowed in between, the bucket is full
      exactly when rounding up has made good for the request's own token. */
  lemma ResetIsRightIff(l: Limits, m: Store, key: string, passed: real, ops: seq<Op>)
    requires l.Valid() && ValidStore(l, m, passed) && InOrder(ops, passed)
    requires AnswerAt(l, Level(l, m, key, passed)).allowed
    requires var reset := passed + AnswerAt(l, Level(l, m, key, passed)).seconds as real;
             NoneAllowed(l, Requested(l, m, key, passed), ops, key) && LastTime(ops, passed) <= reset
    ensures var later := AfterOps(l, Requested(l, m, key, passed), ops);
            var reset := passed + AnswerAt(l, Level(l, m, key, passed)).seconds as real;
            Level(l, later, key, reset) == l.max as real <==> ResetIsEnough(l, Level(l, m, key, passed))
  {
    var level := Level(l, m, key, passed);
    FullAgainIff(l, m, key, passed, ops, passed + AnswerAt(l, level).seconds as real);
    LevelBounds(l, m, key, passed);
    NothingMissing(l);
    hide Gain, Level, TimeFor, Requested, AfterOps, CeilSeconds;
  }

  lemma NothingMissing(l: Limits)
    requires l.Valid()
    ensures CeilSeconds(TimeFor(l, 0.0)) == 0
  {
  }

  /** Rounding up adds less than a second, so the reset is too early for every request where a token
      takes a second or more, and for one that finds a full bucket whatever the limits. */
  lemma ResetTooEarly(l: Limits, level: real)
    requires l.Valid() && 1.0 <= level <= l.max as real
    requires l.max <= l.window || level == l.max as real
    ensures !ResetIsEnough(l, level)
  {
    var missing := l.max as real - level;
    NothingMissing(l);
    CeilIsAbove(TimeFor(l, missing));
    TimeForIsRight(l, 1.0, 0.0);
    TimeForSum(l, missing, 1.0);
    if l.max <= l.window {
      TokenTakesASecond(l);
    }
    if missing > 0.0 {
      TimeForIsRight(l, missing, 0.0);
    }
    hide TimeFor, CeilSeconds;
  }

  lemma TimeForSum(l: Limits, a: real, b: real)
    requires l.Valid()
    ensures TimeFor(l, a + b) == TimeFor(l, a) + TimeFor(l, b)
  {
    var r := l.Rate();
    Quotient(a, r);
    Quotient(b, r);
    Quotient(a + b, r);
    Distribute(a / r, b / r, r);
    SameQuotient((a + b) / r, a / r + b / r, r);
  }

  lemma SameQuotient(x: real, y: real, r: real)
    requires r > 0.0 && x * r == y * r
    ensures x == y
  {
    Positive(if x > y then x - y else y - x, r);
    Distribute(x - y, y, r);
    Distribute(y - x, x, r);
  }

  lemma TokenTakesASecond(l: Limits)
    requires l.Valid() && l.max <= l.window
    ensures TimeFor(l, 1.0) >= 1.0
  {
    TimeForIsRight(l, 1.0, 1.0);
    SlowRate(l);
    assert Gain(l, 1.0) == l.Rate();
    TimeForIsRight(l, 1.0, TimeFor(l, 1.0));
    GainLaws(l, 1.0 - TimeFor(l, 1.0), TimeFor(l, 1.0));
  }

  lemma SlowRate(l: Limits)
    requires l.Valid() && l.max <= l.window
    ensures l.Rate() <= 1.0
  {
    Positive(l.Rate() - 1.0, l.window as real);
    Distribute(l.Rate() - 1.0, 1.0, l.window as real);
  }

  /** With 100 tokens a minute, a request at level 99.5 reports 1 second, and 0.9 are needed. */
  lemma ResetCanBeRight()
    ensures var l := Limits(100, 60);
            AnswerAt(l, 99.5) == Answer(true, 98, 1) && TimeFor(l, 1.5) == 0.9 && ResetIsEnough(l, 99.5)
  {
    var l := Limits(100, 60);
    assert l.Rate() == 100.0 / 60.0;
    assert 0.5 / (100.0 / 60.0) == 0.3;
    assert 1.5 / (100.0 / 60.0) == 0.9;
    assert (98.5 as real).Floor == 98;
    assert (-0.3 as real).Floor == -1;
  }

  // ---- X-RateLimit-Remaining ----

  /** The store after `n` requests of one client at one instant. */
  function Burst(l: Limits, m: Store, key: string, now: real, n: nat): Store
    requires l.max >= 1 && l.window > 0
  {
    if n == 0 then m else Requested(l, Burst(l, m, key, now, n - 1), key, now)
  }

  lemma {:induction false} BurstLevels(l: Limits, m: Store, key: string, now: real, n: nat)
    requires l.Valid() && ValidStore(l, m, now)
    ensures ValidStore(l, Burst(l, m, key, now, n), now)
    ensures var level := Level(l, m, key, now);
            Level(l, Burst(l, m, key, now, n), key, now) == level - if n <= level.Floor
                then n as real else level.Floor as real
  {
    hide Gain, Level;
    LevelBounds(l, m, key, now);
    if n > 0 {
      BurstLevels(l, m, key, now, n - 1);
      RequestLevels(l, Burst(l, m, key, now, n - 1), key, now, key);
    }
  }

  /** After a request that passes, exactly the reported number of further requests pass at once. */
  lemma RemainingIsExact(l: Limits, m: Store, key: string, now: real, n: nat)
    requires l.Valid() && ValidStore(l, m, now)
    requires AnswerAt(l, Level(l, m, key, now)).allowed
    ensures AnswerAt(l, Level(l, Burst(l, m, key, now, n + 1), key, now)).allowed <==>
            n < AnswerAt(l, Level(l, m, key, now)).remaining
  {
    hide Gain, Level;
    BurstLevels(l, m, key, now, n + 1);
  }
}
