/**
 The token-bucket limiter of gateway/ratelimit.go and the Retry-After rule of
 gateway/main.go.

 A token is counted in units of 1/(60 * 10^9) token, so
 that a rate of `rpm` requests per minute refills exactly `rpm` units per nanosecond.
 */
module RateLimit {
  import opened Clock

  const TOKEN := 60_000_000_000

  /** The parameters of a limiter; `NewTokenBucket` replaces non-positive values by 1. */
  datatype Config = Config(rpm: int, burst: int, ttl: int) {
    ghost predicate Valid() { rpm >= 1 && burst >= 1 && ttl >= 0 }

    /** The capacity of a bucket, in units. */
    function Cap(): int { burst * TOKEN }

    /** A bucket idle long enough to be swept has also refilled completely. */
    ghost predicate IdleMeansFull() { rpm * (ttl + 1) >= Cap() }
  }

  datatype Bucket = Bucket(tokens: int, lastCheck: int)

  type Buckets = map<string, Bucket>

  datatype Event =
    | AllowN(key: string, n: nat, now: int)
    | GetRemaining(key: string, now: int)
    | GetResetTime(key: string, now: int)
    | Evict(key: string, now: int)  // one key of one sweep; `now` was read when the sweep began

  datatype Answer = Decision(granted: bool) | Count(count: int) | ResetAt(second: int) | Silent

  function Min(a: int, b: int): int { if a <= b then a else b }
  function Max(a: int, b: int): int { if a <= b then b else a }

  /** What `math.Min(burst, tokens + elapsed*rate)` evaluates to at `now`. */
  function Refilled(cfg: Config, b: Bucket, now: int): int {
    Min(cfg.Cap(), b.tokens + cfg.rpm * (now - b.lastCheck))
  }

  /** The units a key can draw on at `now`; a key without a bucket has a full one. */
  function Level(cfg: Config, m: Buckets, key: string, now: int): int {
    if key in m then Refilled(cfg, m[key], now) else cfg.Cap()
  }

  /** `time.Time.Unix` of the instant at which the bucket is full again. */
  function ResetSecond(cfg: Config, level: int, now: int): int
    requires cfg.rpm != 0
  {
    var needed := cfg.Cap() - level;
    if needed <= 0 then now / SECOND else (now + needed / cfg.rpm) / SECOND
  }

  /** `calculateRetryAfter`: `reported` is the reset second, `now` the later clock reading. */
  function RetryAfter(reported: int, now: int): int {
    var wait := reported - now / SECOND;
    if wait < 1 then 1 else wait
  }

  function Stale(cfg: Config, b: Bucket, now: int): bool { now - b.lastCheck > cfg.ttl }

  /** The state after one event. */
  function Next(cfg: Config, m: Buckets, e: Event): Buckets {
    match e
    case AllowN(key, n, now) =>
      var level := Level(cfg, m, key, now);
      m[key := Bucket(if level >= n * TOKEN then level - n * TOKEN else level, now)]
    case Evict(key, now) => if key in m && Stale(cfg, m[key], now) then m - {key} else m
    case _ => m
  }

  /** What one event reports. */
  function Reply(cfg: Config, m: Buckets, e: Event): Answer
    requires cfg.rpm != 0
  {
    match e
    case AllowN(key, n, now) => Decision(Level(cfg, m, key, now) >= n * TOKEN)
    case GetRemaining(key, now) => Count(Level(cfg, m, key, now) / TOKEN)
    case GetResetTime(key, now) => ResetAt(ResetSecond(cfg, Level(cfg, m, key, now), now))
    case Evict(_, _) => Silent
  }

  function Run(cfg: Config, m: Buckets, es: seq<Event>): Buckets
    decreases |es|
  {
    if es == [] then m else Run(cfg, Next(cfg, m, es[0]), es[1..])
  }

  function Replies(cfg: Config, m: Buckets, es: seq<Event>): (rs: seq<Answer>)
    requires cfg.rpm != 0
    ensures |rs| == |es|
    decreases |es|
  {
    if es == [] then [] else [Reply(cfg, m, es[0])] + Replies(cfg, Next(cfg, m, es[0]), es[1..])
  }

  // ---------------------------------------------------------------- clocks and invariants

  /**
   The clock readings of a run are nondecreasing.  A sweep acts on a reading that may be
   older than the events around it, so an `Evict` is only bounded by what comes after it.
   */
  ghost predicate Ordered(clock: int, es: seq<Event>)
    decreases |es|
  {
    es == [] || ((es[0].Evict? || es[0].now >= clock) && Ordered(Tick(clock, es[0]), es[1..]))
  }

  function Tick(clock: int, e: Event): int { Max(clock, e.now) }

  ghost predicate BucketOk(cfg: Config, b: Bucket, clock: int) {
    0 <= b.tokens <= cfg.Cap() && b.lastCheck <= clock
  }

  ghost predicate Inv(cfg: Config, m: Buckets, clock: int) {
    forall key :: key in m ==> BucketOk(cfg, m[key], clock)
  }

  /** Linear facts about products that the solver is spared from finding. */
  lemma MulMono(r: int, x: int, y: int)
    requires r >= 0 && x <= y
    ensures r * x <= r * y && r * y - r * x == r * (y - x)
  {
  }

  lemma LevelRange(cfg: Config, m: Buckets, key: string, clock: int, now: int)
    requires cfg.Valid() && Inv(cfg, m, clock) && now >= clock
    ensures 0 <= Level(cfg, m, key, now) <= cfg.Cap()
  {
    if key in m { MulMono(cfg.rpm, 0, now - m[key].lastCheck); }
  }

  /** Refilling in two instalments is refilling once. */
  lemma LevelComposes(cfg: Config, m: Buckets, key: string, clock: int, t: int, u: int)
    requires cfg.Valid() && Inv(cfg, m, clock) && clock <= t <= u
    ensures Level(cfg, m, key, u) == Min(cfg.Cap(), Level(cfg, m, key, t) + cfg.rpm * (u - t))
    ensures Level(cfg, m, key, t) <= Level(cfg, m, key, u)
  {
    MulMono(cfg.rpm, 0, u - t);
    if key in m {
      MulMono(cfg.rpm, t - m[key].lastCheck, u - m[key].lastCheck);
    }
  }

  /** Every event keeps stored tokens within [0, burst] and stamps no bucket in the future. */
  lemma NextKeepsInv(cfg: Config, m: Buckets, clock: int, e: Event)
    requires cfg.Valid() && Inv(cfg, m, clock) && (e.Evict? || e.now >= clock)
    ensures Inv(cfg, Next(cfg, m, e), Tick(clock, e))
  {
    if e.AllowN? { LevelRange(cfg, m, e.key, clock, e.now); }
  }

  /** Stored tokens stay within [0, burst] over every run. */
  lemma {:induction false} RunKeepsInv(cfg: Config, m: Buckets, clock: int, es: seq<Event>) returns (last: int)
    requires cfg.Valid() && Inv(cfg, m, clock) && Ordered(clock, es)
    ensures last >= clock && Inv(cfg, Run(cfg, m, es), last)
    ensures forall e :: e in es ==> e.now <= last
    decreases |es|
  {
    if es == [] {
      last := clock;
    } else {
      NextKeepsInv(cfg, m, clock, es[0]);
      last := RunKeepsInv(cfg, Next(cfg, m, es[0]), Tick(clock, es[0]), es[1..]);
      assert forall e :: e in es ==> e == es[0] || e in es[1..];
    }
  }

  // ---------------------------------------------------------------- what may be deleted from a run

  /** Two stores no later event can tell apart: every key has the same level at `clock`. */
  ghost predicate Equivalent(cfg: Config, m: Buckets, m': Buckets, clock: int) {
    forall key :: Level(cfg, m, key, clock) == Level(cfg, m', key, clock)
  }

  lemma EquivalentLater(cfg: Config, m: Buckets, m': Buckets, clock: int, now: int)
    requires cfg.Valid() && Inv(cfg, m, clock) && Inv(cfg, m', clock) && clock <= now
    requires Equivalent(cfg, m, m', clock)
    ensures Equivalent(cfg, m, m', now)
  {
    forall key ensures Level(cfg, m, key, now) == Level(cfg, m', key, now) {
      LevelComposes(cfg, m, key, clock, clock, now);
      LevelComposes(cfg, m', key, clock, clock, now);
    }
  }

  /** Queries, evictions and refusals: the events that take no token. */
  predicate TakesNothing(cfg: Config, m: Buckets, e: Event) {
    e.AllowN? ==> Level(cfg, m, e.key, e.now) < e.n * TOKEN
  }

  lemma EvictedWasFull(cfg: Config, m: Buckets, clock: int, e: Event)
    requires cfg.Valid() && cfg.IdleMeansFull() && Inv(cfg, m, clock) && e.Evict?
    requires e.key in m && Stale(cfg, m[e.key], e.now)
    ensures Level(cfg, m, e.key, Tick(clock, e)) == cfg.Cap()
  {
    MulMono(cfg.rpm, cfg.ttl + 1, Tick(clock, e) - m[e.key].lastCheck);
  }

  lemma TakesNothingIsNeutral(cfg: Config, m: Buckets, clock: int, e: Event)
    requires cfg.Valid() && Inv(cfg, m, clock)
    requires if e.Evict? then cfg.IdleMeansFull() else e.now >= clock
    requires TakesNothing(cfg, m, e)
    ensures Equivalent(cfg, m, Next(cfg, m, e), Tick(clock, e))
  {
    var now := Tick(clock, e);
    forall key ensures Level(cfg, m, key, now) == Level(cfg, Next(cfg, m, e), key, now) {
      if e.Evict? && e.key in m && Stale(cfg, m[e.key], e.now) {
        EvictedWasFull(cfg, m, clock, e);
      } else if e.AllowN? {
        LevelRange(cfg, m, key, clock, now);
      }
    }
  }

  lemma SameCallSameEffect(cfg: Config, m: Buckets, m': Buckets, clock: int, e: Event)
    requires cfg.Valid() && Inv(cfg, m, clock) && Inv(cfg, m', clock)
    requires !e.Evict? && e.now >= clock && Equivalent(cfg, m, m', clock)
    ensures Reply(cfg, m, e) == Reply(cfg, m', e)
    ensures Equivalent(cfg, Next(cfg, m, e), Next(cfg, m', e), e.now)
  {
    EquivalentLater(cfg, m, m', clock, e.now);
    assert Level(cfg, m, e.key, e.now) == Level(cfg, m', e.key, e.now);
    forall key ensures Level(cfg, Next(cfg, m, e), key, e.now) == Level(cfg, Next(cfg, m', e), key, e.now) {
      assert Level(cfg, m, key, e.now) == Level(cfg, m', key, e.now);
    }
  }

  lemma EquivalentSym(cfg: Config, a: Buckets, b: Buckets, clock: int)
    requires Equivalent(cfg, a, b, clock)
    ensures Equivalent(cfg, b, a, clock)
  {
  }

  lemma EquivalentTrans(cfg: Config, a: Buckets, b: Buckets, c: Buckets, clock: int)
    requires Equivalent(cfg, a, b, clock) && Equivalent(cfg, b, c, clock)
    ensures Equivalent(cfg, a, c, clock)
  {
  }

  /** The same event on equivalent stores gets the same answer and leaves them equivalent. */
  lemma SameEventSameEffect(cfg: Config, m: Buckets, m': Buckets, clock: int, e: Event)
    requires cfg.Valid() && Inv(cfg, m, clock) && Inv(cfg, m', clock)
    requires (if e.Evict? then cfg.IdleMeansFull() else e.now >= clock) && Equivalent(cfg, m, m', clock)
    ensures Reply(cfg, m, e) == Reply(cfg, m', e)
    ensures Equivalent(cfg, Next(cfg, m, e), Next(cfg, m', e), Tick(clock, e))
  {
    if e.Evict? {
      var clock' := Tick(clock, e);
      EquivalentLater(cfg, m, m', clock, clock');
      TakesNothingIsNeutral(cfg, m, clock, e);
      TakesNothingIsNeutral(cfg, m', clock, e);
      EquivalentSym(cfg, m, Next(cfg, m, e), clock');
      EquivalentTrans(cfg, Next(cfg, m, e), m, m', clock');
      EquivalentTrans(cfg, Next(cfg, m, e), m', Next(cfg, m', e), clock');
    } else {
      SameCallSameEffect(cfg, m, m', clock, e);
    }
  }

  /** The sub-sequence of `xs` selected by `keep`. */
  function Select<T>(xs: seq<T>, keep: seq<bool>): seq<T>
    requires |xs| == |keep|
  {
    if xs == [] then []
    else (if keep[0] then [xs[0]] else []) + Select(xs[1..], keep[1..])
  }

  /** Only events that take nothing are deleted. */
  ghost predicate MayDelete(cfg: Config, m: Buckets, es: seq<Event>, keep: seq<bool>)
    requires |es| == |keep|
    decreases |es|
  {
    es == [] ||
    ((keep[0] || TakesNothing(cfg, m, es[0])) &&
     MayDelete(cfg, Next(cfg, m, es[0]), es[1..], keep[1..]))
  }

  ghost predicate NoSweep(es: seq<Event>) { forall e :: e in es ==> !e.Evict? }

  /**
   Deleting any choice of evictions, queries and refused calls changes no answer of the events
   that remain: lazy refill is continuous refill.  Without sweeps this holds of any limiter.
   */
  lemma {:induction false} DeletionIsUnobservable(cfg: Config, m: Buckets, m': Buckets, clock: int,
                                                  es: seq<Event>, keep: seq<bool>)
    requires cfg.Valid() && (cfg.IdleMeansFull() || NoSweep(es)) && Inv(cfg, m, clock) && Inv(cfg, m', clock)
    requires Equivalent(cfg, m, m', clock)
    requires |es| == |keep| && Ordered(clock, es) && MayDelete(cfg, m, es, keep)
    ensures Replies(cfg, m', Select(es, keep)) == Select(Replies(cfg, m, es), keep)
    decreases |es|
  {
    if es != [] {
      var e, next := es[0], Next(cfg, m, es[0]);
      var clock' := Tick(clock, e);
      NextKeepsInv(cfg, m, clock, e);
      var rest := Select(es[1..], keep[1..]);
      assert e in es && forall x :: x in es[1..] ==> x in es;
      assert Replies(cfg, m, es)[1..] == Replies(cfg, next, es[1..]);
      if keep[0] {
        NextKeepsInv(cfg, m', clock, e);
        SameEventSameEffect(cfg, m, m', clock, e);
        DeletionIsUnobservable(cfg, next, Next(cfg, m', e), clock', es[1..], keep[1..]);
        assert Select(es, keep) == [e] + rest;
        assert ([e] + rest)[1..] == rest;
      } else {
        TakesNothingIsNeutral(cfg, m, clock, e);
        EquivalentLater(cfg, m, m', clock, clock');
        EquivalentSym(cfg, m, next, clock');
        EquivalentTrans(cfg, next, m, m', clock');
        DeletionIsUnobservable(cfg, next, m', clock', es[1..], keep[1..]);
        assert Select(es, keep) == rest;
      }
    }
  }

  // ---------------------------------------------------------------- sweeps

  function IsAnswered(es: seq<Event>): (keep: seq<bool>)
    ensures |keep| == |es|
  {
    seq(|es|, i requires 0 <= i < |es| => !es[i].Evict?)
  }

  lemma {:induction false} EvictionsMayGo(cfg: Config, m: Buckets, es: seq<Event>)
    ensures MayDelete(cfg, m, es, IsAnswered(es))
    decreases |es|
  {
    if es != [] {
      EvictionsMayGo(cfg, Next(cfg, m, es[0]), es[1..]);
      assert IsAnswered(es)[1..] == IsAnswered(es[1..]);
    }
  }

  /** The events callers issue, and the answers they get, with the sweeps left out. */
  function Calls(es: seq<Event>): seq<Event> { Select(es, IsAnswered(es)) }

  function Answers(cfg: Config, m: Buckets, es: seq<Event>): seq<Answer>
    requires cfg.rpm != 0
  {
    Select(Replies(cfg, m, es), IsAnswered(es))
  }

  /** No two runs that differ only in their sweeps differ in any answer. */
  ghost predicate SweepsUnobservable(cfg: Config)
    requires cfg.rpm != 0
  {
    forall es, es', clock | Ordered(clock, es) && Ordered(clock, es') && Calls(es) == Calls(es') ::
      Answers(cfg, map[], es) == Answers(cfg, map[], es')
  }

  lemma SweepsUnobservableFrom(cfg: Config, m: Buckets, clock: int, es: seq<Event>, es': seq<Event>)
    requires cfg.Valid() && cfg.IdleMeansFull() && Inv(cfg, m, clock)
    requires Ordered(clock, es) && Ordered(clock, es') && Calls(es) == Calls(es')
    ensures Answers(cfg, m, es) == Answers(cfg, m, es')
  {
    EvictionsMayGo(cfg, m, es);
    EvictionsMayGo(cfg, m, es');
    DeletionIsUnobservable(cfg, m, m, clock, es, IsAnswered(es));
    DeletionIsUnobservable(cfg, m, m, clock, es', IsAnswered(es'));
  }

  /** Drain a fresh bucket at time 0, sweep it at the first instant it counts as idle, then `last`. */
  function SweepRun(cfg: Config, last: Event, swept: bool): seq<Event>
    requires cfg.Valid()
  {
    [AllowN("k", cfg.burst, 0)] + (if swept then [Evict("k", cfg.ttl + 1)] else []) + [last]
  }

  const DRAINED: Buckets := map["k" := Bucket(0, 0)]

  lemma SweptFacts(cfg: Config, last: Event)
    requires cfg.Valid() && !last.Evict? && last.now == cfg.ttl + 1 && last.key == "k"
    ensures var es := SweepRun(cfg, last, true);
            && Ordered(0, es) && Calls(es) == [AllowN("k", cfg.burst, 0), last]
            && Replies(cfg, map[], es) == [Decision(true), Silent, Reply(cfg, map[], last)]
            && Answers(cfg, map[], es) == [Decision(true), Reply(cfg, map[], last)]
  {
    var es := SweepRun(cfg, last, true);
    assert Next(cfg, map[], es[0]) == DRAINED && Next(cfg, DRAINED, es[1]) == map[];
    assert es[1..] == [es[1], last] && es[1..][1..] == [last] && [last][1..] == [];
    assert Replies(cfg, map[], [last]) == [Reply(cfg, map[], last)];
    assert Replies(cfg, DRAINED, es[1..]) == [Silent] + Replies(cfg, map[], [last]);
    assert Replies(cfg, map[], es) == [Decision(true), Silent, Reply(cfg, map[], last)];
    assert IsAnswered(es) == [true, false, true];
    SelectThree(es);
    SelectThree(Replies(cfg, map[], es));
    assert Ordered(cfg.ttl + 1, [last]) && Ordered(0, es[1..]);
  }

  lemma UnsweptFacts(cfg: Config, last: Event)
    requires cfg.Valid() && !last.Evict? && last.now == cfg.ttl + 1 && last.key == "k"
    ensures var es := SweepRun(cfg, last, false);
            && Ordered(0, es) && Calls(es) == [AllowN("k", cfg.burst, 0), last]
            && Answers(cfg, map[], es) == [Decision(true), Reply(cfg, DRAINED, last)]
  {
    var es := SweepRun(cfg, last, false);
    assert Next(cfg, map[], es[0]) == DRAINED;
    assert es[1..] == [last] && [last][1..] == [];
    assert Replies(cfg, DRAINED, [last]) == [Reply(cfg, DRAINED, last)];
    assert Replies(cfg, map[], es) == [Decision(true), Reply(cfg, DRAINED, last)];
    assert IsAnswered(es) == [true, true];
    SelectTwo(es);
    SelectTwo(Replies(cfg, map[], es));
    assert Ordered(0, [last]);
  }

  lemma SelectThree<T>(xs: seq<T>)
    requires |xs| == 3
    ensures Select(xs, [true, false, true]) == [xs[0], xs[2]]
  {
    assert xs[1..][1..] == [xs[2]];
    assert [true, false, true][1..] == [false, true] && [false, true][1..] == [true];
    assert Select([xs[2]], [true]) == [xs[2]] + Select([xs[2]][1..], [true][1..]);
    assert Select(xs[1..], [false, true]) == [] + Select([xs[2]], [true]);
  }

  lemma SelectTwo<T>(xs: seq<T>)
    requires |xs| == 2
    ensures Select(xs, [true, true]) == xs
  {
    assert xs[1..] == [xs[1]] && [true, true][1..] == [true];
    assert Select([xs[1]], [true]) == [xs[1]] + Select([xs[1]][1..], [true][1..]);
  }

  /**
   Sweeps are unobservable exactly when a bucket idle for more than the cleanup interval has
   refilled completely.
   */
  lemma SweepsUnobservableIff(cfg: Config)
    requires cfg.Valid()
    ensures SweepsUnobservable(cfg) <==> cfg.IdleMeansFull()
  {
    if cfg.IdleMeansFull() {
      forall es, es', clock | Ordered(clock, es) && Ordered(clock, es') && Calls(es) == Calls(es')
        ensures Answers(cfg, map[], es) == Answers(cfg, map[], es')
      {
        SweepsUnobservableFrom(cfg, map[], clock, es, es');
      }
    } else {
      var last := GetRemaining("k", cfg.ttl + 1);
      SweptFacts(cfg, last);
      UnsweptFacts(cfg, last);
      assert Reply(cfg, map[], last) == Count(cfg.burst);
      assert Level(cfg, DRAINED, "k", cfg.ttl + 1) < cfg.burst * TOKEN;
      assert Answers(cfg, map[], SweepRun(cfg, last, true)) != Answers(cfg, map[], SweepRun(cfg, last, false));
    }
  }

  // ---------------------------------------------------------------- deleting calls from a run with sweeps

  /** Queries and refused calls may be deleted from any run, with its sweeps left in place. */
  ghost predicate CallsDeletable(cfg: Config)
    requires cfg.rpm != 0
  {
    forall es: seq<Event>, keep: seq<bool>, clock: int |
      |es| == |keep| && Ordered(clock, es) && MayDelete(cfg, map[], es, keep) &&
      (forall i :: 0 <= i < |es| && es[i].Evict? ==> keep[i]) ::
      Replies(cfg, map[], Select(es, keep)) == Select(Replies(cfg, map[], es), keep)
  }

  /** `SweepRun` with a call that is refused just before the sweep, and so keeps the bucket alive. */
  function RefusedRun(cfg: Config, last: Event): seq<Event>
    requires cfg.Valid()
  {
    [AllowN("k", cfg.burst, 0), AllowN("k", cfg.burst + 1, cfg.ttl + 1), Evict("k", cfg.ttl + 1), last]
  }

  const WITHOUT_REFUSAL := [true, false, true, true]

  lemma SelectFour<T>(xs: seq<T>)
    requires |xs| == 4
    ensures Select(xs, WITHOUT_REFUSAL) == [xs[0], xs[2], xs[3]]
  {
    assert xs[1..][1..] == [xs[2], xs[3]] && WITHOUT_REFUSAL[1..][1..] == [true, true];
    SelectTwo([xs[2], xs[3]]);
    assert Select(xs[1..], WITHOUT_REFUSAL[1..]) == [] + Select([xs[2], xs[3]], [true, true]);
  }

  /** The bucket of `RefusedRun` once the refused call has stamped it. */
  function Stamped(cfg: Config): Buckets { map["k" := Bucket(cfg.rpm * (cfg.ttl + 1), cfg.ttl + 1)] }

  lemma RefusedStates(cfg: Config, last: Event)
    requires cfg.Valid() && !cfg.IdleMeansFull()
    ensures var es := RefusedRun(cfg, last);
            && Next(cfg, map[], es[0]) == DRAINED && Next(cfg, DRAINED, es[1]) == Stamped(cfg)
            && Next(cfg, Stamped(cfg), es[2]) == Stamped(cfg)
            && TakesNothing(cfg, DRAINED, es[1])
            && Level(cfg, Stamped(cfg), "k", cfg.ttl + 1) == Level(cfg, DRAINED, "k", cfg.ttl + 1)
  {
  }

  lemma RefusedFacts(cfg: Config, last: Event)
    requires cfg.Valid() && !cfg.IdleMeansFull() && last == GetRemaining("k", cfg.ttl + 1)
    ensures var es := RefusedRun(cfg, last);
            && Ordered(0, es) && MayDelete(cfg, map[], es, WITHOUT_REFUSAL)
            && Replies(cfg, map[], es)[3] == Reply(cfg, DRAINED, last)
  {
    var es, m := RefusedRun(cfg, last), Stamped(cfg);
    RefusedStates(cfg, last);
    assert es[1..][1..] == [es[2], last] && [es[2], last][1..] == [last];
    assert Ordered(0, es) by {
      assert Ordered(cfg.ttl + 1, [last]) && Ordered(cfg.ttl + 1, [es[2], last]) && Ordered(0, es[1..]);
    }
    assert MayDelete(cfg, map[], es, WITHOUT_REFUSAL) by {
      assert WITHOUT_REFUSAL[1..][1..] == [true, true] && [true, true][1..] == [true];
      assert MayDelete(cfg, m, [last], [true]) && MayDelete(cfg, m, [es[2], last], [true, true]);
      assert MayDelete(cfg, DRAINED, es[1..], WITHOUT_REFUSAL[1..]);
    }
    assert Replies(cfg, m, [es[2], last])[1..] == Replies(cfg, m, [last]);
    assert Replies(cfg, DRAINED, es[1..])[1..] == Replies(cfg, m, [es[2], last]);
    assert Replies(cfg, map[], es)[1..] == Replies(cfg, DRAINED, es[1..]);
  }

  /**
   With sweeps, queries and refused calls can be deleted exactly when an idle bucket is a full
   one: otherwise a refused call saves its bucket from a sweep that would have refilled it.
   */
  lemma CallsDeletableIff(cfg: Config)
    requires cfg.Valid()
    ensures CallsDeletable(cfg) <==> cfg.IdleMeansFull()
  {
    if cfg.IdleMeansFull() {
      forall es, keep, clock | |es| == |keep| && Ordered(clock, es) && MayDelete(cfg, map[], es, keep)
        ensures Replies(cfg, map[], Select(es, keep)) == Select(Replies(cfg, map[], es), keep)
      {
        DeletionIsUnobservable(cfg, map[], map[], clock, es, keep);
      }
    } else {
      var last := GetRemaining("k", cfg.ttl + 1);
      var es := RefusedRun(cfg, last);
      RefusedFacts(cfg, last);
      SweptFacts(cfg, last);
      SelectFour(es);
      SelectFour(Replies(cfg, map[], es));
      assert Select(es, WITHOUT_REFUSAL) == SweepRun(cfg, last, true);
      assert Level(cfg, DRAINED, "k", cfg.ttl + 1) < cfg.burst * TOKEN;
      assert Reply(cfg, map[], last) == Count(cfg.burst);
    }
  }

  // ---------------------------------------------------------------- the window bound

  /** Units granted to `key` at times within [s, t]. */
  function Granted(cfg: Config, m: Buckets, es: seq<Event>, key: string, s: int, t: int): int
    decreases |es|
  {
    if es == [] then 0 else
      var e := es[0];
      (if e.AllowN? && e.key == key && s <= e.now <= t && Level(cfg, m, key, e.now) >= e.n * TOKEN
       then e.n * TOKEN else 0)
      + Granted(cfg, Next(cfg, m, e), es[1..], key, s, t)
  }

  /** What a key can still be granted up to `t`: its level when counting starts, plus the refill. */
  function Budget(cfg: Config, m: Buckets, key: string, clock: int, s: int, t: int): int {
    var from := Max(clock, s);
    if t < from then 0 else Level(cfg, m, key, from) + cfg.rpm * (t - from)
  }

  lemma BudgetShrinks(cfg: Config, m: Buckets, key: string, clock: int, clock': int, s: int, t: int)
    requires cfg.Valid() && Inv(cfg, m, clock) && clock <= clock'
    ensures Budget(cfg, m, key, clock', s, t) <= Budget(cfg, m, key, clock, s, t)
  {
    var from, from' := Max(clock, s), Max(clock', s);
    if t >= from {
      LevelRange(cfg, m, key, clock, from);
      MulMono(cfg.rpm, 0, t - from);
      if t >= from' {
        LevelComposes(cfg, m, key, clock, from, from');
        MulMono(cfg.rpm, t - from', t - from);
      }
    }
  }

  /** The level, from the event on, is what it was less what the event took from this key. */
  lemma LevelDrop(cfg: Config, m: Buckets, e: Event, key: string, clock: int, from: int)
    requires cfg.Valid() && cfg.IdleMeansFull() && Inv(cfg, m, clock)
    requires (e.Evict? || e.now >= clock) && from >= Tick(clock, e)
    ensures Level(cfg, Next(cfg, m, e), key, from) <= Level(cfg, m, key, from)
    ensures e.AllowN? && e.key == key && !TakesNothing(cfg, m, e) && from == e.now ==>
            Level(cfg, Next(cfg, m, e), key, from) == Level(cfg, m, key, from) - e.n * TOKEN
  {
    var m', clock' := Next(cfg, m, e), Tick(clock, e);
    NextKeepsInv(cfg, m, clock, e);
    if TakesNothing(cfg, m, e) {
      TakesNothingIsNeutral(cfg, m, clock, e);
      assert Inv(cfg, m, clock');
      EquivalentLater(cfg, m, m', clock', from);
      assert Level(cfg, m, key, from) == Level(cfg, m', key, from);
    } else if e.key == key {
      LevelRange(cfg, m, key, clock, e.now);
      LevelComposes(cfg, m, key, clock, e.now, from);
      LevelComposes(cfg, m', key, clock', clock', from);
    }
  }

  lemma BudgetStep(cfg: Config, m: Buckets, e: Event, key: string, clock: int, s: int, t: int)
    requires cfg.Valid() && cfg.IdleMeansFull() && Inv(cfg, m, clock)
    requires e.Evict? || e.now >= clock
    ensures Granted(cfg, m, [e], key, s, t) + Budget(cfg, Next(cfg, m, e), key, Tick(clock, e), s, t)
         <= Budget(cfg, m, key, clock, s, t)
  {
    assert [e][1..] == [];
    BudgetShrinks(cfg, m, key, clock, Tick(clock, e), s, t);
    LevelDrop(cfg, m, e, key, clock, Max(Tick(clock, e), s));
  }

  lemma {:induction false} GrantedWithinBudget(cfg: Config, m: Buckets, es: seq<Event>, key: string,
                                               clock: int, s: int, t: int)
    requires cfg.Valid() && cfg.IdleMeansFull() && Inv(cfg, m, clock) && Ordered(clock, es)
    ensures Granted(cfg, m, es, key, s, t) <= Budget(cfg, m, key, clock, s, t)
    decreases |es|
  {
    if es == [] {
      if t >= Max(clock, s) {
        LevelRange(cfg, m, key, clock, Max(clock, s));
        MulMono(cfg.rpm, 0, t - Max(clock, s));
      }
    } else {
      NextKeepsInv(cfg, m, clock, es[0]);
      GrantedWithinBudget(cfg, Next(cfg, m, es[0]), es[1..], key, Tick(clock, es[0]), s, t);
      BudgetStep(cfg, m, es[0], key, clock, s, t);
      assert [es[0]][1..] == [];
      assert Granted(cfg, Next(cfg, m, es[0]), [es[0]][1..], key, s, t) == 0;
    }
  }

  /** In every run from `m`, at most burst + rate*(t-s) is granted to a key within [s, t]. */
  lemma WindowBound(cfg: Config, m: Buckets, es: seq<Event>, key: string, clock: int, s: int, t: int)
    requires cfg.Valid() && cfg.IdleMeansFull() && Inv(cfg, m, clock) && Ordered(clock, es) && s <= t
    ensures Granted(cfg, m, es, key, s, t) <= cfg.Cap() + cfg.rpm * (t - s)
  {
    GrantedWithinBudget(cfg, m, es, key, clock, s, t);
    var from := Max(clock, s);
    MulMono(cfg.rpm, 0, t - s);
    if t >= from {
      LevelRange(cfg, m, key, clock, from);
      MulMono(cfg.rpm, t - from, t - s);
    }
  }

  ghost predicate BoundedInEveryWindow(cfg: Config) {
    forall es, key, clock, s, t | Ordered(clock, es) && s <= t ::
      Granted(cfg, map[], es, key, s, t) <= cfg.Cap() + cfg.rpm * (t - s)
  }

  /** The window bound, too, holds exactly when an idle bucket is a full one. */
  lemma WindowBoundIff(cfg: Config)
    requires cfg.Valid()
    ensures BoundedInEveryWindow(cfg) <==> cfg.IdleMeansFull()
  {
    if cfg.IdleMeansFull() {
      forall es, key, clock, s, t | Ordered(clock, es) && s <= t
        ensures Granted(cfg, map[], es, key, s, t) <= cfg.Cap() + cfg.rpm * (t - s)
      {
        WindowBound(cfg, map[], es, key, clock, s, t);
      }
    } else {
      var last := AllowN("k", cfg.burst, cfg.ttl + 1);
      var es := SweepRun(cfg, last, true);
      SweptFacts(cfg, last);
      assert Next(cfg, map[], es[0]) == DRAINED && Next(cfg, DRAINED, es[1]) == map[];
      assert es[1..][1..] == [last] && es[1..] == [es[1], last];
      assert [last][1..] == [];
      assert Granted(cfg, map[], [last], "k", 0, cfg.ttl + 1) == cfg.Cap();
      assert Granted(cfg, DRAINED, es[1..], "k", 0, cfg.ttl + 1) == cfg.Cap();
      assert Granted(cfg, map[], es, "k", 0, cfg.ttl + 1) == 2 * cfg.Cap();
      assert Ordered(0, es);
    }
  }

  // ---------------------------------------------------------------- remaining tokens

  /** Tokens asked for on `key` in a run. */
  function Asked(es: seq<Event>, key: string): nat {
    if es == [] then 0
    else (if es[0].AllowN? && es[0].key == key then es[0].n else 0) + Asked(es[1..], key)
  }

  ghost predicate AllGranted(cfg: Config, m: Buckets, es: seq<Event>, key: string)
    decreases |es|
  {
    es == [] ||
    ((es[0].AllowN? && es[0].key == key ==> Level(cfg, m, key, es[0].now) >= es[0].n * TOKEN) &&
     AllGranted(cfg, Next(cfg, m, es[0]), es[1..], key))
  }

  /** An event lowers the level of a key by no more than it was asked for. */
  lemma LevelAfter(cfg: Config, m: Buckets, clock: int, e: Event, key: string, now: int)
    requires cfg.Valid() && Inv(cfg, m, clock) && (e.Evict? || e.now >= clock) && now >= Tick(clock, e)
    ensures Level(cfg, Next(cfg, m, e), key, now)
         >= Level(cfg, m, key, now) - (if e.AllowN? && e.key == key then e.n * TOKEN else 0)
    ensures TakesNothing(cfg, m, e) ==> Level(cfg, Next(cfg, m, e), key, now) >= Level(cfg, m, key, now)
  {
    LevelRange(cfg, m, key, clock, now);
    if e.AllowN? && e.key == key {
      NextKeepsInv(cfg, m, clock, e);
      LevelRange(cfg, m, key, clock, e.now);
      LevelComposes(cfg, m, key, clock, e.now, now);
      LevelComposes(cfg, Next(cfg, m, e), key, e.now, e.now, now);
    }
  }

  /**
   If `GetRemaining` reports k at `clock`, then in every later run that asks for at most k
   tokens on the key, every one of those calls is granted, whatever else happens.
   */
  lemma {:induction false} RemainingIsGranted(cfg: Config, m: Buckets, clock: int, es: seq<Event>, key: string)
    requires cfg.Valid() && Inv(cfg, m, clock) && Ordered(clock, es)
    requires Asked(es, key) <= Reply(cfg, m, GetRemaining(key, clock)).count
    ensures AllGranted(cfg, m, es, key)
    decreases |es|
  {
    if es != [] {
      var e := es[0];
      var clock' := Tick(clock, e);
      NextKeepsInv(cfg, m, clock, e);
      LevelComposes(cfg, m, key, clock, clock, clock');
      LevelAfter(cfg, m, clock, e, key, clock');
      RemainingIsGranted(cfg, Next(cfg, m, e), clock', es[1..], key);
    }
  }

  /** At the instant of the query, an event lowers the count by what it is granted and nothing else. */
  lemma CountAfter(cfg: Config, m: Buckets, e: Event, key: string, clock: int)
    requires cfg.Valid() && Inv(cfg, m, clock)
    requires if e.Evict? then e.now <= clock && (cfg.IdleMeansFull() || e.key != key) else e.now == clock
    requires e.AllowN? && e.key == key ==> e.n <= Level(cfg, m, key, clock) / TOKEN
    ensures Level(cfg, Next(cfg, m, e), key, clock) / TOKEN
         == Level(cfg, m, key, clock) / TOKEN - if e.AllowN? && e.key == key then e.n else 0
  {
    LevelRange(cfg, m, key, clock, clock);
    if e.Evict? && e.key == key {
      TakesNothingIsNeutral(cfg, m, clock, e);
      assert Level(cfg, m, key, clock) == Level(cfg, Next(cfg, m, e), key, clock);
    }
  }

  /** Calls at the very instant `clock`, among sweeps that act on readings up to then. */
  ghost predicate AtInstant(clock: int, es: seq<Event>) {
    forall e :: e in es ==> if e.Evict? then e.now <= clock else e.now == clock
  }

  /**
   ... and once exactly k tokens have been taken at that same instant, the next call is refused,
   whatever sweeps act meanwhile on readings up to then; a sweep of the key itself must find it
   full.
   */
  lemma {:induction false} RemainingIsExhausted(cfg: Config, m: Buckets, clock: int, es: seq<Event>, key: string, n: nat)
    requires cfg.Valid() && Inv(cfg, m, clock)
    requires AtInstant(clock, es)
    requires cfg.IdleMeansFull() || forall e :: e in es && e.Evict? ==> e.key != key
    requires Asked(es, key) == Reply(cfg, m, GetRemaining(key, clock)).count && n >= 1
    ensures Reply(cfg, Run(cfg, m, es), AllowN(key, n, clock)) == Decision(false)
    decreases |es|
  {
    if es != [] {
      assert es[0] in es;
      NextKeepsInv(cfg, m, clock, es[0]);
      CountAfter(cfg, m, es[0], key, clock);
      RemainingIsExhausted(cfg, Next(cfg, m, es[0]), clock, es[1..], key, n);
    }
  }

  ghost predicate AlwaysExhausted(cfg: Config)
    requires cfg.rpm != 0
  {
    forall m: Buckets, clock: int, es: seq<Event>, key: string |
      Inv(cfg, m, clock) && AtInstant(clock, es) && Asked(es, key) == Reply(cfg, m, GetRemaining(key, clock)).count ::
      Reply(cfg, Run(cfg, m, es), AllowN(key, 1, clock)) == Decision(false)
  }

  /** The sweep that breaks it: a drained bucket, evicted once idle, is granted what was reported and one more. */
  lemma SweptIsNotExhausted(cfg: Config)
    requires cfg.Valid() && !cfg.IdleMeansFull()
    ensures var clock := cfg.ttl + 1;
            var k := Reply(cfg, DRAINED, GetRemaining("k", clock)).count;
            && k >= 0 && Inv(cfg, DRAINED, clock)
            && var m := Run(cfg, DRAINED, [Evict("k", clock), AllowN("k", k, clock)]);
               Reply(cfg, m, AllowN("k", 1, clock)) == Decision(true)
  {
    var clock := cfg.ttl + 1;
    LevelRange(cfg, DRAINED, "k", clock, clock);
    var k: nat := Reply(cfg, DRAINED, GetRemaining("k", clock)).count;
    var es := [Evict("k", clock), AllowN("k", k, clock)];
    assert k <= cfg.burst - 1;
    assert Next(cfg, DRAINED, es[0]) == map[];
    assert es[1..] == [es[1]] && [es[1]][1..] == [];
    assert Run(cfg, DRAINED, es) == Run(cfg, map[], [es[1]]) == Next(cfg, map[], es[1]);
  }

  /** Sweeps of the key itself respect the reported count exactly when an idle bucket is a full one. */
  lemma RemainingIsExhaustedIff(cfg: Config)
    requires cfg.Valid()
    ensures AlwaysExhausted(cfg) <==> cfg.IdleMeansFull()
  {
    if cfg.IdleMeansFull() {
      forall m: Buckets, clock: int, es: seq<Event>, key: string |
        Inv(cfg, m, clock) && AtInstant(clock, es) && Asked(es, key) == Reply(cfg, m, GetRemaining(key, clock)).count
        ensures Reply(cfg, Run(cfg, m, es), AllowN(key, 1, clock)) == Decision(false)
      {
        RemainingIsExhausted(cfg, m, clock, es, key, 1);
      }
    } else {
      SweptIsNotExhausted(cfg);
      var clock := cfg.ttl + 1;
      var k: nat := Reply(cfg, DRAINED, GetRemaining("k", clock)).count;
      var es := [Evict("k", clock), AllowN("k", k, clock)];
      assert es[1..] == [es[1]] && [es[1]][1..] == [];
      assert Asked([es[1]], "k") == k && Asked(es, "k") == k;
      assert AtInstant(clock, es);
    }
  }

  // ---------------------------------------------------------------- reset time and Retry-After

  /** Nothing is granted to `key` in the run. */
  ghost predicate NothingTaken(cfg: Config, m: Buckets, es: seq<Event>, key: string)
    decreases |es|
  {
    es == [] ||
    ((es[0].AllowN? && es[0].key == key ==> TakesNothing(cfg, m, es[0])) &&
     NothingTaken(cfg, Next(cfg, m, es[0]), es[1..], key))
  }

  lemma {:induction false} UntouchedLevel(cfg: Config, m: Buckets, clock: int, es: seq<Event>, key: string, now: int)
    requires cfg.Valid() && Inv(cfg, m, clock) && NothingTaken(cfg, m, es, key) && now >= clock
    requires Ordered(clock, es) && (forall e :: e in es ==> e.now <= now)
    ensures Level(cfg, Run(cfg, m, es), key, now) >= Level(cfg, m, key, now)
    decreases |es|
  {
    if es != [] {
      var e := es[0];
      assert e in es;
      NextKeepsInv(cfg, m, clock, e);
      LevelAfter(cfg, m, clock, e, key, now);
      UntouchedLevel(cfg, Next(cfg, m, e), Tick(clock, e), es[1..], key, now);
    }
  }

  /** ... and exactly that level, unless a sweep finds the key's bucket idle but not full. */
  lemma {:induction false} UntouchedExactly(cfg: Config, m: Buckets, clock: int, es: seq<Event>, key: string, now: int)
    requires cfg.Valid() && Inv(cfg, m, clock) && NothingTaken(cfg, m, es, key) && now >= clock
    requires Ordered(clock, es) && (forall e :: e in es ==> e.now <= now)
    requires cfg.IdleMeansFull() || forall e :: e in es && e.Evict? ==> e.key != key
    ensures Level(cfg, Run(cfg, m, es), key, now) == Level(cfg, m, key, now)
    decreases |es|
  {
    if es != [] {
      var e := es[0];
      assert e in es;
      NextKeepsInv(cfg, m, clock, e);
      if e.key == key {
        TakesNothingIsNeutral(cfg, m, clock, e);
        EquivalentLater(cfg, m, Next(cfg, m, e), Tick(clock, e), now);
      }
      assert Level(cfg, Next(cfg, m, e), key, now) == Level(cfg, m, key, now);
      UntouchedExactly(cfg, Next(cfg, m, e), Tick(clock, e), es[1..], key, now);
    }
  }

  /**
   The reported reset second s brackets the moment the bucket is full: it is full from one
   second after s, and not full before s, as long as nothing is taken meanwhile.  For a bucket that
   is full already it is the second of the query.
   */
  lemma ResetTimeBrackets(cfg: Config, m: Buckets, key: string, clock: int, t: int)
    requires cfg.Valid() && Inv(cfg, m, clock) && t >= clock
    ensures var s := Reply(cfg, m, GetResetTime(key, clock)).second;
            && (t >= (s + 1) * SECOND ==> Level(cfg, m, key, t) == cfg.Cap())
            && (Level(cfg, m, key, clock) < cfg.Cap() && t < s * SECOND ==> Level(cfg, m, key, t) < cfg.Cap())
            && (Level(cfg, m, key, clock) == cfg.Cap() ==> s * SECOND <= clock < (s + 1) * SECOND)
  {
    var level := Level(cfg, m, key, clock);
    var needed := cfg.Cap() - level;
    LevelRange(cfg, m, key, clock, clock);
    LevelComposes(cfg, m, key, clock, clock, t);
    if needed > 0 {
      var d := needed / cfg.rpm;
      DivBounds(needed, cfg.rpm);
      if t - clock > d {
        MulMono(cfg.rpm, d + 1, t - clock);
      } else if t - clock < d {
        MulMono(cfg.rpm, t - clock, d - 1);
      }
    }
  }

  lemma DivBounds(x: int, r: int)
    requires x >= 0 && r >= 1
    ensures r * (x / r) <= x < r * (x / r + 1) && x / r >= 0
  {
  }

  /** Waiting out the advertised seconds is enough. */
  ghost predicate HonestConfig(cfg: Config) { cfg.burst >= 2 || cfg.rpm >= 60 }

  /** Flooring the reset time and the clock loses less than one second of the wait. */
  lemma FlooredWait(reset: int, t2: int, t: int)
    requires t >= t2 + RetryAfter(reset / SECOND, t2) * SECOND
    ensures t > reset - SECOND && t >= t2 + SECOND
  {
  }

  lemma WaitedLevel(cfg: Config, m: Buckets, key: string, t1: int, t2: int, t: int)
    requires cfg.Valid() && HonestConfig(cfg) && Inv(cfg, m, t1) && t1 <= t2
    requires t >= t2 + RetryAfter(Reply(cfg, m, GetResetTime(key, t1)).second, t2) * SECOND
    ensures Level(cfg, m, key, t) >= TOKEN
  {
    var level := Level(cfg, m, key, t1);
    var needed := cfg.Cap() - level;
    LevelRange(cfg, m, key, t1, t1);
    DivBounds(needed, cfg.rpm);
    var wait := needed / cfg.rpm;
    FlooredWait(if needed <= 0 then t1 else t1 + wait, t2, t);
    LevelComposes(cfg, m, key, t1, t1, t);
    if cfg.rpm >= 60 {
      MulMono(cfg.rpm, SECOND, t - t1);
    } else if needed > 0 {
      EnoughAfter(cfg, level, wait, t - t1);
    }
  }

  lemma EnoughAfter(cfg: Config, level: int, wait: int, elapsed: int)
    requires cfg.Valid() && 2 <= cfg.burst && cfg.rpm < 60
    requires cfg.Cap() - level < cfg.rpm * (wait + 1) && elapsed >= wait + 1 - SECOND
    ensures level + cfg.rpm * elapsed >= TOKEN
  {
    MulMono(cfg.rpm, wait + 1 - SECOND, elapsed);
    assert cfg.rpm * (wait + 1 - SECOND) == cfg.rpm * (wait + 1) - cfg.rpm * SECOND;
  }

  /** `es` is a run after t1 with nothing for the key, and t is late enough after it to retry as told. */
  ghost predicate Waited(cfg: Config, m: Buckets, key: string, t1: int, t2: int, es: seq<Event>, t: int)
    requires cfg.rpm != 0
  {
    && Ordered(t1, es) && NothingTaken(cfg, m, es, key) && (forall e :: e in es ==> e.now <= t)
    && t >= t2 + RetryAfter(Reply(cfg, m, GetResetTime(key, t1)).second, t2) * SECOND
  }

  /**
   Retry-After (section 10.2.3 of RFC 9110) is sufficient: if the reset time is read at t1 and
   the clock again at t2, and nothing is granted to the key in the run that follows, then a
   request at least the advertised seconds later is allowed.
   */
  lemma RetryAfterSuffices(cfg: Config, m: Buckets, key: string, t1: int, t2: int, es: seq<Event>, t: int)
    requires cfg.Valid() && HonestConfig(cfg) && Inv(cfg, m, t1) && t1 <= t2
    requires Waited(cfg, m, key, t1, t2, es, t)
    ensures Reply(cfg, Run(cfg, m, es), AllowN(key, 1, t)) == Decision(true)
  {
    WaitedLevel(cfg, m, key, t1, t2, t);
    UntouchedLevel(cfg, m, t1, es, key, t);
  }

  /**
   Retry-After is not excessive: an advertised wait of more than the minimum of one second ends
   no later than the reset second, until which the bucket is not full, as long as nothing is taken
   and no sweep makes the key a present.
   */
  lemma RetryAfterIsNotExcessive(cfg: Config, m: Buckets, key: string, t1: int, t2: int, es: seq<Event>, t: int)
    requires cfg.Valid() && Inv(cfg, m, t1) && t1 <= t2
    requires RetryAfter(Reply(cfg, m, GetResetTime(key, t1)).second, t2) > 1
    requires var wait := RetryAfter(Reply(cfg, m, GetResetTime(key, t1)).second, t2);
             t1 <= t < (t2 / SECOND + wait) * SECOND
    requires Ordered(t1, es) && NothingTaken(cfg, m, es, key) && (forall e :: e in es ==> e.now <= t)
    requires cfg.IdleMeansFull() || forall e :: e in es && e.Evict? ==> e.key != key
    ensures Level(cfg, Run(cfg, m, es), key, t) < cfg.Cap()
  {
    LevelRange(cfg, m, key, t1, t1);
    ResetTimeBrackets(cfg, m, key, t1, t);
    UntouchedExactly(cfg, m, t1, es, key, t);
  }

  /** From every state within the invariant, a refused client that waits as told through any such run is served. */
  ghost predicate RetryAfterAlwaysSuffices(cfg: Config)
    requires cfg.rpm != 0
  {
    forall m: Buckets, key: string, t1: int, t2: int, es: seq<Event>, t: int |
      Inv(cfg, m, t1) && t1 <= t2 && Reply(cfg, m, AllowN(key, 1, t1)) == Decision(false) &&
      Waited(cfg, m, key, t1, t2, es, t) ::
      Reply(cfg, Run(cfg, m, es), AllowN(key, 1, t)) == Decision(true)
  }

  /**
   The exact condition.  A burst of one at less than one token per second is told to come back
   too early: both clock readings are floored, and up to a second is lost.
   */
  lemma RetryAfterSufficesIff(cfg: Config)
    requires cfg.Valid()
    ensures RetryAfterAlwaysSuffices(cfg) <==> HonestConfig(cfg)
  {
    if HonestConfig(cfg) {
      forall m: Buckets, key: string, t1: int, t2: int, es: seq<Event>, t: int |
        Inv(cfg, m, t1) && t1 <= t2 && Waited(cfg, m, key, t1, t2, es, t)
        ensures Reply(cfg, Run(cfg, m, es), AllowN(key, 1, t)) == Decision(true)
      {
        RetryAfterSuffices(cfg, m, key, t1, t2, es, t);
      }
    } else {
      RetriedTooEarly(cfg);
    }
  }

  /** One token taken just before a full second, a refusal at that second, a retry as advised. */
  lemma RetriedTooEarly(cfg: Config)
    requires cfg.Valid() && !HonestConfig(cfg)
    ensures var m := Next(cfg, map[], AllowN("k", 1, SECOND - 1));
            var wait := RetryAfter(Reply(cfg, m, GetResetTime("k", SECOND)).second, SECOND);
            && Inv(cfg, m, SECOND)
            && Reply(cfg, m, AllowN("k", 1, SECOND)) == Decision(false)
            && Reply(cfg, m, AllowN("k", 1, SECOND + wait * SECOND)) == Decision(false)
    ensures !RetryAfterAlwaysSuffices(cfg)
  {
    var m := Next(cfg, map[], AllowN("k", 1, SECOND - 1));
    assert m == map["k" := Bucket(0, SECOND - 1)];
    var needed := TOKEN - cfg.rpm;
    assert Level(cfg, m, "k", SECOND) == cfg.rpm;
    DivBounds(needed, cfg.rpm);
    var d := needed / cfg.rpm;
    assert d >= SECOND by { if d < SECOND { MulMono(cfg.rpm, d + 1, SECOND); } }
    var reported := (SECOND + d) / SECOND;
    assert Reply(cfg, m, GetResetTime("k", SECOND)).second == reported;
    var wait := RetryAfter(reported, SECOND);
    assert wait == d / SECOND;
    // rpm * wait is a whole number of tokens per minute below 60
    assert cfg.rpm * wait < 60 by {
      MulMono(cfg.rpm, wait * SECOND, d);
      assert cfg.rpm * (wait * SECOND) == (cfg.rpm * wait) * SECOND;
    }
    var t := SECOND + wait * SECOND;
    assert cfg.rpm * (t - (SECOND - 1)) == (cfg.rpm * wait) * SECOND + cfg.rpm;
    assert Level(cfg, m, "k", t) < TOKEN;
    assert Inv(cfg, m, SECOND) && Run(cfg, m, []) == m && Waited(cfg, m, "k", SECOND, SECOND, [], t);
  }

  // ---------------------------------------------------------------- the limiter object

  class TokenBucket {
    const cfg: Config
    var buckets: Buckets

    /** `NewTokenBucket`; a ticker with a non-positive interval panics, hence the requirement. */
    constructor (rpm: int, burst: int, ttl: int)
      requires ttl > 0
      ensures cfg.Valid() && cfg.ttl == ttl && buckets == map[]
      ensures rpm >= 1 ==> cfg.rpm == rpm
      ensures rpm < 1 ==> cfg.rpm == 1
      ensures burst >= 1 ==> cfg.burst == burst
      ensures burst < 1 ==> cfg.burst == 1
    {
      cfg := Config(if rpm <= 0 then 1 else rpm, if burst <= 0 then 1 else burst, ttl);
      buckets := map[];
    }

    /** `LoadOrStore` of a full bucket; `created` is the clock reading taken for the new one. */
    method GetBucket(key: string, created: int) returns (b: Bucket)
      modifies this
      ensures key in buckets && b == buckets[key]
      ensures key in old(buckets) ==> buckets == old(buckets)
      ensures key !in old(buckets) ==> buckets == old(buckets)[key := Bucket(cfg.Cap(), created)]
    {
      if key !in buckets {
        buckets := buckets[key := Bucket(cfg.Cap(), created)];
      }
      b := buckets[key];
    }

    /** `created` and `now` are the two readings of the clock in the source. */
    method Allow(key: string, n: nat, created: int, now: int) returns (ok: bool)
      requires cfg.Valid() && created <= now
      modifies this
      ensures Decision(ok) == Reply(cfg, old(buckets), AllowN(key, n, now))
      ensures buckets == Next(cfg, old(buckets), AllowN(key, n, now))
    {
      var b := GetBucket(key, created);
      MulMono(cfg.rpm, 0, now - created);
      var tokens := Min(cfg.Cap(), b.tokens + cfg.rpm * (now - b.lastCheck));
      ok := tokens >= n * TOKEN;
      if ok {
        tokens := tokens - n * TOKEN;
      }
      buckets := buckets[key := Bucket(tokens, now)];
    }

    method Remaining(key: string, now: int) returns (k: int)
      requires cfg.Valid()
      ensures Count(k) == Reply(cfg, buckets, GetRemaining(key, now))
    {
      if key !in buckets {
        return cfg.burst;
      }
      var b := buckets[key];
      var tokens := Min(cfg.Cap(), b.tokens + cfg.rpm * (now - b.lastCheck));
      k := tokens / TOKEN;
    }

    method ResetTime(key: string, now: int) returns (second: int)
      requires cfg.Valid()
      ensures ResetAt(second) == Reply(cfg, buckets, GetResetTime(key, now))
    {
      if key !in buckets {
        return now / SECOND;
      }
      var b := buckets[key];
      var needed := cfg.Cap() - Min(cfg.Cap(), b.tokens + cfg.rpm * (now - b.lastCheck));
      if needed <= 0 {
        return now / SECOND;
      }
      second := (now + needed / cfg.rpm) / SECOND;
    }

    /** The refusal branch of `RateLimitMiddleware`: the Retry-After value, two clock readings. */
    method RetryAfterSeconds(key: string, t1: int, t2: int) returns (seconds: int)
      requires cfg.Valid()
      ensures seconds >= 1
      ensures seconds == RetryAfter(Reply(cfg, buckets, GetResetTime(key, t1)).second, t2)
    {
      var reset := ResetTime(key, t1);
      seconds := reset - t2 / SECOND;
      if seconds < 1 {
        seconds := 1;
      }
    }

    /** One tick of `cleanup`: a sweep is one eviction per key, in the order of the iteration. */
    method Sweep(now: int) returns (ghost steps: seq<Event>)
      modifies this
      ensures buckets == map key | key in old(buckets) && !Stale(cfg, old(buckets)[key], now) :: old(buckets)[key]
      ensures buckets == Run(cfg, old(buckets), steps)
      ensures forall e :: e in steps ==> e.Evict? && e.now == now
    {
      var todo := buckets.Keys;
      steps := [];
      while todo != {}
        invariant todo <= old(buckets).Keys
        invariant buckets.Keys == set key | key in old(buckets) && (key in todo || !Stale(cfg, old(buckets)[key], now))
        invariant forall key :: key in buckets ==> buckets[key] == old(buckets)[key]
        invariant buckets == Run(cfg, old(buckets), steps)
        invariant forall e :: e in steps ==> e.Evict? && e.now == now
        decreases todo
      {
        var key :| key in todo;
        RunAppend(cfg, old(buckets), steps, Evict(key, now));
        steps := steps + [Evict(key, now)];
        if now - buckets[key].lastCheck > cfg.ttl {
          buckets := buckets - {key};
        }
        todo := todo - {key};
      }
    }
  }

  lemma {:induction false} RunAppend(cfg: Config, m: Buckets, es: seq<Event>, e: Event)
    ensures Run(cfg, m, es + [e]) == Next(cfg, Run(cfg, m, es), e)
    decreases |es|
  {
    if es == [] {
      assert [e][1..] == [];
    } else {
      RunAppend(cfg, Next(cfg, m, es[0]), es[1..], e);
      assert (es + [e])[1..] == es[1..] + [e];
    }
  }
}
