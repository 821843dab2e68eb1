/**
 The replay guard of verifier/src/main.rs: a freshness window in whole wall-clock seconds, a
 retention window on the monotonic clock, and a nonce store that is either an in-process map
 swept lazily or a Redis key set shared by any number of verifier replicas.

 One request reads both clocks at one instant `at` (nanoseconds); the wall clock is the
 monotonic clock plus a fixed offset.  The digest of a nonce and signature recovery are
 arbitrary functions of the configuration.
 */
module ReplayGuard {
  import opened Wrappers
  import opened Clock
  import J = Json

  type Text = J.Text

  const U64_MAX := 0xFFFF_FFFF_FFFF_FFFF
  const SWEEP_INTERVAL := 60 * SECOND

  type Digest = seq<int>

  // ---------------------------------------------------------------- freshness

  function SaturatingAdd(a: nat, b: nat): nat { if a + b > U64_MAX then U64_MAX else a + b }
  function SaturatingSub(a: nat, b: nat): nat { if a < b then 0 else a - b }

  datatype TimestampError =
    | SignatureExpired(age: nat, max: nat)
    | FutureTimestamp(timestamp: nat, now: nat)
    | MissingTimestamp

  /** `validate_timestamp_internal`; None means the timestamp is acceptable. */
  function ValidateTimestamp(timestamp: Option<nat>, window: nat, skew: nat, now: nat): Option<TimestampError> {
    match timestamp
    case None => Some(MissingTimestamp)
    case Some(ts) =>
      if ts > SaturatingAdd(now, skew) then Some(FutureTimestamp(ts, now))
      else
        var age := SaturatingSub(now, ts);
        if age > window then Some(SignatureExpired(age, window)) else None
  }

  /**
   On 64-bit inputs saturation never changes the verdict: the window is now-window .. now+skew, and
   what is reported outside it is the side on which it was missed, and by how much.
   */
  lemma FreshIff(timestamp: Option<nat>, window: nat, skew: nat, now: nat)
    requires timestamp.Some? ==> timestamp.value <= U64_MAX
    ensures var v := ValidateTimestamp(timestamp, window, skew, now);
            if timestamp.None? then v == Some(MissingTimestamp)
            else
              var ts := timestamp.value;
              && (v == None <==> now - window <= ts <= now + skew)
              && (v == Some(FutureTimestamp(ts, now)) <==> ts > now + skew)
              && (ts < now - window <==> ts <= now && v == Some(SignatureExpired(now - ts, window)))
  {
  }

  // ---------------------------------------------------------------- configuration and requests

  datatype Context = Context(recipient: Text, token: Text, amount: Text, nonce: Text,
                             chainId: nat, timestamp: Option<nat>)

  datatype Recovery = TypedDataError | MalformedSignature | Unrecoverable | Recovered(address: Text)

  datatype Config = Config(expiry: nat, skew: nat, chainId: nat, offset: int,
                           digest: Text -> Digest, recover: (Context, Text) -> Recovery)

  /** `nonce_retention_ttl`, in seconds. */
  function RetentionSeconds(cfg: Config): nat { SaturatingAdd(SaturatingAdd(cfg.expiry, cfg.skew), 1) }

  /** What can go wrong between a replica and Redis: before the SET is applied, or after. */
  datatype Fault = NoFault | NotApplied | ReplyLost

  datatype Request = Request(context: Context, signature: Text, at: int, fault: Fault)

  datatype Verdict =
    | Valid(address: Text)
    | ChainIdMismatch
    | TimestampRejected(reason: TimestampError)
    | TypedDataRejected
    | SignatureRejected
    | NonceAlreadyUsed(address: Text)
    | StoreUnavailable

  // ---------------------------------------------------------------- nonce stores

  datatype Store =
    | Memory(used: map<Digest, int>, lastSweep: int)  // digest -> instant of insertion
    | Redis(expires: map<Digest, int>)                // digest -> instant of expiry

  datatype ClaimResult = Claimed | Taken | Unavailable

  /** `evict_expired_nonces`. */
  function Retain(used: map<Digest, int>, now: int, ttl: nat): map<Digest, int> {
    map d | d in used && now - used[d] <= ttl :: used[d]
  }

  /** `maybe_evict_expired_nonces`: at most one sweep a minute. */
  function MaybeEvict(used: map<Digest, int>, lastSweep: int, now: int, ttl: nat): (map<Digest, int>, int) {
    if now - lastSweep < SWEEP_INTERVAL then (used, lastSweep) else (Retain(used, now, ttl), now)
  }

  /** The entry operation of `claim_memory_nonce`: is the digest free at `now`? */
  predicate Free(used: map<Digest, int>, d: Digest, now: int, ttl: nat) {
    d in used ==> now - used[d] > ttl
  }

  function ClaimMemory(used: map<Digest, int>, lastSweep: int, d: Digest, now: int, ttl: nat): (Store, bool) {
    var (used', sweep') := MaybeEvict(used, lastSweep, now, ttl);
    if Free(used', d, now, ttl) then (Memory(used'[d := now], sweep'), true) else (Memory(used', sweep'), false)
  }

  /** `SET key 1 NX EX ttl`; Redis drops the key once the ttl has elapsed. */
  function ClaimRedis(expires: map<Digest, int>, d: Digest, now: int, ttl: nat, fault: Fault): (Store, ClaimResult) {
    var life := if ttl < SECOND then SECOND else ttl;  // max(1) second
    var free := d in expires ==> now >= expires[d];
    var applied := Redis(if free then expires[d := now + life] else expires);
    match fault
    case NotApplied => (Redis(expires), Unavailable)
    case ReplyLost => (applied, Unavailable)
    case NoFault => (applied, if free then Claimed else Taken)
  }

  /** `claim_nonce` with a retention of `ttl` nanoseconds. */
  function Claim(store: Store, d: Digest, now: int, ttl: nat, fault: Fault): (Store, ClaimResult) {
    match store
    case Memory(used, lastSweep) =>
      var (store', ok) := ClaimMemory(used, lastSweep, d, now, ttl);
      (store', if ok then Claimed else Taken)
    case Redis(expires) => ClaimRedis(expires, d, now, ttl, fault)
  }

  // ---------------------------------------------------------------- verify_signature

  function WallSeconds(cfg: Config, at: int): nat { if at + cfg.offset < 0 then 0 else (at + cfg.offset) / SECOND }

  /** Everything `verify_signature` decides before it touches the nonce store. */
  function Precheck(cfg: Config, r: Request): Verdict {
    if r.context.chainId != cfg.chainId then ChainIdMismatch
    else
      var stamp := ValidateTimestamp(r.context.timestamp, cfg.expiry, cfg.skew, WallSeconds(cfg, r.at));
      if stamp.Some? then TimestampRejected(stamp.value)
      else match cfg.recover(r.context, r.signature)
           case TypedDataError => TypedDataRejected
           case MalformedSignature => SignatureRejected
           case Unrecoverable => SignatureRejected
           case Recovered(address) => Valid(address)
  }

  /** `verify_signature` with a retention of `ttl` seconds. */
  function Verify(cfg: Config, ttl: nat, store: Store, r: Request): (Store, Verdict) {
    var pre := Precheck(cfg, r);
    if !pre.Valid? then (store, pre)
    else
      var (store', claim) := Claim(store, cfg.digest(r.context.nonce), r.at, ttl * SECOND, r.fault);
      match claim
      case Claimed => (store', pre)
      case Taken => (store', NonceAlreadyUsed(pre.address))
      case Unavailable => (store', StoreUnavailable)
  }

  /** Is the nonce free in the store at `now`? */
  predicate Available(store: Store, d: Digest, now: int, ttl: nat) {
    match store
    case Memory(used, _) => Free(used, d, now, ttl)
    case Redis(expires) => d in expires ==> now >= expires[d]
  }

  /** Right chain, timestamp inside the window, and a signature that recovers. */
  ghost predicate WellSigned(cfg: Config, r: Request) {
    && r.context.chainId == cfg.chainId
    && r.context.timestamp.Some?
    && WallSeconds(cfg, r.at) - cfg.expiry <= r.context.timestamp.value <= WallSeconds(cfg, r.at) + cfg.skew
    && cfg.recover(r.context, r.signature).Recovered?
  }

  /**
   A request is accepted exactly when it is well signed, its nonce is available and the store
   answers; a nonce is only ever consumed by a well-signed request.
   */
  lemma VerifyDecides(cfg: Config, ttl: nat, store: Store, r: Request)
    requires r.context.timestamp.Some? ==> r.context.timestamp.value <= U64_MAX
    ensures var (store', v) := Verify(cfg, ttl, store, r);
            var free := Available(store, cfg.digest(r.context.nonce), r.at, ttl * SECOND);
            var answered := store.Redis? ==> r.fault.NoFault?;
            && (v.Valid? <==> WellSigned(cfg, r) && free && answered)
            && (v.NonceAlreadyUsed? <==> WellSigned(cfg, r) && !free && answered)
            && (v.StoreUnavailable? <==> WellSigned(cfg, r) && !answered)
            && (v.Valid? || v.NonceAlreadyUsed? ==> cfg.recover(r.context, r.signature) == Recovered(v.address))
            && (!WellSigned(cfg, r) ==> store' == store)
  {
  }

  /** ... and a request that is not well signed is told the first thing wrong with it. */
  lemma RejectionDecides(cfg: Config, ttl: nat, store: Store, r: Request)
    requires r.context.timestamp.Some? ==> r.context.timestamp.value <= U64_MAX
    ensures var v, now := Verify(cfg, ttl, store, r).1, WallSeconds(cfg, r.at);
            var rightChain := r.context.chainId == cfg.chainId;
            var timely := r.context.timestamp.Some? && now - cfg.expiry <= r.context.timestamp.value <= now + cfg.skew;
            var recovery := cfg.recover(r.context, r.signature);
            && (v.ChainIdMismatch? <==> !rightChain)
            && (v.TimestampRejected? <==> rightChain && !timely)
            && (v.TypedDataRejected? <==> rightChain && timely && recovery.TypedDataError?)
            && (v.SignatureRejected? <==> rightChain && timely && (recovery.MalformedSignature? || recovery.Unrecoverable?))
  {
    FreshIff(r.context.timestamp, cfg.expiry, cfg.skew, WallSeconds(cfg, r.at));
  }

  /** Has a hold that began `gap` ago run out?  Redis drops a key at its expiry, the map only after it. */
  predicate Elapsed(redis: bool, gap: int, ttl: nat) {
    if redis then gap >= ttl && gap >= SECOND else gap > ttl
  }

  /** A claim reaches the store and finds the digest free. */
  predicate Takes(store: Store, d: Digest, now: int, ttl: nat, fault: Fault) {
    Available(store, d, now, ttl) && (store.Redis? ==> !fault.NotApplied?)
  }

  /**
   What a claim does, as seen by every later one: a claim that takes its digest holds it for the
   retention, even if its reply is lost; a claim that is refused or not applied changes nothing, and
   none changes what is seen of another digest.
   */
  lemma ClaimEffect(store: Store, d: Digest, now: int, ttl: nat, fault: Fault, x: Digest, t: int)
    requires t >= now
    ensures var store' := Claim(store, d, now, ttl, fault).0;
            && store'.Redis? == store.Redis?
            && (Available(store', x, t, ttl) <==>
                if x == d && Takes(store, d, now, ttl, fault) then Elapsed(store.Redis?, t - now, ttl)
                else Available(store, x, t, ttl))
  {
  }

  /** The store after the first k requests. */
  function StoreAt(cfg: Config, ttl: nat, store: Store, rs: seq<Request>, k: nat): Store
    requires k <= |rs|
  {
    if k == 0 then store else Verify(cfg, ttl, StoreAt(cfg, ttl, store, rs, k - 1), rs[k - 1]).0
  }

  predicate Accepted(cfg: Config, ttl: nat, store: Store, rs: seq<Request>, i: nat)
    requires i < |rs|
  {
    Verify(cfg, ttl, StoreAt(cfg, ttl, store, rs, i), rs[i]).1.Valid?
  }

  ghost predicate InOrder(rs: seq<Request>) {
    forall i, j :: 0 <= i < j < |rs| ==> rs[i].at <= rs[j].at
  }

  /** Later requests do not change what the store was before them. */
  lemma {:induction false} StoreAtPrefix(cfg: Config, ttl: nat, store: Store, rs: seq<Request>, more: seq<Request>, k: nat)
    requires k <= |rs|
    ensures StoreAt(cfg, ttl, store, rs + more, k) == StoreAt(cfg, ttl, store, rs, k)
  {
    if k > 0 { StoreAtPrefix(cfg, ttl, store, rs, more, k - 1); }
  }

  // ---------------------------------------------------------------- replay safety

  /** A digest claimed at t1 is still held, or the retention has run out. */
  ghost predicate Held(store: Store, d: Digest, t1: int, now: int, ttl: nat) {
    match store
    case Memory(used, _) => (d in used && used[d] >= t1) || now - t1 > ttl
    case Redis(expires) => (d in expires && expires[d] >= t1 + ttl) || now - t1 >= ttl
  }

  lemma ClaimHolds(store: Store, d: Digest, d': Digest, t1: int, before: int, now: int, ttl: nat, fault: Fault)
    requires t1 <= before <= now && Held(store, d, t1, before, ttl)
    ensures Held(Claim(store, d', now, ttl, fault).0, d, t1, now, ttl)
    ensures Claim(store, d, now, ttl, fault).1 == Claimed ==> now - t1 >= ttl
  {
  }

  /** Request i takes its nonce, whether or not it learns of it. */
  predicate Consumes(cfg: Config, ttl: nat, store: Store, rs: seq<Request>, i: nat)
    requires i < |rs|
  {
    var r := rs[i];
    Precheck(cfg, r).Valid? &&
    Takes(StoreAt(cfg, ttl, store, rs, i), cfg.digest(r.context.nonce), r.at, ttl * SECOND, r.fault)
  }

  lemma AcceptedConsumes(cfg: Config, ttl: nat, store: Store, rs: seq<Request>, i: nat)
    requires i < |rs| && Accepted(cfg, ttl, store, rs, i)
    ensures Consumes(cfg, ttl, store, rs, i)
  {
  }

  lemma {:induction false} HeldUntil(cfg: Config, ttl: nat, store: Store, rs: seq<Request>, i: nat, j: nat)
    requires i < j < |rs| && InOrder(rs) && Consumes(cfg, ttl, store, rs, i)
    ensures Held(StoreAt(cfg, ttl, store, rs, j), cfg.digest(rs[i].context.nonce), rs[i].at, rs[j - 1].at, ttl * SECOND)
  {
    var d := cfg.digest(rs[i].context.nonce);
    var before := StoreAt(cfg, ttl, store, rs, j - 1);
    if j - 1 > i {
      HeldUntil(cfg, ttl, store, rs, i, j - 1);
      var r := rs[j - 1];
      ClaimHolds(before, d, cfg.digest(r.context.nonce), rs[i].at, rs[j - 2].at, r.at, ttl * SECOND, r.fault);
      assert Held(before, d, rs[i].at, rs[j - 1].at, ttl * SECOND);
    }
  }

  /**
   Once a request has taken its nonce, even if the reply was lost, the whole retention elapses
   before any request with that nonce is accepted, in either store.
   */
  lemma AcceptedGap(cfg: Config, ttl: nat, store: Store, rs: seq<Request>, i: nat, j: nat)
    requires i < j < |rs| && InOrder(rs) && rs[i].context.nonce == rs[j].context.nonce
    requires Consumes(cfg, ttl, store, rs, i) && Accepted(cfg, ttl, store, rs, j)
    ensures rs[j].at - rs[i].at >= ttl * SECOND
  {
    HeldUntil(cfg, ttl, store, rs, i, j);
    var d := cfg.digest(rs[i].context.nonce);
    ClaimHolds(StoreAt(cfg, ttl, store, rs, j), d, d, rs[i].at, rs[j - 1].at, rs[j].at, ttl * SECOND, rs[j].fault);
  }

  lemma WallAdvances(cfg: Config, t1: int, t2: int, ttl: nat)
    requires t2 - t1 >= ttl * SECOND && t1 + cfg.offset >= 0
    ensures WallSeconds(cfg, t2) >= WallSeconds(cfg, t1) + ttl
  {
  }

  /**
   Replay safety, for the memory store and for replicas sharing Redis, under any pattern of
   failures: two accepted requests with one nonce carry strictly increasing timestamps.
   */
  lemma ReplaySafety(cfg: Config, ttl: nat, store: Store, rs: seq<Request>, i: nat, j: nat)
    requires ttl > cfg.expiry + cfg.skew
    requires i < j < |rs| && InOrder(rs) && rs[i].at + cfg.offset >= 0
    requires rs[i].context.nonce == rs[j].context.nonce
    requires Accepted(cfg, ttl, store, rs, i) && Accepted(cfg, ttl, store, rs, j)
    ensures rs[i].context.timestamp.Some? && rs[j].context.timestamp.Some?
    ensures rs[i].context.timestamp.value < rs[j].context.timestamp.value
  {
    AcceptedConsumes(cfg, ttl, store, rs, i);
    AcceptedGap(cfg, ttl, store, rs, i, j);
    WallAdvances(cfg, rs[i].at, rs[j].at, ttl);
  }

  // ---------------------------------------------------------------- the retention is tight

  /** No run from an empty store accepts one signed context twice. */
  ghost predicate NeverTwice(cfg: Config, ttl: nat, store: Store) {
    forall rs: seq<Request>, i: nat, j: nat ::
      i < j < |rs| && InOrder(rs) && (forall r :: r in rs ==> r.at + cfg.offset >= 0) &&
      Accepted(cfg, ttl, store, rs, i) && Accepted(cfg, ttl, store, rs, j) ==>
        rs[i].context != rs[j].context
  }

  function FreshStore(cfg: Config, redis: bool): Store { if redis then Redis(map[]) else Memory(map[], -cfg.offset) }

  function Stamped(c: Context, ts: nat): Context { c.(timestamp := Some(ts)) }

  /** One payment on the verifier's chain that somebody can sign for every 64-bit timestamp. */
  ghost predicate Signable(cfg: Config, base: Context, sign: Context -> Text) {
    base.chainId == cfg.chainId &&
    forall ts: nat :: ts <= U64_MAX ==> cfg.recover(Stamped(base, ts), sign(Stamped(base, ts))).Recovered?
  }

  /** One context, presented at second 0 and again just after the retention has passed. */
  lemma AcceptedTwice(cfg: Config, ttl: nat, redis: bool, base: Context, sign: Context -> Text)
    requires ttl <= cfg.expiry + cfg.skew && Signable(cfg, base, sign)
    requires cfg.skew <= U64_MAX && ttl <= U64_MAX && (redis ==> ttl >= 1)
    ensures !NeverTwice(cfg, ttl, FreshStore(cfg, redis))
  {
    var ts := if cfg.skew <= ttl then cfg.skew else ttl;
    var c := Stamped(base, ts);
    var r0 := Request(c, sign(c), -cfg.offset, NoFault);
    var r1 := Request(c, sign(c), ttl * SECOND + 1 - cfg.offset, NoFault);
    var rs := [r0, r1];
    var store := FreshStore(cfg, redis);
    var d := cfg.digest(c.nonce);
    assert WallSeconds(cfg, r1.at) == ttl;
    assert Precheck(cfg, r0).Valid? && Precheck(cfg, r1).Valid?;
    var one := StoreAt(cfg, ttl, store, rs, 1);
    assert StoreAt(cfg, ttl, store, rs, 0) == store;
    assert one == Verify(cfg, ttl, store, r0).0;
    if redis {
      assert one == Redis(map[d := r0.at + ttl * SECOND]);
    } else {
      assert one.used == map[d := r0.at];
    }
    assert Claim(one, d, r1.at, ttl * SECOND, NoFault).1 == Claimed;
    assert Accepted(cfg, ttl, store, rs, 0) && Accepted(cfg, ttl, store, rs, 1);
    assert rs[0].context == rs[1].context;
  }

  /** A retention is safe exactly when it exceeds expiry + skew, so one second less is too short. */
  lemma RetentionIsTight(cfg: Config, ttl: nat, redis: bool, base: Context, sign: Context -> Text)
    requires Signable(cfg, base, sign)
    requires cfg.skew <= U64_MAX && ttl <= U64_MAX && (redis ==> ttl >= 1)
    ensures NeverTwice(cfg, ttl, FreshStore(cfg, redis)) <==> ttl > cfg.expiry + cfg.skew
  {
    var store := FreshStore(cfg, redis);
    if ttl > cfg.expiry + cfg.skew {
      forall rs: seq<Request>, i: nat, j: nat |
        i < j < |rs| && InOrder(rs) && (forall r :: r in rs ==> r.at + cfg.offset >= 0) &&
        Accepted(cfg, ttl, store, rs, i) && Accepted(cfg, ttl, store, rs, j)
        ensures rs[i].context != rs[j].context
      {
        if rs[i].context == rs[j].context {
          assert rs[i] in rs;
          ReplaySafety(cfg, ttl, store, rs, i, j);
        }
      }
    } else {
      AcceptedTwice(cfg, ttl, redis, base, sign);
    }
  }

  /** The retention in the source is safe exactly when its saturating sum does not saturate. */
  lemma SourceRetentionSafeIff(cfg: Config, redis: bool, base: Context, sign: Context -> Text)
    requires Signable(cfg, base, sign)
    requires cfg.expiry <= U64_MAX && cfg.skew <= U64_MAX
    ensures NeverTwice(cfg, RetentionSeconds(cfg), FreshStore(cfg, redis)) <==> cfg.expiry + cfg.skew < U64_MAX
  {
    RetentionIsTight(cfg, RetentionSeconds(cfg), redis, base, sign);
  }

  // ---------------------------------------------------------------- exactly when a request is accepted

  /** When the last hold on a digest began, among the first k requests: one register per digest. */
  ghost function HoldBegan(cfg: Config, ttl: nat, redis: bool, rs: seq<Request>, d: Digest, k: nat): Option<int>
    requires k <= |rs|
  {
    if k == 0 then None
    else
      var before, r := HoldBegan(cfg, ttl, redis, rs, d, k - 1), rs[k - 1];
      var reaches := WellSigned(cfg, r) && (redis ==> !r.fault.NotApplied?);
      if reaches && cfg.digest(r.context.nonce) == d && RunOut(before, redis, r.at, ttl) then Some(r.at) else before
  }

  predicate RunOut(began: Option<int>, redis: bool, now: int, ttl: nat) {
    began.None? || Elapsed(redis, now - began.value, ttl * SECOND)
  }

  ghost predicate Stamps64(rs: seq<Request>) {
    forall r :: r in rs && r.context.timestamp.Some? ==> r.context.timestamp.value <= U64_MAX
  }

  lemma {:induction false} StoreIsRegister(cfg: Config, ttl: nat, redis: bool, rs: seq<Request>, d: Digest, k: nat, t: int)
    requires k <= |rs| && InOrder(rs) && Stamps64(rs) && (k > 0 ==> t >= rs[k - 1].at)
    ensures var store := StoreAt(cfg, ttl, FreshStore(cfg, redis), rs, k);
            store.Redis? == redis &&
            (Available(store, d, t, ttl * SECOND) <==> RunOut(HoldBegan(cfg, ttl, redis, rs, d, k), redis, t, ttl))
    decreases k
  {
    if k > 0 {
      var r := rs[k - 1];
      assert r in rs;
      var before := StoreAt(cfg, ttl, FreshStore(cfg, redis), rs, k - 1);
      var mine := cfg.digest(r.context.nonce);
      StoreIsRegister(cfg, ttl, redis, rs, d, k - 1, t);
      StoreIsRegister(cfg, ttl, redis, rs, mine, k - 1, r.at);
      VerifyDecides(cfg, ttl, before, r);
      ClaimEffect(before, mine, r.at, ttl * SECOND, r.fault, d, t);
    }
  }

  /**
   From the start of the service, with either store, any faults and any sweeps, a request is
   accepted exactly when it is well signed, the store answers, and the last hold on its nonce has
   run out.  Holds begin only with requests that take the nonce: a refused one does not extend
   them, one whose SET was not applied leaves none, one whose reply was lost does.
   */
  lemma AcceptedIff(cfg: Config, ttl: nat, redis: bool, rs: seq<Request>, j: nat)
    requires j < |rs| && InOrder(rs) && Stamps64(rs)
    ensures Accepted(cfg, ttl, FreshStore(cfg, redis), rs, j) <==>
            && WellSigned(cfg, rs[j]) && (redis ==> rs[j].fault.NoFault?)
            && RunOut(HoldBegan(cfg, ttl, redis, rs, cfg.digest(rs[j].context.nonce), j), redis, rs[j].at, ttl)
  {
    assert rs[j] in rs;
    StoreIsRegister(cfg, ttl, redis, rs, cfg.digest(rs[j].context.nonce), j, rs[j].at);
    VerifyDecides(cfg, ttl, StoreAt(cfg, ttl, FreshStore(cfg, redis), rs, j), rs[j]);
  }

  // ---------------------------------------------------------------- lazy sweeping

  datatype MemoryClaim = MemoryClaim(d: Digest, now: int)

  ghost predicate ClaimsInOrder(clock: int, cs: seq<MemoryClaim>)
    decreases |cs|
  {
    cs == [] || (cs[0].now >= clock && ClaimsInOrder(cs[0].now, cs[1..]))
  }

  function SweptAnswers(used: map<Digest, int>, lastSweep: int, cs: seq<MemoryClaim>, ttl: nat): seq<bool>
    decreases |cs|
  {
    if cs == [] then []
    else
      var (store, ok) := ClaimMemory(used, lastSweep, cs[0].d, cs[0].now, ttl);
      [ok] + SweptAnswers(store.used, store.lastSweep, cs[1..], ttl)
  }

  /** The reference: a map of every claim ever granted, from which nothing is removed. */
  function EverAnswers(all: map<Digest, int>, cs: seq<MemoryClaim>, ttl: nat): seq<bool>
    decreases |cs|
  {
    if cs == [] then []
    else
      var ok := Free(all, cs[0].d, cs[0].now, ttl);
      [ok] + EverAnswers(if ok then all[cs[0].d := cs[0].now] else all, cs[1..], ttl)
  }

  /** The swept map is the full one, less entries that have expired by `clock`. */
  ghost predicate SweptFrom(used: map<Digest, int>, all: map<Digest, int>, clock: int, ttl: nat) {
    && (forall d :: d in used ==> d in all && all[d] == used[d])
    && (forall d :: d in all && d !in used ==> clock - all[d] > ttl)
  }

  /** Lazy sweeping never changes the answer to a claim. */
  lemma {:induction false} LazySweepUnobservable(used: map<Digest, int>, lastSweep: int, all: map<Digest, int>,
                                                 clock: int, cs: seq<MemoryClaim>, ttl: nat)
    requires ClaimsInOrder(clock, cs) && SweptFrom(used, all, clock, ttl)
    ensures SweptAnswers(used, lastSweep, cs, ttl) == EverAnswers(all, cs, ttl)
    decreases |cs|
  {
    if cs != [] {
      var d, now := cs[0].d, cs[0].now;
      var (store, ok) := ClaimMemory(used, lastSweep, d, now, ttl);
      assert ok == Free(all, d, now, ttl);
      LazySweepUnobservable(store.used, store.lastSweep, if ok then all[d := now] else all, now, cs[1..], ttl);
    }
  }

  /** At the last sweep nothing was past its retention, and sweeps are less than a minute apart. */
  ghost predicate RecentlySwept(used: map<Digest, int>, lastSweep: int, ttl: nat) {
    forall d :: d in used ==> lastSweep - used[d] <= ttl
  }

  /** After every claim, no stored entry is as old as ttl + 60 s. */
  lemma ClaimBoundsAge(used: map<Digest, int>, lastSweep: int, d: Digest, now: int, ttl: nat)
    requires RecentlySwept(used, lastSweep, ttl) && lastSweep <= now
    ensures var store := ClaimMemory(used, lastSweep, d, now, ttl).0;
            && RecentlySwept(store.used, store.lastSweep, ttl) && store.lastSweep <= now
            && forall x :: x in store.used ==> now - store.used[x] < ttl + SWEEP_INTERVAL
  {
  }

  /** Over every run from an empty store: the age bound holds once the run is over. */
  lemma {:induction false} RunBoundsAge(used: map<Digest, int>, lastSweep: int, clock: int, cs: seq<MemoryClaim>, ttl: nat)
    requires RecentlySwept(used, lastSweep, ttl) && lastSweep <= clock && ClaimsInOrder(clock, cs) && cs != []
    ensures forall x :: x in FinalUsed(used, lastSweep, cs, ttl) ==>
              cs[|cs| - 1].now - FinalUsed(used, lastSweep, cs, ttl)[x] < ttl + SWEEP_INTERVAL
    decreases |cs|
  {
    ClaimBoundsAge(used, lastSweep, cs[0].d, cs[0].now, ttl);
    if |cs| > 1 {
      var store := ClaimMemory(used, lastSweep, cs[0].d, cs[0].now, ttl).0;
      RunBoundsAge(store.used, store.lastSweep, cs[0].now, cs[1..], ttl);
    }
  }

  function FinalUsed(used: map<Digest, int>, lastSweep: int, cs: seq<MemoryClaim>, ttl: nat): map<Digest, int>
    decreases |cs|
  {
    if cs == [] then used
    else
      var store := ClaimMemory(used, lastSweep, cs[0].d, cs[0].now, ttl).0;
      FinalUsed(store.used, store.lastSweep, cs[1..], ttl)
  }

  // ---------------------------------------------------------------- concurrent claims

  /** The sweep and the entry operation of concurrent claims, each under its own lock. */
  datatype MemoryStep = SweepStep(now: int) | EntryStep(d: Digest, now: int)

  function StepUsed(used: map<Digest, int>, s: MemoryStep, ttl: nat): map<Digest, int> {
    match s
    case SweepStep(now) => Retain(used, now, ttl)
    case EntryStep(d, now) => if Free(used, d, now, ttl) then used[d := now] else used
  }

  function Successes(used: map<Digest, int>, steps: seq<MemoryStep>, d: Digest, ttl: nat): nat
    decreases |steps|
  {
    if steps == [] then 0
    else
      (if steps[0].EntryStep? && steps[0].d == d && Free(used, d, steps[0].now, ttl) then 1 else 0)
      + Successes(StepUsed(used, steps[0], ttl), steps[1..], d, ttl)
  }

  /**
   With all clock readings inside one ttl-long interval, in any order, and no live entry at its
   start, any number of claims of one nonce interleaved with sweeps and other claims succeeds
   exactly once.
   */
  lemma {:induction false} ExactlyOneClaimSucceeds(used: map<Digest, int>, steps: seq<MemoryStep>, d: Digest,
                                                   start: int, ttl: nat)
    requires forall s :: s in steps ==> start <= s.now <= start + ttl
    requires d in used ==> start - used[d] > ttl || used[d] >= start
    ensures Successes(used, steps, d, ttl) ==
            if (d in used && used[d] >= start) || (forall s :: s in steps ==> s.SweepStep? || s.d != d) then 0 else 1
    decreases |steps|
  {
    if steps != [] {
      var s := steps[0];
      assert s in steps;
      assert forall x :: x in steps ==> x == s || x in steps[1..];
      assert forall x :: x in steps[1..] ==> x in steps;
      ExactlyOneClaimSucceeds(StepUsed(used, s, ttl), steps[1..], d, start, ttl);
    }
  }

  // ---------------------------------------------------------------- the store object

  class MemoryNonceStore {
    var usedNonces: map<Digest, int>
    var lastNonceSweep: int

    constructor (now: int)
      ensures usedNonces == map[] && lastNonceSweep == now
    {
      usedNonces := map[];
      lastNonceSweep := now;
    }

    method MaybeEvictExpired(now: int, ttl: nat)
      modifies this
      ensures (usedNonces, lastNonceSweep) == MaybeEvict(old(usedNonces), old(lastNonceSweep), now, ttl)
      ensures now - old(lastNonceSweep) < 60 * SECOND ==>
                usedNonces == old(usedNonces) && lastNonceSweep == old(lastNonceSweep)
      ensures now - old(lastNonceSweep) >= 60 * SECOND ==> forall d :: d in usedNonces ==> now - usedNonces[d] <= ttl
      ensures forall d :: d in old(usedNonces) && now - old(usedNonces)[d] <= ttl ==> d in usedNonces
    {
      if now - lastNonceSweep < SWEEP_INTERVAL {
        return;
      }
      lastNonceSweep := now;
      usedNonces := map d | d in usedNonces && now - usedNonces[d] <= ttl :: usedNonces[d];
    }

    /** Grants the digest exactly when no live entry holds it, and keeps the age bound. */
    method ClaimNonce(d: Digest, now: int, ttl: nat) returns (ok: bool)
      modifies this
      ensures ok <==> Free(old(usedNonces), d, now, ttl)
      ensures d in usedNonces && (ok ==> usedNonces[d] == now) && (!ok ==> usedNonces[d] == old(usedNonces)[d])
      ensures (Memory(usedNonces, lastNonceSweep), ok) == ClaimMemory(old(usedNonces), old(lastNonceSweep), d, now, ttl)
      ensures old(lastNonceSweep <= now && RecentlySwept(usedNonces, lastNonceSweep, ttl)) ==>
                && lastNonceSweep <= now && RecentlySwept(usedNonces, lastNonceSweep, ttl)
                && forall x :: x in usedNonces ==> now - usedNonces[x] < ttl + SWEEP_INTERVAL
    {
      if lastNonceSweep <= now && RecentlySwept(usedNonces, lastNonceSweep, ttl) {
        ClaimBoundsAge(usedNonces, lastNonceSweep, d, now, ttl);
      }
      MaybeEvictExpired(now, ttl);
      if d in usedNonces {
        ok := now - usedNonces[d] > ttl;
      } else {
        ok := true;
      }
      if ok {
        usedNonces := usedNonces[d := now];
      }
    }
  }
}
