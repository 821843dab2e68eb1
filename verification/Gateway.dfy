/**
 The paid endpoint as one step system: the handler of gateway/main.go, the cache middleware of
 gateway/cache.go, the timeout layer in front of them, the AI provider, the receipt store, and
 the verifier of module ReplayGuard, whose replies can be lost.  Any number of requests run
 interleaved; other callers may use the same verifier.

 This module has the model and the results about payment, which assume nothing of any hash.
 GatewayCache and GatewayReceipts add those about what a response carries.
 */
module Gateway {
  import opened Wrappers
  import opened Json
  import R = Receipts
  import RG = ReplayGuard
  import RS = ReceiptStore

  const USDC := R.Lit("USDC")

  datatype Body = TooLarge | BadJson(raw: Text) | Decoded(raw: Text, text: Text)

  /** The headers and body of a request to the one paid route; a timestamp that does not parse is None. */
  datatype HttpRequest = HttpRequest(signature: Text, nonce: Text, timestamp: Option<nat>, body: Body)

  datatype Config = Config(
    recipient: Text, amount: Text, chainId: nat, model: Text, caching: bool, hash: Text -> Text,
    verifier: RG.Config, ttl: nat, initial: RG.Store,          // the verifier, its retention and its store
    crypto: R.Crypto<Text, Text>, sign: Text -> Text, publicKey: Text, receiptTtl: int)

  // ---------------------------------------------------------------- the cache key

  const COLON: Unit := 0x3A
  const VERSION := R.Lit("v1") + [COLON]
  const KEY_PREFIX := R.Lit("ai:summary:")

  function KeyText(text: Text, model: Text): Text { VERSION + text + [COLON] + model }

  /** `getCacheKey`. */
  function CacheKey(hash: Text -> Text, text: Text, model: Text): Text { KEY_PREFIX + hash(KeyText(text, model)) }

  // ---------------------------------------------------------------- state

  /** How far the handler of one request has come; `hit` is the cached result it is to serve. */
  datatype Phase =
    | Arrived
    | Verifying(hit: Option<Text>)
    | Paid(hit: Option<Text>, payer: Text)
    | Generated(result: Text, payer: Text)
    | Done(status: int, body: Text, issue: Option<nat>)

  /**
   `sent` once the handler has called the verifier; `slot` is the position of that call in the
   verifier's log, once it is served; `answered` once the client has a response.
   */
  datatype Job = Job(req: HttpRequest, phase: Phase, sent: bool, slot: Option<nat>, answered: bool)

  /** `issue` is the position of the receipt the response carries. */
  datatype Response = Response(job: nat, status: int, body: Text, issue: Option<nat>)

  datatype AiCall = AiCall(job: nat, text: Text, result: Option<Text>)

  /** What `GenerateReceipt` takes from the random source and the clock. */
  datatype Stamp = Stamp(random: seq<R.Byte>, now: Text)

  /** A receipt signed and stored for a job, with what it was made from. */
  datatype Issue = Issue(job: nat, payer: Text, stamp: Stamp, result: Text, receipt: R.SignedReceipt, expiresAt: int)

  /** What the verifier has been asked, by whom, and how it ruled; every provider call; every receipt. */
  datatype Log = Log(requests: seq<RG.Request>, verdicts: seq<RG.Verdict>, callers: seq<Option<nat>>,
                     ai: seq<AiCall>, issued: seq<Issue>)

  datatype State = State(jobs: map<nat, Job>, log: Log, store: RG.Store, clock: int, receipts: RS.State,
                         cache: map<Text, Text>, writes: set<(Text, Text)>, responses: seq<Response>)

  function Init(cfg: Config, clock: int): State {
    State(map[], Log([], [], [], [], []), cfg.initial, clock, RS.Init(clock), map[], {}, [])
  }

  datatype Event =
    | Arrive(id: nat, req: HttpRequest)
    | Begin(id: nat, cacheReadable: bool)               // middleware and handler up to the verifier call
    | Verifier(id: nat, at: int, fault: RG.Fault)       // the verifier serves the call, perhaps too late
    | OtherCaller(request: RG.Request)
    | Reply(id: nat)                                    // its reply arrives
    | GiveUp(id: nat, deadline: bool)                   // ... or is lost, or the deadline passes
    | Generate(id: nat, result: Option<Text>, deadline: bool)  // deadline: how the provider failed, if it did
    | Finish(id: nat, stamp: Stamp, at: int, ok: bool)  // generateAndSendReceipt; ok unless an effect fails
    | Deliver(id: nat)                                  // the timeout layer forwards the response
    | Timeout(id: nat)                                  // ... or answers 504 in its place
    | WriteLands(write: (Text, Text))
    | WriteLost(write: (Text, Text))
    | CacheExpires(key: Text)
    | StoreEvent(event: RS.Event)                       // lookups and cleanups of the receipt store

  // ---------------------------------------------------------------- what the handler decides

  /** The payment as the verifier reads it, which is sent to it as JSON. */
  function Context(cfg: Config, req: HttpRequest): RG.Context {
    RG.Context(Seen(Marshal, cfg.recipient), USDC, Seen(Marshal, cfg.amount), Seen(Marshal, req.nonce),
               cfg.chainId, req.timestamp)
  }

  function VerifyCall(cfg: Config, req: HttpRequest, at: int, fault: RG.Fault): RG.Request {
    RG.Request(Context(cfg, req), Seen(Marshal, req.signature), at, fault)
  }

  predicate BadTimestamp(req: HttpRequest) { req.timestamp.None? || req.timestamp.value == 0 }

  function Failed(status: int): Phase { Done(status, [], None) }

  /** Everything before the call to the verifier. */
  function Opening(cfg: Config, cache: map<Text, Text>, readable: bool, req: HttpRequest): Phase {
    if req.signature == [] || req.nonce == [] then Failed(402)
    else if cfg.caching then
      match req.body
      case TooLarge => Failed(413)
      case BadJson(_) => Failed(400)
      case Decoded(_, text) =>
        if text == [] || BadTimestamp(req) then Failed(400)
        else
          var key := CacheKey(cfg.hash, text, cfg.model);
          Verifying(if readable && key in cache then Some(cache[key]) else None)
    else if BadTimestamp(req) then Failed(400)
    else if req.body.TooLarge? then Failed(413)
    else Verifying(None)
  }

  /** The gateway's reading of the verifier's reply. */
  function AfterVerdict(hit: Option<Text>, v: RG.Verdict): Phase {
    match v
    case Valid(address) => if address == [] then Failed(502) else Paid(hit, address)
    case ChainIdMismatch => Failed(400)
    case TimestampRejected(_) => Failed(400)
    case TypedDataRejected => Failed(502)
    case SignatureRejected => Failed(403)
    case NonceAlreadyUsed(_) => Failed(409)
    case StoreUnavailable => Failed(502)
  }

  predicate HasText(req: HttpRequest) { req.body.Decoded? && req.body.text != [] }

  function ResultOf(p: Phase): Option<Text> {
    match p case Paid(hit, _) => hit case Generated(result, _) => Some(result) case _ => None
  }

  function Raw(body: Body): Text { if body.TooLarge? then [] else body.raw }

  function PaymentOf(cfg: Config, req: HttpRequest): R.PaymentContext {
    R.PaymentContext(cfg.recipient, USDC, cfg.amount, req.nonce, cfg.chainId)
  }

  /** The response body: `json.Marshal` of the one-entry map. */
  function ResponseBody(result: Text): Text {
    Render(Marshal, [R.Lit("{\"result\":"), R.Lit("}")], [Str(result)])
  }

  /** It has one member, named result, from which the result is read back if it is valid UTF-8. */
  lemma ResponseCarriesResult(result: Text)
    ensures ResponseBody(result) == R.Named("{", "result") + Quoted(Marshal, result) + R.Lit("}")
    ensures WellFormed(result) ==> ParseItem(true, ResponseBody(result)[10..]) == Some((Str(result), R.Lit("}")))
  {
    var head, tail := R.Lit("{\"result\":"), R.Lit("}");
    assert head == R.Named("{", "result") && |head| == 10;
    var keys: seq<Text> := [head, tail];
    assert keys[1..] == [tail] && Render(Marshal, [tail], [Str(result)][1..]) == tail;
    assert Render(Marshal, keys, [Str(result)]) == head + (Quoted(Marshal, result) + tail);
    assert ResponseBody(result)[10..] == Quoted(Marshal, result) + tail;
    QuotedRoundTrip(Marshal, result, tail);
    if WellFormed(result) { SeenSame(Marshal, result); }
  }

  /** `GenerateReceipt` followed by `signReceipt`. */
  function MakeReceipt(cfg: Config, req: HttpRequest, payer: Text, stamp: Stamp, result: Text): R.SignedReceipt {
    var r := R.GenerateReceipt(cfg.crypto, stamp.random, stamp.now, PaymentOf(cfg, req), payer, R.ROUTE,
                               Raw(req.body), ResponseBody(result));
    R.SignedReceipt(r, cfg.sign(cfg.crypto.keccak(R.Serialize(Marshal, r))), cfg.publicKey)
  }

  // ---------------------------------------------------------------- steps

  /** Six random bytes, and a clock that is never the zero time. */
  predicate StampOk(stamp: Stamp) { |stamp.random| == 6 && stamp.now != [] && stamp.now != R.ZERO_TIME }

  predicate Enabled(cfg: Config, s: State, e: Event) {
    match e
    case Arrive(id, req) => id !in s.jobs
    case Begin(id, _) => id in s.jobs && s.jobs[id].phase.Arrived?
    case Verifier(id, at, _) =>
      id in s.jobs && s.jobs[id].sent && s.jobs[id].slot.None? && at >= s.clock && at + cfg.verifier.offset >= 0
    case OtherCaller(r) => r.at >= s.clock && r.at + cfg.verifier.offset >= 0
    case Reply(id) =>
      id in s.jobs && s.jobs[id].phase.Verifying? && s.jobs[id].slot.Some? &&
      s.jobs[id].slot.value < |s.log.verdicts|
    case GiveUp(id, _) => id in s.jobs && s.jobs[id].phase.Verifying?
    case Generate(id, result, _) =>
      id in s.jobs && s.jobs[id].phase.Paid? && s.jobs[id].phase.hit.None? &&
      (result.Some? ==> WellFormed(result.value))  // results are themselves decoded from JSON
    case Finish(id, stamp, at, _) =>
      id in s.jobs && ResultOf(s.jobs[id].phase).Some? && StampOk(stamp) && at >= s.receipts.clock
    case Deliver(id) => id in s.jobs && s.jobs[id].phase.Done? && !s.jobs[id].answered
    case Timeout(id) => id in s.jobs && !s.jobs[id].answered
    case WriteLands(w) => w in s.writes
    case WriteLost(w) => w in s.writes
    case CacheExpires(_) => true
    case StoreEvent(event) => !event.Store?
  }

  function SetPhase(s: State, id: nat, p: Phase): State
    requires id in s.jobs
  {
    s.(jobs := s.jobs[id := s.jobs[id].(phase := p)])
  }

  function VerifierServes(cfg: Config, s: State, r: RG.Request, caller: Option<nat>): State {
    var (store, verdict) := RG.Verify(cfg.verifier, cfg.ttl, s.store, r);
    var log := s.log.(requests := s.log.requests + [r], verdicts := s.log.verdicts + [verdict],
                      callers := s.log.callers + [caller]);
    s.(store := store, log := log, clock := r.at)
  }

  /** The receipt a job gets when it completes. */
  function IssueFor(cfg: Config, id: nat, job: Job, stamp: Stamp, at: int): Issue
    requires ResultOf(job.phase).Some?
  {
    var result := ResultOf(job.phase).value;
    Issue(id, job.phase.payer, stamp, result, MakeReceipt(cfg, job.req, job.phase.payer, stamp, result), at + cfg.receiptTtl)
  }

  /** Whether `storeReceipt` takes the receipt. */
  predicate Storable(cfg: Config, issue: Issue) { R.ValidateReceipt(Some(issue.receipt)).None? && cfg.receiptTtl > 0 }

  function StoreOf(cfg: Config, issue: Issue, at: int): RS.Event {
    RS.Store(issue.receipt.receipt.id, issue.receipt, cfg.receiptTtl, at)
  }

  /** Stores the receipt and completes the handler with 200, or fails with 500. */
  function IssueAndFinish(cfg: Config, s: State, id: nat, stamp: Stamp, at: int, ok: bool): State
    requires id in s.jobs && ResultOf(s.jobs[id].phase).Some?
  {
    var job := s.jobs[id];
    var issue := IssueFor(cfg, id, job, stamp, at);
    if !ok || !Storable(cfg, issue) then SetPhase(s, id, Failed(500))
    else
      // A miss is cached asynchronously, unless the timeout layer has closed the buffer.  What is
      // cached is what decoding the captured response gives.
      var cached := job.phase.Generated? && cfg.caching && !job.answered && job.req.body.Decoded?;
      SetPhase(s, id, Done(200, issue.result, Some(|s.log.issued|))).(
        log := s.log.(issued := s.log.issued + [issue]),
        receipts := RS.Next(s.receipts, StoreOf(cfg, issue, at)),
        writes := if cached
                  then s.writes + {(CacheKey(cfg.hash, job.req.body.text, cfg.model), Seen(Marshal, issue.result))}
                  else s.writes)
  }

  function Answer(s: State, id: nat, r: Response): State
    requires id in s.jobs
  {
    s.(responses := s.responses + [r], jobs := s.jobs[id := s.jobs[id].(answered := true)])
  }

  /** An event that is not enabled does nothing. */
  function Next(cfg: Config, s: State, e: Event): State {
    if !Enabled(cfg, s, e) then s
    else match e
         case Arrive(id, req) => s.(jobs := s.jobs[id := Job(req, Arrived, false, None, false)])
         case Begin(id, readable) =>
           var p := Opening(cfg, s.cache, readable, s.jobs[id].req);
           s.(jobs := s.jobs[id := s.jobs[id].(phase := p, sent := p.Verifying?)])
         case Verifier(id, at, fault) =>
           var served := VerifierServes(cfg, s, VerifyCall(cfg, s.jobs[id].req, at, fault), Some(id));
           served.(jobs := s.jobs[id := s.jobs[id].(slot := Some(|s.log.requests|))])
         case OtherCaller(r) => VerifierServes(cfg, s, r, None)
         case Reply(id) => SetPhase(s, id, AfterVerdict(s.jobs[id].phase.hit, s.log.verdicts[s.jobs[id].slot.value]))
         case GiveUp(id, deadline) => SetPhase(s, id, Failed(if deadline then 504 else 502))
         case Generate(id, result, deadline) =>
           var job := s.jobs[id];
           if !HasText(job.req) then SetPhase(s, id, Failed(400))
           else
             var p := if result.Some? then Generated(result.value, job.phase.payer)
                      else Failed(if deadline then 504 else 502);
             SetPhase(s, id, p).(log := s.log.(ai := s.log.ai + [AiCall(id, job.req.body.text, result)]))
         case Finish(id, stamp, at, ok) => IssueAndFinish(cfg, s, id, stamp, at, ok)
         case Deliver(id) =>
           var p := s.jobs[id].phase;
           Answer(s, id, Response(id, p.status, p.body, p.issue))
         case Timeout(id) => Answer(s, id, Response(id, 504, [], None))
         case WriteLands(w) => s.(cache := s.cache[w.0 := w.1], writes := s.writes - {w})
         case WriteLost(w) => s.(writes := s.writes - {w})
         case CacheExpires(key) => s.(cache := s.cache - {key})
         case StoreEvent(event) => s.(receipts := RS.Next(s.receipts, event))
  }

  function Run(cfg: Config, s: State, es: seq<Event>): State {
    if es == [] then s else Next(cfg, Run(cfg, s, es[..|es| - 1]), es[|es| - 1])
  }

  // ---------------------------------------------------------------- what every step keeps about the past

  /** Logs only grow. */
  ghost predicate LogExtends(log: Log, log': Log) {
    && log.requests <= log'.requests && log.verdicts <= log'.verdicts && log.callers <= log'.callers
    && log.ai <= log'.ai && log.issued <= log'.issued
    && |log'.requests| - |log.requests| == |log'.verdicts| - |log.verdicts| == |log'.callers| - |log.callers|
  }

  /** A request keeps its identity, its slot once it has one, and the fact that it was answered. */
  ghost predicate JobExtends(job: Job, job': Job) {
    job'.req == job.req && (job.slot.Some? ==> job'.slot == job.slot) && (job.answered ==> job'.answered)
  }

  ghost predicate Extends(s: State, s': State) {
    LogExtends(s.log, s'.log) && forall id :: id in s.jobs ==> id in s'.jobs && JobExtends(s.jobs[id], s'.jobs[id])
  }

  /** Completing a job touches that job, its receipt and the pending cache writes. */
  lemma FinishFrame(cfg: Config, s: State, id: nat, stamp: Stamp, at: int, ok: bool)
    requires id in s.jobs && ResultOf(s.jobs[id].phase).Some?
    ensures var s' := IssueAndFinish(cfg, s, id, stamp, at, ok);
            var p := if s'.log == s.log then Failed(500)
                     else Done(200, ResultOf(s.jobs[id].phase).value, Some(|s.log.issued|));
            && s'.jobs == s.jobs[id := s.jobs[id].(phase := p)] && s'.responses == s.responses
            && s'.log == s.log.(issued := s'.log.issued) && s.log.issued <= s'.log.issued
            && s'.store == s.store && s'.clock == s.clock && s'.cache == s.cache
  {
  }

  lemma NextLogExtends(cfg: Config, s: State, e: Event)
    ensures LogExtends(s.log, Next(cfg, s, e).log)
  {
    if Enabled(cfg, s, e) && e.Finish? {
      FinishFrame(cfg, s, e.id, e.stamp, e.at, e.ok);
    } else if e.Verifier? || e.OtherCaller? {
    } else {
    }
  }

  lemma NextJobExtends(cfg: Config, s: State, e: Event, id: nat)
    requires id in s.jobs
    ensures id in Next(cfg, s, e).jobs && JobExtends(s.jobs[id], Next(cfg, s, e).jobs[id])
  {
    if Enabled(cfg, s, e) && e.Finish? {
      FinishFrame(cfg, s, e.id, e.stamp, e.at, e.ok);
    } else {
    }
  }

  lemma NextExtends(cfg: Config, s: State, e: Event)
    ensures Extends(s, Next(cfg, s, e))
  {
    NextLogExtends(cfg, s, e);
    forall id | id in s.jobs ensures id in Next(cfg, s, e).jobs && JobExtends(s.jobs[id], Next(cfg, s, e).jobs[id]) {
      NextJobExtends(cfg, s, e, id);
    }
  }

  /** The job an event is about. */
  function Subject(e: Event): Option<nat> {
    match e
    case OtherCaller(_) => None
    case WriteLands(_) => None
    case WriteLost(_) => None
    case CacheExpires(_) => None
    case StoreEvent(_) => None
    case _ => Some(e.id)
  }

  /** A step leaves every other job as it is. */
  lemma OthersUntouched(cfg: Config, s: State, e: Event, id: nat)
    requires id in Next(cfg, s, e).jobs && Subject(e) != Some(id)
    ensures id in s.jobs && Next(cfg, s, e).jobs[id] == s.jobs[id]
  {
    if Enabled(cfg, s, e) && e.Finish? {
      FinishFrame(cfg, s, e.id, e.stamp, e.at, e.ok);
    } else {
    }
  }

  /** A step adds at most one response, for its own job, which had none and is done or times out. */
  lemma NewResponse(cfg: Config, s: State, e: Event)
    ensures var s' := Next(cfg, s, e);
            s'.responses == s.responses ||
            (Enabled(cfg, s, e) && (e.Deliver? || e.Timeout?) && e.id in s.jobs && !s.jobs[e.id].answered &&
             s'.jobs == s.jobs[e.id := s.jobs[e.id].(answered := true)] && s'.log == s.log &&
             s'.responses == s.responses + [if e.Timeout? then Response(e.id, 504, [], None)
                                            else var p := s.jobs[e.id].phase; Response(e.id, p.status, p.body, p.issue)])
  {
  }

  // ---------------------------------------------------------------- the payment invariant

  /** The verifier's part of the state is a run of the replay guard. */
  ghost predicate VerifierInv(cfg: Config, s: State) {
    && |s.log.requests| == |s.log.verdicts| == |s.log.callers|
    && RG.InOrder(s.log.requests)
    && (forall r :: r in s.log.requests ==> r.at <= s.clock && r.at + cfg.verifier.offset >= 0)
    && s.store == RG.StoreAt(cfg.verifier, cfg.ttl, cfg.initial, s.log.requests, |s.log.requests|)
    && (forall i :: 0 <= i < |s.log.requests| ==>
          s.log.verdicts[i].Valid? == RG.Accepted(cfg.verifier, cfg.ttl, cfg.initial, s.log.requests, i))
  }

  /** The job's slot is its own call to the verifier. */
  ghost predicate SlotOk(cfg: Config, log: Log, id: nat, job: Job) {
    job.slot.Some? ==>
      var i := job.slot.value;
      i < |log.requests| == |log.verdicts| == |log.callers| && log.callers[i] == Some(id) &&
      log.requests[i].context == Context(cfg, job.req) && log.requests[i].signature == Seen(Marshal, job.req.signature)
  }

  /** The request has an acceptance of its own in the verifier's log. */
  ghost predicate HasAcceptance(cfg: Config, log: Log, id: nat, job: Job) {
    job.slot.Some? && SlotOk(cfg, log, id, job) && log.verdicts[job.slot.value].Valid?
  }

  /** The handler is past the verifier. */
  predicate Beyond(p: Phase) { p.Paid? || p.Generated? || (p.Done? && p.status == 200) }

  /** Beyond the verifier lies nothing unpaid. */
  ghost predicate JobPaid(cfg: Config, log: Log, id: nat, job: Job) {
    SlotOk(cfg, log, id, job) && (Beyond(job.phase) ==> HasAcceptance(cfg, log, id, job))
  }

  ghost predicate PaidJob(cfg: Config, s: State, id: nat) { id in s.jobs && HasAcceptance(cfg, s.log, id, s.jobs[id]) }

  ghost predicate ResponsePaid(cfg: Config, s: State, r: Response) {
    r.job in s.jobs && s.jobs[r.job].answered && (r.status == 200 ==> PaidJob(cfg, s, r.job))
  }

  ghost predicate ResponsesInv(cfg: Config, s: State) {
    && (forall i :: 0 <= i < |s.responses| ==> ResponsePaid(cfg, s, s.responses[i]))
    && (forall i, j :: 0 <= i < j < |s.responses| ==> s.responses[i].job != s.responses[j].job)
  }

  ghost predicate JobsInv(cfg: Config, s: State) { forall id :: id in s.jobs ==> JobPaid(cfg, s.log, id, s.jobs[id]) }

  ghost predicate AiInv(cfg: Config, s: State) { forall i :: 0 <= i < |s.log.ai| ==> PaidJob(cfg, s, s.log.ai[i].job) }

  ghost predicate PayInv(cfg: Config, s: State) {
    VerifierInv(cfg, s) && JobsInv(cfg, s) && AiInv(cfg, s) && ResponsesInv(cfg, s)
  }

  lemma AcceptanceStays(cfg: Config, log: Log, log': Log, id: nat, job: Job, job': Job)
    requires LogExtends(log, log') && JobExtends(job, job') && HasAcceptance(cfg, log, id, job)
    ensures HasAcceptance(cfg, log', id, job')
  {
  }

  lemma PaidStays(cfg: Config, s: State, s': State, id: nat)
    requires Extends(s, s') && PaidJob(cfg, s, id)
    ensures PaidJob(cfg, s', id)
  {
    AcceptanceStays(cfg, s.log, s'.log, id, s.jobs[id], s'.jobs[id]);
  }

  lemma VerifierServesInv(cfg: Config, s: State, r: RG.Request, caller: Option<nat>)
    requires VerifierInv(cfg, s) && r.at >= s.clock && r.at + cfg.verifier.offset >= 0
    ensures VerifierInv(cfg, VerifierServes(cfg, s, r, caller))
  {
    var s' := VerifierServes(cfg, s, r, caller);
    var n := |s.log.requests|;
    forall i | 0 <= i <= n
      ensures RG.StoreAt(cfg.verifier, cfg.ttl, cfg.initial, s'.log.requests, i)
           == RG.StoreAt(cfg.verifier, cfg.ttl, cfg.initial, s.log.requests, i)
    {
      RG.StoreAtPrefix(cfg.verifier, cfg.ttl, cfg.initial, s.log.requests, [r], i);
    }
    assert s'.log.requests[n] == r;
    forall i | 0 <= i <= n
      ensures s'.log.verdicts[i].Valid? == RG.Accepted(cfg.verifier, cfg.ttl, cfg.initial, s'.log.requests, i)
    {
      if i < n { assert s.log.verdicts[i].Valid? == RG.Accepted(cfg.verifier, cfg.ttl, cfg.initial, s.log.requests, i); }
    }
  }

  /** Only the two calls of the verifier touch its part of the state. */
  lemma VerifierUntouched(cfg: Config, s: State, e: Event)
    requires !e.Verifier? && !e.OtherCaller?
    ensures var s' := Next(cfg, s, e);
            && s'.log.requests == s.log.requests && s'.log.verdicts == s.log.verdicts && s'.log.callers == s.log.callers
            && s'.store == s.store && s'.clock == s.clock
  {
    if Enabled(cfg, s, e) && e.Finish? {
      FinishFrame(cfg, s, e.id, e.stamp, e.at, e.ok);
    } else {
    }
  }

  lemma NextVerifierInv(cfg: Config, s: State, e: Event)
    requires VerifierInv(cfg, s)
    ensures VerifierInv(cfg, Next(cfg, s, e))
  {
    if !e.Verifier? && !e.OtherCaller? {
      VerifierUntouched(cfg, s, e);
    } else if Enabled(cfg, s, e) {
      match e
      case Verifier(id, at, fault) =>
        VerifierServesInv(cfg, s, VerifyCall(cfg, s.jobs[id].req, at, fault), Some(id));
      case OtherCaller(r) => VerifierServesInv(cfg, s, r, None);
    }
  }

  /** A handler gets past the verifier by a valid reply and no other way. */
  lemma OnlyReplyPays(cfg: Config, s: State, e: Event)
    requires Enabled(cfg, s, e) && Subject(e).Some? && e.id in s.jobs && !Beyond(s.jobs[e.id].phase)
    ensures e.id in Next(cfg, s, e).jobs
    ensures Beyond(Next(cfg, s, e).jobs[e.id].phase) ==> e.Reply? && s.log.verdicts[s.jobs[e.id].slot.value].Valid?
  {
    if e.Finish? {
      FinishFrame(cfg, s, e.id, e.stamp, e.at, e.ok);
    } else {
    }
  }

  /** The job an event moves stays paid for. */
  lemma SubjectPaid(cfg: Config, s: State, e: Event)
    requires PayInv(cfg, s) && Enabled(cfg, s, e) && Subject(e).Some?
    ensures var s' := Next(cfg, s, e); e.id in s'.jobs && JobPaid(cfg, s'.log, e.id, s'.jobs[e.id])
  {
    if !e.Arrive? {
      var s' := Next(cfg, s, e);
      var job := s.jobs[e.id];
      assert JobPaid(cfg, s.log, e.id, job);
      NextLogExtends(cfg, s, e);
      NextJobExtends(cfg, s, e, e.id);
      if HasAcceptance(cfg, s.log, e.id, job) {
        AcceptanceStays(cfg, s.log, s'.log, e.id, job, s'.jobs[e.id]);
      } else {
        OnlyReplyPays(cfg, s, e);
        if !e.Verifier? { SlotUntouched(cfg, s, e); }
      }
    }
  }

  lemma SlotUntouched(cfg: Config, s: State, e: Event)
    requires Enabled(cfg, s, e) && Subject(e).Some? && e.id in s.jobs && !e.Verifier?
    ensures e.id in Next(cfg, s, e).jobs && Next(cfg, s, e).jobs[e.id].slot == s.jobs[e.id].slot
  {
    if e.Finish? {
      FinishFrame(cfg, s, e.id, e.stamp, e.at, e.ok);
    } else {
    }
  }

  lemma NextJobsInv(cfg: Config, s: State, e: Event)
    requires PayInv(cfg, s)
    ensures JobsInv(cfg, Next(cfg, s, e))
  {
    var s' := Next(cfg, s, e);
    if Enabled(cfg, s, e) {
      NextLogExtends(cfg, s, e);
      forall id | id in s'.jobs ensures JobPaid(cfg, s'.log, id, s'.jobs[id]) {
        if Subject(e) == Some(id) {
          SubjectPaid(cfg, s, e);
        } else {
          OthersUntouched(cfg, s, e, id);
          assert JobPaid(cfg, s.log, id, s.jobs[id]);
        }
      }
    }
  }

  lemma NextAiInv(cfg: Config, s: State, e: Event)
    requires PayInv(cfg, s)
    ensures AiInv(cfg, Next(cfg, s, e))
  {
    var s' := Next(cfg, s, e);
    NextExtends(cfg, s, e);
    forall i | 0 <= i < |s'.log.ai| ensures PaidJob(cfg, s', s'.log.ai[i].job) {
      if i < |s.log.ai| {
        assert s'.log.ai[i] == s.log.ai[i];
        PaidStays(cfg, s, s', s.log.ai[i].job);
      } else {
        assert JobPaid(cfg, s.log, e.id, s.jobs[e.id]);
        PaidStays(cfg, s, s', e.id);
      }
    }
  }

  lemma NextResponsesInv(cfg: Config, s: State, e: Event)
    requires PayInv(cfg, s)
    ensures ResponsesInv(cfg, Next(cfg, s, e))
  {
    var s' := Next(cfg, s, e);
    NextExtends(cfg, s, e);
    NewResponse(cfg, s, e);
    forall i | 0 <= i < |s.responses| ensures ResponsePaid(cfg, s', s.responses[i]) {
      assert ResponsePaid(cfg, s, s.responses[i]);
      if s.responses[i].status == 200 { PaidStays(cfg, s, s', s.responses[i].job); }
    }
    if s'.responses != s.responses {
      assert JobPaid(cfg, s.log, e.id, s.jobs[e.id]);
      if s'.responses[|s.responses|].status == 200 { PaidStays(cfg, s, s', e.id); }
    }
  }

  lemma {:induction false} RunPayInv(cfg: Config, clock: int, es: seq<Event>)
    ensures PayInv(cfg, Run(cfg, Init(cfg, clock), es))
  {
    if es != [] {
      var s, e := Run(cfg, Init(cfg, clock), es[..|es| - 1]), es[|es| - 1];
      RunPayInv(cfg, clock, es[..|es| - 1]);
      NextVerifierInv(cfg, s, e);
      NextJobsInv(cfg, s, e);
      NextAiInv(cfg, s, e);
      NextResponsesInv(cfg, s, e);
    }
  }

  // ---------------------------------------------------------------- pay per response

  /** The verifier's log entry that pays for a response. */
  function PaidBy(s: State, i: nat): nat
    requires i < |s.responses| && s.responses[i].job in s.jobs && s.jobs[s.responses[i].job].slot.Some?
  {
    s.jobs[s.responses[i].job].slot.value
  }

  /** What the verifier is asked about a request: its own signature, nonce and timestamp, for the price asked. */
  ghost predicate AskedFor(cfg: Config, req: HttpRequest, asked: RG.Request) {
    && asked.signature == Seen(Marshal, req.signature) && asked.context.nonce == Seen(Marshal, req.nonce)
    && asked.context.timestamp == req.timestamp && asked.context.chainId == cfg.chainId
    && asked.context.recipient == Seen(Marshal, cfg.recipient) && asked.context.amount == Seen(Marshal, cfg.amount)
    && asked.context.token == R.Lit("USDC")
  }

  /**
   In every run, every 200 is paid for by an acceptance of its own: the acceptance is for the
   context of that very request, and no two responses share one.
   */
  lemma PayPerResponse(cfg: Config, clock: int, es: seq<Event>, i: nat)
    requires i < |Run(cfg, Init(cfg, clock), es).responses| && Run(cfg, Init(cfg, clock), es).responses[i].status == 200
    ensures var s := Run(cfg, Init(cfg, clock), es);
            var r := s.responses[i];
            && r.job in s.jobs && s.jobs[r.job].slot.Some? && PaidBy(s, i) < |s.log.requests|
            && RG.Accepted(cfg.verifier, cfg.ttl, cfg.initial, s.log.requests, PaidBy(s, i))
            && AskedFor(cfg, s.jobs[r.job].req, s.log.requests[PaidBy(s, i)])
            && (forall j :: 0 <= j < |s.responses| && j != i && s.responses[j].status == 200 ==>
                  s.responses[j].job in s.jobs && s.jobs[s.responses[j].job].slot.Some? && PaidBy(s, j) != PaidBy(s, i))
  {
    RunPayInv(cfg, clock, es);
  }

  /** The provider is only ever called for a request the verifier has accepted. */
  lemma GenerateOnlyAfterAcceptance(cfg: Config, clock: int, es: seq<Event>, i: nat)
    requires i < |Run(cfg, Init(cfg, clock), es).log.ai|
    ensures var s := Run(cfg, Init(cfg, clock), es);
            var id := s.log.ai[i].job;
            && id in s.jobs && s.jobs[id].slot.Some? && s.jobs[id].slot.value < |s.log.requests|
            && RG.Accepted(cfg.verifier, cfg.ttl, cfg.initial, s.log.requests, s.jobs[id].slot.value)
            && AskedFor(cfg, s.jobs[id].req, s.log.requests[s.jobs[id].slot.value])
  {
    RunPayInv(cfg, clock, es);
    assert PaidJob(cfg, Run(cfg, Init(cfg, clock), es), Run(cfg, Init(cfg, clock), es).log.ai[i].job);
  }

  /**
   One signed context yields at most one 200, on the hit and miss paths together, however often
   it is presented and whatever gets lost: no two agree in the nonce the verifier reads and the
   timestamp, the only parts of a context that differ between requests.
   */
  lemma OneResponsePerContext(cfg: Config, clock: int, es: seq<Event>, i: nat, j: nat)
    requires cfg.ttl > cfg.verifier.expiry + cfg.verifier.skew  // as RG.RetentionSeconds is
    requires i < j < |Run(cfg, Init(cfg, clock), es).responses|
    requires Run(cfg, Init(cfg, clock), es).responses[i].status == 200
    requires Run(cfg, Init(cfg, clock), es).responses[j].status == 200
    ensures var s := Run(cfg, Init(cfg, clock), es);
            && s.responses[i].job in s.jobs && s.responses[j].job in s.jobs
            && var a, b := s.jobs[s.responses[i].job].req, s.jobs[s.responses[j].job].req;
               Seen(Marshal, a.nonce) != Seen(Marshal, b.nonce) || a.timestamp != b.timestamp
  {
    var s := Run(cfg, Init(cfg, clock), es);
    PayPerResponse(cfg, clock, es, i);
    PayPerResponse(cfg, clock, es, j);
    RunPayInv(cfg, clock, es);
    var a, b := PaidBy(s, i), PaidBy(s, j);
    if s.log.requests[a].context == s.log.requests[b].context {
      assert s.log.requests[a] in s.log.requests && s.log.requests[b] in s.log.requests;
      if a < b {
        RG.ReplaySafety(cfg.verifier, cfg.ttl, cfg.initial, s.log.requests, a, b);
      } else {
        RG.ReplaySafety(cfg.verifier, cfg.ttl, cfg.initial, s.log.requests, b, a);
      }
    }
  }
}
