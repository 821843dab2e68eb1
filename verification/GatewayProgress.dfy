/**
 What the gateway does for a client that does everything right, and what it tells one that does
 not.  The events of other requests, of the cache and of the receipt store may come anywhere in
 between.
 */
module GatewayProgress {
  import opened Wrappers
  import opened Json
  import opened Gateway
  import GC = GatewayCache
  import GR = GatewayReceipts
  import R = Receipts
  import RG = ReplayGuard
  import RS = ReceiptStore

  // ---------------------------------------------------------------- what others leave alone

  ghost predicate OfOthers(es: seq<Event>, id: nat) { forall e :: e in es ==> Subject(e) != Some(id) }

  /** One event of a request, followed by others'. */
  function After(cfg: Config, s: State, e: Event, others: seq<Event>): State { Run(cfg, Next(cfg, s, e), others) }

  ghost predicate NoCallFor(log: Log, id: nat) { forall k :: 0 <= k < |log.ai| ==> log.ai[k].job != id }

  lemma OthersStep(cfg: Config, s: State, e: Event, id: nat)
    requires id in s.jobs && Subject(e) != Some(id)
    ensures id in Next(cfg, s, e).jobs && Next(cfg, s, e).jobs[id] == s.jobs[id]
    ensures LogExtends(s.log, Next(cfg, s, e).log)
    ensures NoCallFor(s.log, id) ==> NoCallFor(Next(cfg, s, e).log, id)
  {
    NextJobExtends(cfg, s, e, id);
    OthersUntouched(cfg, s, e, id);
    NextLogExtends(cfg, s, e);
    GC.NewAi(cfg, s, e);
  }

  /** Nothing others do moves a request, and nothing is ever taken out of a log. */
  lemma {:induction false} OthersKeep(cfg: Config, s: State, es: seq<Event>, id: nat)
    requires id in s.jobs && OfOthers(es, id)
    ensures id in Run(cfg, s, es).jobs && Run(cfg, s, es).jobs[id] == s.jobs[id]
    ensures LogExtends(s.log, Run(cfg, s, es).log)
    ensures NoCallFor(s.log, id) ==> NoCallFor(Run(cfg, s, es).log, id)
  {
    if es != [] {
      var n := |es| - 1;
      assert es[n] in es;
      OthersKeep(cfg, s, es[..n], id);
      OthersStep(cfg, Run(cfg, s, es[..n]), es[n], id);
    }
  }

  // ---------------------------------------------------------------- before the verifier

  /** Headers and a body with which a summary can be asked for. */
  ghost predicate Complete(req: HttpRequest) {
    req.signature != [] && req.nonce != [] && req.timestamp.Some? && req.timestamp.value != 0 && HasText(req)
  }

  /** What the cache holds for a request. */
  function Hit(cfg: Config, s: State, readable: bool, req: HttpRequest): Option<Text>
    requires HasText(req)
  {
    var key := CacheKey(cfg.hash, req.body.text, cfg.model);
    if cfg.caching && readable && key in s.cache then Some(s.cache[key]) else None
  }

  /** The handler asks the verifier exactly when nothing is missing; without a cache it has not looked at the text yet. */
  lemma OpensIff(cfg: Config, cache: map<Text, Text>, readable: bool, req: HttpRequest)
    ensures var p := Opening(cfg, cache, readable, req);
            var signed := req.signature != [] && req.nonce != [];
            var timed := req.timestamp.Some? && req.timestamp.value != 0;
            && (p.Verifying? <==> signed && timed && !req.body.TooLarge? && (cfg.caching ==> HasText(req)))
            && (!p.Verifying? ==> p.Done? && p.body == [] && p.issue == None && p.status in {402, 413, 400})
            && (p.Done? && p.status == 402 <==> !signed)
            && (p.Done? && p.status == 413 <==> signed && req.body.TooLarge? && (cfg.caching || timed))
  {
  }

  /** The state in which a new request waits for the verifier. */
  function AtVerifier(cfg: Config, s: State, id: nat, req: HttpRequest, readable: bool, g: seq<seq<Event>>): State
    requires |g| == 6
  {
    After(cfg, After(cfg, s, Arrive(id, req), g[0]), Begin(id, readable), g[1])
  }

  lemma BeginStep(cfg: Config, s: State, id: nat, readable: bool)
    requires id in s.jobs && s.jobs[id].phase.Arrived? && Complete(s.jobs[id].req)
    ensures var s', job := Next(cfg, s, Begin(id, readable)), s.jobs[id];
            && id in s'.jobs && s'.jobs[id] == job.(phase := Verifying(Hit(cfg, s, readable, job.req)), sent := true)
            && s'.log == s.log
  {
  }

  lemma ReachesVerifier(cfg: Config, s: State, id: nat, req: HttpRequest, readable: bool, g: seq<seq<Event>>)
    requires id !in s.jobs && Complete(req) && |g| == 6 && (forall i :: 0 <= i < 6 ==> OfOthers(g[i], id))
    ensures var arrived := After(cfg, s, Arrive(id, req), g[0]);
            var b := AtVerifier(cfg, s, id, req, readable, g);
            && id in b.jobs && b.jobs[id] == Job(req, Verifying(Hit(cfg, arrived, readable, req)), true, None, false)
            && LogExtends(s.log, b.log) && (NoCallFor(s.log, id) ==> NoCallFor(b.log, id))
  {
    OthersKeep(cfg, Next(cfg, s, Arrive(id, req)), g[0], id);
    var a := After(cfg, s, Arrive(id, req), g[0]);
    BeginStep(cfg, a, id, readable);
    OthersKeep(cfg, Next(cfg, a, Begin(id, readable)), g[1], id);
  }

  // ---------------------------------------------------------------- the verdict

  /** The call to the verifier and its reply. */
  function PastVerifier(cfg: Config, b: State, id: nat, at: int, fault: RG.Fault, g: seq<seq<Event>>): State
    requires |g| == 6
  {
    After(cfg, After(cfg, b, Verifier(id, at, fault), g[2]), Reply(id), g[3])
  }

  /** How the verifier rules on a request at that moment. */
  function Ruling(cfg: Config, b: State, req: HttpRequest, at: int, fault: RG.Fault): RG.Verdict {
    RG.Verify(cfg.verifier, cfg.ttl, b.store, VerifyCall(cfg, req, at, fault)).1
  }

  lemma VerifierStep(cfg: Config, b: State, id: nat, at: int, fault: RG.Fault)
    requires Enabled(cfg, b, Verifier(id, at, fault)) && |b.log.requests| == |b.log.verdicts|
    ensures var c, n := Next(cfg, b, Verifier(id, at, fault)), |b.log.verdicts|;
            && id in c.jobs && c.jobs[id] == b.jobs[id].(slot := Some(n)) && c.log.ai == b.log.ai
            && n < |c.log.verdicts| && c.log.verdicts[n] == Ruling(cfg, b, b.jobs[id].req, at, fault)
  {
  }

  lemma ReplyStep(cfg: Config, c: State, id: nat)
    requires Enabled(cfg, c, Reply(id))
    ensures var d, v, job := Next(cfg, c, Reply(id)), c.log.verdicts[c.jobs[id].slot.value], c.jobs[id];
            && id in d.jobs && d.log == c.log && d.jobs[id] == job.(phase := d.jobs[id].phase)
            && (v.Valid? && v.address != [] ==> d.jobs[id].phase == Paid(job.phase.hit, v.address))
            && (!(v.Valid? && v.address != []) ==> d.jobs[id].phase == Failed(StatusFor(v)))
  {
  }

  /** What a client is told about a payment that was not accepted. */
  function StatusFor(v: RG.Verdict): int {
    if v.NonceAlreadyUsed? then 409
    else if v.SignatureRejected? then 403
    else if v.TimestampRejected? || v.ChainIdMismatch? then 400
    else 502
  }

  /** What the verifier rules is what the handler goes by. */
  lemma GoesByRuling(cfg: Config, b: State, id: nat, at: int, fault: RG.Fault, g: seq<seq<Event>>)
    requires id in b.jobs && b.jobs[id].phase.Verifying? && b.jobs[id].sent && b.jobs[id].slot.None?
    requires |b.log.requests| == |b.log.verdicts| && at >= b.clock && at + cfg.verifier.offset >= 0
    requires |g| == 6 && (forall i :: 0 <= i < 6 ==> OfOthers(g[i], id))
    ensures var d, job, v := PastVerifier(cfg, b, id, at, fault, g), b.jobs[id], Ruling(cfg, b, b.jobs[id].req, at, fault);
            && id in d.jobs && d.jobs[id].slot.Some? && d.jobs[id].slot.value < |d.log.verdicts|
            && d.log.verdicts[d.jobs[id].slot.value] == v
            && d.jobs[id] == job.(slot := d.jobs[id].slot, phase := d.jobs[id].phase)
            && d.jobs[id].phase == (if v.Valid? && v.address != [] then Paid(job.phase.hit, v.address)
                                    else Failed(StatusFor(v)))
            && (NoCallFor(b.log, id) ==> NoCallFor(d.log, id))
  {
    VerifierStep(cfg, b, id, at, fault);
    OthersKeep(cfg, Next(cfg, b, Verifier(id, at, fault)), g[2], id);
    var c := After(cfg, b, Verifier(id, at, fault), g[2]);
    ReplyStep(cfg, c, id);
    OthersKeep(cfg, Next(cfg, c, Reply(id)), g[3], id);
  }

  // ---------------------------------------------------------------- the result, its receipt and the response

  lemma GenerateStep(cfg: Config, d: State, id: nat, result: Text)
    requires id in d.jobs && d.jobs[id].phase.Paid? && d.jobs[id].phase.hit.None?
    requires HasText(d.jobs[id].req) && WellFormed(result)
    ensures var f, job := Next(cfg, d, Generate(id, Some(result), false)), d.jobs[id];
            && id in f.jobs && f.jobs[id] == job.(phase := Generated(result, job.phase.payer))
            && f.log.ai == d.log.ai + [AiCall(id, job.req.body.text, Some(result))]
  {
  }

  /** Completing the handler: a 200 with its receipt, and on a miss a write to the cache. */
  lemma FinishStep(cfg: Config, f: State, id: nat, stamp: Stamp, at: int)
    requires GR.ConfigOk(cfg) && Enabled(cfg, f, Finish(id, stamp, at, true))
    requires GR.PayerOk(f.log, f.jobs[id], f.jobs[id].phase.payer)
    ensures var h, job := Next(cfg, f, Finish(id, stamp, at, true)), f.jobs[id];
            var result, n := ResultOf(job.phase).value, |f.log.issued|;
            && id in h.jobs && h.jobs[id] == job.(phase := Done(200, result, Some(n)))
            && |h.log.issued| == n + 1 && h.log.issued[n] == IssueFor(cfg, id, job, stamp, at) && h.log.ai == f.log.ai
            && (job.phase.Generated? && cfg.caching && !job.answered && HasText(job.req) ==>
                  (CacheKey(cfg.hash, job.req.body.text, cfg.model), Seen(Marshal, result)) in h.writes)
  {
    var job := f.jobs[id];
    GR.MadeHasShape(cfg, f.log, job, job.phase.payer, stamp, ResultOf(job.phase).value);
    GR.FinishIssues(cfg, f, id, stamp, at, true);
    FinishFrame(cfg, f, id, stamp, at, true);
  }

  function Completed(cfg: Config, f: State, id: nat, stamp: Stamp, at: int, g: seq<seq<Event>>): State
    requires |g| == 6
  {
    Next(cfg, After(cfg, f, Finish(id, stamp, at, true), g[5]), Deliver(id))
  }

  /** The last response is a 200 for this request, with a receipt that names this payer. */
  ghost predicate Answered(cfg: Config, before: seq<Response>, s: State, id: nat, result: Text, payer: Text, expires: int) {
    && id in s.jobs && |s.responses| > 0
    && var r := s.responses[|s.responses| - 1];
    && s.responses == before + [r] && r.job == id && r.status == 200 && r.body == result
    && r.issue.Some? && r.issue.value < |s.log.issued|
    && var issue := s.log.issued[r.issue.value];
    && issue.job == id && issue.expiresAt == expires
    && issue.receipt.receipt.payment.payer == payer && issue.receipt.receipt.payment.nonce == s.jobs[id].req.nonce
  }

  lemma DeliverStep(cfg: Config, h: State, id: nat)
    requires id in h.jobs && h.jobs[id].phase.Done? && !h.jobs[id].answered
    ensures var s, p := Next(cfg, h, Deliver(id)), h.jobs[id].phase;
            && s.responses == h.responses + [Response(id, p.status, p.body, p.issue)] && s.log == h.log
            && id in s.jobs && s.jobs[id] == h.jobs[id].(answered := true)
  {
  }

  lemma CompletesAnswered(cfg: Config, f: State, id: nat, stamp: Stamp, at: int, g: seq<seq<Event>>)
    requires GR.ConfigOk(cfg) && Enabled(cfg, f, Finish(id, stamp, at, true)) && !f.jobs[id].answered
    requires GR.PayerOk(f.log, f.jobs[id], f.jobs[id].phase.payer)
    requires |g| == 6 && (forall i :: 0 <= i < 6 ==> OfOthers(g[i], id))
    ensures var before := After(cfg, f, Finish(id, stamp, at, true), g[5]).responses;
            var s, p := Completed(cfg, f, id, stamp, at, g), f.jobs[id].phase;
            && Answered(cfg, before, s, id, ResultOf(p).value, p.payer, at + cfg.receiptTtl)
            && (NoCallFor(f.log, id) ==> NoCallFor(s.log, id))
  {
    var h := Next(cfg, f, Finish(id, stamp, at, true));
    FinishStep(cfg, f, id, stamp, at);
    OthersKeep(cfg, h, g[5], id);
    DeliverStep(cfg, Run(cfg, h, g[5]), id);
  }

  // ---------------------------------------------------------------- the theorems

  /** The choices of one exchange: what the environment supplies, and what others do in the meantime. */
  datatype Plan = Plan(readable: bool, at: int, fault: RG.Fault, stamp: Stamp, storedAt: int, g: seq<seq<Event>>) {
    ghost predicate Valid(id: nat) { StampOk(stamp) && |g| == 6 && forall i :: 0 <= i < 6 ==> OfOthers(g[i], id) }
  }

  lemma Unheard(cfg: Config, clock: int, es: seq<Event>, id: nat)
    requires id !in Run(cfg, Init(cfg, clock), es).jobs
    ensures var log := Run(cfg, Init(cfg, clock), es).log; NoCallFor(log, id) && |log.requests| == |log.verdicts|
  {
    RunPayInv(cfg, clock, es);
    var s := Run(cfg, Init(cfg, clock), es);
    assert forall k :: 0 <= k < |s.log.ai| ==> PaidJob(cfg, s, s.log.ai[k].job);
  }

  /** A complete request is either paid, with the verdict in its slot, or refused with the status of the ruling. */
  lemma RequestIsJudged(cfg: Config, clock: int, es: seq<Event>, id: nat, req: HttpRequest, p: Plan)
    requires id !in Run(cfg, Init(cfg, clock), es).jobs && Complete(req) && p.Valid(id)
    requires var b := AtVerifier(cfg, Run(cfg, Init(cfg, clock), es), id, req, p.readable, p.g);
             p.at >= b.clock && p.at + cfg.verifier.offset >= 0
    ensures var s := Run(cfg, Init(cfg, clock), es);
            var hit := Hit(cfg, After(cfg, s, Arrive(id, req), p.g[0]), p.readable, req);
            var b := AtVerifier(cfg, s, id, req, p.readable, p.g);
            var d, v := PastVerifier(cfg, b, id, p.at, p.fault, p.g), Ruling(cfg, b, req, p.at, p.fault);
            && id in d.jobs && d.jobs[id].req == req && !d.jobs[id].answered && NoCallFor(d.log, id)
            && (v.Valid? && v.address != [] ==>
                  d.jobs[id].phase == Paid(hit, v.address) && GR.PayerOk(d.log, d.jobs[id], v.address))
            && (!(v.Valid? && v.address != []) ==> d.jobs[id].phase == Failed(StatusFor(v)))
  {
    var s := Run(cfg, Init(cfg, clock), es);
    Unheard(cfg, clock, es, id);
    ReachesVerifier(cfg, s, id, req, p.readable, p.g);
    GoesByRuling(cfg, AtVerifier(cfg, s, id, req, p.readable, p.g), id, p.at, p.fault, p.g);
  }

  lemma HoldsResult(cfg: Config, d: State, id: nat, result: Text, others: seq<Event>)
    requires id in d.jobs && d.jobs[id].phase.Paid? && d.jobs[id].phase.hit.None? && HasText(d.jobs[id].req)
    requires WellFormed(result) && OfOthers(others, id) && GR.PayerOk(d.log, d.jobs[id], d.jobs[id].phase.payer)
    ensures var f, job := After(cfg, d, Generate(id, Some(result), false), others), d.jobs[id];
            && id in f.jobs && f.jobs[id] == job.(phase := Generated(result, job.phase.payer))
            && GR.PayerOk(f.log, f.jobs[id], job.phase.payer)
  {
    GenerateStep(cfg, d, id, result);
    NextLogExtends(cfg, d, Generate(id, Some(result), false));
    OthersKeep(cfg, Next(cfg, d, Generate(id, Some(result), false)), others, id);
  }

  lemma MissCompletes(cfg: Config, d: State, id: nat, p: Plan, result: Text)
    requires GR.ConfigOk(cfg) && p.Valid(id) && WellFormed(result)
    requires id in d.jobs && d.jobs[id].phase.Paid? && d.jobs[id].phase.hit.None? && HasText(d.jobs[id].req)
    requires !d.jobs[id].answered && GR.PayerOk(d.log, d.jobs[id], d.jobs[id].phase.payer)
    requires p.storedAt >= After(cfg, d, Generate(id, Some(result), false), p.g[4]).receipts.clock
    ensures var f := After(cfg, d, Generate(id, Some(result), false), p.g[4]);
            var h := Next(cfg, f, Finish(id, p.stamp, p.storedAt, true));
            && Answered(cfg, Run(cfg, h, p.g[5]).responses, Completed(cfg, f, id, p.stamp, p.storedAt, p.g), id, result,
                        d.jobs[id].phase.payer, p.storedAt + cfg.receiptTtl)
            && (cfg.caching ==> (CacheKey(cfg.hash, d.jobs[id].req.body.text, cfg.model), result) in h.writes)
  {
    HoldsResult(cfg, d, id, result, p.g[4]);
    var f := After(cfg, d, Generate(id, Some(result), false), p.g[4]);
    CompletesAnswered(cfg, f, id, p.stamp, p.storedAt, p.g);
    FinishStep(cfg, f, id, p.stamp, p.storedAt);
    SeenSame(Marshal, result);
  }

  /**
   From every reachable state, a complete request that the verifier accepts and the cache does not
   hold is answered with what the provider returns for it and a receipt that names its payer.
   */
  lemma PaidRequestIsServed(cfg: Config, clock: int, es: seq<Event>, id: nat, req: HttpRequest, p: Plan,
                            a: Text, result: Text)
    requires GR.ConfigOk(cfg) && id !in Run(cfg, Init(cfg, clock), es).jobs && Complete(req) && p.Valid(id)
    requires a != [] && WellFormed(result)
    requires var s := Run(cfg, Init(cfg, clock), es);
             var b := AtVerifier(cfg, s, id, req, p.readable, p.g);
             var f := After(cfg, PastVerifier(cfg, b, id, p.at, p.fault, p.g), Generate(id, Some(result), false), p.g[4]);
             && p.at >= b.clock && p.at + cfg.verifier.offset >= 0 && p.storedAt >= f.receipts.clock
             && Ruling(cfg, b, req, p.at, p.fault) == RG.Valid(a)
             && Hit(cfg, After(cfg, s, Arrive(id, req), p.g[0]), p.readable, req) == None
    ensures var s := Run(cfg, Init(cfg, clock), es);
            var b := AtVerifier(cfg, s, id, req, p.readable, p.g);
            var f := After(cfg, PastVerifier(cfg, b, id, p.at, p.fault, p.g), Generate(id, Some(result), false), p.g[4]);
            var h := Next(cfg, f, Finish(id, p.stamp, p.storedAt, true));
            && Answered(cfg, Run(cfg, h, p.g[5]).responses, Completed(cfg, f, id, p.stamp, p.storedAt, p.g), id, result, a,
                        p.storedAt + cfg.receiptTtl)
            && (cfg.caching ==> (CacheKey(cfg.hash, req.body.text, cfg.model), result) in h.writes)
  {
    var s := Run(cfg, Init(cfg, clock), es);
    var d := PastVerifier(cfg, AtVerifier(cfg, s, id, req, p.readable, p.g), id, p.at, p.fault, p.g);
    RequestIsJudged(cfg, clock, es, id, req, p);
    MissCompletes(cfg, d, id, p, result);
  }

  /** ... and one the cache holds is answered with what the cache holds, without a call to the provider. */
  lemma HitIsServed(cfg: Config, clock: int, es: seq<Event>, id: nat, req: HttpRequest, p: Plan, a: Text, cached: Text)
    requires GR.ConfigOk(cfg) && id !in Run(cfg, Init(cfg, clock), es).jobs && Complete(req) && p.Valid(id) && a != []
    requires var s := Run(cfg, Init(cfg, clock), es);
             var key, arrived := CacheKey(cfg.hash, req.body.text, cfg.model), After(cfg, s, Arrive(id, req), p.g[0]);
             var b := AtVerifier(cfg, s, id, req, p.readable, p.g);
             && p.at >= b.clock && p.at + cfg.verifier.offset >= 0
             && p.storedAt >= PastVerifier(cfg, b, id, p.at, p.fault, p.g).receipts.clock
             && Ruling(cfg, b, req, p.at, p.fault) == RG.Valid(a)
             && cfg.caching && p.readable && key in arrived.cache && arrived.cache[key] == cached
    ensures var s := Run(cfg, Init(cfg, clock), es);
            var b := AtVerifier(cfg, s, id, req, p.readable, p.g);
            var d := PastVerifier(cfg, b, id, p.at, p.fault, p.g);
            var end := Completed(cfg, d, id, p.stamp, p.storedAt, p.g);
            && Answered(cfg, After(cfg, d, Finish(id, p.stamp, p.storedAt, true), p.g[5]).responses, end, id, cached, a,
                        p.storedAt + cfg.receiptTtl)
            && NoCallFor(end.log, id)
  {
    var s := Run(cfg, Init(cfg, clock), es);
    RequestIsJudged(cfg, clock, es, id, req, p);
    var d := PastVerifier(cfg, AtVerifier(cfg, s, id, req, p.readable, p.g), id, p.at, p.fault, p.g);
    CompletesAnswered(cfg, d, id, p.stamp, p.storedAt, p.g);
  }

  /** A complete request that the verifier does not accept is told so, with no result and no receipt. */
  lemma RefusedIsTold(cfg: Config, clock: int, es: seq<Event>, id: nat, req: HttpRequest, p: Plan)
    requires id !in Run(cfg, Init(cfg, clock), es).jobs && Complete(req) && p.Valid(id)
    requires var b := AtVerifier(cfg, Run(cfg, Init(cfg, clock), es), id, req, p.readable, p.g);
             p.at >= b.clock && p.at + cfg.verifier.offset >= 0 && !Ruling(cfg, b, req, p.at, p.fault).Valid?
    ensures var b := AtVerifier(cfg, Run(cfg, Init(cfg, clock), es), id, req, p.readable, p.g);
            var d, v := PastVerifier(cfg, b, id, p.at, p.fault, p.g), Ruling(cfg, b, req, p.at, p.fault);
            Next(cfg, d, Deliver(id)).responses == d.responses + [Response(id, StatusFor(v), [], None)]
  {
    RequestIsJudged(cfg, clock, es, id, req, p);
    var b := AtVerifier(cfg, Run(cfg, Init(cfg, clock), es), id, req, p.readable, p.g);
    DeliverStep(cfg, PastVerifier(cfg, b, id, p.at, p.fault, p.g), id);
  }

  /**
   A request fails with 504 or 502 if the verifier's reply does not come or the provider fails, and,
   while unanswered, with 504 if the deadline passes.
   */
  lemma FailuresAreTold(cfg: Config, s: State, id: nat, deadline: bool)
    requires id in s.jobs && !s.jobs[id].answered
    ensures Next(cfg, s, Timeout(id)).responses == s.responses + [Response(id, 504, [], None)]
    ensures var p := s.jobs[id].phase;
            p.Paid? && p.hit.None? && HasText(s.jobs[id].req) ==>
              Next(cfg, Next(cfg, s, Generate(id, None, deadline)), Deliver(id)).responses
              == s.responses + [Response(id, if deadline then 504 else 502, [], None)]
    ensures s.jobs[id].phase.Verifying? ==>
              Next(cfg, Next(cfg, s, GiveUp(id, deadline)), Deliver(id)).responses
              == s.responses + [Response(id, if deadline then 504 else 502, [], None)]
  {
  }

  /** ... and with 500 if its receipt cannot be generated or stored. */
  lemma UnstoredIsTold(cfg: Config, s: State, id: nat, stamp: Stamp, at: int)
    requires Enabled(cfg, s, Finish(id, stamp, at, false)) && !s.jobs[id].answered
    ensures Next(cfg, Next(cfg, s, Finish(id, stamp, at, false)), Deliver(id)).responses
         == s.responses + [Response(id, 500, [], None)]
  {
  }

  /** A write that lands is what the next reader of its key finds, one that is lost or expires is not found. */
  lemma WriteFillsCache(cfg: Config, s: State, w: (Text, Text))
    requires w in s.writes
    ensures Next(cfg, s, WriteLands(w)).cache == s.cache[w.0 := w.1]
    ensures w !in Next(cfg, s, WriteLost(w)).writes && Next(cfg, s, WriteLost(w)).cache == s.cache
    ensures w.0 !in Next(cfg, Next(cfg, s, WriteLands(w)), CacheExpires(w.0)).cache
  {
  }
}
