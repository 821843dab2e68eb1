/**
 The receipts that go with the responses of module Gateway: what a 200 carries, how long it can be
 looked up, and what the SDK makes of it.
 */
module GatewayReceipts {
  import opened Wrappers
  import opened Json
  import opened Gateway
  import R = Receipts
  import RG = ReplayGuard
  import RS = ReceiptStore

  // ---------------------------------------------------------------- the invariant

  /** The address the verifier recovered for a job is the payer, and the signed nonce is not empty. */
  ghost predicate PayerOk(log: Log, job: Job, payer: Text) {
    && payer != [] && job.req.nonce != []
    && job.slot.Some? && job.slot.value < |log.verdicts| && log.verdicts[job.slot.value] == RG.Valid(payer)
  }

  /** An issued receipt was made for its job from the verifier's verdict, and passes the gateway's check. */
  ghost predicate IssueOk(cfg: Config, s: State, issue: Issue) {
    && issue.job in s.jobs && PayerOk(s.log, s.jobs[issue.job], issue.payer) && StampOk(issue.stamp)
    && issue.receipt == MakeReceipt(cfg, s.jobs[issue.job].req, issue.payer, issue.stamp, issue.result)
    && R.ValidateReceipt(Some(issue.receipt)).None?
  }

  /** The receipt at position `n` was issued for this job and body. */
  ghost predicate Covers(log: Log, n: Option<nat>, job: nat, body: Text) {
    n.Some? && n.value < |log.issued| && log.issued[n.value].job == job && log.issued[n.value].result == body
  }

  ghost predicate JobReceipted(log: Log, id: nat, job: Job) {
    match job.phase
    case Verifying(_) => job.req.nonce != []
    case Paid(_, payer) => PayerOk(log, job, payer)
    case Generated(_, payer) => PayerOk(log, job, payer)
    case Done(status, body, issue) => status == 200 ==> Covers(log, issue, id, body)
    case _ => true
  }

  ghost predicate ResponseReceipted(log: Log, r: Response) { r.status == 200 ==> Covers(log, r.issue, r.job, r.body) }

  function IdOf(issue: Issue): Text { issue.receipt.receipt.id }

  function EntryOf(issue: Issue): RS.Entry { RS.Entry(issue.receipt, issue.expiresAt) }

  /** No later receipt has the same id. */
  ghost predicate LastOfId(issued: seq<Issue>, n: nat)
    requires n < |issued|
  {
    forall m :: n < m < |issued| ==> IdOf(issued[m]) != IdOf(issued[n])
  }

  /** Of the receipts with one id, the store holds the last. */
  ghost predicate LastStored(issued: seq<Issue>, stored: map<Text, RS.Entry>) {
    forall n :: 0 <= n < |issued| && LastOfId(issued, n) ==> RS.Find(stored, IdOf(issued[n])) == Some(EntryOf(issued[n]))
  }

  ghost predicate ReceiptInv(cfg: Config, s: State) {
    && RS.Inv(s.receipts) && LastStored(s.log.issued, s.receipts.ideal)
    && (forall id :: id in s.jobs ==> JobReceipted(s.log, id, s.jobs[id]))
    && (forall i :: 0 <= i < |s.log.issued| ==> IssueOk(cfg, s, s.log.issued[i]))
    && (forall i :: 0 <= i < |s.responses| ==> ResponseReceipted(s.log, s.responses[i]))
  }

  // ---------------------------------------------------------------- steps

  /** Other steps issue nothing, and reach the receipt store only to look up or clean up. */
  lemma NothingIssued(cfg: Config, s: State, e: Event)
    requires !e.Finish?
    ensures Next(cfg, s, e).log.issued == s.log.issued
    ensures Next(cfg, s, e).receipts
         == if e.StoreEvent? && !e.event.Store? then RS.Next(s.receipts, e.event) else s.receipts
  {
    if e.StoreEvent? {
    } else {
    }
  }

  /** Completing a handler issues and stores one receipt, or fails and does neither. */
  lemma FinishIssues(cfg: Config, s: State, id: nat, stamp: Stamp, at: int, ok: bool)
    requires id in s.jobs && ResultOf(s.jobs[id].phase).Some?
    ensures var s', issue := IssueAndFinish(cfg, s, id, stamp, at, ok), IssueFor(cfg, id, s.jobs[id], stamp, at);
            if ok && Storable(cfg, issue)
            then s'.log.issued == s.log.issued + [issue] && s'.receipts == RS.Next(s.receipts, StoreOf(cfg, issue, at))
            else s'.log.issued == s.log.issued && s'.receipts == s.receipts
  {
  }

  lemma IdealKept(s: RS.State, e: RS.Event)
    requires !e.Store?
    ensures RS.Next(s, e).ideal == s.ideal
  {
  }

  lemma StoreLands(cfg: Config, s: RS.State, issue: Issue, at: int)
    requires Storable(cfg, issue) && at >= s.clock && issue.expiresAt == at + cfg.receiptTtl
    ensures RS.Next(s, StoreOf(cfg, issue, at)).ideal == s.ideal[IdOf(issue) := EntryOf(issue)]
  {
  }

  lemma AppendStored(issued: seq<Issue>, stored: map<Text, RS.Entry>, issue: Issue)
    requires LastStored(issued, stored)
    ensures LastStored(issued + [issue], stored[IdOf(issue) := EntryOf(issue)])
  {
    var issued', stored' := issued + [issue], stored[IdOf(issue) := EntryOf(issue)];
    forall n | 0 <= n < |issued'| && LastOfId(issued', n)
      ensures RS.Find(stored', IdOf(issued'[n])) == Some(EntryOf(issued'[n]))
    {
      if n < |issued| {
        assert IdOf(issued'[|issued|]) != IdOf(issued'[n]);
        assert forall m :: n < m < |issued| ==> issued'[m] == issued[m];
        assert LastOfId(issued, n);
      }
    }
  }

  lemma NextStored(cfg: Config, s: State, e: Event)
    requires LastStored(s.log.issued, s.receipts.ideal)
    ensures LastStored(Next(cfg, s, e).log.issued, Next(cfg, s, e).receipts.ideal)
  {
    if Enabled(cfg, s, e) && e.Finish? {
      FinishIssues(cfg, s, e.id, e.stamp, e.at, e.ok);
      var issue := IssueFor(cfg, e.id, s.jobs[e.id], e.stamp, e.at);
      if e.ok && Storable(cfg, issue) {
        StoreLands(cfg, s.receipts, issue, e.at);
        AppendStored(s.log.issued, s.receipts.ideal, issue);
      }
    } else if !e.Finish? {
      NothingIssued(cfg, s, e);
      if e.StoreEvent? && !e.event.Store? { IdealKept(s.receipts, e.event); }
    }
  }

  lemma NextStoreInv(cfg: Config, s: State, e: Event)
    requires RS.Inv(s.receipts)
    ensures RS.Inv(Next(cfg, s, e).receipts)
  {
    if Enabled(cfg, s, e) && e.Finish? {
      FinishIssues(cfg, s, e.id, e.stamp, e.at, e.ok);
      RS.NextInv(s.receipts, StoreOf(cfg, IssueFor(cfg, e.id, s.jobs[e.id], e.stamp, e.at), e.at));
    } else if !e.Finish? {
      NothingIssued(cfg, s, e);
      if e.StoreEvent? { RS.NextInv(s.receipts, e.event); }
    }
  }

  lemma PayerStays(log: Log, log': Log, job: Job, job': Job, payer: Text)
    requires LogExtends(log, log') && JobExtends(job, job') && PayerOk(log, job, payer)
    ensures PayerOk(log', job', payer)
  {
  }

  lemma JobStays(log: Log, log': Log, id: nat, job: Job)
    requires LogExtends(log, log') && JobReceipted(log, id, job)
    ensures JobReceipted(log', id, job)
  {
  }

  lemma IssueStays(cfg: Config, s: State, s': State, issue: Issue)
    requires Extends(s, s') && IssueOk(cfg, s, issue)
    ensures IssueOk(cfg, s', issue)
  {
    PayerStays(s.log, s'.log, s.jobs[issue.job], s'.jobs[issue.job], issue.payer);
  }

  lemma IssueForOk(cfg: Config, s: State, id: nat, stamp: Stamp, at: int)
    requires ReceiptInv(cfg, s) && id in s.jobs && ResultOf(s.jobs[id].phase).Some? && StampOk(stamp)
    requires Storable(cfg, IssueFor(cfg, id, s.jobs[id], stamp, at))
    ensures IssueOk(cfg, s, IssueFor(cfg, id, s.jobs[id], stamp, at))
  {
    assert JobReceipted(s.log, id, s.jobs[id]);
  }

  lemma NextIssues(cfg: Config, s: State, e: Event)
    requires ReceiptInv(cfg, s)
    ensures var s' := Next(cfg, s, e); forall i :: 0 <= i < |s'.log.issued| ==> IssueOk(cfg, s', s'.log.issued[i])
  {
    var s' := Next(cfg, s, e);
    NextExtends(cfg, s, e);
    forall i | 0 <= i < |s.log.issued| ensures IssueOk(cfg, s', s.log.issued[i]) {
      IssueStays(cfg, s, s', s.log.issued[i]);
    }
    if Enabled(cfg, s, e) && e.Finish? {
      FinishIssues(cfg, s, e.id, e.stamp, e.at, e.ok);
      var issue := IssueFor(cfg, e.id, s.jobs[e.id], e.stamp, e.at);
      if e.ok && Storable(cfg, issue) {
        IssueForOk(cfg, s, e.id, e.stamp, e.at);
        IssueStays(cfg, s, s', issue);
      }
    } else if !e.Finish? {
      NothingIssued(cfg, s, e);
    }
  }

  lemma FinishedReceipted(cfg: Config, s: State, id: nat, stamp: Stamp, at: int, ok: bool)
    requires ReceiptInv(cfg, s) && id in s.jobs && ResultOf(s.jobs[id].phase).Some?
    ensures var s' := IssueAndFinish(cfg, s, id, stamp, at, ok); id in s'.jobs && JobReceipted(s'.log, id, s'.jobs[id])
  {
    FinishFrame(cfg, s, id, stamp, at, ok);
    FinishIssues(cfg, s, id, stamp, at, ok);
    assert JobReceipted(s.log, id, s.jobs[id]);
  }

  predicate KeepsPhase(e: Event) { e.Verifier? || e.Deliver? || e.Timeout? }

  lemma KeptReceipted(cfg: Config, s: State, e: Event)
    requires Enabled(cfg, s, e) && KeepsPhase(e) && JobReceipted(s.log, e.id, s.jobs[e.id])
    ensures var s' := Next(cfg, s, e); e.id in s'.jobs && JobReceipted(s'.log, e.id, s'.jobs[e.id])
  {
  }

  lemma BegunReceipted(cfg: Config, s: State, e: Event)
    requires Enabled(cfg, s, e) && e.Begin? && JobReceipted(s.log, e.id, s.jobs[e.id])
    ensures var s' := Next(cfg, s, e); e.id in s'.jobs && JobReceipted(s'.log, e.id, s'.jobs[e.id])
  {
  }

  lemma MovedReceipted(cfg: Config, s: State, e: Event)
    requires Enabled(cfg, s, e) && (e.Arrive? || e.Reply? || e.GiveUp? || e.Generate?)
    requires e.Arrive? || JobReceipted(s.log, e.id, s.jobs[e.id])
    ensures var s' := Next(cfg, s, e); e.id in s'.jobs && JobReceipted(s'.log, e.id, s'.jobs[e.id])
  {
  }

  lemma NextJobsReceipted(cfg: Config, s: State, e: Event)
    requires ReceiptInv(cfg, s)
    ensures forall id :: id in Next(cfg, s, e).jobs ==> JobReceipted(Next(cfg, s, e).log, id, Next(cfg, s, e).jobs[id])
  {
    var s' := Next(cfg, s, e);
    if Enabled(cfg, s, e) {
      NextLogExtends(cfg, s, e);
      forall id | id in s'.jobs ensures JobReceipted(s'.log, id, s'.jobs[id]) {
        if Subject(e) != Some(id) {
          OthersUntouched(cfg, s, e, id);
          JobStays(s.log, s'.log, id, s.jobs[id]);
        } else if e.Finish? {
          FinishedReceipted(cfg, s, e.id, e.stamp, e.at, e.ok);
        } else if KeepsPhase(e) {
          KeptReceipted(cfg, s, e);
        } else if e.Begin? {
          BegunReceipted(cfg, s, e);
        } else {
          MovedReceipted(cfg, s, e);
        }
      }
    }
  }

  lemma NextResponsesReceipted(cfg: Config, s: State, e: Event)
    requires ReceiptInv(cfg, s)
    ensures var s' := Next(cfg, s, e); forall i :: 0 <= i < |s'.responses| ==> ResponseReceipted(s'.log, s'.responses[i])
  {
    var s' := Next(cfg, s, e);
    NextLogExtends(cfg, s, e);
    NewResponse(cfg, s, e);
    forall i | 0 <= i < |s'.responses| ensures ResponseReceipted(s'.log, s'.responses[i]) {
      if i < |s.responses| {
        assert ResponseReceipted(s.log, s.responses[i]);
      } else {
        assert JobReceipted(s.log, e.id, s.jobs[e.id]);
      }
    }
  }

  lemma {:induction false} RunReceiptInv(cfg: Config, start: State, es: seq<Event>)
    requires ReceiptInv(cfg, start)
    ensures ReceiptInv(cfg, Run(cfg, start, es))
  {
    if es != [] {
      var s, e := Run(cfg, start, es[..|es| - 1]), es[|es| - 1];
      RunReceiptInv(cfg, start, es[..|es| - 1]);
      NextStoreInv(cfg, s, e);
      NextStored(cfg, s, e);
      NextIssues(cfg, s, e);
      NextJobsReceipted(cfg, s, e);
      NextResponsesReceipted(cfg, s, e);
    }
  }

  // ---------------------------------------------------------------- every 200 has its receipt

  function HashText(cfg: Config, data: Text): Text {
    R.Lit("sha256:") + if data == [] then R.EMPTY_SHA else cfg.crypto.sha(data)
  }

  /** What a receipt says: who paid whom what for which exchange. */
  ghost predicate Says(cfg: Config, log: Log, job: Job, body: Text, r: R.Receipt) {
    && job.slot.Some? && job.slot.value < |log.verdicts| && log.verdicts[job.slot.value] == RG.Valid(r.payment.payer)
    && r.payment.recipient == cfg.recipient && r.payment.amount == cfg.amount && r.payment.chainId == cfg.chainId
    && r.payment.token == R.Lit("USDC") && r.payment.nonce == job.req.nonce
    && r.service.endpoint == R.Lit("/api/ai/summarize")
    && r.service.requestHash == HashText(cfg, Raw(job.req.body))
    && r.service.responseHash == HashText(cfg, ResponseBody(body))
    && r.version == R.Lit("1.0")
  }

  lemma IssueSays(cfg: Config, s: State, issue: Issue)
    requires IssueOk(cfg, s, issue)
    ensures Says(cfg, s.log, s.jobs[issue.job], issue.result, issue.receipt.receipt)
    ensures issue.receipt.receipt.timestamp == issue.stamp.now && IdOf(issue) == R.ReceiptId(issue.stamp.random)
    ensures issue.receipt.serverPublicKey == cfg.publicKey
    ensures issue.receipt.signature == cfg.sign(cfg.crypto.keccak(R.Serialize(Marshal, issue.receipt.receipt)))
  {
  }

  lemma ResponseCovered(cfg: Config, clock: int, es: seq<Event>, i: nat)
    requires i < |Run(cfg, Init(cfg, clock), es).responses| && Run(cfg, Init(cfg, clock), es).responses[i].status == 200
    ensures var s := Run(cfg, Init(cfg, clock), es);
            var r := s.responses[i];
            Covers(s.log, r.issue, r.job, r.body) && IssueOk(cfg, s, s.log.issued[r.issue.value])
  {
    RunReceiptInv(cfg, Init(cfg, clock), es);
    var s := Run(cfg, Init(cfg, clock), es);
    assert ResponseReceipted(s.log, s.responses[i]);
  }

  /**
   In every run, every 200 carries a receipt of its own that passes `validateReceipt` and says who
   paid: the address the verifier recovered for that request, for the configured price and the
   request's nonce, with the hashes of the request's body and of the body of that response.
   */
  lemma ReceiptPerResponse(cfg: Config, clock: int, es: seq<Event>, i: nat)
    requires i < |Run(cfg, Init(cfg, clock), es).responses| && Run(cfg, Init(cfg, clock), es).responses[i].status == 200
    ensures var s := Run(cfg, Init(cfg, clock), es);
            var r := s.responses[i];
            && Covers(s.log, r.issue, r.job, r.body) && r.job in s.jobs
            && var issue := s.log.issued[r.issue.value];
            && IssueOk(cfg, s, issue) && R.ValidateReceipt(Some(issue.receipt)).None?
            && Says(cfg, s.log, s.jobs[r.job], r.body, issue.receipt.receipt)
            && (forall j :: 0 <= j < |s.responses| && j != i && s.responses[j].status == 200 ==>
                  s.responses[j].issue != r.issue)
  {
    var s := Run(cfg, Init(cfg, clock), es);
    ResponseCovered(cfg, clock, es, i);
    RunPayInv(cfg, clock, es);
    IssueSays(cfg, s, s.log.issued[s.responses[i].issue.value]);
    forall j | 0 <= j < |s.responses| && j != i && s.responses[j].status == 200
      ensures s.responses[j].issue != s.responses[i].issue
    {
      ResponseCovered(cfg, clock, es, j);
    }
  }

  /** What the deployment provides: addresses, a key pair, hashes in hex, and a positive retention. */
  ghost predicate ConfigOk(cfg: Config) {
    && cfg.recipient != [] && cfg.amount != [] && 0 < cfg.chainId <= R.MAX_SAFE && cfg.receiptTtl > 0
    && R.HexHash(cfg.crypto)
    && R.HEX_PREFIX <= cfg.publicKey && WellFormed(cfg.publicKey)
    && forall d :: R.HEX_PREFIX <= cfg.sign(d) && WellFormed(cfg.sign(d))
  }

  lemma MadeHasShape(cfg: Config, log: Log, job: Job, payer: Text, stamp: Stamp, result: Text)
    requires ConfigOk(cfg) && PayerOk(log, job, payer) && StampOk(stamp)
    ensures var sr := MakeReceipt(cfg, job.req, payer, stamp, result);
            R.ValidateReceipt(Some(sr)).None? && R.ValidateReceiptFormat(R.ReadSigned(sr))
  {
    var p, body := PaymentOf(cfg, job.req), ResponseBody(result);
    var r := R.GenerateReceipt(cfg.crypto, stamp.random, stamp.now, p, payer, R.ROUTE, Raw(job.req.body), body);
    var signature := cfg.sign(cfg.crypto.keccak(R.Serialize(Marshal, r)));
    assert |USDC| == 4;
    R.GeneratedHasShape(cfg.crypto, stamp.random, stamp.now, p, payer, R.ROUTE, Raw(job.req.body), body,
                        signature, cfg.publicKey);
  }

  /** A handler that holds a result never fails its receipt check: it completes with 200 unless an effect fails. */
  lemma PaidIsServed(cfg: Config, clock: int, es: seq<Event>, id: nat, stamp: Stamp, at: int)
    requires ConfigOk(cfg) && Enabled(cfg, Run(cfg, Init(cfg, clock), es), Finish(id, stamp, at, true))
    ensures var s := Run(cfg, Init(cfg, clock), es);
            var s' := Next(cfg, s, Finish(id, stamp, at, true));
            id in s'.jobs && s'.jobs[id].phase == Done(200, ResultOf(s.jobs[id].phase).value, Some(|s.log.issued|))
  {
    RunReceiptInv(cfg, Init(cfg, clock), es);
    var s := Run(cfg, Init(cfg, clock), es);
    var job := s.jobs[id];
    assert JobReceipted(s.log, id, job);
    MadeHasShape(cfg, s.log, job, job.phase.payer, stamp, ResultOf(job.phase).value);
    FinishIssues(cfg, s, id, stamp, at, true);
    FinishFrame(cfg, s, id, stamp, at, true);
  }

  // ---------------------------------------------------------------- looking it up

  predicate OfGet(e: Event, g: nat) { e.StoreEvent? && RS.OfGet(e.event, g) }

  lemma NextLookup(cfg: Config, s: State, e: Event, g: nat)
    requires g in s.receipts.gets && !OfGet(e, g)
    ensures g in Next(cfg, s, e).receipts.gets && Next(cfg, s, e).receipts.gets[g] == s.receipts.gets[g]
  {
    if Enabled(cfg, s, e) && e.Finish? {
      FinishIssues(cfg, s, e.id, e.stamp, e.at, e.ok);
    } else if !e.Finish? {
      NothingIssued(cfg, s, e);
    }
  }

  lemma {:induction false} LookupPending(cfg: Config, s: State, g: nat, es: seq<Event>)
    requires RS.Inv(s.receipts) && g in s.receipts.gets && forall e :: e in es ==> !OfGet(e, g)
    ensures var last := Run(cfg, s, es).receipts; RS.Inv(last) && g in last.gets && last.gets[g] == s.receipts.gets[g]
  {
    if es != [] {
      var n := |es| - 1;
      LookupPending(cfg, s, g, es[..n]);
      assert es[n] in es;
      NextStoreInv(cfg, Run(cfg, s, es[..n]), es[n]);
      NextLookup(cfg, Run(cfg, s, es[..n]), es[n], g);
    }
  }

  lemma ReadBegins(cfg: Config, s: State, g: nat, id: Text)
    requires RS.Inv(s.receipts) && g !in s.receipts.gets
    ensures var read := Next(cfg, s, StoreEvent(RS.GetRead(g, id))).receipts;
            RS.Inv(read) && g in read.gets && read.gets[g].Decide? && read.gets[g].ideal == RS.Find(s.receipts.ideal, id)
  {
    NothingIssued(cfg, s, StoreEvent(RS.GetRead(g, id)));
    RS.NextInv(s.receipts, RS.GetRead(g, id));
  }

  lemma DecisionAnswers(s: RS.State, g: nat, entry: RS.Entry, now: int)
    requires RS.Inv(s) && g in s.gets && s.gets[g].Decide? && s.gets[g].ideal == Some(entry)
    requires s.clock <= now
    ensures RS.Next(s, RS.GetDecide(g, now)).outcomes
         == s.outcomes + [RS.Outcome(Some(entry), now, if now <= entry.expiresAt then Some(entry.receipt) else None)]
  {
    assert RS.Agrees(s.gets[g].entry, s.gets[g].ideal, s.clock);
  }

  /**
   The receipt of a 200 can be looked up exactly until it expires, which is the retention after it
   was stored: a lookup begun after any run `es` and decided after any further run `more` answers
   with it until then and with nothing later, if no later receipt drew the same id.
   */
  lemma ReceiptIsRetrievable(cfg: Config, clock: int, es: seq<Event>, n: nat, g: nat, more: seq<Event>, now: int)
    requires n < |Run(cfg, Init(cfg, clock), es).log.issued| && LastOfId(Run(cfg, Init(cfg, clock), es).log.issued, n)
    requires g !in Run(cfg, Init(cfg, clock), es).receipts.gets && forall e :: e in more ==> !OfGet(e, g)
    requires var s := Run(cfg, Init(cfg, clock), es);
             var read := Next(cfg, s, StoreEvent(RS.GetRead(g, IdOf(s.log.issued[n]))));
             Run(cfg, read, more).receipts.clock <= now
    ensures var s := Run(cfg, Init(cfg, clock), es);
            var issue := s.log.issued[n];
            var end := Run(cfg, Next(cfg, s, StoreEvent(RS.GetRead(g, IdOf(issue)))), more);
            Next(cfg, end, StoreEvent(RS.GetDecide(g, now))).receipts.outcomes
            == end.receipts.outcomes + [RS.Outcome(Some(EntryOf(issue)), now,
                                                   if now <= issue.expiresAt then Some(issue.receipt) else None)]
  {
    RunReceiptInv(cfg, Init(cfg, clock), es);
    var s := Run(cfg, Init(cfg, clock), es);
    var issue := s.log.issued[n];
    ReadBegins(cfg, s, g, IdOf(issue));
    var read := Next(cfg, s, StoreEvent(RS.GetRead(g, IdOf(issue))));
    LookupPending(cfg, read, g, more);
    NothingIssued(cfg, Run(cfg, read, more), StoreEvent(RS.GetDecide(g, now)));
    DecisionAnswers(Run(cfg, read, more).receipts, g, EntryOf(issue), now);
  }

  // ---------------------------------------------------------------- what the client makes of it

  /** The gateway signs with `key`, which its public-key text names. */
  ghost predicate SignsWith(cfg: Config, key: Text) {
    cfg.crypto.normalize(cfg.publicKey) == Some(key) && forall d :: cfg.crypto.recover(d, cfg.sign(d)) == Some(key)
  }

  /**
   The SDK's decision on the receipt of every 200 of every run, presented with any path, request body
   and response text: a mismatch exactly unless the path is the route itself and both texts hash like
   those of that 200; then verified exactly if it is plain and valid UTF-8.
   */
  lemma ClientDecides(cfg: Config, clock: int, es: seq<Event>, i: nat, key: Text, path: Text, body: Option<Text>,
                      text: Text, trusted: Option<Text>)
    requires i < |Run(cfg, Init(cfg, clock), es).responses| && Run(cfg, Init(cfg, clock), es).responses[i].status == 200
    requires ConfigOk(cfg) && SignsWith(cfg, key)
    requires trusted.Some? ==> R.NormalizePublicKey(cfg.crypto, trusted) == Some(key)
    requires forall issue :: issue in Run(cfg, Init(cfg, clock), es).log.issued ==> R.Binding(cfg.crypto, key, issue.receipt)
    ensures var s := Run(cfg, Init(cfg, clock), es);
            var r := s.responses[i];
            && Covers(s.log, r.issue, r.job, r.body) && r.job in s.jobs
            && var sr, sha := s.log.issued[r.issue.value].receipt, cfg.crypto.sha;
               var same := && R.BuildReceiptEndpoint(path) == R.ROUTE
                           && sha(R.BodyText(body)) == sha(Raw(s.jobs[r.job].req.body))
                           && sha(text) == sha(ResponseBody(r.body));
               R.ReadSuccess(cfg.crypto, true, Some(R.HeaderText(sr)), path, body, text, trusted)
               == R.Expected(same, trusted, sr.receipt)
  {
    ReceiptPerResponse(cfg, clock, es, i);
    var s := Run(cfg, Init(cfg, clock), es);
    var r := s.responses[i];
    var issue := s.log.issued[r.issue.value];
    MadeHasShape(cfg, s.log, s.jobs[r.job], issue.payer, issue.stamp, issue.result);
    assert issue in s.log.issued;
    R.IssuedIsAccepted(cfg.crypto, key, issue.receipt, path, body, text, trusted,
                       Raw(s.jobs[r.job].req.body), ResponseBody(r.body));
  }
}
