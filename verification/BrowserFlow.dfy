/**
 The browser flow of web/src/hooks/use-x402.ts.  Each `submit` is an asynchronous run that is
 suspended at its awaits; runs overlap, and a run may only touch the visible state while its id
 is the current one.
 */
module BrowserFlow {
  import opened Wrappers

  datatype Step = Idle | Request | Challenge | Sign | Verify | Ai | Receipt | Complete

  function Rank(s: Step): nat {
    match s
    case Idle => 0 case Request => 1 case Challenge => 2 case Sign => 3
    case Verify => 4 case Ai => 5 case Receipt => 6 case Complete => 7
  }

  /** The React state. */
  datatype View = View(step: Step, summary: Option<string>, receipt: Option<string>, error: Option<string>, isRunning: bool)

  const INITIAL_VIEW := View(Idle, None, None, None, false)

  /** The partial states passed to `update`. */
  datatype Patch =
    | Start
    | ToStep(step: Step)
    | Finish(summary: string, receipt: Option<string>)
    | Fail(error: string)
    | FailAtAi(error: string)

  function Apply(v: View, p: Patch): View {
    match p
    case Start => View(Request, None, None, None, true)
    case ToStep(s) => v.(step := s)
    case Finish(summary, receipt) => v.(step := Complete, summary := Some(summary), receipt := receipt, isRunning := false)
    case Fail(e) => v.(error := Some(e), isRunning := false)
    case FailAtAi(e) => v.(step := Ai, error := Some(e), isRunning := false)
  }

  /** Where a run is suspended: the await it is at. */
  datatype Phase =
    | First              // postSummarize, unsigned
    | FirstBody          // readSummarizeSuccess after a 200
    | FirstErrorText     // safeText
    | ChallengeBody      // readPaymentChallenge after a 402
    | Account            // getCurrentAccount
    | Connect            // connectWallet
    | ChainId            // getCurrentChainId
    | Switch             // switchOrAddChain
    | PostSwitch         // getCurrentChainId, checked again
    | Signer             // getSigner
    | Signature          // signPaymentContext
    | LiveAccount        // getCurrentAccount, for analytics
    | Retry(timer: bool) // postSummarize, signed; is the 700 ms timer still pending?
    | RetryErrorText
    | RetryBody
    | Ended

  /** How an await settles. */
  datatype Outcome =
    | Threw(error: string)
    | Http(status: int)
    | Success(summary: string, receipt: Option<string>)
    | Classified(error: string, aiSide: bool)
    | ChallengeRead(wallet: bool)
    | HasAccount(present: bool)
    | OnChain(expected: bool)
    | Settled

  /** Resuming a run: its next await, and the update it makes on the way; None if it cannot settle so. */
  function Resume(p: Phase, o: Outcome): Option<(Phase, Option<Patch>)> {
    if p.Ended? then None
    else if o.Threw? then
      if p.FirstErrorText? || p.RetryErrorText? then None else Some((Ended, Some(Fail(o.error))))
    else match (p, o)
      case (First, Http(status)) =>
        if status == 200 then Some((FirstBody, Some(ToStep(Receipt))))
        else if status == 402 then Some((ChallengeBody, Some(ToStep(Challenge))))
        else Some((FirstErrorText, None))
      case (FirstBody, Success(summary, receipt)) => Some((Ended, Some(Finish(summary, receipt))))
      case (FirstErrorText, Classified(e, _)) => Some((Ended, Some(Fail(e))))
      case (ChallengeBody, ChallengeRead(wallet)) =>
        if wallet then Some((Account, None)) else Some((Ended, Some(Fail("No crypto wallet found"))))
      case (Account, HasAccount(present)) => Some((if present then ChainId else Connect, None))
      case (Connect, Settled) => Some((ChainId, None))
      case (ChainId, OnChain(expected)) => Some((if expected then Signer else Switch, None))
      case (Switch, Settled) => Some((PostSwitch, None))
      case (PostSwitch, OnChain(expected)) =>
        if expected then Some((Signer, None)) else Some((Ended, Some(Fail("Wallet did not switch"))))
      case (Signer, Settled) => Some((Signature, Some(ToStep(Sign))))
      case (Signature, Settled) => Some((LiveAccount, None))
      case (LiveAccount, HasAccount(_)) => Some((Retry(true), Some(ToStep(Verify))))
      case (Retry(_), Http(status)) =>
        if 200 <= status < 300 then Some((RetryBody, Some(ToStep(Receipt)))) else Some((RetryErrorText, None))
      case (RetryErrorText, Classified(e, aiSide)) => Some((Ended, Some(if aiSide then FailAtAi(e) else Fail(e))))
      case (RetryBody, Success(summary, receipt)) => Some((Ended, Some(Finish(summary, receipt))))
      case _ => None
  }

  datatype Event =
    | Submit(blank: bool)
    | Reset
    | Await(run: nat, outcome: Outcome)
    | Timer(run: nat)

  predicate IsControl(e: Event) { e.Reset? || (e.Submit? && !e.blank) }

  /** What an asynchronous event does to the phase of its run, if anything. */
  function React(p: Phase, e: Event): Option<(Phase, Option<Patch>)> {
    match e
    case Await(_, o) => Resume(p, o)
    case Timer(_) => if p == Retry(true) then Some((Retry(false), Some(ToStep(Ai)))) else None
    case _ => None
  }

  datatype State = State(runId: nat, runs: map<nat, Phase>, view: View)

  const INIT := State(0, map[], INITIAL_VIEW)

  /** `update`: a run that is not the current one changes nothing. */
  function Update(s: State, run: nat, p: Option<Patch>): View {
    if p.Some? && s.runId == run then Apply(s.view, p.value) else s.view
  }

  function Next(s: State, e: Event): State {
    match e
    case Submit(blank) =>
      if blank then s else State(s.runId + 1, s.runs[s.runId + 1 := First], Apply(s.view, Start))
    case Reset => State(s.runId + 1, s.runs, INITIAL_VIEW)
    case _ =>
      var r := if e.run in s.runs then React(s.runs[e.run], e) else None;
      if r.None? then s else State(s.runId, s.runs[e.run := r.value.0], Update(s, e.run, r.value.1))
  }

  function Play(es: seq<Event>): State {
    if es == [] then INIT else Next(Play(es[..|es| - 1]), es[|es| - 1])
  }

  // ---------------------------------------------------------------- isolation

  /** One run by itself, with nothing else on the page. */
  datatype Solo = Solo(phase: Phase, view: View)

  function SoloNext(s: Solo, e: Event): Solo {
    var r := React(s.phase, e);
    if r.None? then s else Solo(r.value.0, if r.value.1.Some? then Apply(s.view, r.value.1.value) else s.view)
  }

  function Alone(es: seq<Event>): Solo {
    if es == [] then Solo(First, Apply(INITIAL_VIEW, Start)) else SoloNext(Alone(es[..|es| - 1]), es[|es| - 1])
  }

  predicate IsAsync(e: Event) { e.Await? || e.Timer? }

  /** Does `e` belong to run k, and does the run exist by then? */
  predicate Belongs(e: Event, k: nat, issued: nat) { IsAsync(e) && e.run == k && k <= issued }

  /** The asynchronous events of run k, from the moment it exists. */
  function Own(es: seq<Event>, k: nat): seq<Event> {
    if es == [] then []
    else
      var init, e := es[..|es| - 1], es[|es| - 1];
      if Belongs(e, k, Play(init).runId) then Own(init, k) + [e] else Own(init, k)
  }

  lemma {:induction false} NotYet(es: seq<Event>, k: nat)
    requires k > Play(es).runId
    ensures Own(es, k) == []
  {
    if es != [] { NotYet(es[..|es| - 1], k); }
  }

  lemma {:induction false} IdsIssued(es: seq<Event>)
    ensures forall k :: k in Play(es).runs ==> 0 < k <= Play(es).runId
  {
    if es != [] { IdsIssued(es[..|es| - 1]); }
  }

  lemma AloneSnoc(es: seq<Event>, e: Event)
    ensures Alone(es + [e]) == SoloNext(Alone(es), e)
  {
  }

  /**
   For every interleaving of submits, resets, completions and timers, the visible state is that
   of the current run playing alone on a fresh page, or the initial one after a reset.
   */
  lemma {:induction false} VisibleIsCurrentRunAlone(es: seq<Event>)
    ensures var s := Play(es);
            if s.runId in s.runs then Alone(Own(es, s.runId)) == Solo(s.runs[s.runId], s.view)
            else s.view == INITIAL_VIEW
  {
    if es != [] {
      var init, e := es[..|es| - 1], es[|es| - 1];
      var s := Play(init);
      VisibleIsCurrentRunAlone(init);
      IdsIssued(init);
      if IsControl(e) {
        NotYet(init, s.runId + 1);
      } else if Belongs(e, s.runId, s.runId) {
        AloneSnoc(Own(init, s.runId), e);
      } else {
        assert Play(es).runId == s.runId && Play(es).view == s.view;
      }
    }
  }

  /** `es` without the asynchronous events of every run but k. */
  function OnlyRun(es: seq<Event>, k: nat): seq<Event> {
    if es == [] then []
    else
      var init, e := es[..|es| - 1], es[|es| - 1];
      if IsAsync(e) && e.run != k then OnlyRun(init, k) else OnlyRun(init, k) + [e]
  }

  lemma PlaySnoc(es: seq<Event>, e: Event, k: nat)
    ensures Play(es + [e]) == Next(Play(es), e)
    ensures Own(es + [e], k) == if Belongs(e, k, Play(es).runId) then Own(es, k) + [e] else Own(es, k)
  {
  }

  lemma NextControls(s: State, t: State, e: Event)
    requires s.runId == t.runId && s.runs.Keys == t.runs.Keys
    ensures Next(s, e).runId == Next(t, e).runId && Next(s, e).runs.Keys == Next(t, e).runs.Keys
    ensures IsAsync(e) ==> Next(s, e).runId == s.runId && Next(s, e).runs.Keys == s.runs.Keys
  {
  }

  lemma {:induction false} SameControls(es: seq<Event>, k: nat)
    ensures Play(OnlyRun(es, k)).runId == Play(es).runId
    ensures Play(OnlyRun(es, k)).runs.Keys == Play(es).runs.Keys
    ensures Own(OnlyRun(es, k), k) == Own(es, k)
  {
    if es != [] {
      var init, e := es[..|es| - 1], es[|es| - 1];
      SameControls(init, k);
      NextControls(Play(init), Play(OnlyRun(init, k)), e);
      PlaySnoc(OnlyRun(init, k), e, k);
    }
  }

  /** Deleting all events of superseded runs leaves the visible state unchanged. */
  lemma SupersededRunsInvisible(es: seq<Event>)
    ensures Play(OnlyRun(es, Play(es).runId)).view == Play(es).view
  {
    var k := Play(es).runId;
    SameControls(es, k);
    VisibleIsCurrentRunAlone(es);
    VisibleIsCurrentRunAlone(OnlyRun(es, k));
  }

  // ---------------------------------------------------------------- progress

  /** The step shown while the current run is at a given await. */
  ghost predicate Fits(p: Phase, step: Step) {
    match p
    case First => step == Request
    case FirstErrorText => step == Request
    case FirstBody => step == Receipt
    case Signature => step == Sign
    case LiveAccount => step == Sign
    case Retry(timer) => step == if timer then Verify else Ai
    case RetryErrorText => step == Verify || step == Ai
    case RetryBody => step == Receipt
    case Ended => true
    case _ => step == Challenge
  }

  ghost predicate ViewOk(s: State) {
    if s.runId in s.runs then Fits(s.runs[s.runId], s.view.step) && (s.view.isRunning <==> !s.runs[s.runId].Ended?)
    else s.view == INITIAL_VIEW
  }

  lemma NextViewOk(s: State, e: Event)
    requires ViewOk(s) && (forall k :: k in s.runs ==> k <= s.runId)
    ensures ViewOk(Next(s, e))
    ensures !IsControl(e) ==> Rank(s.view.step) <= Rank(Next(s, e).view.step)
    ensures !IsControl(e) && !s.view.isRunning ==> Next(s, e).view == s.view
  {
    if !e.Submit? && !e.Reset? && e.run in s.runs && React(s.runs[e.run], e).Some? {
      if e.Await? { ResumeFits(s.runs[e.run], e.outcome, s.view); }
    }
  }

  lemma ResumeFits(p: Phase, o: Outcome, v: View)
    requires Resume(p, o).Some?
    ensures Fits(p, v.step) && v.isRunning ==>
              var (p', patch) := Resume(p, o).value;
              var v' := if patch.Some? then Apply(v, patch.value) else v;
              Fits(p', v'.step) && (v'.isRunning <==> !p'.Ended?) && Rank(v.step) <= Rank(v'.step)
  {
  }

  lemma {:induction false} PlayViewOk(es: seq<Event>)
    ensures ViewOk(Play(es))
  {
    if es != [] {
      PlayViewOk(es[..|es| - 1]);
      IdsIssued(es[..|es| - 1]);
      NextViewOk(Play(es[..|es| - 1]), es[|es| - 1]);
    }
  }

  /**
   Until the next submit or reset the step never moves backwards, whatever older runs do; and
   once the run has ended the view is final.
   */
  lemma {:induction false} StepNeverMovesBack(es: seq<Event>, more: seq<Event>)
    requires forall e :: e in more ==> !IsControl(e)
    ensures Rank(Play(es).view.step) <= Rank(Play(es + more).view.step)
    ensures !Play(es).view.isRunning ==> Play(es + more).view == Play(es).view
    decreases |more|
  {
    if more == [] {
      assert es + more == es;
    } else {
      var init, e := more[..|more| - 1], more[|more| - 1];
      assert e in more;
      StepNeverMovesBack(es, init);
      PlayViewOk(es + init);
      IdsIssued(es + init);
      NextViewOk(Play(es + init), e);
      assert (es + more)[..|es + more| - 1] == es + init;
    }
  }

  // ---------------------------------------------------------------- what a run shows, and why

  /** What went wrong, and whether on the AI side of a signed retry. */
  datatype Failure = Failure(error: string, atAi: bool)

  /** What a run has been told: the two HTTP statuses, the last chain seen, a signature, and how it ended. */
  datatype History = History(first: Option<int>, retry: Option<int>, onChain: bool, signed: bool,
                             success: Option<(string, Option<string>)>, failure: Option<Failure>)

  const UNTOLD := History(None, None, false, false, None, None)

  function Note(h: History, p: Phase, e: Event): History {
    if !e.Await? then h
    else match e.outcome
         case Http(status) => if p.First? then h.(first := Some(status)) else h.(retry := Some(status))
         case OnChain(expected) =>
           var stuck := p.PostSwitch? && !expected;
           h.(onChain := expected, failure := if stuck then Some(Failure("Wallet did not switch", false)) else h.failure)
         case ChallengeRead(wallet) =>
           if wallet then h else h.(failure := Some(Failure("No crypto wallet found", false)))
         case Threw(error) => h.(failure := Some(Failure(error, false)))
         case Classified(error, aiSide) => h.(failure := Some(Failure(error, p.RetryErrorText? && aiSide)))
         case Success(summary, receipt) => h.(success := Some((summary, receipt)))
         case Settled => h.(signed := h.signed || p.Signature?)
         case _ => h
  }

  /** Only what resumes the run counts. */
  function Told(es: seq<Event>): History {
    if es == [] then UNTOLD
    else
      var init, e := es[..|es| - 1], es[|es| - 1];
      if React(Alone(init).phase, e).Some? then Note(Told(init), Alone(init).phase, e) else Told(init)
  }

  predicate Ok2xx(status: Option<int>) { status.Some? && 200 <= status.value < 300 }

  /** The run was challenged, is on the chain it was asked for and, once `signed`, has signed. */
  ghost predicate Paying(h: History, signed: bool) {
    h.first == Some(402) && h.onChain && h.signed == signed
  }

  /** What a run must have been told to be at a given await. */
  ghost predicate Earned(p: Phase, h: History) {
    match p
    case First => h == UNTOLD
    case FirstBody => h == UNTOLD.(first := Some(200))
    case FirstErrorText => h.first.Some? && h.first.value != 200 && h.first.value != 402
    case Signer => Paying(h, false) && h.retry.None?
    case Signature => Paying(h, false) && h.retry.None?
    case LiveAccount => Paying(h, true) && h.retry.None?
    case Retry(_) => Paying(h, true) && h.retry.None?
    case RetryErrorText => Paying(h, true) && h.retry.Some? && !Ok2xx(h.retry)
    case RetryBody => Paying(h, true) && Ok2xx(h.retry)
    case Ended => true
    case _ => h == UNTOLD.(first := Some(402), onChain := h.onChain)
  }

  /** What a run shows: a summary exactly when one was read from a successful response, and nothing else then. */
  ghost predicate Shows(s: Solo, h: History) {
    if h.success.Some? then
      && s.phase.Ended? && s.view == View(Complete, Some(h.success.value.0), h.success.value.1, None, false)
      && (h.first == Some(200) || (h.first == Some(402) && h.onChain && h.signed && Ok2xx(h.retry)))
    else
      && s.view.summary.None? && s.view.receipt.None? && (s.phase.Ended? <==> h.failure.Some?)
      && s.view.error == (if h.failure.Some? then Some(h.failure.value.error) else None)
      && (h.failure.Some? && h.failure.value.atAi ==> s.view.step == Ai)
  }

  lemma ResumeEarned(p: Phase, o: Outcome, run: nat, h: History)
    requires Resume(p, o).Some? && Earned(p, h)
    ensures Earned(Resume(p, o).value.0, Note(h, p, Await(run, o)))
  {
    if o.Http? || o.OnChain? {
    } else {
    }
  }

  lemma ResumeShows(s: Solo, o: Outcome, run: nat, h: History)
    requires Resume(s.phase, o).Some? && Earned(s.phase, h) && Shows(s, h)
    requires s.view.isRunning || s.phase.Ended?
    ensures Shows(SoloNext(s, Await(run, o)), Note(h, s.phase, Await(run, o)))
    ensures SoloNext(s, Await(run, o)).view.isRunning || SoloNext(s, Await(run, o)).phase.Ended?
  {
  }

  /**
   Whatever happens to a run, it asks for a signature only on the chain of its challenge, retries
   only once signed, and shows a summary exactly when it has read one from a 200, or from a 2xx to
   its signed retry; otherwise, once ended, the error it ran into.
   */
  lemma {:induction false} RunIsEarned(es: seq<Event>)
    ensures Earned(Alone(es).phase, Told(es)) && Shows(Alone(es), Told(es))
    ensures Alone(es).view.isRunning || Alone(es).phase.Ended?
  {
    if es != [] {
      var init, e := es[..|es| - 1], es[|es| - 1];
      RunIsEarned(init);
      if e.Await? && Resume(Alone(init).phase, e.outcome).Some? {
        ResumeEarned(Alone(init).phase, e.outcome, e.run, Told(init));
        ResumeShows(Alone(init), e.outcome, e.run, Told(init));
      }
    }
  }

  /** What the page shows is what the current run has earned. */
  lemma ShownIsEarned(es: seq<Event>)
    ensures var s := Play(es);
            s.runId in s.runs ==>
              Earned(s.runs[s.runId], Told(Own(es, s.runId))) && Shows(Solo(s.runs[s.runId], s.view), Told(Own(es, s.runId)))
  {
    VisibleIsCurrentRunAlone(es);
    RunIsEarned(Own(es, Play(es).runId));
  }

  /** How each await of a run settles when all goes well, in order. */
  function SmoothRun(run: nat, summary: string, receipt: Option<string>): seq<Event> {
    [Await(run, Http(402)), Await(run, ChallengeRead(true)), Await(run, HasAccount(true)), Await(run, OnChain(true)),
     Await(run, Settled), Await(run, Settled), Await(run, HasAccount(true)), Await(run, Http(200)),
     Await(run, Success(summary, receipt))]
  }

  lemma AloneAt(es: seq<Event>, n: nat)
    requires n < |es|
    ensures Alone(es[..n + 1]) == SoloNext(Alone(es[..n]), es[n])
  {
    assert es[..n + 1][..n] == es[..n];
  }

  lemma SmoothToSigner(run: nat, summary: string, receipt: Option<string>)
    ensures Alone(SmoothRun(run, summary, receipt)[..4]) == Solo(Signer, View(Challenge, None, None, None, true))
  {
    var es := SmoothRun(run, summary, receipt);
    assert es[..0] == [];
    AloneAt(es, 0);
    AloneAt(es, 1);
    assert Alone(es[..2]) == Solo(Account, View(Challenge, None, None, None, true));
    AloneAt(es, 2);
    AloneAt(es, 3);
  }

  lemma SmoothToSignature(run: nat, summary: string, receipt: Option<string>)
    ensures Alone(SmoothRun(run, summary, receipt)[..5]) == Solo(Signature, View(Sign, None, None, None, true))
  {
    SmoothToSigner(run, summary, receipt);
    AloneAt(SmoothRun(run, summary, receipt), 4);
  }

  lemma SmoothToRetry(run: nat, summary: string, receipt: Option<string>)
    ensures Alone(SmoothRun(run, summary, receipt)[..7]) == Solo(Retry(true), View(Verify, None, None, None, true))
  {
    var es := SmoothRun(run, summary, receipt);
    SmoothToSignature(run, summary, receipt);
    AloneAt(es, 5);
    AloneAt(es, 6);
  }

  /** A run for which everything goes well passes all steps and ends with the summary and its receipt. */
  lemma SmoothRunCompletes(run: nat, summary: string, receipt: Option<string>)
    ensures Alone(SmoothRun(run, summary, receipt)) == Solo(Ended, View(Complete, Some(summary), receipt, None, false))
  {
    var es := SmoothRun(run, summary, receipt);
    SmoothToRetry(run, summary, receipt);
    AloneAt(es, 7);
    AloneAt(es, 8);
    assert es[..9] == es;
  }

  // ---------------------------------------------------------------- the hook

  class X402Flow {
    var runId: nat
    var runs: map<nat, Phase>
    var view: View

    function Snapshot(): State reads this { State(runId, runs, view) }

    constructor ()
      ensures Snapshot() == INIT
    {
      runId, runs, view := 0, map[], INITIAL_VIEW;
    }

    method ResetFlow()
      modifies this
      ensures Snapshot() == Next(old(Snapshot()), Reset)
    {
      runId := runId + 1;
      view := INITIAL_VIEW;
    }

    method SubmitText(blank: bool)
      modifies this
      ensures Snapshot() == Next(old(Snapshot()), Submit(blank))
    {
      if blank {
        return;
      }
      runId := runId + 1;
      var myRun := runId;
      runs := runs[myRun := First];
      ApplyUpdate(myRun, Some(Start));
    }

    /** The closure `update` of run `myRun`. */
    method ApplyUpdate(myRun: nat, patch: Option<Patch>)
      modifies this`view
      ensures view == Update(old(Snapshot()), myRun, patch)
    {
      if runId != myRun {
        return;
      }
      if patch.Some? {
        view := Apply(view, patch.value);
      }
    }

    /** An await of run `e.run` settles, or its timer fires. */
    method Continue(e: Event)
      requires e.Await? || e.Timer?
      modifies this
      ensures Snapshot() == Next(old(Snapshot()), e)
    {
      if e.run in runs {
        var r := React(runs[e.run], e);
        if r.Some? {
          runs := runs[e.run := r.value.0];
          ApplyUpdate(e.run, r.value.1);
        }
      }
    }
  }
}
