/**
 The request-timeout layer of gateway/middleware.go, nested to any depth.

 Every layer puts a buffered writer in front of its own outer writer and races the rest of the
 chain against a deadline.  Layer 0 is the outermost and writes to the client; the handler
 writes to the buffer of the innermost layer.
 */
module TimeoutLayer {

  const OK := 200
  const GATEWAY_TIMEOUT := 504
  const CONTENT_TYPE := "Content-Type"
  const JSON_TYPE := "application/json; charset=utf-8"
  const TIMEOUT_BODY := "{\"error\":\"Gateway Timeout\",\"message\":\"Request exceeded maximum allowed time\"}"

  type Headers = map<string, seq<string>>

  function Values<K, V>(h: map<K, seq<V>>, k: K): seq<V> { if k in h then h[k] else [] }

  /** `Header().Add` of every value of every key. */
  function Merge<K, V>(a: map<K, seq<V>>, b: map<K, seq<V>>): map<K, seq<V>> {
    map k | k in a.Keys + b.Keys :: Values(a, k) + Values(b, k)
  }

  lemma MergeAt<K, V>(a: map<K, seq<V>>, b: map<K, seq<V>>, k: K)
    ensures k in Merge(a, b) <==> k in a || k in b
    ensures Values(Merge(a, b), k) == Values(a, k) + Values(b, k)
  {
  }

  lemma SameHeaders<K, V>(a: map<K, seq<V>>, b: map<K, seq<V>>)
    requires forall k :: (k in a <==> k in b) && Values(a, k) == Values(b, k)
    ensures a == b
  {
  }

  lemma MergeEmpty<K, V>(h: map<K, seq<V>>)
    ensures Merge(map[], h) == h && Merge(h, map[]) == h
  {
    forall k | k in h ensures Merge(map[], h)[k] == h[k] && Merge(h, map[])[k] == h[k] {
      assert [] + h[k] == h[k] && h[k] + [] == h[k];
    }
  }

  /** The fields of `bufferedWriter`. */
  datatype Buffer = Buffer(body: string, head: Headers, status: int, wrote: bool, closed: bool) {
    function Status(): int { if status == 0 then OK else status }
    function Complete(): Response { Response(head, Status(), body) }
  }

  datatype Response = Response(head: Headers, status: int, body: string)

  const FRESH := Buffer("", map[], OK, false, false)

  /** What can be done to a response writer. */
  datatype Op =
    | AddHeaders(head: Headers)
    | SetHeader(key: string, value: string)
    | WriteHeader(status: int)
    | WriteHeaderNow
    | Write(data: string)

  /** A closed buffer ignores the status and the body; its header map stays reachable. */
  function Apply(b: Buffer, op: Op): Buffer {
    match op
    case AddHeaders(h) => b.(head := Merge(b.head, h))
    case SetHeader(k, v) => b.(head := b.head[k := [v]])
    case WriteHeader(s) => if b.closed then b else b.(status := s)
    case WriteHeaderNow => b.(status := b.Status(), wrote := true)
    case Write(data) => if b.closed then b else b.(body := b.body + data, wrote := true)
  }

  function ApplyAll(b: Buffer, ops: seq<Op>): Buffer {
    if ops == [] then b else Apply(ApplyAll(b, ops[..|ops| - 1]), ops[|ops| - 1])
  }

  /** `flushTo`, and the timeout branch, as the writes they make on the outer writer. */
  function ResponseOps(r: Response): seq<Op> { [AddHeaders(r.head), WriteHeader(r.status), Write(r.body)] }

  function FlushOps(b: Buffer): seq<Op> { ResponseOps(b.Complete()) }

  const TIMEOUT_OPS: seq<Op> :=
    [SetHeader(CONTENT_TYPE, JSON_TYPE), WriteHeader(GATEWAY_TIMEOUT), Write(TIMEOUT_BODY)]

  // ---------------------------------------------------------------- the racing layers

  /** Where the goroutine of a layer's middleware is: in the select, writing outward, or returned. */
  datatype Phase = Waiting | Sending(timedOut: bool, count: nat) | Returned(timedOut: bool)

  datatype Layer = Layer(buffer: Buffer, phase: Phase) {
    predicate TimedOut() { !phase.Waiting? && phase.timedOut }

    /** Everything this layer writes outward once its select has chosen. */
    function Outgoing(): seq<Op> { if TimedOut() then TIMEOUT_OPS else FlushOps(buffer) }

    /** What it has written so far. */
    function Emitted(): seq<Op> {
      match phase
      case Waiting => []
      case Sending(_, i) => if i <= 3 then Outgoing()[..i] else Outgoing()
      case Returned(_) => Outgoing()
    }
  }

  datatype State = State(handlerOps: seq<Op>, handlerDone: bool, layers: seq<Layer>, client: seq<Op>)

  function Init(depth: nat): State { State([], false, seq(depth, _ => Layer(FRESH, Waiting)), []) }

  datatype Event =
    | HandlerOp(op: Op)
    | HandlerDone
    | Finished(k: nat)   // the select of layer k takes the `finished` branch
    | Deadline(k: nat)   // ... or the `ctx.Done()` branch, which closes the buffer
    | Emit(k: nat)       // layer k performs its next write on the outer writer
    | Return(k: nat)

  predicate DownstreamDone(s: State, k: nat)
    requires k < |s.layers|
  {
    if k == |s.layers| - 1 then s.handlerDone else s.layers[k + 1].phase.Returned?
  }

  predicate Enabled(s: State, e: Event) {
    match e
    case HandlerOp(_) => !s.handlerDone && |s.layers| > 0
    case HandlerDone => !s.handlerDone
    case Finished(k) => k < |s.layers| && s.layers[k].phase.Waiting? && DownstreamDone(s, k)
    case Deadline(k) => k < |s.layers| && s.layers[k].phase.Waiting?
    case Emit(k) => k < |s.layers| && s.layers[k].phase.Sending? && s.layers[k].phase.count < 3
    case Return(k) => k < |s.layers| && s.layers[k].phase.Sending? && s.layers[k].phase.count == 3
  }

  function SetPhase(s: State, k: nat, p: Phase): State
    requires k < |s.layers|
  {
    s.(layers := s.layers[k := s.layers[k].(phase := p)])
  }

  function WriteTo(s: State, k: nat, op: Op): State
    requires k < |s.layers|
  {
    s.(layers := s.layers[k := s.layers[k].(buffer := Apply(s.layers[k].buffer, op))])
  }

  /** An event that is not enabled does nothing. */
  function Next(s: State, e: Event): (s': State)
    ensures |s'.layers| == |s.layers|
  {
    if !Enabled(s, e) then s
    else match e
         case HandlerOp(op) => WriteTo(s, |s.layers| - 1, op).(handlerOps := s.handlerOps + [op])
         case HandlerDone => s.(handlerDone := true)
         case Finished(k) => SetPhase(s, k, Sending(false, 0))
         case Deadline(k) =>
           var closed := s.layers[k].buffer.(status := GATEWAY_TIMEOUT, closed := true);
           s.(layers := s.layers[k := Layer(closed, Sending(true, 0))])
         case Emit(k) =>
           var op := s.layers[k].Outgoing()[s.layers[k].phase.count];
           var sent := SetPhase(s, k, s.layers[k].phase.(count := s.layers[k].phase.count + 1));
           if k == 0 then sent.(client := s.client + [op]) else WriteTo(sent, k - 1, op)
         case Return(k) => SetPhase(s, k, Returned(s.layers[k].phase.timedOut))
  }

  function Run(s: State, es: seq<Event>): (s': State)
    ensures |s'.layers| == |s.layers|
  {
    if es == [] then s else Next(Run(s, es[..|es| - 1]), es[|es| - 1])
  }

  // ---------------------------------------------------------------- the invariant

  /** The writes that have reached the buffer of layer k from inside. */
  function Incoming(s: State, k: nat): seq<Op>
    requires k < |s.layers|
  {
    if k == |s.layers| - 1 then s.handlerOps else s.layers[k + 1].Emitted()
  }

  /** What holds of a layer, given the writes that came in and whether the rest of the chain is done. */
  ghost predicate LayerOk(layer: Layer, incoming: seq<Op>, done: bool) {
    && (layer.phase.Sending? ==> layer.phase.count <= 3)
    && (layer.buffer.closed <==> layer.TimedOut())
    && (!layer.buffer.closed ==> layer.buffer == ApplyAll(FRESH, incoming))
    && (!layer.phase.Waiting? && !layer.TimedOut() ==> done)
  }

  ghost predicate LayerInv(s: State, k: nat)
    requires k < |s.layers|
  {
    LayerOk(s.layers[k], Incoming(s, k), DownstreamDone(s, k))
  }

  ghost predicate Inv(s: State) {
    && (forall k :: 0 <= k < |s.layers| ==> LayerInv(s, k))
    && (|s.layers| > 0 ==> s.client == s.layers[0].Emitted())
  }

  /** One more write reaches a layer that has not stopped listening. */
  lemma OkAfterWrite(layer: Layer, incoming: seq<Op>, op: Op)
    requires LayerOk(layer, incoming, false)
    ensures LayerOk(layer.(buffer := Apply(layer.buffer, op)), incoming + [op], false)
  {
  }

  lemma OkMonotone(layer: Layer, incoming: seq<Op>)
    ensures LayerOk(layer, incoming, false) ==> LayerOk(layer, incoming, true)
  {
  }

  lemma EmittedGrows(layer: Layer, i: nat)
    requires layer.phase.Sending? && layer.phase.count == i < 3
    ensures layer.(phase := layer.phase.(count := i + 1)).Emitted() == layer.Emitted() + [layer.Outgoing()[i]]
  {
  }

  lemma HandlerInv(s: State, op: Op)
    requires Inv(s) && Enabled(s, HandlerOp(op))
    ensures Inv(Next(s, HandlerOp(op)))
  {
    var s', n := Next(s, HandlerOp(op)), |s.layers| - 1;
    var layer := s.layers[n];
    assert LayerInv(s, n);
    OkAfterWrite(layer, s.handlerOps, op);
    WriteKeepsEmitted(layer, op, s.handlerOps);
    assert s'.layers[n] == layer.(buffer := Apply(layer.buffer, op));
    assert LayerInv(s', n) by { assert Incoming(s', n) == s.handlerOps + [op] && !DownstreamDone(s', n); }
    forall i | 0 <= i < n ensures LayerInv(s', i) {
      assert LayerInv(s, i);
      assert s'.layers[i] == s.layers[i];
      assert Incoming(s', i) == Incoming(s, i) && DownstreamDone(s', i) == DownstreamDone(s, i);
    }
  }

  /** A write into a layer whose chain is still running does not change what it has sent outward. */
  lemma WriteKeepsEmitted(layer: Layer, op: Op, incoming: seq<Op>)
    requires LayerOk(layer, incoming, false)
    ensures layer.(buffer := Apply(layer.buffer, op)).Emitted() == layer.Emitted()
  {
  }

  /** The sender has one write less to make; nothing came in. */
  lemma EmitSender(s: State, k: nat)
    requires Inv(s) && Enabled(s, Emit(k))
    ensures LayerInv(Next(s, Emit(k)), k)
    ensures Next(s, Emit(k)).layers[k].Emitted()
         == s.layers[k].Emitted() + [s.layers[k].Outgoing()[s.layers[k].phase.count]]
  {
    var s', layer, i := Next(s, Emit(k)), s.layers[k], s.layers[k].phase.count;
    assert LayerInv(s, k);
    EmittedGrows(layer, i);
    assert s'.layers[k] == layer.(phase := layer.phase.(count := i + 1));
    assert Incoming(s', k) == Incoming(s, k) && DownstreamDone(s', k) == DownstreamDone(s, k);
  }

  /** The layer outside it has one more write in its buffer, unless it has closed it. */
  lemma EmitReceiver(s: State, k: nat)
    requires Inv(s) && Enabled(s, Emit(k)) && k > 0
    ensures LayerInv(Next(s, Emit(k)), k - 1)
    ensures Next(s, Emit(k)).layers[k - 1].Emitted() == s.layers[k - 1].Emitted()
  {
    var outer, op := s.layers[k - 1], s.layers[k].Outgoing()[s.layers[k].phase.count];
    EmitSender(s, k);
    assert LayerInv(s, k - 1);
    OkAfterWrite(outer, s.layers[k].Emitted(), op);
    WriteKeepsEmitted(outer, op, s.layers[k].Emitted());
  }

  lemma EmitInv(s: State, k: nat)
    requires Inv(s) && Enabled(s, Emit(k))
    ensures Inv(Next(s, Emit(k)))
  {
    var s' := Next(s, Emit(k));
    EmitSender(s, k);
    if k > 0 { EmitReceiver(s, k); }
    forall j | 0 <= j < |s.layers| && j != k && j != k - 1 ensures LayerInv(s', j) {
      assert LayerInv(s, j);
      assert s'.layers[j] == s.layers[j];
      assert Incoming(s', j) == Incoming(s, j) && DownstreamDone(s', j) == DownstreamDone(s, j);
    }
  }

  /** The remaining events move one goroutine and put nothing into any other buffer. */
  lemma MoveOk(s: State, e: Event)
    requires Inv(s) && Enabled(s, e) && (e.Finished? || e.Deadline? || e.Return?)
    ensures LayerOk(Next(s, e).layers[e.k], Incoming(s, e.k), DownstreamDone(s, e.k))
    ensures Next(s, e).layers[e.k].Emitted() == s.layers[e.k].Emitted()
  {
    assert LayerInv(s, e.k);
  }

  lemma MoveInv(s: State, e: Event)
    requires Inv(s) && Enabled(s, e) && (e.Finished? || e.Deadline? || e.Return?)
    ensures Inv(Next(s, e))
  {
    var s' := Next(s, e);
    MoveOk(s, e);
    forall i | 0 <= i < |s.layers| ensures LayerInv(s', i) {
      assert LayerInv(s, i);
      assert Incoming(s', i) == Incoming(s, i) && (DownstreamDone(s, i) ==> DownstreamDone(s', i));
      OkMonotone(s'.layers[i], Incoming(s, i));
    }
  }

  lemma HandlerDoneInv(s: State)
    requires Inv(s)
    ensures Inv(s.(handlerDone := true))
  {
    var s' := s.(handlerDone := true);
    forall i | 0 <= i < |s.layers| ensures LayerInv(s', i) {
      assert LayerInv(s, i);
      assert Incoming(s', i) == Incoming(s, i);
      OkMonotone(s.layers[i], Incoming(s, i));
    }
  }

  lemma NextInv(s: State, e: Event)
    requires Inv(s)
    ensures Inv(Next(s, e))
  {
    if Enabled(s, e) {
      match e
      case HandlerOp(op) => HandlerInv(s, op);
      case Emit(k) => EmitInv(s, k);
      case HandlerDone => HandlerDoneInv(s);
      case _ => MoveInv(s, e);
    }
  }

  lemma {:induction false} RunInv(depth: nat, es: seq<Event>)
    ensures Inv(Run(Init(depth), es))
  {
    if es != [] {
      RunInv(depth, es[..|es| - 1]);
      NextInv(Run(Init(depth), es[..|es| - 1]), es[|es| - 1]);
    }
  }

  // ---------------------------------------------------------------- what the client sees

  /** The handler's complete response: all its writes, none of them cut off. */
  function HandlerResponse(s: State): Response { ApplyAll(FRESH, s.handlerOps).Complete() }

  const TIMEOUT_RESPONSE := Response(map[CONTENT_TYPE := [JSON_TYPE]], GATEWAY_TIMEOUT, TIMEOUT_BODY)

  ghost predicate AnyTimedOut(s: State, k: nat) { exists j :: k <= j < |s.layers| && s.layers[j].TimedOut() }

  lemma ApplyThree(b: Buffer, ops: seq<Op>)
    requires |ops| == 3
    ensures ApplyAll(b, ops) == Apply(Apply(Apply(b, ops[0]), ops[1]), ops[2])
  {
    assert ops[..2][..1] == ops[..1] && ops[..1][..0] == [];
    assert ApplyAll(b, ops[..1]) == Apply(b, ops[0]);
    assert ApplyAll(b, ops[..2]) == Apply(ApplyAll(b, ops[..2][..1]), ops[1]);
  }

  /** Flushing a buffer into an empty one reproduces its response, and the 504 arrives whole. */
  lemma FlushCopies(b: Buffer)
    ensures ApplyAll(FRESH, FlushOps(b)).Complete() == b.Complete()
    ensures ApplyAll(FRESH, TIMEOUT_OPS).Complete() == TIMEOUT_RESPONSE
  {
    ApplyThree(FRESH, FlushOps(b));
    ApplyThree(FRESH, TIMEOUT_OPS);
    assert Merge(map[], b.head) == b.head by { MergeEmpty(b.head); }
  }

  /** Once layer k has left its select, its buffer or its 504 is one of the two responses. */
  lemma {:induction false} LayerResponse(s: State, k: nat)
    requires Inv(s) && k < |s.layers| && !s.layers[k].phase.Waiting?
    ensures ApplyAll(FRESH, s.layers[k].Outgoing()).Complete()
         == if AnyTimedOut(s, k) then TIMEOUT_RESPONSE else HandlerResponse(s)
    ensures AnyTimedOut(s, k) || s.handlerDone
    decreases |s.layers| - k
  {
    assert LayerInv(s, k);
    FlushCopies(s.layers[k].buffer);
    if !s.layers[k].TimedOut() {
      assert AnyTimedOut(s, k) <==> k + 1 < |s.layers| && AnyTimedOut(s, k + 1);
      if k + 1 < |s.layers| {
        LayerResponse(s, k + 1);
      }
    }
  }

  /** What a client with headers `base` already set receives. */
  function Received(base: Headers, ops: seq<Op>): Response { ApplyAll(FRESH.(head := base), ops).Complete() }

  /**
   For every interleaving of handler writes, completions and deadlines, at every depth: when
   the outermost layer has returned, the client has received exactly one response.  It is the
   handler's complete one if no deadline won, and otherwise one 504.
   */
  lemma SingleResponse(depth: nat, es: seq<Event>, base: Headers)
    requires depth > 0 && Run(Init(depth), es).layers[0].phase.Returned?
    ensures var s := Run(Init(depth), es);
            var r := Received(base, s.client);
            if AnyTimedOut(s, 0) then
              && r.status == GATEWAY_TIMEOUT && r.body == TIMEOUT_BODY
              && r.head == (if s.layers[0].TimedOut() then base[CONTENT_TYPE := [JSON_TYPE]]
                            else Merge(base, TIMEOUT_RESPONSE.head))
            else
              && s.handlerDone
              && r == HandlerResponse(s).(head := Merge(base, HandlerResponse(s).head))
  {
    var s := Run(Init(depth), es);
    RunInv(depth, es);
    LayerResponse(s, 0);
    var layer := s.layers[0];
    FlushCopies(layer.buffer);
    ApplyThree(FRESH.(head := base), layer.Outgoing());
  }

  /**
   At no moment has the client received anything but the beginning of a single response: the 504
   if a deadline has won anywhere, and otherwise the complete response of a handler that is done.
   */
  lemma NeverAMixture(depth: nat, es: seq<Event>)
    requires depth > 0 && Run(Init(depth), es).client != []
    ensures var s := Run(Init(depth), es);
            if s.layers[0].TimedOut() then s.client <= TIMEOUT_OPS
            else if AnyTimedOut(s, 0) then s.client <= ResponseOps(TIMEOUT_RESPONSE)
            else s.handlerDone && s.client <= ResponseOps(HandlerResponse(s))
  {
    var s := Run(Init(depth), es);
    RunInv(depth, es);
    LayerResponse(s, 0);
    FlushCopies(s.layers[0].buffer);
  }

  lemma ReturnedStays(s: State, e: Event)
    requires |s.layers| > 0 && s.layers[0].phase.Returned?
    ensures Next(s, e).client == s.client && Next(s, e).layers[0].phase == s.layers[0].phase
  {
  }

  /** After the outermost layer has returned, nothing any goroutine does reaches the client. */
  lemma {:induction false} LateWritesInvisible(s: State, more: seq<Event>)
    requires |s.layers| > 0 && s.layers[0].phase.Returned?
    ensures Run(s, more).client == s.client && Run(s, more).layers[0].phase == s.layers[0].phase
  {
    if more != [] {
      LateWritesInvisible(s, more[..|more| - 1]);
      ReturnedStays(Run(s, more[..|more| - 1]), more[|more| - 1]);
    }
  }

  // ---------------------------------------------------------------- what a response is made of

  function BodyOf(ops: seq<Op>): string {
    if ops == [] then ""
    else
      var op := ops[|ops| - 1];
      BodyOf(ops[..|ops| - 1]) + if op.Write? then op.data else ""
  }

  /** The last status set, where 0 means none. */
  function StatusOf(ops: seq<Op>): int {
    if ops == [] then OK
    else
      var op := ops[|ops| - 1];
      if !op.WriteHeader? then StatusOf(ops[..|ops| - 1]) else if op.status == 0 then OK else op.status
  }

  function HeaderOf(ops: seq<Op>, k: string): seq<string> {
    if ops == [] then []
    else
      var before, op := HeaderOf(ops[..|ops| - 1], k), ops[|ops| - 1];
      match op
      case AddHeaders(h) => before + Values(h, k)
      case SetHeader(key, value) => if key == k then [value] else before
      case _ => before
  }

  /** A handler's response is all it wrote, in order, with the last status and the headers it left. */
  lemma {:induction false} ResponseMeans(ops: seq<Op>, k: string)
    ensures var b := ApplyAll(FRESH, ops);
            && !b.closed && b.body == BodyOf(ops) && b.Status() == StatusOf(ops) && Values(b.head, k) == HeaderOf(ops, k)
  {
    if ops != [] {
      var op := ops[|ops| - 1];
      ResponseMeans(ops[..|ops| - 1], k);
      if op.AddHeaders? { MergeAt(ApplyAll(FRESH, ops[..|ops| - 1]).head, op.head, k); }
    }
  }

  // ---------------------------------------------------------------- every request is answered

  lemma {:induction false} RunAppend(s: State, a: seq<Event>, b: seq<Event>)
    ensures Run(s, a + b) == Run(Run(s, a), b)
    decreases |b|
  {
    if b == [] {
      assert a + b == a;
    } else {
      assert (a + b)[..|a + b| - 1] == a + b[..|b| - 1];
      RunAppend(s, a, b[..|b| - 1]);
    }
  }

  /** Layer k leaves its select, makes its three writes and returns. */
  function Closing(k: nat, first: Event): seq<Event> { [first, Emit(k), Emit(k), Emit(k), Return(k)] }

  lemma RunFive(s: State, es: seq<Event>)
    requires |es| == 5
    ensures Run(s, es) == Next(Next(Next(Next(Next(s, es[0]), es[1]), es[2]), es[3]), es[4])
  {
    assert es[..4][..3] == es[..3] && es[..3][..2] == es[..2] && es[..2][..1] == es[..1] && es[..1][..0] == [];
    assert Run(s, es[..1]) == Next(s, es[0]);
    assert Run(s, es[..2]) == Next(Run(s, es[..1]), es[1]);
    assert Run(s, es[..3]) == Next(Run(s, es[..2]), es[2]);
    assert Run(s, es[..4]) == Next(Run(s, es[..3]), es[3]);
  }

  /** An emitting layer moves on by one write, and no phase but its own changes. */
  lemma EmitMoves(s: State, k: nat)
    requires Enabled(s, Emit(k))
    ensures var s', p := Next(s, Emit(k)), s.layers[k].phase;
            && s'.layers[k].phase == Sending(p.timedOut, p.count + 1) && SameBut(s, s', k)
  {
  }

  /** Only the phase of layer k may differ, and nothing the handler did. */
  ghost predicate SameBut(s: State, s': State, k: nat) {
    && |s'.layers| == |s.layers| && s'.handlerDone == s.handlerDone && s'.handlerOps == s.handlerOps
    && forall j :: 0 <= j < |s.layers| && j != k ==> s'.layers[j].phase == s.layers[j].phase
  }

  lemma LayerCloses(s: State, k: nat, first: Event)
    requires first == Finished(k) || first == Deadline(k)
    requires Enabled(s, first)
    ensures var s' := Run(s, Closing(k, first));
            SameBut(s, s', k) && s'.layers[k].phase == Returned(first.Deadline?)
  {
    RunFive(s, Closing(k, first));
    var s1 := Next(s, first);
    EmitMoves(s1, k);
    EmitMoves(Next(s1, Emit(k)), k);
    EmitMoves(Next(Next(s1, Emit(k)), Emit(k)), k);
  }

  /** From every reachable state in which the outermost layer still waits, its deadline answers with the 504. */
  lemma DeadlineAnswers(depth: nat, es: seq<Event>, base: Headers)
    requires depth > 0 && Run(Init(depth), es).layers[0].phase.Waiting?
    ensures var s := Run(Init(depth), es + Closing(0, Deadline(0)));
            s.layers[0].phase.Returned? && Received(base, s.client).status == 504
  {
    var s := Run(Init(depth), es + Closing(0, Deadline(0)));
    RunAppend(Init(depth), es, Closing(0, Deadline(0)));
    LayerCloses(Run(Init(depth), es), 0, Deadline(0));
    assert s.layers[0].TimedOut() && AnyTimedOut(s, 0);
    SingleResponse(depth, es + Closing(0, Deadline(0)), base);
  }

  /** The layers return one after the other, from layer k outwards. */
  function Unwind(k: int): seq<Event>
    decreases k + 1
  {
    if k < 0 then [] else Closing(k, Finished(k)) + Unwind(k - 1)
  }

  ghost predicate Unwound(s: State, k: int) {
    && s.handlerDone && k < |s.layers|
    && (forall j :: 0 <= j <= k ==> s.layers[j].phase.Waiting?)
    && (forall j :: k < j < |s.layers| && 0 <= j ==> s.layers[j].phase == Returned(false))
  }

  lemma {:induction false} UnwindReturns(s: State, k: int)
    requires -1 <= k && Unwound(s, k)
    ensures Unwound(Run(s, Unwind(k)), -1) && Run(s, Unwind(k)).handlerOps == s.handlerOps
    decreases k + 1
  {
    if k >= 0 {
      LayerCloses(s, k, Finished(k));
      RunAppend(s, Closing(k, Finished(k)), Unwind(k - 1));
      UnwindReturns(Run(s, Closing(k, Finished(k))), k - 1);
    }
  }

  /**
   From every reachable state in which no layer has left its select, if the handler finishes and no
   deadline passes, the client receives the handler's complete response.
   */
  lemma HandlerIsHeard(depth: nat, es: seq<Event>, base: Headers)
    requires depth > 0 && !Run(Init(depth), es).handlerDone
    requires forall j :: 0 <= j < depth ==> Run(Init(depth), es).layers[j].phase.Waiting?
    ensures var s := Run(Init(depth), es + [HandlerDone] + Unwind(depth - 1));
            var r := ApplyAll(FRESH, Run(Init(depth), es).handlerOps).Complete();
            s.layers[0].phase.Returned? && Received(base, s.client) == r.(head := Merge(base, r.head))
  {
    var all := es + [HandlerDone] + Unwind(depth - 1);
    var s0, s1 := Run(Init(depth), es), Run(Init(depth), es + [HandlerDone]);
    assert (es + [HandlerDone])[..|es|] == es;
    assert s1 == Next(s0, HandlerDone);
    RunAppend(Init(depth), es + [HandlerDone], Unwind(depth - 1));
    UnwindReturns(s1, depth - 1);
    var s := Run(Init(depth), all);
    assert !AnyTimedOut(s, 0);
    SingleResponse(depth, all, base);
  }

  // ---------------------------------------------------------------- the writer object

  class BufferedWriter {
    var buf: string
    var head: Headers
    var status: int
    var wrote: bool
    var closed: bool

    function View(): Buffer reads this { Buffer(buf, head, status, wrote, closed) }

    constructor ()
      ensures View() == FRESH
    {
      buf, head, status, wrote, closed := "", map[], OK, false, false;
    }

    method WriteData(data: string) returns (n: nat)
      modifies this
      ensures View() == Apply(old(View()), Write(data))
      ensures n == if old(closed) then 0 else |data|
    {
      if closed {
        return 0;
      }
      wrote := true;
      buf := buf + data;
      n := |data|;
    }

    method SetStatus(statusCode: int)
      modifies this
      ensures View() == Apply(old(View()), WriteHeader(statusCode))
    {
      if closed {
        return;
      }
      status := statusCode;
    }

    method MarkWritten()
      modifies this
      ensures View() == Apply(old(View()), WriteHeaderNow)
    {
      if status == 0 {
        status := OK;
      }
      wrote := true;
    }

    method AddValue(key: string, value: string)
      modifies this`head
      ensures head == old(head)[key := Values(old(head), key) + [value]]
    {
      head := head[key := Values(head, key) + [value]];
    }

    method AddValues(key: string, values: seq<string>)
      requires values != []
      modifies this`head
      ensures head == old(head)[key := Values(old(head), key) + values]
    {
      AddValue(key, values[0]);
      assert values[..1] == [values[0]];
      for i := 1 to |values|
        invariant head == old(head)[key := Values(old(head), key) + values[..i]]
      {
        AddValue(key, values[i]);
        assert Values(old(head), key) + values[..i] + [values[i]] == Values(old(head), key) + values[..i + 1];
      }
      assert values[..|values|] == values;
    }

    /** The critical section of the timeout branch. */
    method Close()
      modifies this
      ensures View() == old(View()).(status := GATEWAY_TIMEOUT, closed := true)
    {
      status := GATEWAY_TIMEOUT;
      closed := true;
    }

    /** `flushTo`: every header value, then the status, then the body. */
    method FlushTo(w: BufferedWriter)
      requires w != this
      requires forall k :: k in head ==> head[k] != []
      modifies w
      ensures w.View() == ApplyAll(old(w.View()), FlushOps(View()))
    {
      var todo := head.Keys;
      MergeEmpty(w.head);
      while todo != {}
        invariant todo <= head.Keys
        invariant w.View() == old(w.View()).(head := w.head)
        invariant w.head == Merge(old(w.head), Copied(head, todo))
        decreases todo
      {
        var k :| k in todo;
        MergeStep(old(w.head), head, todo, k);
        w.AddValues(k, head[k]);
        todo := todo - {k};
      }
      assert Copied(head, todo) == head;
      var code := if status == 0 then OK else status;
      w.SetStatus(code);
      var _ := w.WriteData(buf);
      ApplyThree(old(w.View()), FlushOps(View()));
    }
  }

  function Copied(h: Headers, todo: set<string>): Headers { map k | k in h && k !in todo :: h[k] }

  lemma MergeStep(a: Headers, h: Headers, todo: set<string>, k: string)
    requires k in todo && k in h
    ensures var done := Merge(a, Copied(h, todo));
            done[k := Values(done, k) + h[k]] == Merge(a, Copied(h, todo - {k}))
  {
    var done, more := Copied(h, todo), Copied(h, todo - {k});
    var step := Merge(a, done)[k := Values(Merge(a, done), k) + h[k]];
    forall x ensures (x in step <==> x in Merge(a, more)) && Values(step, x) == Values(Merge(a, more), x) {
      MergeAt(a, done, x);
      MergeAt(a, more, x);
      assert Values(a, k) + [] == Values(a, k);
    }
    SameHeaders(step, Merge(a, more));
  }
}
