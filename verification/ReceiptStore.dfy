/**
 The in-memory receipt store of gateway/receipt_store.go: a map with expiry times, deleted from
 lazily by lookups and by a periodic cleanup.

 The first half splits `Get` at its two critical sections and compares every interleaving with
 a timed map that forgets nothing.  The second half is the store as an object on the heap, where
 receipts are mutable and have to be cloned.
 */
module ReceiptStore {
  import opened Wrappers
  import opened Json
  import opened Receipts

  datatype Entry = Entry(receipt: SignedReceipt, expiresAt: int)

  /** `now.After(expiresAt)` is false. */
  predicate Live(e: Entry, now: int) { now <= e.expiresAt }

  function Find(m: map<Text, Entry>, id: Text): Option<Entry> { if id in m then Some(m[id]) else None }

  /** The reference: a lookup in a timed map. */
  function LookUp(e: Option<Entry>, now: int): Option<SignedReceipt> {
    if e.Some? && Live(e.value, now) then Some(e.value.receipt) else None
  }

  // ---------------------------------------------------------------- interleavings

  /** A `Get` between its steps; `ideal` is what the reference map held when the entry was read. */
  datatype Pending = Decide(id: Text, entry: Option<Entry>, ideal: Option<Entry>) | Delete(id: Text)

  datatype Outcome = Outcome(ideal: Option<Entry>, now: int, answer: Option<SignedReceipt>)

  datatype State = State(receipts: map<Text, Entry>, ideal: map<Text, Entry>, gets: map<nat, Pending>,
                         outcomes: seq<Outcome>, clock: int)

  datatype Event =
    | Store(id: Text, receipt: SignedReceipt, ttl: int, now: int)
    | GetRead(g: nat, id: Text)      // under the read lock
    | GetDecide(g: nat, now: int)    // no lock held
    | GetDelete(g: nat, now: int)    // under the write lock, with a second look
    | Cleanup(now: int)              // under the write lock; `now` may be an old reading

  function Unexpired(m: map<Text, Entry>, now: int): map<Text, Entry> { map id | id in m && Live(m[id], now) :: m[id] }

  /** Clock readings are nondecreasing, except that a cleanup may act on an older one. */
  predicate Enabled(s: State, e: Event) {
    match e
    case Store(_, _, ttl, now) => ttl > 0 && now >= s.clock
    case GetRead(g, _) => g !in s.gets
    case GetDecide(g, now) => g in s.gets && s.gets[g].Decide? && now >= s.clock
    case GetDelete(g, now) => g in s.gets && s.gets[g].Delete? && now >= s.clock
    case Cleanup(_) => true
  }

  function Next(s: State, e: Event): State {
    if !Enabled(s, e) then s
    else match e
         case Store(id, receipt, ttl, now) =>
           var entry := Entry(receipt, now + ttl);
           s.(receipts := s.receipts[id := entry], ideal := s.ideal[id := entry], clock := now)
         case GetRead(g, id) =>
           s.(gets := s.gets[g := Decide(id, Find(s.receipts, id), Find(s.ideal, id))])
         case GetDecide(g, now) =>
           var p := s.gets[g];
           var answer := LookUp(p.entry, now);
           var gets := if p.entry.Some? && answer.None? then s.gets[g := Delete(p.id)] else s.gets - {g};
           s.(gets := gets, outcomes := s.outcomes + [Outcome(p.ideal, now, answer)], clock := now)
         case GetDelete(g, now) =>
           var id := s.gets[g].id;
           var keep := id in s.receipts ==> Live(s.receipts[id], now);
           s.(receipts := if keep then s.receipts else s.receipts - {id}, gets := s.gets - {g}, clock := now)
         case Cleanup(now) =>
           s.(receipts := Unexpired(s.receipts, now), clock := if now > s.clock then now else s.clock)
  }

  function Run(s: State, es: seq<Event>): State {
    if es == [] then s else Next(Run(s, es[..|es| - 1]), es[|es| - 1])
  }

  function Init(clock: int): State { State(map[], map[], map[], [], clock) }

  /** An entry seen in the store is the last one stored, or the last one stored is dead. */
  ghost predicate Agrees(entry: Option<Entry>, ideal: Option<Entry>, clock: int) {
    entry == ideal || (entry.None? && !Live(ideal.value, clock))
  }

  ghost predicate Inv(s: State) {
    && (forall id :: Agrees(Find(s.receipts, id), Find(s.ideal, id), s.clock))
    && (forall g :: g in s.gets && s.gets[g].Decide? ==> Agrees(s.gets[g].entry, s.gets[g].ideal, s.clock))
    && (forall i :: 0 <= i < |s.outcomes| ==> s.outcomes[i].answer == LookUp(s.outcomes[i].ideal, s.outcomes[i].now))
  }

  lemma NextInv(s: State, e: Event)
    requires Inv(s)
    ensures Inv(Next(s, e)) && Next(s, e).clock >= s.clock
  {
    if Enabled(s, e) {
      var s' := Next(s, e);
      forall id ensures Agrees(Find(s'.receipts, id), Find(s'.ideal, id), s'.clock) {
        assert Agrees(Find(s.receipts, id), Find(s.ideal, id), s.clock);
      }
      if e.GetRead? {
        assert Agrees(Find(s.receipts, e.id), Find(s.ideal, e.id), s.clock);
      }
    }
  }

  lemma {:induction false} RunKeepsInv(s: State, es: seq<Event>)
    requires Inv(s)
    ensures Inv(Run(s, es)) && Run(s, es).clock >= s.clock
  {
    if es != [] {
      RunKeepsInv(s, es[..|es| - 1]);
      NextInv(Run(s, es[..|es| - 1]), es[|es| - 1]);
    }
  }

  /**
   In every interleaving each lookup answers as the timed map would: with the receipt last
   stored under the id, exactly while it has not expired.
   */
  lemma StoreRefinesTimedMap(clock: int, es: seq<Event>, i: nat)
    requires i < |Run(Init(clock), es).outcomes|
    ensures var o := Run(Init(clock), es).outcomes[i]; o.answer == LookUp(o.ideal, o.now)
  {
    RunKeepsInv(Init(clock), es);
  }

  /** No lookup and no cleanup ever removes an entry that is still live. */
  lemma LiveEntriesStay(clock: int, es: seq<Event>, id: Text)
    ensures var s := Run(Init(clock), es);
            id in s.ideal && Live(s.ideal[id], s.clock) ==> id in s.receipts && s.receipts[id] == s.ideal[id]
  {
    RunKeepsInv(Init(clock), es);
    var s := Run(Init(clock), es);
    assert Agrees(Find(s.receipts, id), Find(s.ideal, id), s.clock);
  }

  predicate OfGet(e: Event, g: nat) { (e.GetRead? || e.GetDecide? || e.GetDelete?) && e.g == g }

  lemma {:induction false} PendingKept(s: State, g: nat, es: seq<Event>)
    requires g in s.gets && forall e :: e in es ==> !OfGet(e, g)
    ensures g in Run(s, es).gets && Run(s, es).gets[g] == s.gets[g]
  {
    if es != [] {
      PendingKept(s, g, es[..|es| - 1]);
      assert es[|es| - 1] in es;
    }
  }

  /** The state in which a lookup of `id` has read its entry, others have moved, and it has decided. */
  function Looked(s: State, g: nat, id: Text, between: seq<Event>, now: int): State {
    Next(Run(Next(s, GetRead(g, id)), between), GetDecide(g, now))
  }

  /** A lookup answers as of the moment it read its entry, whatever happens before it decides. */
  lemma LookUpAnswers(s: State, g: nat, id: Text, between: seq<Event>, now: int)
    requires Inv(s) && g !in s.gets && (forall e :: e in between ==> !OfGet(e, g))
    requires now >= Run(Next(s, GetRead(g, id)), between).clock
    ensures Looked(s, g, id, between, now).outcomes
         == Run(Next(s, GetRead(g, id)), between).outcomes
            + [Outcome(Find(s.ideal, id), now, LookUp(Find(s.ideal, id), now))]
  {
    var read := Next(s, GetRead(g, id));
    NextInv(s, GetRead(g, id));
    RunKeepsInv(read, between);
    PendingKept(read, g, between);
    assert Agrees(Find(s.receipts, id), Find(s.ideal, id), s.clock);
  }

  /**
   A stored receipt is retrievable exactly until it expires: any lookup that decides by then
   answers with it, and any later one with nothing, if no other receipt has been stored under its id.
   */
  lemma RetrievableUntilExpiry(clock: int, es: seq<Event>, store: Event, more: seq<Event>, g: nat, between: seq<Event>,
                               now: int)
    requires store.Store? && Enabled(Run(Init(clock), es), store)
    requires forall e :: e in more ==> !(e.Store? && e.id == store.id)
    requires g !in Run(Init(clock), es + [store] + more).gets && (forall e :: e in between ==> !OfGet(e, g))
    requires var s := Run(Init(clock), es + [store] + more);
             Run(Next(s, GetRead(g, store.id)), between).clock <= now
    ensures var outcomes := Looked(Run(Init(clock), es + [store] + more), g, store.id, between, now).outcomes;
            outcomes != [] &&
            outcomes[|outcomes| - 1].answer == if now <= store.now + store.ttl then Some(store.receipt) else None
  {
    IdealKeeps(clock, es, store, more);
    RunKeepsInv(Init(clock), es + [store] + more);
    LookUpAnswers(Run(Init(clock), es + [store] + more), g, store.id, between, now);
  }

  lemma {:induction false} IdealKeeps(clock: int, es: seq<Event>, store: Event, more: seq<Event>)
    requires store.Store? && Enabled(Run(Init(clock), es), store)
    requires forall e :: e in more ==> !(e.Store? && e.id == store.id)
    ensures Find(Run(Init(clock), es + [store] + more).ideal, store.id) == Some(Entry(store.receipt, store.now + store.ttl))
    decreases |more|
  {
    var all := es + [store] + more;
    if more == [] {
      assert all[..|all| - 1] == es && all[|all| - 1] == store;
    } else {
      var init := more[..|more| - 1];
      IdealKeeps(clock, es, store, init);
      assert all[..|all| - 1] == es + [store] + init && all[|all| - 1] == more[|more| - 1];
      assert more[|more| - 1] in more;
    }
  }

  // ---------------------------------------------------------------- the store on the heap

  /** A receipt behind a pointer. */
  class ReceiptCell {
    var value: SignedReceipt

    constructor (value: SignedReceipt)
      ensures this.value == value
    {
      this.value := value;
    }
  }

  datatype StoredEntry = StoredEntry(cell: ReceiptCell, expiresAt: int)

  datatype StoreError = ContextDone | Invalid(reason: ReceiptError) | BadTtl

  class InMemoryReceiptStore {
    var receipts: map<Text, StoredEntry>
    ghost var Repr: set<object>

    ghost predicate Valid()
      reads this, Repr
    {
      this in Repr && forall id :: id in receipts ==> receipts[id].cell in Repr
    }

    ghost function Contents(): map<Text, Entry>
      requires Valid()
      reads this, Repr
    {
      map id | id in receipts :: Entry(receipts[id].cell.value, receipts[id].expiresAt)
    }

    constructor ()
      ensures Valid() && fresh(Repr) && Contents() == map[]
    {
      receipts := map[];
      Repr := {this};
    }

    /** Stores a clone, so the caller's receipt never becomes part of the store. */
    method Store(done: bool, receipt: ReceiptCell?, ttl: int, now: int) returns (err: Option<StoreError>)
      requires Valid() && (receipt == null || receipt !in Repr)
      modifies this
      ensures Valid() && fresh(Repr - old(Repr)) && (receipt == null || receipt !in Repr)
      ensures err.None? <==> !done && receipt != null && ValidateReceipt(Some(receipt.value)).None? && ttl > 0
      ensures err.None? ==> Contents() == old(Contents())[receipt.value.receipt.id := Entry(receipt.value, now + ttl)]
      ensures err.Some? ==> Contents() == old(Contents())
    {
      if done {
        return Some(ContextDone);
      }
      var verdict := ValidateReceipt(if receipt == null then None else Some(receipt.value));
      if verdict.Some? {
        return Some(Invalid(verdict.value));
      }
      if ttl <= 0 {
        return Some(BadTtl);
      }
      var clone := new ReceiptCell(receipt.value);
      receipts := receipts[receipt.value.receipt.id := StoredEntry(clone, now + ttl)];
      Repr := Repr + {clone};
      err := None;
    }

    /** Returns a clone, and drops an entry it finds expired; `t2` is the second clock reading. */
    method Get(done: bool, id: Text, t1: int, t2: int) returns (receipt: ReceiptCell?, err: Option<StoreError>)
      requires Valid() && t1 <= t2
      modifies this
      ensures Valid() && Repr == old(Repr)
      ensures err == if done then Some(ContextDone) else None
      ensures receipt != null <==> !done && LookUp(Find(old(Contents()), id), t1).Some?
      ensures receipt != null ==>
                fresh(receipt) && receipt !in Repr && Some(receipt.value) == LookUp(Find(old(Contents()), id), t1)
      ensures forall x :: LookUp(Find(Contents(), x), t2) == LookUp(Find(old(Contents()), x), t2)
      ensures forall x :: x != id ==> Find(Contents(), x) == Find(old(Contents()), x)
    {
      if done {
        return null, Some(ContextDone);
      }
      if id !in receipts {
        return null, None;
      }
      var entry := receipts[id];
      if t1 > entry.expiresAt {
        if id in receipts && t2 > receipts[id].expiresAt {
          receipts := receipts - {id};
        }
        return null, None;
      }
      receipt := new ReceiptCell(entry.cell.value);
      err := None;
    }

    /** Removes exactly the expired entries. */
    method CleanupExpired(done: bool, now: int) returns (err: Option<StoreError>)
      requires Valid()
      modifies this
      ensures Valid() && Repr == old(Repr)
      ensures Contents() == if done then old(Contents()) else Unexpired(old(Contents()), now)
    {
      if done {
        return Some(ContextDone);
      }
      var todo := receipts.Keys;
      while todo != {}
        invariant Valid() && Repr == old(Repr) && todo <= old(receipts).Keys
        invariant forall id :: id in receipts <==> id in old(receipts) && (id in todo || now <= old(receipts)[id].expiresAt)
        invariant forall id :: id in receipts ==> receipts[id] == old(receipts)[id]
        decreases todo
      {
        var id :| id in todo;
        if now > receipts[id].expiresAt {
          receipts := receipts - {id};
        }
        todo := todo - {id};
      }
      err := None;
    }
  }

  /** Overwriting a receipt that was handed in or handed out leaves every later lookup as it was. */
  method MutateReceipt(store: InMemoryReceiptStore, cell: ReceiptCell, value: SignedReceipt)
    requires store.Valid() && cell !in store.Repr
    modifies cell
    ensures store.Valid() && store.Contents() == old(store.Contents()) && cell.value == value
  {
    cell.value := value;
  }
}
