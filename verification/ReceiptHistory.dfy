/**
 The receipt history of web/src/lib/receipt-storage.ts: a capped, deduplicated list kept as
 text in localStorage, which other tabs may change, behind a snapshot cache.
 */
module ReceiptHistory {
  import opened Wrappers

  const MAX := 20
  const PREVIEW := 80

  datatype Entry = Entry(id: string, receipt: string, savedAt: int, promptPreview: string)

  /**
   `JSON.parse` and `JSON.stringify`.  Decoding yields None for malformed text or a value that
   is not an array; an element that fails `isValidEntry` is None.
   */
  datatype Codec = Codec(decode: string -> Option<seq<Option<Entry>>>, encode: seq<Entry> -> string) {
    ghost predicate Valid() {
      forall es :: encode(es) != "" && decode(encode(es)) == Some(Wrap(es))
    }
  }

  function Wrap(es: seq<Entry>): seq<Option<Entry>> { seq(|es|, i requires 0 <= i < |es| => Some(es[i])) }

  /** `filter(isValidEntry)`. */
  function Keep(xs: seq<Option<Entry>>): seq<Entry> {
    if xs == [] then [] else (if xs[0].Some? then [xs[0].value] else []) + Keep(xs[1..])
  }

  function Parse(codec: Codec, raw: Option<string>): seq<Entry> {
    if raw.None? || raw.value == "" then []
    else match codec.decode(raw.value) case None => [] case Some(xs) => Keep(xs)
  }

  lemma {:induction false} KeepWrap(es: seq<Entry>)
    ensures Keep(Wrap(es)) == es
  {
    if es != [] {
      assert Wrap(es)[1..] == Wrap(es[1..]);
      KeepWrap(es[1..]);
    }
  }

  lemma {:induction false} KeepAppend(xs: seq<Option<Entry>>, ys: seq<Option<Entry>>)
    ensures Keep(xs + ys) == Keep(xs) + Keep(ys)
  {
    if xs == [] {
      assert xs + ys == ys;
    } else {
      assert (xs + ys)[1..] == xs[1..] + ys;
      KeepAppend(xs[1..], ys);
    }
  }

  lemma KeptAt(xs: seq<Option<Entry>>, i: nat)
    requires i < |xs| && xs[i].Some?
    ensures Keep(xs[..i]) + [xs[i].value] <= Keep(xs)
  {
    var rest := xs[i..];
    assert xs == xs[..i] + rest;
    KeepAppend(xs[..i], rest);
    assert Keep(rest) == [xs[i].value] + Keep(rest[1..]);
  }

  /** Every valid element is kept, right after the valid ones before it, and nothing else is. */
  lemma KeepsInOrder(xs: seq<Option<Entry>>)
    ensures forall i :: 0 <= i < |xs| && xs[i].Some? ==> Keep(xs[..i]) + [xs[i].value] <= Keep(xs)
    ensures forall e :: e in Keep(xs) <==> Some(e) in xs
  {
    forall i | 0 <= i < |xs| && xs[i].Some? ensures Keep(xs[..i]) + [xs[i].value] <= Keep(xs) { KeptAt(xs, i); }
    forall e ensures e in Keep(xs) <==> Some(e) in xs { KeepMember(xs, e); }
  }

  lemma {:induction false} KeepMember(xs: seq<Option<Entry>>, e: Entry)
    ensures e in Keep(xs) <==> Some(e) in xs
  {
    if xs != [] {
      assert xs == [xs[0]] + xs[1..];
      KeepMember(xs[1..], e);
    }
  }

  /** What is written is what is listed. */
  lemma ParseEncode(codec: Codec, es: seq<Entry>)
    requires codec.Valid()
    ensures Parse(codec, Some(codec.encode(es))) == es
  {
    KeepWrap(es);
  }

  function Without(es: seq<Entry>, id: string): seq<Entry> {
    if es == [] then [] else (if es[0].id != id then [es[0]] else []) + Without(es[1..], id)
  }

  function Take(es: seq<Entry>, n: nat): seq<Entry> { if |es| <= n then es else es[..n] }

  /** The list `saveReceipt` writes. */
  function Saved(es: seq<Entry>, e: Entry): seq<Entry> { Take([e] + Without(es, e.id), MAX) }

  /** What the page does to its history; the write may throw. */
  datatype Op = Save(entry: Entry, fails: bool) | Remove(id: string, fails: bool) | Clear(fails: bool)

  /** localStorage after a sequence of operations. */
  function RawAfter(codec: Codec, ops: seq<Op>): Option<string> {
    if ops == [] then None
    else
      var raw, op := RawAfter(codec, ops[..|ops| - 1]), ops[|ops| - 1];
      if op.fails then raw
      else match op
           case Save(e, _) => Some(codec.encode(Saved(Parse(codec, raw), e)))
           case Remove(id, _) => Some(codec.encode(Without(Parse(codec, raw), id)))
           case Clear(_) => None
  }

  function ListAfter(codec: Codec, ops: seq<Op>): seq<Entry> { Parse(codec, RawAfter(codec, ops)) }

  // ---------------------------------------------------------------- the reference

  /** The last save of every id that is not in `seen` and has not been removed since, latest first. */
  function Live(ops: seq<Op>, seen: set<string>): seq<Entry> {
    if ops == [] then []
    else
      var init, op := ops[..|ops| - 1], ops[|ops| - 1];
      if op.fails then Live(init, seen)
      else match op
           case Save(e, _) => if e.id in seen then Live(init, seen) else [e] + Live(init, seen + {e.id})
           case Remove(id, _) => Live(init, seen + {id})
           case Clear(_) => []
  }

  predicate Touches(op: Op, id: string) {
    !op.fails && match op case Save(e, _) => e.id == id case Remove(x, _) => x == id case Clear(_) => true
  }

  /** Operation `i` saved the entry, and nothing later touches its id. */
  ghost predicate IsLast(ops: seq<Op>, e: Entry, i: int) {
    0 <= i < |ops| && ops[i] == Save(e, false) && forall j :: i < j < |ops| ==> !Touches(ops[j], e.id)
  }

  ghost predicate DistinctIds(es: seq<Entry>) { forall i, j :: 0 <= i < j < |es| ==> es[i].id != es[j].id }

  ghost predicate Survives(ops: seq<Op>, e: Entry) { exists i :: IsLast(ops, e, i) }

  lemma LastOfInit(ops: seq<Op>, e: Entry, i: int)
    requires ops != []
    ensures var init, op := ops[..|ops| - 1], ops[|ops| - 1];
            IsLast(ops, e, i) <==> if Touches(op, e.id) then op == Save(e, false) && i == |ops| - 1 else IsLast(init, e, i)
  {
  }

  lemma SurvivesStep(ops: seq<Op>, e: Entry)
    requires ops != []
    ensures var init, op := ops[..|ops| - 1], ops[|ops| - 1];
            Survives(ops, e) <==> if Touches(op, e.id) then op == Save(e, false) else Survives(init, e)
  {
    var init, op := ops[..|ops| - 1], ops[|ops| - 1];
    forall i ensures IsLast(ops, e, i) <==>
                     if Touches(op, e.id) then op == Save(e, false) && i == |ops| - 1 else IsLast(init, e, i)
    {
      LastOfInit(ops, e, i);
    }
    if op == Save(e, false) { assert IsLast(ops, e, |ops| - 1); }
    if Survives(init, e) && !Touches(op, e.id) {
      var i :| IsLast(init, e, i);
      assert IsLast(ops, e, i);
    }
  }

  /** `Live` holds exactly the entries whose save is the last operation on their id. */
  lemma {:induction false} LiveMeans(ops: seq<Op>, seen: set<string>, e: Entry)
    ensures e in Live(ops, seen) <==> e.id !in seen && Survives(ops, e)
  {
    if ops != [] {
      var init, op := ops[..|ops| - 1], ops[|ops| - 1];
      SurvivesStep(ops, e);
      LiveMeans(init, seen, e);
      if op.Save? { LiveMeans(init, seen + {op.entry.id}, e); }
      if op.Remove? { LiveMeans(init, seen + {op.id}, e); }
    }
  }

  lemma {:induction false} LiveDistinct(ops: seq<Op>, seen: set<string>)
    ensures DistinctIds(Live(ops, seen))
  {
    if ops != [] {
      var init, op := ops[..|ops| - 1], ops[|ops| - 1];
      LiveDistinct(init, seen);
      if op.Save? {
        LiveDistinct(init, seen + {op.entry.id});
        forall e | e in Live(init, seen + {op.entry.id}) ensures e.id != op.entry.id {
          LiveMeans(init, seen + {op.entry.id}, e);
        }
      }
      if op.Remove? { LiveDistinct(init, seen + {op.id}); }
    }
  }

  /** ... in the order of those saves, the latest first. */
  lemma {:induction false} LiveOrdered(ops: seq<Op>, seen: set<string>, a: int, b: int, p: int, q: int)
    requires 0 <= a < b < |Live(ops, seen)|
    requires IsLast(ops, Live(ops, seen)[a], p) && IsLast(ops, Live(ops, seen)[b], q)
    ensures p > q
  {
    var init, op, l := ops[..|ops| - 1], ops[|ops| - 1], Live(ops, seen);
    LastOfInit(ops, l[a], p);
    LastOfInit(ops, l[b], q);
    if op.fails {
      LiveOrdered(init, seen, a, b, p, q);
    } else if op.Remove? {
      LiveMeans(init, seen + {op.id}, l[a]);
      LiveMeans(init, seen + {op.id}, l[b]);
      LiveOrdered(init, seen + {op.id}, a, b, p, q);
    } else if op.entry.id in seen {
      LiveMeans(ops, seen, l[a]);
      LiveMeans(ops, seen, l[b]);
      LiveOrdered(init, seen, a, b, p, q);
    } else {
      var seen', rest := seen + {op.entry.id}, Live(init, seen + {op.entry.id});
      assert l[b] == rest[b - 1];
      LiveMeans(init, seen', l[b]);
      if a > 0 {
        assert l[a] == rest[a - 1];
        LiveMeans(init, seen', l[a]);
        LiveOrdered(init, seen', a - 1, b - 1, p, q);
      }
    }
  }

  lemma {:induction false} LiveWithout(ops: seq<Op>, seen: set<string>, id: string)
    ensures Live(ops, seen + {id}) == Without(Live(ops, seen), id)
  {
    if ops != [] {
      var init, op := ops[..|ops| - 1], ops[|ops| - 1];
      LiveWithout(init, seen, id);
      if op.Save? {
        var rest := Live(init, seen + {op.entry.id});
        assert ([op.entry] + rest)[1..] == rest;
        LiveWithout(init, seen + {op.entry.id}, id);
        assert seen + {op.entry.id} + {id} == seen + {id} + {op.entry.id};
        if op.entry.id == id { assert seen + {id} + {op.entry.id} == seen + {id}; }
      }
      if op.Remove? {
        LiveWithout(init, seen + {op.id}, id);
        assert seen + {op.id} + {id} == seen + {id} + {op.id};
      }
    }
  }

  lemma {:induction false} WithoutAbsent(es: seq<Entry>, id: string)
    requires forall e :: e in es ==> e.id != id
    ensures Without(es, id) == es
  {
    if es != [] {
      assert es[0] in es;
      WithoutAbsent(es[1..], id);
    }
  }

  lemma ConsFacts(x: Entry, es: seq<Entry>, id: string, n: nat)
    ensures Take([x] + es, n + 1) == [x] + Take(es, n)
    ensures Without([x] + es, id) == (if x.id != id then [x] else []) + Without(es, id)
  {
  }

  lemma DistinctTail(x: Entry, rest: seq<Entry>, n: nat)
    requires DistinctIds([x] + rest)
    ensures DistinctIds(rest)
    ensures Without(rest, x.id) == rest && Without(Take(rest, n), x.id) == Take(rest, n)
  {
    var all := [x] + rest;
    forall i | 0 <= i < |rest| ensures rest[i] == all[i + 1] && rest[i].id != all[0].id {
    }
    WithoutAbsent(rest, x.id);
    WithoutAbsent(Take(rest, n), x.id);
  }

  /** Dropping the tail early loses nothing: removing one id makes room for one entry only. */
  lemma {:induction false} CapCommutes(es: seq<Entry>, id: string, n: nat)
    requires DistinctIds(es)
    ensures Take(Without(Take(es, n + 1), id), n) == Take(Without(es, id), n)
    decreases |es|
  {
    if es != [] {
      var x, rest := es[0], es[1..];
      assert es == [x] + rest;
      DistinctTail(x, rest, n);
      ConsFacts(x, rest, id, n);
      ConsFacts(x, Take(rest, n), id, n);
      if x.id == id {
        assert Take(es, n + 1) == [x] + Take(rest, n);
      } else if n > 0 {
        CapCommutes(rest, id, n - 1);
        ConsFacts(x, Without(Take(rest, n), id), id, n - 1);
        ConsFacts(x, Without(rest, id), id, n - 1);
      }
    }
  }

  lemma SavedIsCapped(es: seq<Entry>, e: Entry)
    requires DistinctIds(es)
    ensures Saved(Take(es, MAX), e) == Take([e] + Without(es, e.id), MAX)
  {
    CapCommutes(es, e.id, MAX - 1);
    var a, b := Without(Take(es, MAX), e.id), Without(es, e.id);
    assert Take([e] + a, MAX) == [e] + Take(a, MAX - 1);
    assert Take([e] + b, MAX) == [e] + Take(b, MAX - 1);
  }

  /** The list and the reference after one more operation that does not fail. */
  lemma Step(codec: Codec, ops: seq<Op>)
    requires codec.Valid() && ops != [] && !ops[|ops| - 1].fails
    ensures var init, op := ops[..|ops| - 1], ops[|ops| - 1];
            var list, live := ListAfter(codec, init), Live(init, {});
            && ListAfter(codec, ops) == (match op
                                         case Save(e, _) => Saved(list, e)
                                         case Remove(id, _) => Without(list, id)
                                         case Clear(_) => [])
            && Live(ops, {}) == (match op
                                 case Save(e, _) => [e] + Without(live, e.id)
                                 case Remove(id, _) => Without(live, id)
                                 case Clear(_) => [])
  {
    var init, op := ops[..|ops| - 1], ops[|ops| - 1];
    match op
    case Save(e, _) =>
      ParseEncode(codec, Saved(ListAfter(codec, init), e));
      LiveWithout(init, {}, e.id);
    case Remove(id, _) =>
      ParseEncode(codec, Without(ListAfter(codec, init), id));
      LiveWithout(init, {}, id);
    case Clear(_) =>
  }

  lemma {:induction false} WithoutAppend(a: seq<Entry>, b: seq<Entry>, id: string)
    ensures Without(a + b, id) == Without(a, id) + Without(b, id)
  {
    if a == [] {
      assert a + b == b;
    } else {
      assert (a + b)[1..] == a[1..] + b;
      WithoutAppend(a[1..], b, id);
    }
  }

  lemma WithoutPrefix(list: seq<Entry>, live: seq<Entry>, id: string)
    requires list <= live
    ensures Without(list, id) <= Without(live, id) && |Without(list, id)| <= |list|
  {
    assert live == list + live[|list|..];
    WithoutAppend(list, live[|list|..], id);
    WithoutShrinks(list, id);
  }

  lemma {:induction false} WithoutShrinks(es: seq<Entry>, id: string)
    ensures |Without(es, id)| <= |es|
    ensures forall e :: e in Without(es, id) <==> e in es && e.id != id
  {
    if es != [] {
      assert es == [es[0]] + es[1..];
      WithoutShrinks(es[1..], id);
    }
  }

  lemma SavedIsPrefix(list: seq<Entry>, live: seq<Entry>, e: Entry)
    requires list <= live
    ensures Saved(list, e) <= [e] + Without(live, e.id) && |Saved(list, e)| <= 20
  {
    WithoutPrefix(list, live, e.id);
  }

  /** After any operations, some failing, the list is a beginning of the reference, of 20 entries at most. */
  lemma {:induction false} HistoryIsPrefix(codec: Codec, ops: seq<Op>)
    requires codec.Valid()
    ensures ListAfter(codec, ops) <= Live(ops, {}) && |ListAfter(codec, ops)| <= 20
  {
    if ops != [] {
      var init, op := ops[..|ops| - 1], ops[|ops| - 1];
      HistoryIsPrefix(codec, init);
      if !op.fails {
        Step(codec, ops);
        if op.Save? { SavedIsPrefix(ListAfter(codec, init), Live(init, {}), op.entry); }
        if op.Remove? { WithoutPrefix(ListAfter(codec, init), Live(init, {}), op.id); }
      }
    }
  }

  /** Since its last save the entry has never been beyond the twentieth place of the reference. */
  ghost predicate NeverPushedOut(ops: seq<Op>, e: Entry) {
    ops != [] && e in Take(Live(ops, {}), MAX) &&
    (ops[|ops| - 1] == Save(e, false) || NeverPushedOut(ops[..|ops| - 1], e))
  }

  lemma PlaceInPrefix(list: seq<Entry>, live: seq<Entry>, n: nat, e: Entry)
    requires list <= live && DistinctIds(live)
    ensures e in Take(list, n) <==> e in list && e in Take(live, n)
  {
    if e in list && e in Take(live, n) {
      var i, j :| 0 <= i < |list| && list[i] == e && 0 <= j < |Take(live, n)| && live[j] == e;
      assert live[i] == e && i == j;
      assert Take(list, n)[i] == e;
    }
    if e in Take(list, n) {
      var i :| 0 <= i < |Take(list, n)| && Take(list, n)[i] == e;
      assert live[i] == e && Take(live, n)[i] == e;
    }
  }

  lemma SavedMember(list: seq<Entry>, live: seq<Entry>, x: Entry, e: Entry)
    requires list <= live && DistinctIds(Without(live, x.id)) && e != x
    ensures e in Saved(list, x) <==> e in list && e in Take([x] + Without(live, x.id), MAX)
  {
    var list', live' := Without(list, x.id), Without(live, x.id);
    WithoutPrefix(list, live, x.id);
    WithoutShrinks(list, x.id);
    WithoutShrinks(live, x.id);
    ConsFacts(x, list', x.id, MAX - 1);
    ConsFacts(x, live', x.id, MAX - 1);
    PlaceInPrefix(list', live', MAX - 1, e);
  }

  /**
   Exactly the entries that have never been pushed out are listed: what is pushed beyond the
   twentieth place is gone, and a later removal does not bring it back.
   */
  lemma {:induction false} ListedIff(codec: Codec, ops: seq<Op>, e: Entry)
    requires codec.Valid()
    ensures e in ListAfter(codec, ops) <==> NeverPushedOut(ops, e)
  {
    if ops != [] {
      var init, op := ops[..|ops| - 1], ops[|ops| - 1];
      var list, live := ListAfter(codec, init), Live(init, {});
      ListedIff(codec, init, e);
      HistoryIsPrefix(codec, init);
      HistoryIsPrefix(codec, ops);
      if !op.fails {
        Step(codec, ops);
        LiveDistinct(init, {});
        LiveDistinct(ops, {});
        match op
        case Save(x, _) =>
          DistinctTail(x, Without(live, x.id), 0);
          if e != x { SavedMember(list, live, x, e); }
        case Remove(id, _) =>
          WithoutShrinks(list, id);
          WithoutShrinks(live, id);
          PlaceInPrefix(Without(list, id), Without(live, id), MAX, e);
        case Clear(_) =>
      }
    }
  }

  /** If nothing is removed one by one, the list is the first 20 of the reference. */
  lemma {:induction false} HistoryIsLatestDistinct(codec: Codec, ops: seq<Op>)
    requires codec.Valid() && forall op :: op in ops ==> !op.Remove?
    ensures ListAfter(codec, ops) == Take(Live(ops, {}), 20)
  {
    if ops != [] {
      var init, op := ops[..|ops| - 1], ops[|ops| - 1];
      HistoryIsLatestDistinct(codec, init);
      assert op in ops;
      if !op.fails {
        Step(codec, ops);
        LiveDistinct(init, {});
        if op.Save? { SavedIsCapped(Live(init, {}), op.entry); }
      }
    }
  }

  // ---------------------------------------------------------------- the storage module

  /** An array React compares by reference. */
  class EntryList {
    const items: seq<Entry>

    constructor (items: seq<Entry>)
      ensures this.items == items
    {
      this.items := items;
    }
  }

  class ReceiptStorage {
    const codec: Codec
    var stored: Option<string>         // localStorage, also written by other tabs
    var cachedRaw: Option<string>
    var cachedSnapshot: EntryList

    /** The cache is right about the text it was computed from. */
    ghost predicate Valid()
      reads this
    {
      cachedSnapshot.items == Parse(codec, cachedRaw)
    }

    constructor (codec: Codec)
      ensures Valid() && this.codec == codec && stored == None && cachedRaw == None
    {
      this.codec := codec;
      var none := new EntryList([]);
      stored, cachedRaw, cachedSnapshot := None, None, none;
    }

    /** `readRaw`; getItem may throw, and there may be no window. */
    function ReadRaw(readable: bool): Option<string> reads this { if readable then stored else None }

    /**
     Whatever the text holds, the valid entries in it are listed, in order; nothing if there is no
     readable text or it is not an array.  A list that was written is read back.
     */
    method ListReceipts(readable: bool) returns (es: seq<Entry>)
      ensures es == Parse(codec, ReadRaw(readable))
      ensures !readable || stored.None? || codec.decode(stored.value).None? ==> es == []
      ensures readable && stored.Some? && stored.value != "" && codec.decode(stored.value).Some? ==>
                var xs := codec.decode(stored.value).value;
                && (forall e :: e in es <==> Some(e) in xs)
                && (forall i :: 0 <= i < |xs| && xs[i].Some? ==> Keep(xs[..i]) + [xs[i].value] <= es)
      ensures codec.Valid() ==> forall list :: readable && stored == Some(codec.encode(list)) ==> es == list
    {
      var raw := ReadRaw(readable);
      es := Parse(codec, raw);
      if raw.Some? && raw.value != "" && codec.decode(raw.value).Some? {
        KeepsInOrder(codec.decode(raw.value).value);
      }
      forall list | codec.Valid() && raw == Some(codec.encode(list)) ensures es == list { ParseEncode(codec, list); }
    }

    /** The snapshot always equals the list, and is the same array as long as the text is the same. */
    method GetReceiptsSnapshot(readable: bool) returns (snapshot: EntryList)
      requires Valid()
      modifies this`cachedRaw, this`cachedSnapshot
      ensures Valid() && snapshot == cachedSnapshot && cachedRaw == ReadRaw(readable)
      ensures snapshot.items == Parse(codec, ReadRaw(readable))
      ensures ReadRaw(readable) == old(cachedRaw) ==> snapshot == old(cachedSnapshot)
    {
      var raw := ReadRaw(readable);
      if raw != cachedRaw {
        cachedRaw := raw;
        cachedSnapshot := new EntryList(Parse(codec, raw));
      }
      snapshot := cachedSnapshot;
    }

    method SaveReceipt(id: string, receipt: string, prompt: string, now: int, readable: bool, fails: bool)
      requires codec.Valid()
      modifies this`stored
      ensures fails ==> stored == old(stored)
      ensures !fails ==>
                var preview := if |prompt| <= 80 then prompt else prompt[..80];
                Parse(codec, stored) == Saved(Parse(codec, old(ReadRaw(readable))), Entry(id, receipt, now, preview))
    {
      var entries := ListReceipts(readable);
      var filtered := FilterOut(entries, id);
      var next := Entry(id, receipt, now, if |prompt| <= PREVIEW then prompt else prompt[..PREVIEW]);
      var trimmed := [next] + filtered;
      if |trimmed| > MAX {
        trimmed := trimmed[..MAX];
      }
      if !fails {
        stored := Some(codec.encode(trimmed));
        ParseEncode(codec, trimmed);
      }
    }

    method RemoveReceipt(id: string, readable: bool, fails: bool)
      requires codec.Valid()
      modifies this`stored
      ensures fails ==> stored == old(stored)
      ensures !fails ==> Parse(codec, stored) == Without(Parse(codec, old(ReadRaw(readable))), id)
    {
      var entries := ListReceipts(readable);
      var filtered := FilterOut(entries, id);
      if !fails {
        stored := Some(codec.encode(filtered));
        ParseEncode(codec, filtered);
      }
    }

    method ClearReceipts(fails: bool)
      modifies this`stored
      ensures fails ==> stored == old(stored)
      ensures !fails ==> Parse(codec, stored) == []
    {
      if !fails {
        stored := None;
      }
    }
  }

  /** `entries.filter((e) => e.receipt.receipt.id !== id)`. */
  method FilterOut(es: seq<Entry>, id: string) returns (out: seq<Entry>)
    ensures out == Without(es, id)
  {
    out := [];
    for i := 0 to |es|
      invariant out == Without(es[..i], id)
    {
      assert es[..i + 1] == es[..i] + [es[i]];
      WithoutAppend(es[..i], [es[i]], id);
      assert [es[i]][1..] == [];
      if es[i].id != id {
        out := out + [es[i]];
      }
    }
    assert es[..|es|] == es;
  }
}
