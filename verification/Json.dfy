/**
 The JSON printing both ends of a receipt rely on: `JSON.stringify` in the SDK and
 `json.Marshal` in the gateway, for records of strings and integers with a fixed field order.
 Strings are sequences of UTF-16 code units.  On the Go side, where a string is bytes, a lone
 surrogate stands for one byte that is not part of valid UTF-8 (see `ByteUnit`); in JavaScript
 it is just itself.  Escaping follows section 7 of RFC 8259.
 */
module Json {
  import opened Wrappers

  type Unit = u: int | 0 <= u < 0x10000
  type Text = seq<Unit>

  const QUOTE: Unit := 0x22
  const BACKSLASH: Unit := 0x5C
  const MINUS: Unit := 0x2D
  const LETTER_U: Unit := 0x75
  const REPLACEMENT: Unit := 0xFFFD

  /** The stand-in for a byte of a Go string that is not part of valid UTF-8. */
  function ByteUnit(b: int): Unit
    requires 0x80 <= b <= 0xFF
  {
    0xDC00 + b
  }

  /** Which encoder: `JSON.stringify`, or `json.Marshal`, which also escapes for HTML. */
  datatype Style = Script | Marshal

  predicate High(u: Unit) { 0xD800 <= u < 0xDC00 }
  predicate Low(u: Unit) { 0xDC00 <= u < 0xE000 }

  /** Less-than, greater-than, ampersand, U+2028 and U+2029. */
  predicate ForHtml(u: Unit) { u in {0x3C, 0x3E, 0x26, 0x2028, 0x2029} }

  function HexDigit(n: int): Unit
    requires 0 <= n < 16
  {
    if n < 10 then 0x30 + n else 0x57 + n
  }

  function UnicodeEscape(u: Unit): Text {
    [BACKSLASH, LETTER_U, HexDigit(u / 16 / 16 / 16), HexDigit(u / 16 / 16 % 16), HexDigit(u / 16 % 16), HexDigit(u % 16)]
  }

  /** The letter of a two-character escape: \" \\ \b \f \n \r \t. */
  function ShortEscape(u: Unit): Option<Unit> {
    if u == QUOTE || u == BACKSLASH then Some(u)
    else if u == 0x08 then Some(0x62)
    else if u == 0x0C then Some(0x66)
    else if u == 0x0A then Some(0x6E)
    else if u == 0x0D then Some(0x72)
    else if u == 0x09 then Some(0x74)
    else None
  }

  predicate Spelled(style: Style, u: Unit) { u < 0x20 || High(u) || Low(u) || (style.Marshal? && ForHtml(u)) }

  /** What a reader gets for a unit outside a pair: Go prints an invalid byte as U+FFFD. */
  function SeenUnit(style: Style, u: Unit): Unit {
    if style.Marshal? && (High(u) || Low(u)) then REPLACEMENT else u
  }

  function EscapeUnit(style: Style, u: Unit): Text {
    if ShortEscape(u).Some? then [BACKSLASH, ShortEscape(u).value]
    else if Spelled(style, u) then UnicodeEscape(SeenUnit(style, u))
    else [u]
  }

  predicate StartsWithPair(s: Text) { |s| >= 2 && High(s[0]) && Low(s[1]) }

  function Width(s: Text): nat { if StartsWithPair(s) then 2 else 1 }

  /** Surrogate pairs are copied, lone surrogates are spelled out. */
  function Head(style: Style, s: Text): Text
    requires s != []
  {
    if StartsWithPair(s) then s[..2] else EscapeUnit(style, s[0])
  }

  function Escape(style: Style, s: Text): Text
    decreases |s|
  {
    if s == [] then [] else Head(style, s) + Escape(style, s[Width(s)..])
  }

  function Quoted(style: Style, s: Text): Text { [QUOTE] + Escape(style, s) + [QUOTE] }

  /** The string as it reads after encoding: unchanged, except for the invalid bytes of a Go string. */
  function Seen(style: Style, s: Text): (t: Text)
    ensures s != [] ==> t != []
    decreases |s|
  {
    if s == [] then []
    else (if StartsWithPair(s) then s[..2] else [SeenUnit(style, s[0])]) + Seen(style, s[Width(s)..])
  }

  /** Every surrogate is half of a pair; of a Go string: it is valid UTF-8. */
  predicate WellFormed(s: Text)
    decreases |s|
  {
    s == [] || ((StartsWithPair(s) || !(High(s[0]) || Low(s[0]))) && WellFormed(s[Width(s)..]))
  }

  lemma {:induction false} SeenSame(style: Style, s: Text)
    requires style.Script? || WellFormed(s)
    ensures Seen(style, s) == s
    decreases |s|
  {
    if s != [] {
      SeenSame(style, s[Width(s)..]);
      assert s == s[..Width(s)] + s[Width(s)..];
    }
  }

  /** No surrogates at all, as in ASCII. */
  ghost predicate Basic(s: Text) { forall i :: 0 <= i < |s| ==> s[i] < 0xD800 }

  lemma {:induction false} BasicIsWellFormed(s: Text)
    requires Basic(s)
    ensures WellFormed(s)
  {
    if s != [] { BasicIsWellFormed(s[1..]); }
  }

  // ---------------------------------------------------------------- reading a string back

  function FromHex(u: Unit): Option<int> {
    if 0x30 <= u <= 0x39 then Some(u - 0x30)
    else if 0x61 <= u <= 0x66 then Some(u - 0x57)
    else if 0x41 <= u <= 0x46 then Some(u - 0x37)
    else None
  }

  function FourHex(t: Text): Option<Unit>
    requires |t| >= 4
  {
    match (FromHex(t[0]), FromHex(t[1]), FromHex(t[2]), FromHex(t[3]))
    case (Some(a), Some(b), Some(c), Some(d)) =>
      assert 0 <= a < 16 && 0 <= b < 16 && 0 <= c < 16 && 0 <= d < 16;
      Some(((a * 16 + b) * 16 + c) * 16 + d)
    case _ => None
  }

  function FromShort(u: Unit): Option<Unit> {
    if u == QUOTE || u == BACKSLASH || u == 0x2F then Some(u)
    else if u == 0x62 then Some(0x08)
    else if u == 0x66 then Some(0x0C)
    else if u == 0x6E then Some(0x0A)
    else if u == 0x72 then Some(0x0D)
    else if u == 0x74 then Some(0x09)
    else None
  }

  function Prepend(p: Text, r: Option<(Text, Text)>): Option<(Text, Text)> {
    match r case None => None case Some((s, rest)) => Some((p + s, rest))
  }

  /** A JSON string without its opening quote: its value, and what follows its closing quote. */
  function ParseString(t: Text): Option<(Text, Text)>
    decreases |t|
  {
    if t == [] then None
    else if t[0] == QUOTE then Some(([], t[1..]))
    else if t[0] < 0x20 then None
    else if t[0] != BACKSLASH then Prepend([t[0]], ParseString(t[1..]))
    else if |t| < 2 then None
    else if t[1] != LETTER_U then
      match FromShort(t[1]) case None => None case Some(u) => Prepend([u], ParseString(t[2..]))
    else if |t| < 6 then None
    else
      match FourHex(t[2..6]) case None => None case Some(u) => Prepend([u], ParseString(t[6..]))
  }

  lemma HexRoundTrip(n: int)
    requires 0 <= n < 16
    ensures FromHex(HexDigit(n)) == Some(n)
  {
  }

  lemma UnicodeRoundTrip(u: Unit)
    ensures FourHex(UnicodeEscape(u)[2..6]) == Some(u)
  {
    var q1, q2, q3 := u / 16, u / 16 / 16, u / 16 / 16 / 16;
    HexRoundTrip(q3);
    HexRoundTrip(q2 % 16);
    HexRoundTrip(q1 % 16);
    HexRoundTrip(u % 16);
    assert q2 == q3 * 16 + q2 % 16 && q1 == q2 * 16 + q1 % 16;
  }

  lemma UnitRoundTrip(style: Style, u: Unit, t: Text)
    ensures ParseString(EscapeUnit(style, u) + t) == Prepend([SeenUnit(style, u)], ParseString(t))
  {
    var all := EscapeUnit(style, u) + t;
    if ShortEscape(u).Some? {
      assert all[2..] == t;
    } else if Spelled(style, u) {
      UnicodeRoundTrip(SeenUnit(style, u));
      assert all[2..6] == UnicodeEscape(SeenUnit(style, u))[2..6] && all[6..] == t;
    } else {
      assert all[1..] == t;
    }
  }

  lemma PairRoundTrip(hi: Unit, lo: Unit, t: Text)
    requires High(hi) && Low(lo)
    ensures ParseString([hi, lo] + t) == Prepend([hi, lo], ParseString(t))
  {
    assert ([hi, lo] + t)[1..] == [lo] + t && ([lo] + t)[1..] == t;
    if ParseString(t).Some? {
      var s := ParseString(t).value.0;
      assert [hi] + ([lo] + s) == [hi, lo] + s;
    }
  }

  lemma HeadRoundTrip(style: Style, s: Text, t: Text)
    requires s != []
    ensures var seen := if StartsWithPair(s) then s[..2] else [SeenUnit(style, s[0])];
            ParseString(Head(style, s) + t) == Prepend(seen, ParseString(t))
  {
    if StartsWithPair(s) {
      assert s[..2] == [s[0], s[1]];
      PairRoundTrip(s[0], s[1], t);
    } else {
      UnitRoundTrip(style, s[0], t);
    }
  }

  /** Decoding either encoder's output gives the string back, up to the invalid bytes of a Go string. */
  lemma {:induction false} StringRoundTrip(style: Style, s: Text, rest: Text)
    ensures ParseString(Escape(style, s) + ([QUOTE] + rest)) == Some((Seen(style, s), rest))
    decreases |s|
  {
    var tail := [QUOTE] + rest;
    if s == [] {
      assert [] + tail == tail && tail[1..] == rest;
    } else {
      var more := Escape(style, s[Width(s)..]) + tail;
      assert Escape(style, s) + tail == Head(style, s) + more;
      StringRoundTrip(style, s[Width(s)..], rest);
      HeadRoundTrip(style, s, more);
    }
  }

  // ---------------------------------------------------------------- integers

  predicate IsDigit(u: Unit) { 0x30 <= u <= 0x39 }

  function Decimal(n: nat): Text { if n < 10 then [0x30 + n] else Decimal(n / 10) + [0x30 + n % 10] }

  function PrintInt(n: int): Text { if n < 0 then [MINUS] + Decimal(-n) else Decimal(n) }

  function ParseDigits(t: Text, acc: nat): (nat, Text)
    decreases |t|
  {
    if t != [] && IsDigit(t[0]) then ParseDigits(t[1..], acc * 10 + (t[0] - 0x30)) else (acc, t)
  }

  function Negated(r: (int, Text)): (int, Text) { (-r.0, r.1) }

  function ParseInt(t: Text): (int, Text) {
    if t != [] && t[0] == MINUS then Negated(ParseDigits(t[1..], 0)) else ParseDigits(t, 0)
  }

  lemma {:induction false} DecimalRoundTrip(n: nat, t: Text)
    ensures ParseDigits(Decimal(n) + t, 0) == ParseDigits(t, n)
  {
    if n < 10 {
      assert (Decimal(n) + t)[1..] == t;
    } else {
      var d: Unit := 0x30 + n % 10;
      DecimalRoundTrip(n / 10, [d] + t);
      assert Decimal(n) + t == Decimal(n / 10) + ([d] + t);
      assert ([d] + t)[1..] == t;
    }
  }

  lemma {:induction false} DecimalStartsWithDigit(n: nat)
    ensures Decimal(n) != [] && IsDigit(Decimal(n)[0])
  {
    if n >= 10 { DecimalStartsWithDigit(n / 10); }
  }

  lemma IntRoundTrip(n: int, rest: Text)
    requires rest == [] || !IsDigit(rest[0])
    ensures ParseInt(PrintInt(n) + rest) == (n, rest)
  {
    DecimalRoundTrip(if n < 0 then -n else n, rest);
    if n < 0 {
      assert (PrintInt(n) + rest)[1..] == Decimal(-n) + rest;
    } else {
      DecimalStartsWithDigit(n);
    }
  }

  // ---------------------------------------------------------------- records with a fixed layout

  datatype Item = Str(text: Text) | Num(number: int)

  function PrintItem(style: Style, item: Item): Text {
    match item case Str(s) => Quoted(style, s) case Num(n) => PrintInt(n)
  }

  /** Literal text, item, literal text, item, ..., literal text. */
  function Render(style: Style, keys: seq<Text>, items: seq<Item>): Text
    requires |keys| == |items| + 1
  {
    if items == [] then keys[0]
    else keys[0] + (PrintItem(style, items[0]) + Render(style, keys[1..], items[1..]))
  }

  /** No literal can be mistaken for more digits of the number before it. */
  ghost predicate Delimited(keys: seq<Text>) { forall i :: 0 < i < |keys| ==> keys[i] != [] && !IsDigit(keys[i][0]) }

  function Kinds(items: seq<Item>): seq<bool> { seq(|items|, i requires 0 <= i < |items| => items[i].Str?) }

  function SeenItem(style: Style, item: Item): Item { if item.Str? then Str(Seen(style, item.text)) else item }

  /** The record as it reads after encoding. */
  function SeenItems(style: Style, items: seq<Item>): seq<Item> {
    seq(|items|, i requires 0 <= i < |items| => SeenItem(style, items[i]))
  }

  function ParseItem(wantString: bool, t: Text): Option<(Item, Text)> {
    if wantString then
      if t != [] && t[0] == QUOTE then
        match ParseString(t[1..]) case None => None case Some((s, rest)) => Some((Str(s), rest))
      else None
    else var (n, rest) := ParseInt(t); Some((Num(n), rest))
  }

  /** Reads a record of the given layout; `kinds` says which items are strings. */
  function ParseRecord(keys: seq<Text>, kinds: seq<bool>, t: Text): Option<seq<Item>>
    requires |keys| == |kinds| + 1
    decreases |kinds|
  {
    if !(keys[0] <= t) then None
    else if kinds == [] then (if t == keys[0] then Some([]) else None)
    else
      match ParseItem(kinds[0], t[|keys[0]|..])
      case None => None
      case Some((item, rest)) =>
        match ParseRecord(keys[1..], kinds[1..], rest) case None => None case Some(items) => Some([item] + items)
  }

  lemma QuotedRoundTrip(style: Style, s: Text, rest: Text)
    ensures ParseItem(true, Quoted(style, s) + rest) == Some((Str(Seen(style, s)), rest))
  {
    var body := Escape(style, s) + ([QUOTE] + rest);
    assert Quoted(style, s) + rest == [QUOTE] + body;
    assert ([QUOTE] + body)[1..] == body;
    assert ParseString(body) == Some((Seen(style, s), rest)) by { StringRoundTrip(style, s, rest); }
  }

  lemma ItemRoundTrip(style: Style, item: Item, rest: Text)
    requires rest == [] || !IsDigit(rest[0])
    ensures ParseItem(item.Str?, PrintItem(style, item) + rest) == Some((SeenItem(style, item), rest))
  {
    match item
    case Str(s) => QuotedRoundTrip(style, s, rest);
    case Num(n) => IntRoundTrip(n, rest);
  }

  lemma RenderSplit(style: Style, keys: seq<Text>, items: seq<Item>)
    requires |keys| == |items| + 1 && items != [] && Delimited(keys)
    ensures keys[0] <= Render(style, keys, items)
    ensures Render(style, keys, items)[|keys[0]|..] == PrintItem(style, items[0]) + Render(style, keys[1..], items[1..])
    ensures var rest := Render(style, keys[1..], items[1..]); rest != [] && !IsDigit(rest[0])
  {
  }

  /** Reading a record undoes writing it, up to the invalid bytes of a Go string. */
  lemma {:induction false} RecordRoundTrip(style: Style, keys: seq<Text>, items: seq<Item>)
    requires |keys| == |items| + 1 && Delimited(keys)
    ensures ParseRecord(keys, Kinds(items), Render(style, keys, items)) == Some(SeenItems(style, items))
    decreases |items|
  {
    if items != [] {
      RenderSplit(style, keys, items);
      ItemRoundTrip(style, items[0], Render(style, keys[1..], items[1..]));
      RecordRoundTrip(style, keys[1..], items[1..]);
      assert Kinds(items)[1..] == Kinds(items[1..]);
      assert SeenItems(style, items) == [SeenItem(style, items[0])] + SeenItems(style, items[1..]);
    }
  }

  /** The text of a record determines what its items read as, whichever encoder produced it. */
  lemma RenderInjective(style: Style, style': Style, keys: seq<Text>, a: seq<Item>, b: seq<Item>)
    requires |keys| == |a| + 1 && |a| == |b| && Kinds(a) == Kinds(b) && Delimited(keys)
    requires Render(style, keys, a) == Render(style', keys, b)
    ensures SeenItems(style, a) == SeenItems(style', b)
  {
    RecordRoundTrip(style, keys, a);
    RecordRoundTrip(style', keys, b);
  }

  // ---------------------------------------------------------------- where the encoders differ

  /** Characters escaped for HTML and invalid bytes: what re-encoding in JavaScript prints differently. */
  function Altered(s: Text): nat
    decreases |s|
  {
    if s == [] then 0 else (if AlteredHead(s) then 1 else 0) + Altered(s[Width(s)..])
  }

  predicate AlteredHead(s: Text)
    requires s != []
  {
    !StartsWithPair(s) && (ForHtml(s[0]) || High(s[0]) || Low(s[0]))
  }

  function AlteredItems(items: seq<Item>): nat {
    if items == [] then 0
    else (if items[0].Str? then Altered(items[0].text) else 0) + AlteredItems(items[1..])
  }

  lemma SeenHead(s: Text)
    requires s != []
    ensures var t := Seen(Marshal, s);
            && t != [] && Width(t) == Width(s) && t[Width(t)..] == Seen(Marshal, s[Width(s)..])
            && |Head(Marshal, s)| == |Head(Script, t)| + (if AlteredHead(s) then 5 else 0)
            && (!AlteredHead(s) ==> Head(Marshal, s) == Head(Script, t))
  {
    var rest := Seen(Marshal, s[Width(s)..]);
    if StartsWithPair(s) {
      assert Seen(Marshal, s) == s[..2] + rest;
      assert (s[..2] + rest)[2..] == rest && (s[..2] + rest)[..2] == s[..2];
    } else {
      assert Seen(Marshal, s) == [SeenUnit(Marshal, s[0])] + rest;
      assert ([SeenUnit(Marshal, s[0])] + rest)[1..] == rest;
    }
  }

  /** JavaScript, re-encoding what it read, prints five characters less for everything altered. */
  lemma {:induction false} EscapeGap(s: Text)
    ensures |Escape(Marshal, s)| == |Escape(Script, Seen(Marshal, s))| + 5 * Altered(s)
    ensures Altered(s) == 0 ==> Escape(Marshal, s) == Escape(Script, Seen(Marshal, s))
    decreases |s|
  {
    if s != [] {
      EscapeGap(s[Width(s)..]);
      SeenHead(s);
    }
  }

  lemma {:induction false} RenderGap(keys: seq<Text>, items: seq<Item>)
    requires |keys| == |items| + 1
    ensures |Render(Marshal, keys, items)| == |Render(Script, keys, SeenItems(Marshal, items))| + 5 * AlteredItems(items)
    ensures AlteredItems(items) == 0 ==> Render(Marshal, keys, items) == Render(Script, keys, SeenItems(Marshal, items))
    decreases |items|
  {
    if items != [] {
      if items[0].Str? { EscapeGap(items[0].text); }
      RenderGap(keys[1..], items[1..]);
      assert SeenItems(Marshal, items)[1..] == SeenItems(Marshal, items[1..]);
    }
  }

  /** JavaScript, re-encoding a record it read from Go, reproduces Go's text exactly when nothing was altered. */
  lemma EncodersAgreeIff(keys: seq<Text>, items: seq<Item>)
    requires |keys| == |items| + 1
    ensures Render(Marshal, keys, items) == Render(Script, keys, SeenItems(Marshal, items)) <==> AlteredItems(items) == 0
  {
    RenderGap(keys, items);
  }

  ghost predicate PlainText(s: Text) { forall u :: u in s ==> !ForHtml(u) }

  /** Nothing is altered exactly in valid UTF-8 without a character escaped for HTML. */
  lemma {:induction false} AlteredZeroIff(s: Text)
    ensures Altered(s) == 0 <==> PlainText(s) && WellFormed(s)
    decreases |s|
  {
    if s != [] {
      AlteredZeroIff(s[Width(s)..]);
      assert s == s[..Width(s)] + s[Width(s)..];
      assert StartsWithPair(s) ==> s[..2] == [s[0], s[1]];
      assert !StartsWithPair(s) ==> s[..1] == [s[0]];
    }
  }
}
