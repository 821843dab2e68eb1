/**
 Receipts end to end: issued and signed by gateway/receipt.go, checked by `validateReceipt` of
 gateway/main.go, and verified by sdk/typescript/src/receipts.ts and client.ts.

 Hashing, signing and key normalisation are functions of a `Crypto` value; what the theorems
 assume of them is stated where it is used.  Bodies and hashed messages are texts; their UTF-8
 encoding is injective and left implicit, and so is the base64 coating of the receipt header.
 A field of a receipt in the gateway may hold bytes that are not valid UTF-8 (see module Json).
 */
module Receipts {
  import opened Wrappers
  import opened Json

  /** A literal of the source, which is ASCII, as code units. */
  function Lit(s: string): (t: Text)
    ensures |t| == |s| && Basic(t)
  {
    seq(|s|, i requires 0 <= i < |s| => if s[i] as int < 0xD800 then s[i] as int else 0x3F)
  }

  datatype Payment = Payment(payer: Text, recipient: Text, amount: Text, token: Text, chainId: int, nonce: Text)
  datatype Service = Service(endpoint: Text, requestHash: Text, responseHash: Text)
  datatype Receipt = Receipt(id: Text, version: Text, timestamp: Text, payment: Payment, service: Service)
  datatype SignedReceipt = SignedReceipt(receipt: Receipt, signature: Text, serverPublicKey: Text)

  // ---------------------------------------------------------------- the signed bytes

  const COMMA: Unit := 0x2C
  const BRACE: Unit := 0x7D
  const COLON: Unit := 0x3A

  /** The text around the values, in declaration order. */
  const KEYS: seq<Text> := [
    Lit("{\"id\":"), [COMMA] + Lit("\"version\":"), [COMMA] + Lit("\"timestamp\":"),
    [COMMA] + Lit("\"payment\":{\"payer\":"), [COMMA] + Lit("\"recipient\":"), [COMMA] + Lit("\"amount\":"),
    [COMMA] + Lit("\"token\":"), [COMMA] + Lit("\"chainId\":"), [COMMA] + Lit("\"nonce\":"),
    [BRACE] + Lit(",\"service\":{\"endpoint\":"), [COMMA] + Lit("\"request_hash\":"),
    [COMMA] + Lit("\"response_hash\":"), [BRACE] + Lit("}")]

  function PaymentItems(p: Payment): seq<Item> {
    [Str(p.payer), Str(p.recipient), Str(p.amount), Str(p.token), Num(p.chainId), Str(p.nonce)]
  }

  function ServiceItems(v: Service): seq<Item> { [Str(v.endpoint), Str(v.requestHash), Str(v.responseHash)] }

  function Items(r: Receipt): seq<Item> {
    [Str(r.id), Str(r.version), Str(r.timestamp)] + PaymentItems(r.payment) + ServiceItems(r.service)
  }

  function Field(item: Item): Text { if item.Str? then item.text else [] }

  /** The receipt with the given items, if they are of the right kinds. */
  function FromItems(items: seq<Item>): Option<Receipt> {
    if |items| != 12 || !items[7].Num? then None
    else
      var (a, p, v) := (items[..3], items[3..9], items[9..]);
      Some(Receipt(Field(a[0]), Field(a[1]), Field(a[2]),
                   Payment(Field(p[0]), Field(p[1]), Field(p[2]), Field(p[3]), p[4].number, Field(p[5])),
                   Service(Field(v[0]), Field(v[1]), Field(v[2]))))
  }

  lemma FromItemsInverts(r: Receipt)
    ensures FromItems(Items(r)) == Some(r)
  {
    var items := Items(r);
    assert items[3..9] == PaymentItems(r.payment) && items[9..] == ServiceItems(r.service);
  }

  /** `json.Marshal(receipt)` and `serializeReceiptForGateway(receipt)`. */
  function Serialize(style: Style, r: Receipt): Text { Render(style, KEYS, Items(r)) }

  lemma KeysDelimited()
    ensures Delimited(KEYS) && |KEYS| == 13
  {
  }

  /** `"name":` after some punctuation. */
  function Named(before: string, name: string): Text { Lit(before) + [QUOTE] + Lit(name) + [QUOTE, COLON] }

  lemma HeadLayout()
    ensures KEYS[0] == Named("{", "id") && KEYS[1] == Named(",", "version") && KEYS[2] == Named(",", "timestamp")
  {
  }

  lemma PaymentLayout()
    ensures KEYS[3] == Lit(",\"payment\":") + Named("{", "payer") && KEYS[4] == Named(",", "recipient")
  {
  }

  lemma PriceLayout()
    ensures KEYS[5] == Named(",", "amount") && KEYS[6] == Named(",", "token")
    ensures KEYS[7] == Named(",", "chainId") && KEYS[8] == Named(",", "nonce")
  {
  }

  lemma ServiceLayout()
    ensures KEYS[9] == Lit("},\"service\":") + Named("{", "endpoint")
  {
  }

  lemma HashLayout()
    ensures KEYS[10] == Named(",", "request_hash") && KEYS[11] == Named(",", "response_hash") && KEYS[12] == Lit("}}")
  {
  }

  /** The member names and the nesting, as in the Go struct tags and the object literal of the SDK. */
  lemma SignedLayout()
    ensures KEYS[..3] == [Named("{", "id"), Named(",", "version"), Named(",", "timestamp")]
    ensures KEYS[3..9] == [Lit(",\"payment\":") + Named("{", "payer"), Named(",", "recipient"), Named(",", "amount"),
                           Named(",", "token"), Named(",", "chainId"), Named(",", "nonce")]
    ensures KEYS[9..] == [Lit("},\"service\":") + Named("{", "endpoint"), Named(",", "request_hash"),
                          Named(",", "response_hash"), Lit("}}")]
  {
    HeadLayout();
    PaymentLayout();
    PriceLayout();
    ServiceLayout();
    HashLayout();
  }

  lemma ItemsInjective(a: Receipt, b: Receipt)
    requires Items(a) == Items(b)
    ensures a == b
  {
    FromItemsInverts(a);
    FromItemsInverts(b);
  }

  /** The receipt with `f` applied to each of its strings. */
  function MapReceipt(f: Text -> Text, r: Receipt): Receipt {
    var p, v := r.payment, r.service;
    Receipt(f(r.id), f(r.version), f(r.timestamp),
            Payment(f(p.payer), f(p.recipient), f(p.amount), f(p.token), p.chainId, f(p.nonce)),
            Service(f(v.endpoint), f(v.requestHash), f(v.responseHash)))
  }

  function MapItem(f: Text -> Text, item: Item): Item { if item.Str? then Str(f(item.text)) else item }

  lemma MapReceiptItems(f: Text -> Text, r: Receipt, i: nat)
    requires i < 12
    ensures Items(MapReceipt(f, r))[i] == MapItem(f, Items(r)[i])
  {
  }

  /** The receipt as it reads after encoding. */
  function ReadAs(style: Style, r: Receipt): Receipt { MapReceipt(t => Seen(style, t), r) }

  lemma ReadAsItems(style: Style, r: Receipt)
    ensures Items(ReadAs(style, r)) == SeenItems(style, Items(r))
  {
    forall i | 0 <= i < 12 ensures Items(ReadAs(style, r))[i] == SeenItem(style, Items(r)[i]) {
      MapReceiptItems(t => Seen(style, t), r, i);
    }
  }

  lemma SeenItemsAppend(style: Style, a: seq<Item>, b: seq<Item>)
    ensures SeenItems(style, a + b) == SeenItems(style, a) + SeenItems(style, b)
  {
  }

  /** No string of the receipt has a character that Go escapes for HTML. */
  ghost predicate Plain(r: Receipt) {
    forall i :: 0 <= i < |Items(r)| && Items(r)[i].Str? ==> PlainText(Items(r)[i].text)
  }

  /** Every string of the receipt is valid UTF-8. */
  ghost predicate Utf8(r: Receipt) {
    forall i :: 0 <= i < |Items(r)| && Items(r)[i].Str? ==> WellFormed(Items(r)[i].text)
  }

  lemma {:induction false} AlteredItemsZeroIff(items: seq<Item>)
    ensures AlteredItems(items) == 0 <==>
            forall i :: 0 <= i < |items| && items[i].Str? ==> PlainText(items[i].text) && WellFormed(items[i].text)
    decreases |items|
  {
    if items != [] {
      AlteredItemsZeroIff(items[1..]);
      if items[0].Str? { AlteredZeroIff(items[0].text); }
      assert forall i :: 1 <= i < |items| ==> items[i] == items[1..][i - 1];
      assert items == [items[0]] + items[1..];
    }
  }

  /** The SDK, from the receipt it read, rebuilds the bytes the gateway signed iff it is plain and valid UTF-8. */
  lemma SerializationsAgreeIff(r: Receipt)
    ensures Serialize(Script, ReadAs(Marshal, r)) == Serialize(Marshal, r) <==> Plain(r) && Utf8(r)
  {
    ReadAsItems(Marshal, r);
    EncodersAgreeIff(KEYS, Items(r));
    AlteredItemsZeroIff(Items(r));
  }

  lemma Utf8ReadsAsItself(style: Style, r: Receipt)
    requires style.Script? || Utf8(r)
    ensures ReadAs(style, r) == r
  {
    var items := Items(r);
    forall i | 0 <= i < |items| ensures SeenItem(style, items[i]) == items[i] {
      if items[i].Str? { SeenSame(style, items[i].text); }
    }
    assert SeenItems(style, items) == items;
    ReadAsItems(style, r);
    ItemsInjective(ReadAs(style, r), r);
  }

  /** The text of a receipt determines every field as it reads, across the two encoders. */
  lemma SerializeInjective(style: Style, style': Style, a: Receipt, b: Receipt)
    requires Serialize(style, a) == Serialize(style', b)
    ensures ReadAs(style, a) == ReadAs(style', b)
  {
    KeysDelimited();
    RenderInjective(style, style', KEYS, Items(a), Items(b));
    ReadAsItems(style, a);
    ReadAsItems(style', b);
    ItemsInjective(ReadAs(style, a), ReadAs(style', b));
  }

  /** If the SDK's text equals a text the gateway signed, the two receipts are equal in every field. */
  lemma SignedTextDetermines(a: Receipt, b: Receipt)
    requires Serialize(Script, a) == Serialize(Marshal, b)
    ensures a == b && Plain(b) && Utf8(b)
  {
    SerializeInjective(Script, Marshal, a, b);
    Utf8ReadsAsItself(Script, a);
    SerializationsAgreeIff(b);
    Utf8ReadsAsItself(Marshal, b);
  }

  // ---------------------------------------------------------------- issuing

  datatype Crypto<!Digest, Key> = Crypto(
    keccak: Text -> Digest,
    recover: (Digest, Text) -> Option<Key>,  // signature text to signer; None when malformed
    normalize: Text -> Option<Key>,          // public-key text to canonical key; None when malformed
    sha: Text -> Text)                       // hex text of SHA-256

  const SHA_PREFIX := Lit("sha256:")
  const EMPTY_SHA := Lit("e3b0c44298fc1c149afbf4c8996fb92427ae41e4649b934ca495991b7852b855")
  const ID_PREFIX := Lit("rcpt_")
  const ZERO_TIME := Lit("0001-01-01T00:00:00Z")

  type Byte = b: int | 0 <= b < 256

  predicate LowerHex(u: Unit) { 0x30 <= u <= 0x39 || 0x61 <= u <= 0x66 }

  function Hex(bytes: seq<Byte>): (t: Text)
    ensures |t| == 2 * |bytes| && forall i :: 0 <= i < |t| ==> LowerHex(t[i])
  {
    if bytes == [] then [] else [HexDigit(bytes[0] / 16), HexDigit(bytes[0] % 16)] + Hex(bytes[1..])
  }

  lemma {:induction false} HexInjective(a: seq<Byte>, b: seq<Byte>)
    requires Hex(a) == Hex(b)
    ensures a == b
    decreases |a|
  {
    if a != [] && b != [] {
      var s, t := Hex(a), Hex(b);
      assert s[2..] == Hex(a[1..]) && t[2..] == Hex(b[1..]);
      HexInjective(a[1..], b[1..]);
      assert s[0] == t[0] && s[1] == t[1];
      DigitsInjective(a[0], b[0]);
      assert a == [a[0]] + a[1..] && b == [b[0]] + b[1..];
    }
  }

  lemma DigitsInjective(a: Byte, b: Byte)
    requires HexDigit(a / 16) == HexDigit(b / 16) && HexDigit(a % 16) == HexDigit(b % 16)
    ensures a == b
  {
    HexRoundTrip(a / 16);
    HexRoundTrip(b / 16);
    HexRoundTrip(a % 16);
    HexRoundTrip(b % 16);
  }

  /** `generateReceiptID` from six random bytes. */
  function ReceiptId(random: seq<Byte>): Text { ID_PREFIX + Hex(random) }

  /** Ids are equal exactly when the random bytes are. */
  lemma IdsDistinct(a: seq<Byte>, b: seq<Byte>)
    ensures ReceiptId(a) == ReceiptId(b) <==> a == b
  {
    if ReceiptId(a) == ReceiptId(b) {
      assert ReceiptId(a)[|ID_PREFIX|..] == Hex(a) && ReceiptId(b)[|ID_PREFIX|..] == Hex(b);
      HexInjective(a, b);
    }
  }

  function HashData<D, K>(c: Crypto<D, K>, data: Text): Text {
    SHA_PREFIX + if data == [] then EMPTY_SHA else c.sha(data)
  }

  datatype PaymentContext = PaymentContext(recipient: Text, token: Text, amount: Text, nonce: Text, chainId: int)

  /** `GenerateReceipt`, before signing; the random bytes and the clock are arguments. */
  function GenerateReceipt<D, K>(c: Crypto<D, K>, random: seq<Byte>, now: Text, p: PaymentContext, payer: Text,
                                 endpoint: Text, reqBody: Text, respBody: Text): Receipt {
    Receipt(ReceiptId(random), Lit("1.0"), now,
            Payment(payer, p.recipient, p.amount, p.token, p.chainId, p.nonce),
            Service(endpoint, HashData(c, reqBody), HashData(c, respBody)))
  }

  // ---------------------------------------------------------------- the gateway's own check

  datatype ReceiptError =
    | NilReceipt | BadId | EmptyVersion | ZeroTimestamp | EmptyPayer | EmptyRecipient | EmptyAmount | EmptyToken
    | EmptyNonce | EmptyEndpoint | EmptyRequestHash | EmptyResponseHash
    | EmptySignature | BadSignature | EmptyPublicKey | BadPublicKey

  predicate ValidId(id: Text) {
    |id| == 17 && ID_PREFIX <= id && forall i :: 5 <= i < 17 ==> LowerHex(id[i])
  }

  const HEX_PREFIX := Lit("0x")

  /** `validateReceipt`: the first check that fails. */
  function ValidateReceipt(receipt: Option<SignedReceipt>): Option<ReceiptError> {
    if receipt.None? then Some(NilReceipt)
    else
      var sr := receipt.value;
      var r := sr.receipt;
      if !ValidId(r.id) then Some(BadId)
      else if r.version == [] then Some(EmptyVersion)
      else if r.timestamp == ZERO_TIME then Some(ZeroTimestamp)
      else if r.payment.payer == [] then Some(EmptyPayer)
      else if r.payment.recipient == [] then Some(EmptyRecipient)
      else if r.payment.amount == [] then Some(EmptyAmount)
      else if r.payment.token == [] then Some(EmptyToken)
      else if r.payment.nonce == [] then Some(EmptyNonce)
      else if r.service.endpoint == [] then Some(EmptyEndpoint)
      else if r.service.requestHash == [] then Some(EmptyRequestHash)
      else if r.service.responseHash == [] then Some(EmptyResponseHash)
      else if sr.signature == [] then Some(EmptySignature)
      else if !(HEX_PREFIX <= sr.signature) then Some(BadSignature)
      else if sr.serverPublicKey == [] then Some(EmptyPublicKey)
      else if !(HEX_PREFIX <= sr.serverPublicKey) then Some(BadPublicKey)
      else None
  }

  // ---------------------------------------------------------------- the SDK's checks

  const MAX_SAFE := 0x1F_FFFF_FFFF_FFFF

  predicate Prefixed(s: Text, prefix: Text) { s != [] && prefix <= s }

  predicate ValidateReceiptFormat(sr: SignedReceipt) {
    var r := sr.receipt;
    && Prefixed(r.id, ID_PREFIX) && r.version != [] && r.timestamp != []
    && r.payment.payer != [] && r.payment.recipient != [] && r.payment.amount != [] && r.payment.token != []
    && 0 < r.payment.chainId <= MAX_SAFE && r.payment.nonce != []
    && r.service.endpoint != []
    && Prefixed(r.service.requestHash, SHA_PREFIX) && Prefixed(r.service.responseHash, SHA_PREFIX)
    && Prefixed(sr.signature, HEX_PREFIX) && Prefixed(sr.serverPublicKey, HEX_PREFIX)
  }

  /**
   The two shape checks compared: the SDK's also bounds the chain id and asks for hash prefixes and
   a timestamp text, the gateway's for a well-formed id and a nonzero time; in all else they agree.
   */
  lemma ShapesAgreeIff(sr: SignedReceipt)
    ensures var r := sr.receipt;
            && ValidateReceipt(Some(sr)).None? && r.timestamp != [] && 0 < r.payment.chainId <= MAX_SAFE
            && SHA_PREFIX <= r.service.requestHash && SHA_PREFIX <= r.service.responseHash
            <==>
            ValidateReceiptFormat(sr) && ValidId(r.id) && r.timestamp != ZERO_TIME
  {
    assert |HEX_PREFIX| == 2 && |ID_PREFIX| == 5 && |SHA_PREFIX| == 7;
  }

  function NormalizePublicKey<D, K>(c: Crypto<D, K>, key: Option<Text>): Option<K> {
    if key.None? || key.value == [] then None else c.normalize(key.value)
  }

  predicate VerifyReceipt<D, K(==)>(c: Crypto<D, K>, sr: SignedReceipt, expectedKey: Option<Text>) {
    && ValidateReceiptFormat(sr)
    && var expected := NormalizePublicKey(c, expectedKey);
    && expected.Some?
    && NormalizePublicKey(c, Some(sr.serverPublicKey)) == expected
    && c.recover(c.keccak(Serialize(Script, sr.receipt)), sr.signature) == expected
  }

  /** The message hashes like no other message the gateway has signed. */
  ghost predicate NoCollision<D, K>(c: Crypto<D, K>, message: Text, signed: set<Receipt>) {
    forall r :: r in signed && c.keccak(message) == c.keccak(Serialize(Marshal, r)) ==> message == Serialize(Marshal, r)
  }

  /** If this signature of this message is the gateway's, it is one the gateway made, for some signed receipt. */
  ghost predicate Unforged<D, K>(c: Crypto<D, K>, key: K, message: Text, signature: Text, signed: set<Receipt>) {
    c.recover(c.keccak(message), signature) == Some(key) ==>
      exists r :: r in signed && c.keccak(message) == c.keccak(Serialize(Marshal, r))
  }

  /** A receipt that verifies under the trusted key is, field for field, one the gateway signed. */
  lemma VerifiedIsAuthentic<D, K>(c: Crypto<D, K>, key: K, signed: set<Receipt>, sr: SignedReceipt,
                                  expectedKey: Option<Text>)
    requires NormalizePublicKey(c, expectedKey) == Some(key)
    requires Unforged(c, key, Serialize(Script, sr.receipt), sr.signature, signed)
    requires NoCollision(c, Serialize(Script, sr.receipt), signed)
    requires VerifyReceipt(c, sr, expectedKey)
    ensures sr.receipt in signed && Plain(sr.receipt) && Utf8(sr.receipt)
    ensures c.normalize(sr.serverPublicKey) == Some(key)
  {
    var d := c.keccak(Serialize(Script, sr.receipt));
    assert c.recover(d, sr.signature) == Some(key);
    var r :| r in signed && d == c.keccak(Serialize(Marshal, r));
    SignedTextDetermines(sr.receipt, r);
  }

  /** The text the SDK hashes for a receipt it read from the gateway. */
  function RebuiltText(r: Receipt): Text { Serialize(Script, ReadAs(Marshal, r)) }

  /**
   The signature at hand does not happen to fit the text the SDK rebuilds as well as the one that
   was signed: it yields the key under one of the digests only, and the digests do not collide.
   */
  ghost predicate Binding<D, K>(c: Crypto<D, K>, key: K, sr: SignedReceipt) {
    var d, d' := c.keccak(Serialize(Marshal, sr.receipt)), c.keccak(RebuiltText(sr.receipt));
    && (c.recover(d, sr.signature) == Some(key) && c.recover(d', sr.signature) == Some(key) ==> d == d')
    && NoCollision(c, RebuiltText(sr.receipt), {sr.receipt})
  }

  /** What the gateway hands out: `key` is its own, and the signature is over the Go encoding. */
  ghost predicate Issued<D, K>(c: Crypto<D, K>, key: K, sr: SignedReceipt) {
    && WellFormed(sr.signature) && WellFormed(sr.serverPublicKey)
    && sr.serverPublicKey != [] && c.normalize(sr.serverPublicKey) == Some(key)
    && c.recover(c.keccak(Serialize(Marshal, sr.receipt)), sr.signature) == Some(key)
  }

  /** The signed receipt as the client reads it from the header. */
  function ReadSigned(sr: SignedReceipt): SignedReceipt {
    SignedReceipt(ReadAs(Marshal, sr.receipt), Seen(Marshal, sr.signature), Seen(Marshal, sr.serverPublicKey))
  }

  /**
   The SDK verifies a genuine receipt of the right shape, as it reads it, exactly when its strings
   are valid UTF-8 and hold no character that Go's encoder escapes for HTML.
   */
  lemma GenuineVerifiesIff<D, K>(c: Crypto<D, K>, key: K, sr: SignedReceipt, expectedKey: Option<Text>)
    requires Binding(c, key, sr) && NormalizePublicKey(c, expectedKey) == Some(key)
    requires Issued(c, key, sr) && ValidateReceiptFormat(ReadSigned(sr))
    ensures VerifyReceipt(c, ReadSigned(sr), expectedKey) <==> Plain(sr.receipt) && Utf8(sr.receipt)
  {
    SeenSame(Marshal, sr.signature);
    SeenSame(Marshal, sr.serverPublicKey);
    SerializationsAgreeIff(sr.receipt);
  }

  /** A nonce of the single byte 0xFF, with nothing to escape for HTML, is enough to fail verification. */
  lemma InvalidByteNonceFails<D, K>(c: Crypto<D, K>, key: K, sr: SignedReceipt, expectedKey: Option<Text>)
    requires Binding(c, key, sr) && NormalizePublicKey(c, expectedKey) == Some(key)
    requires Issued(c, key, sr) && ValidateReceiptFormat(ReadSigned(sr))
    requires sr.receipt.payment.nonce == [ByteUnit(0xFF)]
    ensures PlainText(sr.receipt.payment.nonce) && !VerifyReceipt(c, ReadSigned(sr), expectedKey)
  {
    assert Items(sr.receipt)[8].text == [ByteUnit(0xFF)];
    GenuineVerifiesIff(c, key, sr, expectedKey);
  }

  /** ... and so is a nonce with any of the five characters that Go escapes for HTML. */
  lemma EscapedNonceFails<D, K>(c: Crypto<D, K>, key: K, sr: SignedReceipt, expectedKey: Option<Text>, u: Unit)
    requires Binding(c, key, sr) && NormalizePublicKey(c, expectedKey) == Some(key)
    requires Issued(c, key, sr) && ValidateReceiptFormat(ReadSigned(sr))
    requires u in sr.receipt.payment.nonce && (u == 0x3C || u == 0x3E || u == 0x26 || u == 0x2028 || u == 0x2029)
    ensures !VerifyReceipt(c, ReadSigned(sr), expectedKey)
  {
    assert Items(sr.receipt)[8].text == sr.receipt.payment.nonce;
    GenuineVerifiesIff(c, key, sr, expectedKey);
  }

  // ---------------------------------------------------------------- the header

  /** The layout of the receipt header: the receipt, its signature and the server's key. */
  const HEADER_KEYS: seq<Text> :=
    [Lit("{\"receipt\":") + KEYS[0]] + KEYS[1..12] +
    [KEYS[12] + Lit(",\"signature\":"), [COMMA] + Lit("\"server_public_key\":"), [BRACE]]

  function HeaderItems(sr: SignedReceipt): seq<Item> { Items(sr.receipt) + [Str(sr.signature), Str(sr.serverPublicKey)] }

  /** `json.Marshal(receipt)` of the signed receipt, as it goes into X-402-Receipt. */
  function HeaderText(sr: SignedReceipt): Text { Render(Marshal, HEADER_KEYS, HeaderItems(sr)) }

  function FromHeaderItems(items: seq<Item>): Option<SignedReceipt> {
    if |items| != 14 then None
    else match FromItems(items[..12])
         case None => None
         case Some(r) => Some(SignedReceipt(r, Field(items[12]), Field(items[13])))
  }

  const HEADER_KINDS: seq<bool> :=
    [true, true, true, true, true, true, true, false, true, true, true, true, true, true]

  /** `decodeReceiptHeader`, on text in the gateway's layout. */
  function DecodeHeader(text: Text): Option<SignedReceipt> {
    match ParseRecord(HEADER_KEYS, HEADER_KINDS, text) case None => None case Some(items) => FromHeaderItems(items)
  }

  lemma HeaderDelimited()
    ensures Delimited(HEADER_KEYS) && |HEADER_KEYS| == 15
  {
    KeysDelimited();
  }

  lemma HeaderKinds(sr: SignedReceipt)
    ensures Kinds(HeaderItems(sr)) == HEADER_KINDS
  {
  }

  lemma HeaderSeen(sr: SignedReceipt)
    ensures FromHeaderItems(SeenItems(Marshal, HeaderItems(sr))) == Some(ReadSigned(sr))
  {
    var r, tail := ReadAs(Marshal, sr.receipt), [Str(sr.signature), Str(sr.serverPublicKey)];
    SeenItemsAppend(Marshal, Items(sr.receipt), tail);
    ReadAsItems(Marshal, sr.receipt);
    FromItemsInverts(r);
    var seen := Items(r) + SeenItems(Marshal, tail);
    assert seen[..12] == Items(r);
    assert seen[12] == SeenItem(Marshal, tail[0]) && seen[13] == SeenItem(Marshal, tail[1]);
  }

  /** The client reads from the header what the gateway wrote, up to bytes that are not valid UTF-8. */
  lemma HeaderRoundTrip(sr: SignedReceipt)
    ensures DecodeHeader(HeaderText(sr)) == Some(ReadSigned(sr))
  {
    HeaderDelimited();
    HeaderKinds(sr);
    RecordRoundTrip(Marshal, HEADER_KEYS, HeaderItems(sr));
    HeaderSeen(sr);
  }

  // ---------------------------------------------------------------- the client

  predicate EndsPath(u: Unit) { u == 0x3F || u == 0x23 }  // ? or #

  /** `path.split(/[?#]/, 1)[0]`. */
  function BeforeQuery(path: Text): Text {
    if path == [] || EndsPath(path[0]) then [] else [path[0]] + BeforeQuery(path[1..])
  }

  /** It is the part of the path before the first question mark or number sign. */
  lemma {:induction false} BeforeQueryMeans(path: Text)
    ensures var p := BeforeQuery(path);
            && p <= path && 0x3F !in p && 0x23 !in p
            && (|p| < |path| ==> path[|p|] == 0x3F || path[|p|] == 0x23)
  {
    if path != [] {
      BeforeQueryMeans(path[1..]);
      assert path == [path[0]] + path[1..];
    }
  }

  const SLASH: Unit := 0x2F

  function BuildReceiptEndpoint(path: Text): Text {
    var p := BeforeQuery(path);
    if p == [] then [SLASH] else if p[0] == SLASH then p else [SLASH] + p
  }

  /** The part of `buildUrl(path)` after the origin; `base` is the path inside the configured gatewayUrl. */
  function RequestTarget(base: Text, path: Text): Text {
    base + if path != [] && path[0] == SLASH then path else [SLASH] + path
  }

  const DOT: Unit := 0x2E

  predicate EndsSegment(t: Text, i: nat) { i >= |t| || t[i] == SLASH }

  /** A segment `.` or `..` begins after position `i`. */
  predicate DotSegment(t: Text, i: nat)
    requires i < |t|
  {
    t[i] == SLASH && i + 1 < |t| && t[i + 1] == DOT &&
    (EndsSegment(t, i + 2) || (t[i + 2] == DOT && EndsSegment(t, i + 3)))
  }

  /** Neither the URL parser of the client nor the server rewrites this path. */
  predicate Verbatim(path: Text) {
    && (forall u :: u in path ==> 0x21 <= u <= 0x7E && u != BACKSLASH && u != 0x25)
    && (forall i :: 0 <= i < |path| ==> !DotSegment(path, i))
  }

  /** The path a server reads from a request target that nothing on the way rewrites. */
  function ServedPath(target: Text): Text
    requires Verbatim(BeforeQuery(target))
  {
    BeforeQuery(target)
  }

  lemma {:induction false} BeforeQueryAppend(base: Text, t: Text)
    requires forall u :: u in base ==> !EndsPath(u)
    ensures BeforeQuery(base + t) == base + BeforeQuery(t)
  {
    if base == [] {
      assert base + t == t;
    } else {
      assert base == [base[0]] + base[1..] && (base + t)[1..] == base[1..] + t;
      BeforeQueryAppend(base[1..], t);
    }
  }

  /** If nothing rewrites the path, the client expects what the gateway serves exactly when gatewayUrl has no path. */
  lemma EndpointMatchesIff(base: Text, path: Text)
    requires (forall u :: u in base ==> !EndsPath(u)) && Verbatim(BeforeQuery(RequestTarget(base, path)))
    ensures BuildReceiptEndpoint(path) == ServedPath(RequestTarget(base, path)) <==> base == []
  {
    var target := if path != [] && path[0] == SLASH then path else [SLASH] + path;
    BeforeQueryAppend(base, target);
    assert ([SLASH] + path)[1..] == path;
    assert BuildReceiptEndpoint(path) == BeforeQuery(target);
  }

  /** The one route that issues receipts; the router compares the whole decoded path with it. */
  const ROUTE := Lit("/api/ai/summarize")

  lemma RouteIsVerbatim()
    ensures ROUTE != [] && Verbatim(ROUTE)
  {
  }

  /** The client expects the route exactly when it is asked for it, with or without the leading slash. */
  lemma RouteExpectedIff(path: Text)
    ensures BuildReceiptEndpoint(path) == ROUTE <==> BeforeQuery(path) == ROUTE || [SLASH] + BeforeQuery(path) == ROUTE
  {
    var p := BeforeQuery(path);
    assert |ROUTE| == 17 && ROUTE[0] == SLASH && ROUTE[1] != SLASH;
    if p != [] && p[0] == SLASH { assert ([SLASH] + p)[1] == SLASH; }
  }

  /** A path that is rewritten on its way to the route is never the one the client expects. */
  lemma RewrittenNeverMatches(path: Text)
    requires !Verbatim(BuildReceiptEndpoint(path))
    ensures BuildReceiptEndpoint(path) != ROUTE
  {
    RouteIsVerbatim();
  }

  /** gatewayUrl with path /api and a request for /ai/summarize reach the route, but the client expects otherwise. */
  lemma JoinedPathMismatches()
    ensures var target := RequestTarget(Lit("/api"), Lit("/ai/summarize"));
            && Verbatim(BeforeQuery(target)) && ServedPath(target) == ROUTE
            && BuildReceiptEndpoint(Lit("/ai/summarize")) != ROUTE
  {
    var target := RequestTarget(Lit("/api"), Lit("/ai/summarize"));
    assert target == ROUTE;
    NoQuery(ROUTE);
    RouteIsVerbatim();
    EndpointMatchesIff(Lit("/api"), Lit("/ai/summarize"));
  }

  lemma {:induction false} NoQuery(t: Text)
    requires forall u :: u in t ==> !EndsPath(u)
    ensures BeforeQuery(t) == t
  {
    if t != [] { NoQuery(t[1..]); }
  }

  /** A request without a body is hashed as the empty text. */
  function BodyText(body: Option<Text>): Text { if body.None? then [] else body.value }

  function HashBody<D, K>(c: Crypto<D, K>, body: Option<Text>): Text { SHA_PREFIX + c.sha(BodyText(body)) }

  predicate ReceiptMatchesPayload<D, K>(c: Crypto<D, K>, sr: SignedReceipt, path: Text, reqBody: Option<Text>,
                                        respBody: Text)
  {
    && sr.receipt.service.endpoint == BuildReceiptEndpoint(path)
    && sr.receipt.service.requestHash == HashBody(c, reqBody)
    && sr.receipt.service.responseHash == HashBody(c, Some(respBody))
  }

  datatype Reading = Absent | Unreadable | Found(sr: SignedReceipt)

  /** `readReceipt`: the header has to hold a receipt of the right shape. */
  function ReadReceipt(header: Option<Text>): (reading: Reading)
    ensures reading.Absent? <==> header.None?
    ensures reading.Found? ==> ValidateReceiptFormat(reading.sr)
  {
    if header.None? then Absent
    else match DecodeHeader(header.value)
         case None => Unreadable
         case Some(sr) => if ValidateReceiptFormat(sr) then Found(sr) else Unreadable
  }

  /** The client finds the receipt the gateway wrote, as it reads, if its shape is right, and nothing else. */
  lemma WrittenIsFound(sr: SignedReceipt)
    ensures ReadReceipt(Some(HeaderText(sr)))
         == if ValidateReceiptFormat(ReadSigned(sr)) then Found(ReadSigned(sr)) else Unreadable
  {
    HeaderRoundTrip(sr);
  }

  datatype ClientOutcome = InvalidJson | DecodeFailed | NoReceipt | Mismatch | Untrusted | NotVerified | Verified

  /** The part of `readSuccess` after a receipt of the right shape has been read. */
  function JudgeReceipt<D, K(==)>(c: Crypto<D, K>, sr: SignedReceipt, path: Text, reqBody: Option<Text>, respBody: Text,
                                  trusted: Option<Text>): (outcome: ClientOutcome)
    ensures outcome.Mismatch? || outcome.Untrusted? || outcome.NotVerified? || outcome.Verified?
  {
    if !ReceiptMatchesPayload(c, sr, path, reqBody, respBody) then Mismatch
    else if trusted.None? then Untrusted
    else if VerifyReceipt(c, sr, trusted) then Verified else NotVerified
  }

  /** `readSuccess`: the decision taken on a 200 response with the given receipt header. */
  function ReadSuccess<D, K(==)>(c: Crypto<D, K>, bodyIsJson: bool, header: Option<Text>, path: Text,
                                 reqBody: Option<Text>, respBody: Text, trusted: Option<Text>): ClientOutcome {
    if !bodyIsJson then InvalidJson
    else match ReadReceipt(header)
         case Absent => NoReceipt
         case Unreadable => DecodeFailed
         case Found(sr) => JudgeReceipt(c, sr, path, reqBody, respBody, trusted)
  }

  /**
   A receipt is rejected as a mismatch exactly when its endpoint, request hash or response hash is
   not that of the exchange at hand, whoever signed it, and verified only under the trusted key.
   */
  lemma JudgeDecides<D, K>(c: Crypto<D, K>, sr: SignedReceipt, path: Text, reqBody: Option<Text>, respBody: Text,
                           trusted: Option<Text>)
    ensures var outcome, v := JudgeReceipt(c, sr, path, reqBody, respBody, trusted), sr.receipt.service;
            var same := && v.endpoint == BuildReceiptEndpoint(path)
                        && v.requestHash == SHA_PREFIX + c.sha(BodyText(reqBody))
                        && v.responseHash == SHA_PREFIX + c.sha(respBody);
            && (outcome == Mismatch <==> !same)
            && (outcome == Untrusted <==> same && trusted.None?)
            && (outcome == Verified <==> same && trusted.Some? && VerifyReceipt(c, sr, trusted))
            && (outcome == NotVerified <==> same && trusted.Some? && !VerifyReceipt(c, sr, trusted))
  {
  }

  /** What comes before: a body that is no JSON, no header, or a header without a receipt of the right shape. */
  lemma ReadSuccessDecides<D, K>(c: Crypto<D, K>, bodyIsJson: bool, header: Option<Text>, path: Text,
                                 reqBody: Option<Text>, respBody: Text, trusted: Option<Text>)
    ensures var outcome := ReadSuccess(c, bodyIsJson, header, path, reqBody, respBody, trusted);
            var reading := ReadReceipt(header);
            && (outcome == InvalidJson <==> !bodyIsJson)
            && (outcome == NoReceipt <==> bodyIsJson && header.None?)
            && (outcome == DecodeFailed <==> bodyIsJson && reading.Unreadable?)
            && (bodyIsJson && reading.Found? ==>
                  outcome == JudgeReceipt(c, reading.sr, path, reqBody, respBody, trusted))
  {
  }

  /** The random bytes, the clock, the configuration and the payer a receipt is generated from. */
  ghost predicate Payable(random: seq<Byte>, now: Text, p: PaymentContext, payer: Text) {
    && |random| == 6 && now != [] && now != ZERO_TIME && payer != []
    && p.recipient != [] && p.token != [] && p.amount != [] && p.nonce != [] && 0 < p.chainId <= MAX_SAFE
  }

  /** Hash output is hex text, and the gateway's constant is the hash of nothing. */
  ghost predicate HexHash<D, K>(c: Crypto<D, K>) { c.sha([]) == EMPTY_SHA && forall t :: Basic(c.sha(t)) }

  lemma LiteralShapes()
    ensures |HEX_PREFIX| == 2 && |ID_PREFIX| == 5 && |SHA_PREFIX| == 7 && |Lit("1.0")| == 3
  {
  }

  /** Ids and hashes are ASCII, so the client reads them as they are. */
  lemma GeneratedIsBasic<D, K>(c: Crypto<D, K>, random: seq<Byte>, data: Text)
    requires HexHash(c)
    ensures Seen(Marshal, ReceiptId(random)) == ReceiptId(random) && Seen(Marshal, HashData(c, data)) == HashData(c, data)
  {
    LiteralShapes();
    BasicIsWellFormed(ReceiptId(random));
    BasicIsWellFormed(HashData(c, data));
    SeenSame(Marshal, ReceiptId(random));
    SeenSame(Marshal, HashData(c, data));
  }

  /** Every generated receipt passes the gateway's check, and the SDK's once read from the header. */
  lemma GeneratedHasShape<D, K>(c: Crypto<D, K>, random: seq<Byte>, now: Text, p: PaymentContext, payer: Text,
                                endpoint: Text, reqBody: Text, respBody: Text, signature: Text, publicKey: Text)
    requires HexHash(c) && Payable(random, now, p, payer) && endpoint != []
    requires HEX_PREFIX <= signature && HEX_PREFIX <= publicKey && WellFormed(signature) && WellFormed(publicKey)
    ensures var r := GenerateReceipt(c, random, now, p, payer, endpoint, reqBody, respBody);
            var sr := SignedReceipt(r, signature, publicKey);
            ValidateReceipt(Some(sr)).None? && ValidateReceiptFormat(ReadSigned(sr))
  {
    LiteralShapes();
    GeneratedIsBasic(c, random, reqBody);
    GeneratedIsBasic(c, random, respBody);
    SeenSame(Marshal, signature);
    SeenSame(Marshal, publicKey);
    assert forall i :: 5 <= i < 17 ==> ReceiptId(random)[i] == Hex(random)[i - 5];
  }

  /** What the client makes of a genuine receipt, given whether it is for the exchange at hand. */
  ghost function Expected(matches: bool, trusted: Option<Text>, r: Receipt): ClientOutcome {
    if !matches then Mismatch
    else if trusted.None? then Untrusted
    else if Plain(r) && Utf8(r) then Verified else NotVerified
  }

  /** The exchange a client is in, against the one the receipt was issued for. */
  predicate SameExchange<D, K>(c: Crypto<D, K>, path: Text, reqBody: Option<Text>, respBody: Text,
                               servedReq: Text, servedResp: Text)
  {
    && BuildReceiptEndpoint(path) == ROUTE
    && c.sha(BodyText(reqBody)) == c.sha(servedReq) && c.sha(respBody) == c.sha(servedResp)
  }

  lemma HashesAgreeIff<D, K>(c: Crypto<D, K>, data: Text, served: Text)
    requires HexHash(c)
    ensures Seen(Marshal, HashData(c, served)) == SHA_PREFIX + c.sha(data) <==> c.sha(data) == c.sha(served)
  {
    GeneratedIsBasic(c, [], served);
    var a, b := SHA_PREFIX + c.sha(data), SHA_PREFIX + c.sha(served);
    assert a[|SHA_PREFIX|..] == c.sha(data) && b[|SHA_PREFIX|..] == c.sha(served);
  }

  lemma MatchesIff<D, K>(c: Crypto<D, K>, sr: SignedReceipt, path: Text, reqBody: Option<Text>, respBody: Text,
                         servedReq: Text, servedResp: Text)
    requires HexHash(c) && sr.receipt.service == Service(ROUTE, HashData(c, servedReq), HashData(c, servedResp))
    ensures ReceiptMatchesPayload(c, ReadSigned(sr), path, reqBody, respBody) <==>
            SameExchange(c, path, reqBody, respBody, servedReq, servedResp)
  {
    BasicIsWellFormed(ROUTE);
    SeenSame(Marshal, ROUTE);
    HashesAgreeIff(c, BodyText(reqBody), servedReq);
    HashesAgreeIff(c, respBody, servedResp);
  }

  lemma JudgeIssued<D, K>(c: Crypto<D, K>, key: K, sr: SignedReceipt, path: Text, reqBody: Option<Text>,
                          respBody: Text, trusted: Option<Text>, servedReq: Text, servedResp: Text)
    requires HexHash(c) && Issued(c, key, sr) && Binding(c, key, sr) && ValidateReceiptFormat(ReadSigned(sr))
    requires trusted.Some? ==> NormalizePublicKey(c, trusted) == Some(key)
    requires sr.receipt.service == Service(ROUTE, HashData(c, servedReq), HashData(c, servedResp))
    ensures JudgeReceipt(c, ReadSigned(sr), path, reqBody, respBody, trusted)
         == Expected(SameExchange(c, path, reqBody, respBody, servedReq, servedResp), trusted, sr.receipt)
  {
    MatchesIff(c, sr, path, reqBody, respBody, servedReq, servedResp);
    if trusted.Some? {
      GenuineVerifiesIff(c, key, sr, trusted);
    }
  }

  /**
   The client's decision on any receipt the gateway has issued, presented with any exchange: a
   mismatch exactly unless the path asked for is the route itself and both bodies hash like those
   it was issued for; then, with a trusted key, verified exactly when plain and valid UTF-8.
   Whatever gatewayUrl, a URL parser or a proxy made of the path, the route was reached.
   */
  lemma IssuedIsAccepted<D, K>(c: Crypto<D, K>, key: K, sr: SignedReceipt, path: Text, reqBody: Option<Text>,
                               respBody: Text, trusted: Option<Text>, servedReq: Text, servedResp: Text)
    requires HexHash(c) && Issued(c, key, sr) && Binding(c, key, sr) && ValidateReceiptFormat(ReadSigned(sr))
    requires trusted.Some? ==> NormalizePublicKey(c, trusted) == Some(key)
    requires sr.receipt.service == Service(ROUTE, HashData(c, servedReq), HashData(c, servedResp))
    ensures ReadSuccess(c, true, Some(HeaderText(sr)), path, reqBody, respBody, trusted)
         == Expected(SameExchange(c, path, reqBody, respBody, servedReq, servedResp), trusted, sr.receipt)
  {
    WrittenIsFound(sr);
    JudgeIssued(c, key, sr, path, reqBody, respBody, trusted, servedReq, servedResp);
  }
}
