/** The fields of the four messages, and the frames around them. */
module Messages {
  import opened Wrappers
  import opened Wire

  const VERSION := 3
  const SIGNATURE_LENGTH := 64
  const MAC_LENGTH := 8
  const MIN_MESSAGE_LENGTH := 10

  type Bytes = seq<Byte>

  predicate Fits(content: Bytes) {
    |content| < LIMIT
  }

  // Optional fields.

  function OptU(number: nat, n: Option<Uint32>): seq<Item> {
    match n case None => [] case Some(v) => [Known(number, U(v))]
  }

  function OptB(number: nat, content: Option<Bytes>): seq<Item> {
    match content case None => [] case Some(b) => [Known(number, B(b))]
  }

  function GetU(fields: Fields, number: nat): Option<Uint32> {
    if number in fields && fields[number].U? then Some(fields[number].n) else None
  }

  function GetB(fields: Fields, number: nat): Option<Bytes> {
    if number in fields && fields[number].B? then Some(fields[number].content) else None
  }

  lemma {:induction false} CollectedAppend(fields: Fields, a: seq<Item>, b: seq<Item>)
    ensures Collected(fields, a + b) == Collected(Collected(fields, a), b)
    decreases |a|
  {
    if a == [] {
      assert a + b == b;
    } else {
      assert (a + b)[1..] == a[1..] + b && (a + b)[0] == a[0];
      CollectedAppend(Applied(fields, a[0]), a[1..], b);
    }
  }

  lemma CollectedOptU(fields: Fields, a: seq<Item>, number: nat, n: Option<Uint32>)
    ensures Collected(fields, a + OptU(number, n))
            == if n.Some? then Collected(fields, a)[number := U(n.value)] else Collected(fields, a)
  {
    CollectedAppend(fields, a, OptU(number, n));
  }

  lemma CollectedOptB(fields: Fields, a: seq<Item>, number: nat, content: Option<Bytes>)
    ensures Collected(fields, a + OptB(number, content))
            == if content.Some? then Collected(fields, a)[number := B(content.value)] else Collected(fields, a)
  {
    CollectedAppend(fields, a, OptB(number, content));
  }

  // WhisperMessage

  datatype WhisperMessage = WhisperMessage(
    ephemeralKey: Option<Bytes>, counter: Option<Uint32>, previousCounter: Option<Uint32>, ciphertext: Option<Bytes>)

  const WHISPER_SCHEMA: Schema := map[1 := BytesField, 2 := Uint32Field, 3 := Uint32Field, 4 := BytesField]

  function WhisperItems(m: WhisperMessage): seq<Item> {
    OptB(1, m.ephemeralKey) + OptU(2, m.counter) + OptU(3, m.previousCounter) + OptB(4, m.ciphertext)
  }

  function WhisperOf(fields: Fields): WhisperMessage {
    WhisperMessage(GetB(fields, 1), GetU(fields, 2), GetU(fields, 3), GetB(fields, 4))
  }

  predicate WhisperFits(m: WhisperMessage) {
    (m.ephemeralKey.Some? ==> Fits(m.ephemeralKey.value)) && (m.ciphertext.Some? ==> Fits(m.ciphertext.value))
  }

  function EncodeWhisper(m: WhisperMessage): Bytes {
    EncodeAll(WhisperItems(m))
  }

  function DecodeWhisper(buf: Bytes): Result<WhisperMessage, WireError> {
    var fields :- Decode(WHISPER_SCHEMA, buf, map[]);
    Success(WhisperOf(fields))
  }

  lemma WhisperCollected(m: WhisperMessage)
    ensures WhisperOf(Collected(map[], WhisperItems(m))) == m
  {
    hide Collected;
    var a := OptB(1, m.ephemeralKey);
    CollectedNone();
    CollectedOptB(map[], [], 1, m.ephemeralKey);
    assert [] + a == a;
    CollectedOptU(map[], a, 2, m.counter);
    CollectedOptU(map[], a + OptU(2, m.counter), 3, m.previousCounter);
    CollectedOptB(map[], a + OptU(2, m.counter) + OptU(3, m.previousCounter), 4, m.ciphertext);
  }

  lemma CollectedNone()
    ensures Collected(map[], []) == map[]
  {
  }

  lemma WhisperItemsFit(m: WhisperMessage)
    requires WhisperFits(m)
    ensures forall i :: i in WhisperItems(m) ==> FitsSchema(WHISPER_SCHEMA, i)
  {
  }

  /** Exactly the fields that were set come back. */
  lemma WhisperRoundTrip(m: WhisperMessage)
    requires WhisperFits(m)
    ensures DecodeWhisper(EncodeWhisper(m)) == Success(m)
  {
    WhisperCollected(m);
    WhisperItemsFit(m);
    hide WhisperItems, WhisperOf;
    DecodesAll(WHISPER_SCHEMA, WhisperItems(m), map[]);
  }

  /** And so they do from any message with the same fields in another order and unknown fields in
      between. */
  lemma WhisperAnyOrder(m: WhisperMessage, items: seq<Item>)
    requires forall i :: i in items ==> FitsSchema(WHISPER_SCHEMA, i)
    requires Presents(items, Collected(map[], WhisperItems(m)))
    ensures DecodeWhisper(EncodeAll(items)) == Success(m)
  {
    WhisperCollected(m);
    AnyOrderDecodes(WHISPER_SCHEMA, items, Collected(map[], WhisperItems(m)));
  }

  // PreKeyWhisperMessage

  datatype PreKeyWhisperMessage = PreKeyWhisperMessage(
    registrationId: Option<Uint32>, preKeyId: Option<Uint32>, signedPreKeyId: Option<Uint32>,
    baseKey: Option<Bytes>, identityKey: Option<Bytes>, message: Option<Bytes>)

  const PRE_KEY_SCHEMA: Schema := map[1 := Uint32Field, 2 := BytesField, 3 := BytesField, 4 := BytesField,
                                    5 := Uint32Field, 6 := Uint32Field]

  function PreKeyItems(m: PreKeyWhisperMessage): seq<Item> {
    OptU(1, m.preKeyId) + OptB(2, m.baseKey) + OptB(3, m.identityKey) + OptB(4, m.message)
    + OptU(5, m.registrationId) + OptU(6, m.signedPreKeyId)
  }

  function PreKeyOf(fields: Fields): PreKeyWhisperMessage {
    PreKeyWhisperMessage(GetU(fields, 5), GetU(fields, 1), GetU(fields, 6), GetB(fields, 2), GetB(fields, 3),
                         GetB(fields, 4))
  }

  predicate PreKeyFits(m: PreKeyWhisperMessage) {
    && (m.baseKey.Some? ==> Fits(m.baseKey.value)) && (m.identityKey.Some? ==> Fits(m.identityKey.value))
    && (m.message.Some? ==> Fits(m.message.value))
  }

  function EncodePreKey(m: PreKeyWhisperMessage): Bytes {
    EncodeAll(PreKeyItems(m))
  }

  function DecodePreKey(buf: Bytes): Result<PreKeyWhisperMessage, WireError> {
    var fields :- Decode(PRE_KEY_SCHEMA, buf, map[]);
    Success(PreKeyOf(fields))
  }

  lemma PreKeyCollected(m: PreKeyWhisperMessage)
    ensures PreKeyOf(Collected(map[], PreKeyItems(m))) == m
  {
    hide Collected;
    CollectedNone();
    var a := OptU(1, m.preKeyId);
    CollectedOptU(map[], [], 1, m.preKeyId);
    assert [] + a == a;
    CollectedOptB(map[], a, 2, m.baseKey);
    var b := a + OptB(2, m.baseKey);
    CollectedOptB(map[], b, 3, m.identityKey);
    var c := b + OptB(3, m.identityKey);
    CollectedOptB(map[], c, 4, m.message);
    var d := c + OptB(4, m.message);
    CollectedOptU(map[], d, 5, m.registrationId);
    CollectedOptU(map[], d + OptU(5, m.registrationId), 6, m.signedPreKeyId);
    hide OptU, OptB;
  }

  /** Fields that were not set are not there afterwards either: an absent preKeyId is not 0. */
  lemma PreKeyRoundTrip(m: PreKeyWhisperMessage)
    requires PreKeyFits(m)
    ensures DecodePreKey(EncodePreKey(m)) == Success(m)
  {
    PreKeyCollected(m);
    PreKeyItemsFit(m);
    hide PreKeyItems, PreKeyOf;
    DecodesAll(PRE_KEY_SCHEMA, PreKeyItems(m), map[]);
  }

  lemma PreKeyItemsFit(m: PreKeyWhisperMessage)
    requires PreKeyFits(m)
    ensures forall i :: i in PreKeyItems(m) ==> FitsSchema(PRE_KEY_SCHEMA, i)
  {
  }

  lemma PreKeyAnyOrder(m: PreKeyWhisperMessage, items: seq<Item>)
    requires forall i :: i in items ==> FitsSchema(PRE_KEY_SCHEMA, i)
    requires Presents(items, Collected(map[], PreKeyItems(m)))
    ensures DecodePreKey(EncodeAll(items)) == Success(m)
  {
    PreKeyCollected(m);
    hide PreKeyItems, PreKeyOf;
    AnyOrderDecodes(PRE_KEY_SCHEMA, items, Collected(map[], PreKeyItems(m)));
  }

  // The sender key messages: empty byte fields are not written, absent fields are read as defaults.

  datatype SenderKeyMessage = SenderKeyMessage(id: Uint32, iteration: Uint32, ciphertext: Bytes)

  datatype SenderKeyDistribution = SenderKeyDistribution(id: Uint32, iteration: Uint32, chainKey: Bytes,
                                                         signingKey: Bytes)

  const SENDER_KEY_SCHEMA: Schema := map[1 := Uint32Field, 2 := Uint32Field, 3 := BytesField]

  const DISTRIBUTION_SCHEMA: Schema := map[1 := Uint32Field, 2 := Uint32Field, 3 := BytesField, 4 := BytesField]

  function NonEmpty(content: Bytes): Option<Bytes> {
    if content == [] then None else Some(content)
  }

  function OrZero(n: Option<Uint32>): Uint32 {
    match n case None => 0 case Some(v) => v
  }

  function OrEmpty(content: Option<Bytes>): Bytes {
    match content case None => [] case Some(b) => b
  }

  function SenderKeyItems(m: SenderKeyMessage): seq<Item> {
    OptU(1, Some(m.id)) + OptU(2, Some(m.iteration)) + OptB(3, NonEmpty(m.ciphertext))
  }

  function SenderKeyOf(fields: Fields): SenderKeyMessage {
    SenderKeyMessage(OrZero(GetU(fields, 1)), OrZero(GetU(fields, 2)), OrEmpty(GetB(fields, 3)))
  }

  function EncodeSenderKey(m: SenderKeyMessage): Bytes {
    EncodeAll(SenderKeyItems(m))
  }

  function DecodeSenderKey(buf: Bytes): Result<SenderKeyMessage, WireError> {
    var fields :- Decode(SENDER_KEY_SCHEMA, buf, map[]);
    Success(SenderKeyOf(fields))
  }

  lemma SenderKeyCollected(m: SenderKeyMessage)
    ensures SenderKeyOf(Collected(map[], SenderKeyItems(m))) == m
  {
    hide Collected;
    CollectedNone();
    var a := OptU(1, Some(m.id));
    CollectedOptU(map[], [], 1, Some(m.id));
    assert [] + a == a;
    CollectedOptU(map[], a, 2, Some(m.iteration));
    CollectedOptB(map[], a + OptU(2, Some(m.iteration)), 3, NonEmpty(m.ciphertext));
  }

  lemma SenderKeyItemsFit(m: SenderKeyMessage)
    requires Fits(m.ciphertext)
    ensures forall i :: i in SenderKeyItems(m) ==> FitsSchema(SENDER_KEY_SCHEMA, i)
  {
  }

  lemma SenderKeyRoundTrip(m: SenderKeyMessage)
    requires Fits(m.ciphertext)
    ensures DecodeSenderKey(EncodeSenderKey(m)) == Success(m)
  {
    SenderKeyCollected(m);
    SenderKeyItemsFit(m);
    hide SenderKeyItems, SenderKeyOf;
    DecodesAll(SENDER_KEY_SCHEMA, SenderKeyItems(m), map[]);
  }

  lemma SenderKeyAnyOrder(m: SenderKeyMessage, items: seq<Item>)
    requires forall i :: i in items ==> FitsSchema(SENDER_KEY_SCHEMA, i)
    requires Presents(items, Collected(map[], SenderKeyItems(m)))
    ensures DecodeSenderKey(EncodeAll(items)) == Success(m)
  {
    SenderKeyCollected(m);
    AnyOrderDecodes(SENDER_KEY_SCHEMA, items, Collected(map[], SenderKeyItems(m)));
  }

  function DistributionItems(m: SenderKeyDistribution): seq<Item> {
    OptU(1, Some(m.id)) + OptU(2, Some(m.iteration)) + OptB(3, NonEmpty(m.chainKey)) + OptB(4, NonEmpty(m.signingKey))
  }

  function DistributionOf(fields: Fields): SenderKeyDistribution {
    SenderKeyDistribution(OrZero(GetU(fields, 1)), OrZero(GetU(fields, 2)), OrEmpty(GetB(fields, 3)),
                          OrEmpty(GetB(fields, 4)))
  }

  function EncodeDistribution(m: SenderKeyDistribution): Bytes {
    EncodeAll(DistributionItems(m))
  }

  function DecodeDistribution(buf: Bytes): Result<SenderKeyDistribution, WireError> {
    var fields :- Decode(DISTRIBUTION_SCHEMA, buf, map[]);
    Success(DistributionOf(fields))
  }

  lemma DistributionCollected(m: SenderKeyDistribution)
    ensures DistributionOf(Collected(map[], DistributionItems(m))) == m
  {
    hide Collected;
    CollectedNone();
    var a := OptU(1, Some(m.id));
    CollectedOptU(map[], [], 1, Some(m.id));
    assert [] + a == a;
    CollectedOptU(map[], a, 2, Some(m.iteration));
    var b := a + OptU(2, Some(m.iteration));
    CollectedOptB(map[], b, 3, NonEmpty(m.chainKey));
    CollectedOptB(map[], b + OptB(3, NonEmpty(m.chainKey)), 4, NonEmpty(m.signingKey));
  }

  lemma DistributionItemsFit(m: SenderKeyDistribution)
    requires Fits(m.chainKey) && Fits(m.signingKey)
    ensures forall i :: i in DistributionItems(m) ==> FitsSchema(DISTRIBUTION_SCHEMA, i)
  {
  }

  lemma DistributionRoundTrip(m: SenderKeyDistribution)
    requires Fits(m.chainKey) && Fits(m.signingKey)
    ensures DecodeDistribution(EncodeDistribution(m)) == Success(m)
  {
    DistributionCollected(m);
    DistributionItemsFit(m);
    hide DistributionItems, DistributionOf;
    DecodesAll(DISTRIBUTION_SCHEMA, DistributionItems(m), map[]);
  }

  lemma DistributionAnyOrder(m: SenderKeyDistribution, items: seq<Item>)
    requires forall i :: i in items ==> FitsSchema(DISTRIBUTION_SCHEMA, i)
    requires Presents(items, Collected(map[], DistributionItems(m)))
    ensures DecodeDistribution(EncodeAll(items)) == Success(m)
  {
    DistributionCollected(m);
    AnyOrderDecodes(DISTRIBUTION_SCHEMA, items, Collected(map[], DistributionItems(m)));
  }

  /** The tags are the numbers that the encoders write. */
  lemma TagsAsWritten()
    ensures [Tag(1, 2), Tag(2, 0), Tag(3, 0), Tag(4, 2)] == [10, 16, 24, 34]
    ensures [Tag(1, 0), Tag(2, 2), Tag(3, 2), Tag(4, 2), Tag(5, 0), Tag(6, 0)] == [8, 18, 26, 34, 40, 48]
    ensures forall b: Byte :: b < 128 ==> Varint(b) == [b]
  {
  }

  // Frames: a version byte, the body, and a signature or a tag.

  datatype FrameError = TooShort | BadVersion | BadBody(error: WireError) | BadFields

  datatype Frame = Frame(version: nat, body: Bytes, trailer: Bytes)

  function VersionByte(): Byte {
    VERSION * 16 + VERSION
  }

  /** SenderKeyMessage, built */
  function FrameSigned(body: Bytes, signature: Bytes): Bytes {
    [VersionByte()] + body + signature
  }

  /** SenderKeyMessage, parsed */
  function ParseSigned(buf: Bytes): Result<Frame, FrameError> {
    if |buf| <= SIGNATURE_LENGTH then Failure(TooShort)
    else Success(Frame(buf[0] / 16, buf[1..|buf| - SIGNATURE_LENGTH], buf[|buf| - SIGNATURE_LENGTH..]))
  }

  /** What the signature is made over and verified for. */
  function SignedPart(buf: Bytes): Bytes
    requires |buf| >= SIGNATURE_LENGTH
  {
    buf[..|buf| - SIGNATURE_LENGTH]
  }

  lemma SignedParses(body: Bytes, signature: Bytes)
    requires |signature| == SIGNATURE_LENGTH
    ensures var buf := FrameSigned(body, signature);
            && ParseSigned(buf) == Success(Frame(VERSION, body, signature))
            && SignedPart(buf) == [VersionByte()] + body
  {
    var buf := FrameSigned(body, signature);
    assert buf[1..|buf| - SIGNATURE_LENGTH] == body;
    assert buf[|buf| - SIGNATURE_LENGTH..] == signature;
    assert SignedPart(buf) == [VersionByte()] + body;
  }

  /** Nothing of a message is outside its parts: two that parse alike differ at most in the half
      of the version byte that is not looked at. */
  lemma ParsedIsWhole(a: Bytes, b: Bytes)
    requires ParseSigned(a).Success? && ParseSigned(a) == ParseSigned(b) && a[0] % 16 == b[0] % 16
    ensures a == b
  {
    assert a == [a[0]] + a[1..|a| - SIGNATURE_LENGTH] + a[|a| - SIGNATURE_LENGTH..];
    assert b == [b[0]] + b[1..|b| - SIGNATURE_LENGTH] + b[|b| - SIGNATURE_LENGTH..];
  }

  lemma SenderKeyMessageParsesBack(m: SenderKeyMessage, signature: Bytes)
    requires Fits(m.ciphertext) && |signature| == SIGNATURE_LENGTH
    ensures var parsed := ParseSigned(FrameSigned(EncodeSenderKey(m), signature));
            && parsed.Success? && parsed.value.version == VERSION && parsed.value.trailer == signature
            && DecodeSenderKey(parsed.value.body) == Success(m)
  {
    SignedParses(EncodeSenderKey(m), signature);
    SenderKeyRoundTrip(m);
  }

  /** A whisper message ends with the first 8 bytes of its tag. */
  function FrameTagged(body: Bytes, tag: Bytes): Bytes {
    [VersionByte()] + body + tag
  }

  function ParseTagged(buf: Bytes): Result<Frame, FrameError> {
    if |buf| < MIN_MESSAGE_LENGTH then Failure(TooShort)
    else if buf[0] % 16 > 3 || buf[0] / 16 < 3 then Failure(BadVersion)
    else Success(Frame(buf[0] / 16, buf[1..|buf| - MAC_LENGTH], buf[|buf| - MAC_LENGTH..]))
  }

  /** A message with at least one field comes back from its frame. An empty one would be too short. */
  lemma WhisperParsesBack(m: WhisperMessage, tag: Bytes)
    requires WhisperFits(m) && |tag| == MAC_LENGTH
    ensures var parsed := ParseTagged(FrameTagged(EncodeWhisper(m), tag));
            if m == WhisperMessage(None, None, None, None) then parsed == Failure(TooShort)
            else
              && parsed.Success? && parsed.value.version == VERSION && parsed.value.trailer == tag
              && DecodeWhisper(parsed.value.body) == Success(m)
  {
    WhisperRoundTrip(m);
    var body := EncodeWhisper(m);
    var buf := FrameTagged(body, tag);
    assert buf[1..|buf| - MAC_LENGTH] == body;
    assert buf[|buf| - MAC_LENGTH..] == tag;
    assert body == [] ==> m == WhisperMessage(None, None, None, None) by {
      assert DecodeWhisper([]) == Success(WhisperMessage(None, None, None, None));
    }
    assert m == WhisperMessage(None, None, None, None) ==> body == [];
    hide EncodeWhisper, DecodeWhisper;
  }

  /** assertValidWhisperMessage, where a field that is absent has its default. */
  predicate WellFormed(m: WhisperMessage) {
    && |OrEmpty(m.ephemeralKey)| == 33
    && OrEmpty(m.ciphertext) != [] && |OrEmpty(m.ciphertext)| % 16 == 0
  }

  /** What doDecryptWhisperMessage makes of the bytes before it touches the session. */
  function ReceiveWhisper(buf: Bytes): Result<(WhisperMessage, Bytes), FrameError> {
    var frame :- ParseTagged(buf);
    match DecodeWhisper(frame.body)
    case Failure(e) => Failure(BadBody(e))
    case Success(m) => if WellFormed(m) then Success((m, frame.trailer)) else Failure(BadFields)
  }

  /** A message is received as it was sent exactly when its key has 33 bytes and its ciphertext is a positive
      number of AES blocks; one without any field is too short, and the others have bad fields. */
  lemma WhisperReceived(m: WhisperMessage, tag: Bytes)
    requires |tag| == 8
    requires m.ephemeralKey.Some? ==> |m.ephemeralKey.value| < 0x1_0000_0000
    requires m.ciphertext.Some? ==> |m.ciphertext.value| < 0x1_0000_0000
    ensures ReceiveWhisper(FrameTagged(EncodeWhisper(m), tag))
            == if m == WhisperMessage(None, None, None, None) then Failure(TooShort)
               else if m.ephemeralKey.Some? && |m.ephemeralKey.value| == 33 && m.ciphertext.Some?
                       && m.ciphertext.value != [] && |m.ciphertext.value| % 16 == 0 then Success((m, tag))
               else Failure(BadFields)
  {
    WhisperParsesBack(m, tag);
    hide FrameTagged, EncodeWhisper, ParseTagged, DecodeWhisper;
  }

  /** Of the buffers that are long enough, exactly those pass whose version byte has a high half of 3 or more
      and a low half of 3 or less; the tag is the last 8 bytes. */
  lemma TaggedExactlyWhen(buf: Bytes)
    ensures |buf| < 10 ==> ParseTagged(buf) == Failure(TooShort)
    ensures |buf| >= 10 ==>
              ParseTagged(buf) == if buf[0] >= 48 && buf[0] % 16 <= 3
                then Success(Frame(buf[0] / 16, buf[1..|buf| - 8], buf[|buf| - 8..])) else Failure(BadVersion)
  {
  }

  lemma PreKeyExactlyWhen(buf: Bytes)
    ensures |buf| < 10 ==> ParsePreKey(buf) == Failure(TooShort)
    ensures |buf| >= 10 ==>
              ParsePreKey(buf) == if buf[0] >= 48 && buf[0] % 16 <= 3 then Success(Frame(buf[0] / 16, buf[1..], []))
                else Failure(BadVersion)
  {
  }

  /** What is refused on the way to doDecryptWhisperMessage's session, for any bytes: if the message gets
      there, it is what stands between the version byte and the tag. */
  lemma ReceivedExactlyWhen(buf: Bytes)
    requires |buf| >= 10 && buf[0] >= 48 && buf[0] % 16 <= 3
    ensures match DecodeWhisper(buf[1..|buf| - 8])
            case Failure(e) => ReceiveWhisper(buf) == Failure(BadBody(e))
            case Success(m) =>
              ReceiveWhisper(buf)
              == if m.ephemeralKey.Some? && |m.ephemeralKey.value| == 33 && m.ciphertext.Some?
                    && m.ciphertext.value != [] && |m.ciphertext.value| % 16 == 0
                 then Success((m, buf[|buf| - 8..])) else Failure(BadFields)
  {
    TaggedExactlyWhen(buf);
    hide DecodeWhisper, ParseTagged;
  }

  datatype PreKeyRefusal = Unframed(error: FrameError) | NoRegistrationId | MissingField | InvalidField

  /** assertValidIncomingPreKeyMessage, on fields that are there. An absent signed prekey id is read as 0. */
  predicate ValidIncoming(m: PreKeyWhisperMessage) {
    && |OrEmpty(m.identityKey)| == 33 && |OrEmpty(m.baseKey)| == 33 && OrEmpty(m.message) != []
    && (m.registrationId.Some? ==> 1 <= m.registrationId.value)
    && (m.preKeyId.Some? ==> m.preKeyId.value <= 0xffffff) && OrZero(m.signedPreKeyId) <= 0xffffff
  }

  /** What decryptPreKeyWhisperMessage and initIncoming make of the bytes before they look at the sessions; `known`
      is whether there is a record. */
  function ReceivePreKey(buf: Bytes, known: bool): Result<PreKeyWhisperMessage, PreKeyRefusal> {
    match ParsePreKey(buf)
    case Failure(e) => Failure(Unframed(e))
    case Success(frame) =>
      match DecodePreKey(frame.body)
      case Failure(e) => Failure(Unframed(BadBody(e)))
      case Success(m) =>
        if !known && m.registrationId.None? then Failure(NoRegistrationId)
        else if m.identityKey.None? || m.baseKey.None? || m.message.None? then Failure(MissingField)
        else if ValidIncoming(m) then Success(m) else Failure(InvalidField)
  }

  /** A prekey message that is long enough comes out as it was sent if and only if its keys have 33 bytes, it carries
      a message, its ids are in range, and, for the first one from a peer, it has a registration id. */
  lemma PreKeyReceived(m: PreKeyWhisperMessage, known: bool)
    requires PreKeyFits(m) && |EncodePreKey(m)| >= 9
    ensures var r := ReceivePreKey(FramePreKey(EncodePreKey(m)), known);
            var registered := m.registrationId.Some? || known;
            && (r == Failure(NoRegistrationId) <==> !registered)
            && (r == Failure(MissingField) <==>
                  registered && (m.identityKey.None? || m.baseKey.None? || m.message.None?))
            && (r == Success(m) <==>
                  && registered && m.identityKey.Some? && |m.identityKey.value| == 33
                  && m.baseKey.Some? && |m.baseKey.value| == 33 && m.message.Some? && m.message.value != []
                  && m.registrationId != Some(0) && (m.preKeyId.None? || m.preKeyId.value <= 0xffffff)
                  && (m.signedPreKeyId.None? || m.signedPreKeyId.value <= 0xffffff))
            && (r.Success? ==> r == Success(m))
            && (r.Failure? ==> r.error in {NoRegistrationId, MissingField, InvalidField})
  {
    PreKeyParsesBack(m);
    hide EncodePreKey, DecodePreKey, FramePreKey, ParsePreKey;
  }

  /** A sender key message is longer than its signature of 64 bytes; its version is not looked at. */
  lemma SignedExactlyWhen(buf: Bytes)
    ensures |buf| <= 64 ==> ParseSigned(buf) == Failure(TooShort)
    ensures |buf| > 64 ==>
              && ParseSigned(buf) == Success(Frame(buf[0] / 16, buf[1..|buf| - 64], buf[|buf| - 64..]))
              && SignedPart(buf) == buf[..|buf| - 64]
  {
  }

  // The bytes of the messages.

  /** An optional number or byte string behind its tag byte. */
  function NumberBytes(tag: Byte, n: Option<Uint32>): Bytes {
    if n.None? then [] else [tag] + Varint(n.value)
  }

  function ContentBytes(tag: Byte, content: Option<Bytes>): Bytes {
    if content.None? then [] else [tag] + Varint(|content.value|) + content.value
  }

  lemma {:induction false} EncodeAppend(a: seq<Item>, b: seq<Item>)
    ensures EncodeAll(a + b) == EncodeAll(a) + EncodeAll(b)
  {
    hide EncodeItem;
    if a == [] {
      assert a + b == b;
    } else {
      assert (a + b)[1..] == a[1..] + b && (a + b)[0] == a[0];
      EncodeAppend(a[1..], b);
    }
  }

  lemma NumberLayout(number: nat, n: Option<Uint32>)
    requires number < 16
    ensures EncodeAll(OptU(number, n)) == NumberBytes(8 * number, n)
  {
    if n.Some? {
      assert OptU(number, n)[1..] == [];
      assert Varint(Tag(number, 0)) == [8 * number];
    }
  }

  lemma ContentLayout(number: nat, content: Option<Bytes>)
    requires number < 15
    ensures EncodeAll(OptB(number, content)) == ContentBytes(8 * number + 2, content)
  {
    if content.Some? {
      assert OptB(number, content)[1..] == [];
      assert Varint(Tag(number, 2)) == [8 * number + 2];
    }
  }

  lemma WhisperLayout(m: WhisperMessage)
    ensures EncodeWhisper(m) == ContentBytes(10, m.ephemeralKey) + NumberBytes(16, m.counter)
                                + NumberBytes(24, m.previousCounter) + ContentBytes(34, m.ciphertext)
  {
    hide EncodeAll, NumberBytes, ContentBytes, OptU, OptB;
    ContentLayout(1, m.ephemeralKey);
    NumberLayout(2, m.counter);
    NumberLayout(3, m.previousCounter);
    ContentLayout(4, m.ciphertext);
    var a := OptB(1, m.ephemeralKey) + OptU(2, m.counter);
    EncodeAppend(OptB(1, m.ephemeralKey), OptU(2, m.counter));
    EncodeAppend(a, OptU(3, m.previousCounter));
    EncodeAppend(a + OptU(3, m.previousCounter), OptB(4, m.ciphertext));
  }

  lemma PreKeyLayout(m: PreKeyWhisperMessage)
    ensures EncodePreKey(m)
            == NumberBytes(8, m.preKeyId) + ContentBytes(18, m.baseKey) + ContentBytes(26, m.identityKey)
               + ContentBytes(34, m.message) + NumberBytes(40, m.registrationId) + NumberBytes(48, m.signedPreKeyId)
  {
    hide EncodeAll, NumberBytes, ContentBytes, OptU, OptB;
    NumberLayout(1, m.preKeyId);
    ContentLayout(2, m.baseKey);
    ContentLayout(3, m.identityKey);
    ContentLayout(4, m.message);
    NumberLayout(5, m.registrationId);
    NumberLayout(6, m.signedPreKeyId);
    var a := OptU(1, m.preKeyId) + OptB(2, m.baseKey);
    var b := a + OptB(3, m.identityKey);
    var c := b + OptB(4, m.message);
    EncodeAppend(OptU(1, m.preKeyId), OptB(2, m.baseKey));
    EncodeAppend(a, OptB(3, m.identityKey));
    EncodeAppend(b, OptB(4, m.message));
    EncodeAppend(c, OptU(5, m.registrationId));
    EncodeAppend(c + OptU(5, m.registrationId), OptU(6, m.signedPreKeyId));
  }

  lemma SenderKeyLayout(m: SenderKeyMessage)
    ensures EncodeSenderKey(m)
            == [8] + Varint(m.id) + ([16] + Varint(m.iteration))
               + if m.ciphertext == [] then [] else [26] + Varint(|m.ciphertext|) + m.ciphertext
  {
    hide EncodeAll, OptU, OptB, Varint;
    NumberLayout(1, Some(m.id));
    NumberLayout(2, Some(m.iteration));
    ContentLayout(3, NonEmpty(m.ciphertext));
    EncodeAppend(OptU(1, Some(m.id)), OptU(2, Some(m.iteration)));
    EncodeAppend(OptU(1, Some(m.id)) + OptU(2, Some(m.iteration)), OptB(3, NonEmpty(m.ciphertext)));
  }

  lemma DistributionLayout(m: SenderKeyDistribution)
    ensures EncodeDistribution(m)
            == [8] + Varint(m.id) + ([16] + Varint(m.iteration))
               + (if m.chainKey == [] then [] else [26] + Varint(|m.chainKey|) + m.chainKey)
               + if m.signingKey == [] then [] else [34] + Varint(|m.signingKey|) + m.signingKey
  {
    hide EncodeAll, OptU, OptB, Varint;
    NumberLayout(1, Some(m.id));
    NumberLayout(2, Some(m.iteration));
    ContentLayout(3, NonEmpty(m.chainKey));
    ContentLayout(4, NonEmpty(m.signingKey));
    var a := OptU(1, Some(m.id)) + OptU(2, Some(m.iteration));
    EncodeAppend(OptU(1, Some(m.id)), OptU(2, Some(m.iteration)));
    EncodeAppend(a, OptB(3, NonEmpty(m.chainKey)));
    EncodeAppend(a + OptB(3, NonEmpty(m.chainKey)), OptB(4, NonEmpty(m.signingKey)));
  }

  /** A PreKeyWhisperMessage has a version byte and no tag of its own. */
  function FramePreKey(body: Bytes): Bytes {
    [VersionByte()] + body
  }

  function ParsePreKey(buf: Bytes): Result<Frame, FrameError> {
    if |buf| < MIN_MESSAGE_LENGTH then Failure(TooShort)
    else if buf[0] % 16 > 3 || buf[0] / 16 < 3 then Failure(BadVersion)
    else Success(Frame(buf[0] / 16, buf[1..], []))
  }

  lemma PreKeyParsesBack(m: PreKeyWhisperMessage)
    requires PreKeyFits(m)
    ensures var parsed := ParsePreKey(FramePreKey(EncodePreKey(m)));
            if |EncodePreKey(m)| < MIN_MESSAGE_LENGTH - 1 then parsed == Failure(TooShort)
            else parsed.Success? && parsed.value.version == VERSION && DecodePreKey(parsed.value.body) == Success(m)
  {
    PreKeyRoundTrip(m);
    hide EncodePreKey, DecodePreKey;
    assert FramePreKey(EncodePreKey(m))[1..] == EncodePreKey(m);
  }
}
