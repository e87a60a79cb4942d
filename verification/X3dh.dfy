/** The X3DH handshake of src/session-builder.ts, both roles. */
module X3dh {
  import opened Wrappers
  import opened Keys
  import opened Ratchet

  /** The key pairs of one handshake. `firstEphemeral` is the initiator's first ratchet key. */
  datatype Handshake = Handshake(
    initiatorIdentity: KeyId, responderIdentity: KeyId, base: KeyId,
    signedPreKey: KeyId, preKey: Option<KeyId>, firstEphemeral: KeyId)

  /** KM of "The X3DH Key Agreement Protocol", section 3.3, after the 32 bytes of section 2.2. */
  function KeyMaterial(h: Handshake): seq<Key> {
    [Discontinuity,
     CalculateAgreement(h.signedPreKey, h.initiatorIdentity),
     CalculateAgreement(h.responderIdentity, h.base),
     CalculateAgreement(h.signedPreKey, h.base)]
    + if h.preKey.Some? then [CalculateAgreement(h.preKey.value, h.base)] else []
  }

  function MasterKey(h: Handshake): Key {
    Hkdf(Joined(KeyMaterial(h)), Zeros, WhisperText, 0)
  }

  /** The session either side starts from, before any ratchet step. */
  function InitialSession(h: Handshake, ephemeral: KeyId, remote: KeyId, remoteIdentity: KeyId): Session {
    Session(ephemeral, remote, 0, MasterKey(h), map[], [], remoteIdentity, h.base, None)
  }

  /** The responder's ratchet key pair is its signed prekey. */
  function ResponderSession(h: Handshake): Session {
    InitialSession(h, h.signedPreKey, h.base, h.initiatorIdentity)
  }

  /** The initiator steps its sending chain at once. */
  function InitiatorSession(h: Handshake): Session {
    var s := InitialSession(h, h.firstEphemeral, h.signedPreKey, h.responderIdentity);
    CalculateRatchet(s, h.signedPreKey, Sending).value
  }

  function PreKeys(h: Handshake): PreKeyRef {
    PreKeyRef(h.base, h.signedPreKey, h.preKey)
  }

  /** The session that initOutgoing stores. */
  function OutgoingSession(h: Handshake): Session {
    InitiatorSession(h).(pending := Some(PreKeys(h)))
  }

  /** What the responder takes the handshake to be when it opens an envelope. */
  function Claimed(responderIdentity: KeyId, e: Envelope): Handshake {
    Handshake(e.identity, responderIdentity, e.pre.baseKey, e.pre.signedPreKey, e.pre.preKey, 0)
  }

  lemma InitiatorIs(ourIdentity: KeyId, theirIdentity: KeyId, base: KeyId, signed: KeyId, preKey: Option<KeyId>,
                    newKey: KeyId)
    ensures var h := Handshake(ourIdentity, theirIdentity, base, signed, preKey, newKey);
            var master := Hkdf(Joined(
              [Discontinuity, CalculateAgreement(signed, ourIdentity), CalculateAgreement(theirIdentity, base),
               CalculateAgreement(signed, base)]
              + if preKey.Some? then [CalculateAgreement(preKey.value, base)] else []), Zeros, WhisperText, 0);
            var stepped := CalculateAgreement(signed, newKey);
            InitiatorSession(h)
            == Session(newKey, signed, 0, Hkdf(stepped, master, WhisperRatchet, 0),
                       map[newKey := Chain(Sending, -1, Some(Hkdf(stepped, master, WhisperRatchet, 1)), map[])],
                       [newKey], theirIdentity, base, None)
  {
  }

  lemma ResponderIs(ourIdentity: KeyId, theirIdentity: KeyId, base: KeyId, signed: KeyId, preKey: Option<KeyId>,
                    newKey: KeyId)
    ensures var h := Handshake(theirIdentity, ourIdentity, base, signed, preKey, newKey);
            var master := Hkdf(Joined(
              [Discontinuity, CalculateAgreement(theirIdentity, signed), CalculateAgreement(base, ourIdentity),
               CalculateAgreement(base, signed)]
              + if preKey.Some? then [CalculateAgreement(base, preKey.value)] else []), Zeros, WhisperText, 0);
            ResponderSession(h) == Session(signed, base, 0, master, map[], [], theirIdentity, base, None)
  {
    AgreementInjective(signed, theirIdentity, theirIdentity);
    AgreementInjective(ourIdentity, base, base);
    AgreementInjective(signed, base, base);
    if preKey.Some? {
      AgreementInjective(preKey.value, base, base);
    }
    hide CalculateAgreement;
  }

  datatype InitError = InvalidCall | UndefinedKey

  /** initSession. The arguments are the ones the callers pass for their role. */
  method InitSession(isInitiator: bool, ourIdentity: KeyId,
                     ourEphemeral: Option<KeyId>, ourSignedInput: Option<KeyId>, theirIdentity: KeyId,
                     theirEphemeral: Option<KeyId>, theirSignedInput: Option<KeyId>, newKey: KeyId)
    returns (r: Result<Session, InitError>)
    ensures r == Failure(InvalidCall) <==> (if isInitiator then ourSignedInput.Some? else theirSignedInput.Some?)
    ensures isInitiator && ourSignedInput.None? && ourEphemeral.Some? && theirSignedInput.Some? ==>
              r == Success(InitiatorSession(Handshake(ourIdentity, theirIdentity, ourEphemeral.value,
                                                      theirSignedInput.value, theirEphemeral, newKey)))
    ensures !isInitiator && theirSignedInput.None? && ourSignedInput.Some? && theirEphemeral.Some? ==>
              r == Success(ResponderSession(Handshake(theirIdentity, ourIdentity, theirEphemeral.value,
                                                      ourSignedInput.value, ourEphemeral, newKey)))
    ensures isInitiator && ourSignedInput.None? && ourEphemeral.Some? && theirSignedInput.Some? ==>
              var base, signed := ourEphemeral.value, theirSignedInput.value;
              var master := Hkdf(Joined(
                [Discontinuity, CalculateAgreement(signed, ourIdentity), CalculateAgreement(theirIdentity, base),
                 CalculateAgreement(signed, base)]
                + if theirEphemeral.Some? then [CalculateAgreement(theirEphemeral.value, base)] else []),
                                 Zeros, WhisperText, 0);
              var stepped := CalculateAgreement(signed, newKey);
              r == Success(Session(
                newKey, signed, 0, Hkdf(stepped, master, WhisperRatchet, 0),
                map[newKey := Chain(Sending, -1, Some(Hkdf(stepped, master, WhisperRatchet, 1)), map[])], [newKey],
                theirIdentity, base, None))
    ensures !isInitiator && theirSignedInput.None? && ourSignedInput.Some? && theirEphemeral.Some? ==>
              var base, signed := theirEphemeral.value, ourSignedInput.value;
              var master := Hkdf(Joined(
                [Discontinuity, CalculateAgreement(theirIdentity, signed), CalculateAgreement(base, ourIdentity),
                 CalculateAgreement(base, signed)]
                + if ourEphemeral.Some? then [CalculateAgreement(base, ourEphemeral.value)] else []),
                                 Zeros, WhisperText, 0);
              r == Success(Session(signed, base, 0, master, map[], [], theirIdentity, base, None))
  {
    var ourSigned, theirSigned := ourSignedInput, theirSignedInput;
    if isInitiator {
      if ourSigned.Some? {
        return Failure(InvalidCall);
      }
      ourSigned := ourEphemeral;
    } else {
      if theirSigned.Some? {
        return Failure(InvalidCall);
      }
      theirSigned := theirEphemeral;
    }
    if ourSigned.None? || theirSigned.None? {
      return Failure(UndefinedKey);
    }

    // One element is 32 bytes of the sharedSecret buffer.
    var blocks := if ourEphemeral.Some? && theirEphemeral.Some? then 5 else 4;
    var sharedSecret := new Key[blocks](_ => Zeros);
    sharedSecret[0] := Discontinuity;
    var a1 := CalculateAgreement(theirSigned.value, ourIdentity);
    var a2 := CalculateAgreement(theirIdentity, ourSigned.value);
    var a3 := CalculateAgreement(theirSigned.value, ourSigned.value);
    if isInitiator {
      sharedSecret[1] := a1;
      sharedSecret[2] := a2;
    } else {
      sharedSecret[2] := a1;
      sharedSecret[1] := a2;
    }
    sharedSecret[3] := a3;
    if ourEphemeral.Some? && theirEphemeral.Some? {
      sharedSecret[4] := CalculateAgreement(theirEphemeral.value, ourEphemeral.value);
    }

    ghost var h := if isInitiator
      then Handshake(ourIdentity, theirIdentity, ourSigned.value, theirSigned.value, theirEphemeral, newKey)
      else Handshake(theirIdentity, ourIdentity, theirSigned.value, ourSigned.value, ourEphemeral, newKey);
    assert sharedSecret[..] == KeyMaterial(h);

    var masterKey := Hkdf(Joined(sharedSecret[..]), Zeros, WhisperText, 0);
    hide KeyMaterial, CalculateAgreement;
    var session := Session(
      if isInitiator then newKey else ourSigned.value, theirSigned.value, 0, masterKey, map[], [],
      theirIdentity, if isInitiator then ourEphemeral.value else theirEphemeral.value, None);
    if isInitiator {
      session := CalculateRatchet(session, theirSigned.value, Sending).value;
    }
    r := Success(session);
    if isInitiator {
      InitiatorIs(ourIdentity, theirIdentity, ourSigned.value, theirSigned.value, theirEphemeral, newKey);
    } else {
      ResponderIs(ourIdentity, theirIdentity, theirSigned.value, ourSigned.value, ourEphemeral, newKey);
    }
  }

  /** Both roles reach one master key, and the first chain the responder derives when it hears
      the initiator's ratchet key is the initiator's first sending chain, turned around. */
  lemma HandshakeAgrees(h: Handshake, previousCounter: nat, newKey: KeyId)
    requires newKey != h.firstEphemeral && h.firstEphemeral != h.signedPreKey
    ensures var i := InitiatorSession(h);
            var stepped := StepRatchet(ResponderSession(h), h.firstEphemeral, previousCounter, newKey);
            && stepped.Success?
            && stepped.value.chains.Keys == {h.firstEphemeral, newKey}
            && stepped.value.chains[h.firstEphemeral] == i.chains[i.ephemeral].(kind := Receiving)
            && stepped.value.rootKey == NextRoot(h.firstEphemeral, newKey, i.rootKey)
  {
    var received := CalculateRatchet(ResponderSession(h), h.firstEphemeral, Receiving).value;
    assert RetireSending(received) == received;
    var sending := CalculateRatchet(received.(ephemeral := newKey), h.firstEphemeral, Sending).value;
    assert |ReceivingIds(sending.order, sending.chains)| <= 2;
  }

  /** The master key pins down every key pair of the handshake but the initiator's ratchet key,
      so a responder that derives it was told the true identity, base key and prekeys. */
  lemma MasterKeyInjective(h: Handshake, g: Handshake)
    requires MasterKey(h) == MasterKey(g) && h.responderIdentity == g.responderIdentity
    ensures h.(firstEphemeral := g.firstEphemeral) == g
  {
    var m, n := KeyMaterial(h), KeyMaterial(g);
    assert m == n;
    AgreementInjective(h.responderIdentity, h.base, g.base);
    AgreementInjective(h.base, h.signedPreKey, g.signedPreKey);
    AgreementInjective(h.signedPreKey, h.initiatorIdentity, g.initiatorIdentity);
    assert m[1] == n[1] && m[2] == n[2] && m[3] == n[3];
    if h.preKey.Some? {
      assert |n| == 5 && m[4] == n[4];
      AgreementInjective(h.base, h.preKey.value, g.preKey.value);
    } else {
      assert |n| == 4;
    }
  }

  lemma AgreementInjective(a: KeyId, b: KeyId, c: KeyId)
    ensures CalculateAgreement(a, b) == CalculateAgreement(a, c) <==> b == c
    ensures CalculateAgreement(a, b) == CalculateAgreement(b, a)
    ensures CalculateAgreement(a, c) == CalculateAgreement(c, a)
  {
  }
}
