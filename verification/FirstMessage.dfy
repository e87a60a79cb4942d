/** The first message of a handshake, from the initiator's session to the responder's record. */
module FirstMessages {
  import opened Wrappers
  import opened Keys
  import opened Ratchet
  import opened X3dh
  import opened Entries
  import SessionTable
  import opened Records

  ghost predicate DistinctKeys(h: Handshake, newKey: KeyId) {
    newKey != h.firstEphemeral && h.firstEphemeral != h.signedPreKey
  }

  /** The message names the prekeys of the handshake by ids under which the storage has them. */
  ghost predicate Names(m: Incoming, h: Handshake, store: PreKeyStore) {
    && m.identity == h.initiatorIdentity && m.baseKey == h.base
    && m.signedPreKeyId in store.signedPreKeys && store.signedPreKeys[m.signedPreKeyId] == h.signedPreKey
    && match h.preKey
       case None => m.preKeyId == None
       case Some(k) => m.preKeyId.Some? && m.preKeyId.value in store.preKeys && store.preKeys[m.preKeyId.value] == k
  }

  /** What the initiator's first message is made of. */
  lemma FirstPacket(h: Handshake, plaintext: Bytes)
    ensures var i, first := InitiatorSession(h), Ratchet.Encrypt(OutgoingSession(h), h.initiatorIdentity, plaintext);
            && h.firstEphemeral in i.chains && i.chains[h.firstEphemeral].key.Some?
            && first.Success?
            && var seed, packet := i.chains[h.firstEphemeral].key.value, first.value.1;
               && packet.envelope == Some(Envelope(h.initiatorIdentity, PreKeyRef(h.base, h.signedPreKey, h.preKey)))
               && packet.whisper == Seal(h.firstEphemeral, 0, 0, h.initiatorIdentity, h.responderIdentity,
                                         MessageKeyAt(seed, 0), plaintext)
  {
    var c := OutgoingSession(h).chains[h.firstEphemeral];
    FillIsFilled(c, 0);
    assert OldOrDerived(c, Fill(c, 0).value.messageKeys, c.key.value, 0);
    hide Newest, Derived, Seal, MasterKey, NextSeed, NextRoot;
  }

  /** The responder's session opens that message and comes to the initiator's chain and root. */
  lemma FirstMessageOpens(h: Handshake, plaintext: Bytes, newKey: KeyId)
    requires DistinctKeys(h, newKey)
    ensures var first := Ratchet.Encrypt(OutgoingSession(h), h.initiatorIdentity, plaintext);
            && first.Success?
            && var r := Decrypt(ResponderSession(h), h.responderIdentity, first.value.1.whisper, newKey);
               && r.Success? && r.value.1 == plaintext
               && r.value.0.rootKey == NextRoot(h.firstEphemeral, newKey, InitiatorSession(h).rootKey)
               && r.value.0.remoteIdentity == h.initiatorIdentity && r.value.0.baseKey == h.base
  {
    FirstPacket(h, plaintext);
    var w := Ratchet.Encrypt(OutgoingSession(h), h.initiatorIdentity, plaintext).value.1.whisper;
    HandshakeAgrees(h, 0, newKey);
    var s := StepRatchet(ResponderSession(h), h.firstEphemeral, 0, newKey).value;
    var c := s.chains[h.firstEphemeral];
    var i := InitiatorSession(h);
    assert i.ephemeral == h.firstEphemeral;
    FillIsFilled(c, 0);
    assert OldOrDerived(c, Fill(c, 0).value.messageKeys, c.key.value, 0);
    StepKeepsBaseKey(ResponderSession(h), h.firstEphemeral, 0, newKey);
    hide Newest, Derived, MasterKey, NextSeed, NextRoot, Encrypt, InitiatorSession;
  }

  /** The record reads from the storage the handshake that the two parties' runs claim. */
  lemma HandshakeIsClaimed(m: Incoming, h: Handshake, store: PreKeyStore)
    requires Names(m, h, store)
    ensures HandshakeOf(m, h.responderIdentity, store)
            == Claimed(h.responderIdentity, Envelope(h.initiatorIdentity, PreKeyRef(h.base, h.signedPreKey, h.preKey)))
    ensures ResponderSession(HandshakeOf(m, h.responderIdentity, store)) == ResponderSession(h)
  {
    assert KeyMaterial(HandshakeOf(m, h.responderIdentity, store)) == KeyMaterial(h);
  }

  // The initiator.

  /** A signature verifies only for the key that it was made over. */
  datatype Signature = Forged | Signed(signer: KeyId, key: KeyId)

  /** What the initiator has of the responder. */
  datatype Bundle = Bundle(identity: KeyId, signedPreKey: KeyId, signature: Signature, preKey: Option<KeyId>)

  datatype OutgoingError = InvalidSignature | UntrustedIdentity | NotStored(error: SessionTable.RecordError)

  /** initSession and the prekeys to be named, for the initiator. */
  method NewOutgoing(h: Handshake, now: int) returns (s: SessionEntry)
    ensures fresh(s) && s.Valid() && fresh(s.chains.Values)
    ensures s.View() == OutgoingSession(h) && s.info == SessionTable.IndexInfo(-1, now, now, true)
  {
    var initial := InitialSession(h, h.firstEphemeral, h.signedPreKey, h.responderIdentity);
    s := new SessionEntry(initial.(pending := Some(PreKeys(h))), SessionTable.IndexInfo(-1, now, now, true));
    hide MasterKey, SessionEntry.Valid, NextRoot, NextSeed;
    var r := s.CalculateRatchet(h.signedPreKey, Sending);
  }

  /** initOutgoing: a bundle whose prekey is not signed by its identity, or whose identity is not trusted, changes
      nothing; otherwise the session of the handshake is there, and the open one before it is closed. */
  method InitOutgoing(record: SessionRecord, device: Bundle, ourIdentity: KeyId, baseKey: KeyId, newKey: KeyId,
                      trusted: set<KeyId>, now: int) returns (r: Result<(), OutgoingError>)
    requires record.Valid() && baseKey !in record.sessions
    modifies record`sessions, record`order, Objects(record.sessions)
    ensures record.Valid()
    ensures var h := Handshake(ourIdentity, device.identity, baseKey, device.signedPreKey, device.preKey, newKey);
            if device.signature != Signed(device.identity, device.signedPreKey) then
              && r == Failure(InvalidSignature) && record.View() == old(record.View())
              && Contents(record.sessions) == old(Contents(record.sessions))
            else if device.identity !in trusted then
              && r == Failure(UntrustedIdentity) && record.View() == old(record.View())
              && Contents(record.sessions) == old(Contents(record.sessions))
            else
              && Kept(old(Contents(record.sessions))[baseKey := OutgoingSession(h)], Contents(record.sessions))
              && match SessionTable.RemoveOldSessions(SessionTable.Start(old(record.View()), baseKey, now, true))
                 case Failure(e) => r == Failure(NotStored(e))
                 case Success(t) => r.Success? && record.View() == t
  {
    if device.signature != Signed(device.identity, device.signedPreKey) {
      return Failure(InvalidSignature);
    }
    if device.identity !in trusted {
      return Failure(UntrustedIdentity);
    }
    hide *;
    var h := Handshake(ourIdentity, device.identity, baseKey, device.signedPreKey, device.preKey, newKey);
    var stored := StoreOutgoing(record, h, now);
    r := if stored.Success? then Success(()) else Failure(NotStored(stored.error));
  }

  method StoreOutgoing(record: SessionRecord, h: Handshake, now: int) returns (r: Result<(), SessionTable.RecordError>)
    requires record.Valid() && h.base !in record.sessions
    modifies record`sessions, record`order, Objects(record.sessions)
    ensures record.Valid()
    ensures Kept(old(Contents(record.sessions))[h.base := OutgoingSession(h)], Contents(record.sessions))
    ensures match SessionTable.RemoveOldSessions(SessionTable.Start(old(record.View()), h.base, now, true))
            case Failure(e) => r == Failure(e)
            case Success(t) => r.Success? && record.View() == t
  {
    hide *;
    ghost var objects := Objects(record.sessions);
    ObjectsExist(record.sessions);
    ValuesInObjects(record.sessions);
    var s := NewOutgoing(h, now);
    OutgoingBaseKey(h);
    BaseKeyOfView(s);
    NewIsApart(record.sessions, s);
    r := StoreNew(record, s, now);
  }

  /** A new session takes its place, and what is too old makes room. */
  method StoreNew(record: SessionRecord, s: SessionEntry, now: int) returns (r: Result<(), SessionTable.RecordError>)
    requires record.Valid() && s.Valid() && AllApart(record.sessions, s)
    requires s.info == SessionTable.IndexInfo(-1, now, now, s.info.ours)
    modifies record`sessions, record`order, Objects(record.sessions), s, s.chains.Values
    ensures record.Valid()
    ensures Kept(old(Contents(record.sessions)[s.baseKey := s.View()]), Contents(record.sessions))
    ensures var t := SessionTable.Start(old(record.View()), s.baseKey, now, old(s.info.ours));
            match SessionTable.RemoveOldSessions(t)
            case Failure(e) => r == Failure(e)
            case Success(u) => r.Success? && record.View() == u
  {
    assert s !in record.sessions.Values by {
      hide SessionEntry.Valid, SessionRecord.Valid;
    }
    hide *;
    ValuesInObjects(record.sessions);
    record.Start(s, now);
    WithinObjects(record.sessions);
    r := record.RemoveOldSessions(Objects(record.sessions));
  }

  lemma OutgoingBaseKey(h: Handshake)
    ensures OutgoingSession(h).baseKey == h.base
  {
    hide MasterKey, NextRoot, NextSeed;
  }

  /** A table and the sessions under it, before and after the first message of `h`. */
  ghost predicate Opened(h: Handshake, newKey: KeyId, now: int, t: SessionTable.Table, before: map<KeyId, Session>,
                         u: SessionTable.Table, after: map<KeyId, Session>)
  {
    && h.base in u.infos && u.infos[h.base] == SessionTable.IndexInfo(-1, now, now, false)
    && h.base in after
    && after[h.base].rootKey == NextRoot(h.firstEphemeral, newKey, InitiatorSession(h).rootKey)
    && after[h.base].remoteIdentity == h.initiatorIdentity && after[h.base].baseKey == h.base
    && u.infos.Keys == t.infos.Keys + {h.base} && after == before[h.base := after[h.base]]
  }

  lemma AddedToTable(t: SessionTable.Table, m: Incoming, store: PreKeyStore, trusted: set<KeyId>, now: int)
    requires m.baseKey !in t.infos && m.identity in trusted
    requires m.preKeyId.Some? ==> m.preKeyId.value in store.preKeys
    requires m.signedPreKeyId in store.signedPreKeys
    ensures Admit(t, m, store, trusted) == Success(false)
    ensures var u := TableWithIncoming(t, m, now);
            && m.baseKey in u.infos && u.infos[m.baseKey] == SessionTable.IndexInfo(-1, now, now, false)
            && u.infos.Keys == t.infos.Keys + {m.baseKey}
  {
  }

  lemma IncomingAdded(before: map<KeyId, Session>, h: Handshake, m: Incoming, store: PreKeyStore)
    requires m.baseKey == h.base && h.base !in before && Names(m, h, store)
    ensures WithIncoming(before, m, h.responderIdentity, store) == before[h.base := ResponderSession(h)]
  {
    HandshakeIsClaimed(m, h, store);
    hide HandshakeOf, ResponderSession;
  }

  lemma IsOpened(h: Handshake, newKey: KeyId, now: int, t: SessionTable.Table, before: map<KeyId, Session>,
                 u: SessionTable.Table, s: Session, v: Session)
    requires h.base !in before && u.infos.Keys == t.infos.Keys + {h.base}
    requires u.infos[h.base] == SessionTable.IndexInfo(-1, now, now, false)
    requires v.rootKey == NextRoot(h.firstEphemeral, newKey, InitiatorSession(h).rootKey)
    requires v.remoteIdentity == h.initiatorIdentity && v.baseKey == h.base
    ensures Opened(h, newKey, now, t, before, u, before[h.base := s][h.base := v])
  {
    hide NextRoot, InitiatorSession;
  }

  lemma FirstReceived(t: SessionTable.Table, before: map<KeyId, Session>, h: Handshake, plaintext: Bytes, m: Incoming,
                      trusted: set<KeyId>, store: PreKeyStore, newKey: KeyId, now: int)
    requires h.base !in t.infos && h.base !in before
    requires h.initiatorIdentity in trusted && Names(m, h, store) && DistinctKeys(h, newKey)
    ensures Admit(t, m, store, trusted) == Success(false)
    ensures Ratchet.Encrypt(OutgoingSession(h), h.initiatorIdentity, plaintext).Success?
    ensures var w := Ratchet.Encrypt(OutgoingSession(h), h.initiatorIdentity, plaintext).value.1.whisper;
            var added := WithIncoming(before, m, h.responderIdentity, store);
            var r := Decrypt(added[m.baseKey], h.responderIdentity, w, newKey);
            && r.Success? && r.value.1 == plaintext
            && Opened(h, newKey, now, t, before, TableWithIncoming(t, m, now), added[m.baseKey := r.value.0])
  {
    assert m.baseKey == h.base && m.identity == h.initiatorIdentity;
    assert m.preKeyId.Some? ==> m.preKeyId.value in store.preKeys;
    assert m.signedPreKeyId in store.signedPreKeys;
    hide *;
    FirstMessageOpens(h, plaintext, newKey);
    IncomingAdded(before, h, m, store);
    AddedToTable(t, m, store, trusted, now);
    var w := Ratchet.Encrypt(OutgoingSession(h), h.initiatorIdentity, plaintext).value.1.whisper;
    var v := Decrypt(ResponderSession(h), h.responderIdentity, w, newKey).value.0;
    IsOpened(h, newKey, now, t, before, TableWithIncoming(t, m, now), ResponderSession(h), v);
  }

  lemma BaseKeyIsNew(record: SessionRecord, k: KeyId)
    requires record.Valid() && k !in record.sessions
    ensures k !in record.View().infos && k !in Contents(record.sessions)
  {
    record.KnownBaseKey(k);
  }

  /** With or without a one-time prekey: the message that encrypt makes of the new outgoing session opens
      at the responder, whose new session takes over the initiator's root; the one-time prekey is named
      for removal. */
  method OpenFirst(record: SessionRecord, h: Handshake, plaintext: Bytes, m: Incoming, trusted: set<KeyId>,
                   store: PreKeyStore, newKey: KeyId, now: int)
    returns (r: Result<(Bytes, Option<int>), IncomingError>)
    requires record.Valid() && h.base !in record.sessions
    requires h.initiatorIdentity in trusted && Names(m, h, store) && DistinctKeys(h, newKey)
    modifies record`sessions, record`order, Objects(record.sessions)
    ensures record.Valid()
    ensures r == Success((plaintext, m.preKeyId))
    ensures Opened(h, newKey, now, old(record.View()), old(Contents(record.sessions)), record.View(),
                   Contents(record.sessions))
  {
    hide *;
    BaseKeyIsNew(record, h.base);
    FirstReceived(record.View(), Contents(record.sessions), h, plaintext, m, trusted, store, newKey, now);
    var packet := Ratchet.Encrypt(OutgoingSession(h), h.initiatorIdentity, plaintext).value.1;
    r := record.DecryptPreKeyMessage(m, h.responderIdentity, trusted, store, packet.whisper, newKey, now);
  }

  /** What initIncoming refuses, and for which reason; a message of a session that is known needs no prekeys. */
  lemma RefusedExactlyWhen(t: SessionTable.Table, m: Incoming, store: PreKeyStore, trusted: set<KeyId>)
    ensures var r, known := Admit(t, m, store, trusted), m.baseKey in t.infos;
            var noPreKey := m.preKeyId.Some? && m.preKeyId.value !in store.preKeys;
            && (r == Failure(UntrustedPeer) <==> m.identity !in trusted)
            && (r == Failure(OurOwnBaseKey) <==> m.identity in trusted && known && t.infos[m.baseKey].ours)
            && (r == Failure(InvalidPreKeyId) <==> m.identity in trusted && !known && noPreKey)
            && (r == Failure(MissingSignedPreKey) <==>
                  m.identity in trusted && !known && !noPreKey && m.signedPreKeyId !in store.signedPreKeys)
            && (r == Success(true) <==> m.identity in trusted && known && !t.infos[m.baseKey].ours)
            && (r == Success(false) <==>
                  m.identity in trusted && !known && !noPreKey && m.signedPreKeyId in store.signedPreKeys)
  {
  }
}
