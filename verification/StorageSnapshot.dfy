/** The form in which the file store saves its contents, and what a store that is opened on it has. */
module StorageSnapshots {
  import opened Wrappers
  import opened IntSets
  import opened Texts
  import opened Objects
  import opened StorageContents
  import SessionForms
  import SenderKeyForms

  const MAX_SAFE_INTEGER := 0x1f_ffff_ffff_ffff
  const MIN_REGISTRATION_ID := 0
  const MAX_REGISTRATION_ID := 0x3fff

  /** The JSON values of a snapshot. */
  datatype Persisted = Persisted(
    identity: KeyPair, registrationId: int, nextPreKeyId: int, latestSignedPreKey: Option<SignedPreKey>,
    preKeys: Object<KeyPair>, published: seq<int>, signedPreKeys: Object<KeyPair>, retired: Object<int>,
    trusted: map<string, Bytes>, sessions: map<string, SessionForms.RecordForm>,
    senderKeys: map<string, seq<SenderKeyForms.StateForm>>)

  /** What `object[name] = value` leaves on a plain object: this name sets the prototype instead. */
  predicate IsOwn(name: string) {
    name != "__proto__"
  }

  function SerializeSessions(sessions: map<string, SessionRecord>): map<string, SessionForms.RecordForm> {
    map id | id in sessions && IsOwn(id) :: SessionForms.Serialize(sessions[id])
  }

  function SerializeSenderKeys(senderKeys: map<string, SenderKeyRecord>): map<string, seq<SenderKeyForms.StateForm>> {
    map id | id in senderKeys && IsOwn(id) :: SenderKeyForms.SerializeRecord(senderKeys[id])
  }

  /** toSnapshot */
  function ToSnapshot(c: Contents): Persisted {
    Persisted(c.identity, c.registrationId, c.nextPreKeyId, c.latestSignedPreKey, ToObject(c.preKeys),
              SortedKeys(c.published), ToObject(c.signedPreKeys), ToObject(c.retired), c.trusted,
              SerializeSessions(c.sessions), SerializeSenderKeys(c.senderKeys))
  }

  // Validation.

  predicate IsKeyId(id: int) {
    0 <= id <= MAX_KEY_ID
  }

  predicate IsTime(t: int) {
    0 <= t <= MAX_SAFE_INTEGER
  }

  predicate IsIdName(name: string) {
    ParseDecimal(name).Some? && IsKeyId(ParseDecimal(name).value)
  }

  predicate IsKeyPairObject(o: Object<KeyPair>) {
    forall i :: 0 <= i < |o| ==> IsIdName(o[i].0) && IsKeyPair(o[i].1)
  }

  predicate IsRetiredObject(o: Object<int>) {
    forall i :: 0 <= i < |o| ==> IsIdName(o[i].0) && IsTime(o[i].1)
  }

  predicate IsTrustedMap(m: map<string, Bytes>) {
    forall id :: id in m ==> |m[id]| == 33
  }

  predicate IsSignedPreKey(s: SignedPreKey) {
    IsKeyId(s.keyId) && IsKeyPair(s.keyPair) && |s.signature| == 64 && IsTime(s.createdAt)
  }

  predicate AreKeyIds(ids: seq<int>) {
    forall i :: 0 <= i < |ids| ==> IsKeyId(ids[i])
  }

  /** normalizePersistedState, which throws otherwise */
  predicate Normal(p: Persisted) {
    && IsKeyPair(p.identity) && MIN_REGISTRATION_ID <= p.registrationId <= MAX_REGISTRATION_ID
      && IsKeyId(p.nextPreKeyId)
    && IsKeyPairObject(p.preKeys) && AreKeyIds(p.published) && IsKeyPairObject(p.signedPreKeys)
    && IsRetiredObject(p.retired) && IsTrustedMap(p.trusted)
    && (p.latestSignedPreKey.Some? ==> IsSignedPreKey(p.latestSignedPreKey.value))
  }

  predicate AllLoad(sessions: map<string, SessionForms.RecordForm>, senderKeys: map<string,
                    seq<SenderKeyForms.StateForm>>) {
    && (forall id :: id in sessions ==> SessionForms.Deserialize(sessions[id]).Success?)
    && forall id :: id in senderKeys ==> SenderKeyForms.DeserializeRecord(senderKeys[id]).Success?
  }

  function LoadSessions(sessions: map<string, SessionForms.RecordForm>): map<string, SessionRecord> {
    map id | id in sessions
      && SessionForms.Deserialize(sessions[id]).Success? :: SessionForms.Deserialize(sessions[id]).value
  }

  function LoadSenderKeys(senderKeys: map<string, seq<SenderKeyForms.StateForm>>): map<string, SenderKeyRecord> {
    map id | id in senderKeys && SenderKeyForms.DeserializeRecord(senderKeys[id]).Success?
      :: SenderKeyForms.DeserializeRecord(senderKeys[id]).value
  }

  /** loadPersistedState and applySnapshot on a new store: a reservation without its prekey is dropped. */
  function ApplySnapshot(p: Persisted): Option<Contents> {
    if !Normal(p) || !AllLoad(p.sessions, p.senderKeys) then None
    else
      var preKeys := FromObject(p.preKeys);
      Some(Contents(p.identity, p.registrationId, p.nextPreKeyId, p.latestSignedPreKey, preKeys,
                    (set id | id in p.published && id in preKeys), FromObject(p.signedPreKeys), FromObject(p.retired),
                    p.trusted, LoadSessions(p.sessions), LoadSenderKeys(p.senderKeys)))
  }

  // Saving and reloading.

  predicate IsKeyPairMap(m: map<int, KeyPair>) {
    forall id :: id in m ==> IsKeyId(id) && IsKeyPair(m[id])
  }

  predicate IsRetiredMap(m: map<int, int>) {
    forall id :: id in m ==> IsKeyId(id) && IsTime(m[id])
  }

  /** Ids, keys and times are in range. */
  ghost predicate Storable(c: Contents) {
    && IsKeyPair(c.identity) && MIN_REGISTRATION_ID <= c.registrationId <= MAX_REGISTRATION_ID
      && IsKeyId(c.nextPreKeyId)
    && IsKeyPairMap(c.preKeys) && (forall id :: id in c.published ==> IsKeyId(id)) && IsKeyPairMap(c.signedPreKeys)
    && IsRetiredMap(c.retired) && IsTrustedMap(c.trusted)
    && (c.latestSignedPreKey.Some? ==> IsSignedPreKey(c.latestSignedPreKey.value))
  }

  function KeptSessions(sessions: map<string, SessionRecord>): map<string, SessionRecord> {
    map id | id in sessions && IsOwn(id) :: SessionForms.Record(SessionForms.ClosedSessions(sessions[id].sessions))
  }

  function KeptSenderKeys(senderKeys: map<string, SenderKeyRecord>): map<string, SenderKeyRecord> {
    map id | id in senderKeys && IsOwn(id) :: SenderKeyForms.WithoutEmpty(senderKeys[id])
  }

  /** What is left of the contents. */
  function Reloaded(c: Contents): Contents {
    c.(published := c.published * c.preKeys.Keys, sessions := KeptSessions(c.sessions),
       senderKeys := KeptSenderKeys(c.senderKeys))
  }

  /** No record is under the one name that plain objects treat specially, and no key is without bytes. */
  ghost predicate NothingLost(c: Contents) {
    && (forall id :: id in c.sessions ==> IsOwn(id) && SessionForms.NoEmptyKeys(c.sessions[id]))
    && forall id :: id in c.senderKeys ==> IsOwn(id) && SenderKeyForms.NoEmptyKeys(c.senderKeys[id])
  }

  lemma NamesOf<V>(m: map<int, V>)
    ensures forall i :: 0 <= i < |ToObject(m)| ==>
              SortedIds(m)[i] in m && ToObject(m)[i] == (Decimal(SortedIds(m)[i]), m[SortedIds(m)[i]])
    ensures |ToObject(m)| == |SortedIds(m)| && Members(SortedIds(m)) == m.Keys
    ensures forall i :: 0 <= i < |ToObject(m)| ==> ParseDecimal(ToObject(m)[i].0) == Some(SortedIds(m)[i])
  {
    forall i | 0 <= i < |ToObject(m)| ensures ParseDecimal(ToObject(m)[i].0) == Some(SortedIds(m)[i]) {
      DecimalParses(SortedIds(m)[i]);
    }
    hide Decimal, ParseDecimal;
  }

  lemma KeyPairsNamed(m: map<int, KeyPair>)
    ensures IsKeyPairObject(ToObject(m)) <==> IsKeyPairMap(m)
  {
    NamesOf(m);
    hide ToObject, Decimal, ParseDecimal, SortedIds;
    var ids := SortedIds(m);
    if IsKeyPairObject(ToObject(m)) {
      forall id | id in m ensures IsKeyId(id) && IsKeyPair(m[id]) {
        assert id in Members(ids);
        var i :| 0 <= i < |ids| && ids[i] == id;
        assert IsIdName(ToObject(m)[i].0);
      }
    }
  }

  lemma TimesNamed(m: map<int, int>)
    ensures IsRetiredObject(ToObject(m)) <==> IsRetiredMap(m)
  {
    NamesOf(m);
    hide ToObject, Decimal, ParseDecimal, SortedIds;
    var ids := SortedIds(m);
    if IsRetiredObject(ToObject(m)) {
      forall id | id in m ensures IsKeyId(id) && IsTime(m[id]) {
        assert id in Members(ids);
        var i :| 0 <= i < |ids| && ids[i] == id;
        assert IsIdName(ToObject(m)[i].0);
      }
    }
  }

  lemma PublishedSaved(ids: set<int>)
    ensures AreKeyIds(SortedKeys(ids)) <==> forall id :: id in ids ==> IsKeyId(id)
    ensures forall id :: id in SortedKeys(ids) <==> id in ids
  {
    SortedMembers(ids);
    hide SortedKeys;
    var r := SortedKeys(ids);
    assert forall id :: id in r <==> id in Members(r);
    if AreKeyIds(r) {
      forall id | id in ids ensures IsKeyId(id) {
        assert id in Members(r);
        var i :| 0 <= i < |r| && r[i] == id;
      }
    }
  }

  lemma NormalWhenStorable(c: Contents)
    ensures Normal(ToSnapshot(c)) <==> Storable(c)
  {
    KeyPairsNamed(c.preKeys);
    KeyPairsNamed(c.signedPreKeys);
    TimesNamed(c.retired);
    PublishedSaved(c.published);
    hide ToObject, SortedKeys, IsKeyPairObject, IsKeyPairMap, IsRetiredObject, IsRetiredMap, SerializeSessions,
         SerializeSenderKeys, AreKeyIds, IsKeyPair, IsSignedPreKey, IsTrustedMap;
  }

  lemma RecordsLoad(c: Contents)
    ensures AllLoad(SerializeSessions(c.sessions), SerializeSenderKeys(c.senderKeys))
    ensures LoadSessions(SerializeSessions(c.sessions)) == KeptSessions(c.sessions)
    ensures LoadSenderKeys(SerializeSenderKeys(c.senderKeys)) == KeptSenderKeys(c.senderKeys)
  {
    hide SessionForms.Serialize, SessionForms.Deserialize, SenderKeyForms.SerializeRecord,
         SenderKeyForms.DeserializeRecord,
         SessionForms.ClosedSessions, SenderKeyForms.WithoutEmpty;
    forall id | id in c.sessions
      ensures SessionForms.Deserialize(SessionForms.Serialize(c.sessions[id]))
              == Success(SessionForms.Record(SessionForms.ClosedSessions(c.sessions[id].sessions)))
    {
      SessionForms.RecordIsClosed(c.sessions[id]);
    }
    forall id | id in c.senderKeys
      ensures SenderKeyForms.DeserializeRecord(SenderKeyForms.SerializeRecord(c.senderKeys[id]))
              == Success(SenderKeyForms.WithoutEmpty(c.senderKeys[id]))
    {
      SenderKeyForms.StatesRead(c.senderKeys[id]);
    }
  }

  lemma ReservationsKept(published: set<int>, preKeys: map<int, KeyPair>)
    ensures (set id | id in SortedKeys(published) && id in preKeys) == published * preKeys.Keys
  {
    SortedMembers(published);
    hide SortedKeys;
    var r := SortedKeys(published);
    assert forall id :: id in r <==> id in Members(r);
  }

  /** What saving and reloading makes of any contents: a file that cannot be opened if an id, a key or a
      time is out of range, and otherwise the contents without what a snapshot does not keep. */
  lemma ReloadIs(c: Contents)
    ensures ApplySnapshot(ToSnapshot(c)) == if Storable(c) then Some(Reloaded(c)) else None
  {
    NormalWhenStorable(c);
    RecordsLoad(c);
    FromObjectInverts(c.preKeys);
    FromObjectInverts(c.signedPreKeys);
    FromObjectInverts(c.retired);
    PublishedSaved(c.published);
    hide Normal, Storable, AllLoad, ToObject, FromObject, SortedKeys, SerializeSessions, SerializeSenderKeys,
         LoadSessions,
         LoadSenderKeys, KeptSessions, KeptSenderKeys;
    ReservationsKept(c.published, c.preKeys);
  }

  lemma KeptIsSame(c: Contents)
    ensures KeptSessions(c.sessions) == c.sessions && KeptSenderKeys(c.senderKeys) == c.senderKeys <==> NothingLost(c)
  {
    hide SessionForms.ClosedSessions, SenderKeyForms.WithoutEmpty, SessionForms.NoEmptyKeys, SenderKeyForms.NoEmptyKeys;
    forall id | id in c.sessions
      ensures SessionForms.Record(SessionForms.ClosedSessions(c.sessions[id].sessions)) == c.sessions[id]
              <==> SessionForms.NoEmptyKeys(c.sessions[id])
    {
      SessionForms.ClosedIsSame(c.sessions[id].sessions);
    }
    forall id | id in c.senderKeys
      ensures SenderKeyForms.WithoutEmpty(c.senderKeys[id]) == c.senderKeys[id] <==>
                SenderKeyForms.NoEmptyKeys(c.senderKeys[id])
    {
      SenderKeyForms.SameWithoutEmpty(c.senderKeys[id]);
    }
    if KeptSessions(c.sessions) == c.sessions && KeptSenderKeys(c.senderKeys) == c.senderKeys {
      forall id | id in c.sessions ensures IsOwn(id) && SessionForms.NoEmptyKeys(c.sessions[id]) {
        assert id in KeptSessions(c.sessions);
      }
      forall id | id in c.senderKeys ensures IsOwn(id) && SenderKeyForms.NoEmptyKeys(c.senderKeys[id]) {
        assert id in KeptSenderKeys(c.senderKeys);
      }
    }
    if NothingLost(c) {
      assert KeptSessions(c.sessions) == c.sessions;
      assert KeptSenderKeys(c.senderKeys) == c.senderKeys;
    }
  }

  /** The contents come back if and only if everything is in range, each published id is that of a stored
      prekey, and nothing is in the records that their form does not keep. */
  lemma ReloadExactlyWhen(c: Contents)
    ensures ApplySnapshot(ToSnapshot(c)) == Some(c)
            <==> Storable(c) && c.published <= c.preKeys.Keys && NothingLost(c)
  {
    ReloadIs(c);
    KeptIsSame(c);
    hide Storable, ToSnapshot, ApplySnapshot, KeptSessions, KeptSenderKeys, NothingLost;
    assert c.published * c.preKeys.Keys == c.published <==> c.published <= c.preKeys.Keys by {
      if c.published * c.preKeys.Keys == c.published {
        assert forall id :: id in c.published ==> id in c.published * c.preKeys.Keys;
      }
    }
  }

  /** Which contents can be saved and opened again: the ranges that are checked. */
  lemma OpensWhenInRange(c: Contents)
    ensures ApplySnapshot(ToSnapshot(c)).Some? <==>
              && |c.identity.pubKey| == 33 && |c.identity.privKey| == 32 && 0 <= c.registrationId <= 0x3fff
              && 0 <= c.nextPreKeyId <= 0xffffff
              && (forall id :: id in c.preKeys ==>
                    0 <= id <= 0xffffff && |c.preKeys[id].pubKey| == 33 && |c.preKeys[id].privKey| == 32)
              && (forall id :: id in c.signedPreKeys ==>
                    0 <= id <= 0xffffff && |c.signedPreKeys[id].pubKey| == 33 && |c.signedPreKeys[id].privKey| == 32)
              && (forall id :: id in c.published ==> 0 <= id <= 0xffffff)
              && (forall id :: id in c.retired ==> 0 <= id <= 0xffffff && 0 <= c.retired[id] < 0x20_0000_0000_0000)
              && (forall id :: id in c.trusted ==> |c.trusted[id]| == 33)
              && (c.latestSignedPreKey.Some? ==>
                    var l := c.latestSignedPreKey.value;
                    && 0 <= l.keyId <= 0xffffff && |l.keyPair.pubKey| == 33 && |l.keyPair.privKey| == 32
                    && |l.signature| == 64 && 0 <= l.createdAt < 0x20_0000_0000_0000)
  {
    ReloadIs(c);
    hide ApplySnapshot, ToSnapshot;
  }

  /** What such contents are when they are opened again: a reservation without its prekey is dropped, and so is a
      record under the one name that plain objects treat specially. */
  lemma OpensAs(c: Contents)
    requires ApplySnapshot(ToSnapshot(c)).Some?
    ensures var r := ApplySnapshot(ToSnapshot(c)).value;
            && r == c.(published := r.published, sessions := r.sessions, senderKeys := r.senderKeys)
            && (forall id :: id in r.published <==> id in c.published && id in c.preKeys)
            && (forall id :: id in r.sessions <==> id in c.sessions && id != "__proto__")
            && (forall id :: id in r.senderKeys <==> id in c.senderKeys && id != "__proto__")
            && (forall id :: id in r.sessions && SessionForms.NoEmptyKeys(c.sessions[id]) ==>
                  r.sessions[id] == c.sessions[id])
            && (forall id :: id in r.senderKeys && SenderKeyForms.NoEmptyKeys(c.senderKeys[id]) ==>
                  r.senderKeys[id] == c.senderKeys[id])
  {
    ReloadIs(c);
    hide ApplySnapshot, ToSnapshot, Storable, SessionForms.NoEmptyKeys, SenderKeyForms.NoEmptyKeys,
         SessionForms.ClosedSessions, SenderKeyForms.WithoutEmpty;
    forall id | id in c.sessions && SessionForms.NoEmptyKeys(c.sessions[id])
      ensures SessionForms.Record(SessionForms.ClosedSessions(c.sessions[id].sessions)) == c.sessions[id]
    {
      SessionForms.ClosedIsSame(c.sessions[id].sessions);
    }
    forall id | id in c.senderKeys && SenderKeyForms.NoEmptyKeys(c.senderKeys[id])
      ensures SenderKeyForms.WithoutEmpty(c.senderKeys[id]) == c.senderKeys[id]
    {
      SenderKeyForms.SameWithoutEmpty(c.senderKeys[id]);
    }
  }

  /** What the operations keep when their ids, keys and records are in range. */
  ghost predicate InRange(c: Contents) {
    Storable(c) && c.published <= c.preKeys.Keys && NothingLost(c)
  }

  ghost predicate OpInRange(op: Op) {
    match op
    case StoreSession(id, session) => IsOwn(id) && SessionForms.NoEmptyKeys(session)
    case StoreSenderKey(id, senderKey) => IsOwn(id) && SenderKeyForms.NoEmptyKeys(senderKey)
    case IsTrustedIdentity(_, key, _) => |key| == 33
    case SaveIdentity(_, key) => |key| == 33
    case StorePreKey(id, pair) => IsKeyId(id) && IsKeyPair(pair)
    case SetNextPreKeyId(id) => IsKeyId(id)
    case StoreSignedPair(id, pair) => IsKeyId(id) && IsKeyPair(pair)
    case StoreSignedPreKey(signed, now, _) => IsSignedPreKey(signed) && IsTime(now)
    case _ => true
  }

  lemma ApplyKeepsStorable(c: Contents, op: Op)
    requires Storable(c) && c.published <= c.preKeys.Keys && OpInRange(op)
    ensures Storable(Apply(c, op).0)
  {
    hide IsKeyPair, IsKeyId, WithoutSessionsOf, WithoutGroup;
    if op.StoreSignedPreKey? {
      hide IsTime;
    }
  }

  lemma ApplyKeepsRecords(c: Contents, op: Op)
    requires NothingLost(c) && OpInRange(op)
    ensures NothingLost(Apply(c, op).0)
  {
    hide IsKeyPair, IsKeyId, IsSignedPreKey, IsTime, Pruned, SessionForms.NoEmptyKeys, SenderKeyForms.NoEmptyKeys,
         IsOwn;
    if op.StoreSignedPreKey? {
      PrunedKeepsRecords(c, op.signed, op.now, op.gracePeriod);
      hide NothingLost;
    }
  }

  lemma PrunedKeepsRecords(c: Contents, signed: SignedPreKey, now: int, gracePeriod: int)
    requires NothingLost(c)
    ensures NothingLost(Apply(c, StoreSignedPreKey(signed, now, gracePeriod)).0)
  {
    hide SessionForms.NoEmptyKeys, SenderKeyForms.NoEmptyKeys, IsOwn, Retire;
  }

  lemma ApplyKeepsPublished(c: Contents, op: Op)
    requires c.published <= c.preKeys.Keys
    ensures Apply(c, op).0.published <= Apply(c, op).0.preKeys.Keys
  {
    hide WithoutSessionsOf, WithoutGroup, Retire;
  }

  lemma ApplyKeepsInRange(c: Contents, op: Op)
    requires InRange(c) && OpInRange(op)
    ensures InRange(Apply(c, op).0)
  {
    hide Storable, NothingLost, OpInRange, Apply;
    ApplyKeepsStorable(c, op);
    ApplyKeepsRecords(c, op);
    ApplyKeepsPublished(c, op);
  }

  function ApplyAll(c: Contents, ops: seq<Op>): Contents {
    if ops == [] then c else Apply(ApplyAll(c, ops[..|ops| - 1]), ops[|ops| - 1]).0
  }

  lemma {:induction false} ApplyAllKeepsInRange(c: Contents, ops: seq<Op>)
    requires InRange(c) && forall i :: 0 <= i < |ops| ==> OpInRange(ops[i])
    ensures InRange(ApplyAll(c, ops))
  {
    if ops != [] {
      ApplyAllKeepsInRange(c, ops[..|ops| - 1]);
      hide InRange, OpInRange, Apply;
      ApplyKeepsInRange(ApplyAll(c, ops[..|ops| - 1]), ops[|ops| - 1]);
    }
  }

  /** After any operations with ids, keys and records in range, saving and reloading gives the contents
      of a store that was never saved. */
  lemma ReloadedLikeMemory(c: Contents, ops: seq<Op>)
    requires InRange(c) && forall i :: 0 <= i < |ops| ==> OpInRange(ops[i])
    ensures ApplySnapshot(ToSnapshot(ApplyAll(c, ops))) == Some(ApplyAll(c, ops))
  {
    ApplyAllKeepsInRange(c, ops);
    ReloadExactlyWhen(ApplyAll(c, ops));
    hide ApplyAll, OpInRange, ToSnapshot, ApplySnapshot, Storable, NothingLost;
  }

  lemma {:induction false} ApplyAllAppend(c: Contents, ops: seq<Op>, more: seq<Op>)
    ensures ApplyAll(ApplyAll(c, ops), more) == ApplyAll(c, ops + more)
  {
    hide Apply;
    if more == [] {
      assert ops + more == ops;
    } else {
      var n := |more| - 1;
      ApplyAllAppend(c, ops, more[..n]);
      assert (ops + more)[..|ops| + n] == ops + more[..n];
    }
  }

  /** Reloading at any point, and going on, comes to the same. */
  lemma ReloadAnywhere(c: Contents, ops: seq<Op>, more: seq<Op>)
    requires InRange(c) && forall i :: 0 <= i < |ops| ==> OpInRange(ops[i])
    ensures var reloaded := ApplySnapshot(ToSnapshot(ApplyAll(c, ops)));
            reloaded.Some? && ApplyAll(reloaded.value, more) == ApplyAll(c, ops + more)
  {
    hide ApplyAll, ToSnapshot, ApplySnapshot, InRange, OpInRange;
    ReloadedLikeMemory(c, ops);
    ApplyAllAppend(c, ops, more);
  }
}
