/** The serialized session record: what SessionRecord.serialize writes for JSON, and what
    SessionRecord.deserialize makes of it. */
module SessionForms {
  import opened Wrappers
  import opened Texts
  import opened Objects
  import opened ChainIds
  import K = Keys
  import R = Ratchet
  import T = SessionTable

  const SESSION_RECORD_VERSION := "v1"
  const SESSION_ENTRY_VERSION := "v1"

  // Records with their keys as bytes.

  datatype ChainData = ChainData(counter: int, key: Option<Bytes>, chainType: int, messageKeys: map<int, Bytes>)

  datatype CurrentRatchet = CurrentRatchet(pubKey: Bytes, privKey: Bytes, lastRemote: Bytes, previousCounter: int,
                                           rootKey: Bytes)

  datatype IndexInfo = IndexInfo(baseKey: Bytes, baseKeyType: int, closed: int, used: int, created: int,
                                 remoteIdentity: Bytes)

  datatype Pending = Pending(signedKeyId: int, baseKey: Bytes, preKeyId: Option<int>)

  /** `chains` is the `_chains` dictionary in its order. */
  datatype Entry = Entry(
    registrationId: Option<int>, ratchet: CurrentRatchet, info: IndexInfo, pending: Option<Pending>,
      chains: Object<ChainData>)

  datatype Record = Record(sessions: Object<Entry>)

  // The same with text for bytes.

  datatype ChainForm = ChainForm(counter: int, key: Option<string>, chainType: int, messageKeys: Object<string>)

  datatype RatchetForm = RatchetForm(pubKey: string, privKey: string, lastRemote: string, previousCounter: int,
                                     rootKey: string)

  datatype IndexForm = IndexForm(baseKey: string, baseKeyType: int, closed: int, used: int, created: int,
                                 remoteIdentity: string)

  datatype PendingForm = PendingForm(signedKeyId: int, baseKey: string, preKeyId: Option<int>)

  datatype EntryForm = EntryForm(
    entryVersion: Option<string>, registrationId: Option<int>, ratchet: RatchetForm, info: IndexForm,
    pending: Option<PendingForm>, chains: Object<ChainForm>)

  datatype RecordForm = RecordForm(version: Option<string>, registrationId: Option<int>, sessions: Object<EntryForm>)

  datatype Error = CannotMigrateRecord | CannotMigrateEntry

  // Chains.

  function AsText(m: map<int, Bytes>): map<int, string> {
    map i | i in m :: Base64(m[i])
  }

  function AsBytes(m: map<int, string>): map<int, Bytes> {
    map i | i in m :: FromBase64(m[i])
  }

  function SerializeChain(c: ChainData): ChainForm
  {
    ChainForm(c.counter, if c.key.Some? then Some(Base64(c.key.value)) else None, c.chainType,
              ToObject(AsText(c.messageKeys)))
  }

  /** A chain key that is an empty string is taken for one that is not there. */
  function DeserializeChain(f: ChainForm): ChainData {
    ChainData(f.counter, if f.key.Some? && f.key.value != "" then Some(FromBase64(f.key.value)) else None, f.chainType,
              AsBytes(FromObject(f.messageKeys)))
  }

  lemma ChainReads(c: ChainData)
    ensures DeserializeChain(SerializeChain(c)) == c.(key := if c.key == Some([]) then None else c.key)
  {
    FromObjectInverts(AsText(c.messageKeys));
    TextReads(c.messageKeys);
    if c.key.Some? {
      Base64Reads(c.key.value);
      Base64Empty(c.key.value);
    }
    hide Base64, FromBase64, ToObject, FromObject, AsText, AsBytes;
  }

  lemma TextReads(m: map<int, Bytes>)
    ensures AsBytes(AsText(m)) == m
  {
    forall i | i in m ensures FromBase64(Base64(m[i])) == m[i] {
      Base64Reads(m[i]);
    }
    hide Base64, FromBase64;
  }

  function SerializeChains(chains: Object<ChainData>): (r: Object<ChainForm>)
    ensures |r| == |chains|
  {
    seq(|chains|, i requires 0 <= i < |chains| => (chains[i].0, SerializeChain(chains[i].1)))
  }

  function DeserializeChains(chains: Object<ChainForm>): (r: Object<ChainData>)
    ensures |r| == |chains|
  {
    seq(|chains|, i requires 0 <= i < |chains| => (chains[i].0, DeserializeChain(chains[i].1)))
  }

  /** _serializeChains */
  method BuildChainForms(chains: Object<ChainData>) returns (r: Object<ChainForm>)
    requires DistinctNames(chains)
    ensures r == SerializeChains(chains)
  {
    r := [];
    for i := 0 to |chains|
      invariant r == SerializeChains(chains)[..i]
    {
      AssignNew(r, chains[i].0, SerializeChain(chains[i].1));
      r := Assign(r, chains[i].0, SerializeChain(chains[i].1));
    }
  }

  /** _deserializeChains */
  method BuildChains(chains: Object<ChainForm>) returns (r: Object<ChainData>)
    requires DistinctNames(chains)
    ensures r == DeserializeChains(chains)
  {
    r := [];
    for i := 0 to |chains|
      invariant r == DeserializeChains(chains)[..i]
    {
      AssignNew(r, chains[i].0, DeserializeChain(chains[i].1));
      r := Assign(r, chains[i].0, DeserializeChain(chains[i].1));
    }
  }

  // Entries.

  function SerializeRatchet(r: CurrentRatchet): RatchetForm {
    RatchetForm(Base64(r.pubKey), Base64(r.privKey), Base64(r.lastRemote), r.previousCounter, Base64(r.rootKey))
  }

  function SerializeInfo(i: IndexInfo): IndexForm {
    IndexForm(Base64(i.baseKey), i.baseKeyType, i.closed, i.used, i.created, Base64(i.remoteIdentity))
  }

  function SerializePending(p: Option<Pending>): Option<PendingForm> {
    if p.Some? then Some(PendingForm(p.value.signedKeyId, Base64(p.value.baseKey), p.value.preKeyId)) else None
  }

  function SerializeEntry(e: Entry): EntryForm
  {
    EntryForm(Some(SESSION_ENTRY_VERSION), e.registrationId, SerializeRatchet(e.ratchet), SerializeInfo(e.info),
              SerializePending(e.pending), SerializeChains(e.chains))
  }

  function DeserializeRatchet(f: RatchetForm): CurrentRatchet {
    CurrentRatchet(FromBase64(f.pubKey), FromBase64(f.privKey), FromBase64(f.lastRemote), f.previousCounter,
                   FromBase64(f.rootKey))
  }

  function DeserializeInfo(f: IndexForm): IndexInfo {
    IndexInfo(FromBase64(f.baseKey), f.baseKeyType, f.closed, f.used, f.created, FromBase64(f.remoteIdentity))
  }

  function DeserializePending(f: Option<PendingForm>): Option<Pending> {
    if f.Some? then Some(Pending(f.value.signedKeyId, FromBase64(f.value.baseKey), f.value.preKeyId)) else None
  }

  /** There are no entry migrations yet: an entry without a version is read as it is. */
  function DeserializeEntry(f: EntryForm): Result<Entry, Error> {
    if f.entryVersion.Some? && f.entryVersion.value != SESSION_ENTRY_VERSION then Failure(CannotMigrateEntry)
    else
      Success(Entry(f.registrationId, DeserializeRatchet(f.ratchet), DeserializeInfo(f.info),
                    DeserializePending(f.pending),
                    DeserializeChains(f.chains)))
  }

  /** What is left of an entry: a chain with an empty chain key is closed. */
  function Closing(chains: Object<ChainData>): (r: Object<ChainData>)
    ensures |r| == |chains|
  {
    seq(|chains|, i requires 0 <= i < |chains| =>
      (chains[i].0, chains[i].1.(key := if chains[i].1.key == Some([]) then None else chains[i].1.key)))
  }

  lemma RatchetReads(r: CurrentRatchet, i: IndexInfo)
    ensures DeserializeRatchet(SerializeRatchet(r)) == r && DeserializeInfo(SerializeInfo(i)) == i
  {
    Base64Reads(r.pubKey);
    Base64Reads(r.privKey);
    Base64Reads(r.lastRemote);
    Base64Reads(r.rootKey);
    Base64Reads(i.baseKey);
    Base64Reads(i.remoteIdentity);
    hide Base64, FromBase64;
  }

  lemma ChainsRead(chains: Object<ChainData>)
    ensures DeserializeChains(SerializeChains(chains)) == Closing(chains)
  {
    forall i | 0 <= i < |chains|
      ensures DeserializeChain(SerializeChain(chains[i].1)) == Closing(chains)[i].1
    {
      ChainReads(chains[i].1);
    }
    hide SerializeChain, DeserializeChain;
  }

  /** A serialized entry is read as the entry it was, but for chain keys without bytes. */
  lemma EntryReads(e: Entry)
    ensures DeserializeEntry(SerializeEntry(e)) == Success(e.(chains := Closing(e.chains)))
  {
    RatchetReads(e.ratchet, e.info);
    ChainsRead(e.chains);
    if e.pending.Some? {
      Base64Reads(e.pending.value.baseKey);
    }
    hide SerializeRatchet, DeserializeRatchet, SerializeInfo, DeserializeInfo, SerializeChains, DeserializeChains,
         Closing,
         Base64, FromBase64;
  }

  // Records.

  function SerializeSessions(sessions: Object<Entry>): (r: Object<EntryForm>)
    ensures |r| == |sessions|
  {
    seq(|sessions|, i requires 0 <= i < |sessions| => (sessions[i].0, SerializeEntry(sessions[i].1)))
  }

  /** SessionRecord.serialize, up to JSON.stringify */
  function Serialize(r: Record): RecordForm
  {
    RecordForm(Some(SESSION_RECORD_VERSION), None, SerializeSessions(r.sessions))
  }

  predicate Truthy(n: Option<int>) {
    n.Some? && n.value != 0
  }

  /** The migration to "v1": the registration id of the record goes to its sessions. */
  function MigrateV1(f: RecordForm): (r: Object<EntryForm>)
    ensures |r| == |f.sessions|
  {
    if Truthy(f.registrationId) then
      seq(|f.sessions|, i requires 0 <= i < |f.sessions| =>
        (f.sessions[i].0, if Truthy(f.sessions[i].1.registrationId) then f.sessions[i].1
                          else f.sessions[i].1.(registrationId := f.registrationId)))
    else f.sessions
  }

  function Migrate(f: RecordForm): Result<Object<EntryForm>, Error> {
    match f.version
    case None => Success(MigrateV1(f))
    case Some(v) => if v == SESSION_RECORD_VERSION then Success(f.sessions) else Failure(CannotMigrateRecord)
  }

  function DeserializeSessions(sessions: Object<EntryForm>): Result<Object<Entry>, Error> {
    if sessions == [] then Success([])
    else
      var front :- DeserializeSessions(sessions[..|sessions| - 1]);
      var last :- DeserializeEntry(sessions[|sessions| - 1].1);
      Success(front + [(sessions[|sessions| - 1].0, last)])
  }

  /** SessionRecord.deserialize, after JSON.parse */
  function Deserialize(f: RecordForm): Result<Record, Error> {
    var migrated :- Migrate(f);
    var sessions :- DeserializeSessions(migrated);
    Success(Record(sessions))
  }

  /** The loop of SessionRecord.deserialize. */
  method BuildSessions(sessions: Object<EntryForm>) returns (r: Result<Object<Entry>, Error>)
    requires DistinctNames(sessions)
    ensures r == DeserializeSessions(sessions)
  {
    var built: Object<Entry> := [];
    for i := 0 to |sessions|
      invariant DeserializeSessions(sessions[..i]) == Success(built) && |built| == i
      invariant forall j :: 0 <= j < i ==> built[j].0 == sessions[j].0
    {
      assert sessions[..i + 1][..i] == sessions[..i] && sessions[..i + 1][i] == sessions[i];
      var entry := DeserializeEntry(sessions[i].1);
      if entry.Failure? {
        FailsFrom(sessions, i + 1);
        return Failure(entry.error);
      }
      AssignNew(built, sessions[i].0, entry.value);
      built := Assign(built, sessions[i].0, entry.value);
    }
    assert sessions[..|sessions|] == sessions;
    r := Success(built);
  }

  lemma {:induction false} FailsFrom(sessions: Object<EntryForm>, n: nat)
    requires n <= |sessions| && DeserializeSessions(sessions[..n]).Failure?
    ensures DeserializeSessions(sessions) == DeserializeSessions(sessions[..n])
    decreases |sessions|
  {
    if n < |sessions| {
      assert sessions[..|sessions| - 1][..n] == sessions[..n];
      FailsFrom(sessions[..|sessions| - 1], n);
    } else {
      assert sessions[..n] == sessions;
    }
  }

  function ClosedSessions(sessions: Object<Entry>): (r: Object<Entry>)
    ensures |r| == |sessions|
  {
    seq(|sessions|, i requires 0 <= i < |sessions| => (sessions[i].0,
                                                       sessions[i].1.(chains := Closing(sessions[i].1.chains))))
  }

  lemma {:induction false} SessionsRead(sessions: Object<Entry>)
    ensures DeserializeSessions(SerializeSessions(sessions)) == Success(ClosedSessions(sessions))
  {
    hide SerializeEntry, DeserializeEntry, Closing;
    if sessions != [] {
      var n := |sessions| - 1;
      SessionsRead(sessions[..n]);
      EntryReads(sessions[n].1);
      assert SerializeSessions(sessions)[..n] == SerializeSessions(sessions[..n]);
      assert ClosedSessions(sessions) == ClosedSessions(sessions[..n]) + [ClosedSessions(sessions)[n]];
    } else {
      assert ClosedSessions(sessions) == [];
    }
  }

  ghost predicate NoEmptyKeys(r: Record) {
    forall i, j :: 0 <= i < |r.sessions| && 0 <= j < |r.sessions[i].1.chains| ==>
      r.sessions[i].1.chains[j].1.key != Some([])
  }

  lemma RecordIsClosed(r: Record)
    ensures Deserialize(Serialize(r)) == Success(Record(ClosedSessions(r.sessions)))
  {
    SessionsRead(r.sessions);
    hide SerializeSessions, DeserializeSessions, ClosedSessions;
  }

  /** A record comes back from its serialized form, sessions and chains in their order, if and only if
      no chain key is without bytes. */
  lemma RecordReads(r: Record)
    ensures Deserialize(Serialize(r)) == Success(r) <==> NoEmptyKeys(r)
  {
    RecordIsClosed(r);
    ClosedIsSame(r.sessions);
    hide SerializeSessions, DeserializeSessions, ClosedSessions;
  }

  lemma ClosedIsSame(sessions: Object<Entry>)
    ensures ClosedSessions(sessions) == sessions <==> NoEmptyKeys(Record(sessions))
  {
    if ClosedSessions(sessions) == sessions {
      forall i, j | 0 <= i < |sessions| && 0 <= j < |sessions[i].1.chains|
        ensures sessions[i].1.chains[j].1.key != Some([])
      {
        assert ClosedSessions(sessions)[i] == sessions[i];
        assert Closing(sessions[i].1.chains)[j] == sessions[i].1.chains[j];
      }
    }
    if NoEmptyKeys(Record(sessions)) {
      forall i | 0 <= i < |sessions| ensures ClosedSessions(sessions)[i] == sessions[i] {
        assert Closing(sessions[i].1.chains) == sessions[i].1.chains;
      }
      assert ClosedSessions(sessions) == sessions;
    }
  }

  function Registered(sessions: Object<Entry>, registrationId: int): (r: Object<Entry>)
    ensures |r| == |sessions|
  {
    seq(|sessions|, i requires 0 <= i < |sessions| =>
      (sessions[i].0, if sessions[i].1.registrationId in {None, Some(0)}
                      then sessions[i].1.(registrationId := Some(registrationId)) else sessions[i].1))
  }

  lemma MigrationRegisters(sessions: Object<Entry>, registrationId: int)
    requires registrationId != 0
    ensures MigrateV1(RecordForm(None, Some(registrationId), SerializeSessions(sessions)))
            == SerializeSessions(Registered(sessions, registrationId))
  {
    hide SerializeRatchet, SerializeInfo, SerializePending, SerializeChains;
  }

  /** A record of before the versions: its sessions get its registration id where they have none. */
  lemma UnversionedReads(r: Record, registrationId: int)
    requires NoEmptyKeys(r) && registrationId != 0
    ensures Deserialize(RecordForm(None, Some(registrationId), SerializeSessions(r.sessions)))
            == Success(Record(Registered(r.sessions, registrationId)))
  {
    MigrationRegisters(r.sessions, registrationId);
    SessionsRead(Registered(r.sessions, registrationId));
    ClosedIsSame(Registered(r.sessions, registrationId));
    hide SerializeSessions, DeserializeSessions, ClosedSessions, MigrateV1;
  }

  ghost predicate IsKnown(version: Option<string>) {
    version.None? || version.value == "v1"
  }

  lemma EntryReadsWhen(f: EntryForm)
    ensures DeserializeEntry(f).Success? <==> IsKnown(f.entryVersion)
    ensures DeserializeEntry(f).Failure? ==> DeserializeEntry(f) == Failure(CannotMigrateEntry)
  {
  }

  lemma {:induction false} SessionsReadWhen(sessions: Object<EntryForm>)
    ensures DeserializeSessions(sessions).Success? <==>
              forall i :: 0 <= i < |sessions| ==> IsKnown(sessions[i].1.entryVersion)
    ensures DeserializeSessions(sessions).Failure? ==> DeserializeSessions(sessions) == Failure(CannotMigrateEntry)
  {
    hide DeserializeEntry, IsKnown;
    if sessions != [] {
      var n := |sessions| - 1;
      SessionsReadWhen(sessions[..n]);
      assert forall i :: 0 <= i < n ==> sessions[..n][i] == sessions[i];
      EntryReadsWhen(sessions[n].1);
    }
  }

  /** Only a record and sessions of version "v1", or of none, are read, and it is written as "v1". */
  lemma ReadExactlyWhen(f: RecordForm)
    ensures Deserialize(f).Success? <==>
              IsKnown(f.version) && forall i :: 0 <= i < |f.sessions| ==> IsKnown(f.sessions[i].1.entryVersion)
    ensures Deserialize(f) == Failure(CannotMigrateRecord) <==> !IsKnown(f.version)
  {
    if IsKnown(f.version) {
      SessionsReadWhen(Migrate(f).value);
      assert forall i :: 0 <= i < |f.sessions| ==>
          Migrate(f).value[i].1.entryVersion == f.sessions[i].1.entryVersion;
    }
    hide DeserializeSessions;
  }

  /** What is written of each session, field by field. */
  lemma WrittenAs(r: Record, i: nat)
    requires i < |r.sessions|
    ensures var f := Serialize(r);
            f.version == Some("v1") && f.registrationId == None && |f.sessions| == |r.sessions|
            && f.sessions[i].0 == r.sessions[i].0
            && var g, e := f.sessions[i].1, r.sessions[i].1;
               && g.entryVersion == Some("v1") && g.registrationId == e.registrationId
               && g.info.closed == e.info.closed && g.info.used == e.info.used && g.info.created == e.info.created
               && g.info.baseKeyType == e.info.baseKeyType && g.info.baseKey == Base64(e.info.baseKey)
               && g.info.remoteIdentity == Base64(e.info.remoteIdentity)
               && g.ratchet.previousCounter == e.ratchet.previousCounter
               && g.ratchet.pubKey == Base64(e.ratchet.pubKey) && g.ratchet.privKey == Base64(e.ratchet.privKey)
               && g.ratchet.lastRemote == Base64(e.ratchet.lastRemote) && g.ratchet.rootKey == Base64(e.ratchet.rootKey)
               && (g.pending.Some? <==> e.pending.Some?)
               && (e.pending.Some? ==>
                     && g.pending.value.signedKeyId == e.pending.value.signedKeyId
                     && g.pending.value.baseKey == Base64(e.pending.value.baseKey)
                     && g.pending.value.preKeyId == e.pending.value.preKeyId)
               && |g.chains| == |e.chains|
  {
    hide Base64;
  }

  /** And of each chain. */
  lemma ChainWrittenAs(c: ChainData)
    ensures var f := SerializeChain(c);
            && f.counter == c.counter && f.chainType == c.chainType
            && f.key == (if c.key.Some? then Some(Base64(c.key.value)) else None)
            && FromObject(f.messageKeys).Keys == c.messageKeys.Keys
            && forall i :: i in c.messageKeys ==> FromObject(f.messageKeys)[i] == Base64(c.messageKeys[i])
  {
    FromObjectInverts(AsText(c.messageKeys));
    hide Base64, FromObject, ToObject;
  }

  // The session entries of SessionEntry.dfy.

  /** The bytes of public keys and of secrets, and the ids that prekeys are stored under. */
  datatype Naming = Naming(publicKey: K.KeyId -> Bytes, secret: K.Key -> Bytes, id: K.KeyId -> int)

  ghost predicate NamingOk(n: Naming) {
    && (forall a, b :: n.publicKey(a) == n.publicKey(b) ==> a == b)
    && forall k :: n.secret(k) != []
  }

  ghost predicate SessionOk(s: R.Session) {
    s.chains.Keys == R.Ids(s.order) && NoRepeats(s.order)
  }

  function ChainOf(c: R.Chain, n: Naming): ChainData {
    ChainData(c.counter, if c.key.Some? then Some(n.secret(c.key.value)) else None, if c.kind.Sending? then 1 else 2,
              map i | i in c.messageKeys :: n.secret(c.messageKeys[i]))
  }

  function ChainsOf(s: R.Session, n: Naming): (r: Object<ChainData>)
    requires forall i :: 0 <= i < |s.order| ==> s.order[i] in s.chains
    ensures |r| == |s.order|
  {
    seq(|s.order|, i requires 0 <= i < |s.order| => (Base64(n.publicKey(s.order[i])), ChainOf(s.chains[s.order[i]], n)))
  }

  /** The entry whose keys have these bytes. */
  function EntryOf(s: R.Session, info: T.IndexInfo, registrationId: Option<int>, n: Naming): Entry
    requires forall i :: 0 <= i < |s.order| ==> s.order[i] in s.chains
  {
    Entry(registrationId,
          CurrentRatchet(n.publicKey(s.ephemeral), n.secret(K.Private(s.ephemeral)), n.publicKey(s.lastRemote),
                         s.previousCounter, n.secret(s.rootKey)),
          IndexInfo(n.publicKey(s.baseKey), if info.ours then 1 else 2, info.closed, info.used, info.created,
                    n.publicKey(s.remoteIdentity)),
          if s.pending.Some? then
            Some(Pending(n.id(s.pending.value.signedPreKey), n.publicKey(s.pending.value.baseKey),
                         if s.pending.value.preKey.Some? then Some(n.id(s.pending.value.preKey.value)) else None))
          else None,
          ChainsOf(s, n))
  }

  /** What SessionEntry.Copy takes a copy to be, the same session in objects of its own, is what
      deserialize makes of what serialize writes, whatever bytes the keys have. */
  lemma CopyIsReload(s: R.Session, info: T.IndexInfo, registrationId: Option<int>, n: Naming)
    requires SessionOk(s) && NamingOk(n)
    ensures forall i :: 0 <= i < |s.order| ==> s.order[i] in s.chains
    ensures var e := EntryOf(s, info, registrationId, n);
            DistinctNames(e.chains) && DeserializeEntry(SerializeEntry(e)) == Success(e)
  {
    assert forall i :: 0 <= i < |s.order| ==> s.order[i] in R.Ids(s.order);
    var e := EntryOf(s, info, registrationId, n);
    ChainsOfOk(s, n);
    EntryReads(e);
    NoneCloses(s, n);
    hide SerializeEntry, DeserializeEntry, Closing, ChainsOf;
  }

  lemma ChainsOfOk(s: R.Session, n: Naming)
    requires SessionOk(s) && NamingOk(n) && forall i :: 0 <= i < |s.order| ==> s.order[i] in s.chains
    ensures DistinctNames(ChainsOf(s, n))
  {
    var r := ChainsOf(s, n);
    forall i, j | 0 <= i < j < |r| ensures r[i].0 != r[j].0 {
      if r[i].0 == r[j].0 {
        Base64Injective(n.publicKey(s.order[i]), n.publicKey(s.order[j]));
      }
    }
    hide Base64;
  }

  lemma NoneCloses(s: R.Session, n: Naming)
    requires NamingOk(n) && forall i :: 0 <= i < |s.order| ==> s.order[i] in s.chains
    ensures Closing(ChainsOf(s, n)) == ChainsOf(s, n)
  {
    hide Base64;
  }
}
